/** Where the image and overlay files of session.py and image_profiles.py are: a profile's free text
    resolved to a directory, and the two kinds of file name. */
module ImagePaths {
  import opened Bytes
  import opened SessionNames

  /** A directory as the names on the way to it from the file system's root. */
  type Dir = seq<bytes>

  datatype FilePath = FilePath(dir: Dir, name: bytes)

  const HERE: bytes := [DOT]
  const PARENT: bytes := [DOT, DOT]

  /** The texts "_overlays", "base-v" and ".img". */
  const OVERLAY_DIR_NAME: bytes := [95, 111, 118, 101, 114, 108, 97, 121, 115]
  const BASE_TAG: bytes := [98, 97, 115, 101, 45, 118]
  const IMAGE_SUFFIX: bytes := [46, 105, 109, 103]

  // ---------- directories ----------

  function Enter(at: Dir, part: bytes): Dir {
    if part == [] || part == HERE then at
    else if part == PARENT then at[..Max(0, |at| - 1)]
    else at + [part]
  }

  function Walk(at: Dir, parts: seq<bytes>): Dir
    decreases |parts|
  {
    if |parts| == 0 then at else Walk(Enter(at, parts[0]), parts[1..])
  }

  /** `images_root / text`: an absolute text leaves the root behind. */
  function Directory(root: Dir, text: bytes): Dir {
    Walk(if |text| > 0 && text[0] == SLASH then [] else root, Split(SLASH, text))
  }

  lemma {:induction false} WalkOnNothing(at: Dir, parts: seq<bytes>)
    ensures Walk(at, parts + [[]]) == Walk(at, parts)
    decreases |parts|
  {
    if |parts| == 0 {
      assert Walk(Enter(at, []), []) == at;
    } else {
      assert (parts + [[]])[1..] == parts[1..] + [[]];
      WalkOnNothing(Enter(at, parts[0]), parts[1..]);
    }
  }

  lemma SplitAfterFirst(sep: byte, head: bytes, rest: bytes)
    requires sep !in head && Split(sep, rest + [sep]) == Split(sep, rest) + [[]]
    ensures Split(sep, head + [sep] + (rest + [sep])) == Split(sep, head + [sep] + rest) + [[]]
  {
    SplitFirst(sep, head, rest + [sep]);
    SplitFirst(sep, head, rest);
  }

  lemma FirstCut(sep: byte, text: bytes) returns (head: bytes, rest: bytes)
    requires sep in text
    ensures text == head + [sep] + rest && sep !in head && |rest| < |text|
  {
    var i := IndexOf(sep, text);
    head, rest := text[..i], text[i + 1..];
  }

  lemma JoinEnds(head: bytes, middle: bytes, rest: bytes, end: bytes)
    ensures head + middle + rest + end == head + middle + (rest + end)
  {
  }

  lemma {:induction false} SplitAtEnd(sep: byte, text: bytes)
    ensures Split(sep, text + [sep]) == Split(sep, text) + [[]]
    decreases |text|
  {
    if sep in text {
      var head, rest := FirstCut(sep, text);
      SplitAtEnd(sep, rest);
      SplitAfterFirst(sep, head, rest);
      JoinEnds(head, [sep], rest, [sep]);
    } else {
      SplitFirst(sep, text, []);
      assert text + [sep] + [] == text + [sep];
    }
  }

  /** Different texts can be one directory: a slash after a text or "./" before it changes nothing. */
  lemma OneDirectoryManyTexts(root: Dir, text: bytes)
    requires |text| > 0
    ensures Directory(root, text + [SLASH]) == Directory(root, text)
    ensures text[0] != SLASH ==> Directory(root, [DOT, SLASH] + text) == Directory(root, text)
  {
    SplitAtEnd(SLASH, text);
    WalkOnNothing(if text[0] == SLASH then [] else root, Split(SLASH, text));
    SplitFirst(SLASH, [DOT], text);
    assert [DOT] + [SLASH] + text == [DOT, SLASH] + text;
  }

  /** An ordinary name: not empty, no slash, neither "." nor "..". */
  predicate IsName(part: bytes) { part != [] && SLASH !in part && part != HERE && part != PARENT }

  lemma {:induction false} WalkDown(at: Dir, parts: seq<bytes>)
    requires forall part :: part in parts ==> IsName(part)
    ensures Walk(at, parts) == at + parts
    decreases |parts|
  {
    if |parts| > 0 {
      assert parts[0] in parts && parts == [parts[0]] + parts[1..];
      assert Enter(at, parts[0]) == at + [parts[0]];
      WalkDown(at + [parts[0]], parts[1..]);
      assert at + [parts[0]] + parts[1..] == at + ([parts[0]] + parts[1..]);
    } else {
      assert at + parts == at;
    }
  }

  /** Names joined by slashes lead down from the root, or from the top with a slash before them; and ".."
      leads back up. */
  lemma DirectoryIs(root: Dir, parts: seq<bytes>, name: bytes)
    requires |parts| > 0 && IsName(name) && forall part :: part in parts ==> IsName(part)
    ensures Directory(root, Join(SLASH, parts)) == root + parts
    ensures Directory(root, [SLASH] + Join(SLASH, parts)) == parts
    ensures Directory(root, name + [SLASH] + PARENT) == root
  {
    DownFromRoot(root, parts);
    DownFromTop(root, parts);
    UpAgain(root, name);
  }

  lemma DownFromRoot(root: Dir, parts: seq<bytes>)
    requires |parts| > 0 && forall part :: part in parts ==> IsName(part)
    ensures Directory(root, Join(SLASH, parts)) == root + parts
  {
    SplitInvertsJoin(SLASH, parts);
    assert parts[0] in parts;
    FirstOfJoin(parts);
    WalkDown(root, parts);
  }

  lemma DownFromTop(root: Dir, parts: seq<bytes>)
    requires |parts| > 0 && forall part :: part in parts ==> IsName(part)
    ensures Directory(root, [SLASH] + Join(SLASH, parts)) == parts
  {
    SplitAfterSlash(Join(SLASH, parts));
    SplitInvertsJoin(SLASH, parts);
    WalkOverNothing([], parts);
    WalkDown([], parts);
    assert [] + parts == parts;
  }

  lemma SplitAfterSlash(text: bytes)
    ensures Split(SLASH, [SLASH] + text) == [[]] + Split(SLASH, text)
  {
    SplitFirst(SLASH, [], text);
    assert [] + [SLASH] + text == [SLASH] + text;
  }

  lemma WalkOverNothing(at: Dir, parts: seq<bytes>)
    ensures Walk(at, [[]] + parts) == Walk(at, parts)
  {
    assert ([[]] + parts)[0] == [] && ([[]] + parts)[1..] == parts;
  }

  lemma FirstOfJoin(parts: seq<bytes>)
    requires |parts| > 0 && IsName(parts[0])
    ensures |Join(SLASH, parts)| > 0 && Join(SLASH, parts)[0] != SLASH
  {
    assert parts[0][0] in parts[0];
  }

  lemma UpAgain(root: Dir, name: bytes)
    requires IsName(name)
    ensures Directory(root, name + [SLASH] + PARENT) == root
  {
    SplitFirst(SLASH, name, PARENT);
    assert Split(SLASH, PARENT) == [PARENT];
    assert (name + [SLASH] + PARENT)[0] == name[0] && name[0] in name;
    assert ([name] + [PARENT])[1..] == [PARENT];
    assert Walk(root, [name] + [PARENT]) == Walk(root + [name], [PARENT]);
    assert Walk(root + [name], [PARENT]) == Walk(Enter(root + [name], PARENT), []) by { assert [PARENT][1..] == []; }
    assert (root + [name])[..|root|] == root;
  }

  // ---------- file names ----------

  function BaseName(version: nat): bytes { BASE_TAG + PrintNat(version) + IMAGE_SUFFIX }

  /** `_overlay_path` */
  function OverlayFile(root: Dir, iqn: bytes): FilePath { FilePath(root + [OVERLAY_DIR_NAME], OverlayName(iqn)) }

  predicate IsOverlay(f: FilePath) { |f.name| >= 4 && f.name[|f.name| - 4..] == COW_SUFFIX }

  lemma BaseNameInjective(m: nat, n: nat)
    requires BaseName(m) == BaseName(n)
    ensures m == n
  {
    CancelSuffix(BASE_TAG + PrintNat(m), BASE_TAG + PrintNat(n), IMAGE_SUFFIX);
    CancelPrefix(BASE_TAG, PrintNat(m), PrintNat(n));
    PrintInjective(m, n);
  }

  /** No overlay has the name of an image, whatever directory a profile was given. */
  lemma OverlaysAreNotImages(root: Dir, iqn: bytes, dir: Dir, version: nat)
    ensures IsOverlay(OverlayFile(root, iqn)) && !IsOverlay(FilePath(dir, BaseName(version)))
  {
    var overlay, image := OverlayName(iqn), BaseName(version);
    assert overlay[|overlay| - 4..] == COW_SUFFIX;
    assert image[|image| - 4..] == IMAGE_SUFFIX;
    assert COW_SUFFIX[1] != IMAGE_SUFFIX[1];
  }

  lemma FilesSpelledOut()
    ensures OVERLAY_DIR_NAME == Text("_overlays") && BASE_TAG == Text("base-v") && IMAGE_SUFFIX == Text(".img")
    ensures BaseName(7) == Text("base-v7.img")
  {
    assert PrintNat(7) == Text("7");
    assert Text("base-v") + Text("7") + Text(".img") == Text("base-v7.img");
  }
}
