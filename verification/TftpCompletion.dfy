/** The other half of delivery: when a transfer can reach its end at all. */
module TftpCompletion {
  import opened Bytes
  import opened TftpPacket
  import opened TftpTransfer
  import opened TftpServer
  import opened TftpDelivery

  /** The server waits on block `n`, which it has just sent, and the client holds the blocks before it. */
  ghost predicate Ready(sc: Scenario, s: System, n: nat)
    requires sc.WellFormed()
  {
    && Inv(sc, s) && n <= MAX_BLOCK && n <= sc.Count()
    && sc.addr in s.server.transfers && s.server.transfers[sc.addr].pending == n
    && |s.server.sent| > 0
    && s.server.sent[|s.server.sent| - 1] == (sc.addr, PendingPacket(s.server.transfers[sc.addr]))
    && s.client.got == Max(0, n - 1)
  }

  lemma AcceptsPending(sc: Scenario, s: System, n: nat)
    requires sc.WellFormed() && Ready(sc, s, n)
    ensures var m := ToClient(|s.server.sent| - 1);
      && CanMove(sc, s, m) && Next(sc, s, m).server == s.server && Inv(sc, Next(sc, s, m))
      && AckPacket(n) in Next(sc, s, m).client.out && Next(sc, s, m).client.got == n
  {
    var m := ToClient(|s.server.sent| - 1);
    NextInv(sc, s, m);
    if n == 0 {
      OackRoundTrip(sc.BlockSize());
    } else {
      DataPacketFields(n, Chunk(sc.payload, sc.BlockSize(), n));
    }
  }

  /** A full block acknowledged: the server moves on and sends the next one. */
  lemma AckSendsNext(s: Server, addr: Addr, n: block16)
    requires s.Valid() && addr in s.transfers && s.transfers[addr].pending == n && n < MAX_BLOCK
    requires n > 0 ==> |s.transfers[addr].sentChunks[n]| >= s.transfers[addr].blockSize
    ensures var after := HandleAck(s, n, addr);
      && addr in after.transfers && after.transfers[addr].pending == n + 1 && |after.sent| > 0
      && after.sent[|after.sent| - 1] == (addr, PendingPacket(after.transfers[addr]))
  {
  }

  lemma ServesNext(sc: Scenario, s: System, n: nat)
    requires sc.WellFormed() && Inv(sc, s) && n < sc.Count() && n < MAX_BLOCK
    requires sc.addr in s.server.transfers && s.server.transfers[sc.addr].pending == n
    requires s.client.got == n && AckPacket(n) in s.client.out
    ensures var m := Serve(Received(sc.addr, AckPacket(n)));
      CanMove(sc, s, m) && Ready(sc, Next(sc, s, m), n + 1)
  {
    var m := Serve(Received(sc.addr, AckPacket(n)));
    NextInv(sc, s, m);
    AckPacketFields(n);
    if n > 0 { ShortIffLast(sc.payload, sc.BlockSize(), n); }
    AckSendsNext(s.server, sc.addr, n);
  }

  lemma RunCons(sc: Scenario, s: System, m: Move, moves: seq<Move>, end: System)
    requires s.server.Valid() && CanMove(sc, s, m) && Next(sc, s, m).server.Valid() && Run(sc, Next(sc, s, m), moves, end)
    ensures Run(sc, s, [m] + moves, end)
  {
    assert ([m] + moves)[1..] == moves;
  }

  lemma {:induction false} FinishFrom(sc: Scenario, s: System, n: nat) returns (moves: seq<Move>, end: System)
    requires sc.WellFormed() && Ready(sc, s, n) && sc.Count() <= MAX_BLOCK
    ensures Run(sc, s, moves, end) && end.client.complete
    decreases sc.Count() - n
  {
    var first := ToClient(|s.server.sent| - 1);
    AcceptsPending(sc, s, n);
    var s1 := Next(sc, s, first);
    if n == sc.Count() {
      moves, end := [], s1;
    } else {
      var second := Serve(Received(sc.addr, AckPacket(n)));
      ServesNext(sc, s1, n);
      var rest;
      rest, end := FinishFrom(sc, Next(sc, s1, second), n + 1);
      RunCons(sc, s1, second, rest, end);
      moves := [second] + rest;
    }
    RunCons(sc, s, first, moves, end);
    moves := [first] + moves;
  }

  lemma StartInv(sc: Scenario)
    requires sc.WellFormed()
    ensures Inv(sc, Start(sc))
  {
  }

  lemma AsksForTransfer(sc: Scenario)
    requires sc.WellFormed()
    ensures var ask := Serve(Received(sc.addr, sc.Request()));
      && CanMove(sc, Start(sc), ask) && Inv(sc, Next(sc, Start(sc), ask))
      && Next(sc, Start(sc), ask).client == Start(sc).client
      && Next(sc, Start(sc), ask).server == INITIAL.(jobs := [Job(sc.addr, sc.filename, Dict(sc.options))])
  {
    StartInv(sc);
    NextInv(sc, Start(sc), Serve(Received(sc.addr, sc.Request())));
    RequestQueuesAJob(sc, INITIAL);
  }

  lemma BeginsTransfer(sc: Scenario, s: System)
    requires sc.WellFormed() && Inv(sc, s) && s.client == Start(sc).client
    requires s.server == INITIAL.(jobs := [Job(sc.addr, sc.filename, Dict(sc.options))])
    ensures var answer := Serve(Resolved(0, Some(sc.payload)));
      CanMove(sc, s, answer) && Ready(sc, Next(sc, s, answer), FirstBlock(sc.UseOack()))
  {
    NextInv(sc, s, Serve(Resolved(0, Some(sc.payload))));
    DictEmptyIffNoOptions(sc.options);
  }

  ghost predicate CanComplete(sc: Scenario) {
    exists moves, end :: Run(sc, Start(sc), moves, end) && end.client.complete
  }

  /** Some run hands the client the whole payload if and only if the payload is shorter than 65535
      blocks; past that bound no run does. */
  lemma CompletionIff(sc: Scenario)
    requires sc.WellFormed()
    ensures CanComplete(sc) <==> |sc.payload| < MAX_BLOCK * sc.BlockSize()
  {
    QuotientBound(|sc.payload|, sc.BlockSize(), MAX_BLOCK);
    if |sc.payload| < MAX_BLOCK * sc.BlockSize() {
      var ask, answer := Serve(Received(sc.addr, sc.Request())), Serve(Resolved(0, Some(sc.payload)));
      AsksForTransfer(sc);
      var s1 := Next(sc, Start(sc), ask);
      BeginsTransfer(sc, s1);
      var s2 := Next(sc, s1, answer);
      var moves, end := FinishFrom(sc, s2, FirstBlock(sc.UseOack()));
      RunCons(sc, s1, answer, moves, end);
      RunCons(sc, Start(sc), ask, [answer] + moves, end);
    } else {
      forall moves, end | Run(sc, Start(sc), moves, end) ensures !end.client.complete {
        StartInv(sc);
        RunInv(sc, Start(sc), moves, end);
      }
    }
  }
}
