# Verified model of the diskless boot server

The server boots diskless PCs: a DHCP server hands out addresses, a TFTP server hands out boot files
and, on the way, prepares a copy-on-write iSCSI disk for the client; a web process lets administrators
build new image versions. This project models the four stateful parts and proves what they keep.

| file | models |
|---|---|
| `Bytes.dfy` | byte strings, slices, decimal and hexadecimal text, split and join |
| `TftpPacket.dfy`, `TftpTransfer.dfy`, `TftpServer.dfy` | the TFTP codec, one transfer, the per-address transfer and timer tables |
| `TftpRuns.dfy` | what every run of the server keeps: the send bound and the timer discipline |
| `TftpDelivery.dfy`, `TftpCompletion.dfy` | the server against an RFC 1350 lockstep client over a lossy, duplicating, reordering channel |
| `DhcpPacket.dfy`, `Leases.dfy`, `DhcpServer.dfy` | the DHCP codec, the lease pool, and the server that joins them |
| `SessionNames.dfy`, `Lio.dfy`, `Sessions.dfy` | session names, the shared iSCSI target, client and admin sessions and the reaper run to completion |
| `SessionLedger.dfy` | client starts and the reaper interleaved one primitive call at a time |
| `ImagePaths.dfy`, `ImageProfiles.dfy`, `ImageAdmin.dfy` | directories and file names; profile locks, admin write sessions and image versions |
| `ImageFiles.dfy`, `ImageLeftovers.dfy`, `ImageTarget.dfy` | what each event does to image files and loops; what raising calls, crashes and shared directories do later on; the same target as in `Lio.dfy` |
| `ImageChanges.dfy` | exactly which events change which table, file and session |
| `ImageSafety.dfy` | why registered images are immutable, and the two events after which they no longer are |

Classes carry the state the program mutates; each of their methods is proved to take the value of the
object (`View()`) to the value a specification function gives, and the theorems are about those
functions over whole runs. Exceptions are `None`, `Raised` or `Overflow` results with the partial
effects that precede them. Time is a parameter: every clock reading of an operation is separate. Text
is its encoded bytes. The kernel picks loop devices and LUN numbers that are not in use.

## Where the code falls short, and exactly when

- A transfer and its timer stay paired through every event except three kinds: an acknowledgement that
  is not of the pending block, or is of block 65535 with more to follow (the timer is cancelled before the
  block number is looked at), an ERROR (the transfer goes, its timer stays), and a second request
  (`TftpRuns.TimerDiscipline`, an equivalence). In runs without such an event a transfer is live if and only
  if one timer of its address is armed (`TftpRuns.LiveIffOneTimer`).
- `MAX_RETRANSMITS` counts sends: a packet left unanswered is sent five times, four of them retransmissions
  (`TftpRuns.UnansweredPacketIsSentFiveTimes`).
- A transfer runs into the overflow of the 16-bit block number if and only if the payload fills 65535
  blocks (`TftpTransfer.OverflowIffTooLong`), and some run delivers it if and only if it does not
  (`TftpCompletion.CompletionIff`).
- A repeated offer costs a client the rest of its lease beyond the offer timeout: before the old expiry its
  address can go to somebody else if and only if more than the offer timeout was left
  (`Leases.OfferShortensIff`); `Leases.OfferLosesTheLease` is a run in which it does.
- Starting a client session is safe if and only if no other session of that initiator is starting, active
  or still being torn down, and no failed start of it attached a loop to its overlay file
  (`SessionLedger.SafeToBeginIff`). Absence of an active row is not enough, because the row is deleted
  before the snapshot, loops and overlay file are freed (`SessionLedger.NoRowIsNotEnough`).
- A failed start keeps its loops for good (`SessionLedger.FailedStartLeaks`), but the client's next start
  comes up if and only if the failed one made no snapshot (`Sessions.RetrySucceedsIff`). It takes over the
  overlay file, emptying it, even if the failed start's loop is still attached to it.
- Reaper passes do not wait for each other. A row that two of them have selected is ended twice, which is
  harmless unless the client has started anew in between: then its new session is torn down
  (`Sessions.StalePassEndsTheNext`).
- A second start for a running client always fails, but if it gets as far as the overlay file it has erased
  everything the client wrote, and its own loops stay (`Sessions.SecondStartFails`).
- All sessions of one administrator share an initiator IQN, so while one is open a second on another profile
  always fails, and its writable loop, backstore and LUN stay behind for good (`Sessions.SecondAdminStartFails`).
- A backstore left behind caps its profile: no run, restarts included, ever gives the profile that version
  number or a later one; every start for it fails, and leaves one more writable loop if it got to attach it
  (`ImageLeftovers.LeftoverStoreCapsTheProfile`). It is left exactly by a start that registers it and then
  raises, by a finish that raises before removing it, and by a restart with the session open
  (`ImageLeftovers.CapsIff`).
- A mapping left behind shuts its administrator out of every profile for good
  (`ImageLeftovers.LeftoverMappingShutsOut`, left exactly by the events of `ImageLeftovers.ShutsOutIff`).
- A start that reaches its copy overwrites a registered image exactly when another profile of the same
  directory has the number it is about to use (`ImageLeftovers.CopyOverwritesIff`), which two profiles
  come to by themselves (`ImageLeftovers.SharedDirectoryLosesAnImage`).
- Given separate directories for the profiles that hold images, which no handler changes, registered images
  are immutable through every event but two: a start that attached its loop and then
  cannot make its backstore, and a finish that cannot detach its loop while the profile has an image to go
  on from (`ImageSafety.RegisteredImagesAreImmutable`). After either of the two, and after nothing else, some
  run without further failures registers an image that is open for writing (`ImageSafety.EndangersIff`).
  Crashes with open sessions, second sessions of an administrator, other failing calls and new profiles on
  used directories leave things behind (`ImageFiles.TidyIff`), but a leftover backstore keeps each of their
  loops off a registered image.

The comment at the top of `session.py` and DESIGN.md section 3.4 describe the reaper as cleaning up what
a disconnected client left; a failed start leaves resources that no row names and no reaper can find
(`SessionLedger.FailedStartLeaks`, `Sessions.StartFailsIff`). The code is followed.

## Model

| member | source | states |
|---|---|---|
| TftpPacket.RrqRoundTrip | src/diskless/bootd/tftp.py:48-52 | `parse_rrq` recovers the file name and, last value winning, the options of any NUL-free request |
| TftpPacket.DictRecovers | src/diskless/bootd/tftp.py:51 | with distinct keys the option dictionary holds exactly the listed options and nothing else |
| TftpPacket.ReadOptionsInvertsBody | src/diskless/bootd/tftp.py:63-65 | the body that `oack_packet` prints reads back as the option dictionary it was given |
| TftpPacket.OackRoundTrip | src/diskless/bootd/tftp.py:63-65 | the OACK of a block size has opcode 6 and reads back as that size |
| TftpPacket.DataPacketFields | src/diskless/bootd/tftp.py:59-60 | opcode, 16-bit block number and data of a DATA packet are recovered from its bytes |
| TftpPacket.OpcodesAre | src/diskless/bootd/tftp.py:55-65 | the first bytes of every packet kind as numbers, and block 65535 as two bytes |
| TftpPacket.NegotiateBlockSize | src/diskless/bootd/tftp.py:68-71 | the negotiated size is the one in 8..1468 nearest to the request, so an allowed request is granted as asked; without the option it is 512; it fails exactly on a non-numeric value |
| TftpTransfer.Transfer.constructor | src/diskless/bootd/tftp.py:83-87 | a new transfer waits for block 0 after an OACK and block 1 otherwise, with nothing sent |
| TftpTransfer.Transfer.FirstPacketToSend | src/diskless/bootd/tftp.py:93-98 | the first packet is the OACK or block 1, and block 1 is recorded as sent |
| TftpTransfer.Transfer.HandleAck | src/diskless/bootd/tftp.py:100-112 | the reply and the new state of the object are those of `Acknowledge`, including the state left by the overflow |
| TftpTransfer.ShortIffLast | src/diskless/bootd/tftp.py:89-91 | exactly the last block is short, also when the payload is a multiple of the block size, and each block is its slice of the payload |
| TftpTransfer.BlocksArePrefix | src/diskless/bootd/tftp.py:89-91 | the blocks in order make a prefix of the payload, and all of them make the payload |
| TftpTransfer.OverflowIffTooLong | src/diskless/bootd/tftp.py:108-112 | some acknowledgement sequence raises the 16-bit OverflowError if and only if the payload fills 65535 blocks |
| TftpTransfer.FinishIffShortEnough | src/diskless/bootd/tftp.py:105-106 | a transfer can be acknowledged to its end if and only if the payload is below that bound |
| TftpServer.TftpProtocol.DatagramReceived | src/diskless/bootd/tftp.py:124-141 | a datagram changes the tables as its opcode says; write requests are refused and any other opcode drops the transfer |
| TftpServer.TftpProtocol.JobResolved | src/diskless/bootd/tftp.py:131-136 | a resolved request begins its transfer; one that raised, in the worker or on its block size, leaves none |
| TftpServer.TftpProtocol.StartTransfer | src/diskless/bootd/tftp.py:154-158 | the new transfer replaces any other of the address, its first packet is sent and a timer armed |
| TftpServer.TftpProtocol.AckReceived | src/diskless/bootd/tftp.py:160-169 | timer cancelled, transfer advanced, next packet sent and armed, or the transfer removed |
| TftpServer.TftpProtocol.SendAndArmRetransmit | src/diskless/bootd/tftp.py:171-175 | the packet is written and a timer carrying it is armed and becomes the address's handle |
| TftpServer.TftpProtocol.RetransmitTimeout | src/diskless/bootd/tftp.py:177-183 | a fired timer sends again with the attempt counted, or gives the transfer up |
| TftpServer.TftpProtocol.CancelTimer | src/diskless/bootd/tftp.py:185-188 | the handle and the call it names are gone, nothing else changes |
| TftpServer.StepValid | src/diskless/bootd/tftp.py:121-122 | every event keeps handles naming armed timers of their own address, and pending blocks recorded as sent |
| TftpServer.HandlesAreActive | src/diskless/bootd/tftp.py:186-188 | a stored handle is always still active when it is cancelled |
| TftpRuns.SendBound | src/diskless/bootd/tftp.py:160-183 | in every run the packets of any interval of slots go to an address at most five times each per transfer begun for it that has them; stale and duplicate acknowledgements, errors and repeated requests never cause more |
| TftpRuns.FiringsAreBounded | src/diskless/bootd/tftp.py:160-183 | termination: in every run the timers of an address fire at most once per packet sent to it, and that is at most five times floor(L/bs) + 1 (+ 1 with an OACK) summed over the transfers begun for it |
| TftpRuns.TimerDiscipline | src/diskless/bootd/tftp.py:154-188 | one timer, carrying the pending packet, per live transfer and none without one: kept by an event if and only if it is none of three kinds |
| TftpRuns.LiveIffOneTimer | src/diskless/bootd/tftp.py:154-188 | after every run from the start without such an event a transfer is live if and only if a timer of its address is armed, and then it is one, the handle's, with the pending packet |
| TftpRuns.LeavesByDoneOrGiveUp | src/diskless/bootd/tftp.py:168-182 | under that discipline a transfer leaves the table only by its last acknowledgement or by giving up |
| TftpRuns.UnansweredPacketIsSentFiveTimes | src/diskless/bootd/tftp.py:177-183 | firing the timer of an unanswered transfer until it is gone sends its pending packet exactly as often as attempts were left |
| TftpRuns.WriteRequestIsRefused | src/diskless/bootd/tftp.py:127-130 | a datagram that starts with opcode 2 is answered by exactly one packet to its sender, an ERROR with code 2, and changes nothing else |
| TftpRuns.EveryWriteIsRefused | src/diskless/bootd/tftp.py:124-141 | over every run an address is sent as many ERROR packets as write requests came from it |
| TftpRuns.EveryReadIsResolvedOnce | src/diskless/bootd/tftp.py:131-136 | over every run the read requests of an address are those resolved, once each, and those still waiting |
| TftpDelivery.DeliversPrefix | src/diskless/bootd/tftp.py:83-112 | in every run against a lockstep client over any channel the client holds a prefix of the payload, and all of it once it saw a short block; copies of the request may arrive too |
| TftpDelivery.DoneMeansDelivered | src/diskless/bootd/tftp.py:160-169 | when the server takes an acknowledgement as final the client holds exactly the payload |
| TftpDelivery.TotalSends | src/diskless/bootd/tftp.py:160-183 | a corollary of the send bound for a lockstep client: every packet sent to it belongs to its transfer, so all its traffic is at most five sends per block and OACK, per transfer begun for it |
| TftpCompletion.CompletionIff | src/diskless/bootd/tftp.py:83-112 | some run hands the client the whole payload if and only if it is shorter than 65535 blocks |
| DhcpPacket.ParseRawOptions | src/diskless/dhcp/common.py:49-59 | the index loop computes the meaning of the option field, or fails with its IndexError |
| DhcpPacket.OptionsRoundTrip | src/diskless/dhcp/common.py:49-59 | any list of options with pads anywhere and anything after END reads back as its last-wins map |
| DhcpPacket.IndexErrorIff | src/diskless/dhcp/common.py:56 | the loop raises IndexError exactly when whole options are followed by one lone option code |
| DhcpPacket.RenderMacInjective | src/diskless/dhcp/common.py:67 | different hardware addresses have different texts, whatever their lengths |
| DhcpPacket.TypedRequestsAreWhole | src/diskless/dhcp/common.py:62-70 | a request that names its type has whole xid, chaddr and giaddr fields |
| DhcpPacket.IpRoundTrip | src/diskless/bootd/dhcp_standalone.py:85-86 | `_ip_to_bytes` inverts the dotted text of any address |
| DhcpPacket.BuildPxeOptions | src/diskless/dhcp/common.py:106-115 | the two PXE options, or failure exactly when a length does not fit its byte |
| DhcpPacket.BuildReply | src/diskless/dhcp/common.py:118-168 | the packet is the 236-byte header, the cookie and the encoding of the reply's item list; it fails exactly when a field does not fit |
| DhcpPacket.Header | src/diskless/dhcp/common.py:138-153 | the fixed part is always 236 bytes |
| DhcpPacket.OptionsOfReply | src/diskless/dhcp/common.py:155-166 | what a reader finds under every option code: 51 a lease time that reads as the number given, 66 the dotted server, 67 the NUL-terminated file name |
| DhcpPacket.ReplyRoundTrip | src/diskless/dhcp/common.py:62-81 | `parse_request` reads every field of a built reply back, and bytes 16..20 are yiaddr |
| DhcpPacket.HeaderBytes | src/diskless/dhcp/common.py:138-153 | every byte of the fixed part: BOOTREPLY over Ethernet, no flags, hardware address and file name filled up or cut, server name empty |
| DhcpPacket.ReplySlices | src/diskless/dhcp/common.py:138-168 | where header, cookie, options and addresses lie in the packet |
| DhcpPacket.BroadcastIsTheTopBit | src/diskless/dhcp/common.py:63-80 | a request asks for a broadcast exactly if the top bit of byte 10 is set |
| DhcpPacket.DestinationIs | src/diskless/dhcp/common.py:92-105 | a reply goes to the relay at port 67, to 255.255.255.255 at port 68, or back |
| DhcpPacket.AddressesSpelledOut | src/diskless/dhcp/common.py:67-88 | the texts of a hardware address and of an IPv4 address, letter by letter |
| Leases.LeasePool.constructor | src/diskless/bootd/dhcp_standalone.py:46-53 | a new pool has no leases |
| Leases.LeasePool.ReclaimExpired | src/diskless/bootd/dhcp_standalone.py:55-58 | the loop strikes out exactly the expired clients, keeping the tables in step |
| Leases.LeasePool.OfferLease | src/diskless/bootd/dhcp_standalone.py:60-71 | reclaims, then renews the client's address or lends the first free one, or fails |
| Leases.LeasePool.CommitLease | src/diskless/bootd/dhcp_standalone.py:73-76 | keeps or first offers an address, and protects it for the lease time |
| Leases.LeasePool.ReleaseLease | src/diskless/bootd/dhcp_standalone.py:78-82 | removes the client from all three tables |
| Leases.ReclaimKeepsTheLiving | src/diskless/bootd/dhcp_standalone.py:55-58 | exactly the leases with expiry after now remain, unchanged |
| Leases.StepValid | src/diskless/bootd/dhcp_standalone.py:55-82 | every operation keeps the address tables mutual inverses inside the pool with the clients of the expiry table |
| Leases.OfferIsFirstFit | src/diskless/bootd/dhcp_standalone.py:62-70 | a live client keeps its address; any other gets the free address of lowest index; either has it for the offer timeout |
| Leases.ExhaustedIff | src/diskless/bootd/dhcp_standalone.py:65-71 | PoolExhaustedError is raised exactly when a client without a live lease asks while live leases are as many as addresses |
| Leases.ReleaseIs | src/diskless/bootd/dhcp_standalone.py:78-82 | a released client has no lease and its address is free, every other lease is as it was |
| Leases.LeaseIsProtected | src/diskless/bootd/dhcp_standalone.py:55-82 | until a lease expires its address goes to nobody else in any run in which its client neither asks for an offer nor releases |
| Leases.OfferShortensIff | src/diskless/bootd/dhcp_standalone.py:62-64 | after a repeated offer some run of other clients before the old expiry is handed the address if and only if more than the offer timeout was left, which is also when the expiry moves forward |
| Leases.OfferLosesTheLease | src/diskless/bootd/dhcp_standalone.py:62-64 | a concrete run in which an address committed for an hour goes to a second client after half a minute |
| DhcpServer.StandaloneDhcpProtocol.DatagramReceived | src/diskless/bootd/dhcp_standalone.py:100-112 | a datagram moves pool and log as `Handle` says, and writes exactly the replies logged |
| DhcpServer.StandaloneDhcpProtocol.Build | src/diskless/bootd/dhcp_standalone.py:114-126 | the reply carries the pool's address, the server's own, the echoed fields and the PXE options iff the request was PXE, and goes to the relay, to everyone or back |
| DhcpServer.RequestsAreServed | src/diskless/bootd/dhcp_standalone.py:100-126 | a DISCOVER has the pool offer and is answered by an OFFER, a REQUEST has it commit and is answered by an ACK, nothing else changes anything; the answer, read back, echoes the request, carries the pool's address, an hour's lease, the server and the boot file, and goes out whenever there is an address and its options fit |
| DhcpServer.AddressesAreUnique | src/diskless/bootd/dhcp_standalone.py:100-126 | after any datagrams, two stations whose ACKs are younger than the lease and who sent no DISCOVER since hold different addresses in the bytes they were sent |
| SessionNames.SafeId | src/diskless/orchestration/session.py:48-49 | a safe name keeps its length and has no colon or slash |
| SessionNames.SameIqnIff | src/diskless/orchestration/session.py:52-56 | two MAC texts name one initiator exactly when they differ in colons only |
| SessionNames.ClientNamesAreInjective | src/diskless/orchestration/session.py:48-62 | different hardware addresses have different IQNs, snapshot and LUN names and overlay files |
| SessionNames.ClientAndAdminNamesDiffer | src/diskless/orchestration/session.py:116-151 | client and admin LUN names, and client and admin IQNs, never coincide |
| SessionNames.AdminNamesAreInjective | src/diskless/orchestration/session.py:151 | an admin LUN name determines its profile and version |
| SessionNames.IqnsSpelledOut | src/diskless/orchestration/session.py:52-56 | the IQN of a client and of an administrator, letter by letter |
| SessionNames.ClientNamesSpelledOut | src/diskless/orchestration/session.py:48-62 | a snapshot name and an overlay file name, letter by letter |
| Lio.SharedTarget.RegisterLun | src/diskless/iscsi/lio.py:21-39 | adds backstore, LUN, ACL and mapping, with the partial effects of each refusal and of each call raising by itself |
| Lio.SharedTarget.RemoveLun | src/diskless/iscsi/lio.py:42-59 | the loops remove exactly the initiator's ACL, the backstore's LUNs with their mappings, and the backstore |
| Lio.RemoveUndoesRegister | src/diskless/iscsi/lio.py:21-59 | removing what was registered restores the target exactly |
| Lio.RegisteredIsShown | src/diskless/iscsi/lio.py:29-39 | a registered LUN is what its initiator sees, on the device it was registered with |
| Lio.OthersAreUntouched | src/diskless/iscsi/lio.py:51-59 | registration and removal change nothing another initiator sees and no LUN of another name |
| Lio.InitiatorsAreIsolated | src/diskless/iscsi/lio.py:35-37 | after any run an initiator sees only a backstore registered for it, and no two see the same |
| Sessions.Orchestrator.CreateSparseOverlay | src/diskless/orchestration/session.py:65-67 | the overlay file is emptied and sized, or left empty or untouched by the call that raised |
| Sessions.Orchestrator.StartClientSession | src/diskless/orchestration/session.py:106-217 | every table after a start, successful or failed at any of its calls, is that of `Start` |
| Sessions.Orchestrator.EndSession | src/diskless/orchestration/session.py:274-288 | every table after the end of a client session is that of `End` |
| Sessions.Orchestrator.ReapDisconnected | src/diskless/orchestration/session.py:255-271 | the loop over the selected rows has the effect and result of `Reap` |
| Sessions.Orchestrator.StartAdminSession | src/diskless/orchestration/session.py:150-217 | loop, target and row after an admin start whose copy succeeded, registered or refused |
| Sessions.Orchestrator.EndAdminSession | src/diskless/orchestration/session.py:278-290 | target entries, row and loop of the admin session are gone, nothing else is touched |
| Sessions.EndUndoesStart | src/diskless/orchestration/session.py:184-288 | ending a session restores every table exactly, also when rebuilt from its stored row |
| Sessions.RowDescribesSession | src/diskless/orchestration/session.py:109-252 | the stored row says where everything of a session is: base loop read-only on the image, overlay loop on a blank overlay, the snapshot of the two, the initiator's only disk; the session rebuilt from it is the one started, its profile aside |
| Sessions.AdminRowDescribesSession | src/diskless/orchestration/session.py:150-215 | an admin session's loop is writable on its file and is the disk its initiator sees |
| Sessions.StartFailsIff | src/diskless/orchestration/session.py:110-215 | a start fails exactly when a call raises by itself, the snapshot or backstore name is taken, or the initiator is mapped; then no row is written; loops, overlay, snapshot, backstores and LUNs are exactly those of the calls before; and no initiator sees anything new, its own aside if the INSERT raised |
| Sessions.SecondStartFails | src/diskless/orchestration/session.py:112-119 | a further start for a running client's IQN always fails, erases the live overlay if it gets that far, and ending the session leaves exactly the loops of the further start |
| Sessions.RetrySucceedsIff | src/diskless/orchestration/session.py:110-119 | after a failed start the client's next one comes up if and only if the failed one made no snapshot, and ending it leaves exactly the failed one's loops |
| Sessions.AdminEndUndoesStart | src/diskless/orchestration/session.py:150-290 | ending an admin session restores loops, target and rows exactly |
| Sessions.SecondAdminStartFails | src/diskless/bootd/web/image_profiles.py:168-176 | a second session of one administrator on another profile always fails, leaves the first untouched, and its loop, backstore and LUN outlive the end of the first |
| Sessions.ReaperIsExact | src/diskless/orchestration/session.py:263-271 | one pass leaves exactly the admin rows and the connected client rows, takes exactly the loops, snapshots, overlays and target entries of the others, and returns their IQNs in row order |
| Sessions.StalePassEndsTheNext | src/diskless/bootd/main.py:79-90 | ending a row a second time changes nothing, unless its client has started anew: then the new session loses its row, target entries, snapshot and overlay, and its loops stay |
| SessionLedger.NextGood | src/diskless/orchestration/session.py:106-217 | every interleaved step from a good world is safe and keeps the books, provided no blocked start begins |
| SessionLedger.NothingLeaksOrBreaks | src/diskless/orchestration/session.py:106-288 | over every interleaving of starts, retries among them, and a reaper nothing is created twice, emptied in use, freed twice or freed in use; each resource is held by exactly one session; with all sessions gone the ledger is empty; the reaper sees only complete sessions |
| SessionLedger.StartComesUp | src/diskless/orchestration/session.py:106-217 | a start that no call stops becomes, by its own steps, an active session, whatever else is going on |
| SessionLedger.ActiveHoldsAll | src/diskless/orchestration/session.py:106-217 | an active session holds all eight resources of the set-up |
| SessionLedger.OnlyTheMappingIsFree | src/diskless/orchestration/session.py:278-288 | of what an active session holds everything but its LUN mapping has something resting on it, so no other tear-down order would do at its start |
| SessionLedger.PassReapsExactly | src/diskless/orchestration/session.py:255-288 | an undisturbed reaper pass ends, tears down exactly the active sessions whose clients have gone, and takes of the ledger exactly what they held |
| SessionLedger.FreeIsSafe | src/diskless/orchestration/session.py:278-288 | no tear-down step frees what something still rests on |
| SessionLedger.FailedStartLeaks | src/diskless/orchestration/session.py:106-198 | a failed start holds exactly the resources its calls made, and after every further orderly run, the client's own next starts among them, they are still in the ledger and its alone, but for an overlay file with no loop attached that the next start takes over |
| SessionLedger.SafeToBeginIff | src/diskless/orchestration/session.py:110-119 | a start is safe in all continuations if and only if no session of its IQN is starting, active, ending or failed with a loop on its overlay file |
| SessionLedger.NoRowIsNotEnough | src/diskless/orchestration/session.py:278-288 | an IQN without a row whose tear-down is unfinished is unsafe to start |
| ImageProfiles.StepCore | src/diskless/bootd/web/image_profiles.py:42-204 | every handler, with any exception, and every restart keep locks matching sessions, session numbers above all versions, and sound rows |
| ImageProfiles.LocksAreSessions | src/diskless/bootd/web/image_profiles.py:16-18 | in every run from process start the locked profiles are those with an open session, under the name of its administrator, and a forced unlock changes nothing |
| ImageProfiles.MergeNeverCollides | src/diskless/orchestration/session.py:290-298 | the number fixed at session start is unused and above every version whenever it is merged; a merge fails only if the file is gone |
| ImageChanges.AssignedVersionsStay | src/diskless/bootd/web/image_profiles.py:114-120 | no handler removes a version some client is assigned |
| ImageChanges.SessionsChangeIff | src/diskless/bootd/web/image_profiles.py:158-204 | sessions open exactly by a start that nothing refuses and close exactly by their finish or a restart |
| ImageChanges.ProfilesChangeIff | src/diskless/bootd/web/image_profiles.py:29-65 | profiles come exactly by their creation and go exactly by a deletion with no session, version or binding of theirs left |
| ImageChanges.VersionsChangeIff | src/diskless/bootd/web/image_profiles.py:100-204 | versions come exactly by merges that nothing stops, go exactly by deletions of unassigned ones, and never change |
| ImageChanges.DeleteVersionIff | src/diskless/bootd/web/image_profiles.py:114-137 | a deletion succeeds exactly for an existing unassigned version; then its row and image are gone and nothing else; refused, it changes nothing |
| ImageChanges.FilesChangeIff | src/diskless/orchestration/session.py:59-88 | a file goes exactly by a cancel, a version's deletion or its client's end, is written exactly by a copy, a client start or through its loop, and else keeps its bytes |
| ImageChanges.OverlayComesAndGoes | src/diskless/orchestration/session.py:59-67 | a client start makes a blank overlay as long as its image with one loop; its end takes loop and file |
| ImageChanges.CancelDiscards | src/diskless/orchestration/session.py:299-300 | a cancel answers with the redirect, discards the copy with its backstore and mapping, and keeps every other file and version |
| ImageChanges.CancelUndoesStart | src/diskless/bootd/web/image_profiles.py:158-204 | a session opened and cancelled gives files, loops, target, versions and locks back, its new file gone |
| ImageChanges.RefusalsIff | src/diskless/bootd/web/image_profiles.py:53-204 | which requests are answered by conflict and which by not found, and exactly why |
| ImageLeftovers.CopyOverwritesIff | src/diskless/orchestration/session.py:144-148 | a start whose copy opens the new file puts the grown base image in it, or what a failing copy got to; it was a registered image exactly when another profile of its directory has the next number; every other registered image keeps its bytes |
| ImageLeftovers.SharedDirectoryLosesAnImage | src/diskless/db.py:14 | two profiles of one directory at the same number: the image the first has merged is overwritten by the second's start |
| ImageSafety.StepKeepsImages | src/diskless/orchestration/session.py:144-150 | in a guarded world a registered file is not writable and keeps its bytes through every event that leaves it registered |
| ImageFiles.TidyIff | src/diskless/bootd/web/image_profiles.py:170-202 | writable loops other than overlays, backstores and mappings stay exactly those of the open sessions, in separate directories, if and only if the event is none of four kinds |
| ImageFiles.BootIsTidyIff | src/diskless/bootd/main.py:99-101 | a process starts with nothing left behind exactly if the last one left separate directories, no writable loop but of overlays, and no backstore or mapping of an admin session |
| ImageSafety.TidyIsGuarded | src/diskless/orchestration/session.py:144-198 | a world with nothing left behind satisfies the guard: images in separate directories, target books in balance, every stray loop on a file that cannot be registered |
| ImageSafety.GuardedStep | src/diskless/orchestration/session.py:144-300 | every event but the two keeps the guard: crashes with open sessions, second sessions, refused and raising calls, new profiles on used directories, client sessions and reaping |
| ImageSafety.RegisteredImagesAreImmutable | src/diskless/orchestration/session.py:144-300 | over every run free of the two events an image that stays registered keeps its bytes and is never open for writing |
| ImageSafety.EndangersIff | src/diskless/orchestration/session.py:144-300 | after an event some run free of the two registers an image that is open for writing if and only if the event is one of the two |
| ImageFiles.StartOpensIff | src/diskless/orchestration/session.py:144-198 | an unlocked start opens its session exactly if it reaches its copy, no call raises by itself, and neither its backstore nor a mapping of its administrator is there |
| ImageLeftovers.LeftoverStoreCapsTheProfile | src/diskless/iscsi/lio.py:29 | a leftover backstore: in no run does the profile get that number or a later one; every start at the number fails, and leaks one more loop once it attaches it |
| ImageLeftovers.AccountedStep | src/diskless/bootd/web/image_profiles.py:165-204 | every event keeps the target's books: each open session has its backstore and its own administrator's mapping, and every other backstore caps its profile |
| ImageLeftovers.CapsIff | src/diskless/bootd/web/image_profiles.py:165-204 | a profile is capped after an event if and only if it was before or the event is one of the three that leave a backstore |
| ImageLeftovers.LeftoverMappingShutsOut | src/diskless/iscsi/lio.py:36-37 | a leftover mapping: in no run does its administrator open a session again, on any profile |
| ImageLeftovers.ShutsOutIff | src/diskless/bootd/web/image_profiles.py:165-204 | an administrator is shut out after an event if and only if they were before or the event is one of the three that leave a mapping |
| ImageSafety.LeftoverLoopReachesAnImage | src/diskless/orchestration/session.py:278-298 | after a finish whose loop could not be detached, on a profile with an image, sessions and merges without any failure come to register its file, still open for writing, whatever number it has |
| ImageTarget.RegisterAgrees | src/diskless/iscsi/lio.py:21-39 | admin registration refuses and leaves behind, on backstores and mappings, exactly what `register_lun` does on the shared target |
| ImageTarget.RemoveAgrees | src/diskless/iscsi/lio.py:42-59 | removing an admin session's LUN takes its own backstore and mapping and no other |
| ImagePaths.OneDirectoryManyTexts | src/diskless/models.py:74 | a slash after a directory text or "./" before it names the same directory |
| ImagePaths.DirectoryIs | src/diskless/models.py:74 | names joined by slashes lead down from the images root, from the top with a slash before them, and ".." back up |
| ImagePaths.OverlaysAreNotImages | src/diskless/orchestration/session.py:59-62 | no overlay file has the name of an image, in any directory |
| ImageFiles.AdminCopyIsBaseThenZeros | src/diskless/orchestration/session.py:79-88 | the admin copy is the base bytes followed by exactly max(0, additional) zeros, and the base is unchanged |
| ImageProfiles.NextVersion | src/diskless/orchestration/session.py:99-103 | the next number is above every version of the profile and follows one of them or is 1 |
| ImageAdmin.WebProcess.constructor | src/diskless/bootd/main.py:99-101 | a started process has released every lock and has no sessions |
| ImageAdmin.WebProcess.Acquire | src/diskless/orchestration/lock.py:18-28 | the lock is granted exactly to a known, unlocked profile; otherwise nothing changes and the holder is named |
| ImageAdmin.WebProcess.ReleaseLock | src/diskless/orchestration/lock.py:31-33 | the lock of the profile is gone, nothing else changes |
| ImageAdmin.WebProcess.ReleaseAllLocks | src/diskless/orchestration/lock.py:41-51 | no profile stays locked, and those that were are returned |
| ImageAdmin.WebProcess.NextVersionNumber | src/diskless/orchestration/session.py:99-103 | the loop finds the next version number |
| ImageAdmin.WebProcess.GrowFile | src/diskless/orchestration/session.py:79-88 | the file is extended with zeros, never cut |
| ImageAdmin.WebProcess.StartAdminSession | src/diskless/orchestration/session.py:135-163 | files and loops after a start that succeeds or raises at any of its calls |
| ImageAdmin.WebProcess.EndAdminSession | src/diskless/orchestration/session.py:290-300 | detach, then register the copy or discard it, or the state left by the call that raised |
| ImageAdmin.WebProcess.RegisterWithTarget | src/diskless/orchestration/session.py:191-215 | backstore and mapping after a registration that succeeds, is refused or raises |
| ImageAdmin.WebProcess.StartUpdateSession | src/diskless/bootd/web/image_profiles.py:158-180 | the lock is held afterwards exactly if the session opened |
| ImageAdmin.WebProcess.FinishUpdateSession | src/diskless/bootd/web/image_profiles.py:193-204 | session and lock are gone whatever the end of the session does |
| ImageAdmin.WebProcess.ForceUnlockProfile | src/diskless/bootd/web/image_profiles.py:80-85 | refused for an open session, otherwise the lock is released |
| ImageAdmin.WebProcess.DeleteImageVersion | src/diskless/bootd/web/image_profiles.py:114-137 | refused while assigned; otherwise file and row are gone |
| ImageAdmin.WebProcess.CreateImageProfile | src/diskless/bootd/web/image_profiles.py:29-39 | the new profile is unlocked and has the directory its text resolves to |
| ImageAdmin.WebProcess.DeleteImageProfile | src/diskless/bootd/web/image_profiles.py:53-65 | refused while locked or referenced; otherwise the profile is gone |

## Left out

- Twisted, sockets and worker threads: a received datagram, a finished job and a fired timer are separate steps in any order; the retransmission interval is not modelled, so a timer may fire at any time.
- UTF-8 decoding and its errors, and the spaces and underscores that Python's `int()` also accepts in numbers.
- What a TFTP file name resolves to: a job comes back with any payload or fails. The delivery theorems take every copy of one client's request to resolve to the same payload or to fail.
- `DhcpServer` with options 50 and 54 and NAK: the code ignores them and always answers with zero flags, and so does the model.
- Proxy DHCP, settings, dashboard, login, cookies, CSRF checks, templates, WebSocket and the command line tools.
- SQLite itself: tables are maps and sequences with the key and reference constraints of the schema; each statement is atomic.
- rtslib, losetup, dmsetup and file copies: each call is one atomic step that creates or frees one resource. That deleting an ACL or a LUN also removes its mappings, and that the snapshot device keeps the origin unchanged, are assumptions about the kernel.
- Overlapping reaper passes in the interleaved ledger, which has one pass at a time; `Sessions.StalePassEndsTheNext` shows what a second one does. Tear-down steps that raise are not part of the ledger either.
- Profiles' first versions: no handler makes one, so they are put into the table by hand. The model starts from tables that have them.
- Admin sessions in the interleaved ledger: they run on the reactor thread as whole handlers. `ImageProfiles` models their files, versions, locks, backstores and mappings over whole runs; `Sessions` models loops, target and rows for one session after another.
- What rtslib refuses: that creating a backstore whose name exists, or a mapping where the initiator has LUN 0 already, raises is an assumption about rtslib and the kernel; `tests/iscsi/fake_rtslib.py` accepts both. The results on second starts and on leftovers rest on it.
- Machine reboots: a restart here is one of the process, which keeps loops, backstores and mappings.
- Symbolic links, and ".." through a directory that does not exist: a profile's text is resolved name by name. The code neither resolves nor compares the texts.
- Lio.SharedTarget.RemoveLun: looking up a backstore that is not there raises in rtslib, after the loops are done; the method models those loops and ends normally.
- Crashes in the middle of a handler: a handler that raises at that call followed by a restart leaves the same tables, files and loops, and is what the model runs.
- Profile names and their uniqueness, checksums, time stamps and audit columns.
