# ServerlessPD: a verified model of its protocol cores

ServerlessPD splits LLM serving into a prefill and a decode worker and moves process state and KV caches between
machines. This project models the four parts of it that carry protocol logic, and proves what they promise over
every input, run and interleaving.

* **Remote-fork runtime** (`runtime/rfork/src/rfork_runtime.c`). `Words`, `Scripts`, `RforkTypes` and `RoleToken` hold the 48-byte
  role token: byte buffers filled in place, the FNV-1a seal, encode and decode. `RforkIo` holds the injected callback
  table and the two partial-I/O loops. `Rfork` holds prepare, resume and parent release as methods on an outcome
  object, each proved equal to a function of the callback script and to what the replies and the bytes shown say.
  `RforkOwnership` gives the log of callbacks a meaning for the kernel's descriptor tables, with a prepare ioctl that
  may return in another process, and proves who may close what.
* **Transfer contract** (`src/serverlessx/spd/contract.py`, `src/serverlessx/cli.py`). `JsonValues` and `Contract` hold
  decoded JSON with Python's equality, and the ACK checks. `Ledger` refines the ledger's map and two sets to the
  history of accepted reservations. `TransferSessions` is the seven-ACK session, `Fleet` any number of sessions on one
  ledger, `Replay` the production and replay of run evidence.
* **Native GDR context** (`native/spd-gdr/src/spd_gdr.cpp`). `NativeWire` is the 56-byte metadata record, `NativeResources`
  the ordered acquisition and the two teardowns, `NativeContext` the one-shot read and the two-phase close, `Handshake`
  the source thread and the target as one state machine over all interleavings, `Mooncake` the staged transfer.
* **Prefill/decode transport** (`src/serverlessx/spd/tinyllama_pd.py`). `KvLayout` packs and unpacks the cache, `KvHeader`
  builds and validates its header, `Framing` moves frames over a stream cut in arbitrary pieces, `Disaggregation` runs
  reference, prefill and decode for any deterministic model.

## How the environment is modelled

Everything foreign answers from an arbitrary script: the n-th callback, foreign call, recv, or poll gets the n-th reply,
whatever it is. A method is proved equal to a function of that script, a lemma for each main operation says over the
replies alone what that function answers (their names end in `Exactly`), and the theorems are about all scripts. Loops
that the source bounds by time alone (completion polling) are observed for any finite number of polls and may still be
going at the end. JSON text and SHA-256 are two functions of which only two laws are assumed: decoding inverts encoding
where encoding succeeds, and a digest is 64 lower-case hexadecimal digits. Array reshaping takes a shape of integers
only, neither floats nor booleans. The clock is an input. Integers are unbounded with the machine's widths and
wrap-around written out (`U16`, `U32`, `U64`, `% 2^32`, `% 2^64`).

## What the proofs found

* **Landing of a remote fork** (`RforkOwnership.LandingSoundIff`). If the prepare ioctl returns in another process,
  ownership stays sound exactly when no other outcome in the copied memory still owns a descriptor and the role
  descriptor there does not show the parent's token. The second half is what reading the descriptor buys: a landing that
  reads the role file its resuming process was admitted on is not shown the parent token
  (`RforkOwnership.LandingSeesChild`). The first half is the caller's: with a stale owner, a parent release after the
  landing closes a number this program never opened there (`RforkOwnership.StaleReleaseUnclean`), and a program that
  prepares twice without releasing is such a run (`RforkOwnership.TwicePreparedBreaks`).
* **Shapes in the KV header** (`KvHeader.LooseShape`, `KvHeader.ReadEntryExact`). `validate_kv_header` compares shape
  lists with Python's `==`, so a dimension sent as a float or as a boolean passes it; such an entry cannot be unpacked.
  The table reads back exactly when every dimension is an integer, which the contract's own entry check demands
  (`KvHeader.FixedTableExact`); two lists that pass and fail are in `KvHeader.LooseShapes`.
* **Read after a clock failure** (`NativeContext.ReadAnswers`). A direct read that leaves its READ unretired answers -2
  and poisons the context, except when the clock call itself fails: then it answers -1, unpoisoned, and stays active, so
  that close and every later read refuse it (`NativeContext.ClockFailureStrands`, on every context a read is allowed on).
* **Staged transfer** (`Mooncake.TransferPromises`). A batch is left unfreed exactly when the remote address overflows
  after allocation (`Mooncake.OverflowLeaves` is such a call).

## Model

| member | source | states |
|---|---|---|
| `RoleToken.FnvSeparatesOneByte` | runtime/rfork/src/rfork_runtime.c:136-147 | two byte strings of one length, any length, that differ at exactly one index have different 32-bit FNV-1a values |
| `RoleToken.TimesPrimeInjective` | runtime/rfork/src/rfork_runtime.c:144-144 | multiplying by the FNV prime modulo 2^32 loses nothing |
| `RoleToken.DecodeExactlyWire` | runtime/rfork/src/rfork_runtime.c:289-335 | decoding yields a token exactly from that token's one encoding: all fields survive and no second encoding is accepted |
| `RoleToken.OneByteChangeRejected` | runtime/rfork/src/rfork_runtime.c:289-335 | any one-byte change to an accepted token is rejected |
| `RoleToken.WireInjective` | runtime/rfork/src/rfork_runtime.c:185-227 | distinct tokens have distinct encodings |
| `RoleToken.BytesEqual` | runtime/rfork/src/rfork_runtime.c:75-87 | the accumulate-differences loop answers byte-for-byte equality |
| `RoleToken.CookieIsNonzero` | runtime/rfork/src/rfork_runtime.c:89-102 | the accumulating loop answers whether some byte is non-zero |
| `RoleToken.Fnv1a32` | runtime/rfork/src/rfork_runtime.c:136-147 | the in-place loop computes the recursive checksum |
| `RoleToken.EncodeRoleToken` | runtime/rfork/src/rfork_runtime.c:185-227 | the status exactly by what is missing, unknown, too large or all zero, and the buffer on each: the encoding, zeros, or untouched |
| `RoleToken.DecodeRoleToken` | runtime/rfork/src/rfork_runtime.c:289-335 | the buffer decoder is the specification's decoder |
| `RforkIo.ReadWire` | runtime/rfork/src/rfork_runtime.c:408-451 | over the replies alone: success exactly when the replies up to the first that is neither one of eight interruptions nor bytes that fit move 48 bytes, the failing status and errno otherwise, each call asking for the rest at the right offset, and every delivered byte in its place |
| `RforkIo.ReadRoleToken` | runtime/rfork/src/rfork_runtime.c:408-451 | reading a role is the read loop followed by decoding |
| `RforkIo.WriteWire` | runtime/rfork/src/rfork_runtime.c:254-287 | the same for the write loop, each call offering the rest of the token |
| `RforkIo.ReadExactly` | runtime/rfork/src/rfork_runtime.c:408-451 | for every script, the read loop makes the calls and ends as the replies alone determine |
| `RforkIo.WriteExactly` | runtime/rfork/src/rfork_runtime.c:254-287 | the same for the write loop |
| `RforkIo.InstallRoleToken` | runtime/rfork/src/rfork_runtime.c:229-287 | each refusal exactly by the arguments and without a call; otherwise the write loop on the token, and OK leaves any file with that role, handler, machine and cookie over its start, reading back as those |
| `RforkIo.InstallExactly` | runtime/rfork/src/rfork_runtime.c:229-287 | installing refuses, fails or leaves the token exactly as its arguments and the replies say |
| `RforkIo.ReadLoopBounded` | runtime/rfork/src/rfork_runtime.c:408-451 | the read loop makes at most one call per byte and per EINTR retry left, and errno is zero exactly on success |
| `RforkIo.WriteLoopBounded` | runtime/rfork/src/rfork_runtime.c:254-287 | the same for the write loop |
| `RforkIo.ReadLoopDelivers` | runtime/rfork/src/rfork_runtime.c:408-451 | over a file, success means the buffer holds its first 48 bytes, however reads were split or interrupted |
| `RforkIo.WriteLoopInstalls` | runtime/rfork/src/rfork_runtime.c:254-287 | success means the file begins with the whole token and is otherwise unchanged |
| `RforkIo.ReadRoleFromFile` | runtime/rfork/src/rfork_runtime.c:408-451 | at most 56 callbacks, and the outcome is what the file's first 48 bytes decode to |
| `RforkIo.InstalledTokenReadsBack` | runtime/rfork/src/rfork_runtime.c:229-287 | an installed token reads back as itself through any callbacks of that file |
| `Rfork.CloseOwnedDevice` | runtime/rfork/src/rfork_runtime.c:510-533 | one close of the descriptor; it succeeded, and its errno is zero, exactly when the reply is 0 with errno 0 |
| `Rfork.PrepareParent` | runtime/rfork/src/rfork_runtime.c:535-673 | status, stage, role, calls, descriptor, ownership and audit over the replies and the bytes shown: OK exactly when context and table are usable, the parent token shows, both pids are good, the open and the ioctl succeed and one of the two tokens shows after it, which alone is the role; every other case with its status and stage, and when the descriptor is closed |
| `Rfork.ResumeRemoteOrError` | runtime/rfork/src/rfork_runtime.c:711-810 | the same for resume, which hands source machine and handler to the ioctl, closes what it opened whatever the ioctl answered, and never answers OK |
| `Rfork.ParentRelease` | runtime/rfork/src/rfork_runtime.c:675-709 | OK exactly when an owned descriptor was closed with 0; a missing table and a missing ownership are refused untouched; a failed close is recorded |
| `Rfork.PrepareExactly` | runtime/rfork/src/rfork_runtime.c:535-673 | for every context, table and script prepare answers what the replies and the bytes shown say |
| `Rfork.ResumeExactly` | runtime/rfork/src/rfork_runtime.c:711-810 | the same for resume, with the machine and the handler given to the ioctl |
| `Rfork.ReleaseExactly` | runtime/rfork/src/rfork_runtime.c:675-709 | the same for parent release, and what it leaves of the outcome |
| `Rfork.RoleCheckExact` | runtime/rfork/src/rfork_runtime.c:453-490 | for each role, the check accepts exactly one byte string, and the two differ |
| `RforkOwnership.RolesByBytes` | runtime/rfork/src/rfork_runtime.c:535-673 | prepare passes its first check exactly on its parent token's bytes, resume on the child's; after the ioctl either passes and alone decides the role |
| `RforkOwnership.PrepareHere` | runtime/rfork/src/rfork_runtime.c:600-673 | without a landing, prepare closes its own descriptor or nothing |
| `RforkOwnership.PrepareThere` | runtime/rfork/src/rfork_runtime.c:600-673 | after a landing the copied number is neither kept nor closed unless the descriptor there shows the parent token |
| `RforkOwnership.ResumeNeverOk` | runtime/rfork/src/rfork_runtime.c:711-810 | resume never answers OK, and a descriptor it opened it tried to close once, as its last act |
| `RforkOwnership.LandingSoundIff` | runtime/rfork/src/rfork_runtime.c:600-673 | the exact condition for a landing to keep ownership sound |
| `RforkOwnership.StaleReleaseUnclean` | runtime/rfork/src/rfork_runtime.c:675-709 | after a landing, releasing an outcome that owned a descriptor before it closes a number not opened there |
| `RforkOwnership.TwicePreparedBreaks` | runtime/rfork/src/rfork_runtime.c:535-709 | a concrete run with legal opens, two prepares and a landing, whose release closes a foreign descriptor |
| `RforkOwnership.LandingSeesChild` | runtime/rfork/src/rfork_runtime.c:628-660 | a landing that reads the role file its resuming process was admitted on is not shown the parent token |
| `RforkOwnership.StepKeepsSound` | runtime/rfork/src/rfork_runtime.c:535-810 | each entry point keeps ownership sound |
| `RforkOwnership.OwnershipOverAllRuns` | runtime/rfork/src/rfork_runtime.c:535-810 | over all scripts and call sequences: every close hits an own live descriptor of the current process, and an owning outcome still has its descriptor open |
| `RforkOwnership.ClosedAtMostOnce` | runtime/rfork/src/rfork_runtime.c:510-533 | each opened descriptor is closed at most once |
| `RforkOwnership.CleanMeansOwn` | runtime/rfork/src/rfork_runtime.c:510-533 | in a clean run every close is of a descriptor the run opened |
| `Contract.ValidateAckExact` | src/serverlessx/spd/contract.py:453-506 | an ACK of the expected kind is accepted exactly when it is the one canonical object for some token digest |
| `Contract.MakeAckCanonical` | src/serverlessx/spd/contract.py:414-450 | a defaulted ACK is the canonical one, and a malformed digest never passes |
| `Contract.AckBindsAttempt` | src/serverlessx/spd/contract.py:470-482 | an accepted ACK is refused for every other attempt or buffer, whatever kind is expected |
| `Ledger.EpochLedger.Reserve` | src/serverlessx/spd/contract.py:378-394 | accepts exactly the reservations the plain history admits; a refused one changes nothing |
| `Ledger.EpochLedger.AssertCurrent` | src/serverlessx/spd/contract.py:396-400 | passes exactly for the epoch and attempt of the request's last accepted reservation |
| `Ledger.AdmissibleByLookup` | src/serverlessx/spd/contract.py:378-394 | one map and two set lookups decide admissibility against the whole history |
| `Ledger.LatestBoundsEpochs` | src/serverlessx/spd/contract.py:371-394 | a request's latest epoch bounds all its epochs |
| `Ledger.RefinesOneMore` | src/serverlessx/spd/contract.py:390-394 | recording a reservation keeps map and sets in step with the history |
| `TransferSessions.TransferSession.Open` | src/serverlessx/spd/contract.py:523-527 | opening reserves, or opens nothing |
| `TransferSessions.TransferSession.AdvanceAck` | src/serverlessx/spd/contract.py:555-577 | accepts exactly a valid ACK of the next kind that repeats the digest of DECODE_DONE where it releases; one step on, ownership and digest by the kind; a raising call changes nothing |
| `TransferSessions.TransferSession.AdvanceKind` | src/serverlessx/spd/contract.py:579-600 | accepts exactly the next kind by name with every argument defaulted or as the contract demands, then advances with that ACK |
| `TransferSessions.AdvanceKindExactly` | src/serverlessx/spd/contract.py:579-600 | on any coherent session, advance_kind succeeds exactly on those arguments |
| `Contract.MadeAccepted` | src/serverlessx/spd/contract.py:414-506 | an ACK as make_ack lays it out is accepted exactly with the right owner, payload and kind of digest |
| `TransferSessions.TransferSession.AbortWith` | src/serverlessx/spd/contract.py:602-609 | succeeds exactly on a session neither closed nor aborted with an acceptable reason, records it and changes nothing else |
| `TransferSessions.TransferSession.Cleanup` | src/serverlessx/spd/contract.py:611-623 | succeeds exactly after an abort for the safe id of an owner whose resource is still owned, and lets go of that one only; every refusal changes nothing |
| `TransferSessions.DoKeepsCoherent` | src/serverlessx/spd/contract.py:555-623 | every call keeps ownership a matter of the index, relates the new state to the old, and after an abort releases only the owner it names |
| `TransferSessions.SessionInvariant` | src/serverlessx/spd/contract.py:509-623 | over all call sequences: unaborted, source owned iff index < 6 and target iff 0 <= index <= 4; after abort an owner is released only in a call that names it; closed is absorbing |
| `TransferSessions.ClosedReachable` | src/serverlessx/spd/contract.py:602-623 | closed is reachable from every other state in at most three calls |
| `Fleet.FleetInvariant` | src/serverlessx/spd/contract.py:371-394 | in every interleaving no attempt or buffer is reserved twice and a request's epochs increase |
| `Fleet.CrossSessionIsolation` | src/serverlessx/spd/contract.py:476-478 | an ACK one session accepts in any state is refused by every other in every state |
| `Replay.ReplayExact` | src/serverlessx/cli.py:607-617 | from any point of the log, a list replays exactly when it continues the canonical log of the digest it settles on |
| `Replay.ReplayIsEvidence` | src/serverlessx/cli.py:607-617 | the seven-event lists accepted are precisely the canonical ones with one common digest |
| `Replay.VerifyReplay` | src/serverlessx/cli.py:607-673 | the verify loop accepts exactly the evidence of one run |
| `Replay.Simulate` | src/serverlessx/cli.py:453-500 | the simulated run records exactly the canonical log |
| `Replay.CompletedRunVerifies` | src/serverlessx/cli.py:607-617 | the accepted ACKs of any completed session, with whatever was refused in between, verify |
| `NativeWire.HtonllReverses` | native/spd-gdr/src/spd_gdr.cpp:161-171 | full byte reversal on a little-endian host, and its own inverse |
| `NativeWire.DecodeExactlyEncode` | native/spd-gdr/src/spd_gdr.cpp:495-530 | decoding yields a party exactly from its own record, when it has the expected role and size and non-zero number, key and address |
| `NativeWire.ImageRoundTrip` | native/spd-gdr/src/spd_gdr.cpp:469-483 | the 56-byte image of a record gives the record back |
| `NativeWire.HelloGreet` | native/spd-gdr/src/spd_gdr.cpp:495-530 | a party is recognised from its bytes, with every field, exactly when presentable |
| `NativeResources.Resources.MakeResources` | native/spd-gdr/src/spd_gdr.cpp:581-670 | the ordered calls up to the first failure, and success exactly when every check answers 0 and every acquire gives a handle |
| `NativeResources.MakeSucceedsExactly` | native/spd-gdr/src/spd_gdr.cpp:581-670 | acquisition makes the listed calls in order up to the first bad reply and succeeds exactly when none is bad |
| `NativeResources.Resources.CleanupBestEffort` | native/spd-gdr/src/spd_gdr.cpp:690-724 | best-effort teardown as a function of the script, whose destroys are stated by the lemma below |
| `NativeResources.Resources.CleanupStrict` | native/spd-gdr/src/spd_gdr.cpp:728-764 | the destroys of what the fields hold up to the first failure, and success exactly when all of them answer 0 |
| `NativeResources.StrictSucceedsExactly` | native/spd-gdr/src/spd_gdr.cpp:728-764 | strict teardown makes the destroys of what is held in order up to the first bad reply and succeeds exactly when none is bad |
| `NativeResources.MakeHoldsWhatExists` | native/spd-gdr/src/spd_gdr.cpp:581-670 | wherever acquisition stops, the fields hold exactly the existing resources, a prefix of the order |
| `NativeResources.BestEffortDestroysHeld` | native/spd-gdr/src/spd_gdr.cpp:690-724 | tries each held resource exactly once and nothing else, dependents first |
| `NativeResources.StrictKeepsTracks` | native/spd-gdr/src/spd_gdr.cpp:728-764 | wherever it stops the fields stay true to the hardware, and hold exactly what still exists if they did before; if it does not stop, everything held is freed |
| `NativeResources.StrictFreesExactly` | native/spd-gdr/src/spd_gdr.cpp:728-764 | wherever strict teardown stops, what still exists is exactly what the fields hold, and nothing was destroyed while anything built on it existed |
| `NativeResources.StrictAfterMake` | native/spd-gdr/src/spd_gdr.cpp:581-764 | the same after any acquisition and any number of strict teardowns; one that runs through leaves nothing in existence |
| `NativeResources.CleanupsStayOrdered` | native/spd-gdr/src/spd_gdr.cpp:690-764 | any cleanups after any acquisition, with any failures, destroy only existing resources after their dependents |
| `NativeResources.MakeThenClean` | native/spd-gdr/src/spd_gdr.cpp:581-764 | for every failure point and any cleanups after it: every destroy in order, nothing left untried once one cleanup is best effort or runs through, and best effort destroys exactly what was acquired, once |
| `NativeResources.FreedOnce` | native/spd-gdr/src/spd_gdr.cpp:728-764 | in an ordered log a freed resource is not destroyed again unless acquired again |
| `NativeContext.Context.DirectRead` | native/spd-gdr/src/spd_gdr.cpp:859-972 | over the replies alone: 0 exactly when the read is allowed, its checks, clock and post succeed, the first completion reported is a good one and in time, and the calls after it succeed; poisoned exactly when a posted READ was given up; polling, -1 or -2 otherwise |
| `NativeContext.ReadExactly` | native/spd-gdr/src/spd_gdr.cpp:859-972 | on every unpoisoned context a read answers and leaves what the replies alone determine |
| `NativeContext.Context.BeginClose` | native/spd-gdr/src/spd_gdr.cpp:1306-1336 | lets close go on exactly on a whole, unpoisoned, inactive live context; poison exactly on a broken one |
| `NativeContext.Context.EndClose` | native/spd-gdr/src/spd_gdr.cpp:1337-1365 | the handle goes exactly when every destroy of what is held succeeds; otherwise poison and -2 |
| `NativeContext.ActKeepsSound` | native/spd-gdr/src/spd_gdr.cpp:859-972 | each call keeps the context sound and never clears poison |
| `NativeContext.ContextInvariant` | native/spd-gdr/src/spd_gdr.cpp:1306-1365 | over every run: destroys in order and only with no READ unretired, at most one READ ever, poison never cleared |
| `NativeContext.OpenedSound` | native/spd-gdr/src/spd_gdr.cpp:1032-1077 | a context opened on acquired resources is sound |
| `NativeContext.PoisonedRefuses` | native/spd-gdr/src/spd_gdr.cpp:1331-1335 | on a live poisoned context both calls answer -2 and touch nothing |
| `NativeContext.PoisonedFrozen` | native/spd-gdr/src/spd_gdr.cpp:873-873 | over every run of reads and closes a live poisoned context stays exactly as it is |
| `NativeContext.ReadAnswers` | native/spd-gdr/src/spd_gdr.cpp:859-972 | -2 exactly when poisoned afterwards; 0 only with the READ posted and retired; what an unretired READ answers |
| `NativeContext.ClockFailureStrands` | native/spd-gdr/src/spd_gdr.cpp:921-945 | on every context a read is allowed on, a clock failure after the post gives -1, unpoisoned and active, with the READ unretired; close then answers -2 |
| `Handshake.Socket.WriteAll` | native/spd-gdr/src/spd_gdr.cpp:251-270 | over the answers alone: each counts the least of what it allows and what is left; complete exactly when they count the whole buffer first, else stopped, broken or out of answers by the one that ended it; the bytes sent are that many of the buffer |
| `Handshake.Socket.ReadAll` | native/spd-gdr/src/spd_gdr.cpp:272-291 | the same over the answers and what arrives, and the buffer holds exactly those next bytes of the stream over its old content |
| `Handshake.LoopEndsOnce` | native/spd-gdr/src/spd_gdr.cpp:251-291 | the answers determine the ending, the answers used and the bytes moved |
| `Handshake.CompletesExactly` | native/spd-gdr/src/spd_gdr.cpp:251-291 | complete exactly when harmless answers offer the whole length, and that much arrives |
| `Handshake.WriteAllIsSends` | native/spd-gdr/src/spd_gdr.cpp:251-270 | the write loop is the run of the source's send steps that its answers name, one per answer that moves bytes, complete exactly when the source moves on |
| `Handshake.ReadAllIsReceives` | native/spd-gdr/src/spd_gdr.cpp:272-291 | the same for the target's read loop and its receive steps |
| `Handshake.NextKeepsSound` | native/spd-gdr/src/spd_gdr.cpp:772-815 | every step of either party keeps the joint invariant |
| `Handshake.ServedMeansDelivered` | native/spd-gdr/src/spd_gdr.cpp:772-815 | in every interleaving with any failures: served only after the READ of the source's whole buffer completed and was flushed, both queue pairs set up with each other's metadata |
| `Handshake.ServableExactly` | native/spd-gdr/src/spd_gdr.cpp:859-972 | some run ends served exactly when the parties accept each other's records |
| `Mooncake.RangeGuardExact` | native/spd-gdr/src/spd_gdr.cpp:1111-1117 | the unsigned guard admits exactly the non-empty ranges inside the slab on both sides |
| `Mooncake.FirstDecisionIsFirst` | native/spd-gdr/src/spd_gdr.cpp:1163-1206 | the polling loop ends on the first deciding status and waits through all before it |
| `Mooncake.LoopExactly` | native/spd-gdr/src/spd_gdr.cpp:1163-1206 | which polls wait, fail or expire, and that the first not to wait alone ends the loop |
| `Mooncake.Context.TransferOne` | native/spd-gdr/src/spd_gdr.cpp:1082-1224 | over the arguments, the engine's answers and the polls: 0 exactly when admitted, allocated, submitted, freed and the first poll not to wait is COMPLETED with the exact count; polling exactly while all wait; the whole new state in every case |
| `Mooncake.TransferExactly` | native/spd-gdr/src/spd_gdr.cpp:1082-1224 | every transfer answers and leaves what its arguments, the engine and the polls determine |
| `Mooncake.TransferPromises` | native/spd-gdr/src/spd_gdr.cpp:1111-1224 | 0 only on COMPLETED with the exact count; one free and a cleared flag on every return once submitted; -2 from an unpoisoned context exactly when the free failed; a batch left over exactly on address overflow |
| `Mooncake.OverflowLeaves` | native/spd-gdr/src/spd_gdr.cpp:1140-1145 | a concrete call that leaves a batch behind through the overflow exit |
| `Mooncake.RunInvariant` | native/spd-gdr/src/spd_gdr.cpp:1082-1224 | over any run the unfreed batches grow by exactly the overflow exits, plus a call still polling; a poisoned slab is never changed |
| `KvLayout.Pack` | src/serverlessx/spd/tinyllama_pd.py:261-334 | succeeds exactly on well-shaped caches, and its running offsets give the table a reader demands |
| `KvLayout.Order` | src/serverlessx/spd/tinyllama_pd.py:270-295 | the first loop puts the tensors in order or refuses, exactly as the cache is shaped |
| `KvLayout.PayloadSlices` | src/serverlessx/spd/tinyllama_pd.py:302-334 | each entry's extent of the payload is that tensor's bytes, and the extents end with the payload |
| `KvLayout.ExtentsTile` | src/serverlessx/spd/tinyllama_pd.py:302-334 | every payload byte lies in exactly one extent |
| `KvLayout.Unpack` | src/serverlessx/spd/tinyllama_pd.py:735-756 | the unpack loop reads every entry, or fails on the first unreadable one |
| `KvLayout.UnpackOfPack` | src/serverlessx/spd/tinyllama_pd.py:735-756 | unpacking a packed cache gives every tensor back, for any layers and positive dimensions |
| `KvLayout.PackOfUnpack` | src/serverlessx/spd/tinyllama_pd.py:735-756 | any payload of the right size is the packing of the cache it unpacks to |
| `KvHeader.ValidateKvHeader` | src/serverlessx/spd/tinyllama_pd.py:393-471 | accepts exactly the one header object that the receiver's own data and some tensors, digest and first token determine |
| `KvHeader.BuildKvHeader` | src/serverlessx/spd/tinyllama_pd.py:361-390 | the header of a packed cache, when its own validation accepts it |
| `KvHeader.PackedHeaderAccepted` | src/serverlessx/spd/tinyllama_pd.py:361-471 | a packed cache's header is accepted exactly when identity, size, digest and first token are in order |
| `KvHeader.HeaderBindsRequest` | src/serverlessx/spd/tinyllama_pd.py:397-420 | two parties accept one header only if they agree on everything it fixes |
| `KvHeader.ReadEntryExact` | src/serverlessx/spd/tinyllama_pd.py:441-462 | an accepted entry reads back as the table's own exactly when every dimension is an integer |
| `KvHeader.ReadTableExact` | src/serverlessx/spd/tinyllama_pd.py:429-468 | the same for the whole table |
| `KvHeader.LooseShape` | src/serverlessx/spd/tinyllama_pd.py:456-461 | every shape list that compares equal but is not all integers passes this validator, not the contract's, and cannot be unpacked |
| `KvHeader.LooseShapes` | src/serverlessx/spd/tinyllama_pd.py:456-461 | the shape in floats and the batch dimension as true are two such lists |
| `KvHeader.BuildFixedTensors` | src/serverlessx/spd/contract.py:626-643 | the fixed table is the packer's table at TinyLlama's dimensions |
| `KvHeader.FixedTableExact` | src/serverlessx/spd/contract.py:263-292 | the contract accepts exactly the packer's entry at each index |
| `Framing.Incoming.RecvExact` | src/serverlessx/spd/tinyllama_pd.py:509-522 | the next bytes of the stream whatever the pieces and nothing beyond them, or none exactly when the stream ends short or one of its recv calls failed |
| `Framing.SendFramed` | src/serverlessx/spd/tinyllama_pd.py:525-534 | as much of the frame as the network takes, success exactly when that is all of it, nothing outside the limits |
| `Framing.ReceiveFramedHeader` | src/serverlessx/spd/tinyllama_pd.py:537-547 | the head of the stream as a function of its bytes, however they are cut; none beyond that only when a recv failed |
| `Framing.ParseHeadExactly` | src/serverlessx/spd/tinyllama_pd.py:537-547 | a stream is accepted exactly when it begins with a length-prefixed object within the limit and a payload length within its own |
| `Framing.FrameRoundTrip` | src/serverlessx/spd/tinyllama_pd.py:525-547 | a frame followed by anything gives its header and payload back and leaves the rest |
| `Framing.ProperPrefixRejected` | src/serverlessx/spd/tinyllama_pd.py:509-547 | no proper prefix of a frame is accepted |
| `Framing.FramesUnambiguous` | src/serverlessx/spd/tinyllama_pd.py:525-534 | a stream begins with at most one frame |
| `Disaggregation.DecodeTokens` | src/serverlessx/spd/tinyllama_pd.py:758-786 | some exactly for a positive count: that many tokens, the first as given, each next one the model's step from the cache the step before left |
| `Disaggregation.DecodeExactly` | src/serverlessx/spd/tinyllama_pd.py:758-786 | decoding gives the one list of that length that the model generates from the cache and first token |
| `Disaggregation.RunReference` | src/serverlessx/spd/tinyllama_pd.py:844-863 | the result exists exactly when the prompt is in the vocabulary and what the model generates from it is reportable, and is that generation with its digests |
| `Disaggregation.ReferenceExactly` | src/serverlessx/spd/tinyllama_pd.py:844-863 | the reference result exactly, stated over the model, the prompt and the library |
| `Disaggregation.RunPrefill` | src/serverlessx/spd/tinyllama_pd.py:899-930 | what it sends, all of its frame when the network holds, and exactly the result that a whole frame sent gives |
| `Disaggregation.PrefillExactly` | src/serverlessx/spd/tinyllama_pd.py:899-930 | the prefill result exactly |
| `Disaggregation.RunDecode` | src/serverlessx/spd/tinyllama_pd.py:956-996 | unless one of its recv calls failed, the result exists exactly when the arriving bytes carry an accepted header and a payload of its digest that restore a cache, and is the model's generation from that cache; a successful one has taken the frame and no byte beyond it |
| `Disaggregation.DecodedExactly` | src/serverlessx/spd/tinyllama_pd.py:956-996 | the decode result exactly, stated over the bytes of the stream |
| `Disaggregation.PrefillSendsExactly` | src/serverlessx/spd/tinyllama_pd.py:899-911 | when prefill gets as far as a header |
| `Disaggregation.SplitEqualsReference` | src/serverlessx/spd/tinyllama_pd.py:844-996 | after a complete frame, decode succeeds exactly when the reference does, with the same first token, tokens and digest |
| `Disaggregation.SplitRun` | src/serverlessx/spd/tinyllama_pd.py:844-996 | prefill, wire, decode and reference together: the split result exists exactly when the reference's does when nothing fails, always equals it, generated by the model from the prompt, and there is none for a cut frame |
| `Disaggregation.SomeLibrarySends` | src/serverlessx/spd/tinyllama_pd.py:899-930 | the assumptions are met in every describable run: some lawful libraries make its whole frame be sent |
| `Disaggregation.TruncatedGivesNothing` | src/serverlessx/spd/tinyllama_pd.py:509-547 | a stream that breaks off inside the frame gives no result to any decode worker |
| `Disaggregation.MismatchGivesNothing` | src/serverlessx/spd/tinyllama_pd.py:956-970 | a decode worker that expects anything else of the request gives no result |

## Left out

- Rfork.PrepareParent: a NULL table selecting the built-in system calls, `spd_rfork_context_init`, and the raw system calls themselves; a table is complete or not.
- RforkIo.InstallRoleToken: a NULL errno pointer, which is refused before anything else.
- RforkOwnership.OwnershipOverAllRuns: runs whose opens break the header's contract (errno zero on success, no number handed out that is still live), and programs that copy outcome structures.
- Rfork audit: the audit structure groups fields that are written together, and leaves out its constant version and role descriptor number.
- Contract.ValidateAckExact: metadata is the identity fields an ACK is compared with; validation of the other metadata fields is not part of this model.
- TransferSessions.TransferSession.Open: session state names and the owners dictionary, which only present the modelled fields.
- Replay.VerifyReplay: result files, timestamps, schema and outcome fields around the events.
- NativeContext.Context.DirectRead: the calls before the post and after the completion are steps that may fail, without their arguments; the exchange itself is in Handshake. Output pointers' values are not modelled.
- NativeContext.ContextInvariant: two concurrent closers of one handle, which the header forbids, and destructors at process exit.
- NativeContext.PoisonedRefuses: a handle that is no longer in the table answers -1 and is outside its statement.
- NativeResources.Resources.CleanupStrict: stopping the control thread and closing the sockets before the resources.
- Handshake.ServedMeansDelivered: accepting and connecting, deadlines (a deadline is a step that gives up), and whether the source's queue pair is ready when the READ is posted, which the transport's retries settle.
- Handshake.Socket.WriteAll: the wait for readiness is one answer of the script; the other two loops of the exchange, the target's writes and the source's reads, have the same steps and are not tied to them by a lemma of their own.
- Mooncake.Context.TransferOne: the engine's internals and its segment descriptor, reduced to whether the target is the one exact buffer; a failing clock; the staging backend's close.
- KvLayout.Pack: device-to-host copies and timing; a cache is already in legacy form, with tensors as shape, type and elements.
- Framing.SendFramed: connecting, timeouts and errors other than as a failing send or recv.
- Disaggregation.SplitEqualsReference: timings and the fields of a result that repeat its arguments; the optional export to files; the constant-dimension check of the real runtime, because the theorem is for any dimensions.
- JSON text, regular expressions other than the identifier and digest patterns, SHA-256, GPU and kernel behaviour, argument parsing, text output and the doctor, profiles and plan commands are not part of this model.
