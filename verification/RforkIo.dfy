/** The injected callback table, and the two loops that move the role token through it
    (runtime/rfork/src/rfork_runtime.c). What lies behind the callbacks is arbitrary: a script
    answers the n-th callback with any result, errno and bytes whatsoever. */
module RforkIo {
  import opened Scripts
  import opened Wrappers
  import opened Words
  import opened RforkTypes
  import opened RoleToken

  /** One callback invocation, with the arguments the runtime passed. */
  datatype Call =
    | PRead(offset: nat, length: nat)
    | PWrite(offset: nat, bytes: seq<Byte>)
    | OpenDevice
    | IoctlPrepare(fd: int, handler: U32)
    | IoctlResume(fd: int, machine: U32, handler: U32)
    | CloseFd(fd: int)
    | GetPid

  /** What it answered. `data` is what a read put in its window of the buffer. `landing` tells that
      a prepare ioctl returned in another process, and which descriptors that process has open. */
  datatype Reply = Reply(result: int, errno: int, data: seq<Byte>, landing: Option<set<int>>)

  type Event = Entry<Call, Reply>

  type Script = nat -> Reply

  /** The callback table. `complete` is false when a callback pointer is missing. */
  class IoOps {
    const script: Script
    const complete: bool
    var log: seq<Event>

    constructor (script: Script, complete: bool)
      ensures this.script == script && this.complete == complete && log == []
    {
      this.script := script;
      this.complete := complete;
      log := [];
    }

    method Invoke(call: Call) returns (result: int, errno: int)
      modifies this
      ensures log == Ask(script, old(log), call)
      ensures result == script(|old(log)|).result && errno == script(|old(log)|).errno
    {
      var reply := script(|log|);
      log := log + [Entry(call, reply)];
      result, errno := reply.result, reply.errno;
    }

    /** A read callback may write anything, but only in the window it was handed. */
    method InvokePRead(buffer: array<Byte>, start: nat) returns (result: int, errno: int)
      requires start <= buffer.Length
      modifies this, buffer
      ensures log == Ask(script, old(log), PRead(start, buffer.Length - start))
      ensures result == script(|old(log)|).result && errno == script(|old(log)|).errno
      ensures buffer[..] == Overlay(old(buffer[..]), start, script(|old(log)|).data)
    {
      var data := script(|log|).data;
      result, errno := Invoke(PRead(start, buffer.Length - start));
      var n := if |data| < buffer.Length - start then |data| else buffer.Length - start;
      BytesCopy(buffer, start, data[..n]);
      assert forall i :: start <= i < start + n ==> buffer[i] == buffer[..start + n][i];
      assert forall i :: 0 <= i < start ==> buffer[i] == buffer[..start + n][i];
    }
  }

  /** `data`, cut to fit, written over `s` from `start`. */
  function Overlay(s: seq<Byte>, start: nat, data: seq<Byte>): (r: seq<Byte>)
    requires start <= |s|
    ensures |r| == |s|
    ensures forall i :: 0 <= i < |s| ==> r[i] == if start <= i < start + |data| then data[i - start] else s[i]
  {
    var n := if |data| < |s| - start then |data| else |s| - start;
    s[..start] + data[..n] + s[start + n..]
  }

  function ErrnoOr(errno: int): int {
    if errno > 0 then errno else EPROTO
  }

  // ---------- reading the token ----------

  /** A loop under way: `completed` bytes moved, `interrupted` retries spent. */
  datatype Loop = Loop(log: seq<Event>, wire: seq<Byte>, completed: nat, interrupted: nat) {
    predicate Valid() {
      |wire| == TOKEN_SIZE && completed <= TOKEN_SIZE && interrupted <= MAX_EINTR_RETRIES
    }

    /** The bytes and the retries that are left. */
    function Left(): (n: nat)
      requires Valid()
      ensures n <= 56
    {
      TOKEN_SIZE - completed + MAX_EINTR_RETRIES - interrupted
    }
  }

  datatype Moved = Moved(status: Status, errno: int, wire: seq<Byte>, log: seq<Event>)

  datatype Turn = Done(moved: Moved) | More(loop: Loop)

  /** How one callback's answer moves either loop on: a retry, a failure, or progress. */
  function Judge(l: Loop, log': seq<Event>, wire': seq<Byte>, reply: Reply, failed: Status, short: Status): (t: Turn)
    requires l.Valid() && l.completed < TOKEN_SIZE && |wire'| == TOKEN_SIZE
    ensures t.More? ==> t.loop.Valid() && t.loop.Left() < l.Left() && t.loop.log == log' && t.loop.wire == wire'
    ensures t.Done? ==> t.moved.status in {failed, short} && t.moved.errno != 0 && t.moved.log == log'
  {
    if reply.result < 0 then
      if reply.errno == EINTR && l.interrupted < MAX_EINTR_RETRIES
      then More(Loop(log', wire', l.completed, l.interrupted + 1))
      else Done(Moved(failed, ErrnoOr(reply.errno), wire', log'))
    else if reply.errno != 0 || reply.result == 0 || reply.result > TOKEN_SIZE - l.completed
    then Done(Moved(short, if reply.errno != 0 then reply.errno else EPROTO, wire', log'))
    else More(Loop(log', wire', l.completed + reply.result, l.interrupted))
  }

  function ReadTurn(script: Script, l: Loop): Turn
    requires l.Valid() && l.completed < TOKEN_SIZE
  {
    var reply := script(|l.log|);
    Judge(l, Ask(script, l.log, PRead(l.completed, TOKEN_SIZE - l.completed)), Overlay(l.wire, l.completed, reply.data),
          reply, ErrRoleRead, ErrRoleShortRead)
  }

  function ReadLoop(script: Script, l: Loop): (r: Moved)
    requires l.Valid()
    ensures |r.wire| == TOKEN_SIZE && l.log <= r.log
    decreases l.Left()
  {
    if l.completed == TOKEN_SIZE then Moved(Ok, 0, l.wire, l.log)
    else
      match ReadTurn(script, l)
      case Done(moved) => moved
      case More(next) => ReadLoop(script, next)
  }

  function Start(log: seq<Event>): (l: Loop)
    ensures l.Valid()
  {
    Loop(log, Zeros(TOKEN_SIZE), 0, 0)
  }

  /** Reading the role descriptor from the start, then decoding what came. */
  datatype RoleRead = RoleRead(status: Status, errno: int, token: Option<Token>, log: seq<Event>)

  function ReadRole(script: Script, log: seq<Event>): (r: RoleRead)
    ensures r.status == Ok <==> r.token.Some?
    ensures r.token.Some? ==> |r.token.value.cookie| == COOKIE_SIZE
    ensures log <= r.log
  {
    var r := ReadLoop(script, Start(log));
    if r.status != Ok then RoleRead(r.status, r.errno, None, r.log)
    else
      var token := Decode(r.wire);
      RoleRead(if token.Some? then Ok else ErrRoleToken, 0, token, r.log)
  }

  /** The 48 bytes the callbacks delivered. */
  function Delivered(script: Script, log: seq<Event>): (s: seq<Byte>)
    ensures |s| == TOKEN_SIZE
  {
    ReadLoop(script, Start(log)).wire
  }

  // ---------- either loop, by its replies alone ----------

  /** The bytes and the interruptions among the first `k` replies from `at` on. */
  function BytesMoved(script: Script, at: nat, k: nat): nat {
    if k == 0 then 0
    else BytesMoved(script, at, k - 1) + if script(at + k - 1).result > 0 then script(at + k - 1).result else 0
  }

  function Interruptions(script: Script, at: nat, k: nat): nat {
    if k == 0 then 0 else Interruptions(script, at, k - 1) + if script(at + k - 1).result < 0 then 1 else 0
  }

  /** The `j`-th reply is asked for and lets the loop go on: one of at most eight interruptions, or bytes that fit. */
  predicate GoesOn(script: Script, at: nat, j: nat) {
    var reply, left := script(at + j), 48 - BytesMoved(script, at, j);
    && left > 0
    && if reply.result < 0 then reply.errno == EINTR && Interruptions(script, at, j) < 8
       else reply.errno == 0 && 0 < reply.result <= left
  }

  /** The loop makes `k` calls that let it go on. It succeeds exactly when they moved 48 bytes; otherwise the next
      reply ends it, as a failed call or as a short one. */
  predicate EndsAfter(script: Script, at: nat, k: nat, failed: Status, short: Status, r: Moved) {
    && (forall j: nat :: j < k ==> GoesOn(script, at, j))
    && if BytesMoved(script, at, k) == 48 then r.status == Ok && r.errno == 0 && |r.log| == at + k
       else
         var reply := script(at + k);
         && !GoesOn(script, at, k) && |r.log| == at + k + 1
         && if reply.result < 0
            then r.status == failed && r.errno == if reply.errno > 0 then reply.errno else EPROTO
            else r.status == short && r.errno == if reply.errno != 0 then reply.errno else EPROTO
  }

  /** How far a loop under way has come since `at`. */
  predicate CameTo(script: Script, at: nat, k: nat, l: Loop) {
    && l.Valid() && |l.log| == at + k && l.completed == BytesMoved(script, at, k)
    && l.interrupted == Interruptions(script, at, k) && forall j: nat :: j < k ==> GoesOn(script, at, j)
  }

  lemma JudgeExactly(script: Script, at: nat, k: nat, l: Loop, log': seq<Event>, wire': seq<Byte>, failed: Status,
                     short: Status)
    requires CameTo(script, at, k, l) && l.completed < TOKEN_SIZE && |wire'| == TOKEN_SIZE && |log'| == at + k + 1
    ensures match Judge(l, log', wire', script(at + k), failed, short)
            case Done(moved) => EndsAfter(script, at, k, failed, short, moved)
            case More(next) => CameTo(script, at, k + 1, next)
  {
  }

  /** The calls asked for the rest of the token each. */
  predicate ReadCalls(script: Script, log: seq<Event>, log': seq<Event>) {
    && log <= log'
    && forall j: nat :: j < |log'| - |log| ==>
         && BytesMoved(script, |log|, j) < 48
         && log'[|log| + j] == Entry(PRead(BytesMoved(script, |log|, j), 48 - BytesMoved(script, |log|, j)),
                                     script(|log| + j))
  }

  /** What the first `k` replies delivered of what they reported is what the buffer holds there. */
  predicate Filled(script: Script, at: nat, k: nat, wire: seq<Byte>) {
    && |wire| == 48
    && forall j: nat, i: nat :: j < k && InReply(script, at, j, i) && i < 48 ==>
         wire[i] == script(at + j).data[i - BytesMoved(script, at, j)]
  }

  /** The `i`-th byte was reported by the `j`-th reply, and delivered. */
  predicate InReply(script: Script, at: nat, j: nat, i: nat) {
    var reply, from := script(at + j), BytesMoved(script, at, j);
    from <= i < from + reply.result && i < from + |reply.data|
  }

  ghost predicate ReadMeans(script: Script, log: seq<Event>, r: Moved) {
    && ReadCalls(script, log, r.log)
    && exists k: nat ::
         EndsAfter(script, |log|, k, ErrRoleRead, ErrRoleShortRead, r) && Filled(script, |log|, k, r.wire)
  }

  lemma {:induction false} ReadExactly(script: Script, log: seq<Event>, k: nat, l: Loop)
    requires CameTo(script, |log|, k, l) && ReadCalls(script, log, l.log) && Filled(script, |log|, k, l.wire)
    ensures ReadMeans(script, log, ReadLoop(script, l))
    decreases l.Left()
  {
    hide Filled, GoesOn, Overlay;
    if l.completed == TOKEN_SIZE {
      assert EndsAfter(script, |log|, k, ErrRoleRead, ErrRoleShortRead, ReadLoop(script, l));
    } else {
      var log' := Ask(script, l.log, PRead(l.completed, TOKEN_SIZE - l.completed));
      var wire' := Overlay(l.wire, l.completed, script(|l.log|).data);
      JudgeExactly(script, |log|, k, l, log', wire', ErrRoleRead, ErrRoleShortRead);
      TurnFills(script, |log|, k, l, wire');
      assert ReadCalls(script, log, log');
      match ReadTurn(script, l)
      case Done(moved) =>
        assert EndsAfter(script, |log|, k, ErrRoleRead, ErrRoleShortRead, moved);
      case More(next) => ReadExactly(script, log, k + 1, next);
    }
  }

  lemma TurnFills(script: Script, at: nat, k: nat, l: Loop, wire': seq<Byte>)
    requires CameTo(script, at, k, l) && Filled(script, at, k, l.wire) && l.completed < TOKEN_SIZE
    requires wire' == Overlay(l.wire, l.completed, script(at + k).data)
    ensures Filled(script, at, k, wire') && (GoesOn(script, at, k) ==> Filled(script, at, k + 1, wire'))
  {
    forall j: nat, i: nat | j < k && InReply(script, at, j, i) ensures i < l.completed {
      assert GoesOn(script, at, j);
      MovedGrows(script, at, j + 1, k);
    }
  }

  lemma {:induction false} MovedGrows(script: Script, at: nat, j: nat, k: nat)
    requires j <= k
    ensures BytesMoved(script, at, j) <= BytesMoved(script, at, k)
    decreases k - j
  {
    if j < k {
      MovedGrows(script, at, j, k - 1);
    }
  }

  /** The loop itself, filling `wire` in place. */
  method ReadWire(ops: IoOps, wire: array<Byte>) returns (status: Status, errno: int)
    requires wire.Length == TOKEN_SIZE
    modifies ops, wire
    ensures Moved(status, errno, wire[..], ops.log) == ReadLoop(ops.script, Start(old(ops.log)))
    ensures ReadMeans(ops.script, old(ops.log), Moved(status, errno, wire[..], ops.log))
  {
    hide ReadMeans;
    ReadExactly(ops.script, ops.log, 0, Start(ops.log));
    BytesZero(wire);
    var completed, interrupted := 0, 0;
    while completed < TOKEN_SIZE
      invariant Loop(ops.log, wire[..], completed, interrupted).Valid()
      invariant ReadLoop(ops.script, Loop(ops.log, wire[..], completed, interrupted))
             == ReadLoop(ops.script, Start(old(ops.log)))
      decreases TOKEN_SIZE - completed + MAX_EINTR_RETRIES - interrupted
    {
      ghost var turn := ReadTurn(ops.script, Loop(ops.log, wire[..], completed, interrupted));
      var result, callErrno := ops.InvokePRead(wire, completed);
      if result < 0 {
        if callErrno == EINTR && interrupted < MAX_EINTR_RETRIES {
          interrupted := interrupted + 1;
          assert turn == More(Loop(ops.log, wire[..], completed, interrupted));
          continue;
        }
        return ErrRoleRead, ErrnoOr(callErrno);
      }
      if callErrno != 0 || result == 0 || result > TOKEN_SIZE - completed {
        return ErrRoleShortRead, if callErrno != 0 then callErrno else EPROTO;
      }
      completed := completed + result;
      assert turn == More(Loop(ops.log, wire[..], completed, interrupted));
    }
    return Ok, 0;
  }

  method ReadRoleToken(ops: IoOps) returns (status: Status, errno: int, decoded: Option<Token>, checksum: U32)
    modifies ops
    ensures RoleRead(status, errno, decoded, ops.log) == ReadRole(ops.script, old(ops.log))
    ensures decoded.Some? ==> WellFormed(decoded.value) && checksum == Fnv(Body(decoded.value))
  {
    var wire := new Byte[TOKEN_SIZE];
    decoded, checksum := None, 0;
    status, errno := ReadWire(ops, wire);
    if status == Ok {
      errno := 0;
      decoded, checksum := DecodeRoleToken(wire);
      if decoded.Some? {
        DecodedBody(wire[..]);
        assert wire[..][..40] == wire[..40];
      } else {
        status := ErrRoleToken;
      }
    }
  }

  lemma DecodedBody(s: seq<Byte>)
    requires |s| == TOKEN_SIZE && Decode(s).Some?
    ensures WellFormed(Decode(s).value) && s[..40] == Body(Decode(s).value)
  {
    DecodedIsWire(s);
    assert Wire(Decode(s).value)[..40] == Body(Decode(s).value);
  }

  // ---------- writing the token ----------

  function WriteTurn(script: Script, l: Loop): Turn
    requires l.Valid() && l.completed < TOKEN_SIZE
  {
    Judge(l, Ask(script, l.log, PWrite(l.completed, l.wire[l.completed..])), l.wire, script(|l.log|),
          ErrRoleWrite, ErrRoleShortWrite)
  }

  function WriteLoop(script: Script, l: Loop): (r: Moved)
    requires l.Valid()
    ensures l.log <= r.log
    decreases l.Left()
  {
    if l.completed == TOKEN_SIZE then Moved(Ok, 0, l.wire, l.log)
    else
      match WriteTurn(script, l)
      case Done(moved) => moved
      case More(next) => WriteLoop(script, next)
  }

  /** The calls offered the rest of the token each. */
  predicate WriteCalls(script: Script, log: seq<Event>, wire: seq<Byte>, log': seq<Event>) {
    && |wire| == 48 && log <= log'
    && forall j: nat :: j < |log'| - |log| ==>
         && BytesMoved(script, |log|, j) < 48
         && log'[|log| + j] == Entry(PWrite(BytesMoved(script, |log|, j), wire[BytesMoved(script, |log|, j)..]),
                                     script(|log| + j))
  }

  ghost predicate WriteMeans(script: Script, log: seq<Event>, wire: seq<Byte>, r: Moved) {
    && r.wire == wire && WriteCalls(script, log, wire, r.log)
    && exists k: nat :: EndsAfter(script, |log|, k, ErrRoleWrite, ErrRoleShortWrite, r)
  }

  lemma {:induction false} WriteExactly(script: Script, log: seq<Event>, k: nat, l: Loop)
    requires CameTo(script, |log|, k, l) && WriteCalls(script, log, l.wire, l.log)
    ensures WriteMeans(script, log, l.wire, WriteLoop(script, l))
    decreases l.Left()
  {
    if l.completed == TOKEN_SIZE {
      assert EndsAfter(script, |log|, k, ErrRoleWrite, ErrRoleShortWrite, WriteLoop(script, l));
    } else {
      var log' := Ask(script, l.log, PWrite(l.completed, l.wire[l.completed..]));
      JudgeExactly(script, |log|, k, l, log', l.wire, ErrRoleWrite, ErrRoleShortWrite);
      assert WriteCalls(script, log, l.wire, log');
      match WriteTurn(script, l)
      case Done(moved) =>
      case More(next) => WriteExactly(script, log, k + 1, next);
    }
  }

  method WriteWire(ops: IoOps, wire: array<Byte>) returns (status: Status, errno: int)
    requires wire.Length == TOKEN_SIZE
    modifies ops
    ensures Moved(status, errno, wire[..], ops.log) == WriteLoop(ops.script, Loop(old(ops.log), wire[..], 0, 0))
    ensures WriteMeans(ops.script, old(ops.log), wire[..], Moved(status, errno, wire[..], ops.log))
  {
    hide WriteMeans;
    WriteExactly(ops.script, ops.log, 0, Loop(ops.log, wire[..], 0, 0));
    var completed, interrupted := 0, 0;
    while completed < TOKEN_SIZE
      invariant Loop(ops.log, wire[..], completed, interrupted).Valid()
      invariant WriteLoop(ops.script, Loop(ops.log, wire[..], completed, interrupted))
             == WriteLoop(ops.script, Loop(old(ops.log), wire[..], 0, 0))
      decreases TOKEN_SIZE - completed + MAX_EINTR_RETRIES - interrupted
    {
      ghost var turn := WriteTurn(ops.script, Loop(ops.log, wire[..], completed, interrupted));
      assert wire[completed..] == wire[..][completed..];
      var result, callErrno := ops.Invoke(PWrite(completed, wire[completed..]));
      if result < 0 {
        if callErrno == EINTR && interrupted < MAX_EINTR_RETRIES {
          interrupted := interrupted + 1;
          assert turn == More(Loop(ops.log, wire[..], completed, interrupted));
          continue;
        }
        return ErrRoleWrite, ErrnoOr(callErrno);
      }
      if callErrno != 0 || result == 0 || result > TOKEN_SIZE - completed {
        return ErrRoleShortWrite, if callErrno != 0 then callErrno else EPROTO;
      }
      completed := completed + result;
      assert turn == More(Loop(ops.log, wire[..], completed, interrupted));
    }
    return Ok, 0;
  }

  datatype Installed = Installed(status: Status, errno: int, log: seq<Event>)

  /** What installing does, for a cookie pointer that may be missing. */
  function Install(script: Script, complete: bool, log: seq<Event>, role: U32, handlerId: U64, machineId: U32,
                   cookie: Option<seq<Byte>>): Installed
    requires cookie.Some? ==> |cookie.value| == COOKIE_SIZE
  {
    if !complete then Installed(ErrIoOpsInvalid, 0, log)
    else
      var encoded := EncodeStatus(cookie.None?, role, handlerId, if cookie.Some? then cookie.value else []);
      if encoded != Ok then Installed(encoded, 0, log)
      else
        var w := WriteLoop(script, Loop(log, Wire(Token(role, handlerId, machineId, cookie.value)), 0, 0));
        Installed(w.status, w.errno, w.log)
  }

  /** Whatever the file was, these writes leave this token over its start, and reading it back through any calls
      that read that file gives the token. */
  ghost predicate LeavesToken(writes: seq<Event>, t: Token) {
    && WellFormed(t)
    && forall file: seq<Byte> ::
         && FileAfter(file, writes) == Onto(Wire(t), file)
         && forall script: Script, log: seq<Event> ::
              ReadLoop(script, Start(log)).status == Ok && ReadsRole(script, log, FileAfter(file, writes)) ==>
                ReadRole(script, log).token == Some(t)
  }

  /** What installing answers, by its arguments and the replies. Each refusal makes no call; anything else writes the
      token, and Ok leaves it in the file. */
  ghost predicate InstallMeans(script: Script, complete: bool, log: seq<Event>, role: U32, handlerId: U64,
                               machineId: U32, cookie: Option<seq<Byte>>, r: Installed) {
    if !complete then r == Installed(ErrIoOpsInvalid, 0, log)
    else if cookie.None? || role !in {1, 2} then r == Installed(ErrInvalidArgument, 0, log)
    else if handlerId >= 0x1_0000_0000 then r == Installed(ErrHandlerOverflow, 0, log)
    else if forall i :: 0 <= i < |cookie.value| ==> cookie.value[i] == 0 then r == Installed(ErrCookieInvalid, 0, log)
    else
      var t := Token(role, handlerId, machineId, cookie.value);
      && WellFormed(t) && WriteMeans(script, log, Wire(t), Moved(r.status, r.errno, Wire(t), r.log))
      && (r.status == Ok ==> LeavesToken(r.log[|log|..], t))
  }

  lemma InstallExactly(script: Script, complete: bool, log: seq<Event>, role: U32, handlerId: U64, machineId: U32,
                       cookie: Option<seq<Byte>>)
    requires cookie.Some? ==> |cookie.value| == COOKIE_SIZE
    ensures InstallMeans(script, complete, log, role, handlerId, machineId, cookie,
                         Install(script, complete, log, role, handlerId, machineId, cookie))
  {
    hide WriteLoop, Wire, WriteMeans, LeavesToken;
    if complete && cookie.Some? && role in {1, 2} && handlerId < 0x1_0000_0000 && CookieNonzero(cookie.value) {
      var t := Token(role, handlerId, machineId, cookie.value);
      WriteExactly(script, log, 0, Loop(log, Wire(t), 0, 0));
      InstalledLeaves(script, log, t);
    }
  }

  lemma InstalledLeaves(script: Script, log: seq<Event>, t: Token)
    requires WellFormed(t) && IsSupportedRole(t.role)
    ensures var w := WriteLoop(script, Loop(log, Wire(t), 0, 0));
            w.wire == Wire(t) && (w.status == Ok ==> LeavesToken(w.log[|log|..], t))
  {
    hide WriteLoop, ReadLoop, Wire, ReadRole, FileAfter, Onto;
    WriteExactly(script, log, 0, Loop(log, Wire(t), 0, 0));
    var w := WriteLoop(script, Loop(log, Wire(t), 0, 0));
    if w.status == Ok {
      forall file: seq<Byte>
        ensures FileAfter(file, w.log[|log|..]) == Onto(Wire(t), file)
        ensures forall rs: Script, rlog: seq<Event> ::
                  ReadLoop(rs, Start(rlog)).status == Ok && ReadsRole(rs, rlog, FileAfter(file, w.log[|log|..])) ==>
                    ReadRole(rs, rlog).token == Some(t)
      {
        InstalledTokenReadsBack(script, log, _ => Reply(0, 0, [], None), [], file, t);
        forall rs: Script, rlog: seq<Event>
          | ReadLoop(rs, Start(rlog)).status == Ok && ReadsRole(rs, rlog, FileAfter(file, w.log[|log|..]))
          ensures ReadRole(rs, rlog).token == Some(t)
        {
          InstalledTokenReadsBack(script, log, rs, rlog, file, t);
        }
      }
    }
  }

  method InstallRoleToken(ops: IoOps, role: U32, handlerId: U64, machineId: U32, runCookie: array?<Byte>)
    returns (status: Status, errno: int)
    requires runCookie != null ==> runCookie.Length == COOKIE_SIZE
    modifies ops
    ensures Installed(status, errno, ops.log)
         == Install(ops.script, ops.complete, old(ops.log), role, handlerId, machineId,
                    if runCookie == null then None else Some(runCookie[..]))
    ensures InstallMeans(ops.script, ops.complete, old(ops.log), role, handlerId, machineId,
                         if runCookie == null then None else Some(runCookie[..]),
                         Installed(status, errno, ops.log))
  {
    hide InstallMeans, WriteLoop, Wire;
    InstallExactly(ops.script, ops.complete, ops.log, role, handlerId, machineId,
                   if runCookie == null then None else Some(runCookie[..]));
    if !ops.complete {
      return ErrIoOpsInvalid, 0;
    }
    var wire := new Byte[TOKEN_SIZE];
    status := EncodeRoleToken(wire, role, handlerId, machineId, runCookie);
    if status != Ok {
      return status, 0;
    }
    status, errno := WriteWire(ops, wire);
  }

  // ---------- what the loops achieve against a real file ----------

  /** A read callback of a file: a successful call delivers the file's bytes at its offset. */
  predicate ReadsFile(file: seq<Byte>, e: Event) {
    e.call.PRead? && 0 < e.reply.result <= e.call.length && e.reply.errno == 0 ==>
      && e.reply.result <= |e.reply.data|
      && e.call.offset + e.reply.result <= |file|
      && e.reply.data[..e.reply.result] == file[e.call.offset..e.call.offset + e.reply.result]
  }

  /** All of a read loop's calls are reads of this file. */
  ghost predicate ReadsRole(script: Script, log: seq<Event>, file: seq<Byte>) {
    forall i :: |log| <= i < |ReadLoop(script, Start(log)).log| ==> ReadsFile(file, ReadLoop(script, Start(log)).log[i])
  }

  /** The file after one more event: a write that reports n bytes stored the first n of its bytes. */
  function Stored(f: seq<Byte>, e: Event): seq<Byte> {
    if e.call.PWrite? && e.reply.errno == 0 && 0 < e.reply.result <= |e.call.bytes| && e.call.offset <= |f|
    then
      var end := e.call.offset + e.reply.result;
      f[..e.call.offset] + e.call.bytes[..e.reply.result] + (if end <= |f| then f[end..] else [])
    else f
  }

  function FileAfter(file: seq<Byte>, events: seq<Event>): seq<Byte>
    decreases |events|
  {
    if events == [] then file
    else Stored(FileAfter(file, events[..|events| - 1]), events[|events| - 1])
  }

  /** The read loop makes at most one call per byte and per retry: 56 from its start. */
  lemma {:induction false} ReadLoopBounded(script: Script, l: Loop)
    requires l.Valid()
    ensures var r := ReadLoop(script, l);
            && |r.log| <= |l.log| + l.Left()
            && r.status in {Ok, ErrRoleRead, ErrRoleShortRead}
            && (r.status == Ok <==> r.errno == 0)
    decreases l.Left()
  {
    if l.completed < TOKEN_SIZE {
      match ReadTurn(script, l)
      case Done(_) =>
      case More(next) => ReadLoopBounded(script, next);
    }
  }

  lemma {:induction false} WriteLoopBounded(script: Script, l: Loop)
    requires l.Valid()
    ensures var r := WriteLoop(script, l);
            && |r.log| <= |l.log| + l.Left()
            && r.status in {Ok, ErrRoleWrite, ErrRoleShortWrite}
            && (r.status == Ok <==> r.errno == 0)
    decreases l.Left()
  {
    if l.completed < TOKEN_SIZE {
      match WriteTurn(script, l)
      case Done(_) =>
      case More(next) => WriteLoopBounded(script, next);
    }
  }

  /** Against a file, a successful read loop has the file's first 48 bytes, however the reads were
      split, interrupted, or scribbled past what they reported. */
  lemma {:induction false} ReadLoopDelivers(script: Script, l: Loop, file: seq<Byte>)
    requires l.Valid() && l.completed <= |file| && l.wire[..l.completed] == file[..l.completed]
    requires var r := ReadLoop(script, l);
             r.status == Ok && forall i :: |l.log| <= i < |r.log| ==> ReadsFile(file, r.log[i])
    ensures TOKEN_SIZE <= |file| && ReadLoop(script, l).wire == file[..TOKEN_SIZE]
    decreases l.Left()
  {
    if l.completed == TOKEN_SIZE {
      assert l.wire[..l.completed] == l.wire;
    } else {
      var reply := script(|l.log|);
      var next := ReadTurn(script, l).loop;
      if reply.result < 0 {
        assert next.wire[..l.completed] == l.wire[..l.completed];
      } else {
        assert ReadsFile(file, next.log[|l.log|]);
        OverlayKeepsPart(l.wire, l.completed, reply.data, reply.result, file);
      }
      ReadLoopDelivers(script, next, file);
    }
  }

  lemma OverlayKeepsPart(wire: seq<Byte>, start: nat, data: seq<Byte>, n: nat, file: seq<Byte>)
    requires start + n <= |wire| && start + n <= |file| && n <= |data|
    requires wire[..start] == file[..start] && data[..n] == file[start..start + n]
    ensures Overlay(wire, start, data)[..start + n] == file[..start + n]
  {
    var r := Overlay(wire, start, data);
    forall i | 0 <= i < start + n ensures r[i] == file[i] {
      if i < start {
        assert wire[..start][i] == file[..start][i];
      } else {
        assert data[..n][i - start] == file[start..start + n][i - start];
      }
    }
  }

  /** `s` over the start of `file`. */
  function Onto(s: seq<Byte>, file: seq<Byte>): seq<Byte> {
    s + if |s| <= |file| then file[|s|..] else []
  }

  /** When the write loop reports success the file begins with the whole token and is otherwise as
      it was, whatever the partial writes and retries. */
  lemma {:induction false} WriteLoopInstalls(script: Script, log0: seq<Event>, l: Loop, file: seq<Byte>)
    requires l.Valid() && log0 <= l.log
    requires FileAfter(file, l.log[|log0|..]) == Onto(l.wire[..l.completed], file)
    requires WriteLoop(script, l).status == Ok
    ensures FileAfter(file, WriteLoop(script, l).log[|log0|..]) == Onto(l.wire, file)
    decreases l.Left()
  {
    if l.completed == TOKEN_SIZE {
      assert l.wire[..l.completed] == l.wire;
    } else {
      var next := WriteTurn(script, l).loop;
      var events, events' := l.log[|log0|..], next.log[|log0|..];
      assert events'[..|events'| - 1] == events && events'[|events'| - 1] == next.log[|l.log|];
      WriteTurnStores(script, l, FileAfter(file, events), file);
      WriteLoopInstalls(script, log0, next, file);
    }
  }

  lemma WriteTurnStores(script: Script, l: Loop, f: seq<Byte>, file: seq<Byte>)
    requires l.Valid() && l.completed < TOKEN_SIZE && WriteTurn(script, l).More?
    requires f == Onto(l.wire[..l.completed], file)
    ensures var next := WriteTurn(script, l).loop;
            Stored(f, next.log[|l.log|]) == Onto(l.wire[..next.completed], file)
  {
    var next := WriteTurn(script, l).loop;
    var n, m := l.completed, next.completed;
    if n < m {
      assert f[..n] == l.wire[..n];
      assert l.wire[n..][..m - n] == l.wire[n..m];
      assert l.wire[..m] == l.wire[..n] + l.wire[n..m];
      if m <= |f| {
        assert f[m..] == file[m..];
      }
    }
  }

  /** Reading the role from its start: at most 56 callbacks, and over a file the outcome is what the
      file's first 48 bytes say. */
  lemma ReadRoleFromFile(script: Script, log: seq<Event>, file: seq<Byte>)
    ensures var r := ReadRole(script, log);
            && log <= r.log && |r.log| <= |log| + 56
            && (r.status == Ok <==> r.token.Some?)
            && (r.status in {Ok, ErrRoleToken} && (forall i :: |log| <= i < |r.log| ==> ReadsFile(file, r.log[i])) ==>
                  && |file| >= TOKEN_SIZE
                  && Delivered(script, log) == file[..TOKEN_SIZE]
                  && r.token == Decode(file[..TOKEN_SIZE]))
  {
    ReadLoopBounded(script, Start(log));
    var r := ReadRole(script, log);
    if r.status in {Ok, ErrRoleToken} && forall i :: |log| <= i < |r.log| ==> ReadsFile(file, r.log[i]) {
      ReadLoopDelivers(script, Start(log), file);
    }
  }

  /** Installing into a role file makes at most 56 callbacks, and reading it back through any
      callbacks of that file recovers the token: the launcher's write and the runtime's read are
      partners. */
  lemma InstalledTokenReadsBack(ws: Script, wlog: seq<Event>, rs: Script, rlog: seq<Event>, file: seq<Byte>, t: Token)
    requires WellFormed(t) && IsSupportedRole(t.role)
    ensures var w := WriteLoop(ws, Loop(wlog, Wire(t), 0, 0));
            var r := ReadLoop(rs, Start(rlog));
            && |w.log| <= |wlog| + 56
            && (w.status == Ok ==>
                  var installed := FileAfter(file, w.log[|wlog|..]);
                  && installed == Onto(Wire(t), file)
                  && (r.status == Ok && (forall i :: |rlog| <= i < |r.log| ==> ReadsFile(installed, r.log[i])) ==>
                        ReadRole(rs, rlog).status == Ok && ReadRole(rs, rlog).token == Some(t)))
  {
    var l := Loop(wlog, Wire(t), 0, 0);
    var w := WriteLoop(ws, l);
    WriteLoopBounded(ws, l);
    if w.status == Ok {
      assert wlog[|wlog|..] == [];
      WriteLoopInstalls(ws, wlog, l, file);
      var installed := FileAfter(file, w.log[|wlog|..]);
      assert installed[..TOKEN_SIZE] == Wire(t);
      var r := ReadLoop(rs, Start(rlog));
      if r.status == Ok && forall i :: |rlog| <= i < |r.log| ==> ReadsFile(installed, r.log[i]) {
        ReadLoopDelivers(rs, Start(rlog), installed);
        WireDecodes(t);
      }
    }
  }
}
