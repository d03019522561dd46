/** Prepare, resume and parent release: who owns the kernel descriptor around an ioctl that may
    return in another process (runtime/rfork/src/rfork_runtime.c). */
module Rfork {
  import opened Scripts
  import opened Wrappers
  import opened Words
  import opened RforkTypes
  import opened RoleToken
  import opened RforkIo

  datatype RawContext = Context(abiVersion: U32, handlerId: U32, sourceMachine: U32, targetMachine: U32,
                                runCookie: seq<Byte>)

  type Context = c: RawContext | |c.runCookie| == COOKIE_SIZE witness RawContext.Context(1, 0, 0, 0, Zeros(COOKIE_SIZE))

  // The flat audit structure, with the fields that are written together grouped.
  datatype Identity = Identity(handlerId: U32, sourceMachine: U32, targetMachine: U32, runCookie: seq<Byte>)
  datatype Observed = Observed(machine: U32, checksum: U32)
  datatype Pids = Pids(before: int, after: int, errno: int)
  datatype IoctlAudit = IoctlAudit(returned: bool, result: int, errno: int)
  datatype CloseAudit = CloseAudit(attempted: bool, succeeded: bool, result: int, errno: int)
  datatype Audit = Audit(
    operation: Operation, stage: Stage, status: Status, roleBefore: U32, roleAfter: U32, identity: Identity,
    observed: Observed, deviceFd: int, pids: Pids, roleReadErrno: int, openErrno: int,
    ioctl: IoctlAudit, close: CloseAudit, safeToClose: bool)

  datatype Record = Record(status: Status, role: U32, audit: Audit)

  /** The caller's outcome structure. */
  class Outcome {
    var status: Status
    var role: U32
    var audit: Audit

    function View(): Record
      reads this
    {
      Record(status, role, audit)
    }

    method Set(r: Record)
      modifies this
      ensures View() == r
    {
      status, role, audit := r.status, r.role, r.audit;
    }
  }

  // ---------- what each entry point does, as functions of the script ----------

  /** An outcome together with the callbacks made so far. */
  datatype Run = Run(record: Record, log: seq<Event>)

  function AuditInit(context: Option<Context>, operation: Operation): Record {
    var identity := match context
                    case None => Identity(0, 0, 0, Zeros(COOKIE_SIZE))
                    case Some(c) => Identity(c.handlerId, c.sourceMachine, c.targetMachine, c.runCookie);
    Record(ErrInvalidArgument, ROLE_INVALID,
           Audit(operation, Config, ErrInvalidArgument, ROLE_INVALID, ROLE_INVALID, identity, Observed(0, 0), -1,
                 Pids(-1, -1, 0), 0, 0, IoctlAudit(false, -1, 0), CloseAudit(false, false, -1, 0), false))
  }

  function Finish(r: Record, status: Status, stage: Stage): Record {
    Record(status, if status != Ok then ROLE_INVALID else r.role, r.audit.(status := status, stage := stage))
  }

  function ValidateContext(context: Option<Context>): Status {
    if context.None? || context.value.abiVersion != ABI_VERSION then ErrInvalidArgument
    else if !CookieNonzero(context.value.runCookie) then ErrCookieInvalid
    else Ok
  }

  /** spd_validate_observed_role; `required` is nothing where parent and child are both allowed. */
  function ValidateObservedRole(context: Context, token: Token, required: Option<U32>): Status {
    if token.handler != context.handlerId || token.cookie != context.runCookie then ErrRoleMismatch
    else if required.None? && !IsSupportedRole(token.role) then ErrRoleMismatch
    else if required.Some? && token.role != required.value then ErrRoleMismatch
    else if token.machine == (if token.role == ROLE_PARENT then context.sourceMachine else context.targetMachine)
    then Ok
    else ErrRoleMismatch
  }

  function PidStatus(reply: Reply): Status {
    if reply.result <= 0 || reply.errno != 0 then ErrPid else Ok
  }

  /** spd_close_owned_device. */
  function CloseOwned(script: Script, run: Run): (r: Run)
    ensures run.log <= r.log
  {
    var reply := script(|run.log|);
    var errno := if reply.result < 0 then ErrnoOr(reply.errno) else reply.errno;
    var failed := reply.result != 0 || reply.errno != 0;
    Run(run.record.(audit := run.record.audit.(
          close := CloseAudit(true, !failed, reply.result, if failed && errno == 0 then EPROTO else errno))),
        Ask(script, run.log, CloseFd(run.record.audit.deviceFd)))
  }

  function Observe(r: Record, token: Token, after: bool): Record
    requires |token.cookie| == COOKIE_SIZE
  {
    r.(audit := r.audit.(
      roleBefore := if after then r.audit.roleBefore else token.role,
      roleAfter := if after then token.role else r.audit.roleAfter,
      observed := Observed(token.machine, Fnv(Body(token)))))
  }

  datatype Head = Stopped(run: Run) | Opened(run: Run)

  /** The part prepare and resume share: check the context, the role and the process, then open. */
  function OpenForRole(context: Option<Context>, complete: bool, operation: Operation, required: U32, script: Script,
                       log: seq<Event>): (h: Head)
    ensures h.Opened? ==> context.Some?
    ensures log <= h.run.log
  {
    var r0 := AuditInit(context, operation);
    var valid := ValidateContext(context);
    if valid != Ok then Stopped(Run(Finish(r0, valid, Config), log))
    else if !complete then Stopped(Run(Finish(r0, ErrIoOpsInvalid, Config), log))
    else OpenValid(context.value, r0, required, script, log)
  }

  function OpenValid(context: Context, r0: Record, required: U32, script: Script, log: seq<Event>): (h: Head)
    ensures log <= h.run.log
  {
    var read := ReadRole(script, log);
    var r1 := r0.(audit := r0.audit.(roleReadErrno := read.errno));
    if read.status != Ok then Stopped(Run(Finish(r1, read.status, RoleBefore), read.log))
    else
      var r2 := Observe(r1, read.token.value, false);
      var checked := ValidateObservedRole(context, read.token.value, Some(required));
      if checked != Ok then Stopped(Run(Finish(r2, checked, RoleBefore), read.log))
      else OpenAfterRole(r2, script, read.log)
  }

  function OpenAfterRole(r: Record, script: Script, log: seq<Event>): (h: Head)
    ensures log <= h.run.log
  {
    var pid := script(|log|);
    var log1 := Ask(script, log, GetPid);
    if PidStatus(pid) != Ok
    then
      var r1 := r.(audit := r.audit.(pids := r.audit.pids.(errno := ErrnoOr(pid.errno))));
      Stopped(Run(Finish(r1, ErrPid, PidBefore), log1))
    else
      var open := script(|log1|);
      var log2 := Ask(script, log1, OpenDevice);
      var r1 := r.(audit := r.audit.(pids := r.audit.pids.(before := pid.result), deviceFd := open.result,
                                     openErrno := if open.result < 0 then ErrnoOr(open.errno) else open.errno));
      if open.result < 0 || open.errno != 0 then Stopped(Run(Finish(r1, ErrDeviceOpen, DeviceOpen), log2))
      else Opened(Run(r1.(audit := r1.audit.(safeToClose := true)), log2))
  }

  function PrepareRun(context: Option<Context>, complete: bool, script: Script, log: seq<Event>): (r: Run)
    ensures log <= r.log
  {
    match OpenForRole(context, complete, Prepare, ROLE_PARENT, script, log)
    case Stopped(run) => run
    case Opened(run) => PrepareIoctl(context.value, script, run)
  }

  function PrepareIoctl(context: Context, script: Script, run: Run): (r: Run)
    ensures run.log <= r.log
  {
    var reply := script(|run.log|);
    var log := Ask(script, run.log, IoctlPrepare(run.record.audit.deviceFd, context.handlerId));
    var r := run.record.(audit := run.record.audit.(
               ioctl := IoctlAudit(true, reply.result,
                                   if reply.result != 0 then ErrnoOr(reply.errno) else reply.errno)));
    if reply.result != 0 || reply.errno != 0
    then
      var closed := CloseOwned(script, Run(r, log));
      Run(Finish(closed.record, ErrIoctl, Ioctl), closed.log)
    else PrepareContinue(context, script, Run(r, log))
  }

  /** From the return of the ioctl on, in whichever process that is. */
  function PrepareContinue(context: Context, script: Script, run: Run): (r: Run)
    ensures run.log <= r.log
  {
    var read := ReadRole(script, run.log);
    var r := run.record.(audit := run.record.audit.(roleReadErrno := read.errno));
    if read.status != Ok
    then Run(Finish(r.(audit := r.audit.(safeToClose := false)), read.status, RoleAfter), read.log)
    else
      var r1 := Observe(r, read.token.value, true);
      var checked := ValidateObservedRole(context, read.token.value, None);
      if checked != Ok then Run(Finish(r1.(audit := r1.audit.(safeToClose := false)), checked, RoleAfter), read.log)
      else PrepareFinish(read.token.value.role, script, Run(r1, read.log))
  }

  function PrepareFinish(role: U32, script: Script, run: Run): (r: Run)
    ensures run.log <= r.log
  {
    var pid := script(|run.log|);
    var log := Ask(script, run.log, GetPid);
    var a := run.record.audit;
    if PidStatus(pid) != Ok then
      var r := run.record.(audit := a.(pids := a.pids.(errno := ErrnoOr(pid.errno))));
      if role == ROLE_PARENT then
        var closed := CloseOwned(script, Run(r, log));
        Run(Finish(closed.record, ErrPid, PidAfter), closed.log)
      else Run(Finish(r.(audit := r.audit.(safeToClose := false)), ErrPid, PidAfter), log)
    else
      var done := a.(pids := a.pids.(after := pid.result), safeToClose := role == ROLE_PARENT);
      var r := Record(run.record.status, role, done);
      Run(Finish(r, Ok, Complete), log)
  }

  function ResumeRun(context: Option<Context>, complete: bool, script: Script, log: seq<Event>): (r: Run)
    ensures log <= r.log
  {
    match OpenForRole(context, complete, ResumeRemote, ROLE_REMOTE_CHILD, script, log)
    case Stopped(run) => run
    case Opened(run) => ResumeIoctl(context.value, script, run)
  }

  function ResumeIoctl(context: Context, script: Script, run: Run): (r: Run)
    ensures run.log <= r.log
  {
    var reply := script(|run.log|);
    var log := Ask(script, run.log, IoctlResume(run.record.audit.deviceFd, context.sourceMachine, context.handlerId));
    var r := run.record.(audit := run.record.audit.(
               ioctl := IoctlAudit(true, reply.result,
                                   if reply.result < 0 then ErrnoOr(reply.errno) else reply.errno)));
    var closed := CloseOwned(script, Run(r, log));
    if !closed.record.audit.close.succeeded then Run(Finish(closed.record, ErrDeviceClose, DeviceClose), closed.log)
    else
      var status := if reply.result < 0 || reply.errno != 0 then ErrIoctl else ErrResumeReturned;
      Run(Finish(closed.record, status, Ioctl), closed.log)
  }

  /** The outcome holds an open descriptor that parent release would close. */
  predicate Owns(r: Record) {
    r.status == Ok && r.role == ROLE_PARENT && r.audit.deviceFd >= 0 && r.audit.safeToClose && !r.audit.close.attempted
  }

  datatype Release = Release(answer: Status, run: Run)

  function ReleaseRun(complete: bool, script: Script, run: Run): (r: Release)
    ensures run.log <= r.run.log
  {
    if !complete then Release(ErrIoOpsInvalid, run)
    else if !Owns(run.record) then Release(ErrDeviceOwnership, run)
    else
      var closed := CloseOwned(script, run);
      var a := closed.record.audit.(safeToClose := false);
      if a.close.succeeded then Release(Ok, Run(closed.record.(audit := a), closed.log))
      else Release(ErrDeviceClose,
                   Run(closed.record.(status := ErrDeviceClose,
                                      audit := a.(status := ErrDeviceClose, stage := DeviceClose)),
                       closed.log))
  }

  // ---------- the role check accepts exactly one byte string per role ----------

  function ParentToken(c: Context): Token {
    Token(ROLE_PARENT, c.handlerId, c.sourceMachine, c.runCookie)
  }

  function ChildToken(c: Context): Token {
    Token(ROLE_REMOTE_CHILD, c.handlerId, c.targetMachine, c.runCookie)
  }

  function ParentWire(c: Context): (s: seq<Byte>)
    ensures |s| == TOKEN_SIZE
  {
    Wire(ParentToken(c))
  }

  function ChildWire(c: Context): (s: seq<Byte>)
    ensures |s| == TOKEN_SIZE
  {
    Wire(ChildToken(c))
  }

  predicate Accepted(c: Context, s: seq<Byte>, required: Option<U32>)
    requires |s| == TOKEN_SIZE
  {
    Decode(s).Some? && ValidateObservedRole(c, Decode(s).value, required) == Ok
  }

  lemma RoleCheckExact(c: Context, s: seq<Byte>)
    requires |s| == TOKEN_SIZE
    ensures Accepted(c, s, Some(ROLE_PARENT)) <==> s == ParentWire(c)
    ensures Accepted(c, s, Some(ROLE_REMOTE_CHILD)) <==> s == ChildWire(c)
    ensures Accepted(c, s, None) <==> s == ParentWire(c) || s == ChildWire(c)
    ensures Accepted(c, s, None) ==> (Decode(s).value.role == ROLE_PARENT <==> s == ParentWire(c))
    ensures Accepted(c, s, None) ==> (Decode(s).value.role == ROLE_REMOTE_CHILD <==> s == ChildWire(c))
    ensures Decode(ParentWire(c)) == Some(ParentToken(c)) && Decode(ChildWire(c)) == Some(ChildToken(c))
    ensures ParentWire(c) != ChildWire(c)
  {
    var p, k := ParentToken(c), ChildToken(c);
    DecodeExactlyWire(s, p);
    DecodeExactlyWire(s, k);
    WireDecodes(p);
    WireDecodes(k);
  }

  /** The callbacks delivered a whole token and it is `wire`. */
  predicate Shows(script: Script, log: seq<Event>, wire: seq<Byte>) {
    ReadLoop(script, Start(log)).status == Ok && Delivered(script, log) == wire
  }

  // ---------- what each entry point answers, by the replies alone ----------

  predicate GoodPid(reply: Reply) {
    reply.result > 0 && reply.errno == 0
  }

  predicate GoodOpen(reply: Reply) {
    reply.result >= 0 && reply.errno == 0
  }

  predicate Zero(reply: Reply) {
    reply.result == 0 && reply.errno == 0
  }

  /** Why a role descriptor that shows no token of the context is refused: reading it failed, it holds no token,
      or it holds another. */
  function RoleFault(script: Script, log: seq<Event>): Status {
    var read := ReadLoop(script, Start(log));
    if read.status != Ok then read.status
    else if Decode(read.wire).None? then ErrRoleToken
    else ErrRoleMismatch
  }

  /** The calls up to and with the opening of the device. */
  function OpenCalls(script: Script, log: seq<Event>): seq<Event> {
    Ask(script, Ask(script, ReadLoop(script, Start(log)).log, GetPid), OpenDevice)
  }

  /** The role descriptor shows `wire`, the process is named and the device opens. */
  predicate Opens(wire: seq<Byte>, script: Script, log: seq<Event>) {
    var at := |ReadLoop(script, Start(log)).log|;
    Shows(script, log, wire) && GoodPid(script(at)) && GoodOpen(script(at + 1))
  }

  /** The call ended with this status at this stage after these calls; only Ok carries a role. */
  predicate Ends(done: Run, status: Status, stage: Stage, log: seq<Event>) {
    && done.record.status == done.record.audit.status == status && done.record.audit.stage == stage
    && done.log == log && (status != Ok ==> done.record.role == ROLE_INVALID)
  }

  /** How prepare and resume end when they never get as far as the ioctl: with nothing opened or closed. */
  predicate StopsEarly(context: Option<Context>, complete: bool, wire: seq<Byte>, script: Script, log: seq<Event>,
                       done: Run) {
    var named := context.Some? && context.value.abiVersion == 1;
    var read := ReadLoop(script, Start(log)).log;
    && !done.record.audit.safeToClose && !done.record.audit.close.attempted && !done.record.audit.ioctl.returned
    && (if !named then Ends(done, ErrInvalidArgument, Config, log)
        else if forall i :: 0 <= i < COOKIE_SIZE ==> context.value.runCookie[i] == 0
        then Ends(done, ErrCookieInvalid, Config, log)
        else if !complete then Ends(done, ErrIoOpsInvalid, Config, log)
        else if !Shows(script, log, wire) then Ends(done, RoleFault(script, log), RoleBefore, read)
        else if !GoodPid(script(|read|)) then Ends(done, ErrPid, PidBefore, Ask(script, read, GetPid))
        else Ends(done, ErrDeviceOpen, DeviceOpen, OpenCalls(script, log)))
  }

  /** A context of this version with a cookie that is not all zeros, and a complete table. */
  predicate Usable(context: Option<Context>, complete: bool) {
    && context.Some? && context.value.abiVersion == 1 && complete
    && exists i :: 0 <= i < COOKIE_SIZE && context.value.runCookie[i] != 0
  }

  /** Closing the descriptor: told to the audit with whether it worked, and with an errno exactly if not. */
  predicate ClosedBy(reply: Reply, close: CloseAudit) {
    && close.attempted && close.result == reply.result
    && (close.succeeded <==> Zero(reply)) && (close.errno == 0 <==> Zero(reply))
    && (reply.errno > 0 ==> close.errno == reply.errno)
  }

  /** What the audit tells of the role, the process and the ioctl of a call that opened the device. */
  predicate Audited(a: Audit, operation: Operation, role: U32, ahead: seq<Event>, failed: bool) {
    && |ahead| >= 2 && a.operation == operation && a.roleBefore == role
    && a.pids.before == ahead[|ahead| - 2].reply.result && a.deviceFd == ahead[|ahead| - 1].reply.result
    && a.openErrno == 0 && a.ioctl.returned && (a.ioctl.errno != 0 <==> failed)
  }

  /** The audit of a prepare that answered Ok on this token. */
  predicate AuditedOk(a: Audit, token: Token, pid: int)
    requires WellFormed(token)
  {
    && a.roleAfter == token.role && a.observed == Observed(token.machine, Fnv(Body(token)))
    && a.pids.after == pid && a.pids.errno == 0 && a.roleReadErrno == 0
  }

  /** A prepare that opened the device, by the ioctl's reply, the token shown after it and the second pid. Ok
      exactly when the ioctl answers 0, one of the two tokens of the context is shown and the pid is good; then
      the token alone says the role, and the descriptor stays the parent's. It is closed exactly when the ioctl
      failed, or the parent's second pid did. */
  predicate PreparesFrom(c: Context, script: Script, log: seq<Event>, done: Run) {
    var ahead := OpenCalls(script, log);
    var fd, ioctl := script(|ahead| - 1).result, script(|ahead|);
    var there := Ask(script, ahead, IoctlPrepare(fd, c.handlerId));
    var parent, child := Shows(script, there, ParentWire(c)), Shows(script, there, ChildWire(c));
    var read := ReadLoop(script, Start(there)).log;
    var pid, after, r := script(|read|), Ask(script, read, GetPid), done.record;
    && Audited(r.audit, Prepare, ROLE_PARENT, ahead, !Zero(ioctl)) && r.audit.ioctl.result == ioctl.result
    && (r.status == Ok <==> Zero(ioctl) && (parent || child) && GoodPid(pid))
    && (r.status == Ok ==>
          && r.role == (if parent then ROLE_PARENT else ROLE_REMOTE_CHILD)
          && AuditedOk(r.audit, if parent then ParentToken(c) else ChildToken(c), pid.result))
    && (Owns(r) <==> r.status == Ok && parent)
    && (r.audit.safeToClose <==> !Zero(ioctl) || parent)
    && (r.audit.close.attempted <==> !Zero(ioctl) || (parent && !GoodPid(pid)))
    && (if !Zero(ioctl)
        then
          && Ends(done, ErrIoctl, Ioctl, Ask(script, there, CloseFd(fd)))
          && ClosedBy(script(|there|), r.audit.close)
        else if !parent && !child then Ends(done, RoleFault(script, there), RoleAfter, read)
        else if GoodPid(pid) then Ends(done, Ok, Complete, after)
        else if parent
        then
          && Ends(done, ErrPid, PidAfter, Ask(script, after, CloseFd(fd)))
          && ClosedBy(script(|after|), r.audit.close)
        else Ends(done, ErrPid, PidAfter, after))
  }

  /** What prepare answers, over the replies and the bytes shown. */
  predicate PrepareMeans(context: Option<Context>, complete: bool, script: Script, log: seq<Event>, done: Run) {
    if Usable(context, complete) && Opens(ParentWire(context.value), script, log)
    then PreparesFrom(context.value, script, log, done)
    else StopsEarly(context, complete, if context.Some? then ParentWire(context.value) else [], script, log, done)
  }

  /** A resume that opened the device: it hands the source machine and the handler to the ioctl, closes the
      descriptor whatever that answered, and never answers Ok. */
  predicate ResumesFrom(c: Context, script: Script, log: seq<Event>, done: Run) {
    var ahead := OpenCalls(script, log);
    var fd, ioctl, close := script(|ahead| - 1).result, script(|ahead|), script(|ahead| + 1);
    var calls := Ask(script, Ask(script, ahead, IoctlResume(fd, c.sourceMachine, c.handlerId)), CloseFd(fd));
    && Audited(done.record.audit, ResumeRemote, ROLE_REMOTE_CHILD, ahead, ioctl.result < 0 || ioctl.errno != 0)
    && done.record.audit.ioctl.result == ioctl.result && ClosedBy(close, done.record.audit.close)
    && (if !Zero(close) then Ends(done, ErrDeviceClose, DeviceClose, calls)
        else if ioctl.result >= 0 && ioctl.errno == 0 then Ends(done, ErrResumeReturned, Ioctl, calls)
        else Ends(done, ErrIoctl, Ioctl, calls))
  }

  predicate ResumeMeans(context: Option<Context>, complete: bool, script: Script, log: seq<Event>, done: Run) {
    if Usable(context, complete) && Opens(ChildWire(context.value), script, log)
    then ResumesFrom(context.value, script, log, done)
    else StopsEarly(context, complete, if context.Some? then ChildWire(context.value) else [], script, log, done)
  }

  /** What parent release answers: it refuses, touching nothing, without a table or a descriptor to release;
      otherwise it closes that descriptor once, gives it up, and answers Ok exactly when the close did. */
  predicate ReleaseMeans(complete: bool, script: Script, before: Run, answer: Status, after: Run) {
    var fd, reply, r, r' := before.record.audit.deviceFd, script(|before.log|), before.record, after.record;
    if complete && r.status == Ok && r.role == 1 && fd >= 0 && r.audit.safeToClose && !r.audit.close.attempted
    then
      && answer == (if Zero(reply) then Ok else ErrDeviceClose)
      && after.log == Ask(script, before.log, CloseFd(fd)) && ClosedBy(reply, r'.audit.close)
      && r' == Record(answer, ROLE_PARENT,
                      r.audit.(status := if Zero(reply) then r.audit.status else ErrDeviceClose,
                               stage := if Zero(reply) then r.audit.stage else DeviceClose,
                               close := r'.audit.close, safeToClose := false))
    else answer == (if complete then ErrDeviceOwnership else ErrIoOpsInvalid) && after == before
  }

  lemma CloseExactly(script: Script, run: Run)
    ensures var closed := CloseOwned(script, run);
            && ClosedBy(script(|run.log|), closed.record.audit.close)
            && closed.log == Ask(script, run.log, CloseFd(run.record.audit.deviceFd))
            && closed.record == run.record.(audit := run.record.audit.(close := closed.record.audit.close))
  {
  }

  /** Why a role was refused, when it was. */
  lemma RoleExactly(c: Context, script: Script, log: seq<Event>, required: Option<U32>)
    requires required in {None, Some(ROLE_PARENT), Some(ROLE_REMOTE_CHILD)}
    ensures var read := ReadRole(script, log);
            var parent, child := Shows(script, log, ParentWire(c)), Shows(script, log, ChildWire(c));
            var status := if read.status != Ok then read.status
                          else ValidateObservedRole(c, read.token.value, required);
            && (status == Ok <==> if required == None then parent || child
                                  else if required == Some(ROLE_PARENT) then parent else child)
            && (status != Ok ==> status == RoleFault(script, log))
            && (status == Ok ==>
                  read.errno == 0 && read.token.value == if parent then ParentToken(c) else ChildToken(c))
            && !(parent && child)
            && read.log == ReadLoop(script, Start(log)).log
  {
    hide ReadLoop, Decode, ParentWire, ChildWire, ValidateObservedRole;
    RoleCheckExact(c, Delivered(script, log));
    FaultIsMismatch(c, script, log, required);
  }

  lemma FaultIsMismatch(c: Context, script: Script, log: seq<Event>, required: Option<U32>)
    ensures var read := ReadRole(script, log);
            read.status == Ok ==> ValidateObservedRole(c, read.token.value, required) in {Ok, ErrRoleMismatch}
  {
  }

  /** The device is open and everything before the ioctl went well. */
  predicate ReadyFor(run: Run, operation: Operation, role: U32) {
    var r := run.record;
    && Audited(r.audit.(ioctl := IoctlAudit(true, 0, 0)), operation, role, run.log, false)
    && r.audit.pids.errno == 0 && r.audit.deviceFd >= 0
    && r.role == ROLE_INVALID && r.audit.safeToClose && !r.audit.close.attempted
  }

  /** How a call that must see the wire form of a token first gets to its open device, or stops. */
  ghost predicate HeadMeans(context: Option<Context>, complete: bool, operation: Operation, role: U32, wire: seq<Byte>,
                            script: Script, log: seq<Event>, h: Head) {
    && (h.Opened? <==> Usable(context, complete) && Opens(wire, script, log))
    && (h.Stopped? ==> StopsEarly(context, complete, wire, script, log, h.run))
    && (h.Opened? ==> h.run.log == OpenCalls(script, log) && ReadyFor(h.run, operation, role))
  }

  function WireFor(c: Context, role: U32): seq<Byte> {
    if role == ROLE_PARENT then ParentWire(c) else ChildWire(c)
  }

  lemma OpenExactly(r: Record, script: Script, log: seq<Event>)
    requires r.role == ROLE_INVALID && !r.audit.safeToClose && !r.audit.close.attempted && !r.audit.ioctl.returned
    requires r.audit.pids.errno == 0
    ensures var h, pid, open := OpenAfterRole(r, script, log), script(|log|), script(|log| + 1);
            var calls := Ask(script, Ask(script, log, GetPid), OpenDevice);
            && (h.Opened? <==> GoodPid(pid) && GoodOpen(open)) && h.run.record.role == ROLE_INVALID
            && !h.run.record.audit.close.attempted && (h.run.record.audit.safeToClose <==> h.Opened?)
            && !h.run.record.audit.ioctl.returned
            && (h.Opened? ==> h.run.log == calls && ReadyFor(h.run, r.audit.operation, r.audit.roleBefore))
            && (h.Stopped? && !GoodPid(pid) ==> Ends(h.run, ErrPid, PidBefore, Ask(script, log, GetPid)))
            && (h.Stopped? && GoodPid(pid) ==> Ends(h.run, ErrDeviceOpen, DeviceOpen, calls))
  {
  }

  lemma ValidExactly(c: Context, r0: Record, required: U32, script: Script, log: seq<Event>)
    requires IsSupportedRole(required) && Usable(Some(c), true)
    requires r0.role == ROLE_INVALID && !r0.audit.safeToClose && !r0.audit.close.attempted && !r0.audit.ioctl.returned
    requires r0.audit.pids.errno == 0
    ensures HeadMeans(Some(c), true, r0.audit.operation, required, WireFor(c, required), script, log,
                      OpenValid(c, r0, required, script, log))
  {
    hide ReadLoop, ReadRole, Shows, RoleFault, ParentWire, ChildWire, ValidateObservedRole, OpenAfterRole;
    RoleExactly(c, script, log, Some(required));
    var i :| 0 <= i < COOKIE_SIZE && c.runCookie[i] != 0;
    var read := ReadRole(script, log);
    if read.status == Ok && ValidateObservedRole(c, read.token.value, Some(required)) == Ok {
      OpenExactly(Observe(r0.(audit := r0.audit.(roleReadErrno := read.errno)), read.token.value, false), script,
                  read.log);
    }
  }

  lemma HeadExactly(context: Option<Context>, complete: bool, operation: Operation, required: U32, script: Script,
                    log: seq<Event>)
    requires IsSupportedRole(required)
    ensures var h := OpenForRole(context, complete, operation, required, script, log);
            match context
            case None => h.Stopped? && StopsEarly(context, complete, [], script, log, h.run)
            case Some(c) =>
              HeadMeans(context, complete, operation, required, WireFor(c, required), script, log, h)
  {
    hide ReadLoop, Shows, RoleFault, ParentWire, ChildWire, OpenValid, Opens;
    if Usable(context, complete) {
      ValidExactly(context.value, AuditInit(context, operation), required, script, log);
    }
  }

  lemma FinishExactly(role: U32, script: Script, run: Run)
    requires IsSupportedRole(role) && run.record.audit.safeToClose && !run.record.audit.close.attempted
    requires run.record.role == ROLE_INVALID && run.record.audit.deviceFd >= 0
    ensures var pid, after, done := script(|run.log|), Ask(script, run.log, GetPid), PrepareFinish(role, script, run);
            var r := done.record;
            && r.audit.(close := run.record.audit.close, safeToClose := true, status := run.record.audit.status,
                        stage := run.record.audit.stage, pids := run.record.audit.pids) == run.record.audit
            && r.audit.pids.before == run.record.audit.pids.before
            && (r.audit.safeToClose <==> role == ROLE_PARENT)
            && (r.audit.close.attempted <==> role == ROLE_PARENT && !GoodPid(pid))
            && (if GoodPid(pid)
                then
                  && Ends(done, Ok, Complete, after) && r.role == role
                  && r.audit.pids == run.record.audit.pids.(after := pid.result)
                else if role == ROLE_PARENT
                then
                  && Ends(done, ErrPid, PidAfter, Ask(script, after, CloseFd(run.record.audit.deviceFd)))
                  && ClosedBy(script(|after|), r.audit.close)
                else Ends(done, ErrPid, PidAfter, after))
  {
  }

  lemma IoctlExactly(c: Context, script: Script, log: seq<Event>, run: Run)
    requires run.log == OpenCalls(script, log) && ReadyFor(run, Prepare, ROLE_PARENT)
    ensures PreparesFrom(c, script, log, PrepareIoctl(c, script, run))
  {
    hide ReadLoop, ReadRole, Shows, RoleFault, ParentWire, ChildWire, ValidateObservedRole, PrepareFinish;
    var there := Ask(script, run.log, IoctlPrepare(run.record.audit.deviceFd, c.handlerId));
    RoleExactly(c, script, there, None);
    if Zero(script(|run.log|)) {
      var read := ReadRole(script, there);
      var r := run.record.(audit := run.record.audit.(ioctl := IoctlAudit(true, 0, 0), roleReadErrno := read.errno));
      if read.status == Ok && ValidateObservedRole(c, read.token.value, None) == Ok {
        FinishExactly(read.token.value.role, script, Run(Observe(r, read.token.value, true), read.log));
      }
    }
  }

  /** For every script, context and table, prepare answers what the replies and the bytes shown say. */
  lemma PrepareExactly(context: Option<Context>, complete: bool, script: Script, log: seq<Event>)
    ensures PrepareMeans(context, complete, script, log, PrepareRun(context, complete, script, log))
  {
    hide OpenForRole, PrepareIoctl, StopsEarly, PreparesFrom, ParentWire;
    HeadExactly(context, complete, Prepare, ROLE_PARENT, script, log);
    var head := OpenForRole(context, complete, Prepare, ROLE_PARENT, script, log);
    if head.Opened? {
      IoctlExactly(context.value, script, log, head.run);
    }
  }

  lemma ResumesExactly(c: Context, script: Script, log: seq<Event>, run: Run)
    requires run.log == OpenCalls(script, log) && ReadyFor(run, ResumeRemote, ROLE_REMOTE_CHILD)
    ensures ResumesFrom(c, script, log, ResumeIoctl(c, script, run))
  {
    hide ReadLoop, CloseOwned, ClosedBy;
    var reply := script(|run.log|);
    var r := run.record.(audit := run.record.audit.(
               ioctl := IoctlAudit(true, reply.result,
                                   if reply.result < 0 then ErrnoOr(reply.errno) else reply.errno)));
    CloseExactly(script, Run(r, Ask(script, run.log,
                                    IoctlResume(run.record.audit.deviceFd, c.sourceMachine, c.handlerId))));
    CloseTells();
  }

  /** What the audit of a close says of its reply. */
  lemma CloseTells()
    ensures forall reply, close :: ClosedBy(reply, close) ==> close.attempted && (close.succeeded <==> Zero(reply))
  {
  }

  lemma ResumeExactly(context: Option<Context>, complete: bool, script: Script, log: seq<Event>)
    ensures ResumeMeans(context, complete, script, log, ResumeRun(context, complete, script, log))
  {
    hide OpenForRole, ResumeIoctl, StopsEarly, ResumesFrom, ChildWire;
    HeadExactly(context, complete, ResumeRemote, ROLE_REMOTE_CHILD, script, log);
    var head := OpenForRole(context, complete, ResumeRemote, ROLE_REMOTE_CHILD, script, log);
    if head.Opened? {
      ResumesExactly(context.value, script, log, head.run);
    }
  }

  lemma ReleaseExactly(complete: bool, script: Script, run: Run)
    ensures var r := ReleaseRun(complete, script, run); ReleaseMeans(complete, script, run, r.answer, r.run)
  {
    hide CloseOwned;
    CloseExactly(script, run);
  }

  // ---------- the entry points ----------

  method CloseOwnedDevice(ops: IoOps, outcome: Outcome) returns (status: Status)
    modifies ops, outcome
    ensures Run(outcome.View(), ops.log) == CloseOwned(ops.script, Run(old(outcome.View()), old(ops.log)))
    ensures status == if outcome.audit.close.succeeded then Ok else ErrDeviceClose
    ensures ClosedBy(ops.script(|old(ops.log)|), outcome.audit.close)
    ensures ops.log == Ask(ops.script, old(ops.log), CloseFd(old(outcome.audit.deviceFd)))
  {
    outcome.audit := outcome.audit.(close := outcome.audit.close.(attempted := true));
    var result, callErrno := ops.Invoke(CloseFd(outcome.audit.deviceFd));
    var close := outcome.audit.close.(result := result, errno := if result < 0 then ErrnoOr(callErrno) else callErrno);
    if result != 0 || callErrno != 0 {
      close := close.(succeeded := false);
      if close.errno == 0 {
        close := close.(errno := EPROTO);
      }
      outcome.audit := outcome.audit.(close := close);
      return ErrDeviceClose;
    }
    outcome.audit := outcome.audit.(close := close.(succeeded := true));
    status := Ok;
  }

  method OpenDeviceForRole(context: Option<Context>, ops: IoOps, outcome: Outcome, operation: Operation, required: U32)
    returns (held: bool)
    modifies ops, outcome
    ensures var run := Run(outcome.View(), ops.log);
            OpenForRole(context, ops.complete, operation, required, ops.script, old(ops.log))
            == if held then Opened(run) else Stopped(run)
    ensures held ==> context.Some?
  {
    outcome.Set(AuditInit(context, operation));
    var valid := ValidateContext(context);
    if valid != Ok {
      outcome.Set(Finish(outcome.View(), valid, Config));
      return false;
    }
    if !ops.complete {
      outcome.Set(Finish(outcome.View(), ErrIoOpsInvalid, Config));
      return false;
    }
    var status, readErrno, token, checksum := ReadRoleToken(ops);
    outcome.audit := outcome.audit.(roleReadErrno := readErrno);
    if status != Ok {
      outcome.Set(Finish(outcome.View(), status, RoleBefore));
      return false;
    }
    outcome.audit := outcome.audit.(roleBefore := token.value.role,
                                    observed := Observed(token.value.machine, checksum));
    status := ValidateObservedRole(context.value, token.value, Some(required));
    if status != Ok {
      outcome.Set(Finish(outcome.View(), status, RoleBefore));
      return false;
    }
    held := OpenCheckedDevice(ops, outcome);
  }

  method OpenCheckedDevice(ops: IoOps, outcome: Outcome) returns (held: bool)
    modifies ops, outcome
    ensures var run := Run(outcome.View(), ops.log);
            OpenAfterRole(old(outcome.View()), ops.script, old(ops.log)) == if held then Opened(run) else Stopped(run)
  {
    var pid, pidErrno := ops.Invoke(GetPid);
    if pid <= 0 || pidErrno != 0 {
      outcome.audit := outcome.audit.(pids := outcome.audit.pids.(errno := ErrnoOr(pidErrno)));
      outcome.Set(Finish(outcome.View(), ErrPid, PidBefore));
      return false;
    }
    outcome.audit := outcome.audit.(pids := outcome.audit.pids.(before := pid));
    var fd, openErrno := ops.Invoke(OpenDevice);
    outcome.audit := outcome.audit.(deviceFd := fd, openErrno := if fd < 0 then ErrnoOr(openErrno) else openErrno);
    if fd < 0 || openErrno != 0 {
      outcome.Set(Finish(outcome.View(), ErrDeviceOpen, DeviceOpen));
      return false;
    }
    outcome.audit := outcome.audit.(safeToClose := true);
    held := true;
  }

  method PrepareParent(context: Option<Context>, ops: IoOps, outcome: Outcome?) returns (status: Status)
    modifies ops, outcome
    ensures outcome == null ==> status == ErrInvalidArgument && ops.log == old(ops.log)
    ensures outcome != null ==>
              && Run(outcome.View(), ops.log) == PrepareRun(context, ops.complete, ops.script, old(ops.log))
              && status == outcome.status
              && PrepareMeans(context, ops.complete, ops.script, old(ops.log), Run(outcome.View(), ops.log))
  {
    if outcome == null {
      return ErrInvalidArgument;
    }
    hide OpenForRole, PrepareIoctl, PrepareMeans;
    PrepareExactly(context, ops.complete, ops.script, ops.log);
    var held := OpenDeviceForRole(context, ops, outcome, Prepare, ROLE_PARENT);
    if held {
      PrepareThroughIoctl(context.value, ops, outcome);
    }
    status := outcome.status;
  }

  method PrepareThroughIoctl(context: Context, ops: IoOps, outcome: Outcome)
    modifies ops, outcome
    ensures Run(outcome.View(), ops.log) == PrepareIoctl(context, ops.script, Run(old(outcome.View()), old(ops.log)))
  {
    hide PrepareContinue;
    var result, callErrno := ops.Invoke(IoctlPrepare(outcome.audit.deviceFd, context.handlerId));
    outcome.audit := outcome.audit.(
      ioctl := IoctlAudit(true, result, if result != 0 then ErrnoOr(callErrno) else callErrno));
    if result != 0 || callErrno != 0 {
      var _ := CloseOwnedDevice(ops, outcome);
      outcome.Set(Finish(outcome.View(), ErrIoctl, Ioctl));
      return;
    }
    ContinuePrepare(context, ops, outcome);
  }

  method ContinuePrepare(context: Context, ops: IoOps, outcome: Outcome)
    modifies ops, outcome
    ensures Run(outcome.View(), ops.log) == PrepareContinue(context, ops.script, Run(old(outcome.View()), old(ops.log)))
  {
    var status, readErrno, token, checksum := ReadRoleToken(ops);
    outcome.audit := outcome.audit.(roleReadErrno := readErrno);
    if status != Ok {
      outcome.audit := outcome.audit.(safeToClose := false);
      outcome.Set(Finish(outcome.View(), status, RoleAfter));
      return;
    }
    outcome.audit := outcome.audit.(roleAfter := token.value.role, observed := Observed(token.value.machine, checksum));
    status := ValidateObservedRole(context, token.value, None);
    if status != Ok {
      outcome.audit := outcome.audit.(safeToClose := false);
      outcome.Set(Finish(outcome.View(), status, RoleAfter));
      return;
    }
    FinishPrepare(token.value.role, ops, outcome);
  }

  method FinishPrepare(role: U32, ops: IoOps, outcome: Outcome)
    modifies ops, outcome
    ensures Run(outcome.View(), ops.log) == PrepareFinish(role, ops.script, Run(old(outcome.View()), old(ops.log)))
  {
    var pid, pidErrno := ops.Invoke(GetPid);
    if pid <= 0 || pidErrno != 0 {
      outcome.audit := outcome.audit.(pids := outcome.audit.pids.(errno := ErrnoOr(pidErrno)));
      if role == ROLE_PARENT {
        var _ := CloseOwnedDevice(ops, outcome);
      } else {
        outcome.audit := outcome.audit.(safeToClose := false);
      }
      outcome.Set(Finish(outcome.View(), ErrPid, PidAfter));
      return;
    }
    outcome.audit := outcome.audit.(pids := outcome.audit.pids.(after := pid));
    outcome.role := role;
    if role == ROLE_PARENT {
      outcome.audit := outcome.audit.(safeToClose := true);
    } else {
      outcome.audit := outcome.audit.(safeToClose := false);
    }
    outcome.Set(Finish(outcome.View(), Ok, Complete));
  }

  method ResumeRemoteOrError(context: Option<Context>, ops: IoOps, outcome: Outcome?) returns (status: Status)
    modifies ops, outcome
    ensures outcome == null ==> status == ErrInvalidArgument && ops.log == old(ops.log)
    ensures outcome != null ==>
              && Run(outcome.View(), ops.log) == ResumeRun(context, ops.complete, ops.script, old(ops.log))
              && status == outcome.status
              && ResumeMeans(context, ops.complete, ops.script, old(ops.log), Run(outcome.View(), ops.log))
  {
    if outcome == null {
      return ErrInvalidArgument;
    }
    hide OpenForRole, ResumeIoctl, ResumeMeans;
    ResumeExactly(context, ops.complete, ops.script, ops.log);
    var held := OpenDeviceForRole(context, ops, outcome, ResumeRemote, ROLE_REMOTE_CHILD);
    if held {
      ResumeThroughIoctl(context.value, ops, outcome);
    }
    status := outcome.status;
  }

  method ResumeThroughIoctl(context: Context, ops: IoOps, outcome: Outcome)
    modifies ops, outcome
    ensures Run(outcome.View(), ops.log) == ResumeIoctl(context, ops.script, Run(old(outcome.View()), old(ops.log)))
  {
    var result, callErrno := ops.Invoke(IoctlResume(outcome.audit.deviceFd, context.sourceMachine, context.handlerId));
    outcome.audit := outcome.audit.(
      ioctl := IoctlAudit(true, result, if result < 0 then ErrnoOr(callErrno) else callErrno));
    var status := if result < 0 || callErrno != 0 then ErrIoctl else ErrResumeReturned;
    var closed := CloseOwnedDevice(ops, outcome);
    if closed != Ok {
      outcome.Set(Finish(outcome.View(), ErrDeviceClose, DeviceClose));
    } else {
      outcome.Set(Finish(outcome.View(), status, Ioctl));
    }
  }

  method ParentRelease(ops: IoOps, outcome: Outcome?) returns (status: Status)
    modifies ops, outcome
    ensures outcome == null ==> status == ErrInvalidArgument && ops.log == old(ops.log)
    ensures outcome != null ==>
              Release(status, Run(outcome.View(), ops.log))
              == ReleaseRun(ops.complete, ops.script, Run(old(outcome.View()), old(ops.log)))
    ensures outcome != null ==>
              ReleaseMeans(ops.complete, ops.script, Run(old(outcome.View()), old(ops.log)), status,
                           Run(outcome.View(), ops.log))
  {
    if outcome == null {
      return ErrInvalidArgument;
    }
    ReleaseExactly(ops.complete, ops.script, Run(outcome.View(), ops.log));
    if !ops.complete {
      return ErrIoOpsInvalid;
    }
    if outcome.status != Ok || outcome.role != ROLE_PARENT || outcome.audit.deviceFd < 0 ||
       !outcome.audit.safeToClose || outcome.audit.close.attempted {
      return ErrDeviceOwnership;
    }
    status := CloseOwnedDevice(ops, outcome);
    outcome.audit := outcome.audit.(safeToClose := false);
    if status != Ok {
      outcome.status := status;
      outcome.audit := outcome.audit.(status := status, stage := DeviceClose);
    }
  }
}
