/** What prepare, resume and parent release mean for the kernel's descriptor tables, over every
    sequence of calls and every behaviour behind the callbacks. */
module RforkOwnership {
  import opened Scripts
  import opened Wrappers
  import opened Words
  import opened RforkTypes
  import opened RoleToken
  import opened RforkIo
  import opened Rfork

  // ---------- the role check, by the bytes shown ----------

  /** The bytes shown at this log decided whether the second role check passed, and the role. */
  predicate RoleDecided(c: Context, script: Script, log: seq<Event>, done: Record) {
    && (done.audit.stage != RoleAfter <==> Shows(script, log, ParentWire(c)) || Shows(script, log, ChildWire(c)))
    && (done.status == Ok ==>
          && (done.role == ROLE_PARENT <==> Shows(script, log, ParentWire(c)))
          && (done.role == ROLE_REMOTE_CHILD <==> Shows(script, log, ChildWire(c))))
  }

  /** Prepare gets past its first role check exactly when the role descriptor showed the parent token of
      its own context, byte for byte; resume exactly for the child token. After the ioctl, prepare gets
      past the second check exactly for one of the two, and which one alone decides the role. */
  lemma RolesByBytes(c: Context, script: Script, log: seq<Event>, run: Run)
    requires ValidateContext(Some(c)) == Ok
    ensures PrepareRun(Some(c), true, script, log).record.audit.stage !in {Config, RoleBefore}
       <==> Shows(script, log, ParentWire(c))
    ensures ResumeRun(Some(c), true, script, log).record.audit.stage !in {Config, RoleBefore}
       <==> Shows(script, log, ChildWire(c))
    ensures RoleDecided(c, script, run.log, PrepareContinue(c, script, run).record)
  {
    HeadRole(c, Prepare, ROLE_PARENT, script, log);
    HeadRole(c, ResumeRemote, ROLE_REMOTE_CHILD, script, log);
    ContinueRole(c, script, run);
    var head := OpenForRole(Some(c), true, Prepare, ROLE_PARENT, script, log);
    if head.Opened? {
      IoctlStages(c, script, head.run);
    }
    var child := OpenForRole(Some(c), true, ResumeRemote, ROLE_REMOTE_CHILD, script, log);
    if child.Opened? {
      IoctlStages(c, script, child.run);
    }
  }

  lemma HeadRole(c: Context, operation: Operation, required: U32, script: Script, log: seq<Event>)
    requires ValidateContext(Some(c)) == Ok && IsSupportedRole(required)
    ensures var head := OpenForRole(Some(c), true, operation, required, script, log);
            Shows(script, log, if required == ROLE_PARENT then ParentWire(c) else ChildWire(c))
            <==> head.Opened? || head.run.record.audit.stage !in {Config, RoleBefore}
  {
    hide OpenAfterRole, ReadLoop, ValidateObservedRole, Decode, ParentWire, ChildWire;
    RoleCheckExact(c, Delivered(script, log));
    LaterStages(script);
  }

  lemma LaterStages(script: Script)
    ensures forall r, log :: OpenAfterRole(r, script, log).Opened?
                          || OpenAfterRole(r, script, log).run.record.audit.stage in {PidBefore, DeviceOpen}
  {
  }

  lemma IoctlStages(c: Context, script: Script, run: Run)
    ensures PrepareIoctl(c, script, run).record.audit.stage in {Ioctl, RoleAfter, PidAfter, Complete}
    ensures ResumeIoctl(c, script, run).record.audit.stage in {Ioctl, DeviceClose}
  {
    FinishStages(script);
  }

  lemma FinishStages(script: Script)
    ensures forall role, run :: PrepareFinish(role, script, run).record.audit.stage in {PidAfter, Complete}
    ensures forall role, run :: PrepareFinish(role, script, run).record.status == Ok ==>
                                  PrepareFinish(role, script, run).record.role == role
  {
  }

  lemma ContinueRole(c: Context, script: Script, run: Run)
    ensures RoleDecided(c, script, run.log, PrepareContinue(c, script, run).record)
  {
    hide ReadLoop, Decode, ParentWire, ChildWire, PrepareFinish, ValidateObservedRole;
    RoleCheckExact(c, Delivered(script, run.log));
    FinishStages(script);
  }

  lemma ShownIsFile(script: Script, log: seq<Event>, file: seq<Byte>, wire: seq<Byte>)
    requires ReadsRole(script, log, file) && Shows(script, log, wire)
    ensures |file| >= TOKEN_SIZE && wire == file[..TOKEN_SIZE]
  {
    ReadLoopDelivers(script, Start(log), file);
  }

  lemma ResumeSawChild(c: Context, script: Script, log: seq<Event>)
    requires ValidateContext(Some(c)) == Ok
    requires ResumeRun(Some(c), true, script, log).record.audit.stage !in {Config, RoleBefore}
    ensures Shows(script, log, ChildWire(c))
  {
    hide PrepareRun, ResumeRun, RoleDecided, Shows, ParentWire, ChildWire;
    RolesByBytes(c, script, log, Run(AuditInit(None, Prepare), log));
  }

  /** Why the descriptor is read on both sides of the fork: the resuming process got past its own role check
      on a role file, so a prepare that lands there and reads the same file is not shown the parent token. */
  lemma LandingSeesChild(c: Context, resuming: Script, before: seq<Event>, script: Script, there: seq<Event>,
                         file: seq<Byte>)
    requires ValidateContext(Some(c)) == Ok
    requires ResumeRun(Some(c), true, resuming, before).record.audit.stage !in {Config, RoleBefore}
    requires ReadsRole(resuming, before, file) && ReadsRole(script, there, file)
    ensures !Shows(script, there, ParentWire(c))
  {
    hide ResumeRun, Shows, ReadsRole, ParentWire, ChildWire, Accepted;
    ResumeSawChild(c, resuming, before);
    ShownIsFile(resuming, before, file, ChildWire(c));
    RoleCheckExact(c, file[..TOKEN_SIZE]);
    if Shows(script, there, ParentWire(c)) {
      ShownIsFile(script, there, file, ParentWire(c));
    }
  }

  // ---------- descriptor tables ----------

  /** A descriptor this execution opened itself, named by the event that did; or one it found. */
  datatype Descriptor = Own(instance: nat) | Foreign

  /** The current process's table; whether every close so far hit an own descriptor of that table; and
      whether open kept to its contract, errno zero on success and never a live number. */
  datatype Kernel = Kernel(table: map<int, Descriptor>, clean: bool, legal: bool)

  /** The prepare ioctl returned in another process, with that process's table. */
  predicate Lands(e: Event) {
    e.call.IoctlPrepare? && e.reply.result == 0 && e.reply.errno == 0 && e.reply.landing.Some?
  }

  predicate OwnsIn(k: Kernel, fd: int) {
    fd in k.table && k.table[fd].Own?
  }

  function Found(fds: set<int>): map<int, Descriptor> {
    map fd | fd in fds :: Foreign
  }

  function KernelStep(k: Kernel, i: nat, e: Event): Kernel {
    match e.call
    case OpenDevice =>
      if e.reply.result < 0 then k
      else Kernel(k.table[e.reply.result := Own(i)], k.clean,
                  k.legal && e.reply.errno == 0 && e.reply.result !in k.table)
    case CloseFd(fd) => Kernel(k.table - {fd}, k.clean && OwnsIn(k, fd), k.legal)
    case IoctlPrepare(_, _) => if Lands(e) then k.(table := Found(e.reply.landing.value)) else k
    case _ => k
  }

  function KernelAfter(foreign: set<int>, log: seq<Event>): Kernel
    decreases |log|
  {
    if log == [] then Kernel(Found(foreign), true, true)
    else KernelStep(KernelAfter(foreign, log[..|log| - 1]), |log| - 1, log[|log| - 1])
  }

  lemma KernelAsk(foreign: set<int>, script: Script, log: seq<Event>, call: Call)
    ensures KernelAfter(foreign, Ask(script, log, call))
         == KernelStep(KernelAfter(foreign, log), |log|, Entry(call, script(|log|)))
  {
    var log' := Ask(script, log, call);
    assert log'[..|log'| - 1] == log;
  }

  lemma {:induction false} KernelRead(foreign: set<int>, script: Script, l: Loop)
    requires l.Valid()
    ensures KernelAfter(foreign, ReadLoop(script, l).log) == KernelAfter(foreign, l.log)
    decreases l.Left()
  {
    if l.completed < TOKEN_SIZE {
      KernelAsk(foreign, script, l.log, PRead(l.completed, TOKEN_SIZE - l.completed));
      match ReadTurn(script, l)
      case Done(_) =>
      case More(next) => KernelRead(foreign, script, next);
    }
  }

  lemma {:induction false} KernelOnlyWorsens(foreign: set<int>, log: seq<Event>, log': seq<Event>)
    requires log <= log'
    ensures KernelAfter(foreign, log').legal ==> KernelAfter(foreign, log).legal
    ensures KernelAfter(foreign, log').clean ==> KernelAfter(foreign, log).clean
    decreases |log'|
  {
    if |log| < |log'| {
      KernelOnlyWorsens(foreign, log, log'[..|log'| - 1]);
    } else {
      assert log == log';
    }
  }

  // ---------- one call ----------

  /** What the part prepare and resume share does to the table: nothing that shows, or one descriptor opened. */
  ghost predicate Headed(foreign: set<int>, log: seq<Event>, head: Head) {
    var r, k, k' := head.run.record, KernelAfter(foreign, log), KernelAfter(foreign, head.run.log);
    && !r.audit.close.attempted && k'.clean == k.clean
    && (head.Stopped? ==> r.status != Ok && (k'.legal ==> k'.table == k.table))
    && (head.Opened? ==>
          && r.audit.safeToClose && r.audit.deviceFd >= 0 && |head.run.log| > 0
          && k'.table == k.table[r.audit.deviceFd := Own(|head.run.log| - 1)]
          && (k'.legal ==> r.audit.deviceFd !in k.table))
  }

  lemma HeadKernel(foreign: set<int>, context: Option<Context>, complete: bool, operation: Operation, required: U32,
                   script: Script, log: seq<Event>)
    ensures Headed(foreign, log, OpenForRole(context, complete, operation, required, script, log))
  {
    hide OpenValid, KernelAfter;
    if ValidateContext(context) == Ok && complete {
      ValidKernel(foreign, context.value, AuditInit(context, operation), required, script, log);
    }
  }

  lemma ValidKernel(foreign: set<int>, c: Context, r0: Record, required: U32, script: Script, log: seq<Event>)
    requires !r0.audit.close.attempted
    ensures Headed(foreign, log, OpenValid(c, r0, required, script, log))
  {
    hide OpenAfterRole, KernelAfter, ReadLoop;
    KernelRead(foreign, script, Start(log));
    var read := ReadRole(script, log);
    if read.status == Ok {
      OpenKernel(foreign, Observe(r0.(audit := r0.audit.(roleReadErrno := read.errno)), read.token.value, false),
                 script, read.log);
    }
  }

  lemma OpenKernel(foreign: set<int>, r0: Record, script: Script, log: seq<Event>)
    requires !r0.audit.close.attempted
    ensures Headed(foreign, log, OpenAfterRole(r0, script, log))
  {
    KernelAsk(foreign, script, log, GetPid);
    KernelAsk(foreign, script, Ask(script, log, GetPid), OpenDevice);
  }

  /** The rest of prepare on the calling side: it closes nothing but its own descriptor, and an owning
      outcome leaves that descriptor open. */
  lemma PrepareHere(foreign: set<int>, c: Context, script: Script, run: Run)
    requires OwnsIn(KernelAfter(foreign, run.log), run.record.audit.deviceFd)
    requires run.record.audit.deviceFd >= 0 && !run.record.audit.close.attempted
    requires !Lands(Entry(IoctlPrepare(run.record.audit.deviceFd, c.handlerId), script(|run.log|)))
    ensures Kept(foreign, run, PrepareIoctl(c, script, run))
  {
    hide PrepareContinue, KernelAfter;
    var fd := run.record.audit.deviceFd;
    var log := Ask(script, run.log, IoctlPrepare(fd, c.handlerId));
    KernelAsk(foreign, script, run.log, IoctlPrepare(fd, c.handlerId));
    KernelAsk(foreign, script, log, CloseFd(fd));
    var reply := script(|run.log|);
    if reply.result == 0 && reply.errno == 0 {
      var r := run.record.(audit := run.record.audit.(ioctl := IoctlAudit(true, 0, 0)));
      ContinueKernel(foreign, c, script, Run(r, log));
    }
  }

  /** What the rest of a prepare may do to the table: close its own descriptor, or nothing; and an owning
      outcome has closed nothing. */
  ghost predicate Kept(foreign: set<int>, before: Run, after: Run) {
    var k, k', fd := KernelAfter(foreign, before.log), KernelAfter(foreign, after.log), before.record.audit.deviceFd;
    && after.record.audit.deviceFd == fd
    && k'.legal == k.legal && k'.clean == k.clean
    && k'.table == (if after.record.audit.close.attempted then k.table - {fd} else k.table)
  }

  lemma ContinueKernel(foreign: set<int>, c: Context, script: Script, run: Run)
    requires !run.record.audit.close.attempted && run.record.audit.deviceFd >= 0
    ensures var done := PrepareContinue(c, script, run);
            && done.record.audit.deviceFd == run.record.audit.deviceFd
            && KernelAfter(foreign, done.log).legal == KernelAfter(foreign, run.log).legal
    ensures OwnsIn(KernelAfter(foreign, run.log), run.record.audit.deviceFd) ==>
              Kept(foreign, run, PrepareContinue(c, script, run))
    ensures var k, k' := KernelAfter(foreign, run.log), KernelAfter(foreign, PrepareContinue(c, script, run).log);
            var done := PrepareContinue(c, script, run).record;
            && (forall fd :: OwnsIn(k', fd) ==> OwnsIn(k, fd))
            && (!Shows(script, run.log, ParentWire(c)) ==> k'.clean == k.clean && !Owns(done))
            && (Shows(script, run.log, ParentWire(c)) ==>
                  Owns(done) || k'.clean == (k.clean && OwnsIn(k, run.record.audit.deviceFd)))
  {
    hide ReadLoop, Decode, ParentWire, ChildWire, PrepareFinish, KernelAfter, ValidateObservedRole;
    KernelRead(foreign, script, Start(run.log));
    RoleCheckExact(c, Delivered(script, run.log));
    var read := ReadRole(script, run.log);
    if read.status == Ok && ValidateObservedRole(c, read.token.value, None) == Ok {
      var r := Observe(run.record.(audit := run.record.audit.(roleReadErrno := read.errno)), read.token.value, true);
      FinishKernel(foreign, read.token.value.role, script, Run(r, read.log));
    }
  }

  lemma FinishKernel(foreign: set<int>, role: U32, script: Script, run: Run)
    requires !run.record.audit.close.attempted && run.record.audit.deviceFd >= 0
    ensures var done := PrepareFinish(role, script, run);
            var k, k', fd := KernelAfter(foreign, run.log), KernelAfter(foreign, done.log), run.record.audit.deviceFd;
            && done.record.audit.deviceFd == fd && k'.legal == k.legal
            && k'.table == (if done.record.audit.close.attempted then k.table - {fd} else k.table)
            && (if role == ROLE_PARENT
                then (if done.record.audit.close.attempted
                      then !Owns(done.record) && k'.clean == (k.clean && OwnsIn(k, fd))
                      else Owns(done.record) && k'.clean == k.clean)
                else !Owns(done.record) && !done.record.audit.close.attempted && k'.clean == k.clean)
  {
    hide KernelAfter;
    var log := Ask(script, run.log, GetPid);
    KernelAsk(foreign, script, run.log, GetPid);
    KernelAsk(foreign, script, log, CloseFd(run.record.audit.deviceFd));
  }

  /** The rest of prepare after landing in another process: unless the role descriptor there shows the
      parent token, the copied number is neither kept nor closed; if it does, it is one or the other. */
  lemma PrepareThere(foreign: set<int>, c: Context, script: Script, run: Run)
    requires !run.record.audit.close.attempted && run.record.audit.deviceFd >= 0
    requires Lands(Entry(IoctlPrepare(run.record.audit.deviceFd, c.handlerId), script(|run.log|)))
    ensures var k, fd := KernelAfter(foreign, run.log), run.record.audit.deviceFd;
            var there := Ask(script, run.log, IoctlPrepare(fd, c.handlerId));
            var done := PrepareIoctl(c, script, run);
            var k' := KernelAfter(foreign, done.log);
            && k'.legal == k.legal && done.record.audit.deviceFd == fd
            && (forall other :: !OwnsIn(k', other))
            && (!Shows(script, there, ParentWire(c)) ==> k'.clean == k.clean && !Owns(done.record))
            && (Shows(script, there, ParentWire(c)) ==> !k'.clean || Owns(done.record))
  {
    var fd := run.record.audit.deviceFd;
    var there := Ask(script, run.log, IoctlPrepare(fd, c.handlerId));
    KernelAsk(foreign, script, run.log, IoctlPrepare(fd, c.handlerId));
    var r := run.record.(audit := run.record.audit.(ioctl := IoctlAudit(true, 0, 0)));
    ContinueKernel(foreign, c, script, Run(r, there));
  }

  /** Resume never succeeds. If it opened a descriptor it attempted to close that one, once, as its last
      act, whatever the ioctl and the close answered; otherwise it closed nothing. */
  lemma ResumeNeverOk(foreign: set<int>, context: Option<Context>, complete: bool, script: Script, log: seq<Event>)
    ensures var k := KernelAfter(foreign, log);
            var done := ResumeRun(context, complete, script, log);
            var k' := KernelAfter(foreign, done.log);
            && done.record.status != Ok
            && k'.clean == k.clean
            && (k'.legal ==> k'.table == k.table)
            && (OpenForRole(context, complete, ResumeRemote, ROLE_REMOTE_CHILD, script, log).Opened? <==>
                  done.record.audit.close.attempted)
            && (done.record.audit.close.attempted ==>
                  && |done.log| > 0
                  && done.log[|done.log| - 1].call == CloseFd(done.record.audit.deviceFd))
  {
    hide OpenForRole, ResumeIoctl, KernelAfter;
    HeadKernel(foreign, context, complete, ResumeRemote, ROLE_REMOTE_CHILD, script, log);
    var head := OpenForRole(context, complete, ResumeRemote, ROLE_REMOTE_CHILD, script, log);
    if head.Opened? {
      ResumeCloses(foreign, context.value, script, head.run);
    }
  }

  lemma ResumeCloses(foreign: set<int>, c: Context, script: Script, run: Run)
    ensures var done := ResumeIoctl(c, script, run);
            var k, k', fd := KernelAfter(foreign, run.log), KernelAfter(foreign, done.log), run.record.audit.deviceFd;
            && |done.log| == |run.log| + 2
            && done.record.status != Ok && done.record.audit.close.attempted && done.record.audit.deviceFd == fd
            && done.log[|done.log| - 1].call == CloseFd(fd)
            && k'.legal == k.legal && k'.clean == (k.clean && OwnsIn(k, fd)) && k'.table == k.table - {fd}
  {
    var fd := run.record.audit.deviceFd;
    var call := IoctlResume(fd, c.sourceMachine, c.handlerId);
    KernelAsk(foreign, script, run.log, call);
    KernelAsk(foreign, script, Ask(script, run.log, call), CloseFd(fd));
  }

  // ---------- every sequence of calls ----------

  /** A program: its outcome structures, and the callbacks made so far. */
  datatype Program = Program(log: seq<Event>, records: seq<Record>)

  datatype Step =
    | DoPrepare(slot: nat, context: Option<Context>)
    | DoResume(slot: nat, context: Option<Context>)
    | DoRelease(slot: nat)

  function Act(script: Script, complete: bool, p: Program, step: Step): (p': Program)
    ensures |p'.records| == |p.records| && p.log <= p'.log
  {
    if step.slot >= |p.records| then p
    else
      var run :=
        match step
        case DoPrepare(_, context) => PrepareRun(context, complete, script, p.log)
        case DoResume(_, context) => ResumeRun(context, complete, script, p.log)
        case DoRelease(slot) => ReleaseRun(complete, script, Run(p.records[slot], p.log)).run;
      Program(run.log, p.records[step.slot := run.record])
  }

  /** Every close so far hit a descriptor the program had opened in the process it was in, and every
      outcome that says it owns a descriptor has one of its own, still open. */
  ghost predicate Sound(foreign: set<int>, p: Program) {
    var k := KernelAfter(foreign, p.log);
    && k.clean
    && (forall i :: 0 <= i < |p.records| && Owns(p.records[i]) ==> OwnsIn(k, p.records[i].audit.deviceFd))
    && (forall i, j :: 0 <= i < j < |p.records| && Owns(p.records[i]) && Owns(p.records[j]) ==>
          p.records[i].audit.deviceFd != p.records[j].audit.deviceFd)
  }

  /** The step is a prepare whose ioctl returns in another process, at this log. */
  predicate LandsAt(script: Script, complete: bool, p: Program, step: Step) {
    && step.DoPrepare? && step.slot < |p.records|
    && var head := OpenForRole(step.context, complete, Prepare, ROLE_PARENT, script, p.log);
    && head.Opened?
    && Lands(Entry(IoctlPrepare(head.run.record.audit.deviceFd, step.context.value.handlerId), script(|head.run.log|)))
  }

  /** What the caller and the launcher owe when a prepare lands elsewhere: no other outcome still owns a
      descriptor, and the role descriptor over there does not show the parent token. */
  ghost predicate LandingPrepared(script: Script, complete: bool, p: Program, step: Step)
    requires LandsAt(script, complete, p, step)
  {
    var run := OpenForRole(step.context, complete, Prepare, ROLE_PARENT, script, p.log).run;
    var c := step.context.value;
    && (forall i :: 0 <= i < |p.records| && i != step.slot ==> !Owns(p.records[i]))
    && !Shows(script, Ask(script, run.log, IoctlPrepare(run.record.audit.deviceFd, c.handlerId)), ParentWire(c))
  }

  /** The exact condition under which landing elsewhere keeps ownership sound. */
  lemma LandingSoundIff(foreign: set<int>, script: Script, complete: bool, p: Program, step: Step)
    requires Sound(foreign, p) && LandsAt(script, complete, p, step)
    ensures Sound(foreign, Act(script, complete, p, step)) <==> LandingPrepared(script, complete, p, step)
  {
    hide OpenForRole, PrepareIoctl;
    HeadKernel(foreign, step.context, complete, Prepare, ROLE_PARENT, script, p.log);
    var run := OpenForRole(step.context, complete, Prepare, ROLE_PARENT, script, p.log).run;
    PrepareThere(foreign, step.context.value, script, run);
    var p' := Act(script, complete, p, step);
    forall i | 0 <= i < |p.records| && i != step.slot ensures p'.records[i] == p.records[i] {
    }
    var k' := KernelAfter(foreign, p'.log);
    if Sound(foreign, p') {
      assert forall i :: 0 <= i < |p'.records| && Owns(p'.records[i]) ==> OwnsIn(k', p'.records[i].audit.deviceFd);
      assert !Owns(p'.records[step.slot]);
    }
  }

  /** If another outcome still owns a descriptor at the landing, releasing that outcome in the new process
      closes a number this program did not open there. */
  lemma StaleReleaseUnclean(foreign: set<int>, script: Script, complete: bool, p: Program, step: Step, i: nat)
    requires LandsAt(script, complete, p, step) && i < |p.records| && i != step.slot && Owns(p.records[i])
    ensures !KernelAfter(foreign, Act(script, complete, Act(script, complete, p, step), DoRelease(i)).log).clean
  {
    hide OpenForRole, PrepareIoctl, KernelAfter;
    HeadKernel(foreign, step.context, complete, Prepare, ROLE_PARENT, script, p.log);
    var run := OpenForRole(step.context, complete, Prepare, ROLE_PARENT, script, p.log).run;
    PrepareThere(foreign, step.context.value, script, run);
    LandingNeedsTable(step.context, complete, script, p.log);
    var landed := Act(script, complete, p, step);
    KernelAsk(foreign, script, landed.log, CloseFd(p.records[i].audit.deviceFd));
  }

  lemma LandingNeedsTable(context: Option<Context>, complete: bool, script: Script, log: seq<Event>)
    requires OpenForRole(context, complete, Prepare, ROLE_PARENT, script, log).Opened?
    ensures complete
  {
  }

  lemma StepKeepsSound(foreign: set<int>, script: Script, complete: bool, p: Program, step: Step)
    requires Sound(foreign, p)
    requires KernelAfter(foreign, Act(script, complete, p, step).log).legal
    requires LandsAt(script, complete, p, step) ==> LandingPrepared(script, complete, p, step)
    ensures Sound(foreign, Act(script, complete, p, step))
  {
    if step.slot < |p.records| {
      match step
      case DoPrepare(slot, context) =>
        if LandsAt(script, complete, p, step) {
          LandingSoundIff(foreign, script, complete, p, step);
        } else {
          PrepareKeepsSound(foreign, script, complete, p, step);
        }
      case DoResume(slot, context) => ResumeNeverOk(foreign, context, complete, script, p.log);
      case DoRelease(slot) => ReleaseKeepsSound(foreign, script, complete, p, slot);
    }
  }

  lemma PrepareKeepsSound(foreign: set<int>, script: Script, complete: bool, p: Program, step: Step)
    requires Sound(foreign, p) && step.DoPrepare? && step.slot < |p.records|
    requires KernelAfter(foreign, Act(script, complete, p, step).log).legal
    requires !LandsAt(script, complete, p, step)
    ensures Sound(foreign, Act(script, complete, p, step))
  {
    hide OpenForRole, PrepareIoctl;
    HeadKernel(foreign, step.context, complete, Prepare, ROLE_PARENT, script, p.log);
    match OpenForRole(step.context, complete, Prepare, ROLE_PARENT, script, p.log)
    case Stopped(_) =>
    case Opened(run) =>
      PrepareHere(foreign, step.context.value, script, run);
  }

  lemma ReleaseKeepsSound(foreign: set<int>, script: Script, complete: bool, p: Program, slot: nat)
    requires Sound(foreign, p) && slot < |p.records|
    ensures Sound(foreign, Act(script, complete, p, DoRelease(slot)))
    ensures Owns(p.records[slot]) && complete ==>
              KernelAfter(foreign, Act(script, complete, p, DoRelease(slot)).log).table
              == KernelAfter(foreign, p.log).table - {p.records[slot].audit.deviceFd}
  {
    hide KernelAfter;
    KernelAsk(foreign, script, p.log, CloseFd(p.records[slot].audit.deviceFd));
  }

  function RunAll(script: Script, complete: bool, p: Program, steps: seq<Step>): (p': Program)
    ensures |p'.records| == |p.records| && p.log <= p'.log
    decreases |steps|
  {
    if steps == [] then p else RunAll(script, complete, Act(script, complete, p, steps[0]), steps[1..])
  }

  ghost predicate AllLandingsPrepared(script: Script, complete: bool, p: Program, steps: seq<Step>)
    decreases |steps|
  {
    steps == [] ||
    (&& (LandsAt(script, complete, p, steps[0]) ==> LandingPrepared(script, complete, p, steps[0]))
     && AllLandingsPrepared(script, complete, Act(script, complete, p, steps[0]), steps[1..]))
  }

  /** The ownership theorem: over every script whose opens keep their contract and every sequence of
      prepare, resume and release calls on any number of outcomes, as long as each landing is prepared,
      every close hits an own live descriptor of the current process, and every outcome that owns a
      descriptor still has it open. */
  lemma {:induction false} OwnershipOverAllRuns(foreign: set<int>, script: Script, complete: bool, p: Program,
                                                steps: seq<Step>)
    requires Sound(foreign, p)
    requires KernelAfter(foreign, RunAll(script, complete, p, steps).log).legal
    requires AllLandingsPrepared(script, complete, p, steps)
    ensures Sound(foreign, RunAll(script, complete, p, steps))
    decreases |steps|
  {
    if steps != [] {
      var next := Act(script, complete, p, steps[0]);
      KernelOnlyWorsens(foreign, next.log, RunAll(script, complete, p, steps).log);
      StepKeepsSound(foreign, script, complete, p, steps[0]);
      OwnershipOverAllRuns(foreign, script, complete, next, steps[1..]);
    }
  }

  // ---------- closed at most once ----------

  /** The descriptor the i-th event closed. */
  predicate Closes(foreign: set<int>, log: seq<Event>, i: nat, instance: nat) {
    && i < |log| && log[i].call.CloseFd?
    && var k := KernelAfter(foreign, log[..i]);
    && log[i].call.fd in k.table && k.table[log[i].call.fd] == Own(instance)
  }

  /** Instances are named by past events, each at one number only. */
  ghost predicate WellNamed(t: map<int, Descriptor>, n: nat) {
    && (forall fd :: fd in t && t[fd].Own? ==> t[fd].instance < n)
    && (forall fd, fd' :: fd in t && fd' in t && t[fd].Own? && t[fd] == t[fd'] ==> fd == fd')
  }

  lemma {:induction false} InstancesUnique(foreign: set<int>, log: seq<Event>)
    ensures WellNamed(KernelAfter(foreign, log).table, |log|)
    decreases |log|
  {
    if log != [] {
      var n := |log| - 1;
      InstancesUnique(foreign, log[..n]);
      StepWellNamed(KernelAfter(foreign, log[..n]), n, log[n]);
    }
  }

  lemma StepWellNamed(k: Kernel, i: nat, e: Event)
    requires WellNamed(k.table, i)
    ensures WellNamed(KernelStep(k, i, e).table, i + 1)
    ensures forall instance: nat :: instance < i && Gone(k.table, instance) ==>
                                      Gone(KernelStep(k, i, e).table, instance)
  {
  }

  ghost predicate Gone(t: map<int, Descriptor>, instance: nat) {
    forall fd :: fd in t ==> t[fd] != Own(instance)
  }

  /** Once closed, an instance is in no later table. */
  lemma {:induction false} ClosedStaysClosed(foreign: set<int>, log: seq<Event>, i: nat, instance: nat)
    requires Closes(foreign, log, i, instance)
    ensures Gone(KernelAfter(foreign, log).table, instance)
    decreases |log|
  {
    var n := |log| - 1;
    InstancesUnique(foreign, log[..i]);
    InstancesUnique(foreign, log[..n]);
    if i == n {
      assert KernelAfter(foreign, log).table == KernelAfter(foreign, log[..n]).table - {log[n].call.fd};
    } else {
      assert log[..n][..i] == log[..i];
      ClosedStaysClosed(foreign, log[..n], i, instance);
      StepWellNamed(KernelAfter(foreign, log[..n]), n, log[n]);
    }
  }

  /** In any log whatever, the closes that hit own descriptors hit distinct ones; in a clean log that is
      all of them, so each opened device descriptor is closed at most once. */
  lemma ClosedAtMostOnce(foreign: set<int>, log: seq<Event>, i: nat, j: nat, instance: nat)
    requires Closes(foreign, log, i, instance) && Closes(foreign, log, j, instance)
    ensures i == j
  {
    var lo, hi := if i < j then i else j, if i < j then j else i;
    if lo < hi {
      var before := log[..hi];
      assert before[..lo] == log[..lo];
      assert Closes(foreign, before, lo, instance);
      ClosedStaysClosed(foreign, before, lo, instance);
    }
  }

  lemma {:induction false} CleanMeansOwn(foreign: set<int>, log: seq<Event>, i: nat)
    requires KernelAfter(foreign, log).clean && i < |log| && log[i].call.CloseFd?
    ensures exists instance :: Closes(foreign, log, i, instance)
    decreases |log|
  {
    var init := log[..|log| - 1];
    if i == |log| - 1 {
      assert log[..i] == init;
      var instance := KernelAfter(foreign, init).table[log[i].call.fd].instance;
      assert Closes(foreign, log, i, instance);
    } else {
      CleanMeansOwn(foreign, init, i);
      var instance :| Closes(foreign, init, i, instance);
      assert init[..i] == log[..i];
      assert Closes(foreign, log, i, instance);
    }
  }

  // ---------- a run that breaks ownership ----------

  /** A program prepares twice without releasing, and the second ioctl returns in a process that has
      something of its own at descriptor 3. */
  function TwicePrepared(c: Context): Script {
    n =>
      if n == 0 || n == 4 || n == 6 then Reply(TOKEN_SIZE, 0, ParentWire(c), None)
      else if n == 10 then Reply(TOKEN_SIZE, 0, ChildWire(c), None)
      else if n == 2 then Reply(3, 0, [], None)
      else if n == 8 then Reply(4, 0, [], None)
      else if n == 3 || n == 12 then Reply(0, 0, [], None)
      else if n == 9 then Reply(0, 0, [], Some({3}))
      else Reply(1, 0, [], None)
  }

  lemma ReadOnce(script: Script, log: seq<Event>, wire: seq<Byte>)
    requires |wire| == TOKEN_SIZE && script(|log|) == Reply(TOKEN_SIZE, 0, wire, None)
    ensures ReadLoop(script, Start(log)) == Moved(Ok, 0, wire, Ask(script, log, PRead(0, TOKEN_SIZE)))
  {
    assert Overlay(Zeros(TOKEN_SIZE), 0, wire) == wire;
  }

  /** Three answers that get a prepare as far as its ioctl. */
  predicate HeadAnswered(c: Context, script: Script, log: seq<Event>, fd: nat) {
    && script(|log|) == Reply(TOKEN_SIZE, 0, ParentWire(c), None)
    && script(|log| + 1) == Reply(1, 0, [], None)
    && script(|log| + 2) == Reply(fd, 0, [], None)
  }

  lemma OpenOnce(foreign: set<int>, r: Record, script: Script, log: seq<Event>, fd: nat)
    requires script(|log|) == Reply(1, 0, [], None) && script(|log| + 1) == Reply(fd, 0, [], None)
    requires !r.audit.close.attempted
    ensures var head, k := OpenAfterRole(r, script, log), KernelAfter(foreign, log);
            && head.Opened? && head.run.record.audit.deviceFd == fd && !head.run.record.audit.close.attempted
            && |head.run.log| == |log| + 2
            && KernelAfter(foreign, head.run.log)
            == Kernel(k.table[fd as int := Own(|log| + 1)], k.clean, k.legal && fd !in k.table)
  {
    hide KernelAfter;
    KernelAsk(foreign, script, log, GetPid);
    KernelAsk(foreign, script, Ask(script, log, GetPid), OpenDevice);
  }

  /** Reading a token of this context shows its role. */
  lemma RoleOnce(c: Context, script: Script, log: seq<Event>)
    requires script(|log|) == Reply(TOKEN_SIZE, 0, ParentWire(c), None)
    ensures var read := ReadRole(script, log);
            && read.status == Ok && read.errno == 0 && read.log == Ask(script, log, PRead(0, TOKEN_SIZE))
            && read.token.value.role == ROLE_PARENT
            && ValidateObservedRole(c, read.token.value, Some(ROLE_PARENT)) == Ok
            && ValidateObservedRole(c, read.token.value, None) == Ok
  {
    hide ReadLoop, ParentWire, ChildWire, Decode, ValidateObservedRole;
    ReadOnce(script, log, ParentWire(c));
    RoleCheckExact(c, ParentWire(c));
  }

  lemma HeadOnce(foreign: set<int>, c: Context, script: Script, log: seq<Event>, fd: nat)
    requires ValidateContext(Some(c)) == Ok && HeadAnswered(c, script, log, fd)
    ensures var head, k := OpenForRole(Some(c), true, Prepare, ROLE_PARENT, script, log), KernelAfter(foreign, log);
            && head.Opened? && head.run.record.audit.deviceFd == fd && !head.run.record.audit.close.attempted
            && |head.run.log| == |log| + 3
            && KernelAfter(foreign, head.run.log)
            == Kernel(k.table[fd as int := Own(|log| + 2)], k.clean, k.legal && fd !in k.table)
  {
    hide KernelAfter, ReadRole, ParentWire, ChildWire, ValidateObservedRole, OpenAfterRole;
    RoleOnce(c, script, log);
    var read, r0 := ReadRole(script, log), AuditInit(Some(c), Prepare);
    KernelAsk(foreign, script, log, PRead(0, TOKEN_SIZE));
    OpenOnce(foreign, Observe(r0.(audit := r0.audit.(roleReadErrno := read.errno)), read.token.value, false), script,
             read.log, fd);
  }

  lemma PrepareOnce(foreign: set<int>, c: Context, script: Script, log: seq<Event>, fd: nat)
    requires ValidateContext(Some(c)) == Ok && HeadAnswered(c, script, log, fd)
    requires script(|log| + 3) == Reply(0, 0, [], None) && script(|log| + 5) == Reply(1, 0, [], None)
    requires script(|log| + 4) == Reply(TOKEN_SIZE, 0, ParentWire(c), None)
    ensures var done, k := PrepareRun(Some(c), true, script, log), KernelAfter(foreign, log);
            && Owns(done.record) && done.record.audit.deviceFd == fd && |done.log| == |log| + 6
            && KernelAfter(foreign, done.log)
            == Kernel(k.table[fd as int := Own(|log| + 2)], k.clean, k.legal && fd !in k.table)
  {
    hide KernelAfter, ReadRole, ParentWire, ChildWire, OpenForRole, ValidateObservedRole;
    HeadOnce(foreign, c, script, log, fd);
    var run := OpenForRole(Some(c), true, Prepare, ROLE_PARENT, script, log).run;
    var log1 := Ask(script, run.log, IoctlPrepare(fd, c.handlerId));
    var log2 := Ask(script, log1, PRead(0, TOKEN_SIZE));
    KernelAsk(foreign, script, run.log, IoctlPrepare(fd, c.handlerId));
    KernelAsk(foreign, script, log1, PRead(0, TOKEN_SIZE));
    KernelAsk(foreign, script, log2, GetPid);
    RoleOnce(c, script, log1);
  }

  lemma ReleaseKeepsLegal(foreign: set<int>, script: Script, p: Program, slot: nat)
    ensures KernelAfter(foreign, Act(script, true, p, DoRelease(slot)).log).legal == KernelAfter(foreign, p.log).legal
  {
    hide KernelAfter;
    if slot < |p.records| {
      KernelAsk(foreign, script, p.log, CloseFd(p.records[slot].audit.deviceFd));
    }
  }

  lemma LandingKeepsLegal(foreign: set<int>, script: Script, p: Program, step: Step)
    requires LandsAt(script, true, p, step)
    ensures KernelAfter(foreign, Act(script, true, p, step).log).legal
         == KernelAfter(foreign, OpenForRole(step.context, true, Prepare, ROLE_PARENT, script, p.log).run.log).legal
  {
    hide OpenForRole, PrepareIoctl, KernelAfter;
    HeadKernel(foreign, step.context, true, Prepare, ROLE_PARENT, script, p.log);
    var head := OpenForRole(step.context, true, Prepare, ROLE_PARENT, script, p.log);
    PrepareThere(foreign, step.context.value, script, head.run);
  }

  lemma SecondAnswers(c: Context, log: seq<Event>)
    requires |log| == 6
    ensures HeadAnswered(c, TwicePrepared(c), log, 4) && TwicePrepared(c)(9) == Reply(0, 0, [], Some({3}))
  {
    hide ParentWire, ChildWire;
  }

  lemma HeadThenLands(c: Context, script: Script, p: Program, step: Step, fd: nat)
    requires ValidateContext(Some(c)) == Ok && HeadAnswered(c, script, p.log, fd)
    requires step.DoPrepare? && step.slot < |p.records| && step.context == Some(c)
    requires script(|p.log| + 3).result == 0 && script(|p.log| + 3).errno == 0 && script(|p.log| + 3).landing.Some?
    ensures LandsAt(script, true, p, step)
  {
    hide OpenForRole, HeadAnswered, ValidateContext;
    HeadOnce({}, c, script, p.log, fd);
  }

  /** The second prepare of that program, from where the first left it: its opens are legal and it lands. */
  lemma SecondLands(c: Context, p: Program)
    requires ValidateContext(Some(c)) == Ok && |p.log| == 6 && |p.records| == 2
    requires KernelAfter({}, p.log) == Kernel(map[3 := Own(2)], true, true)
    ensures LandsAt(TwicePrepared(c), true, p, DoPrepare(1, Some(c)))
    ensures KernelAfter({}, Act(TwicePrepared(c), true, p, DoPrepare(1, Some(c))).log).legal
  {
    var script, step := TwicePrepared(c), DoPrepare(1, Some(c));
    hide KernelAfter, OpenForRole, Act, TwicePrepared, HeadAnswered, ValidateContext, LandsAt;
    SecondAnswers(c, p.log);
    HeadThenLands(c, script, p, step, 4);
    HeadOnce({}, c, script, p.log, 4);
    LandingKeepsLegal({}, script, p, step);
  }

  /** The failing run itself: opens keep their contract and nothing is wrong at the start, and the release of
      the first outcome in the landed process closes a descriptor that is not the program's. */
  lemma TwicePreparedBreaks(c: Context)
    requires ValidateContext(Some(c)) == Ok
    ensures var blank := AuditInit(None, Prepare);
            var p, steps := Program([], [blank, blank]), [DoPrepare(0, Some(c)), DoPrepare(1, Some(c)), DoRelease(0)];
            var k := KernelAfter({}, RunAll(TwicePrepared(c), true, p, steps).log);
            Sound({}, p) && k.legal && !k.clean
  {
    var blank, script := AuditInit(None, Prepare), TwicePrepared(c);
    var p, steps := Program([], [blank, blank]), [DoPrepare(0, Some(c)), DoPrepare(1, Some(c)), DoRelease(0)];
    FirstPrepares(c);
    hide Act, KernelAfter, TwicePrepared, LandsAt, Owns, ParentWire, ChildWire;
    var p1 := Act(script, true, p, steps[0]);
    var p2 := Act(script, true, p1, steps[1]);
    SecondLands(c, p1);
    StaleReleaseUnclean({}, script, true, p1, steps[1], 0);
    ReleaseKeepsLegal({}, script, p2, 0);
    hide RunAll, Sound;
    ThreeSteps(script, p, steps[0], steps[1], steps[2]);
  }

  lemma ThreeSteps(script: Script, p: Program, a: Step, b: Step, c: Step)
    ensures RunAll(script, true, p, [a, b, c]) == Act(script, true, Act(script, true, Act(script, true, p, a), b), c)
  {
    hide Act;
    var p1 := Act(script, true, p, a);
    assert [a, b, c][1..] == [b, c] && [b, c][1..] == [c] && [c][1..] == [];
    assert RunAll(script, true, p1, [b, c]) == RunAll(script, true, Act(script, true, p1, b), [c]);
  }

  lemma FirstPrepares(c: Context)
    requires ValidateContext(Some(c)) == Ok
    ensures var blank := AuditInit(None, Prepare);
            var p := Program([], [blank, blank]);
            var p' := Act(TwicePrepared(c), true, p, DoPrepare(0, Some(c)));
            && Sound({}, p) && |p'.log| == 6 && |p'.records| == 2 && Owns(p'.records[0])
            && KernelAfter({}, p'.log) == Kernel(map[3 := Own(2)], true, true)
  {
    hide PrepareRun, ParentWire, ChildWire;
    PrepareOnce({}, c, TwicePrepared(c), [], 3);
  }
}
