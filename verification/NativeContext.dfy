/** One direct DMA-BUF context: the one-shot target read and the two-phase close
    (native/spd-gdr/src/spd_gdr.cpp), over every run and every behaviour of the hardware. */
module NativeContext {
  import opened Scripts
  import opened Wrappers
  import opened NativeResources

  const TARGET := 2

  /** What a caller passes to spd_gdr_read, as far as its checks go. */
  datatype Args = Args(timeoutValid: bool, outputsGiven: bool, nameGiven: bool, timeoutNs: nat)

  /** A call has returned a code, or is still polling for its completion. */
  datatype Answer = Code(code: int) | Polling

  /** A context as a value. `live` says the handle is in the table; `inside` that the closer is between its
      two locked sections; `stuck` that a read still holds the lock. */
  datatype Gdr = Gdr(live: bool, magic: bool, registered: bool, hasNative: bool, closing: bool, poisoned: bool,
                     active: bool,
                     targetUsed: bool, role: int, slots: Slots, log: seq<Event>, inside: bool, stuck: bool)

  datatype Step = Step(gdr: Gdr, answer: Answer)

  function Refuse(g: Gdr): Step {
    Step(g, Code(if g.poisoned then -2 else -1))
  }

  /** A run of calls that may each fail: parsing, connecting, exchanging metadata, moving the queue pair. */
  datatype Checks = Checks(ok: bool, log: seq<Event>)

  function CheckAll(script: Script, log: seq<Event>, n: nat): (c: Checks)
    ensures log <= c.log
    decreases n
  {
    if n == 0 then Checks(true, log)
    else if script(|log|).value != 0 then Checks(false, Ask(script, log, Check))
    else CheckAll(script, Ask(script, log, Check), n - 1)
  }

  datatype Poll = Retired(success: bool) | PollFailed | TimedOut | ClockFailed | StillPolling

  datatype Polled = Polled(end: Poll, log: seq<Event>)

  /** The completion loop, observed for `patience` polls. */
  function PollLoop(script: Script, log: seq<Event>, start: nat, timeoutNs: nat, patience: nat): (p: Polled)
    ensures log <= p.log
    decreases patience
  {
    if patience == 0 then Polled(StillPolling, log)
    else
      var poll, log1 := script(|log|), Ask(script, log, NativeResources.Call.Poll);
      if poll.value < 0 then Polled(PollFailed, log1)
      else if poll.value == 1 then Polled(Retired(poll.completed), log1)
      else
        var clock, log2 := script(|log1|), Ask(script, log1, Clock);
        if clock.value != 0 then Polled(ClockFailed, log2)
        else if clock.time - start >= timeoutNs then Polled(TimedOut, log2)
        else PollLoop(script, log2, start, timeoutNs, patience - 1)
  }

  /** The steps before the post: endpoint, two clock readings, connection, write, read, decode, three
      queue-pair transitions and another clock reading; and those after the completion: symbol, flush,
      synchronize, deadline and the acknowledgement. */
  const BEFORE := 11
  const AFTER := 5

  predicate ReadAllowed(g: Gdr, args: Args) {
    && g.magic && g.hasNative && g.registered && !g.closing && !g.poisoned && !g.active
    && g.role == TARGET && !g.targetUsed && args.timeoutValid && args.outputsGiven && args.nameGiven
  }

  function Read(script: Script, g: Gdr, args: Args, patience: nat): Step {
    if !g.live then Step(g, Code(-1))
    else if !ReadAllowed(g, args) then Refuse(g)
    else
      var before := CheckAll(script, g.log, BEFORE);
      var g1 := g.(targetUsed := true, log := before.log);
      if !before.ok then Refuse(g1) else PostAndPoll(script, g1, args.timeoutNs, patience)
  }

  function PostAndPoll(script: Script, g: Gdr, timeoutNs: nat, patience: nat): Step {
    var start, log1 := script(|g.log|), Ask(script, g.log, Clock);
    if start.value != 0 then Refuse(g.(log := log1))
    else PostFrom(script, g.(log := log1), start.time, timeoutNs, patience)
  }

  function PostFrom(script: Script, g: Gdr, start: nat, timeoutNs: nat, patience: nat): Step {
    var log := Ask(script, g.log, PostRead);
    if script(|g.log|).value != 0 then Refuse(g.(active := false, log := log))
    else Await(script, g.(active := true, log := log), start, timeoutNs, patience)
  }

  function Await(script: Script, g: Gdr, start: nat, timeoutNs: nat, patience: nat): Step {
    var polled := PollLoop(script, g.log, start, timeoutNs, patience);
    AfterPoll(script, g.(log := polled.log), polled.end)
  }

  function AfterPoll(script: Script, g: Gdr, end: Poll): Step {
    match end
    case StillPolling => Step(g.(stuck := true), Polling)
    case PollFailed => Refuse(g.(poisoned := true))
    case TimedOut => Refuse(g.(poisoned := true))
    case ClockFailed => Refuse(g)
    case Retired(success) => AfterRetire(script, g, success)
  }

  function AfterRetire(script: Script, g: Gdr, success: bool): Step {
    var log := Ask(script, g.log, Clock);
    if script(|g.log|).value != 0 then Refuse(g.(log := log))
    else
      var g1 := g.(active := false, log := log);
      if !success then Refuse(g1) else Acknowledge(script, g1)
  }

  function Acknowledge(script: Script, g: Gdr): Step {
    var after := CheckAll(script, g.log, AFTER);
    var g1 := g.(log := after.log);
    if !after.ok then Refuse(g1) else Step(g1, Code(0))
  }

  /** Close up to where it lets go of the lock: an answer, or nothing yet. */
  datatype Begun = Begun(gdr: Gdr, answer: Option<int>)

  function CloseBegin(g: Gdr): Begun {
    if !g.live then Begun(g, Some(-1))
    else if !g.magic || !g.hasNative || !g.registered then Begun(g.(poisoned := true), Some(-2))
    else if g.poisoned || g.active then Begun(g, Some(-2))
    else Begun(g.(closing := true, inside := true), None)
  }

  /** The rest of close: strict cleanup, then the handle goes. */
  function CloseEnd(script: Script, g: Gdr, controlError: bool): Step {
    var s := Strict(script, State(g.slots, g.log, false));
    var g1 := g.(slots := s.slots, log := s.log, inside := false);
    if s.failed then Step(g1.(poisoned := true), Code(-2))
    else Step(g1.(registered := false, hasNative := false, magic := false, live := false),
              Code(if controlError then -1 else 0))
  }

  // ---------- the class ----------

  class Context {
    const driver: Driver
    const native: Resources
    const role: int
    var live: bool
    var magic: bool
    var registered: bool
    var hasNative: bool
    var closing: bool
    var poisoned: bool
    var active: bool
    var targetUsed: bool
    var inside: bool
    var stuck: bool

    constructor (driver: Driver, native: Resources, role: int)
      ensures this.driver == driver && this.native == native && this.role == role
      ensures View() == Opened(role, State(native.View(), driver.log, false))
    {
      this.driver, this.native, this.role := driver, native, role;
      live, magic, registered, hasNative := true, true, true, true;
      closing, poisoned, active, targetUsed, inside, stuck := false, false, false, false, false, false;
    }

    function View(): Gdr
      reads this, native, driver
    {
      Gdr(live, magic, registered, hasNative, closing, poisoned, active, targetUsed, role, native.View(), driver.log,
          inside, stuck)
    }

    method RunChecks(n: nat) returns (ok: bool)
      modifies driver
      ensures Checks(ok, driver.log) == CheckAll(driver.script, old(driver.log), n)
    {
      ghost var all := CheckAll(driver.script, driver.log, n);
      for i := 0 to n
        invariant CheckAll(driver.script, driver.log, n - i) == all
      {
        var r := driver.Invoke(Check);
        if r.value != 0 {
          return false;
        }
      }
      ok := true;
    }

    method PollCompletion(start: nat, timeoutNs: nat, patience: nat) returns (end: Poll)
      modifies driver
      ensures Polled(end, driver.log) == PollLoop(driver.script, old(driver.log), start, timeoutNs, patience)
    {
      ghost var all := PollLoop(driver.script, driver.log, start, timeoutNs, patience);
      for i := 0 to patience
        invariant PollLoop(driver.script, driver.log, start, timeoutNs, patience - i) == all
      {
        var poll := driver.Invoke(NativeResources.Call.Poll);
        if poll.value < 0 {
          return PollFailed;
        }
        if poll.value == 1 {
          return Retired(poll.completed);
        }
        var clock := driver.Invoke(Clock);
        if clock.value != 0 {
          return ClockFailed;
        }
        if clock.time - start >= timeoutNs {
          return TimedOut;
        }
      }
      end := StillPolling;
    }

    method DirectRead(args: Args, patience: nat) returns (answer: Answer)
      modifies this, driver
      ensures Step(View(), answer) == Read(driver.script, old(View()), args, patience)
      ensures !old(poisoned) ==> ReadMeans(driver.script, old(View()), args, patience, View(), answer)
    {
      hide PostAndPoll, CheckAll, ReadMeans;
      if !poisoned {
        ReadExactly(driver.script, View(), args, patience);
      }
      if !live {
        return Code(-1);
      }
      if !magic || !hasNative || !registered || closing || poisoned || active || role != TARGET || targetUsed ||
         !args.timeoutValid || !args.outputsGiven || !args.nameGiven {
        return Code(if poisoned then -2 else -1);
      }
      targetUsed := true;
      var ok := RunChecks(BEFORE);
      if !ok {
        return Code(if poisoned then -2 else -1);
      }
      answer := PostRead(args.timeoutNs, patience);
    }

    method PostRead(timeoutNs: nat, patience: nat) returns (answer: Answer)
      modifies this, driver
      ensures Step(View(), answer) == PostAndPoll(driver.script, old(View()), timeoutNs, patience)
    {
      hide PostFrom, Ask;
      var start := driver.Invoke(Clock);
      if start.value != 0 {
        return Code(if poisoned then -2 else -1);
      }
      answer := PostAt(start.time, timeoutNs, patience);
    }

    method PostAt(start: nat, timeoutNs: nat, patience: nat) returns (answer: Answer)
      modifies this, driver
      ensures Step(View(), answer) == PostFrom(driver.script, old(View()), start, timeoutNs, patience)
    {
      hide Await, Ask;
      active := true;
      var post := driver.Invoke(NativeResources.Call.PostRead);
      if post.value != 0 {
        active := false;
        return Code(if poisoned then -2 else -1);
      }
      answer := AwaitRead(start, timeoutNs, patience);
    }

    method AwaitRead(start: nat, timeoutNs: nat, patience: nat) returns (answer: Answer)
      modifies this, driver
      ensures Step(View(), answer) == Await(driver.script, old(View()), start, timeoutNs, patience)
    {
      hide PollLoop, AfterPoll;
      var end := PollCompletion(start, timeoutNs, patience);
      answer := Settle(end);
    }

    method Settle(end: Poll) returns (answer: Answer)
      modifies this, driver
      ensures Step(View(), answer) == AfterPoll(driver.script, old(View()), end)
    {
      hide AfterRetire;
      match end
      case StillPolling =>
        stuck := true;
        answer := Polling;
      case PollFailed =>
        poisoned := true;
        answer := Code(-2);
      case TimedOut =>
        poisoned := true;
        answer := Code(-2);
      case ClockFailed =>
        answer := Code(if poisoned then -2 else -1);
      case Retired(success) =>
        answer := Finish(success);
    }

    method Finish(success: bool) returns (answer: Answer)
      modifies this, driver
      ensures Step(View(), answer) == AfterRetire(driver.script, old(View()), success)
    {
      hide Acknowledge, Ask;
      var clock := driver.Invoke(Clock);
      if clock.value != 0 {
        return Code(if poisoned then -2 else -1);
      }
      active := false;
      if !success {
        return Code(if poisoned then -2 else -1);
      }
      answer := FlushAndAcknowledge();
    }

    method FlushAndAcknowledge() returns (answer: Answer)
      modifies driver
      ensures Step(View(), answer) == Acknowledge(driver.script, old(View()))
    {
      hide CheckAll;
      var ok := RunChecks(AFTER);
      if !ok {
        return Code(if poisoned then -2 else -1);
      }
      answer := Code(0);
    }

    method BeginClose() returns (answer: Option<int>)
      modifies this
      ensures Begun(View(), answer) == CloseBegin(old(View()))
      ensures var whole := old(magic && hasNative && registered);
              && answer == (if !old(live) then Some(-1)
                            else if whole && !old(poisoned) && !old(active) then None else Some(-2))
              && (poisoned <==> old(poisoned) || (old(live) && !whole))
              && (closing <==> old(closing) || answer == None) && (inside <==> old(inside) || answer == None)
    {
      if !live {
        return Some(-1);
      }
      if !magic || !hasNative || !registered {
        poisoned := true;
        return Some(-2);
      }
      if poisoned || active {
        return Some(-2);
      }
      closing := true;
      inside := true;
      answer := None;
    }

    method EndClose(controlError: bool) returns (answer: Answer)
      modifies this, native, driver
      ensures Step(View(), answer) == CloseEnd(driver.script, old(View()), controlError)
      ensures EndMeans(driver.script, old(View()), controlError, View(), answer)
    {
      hide CloseEnd, EndMeans;
      EndExactly(driver.script, View(), controlError);
      answer := Teardown(controlError);
    }

    method Teardown(controlError: bool) returns (answer: Answer)
      modifies this, native, driver
      ensures Step(View(), answer) == CloseEnd(driver.script, old(View()), controlError)
    {
      hide Strict, Good, StrictCalls;
      inside := false;
      var ok := native.CleanupStrict(driver);
      if !ok {
        poisoned := true;
        return Code(-2);
      }
      registered, hasNative, magic, live := false, false, false, false;
      answer := Code(if controlError then -1 else 0);
    }
  }

  /** How a close ends: the handle goes, with the control thread's error or without, exactly when every destroy of
      what the fields hold succeeds; otherwise it stays, poisoned. */
  predicate EndMeans(script: Script, g: Gdr, controlError: bool, g': Gdr, answer: Answer) {
    var calls := StrictCalls(g.slots);
    var freed := forall i :: 0 <= i < |calls| ==> Good(calls[i], script(|g.log| + i));
    && answer == Code(if !freed then -2 else if controlError then -1 else 0)
    && g'.live == (!freed && g.live) && g'.poisoned == (!freed || g.poisoned) && !g'.inside
  }

  lemma EndExactly(script: Script, g: Gdr, controlError: bool)
    ensures var s := CloseEnd(script, g, controlError); EndMeans(script, g, controlError, s.gdr, s.answer)
  {
    hide Strict, Good, StrictCalls, Performs;
    StrictSucceedsExactly(script, State(g.slots, g.log, false));
  }

  function Opened(role: int, made: State): Gdr {
    Gdr(true, true, true, true, false, false, false, false, role, made.slots, made.log, false, false)
  }

  // ---------- when a call succeeds ----------

  /** All answers from one to another are zero. */
  predicate AllZero(script: Script, from: nat, to: nat) {
    forall m: nat :: from <= m < to ==> script(m).value == 0
  }

  lemma {:induction false} ChecksExactly(script: Script, log: seq<Event>, n: nat)
    ensures CheckAll(script, log, n).ok <==> AllZero(script, |log|, |log| + n)
    ensures CheckAll(script, log, n).ok ==> |CheckAll(script, log, n).log| == |log| + n
    decreases n
  {
    if n > 0 && script(|log|).value == 0 {
      ChecksExactly(script, Ask(script, log, Check), n - 1);
    }
  }

  /** The `j`-th poll from `at` on reports nothing, and the clock after it is within the time. */
  predicate Pends(script: Script, at: nat, j: nat, start: nat, timeoutNs: nat) {
    var poll, clock := script(at + 2 * j), script(at + 2 * j + 1);
    poll.value >= 0 && poll.value != 1 && clock.value == 0 && clock.time - start < timeoutNs
  }

  /** How the `j`-th poll, or the clock behind it, ends the loop. */
  predicate EndsAt(script: Script, at: nat, j: nat, start: nat, timeoutNs: nat, end: Poll) {
    var poll, clock := script(at + 2 * j), script(at + 2 * j + 1);
    match end
    case PollFailed => poll.value < 0
    case Retired(success) => poll.value == 1 && success == poll.completed
    case ClockFailed => poll.value >= 0 && poll.value != 1 && clock.value != 0
    case TimedOut => poll.value >= 0 && poll.value != 1 && clock.value == 0 && clock.time - start >= timeoutNs
    case StillPolling => false
  }

  /** The polls before the `k`-th report nothing in time. */
  predicate PendsUntil(script: Script, at: nat, k: nat, start: nat, timeoutNs: nat) {
    forall j: nat :: j < k ==> Pends(script, at, j, start, timeoutNs)
  }

  lemma {:induction false} PollsExactly(script: Script, log: seq<Event>, start: nat, timeoutNs: nat, patience: nat)
    returns (k: nat)
    ensures var p := PollLoop(script, log, start, timeoutNs, patience);
            && k <= patience && PendsUntil(script, |log|, k, start, timeoutNs)
            && (if k == patience then p.end == StillPolling else EndsAt(script, |log|, k, start, timeoutNs, p.end))
            && (p.end.Retired? ==> |p.log| == |log| + 2 * k + 1)
    decreases patience
  {
    k := 0;
    if patience > 0 && Pends(script, |log|, 0, start, timeoutNs) {
      var log2 := Ask(script, Ask(script, log, NativeResources.Call.Poll), Clock);
      k := PollsExactly(script, log2, start, timeoutNs, patience - 1);
      k := k + 1;
      forall j: nat | j < k ensures Pends(script, |log|, j, start, timeoutNs) {
        assert j > 0 ==> Pends(script, |log2|, j - 1, start, timeoutNs);
      }
    }
  }

  /** A read that may start: on a live, registered target that is not closing, poisoned, active or used, with
      complete arguments. */
  predicate MayRead(g: Gdr, args: Args) {
    && g.live && g.magic && g.hasNative && g.registered && !g.closing && !g.poisoned && !g.active
    && g.role == 2 && !g.targetUsed && args.timeoutValid && args.outputsGiven && args.nameGiven
  }

  /** The first completion reported from `at` on is the `k`-th poll's and a good one, and the clock and the five
      calls after it succeed. */
  predicate Delivers(script: Script, at: nat, k: nat, start: nat, timeoutNs: nat) {
    && PendsUntil(script, at, k, start, timeoutNs)
    && script(at + 2 * k).value == 1 && script(at + 2 * k).completed
    && AllZero(script, at + 2 * k + 1, at + 2 * k + 7)
  }

  /** No completion is reported before the `k`-th poll fails, or before the clock after it is late. */
  predicate Strands(script: Script, at: nat, k: nat, start: nat, timeoutNs: nat) {
    && PendsUntil(script, at, k, start, timeoutNs)
    && (EndsAt(script, at, k, start, timeoutNs, PollFailed) || EndsAt(script, at, k, start, timeoutNs, TimedOut))
  }

  predicate DeliversWithin(script: Script, at: nat, patience: nat, start: nat, timeoutNs: nat) {
    exists k: nat :: k < patience && Delivers(script, at, k, start, timeoutNs)
  }

  predicate StrandsWithin(script: Script, at: nat, patience: nat, start: nat, timeoutNs: nat) {
    exists k: nat :: k < patience && Strands(script, at, k, start, timeoutNs)
  }

  /** What a read answers and leaves, by the answers to its calls alone. Zero exactly when it may start, its
      eleven checks, the clock and the post succeed, and the first completion reported is a good one and in time
      with all of the calls after it successful; poisoned exactly when a posted READ's poll failed or its time
      ran out before any completion; polling exactly when nothing was decided yet; and else -1 or, poisoned, -2. */
  predicate ReadMeans(script: Script, g: Gdr, args: Args, patience: nat, g': Gdr, answer: Answer) {
    var at := |g.log|;
    var posts, start := MayRead(g, args) && AllZero(script, at, at + 13), script(at + 11).time;
    && (answer == Code(0) <==> posts && DeliversWithin(script, at + 13, patience, start, args.timeoutNs))
    && (g'.poisoned <==> posts && StrandsWithin(script, at + 13, patience, start, args.timeoutNs))
    && (answer == Polling <==> posts && PendsUntil(script, at + 13, patience, start, args.timeoutNs))
    && answer in {Polling, Code(0), Code(if g'.poisoned then -2 else -1)}
    && (answer == Code(0) ==> g'.targetUsed && !g'.active)
  }

  lemma AfterRetireExactly(script: Script, g: Gdr, success: bool)
    requires !g.poisoned
    ensures var s := AfterRetire(script, g, success);
            && s.answer == Code(if success && AllZero(script, |g.log|, |g.log| + 6) then 0 else -1)
            && !s.gdr.poisoned && (s.answer == Code(0) ==> s.gdr.targetUsed == g.targetUsed && !s.gdr.active)
  {
    hide CheckAll;
    ChecksExactly(script, Ask(script, g.log, Clock), AFTER);
  }

  /** The first poll that does not pend is the only one at which anything is decided. */
  lemma OnePoll(script: Script, at: nat, k: nat, patience: nat, start: nat, timeoutNs: nat, end: Poll, j: nat,
                end': Poll)
    requires k <= patience && PendsUntil(script, at, k, start, timeoutNs)
    requires k < patience ==> EndsAt(script, at, k, start, timeoutNs, end)
    requires j < patience && PendsUntil(script, at, j, start, timeoutNs)
    requires EndsAt(script, at, j, start, timeoutNs, end')
    ensures k < patience && j == k && end == end'
  {
    assert j < k ==> Pends(script, at, j, start, timeoutNs);
    assert k < j ==> Pends(script, at, k, start, timeoutNs);
  }

  lemma DeliversEnds(script: Script, at: nat, k: nat, start: nat, timeoutNs: nat)
    ensures Delivers(script, at, k, start, timeoutNs) ==>
              PendsUntil(script, at, k, start, timeoutNs) && EndsAt(script, at, k, start, timeoutNs, Retired(true))
  {
  }

  /** A posted READ, by the answers to its calls. */
  lemma AwaitExactly(script: Script, g: Gdr, start: nat, timeoutNs: nat, patience: nat)
    requires !g.poisoned
    ensures var s, at := Await(script, g, start, timeoutNs, patience), |g.log|;
            && (s.answer == Code(0) <==> DeliversWithin(script, at, patience, start, timeoutNs))
            && (s.gdr.poisoned <==> StrandsWithin(script, at, patience, start, timeoutNs))
            && (s.answer == Polling <==> PendsUntil(script, at, patience, start, timeoutNs))
            && s.answer in {Polling, Code(0), Code(if s.gdr.poisoned then -2 else -1)}
            && (s.answer == Code(0) ==> s.gdr.targetUsed == g.targetUsed && !s.gdr.active)
  {
    hide PollLoop, AfterRetire, EndsAt, AllZero, Pends;
    var at := |g.log|;
    var k := PollsExactly(script, g.log, start, timeoutNs, patience);
    var polled := PollLoop(script, g.log, start, timeoutNs, patience);
    if polled.end.Retired? {
      AfterRetireExactly(script, g.(log := polled.log), polled.end.success);
    }
    forall j: nat | j < patience && Delivers(script, at, j, start, timeoutNs)
      ensures j == k && k < patience && polled.end == Retired(true)
    {
      DeliversEnds(script, at, j, start, timeoutNs);
      OnePoll(script, at, k, patience, start, timeoutNs, polled.end, j, Retired(true));
    }
    forall j: nat | j < patience && Strands(script, at, j, start, timeoutNs)
      ensures j == k && k < patience && polled.end in {PollFailed, TimedOut}
    {
      var end := if EndsAt(script, at, j, start, timeoutNs, PollFailed) then PollFailed else TimedOut;
      OnePoll(script, at, k, patience, start, timeoutNs, polled.end, j, end);
    }
    if k < patience {
      EndedDelivers(script, at, k, start, timeoutNs, polled.end);
    }
  }

  lemma EndedDelivers(script: Script, at: nat, k: nat, start: nat, timeoutNs: nat, end: Poll)
    requires PendsUntil(script, at, k, start, timeoutNs) && EndsAt(script, at, k, start, timeoutNs, end)
    ensures Delivers(script, at, k, start, timeoutNs) <==>
              end == Retired(true) && AllZero(script, at + 2 * k + 1, at + 2 * k + 7)
    ensures Strands(script, at, k, start, timeoutNs) <==> end in {PollFailed, TimedOut}
    ensures !Pends(script, at, k, start, timeoutNs)
  {
  }

  lemma ReadExactly(script: Script, g: Gdr, args: Args, patience: nat)
    requires !g.poisoned
    ensures var s := Read(script, g, args, patience); ReadMeans(script, g, args, patience, s.gdr, s.answer)
  {
    hide CheckAll, Await, DeliversWithin, StrandsWithin, PendsUntil;
    if MayRead(g, args) {
      var at := |g.log|;
      ChecksExactly(script, g.log, BEFORE);
      var before := CheckAll(script, g.log, BEFORE);
      if before.ok && script(at + 11).value == 0 && script(at + 12).value == 0 {
        var log := Ask(script, Ask(script, before.log, Clock), PostRead);
        AwaitExactly(script, g.(targetUsed := true, active := true, log := log), script(at + 11).time, args.timeoutNs,
                     patience);
      }
    }
  }

  // ---------- every run ----------

  datatype Action = DoRead(args: Args, patience: nat) | DoCloseBegin | DoCloseEnd(controlError: bool)

  /** One call, or one half of a close. A held lock lets nothing through, and there is one closer. */
  function Act(script: Script, g: Gdr, a: Action): Gdr {
    if g.stuck then g
    else
      match a
      case DoRead(args, patience) => Read(script, g, args, patience).gdr
      case DoCloseBegin => if g.inside then g else CloseBegin(g).gdr
      case DoCloseEnd(controlError) => if g.inside then CloseEnd(script, g, controlError).gdr else g
  }

  function ActAll(script: Script, g: Gdr, actions: seq<Action>): Gdr
    decreases |actions|
  {
    if actions == [] then g else ActAll(script, Act(script, g, actions[0]), actions[1..])
  }

  ghost predicate Sound(g: Gdr) {
    var h := HardwareAfter(g.log);
    && Tracks(g.slots, h)
    && (h.unretired ==> g.active)
    && h.posts <= 1 && (h.posts > 0 ==> g.targetUsed && g.role == TARGET)
    && (g.inside ==> g.closing && !g.active && !g.poisoned)
    && (g.live ==> g.magic && g.registered && g.hasNative)
    && (g.targetUsed ==> g.role == TARGET)
  }

  /** A step that posts nothing, polls nothing and destroys nothing leaves the hardware alone. */
  lemma {:induction false} ChecksLeaveHardware(script: Script, log: seq<Event>, n: nat)
    ensures HardwareAfter(CheckAll(script, log, n).log) == HardwareAfter(log)
    decreases n
  {
    if n > 0 {
      HardwareAsk(script, log, Check);
      if script(|log|).value == 0 {
        ChecksLeaveHardware(script, Ask(script, log, Check), n - 1);
      }
    }
  }

  /** The last thing that happened is a clock failure. */
  predicate ClockFailedLast(log: seq<Event>) {
    |log| > 0 && log[|log| - 1].call == Clock && log[|log| - 1].reply.value != 0
  }

  lemma {:induction false} PollsRetire(script: Script, log: seq<Event>, start: nat, timeoutNs: nat, patience: nat)
    ensures var p := PollLoop(script, log, start, timeoutNs, patience);
            && HardwareAfter(p.log)
            == (if p.end.Retired? then HardwareAfter(log).(unretired := false) else HardwareAfter(log))
            && (|p.log| > |log| ==> (p.end.ClockFailed? <==> ClockFailedLast(p.log)))
            && (|p.log| == |log| ==> p.end.StillPolling?)
    decreases patience
  {
    hide HardwareAfter;
    if patience > 0 {
      var log1 := Ask(script, log, NativeResources.Call.Poll);
      HardwareAsk(script, log, NativeResources.Call.Poll);
      var poll := script(|log|);
      if !(poll.value < 0 || poll.value == 1) {
        var log2 := Ask(script, log1, Clock);
        HardwareAsk(script, log1, Clock);
        var clock := script(|log1|);
        assert log2[|log2| - 1] == Entry(Clock, clock);
        if clock.value == 0 && clock.time - start < timeoutNs {
          PollsRetire(script, log2, start, timeoutNs, patience - 1);
        }
      } else {
        assert log1[|log1| - 1] == Entry(NativeResources.Call.Poll, poll);
      }
    }
  }

  /** The step from `g` kept the context sound and touched only what a read may; it answers -2 exactly when
      poisoned, 0 only with its READ retired, and with one left unretired -1 only after a clock failure. */
  ghost predicate ReadEnds(g: Gdr, s: Step) {
    var h := HardwareAfter(s.gdr.log);
    && Sound(s.gdr)
    && s.gdr == g.(log := s.gdr.log, active := s.gdr.active, poisoned := s.gdr.poisoned, stuck := s.gdr.stuck)
    && (s.answer.Code? ==> (s.answer.code == -2 <==> s.gdr.poisoned) && s.answer.code in {0, -1, -2})
    && (s.answer == Code(0) ==> h.posts == 1 && !h.unretired && !s.gdr.active)
    && (h.unretired && s.answer.Code? ==> (s.answer.code == -1 <==> ClockFailedLast(s.gdr.log)))
  }

  lemma AcknowledgeEnds(script: Script, g: Gdr)
    requires Sound(g) && !g.active && g.targetUsed && !g.poisoned
    requires HardwareAfter(g.log).posts == 1 && !HardwareAfter(g.log).unretired
    ensures ReadEnds(g, Acknowledge(script, g))
  {
    hide HardwareAfter, CheckAll;
    ChecksLeaveHardware(script, g.log, AFTER);
  }

  lemma AfterRetireEnds(script: Script, g: Gdr, success: bool)
    requires Sound(g) && g.active && g.targetUsed && !g.poisoned
    requires HardwareAfter(g.log).posts == 1 && !HardwareAfter(g.log).unretired
    ensures ReadEnds(g, AfterRetire(script, g, success))
  {
    hide HardwareAfter, Acknowledge, Ask;
    HardwareAsk(script, g.log, Clock);
    if script(|g.log|).value == 0 && success {
      AcknowledgeEnds(script, g.(active := false, log := Ask(script, g.log, Clock)));
    }
  }

  lemma AfterPollEnds(script: Script, g: Gdr, polled: Polled)
    requires g.log == polled.log && Sound(g) && g.active && g.targetUsed && !g.poisoned && !g.inside
    requires HardwareAfter(g.log).posts == 1
    requires polled.end.Retired? ==> !HardwareAfter(g.log).unretired
    requires !polled.end.Retired? ==> (polled.end.ClockFailed? <==> ClockFailedLast(g.log))
    ensures ReadEnds(g, AfterPoll(script, g, polled.end))
  {
    hide HardwareAfter, AfterRetire;
    if polled.end.Retired? {
      AfterRetireEnds(script, g, polled.end.success);
    }
  }

  /** A read that has got as far as the post: nothing, or one post of a target never used before. */
  lemma PostFromKeepsSound(script: Script, g: Gdr, start: nat, timeoutNs: nat, patience: nat)
    requires Sound(g) && g.targetUsed && HardwareAfter(g.log).posts == 0 && !g.active && !g.inside && !g.poisoned
    ensures ReadEnds(g, PostFrom(script, g, start, timeoutNs, patience))
  {
    hide HardwareAfter, PollLoop, AfterPoll, Ask;
    var log := Ask(script, g.log, PostRead);
    HardwareAsk(script, g.log, PostRead);
    if script(|g.log|).value == 0 {
      PollsRetire(script, log, start, timeoutNs, patience);
      var polled := PollLoop(script, log, start, timeoutNs, patience);
      PostNotClock(script, g.log);
      AfterPollEnds(script, g.(active := true, log := polled.log), polled);
    }
  }

  lemma PostKeepsSound(script: Script, g: Gdr, timeoutNs: nat, patience: nat)
    requires Sound(g) && g.targetUsed && HardwareAfter(g.log).posts == 0 && !g.active && !g.inside && !g.poisoned
    ensures ReadEnds(g, PostAndPoll(script, g, timeoutNs, patience))
  {
    hide HardwareAfter, PostFrom, Ask;
    var log1 := Ask(script, g.log, Clock);
    HardwareAsk(script, g.log, Clock);
    if script(|g.log|).value == 0 {
      PostFromKeepsSound(script, g.(log := log1), script(|g.log|).time, timeoutNs, patience);
    }
  }

  lemma PostNotClock(script: Script, log: seq<Event>)
    ensures !ClockFailedLast(Ask(script, log, PostRead))
  {
  }

  lemma ActKeepsSound(script: Script, g: Gdr, a: Action)
    requires Sound(g)
    ensures Sound(Act(script, g, a))
    ensures g.poisoned ==> Act(script, g, a).poisoned
  {
    hide HardwareAfter, PostAndPoll, CheckAll, Strict;
    if !g.stuck {
      match a
      case DoRead(args, patience) =>
        if g.live && ReadAllowed(g, args) {
          ChecksLeaveHardware(script, g.log, BEFORE);
          var g1 := g.(targetUsed := true, log := CheckAll(script, g.log, BEFORE).log);
          if CheckAll(script, g.log, BEFORE).ok {
            PostKeepsSound(script, g1, args.timeoutNs, patience);
          }
        }
      case DoCloseBegin =>
      case DoCloseEnd(_) =>
        if g.inside {
          StrictKeepsTracks(script, State(g.slots, g.log, false));
        }
    }
  }

  /** Over every run of reads and closes on a context opened with whatever hardware: destroys happen in order
      and only with no READ unretired, at most one READ is ever posted, and only by a target. */
  lemma {:induction false} ContextInvariant(script: Script, g: Gdr, actions: seq<Action>)
    requires Sound(g)
    ensures var g' := ActAll(script, g, actions);
            && Sound(g') && HardwareAfter(g'.log).ordered && HardwareAfter(g'.log).posts <= 1
            && (g.poisoned ==> g'.poisoned)
    decreases |actions|
  {
    if actions != [] {
      ActKeepsSound(script, g, actions[0]);
      ContextInvariant(script, Act(script, g, actions[0]), actions[1..]);
    }
  }

  lemma OpenedSound(script: Script, role: int)
    requires !Make(script, []).failed
    ensures Sound(Opened(role, Make(script, [])))
  {
    hide Make;
    MakeHoldsWhatExists(script);
  }

  /** On a live poisoned context both calls answer -2 and change nothing, the hardware log included. */
  lemma PoisonedRefuses(script: Script, g: Gdr, args: Args, patience: nat)
    requires Sound(g) && g.live && g.poisoned
    ensures Read(script, g, args, patience) == Step(g, Code(-2))
    ensures CloseBegin(g) == Begun(g, Some(-2)) && !g.inside
  {
  }

  /** Over every run of calls, a live poisoned context stays exactly as it is. */
  lemma {:induction false} PoisonedFrozen(script: Script, g: Gdr, actions: seq<Action>)
    requires Sound(g) && g.live && g.poisoned
    ensures ActAll(script, g, actions) == g
    decreases |actions|
  {
    if actions != [] {
      assert Act(script, g, actions[0]) == g;
      PoisonedFrozen(script, g, actions[1..]);
    }
  }

  // ---------- a read that strands its READ ----------

  /** From call `n` on, everything succeeds and nothing completes, until the clock of the first poll fails. */
  function Stranding(n: nat): Script {
    m => Reply(if m == n + BEFORE + 3 then -1 else 0, 0, false)
  }

  lemma {:induction false} ChecksPass(script: Script, log: seq<Event>, n: nat)
    requires forall m: nat :: |log| <= m < |log| + n ==> script(m).value == 0
    ensures CheckAll(script, log, n).ok && |CheckAll(script, log, n).log| == |log| + n
    decreases n
  {
    if n > 0 {
      ChecksPass(script, Ask(script, log, Check), n - 1);
    }
  }

  /** Whatever context a read is allowed on: with those answers it says -1 and leaves the context unpoisoned,
      active and with its READ unretired, so that close refuses it and any later read too. */
  lemma ClockFailureStrands(g: Gdr, args: Args, patience: nat)
    requires Sound(g) && g.live && ReadAllowed(g, args) && patience > 0
    ensures var s := Read(Stranding(|g.log|), g, args, patience);
            && s.answer == Code(-1) && !s.gdr.poisoned && s.gdr.active && HardwareAfter(s.gdr.log).unretired
            && CloseBegin(s.gdr) == Begun(s.gdr, Some(-2))
            && forall script, args', patience' :: Read(script, s.gdr, args', patience') == Step(s.gdr, Code(-1))
  {
    hide HardwareAfter, CheckAll;
    var script := Stranding(|g.log|);
    ChecksPass(script, g.log, BEFORE);
    ChecksLeaveHardware(script, g.log, BEFORE);
    var g1 := g.(targetUsed := true, log := CheckAll(script, g.log, BEFORE).log);
    PostStrands(script, g1, args.timeoutNs, patience);
  }

  lemma PostStrands(script: Script, g: Gdr, timeoutNs: nat, patience: nat)
    requires !g.poisoned && patience > 0
    requires script(|g.log|).value == 0 && script(|g.log| + 1).value == 0 && script(|g.log| + 2).value == 0
    requires script(|g.log| + 3).value != 0
    ensures var s := PostAndPoll(script, g, timeoutNs, patience);
            && s.answer == Code(-1) && s.gdr == g.(active := true, log := s.gdr.log)
            && HardwareAfter(s.gdr.log).unretired
  {
    hide HardwareAfter;
    var log1 := Ask(script, g.log, Clock);
    var log2 := Ask(script, log1, PostRead);
    var log3 := Ask(script, log2, NativeResources.Call.Poll);
    HardwareAsk(script, log1, PostRead);
    HardwareAsk(script, log2, NativeResources.Call.Poll);
    HardwareAsk(script, log3, Clock);
    assert PollLoop(script, log2, script(|g.log|).time, timeoutNs, patience)
        == Polled(ClockFailed, Ask(script, log3, Clock));
  }

  /** What a read answers on any sound context: -2 exactly when the context is poisoned afterwards; 0 only
      with its one READ posted, completed and retired; and when it leaves its own READ unretired the answer
      is -2, unless the last thing that happened was a clock failure: then it is -1. */
  lemma ReadAnswers(script: Script, g: Gdr, args: Args, patience: nat)
    requires Sound(g) && g.live
    ensures var s := Read(script, g, args, patience);
            var h := HardwareAfter(s.gdr.log);
            && (s.answer.Code? ==> (s.answer.code == -2 <==> s.gdr.poisoned))
            && (s.answer == Code(0) ==> ReadAllowed(g, args) && h.posts == 1 && !h.unretired && !s.gdr.active)
            && (h.unretired && !HardwareAfter(g.log).unretired && s.answer.Code? ==>
                  (s.answer.code == -1 <==> ClockFailedLast(s.gdr.log)))
  {
    hide HardwareAfter, PostAndPoll, CheckAll;
    if ReadAllowed(g, args) {
      ChecksLeaveHardware(script, g.log, BEFORE);
      if CheckAll(script, g.log, BEFORE).ok {
        PostKeepsSound(script, g.(targetUsed := true, log := CheckAll(script, g.log, BEFORE).log), args.timeoutNs,
                       patience);
      }
    }
  }
}
