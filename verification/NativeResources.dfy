/** The hardware resources of one GDR context: ordered acquisition with a failure possible at every step,
    and the two teardowns (native/spd-gdr/src/spd_gdr.cpp). Foreign calls answer from an arbitrary script. */
module NativeResources {
  import opened Scripts
  import opened Wrappers

  datatype Kind = DeviceList | Verbs | Pd | Cq | Qp | DmaBuf | Mr

  /** `a` is built on `b`, so `a` must go first. */
  predicate DependsOn(a: Kind, b: Kind) {
    match a
    case Qp => b in {Cq, Pd}
    case Mr => b in {DmaBuf, Pd}
    case Cq => b == Verbs
    case Pd => b == Verbs
    case Verbs => b == DeviceList
    case _ => false
  }

  /** A foreign call. Check stands for any call that acquires nothing and may fail. */
  datatype Call =
    | Check
    | Acquire(kind: Kind)
    | Destroy(kind: Kind, handle: int)
    | Clock
    | PostRead
    | Poll

  /** What it answered: zero is success for Check, Destroy, Clock and PostRead; a non-zero handle for
      Acquire; the number of completions for Poll. */
  datatype Reply = Reply(value: int, time: nat, completed: bool)

  type Event = Entry<Call, Reply>

  type Script = nat -> Reply

  /** The driver behind the foreign calls. */
  class Driver {
    const script: Script
    var log: seq<Event>

    constructor (script: Script)
      ensures this.script == script && log == []
    {
      this.script := script;
      log := [];
    }

    method Invoke(call: Call) returns (reply: Reply)
      modifies this
      ensures log == Ask(script, old(log), call) && reply == script(|old(log)|)
    {
      reply := script(|log|);
      log := log + [Entry(call, reply)];
    }
  }

  // ---------- the resource fields ----------

  datatype Slots = Slots(deviceList: Option<int>, verbs: Option<int>, pd: Option<int>, cq: Option<int>, qp: Option<int>,
                         dmabuf: Option<int>, mr: Option<int>)
  {
    function Get(k: Kind): Option<int> {
      match k
      case DeviceList => deviceList
      case Verbs => verbs
      case Pd => pd
      case Cq => cq
      case Qp => qp
      case DmaBuf => dmabuf
      case Mr => mr
    }

    function Put(k: Kind, h: Option<int>): (s: Slots)
      ensures forall j :: s.Get(j) == if j == k then h else Get(j)
    {
      match k
      case DeviceList => this.(deviceList := h)
      case Verbs => this.(verbs := h)
      case Pd => this.(pd := h)
      case Cq => this.(cq := h)
      case Qp => this.(qp := h)
      case DmaBuf => this.(dmabuf := h)
      case Mr => this.(mr := h)
    }
  }

  const EMPTY := Slots(None, None, None, None, None, None, None)

  /** Every value of the type. */
  const KINDS: set<Kind> := {DeviceList, Verbs, Pd, Cq, Qp, DmaBuf, Mr}

  /** The fields and the log, and whether the procedure has stopped at a failure. */
  datatype State = State(slots: Slots, log: seq<Event>, failed: bool)

  // ---------- acquisition ----------

  function CheckStep(script: Script, s: State): (s': State)
    ensures s.log <= s'.log
  {
    if s.failed then s else State(s.slots, Ask(script, s.log, Check), script(|s.log|).value != 0)
  }

  function TakeStep(script: Script, s: State, k: Kind): (s': State)
    ensures s.log <= s'.log
  {
    if s.failed then s
    else
      var h := script(|s.log|).value;
      if h == 0 then State(s.slots, Ask(script, s.log, Acquire(k)), true)
      else State(s.slots.Put(k, Some(h)), Ask(script, s.log, Acquire(k)), false)
  }

  /** make_native_resources up to the protection domain: capabilities, device list, device, port and GID. */
  function MakeDevice(script: Script, s: State): State {
    var s1 := TakeStep(script, CheckStep(script, s), DeviceList);
    var s2 := TakeStep(script, CheckStep(script, s1), Verbs);
    TakeStep(script, CheckStep(script, CheckStep(script, s2)), Pd)
  }

  /** The rest of it: CQ, QP, the DMA-BUF export, its registration, and the clock behind the packet number. */
  function MakeQueues(script: Script, s: State): State {
    var s1 := TakeStep(script, TakeStep(script, s, Cq), Qp);
    var s2 := TakeStep(script, CheckStep(script, s1), DmaBuf);
    CheckStep(script, TakeStep(script, CheckStep(script, s2), Mr))
  }

  function Make(script: Script, log: seq<Event>): State {
    MakeQueues(script, MakeDevice(script, State(EMPTY, log, false)))
  }

  // ---------- teardown ----------

  /** Best effort: destroy what the field holds, ignore the answer, forget it. */
  function DropStep(script: Script, s: State, k: Kind): (s': State)
    ensures s.log <= s'.log
  {
    if s.slots.Get(k).None? then s
    else State(s.slots.Put(k, None), Ask(script, s.log, Destroy(k, s.slots.Get(k).value)), s.failed)
  }

  /** Strict: stop at the first destroy that fails, keeping that field. Freeing the device list cannot fail. */
  function FreeStep(script: Script, s: State, k: Kind): (s': State)
    ensures s.log <= s'.log
  {
    if s.failed || s.slots.Get(k).None? then s
    else
      var log' := Ask(script, s.log, Destroy(k, s.slots.Get(k).value));
      if script(|s.log|).value != 0 && k != DeviceList then State(s.slots, log', true)
      else State(s.slots.Put(k, None), log', false)
  }

  function DropQueues(script: Script, s: State): State {
    DropStep(script, DropStep(script, DropStep(script, s, Qp), Cq), Mr)
  }

  function DropDevice(script: Script, s: State): State {
    DropStep(script, DropStep(script, DropStep(script, DropStep(script, s, DmaBuf), Pd), Verbs), DeviceList)
  }

  function BestEffort(script: Script, s: State): State {
    DropDevice(script, DropQueues(script, s))
  }

  function FreeQueues(script: Script, s: State): State {
    FreeStep(script, FreeStep(script, FreeStep(script, s, Qp), Cq), Mr)
  }

  function FreeDevice(script: Script, s: State): State {
    FreeStep(script, FreeStep(script, FreeStep(script, FreeStep(script, s, DmaBuf), Pd), Verbs), DeviceList)
  }

  function Strict(script: Script, s: State): State {
    FreeDevice(script, FreeQueues(script, s.(failed := false)))
  }

  class Resources {
    var deviceList: Option<int>
    var verbs: Option<int>
    var pd: Option<int>
    var cq: Option<int>
    var qp: Option<int>
    var dmabuf: Option<int>
    var mr: Option<int>

    constructor ()
      ensures View() == EMPTY
    {
      deviceList, verbs, pd, cq, qp, dmabuf, mr := None, None, None, None, None, None, None;
    }

    function View(): Slots
      reads this
    {
      Slots(deviceList, verbs, pd, cq, qp, dmabuf, mr)
    }

    method Store(k: Kind, h: Option<int>)
      modifies this
      ensures View() == old(View()).Put(k, h)
    {
      match k
      case DeviceList => deviceList := h;
      case Verbs => verbs := h;
      case Pd => pd := h;
      case Cq => cq := h;
      case Qp => qp := h;
      case DmaBuf => dmabuf := h;
      case Mr => mr := h;
    }

    /** A call that acquires nothing and may fail. */
    method Checked(driver: Driver) returns (ok: bool)
      modifies driver
      ensures State(View(), driver.log, !ok) == CheckStep(driver.script, State(View(), old(driver.log), false))
    {
      var r := driver.Invoke(Check);
      ok := r.value == 0;
    }

    /** Acquire one resource into its field, or fail. */
    method Take(driver: Driver, k: Kind) returns (ok: bool)
      modifies this, driver
      ensures State(View(), driver.log, !ok) == TakeStep(driver.script, State(old(View()), old(driver.log), false), k)
    {
      var r := driver.Invoke(Acquire(k));
      if r.value == 0 {
        return false;
      }
      Store(k, Some(r.value));
      ok := true;
    }

    /** Destroy what the field holds, whatever comes of it. */
    method Drop(driver: Driver, k: Kind)
      modifies this, driver
      ensures State(View(), driver.log, false) == DropStep(driver.script, State(old(View()), old(driver.log), false), k)
    {
      var held := View().Get(k);
      if held.Some? {
        var _ := driver.Invoke(Destroy(k, held.value));
        Store(k, None);
      }
    }

    /** Destroy what the field holds, or fail and keep it. */
    method Free(driver: Driver, k: Kind) returns (ok: bool)
      modifies this, driver
      ensures State(View(), driver.log, !ok) == FreeStep(driver.script, State(old(View()), old(driver.log), false), k)
    {
      var held := View().Get(k);
      if held.Some? {
        var r := driver.Invoke(Destroy(k, held.value));
        if r.value != 0 && k != DeviceList {
          return false;
        }
        Store(k, None);
      }
      ok := true;
    }

    method MakeResources(driver: Driver) returns (ok: bool)
      requires View() == EMPTY
      modifies this, driver
      ensures State(View(), driver.log, !ok) == Make(driver.script, old(driver.log))
      ensures ok <==> forall i :: 0 <= i < |DEVICE_CALLS + QUEUE_CALLS| ==>
                                    Good((DEVICE_CALLS + QUEUE_CALLS)[i], driver.script(|old(driver.log)| + i))
    {
      hide CheckStep, TakeStep, Good, Performs;
      FailureSticks(driver.script);
      MakeSucceedsExactly(driver.script, driver.log);
      ok := Checked(driver);
      if !ok { return; }
      ok := Take(driver, DeviceList);
      if !ok { return; }
      ok := Checked(driver);
      if !ok { return; }
      ok := Take(driver, Verbs);
      if !ok { return; }
      ok := Checked(driver);
      if !ok { return; }
      ok := Checked(driver);
      if !ok { return; }
      ok := Take(driver, Pd);
      if !ok { return; }
      ok := Take(driver, Cq);
      if !ok { return; }
      ok := Take(driver, Qp);
      if !ok { return; }
      ok := Checked(driver);
      if !ok { return; }
      ok := Take(driver, DmaBuf);
      if !ok { return; }
      ok := Checked(driver);
      if !ok { return; }
      ok := Take(driver, Mr);
      if !ok { return; }
      ok := Checked(driver);
    }

    method CleanupBestEffort(driver: Driver)
      modifies this, driver
      ensures State(View(), driver.log, false) == BestEffort(driver.script, State(old(View()), old(driver.log), false))
    {
      hide DropStep;
      Drop(driver, Qp);
      Drop(driver, Cq);
      Drop(driver, Mr);
      Drop(driver, DmaBuf);
      Drop(driver, Pd);
      Drop(driver, Verbs);
      Drop(driver, DeviceList);
    }

    method CleanupStrict(driver: Driver) returns (ok: bool)
      modifies this, driver
      ensures State(View(), driver.log, !ok) == Strict(driver.script, State(old(View()), old(driver.log), false))
      ensures var calls := StrictCalls(old(View()));
              ok <==> forall i :: 0 <= i < |calls| ==> Good(calls[i], driver.script(|old(driver.log)| + i))
    {
      hide FreeStep, Good, Performs, DestroyCall, StrictCalls;
      FailureSticks(driver.script);
      StrictSucceedsExactly(driver.script, State(View(), driver.log, false));
      ok := Free(driver, Qp);
      if !ok { return; }
      ok := Free(driver, Cq);
      if !ok { return; }
      ok := Free(driver, Mr);
      if !ok { return; }
      ok := Free(driver, DmaBuf);
      if !ok { return; }
      ok := Free(driver, Pd);
      if !ok { return; }
      ok := Free(driver, Verbs);
      if !ok { return; }
      ok := Free(driver, DeviceList);
    }
  }

  /** Once a step has failed, the rest of the procedure does nothing. */
  lemma FailureSticks(script: Script)
    ensures forall s: State :: s.failed ==> CheckStep(script, s) == s
    ensures forall s: State, k :: s.failed ==> TakeStep(script, s, k) == s
    ensures forall s: State, k :: s.failed ==> FreeStep(script, s, k) == s
  {
  }

  // ---------- when a procedure succeeds ----------

  /** The answer that lets a procedure go on: zero, but a handle for an acquisition; and freeing the device
      list cannot fail. */
  predicate Good(call: Call, reply: Reply) {
    match call
    case Acquire(_) => reply.value != 0
    case Destroy(k, _) => reply.value == 0 || k == DeviceList
    case _ => reply.value == 0
  }

  /** From `s` to `s'` these calls were made in order, as far as the first answer that is not good; the
      procedure fails exactly if there is one. */
  ghost predicate Performs(script: Script, s: State, s': State, calls: seq<Call>) {
    if s.failed then s' == s
    else
      var n, m := |s.log|, |s'.log| - |s.log|;
      && s.log <= s'.log && m <= |calls|
      && (forall i :: 0 <= i < m ==> s'.log[n + i] == Entry(calls[i], script(n + i)))
      && (forall i :: 0 <= i < m - 1 ==> Good(calls[i], script(n + i)))
      && (if s'.failed then m > 0 && !Good(calls[m - 1], script(n + m - 1))
          else m == |calls| && (m > 0 ==> Good(calls[m - 1], script(n + m - 1))))
  }

  lemma PerformsThen(script: Script, a: State, b: State, c: State, calls: seq<Call>, more: seq<Call>)
    requires Performs(script, a, b, calls) && Performs(script, b, c, more)
    ensures Performs(script, a, c, calls + more)
  {
    if !a.failed && !b.failed {
      var n, all, k := |a.log|, calls + more, |calls|;
      forall i | 0 <= i < |c.log| - n
        ensures c.log[n + i] == Entry(all[i], script(n + i)) && (i < |c.log| - n - 1 ==> Good(all[i], script(n + i)))
      {
        if i < k {
          assert c.log[n + i] == b.log[n + i] && all[i] == calls[i];
        } else {
          assert n + i == |b.log| + (i - k) && all[i] == more[i - k];
        }
      }
    }
  }

  lemma PerformsExactly(script: Script, s: State, s': State, calls: seq<Call>)
    requires Performs(script, s, s', calls) && !s.failed
    ensures !s'.failed <==> forall i :: 0 <= i < |calls| ==> Good(calls[i], script(|s.log| + i))
  {
  }

  lemma StepsPerform(script: Script, s: State, k: Kind)
    ensures Performs(script, s, CheckStep(script, s), [Check])
    ensures Performs(script, s, TakeStep(script, s, k), [Acquire(k)])
    ensures Performs(script, s, FreeStep(script, s, k), DestroyCall(s.slots, k))
  {
  }

  /** The call that destroys what the field of a kind holds, if it holds anything. */
  function DestroyCall(slots: Slots, k: Kind): seq<Call> {
    if slots.Get(k).Some? then [Destroy(k, slots.Get(k).value)] else []
  }

  const DEVICE_CALLS: seq<Call> :=
    [Check, Acquire(DeviceList), Check, Acquire(Verbs), Check, Check, Acquire(Pd)]
  const QUEUE_CALLS: seq<Call> :=
    [Acquire(Cq), Acquire(Qp), Check, Acquire(DmaBuf), Check, Acquire(Mr), Check]

  lemma CallsJoin()
    ensures DEVICE_CALLS
         == [Check] + [Acquire(DeviceList)] + [Check] + [Acquire(Verbs)] + ([Check] + [Check] + [Acquire(Pd)])
    ensures QUEUE_CALLS
         == [Acquire(Cq)] + [Acquire(Qp)] + [Check] + [Acquire(DmaBuf)] + ([Check] + [Acquire(Mr)] + [Check])
  {
  }

  lemma MakeDevicePerforms(script: Script, s: State)
    ensures Performs(script, s, MakeDevice(script, s), DEVICE_CALLS)
  {
    hide Performs, CheckStep, TakeStep;
    var s1 := CheckStep(script, s);
    var s2 := TakeStep(script, s1, DeviceList);
    var s3 := CheckStep(script, s2);
    var s4 := TakeStep(script, s3, Verbs);
    var s5 := CheckStep(script, s4);
    var s6 := CheckStep(script, s5);
    StepsPerform(script, s, Pd);
    StepsPerform(script, s1, DeviceList);
    StepsPerform(script, s2, Pd);
    StepsPerform(script, s3, Verbs);
    StepsPerform(script, s4, Pd);
    StepsPerform(script, s5, Pd);
    StepsPerform(script, s6, Pd);
    PerformsThen(script, s, s1, s2, [Check], [Acquire(DeviceList)]);
    PerformsThen(script, s, s2, s3, [Check] + [Acquire(DeviceList)], [Check]);
    PerformsThen(script, s, s3, s4, [Check] + [Acquire(DeviceList)] + [Check], [Acquire(Verbs)]);
    PerformsThen(script, s4, s5, s6, [Check], [Check]);
    PerformsThen(script, s4, s6, TakeStep(script, s6, Pd), [Check] + [Check], [Acquire(Pd)]);
    PerformsThen(script, s, s4, TakeStep(script, s6, Pd), [Check] + [Acquire(DeviceList)] + [Check] + [Acquire(Verbs)],
                 [Check] + [Check] + [Acquire(Pd)]);
    CallsJoin();
  }

  lemma MakeQueuesPerforms(script: Script, s: State)
    ensures Performs(script, s, MakeQueues(script, s), QUEUE_CALLS)
  {
    hide Performs, CheckStep, TakeStep;
    var s1 := TakeStep(script, s, Cq);
    var s2 := TakeStep(script, s1, Qp);
    var s3 := CheckStep(script, s2);
    var s4 := TakeStep(script, s3, DmaBuf);
    var s5 := CheckStep(script, s4);
    var s6 := TakeStep(script, s5, Mr);
    StepsPerform(script, s, Cq);
    StepsPerform(script, s1, Qp);
    StepsPerform(script, s2, Qp);
    StepsPerform(script, s3, DmaBuf);
    StepsPerform(script, s4, Qp);
    StepsPerform(script, s5, Mr);
    StepsPerform(script, s6, Qp);
    PerformsThen(script, s, s1, s2, [Acquire(Cq)], [Acquire(Qp)]);
    PerformsThen(script, s, s2, s3, [Acquire(Cq)] + [Acquire(Qp)], [Check]);
    PerformsThen(script, s, s3, s4, [Acquire(Cq)] + [Acquire(Qp)] + [Check], [Acquire(DmaBuf)]);
    PerformsThen(script, s4, s5, s6, [Check], [Acquire(Mr)]);
    PerformsThen(script, s4, s6, CheckStep(script, s6), [Check] + [Acquire(Mr)], [Check]);
    PerformsThen(script, s, s4, CheckStep(script, s6), [Acquire(Cq)] + [Acquire(Qp)] + [Check] + [Acquire(DmaBuf)],
                 [Check] + [Acquire(Mr)] + [Check]);
    CallsJoin();
  }

  /** Acquisition makes these calls in this order up to the first one that fails, and succeeds exactly when every
      check answers zero and every acquisition a handle. */
  lemma MakeSucceedsExactly(script: Script, log: seq<Event>)
    ensures Performs(script, State(EMPTY, log, false), Make(script, log), DEVICE_CALLS + QUEUE_CALLS)
    ensures !Make(script, log).failed <==>
              forall i :: 0 <= i < |DEVICE_CALLS + QUEUE_CALLS| ==>
                            Good((DEVICE_CALLS + QUEUE_CALLS)[i], script(|log| + i))
  {
    hide Performs, MakeDevice, MakeQueues;
    var s := State(EMPTY, log, false);
    MakeDevicePerforms(script, s);
    MakeQueuesPerforms(script, MakeDevice(script, s));
    PerformsThen(script, s, MakeDevice(script, s), Make(script, log), DEVICE_CALLS, QUEUE_CALLS);
    PerformsExactly(script, s, Make(script, log), DEVICE_CALLS + QUEUE_CALLS);
  }

  /** What strict teardown calls for these fields: dependents first. */
  function StrictCalls(slots: Slots): seq<Call> {
    (DestroyCall(slots, Qp) + DestroyCall(slots, Cq) + DestroyCall(slots, Mr))
    + (DestroyCall(slots, DmaBuf) + DestroyCall(slots, Pd)
       + (DestroyCall(slots, Verbs) + DestroyCall(slots, DeviceList)))
  }

  /** A freed field is empty and the others are as they were, unless something failed. */
  lemma FreeTouches(script: Script, s: State, k: Kind)
    ensures var s' := FreeStep(script, s, k);
            && (!s'.failed ==> !s.failed && s'.slots == s.slots.Put(k, None)) && (s'.failed ==> s'.slots == s.slots)
  {
  }

  lemma FreeQueuesPerforms(script: Script, s: State)
    ensures var s' := FreeQueues(script, s);
            && Performs(script, s, s', DestroyCall(s.slots, Qp) + DestroyCall(s.slots, Cq) + DestroyCall(s.slots, Mr))
            && (!s'.failed ==> s'.slots == s.slots.(qp := None, cq := None, mr := None))
  {
    hide Performs, FreeStep, DestroyCall;
    var s1 := FreeStep(script, s, Qp);
    var s2 := FreeStep(script, s1, Cq);
    FreeTouches(script, s, Qp);
    FreeTouches(script, s1, Cq);
    FreeTouches(script, s2, Mr);
    StepsPerform(script, s, Qp);
    StepsPerform(script, s1, Cq);
    StepsPerform(script, s2, Mr);
    SameCall(script, s.slots, s1, Cq);
    SameCall(script, s.slots, s2, Mr);
    PerformsThen(script, s, s1, s2, DestroyCall(s.slots, Qp), DestroyCall(s.slots, Cq));
    PerformsThen(script, s, s2, FreeStep(script, s2, Mr), DestroyCall(s.slots, Qp) + DestroyCall(s.slots, Cq),
                 DestroyCall(s.slots, Mr));
  }

  /** What was to be destroyed at first is what is destroyed now, if the field still holds it; a procedure that
      has failed performs anything. */
  lemma SameCall(script: Script, slots: Slots, s: State, k: Kind)
    requires !s.failed ==> slots.Get(k) == s.slots.Get(k)
    ensures Performs(script, s, FreeStep(script, s, k), DestroyCall(slots, k))
  {
  }

  lemma FreeDevicePerforms(script: Script, s: State)
    ensures Performs(script, s, FreeDevice(script, s),
                     DestroyCall(s.slots, DmaBuf) + DestroyCall(s.slots, Pd)
                     + (DestroyCall(s.slots, Verbs) + DestroyCall(s.slots, DeviceList)))
  {
    hide Performs, FreeStep, DestroyCall;
    var s1 := FreeStep(script, s, DmaBuf);
    var s2 := FreeStep(script, s1, Pd);
    var s3 := FreeStep(script, s2, Verbs);
    var s4 := FreeStep(script, s3, DeviceList);
    FreeTouches(script, s, DmaBuf);
    FreeTouches(script, s1, Pd);
    FreeTouches(script, s2, Verbs);
    SameCall(script, s.slots, s, DmaBuf);
    SameCall(script, s.slots, s1, Pd);
    SameCall(script, s.slots, s2, Verbs);
    SameCall(script, s.slots, s3, DeviceList);
    PerformsThen(script, s, s1, s2, DestroyCall(s.slots, DmaBuf), DestroyCall(s.slots, Pd));
    PerformsThen(script, s2, s3, s4, DestroyCall(s.slots, Verbs), DestroyCall(s.slots, DeviceList));
    PerformsThen(script, s, s2, s4, DestroyCall(s.slots, DmaBuf) + DestroyCall(s.slots, Pd),
                 DestroyCall(s.slots, Verbs) + DestroyCall(s.slots, DeviceList));
  }

  /** Strict teardown makes these calls in this order up to the first one that fails, and succeeds exactly when
      none does. */
  lemma StrictSucceedsExactly(script: Script, s: State)
    ensures Performs(script, s.(failed := false), Strict(script, s), StrictCalls(s.slots))
    ensures !Strict(script, s).failed <==>
              forall i :: 0 <= i < |StrictCalls(s.slots)| ==> Good(StrictCalls(s.slots)[i], script(|s.log| + i))
  {
    hide Performs, FreeQueues, FreeDevice, DestroyCall;
    var s0 := s.(failed := false);
    var s1, s' := FreeQueues(script, s0), Strict(script, s);
    FreeQueuesPerforms(script, s0);
    FreeDevicePerforms(script, s1);
    DeviceCalls(script, s.slots, s1);
    PerformsThen(script, s0, s1, s', DestroyCall(s.slots, Qp) + DestroyCall(s.slots, Cq) + DestroyCall(s.slots, Mr),
                 DestroyCall(s.slots, DmaBuf) + DestroyCall(s.slots, Pd)
                 + (DestroyCall(s.slots, Verbs) + DestroyCall(s.slots, DeviceList)));
    PerformsExactly(script, s0, s', StrictCalls(s.slots));
  }

  lemma DeviceCalls(script: Script, slots: Slots, s: State)
    requires !s.failed ==> s.slots == slots.(qp := None, cq := None, mr := None)
    requires Performs(script, s, FreeDevice(script, s),
                      DestroyCall(s.slots, DmaBuf) + DestroyCall(s.slots, Pd)
                      + (DestroyCall(s.slots, Verbs) + DestroyCall(s.slots, DeviceList)))
    ensures Performs(script, s, FreeDevice(script, s),
                     DestroyCall(slots, DmaBuf) + DestroyCall(slots, Pd)
                     + (DestroyCall(slots, Verbs) + DestroyCall(slots, DeviceList)))
  {
    hide FreeDevice;
  }

  // ---------- what a log means for the hardware ----------

  /** Read off a log: the resources that exist; those no destroy was tried on yet; how many READs were
      posted and whether one is unretired; and whether every destroy so far was in order, that is, hit a
      resource that existed, after everything built on it had been tried, with no READ unretired. */
  datatype Hardware = Hardware(live: map<Kind, int>, untried: set<Kind>, posts: nat, unretired: bool, ordered: bool)

  function HardwareStep(h: Hardware, e: Event): Hardware {
    match e.call
    case Acquire(k) =>
      if e.reply.value == 0 then h else h.(live := h.live[k := e.reply.value], untried := h.untried + {k})
    case Destroy(k, handle) =>
      Hardware(if e.reply.value == 0 || k == DeviceList then h.live - {k} else h.live, h.untried - {k}, h.posts,
               h.unretired,
               && h.ordered && !h.unretired
               && k in h.live && h.live[k] == handle
               && forall d :: d in KINDS && DependsOn(d, k) ==> d !in h.untried)
    case PostRead => if e.reply.value == 0 then h.(posts := h.posts + 1, unretired := true) else h
    case Poll => if e.reply.value == 1 then h.(unretired := false) else h
    case _ => h
  }

  function HardwareAfter(log: seq<Event>): Hardware
    decreases |log|
  {
    if log == [] then Hardware(map[], {}, 0, false, true)
    else HardwareStep(HardwareAfter(log[..|log| - 1]), log[|log| - 1])
  }

  lemma HardwareAsk(script: Script, log: seq<Event>, call: Call)
    ensures HardwareAfter(Ask(script, log, call)) == HardwareStep(HardwareAfter(log), Entry(call, script(|log|)))
  {
    var log' := Ask(script, log, call);
    assert log'[..|log'| - 1] == log;
  }

  /** The fields against the hardware: a field holds an existing resource under its own handle, and every
      resource not yet tried is in a field. */
  ghost predicate Tracks(slots: Slots, h: Hardware) {
    && h.ordered
    && (forall k :: k in h.live && slots.Get(k).Some? ==> h.live[k] == slots.Get(k).value)
    && (forall k :: slots.Get(k).Some? ==> k in h.live)
    && (forall k :: k in h.untried ==> slots.Get(k).Some?)
  }

  /** Nothing built on `k` is still in a field. */
  predicate Bare(slots: Slots, k: Kind) {
    forall d :: d in KINDS && DependsOn(d, k) ==> slots.Get(d).None?
  }

  lemma DropKeepsTracks(script: Script, s: State, k: Kind)
    requires Tracks(s.slots, HardwareAfter(s.log)) && !HardwareAfter(s.log).unretired && Bare(s.slots, k)
    ensures var s' := DropStep(script, s, k);
            && Tracks(s'.slots, HardwareAfter(s'.log)) && !HardwareAfter(s'.log).unretired
            && s'.slots == s.slots.Put(k, None)
            && HardwareAfter(s'.log).posts == HardwareAfter(s.log).posts
            && HardwareAfter(s'.log).untried == HardwareAfter(s.log).untried - {k}
  {
    hide HardwareAfter;
    if s.slots.Get(k).Some? {
      HardwareAsk(script, s.log, Destroy(k, s.slots.Get(k).value));
    } else {
      assert k !in HardwareAfter(s.log).untried;
    }
  }

  lemma FreeKeepsTracks(script: Script, s: State, k: Kind)
    requires Tracks(s.slots, HardwareAfter(s.log)) && !HardwareAfter(s.log).unretired
    requires !s.failed ==> Bare(s.slots, k)
    ensures var s' := FreeStep(script, s, k);
            && Tracks(s'.slots, HardwareAfter(s'.log)) && !HardwareAfter(s'.log).unretired
            && HardwareAfter(s'.log).posts == HardwareAfter(s.log).posts
            && HardwareAfter(s'.log).live.Keys <= HardwareAfter(s.log).live.Keys
            && (!s'.failed ==>
                  && !s.failed && s'.slots == s.slots.Put(k, None)
                  && (s.slots.Get(k).Some? ==> k !in HardwareAfter(s'.log).live))
  {
    hide HardwareAfter;
    if !s.failed && s.slots.Get(k).Some? {
      HardwareAsk(script, s.log, Destroy(k, s.slots.Get(k).value));
    }
  }

  // ---------- the theorems ----------

  /** The fields are filled in acquisition order, so what is held is a prefix of it. */
  predicate InOrder(s: Slots) {
    && (s.mr.Some? ==> s.dmabuf.Some?) && (s.dmabuf.Some? ==> s.qp.Some?) && (s.qp.Some? ==> s.cq.Some?)
    && (s.cq.Some? ==> s.pd.Some?) && (s.pd.Some? ==> s.verbs.Some?) && (s.verbs.Some? ==> s.deviceList.Some?)
  }

  /** The hardware holds exactly what the fields hold, all of it untried, and no READ was posted. */
  ghost predicate Untouched(slots: Slots, h: Hardware) {
    && Tracks(slots, h) && !h.unretired && h.posts == 0
    && (forall k :: k in h.live <==> slots.Get(k).Some?)
    && (forall k :: k in h.untried <==> slots.Get(k).Some?)
  }

  lemma CheckKeepsUntouched(script: Script, s: State)
    requires Untouched(s.slots, HardwareAfter(s.log))
    ensures Untouched(CheckStep(script, s).slots, HardwareAfter(CheckStep(script, s).log))
    ensures CheckStep(script, s).slots == s.slots
  {
    hide HardwareAfter;
    HardwareAsk(script, s.log, Check);
  }

  lemma TakeKeepsUntouched(script: Script, s: State, k: Kind)
    requires Untouched(s.slots, HardwareAfter(s.log)) && (!s.failed ==> s.slots.Get(k).None?)
    ensures var s' := TakeStep(script, s, k);
            && Untouched(s'.slots, HardwareAfter(s'.log))
            && (s'.failed ==> s'.slots == s.slots)
            && (!s'.failed ==> !s.failed && s'.slots.Get(k).Some? && s'.slots == s.slots.Put(k, s'.slots.Get(k)))
  {
    hide HardwareAfter;
    HardwareAsk(script, s.log, Acquire(k));
  }

  /** The fields after some of the acquisitions, in order: a failure leaves a prefix. */
  lemma MakeDeviceHolds(script: Script, s: State)
    requires s.slots == EMPTY && !s.failed && Untouched(s.slots, HardwareAfter(s.log))
    ensures var s' := MakeDevice(script, s);
            && Untouched(s'.slots, HardwareAfter(s'.log)) && InOrder(s'.slots) && s'.slots.cq.None?
            && s'.slots.qp.None? && s'.slots.dmabuf.None? && s'.slots.mr.None?
            && (!s'.failed ==> s'.slots.pd.Some?)
  {
    hide HardwareAfter, CheckStep, TakeStep, Untouched;
    FailureSticks(script);
    CheckKeepsUntouched(script, s);
    TakeKeepsUntouched(script, CheckStep(script, s), DeviceList);
    var s1 := TakeStep(script, CheckStep(script, s), DeviceList);
    CheckKeepsUntouched(script, s1);
    TakeKeepsUntouched(script, CheckStep(script, s1), Verbs);
    var s2 := TakeStep(script, CheckStep(script, s1), Verbs);
    CheckKeepsUntouched(script, s2);
    CheckKeepsUntouched(script, CheckStep(script, s2));
    TakeKeepsUntouched(script, CheckStep(script, CheckStep(script, s2)), Pd);
  }

  lemma MakeQueuesHolds(script: Script, s: State)
    requires Untouched(s.slots, HardwareAfter(s.log)) && InOrder(s.slots) && s.slots.cq.None?
    requires s.slots.qp.None? && s.slots.dmabuf.None? && s.slots.mr.None? && (!s.failed ==> s.slots.pd.Some?)
    ensures var s' := MakeQueues(script, s);
            && Untouched(s'.slots, HardwareAfter(s'.log)) && InOrder(s'.slots)
            && (!s'.failed ==> s'.slots.mr.Some?)
  {
    hide HardwareAfter, CheckStep, TakeStep, Untouched;
    FailureSticks(script);
    TakeKeepsUntouched(script, s, Cq);
    var s1 := TakeStep(script, s, Cq);
    TakeKeepsUntouched(script, s1, Qp);
    var s2 := TakeStep(script, s1, Qp);
    CheckKeepsUntouched(script, s2);
    TakeKeepsUntouched(script, CheckStep(script, s2), DmaBuf);
    var s3 := TakeStep(script, CheckStep(script, s2), DmaBuf);
    CheckKeepsUntouched(script, s3);
    TakeKeepsUntouched(script, CheckStep(script, s3), Mr);
    CheckKeepsUntouched(script, TakeStep(script, CheckStep(script, s3), Mr));
  }

  /** Wherever acquisition stops, the fields hold exactly the resources that exist, a prefix of the order;
      it succeeds only with all seven. */
  lemma MakeHoldsWhatExists(script: Script)
    ensures var made := Make(script, []);
            && Untouched(made.slots, HardwareAfter(made.log)) && InOrder(made.slots)
            && (!made.failed ==> made.slots.mr.Some?)
  {
    hide HardwareAfter, MakeDevice, MakeQueues;
    Pristine();
    MakeDeviceHolds(script, State(EMPTY, [], false));
    MakeQueuesHolds(script, MakeDevice(script, State(EMPTY, [], false)));
  }

  lemma Pristine()
    ensures HardwareAfter([]) == Hardware(map[], {}, 0, false, true)
  {
  }

  /** The destroy calls of a log, with their handles. */
  function Destroyed(log: seq<Event>): multiset<(Kind, int)>
    decreases |log|
  {
    if log == [] then multiset{}
    else Destroyed(log[..|log| - 1]) + DestroyedBy(log[|log| - 1].call)
  }

  function DestroyedBy(call: Call): multiset<(Kind, int)> {
    if call.Destroy? then multiset{(call.kind, call.handle)} else multiset{}
  }

  /** What the fields hold. */
  function Held(s: Slots, k: Kind): multiset<(Kind, int)> {
    if s.Get(k).Some? then multiset{(k, s.Get(k).value)} else multiset{}
  }

  function AllHeld(s: Slots): multiset<(Kind, int)> {
    (Held(s, Qp) + Held(s, Cq) + Held(s, Mr)) + (Held(s, DmaBuf) + Held(s, Pd) + Held(s, Verbs) + Held(s, DeviceList))
  }

  lemma DropDestroys(script: Script, s: State, k: Kind)
    ensures Destroyed(DropStep(script, s, k).log) == Destroyed(s.log) + Held(s.slots, k)
  {
    var log' := DropStep(script, s, k).log;
    if s.slots.Get(k).Some? {
      assert log'[..|log'| - 1] == s.log;
    }
  }

  /** One half of a best-effort cleanup, from `s` to `s'`. */
  ghost predicate Dropped(s: State, s': State, kinds: set<Kind>, held: multiset<(Kind, int)>) {
    var h, h' := HardwareAfter(s.log), HardwareAfter(s'.log);
    && Tracks(s'.slots, h') && !h'.unretired && h'.posts == h.posts && h'.untried == h.untried - kinds
    && Destroyed(s'.log) == Destroyed(s.log) + held
  }

  lemma DropQueuesDestroys(script: Script, s: State)
    requires Tracks(s.slots, HardwareAfter(s.log)) && !HardwareAfter(s.log).unretired
    ensures DropQueues(script, s).slots == s.slots.(qp := None, cq := None, mr := None)
    ensures Dropped(s, DropQueues(script, s), {Qp, Cq, Mr}, Held(s.slots, Qp) + Held(s.slots, Cq) + Held(s.slots, Mr))
  {
    hide HardwareAfter, DropStep, Destroyed, Tracks;
    var s1 := DropStep(script, s, Qp);
    var s2 := DropStep(script, s1, Cq);
    DropKeepsTracks(script, s, Qp);
    DropKeepsTracks(script, s1, Cq);
    DropKeepsTracks(script, s2, Mr);
    DropDestroys(script, s, Qp);
    DropDestroys(script, s1, Cq);
    DropDestroys(script, s2, Mr);
  }

  lemma DropDeviceDestroys(script: Script, s: State)
    requires Tracks(s.slots, HardwareAfter(s.log)) && !HardwareAfter(s.log).unretired
    requires s.slots.qp.None? && s.slots.cq.None? && s.slots.mr.None?
    ensures DropDevice(script, s).slots == EMPTY
    ensures Dropped(s, DropDevice(script, s), {DmaBuf, Pd, Verbs, DeviceList},
                    Held(s.slots, DmaBuf) + Held(s.slots, Pd) + Held(s.slots, Verbs) + Held(s.slots, DeviceList))
  {
    hide HardwareAfter, DropStep, Dropped, Tracks, Destroyed;
    var s1 := DropStep(script, s, DmaBuf);
    var s2 := DropStep(script, s1, Pd);
    var s3 := DropStep(script, s2, Verbs);
    var s4 := DropStep(script, s3, DeviceList);
    DropOne(script, s, DmaBuf);
    DropOne(script, s1, Pd);
    DropOne(script, s2, Verbs);
    DropOne(script, s3, DeviceList);
    assert {DmaBuf} + {Pd} == {DmaBuf, Pd} && {DmaBuf, Pd} + {Verbs} == {DmaBuf, Pd, Verbs};
    assert {DmaBuf, Pd, Verbs} + {DeviceList} == {DmaBuf, Pd, Verbs, DeviceList};
    DroppedTwice(s, s1, s2, {DmaBuf}, {Pd}, Held(s.slots, DmaBuf), Held(s1.slots, Pd));
    DroppedTwice(s, s2, s3, {DmaBuf, Pd}, {Verbs}, Held(s.slots, DmaBuf) + Held(s1.slots, Pd), Held(s2.slots, Verbs));
    DroppedTwice(s, s3, s4, {DmaBuf, Pd, Verbs}, {DeviceList},
                 Held(s.slots, DmaBuf) + Held(s1.slots, Pd) + Held(s2.slots, Verbs), Held(s3.slots, DeviceList));
  }

  lemma DropOne(script: Script, s: State, k: Kind)
    requires Tracks(s.slots, HardwareAfter(s.log)) && !HardwareAfter(s.log).unretired && Bare(s.slots, k)
    ensures var s' := DropStep(script, s, k);
            && s'.slots == s.slots.Put(k, None) && Dropped(s, s', {k}, Held(s.slots, k))
            && Tracks(s'.slots, HardwareAfter(s'.log)) && !HardwareAfter(s'.log).unretired
  {
    hide HardwareAfter, DropStep, Destroyed, Tracks;
    DropKeepsTracks(script, s, k);
    DropDestroys(script, s, k);
  }

  lemma DroppedTwice(a: State, b: State, c: State, k: set<Kind>, k': set<Kind>, held: multiset<(Kind, int)>,
                     held': multiset<(Kind, int)>)
    requires Dropped(a, b, k, held) && Dropped(b, c, k', held')
    ensures Dropped(a, c, k + k', held + held')
  {
    hide HardwareAfter, Destroyed, Tracks;
  }

  /** Best-effort cleanup, from any tracked state with no READ unretired: it empties every field, tries
      each resource the fields held exactly once and nothing else, and every try is in order. */
  lemma BestEffortDestroysHeld(script: Script, s: State)
    requires Tracks(s.slots, HardwareAfter(s.log)) && !HardwareAfter(s.log).unretired
    ensures var s' := BestEffort(script, s);
            && s'.slots == EMPTY
            && Tracks(EMPTY, HardwareAfter(s'.log)) && !HardwareAfter(s'.log).unretired
            && HardwareAfter(s'.log).untried == {}
            && HardwareAfter(s'.log).posts == HardwareAfter(s.log).posts
            && Destroyed(s'.log) == Destroyed(s.log) + AllHeld(s.slots)
  {
    hide HardwareAfter, DropQueues, DropDevice, Destroyed, Tracks;
    DropQueuesDestroys(script, s);
    DropDeviceDestroys(script, DropQueues(script, s));
    NoKindLeft(HardwareAfter(s.log).untried);
  }

  lemma NoKindLeft(kinds: set<Kind>)
    ensures kinds - {Qp, Cq, Mr} - {DmaBuf, Pd, Verbs, DeviceList} == {}
  {
    forall k | k in kinds ensures k in KINDS {
      AllKinds(k);
    }
  }

  lemma AllKinds(k: Kind)
    ensures k in KINDS
  {
  }

  /** One half of a strict cleanup, from `s` to `s'`. */
  ghost predicate Freed(s: State, s': State, kinds: set<Kind>) {
    var h, h' := HardwareAfter(s.log), HardwareAfter(s'.log);
    && Tracks(s'.slots, h') && !h'.unretired && h'.posts == h.posts && h'.live.Keys <= h.live.Keys
    && (!s'.failed ==> !s.failed && forall k :: k in kinds && s.slots.Get(k).Some? ==> k !in h'.live)
  }

  lemma FreeQueuesKeeps(script: Script, s: State)
    requires Tracks(s.slots, HardwareAfter(s.log)) && !HardwareAfter(s.log).unretired
    ensures var s' := FreeQueues(script, s);
            Freed(s, s', {Qp, Cq, Mr}) && (!s'.failed ==> s'.slots == s.slots.(qp := None, cq := None, mr := None))
  {
    hide HardwareAfter, FreeStep, Tracks;
    var s1 := FreeStep(script, s, Qp);
    FreeKeepsTracks(script, s, Qp);
    FreeKeepsTracks(script, s1, Cq);
    FreeKeepsTracks(script, FreeStep(script, s1, Cq), Mr);
  }

  lemma FreeDeviceKeeps(script: Script, s: State)
    requires Tracks(s.slots, HardwareAfter(s.log)) && !HardwareAfter(s.log).unretired
    requires !s.failed ==> s.slots.qp.None? && s.slots.cq.None? && s.slots.mr.None?
    ensures var s' := FreeDevice(script, s);
            Freed(s, s', {DmaBuf, Pd, Verbs, DeviceList}) && (!s'.failed ==> s'.slots == EMPTY)
  {
    hide HardwareAfter, FreeStep, Tracks;
    var s1 := FreeStep(script, s, DmaBuf);
    var s2 := FreeStep(script, s1, Pd);
    FreeKeepsTracks(script, s, DmaBuf);
    FreeKeepsTracks(script, s1, Pd);
    FreeKeepsTracks(script, s2, Verbs);
    FreeKeepsTracks(script, FreeStep(script, s2, Verbs), DeviceList);
  }

  /** Strict cleanup keeps the fields true to the hardware wherever it stops, and exactly so when they were
      exact before; if it does not stop it has emptied every field and freed everything it held. */
  lemma StrictKeepsTracks(script: Script, s: State)
    requires Tracks(s.slots, HardwareAfter(s.log)) && !HardwareAfter(s.log).unretired
    ensures var s' := Strict(script, s);
            && Tracks(s'.slots, HardwareAfter(s'.log)) && !HardwareAfter(s'.log).unretired
            && HardwareAfter(s'.log).posts == HardwareAfter(s.log).posts
            && (!s'.failed ==>
                  && s'.slots == EMPTY
                  && forall k :: s.slots.Get(k).Some? ==> k !in HardwareAfter(s'.log).live)
    ensures StrictSound(s) ==> StrictSound(Strict(script, s))
  {
    hide HardwareAfter, FreeQueues, FreeDevice, Tracks, StrictSound;
    if StrictSound(s) {
      StrictFreesExactly(script, s);
    }
    var s0 := s.(failed := false);
    FreeQueuesKeeps(script, s0);
    FreeDeviceKeeps(script, FreeQueues(script, s0));
    forall k | s.slots.Get(k).Some? && !Strict(script, s).failed
      ensures k !in HardwareAfter(Strict(script, s).log).live
    {
      AllKinds(k);
    }
  }

  datatype Cleanup = BestEffortCleanup | StrictCleanup

  function Clean(script: Script, s: State, cleanups: seq<Cleanup>): State
    decreases |cleanups|
  {
    if cleanups == [] then s
    else Clean(script, if cleanups[0].StrictCleanup? then Strict(script, s) else BestEffort(script, s), cleanups[1..])
  }

  /** Whatever acquisition reached and whatever cleanups follow, strict or best effort, in any number and
      with any failures, every destroy call was in order: on a resource that existed, under its own handle,
      after everything built on it. */
  lemma {:induction false} CleanupsStayOrdered(script: Script, s: State, cleanups: seq<Cleanup>)
    requires Tracks(s.slots, HardwareAfter(s.log)) && !HardwareAfter(s.log).unretired
    ensures var s' := Clean(script, s, cleanups);
            Tracks(s'.slots, HardwareAfter(s'.log)) && !HardwareAfter(s'.log).unretired
    decreases |cleanups|
  {
    hide Strict, BestEffort, HardwareAfter;
    if cleanups != [] {
      if cleanups[0].StrictCleanup? {
        StrictKeepsTracks(script, s);
        CleanupsStayOrdered(script, Strict(script, s), cleanups[1..]);
      } else {
        BestEffortDestroysHeld(script, s);
        CleanupsStayOrdered(script, BestEffort(script, s), cleanups[1..]);
      }
    }
  }

  /** One of the cleanups is best effort, or a strict one that runs through. */
  predicate RunsThrough(script: Script, s: State, cleanups: seq<Cleanup>)
    decreases |cleanups|
  {
    && cleanups != []
    && (|| cleanups[0].BestEffortCleanup? || !Strict(script, s).failed
        || RunsThrough(script, Strict(script, s), cleanups[1..]))
  }

  /** After such a one no field holds anything, and no later cleanup changes that. */
  lemma {:induction false} RunThroughEmpties(script: Script, s: State, cleanups: seq<Cleanup>)
    requires Tracks(s.slots, HardwareAfter(s.log)) && !HardwareAfter(s.log).unretired
    requires s.slots == EMPTY || RunsThrough(script, s, cleanups)
    ensures Clean(script, s, cleanups).slots == EMPTY
    decreases |cleanups|
  {
    hide HardwareAfter, Tracks;
    if cleanups != [] {
      StrictKeepsTracks(script, s);
      BestEffortDestroysHeld(script, s);
      if s.slots == EMPTY {
        NothingToFree(script, s);
      }
      hide Strict, BestEffort;
      var next := if cleanups[0].StrictCleanup? then Strict(script, s) else BestEffort(script, s);
      RunThroughEmpties(script, next, cleanups[1..]);
    }
  }

  lemma NothingToFree(script: Script, s: State)
    requires s.slots == EMPTY
    ensures !Strict(script, s).failed
  {
  }

  /** The failure point anywhere, then any cleanups: every destroy in order; and if one of the cleanups was
      best effort or a strict one that ran through, nothing acquired is left untried. A best-effort cleanup
      alone destroys exactly what was acquired, each once. */
  lemma MakeThenClean(script: Script, cleanups: seq<Cleanup>)
    ensures var h := HardwareAfter(Clean(script, Make(script, []), cleanups).log);
            h.ordered && (RunsThrough(script, Make(script, []), cleanups) ==> h.untried == {})
    ensures Destroyed(BestEffort(script, Make(script, [])).log) == AllHeld(Make(script, []).slots)
  {
    hide HardwareAfter, Clean, BestEffort, Make, RunsThrough, AllHeld;
    var made := Make(script, []);
    MakeHoldsWhatExists(script);
    CleanupsStayOrdered(script, made, cleanups);
    assert Destroyed(BestEffort(script, made).log) == AllHeld(made.slots) by {
      BestEffortDestroysHeld(script, made);
      MakeDestroysNothing(script);
    }
    if RunsThrough(script, made, cleanups) {
      RunThroughEmpties(script, made, cleanups);
      EmptyTracks(HardwareAfter(Clean(script, made, cleanups).log));
    }
  }

  lemma EmptyTracks(h: Hardware)
    requires Tracks(EMPTY, h)
    ensures h.untried == {}
  {
    forall k | k in h.untried ensures false {
      AllKinds(k);
    }
  }

  // ---------- what strict teardown adds ----------

  /** What exists is what the fields hold. */
  ghost predicate Exact(slots: Slots, h: Hardware) {
    forall k :: k in h.live <==> slots.Get(k).Some?
  }

  /** Every destroy hit a resource with nothing built on it still in existence, tried or not. */
  ghost predicate NeverUnderLive(log: seq<Event>)
    decreases |log|
  {
    log == [] ||
    (&& NeverUnderLive(log[..|log| - 1])
     && (log[|log| - 1].call.Destroy? ==>
           forall d :: d in KINDS && DependsOn(d, log[|log| - 1].call.kind) ==>
                         d !in HardwareAfter(log[..|log| - 1]).live))
  }

  ghost predicate StrictSound(s: State) {
    && Tracks(s.slots, HardwareAfter(s.log)) && Exact(s.slots, HardwareAfter(s.log)) && NeverUnderLive(s.log)
    && !HardwareAfter(s.log).unretired
  }

  lemma FreeKeepsStrict(script: Script, s: State, k: Kind)
    requires StrictSound(s) && (!s.failed ==> Bare(s.slots, k))
    ensures var s' := FreeStep(script, s, k);
            StrictSound(s') && (!s'.failed ==> !s.failed && s'.slots == s.slots.Put(k, None))
  {
    FreeKeepsTracks(script, s, k);
    if !s.failed && s.slots.Get(k).Some? {
      var call := Destroy(k, s.slots.Get(k).value);
      var log := Ask(script, s.log, call);
      assert log[..|log| - 1] == s.log;
      hide HardwareAfter;
      HardwareAsk(script, s.log, call);
    }
  }

  lemma FreeQueuesKeepStrict(script: Script, s: State)
    requires StrictSound(s)
    ensures var s' := FreeQueues(script, s);
            StrictSound(s') && (!s'.failed ==> !s.failed && s'.slots == s.slots.(qp := None, cq := None, mr := None))
  {
    hide StrictSound, FreeStep;
    var s1 := FreeStep(script, s, Qp);
    FreeKeepsStrict(script, s, Qp);
    FreeKeepsStrict(script, s1, Cq);
    FreeKeepsStrict(script, FreeStep(script, s1, Cq), Mr);
  }

  lemma FreeDeviceKeepsStrict(script: Script, s: State)
    requires StrictSound(s) && (!s.failed ==> s.slots.qp.None? && s.slots.cq.None? && s.slots.mr.None?)
    ensures StrictSound(FreeDevice(script, s))
  {
    hide StrictSound, FreeStep;
    var s1 := FreeStep(script, s, DmaBuf);
    var s2 := FreeStep(script, s1, Pd);
    FreeKeepsStrict(script, s, DmaBuf);
    FreeKeepsStrict(script, s1, Pd);
    FreeKeepsStrict(script, s2, Verbs);
    FreeKeepsStrict(script, FreeStep(script, s2, Verbs), DeviceList);
  }

  /** Wherever strict cleanup stops, what still exists is exactly what the fields still hold, and nothing was
      destroyed while anything built on it existed. */
  lemma StrictFreesExactly(script: Script, s: State)
    requires StrictSound(s)
    ensures StrictSound(Strict(script, s))
  {
    hide FreeQueues, FreeDevice;
    FreeQueuesKeepStrict(script, s.(failed := false));
    FreeDeviceKeepsStrict(script, FreeQueues(script, s.(failed := false)));
  }

  /** So after any acquisition and any number of strict cleanups, each stopping wherever it does, the fields
      and the hardware agree; one that runs through leaves nothing in existence. */
  lemma {:induction false} StrictAfterMake(script: Script, n: nat)
    ensures var s := Stricts(script, Make(script, []), n);
            StrictSound(s) && (n > 0 && !s.failed ==> HardwareAfter(s.log).live == map[])
  {
    hide HardwareAfter, Make, Strict, Tracks, NeverUnderLive;
    if n == 0 {
      MakeHoldsWhatExists(script);
      MakeDestroysNothing(script);
      NoDestroys(Make(script, []).log);
    } else {
      var before := Stricts(script, Make(script, []), n - 1);
      StrictAfterMake(script, n - 1);
      StrictFreesExactly(script, before);
      StrictKeepsTracks(script, before);
    }
  }

  /** The state after `n` strict cleanups. */
  function Stricts(script: Script, s: State, n: nat): State {
    if n == 0 then s else Strict(script, Stricts(script, s, n - 1))
  }

  lemma {:induction false} NoDestroys(log: seq<Event>)
    requires Destroyed(log) == multiset{}
    ensures NeverUnderLive(log)
    decreases |log|
  {
    if log != [] {
      LastCounts(log);
      NoDestroys(log[..|log| - 1]);
    }
  }

  lemma LastCounts(log: seq<Event>)
    ensures log != [] ==> Destroyed(log[..|log| - 1]) <= Destroyed(log)
    ensures log != [] && log[|log| - 1].call.Destroy? ==> Destroyed(log) != multiset{}
  {
    if log != [] && log[|log| - 1].call.Destroy? {
      var call := log[|log| - 1].call;
      assert (call.kind, call.handle) in DestroyedBy(call);
      assert (call.kind, call.handle) in Destroyed(log);
    }
  }

  lemma StepDestroysNothing(script: Script, s: State, k: Kind)
    ensures Destroyed(CheckStep(script, s).log) == Destroyed(s.log)
    ensures Destroyed(TakeStep(script, s, k).log) == Destroyed(s.log)
  {
    var a, b := Ask(script, s.log, Check), Ask(script, s.log, Acquire(k));
    assert a[..|a| - 1] == s.log && b[..|b| - 1] == s.log;
  }

  lemma MakeDestroysNothing(script: Script)
    ensures Destroyed(Make(script, []).log) == multiset{}
  {
    StepsDestroyNothing(script);
    hide CheckStep, TakeStep, Destroyed;
    assert Destroyed([]) == multiset{} by { NothingDestroyed(); }
  }

  lemma NothingDestroyed()
    ensures Destroyed([]) == multiset{}
  {
  }

  lemma StepsDestroyNothing(script: Script)
    ensures forall s :: Destroyed(CheckStep(script, s).log) == Destroyed(s.log)
    ensures forall s, k :: Destroyed(TakeStep(script, s, k).log) == Destroyed(s.log)
  {
    forall s ensures Destroyed(CheckStep(script, s).log) == Destroyed(s.log) {
      StepDestroysNothing(script, s, Qp);
    }
    forall s, k ensures Destroyed(TakeStep(script, s, k).log) == Destroyed(s.log) {
      StepDestroysNothing(script, s, k);
    }
  }

  /** In an ordered log a freed resource is not destroyed again unless it was acquired again. */
  lemma {:induction false} FreedOnce(log: seq<Event>, i: nat, j: nat, k: Kind)
    requires HardwareAfter(log).ordered && i < j < |log|
    requires log[i].call.Destroy? && log[i].call.kind == k && (log[i].reply.value == 0 || k == DeviceList)
    requires log[j].call.Destroy? && log[j].call.kind == k
    ensures exists n :: i < n < j && log[n].call == Acquire(k)
  {
    OrderedPrefix(log, j + 1);
    assert log[..j + 1][..j] == log[..j];
    if forall n :: i < n < j ==> log[n].call != Acquire(k) {
      GoneUntilAcquired(log, i, j, k);
    }
  }

  lemma {:induction false} OrderedPrefix(log: seq<Event>, n: nat)
    requires HardwareAfter(log).ordered && n <= |log|
    ensures HardwareAfter(log[..n]).ordered
    decreases |log|
  {
    if n == |log| {
      assert log[..n] == log;
    } else {
      OrderedPrefix(log[..|log| - 1], n);
      assert log[..|log| - 1][..n] == log[..n];
    }
  }

  lemma {:induction false} GoneUntilAcquired(log: seq<Event>, i: nat, j: nat, k: Kind)
    requires i < j <= |log|
    requires log[i].call.Destroy? && log[i].call.kind == k && (log[i].reply.value == 0 || k == DeviceList)
    requires forall n :: i < n < j ==> log[n].call != Acquire(k)
    ensures k !in HardwareAfter(log[..j]).live
    decreases j
  {
    assert log[..j][..j - 1] == log[..j - 1];
    if j > i + 1 {
      GoneUntilAcquired(log, i, j - 1, k);
    }
  }
}
