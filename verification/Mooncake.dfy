/** One Mooncake transfer over a registered slab (native/spd-gdr/src/spd_gdr.cpp): its range guard, its
    polling over any sequence of statuses, and what becomes of the batch and of the context's flags. */
module Mooncake {
  import opened Words

  const MAX_U64: U64 := 0xffff_ffff_ffff_ffff

  /** Unsigned subtraction as the processor does it. */
  function Sub(a: U64, b: U64): U64 {
    (a as int - b as int) % 0x1_0000_0000_0000_0000
  }

  // ---------- the range guard ----------

  /** The length a call asks for: zero stands for the whole slab. */
  function Asked(slab: U64, bytes: U64): U64 {
    if bytes == 0 then slab else bytes
  }

  /** The guard, in its own unsigned arithmetic and order. */
  predicate RangeRefused(slab: U64, localOffset: U64, remoteOffset: U64, bytes: U64) {
    || bytes == 0 || localOffset > slab || bytes > Sub(slab, localOffset)
    || remoteOffset > slab || bytes > Sub(slab, remoteOffset)
  }

  /** It lets through exactly the non-empty ranges that lie in the slab on both sides, whatever wraps. */
  lemma RangeGuardExact(slab: U64, localOffset: U64, remoteOffset: U64, bytes: U64)
    ensures !RangeRefused(slab, localOffset, remoteOffset, bytes)
       <==> bytes > 0 && localOffset as int + bytes <= slab && remoteOffset as int + bytes <= slab
  {
  }

  // ---------- the world ----------

  datatype Status = Waiting | Pending | Completed | Invalid | Canceled | Failed | TimedOut

  /** One turn of the polling loop: the query's success, what it reported, and the time since submission. */
  datatype Poll = Poll(queryOk: bool, status: Status, transferred: U64, elapsed: nat)

  /** How the engine answers one call: whether the target is the one exact buffer and where it lies, whether
      a batch is allocated, submitted, and in the end freed, and the polls. */
  datatype Engine = Engine(targetOk: bool, address: U64, allocateOk: bool, submitOk: bool, polls: nat -> Poll,
                           freeOk: bool)

  datatype Request = Request(nameGiven: bool, timeoutMs: U64, outputsGiven: bool, localOffset: U64, remoteOffset: U64,
                             bytes: U64)

  datatype Answer = Code(code: int) | Polling

  // ---------- the polling loop ----------

  datatype Ending = Exact | QueryFailed | TooManyBytes | BadStatus | Expired

  /** What one poll decides, if anything. */
  function Decision(p: Poll, bytes: U64, timeoutNs: nat): (d: seq<Ending>)
    ensures |d| <= 1
  {
    if !p.queryOk then [QueryFailed]
    else if p.status.Completed? && p.transferred == bytes then [Exact]
    else if p.status.Completed? && p.transferred > bytes then [TooManyBytes]
    else if !p.status.Waiting? && !p.status.Pending? && !p.status.Completed? then [BadStatus]
    else if p.elapsed >= timeoutNs then [Expired]
    else []
  }

  /** The first deciding poll among the next `patience`, or none of them. */
  function FirstDecision(polls: nat -> Poll, from: nat, bytes: U64, timeoutNs: nat, patience: nat): (d: seq<Ending>)
    ensures |d| <= 1
    decreases patience
  {
    if patience == 0 then []
    else if Decision(polls(from), bytes, timeoutNs) != [] then Decision(polls(from), bytes, timeoutNs)
    else FirstDecision(polls, from + 1, bytes, timeoutNs, patience - 1)
  }

  /** The loop ends on a poll and no earlier one decided; it ends exact only on COMPLETED with the exact
      count, and a completed status with a short count only ever waits or expires. */
  lemma {:induction false} FirstDecisionIsFirst(polls: nat -> Poll, from: nat, bytes: U64, timeoutNs: nat,
                                                patience: nat)
    ensures var d := FirstDecision(polls, from, bytes, timeoutNs, patience);
            && (d == [] ==> forall i :: from <= i < from + patience ==> Decision(polls(i), bytes, timeoutNs) == [])
            && (d != [] ==> exists k :: from <= k < from + patience && Decision(polls(k), bytes, timeoutNs) == d
                                        && forall i :: from <= i < k ==> Decision(polls(i), bytes, timeoutNs) == [])
    decreases patience
  {
    hide Decision;
    if patience > 0 && Decision(polls(from), bytes, timeoutNs) == [] {
      FirstDecisionIsFirst(polls, from + 1, bytes, timeoutNs, patience - 1);
    }
  }

  // ---------- the polls, by what they report ----------

  /** A poll after which the loop goes on: nothing final, or COMPLETED short of the count, and in time. */
  predicate Waits(p: Poll, bytes: U64, timeoutNs: nat) {
    && p.queryOk && p.elapsed < timeoutNs
    && (p.status == Waiting || p.status == Pending || (p.status == Completed && p.transferred < bytes))
  }

  /** How a poll ends the loop. Time decides only where neither the query, the count nor the status does. */
  predicate EndsAs(p: Poll, bytes: U64, timeoutNs: nat, end: Ending) {
    match end
    case QueryFailed => !p.queryOk
    case Exact => p.queryOk && p.status == Completed && p.transferred == bytes
    case TooManyBytes => p.queryOk && p.status == Completed && p.transferred > bytes
    case BadStatus => p.queryOk && p.status in {Invalid, Canceled, Failed, TimedOut}
    case Expired =>
      && p.queryOk && p.elapsed >= timeoutNs
      && (p.status == Waiting || p.status == Pending || (p.status == Completed && p.transferred < bytes))
  }

  /** The first `k` polls wait. */
  predicate WaitsUntil(polls: nat -> Poll, k: nat, bytes: U64, timeoutNs: nat) {
    forall i: nat :: i < k ==> Waits(polls(i), bytes, timeoutNs)
  }

  /** The first poll not to wait is the `k`-th, and ends the loop so. */
  predicate StopsAt(polls: nat -> Poll, k: nat, bytes: U64, timeoutNs: nat, end: Ending) {
    WaitsUntil(polls, k, bytes, timeoutNs) && EndsAs(polls(k), bytes, timeoutNs, end)
  }

  predicate StopsWithin(polls: nat -> Poll, patience: nat, bytes: U64, timeoutNs: nat, end: Ending) {
    exists k: nat :: k < patience && StopsAt(polls, k, bytes, timeoutNs, end)
  }

  /** How the loop ends, over the polls. */
  predicate LoopMeans(polls: nat -> Poll, patience: nat, bytes: U64, timeoutNs: nat, end: seq<Ending>) {
    && |end| <= 1
    && (end == [] <==> WaitsUntil(polls, patience, bytes, timeoutNs))
    && forall e: Ending :: end == [e] <==> StopsWithin(polls, patience, bytes, timeoutNs, e)
  }

  lemma OnePoll(p: Poll, bytes: U64, timeoutNs: nat)
    ensures Decision(p, bytes, timeoutNs) == [] <==> Waits(p, bytes, timeoutNs)
    ensures forall e: Ending :: Decision(p, bytes, timeoutNs) == [e] <==> EndsAs(p, bytes, timeoutNs, e)
  {
  }

  lemma LoopExactly(polls: nat -> Poll, patience: nat, bytes: U64, timeoutNs: nat)
    ensures LoopMeans(polls, patience, bytes, timeoutNs, FirstDecision(polls, 0, bytes, timeoutNs, patience))
  {
    hide FirstDecision, Decision, Waits, EndsAs;
    FirstDecisionIsFirst(polls, 0, bytes, timeoutNs, patience);
    var end := FirstDecision(polls, 0, bytes, timeoutNs, patience);
    forall p: Poll
      ensures Decision(p, bytes, timeoutNs) == [] <==> Waits(p, bytes, timeoutNs)
      ensures forall e: Ending :: Decision(p, bytes, timeoutNs) == [e] <==> EndsAs(p, bytes, timeoutNs, e)
    {
      OnePoll(p, bytes, timeoutNs);
    }
    if end != [] {
      var k: nat :| k < patience && Decision(polls(k), bytes, timeoutNs) == end
                    && forall i: nat :: i < k ==> Decision(polls(i), bytes, timeoutNs) == [];
      assert StopsAt(polls, k, bytes, timeoutNs, end[0]);
      forall e: Ending, j: nat | j < patience && StopsAt(polls, j, bytes, timeoutNs, e) ensures end == [e] {
        assert j < k ==> Waits(polls(j), bytes, timeoutNs);
        assert k < j ==> Waits(polls(k), bytes, timeoutNs);
      }
    } else {
      forall e: Ending, j: nat | j < patience ensures !StopsAt(polls, j, bytes, timeoutNs, e) {
        assert Decision(polls(j), bytes, timeoutNs) != [e];
      }
    }
  }

  // ---------- the context ----------

  /** A context as a value, with the batches allocated and the frees tried so far. */
  datatype Slab = Slab(usable: bool, poisoned: bool, active: bool, bytes: U64, batches: nat, frees: nat)

  datatype Step = Step(slab: Slab, answer: Answer)

  function Refuse(g: Slab): Step {
    Step(g, Code(if g.poisoned then -2 else -1))
  }

  /** Everything checked before a batch is asked for. */
  predicate Admitted(g: Slab, r: Request, e: Engine) {
    && g.usable && !g.poisoned && !g.active && r.nameGiven && 0 < r.timeoutMs <= 600000 && r.outputsGiven
    && !RangeRefused(g.bytes, r.localOffset, r.remoteOffset, Asked(g.bytes, r.bytes))
    && e.targetOk
  }

  predicate AddressOverflows(r: Request, e: Engine) {
    e.address > Sub(MAX_U64, r.remoteOffset)
  }

  /** The transfer gets as far as its submission. */
  predicate Submits(g: Slab, r: Request, e: Engine) {
    Admitted(g, r, e) && e.allocateOk && !AddressOverflows(r, e)
  }

  /** How a submitted transfer ends: the failed submission counts as an ending of its own. */
  function Ended(g: Slab, r: Request, e: Engine, patience: nat): seq<Ending> {
    if !e.submitOk then [QueryFailed]
    else FirstDecision(e.polls, 0, Asked(g.bytes, r.bytes), r.timeoutMs * 1000000, patience)
  }

  /** A call on a slab, stated by its outcome. */
  function Transfer(g: Slab, r: Request, e: Engine, patience: nat): Step {
    if !Admitted(g, r, e) || !e.allocateOk then Refuse(g)
    else
      var g1 := g.(batches := g.batches + 1);
      if AddressOverflows(r, e) then Refuse(g1)
      else
        var end := Ended(g, r, e, patience);
        if end == [] then Step(g1.(active := true), Polling)
        else
          var g2 := g1.(frees := g.frees + 1, active := false, poisoned := !e.freeOk);
          if end == [Exact] && e.freeOk then Step(g2, Code(0)) else Refuse(g2)
  }

  /** The call may ask for a batch: the context is free, the arguments are given and in range, and the target is
      found. */
  predicate MayAllocate(g: Slab, r: Request, e: Engine) {
    var n: int := if r.bytes == 0 then g.bytes else r.bytes;
    && g.usable && !g.poisoned && !g.active && r.nameGiven && 1 <= r.timeoutMs <= 600000 && r.outputsGiven
    && n > 0 && r.localOffset + n <= g.bytes && r.remoteOffset + n <= g.bytes && e.targetOk
  }

  /** What a transfer answers and leaves, by its arguments, its context, the engine's answers and the polls alone. */
  predicate TransferMeans(g: Slab, r: Request, e: Engine, patience: nat, g': Slab, answer: Answer) {
    var n, ns := if r.bytes == 0 then g.bytes else r.bytes, r.timeoutMs * 1000000;
    var got := MayAllocate(g, r, e) && e.allocateOk;
    var fits := e.address as int + r.remoteOffset < 0x1_0000_0000_0000_0000;
    var open := got && fits && e.submitOk && WaitsUntil(e.polls, patience, n, ns);
    && (answer == Code(0) <==> got && fits && e.submitOk && e.freeOk && StopsWithin(e.polls, patience, n, ns, Exact))
    && (answer == Polling <==> open)
    && answer in {Polling, Code(0), Code(if g'.poisoned then -2 else -1)}
    && g' == if !got then g
             else if !fits then g.(batches := g.batches + 1)
             else if open then g.(batches := g.batches + 1, active := true)
             else g.(batches := g.batches + 1, frees := g.frees + 1, poisoned := !e.freeOk)
  }

  lemma AdmittedExactly(g: Slab, r: Request, e: Engine)
    ensures Admitted(g, r, e) <==> MayAllocate(g, r, e)
    ensures Admitted(g, r, e) ==> !g.poisoned && !g.active
    ensures AddressOverflows(r, e) <==> e.address as int + r.remoteOffset >= 0x1_0000_0000_0000_0000
  {
    RangeGuardExact(g.bytes, r.localOffset, r.remoteOffset, Asked(g.bytes, r.bytes));
  }

  lemma TransferExactly(g: Slab, r: Request, e: Engine, patience: nat)
    ensures var s := Transfer(g, r, e, patience); TransferMeans(g, r, e, patience, s.slab, s.answer)
  {
    hide FirstDecision, Admitted, MayAllocate, AddressOverflows, WaitsUntil, StopsWithin;
    AdmittedExactly(g, r, e);
    LoopExactly(e.polls, patience, Asked(g.bytes, r.bytes), r.timeoutMs * 1000000);
  }

  class Context {
    const bytes: U64
    var usable: bool
    var poisoned: bool
    var active: bool
    var batches: nat
    var frees: nat

    constructor (bytes: U64)
      ensures View() == Slab(true, false, false, bytes, 0, 0)
    {
      this.bytes := bytes;
      usable, poisoned, active, batches, frees := true, false, false, 0, 0;
    }

    function View(): Slab
      reads this
    {
      Slab(usable, poisoned, active, bytes, batches, frees)
    }

    /** Free the batch, clear the flag, and poison the context if the free failed. */
    method Release(e: Engine)
      modifies this
      ensures View() == old(View()).(frees := old(frees) + 1, active := false, poisoned := old(poisoned) || !e.freeOk)
    {
      frees := frees + 1;
      active := false;
      if !e.freeOk {
        poisoned := true;
      }
    }

    /** The polling loop, observed for `patience` polls. */
    method Await(e: Engine, asked: U64, timeoutNs: nat, patience: nat) returns (end: seq<Ending>)
      ensures end == FirstDecision(e.polls, 0, asked, timeoutNs, patience)
      ensures LoopMeans(e.polls, patience, asked, timeoutNs, end)
    {
      hide LoopMeans;
      LoopExactly(e.polls, patience, asked, timeoutNs);
      for i := 0 to patience
        invariant FirstDecision(e.polls, 0, asked, timeoutNs, patience)
               == FirstDecision(e.polls, i, asked, timeoutNs, patience - i)
      {
        var p := e.polls(i);
        if !p.queryOk {
          return [QueryFailed];
        }
        if p.status.Completed? && p.transferred == asked {
          return [Exact];
        }
        if p.status.Completed? && p.transferred > asked {
          return [TooManyBytes];
        }
        if !p.status.Waiting? && !p.status.Pending? && !p.status.Completed? {
          return [BadStatus];
        }
        if p.elapsed >= timeoutNs {
          return [Expired];
        }
      }
      end := [];
    }

    /** transfer_one */
    method TransferOne(r: Request, e: Engine, patience: nat) returns (answer: Answer)
      modifies this
      ensures Step(View(), answer) == Transfer(old(View()), r, e, patience)
      ensures TransferMeans(old(View()), r, e, patience, View(), answer)
    {
      hide FirstDecision, RangeRefused, TransferMeans;
      TransferExactly(View(), r, e, patience);
      if !usable || poisoned || active || !r.nameGiven || r.timeoutMs == 0 || r.timeoutMs > 600000 || !r.outputsGiven {
        return Code(if poisoned then -2 else -1);
      }
      var asked := if r.bytes == 0 then bytes else r.bytes;
      if RangeRefused(bytes, r.localOffset, r.remoteOffset, asked) || !e.targetOk || !e.allocateOk {
        return Code(if poisoned then -2 else -1);
      }
      batches := batches + 1;
      if e.address > Sub(MAX_U64, r.remoteOffset) {
        return Code(if poisoned then -2 else -1);
      }
      active := true;
      var end := [QueryFailed];
      if e.submitOk {
        end := Await(e, asked, r.timeoutMs * 1000000, patience);
      }
      if end == [] {
        return Polling;
      }
      Release(e);
      answer := Code(if poisoned then -2 else if end == [Exact] then 0 else -1);
    }
  }

  // ---------- what a call promises ----------

  /** For every engine and status sequence. Zero only for a range inside the slab whose last poll was
      COMPLETED with exactly the bytes asked for. Once submitted, every return has freed the batch once and
      cleared the flag; before that nothing changed but a batch left over by the overflow exit. A context
      entered unpoisoned answers -2 exactly when its free failed. */
  lemma TransferPromises(g: Slab, r: Request, e: Engine, patience: nat)
    ensures var s := Transfer(g, r, e, patience);
            && (s.answer == Code(0) ==>
                  && r.localOffset as int + Asked(g.bytes, r.bytes) <= g.bytes
                  && r.remoteOffset as int + Asked(g.bytes, r.bytes) <= g.bytes
                  && exists k :: 0 <= k < patience && e.polls(k).queryOk && e.polls(k).status.Completed?
                                 && e.polls(k).transferred == Asked(g.bytes, r.bytes))
            && (Submits(g, r, e) && s.answer.Code? ==> s.slab.frees == g.frees + 1 && !s.slab.active)
            && (!Submits(g, r, e) ==> s.answer.Code? && s.slab == g.(batches := s.slab.batches))
            && (s.answer.Code? ==>
                  (s.slab.batches - s.slab.frees == g.batches - g.frees + 1
                   <==> Admitted(g, r, e) && e.allocateOk && AddressOverflows(r, e)))
            && (!g.poisoned && s.answer.Code? ==> (s.answer.code == -2 <==> Submits(g, r, e) && !e.freeOk))
  {
    hide FirstDecision, RangeRefused, Decision;
    RangeGuardExact(g.bytes, r.localOffset, r.remoteOffset, Asked(g.bytes, r.bytes));
    if Transfer(g, r, e, patience).answer == Code(0) {
      FirstDecisionIsFirst(e.polls, 0, Asked(g.bytes, r.bytes), r.timeoutMs * 1000000, patience);
      var k :| 0 <= k < patience && Decision(e.polls(k), Asked(g.bytes, r.bytes), r.timeoutMs * 1000000) == [Exact];
      ExactPoll(e.polls(k), Asked(g.bytes, r.bytes), r.timeoutMs * 1000000);
    }
  }

  lemma ExactPoll(p: Poll, bytes: U64, timeoutNs: nat)
    ensures Decision(p, bytes, timeoutNs) == [Exact] <==> p.queryOk && p.status.Completed? && p.transferred == bytes
  {
  }

  // ---------- over every run ----------

  datatype Act = Act(request: Request, engine: Engine, patience: nat)

  function TransferAll(g: Slab, acts: seq<Act>): Slab
    decreases |acts|
  {
    if acts == [] then g
    else
      var s := Transfer(g, acts[0].request, acts[0].engine, acts[0].patience);
      if s.answer.Polling? then s.slab else TransferAll(s.slab, acts[1..])
  }

  /** The calls of a run that left through the address-overflow exit. */
  function OverflowExits(g: Slab, acts: seq<Act>): nat
    decreases |acts|
  {
    if acts == [] then 0
    else
      var r, e := acts[0].request, acts[0].engine;
      var s := Transfer(g, r, e, acts[0].patience);
      (if Admitted(g, r, e) && e.allocateOk && AddressOverflows(r, e) then 1 else 0)
      + if s.answer.Polling? then 0 else OverflowExits(s.slab, acts[1..])
  }

  /** Over any run of transfers on a slab the unfreed batches grow by exactly the overflow exits, and by one
      more while a call is still polling; and a poisoned slab is left as it is by every later call. */
  lemma {:induction false} RunInvariant(g: Slab, acts: seq<Act>)
    requires !g.active
    ensures var g' := TransferAll(g, acts);
            && g'.batches - g'.frees == g.batches - g.frees + OverflowExits(g, acts) + (if g'.active then 1 else 0)
            && g'.bytes == g.bytes && (g.poisoned ==> g' == g)
    decreases |acts|
  {
    hide Ended, RangeRefused;
    if acts != [] {
      var s := Transfer(g, acts[0].request, acts[0].engine, acts[0].patience);
      if s.answer.Code? {
        RunInvariant(s.slab, acts[1..]);
      }
    }
  }

  /** A call that leaves a batch behind: the second byte of a buffer at the top of the address space. */
  lemma OverflowLeaves(g: Slab, polls: nat -> Poll, patience: nat)
    requires g.usable && !g.poisoned && !g.active && g.bytes >= 2
    ensures Transfer(g, Request(true, 1, true, 0, 1, 1), Engine(true, MAX_U64, true, true, polls, true), patience)
         == Step(g.(batches := g.batches + 1), Code(-1))
  {
    RangeGuardExact(g.bytes, 0, 1, 1);
  }
}
