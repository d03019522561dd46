/** The one-shot exchange between a GDR source thread and a target's read (native/spd-gdr/src/spd_gdr.cpp):
    the control-socket loops, then the two parties as one state machine over every interleaving, every
    fragmentation of the two byte streams, and a failure possible at every step. */
module Handshake {
  import opened NativeWire
  import opened Words
  import opened Wrappers

  // ---------- the control-socket loops ----------

  /** What send, recv or the wait behind them answers: some bytes moved, interrupted, not ready and the wait
      then succeeded, not ready and the stop flag was seen, or an error (a deadline, a closed peer). */
  datatype Answer = Bytes(n: nat) | Interrupted | Ready | StopSeen | Error

  /** How a loop ends; OutOfAnswers when it is still going after all the answers given. */
  datatype Ending = Complete | Stopped | Broken | OutOfAnswers

  function Least(a: nat, b: nat): nat {
    if a <= b then a else b
  }

  /** The bytes the answers from one to another offer to move. */
  function Offered(answers: seq<Answer>, from: nat, to: nat): nat
    requires from <= to <= |answers|
  {
    if from == to then 0
    else Offered(answers, from, to - 1) + if answers[to - 1].Bytes? then answers[to - 1].n else 0
  }

  /** The bytes a loop has moved by then, with `left` to go at first of which `here` will ever move. */
  function Counted(answers: seq<Answer>, from: nat, to: nat, left: nat, here: nat): nat
    requires from <= to <= |answers|
  {
    Least(Offered(answers, from, to), Least(left, here))
  }

  /** An answer that moves bytes, or nothing and leaves the loop to ask again. */
  predicate MovesOn(a: Answer, here: nat) {
    a.Interrupted? || a.Ready? || (a.Bytes? && a.n > 0 && here > 0)
  }

  /** A loop with bytes left gets past all the answers from one to another. */
  predicate GoesOn(answers: seq<Answer>, from: nat, to: nat, left: nat, here: nat)
    requires from <= to <= |answers|
  {
    forall i :: from <= i < to ==>
      && Counted(answers, from, i, left, here) < left
      && MovesOn(answers[i], here - Counted(answers, from, i, left, here))
  }

  /** Where a loop stands after asking up to `used`, and why: complete when the count has reached the length,
      stopped or broken by the last answer while it had not, or out of answers. */
  predicate LoopEnds(answers: seq<Answer>, from: nat, left: nat, here: nat, used: nat, moved: nat, ending: Ending) {
    && from <= used <= |answers| && moved == Counted(answers, from, used, left, here)
    && match ending
       case Complete => moved == left && GoesOn(answers, from, used, left, here)
       case OutOfAnswers => moved < left && used == |answers| && GoesOn(answers, from, used, left, here)
       case _ =>
         && used > from && GoesOn(answers, from, used - 1, left, here)
         && Counted(answers, from, used - 1, left, here) < left
         && !MovesOn(answers[used - 1], here - Counted(answers, from, used - 1, left, here))
         && ending == if answers[used - 1].StopSeen? then Stopped else Broken
  }

  /** The answers alone decide how a loop ends. */
  lemma LoopEndsOnce(answers: seq<Answer>, from: nat, left: nat, here: nat, used: nat, moved: nat, ending: Ending,
                     used': nat, moved': nat, ending': Ending)
    requires LoopEnds(answers, from, left, here, used, moved, ending)
    requires LoopEnds(answers, from, left, here, used', moved', ending')
    ensures used == used' && moved == moved' && ending == ending'
  {
    hide Counted;
  }

  /** Every answer a loop goes on past counts in full or to what is left. */
  lemma OneCounts(answers: seq<Answer>, from: nat, at: nat, left: nat, here: nat)
    requires from <= at < |answers|
    ensures var before := Counted(answers, from, at, left, here);
            && before <= left && before <= here
            && Counted(answers, from, at + 1, left, here)
            == before + if answers[at].Bytes? then Least(answers[at].n, Least(left - before, here - before)) else 0
  {
  }

  lemma NoneCounts(answers: seq<Answer>, from: nat, left: nat, here: nat)
    requires from <= |answers|
    ensures Counted(answers, from, from, left, here) == 0
  {
  }

  /** Neither a seen stop flag, nor an error, nor a call that moves nothing. */
  predicate Harmless(answers: seq<Answer>, from: nat, to: nat)
    requires from <= to <= |answers|
  {
    forall i :: from <= i < to ==> !answers[i].StopSeen? && !answers[i].Error? && answers[i] != Bytes(0)
  }

  lemma {:induction false} OfferedGrows(answers: seq<Answer>, from: nat, to: nat, later: nat)
    requires from <= to <= later <= |answers|
    ensures Offered(answers, from, to) <= Offered(answers, from, later)
    decreases later
  {
    if to < later {
      OfferedGrows(answers, from, to, later - 1);
    }
  }

  /** A loop completes exactly when enough bytes will move and harmless answers offer them; and whatever else
      ends it is the kind of answer that does. */
  lemma CompletesExactly(answers: seq<Answer>, from: nat, left: nat, here: nat, used: nat, moved: nat, ending: Ending)
    requires LoopEnds(answers, from, left, here, used, moved, ending)
    ensures ending == Complete <==>
              && here >= left
              && exists k :: from <= k <= |answers| && Harmless(answers, from, k) && Offered(answers, from, k) >= left
    ensures ending == Stopped ==> used > from && answers[used - 1] == StopSeen && Harmless(answers, from, used - 1)
    ensures ending == Broken ==> used > from && (answers[used - 1] == Error || answers[used - 1].Bytes?)
    ensures ending == OutOfAnswers ==> used == |answers| && Harmless(answers, from, used)
  {
    if ending == Complete {
      assert Harmless(answers, from, used) && Offered(answers, from, used) >= left;
    }
    forall k | from <= k <= |answers| && Harmless(answers, from, k) && Offered(answers, from, k) >= left && here >= left
      ensures ending == Complete
    {
      if ending != Complete && used > k {
        OfferedGrows(answers, from, k, used - 1);
      }
      OfferedGrows(answers, from, k, |answers|);
    }
  }

  /** What one call came to: bytes moved, none of them after an interruption or a wait; or the end of the loop. */
  datatype Turn = Moved(n: nat) | Over(ending: Ending)

  /** That it came to `t`, for an answer with `left` bytes to go and `here` to come. */
  predicate Answers(a: Answer, left: nat, here: nat, t: Turn) {
    match t
    case Moved(n) => MovesOn(a, here) && n == if a.Bytes? then Least(a.n, Least(left, here)) else 0
    case Over(ending) => !MovesOn(a, here) && ending == if a.StopSeen? then Stopped else Broken
  }

  /** A buffer after the first `done` bytes of a stream from `start` were written over its beginning. */
  predicate Filled(buffer: seq<Byte>, original: seq<Byte>, stream: seq<Byte>, start: nat, done: nat) {
    && start + done <= |stream| && done <= |original|
    && buffer == stream[start..start + done] + original[done..]
  }

  /** `n` bytes of a stream written into a buffer at `at`. */
  predicate Spliced(before: seq<Byte>, after: seq<Byte>, stream: seq<Byte>, from: nat, at: nat, n: nat) {
    && from + n <= |stream| && at + n <= |before|
    && after == before[..at] + stream[from..from + n] + before[at + n..]
  }

  lemma FilledFurther(before: seq<Byte>, after: seq<Byte>, original: seq<Byte>, stream: seq<Byte>, start: nat,
                      done: nat, n: nat)
    requires Filled(before, original, stream, start, done)
    requires Spliced(before, after, stream, start + done, done, n)
    ensures Filled(after, original, stream, start, done + n)
  {
  }

  lemma FilledNone(original: seq<Byte>, stream: seq<Byte>, start: nat)
    requires start <= |stream|
    ensures Filled(original, original, stream, start, 0)
  {
  }

  /** One end of a connected stream socket, answering from a script. */
  class Socket {
    const answers: seq<Answer>
    const incoming: seq<Byte>
    var asked: nat
    var sent: seq<Byte>
    var taken: nat

    constructor (answers: seq<Answer>, incoming: seq<Byte>)
      ensures this.answers == answers && this.incoming == incoming
      ensures Valid() && sent == [] && taken == 0
    {
      this.answers, this.incoming := answers, incoming;
      asked, sent, taken := 0, [], 0;
    }

    predicate Valid()
      reads this
    {
      asked <= |answers| && taken <= |incoming|
    }

    /** One send of what is left, with the wait behind it. */
    method Send(data: seq<Byte>) returns (t: Turn)
      requires Valid() && asked < |answers| && data != []
      modifies this`asked, this`sent
      ensures Valid() && asked == old(asked) + 1 && Answers(answers[old(asked)], |data|, |data|, t)
      ensures t.Moved? ==> t.n <= |data|
      ensures sent == old(sent) + if t.Moved? then data[..t.n] else []
    {
      var answer := answers[asked];
      asked := asked + 1;
      match answer
      case Bytes(n) =>
        if n == 0 {
          return Over(Broken);
        }
        t := Moved(Least(n, |data|));
        sent := sent + data[..t.n];
      case StopSeen =>
        t := Over(Stopped);
      case Error =>
        t := Over(Broken);
      case _ =>
        t := Moved(0);
    }

    /** One recv into the buffer from `at` on, with the wait behind it. */
    method Receive(buffer: array<Byte>, at: nat) returns (t: Turn)
      requires Valid() && asked < |answers| && at < buffer.Length
      modifies this`asked, this`taken, buffer
      ensures Valid() && asked == old(asked) + 1
      ensures Answers(answers[old(asked)], buffer.Length - at, |incoming| - old(taken), t)
      ensures var n := if t.Moved? then t.n else 0;
              taken == old(taken) + n && Spliced(old(buffer[..]), buffer[..], incoming, old(taken), at, n)
    {
      var answer := answers[asked];
      asked := asked + 1;
      match answer
      case Bytes(n) =>
        if n == 0 || taken == |incoming| {
          return Over(Broken);
        }
        t := Moved(Least(n, Least(buffer.Length - at, |incoming| - taken)));
        Fill(buffer, at, incoming[taken..taken + t.n]);
        taken := taken + t.n;
      case StopSeen =>
        t := Over(Stopped);
      case Error =>
        t := Over(Broken);
      case _ =>
        t := Moved(0);
    }

    /** write_all: it ends as its answers say, having sent the bytes they count, all of the buffer when complete
        and a proper prefix of it otherwise. */
    method WriteAll(buffer: seq<Byte>) returns (ending: Ending)
      requires Valid()
      modifies this`asked, this`sent
      ensures Valid() && |sent| >= |old(sent)|
      ensures LoopEnds(answers, old(asked), |buffer|, |buffer|, asked, |sent| - |old(sent)|, ending)
      ensures |sent| - |old(sent)| <= |buffer| && sent == old(sent) + buffer[..|sent| - |old(sent)|]
    {
      hide Counted, MovesOn;
      NoneCounts(answers, asked, |buffer|, |buffer|);
      var done: nat := 0;
      while done < |buffer|
        invariant Valid() && old(asked) <= asked && done <= |buffer|
        invariant done == Counted(answers, old(asked), asked, |buffer|, |buffer|)
        invariant GoesOn(answers, old(asked), asked, |buffer|, |buffer|)
        invariant sent == old(sent) + buffer[..done]
        decreases |answers| - asked
      {
        if asked == |answers| {
          return OutOfAnswers;
        }
        OneCounts(answers, old(asked), asked, |buffer|, |buffer|);
        var turn := Send(buffer[done..]);
        if turn.Over? {
          OverCountsNothing(answers, old(asked), asked - 1, |buffer|, |buffer|);
          return turn.ending;
        }
        assert buffer[..done + turn.n] == buffer[..done] + buffer[done..][..turn.n];
        done := done + turn.n;
      }
      ending := Complete;
    }

    /** read_all: it ends as its answers say; the buffer holds exactly the next bytes of the stream, as many as
        the answers count, and nothing beyond them is taken. */
    method ReadAll(buffer: array<Byte>) returns (ending: Ending)
      requires Valid()
      modifies this`asked, this`taken, buffer
      ensures Valid() && taken >= old(taken)
      ensures LoopEnds(answers, old(asked), buffer.Length, |incoming| - old(taken), asked, taken - old(taken), ending)
      ensures Filled(buffer[..], old(buffer[..]), incoming, old(taken), taken - old(taken))
    {
      hide Counted, MovesOn, Filled, Spliced;
      FilledNone(buffer[..], incoming, taken);
      ghost var here: nat := |incoming| - taken;
      NoneCounts(answers, asked, buffer.Length, here);
      var done: nat := 0;
      while done < buffer.Length
        invariant Valid() && old(asked) <= asked && done <= buffer.Length && taken == old(taken) + done
        invariant done == Counted(answers, old(asked), asked, buffer.Length, here)
        invariant GoesOn(answers, old(asked), asked, buffer.Length, here)
        invariant Filled(buffer[..], old(buffer[..]), incoming, old(taken), done)
        decreases |answers| - asked
      {
        if asked == |answers| {
          return OutOfAnswers;
        }
        OneCounts(answers, old(asked), asked, buffer.Length, here);
        var turn := ReceiveMore(buffer, done, old(buffer[..]), old(taken));
        if turn.Over? {
          OverCountsNothing(answers, old(asked), asked - 1, buffer.Length, here);
          return turn.ending;
        }
        done := done + turn.n;
      }
      ending := Complete;
    }

    /** One recv that goes on filling. */
    method ReceiveMore(buffer: array<Byte>, at: nat, ghost original: seq<Byte>, ghost start: nat) returns (t: Turn)
      requires Valid() && asked < |answers| && at < buffer.Length
      requires taken == start + at && Filled(buffer[..], original, incoming, start, at)
      modifies this`asked, this`taken, buffer
      ensures Valid() && asked == old(asked) + 1
      ensures Answers(answers[old(asked)], buffer.Length - at, |incoming| - old(taken), t)
      ensures taken == old(taken) + if t.Moved? then t.n else 0
      ensures Filled(buffer[..], original, incoming, start, taken - start)
    {
      hide Answers, Filled, Spliced;
      ghost var before := buffer[..];
      t := Receive(buffer, at);
      FilledFurther(before, buffer[..], original, incoming, start, at, if t.Moved? then t.n else 0);
    }
  }

  /** An answer that ends the loop counts for nothing. */
  lemma OverCountsNothing(answers: seq<Answer>, from: nat, at: nat, left: nat, here: nat)
    requires from <= at < |answers|
    requires var before := Counted(answers, from, at, left, here);
             before <= here && !MovesOn(answers[at], here - before)
    ensures Counted(answers, from, at + 1, left, here) == Counted(answers, from, at, left, here)
  {
  }

  method Fill(buffer: array<Byte>, at: nat, s: seq<Byte>)
    requires at + |s| <= buffer.Length
    modifies buffer
    ensures buffer[..] == old(buffer[..at]) + s + old(buffer[at + |s|..])
  {
    for i := 0 to |s|
      invariant buffer[..] == old(buffer[..at]) + s[..i] + old(buffer[at + i..])
    {
      buffer[at + i] := s[i];
    }
  }

  // ---------- the two parties ----------

  type Peer = p: Party | |p.gid| == 16 witness Party(0, 0, 0, 0, 0, 0, seq(16, _ => 0))

  const DONE_SIZE := 4

  /** The acknowledgement on the stream. */
  function Done(): (s: seq<Byte>)
    ensures |s| == DONE_SIZE
  {
    U32Le(Htonl(DONE_MAGIC))
  }

  predicate IsDone(s: seq<Byte>)
    requires |s| == DONE_SIZE
  {
    Htonl(LoadU32(s)) == DONE_MAGIC
  }

  /** Where the source thread stands: writing its record, reading the peer's, taking its queue pair through
      INIT, RTR and RTS (`step`), reading the acknowledgement, done, or given up. */
  datatype Source =
    | SourceHello(sent: nat)
    | SourceGreet(got: seq<Byte>)
    | SourceQueue(peer: Peer, step: nat)
    | SourceAwait(got: seq<Byte>)
    | Served
    | SourceGone

  datatype Target =
    | TargetHello(sent: nat)
    | TargetGreet(got: seq<Byte>)
    | TargetQueue(peer: Peer, step: nat)
    | TargetPost(peer: Peer)
    | TargetPoll
    | TargetFlush
    | TargetSync
    | TargetDone(sent: nat)
    | Returned
    | TargetGone

  /** The one READ a target posts. */
  datatype Rdma = NotPosted | Posted(address: U64, rkey: U32, length: U64, retired: bool)

  /** Both parties, all the bytes each has written, how many the other has taken, the peer each queue pair was
      made ready to receive from, the READ, and whether its writes were flushed. */
  datatype World = World(
    source: Source, target: Target,
    toSource: seq<Byte>, sourceTook: nat,
    toTarget: seq<Byte>, targetTook: nat,
    sourceQp: Option<Peer>, targetQp: Option<Peer>,
    rdma: Rdma, flushed: bool)

  const START := World(SourceHello(0), TargetHello(0), [], 0, [], 0, None, None, NotPosted, false)

  /** One step of either party: some bytes out, some bytes in, the next foreign call with its outcome, or
      giving up. A step that is not enabled changes nothing. */
  datatype Action =
    | SourceSends(n: nat) | SourceReceives(n: nat) | SourceCalls(ok: bool) | SourceGivesUp
    | TargetSends(n: nat) | TargetReceives(n: nat) | TargetCalls(ok: bool) | TargetGivesUp

  function Next(s: Peer, t: Peer, w: World, a: Action): World {
    match a
    case SourceSends(n) => SourceSend(s, w, n)
    case SourceReceives(n) => SourceReceive(s, w, n)
    case SourceCalls(ok) => SourceCall(w, ok)
    case SourceGivesUp => if w.source.Served? then w else w.(source := SourceGone)
    case TargetSends(n) => TargetSend(t, w, n)
    case TargetReceives(n) => TargetReceive(t, w, n)
    case TargetCalls(ok) => TargetCall(t, w, ok)
    case TargetGivesUp => if w.target.Returned? then w else w.(target := TargetGone)
  }

  function SourceSend(s: Peer, w: World, n: nat): World {
    if w.source.SourceHello? && 0 < n <= WIRE_SIZE - w.source.sent then
      var sent := w.source.sent + n;
      w.(toTarget := w.toTarget + Hello(s)[w.source.sent..sent],
         source := if sent == WIRE_SIZE then SourceGreet([]) else SourceHello(sent))
    else w
  }

  function SourceReceive(s: Peer, w: World, n: nat): World {
    if 0 < n <= |w.toSource| - w.sourceTook then
      var chunk := w.toSource[w.sourceTook..w.sourceTook + n];
      if w.source.SourceGreet? && n <= WIRE_SIZE - |w.source.got| then
        w.(sourceTook := w.sourceTook + n, source := SourceHeard(s, w.source.got + chunk))
      else if w.source.SourceAwait? && n <= DONE_SIZE - |w.source.got| then
        w.(sourceTook := w.sourceTook + n, source := SourceAcknowledged(w.source.got + chunk))
      else w
    else w
  }

  function SourceHeard(s: Peer, got: seq<Byte>): Source {
    if |got| != WIRE_SIZE then SourceGreet(got)
    else
      var peer := Greet(got, ROLE_TARGET, s.bytes);
      if peer.None? then SourceGone else SourceQueue(peer.value, 0)
  }

  function SourceAcknowledged(got: seq<Byte>): Source {
    if |got| != DONE_SIZE then SourceAwait(got) else if IsDone(got) then Served else SourceGone
  }

  function SourceCall(w: World, ok: bool): World {
    if w.source.SourceQueue? then
      if !ok then w.(source := SourceGone)
      else if w.source.step == 0 then w.(source := SourceQueue(w.source.peer, 1))
      else if w.source.step == 1 then w.(source := SourceQueue(w.source.peer, 2), sourceQp := Some(w.source.peer))
      else w.(source := SourceAwait([]))
    else w
  }

  function TargetSend(t: Peer, w: World, n: nat): World {
    if w.target.TargetHello? && 0 < n <= WIRE_SIZE - w.target.sent then
      var sent := w.target.sent + n;
      w.(toSource := w.toSource + Hello(t)[w.target.sent..sent],
         target := if sent == WIRE_SIZE then TargetGreet([]) else TargetHello(sent))
    else if w.target.TargetDone? && 0 < n <= DONE_SIZE - w.target.sent then
      var sent := w.target.sent + n;
      w.(toSource := w.toSource + Done()[w.target.sent..sent],
         target := if sent == DONE_SIZE then Returned else TargetDone(sent))
    else w
  }

  function TargetReceive(t: Peer, w: World, n: nat): World {
    if w.target.TargetGreet? && 0 < n <= |w.toTarget| - w.targetTook && n <= WIRE_SIZE - |w.target.got| then
      var got := w.target.got + w.toTarget[w.targetTook..w.targetTook + n];
      w.(targetTook := w.targetTook + n, target := TargetHeard(t, got))
    else w
  }

  function TargetHeard(t: Peer, got: seq<Byte>): Target {
    if |got| != WIRE_SIZE then TargetGreet(got)
    else
      var peer := Greet(got, ROLE_SOURCE, t.bytes);
      if peer.None? then TargetGone else TargetQueue(peer.value, 0)
  }

  /** The target's foreign calls in order: INIT, RTR, RTS, post, poll until a successful READ completion,
      flush and synchronize. */
  function TargetCall(t: Peer, w: World, ok: bool): World {
    match w.target
    case TargetQueue(peer, step) =>
      if !ok then w.(target := TargetGone)
      else if step == 0 then w.(target := TargetQueue(peer, 1))
      else if step == 1 then w.(target := TargetQueue(peer, 2), targetQp := Some(peer))
      else w.(target := TargetPost(peer))
    case TargetPost(peer) =>
      if !ok then w.(target := TargetGone)
      else w.(target := TargetPoll, rdma := Posted(peer.address, peer.rkey, t.bytes, false))
    case TargetPoll =>
      if !ok || w.rdma.NotPosted? then w.(target := TargetGone)
      else w.(target := TargetFlush, rdma := w.rdma.(retired := true))
    case TargetFlush => w.(target := if ok then TargetSync else TargetGone, flushed := ok)
    case TargetSync => w.(target := if ok then TargetDone(0) else TargetGone)
    case _ => w
  }

  function Play(s: Peer, t: Peer, w: World, actions: seq<Action>): World
    decreases |actions|
  {
    if actions == [] then w else Play(s, t, Next(s, t, w, actions[0]), actions[1..])
  }

  // ---------- what every interleaving keeps ----------

  /** The READ was posted against the whole of the source's buffer, completed, and was flushed. */
  predicate Delivered(s: Peer, w: World) {
    w.rdma == Posted(s.address, s.rkey, s.bytes, true) && w.flushed
  }

  /** Each accepts the other's record. */
  predicate Compatible(s: Peer, t: Peer) {
    Presentable(t, ROLE_TARGET, s.bytes) && Presentable(s, ROLE_SOURCE, t.bytes)
  }

  ghost predicate SourceSound(s: Peer, t: Peer, w: World) {
    && w.sourceTook <= |w.toSource|
    && (w.sourceQp.Some? ==> w.sourceQp.value == t && Presentable(t, ROLE_TARGET, s.bytes))
    && match w.source
       case SourceHello(sent) => sent == |w.toTarget| < WIRE_SIZE && w.sourceTook == 0
       case SourceGreet(got) => |got| == w.sourceTook < WIRE_SIZE && got == w.toSource[..w.sourceTook]
       case SourceQueue(peer, step) =>
         && w.sourceTook == WIRE_SIZE && peer == t && Presentable(t, ROLE_TARGET, s.bytes)
         && step <= 2 && (step == 2 ==> w.sourceQp.Some?)
       case SourceAwait(got) => w.sourceTook == WIRE_SIZE + |got| && |got| < DONE_SIZE && w.sourceQp.Some?
       case Served => w.sourceTook == WIRE_SIZE + DONE_SIZE && w.sourceQp.Some?
       case SourceGone => true
  }

  ghost predicate TargetSound(s: Peer, t: Peer, w: World) {
    && w.targetTook <= |w.toTarget|
    && (w.targetQp.Some? ==> w.targetQp.value == s && Presentable(s, ROLE_SOURCE, t.bytes))
    && (w.rdma.Posted? ==> w.targetQp.Some? && w.rdma == Posted(s.address, s.rkey, s.bytes, w.rdma.retired))
    && match w.target
       case TargetHello(sent) => sent == |w.toSource| < WIRE_SIZE && w.targetTook == 0
       case TargetGreet(got) =>
         && |w.toSource| == WIRE_SIZE && |got| == w.targetTook < WIRE_SIZE
         && got == w.toTarget[..w.targetTook]
       case TargetQueue(peer, step) =>
         && |w.toSource| == WIRE_SIZE && peer == s && Presentable(s, ROLE_SOURCE, t.bytes)
         && step <= 2 && (step == 2 ==> w.targetQp.Some?)
       case TargetPost(peer) => |w.toSource| == WIRE_SIZE && peer == s && w.targetQp.Some?
       case TargetPoll => |w.toSource| == WIRE_SIZE && w.rdma.Posted?
       case TargetFlush => |w.toSource| == WIRE_SIZE && w.rdma.Posted? && w.rdma.retired
       case TargetSync => |w.toSource| == WIRE_SIZE && Delivered(s, w)
       case TargetDone(sent) => |w.toSource| == WIRE_SIZE + sent && sent < DONE_SIZE && Delivered(s, w)
       case Returned => |w.toSource| == WIRE_SIZE + DONE_SIZE && Delivered(s, w)
       case TargetGone => true
  }

  /** What is on the two streams: prefixes of the two scripts, and nothing past the target's record until
      its READ was delivered. */
  ghost predicate StreamsSound(s: Peer, t: Peer, w: World) {
    && w.toTarget <= Hello(s)
    && w.toSource <= Hello(t) + Done()
    && (|w.toSource| > WIRE_SIZE ==> Delivered(s, w))
  }

  ghost predicate Sound(s: Peer, t: Peer, w: World) {
    SourceSound(s, t, w) && TargetSound(s, t, w) && StreamsSound(s, t, w)
  }

  lemma SourceReceiveKeepsSound(s: Peer, t: Peer, w: World, n: nat)
    requires Sound(s, t, w)
    ensures Sound(s, t, SourceReceive(s, w, n))
  {
    hide Hello, Greet, Presentable, Done, IsDone;
    if 0 < n <= |w.toSource| - w.sourceTook && w.source.SourceGreet? && n <= WIRE_SIZE - |w.source.got| {
      var got := w.source.got + w.toSource[w.sourceTook..w.sourceTook + n];
      assert got == w.toSource[..w.sourceTook + n];
      if |got| == WIRE_SIZE {
        assert got == Hello(t);
        HelloGreet(t, ROLE_TARGET, s.bytes);
      }
    }
  }

  lemma TargetReceiveKeepsSound(s: Peer, t: Peer, w: World, n: nat)
    requires Sound(s, t, w)
    ensures Sound(s, t, TargetReceive(t, w, n))
  {
    hide Hello, Greet, Presentable, Done;
    if w.target.TargetGreet? && 0 < n <= |w.toTarget| - w.targetTook && n <= WIRE_SIZE - |w.target.got| {
      var got := w.target.got + w.toTarget[w.targetTook..w.targetTook + n];
      assert got == w.toTarget[..w.targetTook + n];
      if |got| == WIRE_SIZE {
        assert got == Hello(s);
        HelloGreet(s, ROLE_SOURCE, t.bytes);
      }
    }
  }

  lemma SourceSendKeepsSound(s: Peer, t: Peer, w: World, n: nat)
    requires Sound(s, t, w)
    ensures Sound(s, t, SourceSend(s, w, n))
  {
    hide Hello, Greet, Presentable, Done;
    if w.source.SourceHello? && 0 < n <= WIRE_SIZE - w.source.sent {
      var sent := w.source.sent + n;
      assert w.toTarget + Hello(s)[w.source.sent..sent] == Hello(s)[..sent];
    }
  }

  lemma TargetSendKeepsSound(s: Peer, t: Peer, w: World, n: nat)
    requires Sound(s, t, w)
    ensures Sound(s, t, TargetSend(t, w, n))
  {
    hide Hello, Greet, Presentable, Done;
    var all := Hello(t) + Done();
    if w.target.TargetHello? && 0 < n <= WIRE_SIZE - w.target.sent {
      var sent := w.target.sent + n;
      assert w.toSource + Hello(t)[w.target.sent..sent] == all[..sent];
    } else if w.target.TargetDone? && 0 < n <= DONE_SIZE - w.target.sent {
      var sent := w.target.sent + n;
      assert w.toSource + Done()[w.target.sent..sent] == all[..WIRE_SIZE + sent];
    }
  }

  lemma SourceCallKeepsSound(s: Peer, t: Peer, w: World, ok: bool)
    requires Sound(s, t, w)
    ensures Sound(s, t, SourceCall(w, ok))
  {
    hide Hello, Done, Presentable;
  }

  lemma TargetCallKeepsSound(s: Peer, t: Peer, w: World, ok: bool)
    requires Sound(s, t, w)
    ensures Sound(s, t, TargetCall(t, w, ok))
  {
    hide Hello, Done, Presentable;
    SameBytes(s, t);
  }

  lemma SameBytes(s: Peer, t: Peer)
    ensures Presentable(s, ROLE_SOURCE, t.bytes) ==> s.bytes == t.bytes
  {
  }

  lemma NextKeepsSound(s: Peer, t: Peer, w: World, a: Action)
    requires Sound(s, t, w)
    ensures Sound(s, t, Next(s, t, w, a))
  {
    hide Hello, Done, SourceReceive, TargetReceive, SourceSend, TargetSend, SourceCall, TargetCall, Presentable;
    match a
    case SourceSends(n) => SourceSendKeepsSound(s, t, w, n);
    case SourceReceives(n) => SourceReceiveKeepsSound(s, t, w, n);
    case TargetSends(n) => TargetSendKeepsSound(s, t, w, n);
    case TargetReceives(n) => TargetReceiveKeepsSound(s, t, w, n);
    case SourceCalls(ok) => SourceCallKeepsSound(s, t, w, ok);
    case TargetCalls(ok) => TargetCallKeepsSound(s, t, w, ok);
    case SourceGivesUp =>
    case TargetGivesUp =>
  }

  lemma {:induction false} PlayKeepsSound(s: Peer, t: Peer, w: World, actions: seq<Action>)
    requires Sound(s, t, w)
    ensures Sound(s, t, Play(s, t, w, actions))
    decreases |actions|
  {
    hide Sound, Next;
    if actions != [] {
      NextKeepsSound(s, t, w, actions[0]);
      PlayKeepsSound(s, t, Next(s, t, w, actions[0]), actions[1..]);
    }
  }

  /** In every interleaving, with failures anywhere: once the source says served, or the target has returned,
      the READ of exactly the source's buffer has completed and been flushed, and the queue pair of each side
      that says so was set up with the other's number, packet number and GID. */
  lemma ServedMeansDelivered(s: Peer, t: Peer, actions: seq<Action>)
    ensures var w := Play(s, t, START, actions);
            && (w.source.Served? ==>
                  Delivered(s, w) && w.sourceQp == Some(t) && w.targetQp == Some(s) && Compatible(s, t))
            && (w.target.Returned? ==> Delivered(s, w) && w.targetQp == Some(s) && Presentable(s, ROLE_SOURCE, t.bytes))
            && (w.rdma.Posted? ==> w.rdma == Posted(s.address, s.rkey, t.bytes, w.rdma.retired) && s.bytes == t.bytes)
  {
    hide Hello, Done, Next, Play;
    assert Sound(s, t, START);
    PlayKeepsSound(s, t, START, actions);
  }

  // ---------- the loops as steps ----------

  function Sum(pieces: seq<nat>): nat {
    if pieces == [] then 0 else pieces[0] + Sum(pieces[1..])
  }

  predicate AllPositive(pieces: seq<nat>) {
    forall i :: 0 <= i < |pieces| ==> pieces[i] > 0
  }

  /** The pieces the answers from one to another move, leaving out those that move nothing. */
  function Pieces(answers: seq<Answer>, from: nat, to: nat, left: nat, here: nat): (pieces: seq<nat>)
    requires from <= to <= |answers|
    ensures Sum(pieces) == Counted(answers, from, to, left, here) && AllPositive(pieces)
  {
    if from == to then []
    else
      var before := Pieces(answers, from, to - 1, left, here);
      var n := Counted(answers, from, to, left, here) - Counted(answers, from, to - 1, left, here);
      SumSnoc(before, n);
      if n == 0 then before else before + [n]
  }

  lemma {:induction false} SumSnoc(pieces: seq<nat>, n: nat)
    ensures Sum(pieces + [n]) == Sum(pieces) + n
  {
    if pieces == [] {
      assert [n][1..] == [];
    } else {
      assert (pieces + [n])[1..] == pieces[1..] + [n];
      SumSnoc(pieces[1..], n);
    }
  }

  function Sends(pieces: seq<nat>): (actions: seq<Action>)
    ensures |actions| == |pieces| && forall i :: 0 <= i < |pieces| ==> actions[i] == SourceSends(pieces[i])
  {
    seq(|pieces|, i requires 0 <= i < |pieces| => SourceSends(pieces[i]))
  }

  function Receives(pieces: seq<nat>): (actions: seq<Action>)
    ensures |actions| == |pieces| && forall i :: 0 <= i < |pieces| ==> actions[i] == TargetReceives(pieces[i])
  {
    seq(|pieces|, i requires 0 <= i < |pieces| => TargetReceives(pieces[i]))
  }

  /** The source's write_all of its record is a run of its send steps, one for each answer that moves bytes: they
      put the bytes it sent on the stream, and it goes on to read exactly when the loop completes. */
  lemma WriteAllIsSends(s: Peer, t: Peer, w: World, answers: seq<Answer>, from: nat, used: nat, moved: nat,
                        ending: Ending)
    requires w.source == SourceHello(0) && LoopEnds(answers, from, WIRE_SIZE, WIRE_SIZE, used, moved, ending)
    ensures var w' := Play(s, t, w, Sends(Pieces(answers, from, used, WIRE_SIZE, WIRE_SIZE)));
            && w'.toTarget == w.toTarget + Hello(s)[..moved]
            && (w'.source == SourceGreet([]) <==> ending == Complete)
            && (ending != Complete ==> w'.source == SourceHello(moved))
  {
    hide Hello, Play, Pieces;
    SendsPlay(s, t, w, Pieces(answers, from, used, WIRE_SIZE, WIRE_SIZE));
    ShortUnlessComplete(answers, from, WIRE_SIZE, WIRE_SIZE, used, moved, ending);
  }

  lemma ShortUnlessComplete(answers: seq<Answer>, from: nat, left: nat, here: nat, used: nat, moved: nat,
                            ending: Ending)
    requires LoopEnds(answers, from, left, here, used, moved, ending)
    ensures moved <= left && moved <= here && (moved == left <==> ending == Complete)
  {
    if ending == Stopped || ending == Broken {
      OverCountsNothing(answers, from, used - 1, left, here);
    }
  }

  lemma {:induction false} SendsPlay(s: Peer, t: Peer, w: World, pieces: seq<nat>)
    requires w.source.SourceHello? && w.source.sent + Sum(pieces) <= WIRE_SIZE
    requires AllPositive(pieces)
    ensures var sent := w.source.sent + Sum(pieces);
            Play(s, t, w, Sends(pieces))
            == if pieces == [] then w
               else w.(toTarget := w.toTarget + Hello(s)[w.source.sent..sent],
                       source := if sent == WIRE_SIZE then SourceGreet([]) else SourceHello(sent))
    decreases |pieces|
  {
    hide Next, Hello;
    if pieces != [] {
      var sent, middle := w.source.sent + Sum(pieces), w.source.sent + pieces[0];
      SendStep(s, t, w, pieces[0]);
      assert Sends(pieces)[1..] == Sends(pieces[1..]);
      if pieces[1..] != [] {
        assert pieces[1..][0] > 0 && middle < WIRE_SIZE;
        SendsPlay(s, t, Next(s, t, w, SourceSends(pieces[0])), pieces[1..]);
        Joined(w.toTarget, Hello(s), w.source.sent, middle, sent);
      }
    }
  }

  lemma Joined(before: seq<Byte>, whole: seq<Byte>, i: nat, j: nat, k: nat)
    requires i <= j <= k <= |whole|
    ensures before + whole[i..j] + whole[j..k] == before + whole[i..k]
  {
  }

  lemma SendStep(s: Peer, t: Peer, w: World, n: nat)
    requires w.source.SourceHello? && 0 < n <= WIRE_SIZE - w.source.sent
    ensures var sent := w.source.sent + n;
            Next(s, t, w, SourceSends(n))
            == w.(toTarget := w.toTarget + Hello(s)[w.source.sent..sent],
                  source := if sent == WIRE_SIZE then SourceGreet([]) else SourceHello(sent))
  {
  }

  /** The target's read_all of the source's record is a run of its receive steps, one for each answer that moves
      bytes: they take exactly the bytes the loop took, and the record is judged exactly when it completes. */
  lemma ReadAllIsReceives(s: Peer, t: Peer, w: World, answers: seq<Answer>, from: nat, used: nat, moved: nat,
                          ending: Ending)
    requires w.target == TargetGreet([]) && w.targetTook <= |w.toTarget|
    requires LoopEnds(answers, from, WIRE_SIZE, |w.toTarget| - w.targetTook, used, moved, ending)
    ensures var w' := Play(s, t, w, Receives(Pieces(answers, from, used, WIRE_SIZE, |w.toTarget| - w.targetTook)));
            && w'.targetTook == w.targetTook + moved <= |w.toTarget|
            && w'.target == TargetHeard(t, w.toTarget[w.targetTook..w'.targetTook])
            && (ending != Complete ==> w'.target == TargetGreet(w.toTarget[w.targetTook..w'.targetTook]))
  {
    hide Greet, Play, Pieces;
    ReceivesPlay(s, t, w, Pieces(answers, from, used, WIRE_SIZE, |w.toTarget| - w.targetTook));
    ShortUnlessComplete(answers, from, WIRE_SIZE, |w.toTarget| - w.targetTook, used, moved, ending);
    assert [] + w.toTarget[w.targetTook..w.targetTook + moved] == w.toTarget[w.targetTook..w.targetTook + moved];
  }

  lemma {:induction false} ReceivesPlay(s: Peer, t: Peer, w: World, pieces: seq<nat>)
    requires w.target.TargetGreet? && |w.target.got| + Sum(pieces) <= WIRE_SIZE
    requires w.targetTook + Sum(pieces) <= |w.toTarget|
    requires AllPositive(pieces)
    ensures var took := w.targetTook + Sum(pieces);
            Play(s, t, w, Receives(pieces))
            == if pieces == [] then w
               else w.(targetTook := took, target := TargetHeard(t, w.target.got + w.toTarget[w.targetTook..took]))
    decreases |pieces|
  {
    hide Greet;
    if pieces != [] {
      var next := Next(s, t, w, TargetReceives(pieces[0]));
      assert Play(s, t, w, Receives(pieces)) == Play(s, t, next, Receives(pieces)[1..]);
      var took, middle := w.targetTook + Sum(pieces), w.targetTook + pieces[0];
      assert Receives(pieces)[1..] == Receives(pieces[1..]);
      if pieces[1..] != [] {
        assert pieces[1..][0] > 0 && |w.target.got| + pieces[0] < WIRE_SIZE;
        ReceivesPlay(s, t, next, pieces[1..]);
        Joined(w.target.got, w.toTarget, w.targetTook, middle, took);
      }
    }
  }

  // ---------- when it can succeed at all ----------

  lemma {:induction false} PlayConcat(s: Peer, t: Peer, w: World, a: seq<Action>, b: seq<Action>)
    ensures Play(s, t, w, a + b) == Play(s, t, Play(s, t, w, a), b)
    decreases |a|
  {
    hide Next;
    if a == [] {
      assert a + b == b;
    } else {
      assert (a + b)[1..] == a[1..] + b;
      PlayConcat(s, t, Next(s, t, w, a[0]), a[1..], b);
    }
  }

  /** One more action at the end. */
  lemma PlaySnoc(s: Peer, t: Peer, w: World, before: seq<Action>, a: Action, w': World)
    requires w' == Next(s, t, Play(s, t, w, before), a)
    ensures Play(s, t, w, before + [a]) == w'
  {
    hide Next;
    PlayConcat(s, t, w, before, [a]);
    var w1 := Play(s, t, w, before);
    assert Play(s, t, Next(s, t, w1, a), []) == Next(s, t, w1, a);
  }

  /** The exchange of records, unfragmented. */
  lemma GreetingPlays(s: Peer, t: Peer) returns (actions: seq<Action>)
    requires Compatible(s, t)
    ensures Play(s, t, START, actions)
         == World(SourceQueue(t, 0), TargetQueue(s, 0), Hello(t), WIRE_SIZE, Hello(s), WIRE_SIZE, None, None,
                  NotPosted, false)
  {
    hide Hello, Greet, Presentable;
    HelloGreet(t, ROLE_TARGET, s.bytes);
    HelloGreet(s, ROLE_SOURCE, t.bytes);
    var w0, w1 := START, START.(toTarget := Hello(s), source := SourceGreet([]));
    var w2 := w1.(toSource := Hello(t), target := TargetGreet([]));
    var w3 := w2.(sourceTook := WIRE_SIZE, source := SourceQueue(t, 0));
    var w4 := w3.(targetTook := WIRE_SIZE, target := TargetQueue(s, 0));
    assert [] + Hello(s)[0..WIRE_SIZE] == Hello(s) && [] + Hello(t)[0..WIRE_SIZE] == Hello(t);
    assert Play(s, t, START, []) == w0;
    actions := [];
    PlaySnoc(s, t, START, actions, SourceSends(WIRE_SIZE), w1);
    actions := actions + [SourceSends(WIRE_SIZE)];
    PlaySnoc(s, t, START, actions, TargetSends(WIRE_SIZE), w2);
    actions := actions + [TargetSends(WIRE_SIZE)];
    assert [] + Hello(t)[0..0 + WIRE_SIZE] == Hello(t);
    PlaySnoc(s, t, START, actions, SourceReceives(WIRE_SIZE), w3);
    actions := actions + [SourceReceives(WIRE_SIZE)];
    PlaySnoc(s, t, START, actions, TargetReceives(WIRE_SIZE), w4);
    actions := actions + [TargetReceives(WIRE_SIZE)];
  }

  /** The run with no failure and no fragmentation. */
  lemma SmoothServes(s: Peer, t: Peer) returns (actions: seq<Action>)
    requires Compatible(s, t)
    ensures Play(s, t, START, actions).source.Served?
  {
    hide Hello, Done, Play, Presentable;
    actions := GreetingPlays(s, t);
    var w := Play(s, t, START, actions);
    for i := 0 to 3
      invariant w == Play(s, t, START, actions)
      invariant w.toSource == Hello(t) && w.sourceTook == WIRE_SIZE
      invariant w.target == TargetQueue(s, 0) && w.rdma.NotPosted?
      invariant w.source == if i == 3 then SourceAwait([]) else SourceQueue(t, i)
    {
      PlaySnoc(s, t, START, actions, SourceCalls(true), Next(s, t, w, SourceCalls(true)));
      w, actions := Next(s, t, w, SourceCalls(true)), actions + [SourceCalls(true)];
    }
    var path := [TargetQueue(s, 0), TargetQueue(s, 1), TargetQueue(s, 2), TargetPost(s), TargetPoll, TargetFlush,
                 TargetSync,
                 TargetDone(0)];
    for i := 0 to 7
      invariant w == Play(s, t, START, actions)
      invariant w.toSource == Hello(t) && w.sourceTook == WIRE_SIZE && w.source == SourceAwait([])
      invariant w.target == path[i] && (i <= 3 ==> w.rdma.NotPosted?) && (i > 3 ==> w.rdma.Posted?)
    {
      PlaySnoc(s, t, START, actions, TargetCalls(true), Next(s, t, w, TargetCalls(true)));
      w, actions := Next(s, t, w, TargetCalls(true)), actions + [TargetCalls(true)];
    }
    PlaySnoc(s, t, START, actions, TargetSends(DONE_SIZE), Next(s, t, w, TargetSends(DONE_SIZE)));
    w, actions := Next(s, t, w, TargetSends(DONE_SIZE)), actions + [TargetSends(DONE_SIZE)];
    assert w.toSource == Hello(t) + Done();
    assert w.toSource[WIRE_SIZE..WIRE_SIZE + DONE_SIZE] == Done();
    DoneIsDone();
    PlaySnoc(s, t, START, actions, SourceReceives(DONE_SIZE), Next(s, t, w, SourceReceives(DONE_SIZE)));
    actions := actions + [SourceReceives(DONE_SIZE)];
  }

  lemma DoneIsDone()
    ensures IsDone(Done())
  {
    hide Htonl, U32Le, LoadU32;
    LoadStore(0, Htonl(DONE_MAGIC));
    HtonlReverses(DONE_MAGIC);
  }

  /** Some run ends served exactly when the two parties accept each other's records. */
  lemma ServableExactly(s: Peer, t: Peer)
    ensures (exists actions :: Play(s, t, START, actions).source.Served?) <==> Compatible(s, t)
  {
    if Compatible(s, t) {
      var actions := SmoothServes(s, t);
    }
    forall actions | Play(s, t, START, actions).source.Served? ensures Compatible(s, t) {
      ServedMeansDelivered(s, t, actions);
    }
  }
}
