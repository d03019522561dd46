/** Producing a run's event list and replaying it through a fresh session
    (src/serverlessx/cli.py, run_cpu_simulation and verify_result). */
module Replay {
  import opened Wrappers
  import opened Contract
  import opened JsonValues
  import opened Ledger
  import opened TransferSessions

  /** The first n events of the one log a completed run of this attempt and digest can leave. */
  function CanonicalLog(m: Metadata, digest: string, n: nat): (log: seq<Json>)
    requires n <= 7
    ensures |log| == n
  {
    seq(n, i requires 0 <= i < n => Obj(Canonical(SEQUENCE[i], m, digest)))
  }

  /** The session that has accepted the first n canonical events. */
  function After(m: Metadata, digest: string, n: nat): Session
    requires n <= 7
  {
    Session(m, n - 1, None, n < 7, 1 <= n <= 5, if n >= 5 then Some(digest) else None)
  }

  /** One more event is accepted exactly when it is the next canonical one, where the digest is still free
      up to the fifth event and fixed by it from then on. */
  lemma AdvanceExact(m: Metadata, digest: string, n: nat, ack: Json)
    requires m.Valid() && n < 7 && (n >= 5 ==> IsSha256(digest))
    ensures var next := if n == 4 then DigestOf(ack) else digest;
            && (Advance(After(m, digest, n), ack).Success? <==>
                  (n >= 4 ==> IsSha256(next)) && ack == Obj(Canonical(SEQUENCE[n], m, next)))
            && (Advance(After(m, digest, n), ack).Success? ==>
                  Advance(After(m, digest, n), ack).value == Advanced(After(m, next, n + 1), ack.fields))
  {
    hide ValidateAck, Canonical, IsSha256, SafeId, NameOf;
    var k := SEQUENCE[n];
    KindAt(n);
    var next := if n == 4 then DigestOf(ack) else digest;
    if ValidateAck(ack, m, Some(k)).Success? {
      AcceptedIsCanonical(ack, m, k);
      SameHead(m, n, if n >= 4 then DigestOf(ack) else "", if n >= 4 then DigestOf(ack) else next);
    }
    if (n >= 4 ==> IsSha256(next)) && ack == Obj(Canonical(k, m, next)) {
      CanonicalIsAccepted(k, m, next);
    }
  }

  lemma KindAt(n: nat)
    requires n < 7
    ensures ClaimsTokens(SEQUENCE[n]) <==> n >= 4
    ensures SEQUENCE[n] == TargetReady <==> n == 0
    ensures SEQUENCE[n] == DecodeDone <==> n == 4
    ensures SEQUENCE[n] == Released <==> n == 5
    ensures SEQUENCE[n] == SourceReleased <==> n == 6
  {
  }

  /** The replay loop of verify_result, as a fold: every event must advance the session. */
  function ReplayFrom(s: Session, events: seq<Json>): Option<Session>
    requires -1 <= s.index <= 6
    decreases |events|
  {
    if events == [] then Some(s)
    else
      match Advance(s, events[0])
      case Failure(_) => None
      case Success(a) => ReplayFrom(a.session, events[1..])
  }

  /** The digest a list of remaining events settles on: the fifth event's, or the one already settled. */
  function Settled(digest: string, n: nat, events: seq<Json>): string
    requires n + |events| == 7
  {
    if n >= 5 then digest else DigestOf(events[4 - n])
  }

  /** From n canonical events on, a list replays exactly when it continues the canonical log of the one
      digest it settles on, and then it completes the session. */
  lemma {:induction false} ReplayExact(m: Metadata, digest: string, n: nat, events: seq<Json>)
    requires m.Valid() && n + |events| == 7 && (n >= 5 ==> IsSha256(digest))
    ensures var d := Settled(digest, n, events);
            ReplayFrom(After(m, digest, n), events)
            == if IsSha256(d) && events == CanonicalLog(m, d, 7)[n..] then Some(After(m, d, 7)) else None
    decreases |events|
  {
    hide Canonical, IsSha256, DigestOf, Advance;
    if events != [] {
      var ack, d := events[0], Settled(digest, n, events);
      var next := if n == 4 then DigestOf(ack) else digest;
      AdvanceExact(m, digest, n, ack);
      SameHead(m, n, next, d);
      TailOfLog(m, d, n, events);
      if Advance(After(m, digest, n), ack).Success? {
        ReplayExact(m, next, n + 1, events[1..]);
      }
    }
  }

  lemma TailOfLog(m: Metadata, d: string, n: nat, events: seq<Json>)
    requires n < 7 && |events| > 0
    ensures events == CanonicalLog(m, d, 7)[n..]
       <==> events[0] == Obj(Canonical(SEQUENCE[n], m, d)) && events[1..] == CanonicalLog(m, d, 7)[n + 1..]
  {
    var log := CanonicalLog(m, d, 7);
    assert log[n..] == [log[n]] + log[n + 1..];
    assert events == [events[0]] + events[1..];
  }

  lemma SameHead(m: Metadata, n: nat, d: string, d': string)
    requires n < 7 && (n >= 4 ==> d == d')
    ensures Canonical(SEQUENCE[n], m, d) == Canonical(SEQUENCE[n], m, d')
  {
    assert n < 4 ==> !ClaimsTokens(SEQUENCE[n]);
  }

  lemma DigestRecovered(m: Metadata, n: nat, d: string)
    requires n < 7
    ensures n >= 4 ==> DigestOf(Obj(Canonical(SEQUENCE[n], m, d))) == d
  {
    assert n >= 4 ==> ClaimsTokens(SEQUENCE[n]);
    CanonicalFields(SEQUENCE[n], m, d);
  }

  /** The evidence a valid attempt can leave: the seven canonical events of one token digest. */
  ghost predicate Evidence(m: Metadata, events: Json) {
    m.Valid() && exists digest :: IsSha256(digest) && events == Arr(CanonicalLog(m, digest, 7))
  }

  /** Seven events replay from opening exactly when they are evidence: nothing omitted, reordered,
      repeated or edited survives. */
  lemma ReplayIsEvidence(m: Metadata, events: seq<Json>)
    requires m.Valid() && |events| == 7
    ensures ReplayFrom(Opening(m), events).Some? <==> Evidence(m, Arr(events))
    ensures ReplayFrom(Opening(m), events).Some? ==>
              ReplayFrom(Opening(m), events).value == After(m, DigestOf(events[4]), 7)
  {
    hide Canonical, IsSha256, DigestOf;
    ReplayExact(m, "", 0, events);
    assert Opening(m) == After(m, "", 0);
    var d := Settled("", 0, events);
    assert CanonicalLog(m, d, 7)[0..] == CanonicalLog(m, d, 7);
    forall digest | IsSha256(digest) && Arr(events) == Arr(CanonicalLog(m, digest, 7))
      ensures digest == d
    {
      DigestRecovered(m, 4, digest);
    }
  }

  /** A session on a ledger of its own; a valid attempt is always admitted. */
  method OpenAlone(m: Metadata) returns (session: TransferSession)
    requires m.Valid()
    ensures fresh(session) && session.View() == Opening(m)
  {
    hide SafeId, IsSha256;
    var ledger := new EpochLedger();
    assert Admissible([], m);
    var r := TransferSession.Open(m, ledger);
    session := r.value;
  }

  /** Opens a fresh ledger and session, replays the events, and checks closure and that the last event is
      refused a second time. Accepts exactly the evidence of one run. */
  method VerifyReplay(m: Metadata, events: Json) returns (verified: bool)
    ensures verified <==> Evidence(m, events)
  {
    hide Canonical, IsSha256, SafeId;
    if !m.Valid() {
      return false;
    }
    var session := OpenAlone(m);
    if !events.Arr? || |events.items| != 7 {
      return false;
    }
    ReplayIsEvidence(m, events.items);
    for i := 0 to 7
      invariant session.InRange()
      invariant ReplayFrom(session.View(), events.items[i..]) == ReplayFrom(Opening(m), events.items)
    {
      assert events.items[i..][0] == events.items[i] && events.items[i..][1..] == events.items[i + 1..];
      var r := session.AdvanceAck(events.items[i]);
      if r.Failure? {
        return false;
      }
    }
    assert events.items[7..] == [];
    if !session.View().Closed() {
      return false;
    }
    var replayed := session.AdvanceAck(events.items[6]);
    verified := replayed.Failure?;
  }

  /** Drives one session through all seven kinds and returns the recorded events. */
  method Simulate(m: Metadata, digest: string) returns (events: seq<Json>)
    requires m.Valid() && IsSha256(digest)
    ensures events == CanonicalLog(m, digest, 7)
    ensures Evidence(m, Arr(events))
  {
    hide Canonical, SafeId, IsSha256, Advance, BuildAck;
    var session := OpenAlone(m);
    events := [];
    assert Opening(m) == After(m, digest, 0);
    for i := 0 to 7
      invariant session.View() == After(m, digest, i)
      invariant events == CanonicalLog(m, digest, i)
    {
      var kind := SEQUENCE[i];
      KindStep(m, digest, i);
      var r := session.AdvanceKind(NameOf(kind), None, None, if kind == DecodeDone then Some(digest) else None);
      events := events + [Obj(r.value)];
    }
    assert Arr(events) == Arr(CanonicalLog(m, digest, 7));
  }

  /** advance_kind with defaults, at its turn, builds and accepts the next canonical event. */
  lemma KindStep(m: Metadata, digest: string, n: nat)
    requires m.Valid() && IsSha256(digest) && n < 7
    ensures var s, k := After(m, digest, n), SEQUENCE[n];
            var built := BuildAck(s, NameOf(k), None, None, if k == DecodeDone then Some(digest) else None);
            && built == Success(Obj(Canonical(k, m, digest)))
            && Advance(s, built.value) == Success(Advanced(After(m, digest, n + 1), Canonical(k, m, digest)))
  {
    var k := SEQUENCE[n];
    MakeAckCanonical(k, m, digest);
    DigestRecovered(m, n, digest);
    AdvanceExact(m, digest, n, Obj(Canonical(k, m, digest)));
    if n == 4 {
      assert k == DecodeDone;
    }
    assert ClaimsTokens(k) <==> n >= 4;
  }

  // ---------- any run that completes, with refused calls in between ----------

  /** The ACKs a sequence of calls gets accepted. */
  function AcceptedLog(s: Session, calls: seq<Call>): seq<Json>
    requires -1 <= s.index <= 6
    decreases |calls|
  {
    if calls == [] then []
    else
      var offered := Offered(s, calls[0]);
      (if offered.Some? && Advance(s, offered.value).Success? then [offered.value] else [])
      + AcceptedLog(Do(s, calls[0]), calls[1..])
  }

  /** Whatever is refused on the way, what is accepted is replayable step by step, and an unaborted
      session is where its accepted events put it. */
  lemma {:induction false} AcceptedReplays(s: Session, calls: seq<Call>)
    requires -1 <= s.index <= 6 && s.aborted.None?
    requires DoAll(s, calls).aborted.None?
    ensures ReplayFrom(s, AcceptedLog(s, calls)) == Some(DoAll(s, calls))
    ensures |AcceptedLog(s, calls)| == DoAll(s, calls).index - s.index
    decreases |calls|
  {
    if calls != [] {
      hide ValidateAck;
      var next := Do(s, calls[0]);
      var log, rest := AcceptedLog(s, calls), AcceptedLog(next, calls[1..]);
      if next.aborted.Some? {
        AbortStays(next, calls[1..]);
      } else {
        AcceptedReplays(next, calls[1..]);
        var offered := Offered(s, calls[0]);
        if offered.Some? && Advance(s, offered.value).Success? {
          assert log[0] == offered.value && log[1..] == rest;
        } else {
          assert next == s && log == rest;
        }
      }
    }
  }

  lemma {:induction false} AbortStays(s: Session, calls: seq<Call>)
    requires -1 <= s.index <= 6 && s.aborted.Some?
    ensures DoAll(s, calls).aborted == s.aborted
    decreases |calls|
  {
    if calls != [] {
      AbortStays(Do(s, calls[0]), calls[1..]);
    }
  }

  /** The log of every completed session is evidence, so a fresh session and ledger accept it. */
  lemma CompletedRunVerifies(m: Metadata, calls: seq<Call>)
    requires m.Valid()
    requires DoAll(Opening(m), calls).Closed() && DoAll(Opening(m), calls).aborted.None?
    ensures Evidence(m, Arr(AcceptedLog(Opening(m), calls)))
  {
    hide SafeId, IsSha256, Canonical;
    AcceptedReplays(Opening(m), calls);
    ReplayIsEvidence(m, AcceptedLog(Opening(m), calls));
  }
}
