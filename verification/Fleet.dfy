/** Any number of sessions sharing one ledger, their calls interleaved in any order
    (src/serverlessx/spd/contract.py). */
module Fleet {
  import opened Wrappers
  import opened Contract
  import opened JsonValues
  import opened Ledger
  import opened TransferSessions

  /** The reservations the ledger accepted, and the sessions opened from it. */
  datatype State = State(history: seq<Metadata>, sessions: seq<Session>)

  datatype Action =
    | Reserve(m: Metadata)            // a reservation made without a session
    | Open(m: Metadata)               // a session opened with the shared ledger
    | Use(i: nat, call: Call)         // any call on any session

  ghost predicate Accepts(s: State, m: Metadata) {
    m.Valid() && Admissible(s.history, m)
  }

  ghost predicate WellFormed(s: State) {
    Proper(s.history) && forall i :: 0 <= i < |s.sessions| ==> Coherent(s.sessions[i])
  }

  ghost function Next(s: State, a: Action): State
    requires WellFormed(s)
  {
    match a
    case Reserve(m) => if Accepts(s, m) then s.(history := s.history + [m]) else s
    case Open(m) =>
      if Accepts(s, m) then State(s.history + [m], s.sessions + [Opening(m)]) else s
    case Use(i, call) =>
      if i < |s.sessions| then s.(sessions := s.sessions[i := Do(s.sessions[i], call)]) else s
  }

  /** Each session holds a reservation of its own. */
  ghost predicate Distinct(s: State) {
    && WellFormed(s)
    && (forall i :: 0 <= i < |s.sessions| ==> s.sessions[i].value in s.history)
    && (forall i, j :: 0 <= i < j < |s.sessions| ==>
          && s.sessions[i].value.attemptId != s.sessions[j].value.attemptId
          && s.sessions[i].value.bufferId != s.sessions[j].value.bufferId
          && (s.sessions[i].value.requestId == s.sessions[j].value.requestId ==>
                s.sessions[i].value.epoch < s.sessions[j].value.epoch))
  }

  lemma NextKeepsDistinct(s: State, a: Action)
    requires Distinct(s)
    ensures Distinct(Next(s, a)) && s.history <= Next(s, a).history
  {
    hide SafeId, IsSha256, Do, Proper;
    match a
    case Reserve(m) =>
      if Accepts(s, m) {
        ProperExtends(s.history, m);
      }
    case Open(m) =>
      if Accepts(s, m) {
        ProperExtends(s.history, m);
        OpeningCoherent(m);
      }
    case Use(i, call) =>
      if i < |s.sessions| {
        DoKeepsCoherent(s.sessions[i], call);
      }
  }

  ghost function Run(s: State, actions: seq<Action>): State
    requires Distinct(s)
    decreases |actions|
  {
    if actions == [] then s
    else
      NextKeepsDistinct(s, actions[0]);
      Run(Next(s, actions[0]), actions[1..])
  }

  lemma {:induction false} RunKeepsDistinct(s: State, actions: seq<Action>)
    requires Distinct(s)
    ensures Distinct(Run(s, actions)) && s.history <= Run(s, actions).history
    decreases |actions|
  {
    if actions != [] {
      NextKeepsDistinct(s, actions[0]);
      RunKeepsDistinct(Next(s, actions[0]), actions[1..]);
    }
  }

  /** In every interleaving the accepted reservations of one request come with increasing epochs, no
      attempt and no buffer is ever reserved twice, and every session is coherent. */
  lemma FleetInvariant(actions: seq<Action>, i: nat, j: nat)
    requires i < j < |Run(State([], []), actions).history|
    ensures var h := Run(State([], []), actions).history;
            && h[i].attemptId != h[j].attemptId && h[i].bufferId != h[j].bufferId
            && (h[i].requestId == h[j].requestId ==> h[i].epoch < h[j].epoch)
  {
    RunKeepsDistinct(State([], []), actions);
    var h := Run(State([], []), actions).history;
    assert Admissible(h[..j], h[j]);
    assert h[..j][i] == h[i];
  }

  /** Isolation: after any interleaving, an ACK that one session accepts in whatever state is refused by
      every other session in whatever state, and moves it nowhere. */
  lemma CrossSessionIsolation(actions: seq<Action>, i: nat, j: nat, s: Session, t: Session, ack: Json)
    requires var f := Run(State([], []), actions);
             && i < |f.sessions| && j < |f.sessions| && i != j
             && s.value == f.sessions[i].value && t.value == f.sessions[j].value
    requires -1 <= s.index <= 6 && -1 <= t.index <= 6
    requires Advance(s, ack).Success?
    ensures Advance(t, ack) == Failure(ProtocolError) && Do(t, CallAdvance(ack)) == t
  {
    RunKeepsDistinct(State([], []), actions);
    var f := Run(State([], []), actions);
    assert Coherent(f.sessions[j]);
    AckBindsAttempt(ack, s.value, t.value, s.NextKind(), t.NextKind());
  }
}
