/** The transfer session of src/serverlessx/spd/contract.py: seven ACKs in order, two owned resources,
    abort and cleanup. */
module TransferSessions {
  import opened Wrappers
  import opened Contract
  import opened JsonValues
  import opened Ledger

  /** The state of a session, as a value. */
  datatype Session = Session(value: Metadata, index: int, aborted: Option<string>, sourceOwned: bool, targetOwned: bool,
                             tokenDigest: Option<string>)
  {
    predicate Closed() {
      if aborted.Some? then !sourceOwned && !targetOwned else index == 6 && !sourceOwned && !targetOwned
    }

    function NextKind(): Option<AckKind>
      requires -1 <= index <= 6
    {
      if aborted.Some? || index + 1 >= 7 then None else Some(SEQUENCE[index + 1])
    }
  }

  function Opening(m: Metadata): Session {
    Session(m, -1, None, true, false, None)
  }

  predicate IsSpace(c: char) {
    || '\t' <= c <= '\r' || '\U{1c}' <= c <= ' '
    || c in {'\U{85}', '\U{a0}', '\U{1680}', '\U{2028}', '\U{2029}', '\U{202f}', '\U{205f}', '\U{3000}'}
    || '\U{2000}' <= c <= '\U{200a}'
  }

  predicate AcceptableReason(reason: string) {
    (exists i :: 0 <= i < |reason| && !IsSpace(reason[i])) && |reason| <= 512
  }

  // ---------- the three mutators, as functions ----------

  datatype Advanced = Advanced(session: Session, ack: map<Key, Json>)

  function Advance(s: Session, ack: Json): Result<Advanced, Error>
    requires -1 <= s.index <= 6
  {
    if s.aborted.Some? || s.NextKind().None? then Failure(ProtocolError)
    else
      var kind := s.NextKind().value;
      var checked := ValidateAck(ack, s.value, Some(kind));
      if checked.Failure? then Failure(checked.error)
      else if kind in {Released, SourceReleased} && Str(DigestOf(ack)) != OrNull(s.tokenDigest) then
        Failure(ProtocolError)
      else Success(Advanced(s.(index := s.index + 1,
                               targetOwned := kind == TargetReady || (kind != Released && s.targetOwned),
                               sourceOwned := s.sourceOwned && kind != SourceReleased,
                               tokenDigest := if kind == DecodeDone then Some(DigestOf(ack)) else s.tokenDigest),
                            checked.value))
  }

  function Abort(s: Session, reason: string): Result<Session, Error> {
    if s.Closed() || s.aborted.Some? || !AcceptableReason(reason) then Failure(ProtocolError)
    else Success(s.(aborted := Some(reason)))
  }

  function CleanupOwner(s: Session, ownerId: string): Result<Session, Error> {
    if s.aborted.None? then Failure(ProtocolError)
    else if !SafeId(ownerId) then Failure(OwnershipError)
    else if ownerId == s.value.sourceOwnerId && s.sourceOwned then Success(s.(sourceOwned := false))
    else if ownerId == s.value.targetOwnerId && s.targetOwned then Success(s.(targetOwned := false))
    else Failure(OwnershipError)
  }

  /** The ACK advance_kind builds before it advances. */
  function BuildAck(s: Session, kind: string, owner: Option<string>, payload: Option<string>, token: Option<string>):
    Result<Json, Error>
  {
    var named := KindOf(Str(kind));
    if named.None? then Failure(ProtocolError)
    else MakeAck(Str(kind), s.value, owner, payload,
                 if token.None? && named.value in {Released, SourceReleased} then s.tokenDigest else token)
  }

  // ---------- what advance_kind accepts, by its arguments ----------

  /** The kind is the next one by name, and every argument is left to its default or is what the contract demands;
      only the digest of DECODE_DONE is the caller's choice. */
  predicate KindAccepted(s: Session, kind: string, owner: Option<string>, payload: Option<string>,
                         token: Option<string>) {
    && s.aborted.None? && -1 <= s.index < 6
    && var k := SEQUENCE[s.index + 1];
    && kind == NameOf(k) && owner in {None, Some(OwnerOf(k, s.value))}
    && (payload.Some? ==> ClaimsPayload(k) && payload.value == s.value.payloadSha256)
    && (if k == DecodeDone then token.Some? && IsSha256(token.value)
        else token.Some? ==> (k == Released || k == SourceReleased) && token == s.tokenDigest)
  }

  lemma AdvanceKindExactly(s: Session, kind: string, owner: Option<string>, payload: Option<string>,
                           token: Option<string>)
    requires Coherent(s)
    ensures var built := BuildAck(s, kind, owner, payload, token);
            KindAccepted(s, kind, owner, payload, token) <==> built.Success? && Advance(s, built.value).Success?
  {
    hide SafeId, IsSha256, Metadata.Valid, ValidateAck, AckObject, OwnerOf, NameOf, DigestOf;
    var next, named := s.NextKind(), KindOf(Str(kind));
    if next.Some? && named.Some? {
      var k, m := named.value, s.value;
      var o := if owner.Some? then owner.value else OwnerOf(k, m);
      var p := if payload.None? && ClaimsPayload(k) then Some(m.payloadSha256) else payload;
      var t := if token.None? && k in {Released, SourceReleased} then s.tokenDigest else token;
      MadeAccepted(k, m, o, p, t);
      if ValidateAck(Obj(AckObject(k, m, o, p, t)), m, next).Success? {
        MadeKind(k, next.value, m, o, p, t);
      }
    }
  }

  // ---------- the class ----------

  class TransferSession {
    const value: Metadata
    const ledger: EpochLedger?
    var index: int
    var abortedReason: Option<string>
    var sourceOwned: bool
    var targetOwned: bool
    var tokenDigest: Option<string>

    constructor (m: Metadata, ledger: EpochLedger?)
      ensures View() == Opening(m) && this.ledger == ledger
    {
      this.value, this.ledger := m, ledger;
      index, abortedReason, sourceOwned, targetOwned, tokenDigest := -1, None, true, false, None;
    }

    function View(): Session
      reads this
    {
      Session(value, index, abortedReason, sourceOwned, targetOwned, tokenDigest)
    }

    predicate InRange()
      reads this
    {
      -1 <= index <= 6
    }

    /** Opening a session validates its metadata and reserves it with the ledger, or opens nothing. */
    static method Open(m: Metadata, ledger: EpochLedger?) returns (r: Result<TransferSession, Error>)
      requires ledger != null ==> ledger.Valid()
      modifies ledger
      ensures ledger != null ==> ledger.Valid()
      ensures r.Success? <==> m.Valid() && (ledger != null ==> Admissible(old(ledger.history), m))
      ensures r.Success? ==> fresh(r.value) && r.value.View() == Opening(m) && r.value.ledger == ledger
      ensures ledger != null ==> ledger.history == if r.Success? then old(ledger.history) + [m] else old(ledger.history)
      ensures r.Failure? ==> r.error == if m.Valid() then ProtocolError else MetadataError
    {
      if !m.Valid() {
        return Failure(MetadataError);
      }
      if ledger != null {
        var reserved := ledger.Reserve(m);
        if reserved.Failure? {
          return Failure(reserved.error);
        }
      }
      var session := new TransferSession(m, ledger);
      r := Success(session);
    }

    /** An ACK advances an unaborted, unfinished session exactly when it is valid for the next kind and, where
        it releases a resource, repeats the digest of DECODE_DONE; it moves the session one step on. */
    method AdvanceAck(ack: Json) returns (r: Result<map<Key, Json>, Error>)
      requires InRange()
      modifies this
      ensures InRange()
      ensures r.Success? <==>
                && old(abortedReason).None? && old(index) < 6
                && var kind := SEQUENCE[old(index) + 1];
                && ValidateAck(ack, value, Some(kind)).Success?
                && (kind == Released || kind == SourceReleased ==> old(tokenDigest) == Some(DigestOf(ack)))
      ensures r.Success? ==>
                var kind := SEQUENCE[old(index) + 1];
                && index == old(index) + 1 && abortedReason == old(abortedReason)
                && targetOwned == (kind == TargetReady || (kind != Released && old(targetOwned)))
                && sourceOwned == (kind != SourceReleased && old(sourceOwned))
                && tokenDigest == (if kind == DecodeDone then Some(DigestOf(ack)) else old(tokenDigest))
      ensures r.Failure? ==> View() == old(View())
      ensures match Advance(old(View()), ack)
              case Failure(e) => r == Failure(e) && View() == old(View())
              case Success(a) => r == Success(a.ack) && View() == a.session
    {
      hide ValidateAck, SafeId, IsSha256, DigestOf, Metadata.Valid;
      if abortedReason.Some? {
        return Failure(ProtocolError);
      }
      var expected := View().NextKind();
      if expected.None? {
        return Failure(ProtocolError);
      }
      var checked := ValidateAck(ack, value, expected);
      if checked.Failure? {
        return Failure(checked.error);
      }
      if expected.value == TargetReady {
        targetOwned := true;
      } else if expected.value == DecodeDone {
        tokenDigest := Some(DigestOf(ack));
      } else if expected.value == Released {
        if Str(DigestOf(ack)) != OrNull(tokenDigest) {
          return Failure(ProtocolError);
        }
        targetOwned := false;
      } else if expected.value == SourceReleased {
        if Str(DigestOf(ack)) != OrNull(tokenDigest) {
          return Failure(ProtocolError);
        }
        sourceOwned := false;
      }
      index := index + 1;
      r := Success(checked.value);
    }

    method AdvanceKind(kind: string, owner: Option<string>, payload: Option<string>, token: Option<string>)
      returns (r: Result<map<Key, Json>, Error>)
      requires InRange()
      modifies this
      ensures InRange()
      ensures var built := BuildAck(old(View()), kind, owner, payload, token);
              if built.Failure? then r == Failure(built.error) && View() == old(View())
              else match Advance(old(View()), built.value)
                   case Failure(e) => r == Failure(e) && View() == old(View())
                   case Success(a) => r == Success(a.ack) && View() == a.session
      ensures Coherent(old(View())) ==>
                (r.Success? <==> KindAccepted(old(View()), kind, owner, payload, token))
    {
      if Coherent(View()) {
        AdvanceKindExactly(View(), kind, owner, payload, token);
      }
      hide KindAccepted, Coherent, MakeAck, ValidateAck;
      var built := BuildAck(View(), kind, owner, payload, token);
      if built.Failure? {
        return Failure(built.error);
      }
      r := AdvanceAck(built.value);
    }

    /** Aborting is for a session that is neither closed nor aborted, with an acceptable reason; it records the
        reason and releases nothing. */
    method AbortWith(reason: string) returns (r: Result<(), Error>)
      requires InRange()
      modifies this
      ensures r.Success? <==>
                && old(abortedReason).None? && AcceptableReason(reason)
                && !(old(index) == 6 && !old(sourceOwned) && !old(targetOwned))
      ensures View() == if r.Success? then old(View()).(aborted := Some(reason)) else old(View())
      ensures r.Failure? ==> r.error == ProtocolError
      ensures match Abort(old(View()), reason)
              case Failure(e) => r == Failure(e) && View() == old(View())
              case Success(s) => r == Success(()) && View() == s
    {
      if View().Closed() {
        return Failure(ProtocolError);
      }
      if abortedReason.Some? {
        return Failure(ProtocolError);
      }
      if !AcceptableReason(reason) {
        return Failure(ProtocolError);
      }
      abortedReason := Some(reason);
      r := Success(());
    }

    /** Cleanup is for an aborted session and for the id of an owner that still holds its resource; it releases
        that one and nothing else. */
    method Cleanup(ownerId: string) returns (r: Result<(), Error>)
      requires InRange()
      modifies this
      ensures r.Success? <==>
                && old(abortedReason).Some? && SafeId(ownerId)
                && (|| (ownerId == value.sourceOwnerId && old(sourceOwned))
                    || (ownerId == value.targetOwnerId && old(targetOwned)))
      ensures r.Success? && ownerId == value.sourceOwnerId && old(sourceOwned) ==>
                View() == old(View()).(sourceOwned := false)
      ensures r.Success? && !(ownerId == value.sourceOwnerId && old(sourceOwned)) ==>
                View() == old(View()).(targetOwned := false)
      ensures r.Failure? ==>
                && View() == old(View())
                && r.error == if old(abortedReason).None? then ProtocolError else OwnershipError
      ensures match CleanupOwner(old(View()), ownerId)
              case Failure(e) => r == Failure(e) && View() == old(View())
              case Success(s) => r == Success(()) && View() == s
    {
      if abortedReason.None? {
        return Failure(ProtocolError);
      }
      if !SafeId(ownerId) {
        return Failure(OwnershipError);
      }
      if ownerId == value.sourceOwnerId && sourceOwned {
        sourceOwned := false;
        return Success(());
      }
      if ownerId == value.targetOwnerId && targetOwned {
        targetOwned := false;
        return Success(());
      }
      r := Failure(OwnershipError);
    }
  }

  // ---------- every sequence of calls ----------

  datatype Call =
    | CallAdvance(ack: Json)
    | CallAdvanceKind(kind: string, owner: Option<string>, payload: Option<string>, token: Option<string>)
    | CallAbort(reason: string)
    | CallCleanup(ownerId: string)

  /** The ACK a call would advance with, if it is an advancing call that gets so far. */
  function Offered(s: Session, call: Call): Option<Json> {
    match call
    case CallAdvance(ack) => Some(ack)
    case CallAdvanceKind(kind, owner, payload, token) =>
      var built := BuildAck(s, kind, owner, payload, token);
      if built.Success? then Some(built.value) else None
    case _ => None
  }

  /** The session after a call; a call that raises leaves it alone. */
  function Do(s: Session, call: Call): (s': Session)
    requires -1 <= s.index <= 6
    ensures -1 <= s'.index <= 6
  {
    var offered := Offered(s, call);
    if offered.Some? then
      var r := Advance(s, offered.value);
      if r.Success? then r.value.session else s
    else if call.CallAbort? && Abort(s, call.reason).Success? then Abort(s, call.reason).value
    else if call.CallCleanup? && CleanupOwner(s, call.ownerId).Success? then CleanupOwner(s, call.ownerId).value
    else s
  }

  function DoAll(s: Session, calls: seq<Call>): (s': Session)
    requires -1 <= s.index <= 6
    ensures -1 <= s'.index <= 6
    decreases |calls|
  {
    if calls == [] then s else DoAll(Do(s, calls[0]), calls[1..])
  }

  /** Who owns what, as a matter of how far the session has come. */
  predicate Coherent(s: Session) {
    && -1 <= s.index <= 6 && s.value.Valid()
    && (s.tokenDigest.Some? <==> s.index >= 4)
    && (s.tokenDigest.Some? ==> IsSha256(s.tokenDigest.value))
    && (s.aborted.None? ==> (s.sourceOwned <==> s.index < 6) && (s.targetOwned <==> 0 <= s.index <= 4))
    && (s.aborted.Some? ==> s.index < 6 && (s.targetOwned ==> 0 <= s.index <= 4))
  }

  /** A later state: never un-aborted, and from an abort on ownership only shrinks and the index stands. */
  predicate Follows(s: Session, s': Session) {
    && s'.value == s.value && s.index <= s'.index
    && (s.tokenDigest.Some? ==> s'.tokenDigest == s.tokenDigest)
    && (s.aborted.Some? ==>
          && s'.aborted == s.aborted && s'.index == s.index && s'.tokenDigest == s.tokenDigest
          && (s'.sourceOwned ==> s.sourceOwned) && (s'.targetOwned ==> s.targetOwned))
    && (s.Closed() ==> s' == s)
  }

  /** After an abort an owner's flag falls only in a cleanup call that names it. */
  predicate ReleasedByName(s: Session, s': Session, calls: seq<Call>) {
    s.aborted.Some? ==>
      && (s.sourceOwned && !s'.sourceOwned ==> CallCleanup(s.value.sourceOwnerId) in calls)
      && (s.targetOwned && !s'.targetOwned ==> CallCleanup(s.value.targetOwnerId) in calls)
  }

  lemma DoKeepsCoherent(s: Session, call: Call)
    requires Coherent(s)
    ensures Coherent(Do(s, call)) && Follows(s, Do(s, call)) && ReleasedByName(s, Do(s, call), [call])
  {
    hide SafeId, AcceptableReason, Canonical, NameOf;
    var offered := Offered(s, call);
    if offered.Some? && s.NextKind().Some? && Advance(s, offered.value).Success? {
      hide ValidateAck, IsSha256;
      AcceptedIsCanonical(offered.value, s.value, s.NextKind().value);
    }
  }

  /** The session invariant over every sequence of calls from opening, and how any later state relates to
      any earlier one. */
  lemma {:induction false} SessionInvariant(s: Session, calls: seq<Call>)
    requires Coherent(s)
    ensures Coherent(DoAll(s, calls)) && Follows(s, DoAll(s, calls)) && ReleasedByName(s, DoAll(s, calls), calls)
    decreases |calls|
  {
    if calls != [] {
      DoKeepsCoherent(s, calls[0]);
      SessionInvariant(Do(s, calls[0]), calls[1..]);
    }
  }

  lemma OpeningCoherent(m: Metadata)
    requires m.Valid()
    ensures Coherent(Opening(m)) && !Opening(m).Closed()
  {
  }

  /** Calls that close a session that is not closed. */
  function ClosingCalls(s: Session): (calls: seq<Call>)
    ensures |calls| <= 3
  {
    (if s.aborted.None? then [CallAbort("operator")] else [])
    + (if s.sourceOwned then [CallCleanup(s.value.sourceOwnerId)] else [])
    + (if s.targetOwned then [CallCleanup(s.value.targetOwnerId)] else [])
  }

  /** Closed is reachable from every state in at most three calls, and ClosingCalls are such calls. */
  lemma ClosedReachable(s: Session)
    requires Coherent(s) && !s.Closed()
    ensures DoAll(s, ClosingCalls(s)).Closed() && |ClosingCalls(s)| <= 3
  {
    hide SafeId, IsSha256;
    var rest := (if s.sourceOwned then [CallCleanup(s.value.sourceOwnerId)] else [])
              + (if s.targetOwned then [CallCleanup(s.value.targetOwnerId)] else []);
    if s.aborted.None? {
      assert !IsSpace("operator"[0]);
      assert ClosingCalls(s)[1..] == rest;
      var s' := Do(s, ClosingCalls(s)[0]);
      assert s' == s.(aborted := Some("operator"));
      CleanupCloses(s', rest);
    } else {
      assert ClosingCalls(s) == rest;
      CleanupCloses(s, rest);
    }
  }

  lemma CleanupCloses(s: Session, calls: seq<Call>)
    requires Coherent(s) && s.aborted.Some?
    requires calls == (if s.sourceOwned then [CallCleanup(s.value.sourceOwnerId)] else [])
                    + (if s.targetOwned then [CallCleanup(s.value.targetOwnerId)] else [])
    ensures DoAll(s, calls).Closed()
    decreases |calls|
  {
    hide SafeId, IsSha256;
    if s.sourceOwned {
      var s' := Do(s, calls[0]);
      assert s' == s.(sourceOwned := false);
      CleanupCloses(s', calls[1..]);
    } else if s.targetOwned {
      assert Do(s, calls[0]) == s.(targetOwned := false);
      assert DoAll(s, calls) == DoAll(Do(s, calls[0]), calls[1..]);
      assert calls[1..] == [];
    }
  }
}
