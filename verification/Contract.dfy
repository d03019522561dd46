/** The acknowledgement contract of src/serverlessx/spd/contract.py: what an ACK must say about the
    immutable metadata of a transfer attempt. */
module Contract {
  import opened JsonValues
  import opened Wrappers

  datatype Error = MetadataError | ProtocolError | OwnershipError

  predicate IsAlnum(c: char) {
    'A' <= c <= 'Z' || 'a' <= c <= 'z' || '0' <= c <= '9'
  }

  predicate SafeId(s: string) {
    && 1 <= |s| <= 128 && IsAlnum(s[0])
    && forall i :: 1 <= i < |s| ==> IsAlnum(s[i]) || s[i] in "._:-"
  }

  /** The identity fields of a metadata object. */
  datatype Metadata = Metadata(requestId: string, epoch: int, attemptId: string, payloadSha256: string,
                               sourceOwnerId: string, targetOwnerId: string, bufferId: string)
  {
    /** What validate_metadata demands of them. */
    predicate Valid() {
      && SafeId(requestId) && epoch >= 0 && SafeId(attemptId) && IsSha256(payloadSha256)
      && SafeId(sourceOwnerId) && SafeId(targetOwnerId) && SafeId(bufferId)
      && sourceOwnerId != targetOwnerId
    }
  }

  datatype AckKind =
    | TargetReady | TransferSubmitted | TransferCompleted | CacheVerified | DecodeDone | Released | SourceReleased

  const SCHEMA := "serverlesspd.real-pd-gdr-contract.v1"
  const SEQUENCE: seq<AckKind> :=
    [TargetReady, TransferSubmitted, TransferCompleted, CacheVerified, DecodeDone, Released, SourceReleased]

  function NameOf(k: AckKind): string {
    match k
    case TargetReady => "TARGET_READY"
    case TransferSubmitted => "TRANSFER_SUBMITTED"
    case TransferCompleted => "TRANSFER_COMPLETED"
    case CacheVerified => "CACHE_VERIFIED"
    case DecodeDone => "DECODE_DONE"
    case Released => "RELEASED"
    case SourceReleased => "SOURCE_RELEASED"
  }

  /** AckKind(value): the kind of that name, if there is one. */
  function KindOf(j: Json): (r: Option<AckKind>)
    ensures forall k :: r == Some(k) <==> j == Str(NameOf(k))
  {
    if !j.Str? then None
    else if j.s == NameOf(TargetReady) then Some(TargetReady)
    else if j.s == NameOf(TransferSubmitted) then Some(TransferSubmitted)
    else if j.s == NameOf(TransferCompleted) then Some(TransferCompleted)
    else if j.s == NameOf(CacheVerified) then Some(CacheVerified)
    else if j.s == NameOf(DecodeDone) then Some(DecodeDone)
    else if j.s == NameOf(Released) then Some(Released)
    else if j.s == NameOf(SourceReleased) then Some(SourceReleased)
    else None
  }

  function OwnerOf(k: AckKind, m: Metadata): string {
    if k in {TransferSubmitted, TransferCompleted, SourceReleased} then m.sourceOwnerId else m.targetOwnerId
  }

  predicate ClaimsPayload(k: AckKind) {
    k in {TransferCompleted, CacheVerified, DecodeDone, Released, SourceReleased}
  }

  predicate ClaimsTokens(k: AckKind) {
    k in {DecodeDone, Released, SourceReleased}
  }

  function OrNull(s: Option<string>): Json {
    if s.Some? then Str(s.value) else Null
  }

  function AckObject(k: AckKind, m: Metadata, owner: string, payload: Option<string>,
                     token: Option<string>): map<Key, Json> {
    map[Schema := Str(SCHEMA), SchemaVersion := Int(1), Event := Str("ack"), Status := Str("pass"),
        AckName := Str(NameOf(k)), RequestId := Str(m.requestId), Epoch := Int(m.epoch),
        AttemptId := Str(m.attemptId), BufferId := Str(m.bufferId), OwnerId := Str(owner),
        PayloadSha256 := OrNull(payload), TokenDigestSha256 := OrNull(token)]
  }

  const ACK_KEYS: set<Key> :=
    {Schema, SchemaVersion, Event, Status, AckName, RequestId, Epoch, AttemptId, BufferId, OwnerId, PayloadSha256,
     TokenDigestSha256}

  /** make_ack: owner and payload default to what the metadata says. */
  function MakeAck(kind: Json, m: Metadata, owner: Option<string>, payload: Option<string>, token: Option<string>):
    Result<Json, Error>
  {
    if !m.Valid() then Failure(MetadataError)
    else if KindOf(kind).None? then Failure(ProtocolError)
    else
      var k := KindOf(kind).value;
      Success(Obj(AckObject(k, m, if owner.Some? then owner.value else OwnerOf(k, m),
                            if payload.None? && ClaimsPayload(k) then Some(m.payloadSha256) else payload, token)))
  }

  predicate Matches(received: Json, bound: Json) {
    PyEq(received, bound) && SameType(received, bound)
  }

  /** validate_ack, in the order of its checks; success returns the checked object. */
  function ValidateAck(value: Json, m: Metadata, expected: Option<AckKind>): Result<map<Key, Json>, Error> {
    if !value.Obj? || value.fields.Keys != ACK_KEYS then Failure(ProtocolError)
    else if !m.Valid() then Failure(MetadataError)
    else
      var ack := value.fields;
      if !PyEq(ack[Schema], Str(SCHEMA)) || !ack[SchemaVersion].Int? || !PyEq(ack[SchemaVersion], Int(1)) then
        Failure(ProtocolError)
      else if !PyEq(ack[Event], Str("ack")) || !PyEq(ack[Status], Str("pass")) then Failure(ProtocolError)
      else if KindOf(ack[AckName]).None? then Failure(ProtocolError)
      else
        var kind := KindOf(ack[AckName]).value;
        if expected.Some? && kind != expected.value then Failure(ProtocolError)
        else if !Matches(ack[RequestId], Str(m.requestId)) || !Matches(ack[Epoch], Int(m.epoch)) ||
                !Matches(ack[AttemptId], Str(m.attemptId)) || !Matches(ack[BufferId], Str(m.bufferId)) then
          Failure(ProtocolError)
        else if !PyEq(ack[OwnerId], Str(OwnerOf(kind, m))) then Failure(OwnershipError)
        else if ClaimsPayload(kind) && !ShaField(ack[PayloadSha256]) then Failure(ProtocolError)
        else if ClaimsPayload(kind) && !PyEq(ack[PayloadSha256], Str(m.payloadSha256)) then
          Failure(ProtocolError)
        else if !ClaimsPayload(kind) && !ack[PayloadSha256].Null? then Failure(ProtocolError)
        else if ClaimsTokens(kind) && !ShaField(ack[TokenDigestSha256]) then Failure(ProtocolError)
        else if !ClaimsTokens(kind) && !ack[TokenDigestSha256].Null? then Failure(ProtocolError)
        else Success(ack)
  }

  /** The token digest an ACK of this kind carries in a run that decoded to `digest`. */
  function TokenFor(k: AckKind, digest: string): Option<string> {
    if ClaimsTokens(k) then Some(digest) else None
  }

  /** The one ACK of a kind that the contract admits for an attempt and a token digest. */
  function Canonical(k: AckKind, m: Metadata, digest: string): map<Key, Json> {
    AckObject(k, m, OwnerOf(k, m), if ClaimsPayload(k) then Some(m.payloadSha256) else None, TokenFor(k, digest))
  }

  /** Validation pins every byte of an ACK but the digest: an ACK of the expected kind is accepted exactly
      when it is the canonical one for some well-formed digest, and it is returned unchanged. */
  lemma ValidateAckExact(value: Json, m: Metadata, k: AckKind)
    requires m.Valid()
    ensures ValidateAck(value, m, Some(k)).Success?
       <==> exists digest :: (ClaimsTokens(k) ==> IsSha256(digest)) && value == Obj(Canonical(k, m, digest))
    ensures ValidateAck(value, m, Some(k)).Success? ==> value == Obj(ValidateAck(value, m, Some(k)).value)
  {
    if ValidateAck(value, m, Some(k)).Success? {
      AcceptedIsCanonical(value, m, k);
    }
    forall digest | (ClaimsTokens(k) ==> IsSha256(digest)) && value == Obj(Canonical(k, m, digest))
      ensures ValidateAck(value, m, Some(k)).Success?
    {
      CanonicalIsAccepted(k, m, digest);
    }
  }

  lemma AcceptedIsCanonical(value: Json, m: Metadata, k: AckKind)
    requires ValidateAck(value, m, Some(k)).Success?
    ensures value == Obj(ValidateAck(value, m, Some(k)).value)
    ensures var digest := if ClaimsTokens(k) then DigestOf(value) else "";
            (ClaimsTokens(k) ==> IsSha256(digest)) && value == Obj(Canonical(k, m, digest))
  {
    hide SafeId, IsSha256, NameOf, PyEq, SameType, Canonical;
    StrictEquality();
    var ack, digest := value.fields, if ClaimsTokens(k) then DigestOf(value) else "";
    CanonicalFields(k, m, digest);
    var c := Canonical(k, m, digest);
    assert ack[SchemaVersion] == c[SchemaVersion];
    assert ack[Epoch].Int?;
    assert ack[Epoch] == c[Epoch];
    assert ack[AckName] == c[AckName];
    assert ack[PayloadSha256] == c[PayloadSha256];
    assert ack[TokenDigestSha256] == c[TokenDigestSha256];
    assert forall key :: key in ACK_KEYS ==> ack[key] == c[key];
    assert ack == c;
  }

  /** Against a string, and against an integer of the same type, Python equality is identity. */
  lemma StrictEquality()
    ensures forall j, s :: PyEq(j, Str(s)) <==> j == Str(s)
    ensures forall j: Json, n :: j.Int? ==> (PyEq(j, Int(n)) <==> j == Int(n))
    ensures forall j, n :: SameType(j, Int(n)) <==> j.Int?
    ensures forall j, s :: SameType(j, Str(s)) <==> j.Str?
  {
  }

  lemma CanonicalFields(k: AckKind, m: Metadata, digest: string)
    ensures var c := Canonical(k, m, digest);
            && c.Keys == ACK_KEYS
            && c[Schema] == Str(SCHEMA) && c[SchemaVersion] == Int(1) && c[Event] == Str("ack")
            && c[Status] == Str("pass")
            && c[AckName] == Str(NameOf(k)) && c[RequestId] == Str(m.requestId) && c[Epoch] == Int(m.epoch)
            && c[AttemptId] == Str(m.attemptId) && c[BufferId] == Str(m.bufferId) && c[OwnerId] == Str(OwnerOf(k, m))
            && c[PayloadSha256] == (if ClaimsPayload(k) then Str(m.payloadSha256) else Null)
            && c[TokenDigestSha256] == (if ClaimsTokens(k) then Str(digest) else Null)
  {
    hide NameOf, OwnerOf;
  }

  /** The token digest an ACK carries, or the empty string. */
  function DigestOf(value: Json): string {
    if value.Obj? && TokenDigestSha256 in value.fields && value.fields[TokenDigestSha256].Str?
    then value.fields[TokenDigestSha256].s else ""
  }

  lemma CanonicalIsAccepted(k: AckKind, m: Metadata, digest: string)
    requires m.Valid() && (ClaimsTokens(k) ==> IsSha256(digest))
    ensures ValidateAck(Obj(Canonical(k, m, digest)), m, Some(k)) == Success(Canonical(k, m, digest))
    ensures ClaimsTokens(k) ==> DigestOf(Obj(Canonical(k, m, digest))) == digest
  {
    hide SafeId, IsSha256, NameOf, PyEq, SameType, Canonical;
    StrictEquality();
    CanonicalFields(k, m, digest);
  }

  lemma MadeFields(k: AckKind, m: Metadata, owner: string, payload: Option<string>, token: Option<string>)
    ensures var made := AckObject(k, m, owner, payload, token);
            && made.Keys == ACK_KEYS && made[AckName] == Str(NameOf(k)) && made[OwnerId] == Str(owner)
            && made[PayloadSha256] == OrNull(payload) && made[TokenDigestSha256] == OrNull(token)
  {
    hide NameOf;
  }

  /** An ACK as make_ack lays it out is accepted exactly with the right owner, payload and kind of digest. */
  lemma MadeAccepted(k: AckKind, m: Metadata, owner: string, payload: Option<string>, token: Option<string>)
    requires m.Valid()
    ensures ValidateAck(Obj(AckObject(k, m, owner, payload, token)), m, Some(k)).Success?
       <==> && owner == OwnerOf(k, m)
            && payload == (if ClaimsPayload(k) then Some(m.payloadSha256) else None)
            && (if ClaimsTokens(k) then token.Some? && IsSha256(token.value) else token.None?)
    ensures DigestOf(Obj(AckObject(k, m, owner, payload, token))) == if token.Some? then token.value else ""
  {
    hide SafeId, IsSha256, NameOf, OwnerOf, Metadata.Valid, ValidateAck, AckObject;
    var made := AckObject(k, m, owner, payload, token);
    MadeFields(k, m, owner, payload, token);
    if ValidateAck(Obj(made), m, Some(k)).Success? {
      AcceptedIsCanonical(Obj(made), m, k);
      CanonicalFields(k, m, if ClaimsTokens(k) then DigestOf(Obj(made)) else "");
    }
    if ClaimsTokens(k) && token.Some? && IsSha256(token.value) {
      CanonicalIsAccepted(k, m, token.value);
    } else if !ClaimsTokens(k) && token.None? {
      CanonicalIsAccepted(k, m, "");
    }
  }

  lemma MadeKind(k: AckKind, expected: AckKind, m: Metadata, owner: string, payload: Option<string>,
                 token: Option<string>)
    requires ValidateAck(Obj(AckObject(k, m, owner, payload, token)), m, Some(expected)).Success?
    ensures k == expected
  {
    hide AckObject, Canonical, NameOf, ValidateAck, DigestOf;
    var made := AckObject(k, m, owner, payload, token);
    AcceptedIsCanonical(Obj(made), m, expected);
    CanonicalFields(expected, m, if ClaimsTokens(expected) then DigestOf(Obj(made)) else "");
    MadeFields(k, m, owner, payload, token);
    assert KindOf(Str(NameOf(k))) == Some(k) && KindOf(Str(NameOf(expected))) == Some(expected);
  }

  /** A defaulted make_ack produces the canonical ACK, and no digest makes it acceptable when one is due. */
  lemma MakeAckCanonical(k: AckKind, m: Metadata, digest: string)
    requires m.Valid()
    ensures MakeAck(Str(NameOf(k)), m, None, None, TokenFor(k, digest)) == Success(Obj(Canonical(k, m, digest)))
    ensures ClaimsTokens(k) && !IsSha256(digest) ==>
              ValidateAck(Obj(Canonical(k, m, digest)), m, Some(k)) == Failure(ProtocolError)
  {
    hide IsSha256, PyEq, SameType;
    StrictEquality();
    CanonicalFields(k, m, digest);
  }

  /** An accepted ACK names its attempt, so it is refused for any other attempt, whatever kind is expected. */
  lemma AckBindsAttempt(value: Json, m: Metadata, other: Metadata, e: Option<AckKind>, e': Option<AckKind>)
    requires ValidateAck(value, m, e).Success? && other.Valid()
    requires m.attemptId != other.attemptId || m.bufferId != other.bufferId
    ensures ValidateAck(value, other, e') == Failure(ProtocolError)
  {
    hide SafeId, IsSha256, NameOf, PyEq, SameType;
    StrictEquality();
  }
}
