/** Decoded JSON values as the Python sources compare them, with the object keys their two schemas name. */
module JsonValues {
  import opened Wrappers

  /** The keys of an ACK, of a KV header and of a tensor entry; every other string is `Other`, numbered. */
  datatype Key =
    | Schema | SchemaVersion | Event | Status | AckName | RequestId | Epoch | AttemptId | BufferId | OwnerId
    | PayloadSha256 | TokenDigestSha256
    | Layout | Dtype | ModelId | ModelSha256 | TokenizerSha256 | PromptLength | PromptDigestSha256 | OutputTokens
    | LayerCount | KvHeadCount | HeadDim | Tensors | PayloadBytes | FirstTokenId
    | Name | Layer | Kind | Shape | OffsetBytes | Nbytes
    | Other(number: nat)

  /** A decoded value. Booleans and numbers compare equal across types in Python, hence PyEq. */
  datatype Json =
    | Null | Bool(b: bool) | Int(i: int) | Float(r: real) | Str(s: string) | Arr(items: seq<Json>)
    | Obj(fields: map<Key, Json>)

  function Number(j: Json): Option<real> {
    match j
    case Bool(b) => Some(if b then 1.0 else 0.0)
    case Int(i) => Some(i as real)
    case Float(r) => Some(r)
    case _ => None
  }

  /** Python's == between a received value and a scalar. */
  predicate PyEq(received: Json, scalar: Json) {
    received == scalar || (Number(received).Some? && Number(received) == Number(scalar))
  }

  /** type(a) is type(b), for a scalar b. */
  predicate SameType(a: Json, b: Json) {
    a.Null? == b.Null? && a.Bool? == b.Bool? && a.Int? == b.Int? && a.Float? == b.Float? && a.Str? == b.Str?
  }

  predicate IsSha256(s: string) {
    |s| == 64 && forall i :: 0 <= i < |s| ==> '0' <= s[i] <= '9' || 'a' <= s[i] <= 'f'
  }

  predicate ShaField(j: Json) {
    j.Str? && IsSha256(j.s)
  }
}
