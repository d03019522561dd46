/** The JSON header that travels with a packed KV cache: how it is built, which headers a receiver accepts,
    and the fixed TinyLlama table (src/serverlessx/spd/tinyllama_pd.py, src/serverlessx/spd/contract.py). */
module KvHeader {
  import opened JsonValues
  import opened KvLayout
  import opened Words
  import opened Wrappers

  const KV_SCHEMA := "serverlesspd.real-kv.v1"
  const KV_LAYOUT := "legacy-pkv-l0k-l0v-fp16-le-v1"
  const MAX_PAYLOAD_BYTES := 0x4000_0000

  /** The keys of a header. */
  function HeaderKeys(): set<Key> {
    {Schema, SchemaVersion, Layout, Dtype, ModelId, ModelSha256, TokenizerSha256, RequestId, Epoch, PromptLength,
     PromptDigestSha256, OutputTokens, LayerCount, KvHeadCount, HeadDim, Tensors, PayloadBytes, PayloadSha256,
     FirstTokenId}
  }

  const TENSOR_KEYS: set<Key> := {Name, Layer, Kind, Shape, OffsetBytes, Nbytes}

  /** What a party knows about the request before any header arrives. */
  datatype Expected = Expected(
    modelId: string, modelSha256: string, tokenizerSha256: string, requestId: string, epoch: int,
    promptLength: int, promptDigestSha256: string, outputTokens: int, dims: Dims, vocab: int)

  /** The keys whose values both parties fix. */
  function FixedKeys(): set<Key> {
    HeaderKeys() - {Tensors, PayloadBytes, PayloadSha256, FirstTokenId}
  }

  function FixedValue(e: Expected, k: Key): Json {
    match k
    case Schema => Str(KV_SCHEMA)
    case SchemaVersion => Int(1)
    case Layout => Str(KV_LAYOUT)
    case Dtype => Str("float16")
    case ModelId => Str(e.modelId)
    case ModelSha256 => Str(e.modelSha256)
    case TokenizerSha256 => Str(e.tokenizerSha256)
    case RequestId => Str(e.requestId)
    case Epoch => Int(e.epoch)
    case PromptLength => Int(e.promptLength)
    case PromptDigestSha256 => Str(e.promptDigestSha256)
    case OutputTokens => Int(e.outputTokens)
    case LayerCount => Int(e.dims.layers)
    case KvHeadCount => Int(e.dims.heads)
    case HeadDim => Int(e.dims.headDim)
    case _ => Null
  }

  function Ints(s: seq<int>): (r: seq<Json>)
    ensures |r| == |s| && forall i :: 0 <= i < |s| ==> r[i] == Int(s[i])
  {
    seq(|s|, i requires 0 <= i < |s| => Int(s[i]))
  }

  function TensorJson(e: TensorDesc): Json {
    Obj(map[Name := Str(e.name), Layer := Int(e.layer), Kind := Str(e.kind), Shape := Arr(Ints(e.shape)),
            OffsetBytes := Int(e.offset), Nbytes := Int(e.nbytes)])
  }

  function TableJson(table: seq<TensorDesc>): (r: seq<Json>)
    ensures |r| == |table| && forall i :: 0 <= i < |table| ==> r[i] == TensorJson(table[i])
  {
    seq(|table|, i requires 0 <= i < |table| => TensorJson(table[i]))
  }

  function HeaderField(e: Expected, tensors: seq<Json>, payloadBytes: int, digest: string, first: int, k: Key): Json {
    match k
    case Tensors => Arr(tensors)
    case PayloadBytes => Int(payloadBytes)
    case PayloadSha256 => Str(digest)
    case FirstTokenId => Int(first)
    case _ => FixedValue(e, k)
  }

  /** The header object for some tensors, size, digest and first token. */
  function HeaderObject(e: Expected, tensors: seq<Json>, payloadBytes: int, digest: string, first: int):
    (h: map<Key, Json>)
    ensures h.Keys == HeaderKeys()
  {
    map k | k in HeaderKeys() :: HeaderField(e, tensors, payloadBytes, digest, first, k)
  }

  // ---------- what a header must say ----------

  /** A list that compares equal, in Python, to a list of integers. */
  predicate ShapeMeans(j: Json, shape: seq<int>) {
    j.Arr? && |j.items| == |shape| && forall i :: 0 <= i < |shape| ==> PyEq(j.items[i], Int(shape[i]))
  }

  /** An entry that says what the table does; only its shape is compared loosely. */
  predicate TensorMeans(j: Json, e: TensorDesc) {
    && j.Obj? && j.fields.Keys == TENSOR_KEYS
    && j.fields[Name] == Str(e.name) && j.fields[Layer] == Int(e.layer) && j.fields[Kind] == Str(e.kind)
    && ShapeMeans(j.fields[Shape], e.shape)
    && j.fields[OffsetBytes] == Int(e.offset) && j.fields[Nbytes] == Int(e.nbytes)
  }

  predicate TensorsMean(tensors: seq<Json>, e: Expected) {
    && |tensors| == 2 * e.dims.layers
    && forall i :: 0 <= i < |tensors| ==> TensorMeans(tensors[i], Desc(e.dims, e.promptLength, i))
  }

  function TotalBytes(e: Expected): int {
    if e.dims.layers < 0 then 0 else At(2 * e.dims.layers, TensorBytes(e.dims, e.promptLength))
  }

  /** What both the parties' own data must satisfy for any header to be accepted. */
  predicate Describable(e: Expected) {
    && IsSha256(e.modelSha256) && IsSha256(e.tokenizerSha256) && IsSha256(e.promptDigestSha256)
    && 1 <= TotalBytes(e) <= MAX_PAYLOAD_BYTES
  }

  /** The headers a receiver accepts, stated whole: the one object its own data and some tensors, digest and
      first token determine. */
  ghost predicate Acceptable(header: Json, e: Expected) {
    exists tensors, digest, first ::
      && header == Obj(HeaderObject(e, tensors, TotalBytes(e), digest, first))
      && Describable(e) && IsSha256(digest) && 0 <= first < e.vocab && TensorsMean(tensors, e)
  }

  // ---------- the validators ----------

  /** The comparison of one field: equal, and an integer where an integer is wanted. */
  predicate FieldMatches(received: Json, wanted: Json) {
    PyEq(received, wanted) && (wanted.Int? ==> received.Int?)
  }

  lemma FieldMatchesExactly(received: Json, wanted: Json)
    requires wanted.Int? || wanted.Str?
    ensures FieldMatches(received, wanted) <==> received == wanted
  {
  }

  method CheckTensor(tensor: Json, index: nat, offset: int, expectedShape: seq<int>, expectedBytes: int)
    returns (ok: bool)
    ensures ok <==> TensorMeans(tensor, TensorDesc("L" + Decimal(index / 2) + KindAt(index), index / 2, KindAt(index),
                                                   expectedShape, offset, expectedBytes))
  {
    hide Decimal, KindAt;
    if !tensor.Obj? || tensor.fields.Keys != TENSOR_KEYS {
      return false;
    }
    var fields := tensor.fields;
    FieldMatchesExactly(fields[Name], Str("L" + Decimal(index / 2) + KindAt(index)));
    FieldMatchesExactly(fields[Layer], Int(index / 2));
    FieldMatchesExactly(fields[Kind], Str(KindAt(index)));
    FieldMatchesExactly(fields[OffsetBytes], Int(offset));
    FieldMatchesExactly(fields[Nbytes], Int(expectedBytes));
    ok := && FieldMatches(fields[Name], Str("L" + Decimal(index / 2) + KindAt(index)))
          && FieldMatches(fields[Layer], Int(index / 2))
          && FieldMatches(fields[Kind], Str(KindAt(index)))
          && ShapeMeans(fields[Shape], expectedShape)
          && FieldMatches(fields[OffsetBytes], Int(offset))
          && FieldMatches(fields[Nbytes], Int(expectedBytes));
  }

  /** The tensor loop of validate_kv_header, with its running offset. */
  method CheckTensors(tensors: seq<Json>, e: Expected) returns (ok: bool, offset: int)
    requires |tensors| == 2 * e.dims.layers
    ensures ok <==> TensorsMean(tensors, e)
    ensures ok ==> offset == TotalBytes(e)
  {
    hide TensorMeans, TensorBytes, Decimal;
    var expectedBytes := TensorBytes(e.dims, e.promptLength);
    offset := 0;
    for index := 0 to |tensors|
      invariant offset == At(index, expectedBytes)
      invariant forall i :: 0 <= i < index ==> TensorMeans(tensors[i], Desc(e.dims, e.promptLength, i))
    {
      var matches := CheckTensor(tensors[index], index, offset, ExpectedShape(e.dims, e.promptLength), expectedBytes);
      if !matches {
        return false, offset;
      }
      offset := offset + expectedBytes;
    }
    ok := true;
  }

  /** The loop over the fixed fields. */
  method CheckFixed(fields: map<Key, Json>, e: Expected) returns (ok: bool)
    requires fields.Keys == HeaderKeys()
    ensures ok <==> Fixed(fields, e)
  {
    hide HeaderKeys, FixedValue;
    var left := FixedKeys();
    while left != {}
      invariant left <= FixedKeys()
      invariant forall k :: k in FixedKeys() - left ==> fields[k] == FixedValue(e, k)
      decreases left
    {
      var key :| key in left;
      FixedIsScalar(e, key);
      FieldMatchesExactly(fields[key], FixedValue(e, key));
      if !FieldMatches(fields[key], FixedValue(e, key)) {
        return false;
      }
      left := left - {key};
    }
    ok := true;
  }

  /** The fields both parties fix say what they should. */
  ghost predicate Fixed(fields: map<Key, Json>, e: Expected) {
    forall k :: k in FixedKeys() ==> k in fields && fields[k] == FixedValue(e, k)
  }

  lemma FixedIsScalar(e: Expected, k: Key)
    requires k in FixedKeys()
    ensures FixedValue(e, k).Int? || FixedValue(e, k).Str?
  {
  }

  /** What is left of validate_kv_header after the fixed fields. */
  predicate Rest(fields: map<Key, Json>, e: Expected)
    requires fields.Keys == HeaderKeys()
  {
    && ShaField(fields[ModelSha256]) && ShaField(fields[TokenizerSha256])
    && ShaField(fields[PromptDigestSha256]) && ShaField(fields[PayloadSha256])
    && fields[FirstTokenId].Int? && 0 <= fields[FirstTokenId].i < e.vocab
    && fields[Tensors].Arr? && TensorsMean(fields[Tensors].items, e)
    && fields[PayloadBytes].Int? && 1 <= fields[PayloadBytes].i <= MAX_PAYLOAD_BYTES
    && fields[PayloadBytes].i == TotalBytes(e)
  }

  /** validate_kv_header accepts exactly the acceptable headers. */
  method ValidateKvHeader(header: Json, e: Expected) returns (ok: bool)
    ensures ok <==> Acceptable(header, e)
  {
    hide Acceptable, TensorsMean, TotalBytes, IsSha256, Fixed, FixedValue;
    AcceptableByFields(header, e);
    if !header.Obj? || header.fields.Keys != HeaderKeys() {
      return false;
    }
    var fields := header.fields;
    var fixed := CheckFixed(fields, e);
    if !fixed {
      return false;
    }
    if !ShaField(fields[ModelSha256]) || !ShaField(fields[TokenizerSha256]) || !ShaField(fields[PromptDigestSha256]) ||
       !ShaField(fields[PayloadSha256]) {
      return false;
    }
    if !fields[FirstTokenId].Int? || fields[FirstTokenId].i < 0 || fields[FirstTokenId].i >= e.vocab {
      return false;
    }
    if !fields[Tensors].Arr? || |fields[Tensors].items| != e.dims.layers * 2 {
      CountDecides(fields[Tensors], e);
      return false;
    }
    var tensorsOk, offset := CheckTensors(fields[Tensors].items, e);
    if !tensorsOk {
      return false;
    }
    if !fields[PayloadBytes].Int? || fields[PayloadBytes].i < 1 || fields[PayloadBytes].i != offset {
      return false;
    }
    ok := fields[PayloadBytes].i <= MAX_PAYLOAD_BYTES;
  }

  lemma CountDecides(tensors: Json, e: Expected)
    ensures tensors.Arr? && TensorsMean(tensors.items, e) ==> |tensors.items| == e.dims.layers * 2
  {
  }

  lemma HeaderFields(e: Expected, tensors: seq<Json>, payloadBytes: int, digest: string, first: int)
    ensures var h := HeaderObject(e, tensors, payloadBytes, digest, first);
            && Fixed(h, e)
            && h[Tensors] == Arr(tensors) && h[PayloadBytes] == Int(payloadBytes) && h[PayloadSha256] == Str(digest)
            && h[FirstTokenId] == Int(first)
  {
    hide FixedValue, HeaderKeys;
    FreeKeys();
  }

  lemma FieldsAreCanonical(fields: map<Key, Json>, e: Expected)
    requires fields.Keys == HeaderKeys() && Fixed(fields, e)
    requires fields[Tensors].Arr? && fields[PayloadBytes].Int? && fields[PayloadSha256].Str?
    requires fields[FirstTokenId].Int?
    ensures fields == HeaderObject(e, fields[Tensors].items, fields[PayloadBytes].i, fields[PayloadSha256].s,
                                   fields[FirstTokenId].i)
  {
    hide HeaderObject, FixedValue, HeaderKeys;
    FreeKeys();
    var tensors, size := fields[Tensors].items, fields[PayloadBytes].i;
    var digest, first := fields[PayloadSha256].s, fields[FirstTokenId].i;
    HeaderFields(e, tensors, size, digest, first);
    assert forall key :: key in HeaderKeys() ==> fields[key] == HeaderObject(e, tensors, size, digest, first)[key];
  }

  lemma AcceptableByFields(header: Json, e: Expected)
    ensures Acceptable(header, e) <==>
            && header.Obj? && header.fields.Keys == HeaderKeys()
            && Fixed(header.fields, e) && Rest(header.fields, e)
  {
    hide TensorsMean, TotalBytes, IsSha256, HeaderObject, HeaderKeys, FixedKeys, FixedValue;
    FreeKeys();
    if header.Obj? && header.fields.Keys == HeaderKeys() {
      FixedShas(header.fields, e);
      if Fixed(header.fields, e) && Rest(header.fields, e) {
        FieldsAreCanonical(header.fields, e);
      }
    }
    if Acceptable(header, e) {
      var tensors, digest, first :|
        && header == Obj(HeaderObject(e, tensors, TotalBytes(e), digest, first))
        && Describable(e) && IsSha256(digest) && 0 <= first < e.vocab && TensorsMean(tensors, e);
      HeaderFields(e, tensors, TotalBytes(e), digest, first);
      FixedShas(header.fields, e);
    }
  }

  lemma FixedShas(fields: map<Key, Json>, e: Expected)
    requires fields.Keys == HeaderKeys()
    ensures Fixed(fields, e) ==>
              && fields[ModelSha256] == Str(e.modelSha256) && fields[TokenizerSha256] == Str(e.tokenizerSha256)
              && fields[PromptDigestSha256] == Str(e.promptDigestSha256)
  {
    hide FixedValue;
    ShaValues(e);
    assert {ModelSha256, TokenizerSha256, PromptDigestSha256} <= FixedKeys();
  }

  lemma FreeKeys()
    ensures {Tensors, PayloadBytes, PayloadSha256, FirstTokenId} <= HeaderKeys()
    ensures {ModelSha256, TokenizerSha256, PromptDigestSha256} <= HeaderKeys()
  {
  }

  lemma ShaValues(e: Expected)
    ensures FixedValue(e, ModelSha256) == Str(e.modelSha256) && FixedValue(e, TokenizerSha256) == Str(e.tokenizerSha256)
    ensures FixedValue(e, PromptDigestSha256) == Str(e.promptDigestSha256)
  {
  }

  // ---------- building ----------

  /** build_kv_header: the header of a packed cache, unless its own validation refuses it. `digest` is the
      payload's. */
  method BuildKvHeader(e: Expected, packed: Packed, digest: string, first: int) returns (r: Option<Json>)
    ensures r.Some? <==> 0 <= first < e.vocab && Acceptable(BuiltHeader(e, packed, digest, first), e)
    ensures r.Some? ==> r.value == BuiltHeader(e, packed, digest, first)
  {
    hide Acceptable;
    if first < 0 || first >= e.vocab {
      return None;
    }
    var header := BuiltHeader(e, packed, digest, first);
    var ok := ValidateKvHeader(header, e);
    r := if ok then Some(header) else None;
  }

  function BuiltHeader(e: Expected, packed: Packed, digest: string, first: int): Json {
    Obj(HeaderObject(e, TableJson(packed.tensors), |packed.payload|, digest, first))
  }

  /** The header of what pack returns is accepted exactly when the sender's own data is describable, the
      digest is one and the first token is in the vocabulary: the running offsets of the packer are the ones
      the validator demands. */
  lemma PackedHeaderAccepted(e: Expected, cache: Cache, digest: string, first: int)
    requires Packable(cache, e.dims, e.promptLength)
    ensures Acceptable(BuiltHeader(e, Packed(Payload(cache), Table(e.dims, e.promptLength)), digest, first), e)
       <==> Describable(e) && IsSha256(digest) && 0 <= first < e.vocab
  {
    hide Packable, Payload, HeaderObject, IsSha256, Decimal, TensorBytes, FixedValue, Fixed, Describable;
    var table := Table(e.dims, e.promptLength);
    var header := BuiltHeader(e, Packed(Payload(cache), table), digest, first);
    PayloadSlices(cache, e.dims, e.promptLength, 0);
    assert 2 * e.dims.layers == |Flat(cache)| >= 0;
    assert |Payload(cache)| == TotalBytes(e);
    TableMeans(e);
    if Describable(e) && IsSha256(digest) && 0 <= first < e.vocab {
      assert Acceptable(header, e);
    }
    if Acceptable(header, e) {
      var tensors, digest', first' :|
        && header == Obj(HeaderObject(e, tensors, TotalBytes(e), digest', first'))
        && Describable(e) && IsSha256(digest') && 0 <= first' < e.vocab && TensorsMean(tensors, e);
      HeaderFields(e, tensors, TotalBytes(e), digest', first');
      HeaderFields(e, TableJson(table), TotalBytes(e), digest, first);
    }
  }

  lemma TableMeans(e: Expected)
    requires e.dims.layers >= 0
    ensures TensorsMean(TableJson(Table(e.dims, e.promptLength)), e)
  {
    hide Decimal, TensorBytes, At;
    var table := Table(e.dims, e.promptLength);
    forall i | 0 <= i < |table| ensures TensorMeans(TableJson(table)[i], table[i]) {
      EntryMeans(table[i]);
    }
  }

  lemma EntryMeans(e: TensorDesc)
    ensures TensorMeans(TensorJson(e), e)
  {
  }

  /** A header is accepted by two parties only if they agree on everything the header fixes. */
  lemma HeaderBindsRequest(header: Json, e: Expected, e': Expected)
    requires Acceptable(header, e) && Acceptable(header, e')
    ensures e' == e.(vocab := e'.vocab)
  {
    hide Fixed, TensorsMean, TotalBytes, IsSha256, Acceptable;
    AcceptableByFields(header, e);
    AcceptableByFields(header, e');
    FixedDetermines(header.fields, e, e');
  }

  lemma FixedDetermines(fields: map<Key, Json>, e: Expected, e': Expected)
    requires Fixed(fields, e) && Fixed(fields, e')
    ensures e' == e.(vocab := e'.vocab)
  {
    hide FixedValue;
    forall k | k in FixedKeys() ensures FixedValue(e, k) == FixedValue(e', k) {
      assert fields[k] == FixedValue(e, k);
    }
    FixedStrings(e, e');
    FixedInts(e, e');
  }

  lemma FixedStrings(e: Expected, e': Expected)
    requires FixedValue(e, ModelId) == FixedValue(e', ModelId)
    requires FixedValue(e, ModelSha256) == FixedValue(e', ModelSha256)
    requires FixedValue(e, TokenizerSha256) == FixedValue(e', TokenizerSha256)
    requires FixedValue(e, RequestId) == FixedValue(e', RequestId)
    requires FixedValue(e, PromptDigestSha256) == FixedValue(e', PromptDigestSha256)
    ensures e.modelId == e'.modelId && e.modelSha256 == e'.modelSha256 && e.tokenizerSha256 == e'.tokenizerSha256
    ensures e.requestId == e'.requestId && e.promptDigestSha256 == e'.promptDigestSha256
  {
  }

  lemma FixedInts(e: Expected, e': Expected)
    requires FixedValue(e, Epoch) == FixedValue(e', Epoch)
    requires FixedValue(e, PromptLength) == FixedValue(e', PromptLength)
    requires FixedValue(e, OutputTokens) == FixedValue(e', OutputTokens)
    requires FixedValue(e, LayerCount) == FixedValue(e', LayerCount)
    requires FixedValue(e, KvHeadCount) == FixedValue(e', KvHeadCount)
    requires FixedValue(e, HeadDim) == FixedValue(e', HeadDim)
    ensures e.epoch == e'.epoch && e.promptLength == e'.promptLength && e.outputTokens == e'.outputTokens
    ensures e.dims == e'.dims
  {
  }

  // ---------- reading the table back ----------

  /** What unpack reads out of a tensor entry. A shape can be used only if every dimension is an integer:
      reshape refuses floats and booleans. */
  function ReadEntry(j: Json): Option<TensorDesc> {
    if !j.Obj? || j.fields.Keys != TENSOR_KEYS ||
       !j.fields[Name].Str? || !j.fields[Layer].Int? || !j.fields[Kind].Str? ||
       !j.fields[Shape].Arr? || !j.fields[OffsetBytes].Int? || !j.fields[Nbytes].Int? ||
       exists k :: k in j.fields[Shape].items && !k.Int?
    then None
    else
      var items := j.fields[Shape].items;
      Some(TensorDesc(j.fields[Name].s, j.fields[Layer].i, j.fields[Kind].s,
                      seq(|items|, i requires 0 <= i < |items| => items[i].i),
                      j.fields[OffsetBytes].i, j.fields[Nbytes].i))
  }

  function ReadTable(tensors: seq<Json>): Option<seq<TensorDesc>> {
    if exists j :: j in tensors && ReadEntry(j).None? then None
    else Some(seq(|tensors|, i requires 0 <= i < |tensors| => ReadEntry(tensors[i]).value))
  }

  /** An accepted entry reads back as the table's own exactly when every dimension is an integer: the
      validator compares shapes loosely, and a float or a boolean that compares equal passes it but cannot be
      unpacked. */
  lemma ReadEntryExact(j: Json, e: TensorDesc)
    requires TensorMeans(j, e)
    ensures ReadEntry(j) == if forall k :: k in j.fields[Shape].items ==> k.Int? then Some(e) else None
  {
    var items := j.fields[Shape].items;
    forall i | 0 <= i < |items| ensures items[i].Int? ==> items[i].i == e.shape[i] {
      assert PyEq(items[i], Int(e.shape[i]));
    }
    if forall k :: k in items ==> k.Int? {
      assert seq(|items|, i requires 0 <= i < |items| => items[i].i) == e.shape;
    }
  }

  /** The shapes hold integers only, which the contract's own validator asks of them. */
  predicate IntegerShapes(tensors: seq<Json>) {
    forall j, k :: j in tensors && MeansFields(j) && k in j.fields[Shape].items ==> k.Int?
  }

  lemma ReadTableExact(tensors: seq<Json>, e: Expected)
    requires TensorsMean(tensors, e)
    ensures ReadTable(tensors) == if IntegerShapes(tensors) then Some(Table(e.dims, e.promptLength)) else None
  {
    hide TensorMeans, ReadEntry, Decimal, TensorBytes;
    var table := Table(e.dims, e.promptLength);
    forall i | 0 <= i < |tensors|
      ensures MeansFields(tensors[i])
      ensures ReadEntry(tensors[i]) == if IntegerShapes([tensors[i]]) then Some(table[i]) else None
    {
      MeaningHasFields(tensors[i], table[i]);
      ReadEntryExact(tensors[i], table[i]);
      assert tensors[i] in [tensors[i]];
    }
    if IntegerShapes(tensors) {
      assert seq(|tensors|, i requires 0 <= i < |tensors| => ReadEntry(tensors[i]).value) == table;
    } else {
      var j, k :| j in tensors && MeansFields(j) && k in j.fields[Shape].items && !k.Int?;
      assert j in [j];
      assert !IntegerShapes([j]);
    }
  }

  predicate MeansFields(j: Json) {
    j.Obj? && Shape in j.fields && j.fields[Shape].Arr?
  }

  lemma MeaningHasFields(j: Json, e: TensorDesc)
    requires TensorMeans(j, e)
    ensures MeansFields(j)
  {
  }

  // ---------- the fixed TinyLlama table ----------

  const TINYLLAMA := Dims(22, 4, 64)
  const PROMPT_LENGTH := 128
  const TENSOR_COUNT := 44
  const TENSOR_SHAPE: seq<int> := [1, 4, 128, 64]
  const TENSOR_BYTES := 65536

  /** The contract's own entry check, which is strict in every field. */
  predicate ValidateTensor(value: Json, index: nat) {
    && value.Obj? && value.fields.Keys == TENSOR_KEYS
    && PyEq(value.fields[Name], Str("L" + Decimal(index / 2) + KindAt(index)))
    && value.fields[Layer].Int? && PyEq(value.fields[Layer], Int(index / 2))
    && PyEq(value.fields[Kind], Str(KindAt(index)))
    && value.fields[Shape].Arr? && (forall k :: k in value.fields[Shape].items ==> k.Int?)
    && ShapeMeans(value.fields[Shape], TENSOR_SHAPE)
    && value.fields[OffsetBytes].Int? && PyEq(value.fields[OffsetBytes], Int(index * TENSOR_BYTES))
    && value.fields[Nbytes].Int? && PyEq(value.fields[Nbytes], Int(TENSOR_BYTES))
  }

  method BuildFixedTensors() returns (result: seq<Json>)
    ensures result == TableJson(Table(TINYLLAMA, PROMPT_LENGTH))
  {
    hide Decimal;
    result := [];
    for index := 0 to TENSOR_COUNT
      invariant result == TableJson(Table(TINYLLAMA, PROMPT_LENGTH))[..index]
    {
      FixedEntry(index);
      result := result + [Obj(map[
        Name := Str("L" + Decimal(index / 2) + KindAt(index)), Layer := Int(index / 2), Kind := Str(KindAt(index)),
        Shape := Arr(Ints(TENSOR_SHAPE)), OffsetBytes := Int(index * TENSOR_BYTES), Nbytes := Int(TENSOR_BYTES)])];
    }
  }

  /** At TinyLlama's dimensions the packer's table is the contract's. */
  lemma FixedEntry(index: nat)
    ensures Desc(TINYLLAMA, PROMPT_LENGTH, index)
         == TensorDesc("L" + Decimal(index / 2) + KindAt(index), index / 2, KindAt(index), TENSOR_SHAPE,
                       index * TENSOR_BYTES, TENSOR_BYTES)
  {
    hide Decimal;
    assert TensorBytes(TINYLLAMA, PROMPT_LENGTH) == TENSOR_BYTES by { TinyLlamaBytes(); }
    AtIsProduct(index, TENSOR_BYTES);
  }

  lemma TinyLlamaBytes()
    ensures TensorBytes(TINYLLAMA, PROMPT_LENGTH) == TENSOR_BYTES
  {
    var shape := ExpectedShape(TINYLLAMA, PROMPT_LENGTH);
    assert shape[1..] == [4, 128, 64] && shape[2..] == [128, 64] && shape[3..] == [64];
    assert [4, 128, 64][1..] == [128, 64] && [128, 64][1..] == [64];
    assert Product([64]) == 64;
    assert Product([128, 64]) == 8192;
    assert Product([4, 128, 64]) == 32768;
  }

  /** The contract accepts exactly the packer's entry at each index; so whatever it accepts the header
      validator accepts too, and not conversely. */
  lemma FixedTableExact(value: Json, index: nat)
    ensures ValidateTensor(value, index) <==> value == TensorJson(Desc(TINYLLAMA, PROMPT_LENGTH, index))
    ensures ValidateTensor(value, index) ==> TensorMeans(value, Desc(TINYLLAMA, PROMPT_LENGTH, index))
  {
    hide Decimal, KindAt;
    FixedEntry(index);
    var d := Desc(TINYLLAMA, PROMPT_LENGTH, index);
    if ValidateTensor(value, index) {
      var items := value.fields[Shape].items;
      forall i | 0 <= i < |items| ensures items[i] == Ints(TENSOR_SHAPE)[i] {
        assert items[i] in items;
        FieldMatchesExactly(items[i], Int(TENSOR_SHAPE[i]));
      }
      assert items == Ints(TENSOR_SHAPE);
      assert forall key :: key in TENSOR_KEYS ==> value.fields[key] == TensorJson(d).fields[key];
    }
    EntryMeans(d);
  }

  /** The entry with another list for its shape. */
  function WithShape(e: TensorDesc, items: seq<Json>): Json {
    Obj(TensorJson(e).fields[Shape := Arr(items)])
  }

  /** Every shape list that compares equal but is not all integers passes the header validator, is refused by
      the contract's, and cannot be unpacked. */
  lemma LooseShape(e: TensorDesc, items: seq<Json>, index: nat)
    requires ShapeMeans(Arr(items), e.shape) && exists k :: k in items && !k.Int?
    ensures var loose := WithShape(e, items);
            TensorMeans(loose, e) && ReadEntry(loose).None? && !ValidateTensor(loose, index)
  {
    hide ReadEntry;
    assert WithShape(e, items).fields[Shape].items == items;
    ReadEntryExact(WithShape(e, items), e);
  }

  /** Two such lists: the shape in floats, and the batch dimension as true. */
  lemma LooseShapes(d: Dims, promptLength: int, index: nat)
    ensures var e := Desc(d, promptLength, index);
            var floats := seq(4, i requires 0 <= i < 4 => Float(e.shape[i] as real));
            && ShapeMeans(Arr(floats), e.shape) && ReadEntry(WithShape(e, floats)).None?
            && ShapeMeans(Arr(Ints(e.shape)[0 := Bool(true)]), e.shape)
            && ReadEntry(WithShape(e, Ints(e.shape)[0 := Bool(true)])).None?
  {
    hide ReadEntry, Decimal, KindAt, TensorBytes, At;
    var e := Desc(d, promptLength, index);
    var floats := seq(4, i requires 0 <= i < 4 => Float(e.shape[i] as real));
    var truth := Ints(e.shape)[0 := Bool(true)];
    assert floats[0] in floats && truth[0] in truth;
    LooseShape(e, floats, index);
    LooseShape(e, truth, index);
  }
}
