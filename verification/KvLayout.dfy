/** The gap-free host layout of a KV cache: packing, the tensor table that describes it, and unpacking
    (src/serverlessx/spd/tinyllama_pd.py, src/serverlessx/spd/contract.py). */
module KvLayout {
  import opened Words
  import opened Wrappers

  /** A host tensor: its shape, whether its type is FP16, and its elements in C order as 16-bit patterns. */
  datatype Tensor = Tensor(shape: seq<int>, half: bool, data: seq<U16>)

  /** A legacy cache: one list of tensors per layer. */
  type Cache = seq<seq<Tensor>>

  /** The dimensions of a model. */
  datatype Dims = Dims(layers: int, heads: int, headDim: int)

  datatype TensorDesc = TensorDesc(name: string, layer: int, kind: string, shape: seq<int>, offset: int, nbytes: int)

  datatype Packed = Packed(payload: seq<Byte>, tensors: seq<TensorDesc>)

  function Decimal(n: nat): string {
    (if n < 10 then [] else Decimal(n / 10)) + ["0123456789"[n % 10]]
  }

  function Product(shape: seq<int>): int {
    if shape == [] then 1 else shape[0] * Product(shape[1..])
  }

  /** b"".join */
  function Join(chunks: seq<seq<Byte>>): seq<Byte> {
    if chunks == [] then [] else Join(chunks[..|chunks| - 1]) + chunks[|chunks| - 1]
  }

  /** The elements as little-endian bytes, and back. */
  function ToBytes(data: seq<U16>): (s: seq<Byte>)
    ensures |s| == 2 * |data|
  {
    seq(2 * |data|, i requires 0 <= i < 2 * |data| => U16Le(data[i / 2])[i % 2])
  }

  function FromBytes(s: seq<Byte>): (data: seq<U16>)
    ensures |data| == |s| / 2
  {
    seq(|s| / 2, i requires 0 <= i < |s| / 2 => LoadU16(s[2 * i..2 * i + 2]))
  }

  lemma FromToBytes(data: seq<U16>)
    ensures FromBytes(ToBytes(data)) == data
  {
    forall i | 0 <= i < |data| ensures FromBytes(ToBytes(data))[i] == data[i] {
      assert ToBytes(data)[2 * i..2 * i + 2] == U16Le(data[i]);
      LoadStore(data[i], 0);
    }
  }

  lemma ToFromBytes(s: seq<Byte>)
    requires |s| % 2 == 0
    ensures ToBytes(FromBytes(s)) == s
  {
    forall i | 0 <= i < |s| ensures ToBytes(FromBytes(s))[i] == s[i] {
      var pair := s[2 * (i / 2)..2 * (i / 2) + 2];
      StoreLoad(pair, [0, 0, 0, 0]);
      assert pair[i % 2] == s[i];
    }
  }

  // ---------- the table ----------

  function ExpectedShape(d: Dims, promptLength: int): seq<int> {
    [1, d.heads, promptLength, d.headDim]
  }

  function TensorBytes(d: Dims, promptLength: int): int {
    Product(ExpectedShape(d, promptLength)) * 2
  }

  function KindAt(index: nat): string {
    if index % 2 == 0 then "K" else "V"
  }

  /** The running offset after `n` entries of `size` bytes. */
  function At(n: nat, size: int): int {
    if n == 0 then 0 else At(n - 1, size) + size
  }

  lemma {:induction false} AtIsProduct(n: nat, size: int)
    ensures At(n, size) == n * size
  {
    if n > 0 {
      AtIsProduct(n - 1, size);
    }
  }

  lemma {:induction false} AtMonotone(i: nat, n: nat, size: nat)
    requires i <= n
    ensures 0 <= At(i, size) <= At(n, size)
    ensures i < n ==> At(i, size) + size <= At(n, size)
  {
    if i < n {
      AtMonotone(i, n - 1, size);
    } else if n > 0 {
      AtMonotone(n - 1, n - 1, size);
    }
  }

  /** The entry a reader demands at an index. */
  function Desc(d: Dims, promptLength: int, index: nat): TensorDesc {
    TensorDesc("L" + Decimal(index / 2) + KindAt(index), index / 2, KindAt(index), ExpectedShape(d, promptLength),
               At(index, TensorBytes(d, promptLength)), TensorBytes(d, promptLength))
  }

  function Table(d: Dims, promptLength: int): seq<TensorDesc> {
    seq(if d.layers > 0 then 2 * d.layers else 0, i requires 0 <= i => Desc(d, promptLength, i))
  }

  // ---------- packing ----------

  /** The tensors in the order L0K, L0V, L1K, ... */
  function Flat(cache: Cache): seq<Tensor> {
    if cache == [] then [] else Flat(cache[..|cache| - 1]) + cache[|cache| - 1]
  }

  predicate Fits(t: Tensor, d: Dims, promptLength: int) {
    t.shape == ExpectedShape(d, promptLength) && t.half
  }

  /** What a packable cache looks like: the model's layers, each an FP16 pair of the expected shape, holding
      as many elements as the shape says. */
  predicate Packable(cache: Cache, d: Dims, promptLength: int) {
    && cache != [] && |cache| == d.layers
    && (forall l :: 0 <= l < |cache| ==> |cache[l]| == 2)
    && forall l, k :: 0 <= l < |cache| && 0 <= k < 2 ==>
      && Fits(cache[l][k], d, promptLength)
      && |ToBytes(cache[l][k].data)| == TensorBytes(d, promptLength)
  }

  function Payload(cache: Cache): seq<Byte> {
    Join(Chunks(Flat(cache)))
  }

  function Chunks(tensors: seq<Tensor>): seq<seq<Byte>> {
    seq(|tensors|, i requires 0 <= i < |tensors| => ToBytes(tensors[i].data))
  }

  lemma {:induction false} FlatAt(cache: Cache, l: nat, k: nat)
    requires forall i :: 0 <= i < |cache| ==> |cache[i]| == 2
    requires l < |cache| && k < 2
    ensures |Flat(cache)| == 2 * |cache| && Flat(cache)[2 * l + k] == cache[l][k]
  {
    var front := cache[..|cache| - 1];
    if front == [] {
      assert Flat(front) == [];
    } else if l < |front| {
      FlatAt(front, l, k);
    } else {
      FlatAt(front, 0, 0);
    }
  }

  /** The first loop: the tensors in order, or None at the first layer or tensor that does not fit. */
  method Order(cache: Cache, promptLength: int, d: Dims) returns (r: Option<seq<Tensor>>)
    ensures r.Some? <==>
            && cache != [] && |cache| == d.layers
            && (forall l :: 0 <= l < |cache| ==> |cache[l]| == 2)
            && forall l, k :: 0 <= l < |cache| && 0 <= k < 2 ==> Fits(cache[l][k], d, promptLength)
    ensures r.Some? ==> r.value == Flat(cache)
  {
    if cache == [] || |cache| != d.layers {
      return None;
    }
    var ordered: seq<Tensor> := [];
    for layer := 0 to |cache|
      invariant forall l :: 0 <= l < layer ==> |cache[l]| == 2
      invariant forall l, k :: 0 <= l < layer && 0 <= k < 2 ==> Fits(cache[l][k], d, promptLength)
      invariant ordered == Flat(cache[..layer])
    {
      if |cache[layer]| != 2 {
        return None;
      }
      for kind := 0 to 2
        invariant forall k :: 0 <= k < kind ==> Fits(cache[layer][k], d, promptLength)
        invariant ordered == Flat(cache[..layer]) + cache[layer][..kind]
      {
        var tensor := cache[layer][kind];
        if tensor.shape != ExpectedShape(d, promptLength) || !tensor.half {
          return None;
        }
        ordered := ordered + [tensor];
      }
      assert cache[..layer + 1][..layer] == cache[..layer];
    }
    assert cache[..|cache|] == cache;
    r := Some(ordered);
  }

  /** pack_legacy_pkv: it succeeds exactly on packable caches, and its running offset lays the tensors out
      where the table of the indices alone says they are. */
  method Pack(cache: Cache, promptLength: int, d: Dims) returns (r: Option<Packed>)
    ensures r.Some? <==> Packable(cache, d, promptLength)
    ensures r.Some? ==> r.value == Packed(Payload(cache), Table(d, promptLength))
  {
    var ordering := Order(cache, promptLength, d);
    if ordering.None? {
      return None;
    }
    FlatPackable(cache, d, promptLength);
    r := Lay(ordering.value, promptLength, d);
  }

  /** The second loop: the chunks and the table with its running offset, or None at a tensor that does not
      encode to the expected size. */
  method Lay(ordered: seq<Tensor>, promptLength: int, d: Dims) returns (r: Option<Packed>)
    requires |ordered| == 2 * d.layers
    ensures r.Some? <==> forall t :: t in ordered ==> |ToBytes(t.data)| == TensorBytes(d, promptLength)
    ensures r.Some? ==> r.value == Packed(Join(Chunks(ordered)), Table(d, promptLength))
  {
    hide TensorBytes, ToBytes, Decimal;
    var chunks: seq<seq<Byte>> := [];
    var tensors: seq<TensorDesc> := [];
    var offset := 0;
    var expectedBytes := TensorBytes(d, promptLength);
    for i := 0 to |ordered|
      invariant offset == At(i, expectedBytes)
      invariant chunks == Chunks(ordered)[..i] && tensors == Table(d, promptLength)[..i]
      invariant forall j :: 0 <= j < i ==> |ToBytes(ordered[j].data)| == expectedBytes
    {
      var chunk := ToBytes(ordered[i].data);
      if |chunk| != expectedBytes {
        return None;
      }
      tensors := tensors + [TensorDesc("L" + Decimal(i / 2) + KindAt(i), i / 2, KindAt(i),
                                       ExpectedShape(d, promptLength),
                                       offset, |chunk|)];
      chunks := chunks + [chunk];
      offset := offset + |chunk|;
    }
    assert Chunks(ordered)[..|ordered|] == Chunks(ordered);
    assert Table(d, promptLength)[..|ordered|] == Table(d, promptLength);
    r := Some(Packed(Join(chunks), tensors));
  }

  /** The tensors of a cache of pairs, in order, satisfy what the cache's own do. */
  lemma FlatPackable(cache: Cache, d: Dims, promptLength: int)
    requires cache != [] && |cache| == d.layers && forall l :: 0 <= l < |cache| ==> |cache[l]| == 2
    ensures |Flat(cache)| == 2 * d.layers
    ensures (forall t :: t in Flat(cache) ==> |ToBytes(t.data)| == TensorBytes(d, promptLength))
       <==> forall l, k :: 0 <= l < |cache| && 0 <= k < 2 ==>
              |ToBytes(cache[l][k].data)| == TensorBytes(d, promptLength)
  {
    hide TensorBytes, ToBytes;
    FlatAt(cache, 0, 0);
    forall l, k | 0 <= l < |cache| && 0 <= k < 2 ensures cache[l][k] in Flat(cache) {
      FlatAt(cache, l, k);
    }
    forall i | 0 <= i < |Flat(cache)| ensures Flat(cache)[i] == cache[i / 2][i % 2] {
      FlatAt(cache, i / 2, i % 2);
    }
  }

  // ---------- the layout ----------

  lemma {:induction false} JoinSlice(chunks: seq<seq<Byte>>, size: nat, i: nat)
    requires forall c :: c in chunks ==> |c| == size
    ensures |Join(chunks)| == At(|chunks|, size)
    ensures i < |chunks| ==>
              && 0 <= At(i, size) <= At(i, size) + size <= |Join(chunks)|
              && Join(chunks)[At(i, size)..At(i, size) + size] == chunks[i]
  {
    if chunks != [] {
      var last := |chunks| - 1;
      JoinSlice(chunks[..last], size, i);
      AtMonotone(0, last, size);
    }
  }

  /** The slice at an entry's extent is that tensor's bytes. */
  lemma PayloadSlices(cache: Cache, d: Dims, promptLength: int, i: nat)
    requires Packable(cache, d, promptLength)
    ensures TensorBytes(d, promptLength) >= 0 && |Payload(cache)| == At(2 * d.layers, TensorBytes(d, promptLength))
    ensures |Flat(cache)| == 2 * d.layers
    ensures i < 2 * d.layers ==>
              var e := Desc(d, promptLength, i);
              && 0 <= e.offset <= e.offset + e.nbytes <= |Payload(cache)|
              && Payload(cache)[e.offset..e.offset + e.nbytes] == ToBytes(Flat(cache)[i].data)
  {
    hide TensorBytes, ToBytes, Decimal, Fits, At, Join;
    assert |ToBytes(cache[0][0].data)| == TensorBytes(d, promptLength);
    FlatPackable(cache, d, promptLength);
    JoinSlice(Chunks(Flat(cache)), TensorBytes(d, promptLength), i);
  }

  /** Every payload position lies in exactly one extent of the table, and the extents end with the payload. */
  lemma ExtentsTile(cache: Cache, d: Dims, promptLength: int, x: nat) returns (owner: nat)
    requires Packable(cache, d, promptLength) && x < |Payload(cache)|
    ensures var table := Table(d, promptLength);
            && owner < |table|
            && table[owner].offset <= x < table[owner].offset + table[owner].nbytes <= |Payload(cache)|
            && forall i :: 0 <= i < |table| && table[i].offset <= x < table[i].offset + table[i].nbytes ==> i == owner
  {
    hide TensorBytes, ToBytes, Decimal, Packable, Payload;
    PayloadSlices(cache, d, promptLength, 0);
    var size, table := TensorBytes(d, promptLength), Table(d, promptLength);
    owner := FindExtent(|table|, size, x);
    AtMonotone(owner, |table|, size);
    forall i | 0 <= i < |table| && table[i].offset <= x < table[i].offset + table[i].nbytes ensures i == owner {
      if i < owner {
        AtMonotone(i, owner, size);
      } else {
        AtMonotone(owner, i, size);
      }
    }
  }

  lemma {:induction false} FindExtent(n: nat, size: nat, x: nat) returns (i: nat)
    requires x < At(n, size)
    ensures i < n && At(i, size) <= x < At(i, size) + size
  {
    if At(n - 1, size) <= x {
      i := n - 1;
    } else {
      i := FindExtent(n - 1, size, x);
    }
  }

  // ---------- unpacking ----------

  /** One entry read back: numpy refuses an extent outside the buffer and a shape of another size. */
  function UnpackTensor(payload: seq<Byte>, e: TensorDesc): Option<Tensor> {
    var count := e.nbytes / 2;
    if e.offset < 0 || count <= 0 || e.offset + 2 * count > |payload| || Product(e.shape) != count then None
    else Some(Tensor(e.shape, true, FromBytes(payload[e.offset..e.offset + 2 * count])))
  }

  /** Every entry of the first `layers` pairs is readable. */
  predicate Readable(payload: seq<Byte>, table: seq<TensorDesc>, layers: int) {
    2 * layers <= |table| && forall i :: 0 <= i < 2 * layers ==> UnpackTensor(payload, table[i]).Some?
  }

  function UnpackCache(payload: seq<Byte>, table: seq<TensorDesc>, layers: int): Option<Cache> {
    if !Readable(payload, table, layers) then None
    else Some(Pairs(payload, table, if layers > 0 then layers else 0))
  }

  function Pairs(payload: seq<Byte>, table: seq<TensorDesc>, layers: nat): (cache: Cache)
    requires Readable(payload, table, layers)
    ensures |cache| == layers
    ensures forall l :: 0 <= l < layers ==>
              cache[l] == [UnpackTensor(payload, table[2 * l]).value, UnpackTensor(payload, table[2 * l + 1]).value]
  {
    if layers == 0 then []
    else
      Pairs(payload, table, layers - 1)
      + [[UnpackTensor(payload, table[2 * layers - 2]).value, UnpackTensor(payload, table[2 * layers - 1]).value]]
  }

  method Unpack(payload: seq<Byte>, table: seq<TensorDesc>, layers: int) returns (r: Option<Cache>)
    ensures r == UnpackCache(payload, table, layers)
  {
    hide UnpackTensor;
    var cache: Cache := [];
    var layer := 0;
    while layer < layers
      invariant 0 <= layer && (layers > 0 ==> layer <= layers) && (layers <= 0 ==> layer == 0)
      invariant Readable(payload, table, layer) && cache == Pairs(payload, table, layer)
    {
      if |table| < 2 * layer + 2 {
        return None;
      }
      var k := UnpackTensor(payload, table[2 * layer]);
      if k.None? {
        return None;
      }
      var v := UnpackTensor(payload, table[2 * layer + 1]);
      if v.None? {
        return None;
      }
      cache := cache + [[k.value, v.value]];
      layer := layer + 1;
    }
    r := Some(cache);
  }

  /** Unpacking what was packed, through the table, gives every tensor back. */
  lemma UnpackOfPack(cache: Cache, d: Dims, promptLength: int)
    requires Packable(cache, d, promptLength) && TensorBytes(d, promptLength) > 0
    ensures UnpackCache(Payload(cache), Table(d, promptLength), d.layers) == Some(cache)
  {
    hide Decimal, UnpackTensor, Flat, Payload;
    var payload, table := Payload(cache), Table(d, promptLength);
    FlatAt(cache, 0, 0);
    forall i | 0 <= i < 2 * d.layers ensures UnpackTensor(payload, table[i]) == Some(Flat(cache)[i]) {
      UnpackOne(cache, d, promptLength, i);
    }
    var unpacked := Pairs(payload, table, d.layers);
    forall l | 0 <= l < d.layers ensures unpacked[l] == cache[l] {
      FlatAt(cache, l, 0);
      FlatAt(cache, l, 1);
      assert unpacked[l] == [cache[l][0], cache[l][1]];
    }
    assert unpacked == cache;
  }

  lemma UnpackOne(cache: Cache, d: Dims, promptLength: int, i: nat)
    requires Packable(cache, d, promptLength) && TensorBytes(d, promptLength) > 0 && i < 2 * d.layers
    ensures |Flat(cache)| == 2 * d.layers
    ensures UnpackTensor(Payload(cache), Desc(d, promptLength, i)) == Some(Flat(cache)[i])
  {
    hide Decimal, Flat, Payload, ToBytes, FromBytes, Product, At;
    PayloadSlices(cache, d, promptLength, i);
    FlatAt(cache, i / 2, i % 2);
    assert Fits(cache[i / 2][i % 2], d, promptLength);
    FromToBytes(Flat(cache)[i].data);
  }

  /** And packing what was unpacked gives the payload back: a payload of the right size is exactly the
      packing of one cache. */
  lemma PackOfUnpack(payload: seq<Byte>, d: Dims, promptLength: int)
    requires d.layers > 0 && TensorBytes(d, promptLength) > 0
    requires |payload| == At(2 * d.layers, TensorBytes(d, promptLength))
    ensures var r := UnpackCache(payload, Table(d, promptLength), d.layers);
            r.Some? && Packable(r.value, d, promptLength) && Payload(r.value) == payload
  {
    hide Decimal, UnpackTensor, Flat, ToBytes, FromBytes, TensorBytes, At, Join;
    var table, size := Table(d, promptLength), TensorBytes(d, promptLength);
    forall i | 0 <= i < 2 * d.layers ensures UnpackTensor(payload, table[i]).Some? {
      UnpackSlice(payload, d, promptLength, i);
    }
    var cache := UnpackCache(payload, table, d.layers).value;
    FlatAt(cache, 0, 0);
    forall i | 0 <= i < 2 * d.layers
      ensures Cut(payload, size, Chunks(Flat(cache)), i) && |ToBytes(Flat(cache)[i].data)| == size
      ensures Fits(Flat(cache)[i], d, promptLength)
    {
      UnpackSlice(payload, d, promptLength, i);
      FlatAt(cache, i / 2, i % 2);
      assert i % 2 == 0 ==> i == 2 * (i / 2);
    }
    forall l, k | 0 <= l < |cache| && 0 <= k < 2
      ensures Fits(cache[l][k], d, promptLength) && |ToBytes(cache[l][k].data)| == size
    {
      FlatAt(cache, l, k);
    }
    var chunks := Chunks(Flat(cache));
    JoinOfSlices(payload, size, chunks, |chunks|);
    assert chunks[..|chunks|] == chunks;
  }

  lemma UnpackSlice(payload: seq<Byte>, d: Dims, promptLength: int, i: nat)
    requires TensorBytes(d, promptLength) > 0 && i < 2 * d.layers
    requires |payload| == At(2 * d.layers, TensorBytes(d, promptLength))
    ensures var r, e := UnpackTensor(payload, Desc(d, promptLength, i)), Desc(d, promptLength, i);
            && r.Some? && Fits(r.value, d, promptLength)
            && 0 <= e.offset <= e.offset + e.nbytes <= |payload|
            && ToBytes(r.value.data) == payload[e.offset..e.offset + e.nbytes]
  {
    hide Decimal, ToBytes, FromBytes, Product, At;
    var size := TensorBytes(d, promptLength);
    AtMonotone(i, 2 * d.layers, size);
    AtMonotone(0, i, size);
    ToFromBytes(payload[At(i, size)..At(i, size) + size]);
  }

  /** A chunk is the slice of the payload at its running offset. */
  predicate Cut(payload: seq<Byte>, size: nat, chunks: seq<seq<Byte>>, i: nat)
    requires i < |chunks|
  {
    0 <= At(i, size) <= At(i, size) + size <= |payload| && chunks[i] == payload[At(i, size)..At(i, size) + size]
  }

  lemma {:induction false} JoinOfSlices(payload: seq<Byte>, size: nat, chunks: seq<seq<Byte>>, n: nat)
    requires n <= |chunks| && forall i :: 0 <= i < |chunks| ==> Cut(payload, size, chunks, i)
    ensures 0 <= At(n, size) <= |payload| && Join(chunks[..n]) == payload[..At(n, size)]
    decreases n
  {
    hide At;
    assert At(n, size) == if n == 0 then 0 else At(n - 1, size) + size by { AtStep(n, size); }
    if n > 0 {
      JoinOfSlices(payload, size, chunks, n - 1);
      assert Cut(payload, size, chunks, n - 1);
      assert chunks[..n][..n - 1] == chunks[..n - 1];
      assert payload[..At(n, size)] == payload[..At(n - 1, size)] + chunks[n - 1];
    }
  }

  lemma AtStep(n: nat, size: int)
    ensures At(n, size) == if n == 0 then 0 else At(n - 1, size) + size
  {
  }
}
