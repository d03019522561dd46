/** Prefill on one worker, decode on another: the split run against the single-worker reference
    (src/serverlessx/spd/tinyllama_pd.py), for any deterministic model. */
module Disaggregation {
  import opened Framing
  import opened JsonValues
  import opened KvHeader
  import opened KvLayout
  import opened Words
  import opened Wrappers

  /** A next token and the cache that goes with it. */
  datatype Next = Next(token: int, cache: Cache)

  /** A runtime: dimensions, vocabulary, and the two forward passes as deterministic functions. */
  datatype Model = Model(dims: Dims, vocab: int, forward: seq<int> -> Next, step: (Cache, int) -> Next)

  datatype Args = Args(modelId: string, modelSha256: string, tokenizerSha256: string, requestId: string, epoch: int,
                       outputTokens: int)

  /** What a transfer adds to a result. */
  datatype Transfer = Transfer(headerSha256: string, payloadBytes: int, payloadSha256: string)

  datatype Role = Reference | Prefill | Decode

  datatype RunResult = RunResult(
    role: Role, firstToken: int, tokens: seq<int>, tokenDigest: string, promptDigest: string,
    transfer: Option<Transfer>)

  // ---------- the shared pieces ----------

  function TokenDigest(lib: Library, tokens: seq<int>): Option<string> {
    var raw := lib.encode(Arr(Ints(tokens)));
    if raw.None? then None else Some(lib.sha(raw.value))
  }

  function ExpectedKv(lib: Library, args: Args, prompt: seq<int>, model: Model): Option<Expected> {
    var digest := TokenDigest(lib, prompt);
    if digest.None? then None
    else
      Some(Expected(args.modelId, args.modelSha256, args.tokenizerSha256, args.requestId, args.epoch, |prompt|,
                    digest.value, args.outputTokens, model.dims, model.vocab))
  }

  function PrefillOf(model: Model, prompt: seq<int>): Option<Next> {
    if exists t :: t in prompt && t >= model.vocab then None else Some(model.forward(prompt))
  }

  /** The tokens of `n` further steps. */
  function Continue(model: Model, cache: Cache, current: int, n: nat): seq<int>
    decreases n
  {
    if n == 0 then []
    else
      var next := model.step(cache, current);
      [next.token] + Continue(model, next.cache, next.token, n - 1)
  }

  function DecodeOf(model: Model, cache: Cache, first: int, outputTokens: int): Option<seq<int>> {
    if outputTokens < 1 then None else Some([first] + Continue(model, cache, first, outputTokens - 1))
  }

  /** Each token and cache come from the model's step on the token and the cache before them. */
  ghost predicate Chain(model: Model, cache: Cache, first: int, tokens: seq<int>, caches: seq<Cache>) {
    && |tokens| == |caches| > 0 && tokens[0] == first && caches[0] == cache
    && forall i :: 0 <= i < |tokens| - 1 ==> model.step(caches[i], tokens[i]) == Next(tokens[i + 1], caches[i + 1])
  }

  /** The tokens a model generates from a cache and a first token. */
  ghost predicate Generated(model: Model, cache: Cache, first: int, tokens: seq<int>) {
    exists caches :: Chain(model, cache, first, tokens, caches)
  }

  lemma {:induction false} ContinueChains(model: Model, cache: Cache, current: int, n: nat) returns (caches: seq<Cache>)
    ensures Chain(model, cache, current, [current] + Continue(model, cache, current, n), caches)
    ensures |caches| == n + 1
    decreases n
  {
    caches := [cache];
    if n > 0 {
      var next := model.step(cache, current);
      var rest := ContinueChains(model, next.cache, next.token, n - 1);
      caches := caches + rest;
    }
  }

  lemma {:induction false} ChainUnique(model: Model, tokens: seq<int>, caches: seq<Cache>, tokens': seq<int>,
                                       caches': seq<Cache>, n: nat)
    requires n < |tokens| && n < |tokens'| && tokens != [] && caches != []
    requires Chain(model, caches[0], tokens[0], tokens, caches) && Chain(model, caches[0], tokens[0], tokens', caches')
    ensures tokens[n] == tokens'[n] && caches[n] == caches'[n]
    decreases n
  {
    if n > 0 {
      ChainUnique(model, tokens, caches, tokens', caches', n - 1);
    }
  }

  /** Decoding gives the one list of that length that the model generates, and nothing for a length below one. */
  lemma DecodeExactly(model: Model, cache: Cache, first: int, outputTokens: int, tokens: seq<int>)
    ensures DecodeOf(model, cache, first, outputTokens) == Some(tokens)
       <==> outputTokens >= 1 && |tokens| == outputTokens && Generated(model, cache, first, tokens)
  {
    if outputTokens >= 1 {
      var caches := ContinueChains(model, cache, first, outputTokens - 1);
      var decoded := [first] + Continue(model, cache, first, outputTokens - 1);
      if |tokens| == outputTokens && Generated(model, cache, first, tokens) {
        var caches' :| Chain(model, cache, first, tokens, caches');
        forall i | 0 <= i < |tokens| ensures decoded[i] == tokens[i] {
          ChainUnique(model, decoded, caches, tokens, caches', i);
        }
        assert decoded == tokens;
      }
    }
  }

  /** HfLlamaRuntime.decode: greedy, one token a step, each step on the cache the one before it returned. */
  method DecodeTokens(model: Model, cache: Cache, first: int, outputTokens: int) returns (r: Option<seq<int>>)
    ensures r.Some? <==> outputTokens >= 1
    ensures r.Some? ==> |r.value| == outputTokens && Generated(model, cache, first, r.value)
    ensures r == DecodeOf(model, cache, first, outputTokens)
  {
    if outputTokens < 1 {
      return None;
    }
    var tokens := [first];
    var past, current := cache, first;
    ghost var caches := [cache];
    for i := 0 to outputTokens - 1
      invariant |tokens| == i + 1 && tokens[i] == current && |caches| == i + 1 && caches[i] == past
      invariant Chain(model, cache, first, tokens, caches)
      invariant tokens + Continue(model, past, current, outputTokens - 1 - i)
             == [first] + Continue(model, cache, first, outputTokens - 1)
    {
      var next := model.step(past, current);
      current := next.token;
      tokens := tokens + [current];
      past := next.cache;
      caches := caches + [past];
    }
    assert tokens + [] == tokens;
    r := Some(tokens);
  }

  /** What validate_result_event demands of the parts modelled here. */
  predicate ValidResult(lib: Library, args: Args, e: RunResult) {
    && IsSha256(args.modelSha256) && IsSha256(args.tokenizerSha256) && IsSha256(e.promptDigest)
    && |e.tokens| == (if e.role.Prefill? then 1 else args.outputTokens) && |e.tokens| > 0
    && (forall t :: t in e.tokens ==> t >= 0)
    && e.firstToken == e.tokens[0] && TokenDigest(lib, e.tokens) == Some(e.tokenDigest)
    && (e.transfer.Some? ==>
          && IsSha256(e.transfer.value.headerSha256) && IsSha256(e.transfer.value.payloadSha256)
          && e.transfer.value.payloadBytes >= 1)
  }

  /** The result of a role, or None when a digest cannot be formed or its own validation refuses it. */
  function Conclude(lib: Library, args: Args, prompt: seq<int>, role: Role, first: int, tokens: seq<int>,
                    transfer: Option<Transfer>):
    Option<RunResult>
  {
    var promptDigest, tokenDigest := TokenDigest(lib, prompt), TokenDigest(lib, tokens);
    if promptDigest.None? || tokenDigest.None? then None
    else
      var e := RunResult(role, first, tokens, tokenDigest.value, promptDigest.value, transfer);
      if ValidResult(lib, args, e) then Some(e) else None
  }

  /** A result that may be reported: its digests are those of its tokens and of the prompt, its tokens are as
      many as its role owes, none negative, the first of them first, and every digest in it is one. */
  ghost predicate Reportable(lib: Library, args: Args, prompt: seq<int>, e: RunResult) {
    var prompted, told := lib.encode(Arr(Ints(prompt))), lib.encode(Arr(Ints(e.tokens)));
    && prompted.Some? && e.promptDigest == lib.sha(prompted.value) && IsSha256(e.promptDigest)
    && told.Some? && e.tokenDigest == lib.sha(told.value)
    && IsSha256(args.modelSha256) && IsSha256(args.tokenizerSha256)
    && |e.tokens| == (if e.role == Prefill then 1 else args.outputTokens)
    && e.tokens != [] && e.firstToken == e.tokens[0] && (forall t :: t in e.tokens ==> t >= 0)
    && match e.transfer
       case None => true
       case Some(t) => IsSha256(t.headerSha256) && IsSha256(t.payloadSha256) && t.payloadBytes >= 1
  }

  lemma ConcludeExactly(lib: Library, args: Args, prompt: seq<int>, role: Role, first: int, tokens: seq<int>,
                        transfer: Option<Transfer>, e: RunResult)
    ensures Conclude(lib, args, prompt, role, first, tokens, transfer) == Some(e)
       <==> && e.role == role && e.firstToken == first && e.tokens == tokens && e.transfer == transfer
            && Reportable(lib, args, prompt, e)
  {
    hide IsSha256;
  }

  // ---------- the reference ----------

  /** The result a reference run has to give: the prompt is in the vocabulary, and the tokens are those the
      model generates from its forward pass over it. */
  ghost predicate ReferenceMeans(lib: Library, args: Args, prompt: seq<int>, model: Model, e: RunResult) {
    && (forall t :: t in prompt ==> t < model.vocab)
    && Generated(model, model.forward(prompt).cache, model.forward(prompt).token, e.tokens)
    && e.role == Reference && e.transfer == None && Reportable(lib, args, prompt, e)
  }

  function ReferenceOf(lib: Library, args: Args, prompt: seq<int>, model: Model): Option<RunResult> {
    var prefill := PrefillOf(model, prompt);
    if prefill.None? then None
    else
      var tokens := DecodeOf(model, prefill.value.cache, prefill.value.token, args.outputTokens);
      if tokens.None? then None else Conclude(lib, args, prompt, Reference, prefill.value.token, tokens.value, None)
  }

  lemma ReferenceExactly(lib: Library, args: Args, prompt: seq<int>, model: Model, e: RunResult)
    ensures ReferenceOf(lib, args, prompt, model) == Some(e) <==> ReferenceMeans(lib, args, prompt, model, e)
  {
    hide DecodeOf, Conclude, Reportable, Generated;
    var next := model.forward(prompt);
    var tokens := DecodeOf(model, next.cache, next.token, args.outputTokens);
    DecodeExactly(model, next.cache, next.token, args.outputTokens, e.tokens);
    ReportableCounts(lib, args, prompt, e);
    if Generated(model, next.cache, next.token, e.tokens) {
      GeneratedStarts(model, next.cache, next.token, e.tokens);
    }
    if tokens.Some? {
      ConcludeExactly(lib, args, prompt, Reference, next.token, tokens.value, None, e);
    }
  }

  lemma ReportableCounts(lib: Library, args: Args, prompt: seq<int>, e: RunResult)
    ensures Reportable(lib, args, prompt, e) ==>
              && e.tokens != [] && e.firstToken == e.tokens[0]
              && (e.role != Prefill ==> |e.tokens| == args.outputTokens)
  {
  }

  lemma GeneratedStarts(model: Model, cache: Cache, first: int, tokens: seq<int>)
    requires Generated(model, cache, first, tokens)
    ensures tokens != [] && tokens[0] == first
  {
  }

  /** run_reference gives a result exactly when there is one to give, and that one. */
  method RunReference(lib: Library, args: Args, prompt: seq<int>, model: Model) returns (r: Option<RunResult>)
    ensures forall e :: r == Some(e) <==> ReferenceMeans(lib, args, prompt, model, e)
    ensures r == ReferenceOf(lib, args, prompt, model)
  {
    hide ReferenceMeans, DecodeOf, Conclude;
    forall e ensures ReferenceOf(lib, args, prompt, model) == Some(e) <==> ReferenceMeans(lib, args, prompt, model, e) {
      ReferenceExactly(lib, args, prompt, model, e);
    }
    var prefill := PrefillOf(model, prompt);
    if prefill.None? {
      return None;
    }
    var tokens := DecodeTokens(model, prefill.value.cache, prefill.value.token, args.outputTokens);
    if tokens.None? {
      return None;
    }
    r := Conclude(lib, args, prompt, Reference, prefill.value.token, tokens.value, None);
  }

  // ---------- the prefill worker ----------

  /** The header a prefill worker sends, when it gets as far as sending. */
  ghost function PrefillHeader(lib: Library, args: Args, prompt: seq<int>, model: Model): (r: Option<Json>)
    ensures r.Some? ==> PrefillOf(model, prompt).Some? && ExpectedKv(lib, args, prompt, model).Some?
  {
    var prefill, expected := PrefillOf(model, prompt), ExpectedKv(lib, args, prompt, model);
    if prefill.None? || expected.None? || !Packable(prefill.value.cache, model.dims, |prompt|) then None
    else
      var packed := Packed(Payload(prefill.value.cache), Table(model.dims, |prompt|));
      var header := BuiltHeader(expected.value, packed, lib.sha(packed.payload), prefill.value.token);
      if 0 <= prefill.value.token < model.vocab && Acceptable(header, expected.value) then Some(header) else None
  }

  /** All of the bytes it sends when nothing fails. */
  ghost function PrefillFrame(lib: Library, args: Args, prompt: seq<int>, model: Model): (r: Option<seq<Byte>>)
    ensures r.Some? ==> PrefillHeader(lib, args, prompt, model).Some?
  {
    var header := PrefillHeader(lib, args, prompt, model);
    if header.None? then None
    else
      var payload := Payload(PrefillOf(model, prompt).value.cache);
      if CanSend(lib, header.value, payload) then Some(Frame(lib.encode(header.value).value, payload)) else None
  }

  /** Its result over a network that takes `capacity` bytes. */
  ghost function PrefillResult(lib: Library, args: Args, prompt: seq<int>, model: Model, capacity: nat):
    Option<RunResult>
  {
    var header, frame := PrefillHeader(lib, args, prompt, model), PrefillFrame(lib, args, prompt, model);
    if frame.None? || |frame.value| > capacity then None
    else
      var prefill := PrefillOf(model, prompt).value;
      var payload := Payload(prefill.cache);
      Conclude(lib, args, prompt, Prefill, prefill.token, [prefill.token],
               Some(Transfer(lib.sha(lib.encode(header.value).value), |payload|, lib.sha(payload))))
  }

  /** The result a prefill run has to give: the network takes its whole frame, and the one token is the model's. */
  ghost predicate PrefillMeans(lib: Library, args: Args, prompt: seq<int>, model: Model, capacity: nat, e: RunResult) {
    var header, frame := PrefillHeader(lib, args, prompt, model), PrefillFrame(lib, args, prompt, model);
    var payload := Payload(model.forward(prompt).cache);
    && frame.Some? && |frame.value| <= capacity
    && e.tokens == [model.forward(prompt).token]
    && e.transfer == Some(Transfer(lib.sha(lib.encode(header.value).value), |payload|, lib.sha(payload)))
    && e.role == Prefill && Reportable(lib, args, prompt, e)
  }

  lemma PrefillExactly(lib: Library, args: Args, prompt: seq<int>, model: Model, capacity: nat, e: RunResult)
    ensures PrefillResult(lib, args, prompt, model, capacity) == Some(e)
       <==> PrefillMeans(lib, args, prompt, model, capacity, e)
  {
    hide PrefillHeader, Conclude, Reportable, Payload;
    ReportableCounts(lib, args, prompt, e);
    if PrefillFrame(lib, args, prompt, model).Some? {
      var header, payload := PrefillHeader(lib, args, prompt, model).value, Payload(model.forward(prompt).cache);
      ConcludeExactly(lib, args, prompt, Prefill, model.forward(prompt).token, [model.forward(prompt).token],
                      Some(Transfer(lib.sha(lib.encode(header).value), |payload|, lib.sha(payload))), e);
    }
  }

  /** run_prefill: it sends as much of its frame as the network takes, all of it when nothing fails, and its
      result is a function of the model. */
  method RunPrefill(lib: Library, args: Args, prompt: seq<int>, model: Model, out: Outgoing)
    returns (r: Option<RunResult>)
    requires out.sent == []
    modifies out
    ensures var frame := PrefillFrame(lib, args, prompt, model);
            out.sent == if frame.Some? then out.Taken([], frame.value) else []
    ensures r == PrefillResult(lib, args, prompt, model, out.capacity)
    ensures forall e :: r == Some(e) <==> PrefillMeans(lib, args, prompt, model, out.capacity, e)
  {
    hide PrefillMeans, Conclude, Acceptable, Packable, Payload, IsSha256, Frame, BuiltHeader, Sendable;
    forall e
      ensures PrefillResult(lib, args, prompt, model, out.capacity) == Some(e)
         <==> PrefillMeans(lib, args, prompt, model, out.capacity, e)
    {
      PrefillExactly(lib, args, prompt, model, out.capacity, e);
    }
    var prefill := PrefillOf(model, prompt);
    if prefill.None? {
      return None;
    }
    var packed := Pack(prefill.value.cache, |prompt|, model.dims);
    if packed.None? {
      return None;
    }
    var expected := ExpectedKv(lib, args, prompt, model);
    if expected.None? {
      return None;
    }
    var payload := packed.value.payload;
    var header := BuildKvHeader(expected.value, packed.value, lib.sha(payload), prefill.value.token);
    if header.None? {
      return None;
    }
    assert PrefillHeader(lib, args, prompt, model) == header;
    var sent := SendFramed(out, lib, header.value, payload);
    if !sent {
      return None;
    }
    r := Conclude(lib, args, prompt, Prefill, prefill.value.token, [prefill.value.token],
                  Some(Transfer(lib.sha(lib.encode(header.value).value), |payload|, lib.sha(payload))));
  }

  // ---------- the decode worker ----------

  /** What arrives when a stream carries an acceptable header and a payload of its size and digest. */
  datatype Handoff = Handoff(header: Json, payload: seq<Byte>)

  ghost function HandoffOf(lib: Library, expected: Expected, stream: seq<Byte>): (r: Option<Handoff>)
    ensures r.Some? ==> Acceptable(r.value.header, expected)
  {
    var head := ParseHead(lib, stream);
    if head.None? || !Acceptable(head.value.header, expected) then None
    else
      var header, rest := head.value.header, stream[head.value.used..];
      HeaderParts(header, expected);
      if header.fields[PayloadBytes] != Int(head.value.payloadBytes) || |rest| < head.value.payloadBytes then None
      else
        var payload := rest[..head.value.payloadBytes];
        if lib.sha(payload) != header.fields[PayloadSha256].s then None else Some(Handoff(header, payload))
  }

  lemma HeaderParts(header: Json, e: Expected)
    requires Acceptable(header, e)
    ensures header.Obj? && header.fields.Keys == HeaderKeys() && Rest(header.fields, e)
  {
    AcceptableByFields(header, e);
  }

  /** From a handoff to the tokens: read the table, unpack, decode. */
  function TokensOf(model: Model, args: Args, fields: map<Key, Json>, payload: seq<Byte>): Option<seq<int>>
    requires fields.Keys == HeaderKeys() && fields[Tensors].Arr? && fields[FirstTokenId].Int?
  {
    var table := ReadTable(fields[Tensors].items);
    if table.None? then None
    else
      var cache := UnpackCache(payload, table.value, model.dims.layers);
      if cache.None? then None else DecodeOf(model, cache.value, fields[FirstTokenId].i, args.outputTokens)
  }

  ghost function DecodedOf(lib: Library, args: Args, prompt: seq<int>, model: Model, stream: seq<Byte>):
    Option<RunResult>
  {
    var expected := ExpectedKv(lib, args, prompt, model);
    if expected.None? then None
    else
      var handoff := HandoffOf(lib, expected.value, stream);
      if handoff.None? then None
      else
        HeaderParts(handoff.value.header, expected.value);
        ConcludeDecode(lib, args, prompt, model, handoff.value.header, handoff.value.payload)
  }

  function ConcludeDecode(lib: Library, args: Args, prompt: seq<int>, model: Model, header: Json, payload: seq<Byte>):
    Option<RunResult>
    requires header.Obj? && header.fields.Keys == HeaderKeys() && header.fields[Tensors].Arr?
    requires header.fields[FirstTokenId].Int?
    requires header.fields[PayloadSha256].Str?
  {
    var tokens, raw := TokensOf(model, args, header.fields, payload), lib.encode(header);
    if tokens.None? || raw.None? then None
    else
      Conclude(lib, args, prompt, Decode, header.fields[FirstTokenId].i, tokens.value,
               Some(Transfer(lib.sha(raw.value), |payload|, header.fields[PayloadSha256].s)))
  }

  /** The bytes at the start of a stream are a frame whose header the expectation accepts and whose payload has
      the size and digest the header says. */
  ghost predicate Carries(lib: Library, expected: Expected, stream: seq<Byte>, header: Json, payload: seq<Byte>) {
    var head := ParseHead(lib, stream);
    && head.Some? && head.value.header == header && head.value.payloadBytes == |payload|
    && head.value.used + |payload| <= |stream| && stream[head.value.used..head.value.used + |payload|] == payload
    && Acceptable(header, expected)
    && header.Obj? && PayloadBytes in header.fields && header.fields[PayloadBytes] == Int(|payload|)
    && PayloadSha256 in header.fields && header.fields[PayloadSha256] == Str(lib.sha(payload))
  }

  lemma HandoffExactly(lib: Library, expected: Expected, stream: seq<Byte>, header: Json, payload: seq<Byte>)
    ensures HandoffOf(lib, expected, stream) == Some(Handoff(header, payload))
       <==> Carries(lib, expected, stream, header, payload)
  {
    hide Acceptable, ParseHead, HeaderKeys, TensorsMean, TotalBytes, IsSha256;
    if Acceptable(header, expected) {
      Parts(header, expected);
    }
    var head := ParseHead(lib, stream);
    if head.Some? && Acceptable(head.value.header, expected) {
      Parts(head.value.header, expected);
      var rest, n := stream[head.value.used..], head.value.payloadBytes;
      if n <= |rest| {
        assert rest[..n] == stream[head.value.used..head.value.used + n];
      }
    }
  }

  /** The cache a header and a payload stand for, by the header's own table. */
  ghost predicate Restores(model: Model, header: Json, payload: seq<Byte>, cache: Cache)
    requires header.Obj?
  {
    && Tensors in header.fields && header.fields[Tensors].Arr? && ReadTable(header.fields[Tensors].items).Some?
    && UnpackCache(payload, ReadTable(header.fields[Tensors].items).value, model.dims.layers) == Some(cache)
  }

  /** The result a decode run has to give on a stream: the stream carries a header and a payload, they restore a
      cache, and the tokens are those the model generates from it and from the header's first token. */
  ghost predicate DecodedMeans(lib: Library, args: Args, prompt: seq<int>, model: Model, stream: seq<Byte>,
                               e: RunResult) {
    var expected := ExpectedKv(lib, args, prompt, model);
    && expected.Some?
    && exists header, payload, cache ::
         && Carries(lib, expected.value, stream, header, payload) && Restores(model, header, payload, cache)
         && FirstTokenId in header.fields && header.fields[FirstTokenId] == Int(e.firstToken)
         && Generated(model, cache, e.firstToken, e.tokens)
         && lib.encode(header).Some?
         && e.transfer == Some(Transfer(lib.sha(lib.encode(header).value), |payload|, lib.sha(payload)))
         && e.role == Decode && Reportable(lib, args, prompt, e)
  }

  lemma DecodedExactly(lib: Library, args: Args, prompt: seq<int>, model: Model, stream: seq<Byte>, e: RunResult)
    ensures DecodedOf(lib, args, prompt, model, stream) == Some(e)
       <==> DecodedMeans(lib, args, prompt, model, stream, e)
  {
    hide Acceptable, Carries, HandoffOf, ConcludeDecode, Reportable, Generated;
    var expected := ExpectedKv(lib, args, prompt, model);
    if expected.Some? {
      var handoff := HandoffOf(lib, expected.value, stream);
      forall header, payload | Carries(lib, expected.value, stream, header, payload)
        ensures handoff == Some(Handoff(header, payload))
      {
        HandoffExactly(lib, expected.value, stream, header, payload);
      }
      if handoff.Some? {
        var header, payload := handoff.value.header, handoff.value.payload;
        HandoffExactly(lib, expected.value, stream, header, payload);
        Parts(header, expected.value);
        CarriedParts(lib, expected.value, stream, header, payload);
        DecodeConcluded(lib, args, prompt, model, header, payload, e);
      }
    }
  }

  lemma CarriedParts(lib: Library, expected: Expected, stream: seq<Byte>, header: Json, payload: seq<Byte>)
    requires Carries(lib, expected, stream, header, payload)
    ensures header.Obj? && PayloadSha256 in header.fields && header.fields[PayloadSha256] == Str(lib.sha(payload))
  {
  }

  lemma DecodeConcluded(lib: Library, args: Args, prompt: seq<int>, model: Model, header: Json, payload: seq<Byte>,
                        e: RunResult)
    requires header.Obj? && header.fields.Keys == HeaderKeys() && Tensors in header.fields
    requires FirstTokenId in header.fields && PayloadSha256 in header.fields
    requires header.fields[Tensors].Arr? && header.fields[FirstTokenId].Int?
    requires header.fields[PayloadSha256] == Str(lib.sha(payload))
    ensures ConcludeDecode(lib, args, prompt, model, header, payload) == Some(e) <==>
              exists cache ::
                && Restores(model, header, payload, cache) && header.fields[FirstTokenId] == Int(e.firstToken)
                && Generated(model, cache, e.firstToken, e.tokens) && lib.encode(header).Some?
                && e.transfer == Some(Transfer(lib.sha(lib.encode(header).value), |payload|, lib.sha(payload)))
                && e.role == Decode && Reportable(lib, args, prompt, e)
  {
    hide ReadTable, UnpackCache, HeaderKeys, Conclude, DecodeOf, Reportable, Generated;
    var table, first := ReadTable(header.fields[Tensors].items), header.fields[FirstTokenId].i;
    ReportableCounts(lib, args, prompt, e);
    if table.Some? && lib.encode(header).Some? {
      var cache := UnpackCache(payload, table.value, model.dims.layers);
      if cache.Some? {
        assert Restores(model, header, payload, cache.value);
        var tokens := DecodeOf(model, cache.value, first, args.outputTokens);
        DecodeExactly(model, cache.value, first, args.outputTokens, e.tokens);
        if tokens.Some? {
          ConcludeExactly(lib, args, prompt, Decode, first, tokens.value,
                          Some(Transfer(lib.sha(lib.encode(header).value), |payload|, lib.sha(payload))), e);
        }
      }
    }
  }

  /** run_decode. Unless one of its recv calls fails, its result is a function of the bytes that arrive,
      however they are cut; and a successful one has taken the frame and no byte beyond it. */
  method RunDecode(lib: Library, args: Args, prompt: seq<int>, model: Model, input: Incoming)
    returns (r: Option<RunResult>)
    requires input.Valid() && !input.broken
    modifies input
    ensures input.Valid()
    ensures input.broken <==> input.Faulted(old(input.calls), input.calls)
    ensures r == if input.broken then None else DecodedOf(lib, args, prompt, model, old(input.Left()))
    ensures forall e :: r == Some(e) <==> !input.broken && DecodedMeans(lib, args, prompt, model, old(input.Left()), e)
    ensures r.Some? ==>
              var head := ParseHead(lib, old(input.Left()));
              && head.Some? && head.value.used + head.value.payloadBytes <= |old(input.Left())|
              && input.Left() == old(input.Left())[head.value.used + head.value.payloadBytes..]
  {
    hide DecodedMeans, Acceptable, ParseHead, TokensOf, Conclude, ExpectedKv, HeaderKeys, Rest;
    forall e
      ensures DecodedOf(lib, args, prompt, model, input.Left()) == Some(e)
         <==> DecodedMeans(lib, args, prompt, model, input.Left(), e)
    {
      DecodedExactly(lib, args, prompt, model, input.Left(), e);
    }
    var head := ReceiveFramedHeader(input, lib);
    if head.None? {
      return None;
    }
    var (header, payloadBytes) := head.value;
    var expected := ExpectedKv(lib, args, prompt, model);
    if expected.None? {
      return None;
    }
    var valid := ValidateKvHeader(header, expected.value);
    if !valid {
      return None;
    }
    Parts(header, expected.value);
    if Int(payloadBytes) != header.fields[PayloadBytes] {
      return None;
    }
    var payload := input.RecvExact(payloadBytes);
    if payload.None? || lib.sha(payload.value) != header.fields[PayloadSha256].s {
      return None;
    }
    r := FinishDecode(lib, args, prompt, model, header, payload.value);
  }

  lemma Parts(header: Json, e: Expected)
    requires Acceptable(header, e)
    ensures header.Obj? && header.fields.Keys == HeaderKeys()
    ensures PayloadBytes in header.fields && Tensors in header.fields
    ensures FirstTokenId in header.fields && PayloadSha256 in header.fields
    ensures header.fields[PayloadBytes].Int? && header.fields[Tensors].Arr? && header.fields[FirstTokenId].Int?
    ensures header.fields[PayloadSha256].Str?
  {
    HeaderParts(header, e);
  }

  method FinishDecode(lib: Library, args: Args, prompt: seq<int>, model: Model, header: Json, payload: seq<Byte>)
    returns (r: Option<RunResult>)
    requires header.Obj? && header.fields.Keys == HeaderKeys() && header.fields[Tensors].Arr?
    requires header.fields[FirstTokenId].Int?
    requires header.fields[PayloadSha256].Str?
    ensures r == ConcludeDecode(lib, args, prompt, model, header, payload)
  {
    hide ReadTable, UnpackCache, Conclude, DecodeOf;
    var table := ReadTable(header.fields[Tensors].items);
    if table.None? {
      return None;
    }
    var cache := Unpack(payload, table.value, model.dims.layers);
    if cache.None? {
      return None;
    }
    var tokens := DecodeTokens(model, cache.value, header.fields[FirstTokenId].i, args.outputTokens);
    var raw := lib.encode(header);
    if tokens.None? || raw.None? {
      return None;
    }
    r := Conclude(lib, args, prompt, Decode, header.fields[FirstTokenId].i, tokens.value,
                  Some(Transfer(lib.sha(raw.value), |payload|, header.fields[PayloadSha256].s)));
  }

  // ---------- the theorems ----------

  /** When prefill gets as far as a header: exactly when the prompt is in the vocabulary and encodes, the cache
      has the model's layout, its own identity and size are describable, and the first token is in the
      vocabulary. */
  lemma PrefillSendsExactly(lib: Library, args: Args, prompt: seq<int>, model: Model)
    requires Lawful(lib)
    ensures var prefill, e := PrefillOf(model, prompt), ExpectedKv(lib, args, prompt, model);
            PrefillHeader(lib, args, prompt, model).Some? <==>
            && prefill.Some? && e.Some? && Packable(prefill.value.cache, model.dims, |prompt|)
            && Describable(e.value) && 0 <= prefill.value.token < model.vocab
  {
    hide Acceptable, Packable, Payload, BuiltHeader, Describable, IsSha256, TokenDigest;
    var prefill, e := PrefillOf(model, prompt), ExpectedKv(lib, args, prompt, model);
    if prefill.Some? && e.Some? && Packable(prefill.value.cache, model.dims, |prompt|) {
      PackedHeaderAccepted(e.value, prefill.value.cache, lib.sha(Payload(prefill.value.cache)), prefill.value.token);
    }
  }

  /** A codec that knows two messages, with a constant digest. */
  function TwoMessages(a: Json, b: Json, digest: string): Library {
    Library(j => if j == a then Some([0]) else if j == b then Some([1]) else None,
            s => if s == [0] then Some(a) else if s == [1] then Some(b) else None,
            _ => digest)
  }

  /** The assumptions on the libraries can be met in every run they are made of: any model, prompt and
      identity that prefill can describe has lawful libraries under which its whole frame is sent. */
  lemma SomeLibrarySends(args: Args, prompt: seq<int>, model: Model, digest: string)
    requires IsSha256(args.modelSha256) && IsSha256(args.tokenizerSha256) && IsSha256(digest)
    requires PrefillOf(model, prompt).Some? && Packable(PrefillOf(model, prompt).value.cache, model.dims, |prompt|)
    requires 1 <= At(2 * model.dims.layers, TensorBytes(model.dims, |prompt|)) <= MAX_PAYLOAD_BYTES
    requires 0 <= PrefillOf(model, prompt).value.token < model.vocab
    ensures exists lib :: Lawful(lib) && PrefillFrame(lib, args, prompt, model).Some?
  {
    hide Acceptable, Payload, IsSha256, TensorBytes, At, Decimal, HeaderObject, TableJson;
    var prefill := PrefillOf(model, prompt).value;
    var e := Expected(args.modelId, args.modelSha256, args.tokenizerSha256, args.requestId, args.epoch, |prompt|,
                      digest, args.outputTokens, model.dims, model.vocab);
    var packed := Packed(Payload(prefill.cache), Table(model.dims, |prompt|));
    var header := BuiltHeader(e, packed, digest, prefill.token);
    var lib := TwoMessages(Arr(Ints(prompt)), header, digest);
    assert Lawful(lib);
    PackedHeaderAccepted(e, prefill.cache, digest, prefill.token);
    PayloadSlices(prefill.cache, model.dims, |prompt|, 0);
    assert PrefillHeader(lib, args, prompt, model) == Some(header);
    assert PrefillFrame(lib, args, prompt, model).Some?;
  }

  /** The header a prefill worker sent, seen from the decode side: its table reads back and its payload
      unpacks to the very cache prefill produced. */
  lemma HeaderCarriesCache(lib: Library, args: Args, prompt: seq<int>, model: Model, header: Json)
    requires PrefillHeader(lib, args, prompt, model) == Some(header)
    ensures var prefill, e := PrefillOf(model, prompt).value, ExpectedKv(lib, args, prompt, model).value;
            && Acceptable(header, e)
            && header.Obj? && header.fields.Keys == HeaderKeys() && header.fields[Tensors].Arr?
            && header.fields[FirstTokenId].Int?
            && header.fields[PayloadBytes] == Int(|Payload(prefill.cache)|)
            && header.fields[PayloadSha256] == Str(lib.sha(Payload(prefill.cache)))
            && header.fields[FirstTokenId] == Int(prefill.token)
            && ReadTable(header.fields[Tensors].items) == Some(Table(model.dims, |prompt|))
            && UnpackCache(Payload(prefill.cache), Table(model.dims, |prompt|), model.dims.layers)
            == Some(prefill.cache)
  {
    hide Acceptable, Packable, Payload, HeaderKeys, HeaderObject, TableJson, Table, TensorsMean, TotalBytes,
         UnpackCache, ReadTable;
    var prefill, e := PrefillOf(model, prompt).value, ExpectedKv(lib, args, prompt, model).value;
    var payload, table := Payload(prefill.cache), Table(model.dims, |prompt|);
    HeaderFields(e, TableJson(table), |payload|, lib.sha(payload), prefill.token);
    HeaderParts(header, e);
    TableReads(table);
    PositiveTensors(header, e);
    UnpackOfPack(prefill.cache, model.dims, |prompt|);
  }

  lemma TableReads(table: seq<TensorDesc>)
    ensures ReadTable(TableJson(table)) == Some(table)
  {
    forall i | 0 <= i < |table| ensures ReadEntry(TensorJson(table[i])) == Some(table[i]) {
      EntryMeans(table[i]);
      ReadEntryExact(TensorJson(table[i]), table[i]);
    }
    forall j | j in TableJson(table) ensures ReadEntry(j).Some? {
      var i :| 0 <= i < |table| && TableJson(table)[i] == j;
    }
    hide ReadEntry;
    assert seq(|table|, i requires 0 <= i < |table| => ReadEntry(TableJson(table)[i]).value) == table;
  }

  lemma PositiveTensors(header: Json, e: Expected)
    requires Acceptable(header, e)
    ensures TensorBytes(e.dims, e.promptLength) > 0
  {
    hide TensorBytes;
    if TensorBytes(e.dims, e.promptLength) <= 0 && e.dims.layers >= 0 {
      NotPositive(2 * e.dims.layers, TensorBytes(e.dims, e.promptLength));
    }
  }

  lemma {:induction false} NotPositive(n: nat, size: int)
    requires size <= 0
    ensures At(n, size) <= 0
  {
    if n > 0 {
      NotPositive(n - 1, size);
    }
  }

  /** The handoff is exact: from the sent frame and whatever follows it on the stream, the decode side takes
      the sent header and payload. */
  lemma FrameHandsOff(lib: Library, args: Args, prompt: seq<int>, model: Model, frame: seq<Byte>, tail: seq<Byte>)
    requires Lawful(lib) && PrefillFrame(lib, args, prompt, model) == Some(frame)
    ensures HandoffOf(lib, ExpectedKv(lib, args, prompt, model).value, frame + tail)
         == Some(Handoff(PrefillHeader(lib, args, prompt, model).value, Payload(PrefillOf(model, prompt).value.cache)))
  {
    hide Acceptable, Payload, ParseHead, PrefillHeader, Frame, HeaderKeys, Rest, ExpectedKv, PrefillOf, ReadTable,
         UnpackCache, Table;
    var header, payload := PrefillHeader(lib, args, prompt, model).value, Payload(PrefillOf(model, prompt).value.cache);
    HeaderCarriesCache(lib, args, prompt, model, header);
    var raw := lib.encode(header).value;
    FrameRoundTrip(lib, raw, header, payload, tail);
    assert (payload + tail)[..|payload|] == payload;
  }

  /** The split run computes what the reference computes. For any lawful libraries, any deterministic model,
      any dimensions, prompt and output length, and any bytes after the frame: if prefill got as far as a
      complete frame, the decode worker succeeds exactly when the single worker does, with the same first
      token, the same tokens and the same digest. */
  lemma SplitEqualsReference(lib: Library, args: Args, prompt: seq<int>, model: Model, frame: seq<Byte>,
                             tail: seq<Byte>)
    requires Lawful(lib) && PrefillFrame(lib, args, prompt, model) == Some(frame)
    ensures var reference := ReferenceOf(lib, args, prompt, model);
            var split := DecodedOf(lib, args, prompt, model, frame + tail);
            && (split.Some? <==> reference.Some?)
            && (reference.Some? ==>
                  && split.value.firstToken == reference.value.firstToken
                  && split.value.tokens == reference.value.tokens
                  && split.value.tokenDigest == reference.value.tokenDigest
                  && split.value.promptDigest == reference.value.promptDigest)
  {
    hide Acceptable, Payload, ParseHead, PrefillHeader, Frame, HeaderKeys, Rest, HandoffOf, ReadTable, UnpackCache,
         Table, DecodeOf,
         Conclude, TokensOf, ExpectedKv, PrefillOf;
    var header := PrefillHeader(lib, args, prompt, model).value;
    FrameHandsOff(lib, args, prompt, model, frame, tail);
    HeaderCarriesCache(lib, args, prompt, model, header);
    PayloadNotEmpty(header, ExpectedKv(lib, args, prompt, model).value);
    var prefill := PrefillOf(model, prompt).value;
    var payload := Payload(prefill.cache);
    var tokens := DecodeOf(model, prefill.cache, prefill.token, args.outputTokens);
    assert TokensOf(model, args, header.fields, payload) == tokens by {
      TokensFromTable(model, args, header.fields, payload);
    }
    if tokens.Some? {
      ConcludeAgrees(lib, args, prompt, prefill.token, tokens.value,
                     Transfer(lib.sha(lib.encode(header).value), |payload|, lib.sha(payload)));
    }
  }

  lemma TokensFromTable(model: Model, args: Args, fields: map<Key, Json>, payload: seq<Byte>)
    requires fields.Keys == HeaderKeys() && fields[Tensors].Arr? && fields[FirstTokenId].Int?
    requires ReadTable(fields[Tensors].items).Some?
    requires UnpackCache(payload, ReadTable(fields[Tensors].items).value, model.dims.layers).Some?
    ensures TokensOf(model, args, fields, payload)
         == DecodeOf(model, UnpackCache(payload, ReadTable(fields[Tensors].items).value, model.dims.layers).value,
                     fields[FirstTokenId].i, args.outputTokens)
  {
  }

  /** A valid transfer makes no difference to whether a result is given, nor to its tokens. */
  lemma ConcludeAgrees(lib: Library, args: Args, prompt: seq<int>, first: int, tokens: seq<int>, transfer: Transfer)
    requires IsSha256(transfer.headerSha256) && IsSha256(transfer.payloadSha256) && transfer.payloadBytes >= 1
    ensures var a, b := Conclude(lib, args, prompt, Reference, first, tokens, None),
                        Conclude(lib, args, prompt, Decode, first, tokens, Some(transfer));
            && (a.Some? <==> b.Some?)
            && (a.Some? ==> b.value == a.value.(role := Decode, transfer := Some(transfer)) && a.value.tokens == tokens)
  {
    hide TokenDigest, IsSha256;
  }

  lemma PayloadNotEmpty(header: Json, e: Expected)
    requires Acceptable(header, e)
    ensures header.Obj? && PayloadBytes in header.fields && header.fields[PayloadBytes].Int?
    ensures header.fields[PayloadBytes].i >= 1
  {
    HeaderParts(header, e);
  }

  /** A stream that breaks off anywhere inside the frame gives no result. */
  lemma TruncatedGivesNothing(lib: Library, args: Args, prompt: seq<int>, model: Model, frame: seq<Byte>, s: seq<Byte>)
    requires Lawful(lib) && PrefillFrame(lib, args, prompt, model) == Some(frame) && s < frame
    ensures forall args', prompt', model' :: DecodedOf(lib, args', prompt', model', s).None?
  {
    hide Acceptable, Payload, ParseHead, PrefillHeader, Frame, HeaderKeys, Rest, ConcludeDecode;
    var raw := lib.encode(PrefillHeader(lib, args, prompt, model).value).value;
    ProperPrefixRejected(lib, raw, Payload(PrefillOf(model, prompt).value.cache), s);
  }

  /** A decode worker that expects anything else of the request (model, digests, epoch, prompt, output length
      or dimensions) gives no result. */
  lemma MismatchGivesNothing(lib: Library, args: Args, prompt: seq<int>, model: Model, frame: seq<Byte>,
                             tail: seq<Byte>,
                             args': Args, prompt': seq<int>, model': Model)
    requires Lawful(lib) && PrefillFrame(lib, args, prompt, model) == Some(frame)
    requires DecodedOf(lib, args', prompt', model', frame + tail).Some?
    ensures args' == args && |prompt'| == |prompt| && TokenDigest(lib, prompt') == TokenDigest(lib, prompt)
    ensures model'.dims == model.dims
  {
    hide Acceptable, Payload, ParseHead, PrefillHeader, Frame, HeaderKeys, Rest, ConcludeDecode, TokenDigest;
    var e, e' := ExpectedKv(lib, args, prompt, model).value, ExpectedKv(lib, args', prompt', model').value;
    FrameHandsOff(lib, args, prompt, model, frame, tail);
    HeaderBindsRequest(PrefillHeader(lib, args, prompt, model).value, e, e');
  }

  /** A prefill result means the whole frame fits the network, and reports the first token of the reference. */
  lemma PrefillReports(lib: Library, args: Args, prompt: seq<int>, model: Model, capacity: nat)
    ensures var r, frame := PrefillResult(lib, args, prompt, model, capacity), PrefillFrame(lib, args, prompt, model);
            && (frame.Some? && |frame.value| > capacity ==> r.None?)
            && (r.Some? ==> frame.Some? && |frame.value| <= capacity)
            && (r.Some? && ReferenceOf(lib, args, prompt, model).Some? ==>
                  r.value.firstToken == ReferenceOf(lib, args, prompt, model).value.firstToken)
  {
    hide PrefillFrame, ValidResult, TokenDigest, DecodeOf;
  }

  /** Prefill on one worker, its bytes and then anything else on the wire, decode on another, and the reference
      on a third. Over a connection that never fails, once prefill reports a result the decode worker reports
      one exactly when the reference does, with the same tokens and digest. If recv calls may fail, a decode
      result that does come back is still the reference's. If the network cut the frame short, there is none. */
  method SplitRun(lib: Library, args: Args, prompt: seq<int>, model: Model, capacity: nat, tail: seq<Byte>,
                  replies: nat -> Reply)
    returns (prefill: Option<RunResult>, split: Option<RunResult>, reference: Option<RunResult>)
    requires Lawful(lib)
    ensures prefill.Some? && (forall i :: !replies(i).Fault?) ==> (split.Some? <==> reference.Some?)
    ensures prefill.Some? && split.Some? ==>
              && reference.Some?
              && split.value.firstToken == reference.value.firstToken == prefill.value.firstToken
              && split.value.tokens == reference.value.tokens && split.value.tokenDigest == reference.value.tokenDigest
    ensures var frame := PrefillFrame(lib, args, prompt, model);
            frame.Some? && |frame.value| > capacity && tail == [] ==> prefill.None? && split.None?
    ensures reference == ReferenceOf(lib, args, prompt, model)
    ensures prefill.Some? && split.Some? ==>
              && |split.value.tokens| == args.outputTokens
              && Generated(model, model.forward(prompt).cache, model.forward(prompt).token, split.value.tokens)
  {
    hide PrefillMeans, DecodedMeans, PrefillFrame, PrefillResult, DecodedOf, ReferenceOf, Lawful, ParseHead,
         Outgoing.Taken;
    var out := new Outgoing(capacity);
    prefill := RunPrefill(lib, args, prompt, model, out);
    var input := new Incoming(out.sent + tail, replies);
    assert input.Left() == out.sent + tail;
    split := RunDecode(lib, args, prompt, model, input);
    reference := RunReference(lib, args, prompt, model);
    PrefillReports(lib, args, prompt, model, capacity);
    ghost var frame := PrefillFrame(lib, args, prompt, model);
    if prefill.Some? {
      out.AllTaken(frame.value);
      SplitEqualsReference(lib, args, prompt, model, frame.value, tail);
      if reference.Some? {
        ReportableCounts(lib, args, prompt, reference.value);
      }
    } else if frame.Some? && |frame.value| > capacity && tail == [] {
      out.CutShort([], frame.value, frame.value);
      assert out.sent + tail == out.sent;
      TruncatedGivesNothing(lib, args, prompt, model, frame.value, out.sent);
    }
  }
}
