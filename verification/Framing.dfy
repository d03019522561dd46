/** Length-prefixed frames over a TCP stream that delivers in arbitrary pieces and may fail anywhere
    (src/serverlessx/spd/tinyllama_pd.py). */
module Framing {
  import opened JsonValues
  import opened KvHeader
  import opened Words
  import opened Wrappers

  const PREFIX_SIZE := 8
  const RECV_LIMIT := 0x10_0000
  const MAX_HEADER_BYTES := 0x10_0000

  /** The library calls behind the protocol: the JSON text codec, which may refuse a value, and SHA-256 in
      hexadecimal. */
  datatype Library = Library(encode: Json -> Option<seq<Byte>>, decode: seq<Byte> -> Option<Json>,
                             sha: seq<Byte> -> string)

  /** All that is assumed of them. */
  ghost predicate Lawful(lib: Library) {
    && (forall j :: lib.encode(j).Some? ==> lib.decode(lib.encode(j).value) == Some(j))
    && forall s :: IsSha256(lib.sha(s))
  }

  /** struct "!Q": eight bytes, most significant first. */
  function Prefix(n: U64): (s: seq<Byte>)
    ensures |s| == PREFIX_SIZE
  {
    Reverse(U64Le(n))
  }

  function Length(s: seq<Byte>): U64
    requires |s| == PREFIX_SIZE
  {
    LoadU64(Reverse(s))
  }

  lemma PrefixRoundTrip(n: U64)
    ensures Length(Prefix(n)) == n
  {
    hide U64Le, LoadU64;
    U64RoundTrip(n, U64Le(n));
    assert Reverse(Reverse(U64Le(n))) == U64Le(n);
  }

  lemma LengthRoundTrip(s: seq<Byte>)
    requires |s| == PREFIX_SIZE
    ensures Prefix(Length(s)) == s
  {
    hide U64Le, LoadU64;
    U64RoundTrip(0, Reverse(s));
    assert Reverse(Reverse(s)) == s;
  }

  // ---------- the two ends of a connection ----------

  /** The sending end: the network takes `capacity` bytes before it fails. */
  class Outgoing {
    const capacity: nat
    var sent: seq<Byte>

    constructor (capacity: nat)
      ensures this.capacity == capacity && sent == []
    {
      this.capacity := capacity;
      sent := [];
    }

    /** The bytes the network takes of what was sent so far and `data`. */
    function Taken(before: seq<Byte>, data: seq<Byte>): seq<Byte> {
      if |before| + |data| <= capacity then before + data
      else if |before| <= capacity then before + data[..capacity - |before|]
      else before
    }

    /** Failing within one piece cuts the whole at the same place. */
    lemma CutShort(before: seq<Byte>, data: seq<Byte>, whole: seq<Byte>)
      requires |before| <= capacity < |before| + |data| && before + data <= whole
      ensures Taken(before, data) == Taken([], whole) == whole[..capacity] && |whole| > capacity
    {
      assert (before + data)[..capacity] == before + data[..capacity - |before|];
    }

    lemma AllTaken(whole: seq<Byte>)
      requires |whole| <= capacity
      ensures Taken([], whole) == whole
    {
    }

    method SendAll(data: seq<Byte>) returns (ok: bool)
      modifies this
      ensures ok <==> |old(sent)| + |data| <= capacity
      ensures sent == Taken(old(sent), data)
      ensures ok ==> sent == old(sent) + data
    {
      ok := |sent| + |data| <= capacity;
      sent := Taken(sent, data);
    }
  }

  /** What one recv answers: some bytes, at least one while any are left, or an error. */
  datatype Reply = Chunk(n: nat) | Fault

  /** The receiving end: the bytes that will ever arrive, cut up by a script. */
  class Incoming {
    const stream: seq<Byte>
    const replies: nat -> Reply
    var calls: nat
    var taken: nat
    var broken: bool

    constructor (stream: seq<Byte>, replies: nat -> Reply)
      ensures this.stream == stream && this.replies == replies
      ensures Valid() && taken == 0 && !broken
    {
      this.stream, this.replies := stream, replies;
      calls, taken, broken := 0, 0, false;
    }

    predicate Valid()
      reads this
    {
      taken <= |stream|
    }

    function Left(): seq<Byte>
      reads this
      requires Valid()
    {
      stream[taken..]
    }

    /** Some answer from one call up to another is an error. */
    predicate Faulted(from: nat, to: nat) {
      exists i :: from <= i < to && replies(i).Fault?
    }

    method Recv(limit: nat) returns (chunk: seq<Byte>)
      requires Valid() && !broken && limit > 0
      modifies this
      ensures Valid() && |chunk| <= limit && taken == old(taken) + |chunk| && chunk == stream[old(taken)..taken]
      ensures calls == old(calls) + 1
      ensures broken <==> Faulted(old(calls), calls)
      ensures chunk == [] <==> broken || old(taken) == |stream|
    {
      var reply := replies(calls);
      calls := calls + 1;
      if reply.Fault? {
        broken := true;
        assert Faulted(old(calls), calls);
        return [];
      }
      var most := if limit <= |stream| - taken then limit else |stream| - taken;
      var size := if reply.n == 0 then 1 else reply.n;
      size := if size <= most then size else most;
      chunk := stream[taken..taken + size];
      taken := taken + size;
    }

    /** recv_exact: the next `length` bytes of the stream whatever the pieces, or None exactly when the
        stream ends short of them or one of its recv calls, at most `length` of them, fails. */
    method RecvExact(length: nat) returns (r: Option<seq<Byte>>)
      requires Valid() && !broken
      modifies this
      ensures Valid() && old(taken) <= taken <= old(taken) + length
      ensures old(calls) <= calls <= old(calls) + length
      ensures broken <==> Faulted(old(calls), calls)
      ensures r.Some? <==> !broken && length <= |old(Left())|
      ensures r.Some? ==> r.value == old(Left())[..length] && Left() == old(Left())[length..]
    {
      var received: seq<Byte> := [];
      var remaining := length;
      while remaining > 0
        invariant Valid() && !broken && old(calls) <= calls <= old(calls) + |received|
        invariant !Faulted(old(calls), calls)
        invariant 0 <= remaining <= length && |received| == length - remaining
        invariant taken == old(taken) + |received| && received == stream[old(taken)..taken]
      {
        ghost var before := calls;
        var chunk := Recv(if remaining <= RECV_LIMIT then remaining else RECV_LIMIT);
        assert Faulted(old(calls), calls) <==> Faulted(before, calls);
        if chunk == [] {
          return None;
        }
        assert stream[old(taken)..taken] == stream[old(taken)..taken - |chunk|] + chunk;
        received := received + chunk;
        remaining := remaining - |chunk|;
      }
      r := Some(received);
    }
  }

  // ---------- frames ----------

  function Frame(raw: seq<Byte>, payload: seq<Byte>): seq<Byte>
    requires |raw| <= MAX_HEADER_BYTES && |payload| <= MAX_PAYLOAD_BYTES
  {
    Prefix(|raw|) + raw + Prefix(|payload|) + payload
  }

  /** The sizes the sender admits. */
  predicate Sendable(raw: seq<Byte>, payload: seq<Byte>) {
    0 < |raw| <= MAX_HEADER_BYTES && 0 < |payload| <= MAX_PAYLOAD_BYTES
  }

  predicate CanSend(lib: Library, header: Json, payload: seq<Byte>) {
    lib.encode(header).Some? && Sendable(lib.encode(header).value, payload)
  }

  /** send_framed: as much of the frame as the network takes, and success exactly when that is all of it;
      nothing at all when the header does not encode or a size is outside the limits. */
  method SendFramed(out: Outgoing, lib: Library, header: Json, payload: seq<Byte>) returns (ok: bool)
    requires out.sent == []
    modifies out
    ensures CanSend(lib, header, payload) ==>
              var frame := Frame(lib.encode(header).value, payload);
              out.sent == out.Taken([], frame) && (ok <==> |frame| <= out.capacity)
    ensures !CanSend(lib, header, payload) ==> !ok && out.sent == []
  {
    var encoded := lib.encode(header);
    if encoded.None? {
      return false;
    }
    var raw := encoded.value;
    if raw == [] || |raw| > MAX_HEADER_BYTES || payload == [] || |payload| > MAX_PAYLOAD_BYTES {
      return false;
    }
    hide Prefix;
    ok := SendPieces(out, Prefix(|raw|), raw, Prefix(|payload|), payload);
  }

  /** The four sends of a frame. */
  method SendPieces(out: Outgoing, a: seq<Byte>, b: seq<Byte>, c: seq<Byte>, d: seq<Byte>) returns (ok: bool)
    requires out.sent == []
    modifies out
    ensures out.sent == out.Taken([], a + b + c + d) && (ok <==> |a + b + c + d| <= out.capacity)
  {
    hide Outgoing.Taken;
    ghost var whole := a + b + c + d;
    ok := out.SendAll(a);
    if !ok {
      assert [] + a == a;
      out.CutShort([], a, whole);
      return;
    }
    ok := out.SendAll(b);
    if !ok {
      out.CutShort(a, b, whole);
      return;
    }
    ok := out.SendAll(c);
    if !ok {
      out.CutShort(a + b, c, whole);
      return;
    }
    ok := out.SendAll(d);
    if !ok {
      out.CutShort(a + b + c, d, whole);
    } else {
      out.AllTaken(whole);
    }
  }

  /** A parsed frame head: the header, the length announced for the payload, and where the payload starts. */
  datatype Head = Head(header: Json, payloadBytes: nat, used: nat)

  /** What receive_framed_header makes of a stream. */
  function ParseHead(lib: Library, s: seq<Byte>): (r: Option<Head>)
    ensures r.Some? ==> r.value.used <= |s|
  {
    if |s| < PREFIX_SIZE then None
    else
      var size := Length(s[..PREFIX_SIZE]);
      if size == 0 || size > MAX_HEADER_BYTES || |s| < PREFIX_SIZE + size then None
      else
        var header := lib.decode(s[PREFIX_SIZE..PREFIX_SIZE + size]);
        var rest := s[PREFIX_SIZE + size..];
        if header.None? || !header.value.Obj? || |rest| < PREFIX_SIZE then None
        else
          var payloadBytes := Length(rest[..PREFIX_SIZE]);
          if payloadBytes == 0 || payloadBytes > MAX_PAYLOAD_BYTES then None
          else Some(Head(header.value, payloadBytes, PREFIX_SIZE + size + PREFIX_SIZE))
  }

  /** The stream begins with a frame's head: a header text within the limit, after its length, that decodes to this
      object, and an announced payload length within its own. */
  ghost predicate BeginsWith(lib: Library, s: seq<Byte>, raw: seq<Byte>, header: Json, payloadBytes: nat) {
    && 0 < |raw| <= 0x10_0000 && 0 < payloadBytes <= 0x4000_0000
    && lib.decode(raw) == Some(header) && header.Obj?
    && Prefix(|raw|) + raw + Prefix(payloadBytes) <= s
  }

  /** Exactly the streams that begin with a frame's head are accepted, and with what it says. */
  lemma ParseHeadExactly(lib: Library, s: seq<Byte>, header: Json, payloadBytes: nat, used: nat)
    ensures ParseHead(lib, s) == Some(Head(header, payloadBytes, used))
       <==> exists raw :: BeginsWith(lib, s, raw, header, payloadBytes) && used == |raw| + 16
  {
    hide Prefix, Length;
    var parsed := ParseHead(lib, s);
    if parsed == Some(Head(header, payloadBytes, used)) {
      var size := Length(s[..PREFIX_SIZE]);
      var raw, rest := s[PREFIX_SIZE..PREFIX_SIZE + size], s[PREFIX_SIZE + size..];
      LengthRoundTrip(s[..PREFIX_SIZE]);
      LengthRoundTrip(rest[..PREFIX_SIZE]);
      assert s[..used] == s[..PREFIX_SIZE] + raw + rest[..PREFIX_SIZE];
      assert BeginsWith(lib, s, raw, header, payloadBytes);
    }
    forall raw | BeginsWith(lib, s, raw, header, payloadBytes)
      ensures parsed == Some(Head(header, payloadBytes, |raw| + 16))
    {
      PrefixRoundTrip(|raw|);
      PrefixRoundTrip(payloadBytes);
      var head := Prefix(|raw|) + raw + Prefix(payloadBytes);
      assert s[..|head|] == head;
      assert s[..PREFIX_SIZE] == head[..PREFIX_SIZE] == Prefix(|raw|);
      assert s[PREFIX_SIZE..PREFIX_SIZE + |raw|] == head[PREFIX_SIZE..PREFIX_SIZE + |raw|] == raw;
      assert s[PREFIX_SIZE + |raw|..][..PREFIX_SIZE] == head[PREFIX_SIZE + |raw|..] == Prefix(payloadBytes);
    }
  }

  method ReceiveFramedHeader(input: Incoming, lib: Library) returns (r: Option<(Json, nat)>)
    requires input.Valid() && !input.broken
    modifies input
    ensures input.Valid() && old(input.calls) <= input.calls && old(input.taken) <= input.taken
    ensures input.broken <==> input.Faulted(old(input.calls), input.calls)
    ensures r.Some? <==> !input.broken && ParseHead(lib, old(input.Left())).Some?
    ensures r.Some? ==>
              var head := ParseHead(lib, old(input.Left()));
              && head.Some? && r.value == (head.value.header, head.value.payloadBytes)
              && input.Left() == old(input.Left())[head.value.used..]
  {
    hide Length;
    ghost var s := input.Left();
    var rawLength := input.RecvExact(PREFIX_SIZE);
    if rawLength.None? {
      return None;
    }
    var size := Length(rawLength.value);
    if size == 0 || size > MAX_HEADER_BYTES {
      return None;
    }
    var raw := input.RecvExact(size);
    if raw.None? {
      return None;
    }
    assert raw.value == s[PREFIX_SIZE..PREFIX_SIZE + size];
    var header := lib.decode(raw.value);
    if header.None? || !header.value.Obj? {
      return None;
    }
    assert input.Left() == s[PREFIX_SIZE + size..];
    var rawPayload := input.RecvExact(PREFIX_SIZE);
    if rawPayload.None? {
      return None;
    }
    var payloadBytes := Length(rawPayload.value);
    if payloadBytes == 0 || payloadBytes > MAX_PAYLOAD_BYTES {
      return None;
    }
    assert input.Left() == s[PREFIX_SIZE + size + PREFIX_SIZE..];
    r := Some((header.value, payloadBytes));
  }

  // ---------- the round trip ----------

  /** A frame followed by anything parses to its header and its payload's length, and what follows the head
      is the payload and then the rest, untouched. */
  lemma FrameRoundTrip(lib: Library, raw: seq<Byte>, header: Json, payload: seq<Byte>, rest: seq<Byte>)
    requires Sendable(raw, payload) && lib.decode(raw) == Some(header) && header.Obj?
    ensures var s, used := Frame(raw, payload) + rest, |raw| + 2 * PREFIX_SIZE;
            && ParseHead(lib, s) == Some(Head(header, |payload|, used))
            && s[used..] == payload + rest
  {
    hide Prefix, Length;
    var s := Frame(raw, payload) + rest;
    PrefixRoundTrip(|raw|);
    PrefixRoundTrip(|payload|);
    assert s[..PREFIX_SIZE] == Prefix(|raw|);
    assert s[PREFIX_SIZE..PREFIX_SIZE + |raw|] == raw;
    assert s[PREFIX_SIZE + |raw|..][..PREFIX_SIZE] == Prefix(|payload|);
    assert s[|raw| + 2 * PREFIX_SIZE..] == payload + rest;
  }

  /** No proper prefix of a frame is accepted: the head does not parse, or too few bytes follow it. */
  lemma ProperPrefixRejected(lib: Library, raw: seq<Byte>, payload: seq<Byte>, s: seq<Byte>)
    requires Sendable(raw, payload) && s < Frame(raw, payload)
    ensures var head := ParseHead(lib, s);
            head.Some? ==> |s| < head.value.used + head.value.payloadBytes
  {
    hide Prefix, Length;
    PrefixRoundTrip(|raw|);
    PrefixRoundTrip(|payload|);
    if |s| >= PREFIX_SIZE {
      assert s[..PREFIX_SIZE] == Prefix(|raw|);
      if |s| >= PREFIX_SIZE + |raw| + PREFIX_SIZE {
        assert s[PREFIX_SIZE + |raw|..][..PREFIX_SIZE] == Prefix(|payload|);
      }
    }
  }

  /** Two frames at the start of one stream are the same frame. */
  lemma FramesUnambiguous(raw: seq<Byte>, payload: seq<Byte>, rest: seq<Byte>, raw': seq<Byte>, payload': seq<Byte>,
                          rest': seq<Byte>)
    requires Sendable(raw, payload) && Sendable(raw', payload')
    requires Frame(raw, payload) + rest == Frame(raw', payload') + rest'
    ensures raw == raw' && payload == payload' && rest == rest'
  {
    hide Prefix, Length;
    var s := Frame(raw, payload) + rest;
    PrefixRoundTrip(|raw|);
    PrefixRoundTrip(|raw'|);
    PrefixRoundTrip(|payload|);
    PrefixRoundTrip(|payload'|);
    assert s[..PREFIX_SIZE] == Prefix(|raw|) == Prefix(|raw'|);
    assert raw == s[PREFIX_SIZE..PREFIX_SIZE + |raw|] == raw';
    assert s[PREFIX_SIZE + |raw|..][..PREFIX_SIZE] == Prefix(|payload|) == Prefix(|payload'|);
    assert payload == s[2 * PREFIX_SIZE + |raw|..2 * PREFIX_SIZE + |raw| + |payload|] == payload';
    assert rest == s[2 * PREFIX_SIZE + |raw| + |payload|..] == rest';
  }
}
