/** The queue-pair metadata two GDR parties exchange: network byte order, its 56-byte image and its
    validation (native/spd-gdr/src/spd_gdr.cpp), on a little-endian host. */
module NativeWire {
  import opened Wrappers
  import opened Words

  const WIRE_MAGIC: U32 := 0x53504444
  const DONE_MAGIC: U32 := 0x5350444f
  const WIRE_VERSION: U16 := 1
  const WIRE_SIZE := 56
  const ROLE_SOURCE := 1
  const ROLE_TARGET := 2

  // ---------- byte order ----------

  function Htons(v: U16): U16 {
    LoadU16(Reverse(U16Le(v)))
  }

  function Htonl(v: U32): U32 {
    LoadU32(Reverse(U32Le(v)))
  }

  /** htonll as the source builds it: both halves swapped, and each half reversed. */
  function Htonll(v: U64): U64 {
    Htonl(v % 0x1_0000_0000) as int * 0x1_0000_0000 + Htonl(v / 0x1_0000_0000)
  }

  lemma HtonlReverses(v: U32)
    ensures U32Le(Htonl(v)) == Reverse(U32Le(v)) && Htonl(Htonl(v)) == v
  {
    StoreLoad([0, 0], Reverse(U32Le(v)));
    LoadStore(0, v);
    assert Reverse(Reverse(U32Le(v))) == U32Le(v);
  }

  lemma HtonsReverses(v: U16)
    ensures U16Le(Htons(v)) == Reverse(U16Le(v)) && Htons(Htons(v)) == v
  {
    StoreLoad(Reverse(U16Le(v)), [0, 0, 0, 0]);
    LoadStore(v, 0);
    assert Reverse(Reverse(U16Le(v))) == U16Le(v);
  }

  /** htonll is the full reversal of the eight bytes, and its own inverse. */
  lemma HtonllReverses(v: U64)
    ensures U64Le(Htonll(v)) == Reverse(U64Le(v))
    ensures Htonll(Htonll(v)) == v
  {
    hide Htonl, U32Le;
    var low, high := v % 0x1_0000_0000, v / 0x1_0000_0000;
    HtonlReverses(low);
    HtonlReverses(high);
    Halves(Htonl(low), Htonl(high));
    ReverseConcat(U32Le(low), U32Le(high));
  }

  lemma ReverseConcat(s: seq<Byte>, t: seq<Byte>)
    ensures Reverse(s + t) == Reverse(t) + Reverse(s)
  {
  }

  // ---------- the record ----------

  /** The structure in memory: each field holds the swapped value. */
  datatype WireInfo = WireInfo(magic: U32, version: U16, role: U16, qpn: U32, psn: U32, rkey: U32, reserved: U32,
                               address: U64, bytes: U64, gid: seq<Byte>)

  /** What a party says about itself, and what its peer learns. */
  datatype Party = Party(role: U16, qpn: U32, psn: U32, rkey: U32, address: U64, bytes: U64, gid: seq<Byte>)

  function EncodeWire(p: Party): (w: WireInfo)
    ensures w.gid == p.gid
  {
    WireInfo(Htonl(WIRE_MAGIC), Htons(WIRE_VERSION), Htons(p.role), Htonl(p.qpn), Htonl(p.psn), Htonl(p.rkey), 0,
             Htonll(p.address), Htonll(p.bytes), p.gid)
  }

  function DecodeWire(w: WireInfo, expectedRole: U16, expectedBytes: U64): Option<Party> {
    if Htonl(w.magic) != WIRE_MAGIC || Htons(w.version) != WIRE_VERSION || w.reserved != 0 then None
    else
      var p := Party(Htons(w.role), Htonl(w.qpn), Htonl(w.psn), Htonl(w.rkey), Htonll(w.address), Htonll(w.bytes),
                     w.gid);
      if p.role != expectedRole || p.qpn == 0 || p.rkey == 0 || p.bytes != expectedBytes || p.address == 0 then None
      else Some(p)
  }

  /** What a party must satisfy to be taken for the expected peer. */
  predicate Presentable(p: Party, role: U16, bytes: U64) {
    p.role == role && p.bytes == bytes && p.qpn != 0 && p.rkey != 0 && p.address != 0
  }

  /** Decoding yields a party exactly when the record is that party's own encoding and the party is
      presentable: every field survives the trip, and nothing else is taken for it. */
  lemma DecodeExactlyEncode(w: WireInfo, p: Party, role: U16, bytes: U64)
    ensures DecodeWire(w, role, bytes) == Some(p) <==> w == EncodeWire(p) && Presentable(p, role, bytes)
  {
    hide Htonl, Htons, Htonll;
    SelfInverse(w);
    Swaps(p);
    HtonlReverses(WIRE_MAGIC);
    HtonsReverses(WIRE_VERSION);
  }

  lemma SelfInverse(w: WireInfo)
    ensures Htonl(Htonl(w.magic)) == w.magic && Htons(Htons(w.version)) == w.version && Htons(Htons(w.role)) == w.role
    ensures Htonl(Htonl(w.qpn)) == w.qpn && Htonl(Htonl(w.psn)) == w.psn && Htonl(Htonl(w.rkey)) == w.rkey
    ensures Htonll(Htonll(w.address)) == w.address && Htonll(Htonll(w.bytes)) == w.bytes
  {
    hide Htonl, Htons, Htonll;
    HtonlReverses(w.magic);
    HtonsReverses(w.version);
    HtonsReverses(w.role);
    HtonlReverses(w.qpn);
    HtonlReverses(w.psn);
    HtonlReverses(w.rkey);
    HtonllReverses(w.address);
    HtonllReverses(w.bytes);
  }

  // ---------- its image on the stream ----------

  function Image(w: WireInfo): (s: seq<Byte>)
    requires |w.gid| == 16
    ensures |s| == WIRE_SIZE
  {
    U32Le(w.magic) + U16Le(w.version) + U16Le(w.role) + U32Le(w.qpn) + U32Le(w.psn) + U32Le(w.rkey) + U32Le(w.reserved)
    + U64Le(w.address) + U64Le(w.bytes) + w.gid
  }

  function FromImage(s: seq<Byte>): WireInfo
    requires |s| == WIRE_SIZE
  {
    WireInfo(LoadU32(s[..4]), LoadU16(s[4..6]), LoadU16(s[6..8]), LoadU32(s[8..12]), LoadU32(s[12..16]),
             LoadU32(s[16..20]),
             LoadU32(s[20..24]), LoadU64(s[24..32]), LoadU64(s[32..40]), s[40..56])
  }

  lemma ImageRoundTrip(w: WireInfo)
    requires |w.gid| == 16
    ensures FromImage(Image(w)) == w
  {
    var s := Image(w);
    assert s[..4] == U32Le(w.magic);
    assert s[4..6] == U16Le(w.version);
    assert s[6..8] == U16Le(w.role);
    assert s[8..12] == U32Le(w.qpn);
    assert s[12..16] == U32Le(w.psn);
    assert s[16..20] == U32Le(w.rkey);
    assert s[20..24] == U32Le(w.reserved);
    assert s[24..32] == U64Le(w.address);
    assert s[32..40] == U64Le(w.bytes);
    assert s[40..56] == w.gid;
    hide U32Le, U16Le, U64Le, LoadU16, LoadU32, LoadU64, Image;
    LoadStore(w.version, w.magic);
    LoadStore(w.role, w.qpn);
    LoadStore(0, w.psn);
    LoadStore(0, w.rkey);
    LoadStore(0, w.reserved);
    U64RoundTrip(w.address, s[24..32]);
    U64RoundTrip(w.bytes, s[32..40]);
  }

  /** The bytes a party writes first on the control stream. */
  function Hello(p: Party): (s: seq<Byte>)
    requires |p.gid| == 16
    ensures |s| == WIRE_SIZE
  {
    Image(EncodeWire(p))
  }

  /** What its peer makes of 56 bytes. */
  function Greet(s: seq<Byte>, role: U16, bytes: U64): Option<Party>
    requires |s| == WIRE_SIZE
  {
    DecodeWire(FromImage(s), role, bytes)
  }

  /** The record round trip on the stream: a party is recognised from its bytes, with every field,
      exactly when it is presentable; so a greeting from it yields it or nothing. */
  lemma HelloGreet(p: Party, role: U16, bytes: U64)
    requires |p.gid| == 16
    ensures Greet(Hello(p), role, bytes) == if Presentable(p, role, bytes) then Some(p) else None
  {
    hide DecodeWire, EncodeWire, FromImage, Image;
    var w := EncodeWire(p);
    ImageRoundTrip(w);
    DecodeExactlyEncode(w, p, role, bytes);
    if DecodeWire(w, role, bytes).Some? {
      var q := DecodeWire(w, role, bytes).value;
      DecodeExactlyEncode(w, q, role, bytes);
      EncodeInjective(p, q);
    }
  }

  lemma EncodeInjective(p: Party, q: Party)
    requires EncodeWire(p) == EncodeWire(q)
    ensures p == q
  {
    hide Htonl, Htons, Htonll;
    Swaps(p);
    Swaps(q);
  }

  lemma Swaps(p: Party)
    ensures Htons(Htons(p.role)) == p.role && Htonl(Htonl(p.qpn)) == p.qpn && Htonl(Htonl(p.psn)) == p.psn
    ensures Htonl(Htonl(p.rkey)) == p.rkey && Htonll(Htonll(p.address)) == p.address
    ensures Htonll(Htonll(p.bytes)) == p.bytes
  {
    hide Htonl, Htons, Htonll;
    HtonsReverses(p.role);
    HtonlReverses(p.qpn);
    HtonlReverses(p.psn);
    HtonlReverses(p.rkey);
    HtonllReverses(p.address);
    HtonllReverses(p.bytes);
  }
}
