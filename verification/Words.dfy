/** Machine bytes and words as bounded integers, with the bit operations the C sources use. */
module Words {
  type Byte = x: int | 0 <= x < 0x100
  type U16 = x: int | 0 <= x < 0x1_0000
  type U32 = x: int | 0 <= x < 0x1_0000_0000
  type U64 = x: int | 0 <= x < 0x1_0000_0000_0000_0000

  /** Exclusive or of the low `bits` bits: a result bit is set where the two differ. */
  function BitXor(x: nat, y: nat, bits: nat): nat {
    if bits == 0 then 0 else 2 * BitXor(x / 2, y / 2, bits - 1) + (if x % 2 == y % 2 then 0 else 1)
  }

  /** Inclusive or of the low `bits` bits. */
  function BitOr(x: nat, y: nat, bits: nat): nat {
    if bits == 0 then 0 else 2 * BitOr(x / 2, y / 2, bits - 1) + (if x % 2 == 1 || y % 2 == 1 then 1 else 0)
  }

  function Pow2(n: nat): (r: nat)
    ensures r > 0
  {
    if n == 0 then 1 else 2 * Pow2(n - 1)
  }

  lemma {:induction false} BitXorRange(x: nat, y: nat, bits: nat)
    ensures BitXor(x, y, bits) < Pow2(bits)
  {
    if bits > 0 {
      BitXorRange(x / 2, y / 2, bits - 1);
    }
  }

  lemma {:induction false} BitOrRange(x: nat, y: nat, bits: nat)
    ensures BitOr(x, y, bits) < Pow2(bits)
  {
    if bits > 0 {
      BitOrRange(x / 2, y / 2, bits - 1);
    }
  }

  /** Exclusive or is injective in either argument. */
  lemma {:induction false} BitXorInjective(x: nat, y: nat, x': nat, y': nat, bits: nat)
    requires x < Pow2(bits) && y < Pow2(bits) && x' < Pow2(bits) && y' < Pow2(bits)
    requires BitXor(x, y, bits) == BitXor(x', y', bits)
    ensures x == x' <==> y == y'
  {
    if bits > 0 {
      BitXorInjective(x / 2, y / 2, x' / 2, y' / 2, bits - 1);
    }
  }

  /** Accumulating `d | (l ^ r)` stays zero exactly while the compared bytes agree. */
  lemma OrXorZero(d: nat, l: nat, r: nat, bits: nat)
    requires d < Pow2(bits) && l < Pow2(bits) && r < Pow2(bits)
    ensures BitOr(d, BitXor(l, r, bits), bits) == 0 <==> d == 0 && l == r
  {
    BitXorRange(l, r, bits);
    BitXorRange(l, l, bits);
    BitOrZero(d, BitXor(l, r, bits), bits);
    BitXorSelf(l, bits);
    if BitXor(l, r, bits) == 0 {
      BitXorInjective(l, r, l, l, bits);
    }
  }

  lemma {:induction false} BitOrZero(x: nat, y: nat, bits: nat)
    requires x < Pow2(bits) && y < Pow2(bits)
    ensures BitOr(x, y, bits) == 0 <==> x == 0 && y == 0
  {
    if bits > 0 {
      BitOrZero(x / 2, y / 2, bits - 1);
    }
  }

  lemma {:induction false} BitXorSelf(x: nat, bits: nat)
    ensures BitXor(x, x, bits) == 0
  {
    if bits > 0 {
      BitXorSelf(x / 2, bits - 1);
    }
  }

  lemma {:induction false} BitXorWithZero(x: nat, bits: nat)
    requires x < Pow2(bits)
    ensures BitXor(x, 0, bits) == x
  {
    if bits > 0 {
      BitXorWithZero(x / 2, bits - 1);
    }
  }

  lemma Pow2Values()
    ensures Pow2(8) == 0x100 && Pow2(32) == 0x1_0000_0000
  {
    assert Pow2(8) == 0x100;
    assert Pow2(16) == 0x100 * Pow2(8) by {
      assert Pow2(12) == 16 * Pow2(8);
    }
    assert Pow2(24) == 0x100 * Pow2(16) by {
      assert Pow2(20) == 16 * Pow2(16);
    }
    assert Pow2(32) == 0x100 * Pow2(24) by {
      assert Pow2(28) == 16 * Pow2(24);
    }
  }

  function Xor8(x: Byte, y: Byte): Byte {
    BitXorRange(x, y, 8);
    Pow2Values();
    BitXor(x, y, 8)
  }

  function Or8(x: Byte, y: Byte): Byte {
    BitOrRange(x, y, 8);
    Pow2Values();
    BitOr(x, y, 8)
  }

  function Xor32(x: U32, y: U32): U32 {
    BitXorRange(x, y, 32);
    Pow2Values();
    BitXor(x, y, 32)
  }

  // ---------- little-endian byte strings ----------

  function U16Le(v: U16): (s: seq<Byte>)
    ensures |s| == 2
  {
    [v % 0x100, v / 0x100]
  }

  function U32Le(v: U32): (s: seq<Byte>)
    ensures |s| == 4
  {
    [v % 0x100, v / 0x100 % 0x100, v / 0x1_0000 % 0x100, v / 0x100_0000]
  }

  function LoadU16(s: seq<Byte>): U16
    requires |s| == 2
  {
    s[0] + s[1] as int * 0x100
  }

  function LoadU32(s: seq<Byte>): U32
    requires |s| == 4
  {
    s[0] + s[1] as int * 0x100 + s[2] as int * 0x1_0000 + s[3] as int * 0x100_0000
  }

  /** Storing then loading gives the word back. */
  lemma LoadStore(v: U16, w: U32)
    ensures LoadU16(U16Le(v)) == v
    ensures LoadU32(U32Le(w)) == w
  {
    assert w / 0x1_0000 == w / 0x100 / 0x100;
    assert w / 0x100_0000 == w / 0x1_0000 / 0x100;
  }

  /** Loading then storing gives the bytes back, so each word has one byte string. */
  lemma StoreLoad(s: seq<Byte>, t: seq<Byte>)
    requires |s| == 2 && |t| == 4
    ensures U16Le(LoadU16(s)) == s
    ensures U32Le(LoadU32(t)) == t
  {
    SplitAt8(t[0], t[1] as int + t[2] as int * 0x100 + t[3] as int * 0x1_0000);
    SplitAt8(t[1], t[2] as int + t[3] as int * 0x100);
    SplitAt16(t[0] as int + t[1] as int * 0x100, t[2] as int + t[3] as int * 0x100);
    SplitAt8(t[2], t[3]);
    SplitAt24(t[0] as int + t[1] as int * 0x100 + t[2] as int * 0x1_0000, t[3]);
  }

  lemma SplitAt8(low: int, high: int)
    requires 0 <= low < 0x100
    ensures (low + high * 0x100) % 0x100 == low && (low + high * 0x100) / 0x100 == high
  {
  }

  lemma SplitAt16(low: int, high: int)
    requires 0 <= low < 0x1_0000
    ensures (low + high * 0x1_0000) / 0x1_0000 == high
  {
  }

  lemma SplitAt24(low: int, high: int)
    requires 0 <= low < 0x100_0000
    ensures (low + high * 0x100_0000) / 0x100_0000 == high
  {
  }

  function U64Le(v: U64): (s: seq<Byte>)
    ensures |s| == 8
  {
    U32Le(v % 0x1_0000_0000) + U32Le(v / 0x1_0000_0000)
  }

  function LoadU64(s: seq<Byte>): U64
    requires |s| == 8
  {
    LoadU32(s[..4]) + LoadU32(s[4..]) as int * 0x1_0000_0000
  }

  lemma Halves(high: U32, low: U32)
    ensures (high as int * 0x1_0000_0000 + low) % 0x1_0000_0000 == low
    ensures (high as int * 0x1_0000_0000 + low) / 0x1_0000_0000 == high
  {
  }

  lemma U64RoundTrip(v: U64, s: seq<Byte>)
    requires |s| == 8
    ensures LoadU64(U64Le(v)) == v
    ensures U64Le(LoadU64(s)) == s
  {
    hide U32Le, LoadU32;
    LoadStore(0, v % 0x1_0000_0000);
    LoadStore(0, v / 0x1_0000_0000);
    assert U64Le(v)[..4] == U32Le(v % 0x1_0000_0000);
    assert U64Le(v)[4..] == U32Le(v / 0x1_0000_0000);
    StoreLoad([0, 0], s[..4]);
    StoreLoad([0, 0], s[4..]);
    Halves(LoadU32(s[4..]), LoadU32(s[..4]));
    assert s == s[..4] + s[4..];
  }

  function Reverse(s: seq<Byte>): (r: seq<Byte>)
    ensures |r| == |s| && forall i :: 0 <= i < |s| ==> r[i] == s[|s| - 1 - i]
  {
    seq(|s|, i requires 0 <= i < |s| => s[|s| - 1 - i])
  }
}
