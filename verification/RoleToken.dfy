/** The role token a launcher installs at the fixed role descriptor: a 48-byte
    little-endian record sealed by a 32-bit FNV-1a checksum
    (runtime/rfork/src/rfork_runtime.c). */
module RoleToken {
  import opened Wrappers
  import opened Words
  import opened RforkTypes

  const MAGIC: seq<Byte> := [0x53, 0x50, 0x44, 0x52, 0x46, 0x4f, 0x52, 0x4b]  // "SPDRFORK"
  const FNV_OFFSET: U32 := 2166136261
  const FNV_PRIME := 16777619

  /** The four fields a token carries. */
  datatype Token = Token(role: U32, handler: U32, machine: U32, cookie: seq<Byte>)

  // ---------- FNV-1a ----------

  function TimesPrime(h: U32): U32 {
    h * FNV_PRIME % 0x1_0000_0000
  }

  function FnvStep(h: U32, b: Byte): U32 {
    TimesPrime(Xor32(h, b))
  }

  /** The checksum of a byte string, last byte mixed in last. */
  function Fnv(s: seq<Byte>): U32 {
    if s == [] then FNV_OFFSET else FnvStep(Fnv(s[..|s| - 1]), s[|s| - 1])
  }

  /** Multiplication by the odd prime modulo 2^32 is injective: 0x359c449b inverts it. */
  lemma TimesPrimeInjective(x: U32, y: U32)
    requires TimesPrime(x) == TimesPrime(y)
    ensures x == y
  {
    var q, q' := x * FNV_PRIME / 0x1_0000_0000, y * FNV_PRIME / 0x1_0000_0000;
    var d := x as int - y;
    assert d * 16777619 == 0x1_0000_0000 * (q - q');
    assert d * 15090354709594113 == 0x1_0000_0000 * (q - q') * 0x359c449b by {
      assert 16777619 * 0x359c449b == 15090354709594113;
    }
    assert 15090354709594113 == 3513497 * 0x1_0000_0000 + 1;
    assert d == 0x1_0000_0000 * ((q - q') * 0x359c449b - 3513497 * d);
  }

  /** One step is injective in the running hash and in the byte. */
  lemma FnvStepInjective(h: U32, k: U32, b: Byte, c: Byte)
    requires FnvStep(h, b) == FnvStep(k, c)
    ensures h == k <==> b == c
  {
    TimesPrimeInjective(Xor32(h, b), Xor32(k, c));
    Pow2Values();
    BitXorInjective(h, b, k, c, 32);
  }

  /** Two strings of one length that differ at exactly one index have different checksums. */
  lemma {:induction false} FnvSeparatesOneByte(s: seq<Byte>, t: seq<Byte>, i: nat)
    requires |s| == |t| && i < |s| && s[i] != t[i]
    requires forall j :: 0 <= j < |s| && j != i ==> s[j] == t[j]
    ensures Fnv(s) != Fnv(t)
  {
    var n := |s| - 1;
    if i == n {
      assert s[..n] == t[..n];
    } else {
      FnvSeparatesOneByte(s[..n], t[..n], i);
    }
    if Fnv(s) == Fnv(t) {
      FnvStepInjective(Fnv(s[..n]), Fnv(t[..n]), s[n], t[n]);
    }
  }

  // ---------- the token ----------

  ghost predicate WellFormed(t: Token) {
    |t.cookie| == COOKIE_SIZE
  }

  predicate IsSupportedRole(role: U32) {
    role == ROLE_PARENT || role == ROLE_REMOTE_CHILD
  }

  /** The 40 bytes the checksum covers. */
  function Body(t: Token): (s: seq<Byte>)
    requires |t.cookie| == COOKIE_SIZE
    ensures |s| == CHECKSUM_OFFSET
  {
    MAGIC + U16Le(1) + U16Le(48) + U32Le(t.role) + U32Le(t.handler) + U32Le(t.machine) + t.cookie
  }

  /** The token's only wire form. */
  function Wire(t: Token): (s: seq<Byte>)
    requires |t.cookie| == COOKIE_SIZE
    ensures |s| == TOKEN_SIZE
  {
    Body(t) + U32Le(Fnv(Body(t))) + [0, 0, 0, 0]
  }

  /** What decoding answers: the fields, or nothing for ERR_ROLE_TOKEN. */
  function Decode(s: seq<Byte>): (r: Option<Token>)
    requires |s| == TOKEN_SIZE
    ensures r.Some? ==> |r.value.cookie| == COOKIE_SIZE
  {
    if s[..8] != MAGIC || LoadU16(s[8..10]) != 1 || LoadU16(s[10..12]) != 48 || LoadU32(s[44..48]) != 0 then None
    else if LoadU32(s[40..44]) != Fnv(s[..40]) then None
    else if !IsSupportedRole(LoadU32(s[12..16])) then None
    else Some(Token(LoadU32(s[12..16]), LoadU32(s[16..20]), LoadU32(s[20..24]), s[24..40]))
  }

  /** Decoding accepts a byte string exactly when it is the wire form of the token it returns:
      decode after encode recovers every field, and no second encoding of a token exists. */
  lemma DecodeExactlyWire(s: seq<Byte>, t: Token)
    requires |s| == TOKEN_SIZE && WellFormed(t)
    ensures Decode(s) == Some(t) <==> IsSupportedRole(t.role) && s == Wire(t)
  {
    if Decode(s) == Some(t) {
      DecodedIsWire(s);
    }
    if IsSupportedRole(t.role) && s == Wire(t) {
      WireDecodes(t);
    }
  }

  lemma WireDecodes(t: Token)
    requires WellFormed(t) && IsSupportedRole(t.role)
    ensures Decode(Wire(t)) == Some(t)
  {
    var s := Wire(t);
    assert s[..8] == MAGIC;
    assert s[8..10] == U16Le(1) && s[10..12] == U16Le(48);
    assert s[12..16] == U32Le(t.role);
    assert s[16..20] == U32Le(t.handler);
    assert s[20..24] == U32Le(t.machine);
    assert s[24..40] == t.cookie;
    assert s[..40] == Body(t);
    assert s[40..44] == U32Le(Fnv(Body(t)));
    assert s[44..48] == [0, 0, 0, 0];
    LoadStore(1, t.role);
    LoadStore(48, t.handler);
    LoadStore(0, t.machine);
    LoadStore(0, Fnv(Body(t)));
  }

  lemma DecodedIsWire(s: seq<Byte>)
    requires |s| == TOKEN_SIZE && Decode(s).Some?
    ensures WellFormed(Decode(s).value) && s == Wire(Decode(s).value)
    ensures s[40..44] == U32Le(Fnv(s[..40])) && s[44..48] == [0, 0, 0, 0]
  {
    var t := Decode(s).value;
    StoreLoad(s[8..10], s[12..16]);
    StoreLoad(s[10..12], s[16..20]);
    StoreLoad(s[10..12], s[20..24]);
    StoreLoad(s[10..12], s[40..44]);
    StoreLoad(s[10..12], s[44..48]);
    assert s[..40] == s[..8] + s[8..10] + s[10..12] + s[12..16] + s[16..20] + s[20..24] + s[24..40];
    assert s[..40] == Body(t);
    assert s == s[..40] + s[40..44] + s[44..48];
  }

  /** Distinct tokens have distinct wire forms; in particular a parent token is never a child token. */
  lemma WireInjective(t: Token, u: Token)
    requires WellFormed(t) && WellFormed(u) && IsSupportedRole(t.role) && IsSupportedRole(u.role)
    requires Wire(t) == Wire(u)
    ensures t == u
  {
    WireDecodes(t);
    WireDecodes(u);
  }

  /** Changing one byte of an accepted token, any byte to any value, makes it rejected. */
  lemma OneByteChangeRejected(s: seq<Byte>, s': seq<Byte>, i: nat)
    requires |s| == |s'| == TOKEN_SIZE && i < TOKEN_SIZE && s[i] != s'[i]
    requires forall j :: 0 <= j < TOKEN_SIZE && j != i ==> s[j] == s'[j]
    requires Decode(s).Some?
    ensures Decode(s') == None
  {
    DecodedIsWire(s);
    if i < CHECKSUM_OFFSET {
      FnvSeparatesOneByte(s[..40], s'[..40], i);
      assert s[40..44] == s'[40..44];
      LoadStore(0, Fnv(s[..40]));
    } else {
      assert s[..40] == s'[..40];
      assert s[40..44] + s[44..48] == s[40..48] && s'[40..44] + s'[44..48] == s'[40..48];
      assert s[40..48][i - 40] != s'[40..48][i - 40];
      if Decode(s').Some? {
        DecodedIsWire(s');
        assert false;
      }
    }
  }

  // ---------- the C routines, in place on byte buffers ----------

  method BytesEqual(left: array<Byte>, leftOffset: nat, right: seq<Byte>) returns (equal: bool)
    requires leftOffset + |right| <= left.Length
    ensures equal <==> left[leftOffset..leftOffset + |right|] == right
  {
    var difference: Byte := 0;
    for index := 0 to |right|
      invariant difference == 0 <==> left[leftOffset..leftOffset + index] == right[..index]
    {
      var l, r := left[leftOffset + index], right[index];
      Pow2Values();
      OrXorZero(difference, l, r, 8);
      assert left[leftOffset..leftOffset + index + 1] == left[leftOffset..leftOffset + index] + [l];
      assert right[..index + 1] == right[..index] + [r];
      difference := Or8(difference, Xor8(l, r));
    }
    assert right[..|right|] == right;
    equal := difference == 0;
  }

  predicate CookieNonzero(cookie: seq<Byte>) {
    exists i :: 0 <= i < |cookie| && cookie[i] != 0
  }

  method CookieIsNonzero(cookie: array<Byte>) returns (nonzero: bool)
    ensures nonzero <==> CookieNonzero(cookie[..])
  {
    var accumulated: Byte := 0;
    for index := 0 to cookie.Length
      invariant accumulated != 0 <==> exists i :: 0 <= i < index && cookie[i] != 0
    {
      Pow2Values();
      OrXorZero(accumulated, cookie[index], 0, 8);
      BitXorWithZero(cookie[index], 8);
      accumulated := Or8(accumulated, cookie[index]);
    }
    nonzero := accumulated != 0;
  }

  method Fnv1a32(bytes: array<Byte>, length: nat) returns (hash: U32)
    requires length <= bytes.Length
    ensures hash == Fnv(bytes[..length])
  {
    hash := FNV_OFFSET;
    for index := 0 to length
      invariant hash == Fnv(bytes[..index])
    {
      assert bytes[..index + 1][..index] == bytes[..index];
      hash := Xor32(hash, bytes[index]);
      hash := TimesPrime(hash);
    }
  }

  method StoreU16Le(output: array<Byte>, offset: nat, value: U16)
    requires offset + 2 <= output.Length
    modifies output
    ensures output[..offset + 2] == old(output[..offset]) + U16Le(value)
    ensures forall i :: offset + 2 <= i < output.Length ==> output[i] == old(output[i])
  {
    output[offset] := value % 0x100;
    output[offset + 1] := value / 0x100;
  }

  method StoreU32Le(output: array<Byte>, offset: nat, value: U32)
    requires offset + 4 <= output.Length
    modifies output
    ensures output[..offset + 4] == old(output[..offset]) + U32Le(value)
    ensures forall i :: offset + 4 <= i < output.Length ==> output[i] == old(output[i])
  {
    output[offset] := value % 0x100;
    output[offset + 1] := value / 0x100 % 0x100;
    output[offset + 2] := value / 0x1_0000 % 0x100;
    output[offset + 3] := value / 0x100_0000;
  }

  method BytesCopy(output: array<Byte>, offset: nat, source: seq<Byte>)
    requires offset + |source| <= output.Length
    modifies output
    ensures output[..offset + |source|] == old(output[..offset]) + source
    ensures forall i :: offset + |source| <= i < output.Length ==> output[i] == old(output[i])
  {
    for index := 0 to |source|
      invariant output[..offset + index] == old(output[..offset]) + source[..index]
      invariant forall i :: offset + index <= i < output.Length ==> output[i] == old(output[i])
    {
      output[offset + index] := source[index];
      assert output[..offset + index + 1] == output[..offset + index] + [source[index]];
    }
  }

  function Zeros(n: nat): (s: seq<Byte>)
    ensures |s| == n && forall i :: 0 <= i < n ==> s[i] == 0
  {
    seq(n, _ => 0)
  }

  method BytesZero(output: array<Byte>)
    modifies output
    ensures output[..] == Zeros(output.Length)
  {
    for index := 0 to output.Length
      invariant forall i :: 0 <= i < index ==> output[i] == 0
    {
      output[index] := 0;
    }
  }

  /** The status encoding answers with, in the order of its checks. */
  function EncodeStatus(missing: bool, role: U32, handlerId: U64, cookie: seq<Byte>): Status {
    if missing || !IsSupportedRole(role) then ErrInvalidArgument
    else if handlerId > 0xffff_ffff then ErrHandlerOverflow
    else if !CookieNonzero(cookie) then ErrCookieInvalid
    else Ok
  }

  /** The stores that lay a token out in a zeroed buffer, and the seal. */
  method FillToken(output: array<Byte>, t: Token)
    requires output.Length == TOKEN_SIZE && |t.cookie| == COOKIE_SIZE
    requires forall i :: 0 <= i < TOKEN_SIZE ==> output[i] == 0
    modifies output
    ensures output[..] == Wire(t)
  {
    BytesCopy(output, 0, MAGIC);
    assert output[..8] == MAGIC;
    StoreU16Le(output, 8, 1);
    StoreU16Le(output, 10, 48);
    StoreU32Le(output, 12, t.role);
    StoreU32Le(output, 16, t.handler);
    StoreU32Le(output, 20, t.machine);
    BytesCopy(output, 24, t.cookie);
    assert output[..40] == Body(t);
    var checksum := Fnv1a32(output, CHECKSUM_OFFSET);
    StoreU32Le(output, CHECKSUM_OFFSET, checksum);
    assert output[44..] == [0, 0, 0, 0];
    assert output[..] == output[..44] + output[44..];
  }

  /** Fills the caller's buffer with the wire form, with zeros when the handler or the cookie is
      refused, and leaves it alone when an argument is missing or the role is unknown. */
  method EncodeRoleToken(output: array?<Byte>, role: U32, handlerId: U64, machineId: U32, runCookie: array?<Byte>)
    returns (status: Status)
    requires output != null ==> output.Length == TOKEN_SIZE
    requires runCookie != null ==> runCookie.Length == COOKIE_SIZE
    modifies output
    ensures status == EncodeStatus(output == null || runCookie == null, role, handlerId,
                                   if runCookie == null then [] else runCookie[..])
    ensures status in {Ok, ErrInvalidArgument, ErrHandlerOverflow, ErrCookieInvalid}
    ensures status == ErrInvalidArgument <==> output == null || runCookie == null || role !in {1, 2}
    ensures status in {Ok, ErrCookieInvalid} ==> handlerId < 0x1_0000_0000
    ensures status == Ok ==> exists i :: 0 <= i < COOKIE_SIZE && runCookie[i] != 0
    ensures status == ErrCookieInvalid ==> forall i :: 0 <= i < COOKIE_SIZE ==> runCookie[i] == 0
    ensures status == ErrHandlerOverflow ==> handlerId >= 0x1_0000_0000
    ensures status == Ok ==> output[..] == Wire(Token(role, handlerId, machineId, runCookie[..]))
    ensures status in {ErrHandlerOverflow, ErrCookieInvalid} ==> output[..] == Zeros(TOKEN_SIZE)
    ensures status == ErrInvalidArgument && output != null ==> output[..] == old(output[..])
  {
    if output == null || runCookie == null || !IsSupportedRole(role) {
      return ErrInvalidArgument;
    }
    BytesZero(output);
    if handlerId > 0xffff_ffff {
      return ErrHandlerOverflow;
    }
    var nonzero := CookieIsNonzero(runCookie);
    if !nonzero {
      return ErrCookieInvalid;
    }
    FillToken(output, Token(role, handlerId, machineId, runCookie[..]));
    status := Ok;
  }

  method DecodeRoleToken(input: array<Byte>) returns (decoded: Option<Token>, checksum: U32)
    requires input.Length == TOKEN_SIZE
    ensures decoded == Decode(input[..])
    ensures decoded.Some? ==> checksum == Fnv(input[..40])
  {
    checksum := 0;
    var magicMatches := BytesEqual(input, 0, MAGIC);
    if !magicMatches || LoadU16(input[8..10]) != 1 || LoadU16(input[10..12]) != 48 || LoadU32(input[44..48]) != 0 {
      return None, checksum;
    }
    checksum := LoadU32(input[40..44]);
    var computed := Fnv1a32(input, CHECKSUM_OFFSET);
    if checksum != computed {
      return None, checksum;
    }
    var role := LoadU32(input[12..16]);
    if role != ROLE_PARENT && role != ROLE_REMOTE_CHILD {
      return None, checksum;
    }
    decoded := Some(Token(role, LoadU32(input[16..20]), LoadU32(input[20..24]), input[24..40]));
  }
}
