/**
  keccak256Utf8 of the mint source: padding, absorbing and squeezing around the permutation.

  The padding loop pushes 01, then zero bytes until one byte of the block is left, then 80.
  That is pad10*1 of FIPS 202 section 5.1 except when the message leaves exactly one byte of
  its block free: the standard then writes the single byte 81, the program a whole block more.
 */
module Keccak256 {
  import opened Fips202
  import opened KeccakLanes
  import opened Utf8

  const RATE: nat := 136

  // ----- Padding -----

  const START: seq<Byte> := [0x01]
  const END: seq<Byte> := [0x80]

  function Zeros(n: nat): seq<Byte> { seq(n, _ => 0) }

  /** How many zero bytes the loop pushes after n bytes of message and the byte 01. */
  function ZeroCount(n: nat): (k: nat)
    ensures k < RATE && (n + 1 + k) % RATE == RATE - 1
  {
    (RATE - 2 - n) % RATE
  }

  function ProgramPad(m: seq<Byte>): (p: seq<Byte>)
    ensures |p| == |m| + ZeroCount(|m|) + 2 && |p| % RATE == 0
  {
    m + START + Zeros(ZeroCount(|m|)) + END
  }

  method Pad(m: seq<Byte>) returns (p: seq<Byte>)
    ensures p == ProgramPad(m)
  {
    p := m + START;
    ghost var k := 0;
    while |p| % RATE != RATE - 1
      invariant 0 <= k <= ZeroCount(|m|)
      invariant p == m + START + Zeros(k)
      decreases ZeroCount(|m|) - k
    {
      assert k != ZeroCount(|m|);
      assert Zeros(k + 1) == Zeros(k) + [0];
      p := p + [0];
      k := k + 1;
    }
    SameRemainder(|m| + 1, k, ZeroCount(|m|));
    p := p + END;
  }

  lemma SameRemainder(n: nat, k: nat, k': nat)
    requires k <= k' < RATE && (n + k) % RATE == (n + k') % RATE
    ensures k == k'
  {
  }

  function ByteBit(b: Byte, k: bv3): bool { (b >> k) & 1 == 1 }

  /** The bits of a byte, least significant first (FIPS 202 appendix B.1). */
  function BitsOfByte(b: Byte): seq<bool> {
    [ByteBit(b, 0), ByteBit(b, 1), ByteBit(b, 2), ByteBit(b, 3),
     ByteBit(b, 4), ByteBit(b, 5), ByteBit(b, 6), ByteBit(b, 7)]
  }

  function StringBits(m: seq<Byte>): (bits: seq<bool>)
    ensures |bits| == 8 * |m|
  {
    if m == [] then [] else BitsOfByte(m[0]) + StringBits(m[1..])
  }

  function Falses(n: nat): seq<bool> { seq(n, _ => false) }

  /** j of Algorithm 9: (-m - 2) mod x. */
  function PadZeros(x: nat, m: nat): (j: nat)
    requires x > 0
  {
    var j := (-(m as int) - 2) % x;
    assert 0 <= j;
    j
  }

  /** Algorithm 9: pad10*1(x, m) = 1 || 0^j || 1. */
  function Pad10Star1(x: nat, m: nat): seq<bool>
    requires x > 0
  {
    [true] + Falses(PadZeros(x, m)) + [true]
  }

  lemma {:induction false} StringBitsConcat(a: seq<Byte>, b: seq<Byte>)
    ensures StringBits(a + b) == StringBits(a) + StringBits(b)
  {
    hide BitsOfByte;
    if a == [] {
      assert a + b == b;
    } else {
      StringBitsConcat(a[1..], b);
      assert (a + b)[1..] == a[1..] + b;
    }
  }

  lemma {:induction false} ZeroBits(n: nat)
    ensures StringBits(Zeros(n)) == Falses(8 * n)
  {
    if n > 0 {
      ZeroBits(n - 1);
      assert Zeros(n)[1..] == Zeros(n - 1);
      assert BitsOfByte(0) == Falses(8);
      assert Falses(8) + Falses(8 * (n - 1)) == Falses(8 * n);
    }
  }

  lemma EndBits()
    ensures StringBits(START) == [true] + Falses(7)
    ensures StringBits(END) == Falses(7) + [true]
    ensures StringBits([0x81]) == [true] + Falses(6) + [true]
  {
    assert BitsOfByte(1) == [true] + Falses(7);
    assert BitsOfByte(0x80) == Falses(7) + [true];
    assert BitsOfByte(0x81) == [true] + Falses(6) + [true];
  }

  lemma FalsesAdd(a: nat, b: nat)
    ensures Falses(a) + Falses(b) == Falses(a + b)
  {
  }

  lemma Join(head: seq<bool>, k: nat)
    ensures head + ([true] + Falses(7)) + Falses(8 * k) + (Falses(7) + [true])
         == head + ([true] + Falses(8 * k + 14) + [true])
  {
    FalsesAdd(7, 8 * k);
    FalsesAdd(7 + 8 * k, 7);
    assert Falses(8 * k + 14) == Falses(7) + Falses(8 * k) + Falses(7);
  }

  lemma FourParts(a: seq<Byte>, b: seq<Byte>, c: seq<Byte>, d: seq<Byte>)
    ensures StringBits(a + b + c + d) == StringBits(a) + StringBits(b) + StringBits(c) + StringBits(d)
  {
    hide StringBits;
    StringBitsConcat(a + b + c, d);
    StringBitsConcat(a + b, c);
    StringBitsConcat(a, b);
  }

  lemma PaddedBits(m: seq<Byte>, k: nat)
    ensures StringBits(m + START + Zeros(k) + END) == StringBits(m) + ([true] + Falses(8 * k + 14) + [true])
  {
    hide StringBits, Falses, Zeros;
    FourParts(m, START, Zeros(k), END);
    ZeroBits(k);
    EndBits();
    Join(StringBits(m), k);
  }

  lemma ProgramPadBits(m: seq<Byte>, k: nat)
    requires k == ZeroCount(|m|)
    ensures StringBits(ProgramPad(m)) == StringBits(m) + ([true] + Falses(8 * k + 14) + [true])
  {
    hide StringBits, Falses, Zeros, ZeroCount;
    PaddedBits(m, k);
  }

  /** The two paddings put the same number of zero bits between their ones, or not. */
  lemma PadLength(n: nat)
    ensures n % RATE != RATE - 1 ==> PadZeros(8 * RATE, 8 * n) == 8 * ZeroCount(n) + 14
    ensures n % RATE == RATE - 1 ==> PadZeros(8 * RATE, 8 * n) == 6 && ZeroCount(n) == RATE - 1
  {
    var q, r := n / RATE, n % RATE;
    assert -(8 * n) - 2 == 8 * RATE * (-q - 1) + (8 * RATE - 2 - 8 * r);
    assert PadZeros(8 * RATE, 8 * n) == 8 * RATE - 2 - 8 * r;
    assert RATE - 2 - n == RATE * (-q) + (RATE - 2 - r);
  }

  /** The program pads as the standard does, unless one byte of the last block is free. */
  lemma PaddingIsPad10Star1(m: seq<Byte>)
    ensures StringBits(ProgramPad(m)) == StringBits(m) + Pad10Star1(8 * RATE, 8 * |m|) <==> |m| % RATE != RATE - 1
  {
    hide StringBits, ProgramPad, ZeroCount, PadZeros;
    ProgramPadBits(m, ZeroCount(|m|));
    PadLength(|m|);
    if |m| % RATE == RATE - 1 {
      assert |StringBits(ProgramPad(m))| != |StringBits(m) + Pad10Star1(8 * RATE, 8 * |m|)|;
    }
  }

  /** The standard's padding of a whole number of bytes, in bytes. */
  function StandardPad(m: seq<Byte>): seq<Byte> {
    if |m| % RATE == RATE - 1 then m + [0x81] else ProgramPad(m)
  }

  lemma StandardPadIsPad10Star1(m: seq<Byte>)
    ensures StringBits(StandardPad(m)) == StringBits(m) + Pad10Star1(8 * RATE, 8 * |m|)
  {
    hide StringBits, ProgramPad, ZeroCount, PadZeros;
    if |m| % RATE == RATE - 1 {
      StringBitsConcat(m, [0x81]);
      EndBits();
      PadLength(|m|);
    } else {
      PaddingIsPad10Star1(m);
    }
  }

  lemma PadShape(m: seq<Byte>, i: nat)
    requires |m| <= i < |ProgramPad(m)| - 1
    ensures ProgramPad(m)[i] == if i == |m| then 1 else 0
  {
  }

  /** The odd padding is still unambiguous: no two messages are padded alike. */
  lemma PaddingIsInjective(a: seq<Byte>, b: seq<Byte>)
    requires ProgramPad(a) == ProgramPad(b)
    ensures a == b
  {
    PadShape(a, |a|);
    PadShape(b, |b|);
    if |a| < |b| {
      PadShape(a, |b|);
    } else if |b| < |a| {
      PadShape(b, |a|);
    }
    assert ProgramPad(a)[..|a|] == a && ProgramPad(b)[..|b|] == b;
  }

  // ----- Absorbing and squeezing -----

  /** BigInt(b) << BigInt(8 * j) */
  function ShiftedByte(b: Byte, j: nat): Lane {
    var v := b as Lane;
    if j == 0 then v else if j == 1 then v << 8 else if j == 2 then v << 16 else if j == 3 then v << 24
    else if j == 4 then v << 32 else if j == 5 then v << 40 else if j == 6 then v << 48 else v << 56
  }

  function OrLane(a: Lane, b: Lane): Lane { a | b }

  /** The lane read from the first n of the eight bytes at an offset. */
  function LaneAt(p: seq<Byte>, at: nat, n: nat := 8): Lane
    requires at + n <= |p|
  {
    if n == 0 then 0 else OrLane(LaneAt(p, at, n - 1), ShiftedByte(p[at + n - 1], n - 1))
  }

  /** A block of 17 lanes is added to the state, whose other eight lanes are the capacity. */
  function AddBlock(s: State, p: seq<Byte>, offset: nat): State
    requires offset + RATE <= |p|
  {
    seq(25, i requires 0 <= i < 25 => if i < 17 then XorLane(s[i], LaneAt(p, offset + 8 * i)) else s[i])
  }

  /** The state after n blocks (section 4, steps 4 to 6 of Algorithm 8). */
  function Absorb(p: seq<Byte>, n: nat): State
    requires n * RATE <= |p|
  {
    if n == 0 then seq(25, _ => 0) else KeccakF(AddBlock(Absorb(p, n - 1), p, (n - 1) * RATE))
  }

  function ShiftedDown(v: Lane, j: nat): Lane {
    if j == 0 then v else if j == 1 then v >> 8 else if j == 2 then v >> 16 else if j == 3 then v >> 24
    else if j == 4 then v >> 32 else if j == 5 then v >> 40 else if j == 6 then v >> 48 else v >> 56
  }

  function LowByte(v: Lane): Byte { (v & 0xff) as Byte }

  /** (lane >> 8j) & 0xff */
  function ByteOfLane(v: Lane, j: nat): Byte { LowByte(ShiftedDown(v, j)) }

  function Squeeze(s: State): seq<Byte> {
    seq(32, i requires 0 <= i < 32 => ByteOfLane(s[i / 8], i % 8))
  }

  /** The first 256 bits of the sponge over an already padded string. */
  function Sponge(p: seq<Byte>): seq<Byte> {
    Squeeze(Absorb(p, |p| / RATE))
  }

  function StandardDigest(m: seq<Byte>): seq<Byte> { Sponge(StandardPad(m)) }

  method AbsorbBlock(state: array<Lane>, p: seq<Byte>, offset: nat)
    requires state.Length == 25 && offset + RATE <= |p|
    modifies state
    ensures state[..] == AddBlock(old(state[..]), p, offset)
  {
    hide XorLane, OrLane, ShiftedByte;
    ghost var s := state[..];
    for i := 0 to 17
      invariant forall k | 0 <= k < 25 :: state[k] == if k < i then XorLane(s[k], LaneAt(p, offset + 8 * k)) else s[k]
    {
      var lane: Lane := 0;
      for j := 0 to 8
        invariant lane == LaneAt(p, offset + 8 * i, j)
      {
        lane := OrLane(lane, ShiftedByte(p[offset + 8 * i + j], j));
      }
      state[i] := XorLane(state[i], lane);
    }
  }

  function HexDigit(n: bv8): char
    requires n < 16
  {
    "0123456789abcdef"[n as int]
  }

  function Hex(bytes: seq<Byte>): string {
    if bytes == [] then ""
    else [HexDigit(bytes[0] >> 4), HexDigit(bytes[0] & 0xf)] + Hex(bytes[1..])
  }

  /** The value of a hexadecimal digit, by its character code; there are no others. */
  function DigitValue(c: char): int {
    if '0' <= c <= '9' then c as int - '0' as int
    else if 'a' <= c <= 'f' then 10 + (c as int - 'a' as int)
    else -1
  }

  /** Two characters are the high and the low digit of a byte. */
  predicate ShowsByte(high: char, low: char, b: Byte) {
    0 <= DigitValue(high) < 16 && 0 <= DigitValue(low) < 16
    && 16 * DigitValue(high) + DigitValue(low) == b as int
  }

  /** The text is 0x and two digits for each byte, in order. */
  ghost predicate Shows(text: string, bytes: seq<Byte>) {
    && |text| == 2 + 2 * |bytes| && text[0] == '0' && text[1] == 'x'
    && forall i :: 0 <= i < |bytes| ==> ShowsByte(text[2 + 2 * i], text[3 + 2 * i], bytes[i])
  }

  lemma DigitsOfByte(b: Byte)
    ensures ShowsByte(HexDigit(b >> 4), HexDigit(b & 0xf), b)
  {
    DigitHasValue(b >> 4);
    DigitHasValue(b & 0xf);
    Nibbles(b);
  }

  lemma Nibbles(b: Byte)
    ensures b == 16 * (b >> 4) + (b & 0xf) && b >> 4 < 16 && b & 0xf < 16
    ensures b as int == 16 * ((b >> 4) as int) + (b & 0xf) as int
  {
  }

  lemma DigitHasValue(n: bv8)
    requires n < 16
    ensures DigitValue(HexDigit(n)) == n as int
  {
  }

  lemma {:induction false} HexShows(bytes: seq<Byte>)
    ensures Shows("0x" + Hex(bytes), bytes)
  {
    hide HexDigit, ShowsByte, Shows;
    if bytes == [] {
      NothingShows();
    } else {
      HexShows(bytes[1..]);
      DigitsOfByte(bytes[0]);
      ByteBefore(HexDigit(bytes[0] >> 4), HexDigit(bytes[0] & 0xf), bytes[0], Hex(bytes[1..]), bytes[1..]);
      assert [bytes[0]] + bytes[1..] == bytes;
    }
  }

  lemma NothingShows()
    ensures Shows("0x" + "", [])
  {
  }

  lemma ByteBefore(high: char, low: char, b: Byte, digits: string, bytes: seq<Byte>)
    requires ShowsByte(high, low, b) && Shows("0x" + digits, bytes)
    ensures Shows("0x" + ([high, low] + digits), [b] + bytes)
  {
    hide ShowsByte;
    var (text, rest) := ("0x" + ([high, low] + digits), "0x" + digits);
    forall i | 0 <= i < |[b] + bytes| ensures ShowsByte(text[2 + 2 * i], text[3 + 2 * i], ([b] + bytes)[i]) {
      if i > 0 {
        assert text[2 + 2 * i] == rest[2 + 2 * (i - 1)] && text[3 + 2 * i] == rest[3 + 2 * (i - 1)];
      }
    }
  }

  method Keccak256Utf8(text: seq<Unit>) returns (r: Option<string>)
    ensures Encode(text).None? ==> r == None
    ensures Encode(text).Some? ==> r.Some? && |r.value| == 66 && Shows(r.value, Sponge(ProgramPad(Encode(text).value)))
  {
    hide Absorb, KeccakF, AddBlock, ByteOfLane, Shows, Hex;
    var bytes := Utf8Bytes(text);
    if bytes.None? {
      return None;
    }
    var p := Pad(bytes.value);
    var state := new Lane[25](_ => 0);
    var offset := 0;
    ghost var n := 0;
    AbsorbStart(p);
    assert state[..] == Absorb(p, 0);
    while offset < |p|
      invariant offset == n * RATE <= |p|
      invariant state[..] == Absorb(p, n)
    {
      AbsorbStep(p, n);
      AbsorbBlock(state, p, offset);
      KeccakF1600(state);
      offset, n := offset + RATE, n + 1;
    }
    assert n == |p| / RATE;
    var out: seq<Byte> := [];
    for i := 0 to 32
      invariant out == Squeeze(state[..])[..i]
    {
      out := out + [ByteOfLane(state[i / 8], i % 8)];
    }
    assert out == Squeeze(state[..]);
    HexShows(out);
    ShownLength("0x" + Hex(out), out);
    return Some("0x" + Hex(out));
  }

  lemma ShownLength(text: string, bytes: seq<Byte>)
    requires Shows(text, bytes)
    ensures |text| == 2 + 2 * |bytes|
  {
  }

  lemma AbsorbStart(p: seq<Byte>)
    ensures Absorb(p, 0) == seq(25, _ => 0)
  {
  }

  lemma AbsorbStep(p: seq<Byte>, n: nat)
    requires (n + 1) * RATE <= |p|
    ensures Absorb(p, n + 1) == KeccakF(AddBlock(Absorb(p, n), p, n * RATE))
  {
    hide KeccakF, AddBlock;
  }

  // ----- The lane layout, bit by bit -----

  const BYTE_BASE: seq<bv6> := [0, 8, 16, 24, 32, 40, 48, 56]

  lemma BitOfOr(a: Lane, b: Lane, z: bv6)
    ensures Bit(a | b, z) == (Bit(a, z) || Bit(b, z))
  {
  }

  lemma BitOfOrLane(a: Lane, b: Lane, z: bv6)
    ensures Bit(OrLane(a, b), z) == (Bit(a, z) || Bit(b, z))
  {
    BitOfOr(a, b, z);
  }

  lemma ShiftedByteBits(b: Byte, j: nat, z: bv6)
    requires j < 8
    ensures Bit(ShiftedByte(b, j), z)
         <==> BYTE_BASE[j] <= z && z - BYTE_BASE[j] < 8 && ByteBit(b, (z - BYTE_BASE[j]) as bv3)
  {
  }

  lemma BitOfNothing(z: bv6)
    ensures !Bit(0, z)
  {
  }

  /** z is bit k of byte j exactly when it lies in byte j. */
  lemma BitsOfOtherBytes(j: nat, n: nat, k: bv3)
    requires j < 8 && n < 8
    ensures var z := BYTE_BASE[j] + (k as bv6);
      BYTE_BASE[n] <= z && z - BYTE_BASE[n] < 8 <==> j == n
    ensures (BYTE_BASE[j] + (k as bv6) - BYTE_BASE[j]) as int == k as int
  {
  }

  lemma ShiftedByteAt(b: Byte, n: nat, j: nat, k: bv3)
    requires j < 8 && n < 8
    ensures Bit(ShiftedByte(b, n), BYTE_BASE[j] + (k as bv6)) <==> j == n && ByteBit(b, k)
  {
    hide Bit, ShiftedByte, ByteBit;
    ShiftedByteBits(b, n, BYTE_BASE[j] + (k as bv6));
    BitsOfOtherBytes(j, n, k);
  }

  lemma {:induction false} LaneBitsUpTo(p: seq<Byte>, at: nat, n: nat, j: nat, k: bv3, z: bv6)
    requires at + n <= |p| && n <= 8 && j < 8 && z == BYTE_BASE[j] + (k as bv6)
    ensures Bit(LaneAt(p, at, n), z) <==> j < n && ByteBit(p[at + j], k)
  {
    hide Bit, ShiftedByte, ByteBit, OrLane;
    if n == 0 {
      BitOfNothing(z);
    } else {
      LaneBitsUpTo(p, at, n - 1, j, k, z);
      BitOfOrLane(LaneAt(p, at, n - 1), ShiftedByte(p[at + n - 1], n - 1), z);
      ShiftedByteAt(p[at + n - 1], n - 1, j, k);
    }
  }

  lemma StringBitsStep(m: seq<Byte>)
    requires m != []
    ensures |StringBits(m)| == 8 + |StringBits(m[1..])| && StringBits(m)[8..] == StringBits(m[1..])
  {
    hide ByteBit;
  }

  lemma {:induction false} StringBitAt(m: seq<Byte>, i: nat, k: bv3)
    requires i < |m|
    ensures StringBits(m)[8 * i + k as int] == ByteBit(m[i], k)
  {
    hide ByteBit;
    if i > 0 {
      hide StringBits;
      StringBitsStep(m);
      StringBitAt(m[1..], i - 1, k);
      assert 8 * i + k as int == 8 + (8 * (i - 1) + k as int);
    }
  }

  /**
    Step 6 of Algorithm 8, bit by bit: bit 8j + k of lane i < 17 absorbs bit 64i + 8j + k of the
    block, and the 512 capacity bits are left alone.
   */
  lemma AddBlockBits(s: State, p: seq<Byte>, offset: nat, i: nat, j: nat, k: bv3)
    requires offset + RATE <= |p| && i < 25 && j < 8
    ensures var z := BYTE_BASE[j] + (k as bv6);
      Bit(AddBlock(s, p, offset)[i], z)
      == Xor(Bit(s[i], z), i < 17 && StringBits(p)[8 * offset + 64 * i + 8 * j + k as int])
  {
    hide Bit, ByteBit, LaneAt, XorLane, StringBits;
    var z := BYTE_BASE[j] + (k as bv6);
    if i < 17 {
      LaneBitsUpTo(p, offset + 8 * i, 8, j, k, z);
      StringBitAt(p, offset + 8 * i + j, k);
      BitOfXorLane(s[i], LaneAt(p, offset + 8 * i), z);
    }
  }

  lemma LowByteBits(w: Lane, k: bv3)
    ensures ByteBit(LowByte(w), k) == Bit(w, k as bv6)
  {
  }

  lemma LowBytesDownTable(v: Lane, k: bv3)
    ensures Bit(ShiftedDown(v, 0), k as bv6) == Bit(v, 0 + (k as bv6))
    ensures Bit(ShiftedDown(v, 1), k as bv6) == Bit(v, 8 + (k as bv6))
    ensures Bit(ShiftedDown(v, 2), k as bv6) == Bit(v, 16 + (k as bv6))
    ensures Bit(ShiftedDown(v, 3), k as bv6) == Bit(v, 24 + (k as bv6))
  {
  }

  lemma LowBytesDown(v: Lane, j: nat, k: bv3)
    requires 0 <= j <= 3
    ensures Bit(ShiftedDown(v, j), k as bv6) == Bit(v, BYTE_BASE[j] + (k as bv6))
  {
    hide Bit, ShiftedDown;
    LowBytesDownTable(v, k);
  }

  lemma HighBytesDownTable(v: Lane, k: bv3)
    ensures Bit(ShiftedDown(v, 4), k as bv6) == Bit(v, 32 + (k as bv6))
    ensures Bit(ShiftedDown(v, 5), k as bv6) == Bit(v, 40 + (k as bv6))
    ensures Bit(ShiftedDown(v, 6), k as bv6) == Bit(v, 48 + (k as bv6))
    ensures Bit(ShiftedDown(v, 7), k as bv6) == Bit(v, 56 + (k as bv6))
  {
  }

  lemma HighBytesDown(v: Lane, j: nat, k: bv3)
    requires 4 <= j <= 7
    ensures Bit(ShiftedDown(v, j), k as bv6) == Bit(v, BYTE_BASE[j] + (k as bv6))
  {
    hide Bit, ShiftedDown;
    HighBytesDownTable(v, k);
  }

  lemma ShiftedDownBits(v: Lane, j: nat, k: bv3)
    requires j < 8
    ensures Bit(ShiftedDown(v, j), k as bv6) == Bit(v, BYTE_BASE[j] + (k as bv6))
  {
    hide Bit, ShiftedDown;
    if j < 4 { LowBytesDown(v, j, k); } else { HighBytesDown(v, j, k); }
  }

  lemma ByteOfLaneBits(v: Lane, j: nat, k: bv3)
    requires j < 8
    ensures ByteBit(ByteOfLane(v, j), k) == Bit(v, BYTE_BASE[j] + (k as bv6))
  {
    hide Bit, ByteBit, ShiftedDown, LowByte;
    LowByteBits(ShiftedDown(v, j), k);
    ShiftedDownBits(v, j, k);
  }

  /** The digest is the first 256 bits of the state, in the standard's order. */
  lemma SqueezeBits(s: State, i: nat, j: nat, k: bv3)
    requires i < 4 && j < 8
    ensures ByteBit(Squeeze(s)[8 * i + j], k) == Bit(s[i], BYTE_BASE[j] + (k as bv6))
  {
    hide ByteBit, Bit, ByteOfLane;
    ByteOfLaneBits(s[i], j, k);
    assert (8 * i + j) / 8 == i && (8 * i + j) % 8 == j;
  }
}
