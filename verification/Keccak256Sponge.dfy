/**
  The sponge of FIPS 202, section 4, bit by bit, and that the program computes it.

  Bits are numbered as in the standard: bit 64i + 8j + k of a state is bit 8j + k of lane i.
 */
module Keccak256Sponge {
  import opened Fips202
  import opened Keccak256
  import K = KeccakLanes
  import opened Utf8

  const RATE_BITS: nat := 1088

  function BitIndex(j: nat, k: bv3): bv6
    requires j < 8
  {
    BYTE_BASE[j] + (k as bv6)
  }

  /** t is s with a block of the rate added to it, and the capacity left alone. */
  ghost predicate IsAbsorbed(s: State, block: seq<bool>, t: State) {
    |block| == RATE_BITS
    && forall i: nat, j: nat, k: bv3 | i < 25 && j < 8 :: AddsBit(s, block, t, i, j, k)
  }

  predicate AddsBit(s: State, block: seq<bool>, t: State, i: nat, j: nat, k: bv3)
    requires |block| == RATE_BITS && i < 25 && j < 8
  {
    Bit(t[i], BitIndex(j, k)) == Xor(Bit(s[i], BitIndex(j, k)), i < 17 && block[64 * i + 8 * j + k as int])
  }

  ghost predicate IsZero(s: State) {
    forall i: nat, j: nat, k: bv3 | i < 25 && j < 8 :: IsZeroBit(s, i, j, k)
  }

  predicate IsZeroBit(s: State, i: nat, j: nat, k: bv3)
    requires i < 25 && j < 8
  {
    !Bit(s[i], BitIndex(j, k))
  }

  /** One block and one permutation. */
  ghost predicate IsStep(s: State, block: seq<bool>, next: State) {
    exists t: State :: IsAbsorbed(s, block, t) && IsKeccakF(t, next)
  }

  /** The states of Algorithm 8 over a padded string. */
  ghost predicate IsSpongeRun(bits: seq<bool>, run: seq<State>) {
    && |bits| % RATE_BITS == 0 && |run| == |bits| / RATE_BITS + 1 && IsZero(run[0])
    && forall n | 0 <= n < |run| - 1 :: IsStep(run[n], bits[RATE_BITS * n..RATE_BITS * n + RATE_BITS], run[n + 1])
  }

  /** The first 256 bits of a state. */
  ghost predicate IsFirst256(s: State, d: seq<bool>) {
    |d| == 256 && forall i: nat, j: nat, k: bv3 | i < 4 && j < 8 :: FirstBit(s, d, i, j, k)
  }

  predicate FirstBit(s: State, d: seq<bool>, i: nat, j: nat, k: bv3)
    requires |d| == 256 && i < 4 && j < 8
  {
    d[64 * i + 8 * j + k as int] == Bit(s[i], BitIndex(j, k))
  }

  /** d is the 256-bit digest of the padded string. */
  ghost predicate IsSponge(bits: seq<bool>, d: seq<bool>) {
    exists run: seq<State> :: IsSpongeRun(bits, run) && IsFirst256(run[|run| - 1], d)
  }

  // ----- The program's state run is the sponge's -----

  lemma ZeroStateIsZero()
    ensures IsZero(seq(25, _ => 0))
  {
    hide BitIndex;
    var zero: State := seq(25, _ => 0);
    forall i: nat, j: nat, k: bv3 | i < 25 && j < 8 ensures IsZeroBit(zero, i, j, k) {
      ZeroHasNoBits(BitIndex(j, k));
    }
  }

  lemma ZeroHasNoBits(z: bv6)
    ensures !Bit(0, z)
  {
  }

  /** A padded string of whole blocks is absorbed block by block. */
  lemma BlockIsAbsorbed(s: State, p: seq<Byte>, n: nat)
    requires RATE * n + RATE <= |p|
    ensures 0 <= RATE_BITS * n && RATE_BITS * n + RATE_BITS <= |StringBits(p)|
    ensures IsAbsorbed(s, StringBits(p)[RATE_BITS * n..RATE_BITS * n + RATE_BITS], AddBlock(s, p, RATE * n))
  {
    hide Bit, StringBits, AddBlock;
    var block := StringBits(p)[RATE_BITS * n..RATE_BITS * n + RATE_BITS];
    forall i: nat, j: nat, k: bv3 | i < 25 && j < 8 ensures AddsBit(s, block, AddBlock(s, p, RATE * n), i, j, k) {
      AddBlockBits(s, p, RATE * n, i, j, k);
      if i < 17 {
        assert 8 * (RATE * n) == RATE_BITS * n;
        assert block[64 * i + 8 * j + k as int] == StringBits(p)[RATE_BITS * n + (64 * i + 8 * j + k as int)];
      }
    }
  }

  lemma StepIsStep(p: seq<Byte>, n: nat)
    requires RATE * n + RATE <= |p|
    ensures 0 <= RATE_BITS * n && RATE_BITS * n + RATE_BITS <= |StringBits(p)|
    ensures IsStep(Absorb(p, n), StringBits(p)[RATE_BITS * n..RATE_BITS * n + RATE_BITS], Absorb(p, n + 1))
  {
    hide StringBits, AddBlock, K.KeccakF, IsAbsorbed, IsKeccakF;
    BlockIsAbsorbed(Absorb(p, n), p, n);
    var t := AddBlock(Absorb(p, n), p, RATE * n);
    K.KeccakFIsFips202(t, K.KeccakF(t));
    assert n * RATE == RATE * n;
  }

  lemma BlocksFit(p: seq<Byte>, n: nat)
    requires |p| % RATE == 0 && n < |p| / RATE
    ensures RATE * n + RATE <= |p|
  {
    assert |p| == RATE * (|p| / RATE);
  }

  lemma SqueezedBits(s: State)
    ensures IsFirst256(s, StringBits(Squeeze(s)))
  {
    hide Bit, StringBits, Squeeze, ByteBit, BitIndex;
    SqueezeLength(s);
    forall i: nat, j: nat, k: bv3 | i < 4 && j < 8 ensures FirstBit(s, StringBits(Squeeze(s)), i, j, k) {
      StringBitAt(Squeeze(s), 8 * i + j, k);
      SqueezeBits(s, i, j, k);
      IndexIs(j, k);
      assert 8 * (8 * i + j) + k as int == 64 * i + 8 * j + k as int;
    }
  }

  lemma IndexIs(j: nat, k: bv3)
    requires j < 8
    ensures BitIndex(j, k) == BYTE_BASE[j] + (k as bv6)
  {
  }

  lemma SqueezeLength(s: State)
    ensures |Squeeze(s)| == 32
  {
  }

  lemma SpongeLengths(p: seq<Byte>)
    requires |p| % RATE == 0
    ensures |StringBits(p)| % RATE_BITS == 0 && |StringBits(p)| / RATE_BITS == |p| / RATE
  {
    hide StringBits;
    var n := |p| / RATE;
    assert |p| == RATE * n && |StringBits(p)| == RATE_BITS * n;
  }

  lemma SpongeIsSponge(p: seq<Byte>)
    requires |p| % RATE == 0
    ensures IsSponge(StringBits(p), StringBits(Sponge(p)))
  {
    hide StringBits, Absorb, Squeeze, IsStep, IsZero, IsFirst256;
    var n := |p| / RATE;
    SpongeLengths(p);
    assert forall i | 0 <= i <= n :: i * RATE <= |p| by {
      forall i | 0 <= i <= n ensures i * RATE <= |p| {
        assert |p| == RATE * n;
      }
    }
    var run := seq(n + 1, i requires 0 <= i <= n => Absorb(p, i));
    forall i | 0 <= i < n
      ensures 0 <= RATE_BITS * i && RATE_BITS * i + RATE_BITS <= |StringBits(p)|
      ensures IsStep(run[i], StringBits(p)[RATE_BITS * i..RATE_BITS * i + RATE_BITS], run[i + 1])
    {
      BlocksFit(p, i);
      StepIsStep(p, i);
    }
    assert IsZero(run[0]) by {
      ZeroStateIsZero();
      AbsorbStart(p);
    }
    SqueezedBits(Absorb(p, n));
    assert IsSpongeRun(StringBits(p), run);
  }

  /** Unless one byte of the last block is free, the program's digest is the sponge's of the standard padding. */
  lemma DigestIsKeccak256(m: seq<Byte>)
    requires |m| % RATE != RATE - 1
    ensures IsSponge(StringBits(m) + Pad10Star1(8 * RATE, 8 * |m|), StringBits(Sponge(ProgramPad(m))))
  {
    hide StringBits, Sponge, IsSponge, ProgramPad;
    PaddingIsPad10Star1(m);
    PaddedLength(m);
    SpongeIsSponge(ProgramPad(m));
  }

  /**
    What a digest shows: a text that shows the program's digest is 0x and 64 digits from 0 to f, and
    the bytes that they spell are the sponge's digest of the encoded text and pad10*1.
   */
  lemma ShownDigestIsKeccak256(text: seq<Unit>, r: string)
    requires Encode(text).Some? && |Encode(text).value| % 136 != 135
    requires Shows(r, Sponge(ProgramPad(Encode(text).value)))
    ensures |r| == 66 && r[..2] == "0x" && forall k :: 2 <= k < 66 ==> r[k] in "0123456789abcdef"
    ensures exists d: seq<Byte> ::
              && |d| == 32
              && (forall i :: 0 <= i < 32 ==> 16 * DigitValue(r[2 + 2 * i]) + DigitValue(r[3 + 2 * i]) == d[i] as int)
              && IsSponge(StringBits(Encode(text).value) + Pad10Star1(1088, 8 * |Encode(text).value|), StringBits(d))
  {
    hide StringBits, IsSponge, ProgramPad, Absorb, Encode;
    var m := Encode(text).value;
    DigestIsKeccak256(m);
    var d := Sponge(ProgramPad(m));
    SqueezeLength(Absorb(ProgramPad(m), |ProgramPad(m)| / RATE));
    forall k | 2 <= k < 66 ensures r[k] in "0123456789abcdef" {
      assert ShowsByte(r[2 + 2 * ((k - 2) / 2)], r[3 + 2 * ((k - 2) / 2)], d[(k - 2) / 2]);
      DigitIsListed(r[k]);
    }
  }

  lemma DigitIsListed(c: char)
    requires 0 <= DigitValue(c)
    ensures c in "0123456789abcdef"
  {
    var digits := "0123456789abcdef";
    assert digits[DigitValue(c)] == c;
  }

  /** The digest the standard asks for, of every message; the program differs where its padding does. */
  lemma StandardDigestIsSponge(m: seq<Byte>)
    ensures IsSponge(StringBits(m) + Pad10Star1(8 * RATE, 8 * |m|), StringBits(StandardDigest(m)))
    ensures |m| % RATE != RATE - 1 ==> Sponge(ProgramPad(m)) == StandardDigest(m)
  {
    hide StringBits, Sponge, IsSponge, ProgramPad;
    StandardPadIsPad10Star1(m);
    PaddedLength(m);
    SpongeIsSponge(StandardPad(m));
  }

  lemma PaddedLength(m: seq<Byte>)
    ensures |ProgramPad(m)| % RATE == 0 && |StandardPad(m)| % RATE == 0
  {
  }

  // ----- The standard determines the digest -----

  /** Every bit of a lane is bit k of byte j. */
  lemma BitIsCovered(z: bv6) returns (j: nat, k: bv3)
    ensures j < 8 && BitIndex(j, k) == z
  {
    k := (z & 7) as bv3;
    if z < 8 { j := 0; }
    else if z < 16 { j := 1; }
    else if z < 24 { j := 2; }
    else if z < 32 { j := 3; }
    else if z < 40 { j := 4; }
    else if z < 48 { j := 5; }
    else if z < 56 { j := 6; }
    else { j := 7; }
  }

  lemma SameBits(a: State, b: State)
    requires forall i: nat, j: nat, k: bv3 | i < 25 && j < 8 :: SameBit(a, b, i, j, k)
    ensures a == b
  {
    hide Bit, BitIndex;
    forall i | 0 <= i < 25 ensures a[i] == b[i] {
      forall z: bv6 ensures Bit(a[i], z) == Bit(b[i], z) {
        var j, k := BitIsCovered(z);
        assert SameBit(a, b, i, j, k);
      }
      LaneFromBits(a[i], b[i]);
    }
  }

  predicate SameBit(a: State, b: State, i: nat, j: nat, k: bv3)
    requires i < 25 && j < 8
  {
    Bit(a[i], BitIndex(j, k)) == Bit(b[i], BitIndex(j, k))
  }

  lemma StepIsDetermined(s: State, block: seq<bool>, a: State, b: State)
    requires IsStep(s, block, a) && IsStep(s, block, b)
    ensures a == b
  {
    hide Bit, BitIndex, IsKeccakF;
    var t: State :| IsAbsorbed(s, block, t) && IsKeccakF(t, a);
    var u: State :| IsAbsorbed(s, block, u) && IsKeccakF(u, b);
    forall i: nat, j: nat, k: bv3 | i < 25 && j < 8 ensures SameBit(t, u, i, j, k) {
      assert AddsBit(s, block, t, i, j, k) && AddsBit(s, block, u, i, j, k);
    }
    SameBits(t, u);
    KeccakFIsDetermined(t, a, b);
  }

  lemma {:induction false} SpongeRunsAgree(bits: seq<bool>, run: seq<State>, run': seq<State>, n: nat)
    requires IsSpongeRun(bits, run) && IsSpongeRun(bits, run') && n < |run|
    ensures run[n] == run'[n]
  {
    hide IsStep;
    if n == 0 {
      forall i: nat, j: nat, k: bv3 | i < 25 && j < 8 ensures SameBit(run[0], run'[0], i, j, k) {
        assert IsZeroBit(run[0], i, j, k) && IsZeroBit(run'[0], i, j, k);
      }
      SameBits(run[0], run'[0]);
    } else {
      SpongeRunsAgree(bits, run, run', n - 1);
      var low := RATE_BITS * (n - 1);
      assert IsStep(run[n - 1], bits[low..low + RATE_BITS], run[n])
        && IsStep(run'[n - 1], bits[low..low + RATE_BITS], run'[n]);
      StepIsDetermined(run[n - 1], bits[low..low + RATE_BITS], run[n], run'[n]);
    }
  }

  lemma SameFirst256(s: State, d: seq<bool>, e: seq<bool>)
    requires IsFirst256(s, d) && IsFirst256(s, e)
    ensures d == e
  {
    hide Bit, BitIndex;
    forall q | 0 <= q < 256 ensures d[q] == e[q] {
      var (i, j) := (q / 64, q % 64 / 8);
      var k := ThreeBits(q % 8);
      assert 64 * i + 8 * j + k as int == q;
      assert FirstBit(s, d, i, j, k) && FirstBit(s, e, i, j, k);
    }
  }

  lemma ThreeBits(r: int) returns (k: bv3)
    requires 0 <= r < 8
    ensures k as int == r
  {
    k := if r == 0 then 0 else if r == 1 then 1 else if r == 2 then 2 else if r == 3 then 3
         else if r == 4 then 4 else if r == 5 then 5 else if r == 6 then 6 else 7;
  }

  /** The equations have one solution: the digest of the program is the only one. */
  lemma SpongeIsDetermined(bits: seq<bool>, d: seq<bool>, e: seq<bool>)
    requires IsSponge(bits, d) && IsSponge(bits, e)
    ensures d == e
  {
    hide IsFirst256;
    var run: seq<State> :| IsSpongeRun(bits, run) && IsFirst256(run[|run| - 1], d);
    var run': seq<State> :| IsSpongeRun(bits, run') && IsFirst256(run'[|run'| - 1], e);
    SpongeRunsAgree(bits, run, run', |run| - 1);
    SameFirst256(run[|run| - 1], d, e);
  }
}
