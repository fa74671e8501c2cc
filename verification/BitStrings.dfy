/**
  The bits that convertBits keeps: what comes out spells the string that went in, position by
  position, with zeros after it when it is padded and without its last zeros when it is not.
 */
module BitStrings {
  import opened BitGroups

  /** Bit k of a number, counted from the lowest. */
  predicate IsSet(n: nat, k: nat) { n / Pow2(k) % 2 == 1 }

  /** Position p of the string that a list of values spells, most significant value and bit first. */
  predicate BitAt(data: seq<int>, width: nat, p: nat)
    requires InRange(data, width) && width > 0 && 0 <= p / width < |data|
  {
    IsSet(data[p / width], width - 1 - p % width)
  }

  /** The same with zeros after the last value. */
  predicate BitOrZero(data: seq<int>, width: nat, p: nat)
    requires InRange(data, width) && width > 0
  {
    0 <= p / width < |data| && BitAt(data, width, p)
  }

  lemma SetIsLow(n: nat, k: nat)
    ensures IsSet(n, k) <==> Low(Shr(n, k), 1) == 1
  {
    assert Pow2(1) == 2;
  }

  lemma SetAfterShift(n: nat, a: nat, k: nat)
    ensures IsSet(Shr(n, a), k) == IsSet(n, a + k)
  {
    hide IsSet, Shr, Low;
    SetIsLow(Shr(n, a), k);
    SetIsLow(n, a + k);
    ShiftTwice(n, a, k);
  }

  /** Bits below a mask are the bits of what the mask leaves. */
  lemma SetBelowMask(n: nat, width: nat, k: nat)
    requires k < width
    ensures IsSet(Low(n, width), k) == IsSet(n, k)
  {
    hide IsSet, Shr, Low;
    SetIsLow(Low(n, width), k);
    SetIsLow(n, k);
    WindowOfMask(n, width, k, 1);
  }

  lemma NothingSet(k: nat)
    ensures !IsSet(0, k)
  {
    QuotientIs(0, Pow2(k), 0, 0);
  }

  /** A number without a set bit below k is a multiple of the power. */
  lemma {:induction false} ZeroIfNothingSet(n: nat, k: nat)
    requires n < Pow2(k) && forall j | 0 <= j < k :: !IsSet(n, j)
    ensures n == 0
  {
    if k > 0 {
      forall j | 0 <= j < k - 1 ensures !IsSet(n / 2, j) {
        assert Pow2(1) == 2;
        SetAfterShift(n, 1, j);
        assert !IsSet(n, 1 + j);
      }
      ZeroIfNothingSet(n / 2, k - 1);
      assert !IsSet(n, 0);
    }
  }

  /** Two numbers with the same low bits are the same number below the power. */
  lemma {:induction false} SameBitsSameNumber(n: nat, m: nat, k: nat)
    requires n < Pow2(k) && m < Pow2(k) && forall j | 0 <= j < k :: IsSet(n, j) == IsSet(m, j)
    ensures n == m
  {
    if k > 0 {
      forall j | 0 <= j < k - 1 ensures IsSet(n / 2, j) == IsSet(m / 2, j) {
        assert Pow2(1) == 2;
        SetAfterShift(n, 1, j);
        SetAfterShift(m, 1, j);
        assert IsSet(n, 1 + j) == IsSet(m, 1 + j);
      }
      SameBitsSameNumber(n / 2, m / 2, k - 1);
      assert IsSet(n, 0) == IsSet(m, 0);
    }
  }

  lemma Positions(count: nat, width: nat, p: nat)
    requires width > 0
    ensures p < count * width <==> 0 <= p / width < count
    ensures p == width * (p / width) + p % width && 0 <= p % width < width
  {
    DivMod(p, width);
    Swap(count, width, 0);
    MulSub(width, count, p / width);
    if p / width < count {
      MulGrows(width, count - p / width);
    } else {
      MulSub(width, p / width, count);
      MulGrowsOrZero(width, p / width - count);
    }
  }

  /** The string position by position is the number bit by bit. */
  lemma {:induction false} BitOfValue(data: seq<int>, width: nat, p: nat)
    requires InRange(data, width) && width > 0 && p < |data| * width
    ensures 0 <= p / width < |data|
    ensures BitAt(data, width, p) == IsSet(Value(data, width), |data| * width - 1 - p)
    decreases |data|
  {
    hide Pow2, Shl, Shr, Low, IsSet;
    Positions(|data|, width, p);
    var (n, q) := (|data| - 1, p % width);
    var (front, last) := (data[..n], data[n]);
    MulAdd(width, n, 1);
    Swap(n, width, 0);
    Swap(|data|, width, 0);
    Appended(Value(front, width), last, width);
    if p / width == n {
      SetBelowMask(Value(data, width), width, width - 1 - q);
    } else {
      Positions(n, width, p);
      BitOfValue(front, width, p);
      SetAfterShift(Value(data, width), width, n * width - 1 - p);
    }
  }

  /** A shift up by k puts k zeros after the string. */
  lemma SetAfterPadding(n: nat, pad: nat, k: nat)
    ensures k >= pad ==> IsSet(Shl(n, pad), k) == IsSet(n, k - pad)
    ensures k < pad ==> !IsSet(Shl(n, pad), k)
  {
    hide Pow2, Shl, Shr, Low, IsSet;
    PowerIsPositive(pad);
    Appended(n, 0, pad);
    if k >= pad {
      SetAfterShift(Shl(n, pad), pad, k - pad);
    } else {
      SetBelowMask(Shl(n, pad), pad, k);
      NothingSet(k);
    }
  }

  lemma PowerIsPositive(k: nat)
    ensures 0 < Pow2(k)
  {
  }

  /** d spells the string of data, with zeros after the shorter of the two. */
  ghost predicate SpellsTheSame(d: seq<int>, to: nat, data: seq<int>, from: nat)
    requires InRange(d, to) && InRange(data, from) && to > 0 && from > 0
  {
    forall p: nat | p < |d| * to || p < |data| * from :: BitOrZero(d, to, p) == BitOrZero(data, from, p)
  }

  /** With padding: the fewest values that have room for the string, which they spell. */
  lemma PaddedKeepsBits(data: seq<int>, from: nat, to: nat)
    requires Widths(from, to) && InRange(data, from)
    ensures var r := Regroup(data, from, to, true);
      && r.Values? && |data| * from <= |r.values| * to < |data| * from + to
      && InRange(r.values, to) && SpellsTheSame(r.values, to, data, from)
  {
    hide Pow2, Shl, Shr, Low, Digits, Value, IsSet, BitAt;
    var (n, total) := (Value(data, from), |data| * from);
    ValueIsBounded(data, from);
    Swap(|data|, from, 0);
    DivMod(total, to);
    var pad := if total % to == 0 then 0 else to - total % to;
    var m := if total % to == 0 then total / to else total / to + 1;
    MulAdd(to, total / to, 1);
    Swap(m, to, 0);
    assert m * to == total + pad;
    ShlZero(n);
    var d := Regroup(data, from, to, true).values;
    assert d == Digits(Shl(n, pad), m, to);
    Unshift(n, pad, total);
    DigitsAreInRange(Shl(n, pad), m, to, total + pad);
    forall p: nat | p < m * to || p < total ensures BitOrZero(d, to, p) == BitOrZero(data, from, p) {
      BitOfValue(d, to, p);
      Positions(|data|, from, p);
      SetAfterPadding(n, pad, m * to - 1 - p);
      if p < total {
        BitOfValue(data, from, p);
      }
    }
  }

  /**
    Without padding: as many whole values as fit, when less than one value of the input is left over
    and what is left over is zero; otherwise the padding is refused.
   */
  lemma UnpaddedKeepsBits(data: seq<int>, from: nat, to: nat)
    requires Widths(from, to) && InRange(data, from)
    ensures var r := Regroup(data, from, to, false);
      && r != InvalidData
      && (r.Values? <==>
           |data| * from % to < from
           && forall p: nat | |data| * from - |data| * from % to <= p < |data| * from :: !BitOrZero(data, from, p))
      && (r.Values? ==> && |r.values| * to <= |data| * from < |r.values| * to + to
                        && InRange(r.values, to) && SpellsTheSame(r.values, to, data, from))
  {
    hide Pow2, Shl, Shr, Low, Digits, Value, IsSet, BitAt, BitOrZero, SpellsTheSame, InRange, Regroup;
    UnpaddedParts(data, from, to, |data| * from, |data| * from % to);
  }

  lemma UnpaddedParts(data: seq<int>, from: nat, to: nat, total: int, bits: int)
    requires Widths(from, to) && InRange(data, from) && total == |data| * from && bits == total % to
    ensures var r := Regroup(data, from, to, false);
      && r != InvalidData
      && (r.Values? <==> bits < from && forall p: nat | total - bits <= p < total :: !BitOrZero(data, from, p))
      && (r.Values? ==> && |r.values| * to <= total < |r.values| * to + to
                        && InRange(r.values, to) && SpellsTheSame(r.values, to, data, from))
  {
    hide Pow2, Shl, Shr, Low, Digits, Value, IsSet, BitAt, BitOrZero, SpellsTheSame, InRange;
    var (n, count) := (Value(data, from), total / to);
    Swap(|data|, from, 0);
    MulGrowsOrZero(from, |data|);
    DivMod(total, to);
    Swap(count, to, 0);
    LeftOverBits(data, from, n, total, bits);
    LeftOverIsZero(data, from, n, total, bits);
    if bits < from && Low(n, bits) == 0 {
      CutKeepsBits(data, from, to, n, count, bits);
    }
  }

  lemma LeftOverBits(data: seq<int>, from: nat, n: nat, total: nat, bits: nat)
    requires from > 0 && InRange(data, from) && n == Value(data, from) && total == |data| * from && bits <= total
    ensures forall p: nat | total - bits <= p < total :: BitOrZero(data, from, p) == IsSet(Low(n, bits), total - 1 - p)
  {
    hide Pow2, Shl, Shr, Low, Value, IsSet, BitAt;
    forall p: nat | total - bits <= p < total
      ensures BitOrZero(data, from, p) == IsSet(Low(n, bits), total - 1 - p)
    {
      BitOfValue(data, from, p);
      SetBelowMask(n, bits, total - 1 - p);
    }
  }

  /** What is cut off is zero, and the digits of the rest are what stays. */
  lemma CutKeepsBits(data: seq<int>, from: nat, to: nat, n: nat, count: nat, bits: nat)
    requires from > 0 && to > 0 && InRange(data, from) && n == Value(data, from)
    requires |data| * from == count * to + bits && Low(n, bits) == 0 && 0 <= count * to
    ensures var d := Digits(Shr(n, bits), count, to);
      InRange(d, to) && SpellsTheSame(d, to, data, from)
  {
    hide Pow2, Shl, Shr, Low, Value, IsSet, BitAt, Digits;
    var d := Digits(Shr(n, bits), count, to);
    var total := count * to + bits;
    ValueIsBounded(data, from);
    Swap(|data|, from, 0);
    Fits(n, count * to, bits);
    DigitsAreInRange(Shr(n, bits), count, to, count * to);
    LeftOverBits(data, from, n, total, bits);
    forall p: nat | p < count * to || p < total ensures BitOrZero(d, to, p) == BitOrZero(data, from, p) {
      Positions(count, to, p);
      if p < count * to {
        BitOfValue(data, from, p);
        BitOfValue(d, to, p);
        SetAfterShift(n, bits, count * to - 1 - p);
      } else {
        NothingSet(total - 1 - p);
      }
    }
  }

  lemma LeftOverIsZero(data: seq<int>, from: nat, n: nat, total: nat, bits: nat)
    requires InRange(data, from) && from > 0 && bits <= total
    requires forall p: nat | total - bits <= p < total :: BitOrZero(data, from, p) == IsSet(Low(n, bits), total - 1 - p)
    ensures Low(n, bits) == 0 <==> forall p: nat | total - bits <= p < total :: !BitOrZero(data, from, p)
  {
    hide Pow2, IsSet, BitAt, Low, BitOrZero;
    LowIsSmall(n, bits);
    if Low(n, bits) == 0 {
      forall p: nat | total - bits <= p < total ensures !BitOrZero(data, from, p) {
        NothingSet(total - 1 - p);
      }
    }
    if forall p: nat | total - bits <= p < total :: !BitOrZero(data, from, p) {
      forall j | 0 <= j < bits ensures !IsSet(Low(n, bits), j) {
        var p: nat := total - 1 - j;
        assert !BitOrZero(data, from, p);
      }
      ZeroIfNothingSet(Low(n, bits), bits);
    }
  }

  /** A list of a given length is determined by what it spells. */
  lemma SpellingDetermines(a: seq<int>, b: seq<int>, width: nat)
    requires width > 0 && |a| == |b| && InRange(a, width) && InRange(b, width)
    requires forall p: nat | p < |a| * width :: BitOrZero(a, width, p) == BitOrZero(b, width, p)
    ensures a == b
  {
    hide Pow2, IsSet;
    forall i | 0 <= i < |a| ensures a[i] == b[i] {
      forall j | 0 <= j < width ensures IsSet(a[i], j) == IsSet(b[i], j) {
        var p := width * i + (width - 1 - j);
        MulGrowsOrZero(width, i);
        QuotientIs(p, width, i, width - 1 - j);
        Positions(|a|, width, p);
        assert BitOrZero(a, width, p) == BitOrZero(b, width, p);
      }
      SameBitsSameNumber(a[i], b[i], width);
    }
  }
}
