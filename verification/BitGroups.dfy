/**
  convertBits of the web client: it reads a list of fromBits-wide values as one long bit string
  and cuts that string again into toBits-wide values.

  The loop keeps an accumulator of only fromBits + toBits - 1 bits. The specification reads the
  whole list as one number (Value) and writes a number in digits (Digits); the loop invariant is
  that the accumulator is that number modulo its width, so that no pending bit is ever masked off.
  Shifts and masks are defined on the natural numbers: within Widths no intermediate result leaves
  the 31 bits on which JavaScript's 32-bit operators agree, and the bitwise or of a value below
  Pow2(k) into a number shifted up by k is a sum.
 */
module BitGroups {
  datatype Outcome = Values(values: seq<int>) | InvalidData | InvalidPadding

  type Int32 = n: int | -0x8000_0000 <= n < 0x8000_0000

  function Pow2(n: nat): (p: nat)
    ensures p >= 1
  {
    if n == 0 then 1 else 2 * Pow2(n - 1)
  }

  /** n << k */
  function Shl(n: nat, k: nat): nat { n * Pow2(k) }

  /** n >> k */
  function Shr(n: nat, k: nat): nat {
    QuotientIsNatural(n, Pow2(k));
    n / Pow2(k)
  }

  lemma QuotientIsNatural(n: nat, m: nat)
    requires m >= 1
    ensures n / m >= 0 && n % m >= 0
  {
  }

  /** n & ((1 << k) - 1) */
  function Low(n: nat, k: nat): nat { n % Pow2(k) }

  /** The widths for which every intermediate result of the program fits a 32-bit integer. */
  predicate Widths(fromBits: nat, toBits: nat) {
    fromBits >= 1 && toBits >= 1 && 2 * fromBits + toBits <= 32 && fromBits + 2 * toBits <= 32
  }

  predicate InRange(data: seq<int>, width: nat) {
    forall i :: 0 <= i < |data| ==> 0 <= data[i] < Pow2(width)
  }

  /** The number a list of values spells, most significant value first. */
  function Value(data: seq<int>, width: nat): nat
    requires InRange(data, width)
  {
    if data == [] then 0 else Shl(Value(data[..|data| - 1], width), width) + data[|data| - 1]
  }

  /** The count lowest digits of n. */
  function Digits(n: nat, count: nat, width: nat): (d: seq<int>)
    ensures |d| == count
    decreases count
  {
    if count == 0 then [] else Digits(Shr(n, width), count - 1, width) + [Low(n, width)]
  }

  /** What the program promises for all data: the bit string cut anew, or a refusal. */
  function Regroup(data: seq<int>, fromBits: nat, toBits: nat, pad: bool): Outcome
    requires Widths(fromBits, toBits)
  {
    if !InRange(data, fromBits) then InvalidData
    else Recut(Value(data, fromBits), |data| * fromBits, fromBits, toBits, pad)
  }

  /** A string of total bits, given as a number, in values of toBits. */
  function Recut(n: nat, total: nat, fromBits: nat, toBits: nat, pad: bool): Outcome
    requires Widths(fromBits, toBits)
  {
    var (count, bits) := (total / toBits, total % toBits);
    if pad then
      if bits == 0 then Values(Digits(n, count, toBits))
      else Values(Digits(Shl(n, toBits - bits), count + 1, toBits))
    else if bits >= fromBits || Low(n, bits) != 0 then InvalidPadding
    else Values(Digits(Shr(n, bits), count, toBits))
  }

  // ----- Division -----

  lemma MulSub(m: int, a: int, b: int)
    ensures m * (a - b) == m * a - m * b
  {
  }

  lemma MulAdd(m: int, a: int, b: int)
    ensures m * (a + b) == m * a + m * b
  {
  }

  lemma MulGrows(m: nat, k: int)
    requires k >= 1
    ensures m * k >= m
  {
  }

  lemma MulGrowsOrZero(m: nat, k: nat)
    ensures m * k >= 0
  {
  }

  lemma Swap(a: int, b: int, c: int)
    ensures a * b * c == a * (b * c)
    ensures a * b == b * a
  {
  }

  lemma DivMod(n: int, m: int)
    requires m >= 1
    ensures n == m * (n / m) + n % m && 0 <= n % m < m
  {
  }

  lemma OneQuotient(m: nat, q: int, r: nat, q2: int, r2: nat)
    requires r < m && r2 < m
    requires m * q + r == m * q2 + r2
    ensures q == q2 && r == r2
  {
    MulSub(m, q, q2);
    if q > q2 {
      MulGrows(m, q - q2);
    } else if q < q2 {
      MulSub(m, q2, q);
      MulGrows(m, q2 - q);
    }
  }

  lemma QuotientIs(n: nat, m: nat, q: nat, r: nat)
    requires r < m && n == m * q + r
    ensures n / m == q && n % m == r
  {
    DivMod(n, m);
    OneQuotient(m, q, r, n / m, n % m);
  }

  lemma Regrouped(n: nat, a: nat, b: nat, ab: nat, q: nat, r: nat, qq: nat, rr: nat)
    requires ab == a * b && n == a * q + r && r < a
    requires q == b * qq + rr && rr < b
    ensures n == ab * qq + (a * rr + r) && 0 <= a * rr + r < ab
  {
    MulAdd(a, b * qq, rr);
    Swap(a, b, qq);
    MulSub(a, b, rr);
    MulGrows(a, b - rr);
    MulGrowsOrZero(a, rr);
  }

  lemma Nested(n: nat, a: nat, b: nat, ab: nat)
    requires a >= 1 && b >= 1 && ab == a * b && ab >= 1
    ensures n / a / b == n / ab
    ensures n % ab == a * (n / a % b) + n % a
  {
    DivMod(n, a);
    DivMod(n / a, b);
    Regrouped(n, a, b, ab, n / a, n % a, n / a / b, n / a % b);
    QuotientIs(n, ab, n / a / b, a * (n / a % b) + n % a);
  }

  lemma Scaled(n: nat, b: nat, s: nat, bs: nat)
    requires b >= 1 && s >= 1 && bs == b * s && bs >= 1
    ensures n * s / bs == n / b && n * s % bs == (n % b) * s
  {
    var (q, r) := (n / b, n % b);
    DivMod(n, b);
    MulAdd(s, b * q, r);
    Swap(s, b, q);
    Swap(b, s, 0);
    Swap(s, r, 0);
    Swap(s, n, 0);
    assert n * s == bs * q + r * s;
    MulSub(s, b, r);
    MulGrows(s, b - r);
    assert 0 <= r * s < bs by {
      if r >= 1 {
        MulGrows(s, r);
      }
    }
    QuotientIs(n * s, bs, q, r * s);
  }

  // ----- Shifts and masks -----

  lemma {:induction false} Pow2Adds(a: nat, b: nat)
    ensures Pow2(a + b) == Pow2(a) * Pow2(b)
  {
    if a > 0 {
      Pow2Adds(a - 1, b);
      Swap(2, Pow2(a - 1), Pow2(b));
    }
  }

  lemma LowIsSmall(n: nat, k: nat)
    ensures Low(n, k) < Pow2(k)
    ensures n == Shl(Shr(n, k), k) + Low(n, k)
  {
    hide Pow2;
    DivMod(n, Pow2(k));
    Swap(Pow2(k), n / Pow2(k), 0);
  }

  /** The k low bits of an appended value are the value, and the rest is what was there. */
  lemma Appended(n: nat, value: nat, k: nat)
    requires value < Pow2(k)
    ensures Shr(Shl(n, k) + value, k) == n
    ensures Low(Shl(n, k) + value, k) == value
  {
    hide Pow2;
    Swap(n, Pow2(k), 0);
    QuotientIs(n * Pow2(k) + value, Pow2(k), n, value);
  }

  lemma ShiftTwice(n: nat, a: nat, b: nat)
    ensures Shr(Shr(n, a), b) == Shr(n, a + b)
    ensures Low(n, a + b) == Shl(Low(Shr(n, a), b), a) + Low(n, a)
  {
    hide Pow2;
    Pow2Adds(a, b);
    Nested(n, Pow2(a), Pow2(b), Pow2(a + b));
    Swap(Pow2(a), n / Pow2(a) % Pow2(b), 0);
  }

  /** Masking to a + b bits does not touch the lower a of them, nor the b above those. */
  lemma MaskKeeps(n: nat, a: nat, b: nat)
    ensures Low(Low(n, a + b), a) == Low(n, a)
    ensures Shr(Low(n, a + b), a) == Low(Shr(n, a), b)
  {
    hide Pow2, Shl, Shr, Low;
    ShiftTwice(n, a, b);
    LowIsSmall(n, a);
    Appended(Low(Shr(n, a), b), Low(n, a), a);
  }

  /** size bits above the lowest low ones survive a mask of width bits. */
  lemma WindowOfMask(n: nat, width: nat, low: nat, size: nat)
    requires low + size <= width
    ensures Low(Shr(Low(n, width), low), size) == Low(Shr(n, low), size)
  {
    hide Pow2, Shl, Shr, Low;
    MaskKeeps(n, low, width - low);
    MaskKeeps(Shr(n, low), size, width - low - size);
  }

  /** Masking before appending k bits is masking after, as far as the mask sees. */
  lemma MaskBeforeAppend(n: nat, value: nat, k: nat, width: nat)
    requires value < Pow2(k) && k <= width
    ensures Low(Shl(Low(n, width), k) + value, width) == Low(Shl(n, k) + value, width)
  {
    hide Pow2, Shl, Shr, Low;
    ShiftTwice(Shl(Low(n, width), k) + value, k, width - k);
    ShiftTwice(Shl(n, k) + value, k, width - k);
    Appended(n, value, k);
    Appended(Low(n, width), value, k);
    MaskKeeps(n, width - k, k);
  }

  lemma ShlBits(n: nat, bits: nat, more: nat)
    ensures Low(Shl(n, more), bits + more) == Shl(Low(n, bits), more)
    ensures Shr(Shl(n, more), bits + more) == Shr(n, bits)
  {
    hide Pow2;
    Pow2Adds(bits, more);
    Scaled(n, Pow2(bits), Pow2(more), Pow2(bits + more));
  }

  lemma ShlIsZero(n: nat, k: nat)
    ensures Shl(n, k) == 0 <==> n == 0
  {
    hide Pow2;
    if n >= 1 {
      Swap(n, Pow2(k), 0);
      MulGrows(Pow2(k), n);
    }
  }

  // ----- Values and digits -----

  lemma Fits(n: nat, top: nat, k: nat)
    requires n < Pow2(top + k)
    ensures Shr(n, k) < Pow2(top)
  {
    hide Pow2;
    Pow2Adds(k, top);
    var p := Pow2(k);
    DivMod(n, p);
    if n / p >= Pow2(top) {
      MulSub(p, n / p, Pow2(top));
      MulGrowsOrZero(p, n / p - Pow2(top));
    }
  }

  lemma AppendFits(n: nat, value: nat, top: nat, k: nat)
    requires n < Pow2(top) && value < Pow2(k)
    ensures Shl(n, k) + value < Pow2(top + k)
  {
    hide Pow2;
    Pow2Adds(top, k);
    var p := Pow2(k);
    Swap(Pow2(top), p, 0);
    Swap(n, p, 0);
    MulSub(p, Pow2(top), n);
    MulGrows(p, Pow2(top) - n);
  }

  lemma Product(count: nat, width: nat)
    requires count >= 1
    ensures count * width == (count - 1) * width + width
    ensures 0 <= (count - 1) * width
  {
  }

  lemma {:induction false} ValueIsBounded(data: seq<int>, width: nat)
    requires InRange(data, width)
    ensures 0 <= |data| * width && Value(data, width) < Pow2(|data| * width)
  {
    hide Pow2, Shl;
    if data == [] {
      Pow2Adds(0, 0);
    } else {
      var (front, last) := (data[..|data| - 1], data[|data| - 1]);
      ValueIsBounded(front, width);
      Product(|data|, width);
      AppendFits(Value(front, width), last, |front| * width, width);
    }
  }

  /** Digits writes the number that Value reads. */
  lemma {:induction false} ValueOfDigits(n: nat, count: nat, width: nat)
    requires 0 <= count * width && n < Pow2(count * width)
    ensures InRange(Digits(n, count, width), width)
    ensures Value(Digits(n, count, width), width) == n
    decreases count
  {
    hide Shl, Shr, Low;
    if count > 0 {
      hide Pow2;
      Product(count, width);
      Fits(n, (count - 1) * width, width);
      ValueOfDigits(Shr(n, width), count - 1, width);
      LowIsSmall(n, width);
      var front := Digits(Shr(n, width), count - 1, width);
      assert Digits(n, count, width)[..count - 1] == front;
    }
  }

  /** And every list of values is the digits of its value. */
  lemma {:induction false} DigitsOfValue(data: seq<int>, width: nat)
    requires InRange(data, width)
    ensures Digits(Value(data, width), |data|, width) == data
  {
    hide Pow2, Shl, Shr, Low;
    if data != [] {
      var (front, last) := (data[..|data| - 1], data[|data| - 1]);
      DigitsOfValue(front, width);
      Appended(Value(front, width), last, width);
      assert front + [last] == data;
    }
  }

  // ----- The program -----

  /** bits of the done bits read are pending, the others are in ret. */
  predicate Pending(n: nat, done: int, toBits: nat, bits: nat, ret: seq<int>) {
    && toBits * |ret| + bits == done
    && ret == Digits(Shr(n, bits), |ret|, toBits)
  }

  /** The next output value: the top toBits of what is pending. */
  lemma Emit(n: nat, done: int, fromBits: nat, toBits: nat, bits: nat, ret: seq<int>, acc: nat)
    requires toBits <= bits <= fromBits + toBits - 1
    requires Pending(n, done, toBits, bits, ret)
    requires acc == Low(n, fromBits + toBits - 1)
    ensures Pending(n, done, toBits, bits - toBits, ret + [Low(Shr(acc, bits - toBits), toBits)])
  {
    hide Pow2, Shl, Shr, Low;
    WindowOfMask(n, fromBits + toBits - 1, bits - toBits, toBits);
    ShiftTwice(n, bits - toBits, toBits);
    MulAdd(toBits, |ret|, 1);
  }

  /** Taking one more value in: nothing emitted so far changes. */
  lemma Take(n: nat, value: nat, done: int, fromBits: nat, toBits: nat, bits: nat, ret: seq<int>)
    requires value < Pow2(fromBits)
    requires Pending(n, done, toBits, bits, ret)
    ensures Pending(Shl(n, fromBits) + value, done + fromBits, toBits, bits + fromBits, ret)
  {
    hide Pow2, Shl, Shr, Low;
    Appended(n, value, fromBits);
    ShiftTwice(Shl(n, fromBits) + value, fromBits, bits);
  }

  /** The padding value: what is left, shifted up to a whole value. */
  lemma PadOut(n: nat, width: nat, toBits: nat, bits: nat, acc: nat)
    requires bits < toBits && bits <= width && acc == Low(n, width)
    ensures Low(Shl(acc, toBits - bits), toBits) == Low(Shl(n, toBits - bits), toBits)
    ensures Low(Shl(n, toBits - bits), toBits) == 0 <==> Low(n, bits) == 0
    ensures Shr(Shl(n, toBits - bits), toBits) == Shr(n, bits)
  {
    hide Pow2, Shl, Shr, Low;
    ShlBits(n, bits, toBits - bits);
    ShlBits(acc, bits, toBits - bits);
    MaskKeeps(n, bits, width - bits);
    ShlIsZero(Low(n, bits), toBits - bits);
  }

  lemma NextPrefix(data: seq<Int32>, i: nat, width: nat)
    requires i < |data| && InRange(data[..i], width) && 0 <= data[i] < Pow2(width)
    ensures InRange(data[..i + 1], width)
    ensures Value(data[..i + 1], width) == Shl(Value(data[..i], width), width) + data[i]
  {
    hide Pow2, Shl;
    assert data[..i + 1][..i] == data[..i];
  }

  lemma SplitTotal(total: int, toBits: nat, count: nat, bits: nat)
    requires bits < toBits && toBits * count + bits == total
    ensures 0 <= total && total / toBits == count && total % toBits == bits
  {
    MulGrowsOrZero(toBits, count);
    QuotientIs(total, toBits, count, bits);
  }

  lemma SmallShift(value: nat, k: nat)
    ensures Shr(value, k) == 0 <==> value < Pow2(k)
  {
    hide Pow2;
    DivMod(value, Pow2(k));
    if Shr(value, k) >= 1 {
      MulGrows(Pow2(k), Shr(value, k));
    }
  }

  /** The program is Regroup. */
  method ConvertBits(data: seq<Int32>, fromBits: nat, toBits: nat, pad: bool) returns (result: Outcome)
    requires Widths(fromBits, toBits)
    ensures result == Regroup(data, fromBits, toBits, pad)
  {
    hide Pow2, Shl, Shr, Low, Digits, Value;
    var acc: nat, bits: nat := 0, 0;
    var ret: seq<int> := [];
    ghost var n: nat, done: int := 0, 0;
    Start(data, fromBits, toBits);
    for i := 0 to |data|
      invariant InRange(data[..i], fromBits) && n == Value(data[..i], fromBits)
      invariant bits < toBits && acc == Low(n, fromBits + toBits - 1)
      invariant done == i * fromBits && Pending(n, done, toBits, bits, ret)
    {
      var value := data[i];
      if value < 0 {
        return InvalidData;
      }
      SmallShift(value, fromBits);
      if Shr(value, fromBits) != 0 {
        return InvalidData;
      }
      NextPrefix(data, i, fromBits);
      MaskBeforeAppend(n, value, fromBits, fromBits + toBits - 1);
      Take(n, value, done, fromBits, toBits, bits, ret);
      acc := Low(Shl(acc, fromBits) + value, fromBits + toBits - 1);
      n, done := Shl(n, fromBits) + value, done + fromBits;
      Product(i + 1, fromBits);
      bits := bits + fromBits;
      while bits >= toBits
        invariant bits <= fromBits + toBits - 1
        invariant Pending(n, done, toBits, bits, ret)
      {
        Emit(n, done, fromBits, toBits, bits, ret, acc);
        bits := bits - toBits;
        ret := ret + [Low(Shr(acc, bits), toBits)];
      }
    }
    assert data[..|data|] == data;
    SplitTotal(done, toBits, |ret|, bits);
    PadOut(n, fromBits + toBits - 1, toBits, bits, acc);
    Finish(n, toBits, bits, ret);
    if pad {
      if bits > 0 {
        ret := ret + [Low(Shl(acc, toBits - bits), toBits)];
      }
    } else if bits >= fromBits || Low(Shl(acc, toBits - bits), toBits) != 0 {
      return InvalidPadding;
    }
    return Values(ret);
  }

  lemma Start(data: seq<int>, fromBits: nat, toBits: nat)
    requires Widths(fromBits, toBits)
    ensures InRange(data[..0], fromBits) && Value(data[..0], fromBits) == 0
    ensures Low(0, fromBits + toBits - 1) == 0
    ensures Pending(0, 0 * fromBits, toBits, 0, [])
  {
    hide Pow2;
  }

  lemma Finish(n: nat, toBits: nat, bits: nat, ret: seq<int>)
    requires bits < toBits && ret == Digits(Shr(n, bits), |ret|, toBits)
    requires Shr(Shl(n, toBits - bits), toBits) == Shr(n, bits)
    ensures bits == 0 ==> ret == Digits(n, |ret|, toBits)
    ensures Digits(Shl(n, toBits - bits), |ret| + 1, toBits) == ret + [Low(Shl(n, toBits - bits), toBits)]
  {
    hide Shl, Low;
  }

  // ----- Round trips -----

  lemma DigitsAreInRange(n: nat, count: nat, width: nat, top: nat)
    requires n < Pow2(top) && top == count * width
    ensures InRange(Digits(n, count, width), width)
    ensures Value(Digits(n, count, width), width) == n
  {
    ValueOfDigits(n, count, width);
  }

  /** Cut into smaller values with padding, any bytes come back from the unpadded direction. */
  lemma PaddedIsRecovered(data: seq<int>, big: nat, small: nat)
    requires Widths(big, small) && Widths(small, big) && small <= big
    requires InRange(data, big)
    ensures Regroup(data, big, small, true).Values?
    ensures Regroup(Regroup(data, big, small, true).values, small, big, false) == Values(data)
  {
    hide Pow2, Shl, Shr, Low, Digits, Value;
    var n, total := Value(data, big), |data| * big;
    ValueIsBounded(data, big);
    var (count, bits) := (total / small, total % small);
    DivMod(total, small);
    var pad := if bits == 0 then 0 else small - bits;
    var m := if bits == 0 then count else count + 1;
    MulAdd(small, count, 1);
    Swap(small, m, 0);
    assert m * small == total + pad;
    var shifted := if bits == 0 then n else Shl(n, pad);
    var symbols := Regroup(data, big, small, true).values;
    assert symbols == Digits(shifted, m, small);
    Unshift(n, pad, total);
    ShlZero(n);
    DigitsAreInRange(shifted, m, small, total + pad);
    assert Value(symbols, small) == shifted;
    Swap(big, |data|, 0);
    SplitTotal(total + pad, big, |data|, pad);
    DigitsOfValue(data, big);
  }

  lemma ShlZero(n: nat)
    ensures Shl(n, 0) == n && Low(n, 0) == 0 && Shr(n, 0) == n
  {
    Pow2Adds(0, 0);
  }

  lemma Unshift(n: nat, pad: nat, total: nat)
    requires n < Pow2(total)
    ensures Shl(n, pad) < Pow2(total + pad)
    ensures Low(Shl(n, pad), pad) == 0 && Shr(Shl(n, pad), pad) == n
  {
    hide Shl, Shr, Low;
    AppendFits(n, 0, total, pad);
    Appended(n, 0, pad);
  }

  /** Whatever the unpadded direction accepts is what its result pads back to. */
  lemma AcceptedIsRecovered(symbols: seq<int>, small: nat, big: nat)
    requires Widths(small, big) && Widths(big, small)
    requires Regroup(symbols, small, big, false).Values?
    ensures InRange(Regroup(symbols, small, big, false).values, big)
    ensures Regroup(Regroup(symbols, small, big, false).values, big, small, true) == Values(symbols)
  {
    hide Pow2, Shl, Shr, Low, Digits, Value;
    var n, total := Value(symbols, small), |symbols| * small;
    ValueIsBounded(symbols, small);
    var (count, bits) := (total / big, total % big);
    DivMod(total, big);
    assert bits < small && Low(n, bits) == 0;
    var data := Regroup(symbols, small, big, false).values;
    assert data == Digits(Shr(n, bits), count, big);
    Swap(big, count, 0);
    Fits(n, count * big, bits);
    DigitsAreInRange(Shr(n, bits), count, big, count * big);
    assert Value(data, big) == Shr(n, bits);
    LowIsSmall(n, bits);
    ShlZero(n);
    assert Shl(Shr(n, bits), bits) == n;
    Swap(small, |symbols|, 0);
    if bits == 0 {
      SplitTotal(total, small, |symbols|, 0);
    } else {
      MulSub(small, |symbols|, 1);
      SplitTotal(total - bits, small, |symbols| - 1, small - bits);
      assert small - (small - bits) == bits;
    }
    DigitsOfValue(symbols, small);
  }

  /** The unpadded direction loses nothing: two inputs with one result are one input. */
  lemma UnpaddedIsInjective(a: seq<int>, b: seq<int>, small: nat, big: nat)
    requires Widths(small, big) && Widths(big, small)
    requires Regroup(a, small, big, false).Values?
    requires Regroup(a, small, big, false) == Regroup(b, small, big, false)
    ensures a == b
  {
    AcceptedIsRecovered(a, small, big);
    AcceptedIsRecovered(b, small, big);
  }
}
