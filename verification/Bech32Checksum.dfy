/**
  bech32Polymod of the web client: the checksum of BIP-173 and BIP-350 addresses.

  One step is linear over exclusive or and, on the 30 bits it works with, one-to-one. Six steps
  from zero pack six symbols side by side. Together these say what the checksum is for: two
  equally long strings that differ only within six neighbouring symbols never share a checksum
  (BurstIsDetected), and any string has exactly one six-symbol ending for each target
  (EndingExists, EndingIsUnique).
 */
module Bech32Checksum {
  /** 30 bits: the checksum never leaves them, since the top five are cut before every shift. */
  type Word = bv30

  const GENERATORS: seq<Word> := [0x3b6a57b2, 0x26508e6d, 0x1ea119fa, 0x3d4233dd, 0x2a1462b3]

  function Shr25(chk: Word): Word { chk >> 25 }

  function IsOdd(top: Word, i: nat): bool
    requires i < 5
  {
    (top >> (i as bv6)) & 1 == 1
  }

  /** The generators selected by the bits of top below bit i. */
  function Selected(top: Word, i: nat): Word
    requires i <= 5
  {
    if i == 0 then 0
    else if IsOdd(top, i - 1) then Xor(Selected(top, i - 1), GENERATORS[i - 1])
    else Selected(top, i - 1)
  }

  function Up5(chk: Word): Word { (chk & 0x1ffffff) << 5 }

  function Xor(a: Word, b: Word): Word { a ^ b }

  function Mix(chk: Word): Word { Xor(Up5(chk), Selected(Shr25(chk), 5)) }

  function Step(chk: Word, value: Word): Word { Xor(Mix(chk), value) }

  function Fold(chk: Word, values: seq<Word>): Word {
    if values == [] then chk else Step(Fold(chk, values[..|values| - 1]), values[|values| - 1])
  }

  function Polymod(values: seq<Word>): Word { Fold(1, values) }

  // ----- The program -----

  method Bech32Polymod(values: seq<Word>) returns (chk: Word)
    ensures chk == Polymod(values)
  {
    hide Xor, Up5, Shr25, IsOdd;
    chk := 1;
    for n := 0 to |values|
      invariant chk == Fold(1, values[..n])
    {
      var value := values[n];
      var top := Shr25(chk);
      ghost var before := Up5(chk);
      chk := Xor(Up5(chk), value);
      XorZero(chk);
      for i := 0 to 5
        invariant chk == Xor(Xor(before, value), Selected(top, i))
      {
        XorAssociates(Xor(before, value), Selected(top, i), GENERATORS[i]);
        if IsOdd(top, i) {
          chk := Xor(chk, GENERATORS[i]);
        }
      }
      XorSwaps(before, value, Selected(top, 5));
      assert values[..n + 1][..n] == values[..n];
    }
    assert values[..|values|] == values;
  }

  lemma XorZero(a: Word)
    ensures Xor(a, 0) == a && Xor(0, a) == a && Xor(a, a) == 0
  {
  }

  lemma XorAssociates(a: Word, b: Word, c: Word)
    ensures Xor(Xor(a, b), c) == Xor(a, Xor(b, c))
  {
  }

  lemma XorSwaps(a: Word, b: Word, c: Word)
    ensures Xor(Xor(a, b), c) == Xor(Xor(a, c), b)
  {
    hide Xor;
    XorAssociates(a, b, c);
    XorAssociates(a, c, b);
    XorCommutes(b, c);
  }

  lemma XorCommutes(a: Word, b: Word)
    ensures Xor(a, b) == Xor(b, a)
  {
  }

  // ----- Linear and one-to-one -----

  lemma XorPairs(a: Word, b: Word, c: Word, d: Word)
    ensures Xor(Xor(a, b), Xor(c, d)) == Xor(Xor(a, c), Xor(b, d))
  {
    hide Xor;
    XorAssociates(Xor(a, b), c, d);
    XorSwaps(a, b, c);
    XorAssociates(Xor(a, c), b, d);
  }

  lemma Up5IsLinear(a: Word, b: Word)
    ensures Up5(Xor(a, b)) == Xor(Up5(a), Up5(b))
  {
  }

  lemma Shr25IsLinear(a: Word, b: Word)
    ensures Shr25(Xor(a, b)) == Xor(Shr25(a), Shr25(b))
  {
  }

  lemma OddIsLinear(a: Word, b: Word, i: nat)
    requires i < 5
    ensures IsOdd(Xor(a, b), i) == (IsOdd(a, i) != IsOdd(b, i))
  {
    OddAt(a, b, i as bv6);
  }

  lemma OddAt(a: Word, b: Word, i: bv6)
    requires i < 30
    ensures ((a ^ b) >> i) & 1 == 1 <==> ((a >> i) & 1 == 1) != ((b >> i) & 1 == 1)
  {
  }

  lemma {:induction false} SelectedIsLinear(a: Word, b: Word, i: nat)
    requires i <= 5
    ensures Selected(Xor(a, b), i) == Xor(Selected(a, i), Selected(b, i))
  {
    hide Xor, IsOdd;
    XorZero(0);
    if i > 0 {
      SelectedIsLinear(a, b, i - 1);
      OddIsLinear(a, b, i - 1);
      var (s, t, g) := (Selected(a, i - 1), Selected(b, i - 1), GENERATORS[i - 1]);
      XorPairs(s, g, t, g);
      XorZero(g);
      XorZero(Xor(s, t));
      XorSwaps(s, g, t);
      XorAssociates(s, t, g);
    }
  }

  lemma MixIsLinear(a: Word, b: Word)
    ensures Mix(Xor(a, b)) == Xor(Mix(a), Mix(b))
  {
    hide Xor, Up5, Shr25, Selected;
    Up5IsLinear(a, b);
    Shr25IsLinear(a, b);
    SelectedIsLinear(Shr25(a), Shr25(b), 5);
    XorPairs(Up5(a), Up5(b), Selected(Shr25(a), 5), Selected(Shr25(b), 5));
  }

  /** Folding two strings of one length side by side folds their difference. */
  function Difference(a: seq<Word>, b: seq<Word>): (d: seq<Word>)
    requires |a| == |b|
  {
    seq(|a|, i requires 0 <= i < |a| => Xor(a[i], b[i]))
  }

  lemma {:induction false} FoldIsLinear(p: Word, q: Word, a: seq<Word>, b: seq<Word>)
    requires |a| == |b|
    ensures Xor(Fold(p, a), Fold(q, b)) == Fold(Xor(p, q), Difference(a, b))
    decreases |a|
  {
    hide Xor, Mix;
    if a != [] {
      var n := |a| - 1;
      FoldIsLinear(p, q, a[..n], b[..n]);
      assert Difference(a, b)[..n] == Difference(a[..n], b[..n]);
      MixIsLinear(Fold(p, a[..n]), Fold(q, b[..n]));
      XorPairs(Mix(Fold(p, a[..n])), a[n], Mix(Fold(q, b[..n])), b[n]);
    }
  }

  /** The low five bits of the generators are independent, so they give the cut bits away. */
  lemma SelectedGivesTopAway(top: Word)
    requires top < 32 && Selected(top, 5) & 31 == 0
    ensures top == 0
  {
    hide IsOdd, Xor, Selected;
    SelectedIs(top);
    IndependentBits(IsOdd(top, 0), IsOdd(top, 1), IsOdd(top, 2), IsOdd(top, 3), IsOdd(top, 4));
    NoBitIsZero(top);
  }

  function When(c: bool, g: Word): Word { if c then g else 0 }

  lemma SelectedIs(top: Word)
    ensures Selected(top, 5) == Xor(Xor(Xor(Xor(When(IsOdd(top, 0), 0x3b6a57b2),
      When(IsOdd(top, 1), 0x26508e6d)), When(IsOdd(top, 2), 0x1ea119fa)),
      When(IsOdd(top, 3), 0x3d4233dd)), When(IsOdd(top, 4), 0x2a1462b3))
  {
    hide IsOdd, Xor, Selected;
    SelectedNext(top, 0);
    SelectedNext(top, 1);
    SelectedNext(top, 2);
    SelectedNext(top, 3);
    SelectedNext(top, 4);
    XorZero(When(IsOdd(top, 0), 0x3b6a57b2));
    assert Selected(top, 0) == 0 by { SelectedNone(top); }
  }

  lemma SelectedNone(top: Word)
    ensures Selected(top, 0) == 0
  {
  }

  lemma SelectedNext(top: Word, i: nat)
    requires i < 5
    ensures Selected(top, i + 1) == Xor(Selected(top, i), When(IsOdd(top, i), GENERATORS[i]))
  {
    hide IsOdd, Xor;
    XorZero(Selected(top, i));
  }

  lemma IndependentBits(a: bool, b: bool, c: bool, d: bool, e: bool)
    requires Xor(Xor(Xor(Xor(When(a, 0x3b6a57b2), When(b, 0x26508e6d)), When(c, 0x1ea119fa)),
      When(d, 0x3d4233dd)), When(e, 0x2a1462b3)) & 31 == 0
    ensures !a && !b && !c && !d && !e
  {
  }

  lemma NoBitIsZero(top: Word)
    requires top < 32
    requires !IsOdd(top, 0) && !IsOdd(top, 1) && !IsOdd(top, 2) && !IsOdd(top, 3) && !IsOdd(top, 4)
    ensures top == 0
  {
    OddIs(top);
    Below32(top);
  }

  lemma OddIs(top: Word)
    ensures IsOdd(top, 0) == (top & 1 == 1) && IsOdd(top, 1) == ((top >> 1) & 1 == 1)
    ensures IsOdd(top, 2) == ((top >> 2) & 1 == 1) && IsOdd(top, 3) == ((top >> 3) & 1 == 1)
    ensures IsOdd(top, 4) == ((top >> 4) & 1 == 1)
  {
  }

  lemma Below32(top: Word)
    requires top < 32 && top & 1 != 1 && (top >> 1) & 1 != 1 && (top >> 2) & 1 != 1
    requires (top >> 3) & 1 != 1 && (top >> 4) & 1 != 1
    ensures top == 0
  {
  }

  lemma MixKernel(a: Word)
    requires Mix(a) == 0
    ensures a == 0
  {
    hide Selected;
    LowBits(a, Selected(Shr25(a), 5));
    SelectedGivesTopAway(Shr25(a));
    SelectedOfZero();
    NothingLeft(a);
  }

  lemma LowBits(a: Word, s: Word)
    requires Xor(Up5(a), s) == 0
    ensures s & 31 == 0 && Shr25(a) < 32
  {
  }

  lemma SelectedOfZero()
    ensures Selected(0, 5) == 0
  {
    SelectedIs(0);
    OddIs(0);
  }

  lemma NothingLeft(a: Word)
    requires Shr25(a) == 0 && Xor(Up5(a), 0) == 0
    ensures a == 0
  {
  }

  lemma MixIsOneToOne(a: Word, b: Word)
    requires Mix(a) == Mix(b)
    ensures a == b
  {
    hide Mix, Xor;
    MixIsLinear(a, b);
    XorZero(Mix(a));
    MixKernel(Xor(a, b));
    XorCancels(a, b);
  }

  lemma XorCancels(a: Word, b: Word)
    ensures Xor(a, b) == 0 <==> a == b
    ensures Xor(Xor(a, b), b) == a
  {
    hide Xor;
    XorAssociates(a, b, b);
    XorZero(a);
    XorZero(b);
  }

  lemma {:induction false} FoldIsOneToOne(p: Word, q: Word, values: seq<Word>)
    requires Fold(p, values) == Fold(q, values)
    ensures p == q
    decreases |values|
  {
    hide Mix, Xor;
    if values != [] {
      var (front, last) := (values[..|values| - 1], values[|values| - 1]);
      XorCancels(Mix(Fold(p, front)), last);
      XorCancels(Mix(Fold(q, front)), last);
      MixIsOneToOne(Fold(p, front), Fold(q, front));
      FoldIsOneToOne(p, q, front);
    }
  }

  lemma {:induction false} FoldAppends(p: Word, a: seq<Word>, b: seq<Word>)
    ensures Fold(p, a + b) == Fold(Fold(p, a), b)
    decreases |b|
  {
    hide Step;
    if b == [] {
      assert a + b == a;
    } else {
      FoldAppends(p, a, b[..|b| - 1]);
      assert (a + b)[..|a + b| - 1] == a + b[..|b| - 1];
    }
  }

  // ----- Six symbols side by side -----

  predicate IsSymbol(value: Word) { value < 32 }

  predicate Symbols(values: seq<Word>) {
    forall i :: 0 <= i < |values| ==> IsSymbol(values[i])
  }

  function Low5(c: Word): Word { c & 31 }

  function Shr5(c: Word): Word { c >> 5 }

  function Pack(d: seq<Word>): Word {
    if d == [] then 0 else Xor(Up5(Pack(d[..|d| - 1])), d[|d| - 1])
  }

  /** c is at most k symbols wide. */
  predicate Fits(c: Word, k: nat) {
    if k == 0 then c < 1 else if k == 1 then c < 0x20 else if k == 2 then c < 0x400
    else if k == 3 then c < 0x8000 else if k == 4 then c < 0x10_0000 else if k == 5 then c < 0x200_0000
    else true
  }

  lemma PackedStep(c: Word, value: Word, k: nat)
    requires k <= 5 && Fits(c, k) && IsSymbol(value)
    ensures Fits(Xor(Up5(c), value), k + 1)
    ensures Low5(Xor(Up5(c), value)) == value && Shr5(Xor(Up5(c), value)) == c
  {
    hide Xor, Up5, Fits, IsSymbol, Low5, Shr5;
    PackedFits(c, value, k);
    FitsIsSmall(c, k);
    PackedParts(c, value);
  }

  lemma PackedFits(c: Word, value: Word, k: nat)
    requires k <= 5 && Fits(c, k) && IsSymbol(value)
    ensures Fits(Xor(Up5(c), value), k + 1)
  {
  }

  lemma FitsIsSmall(c: Word, k: nat)
    requires k <= 5 && Fits(c, k)
    ensures Fits(c, 5) && (k == 0 ==> c == 0)
  {
  }

  lemma PackedParts(c: Word, value: Word)
    requires Fits(c, 5) && IsSymbol(value)
    ensures Low5(Xor(Up5(c), value)) == value && Shr5(Xor(Up5(c), value)) == c
  {
  }

  lemma MixOfSmall(c: Word, k: nat)
    requires k <= 5 && Fits(c, k)
    ensures Mix(c) == Up5(c)
  {
    hide Selected;
    assert Shr25(c) == 0;
    SelectedOfZero();
    XorZero(Up5(c));
  }

  lemma {:induction false} SixSymbolsPack(d: seq<Word>)
    requires Symbols(d) && |d| <= 6
    ensures Fold(0, d) == Pack(d) && Fits(Pack(d), |d|)
    decreases |d|
  {
    if d != [] {
      hide Xor, Up5, Mix, Fits, IsSymbol;
      var front := d[..|d| - 1];
      SixSymbolsPack(front);
      PackedStep(Pack(front), d[|d| - 1], |front|);
      MixOfSmall(Pack(front), |front|);
    }
  }

  lemma {:induction false} PackIsOneToOne(a: seq<Word>, b: seq<Word>)
    requires Symbols(a) && Symbols(b) && |a| == |b| <= 6
    requires Pack(a) == Pack(b)
    ensures a == b
    decreases |a|
  {
    hide Xor, Up5, Fits, IsSymbol, Low5, Shr5;
    if a != [] {
      var n := |a| - 1;
      SixSymbolsPack(a[..n]);
      SixSymbolsPack(b[..n]);
      PackedStep(Pack(a[..n]), a[n], n);
      PackedStep(Pack(b[..n]), b[n], n);
      PackIsOneToOne(a[..n], b[..n]);
      assert a == a[..n] + [a[n]] && b == b[..n] + [b[n]];
    }
  }

  function Unpack(c: Word, k: nat): (d: seq<Word>)
    ensures |d| == k
    decreases k
  {
    if k == 0 then [] else Unpack(Shr5(c), k - 1) + [Low5(c)]
  }

  lemma Repacked(c: Word, k: nat)
    requires 1 <= k <= 6 && Fits(c, k)
    ensures Xor(Up5(Shr5(c)), Low5(c)) == c && IsSymbol(Low5(c)) && Fits(Shr5(c), k - 1)
  {
  }

  lemma {:induction false} PackOfUnpack(c: Word, k: nat)
    requires k <= 6 && Fits(c, k)
    ensures Symbols(Unpack(c, k)) && Pack(Unpack(c, k)) == c
    decreases k
  {
    hide Xor, Up5, Fits, IsSymbol, Low5, Shr5;
    if k == 0 {
      FitsIsSmall(c, 0);
    } else {
      Repacked(c, k);
      PackOfUnpack(Shr5(c), k - 1);
      PackNext(Unpack(Shr5(c), k - 1), Low5(c));
    }
  }

  lemma PackNext(front: seq<Word>, last: Word)
    ensures Pack(front + [last]) == Xor(Up5(Pack(front)), last)
  {
    hide Xor, Up5;
    assert (front + [last])[..|front|] == front;
  }

  // ----- What the checksum is for -----

  /** Errors within six neighbouring symbols change the checksum. */
  lemma BurstIsDetected(before: seq<Word>, a: seq<Word>, b: seq<Word>, after: seq<Word>)
    requires Symbols(a) && Symbols(b) && |a| == |b| <= 6
    requires Polymod(before + a + after) == Polymod(before + b + after)
    ensures a == b
  {
    hide Fold, Pack;
    FoldAppends(1, before + a, after);
    FoldAppends(1, before + b, after);
    FoldAppends(1, before, a);
    FoldAppends(1, before, b);
    var p := Fold(1, before);
    FoldIsOneToOne(Fold(p, a), Fold(p, b), after);
    var zero := seq(|a|, i => 0 as Word);
    FoldFromZero(p, zero, a);
    FoldFromZero(p, zero, b);
    XorCancels(Fold(0, a), Fold(p, zero));
    XorCancels(Fold(0, b), Fold(p, zero));
    SixSymbolsPack(a);
    SixSymbolsPack(b);
    PackIsOneToOne(a, b);
  }

  lemma FoldFromZero(p: Word, zero: seq<Word>, d: seq<Word>)
    requires |zero| == |d| && forall i :: 0 <= i < |d| ==> zero[i] == 0
    ensures Fold(p, d) == Xor(Fold(0, d), Fold(p, zero))
  {
    hide Xor, Fold;
    FoldIsLinear(0, p, d, zero);
    XorZero(p);
    forall i | 0 <= i < |d| ensures Difference(d, zero)[i] == d[i] { XorZero(d[i]); }
    assert Difference(d, zero) == d;
  }

  /** The six symbols that give a text the wanted checksum. */
  function Ending(text: seq<Word>, target: Word): (e: seq<Word>)
    ensures |e| == 6
  {
    Unpack(Xor(target, Polymod(text + [0, 0, 0, 0, 0, 0])), 6)
  }

  lemma EndingExists(text: seq<Word>, target: Word)
    ensures Symbols(Ending(text, target))
    ensures Polymod(text + Ending(text, target)) == target
  {
    hide Fold, Pack, Unpack, Xor;
    var zero: seq<Word> := [0, 0, 0, 0, 0, 0];
    var e := Ending(text, target);
    PackOfUnpack(Xor(target, Polymod(text + zero)), 6);
    FoldAppends(1, text, e);
    FoldAppends(1, text, zero);
    FoldFromZero(Polymod(text), zero, e);
    SixSymbolsPack(e);
    XorCancels(target, Polymod(text + zero));
  }

  lemma EndingIsUnique(text: seq<Word>, target: Word, e: seq<Word>)
    requires Symbols(e) && |e| == 6 && Polymod(text + e) == target
    ensures e == Ending(text, target)
  {
    EndingExists(text, target);
    assert text + e + [] == text + e && text + Ending(text, target) + [] == text + Ending(text, target);
    BurstIsDetected(text, e, Ending(text, target), []);
  }
}
