/**
  The checksum as BIP-173 defines it: the symbols are the coefficients of a polynomial over GF(32),
  and the checksum is its remainder on division by x^6 + 29x^5 + 22x^4 + 20x^3 + 21x^2 + 29x + 18.

  The division below is the one from school, one coefficient at a time, with the arithmetic of
  GF(32) written out; the program's shifts and its table of generators are an implementation of it
  (PolymodIsRemainder).
 */
module Bech32Polynomial {
  import opened Bech32Checksum

  /** An element of GF(32): a polynomial in a over GF(2), modulo a^5 + a^3 + 1. */
  type Element = bv5

  function Plus(x: Element, y: Element): Element { x ^ y }

  /** Times a: a^5 is a^3 + 1, that is 9. */
  function Doubled(x: Element): Element { if x < 16 then x << 1 else (x << 1) ^ 9 }

  function WhenSet(y: Element, i: bv3, x: Element): Element
    requires i < 5
  {
    if (y >> i) & 1 == 1 then x else 0
  }

  /** Shift and add. */
  function Times(x: Element, y: Element): Element {
    var (x2, x4, x8, x16) := (Doubled(x), Doubled(Doubled(x)), Doubled(Doubled(Doubled(x))),
                              Doubled(Doubled(Doubled(Doubled(x)))));
    WhenSet(y, 0, x) ^ WhenSet(y, 1, x2) ^ WhenSet(y, 2, x4) ^ WhenSet(y, 3, x8) ^ WhenSet(y, 4, x16)
  }

  /** The divisor without its leading coefficient, lowest coefficient first. */
  const DIVISOR: seq<Element> := [18, 29, 21, 20, 22, 29]

  /** The six coefficients in a 30-bit checksum, lowest first. */
  function Coefficient(w: Word, k: nat): Element
    requires k < 6
  {
    if k == 0 then Lowest(w)
    else if k == 1 then Lowest(w >> 5)
    else if k == 2 then Lowest(w >> 10)
    else if k == 3 then Lowest(w >> 15)
    else if k == 4 then Lowest(w >> 20)
    else Lowest(w >> 25)
  }

  function Lowest(w: Word): Element { (w & 31) as bv5 }

  /** r times x plus v, less the multiple of the divisor that takes the new leading coefficient away. */
  function NextRemainder(r: seq<Element>, v: Word): (n: seq<Element>)
    requires |r| == 6
    ensures |n| == 6
  {
    seq(6, k requires 0 <= k < 6 =>
      Plus(Plus(if k == 0 then 0 else r[k - 1], Times(r[5], DIVISOR[k])), Coefficient(v, k)))
  }

  /** The remainder of the polynomial with leading coefficient 1 and then these, highest first. */
  function Remainder(values: seq<Word>): (r: seq<Element>)
    ensures |r| == 6
  {
    if values == [] then [1, 0, 0, 0, 0, 0]
    else NextRemainder(Remainder(values[..|values| - 1]), values[|values| - 1])
  }

  // ----- One step -----

  function Coefficients(w: Word): (c: seq<Element>)
    ensures |c| == 6
  {
    seq(6, k requires 0 <= k < 6 => Coefficient(w, k))
  }

  lemma CoefficientOfXor(a: Word, b: Word, k: nat)
    requires k < 6
    ensures Coefficient(Xor(a, b), k) == Plus(Coefficient(a, k), Coefficient(b, k))
  {
    hide Xor, Plus, Lowest;
    LowestOfXor(a, b);
    By5OfXor(a, b);
    By10OfXor(a, b);
    By15OfXor(a, b);
    By20OfXor(a, b);
    By25OfXor(a, b);
  }

  lemma LowestOfXor(a: Word, b: Word)
    ensures Lowest(Xor(a, b)) == Plus(Lowest(a), Lowest(b))
  {
  }

  lemma By5OfXor(a: Word, b: Word)
    ensures Lowest(Xor(a, b) >> 5) == Plus(Lowest(a >> 5), Lowest(b >> 5))
  {
  }

  lemma By10OfXor(a: Word, b: Word)
    ensures Lowest(Xor(a, b) >> 10) == Plus(Lowest(a >> 10), Lowest(b >> 10))
  {
  }

  lemma By15OfXor(a: Word, b: Word)
    ensures Lowest(Xor(a, b) >> 15) == Plus(Lowest(a >> 15), Lowest(b >> 15))
  {
  }

  lemma By20OfXor(a: Word, b: Word)
    ensures Lowest(Xor(a, b) >> 20) == Plus(Lowest(a >> 20), Lowest(b >> 20))
  {
  }

  lemma By25OfXor(a: Word, b: Word)
    ensures Lowest(Xor(a, b) >> 25) == Plus(Lowest(a >> 25), Lowest(b >> 25))
  {
  }

  lemma CoefficientOfUp5(chk: Word, k: nat)
    requires k < 6
    ensures Coefficient(Up5(chk), k) == if k == 0 then 0 else Coefficient(chk, k - 1)
  {
  }

  /** The generators selected by five bits, as a product with the divisor. */
  lemma SelectedByBits(top: Element, k: nat)
    requires k < 6
    ensures var s := Xor(Xor(Xor(Xor(When(top & 1 == 1, 0x3b6a57b2), When((top >> 1) & 1 == 1, 0x26508e6d)),
      When((top >> 2) & 1 == 1, 0x1ea119fa)), When((top >> 3) & 1 == 1, 0x3d4233dd)),
      When((top >> 4) & 1 == 1, 0x2a1462b3));
      Coefficient(s, k) == Times(top, DIVISOR[k])
  {
  }

  lemma TopBits(chk: Word)
    ensures var (top, t) := (Shr25(chk), Coefficient(chk, 5));
      && (top & 1 == 1) == (t & 1 == 1) && ((top >> 1) & 1 == 1) == ((t >> 1) & 1 == 1)
      && ((top >> 2) & 1 == 1) == ((t >> 2) & 1 == 1) && ((top >> 3) & 1 == 1) == ((t >> 3) & 1 == 1)
      && ((top >> 4) & 1 == 1) == ((t >> 4) & 1 == 1)
  {
  }

  lemma SelectedIsProduct(chk: Word, k: nat)
    requires k < 6
    ensures Coefficient(Selected(Shr25(chk), 5), k) == Times(Coefficient(chk, 5), DIVISOR[k])
  {
    hide Coefficient, Times, Selected, IsOdd, Xor, When, Shr25;
    SelectedIs(Shr25(chk));
    OddIs(Shr25(chk));
    TopBits(chk);
    SelectedByBits(Coefficient(chk, 5), k);
  }

  lemma StepDivides(chk: Word, v: Word)
    ensures Coefficients(Step(chk, v)) == NextRemainder(Coefficients(chk), v)
  {
    hide Coefficient, Times, Selected, Xor, Shr25, Up5, Plus;
    forall k | 0 <= k < 6 ensures Coefficients(Step(chk, v))[k] == NextRemainder(Coefficients(chk), v)[k] {
      CoefficientOfXor(Mix(chk), v, k);
      CoefficientOfXor(Up5(chk), Selected(Shr25(chk), 5), k);
      CoefficientOfUp5(chk, k);
      SelectedIsProduct(chk, k);
    }
  }

  lemma StartIsOne()
    ensures Coefficients(1) == [1, 0, 0, 0, 0, 0]
  {
  }

  /** The program's checksum packs the coefficients of the remainder. */
  lemma {:induction false} PolymodIsRemainder(values: seq<Word>)
    ensures Coefficients(Polymod(values)) == Remainder(values)
  {
    hide Step, Coefficients, NextRemainder;
    if values == [] {
      StartIsOne();
    } else {
      var n := |values| - 1;
      PolymodIsRemainder(values[..n]);
      StepDivides(Polymod(values[..n]), values[n]);
    }
  }

  lemma CoefficientsDetermine(a: Word, b: Word)
    requires Coefficients(a) == Coefficients(b)
    ensures a == b
  {
    SixParts(a, b, Coefficients(a)[0], Coefficients(a)[1], Coefficients(a)[2], Coefficients(a)[3], Coefficients(a)[4],
             Coefficients(a)[5]);
  }

  lemma SixParts(a: Word, b: Word, c0: Element, c1: Element, c2: Element, c3: Element, c4: Element, c5: Element)
    requires Coefficient(a, 0) == c0 == Coefficient(b, 0) && Coefficient(a, 1) == c1 == Coefficient(b, 1)
    requires Coefficient(a, 2) == c2 == Coefficient(b, 2) && Coefficient(a, 3) == c3 == Coefficient(b, 3)
    requires Coefficient(a, 4) == c4 == Coefficient(b, 4) && Coefficient(a, 5) == c5 == Coefficient(b, 5)
    ensures a == b
  {
  }
}
