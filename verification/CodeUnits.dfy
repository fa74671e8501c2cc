/**
  Numbers below 2^16, as the words the checksum works with.

  A number is put together from its four hexadecimal digits; going from a bit-vector to a number and
  back is then what it takes to go from the number to the bit-vector and back.
 */
module CodeUnits {
  function AsNibble(n: int): bv4
    requires 0 <= n < 16
  {
    n as bv4
  }

  function AsWord(n: int): bv30
    requires 0 <= n < 0x4000_0000
  {
    n as bv30
  }

  function NibbleNumber(b: bv4): int { b as int }

  function UnitNumber(b: bv16): int { b as int }

  function WordNumber(w: bv30): (n: int)
    ensures 0 <= n < 0x4000_0000
  {
    w as int
  }

  function Joined(a: bv4, b: bv4, c: bv4, d: bv4): bv16 {
    ((a as bv16) << 12) | ((b as bv16) << 8) | ((c as bv16) << 4) | (d as bv16)
  }

  function Widened(b: bv16): bv30 { b as bv30 }

  lemma NumberOfNibble(n: int)
    requires 0 <= n < 16
    ensures NibbleNumber(AsNibble(n)) == n
  {
  }

  lemma NumberOfJoined(a: bv4, b: bv4, c: bv4, d: bv4)
    ensures UnitNumber(Joined(a, b, c, d))
         == 4096 * NibbleNumber(a) + 256 * NibbleNumber(b) + 16 * NibbleNumber(c) + NibbleNumber(d)
  {
  }

  lemma NumberOfWidened(b: bv16)
    ensures WordNumber(Widened(b)) == UnitNumber(b)
  {
  }

  lemma BackAndForth(w: bv30)
    ensures AsWord(WordNumber(w)) == w
  {
  }

  lemma NumberDetermines(v: bv30, w: bv30)
    requires v as int == w as int
    ensures v == w
  {
    hide AsWord;
    BackAndForth(v);
    BackAndForth(w);
  }

  lemma NumberOfDigits(n: int, a: int, b: int, c: int, d: int)
    requires 0 <= a < 16 && 0 <= b < 16 && 0 <= c < 16 && 0 <= d < 16
    requires n == 4096 * a + 256 * b + 16 * c + d
    ensures WordNumber(AsWord(n)) == n
  {
    hide Joined, AsNibble, AsWord, NibbleNumber, UnitNumber, WordNumber, Widened;
    NumberOfNibble(a);
    NumberOfNibble(b);
    NumberOfNibble(c);
    NumberOfNibble(d);
    var unit := Joined(AsNibble(a), AsNibble(b), AsNibble(c), AsNibble(d));
    NumberOfJoined(AsNibble(a), AsNibble(b), AsNibble(c), AsNibble(d));
    NumberOfWidened(unit);
    BackAndForth(Widened(unit));
  }

  lemma NumberOfWord(n: int)
    requires 0 <= n < 0x1_0000
    ensures WordNumber(AsWord(n)) == n
  {
    hide AsWord, WordNumber;
    var (n1, d) := (n / 16, n % 16);
    var (n2, c) := (n1 / 16, n1 % 16);
    var (a, b) := (n2 / 16, n2 % 16);
    NumberOfDigits(n, a, b, c, d);
  }
}
