/**
  keccakF1600 of the mint source: the permutation computed on an array of 25 64-bit lanes.

  The step functions say what one pass of the program leaves in the array. Three things are
  proved about them: the in-place method computes them (KeccakF1600), each of them satisfies
  the bit equations of FIPS 202 (KeccakFIsFips202), and none of them loses information
  (KeccakFIsInjective).

  The methods move lanes about without looking inside them, so they hide what the functions
  on single lanes do; only the lemmas about bits look.
 */
module KeccakLanes {
  import opened Fips202

  const ROUND_CONSTANTS: seq<Lane> := [
    0x0000000000000001, 0x0000000000008082, 0x800000000000808a, 0x8000000080008000,
    0x000000000000808b, 0x0000000080000001, 0x8000000080008081, 0x8000000000008009,
    0x000000000000008a, 0x0000000000000088, 0x0000000080008009, 0x000000008000000a,
    0x000000008000808b, 0x800000000000008b, 0x8000000000008089, 0x8000000000008003,
    0x8000000000008002, 0x8000000000000080, 0x000000000000800a, 0x800000008000000a,
    0x8000000080008081, 0x8000000000008080, 0x0000000080000001, 0x8000000080008008
  ]

  /** The rotation offset of lane (x, y), row x of the program's table. */
  const ROTATION_OFFSETS: seq<seq<bv6>> := [
    [0, 36, 3, 41, 18],
    [1, 44, 10, 45, 2],
    [62, 6, 43, 15, 61],
    [28, 55, 25, 21, 56],
    [27, 20, 39, 8, 14]
  ]

  // ----- Single lanes -----

  function Rotl64(v: Lane, shift: bv6): Lane {
    if shift == 0 then v else (v << shift) | (v >> (64 - (shift as bv7)))
  }

  function XorLane(a: Lane, b: Lane): Lane { a ^ b }

  function AndNot(a: Lane, b: Lane): Lane { !a & b }

  function Xor5(a: Lane, b: Lane, c: Lane, d: Lane, e: Lane): Lane {
    XorLane(XorLane(XorLane(XorLane(a, b), c), d), e)
  }

  function EffectLane(left: Lane, right: Lane): Lane { XorLane(left, Rotl64(right, 1)) }

  function ChiLane(a: Lane, b: Lane, c: Lane): Lane { XorLane(a, AndNot(b, c)) }

  // ----- What each pass computes -----

  function Ix(x: int, y: int): (i: int)
    requires 0 <= x < 5 && 0 <= y < 5
    ensures 0 <= i < 25 && i % 5 == x && i / 5 == y
  {
    x + 5 * y
  }

  function Parity(a: State, x: int): Lane
    requires 0 <= x < 5
  {
    Xor5(a[x], a[x + 5], a[x + 10], a[x + 15], a[x + 20])
  }

  function Parities(a: State): (c: seq<Lane>)
    ensures |c| == 5
  {
    seq(5, x requires 0 <= x < 5 => Parity(a, x))
  }

  function Effect(c: seq<Lane>, x: int): Lane
    requires |c| == 5 && 0 <= x < 5
  {
    EffectLane(c[(x + 4) % 5], c[(x + 1) % 5])
  }

  function Theta(a: State): State {
    seq(25, i requires 0 <= i < 25 => XorLane(a[i], Effect(Parities(a), i % 5)))
  }

  function Offset(x: int, y: int): bv6
    requires 0 <= x < 5 && 0 <= y < 5
  {
    ROTATION_OFFSETS[x][y]
  }

  function Rho(a: State): State {
    seq(25, i requires 0 <= i < 25 => Rotl64(a[i], Offset(i % 5, i / 5)))
  }

  /** The column that lane (x, y) comes from. */
  function PiColumn(x: int, y: int): (u: int)
    ensures 0 <= u < 5
  {
    (x + 3 * y) % 5
  }

  function Pi(a: State): State {
    seq(25, i requires 0 <= i < 25 => a[Ix(PiColumn(i % 5, i / 5), i % 5)])
  }

  function ChiAt(b: State, x: int, y: int): Lane
    requires 0 <= x < 5 && 0 <= y < 5
  {
    ChiLane(b[Ix(x, y)], b[Ix((x + 1) % 5, y)], b[Ix((x + 2) % 5, y)])
  }

  function Chi(b: State): State {
    seq(25, i requires 0 <= i < 25 => ChiAt(b, i % 5, i / 5))
  }

  function Iota(a: State, rc: Lane): State { a[0 := XorLane(a[0], rc)] }

  function Round(a: State, rc: Lane): State { Iota(Chi(Pi(Rho(Theta(a)))), rc) }

  function Rounds(a: State, n: nat): State
    requires n <= ROUNDS
  {
    if n == 0 then a else Round(Rounds(a, n - 1), ROUND_CONSTANTS[n - 1])
  }

  function KeccakF(a: State): State { Rounds(a, ROUNDS) }

  // ----- The in-place program -----

  /** Lanes agree with the target where the loop nest, now at (x, y), has been. */
  ghost predicate Written(state: seq<Lane>, target: seq<Lane>, x: int, y: int)
    requires |state| == 25 && |target| == 25
  {
    forall u, v | 0 <= u < 5 && 0 <= v < 5 && (u < x || (u == x && v < y)) :: state[Ix(u, v)] == target[Ix(u, v)]
  }

  ghost predicate Untouched(state: seq<Lane>, a: seq<Lane>, x: int, y: int)
    requires |state| == 25 && |a| == 25
  {
    forall u, v | 0 <= u < 5 && 0 <= v < 5 && !(u < x || (u == x && v < y)) :: state[Ix(u, v)] == a[Ix(u, v)]
  }

  lemma AllWritten(state: seq<Lane>, target: seq<Lane>)
    requires |state| == 25 && |target| == 25 && Written(state, target, 5, 0)
    ensures state == target
  {
    forall i | 0 <= i < 25 ensures state[i] == target[i] {
      assert Ix(i % 5, i / 5) == i;
    }
  }

  method ColumnParities(state: array<Lane>) returns (c: array<Lane>)
    requires state.Length == 25
    ensures fresh(c) && c[..] == Parities(state[..])
  {
    hide Xor5;
    ghost var a := state[..];
    c := new Lane[5];
    for x := 0 to 5
      invariant state[..] == a
      invariant forall u | 0 <= u < x :: c[u] == Parity(a, u)
    {
      c[x] := Xor5(state[x], state[x + 5], state[x + 10], state[x + 15], state[x + 20]);
      assert c[x] == Parity(a, x);
    }
  }

  method ColumnEffects(c: array<Lane>) returns (d: array<Lane>)
    requires c.Length == 5
    ensures fresh(d) && d.Length == 5
    ensures forall u | 0 <= u < 5 :: d[u] == Effect(c[..], u)
  {
    hide EffectLane;
    d := new Lane[5];
    for x := 0 to 5
      invariant forall u | 0 <= u < x :: d[u] == Effect(c[..], u)
    {
      d[x] := EffectLane(c[(x + 4) % 5], c[(x + 1) % 5]);
    }
  }

  method AddEffects(state: array<Lane>, d: array<Lane>, ghost target: seq<Lane>)
    requires state.Length == 25 && d.Length == 5 && d != state && |target| == 25
    requires forall u, v | 0 <= u < 5 && 0 <= v < 5 :: target[Ix(u, v)] == XorLane(state[Ix(u, v)], d[u])
    modifies state
    ensures state[..] == target
  {
    hide XorLane;
    ghost var a := state[..];
    for x := 0 to 5
      invariant Written(state[..], target, x, 0) && Untouched(state[..], a, x, 0)
    {
      for y := 0 to 5
        invariant Written(state[..], target, x, y) && Untouched(state[..], a, x, y)
      {
        assert a[Ix(x, y)] == state[..][Ix(x, y)];
        state[x + 5 * y] := XorLane(state[x + 5 * y], d[x]);
        assert state[Ix(x, y)] == target[Ix(x, y)];
      }
    }
    AllWritten(state[..], target);
  }

  method ThetaPass(state: array<Lane>)
    requires state.Length == 25
    modifies state
    ensures state[..] == Theta(old(state[..]))
  {
    hide XorLane, Effect, Parities;
    var c := ColumnParities(state);
    var d := ColumnEffects(c);
    AddEffects(state, d, Theta(state[..]));
  }

  /** Where the scattering loop writes lane (x, y): row 2x + 3y of column y. */
  lemma PiTarget(x: int, y: int)
    requires 0 <= x < 5 && 0 <= y < 5
    ensures forall v | 0 <= v < 5 :: PiColumn(y, v) == x <==> v == (2 * x + 3 * y) % 5
  {
  }

  /** The part of the target that the scattering loop, now at (x, y), has written. */
  ghost predicate Scattered(b: seq<Lane>, target: seq<Lane>, x: int, y: int)
    requires |b| == 25 && |target| == 25
  {
    forall u, v | 0 <= u < 5 && 0 <= v < 5 && (PiColumn(u, v) < x || (PiColumn(u, v) == x && u < y)) ::
      b[Ix(u, v)] == target[Ix(u, v)]
  }

  lemma PiRhoAt(a: State, u: int, v: int)
    requires 0 <= u < 5 && 0 <= v < 5
    ensures Pi(Rho(a))[Ix(u, v)] == Rotl64(a[Ix(PiColumn(u, v), u)], Offset(PiColumn(u, v), u))
  {
    hide Rotl64, Offset;
  }

  /** Every lane of b is written, and written once. */
  method RhoPiPass(state: array<Lane>) returns (b: array<Lane>)
    requires state.Length == 25
    ensures fresh(b) && b[..] == Pi(Rho(state[..]))
  {
    hide Rotl64, Offset, Pi, Rho, PiColumn;
    ghost var target := Pi(Rho(state[..]));
    b := new Lane[25](_ => 0);
    for x := 0 to 5
      invariant Scattered(b[..], target, x, 0)
    {
      for y := 0 to 5
        invariant Scattered(b[..], target, x, y)
      {
        var row := (2 * x + 3 * y) % 5;
        PiTarget(x, y);
        PiRhoAt(state[..], y, row);
        b[y + 5 * row] := Rotl64(state[x + 5 * y], Offset(x, y));
        assert b[Ix(y, row)] == target[Ix(y, row)];
      }
    }
    assert Written(b[..], target, 5, 0);
    AllWritten(b[..], target);
  }

  method ChiPass(state: array<Lane>, b: array<Lane>)
    requires state.Length == 25 && b.Length == 25 && state != b
    modifies state
    ensures state[..] == Chi(b[..])
  {
    hide ChiLane, Chi;
    ghost var target := Chi(b[..]);
    for x := 0 to 5
      invariant Written(state[..], target, x, 0)
    {
      for y := 0 to 5
        invariant Written(state[..], target, x, y)
      {
        state[x + 5 * y] := ChiLane(b[x + 5 * y], b[(x + 1) % 5 + 5 * y], b[(x + 2) % 5 + 5 * y]);
        ChiIs(b[..], x, y);
        assert state[Ix(x, y)] == target[Ix(x, y)];
      }
    }
    AllWritten(state[..], target);
  }

  lemma ChiIs(b: State, x: int, y: int)
    requires 0 <= x < 5 && 0 <= y < 5
    ensures Chi(b)[Ix(x, y)] == ChiAt(b, x, y)
  {
    hide ChiAt;
  }

  method KeccakF1600(state: array<Lane>)
    requires state.Length == 25
    modifies state
    ensures state[..] == KeccakF(old(state[..]))
  {
    hide Theta, Rho, Pi, Chi, XorLane;
    ghost var a := state[..];
    for n := 0 to ROUNDS
      invariant state[..] == Rounds(a, n)
    {
      ThetaPass(state);
      var b := RhoPiPass(state);
      ChiPass(state, b);
      state[0] := XorLane(state[0], ROUND_CONSTANTS[n]);
    }
  }

  // ----- Each pass satisfies the standard's equations -----

  /** Each rotation of the table, with its two shifts evaluated. */
  lemma TableRotations(v: Lane)
    ensures Rotl64(v, 0) == v && Rotl64(v, 36) == (v << 36) | (v >> 28) && Rotl64(v, 3) == (v << 3) | (v >> 61)
      && Rotl64(v, 41) == (v << 41) | (v >> 23) && Rotl64(v, 18) == (v << 18) | (v >> 46)
    ensures Rotl64(v, 1) == (v << 1) | (v >> 63) && Rotl64(v, 44) == (v << 44) | (v >> 20)
      && Rotl64(v, 10) == (v << 10) | (v >> 54) && Rotl64(v, 45) == (v << 45) | (v >> 19)
      && Rotl64(v, 2) == (v << 2) | (v >> 62)
    ensures Rotl64(v, 62) == (v << 62) | (v >> 2) && Rotl64(v, 6) == (v << 6) | (v >> 58)
      && Rotl64(v, 43) == (v << 43) | (v >> 21) && Rotl64(v, 15) == (v << 15) | (v >> 49)
      && Rotl64(v, 61) == (v << 61) | (v >> 3)
    ensures Rotl64(v, 28) == (v << 28) | (v >> 36) && Rotl64(v, 55) == (v << 55) | (v >> 9)
      && Rotl64(v, 25) == (v << 25) | (v >> 39) && Rotl64(v, 21) == (v << 21) | (v >> 43)
      && Rotl64(v, 56) == (v << 56) | (v >> 8)
    ensures Rotl64(v, 27) == (v << 27) | (v >> 37) && Rotl64(v, 20) == (v << 20) | (v >> 44)
      && Rotl64(v, 39) == (v << 39) | (v >> 25) && Rotl64(v, 8) == (v << 8) | (v >> 56)
      && Rotl64(v, 14) == (v << 14) | (v >> 50)
  {
  }

  lemma RotatedBits0(v: Lane, z: bv6)
    ensures Bit((v << 36) | (v >> 28), z) == Bit(v, z - 36)
    ensures Bit((v << 3) | (v >> 61), z) == Bit(v, z - 3)
    ensures Bit((v << 41) | (v >> 23), z) == Bit(v, z - 41)
    ensures Bit((v << 18) | (v >> 46), z) == Bit(v, z - 18)
  {
  }

  lemma RotatedBits1(v: Lane, z: bv6)
    ensures Bit((v << 1) | (v >> 63), z) == Bit(v, z - 1)
    ensures Bit((v << 44) | (v >> 20), z) == Bit(v, z - 44)
    ensures Bit((v << 10) | (v >> 54), z) == Bit(v, z - 10)
    ensures Bit((v << 45) | (v >> 19), z) == Bit(v, z - 45)
    ensures Bit((v << 2) | (v >> 62), z) == Bit(v, z - 2)
  {
  }

  lemma RotatedBits2(v: Lane, z: bv6)
    ensures Bit((v << 62) | (v >> 2), z) == Bit(v, z - 62)
    ensures Bit((v << 6) | (v >> 58), z) == Bit(v, z - 6)
    ensures Bit((v << 43) | (v >> 21), z) == Bit(v, z - 43)
    ensures Bit((v << 15) | (v >> 49), z) == Bit(v, z - 15)
    ensures Bit((v << 61) | (v >> 3), z) == Bit(v, z - 61)
  {
  }

  lemma RotatedBits3(v: Lane, z: bv6)
    ensures Bit((v << 28) | (v >> 36), z) == Bit(v, z - 28)
    ensures Bit((v << 55) | (v >> 9), z) == Bit(v, z - 55)
    ensures Bit((v << 25) | (v >> 39), z) == Bit(v, z - 25)
    ensures Bit((v << 21) | (v >> 43), z) == Bit(v, z - 21)
    ensures Bit((v << 56) | (v >> 8), z) == Bit(v, z - 56)
  {
  }

  lemma RotatedBits4(v: Lane, z: bv6)
    ensures Bit((v << 27) | (v >> 37), z) == Bit(v, z - 27)
    ensures Bit((v << 20) | (v >> 44), z) == Bit(v, z - 20)
    ensures Bit((v << 39) | (v >> 25), z) == Bit(v, z - 39)
    ensures Bit((v << 8) | (v >> 56), z) == Bit(v, z - 8)
    ensures Bit((v << 14) | (v >> 50), z) == Bit(v, z - 14)
  {
  }

  lemma RotationRow0(v: Lane, y: int, z: bv6)
    requires 0 <= y < 5
    ensures Bit(Rotl64(v, Offset(0, y)), z) == Bit(v, z - Offset(0, y))
  {
    hide Bit, Rotl64;
    TableRotations(v);
    RotatedBits0(v, z);
    assert Offset(0, y) == 0 || Offset(0, y) == 36 || Offset(0, y) == 3 || Offset(0, y) == 41 || Offset(0, y) == 18;
  }

  lemma RotationRow1(v: Lane, y: int, z: bv6)
    requires 0 <= y < 5
    ensures Bit(Rotl64(v, Offset(1, y)), z) == Bit(v, z - Offset(1, y))
  {
    hide Bit, Rotl64;
    TableRotations(v);
    RotatedBits1(v, z);
    assert Offset(1, y) == 1 || Offset(1, y) == 44 || Offset(1, y) == 10 || Offset(1, y) == 45 || Offset(1, y) == 2;
  }

  lemma RotationRow2(v: Lane, y: int, z: bv6)
    requires 0 <= y < 5
    ensures Bit(Rotl64(v, Offset(2, y)), z) == Bit(v, z - Offset(2, y))
  {
    hide Bit, Rotl64;
    TableRotations(v);
    RotatedBits2(v, z);
    assert Offset(2, y) == 62 || Offset(2, y) == 6 || Offset(2, y) == 43 || Offset(2, y) == 15 || Offset(2, y) == 61;
  }

  lemma RotationRow3(v: Lane, y: int, z: bv6)
    requires 0 <= y < 5
    ensures Bit(Rotl64(v, Offset(3, y)), z) == Bit(v, z - Offset(3, y))
  {
    hide Bit, Rotl64;
    TableRotations(v);
    RotatedBits3(v, z);
    assert Offset(3, y) == 28 || Offset(3, y) == 55 || Offset(3, y) == 25 || Offset(3, y) == 21 || Offset(3, y) == 56;
  }

  lemma RotationRow4(v: Lane, y: int, z: bv6)
    requires 0 <= y < 5
    ensures Bit(Rotl64(v, Offset(4, y)), z) == Bit(v, z - Offset(4, y))
  {
    hide Bit, Rotl64;
    TableRotations(v);
    RotatedBits4(v, z);
    assert Offset(4, y) == 27 || Offset(4, y) == 20 || Offset(4, y) == 39 || Offset(4, y) == 8 || Offset(4, y) == 14;
  }

  lemma BitOfRotation(v: Lane, x: int, y: int, z: bv6)
    requires 0 <= x < 5 && 0 <= y < 5
    ensures Bit(Rotl64(v, Offset(x, y)), z) == Bit(v, z - Offset(x, y))
  {
    hide Bit, Rotl64, Offset;
    if x == 0 { RotationRow0(v, y, z); }
    else if x == 1 { RotationRow1(v, y, z); }
    else if x == 2 { RotationRow2(v, y, z); }
    else if x == 3 { RotationRow3(v, y, z); }
    else { RotationRow4(v, y, z); }
  }

  lemma BitOfXorLane(a: Lane, b: Lane, z: bv6)
    ensures Bit(XorLane(a, b), z) == Xor(Bit(a, z), Bit(b, z))
  {
    BitOfXor(a, b, z);
  }

  lemma BitOfAndNot(a: Lane, b: Lane, z: bv6)
    ensures Bit(!a & b, z) == (!Bit(a, z) && Bit(b, z))
  {
  }

  lemma BitOfXor5(a: Lane, b: Lane, c: Lane, d: Lane, e: Lane, z: bv6)
    ensures Bit(Xor5(a, b, c, d, e), z) == Xor(Xor(Xor(Xor(Bit(a, z), Bit(b, z)), Bit(c, z)), Bit(d, z)), Bit(e, z))
  {
    hide Bit, XorLane;
    var ab := XorLane(a, b);
    var abc := XorLane(ab, c);
    var abcd := XorLane(abc, d);
    BitOfXorLane(a, b, z);
    BitOfXorLane(ab, c, z);
    BitOfXorLane(abc, d, z);
    BitOfXorLane(abcd, e, z);
  }

  lemma BitOfEffect(l: Lane, r: Lane, z: bv6)
    ensures Bit(EffectLane(l, r), z) == Xor(Bit(l, z), Bit(r, z - 1))
  {
    hide Bit, XorLane, Rotl64;
    BitOfXorLane(l, Rotl64(r, 1), z);
    BitOfRotation(r, 1, 0, z);
  }

  lemma BitOfChi(a: Lane, b: Lane, c: Lane, z: bv6)
    ensures Bit(ChiLane(a, b, c), z) == Xor(Bit(a, z), !Bit(b, z) && Bit(c, z))
  {
    hide Bit, XorLane;
    BitOfXorLane(a, AndNot(b, c), z);
    BitOfAndNot(b, c, z);
    assert AndNot(b, c) == !b & c;
  }

  lemma BitOfParity(a: State, x: int, z: bv6)
    requires 0 <= x < 5
    ensures Bit(Parity(a, x), z) == Column(a, x, z)
  {
    hide Bit, Xor5;
    BitOfXor5(a[x], a[x + 5], a[x + 10], a[x + 15], a[x + 20], z);
  }

  lemma BitOfTheta(a: State, x: int, y: int, z: bv6)
    requires 0 <= x < 5 && 0 <= y < 5
    ensures At(Theta(a), x, y, z)
         == Xor(At(a, x, y, z), Xor(Column(a, (x + 4) % 5, z), Column(a, (x + 1) % 5, z - 1)))
  {
    hide Bit, XorLane, EffectLane, Parity, Column;
    var c := Parities(a);
    BitOfParity(a, (x + 4) % 5, z);
    BitOfParity(a, (x + 1) % 5, z - 1);
    BitOfEffect(c[(x + 4) % 5], c[(x + 1) % 5], z);
    BitOfXorLane(a[Ix(x, y)], Effect(c, x), z);
  }

  lemma ThetaIsTheta(a: State)
    ensures IsTheta(a, Theta(a))
  {
    hide At, Column, Theta, Xor;
    forall x, y, z: bv6 | 0 <= x < 5 && 0 <= y < 5
      ensures At(Theta(a), x, y, z)
           == Xor(At(a, x, y, z), Xor(Column(a, (x + 4) % 5, z), Column(a, (x + 1) % 5, z - 1)))
    {
      BitOfTheta(a, x, y, z);
    }
  }

  /** The walk of the standard, computed. */
  lemma RhoWalkTable()
    ensures RhoWalk(0) == RhoStep(1, 0, 1, 1)
    ensures RhoWalk(1) == RhoStep(0, 2, 2, 3)
    ensures RhoWalk(2) == RhoStep(2, 1, 3, 6)
    ensures RhoWalk(3) == RhoStep(1, 2, 4, 10)
    ensures RhoWalk(4) == RhoStep(2, 3, 5, 15)
    ensures RhoWalk(5) == RhoStep(3, 3, 6, 21)
    ensures RhoWalk(6) == RhoStep(3, 0, 7, 28)
    ensures RhoWalk(7) == RhoStep(0, 1, 8, 36)
    ensures RhoWalk(8) == RhoStep(1, 3, 9, 45)
    ensures RhoWalk(9) == RhoStep(3, 1, 10, 55)
    ensures RhoWalk(10) == RhoStep(1, 4, 11, 2)
    ensures RhoWalk(11) == RhoStep(4, 4, 12, 14)
    ensures RhoWalk(12) == RhoStep(4, 0, 13, 27)
    ensures RhoWalk(13) == RhoStep(0, 3, 14, 41)
    ensures RhoWalk(14) == RhoStep(3, 4, 15, 56)
    ensures RhoWalk(15) == RhoStep(4, 3, 16, 8)
    ensures RhoWalk(16) == RhoStep(3, 2, 17, 25)
    ensures RhoWalk(17) == RhoStep(2, 2, 18, 43)
    ensures RhoWalk(18) == RhoStep(2, 0, 19, 62)
    ensures RhoWalk(19) == RhoStep(0, 4, 20, 18)
    ensures RhoWalk(20) == RhoStep(4, 2, 21, 39)
    ensures RhoWalk(21) == RhoStep(2, 4, 22, 61)
    ensures RhoWalk(22) == RhoStep(4, 1, 23, 20)
    ensures RhoWalk(23) == RhoStep(1, 1, 24, 44)
  {
  }

  /** The program's table is the table that the standard's walk over the lanes produces. */
  lemma TableIsRhoWalk(x: int, y: int)
    requires 0 <= x < 5 && 0 <= y < 5
    ensures RhoShift(x, y) == Offset(x, y)
  {
    hide RhoWalk;
    RhoWalkTable();
    var t := [[24, 7, 1, 13, 19], [0, 23, 3, 8, 10], [18, 2, 17, 4, 21], [6, 9, 16, 5, 14], [12, 22, 20, 15, 11]][x][y];
    VisitedAt(x, y, t, t);
  }

  lemma {:induction false} VisitedAt(x: int, y: int, t: nat, back: nat)
    requires back <= t <= 24
    requires t < 24 ==> RhoWalk(t).x == x && RhoWalk(t).y == y
    requires forall u | 0 <= u < t :: RhoWalk(u).x != x || RhoWalk(u).y != y
    ensures RhoShift(x, y, t - back) == if t == 24 then 0 else RhoWalk(t).offset
    decreases back
  {
    hide RhoWalk;
    if back > 0 {
      VisitedAt(x, y, t, back - 1);
    }
  }

  lemma BitOfRho(a: State, x: int, y: int, z: bv6)
    requires 0 <= x < 5 && 0 <= y < 5
    ensures At(Rho(a), x, y, z) == At(a, x, y, z - RhoShift(x, y))
  {
    hide Bit, Rotl64, Offset, RhoShift;
    TableIsRhoWalk(x, y);
    assert Rho(a)[Ix(x, y)] == Rotl64(a[Ix(x, y)], Offset(x, y));
    BitOfRotation(a[Ix(x, y)], x, y, z);
  }

  lemma RhoIsRho(a: State)
    ensures IsRho(a, Rho(a))
  {
    hide At, Rho, RhoShift;
    forall x, y, z: bv6 | 0 <= x < 5 && 0 <= y < 5
      ensures At(Rho(a), x, y, z) == At(a, x, y, z - RhoShift(x, y))
    {
      BitOfRho(a, x, y, z);
    }
  }

  lemma PiIsPi(a: State)
    ensures IsPi(a, Pi(a))
  {
    hide Bit;
    forall x, y, z: bv6 | 0 <= x < 5 && 0 <= y < 5
      ensures At(Pi(a), x, y, z) == At(a, (x + 3 * y) % 5, x, z)
    {
      assert Pi(a)[Ix(x, y)] == a[Ix(PiColumn(x, y), x)];
    }
  }

  lemma ChiIsChi(b: State)
    ensures IsChi(b, Chi(b))
  {
    hide At, Chi;
    forall x, y, z: bv6 | 0 <= x < 5 && 0 <= y < 5
      ensures At(Chi(b), x, y, z) == Xor(At(b, x, y, z), !At(b, (x + 1) % 5, y, z) && At(b, (x + 2) % 5, y, z))
    {
      ChiAtBit(b, x, y, z);
    }
  }

  lemma ChiAtBit(b: State, x: int, y: int, z: bv6)
    requires 0 <= x < 5 && 0 <= y < 5
    ensures At(Chi(b), x, y, z) == Xor(At(b, x, y, z), !At(b, (x + 1) % 5, y, z) && At(b, (x + 2) % 5, y, z))
  {
    hide Bit, ChiLane, Chi, At, Ix;
    var (x1, x2) := ((x + 1) % 5, (x + 2) % 5);
    ChiIs(b, x, y);
    BitOfChi(b[Ix(x, y)], b[Ix(x1, y)], b[Ix(x2, y)], z);
    AtIs(b, x, y, z);
    AtIs(b, x1, y, z);
    AtIs(b, x2, y, z);
    AtIs(Chi(b), x, y, z);
  }

  lemma AtIs(a: State, x: int, y: int, z: bv6)
    requires 0 <= x < 5 && 0 <= y < 5
    ensures At(a, x, y, z) == Bit(a[Ix(x, y)], z)
  {
    hide Bit;
  }

  /** The register of Algorithm 5 at the start of each round. */
  const REGISTERS: seq<bv8> := [
    0x01, 0x80, 0xd8, 0x1a, 0xdf, 0x09, 0x35, 0x4f,
    0xca, 0x70, 0x41, 0xec, 0xd5, 0xcd, 0x63, 0xab,
    0xaa, 0x2a, 0xf2, 0xe8, 0x37, 0x3e, 0x0b, 0x44
  ]

  /** The register after j more steps. */
  function Steps(r: bv8, j: nat): bv8 {
    if j == 0 then r else RegisterStep(Steps(r, j - 1))
  }

  lemma {:induction false} RegisterSteps(t: nat, j: nat)
    ensures Register(t + j) == Steps(Register(t), j)
  {
    if j > 0 {
      RegisterSteps(t, j - 1);
    }
  }

  lemma SevenStepsTable()
    ensures Steps(0x01, 7) == 0x80 && Steps(0x80, 7) == 0xd8 && Steps(0xd8, 7) == 0x1a && Steps(0x1a, 7) == 0xdf
    ensures Steps(0xdf, 7) == 0x09 && Steps(0x09, 7) == 0x35 && Steps(0x35, 7) == 0x4f && Steps(0x4f, 7) == 0xca
    ensures Steps(0xca, 7) == 0x70 && Steps(0x70, 7) == 0x41 && Steps(0x41, 7) == 0xec && Steps(0xec, 7) == 0xd5
    ensures Steps(0xd5, 7) == 0xcd && Steps(0xcd, 7) == 0x63 && Steps(0x63, 7) == 0xab && Steps(0xab, 7) == 0xaa
    ensures Steps(0xaa, 7) == 0x2a && Steps(0x2a, 7) == 0xf2 && Steps(0xf2, 7) == 0xe8 && Steps(0xe8, 7) == 0x37
    ensures Steps(0x37, 7) == 0x3e && Steps(0x3e, 7) == 0x0b && Steps(0x0b, 7) == 0x44
  {
  }

  lemma SevenSteps(ir: nat)
    requires ir < 23
    ensures Steps(REGISTERS[ir], 7) == REGISTERS[ir + 1]
  {
    hide Steps;
    SevenStepsTable();
  }

  lemma {:induction false} RegisterAtRound(ir: nat)
    requires ir < ROUNDS
    ensures Register(7 * ir) == REGISTERS[ir]
  {
    hide Steps;
    if ir > 0 {
      RegisterAtRound(ir - 1);
      RegisterSteps(7 * (ir - 1), 7);
      SevenSteps(ir - 1);
    }
  }

  /** The bits of a round constant, read off the register at the start of the round. */
  predicate ConstantBit(r: bv8, z: bv6) {
    || (z == 0 && Steps(r, 0) & 1 == 1)
    || (z == 1 && Steps(r, 1) & 1 == 1)
    || (z == 3 && Steps(r, 2) & 1 == 1)
    || (z == 7 && Steps(r, 3) & 1 == 1)
    || (z == 15 && Steps(r, 4) & 1 == 1)
    || (z == 31 && Steps(r, 5) & 1 == 1)
    || (z == 63 && Steps(r, 6) & 1 == 1)
  }

  lemma ConstantBits0(z: bv6)
    ensures Bit(0x0000000000000001, z) == ConstantBit(0x01, z)
    ensures Bit(0x0000000000008082, z) == ConstantBit(0x80, z)
    ensures Bit(0x800000000000808a, z) == ConstantBit(0xd8, z)
    ensures Bit(0x8000000080008000, z) == ConstantBit(0x1a, z)
    ensures Bit(0x000000000000808b, z) == ConstantBit(0xdf, z)
    ensures Bit(0x0000000080000001, z) == ConstantBit(0x09, z)
    ensures Bit(0x8000000080008081, z) == ConstantBit(0x35, z)
    ensures Bit(0x8000000000008009, z) == ConstantBit(0x4f, z)
  {
  }

  lemma ConstantBits1(z: bv6)
    ensures Bit(0x000000000000008a, z) == ConstantBit(0xca, z)
    ensures Bit(0x0000000000000088, z) == ConstantBit(0x70, z)
    ensures Bit(0x0000000080008009, z) == ConstantBit(0x41, z)
    ensures Bit(0x000000008000000a, z) == ConstantBit(0xec, z)
    ensures Bit(0x000000008000808b, z) == ConstantBit(0xd5, z)
    ensures Bit(0x800000000000008b, z) == ConstantBit(0xcd, z)
    ensures Bit(0x8000000000008089, z) == ConstantBit(0x63, z)
    ensures Bit(0x8000000000008003, z) == ConstantBit(0xab, z)
  {
  }

  lemma ConstantBits2(z: bv6)
    ensures Bit(0x8000000000008002, z) == ConstantBit(0xaa, z)
    ensures Bit(0x8000000000000080, z) == ConstantBit(0x2a, z)
    ensures Bit(0x000000000000800a, z) == ConstantBit(0xf2, z)
    ensures Bit(0x800000008000000a, z) == ConstantBit(0xe8, z)
    ensures Bit(0x8000000080008081, z) == ConstantBit(0x37, z)
    ensures Bit(0x8000000000008080, z) == ConstantBit(0x3e, z)
    ensures Bit(0x0000000080000001, z) == ConstantBit(0x0b, z)
    ensures Bit(0x8000000080008008, z) == ConstantBit(0x44, z)
  {
  }

  lemma BitOfTableConstant(ir: nat, z: bv6)
    requires ir < ROUNDS
    ensures Bit(ROUND_CONSTANTS[ir], z) == ConstantBit(REGISTERS[ir], z)
  {
    hide Bit, ConstantBit;
    if ir < 8 { ConstantBits0(z); } else if ir < 16 { ConstantBits1(z); } else { ConstantBits2(z); }
  }

  lemma RcFromRegister(ir: nat, j: nat)
    requires ir < ROUNDS && j < 7
    ensures Rc(7 * ir + j) == (Steps(REGISTERS[ir], j) & 1 == 1)
  {
    hide Steps, Register;
    RegisterAtRound(ir);
    RegisterSteps(7 * ir, j);
  }

  lemma ConstantBitsAgree(ir: nat, r: bv8, z: bv6)
    requires forall j: nat | j < 7 :: Rc(7 * ir + j) == (Steps(r, j) & 1 == 1)
    ensures ConstantBit(r, z) == RoundConstantBit(ir, z)
  {
    hide Rc, Steps;
    assert Rc(7 * ir + 0) == (Steps(r, 0) & 1 == 1);
  }

  /** The program's round constants are those that Algorithm 5 generates. */
  lemma BitOfRoundConstant(ir: nat, z: bv6)
    requires ir < ROUNDS
    ensures Bit(ROUND_CONSTANTS[ir], z) == RoundConstantBit(ir, z)
  {
    hide Bit, Steps, Rc, ConstantBit, RoundConstantBit;
    BitOfTableConstant(ir, z);
    forall j: nat | j < 7 ensures Rc(7 * ir + j) == (Steps(REGISTERS[ir], j) & 1 == 1) {
      RcFromRegister(ir, j);
    }
    ConstantBitsAgree(ir, REGISTERS[ir], z);
  }

  lemma IotaIsIota(a: State, ir: nat)
    requires ir < ROUNDS
    ensures IsIota(a, Iota(a, ROUND_CONSTANTS[ir]), ir)
  {
    hide Bit, XorLane, RoundConstantBit;
    var b := Iota(a, ROUND_CONSTANTS[ir]);
    forall x, y, z: bv6 | 0 <= x < 5 && 0 <= y < 5
      ensures At(b, x, y, z) == Xor(At(a, x, y, z), x == 0 && y == 0 && RoundConstantBit(ir, z))
    {
      BitOfXorLane(a[0], ROUND_CONSTANTS[ir], z);
      BitOfRoundConstant(ir, z);
    }
  }

  lemma RoundIsRound(a: State, ir: nat)
    requires ir < ROUNDS
    ensures IsRound(a, Round(a, ROUND_CONSTANTS[ir]), ir)
  {
    hide IsTheta, IsRho, IsPi, IsChi, IsIota, Theta, Rho, Pi, Chi, Iota;
    ThetaIsTheta(a);
    RhoIsRho(Theta(a));
    PiIsPi(Rho(Theta(a)));
    ChiIsChi(Pi(Rho(Theta(a))));
    IotaIsIota(Chi(Pi(Rho(Theta(a)))), ir);
  }

  /** The program computes the permutation of FIPS 202, and nothing else satisfies the standard. */
  lemma KeccakFIsFips202(a: State, b: State)
    ensures IsKeccakF(a, b) <==> b == KeccakF(a)
  {
    hide IsRound, Round;
    var run: seq<State> := seq(ROUNDS + 1, n requires 0 <= n <= ROUNDS => Rounds(a, n));
    forall ir | 0 <= ir < ROUNDS ensures IsRound(run[ir], run[ir + 1], ir) {
      RoundIsRound(run[ir], ir);
    }
    assert IsRun(run) && run[0] == a && run[ROUNDS] == KeccakF(a);
    assert IsKeccakF(a, KeccakF(a));
    if IsKeccakF(a, b) {
      KeccakFIsDetermined(a, b, KeccakF(a));
    }
  }

  /** No two states are permuted to the same state. */
  lemma KeccakFIsInjective(a: State, b: State)
    requires KeccakF(a) == KeccakF(b)
    ensures a == b
  {
    hide KeccakF, IsKeccakF;
    KeccakFIsFips202(a, KeccakF(a));
    KeccakFIsFips202(b, KeccakF(b));
    KeccakFIsOneToOne(a, b, KeccakF(a));
  }
}
