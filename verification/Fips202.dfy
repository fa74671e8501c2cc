/**
  The Keccak-f[1600] permutation as FIPS 202 section 3.2 states it: five equations on
  single bits, relating the state array before a step mapping to the state array after it.

  A state is 25 lanes of w = 64 bits; bit (x, y, z) is bit z of lane x + 5y. The coordinate
  z is a six-bit number, so its arithmetic is the standard's arithmetic modulo w. Nothing
  here says how to compute a step. Because a state is determined by its bits, each relation
  has at most one right-hand side (RoundIsDetermined).
 */
module Fips202 {

  type Lane = bv64
  type State = s: seq<Lane> | |s| == 25 witness seq(25, _ => 0)

  const ROUNDS: nat := 24

  predicate Bit(v: Lane, z: bv6) { (v >> z) & 1 == 1 }

  function Xor(a: bool, b: bool): bool { a != b }

  predicate At(a: State, x: int, y: int, z: bv6)
    requires 0 <= x < 5 && 0 <= y < 5
  {
    Bit(a[x + 5 * y], z)
  }

  /** C[x, z], the parity of a column. */
  predicate Column(a: State, x: int, z: bv6)
    requires 0 <= x < 5
  {
    Xor(Xor(Xor(Xor(At(a, x, 0, z), At(a, x, 1, z)), At(a, x, 2, z)), At(a, x, 3, z)), At(a, x, 4, z))
  }

  /** Section 3.2.1: D[x, z] = C[x - 1, z] xor C[x + 1, z - 1]. */
  ghost predicate IsTheta(a: State, b: State) {
    forall x, y, z: bv6 {:trigger At(b, x, y, z)} | 0 <= x < 5 && 0 <= y < 5 ::
      At(b, x, y, z) == Xor(At(a, x, y, z), Xor(Column(a, (x + 4) % 5, z), Column(a, (x + 1) % 5, z - 1)))
  }

  /** One step of the walk over the lanes: where it is, its number plus one, and its offset. */
  datatype RhoStep = RhoStep(x: int, y: int, n: bv6, offset: bv6)

  /**
    Section 3.2.2: the walk starts at (1, 0) and goes from (x, y) to (y, 2x + 3y); step t
    rotates the lane it visits by (t + 1)(t + 2)/2 = 1 + 2 + ... + (t + 1), modulo w.
   */
  function RhoWalk(t: nat): RhoStep {
    if t == 0 then RhoStep(1, 0, 1, 1)
    else
      var s := RhoWalk(t - 1);
      RhoStep(s.y, (2 * s.x + 3 * s.y) % 5, s.n + 1, s.offset + (s.n + 1))
  }

  /** The offset of the first step, from t on, that visits lane (x, y); (0, 0) is never visited. */
  function RhoShift(x: int, y: int, t: nat := 0): bv6
    decreases 24 - t
  {
    if t >= 24 then 0
    else if RhoWalk(t).x == x && RhoWalk(t).y == y then RhoWalk(t).offset
    else RhoShift(x, y, t + 1)
  }

  ghost predicate IsRho(a: State, b: State) {
    forall x, y, z: bv6 {:trigger At(b, x, y, z)} | 0 <= x < 5 && 0 <= y < 5 ::
      At(b, x, y, z) == At(a, x, y, z - RhoShift(x, y))
  }

  /** Section 3.2.3. */
  ghost predicate IsPi(a: State, b: State) {
    forall x, y, z: bv6 {:trigger At(b, x, y, z)} | 0 <= x < 5 && 0 <= y < 5 ::
      At(b, x, y, z) == At(a, (x + 3 * y) % 5, x, z)
  }

  /** Section 3.2.4. */
  ghost predicate IsChi(a: State, b: State) {
    forall x, y, z: bv6 {:trigger At(b, x, y, z)} | 0 <= x < 5 && 0 <= y < 5 ::
      At(b, x, y, z) == Xor(At(a, x, y, z), !At(a, (x + 1) % 5, y, z) && At(a, (x + 2) % 5, y, z))
  }

  /** Algorithm 5: the register R after t steps; bit i of the byte is R[i]. */
  function Register(t: nat): bv8 {
    if t == 0 then 1 else RegisterStep(Register(t - 1))
  }

  /** R := 0 || R; R[0], R[4], R[5] and R[6] absorb R[8]; R is truncated to eight bits. */
  function RegisterStep(r: bv8): bv8 {
    (r << 1) ^ (if r & 0x80 != 0 then 0x71 else 0)
  }

  predicate Rc(t: nat) { Register(t % 255) & 1 == 1 }

  /** Section 3.2.5: RC[2^j - 1] = rc(j + 7 ir) for 0 <= j <= 6, the other bits of RC are 0. */
  predicate RoundConstantBit(ir: nat, z: bv6) {
    || (z == 0 && Rc(7 * ir))
    || (z == 1 && Rc(7 * ir + 1))
    || (z == 3 && Rc(7 * ir + 2))
    || (z == 7 && Rc(7 * ir + 3))
    || (z == 15 && Rc(7 * ir + 4))
    || (z == 31 && Rc(7 * ir + 5))
    || (z == 63 && Rc(7 * ir + 6))
  }

  ghost predicate IsIota(a: State, b: State, ir: nat) {
    forall x, y, z: bv6 {:trigger At(b, x, y, z)} | 0 <= x < 5 && 0 <= y < 5 ::
      At(b, x, y, z) == Xor(At(a, x, y, z), x == 0 && y == 0 && RoundConstantBit(ir, z))
  }

  /** Section 3.3: Rnd(A, ir) = iota(chi(pi(rho(theta(A)))), ir). */
  ghost predicate IsRound(a: State, b: State, ir: nat) {
    exists t, r, p, c :: IsTheta(a, t) && IsRho(t, r) && IsPi(r, p) && IsChi(p, c) && IsIota(c, b, ir)
  }

  /** A run of the permutation: each state is followed by what its round makes of it. */
  ghost predicate IsRun(run: seq<State>) {
    forall ir | 0 <= ir < |run| - 1 :: IsRound(run[ir], run[ir + 1], ir)
  }

  /** Section 3.4: KECCAK-f[1600] is the result of all 24 rounds, numbered from 0. */
  ghost predicate IsKeccakF(a: State, b: State) {
    exists run: seq<State> :: |run| == ROUNDS + 1 && IsRun(run) && run[0] == a && run[ROUNDS] == b
  }

  // ----- A state is determined by its bits -----

  lemma BitOfXor(a: Lane, b: Lane, z: bv6)
    ensures Bit(a ^ b, z) == Xor(Bit(a, z), Bit(b, z))
  {
  }

  /** A position where a nonzero lane has a one, found by bisection. */
  function SomeOne(d: Lane): (z: bv6)
    ensures d != 0 ==> Bit(d, z)
  {
    var z0: bv6 := if d & 0xFFFF_FFFF == 0 then 32 else 0;
    var z1: bv6 := if (d >> z0) & 0xFFFF == 0 then z0 + 16 else z0;
    var z2: bv6 := if (d >> z1) & 0xFF == 0 then z1 + 8 else z1;
    var z3: bv6 := if (d >> z2) & 0xF == 0 then z2 + 4 else z2;
    var z4: bv6 := if (d >> z3) & 0x3 == 0 then z3 + 2 else z3;
    if (d >> z4) & 0x1 == 0 then z4 + 1 else z4
  }

  lemma LaneFromBits(a: Lane, b: Lane)
    requires forall z: bv6 :: Bit(a, z) == Bit(b, z)
    ensures a == b
  {
    var z := SomeOne(a ^ b);
    BitOfXor(a, b, z);
    assert Bit(a, z) == Bit(b, z);
    assert a ^ b == 0;
  }

  lemma StateFromBits(a: State, b: State)
    requires forall x, y, z: bv6 | 0 <= x < 5 && 0 <= y < 5 :: At(a, x, y, z) == At(b, x, y, z)
    ensures a == b
  {
    forall i | 0 <= i < 25
      ensures a[i] == b[i]
    {
      forall z: bv6 ensures Bit(a[i], z) == Bit(b[i], z) {
        assert i % 5 + 5 * (i / 5) == i;
        assert At(a, i % 5, i / 5, z) == At(b, i % 5, i / 5, z);
      }
      LaneFromBits(a[i], b[i]);
    }
  }

  /** The standard's equations leave no freedom: a round has exactly one result. */
  lemma RoundIsDetermined(a: State, b: State, b': State, ir: nat)
    requires IsRound(a, b, ir) && IsRound(a, b', ir)
    ensures b == b'
  {
    var t, r, p, c :| IsTheta(a, t) && IsRho(t, r) && IsPi(r, p) && IsChi(p, c) && IsIota(c, b, ir);
    var t', r', p', c' :| IsTheta(a, t') && IsRho(t', r') && IsPi(r', p') && IsChi(p', c') && IsIota(c', b', ir);
    StateFromBits(t, t');
    StateFromBits(r, r');
    StateFromBits(p, p');
    StateFromBits(c, c');
    StateFromBits(b, b');
  }

  lemma {:induction false} RunsAgree(run: seq<State>, run': seq<State>, n: nat)
    requires IsRun(run) && IsRun(run') && |run| == |run'| && n < |run|
    requires run[0] == run'[0]
    ensures run[n] == run'[n]
  {
    hide IsRound;
    if n > 0 {
      RunsAgree(run, run', n - 1);
      assert IsRound(run[n - 1], run[n - 1 + 1], n - 1) && IsRound(run'[n - 1], run'[n - 1 + 1], n - 1);
      RoundIsDetermined(run[n - 1], run[n], run'[n], n - 1);
    }
  }

  lemma KeccakFIsDetermined(a: State, b: State, b': State)
    requires IsKeccakF(a, b) && IsKeccakF(a, b')
    ensures b == b'
  {
    hide IsRound;
    var run: seq<State> :| |run| == ROUNDS + 1 && IsRun(run) && run[0] == a && run[ROUNDS] == b;
    var run': seq<State> :| |run'| == ROUNDS + 1 && IsRun(run') && run'[0] == a && run'[ROUNDS] == b';
    RunsAgree(run, run', ROUNDS);
  }

  // ----- No step mapping loses information -----

  /** Columns x of the two states differ in parity at z. */
  predicate Differ(a: State, b: State, x: int, z: bv6)
    requires 0 <= x < 5
  {
    Xor(Column(a, x, z), Column(b, x, z))
  }

  function Left(x: int, s: int): (l: int)
    ensures 0 <= l < 5
  {
    (x - s) % 5
  }

  function Right(x: int, s: int): (r: int)
    ensures 0 <= r < 5
  {
    (x + s) % 5
  }

  function Back(z: bv6, r: bv6): bv6 { z - r }

  /** Coefficient (x, z) of the differences is cancelled by 1 + X^s + X^-s Z^r. */
  predicate CancelledAt(a: State, b: State, s: int, r: bv6, x: int, z: bv6)
    requires 0 <= x < 5
  {
    Differ(a, b, x, z) == Xor(Differ(a, b, Left(x, s), z), Differ(a, b, Right(x, s), Back(z, r)))
  }

  /**
    The parity differences, read as a polynomial in X (columns) and Z (bits) over GF(2), are
    annihilated by 1 + X^s + X^-s Z^r. States with the same theta image start at s = r = 1;
    squaring doubles s and r, and at the sixth squaring Z^64 = 1 removes the rotation.
   */
  ghost predicate Annihilated(a: State, b: State, s: int, r: bv6) {
    forall x, z: bv6 | 0 <= x < 5 :: CancelledAt(a, b, s, r, x, z)
  }

  lemma ColumnShiftsAdd(x: int, s: int, t: int)
    ensures ((x + s) % 5 + t) % 5 == (x + s + t) % 5
  {
  }

  lemma ShiftsAdd(s: int, x: int)
    requires 0 <= x < 5
    ensures Left(Left(x, s), s) == Left(x, s + s) && Right(Right(x, s), s) == Right(x, s + s)
    ensures Right(Left(x, s), s) == x && Left(Right(x, s), s) == x
  {
    hide Left, Right;
    LeftTwice(x, s);
    RightTwice(x, s);
    ThereAndBack(x, s);
  }

  lemma LeftTwice(x: int, s: int)
    ensures Left(Left(x, s), s) == Left(x, s + s)
  {
    ColumnShiftsAdd(x, -s, -s);
  }

  lemma RightTwice(x: int, s: int)
    ensures Right(Right(x, s), s) == Right(x, s + s)
  {
    ColumnShiftsAdd(x, s, s);
  }

  lemma ThereAndBack(x: int, s: int)
    requires 0 <= x < 5
    ensures Right(Left(x, s), s) == x && Left(Right(x, s), s) == x
  {
    ColumnShiftsAdd(x, -s, s);
    ColumnShiftsAdd(x, s, -s);
  }

  lemma BackTwice(z: bv6, r: bv6)
    ensures Back(Back(z, r), r) == Back(z, r + r)
  {
  }

  lemma SquaredAt(a: State, b: State, s: int, r: bv6, x: int, z: bv6)
    requires 0 <= x < 5 && Annihilated(a, b, s, r)
    ensures CancelledAt(a, b, s + s, r + r, x, z)
  {
    hide Differ, Left, Right, Back;
    ShiftsAdd(s, x);
    BackTwice(z, r);
    assert CancelledAt(a, b, s, r, x, z);
    assert CancelledAt(a, b, s, r, Left(x, s), z);
    assert CancelledAt(a, b, s, r, Right(x, s), Back(z, r));
  }

  lemma Squared(a: State, b: State, s: int, r: bv6)
    requires Annihilated(a, b, s, r)
    ensures Annihilated(a, b, s + s, r + r)
  {
    hide CancelledAt;
    var s2, r2 := s + s, r + r;
    forall x, z: bv6 | 0 <= x < 5 ensures CancelledAt(a, b, s2, r2, x, z) {
      SquaredAt(a, b, s, r, x, z);
    }
  }

  lemma ThetaAt(a: State, c: State, x: int, y: int, z: bv6)
    requires IsTheta(a, c) && 0 <= x < 5 && 0 <= y < 5
    ensures At(c, x, y, z) == Xor(At(a, x, y, z), Xor(Column(a, (x + 4) % 5, z), Column(a, (x + 1) % 5, z - 1)))
  {
    hide At, Column;
  }

  lemma ParityAfterTheta(a: State, c: State, x: int, z: bv6)
    requires IsTheta(a, c) && 0 <= x < 5
    ensures Column(c, x, z) == Xor(Column(a, x, z), Xor(Column(a, (x + 4) % 5, z), Column(a, (x + 1) % 5, z - 1)))
  {
    hide At;
  }

  lemma SameThetaSameParity(a: State, b: State, c: State)
    requires IsTheta(a, c) && IsTheta(b, c)
    ensures Annihilated(a, b, 1, 1)
  {
    hide IsTheta, Column;
    forall x, z: bv6 | 0 <= x < 5 ensures CancelledAt(a, b, 1, 1, x, z) {
      ParityAfterTheta(a, c, x, z);
      ParityAfterTheta(b, c, x, z);
    }
  }

  /** Without the rotation, 1 + X + X^-1 has an inverse on five columns. */
  lemma FiveColumns(a: State, b: State, x: int, z: bv6)
    requires Annihilated(a, b, 64, 0) && 0 <= x < 5
    ensures !Differ(a, b, x, z)
  {
    hide Differ;
    assert Back(z, 0) == z;
    assert CancelledAt(a, b, 64, 0, 0, z) && CancelledAt(a, b, 64, 0, 1, z) && CancelledAt(a, b, 64, 0, 2, z);
    assert CancelledAt(a, b, 64, 0, 3, z) && CancelledAt(a, b, 64, 0, 4, z);
  }

  lemma SixSquarings(a: State, b: State)
    requires Annihilated(a, b, 1, 1)
    ensures Annihilated(a, b, 64, 0)
  {
    hide Annihilated;
    Squared(a, b, 1, 1);
    Squared(a, b, 2, 2);
    Squared(a, b, 4, 4);
    Squared(a, b, 8, 8);
    Squared(a, b, 16, 16);
    Squared(a, b, 32, 32);
  }

  lemma ThetaIsOneToOne(a: State, b: State, c: State)
    requires IsTheta(a, c) && IsTheta(b, c)
    ensures a == b
  {
    hide At, Column, Annihilated;
    SameThetaSameParity(a, b, c);
    SixSquarings(a, b);
    forall x, y, z: bv6 | 0 <= x < 5 && 0 <= y < 5 ensures At(a, x, y, z) == At(b, x, y, z) {
      FiveColumns(a, b, (x + 4) % 5, z);
      FiveColumns(a, b, (x + 1) % 5, z - 1);
      ThetaAt(a, c, x, y, z);
      ThetaAt(b, c, x, y, z);
    }
    StateFromBits(a, b);
  }

  lemma RhoIsOneToOne(a: State, b: State, c: State)
    requires IsRho(a, c) && IsRho(b, c)
    ensures a == b
  {
    hide At, RhoShift;
    forall x, y, z: bv6 | 0 <= x < 5 && 0 <= y < 5 ensures At(a, x, y, z) == At(b, x, y, z) {
      var z' := z + RhoShift(x, y);
      assert z' - RhoShift(x, y) == z;
      assert At(c, x, y, z') == At(a, x, y, z) && At(c, x, y, z') == At(b, x, y, z);
    }
    StateFromBits(a, b);
  }

  lemma PiIsOneToOne(a: State, b: State, c: State)
    requires IsPi(a, c) && IsPi(b, c)
    ensures a == b
  {
    hide At;
    forall x, y, z: bv6 | 0 <= x < 5 && 0 <= y < 5 ensures At(a, x, y, z) == At(b, x, y, z) {
      var v := (2 * x + 3 * y) % 5;
      assert (y + 3 * v) % 5 == x;
      assert At(c, y, v, z) == At(a, x, y, z) && At(c, y, v, z) == At(b, x, y, z);
    }
    StateFromBits(a, b);
  }

  predicate ChiRow(a: bool, b: bool, c: bool) { Xor(a, !b && c) }

  lemma ChiRowIsOneToOne(a0: bool, a1: bool, a2: bool, a3: bool, a4: bool, b0: bool, b1: bool, b2: bool, b3: bool,
                         b4: bool)
    requires ChiRow(a0, a1, a2) == ChiRow(b0, b1, b2) && ChiRow(a1, a2, a3) == ChiRow(b1, b2, b3)
    requires ChiRow(a2, a3, a4) == ChiRow(b2, b3, b4) && ChiRow(a3, a4, a0) == ChiRow(b3, b4, b0)
    requires ChiRow(a4, a0, a1) == ChiRow(b4, b0, b1)
    ensures a0 == b0 && a1 == b1 && a2 == b2 && a3 == b3 && a4 == b4
  {
  }

  lemma ChiAt(a: State, c: State, x: int, y: int, z: bv6)
    requires IsChi(a, c) && 0 <= x < 5 && 0 <= y < 5
    ensures At(c, x, y, z) == ChiRow(At(a, x, y, z), At(a, (x + 1) % 5, y, z), At(a, (x + 2) % 5, y, z))
  {
    hide At;
  }

  lemma ChiIsOneToOne(a: State, b: State, c: State)
    requires IsChi(a, c) && IsChi(b, c)
    ensures a == b
  {
    hide At, IsChi, ChiRow;
    forall x, y, z: bv6 | 0 <= x < 5 && 0 <= y < 5 ensures At(a, x, y, z) == At(b, x, y, z) {
      ChiAt(a, c, 0, y, z); ChiAt(a, c, 1, y, z); ChiAt(a, c, 2, y, z); ChiAt(a, c, 3, y, z); ChiAt(a, c, 4, y, z);
      ChiAt(b, c, 0, y, z); ChiAt(b, c, 1, y, z); ChiAt(b, c, 2, y, z); ChiAt(b, c, 3, y, z); ChiAt(b, c, 4, y, z);
      ChiRowIsOneToOne(At(a, 0, y, z), At(a, 1, y, z), At(a, 2, y, z), At(a, 3, y, z), At(a, 4, y, z),
                       At(b, 0, y, z), At(b, 1, y, z), At(b, 2, y, z), At(b, 3, y, z), At(b, 4, y, z));
    }
    StateFromBits(a, b);
  }

  lemma IotaAt(a: State, c: State, ir: nat, x: int, y: int, z: bv6)
    requires IsIota(a, c, ir) && 0 <= x < 5 && 0 <= y < 5
    ensures At(c, x, y, z) == Xor(At(a, x, y, z), x == 0 && y == 0 && RoundConstantBit(ir, z))
  {
    hide At, RoundConstantBit;
  }

  lemma IotaIsOneToOne(a: State, b: State, c: State, ir: nat)
    requires IsIota(a, c, ir) && IsIota(b, c, ir)
    ensures a == b
  {
    hide At, RoundConstantBit, IsIota;
    forall x, y, z: bv6 | 0 <= x < 5 && 0 <= y < 5 ensures At(a, x, y, z) == At(b, x, y, z) {
      IotaAt(a, c, ir, x, y, z);
      IotaAt(b, c, ir, x, y, z);
    }
    StateFromBits(a, b);
  }

  lemma RoundIsOneToOne(a: State, b: State, c: State, ir: nat)
    requires IsRound(a, c, ir) && IsRound(b, c, ir)
    ensures a == b
  {
    hide IsTheta, IsRho, IsPi, IsChi, IsIota;
    var t, r, p, q :| IsTheta(a, t) && IsRho(t, r) && IsPi(r, p) && IsChi(p, q) && IsIota(q, c, ir);
    var t', r', p', q' :| IsTheta(b, t') && IsRho(t', r') && IsPi(r', p') && IsChi(p', q') && IsIota(q', c, ir);
    IotaIsOneToOne(q, q', c, ir);
    ChiIsOneToOne(p, p', q);
    PiIsOneToOne(r, r', p);
    RhoIsOneToOne(t, t', r);
    ThetaIsOneToOne(a, b, t);
  }

  lemma {:induction false} RunsMeet(run: seq<State>, run': seq<State>, n: nat)
    requires IsRun(run) && IsRun(run') && |run| == |run'| && n < |run|
    requires run[n] == run'[n]
    ensures run[0] == run'[0]
  {
    hide IsRound;
    if n > 0 {
      assert IsRound(run[n - 1], run[n - 1 + 1], n - 1) && IsRound(run'[n - 1], run'[n - 1 + 1], n - 1);
      RoundIsOneToOne(run[n - 1], run'[n - 1], run[n], n - 1);
      RunsMeet(run, run', n - 1);
    }
  }

  lemma KeccakFIsOneToOne(a: State, b: State, c: State)
    requires IsKeccakF(a, c) && IsKeccakF(b, c)
    ensures a == b
  {
    hide IsRound;
    var run: seq<State> :| |run| == ROUNDS + 1 && IsRun(run) && run[0] == a && run[ROUNDS] == c;
    var run': seq<State> :| |run'| == ROUNDS + 1 && IsRun(run') && run'[0] == b && run'[ROUNDS] == c;
    RunsMeet(run, run', ROUNDS);
  }
}
