/**
 * keccak-f[1600] of client/src/chain/selector.ts against FIPS 202. A 64-bit lane is the list of its
 * bits, least significant first; the state holds lane (x, y) at index x + 5 y.
 */
module Keccak {
  type Lane = bits: seq<bool> | |bits| == 64 witness seq(64, _ => false)

  type StateArray = lanes: seq<Lane> | |lanes| == 25 witness seq(25, _ => seq(64, _ => false))

  function Zero(): Lane {
    seq(64, _ => false)
  }

  // ----- masked 64-bit arithmetic --------------------------------------------------------------

  function Xor(a: Lane, b: Lane): Lane {
    seq(64, z requires 0 <= z < 64 => a[z] != b[z])
  }

  function And(a: Lane, b: Lane): Lane {
    seq(64, z requires 0 <= z < 64 => a[z] && b[z])
  }

  function Or(a: Lane, b: Lane): Lane {
    seq(64, z requires 0 <= z < 64 => a[z] || b[z])
  }

  function Not(a: Lane): Lane {
    seq(64, z requires 0 <= z < 64 => !a[z])
  }

  /** `(a << n) & MASK64`. */
  function Shl(a: Lane, n: nat): Lane {
    seq(64, z requires 0 <= z < 64 => z >= n && a[z - n])
  }

  /** `a >> n`. */
  function Shr(a: Lane, n: nat): Lane {
    seq(64, z requires 0 <= z < 64 => z + n < 64 && a[z + n])
  }

  function Rotl(a: Lane, n: nat): Lane
    requires n <= 64
  {
    Or(Shl(a, n), Shr(a, 64 - n))
  }

  /** Bit z of the result is bit (z - n) mod 64 of the operand. */
  function Rotated(a: Lane, n: nat): Lane {
    seq(64, z requires 0 <= z < 64 => a[(z - n) % 64])
  }

  lemma RotlRotates(a: Lane, n: nat)
    requires n <= 64
    ensures Rotl(a, n) == Rotated(a, n)
  {
    forall z: nat | z < 64 ensures Rotl(a, n)[z] == a[(z - n) % 64] {
      if z < n {
        assert z + (64 - n) < 64 || n == 64;
      }
    }
  }

  // ----- the step mappings, section 3.2 of FIPS 202 --------------------------------------------

  /** Parity of the column (x, z), section 3.2.1. */
  function Parity(s: StateArray, x: nat, z: nat): bool
    requires x < 5 && z < 64
  {
    ((((s[x][z] != s[x + 5][z]) != s[x + 10][z]) != s[x + 15][z]) != s[x + 20][z])
  }

  function ThetaBit(s: StateArray, x: nat, z: nat): bool
    requires x < 5 && z < 64
  {
    Parity(s, (x + 4) % 5, z) != Parity(s, (x + 1) % 5, (z - 1) % 64)
  }

  function Theta(s: StateArray): StateArray {
    seq(25, k requires 0 <= k < 25 => ThetaLane(s, k))
  }

  function ThetaLane(s: StateArray, k: nat): Lane
    requires k < 25
  {
    seq(64, z requires 0 <= z < 64 => s[k][z] != ThetaBit(s, k % 5, z))
  }

  /** The lane visited at step t of section 3.2.2: (1, 0), then (x, y) becomes (y, 2 x + 3 y). */
  function Walk(t: nat): (k: nat)
    ensures k < 25
  {
    if t == 0 then 1 else Next(Walk(t - 1))
  }

  function Next(k: nat): (j: nat)
    requires k < 25
    ensures j < 25
  {
    var x, y := k % 5, k / 5;
    y + 5 * ((2 * x + 3 * y) % 5)
  }

  /** The offset of step t, a triangular number. */
  function Triangle(t: nat): nat {
    (t + 1) * (t + 2) / 2
  }

  /** The loop of section 3.2.2 after t steps. */
  function RhoSteps(s: StateArray, t: nat): StateArray {
    if t == 0 then s else RhoSteps(s, t - 1)[Walk(t - 1) := Rotated(s[Walk(t - 1)], Triangle(t - 1))]
  }

  function Rho(s: StateArray): StateArray {
    RhoSteps(s, 24)
  }

  /** The lane that section 3.2.3 moves to lane k. */
  function PiSource(k: nat): (j: nat)
    requires k < 25
    ensures j < 25
  {
    var x, y := k % 5, k / 5;
    (x + 3 * y) % 5 + 5 * x
  }

  function Pi(s: StateArray): StateArray {
    seq(25, k requires 0 <= k < 25 => s[PiSource(k)])
  }

  /** The lane d places to the right in the same row, cyclically. */
  function InRow(k: nat, d: nat): (j: nat)
    requires k < 25
    ensures j < 25
  {
    (k % 5 + d) % 5 + 5 * (k / 5)
  }

  /** Section 3.2.4. */
  function Chi(s: StateArray): StateArray {
    seq(25, k requires 0 <= k < 25 => ChiLane(s, k))
  }

  function ChiLane(s: StateArray, k: nat): Lane
    requires k < 25
  {
    seq(64, z requires 0 <= z < 64 => s[k][z] != (!s[InRow(k, 1)][z] && s[InRow(k, 2)][z]))
  }

  /** The register of section 3.2.5's algorithm rc. */
  datatype Register = Register(r0: bool, r1: bool, r2: bool, r3: bool, r4: bool, r5: bool, r6: bool, r7: bool)

  function Shifted(r: Register): Register {
    Register(r.r7, r.r0, r.r1, r.r2, r.r3 != r.r7, r.r4 != r.r7, r.r5 != r.r7, r.r6)
  }

  /** The register after t shifts; t stays below 255 here, so no reduction is needed. */
  function Lfsr(t: nat): Register {
    if t == 0 then Register(true, false, false, false, false, false, false, false) else Shifted(Lfsr(t - 1))
  }

  /** Bit z of the round constant: rc(j + 7 round) at z = 2^j - 1, otherwise 0. */
  function RoundBit(round: nat, z: nat): bool {
    if z == 0 then Lfsr(7 * round).r0
    else if z == 1 then Lfsr(7 * round + 1).r0
    else if z == 3 then Lfsr(7 * round + 2).r0
    else if z == 7 then Lfsr(7 * round + 3).r0
    else if z == 15 then Lfsr(7 * round + 4).r0
    else if z == 31 then Lfsr(7 * round + 5).r0
    else if z == 63 then Lfsr(7 * round + 6).r0
    else false
  }

  function RoundLane(round: nat): Lane {
    seq(64, z requires 0 <= z < 64 => RoundBit(round, z))
  }

  function Iota(s: StateArray, round: nat): StateArray {
    s[0 := Xor(s[0], RoundLane(round))]
  }

  /** Section 3.3: one round, then Keccak-p[1600] with the given number of rounds from the first. */
  function Round(s: StateArray, round: nat): StateArray {
    Iota(Chi(Pi(Rho(Theta(s)))), round)
  }

  function Rounds(s: StateArray, n: nat): StateArray {
    if n == 0 then s else Round(Rounds(s, n - 1), n - 1)
  }

  function KeccakP(s: StateArray): StateArray {
    Rounds(s, 24)
  }

  // ----- the tables ----------------------------------------------------------------------------

  /** The table `PI`. */
  function PI(k: nat): nat
    requires k < 24
  {
    match k
    case 0 => 10 case 1 => 7 case 2 => 11 case 3 => 17 case 4 => 18 case 5 => 3
    case 6 => 5 case 7 => 16 case 8 => 8 case 9 => 21 case 10 => 24 case 11 => 4
    case 12 => 15 case 13 => 23 case 14 => 19 case 15 => 13 case 16 => 12 case 17 => 2
    case 18 => 20 case 19 => 14 case 20 => 22 case 21 => 9 case 22 => 6 case _ => 1
  }

  /** The table `ROT`. */
  function ROT(k: nat): nat
    requires k < 24
  {
    match k
    case 0 => 1 case 1 => 3 case 2 => 6 case 3 => 10 case 4 => 15 case 5 => 21
    case 6 => 28 case 7 => 36 case 8 => 45 case 9 => 55 case 10 => 2 case 11 => 14
    case 12 => 27 case 13 => 41 case 14 => 56 case 15 => 8 case 16 => 25 case 17 => 43
    case 18 => 62 case 19 => 18 case 20 => 39 case 21 => 61 case 22 => 20 case _ => 44
  }

  /** The lane the in-place chain holds before step k. */
  function Source(k: nat): nat
    requires k <= 24
  {
    if k == 0 then 1 else PI(k - 1)
  }

  lemma FirstEntriesFollowWalk(k: nat)
    requires 0 <= k < 8
    ensures Source(k) < 25 && PI(k) == Next(Source(k))
  {
    match k
    case 0 => case 1 => case 2 => case 3 => case 4 => case 5 => case 6 => case _ =>
  }

  lemma SecondEntriesFollowWalk(k: nat)
    requires 8 <= k < 16
    ensures Source(k) < 25 && PI(k) == Next(Source(k))
  {
    match k
    case 8 => case 9 => case 10 => case 11 => case 12 => case 13 => case 14 => case _ =>
  }

  lemma ThirdEntriesFollowWalk(k: nat)
    requires 16 <= k < 24
    ensures Source(k) < 25 && PI(k) == Next(Source(k))
  {
    match k
    case 16 => case 17 => case 18 => case 19 => case 20 => case 21 => case 22 => case _ =>
  }

  /** The walk goes from one entry of the table to the next. */
  lemma PiFollowsWalk(k: nat)
    requires k < 24
    ensures Source(k) < 25 && PI(k) == Next(Source(k))
  {
    hide PI, Next, Source;
    if k < 8 {
      FirstEntriesFollowWalk(k);
    } else if k < 16 {
      SecondEntriesFollowWalk(k);
    } else {
      ThirdEntriesFollowWalk(k);
    }
  }

  /** Pi undoes the walk: it fills the next lane from the one before. */
  lemma PiUndoesWalk(k: nat)
    requires k < 25
    ensures PiSource(Next(k)) == k
  {
    var x, y := k % 5, k / 5;
    var m, q := (2 * x + 3 * y) % 5, (2 * x + 3 * y) / 5;
    Coordinates(y, m);
    PiSourceAt(y, m, x, x + 2 * y - 3 * q);
  }

  lemma Coordinates(x: nat, y: nat)
    requires x < 5 && y < 5
    ensures x + 5 * y < 25 && (x + 5 * y) % 5 == x && (x + 5 * y) / 5 == y
  {
  }

  lemma PiSourceAt(y: nat, m: nat, x: nat, n: int)
    requires y < 5 && m < 5 && x < 5 && y + 3 * m == x + 5 * n
    ensures PiSource(y + 5 * m) == x + 5 * y
  {
    Coordinates(y, m);
    ModShift(x, n);
  }

  lemma ModShift(x: nat, n: int)
    requires x < 5
    ensures (x + 5 * n) % 5 == x
  {
  }

  lemma TriangleStep(k: nat)
    requires k > 0
    ensures Triangle(k) == Triangle(k - 1) + k + 1
  {
    assert (k + 1) * (k + 2) == k * (k + 1) + 2 * (k + 1);
  }

  lemma AddModulo(a: nat, b: nat)
    ensures (a % 64 + b) % 64 == (a + b) % 64
  {
  }

  lemma RotStep(k: nat)
    requires 0 < k < 24
    ensures ROT(k) == (ROT(k - 1) + k + 1) % 64
  {
  }

  lemma {:induction false} RotIsTriangle(k: nat)
    requires k < 24
    ensures ROT(k) == Triangle(k) % 64 && ROT(k) <= 64
  {
    if k > 0 {
      RotIsTriangle(k - 1);
      RotStep(k);
      TriangleStep(k);
      hide ROT, Triangle;
      AddModulo(Triangle(k - 1), k + 1);
    }
  }

  /** The walk of section 3.2.2 visits the lanes in the order of the table. */
  lemma {:induction false} WalkIsSource(t: nat)
    requires t <= 24
    ensures Source(t) < 25 && Walk(t) == Source(t)
  {
    if t > 0 {
      WalkIsSource(t - 1);
      PiFollowsWalk(t - 1);
    }
  }

  /** The table `RC`. */
  function RC(round: nat): nat
    requires round < 24
  {
    match round
    case 0 => 0x1
    case 1 => 0x8082
    case 2 => 0x800000000000808a
    case 3 => 0x8000000080008000
    case 4 => 0x808b
    case 5 => 0x80000001
    case 6 => 0x8000000080008081
    case 7 => 0x8000000000008009
    case 8 => 0x8a
    case 9 => 0x88
    case 10 => 0x80008009
    case 11 => 0x8000000a
    case 12 => 0x8000808b
    case 13 => 0x800000000000008b
    case 14 => 0x8000000000008089
    case 15 => 0x8000000000008003
    case 16 => 0x8000000000008002
    case 17 => 0x8000000000000080
    case 18 => 0x800a
    case 19 => 0x800000008000000a
    case 20 => 0x8000000080008081
    case 21 => 0x8000000000008080
    case 22 => 0x80000001
    case _ => 0x8000000080008008
  }

  function Pow2(n: nat): (r: nat)
    ensures r >= 1
  {
    if n == 0 then 1 else 2 * Pow2(n - 1)
  }

  /** The number whose binary digits, least significant first, are `bits`. */
  function Value(bits: seq<bool>): nat {
    if bits == [] then 0 else (if bits[0] then 1 else 0) + 2 * Value(bits[1..])
  }

  /** Binary digit z of a number. */
  function Digit(n: nat, z: nat): bool {
    (n / Pow2(z)) % 2 == 1
  }

  function LaneOf(n: nat): Lane {
    seq(64, z requires 0 <= z < 64 => Digit(n, z))
  }

  lemma {:induction false} DigitOfValue(bits: seq<bool>, z: nat)
    requires z < |bits|
    ensures Digit(Value(bits), z) == bits[z]
  {
    var n := Value(bits);
    if z == 0 {
      assert Pow2(0) == 1;
    } else {
      DigitOfValue(bits[1..], z - 1);
      HalfDigit(n, z);
      assert n / 2 == Value(bits[1..]);
    }
  }

  lemma HalfDigit(n: nat, z: nat)
    requires z > 0
    ensures Digit(n, z) == Digit(n / 2, z - 1)
  {
    var p := Pow2(z - 1);
    DivTwice(n, p);
  }

  lemma DivTwice(n: nat, p: nat)
    requires p >= 1
    ensures n / (2 * p) == n / 2 / p
  {
    var q, r := n / 2 / p, n / 2 % p;
    assert n / 2 == q * p + r;
    assert n == 2 * (q * p + r) + n % 2;
    DivUnique(n, 2 * p, q, 2 * r + n % 2);
  }

  lemma DivUnique(n: nat, d: nat, q: nat, r: nat)
    requires d >= 1 && r < d && n == q * d + r
    ensures n / d == q
  {
    var e, m := n / d, n % d;
    assert n == e * d + m;
    GapIsZero(q - e, d, m - r);
  }

  lemma GapIsZero(gap: int, d: nat, rest: int)
    requires -(d as int) < rest < d && gap * d == rest
    ensures gap == 0
  {
  }

  function Zeros(n: nat): (r: seq<bool>)
    ensures |r| == n && forall i :: 0 <= i < n ==> !r[i]
  {
    seq(n, _ => false)
  }

  /** A gap of zeros and one more digit. */
  lemma {:induction false} ValueGap(n: nat, tail: seq<bool>)
    ensures Value(Zeros(n) + tail) == Pow2(n) * Value(tail)
  {
    if n == 0 {
      assert Zeros(0) + tail == tail;
    } else {
      assert (Zeros(n) + tail)[1..] == Zeros(n - 1) + tail;
      ValueGap(n - 1, tail);
      assert 2 * (Pow2(n - 1) * Value(tail)) == Pow2(n) * Value(tail);
    }
  }

  lemma Powers()
    ensures Pow2(1) == 2 && Pow2(3) == 8 && Pow2(7) == 128 && Pow2(15) == 32768 && Pow2(31) == 2147483648
  {
    assert Pow2(3) == 2 * Pow2(2) && Pow2(2) == 2 * Pow2(1) && Pow2(1) == 2 * Pow2(0);
    assert Pow2(7) == 2 * Pow2(6) && Pow2(6) == 2 * Pow2(5) && Pow2(5) == 2 * Pow2(4) && Pow2(4) == 2 * Pow2(3);
    Pow2Sum(7, 7);
    Pow2Sum(15, 15);
    assert Pow2(15) == 2 * Pow2(14) && Pow2(31) == 2 * Pow2(30);
  }

  lemma {:induction false} Pow2Sum(a: nat, b: nat)
    ensures Pow2(a + b) == Pow2(a) * Pow2(b)
  {
    if b == 0 {
      assert Pow2(0) == 1;
    } else {
      Pow2Sum(a, b - 1);
      assert Pow2(a + b) == 2 * Pow2(a + (b - 1));
      assert Pow2(a) * (2 * Pow2(b - 1)) == 2 * (Pow2(a) * Pow2(b - 1));
    }
  }

  function Weight(b: bool, w: nat): nat {
    if b then w else 0
  }

  /** The constant that the register and its next six shifts give. */
  function Constant(g: Register): nat {
    var g1 := Shifted(g);
    var g2 := Shifted(g1);
    var g3 := Shifted(g2);
    var g4 := Shifted(g3);
    var g5 := Shifted(g4);
    var g6 := Shifted(g5);
    Weight(g.r0, 1) + Weight(g1.r0, 2) + Weight(g2.r0, 8) + Weight(g3.r0, 128) + Weight(g4.r0, 32768)
    + Weight(g5.r0, 2147483648) + Weight(g6.r0, 9223372036854775808)
  }

  function Seven(g: Register): Register {
    Shifted(Shifted(Shifted(Shifted(Shifted(Shifted(Shifted(g)))))))
  }

  lemma SevenShifts(t: nat)
    ensures Lfsr(t + 7) == Seven(Lfsr(t))
  {
    assert Lfsr(t + 7) == Shifted(Lfsr(t + 6));
    assert Lfsr(t + 6) == Shifted(Lfsr(t + 5));
    assert Lfsr(t + 5) == Shifted(Lfsr(t + 4));
    assert Lfsr(t + 4) == Shifted(Lfsr(t + 3));
    assert Lfsr(t + 3) == Shifted(Lfsr(t + 2));
    assert Lfsr(t + 2) == Shifted(Lfsr(t + 1));
  }

  /** The register a round starts from. */
  function Seed(round: nat): Register {
    match round
    case 0 => Register(true, false, false, false, false, false, false, false)
    case 1 => Register(false, false, false, false, false, false, false, true)
    case 2 => Register(false, false, false, true, true, false, true, true)
    case 3 => Register(false, true, false, true, true, false, false, false)
    case 4 => Register(true, true, true, true, true, false, true, true)
    case 5 => Register(true, false, false, true, false, false, false, false)
    case 6 => Register(true, false, true, false, true, true, false, false)
    case 7 => Register(true, true, true, true, false, false, true, false)
    case 8 => Register(false, true, false, true, false, false, true, true)
    case 9 => Register(false, false, false, false, true, true, true, false)
    case 10 => Register(true, false, false, false, false, false, true, false)
    case 11 => Register(false, false, true, true, false, true, true, true)
    case 12 => Register(true, false, true, false, true, false, true, true)
    case 13 => Register(true, false, true, true, false, false, true, true)
    case 14 => Register(true, true, false, false, false, true, true, false)
    case 15 => Register(true, true, false, true, false, true, false, true)
    case 16 => Register(false, true, false, true, false, true, false, true)
    case 17 => Register(false, true, false, true, false, true, false, false)
    case 18 => Register(false, true, false, false, true, true, true, true)
    case 19 => Register(false, false, false, true, false, true, true, true)
    case 20 => Register(true, true, true, false, true, true, false, false)
    case 21 => Register(false, true, true, true, true, true, false, false)
    case 22 => Register(true, true, false, true, false, false, false, false)
    case 23 => Register(false, false, true, false, false, false, true, false)
    case _ => Register(false, true, true, true, false, false, false, true)
  }

  /** The constant straight from the register's bits. */
  function Direct(g: Register): nat {
    var x5, x4 := g.r5 != g.r7, (g.r4 != g.r7) != g.r6;
    Weight(g.r0, 1) + Weight(g.r7, 2) + Weight(g.r6, 8) + Weight(x5, 128) + Weight(x4, 32768)
    + Weight(((g.r3 != g.r7) != g.r6) != x5, 2147483648) + Weight(((g.r2 != g.r6) != x5) != x4, 9223372036854775808)
  }

  lemma ConstantIsDirect(g: Register)
    ensures Constant(g) == Direct(g)
  {
    hide Weight;
  }

  lemma EarlyConstants(round: nat)
    requires round < 12
    ensures Direct(Seed(round)) == RC(round)
  {
    match round
    case 0 => case 1 => case 2 => case 3 => case 4 => case 5 => case 6 => case 7 => case 8 => case 9 => case 10 => case 11 => case _ =>
  }

  lemma LateConstants(round: nat)
    requires 12 <= round < 24
    ensures Direct(Seed(round)) == RC(round)
  {
    match round
    case 12 => case 13 => case 14 => case 15 => case 16 => case 17 => case 18 => case 19 => case 20 => case 21 => case 22 => case _ =>
  }

  /** Seven shifts lead from one seed to the next. */
  lemma SeedsFollow(round: nat)
    requires round < 24
    ensures Seven(Seed(round)) == Seed(round + 1)
  {
    match round
    case 0 => case 1 => case 2 => case 3 => case 4 => case 5 => case 6 => case 7 => case 8 => case 9 => case 10 => case 11 =>
    case 12 => case 13 => case 14 => case 15 => case 16 => case 17 => case 18 => case 19 => case 20 => case 21 => case 22 => case _ =>
  }

  lemma {:induction false} SeedsAreRegisters(round: nat)
    requires round <= 24
    ensures Lfsr(7 * round) == Seed(round)
  {
    if round > 0 {
      SeedsAreRegisters(round - 1);
      SevenShifts(7 * (round - 1));
      SeedsFollow(round - 1);
    } else {
      assert Lfsr(0).r0;
    }
  }

  predicate ZerosBetween(lane: Lane, lo: nat, hi: nat) {
    forall z: nat :: lo < z < hi && z < 64 ==> !lane[z]
  }

  /** A digit and the zeros up to the next one. */
  lemma Gap(lane: Lane, lo: nat, hi: nat)
    requires lo < hi < 64 && ZerosBetween(lane, lo, hi)
    ensures lane[lo..] == [lane[lo]] + (Zeros(hi - lo - 1) + lane[hi..])
  {
  }

  lemma RoundZeros(round: nat)
    ensures var lane := RoundLane(round);
            && ZerosBetween(lane, 1, 3) && ZerosBetween(lane, 3, 7) && ZerosBetween(lane, 7, 15)
            && ZerosBetween(lane, 15, 31) && ZerosBetween(lane, 31, 63)
  {
    hide Lfsr;
  }

  /** The round lane as a sparse list of digits. */
  lemma RoundLaneSplit(round: nat)
    ensures RoundLane(round) == [RoundBit(round, 0)] + ([RoundBit(round, 1)] + (Zeros(1) + ([RoundBit(round, 3)]
              + (Zeros(3) + ([RoundBit(round, 7)] + (Zeros(7) + ([RoundBit(round, 15)] + (Zeros(15)
              + ([RoundBit(round, 31)] + (Zeros(31) + [RoundBit(round, 63)]))))))))))
  {
    var lane := RoundLane(round);
    RoundZeros(round);
    hide ZerosBetween, Lfsr, RoundBit, Zeros;
    LastDigit(lane);
    Gap(lane, 31, 63);
    Gap(lane, 15, 31);
    Gap(lane, 7, 15);
    Gap(lane, 3, 7);
    Gap(lane, 1, 3);
    FirstDigit(lane);
  }

  lemma FirstDigit(lane: Lane)
    ensures lane == [lane[0]] + lane[1..]
  {
  }

  lemma LastDigit(lane: Lane)
    ensures lane[63..] == [lane[63]]
  {
  }

  lemma ValueCons(b: bool, tail: seq<bool>)
    ensures Value([b] + tail) == Weight(b, 1) + 2 * Value(tail)
  {
    assert ([b] + tail)[1..] == tail;
  }

  /** A digit, a gap of n zeros, and the rest. */
  lemma ValueStep(b: bool, n: nat, tail: seq<bool>)
    ensures Value([b] + (Zeros(n) + tail)) == Weight(b, 1) + 2 * (Pow2(n) * Value(tail))
  {
    ValueCons(b, Zeros(n) + tail);
    ValueGap(n, tail);
  }

  lemma SparseValue(b0: bool, b1: bool, b3: bool, b7: bool, b15: bool, b31: bool, b63: bool)
    ensures Value([b0] + ([b1] + (Zeros(1) + ([b3] + (Zeros(3) + ([b7] + (Zeros(7) + ([b15] + (Zeros(15)
              + ([b31] + (Zeros(31) + [b63])))))))))))
         == Weight(b0, 1) + Weight(b1, 2) + Weight(b3, 8) + Weight(b7, 128) + Weight(b15, 32768)
            + Weight(b31, 2147483648) + Weight(b63, 9223372036854775808)
  {
    Powers();
    var t31 := [b31] + (Zeros(31) + [b63]);
    var t15 := [b15] + (Zeros(15) + t31);
    var t7 := [b7] + (Zeros(7) + t15);
    var t3 := [b3] + (Zeros(3) + t7);
    var t1 := [b1] + (Zeros(1) + t3);
    ValueCons(b63, []);
    assert [b63] + [] == [b63];
    ValueStep(b31, 31, [b63]);
    ValueStep(b15, 15, t31);
    ValueStep(b7, 7, t15);
    ValueStep(b3, 3, t7);
    ValueStep(b1, 1, t3);
    ValueCons(b0, t1);
    hide Value, Pow2, Zeros;
  }

  /** The table of round constants is the one section 3.2.5 computes. */
  lemma ConstantsAreStandard(round: nat)
    requires round < 24
    ensures LaneOf(RC(round)) == RoundLane(round)
  {
    hide RC, Constant, Weight, RoundBit, Value, RoundLane, Digit, LaneOf, Lfsr;
    TableIsLfsr(round);
    RoundDigits(round);
    RoundLaneSplit(round);
    SparseValue(RoundBit(round, 0), RoundBit(round, 1), RoundBit(round, 3), RoundBit(round, 7), RoundBit(round, 15),
                RoundBit(round, 31), RoundBit(round, 63));
    DigitsOfValue(RoundLane(round), RC(round));
  }

  lemma DigitsOfValue(lane: Lane, n: nat)
    requires Value(lane) == n
    ensures LaneOf(n) == lane
  {
    hide Digit;
    forall z: nat | z < 64 ensures Digit(n, z) == lane[z] {
      DigitOfValue(lane, z);
    }
  }

  lemma TableIsLfsr(round: nat)
    requires round < 24
    ensures RC(round) == Constant(Lfsr(7 * round))
  {
    hide Seed, RC, Constant, Direct;
    SeedsAreRegisters(round);
    ConstantIsDirect(Seed(round));
    if round < 12 { EarlyConstants(round); } else { LateConstants(round); }
  }

  lemma RoundDigits(round: nat)
    ensures Constant(Lfsr(7 * round))
         == Weight(RoundBit(round, 0), 1) + Weight(RoundBit(round, 1), 2) + Weight(RoundBit(round, 3), 8)
            + Weight(RoundBit(round, 7), 128) + Weight(RoundBit(round, 15), 32768)
            + Weight(RoundBit(round, 31), 2147483648) + Weight(RoundBit(round, 63), 9223372036854775808)
  {
    var t := 7 * round;
    assert Lfsr(t + 2) == Shifted(Lfsr(t + 1));
    assert Lfsr(t + 3) == Shifted(Lfsr(t + 2));
    assert Lfsr(t + 4) == Shifted(Lfsr(t + 3));
    assert Lfsr(t + 5) == Shifted(Lfsr(t + 4));
    assert Lfsr(t + 6) == Shifted(Lfsr(t + 5));
    hide Shifted;
  }

  // ----- the permutation in place --------------------------------------------------------------

  ghost function Contents(a: array<Lane>): StateArray
    reads a
    requires a.Length == 25
  {
    a[..]
  }

  /** The theta loops: column parities first, then every lane. */
  method ThetaStep(a: array<Lane>)
    requires a.Length == 25
    modifies a
    ensures Contents(a) == Theta(old(Contents(a)))
  {
    hide Xor, Rotl, ParityLane, ThetaLane;
    ghost var s := Contents(a);
    var c := new Lane[5](_ => Zero());
    for x := 0 to 5
      invariant Contents(a) == s
      invariant forall i: nat :: i < x ==> c[i] == ParityLane(s, i)
    {
      c[x] := Xor(Xor(Xor(Xor(a[x], a[x + 5]), a[x + 10]), a[x + 15]), a[x + 20]);
      ParityIsXor(s, x);
    }
    for x := 0 to 5
      invariant forall i: nat :: i < 5 ==> c[i] == ParityLane(s, i)
      invariant forall k: nat :: k < 25 ==> a[k] == if k % 5 < x then ThetaLane(s, k) else s[k]
    {
      var d := Xor(c[(x + 4) % 5], Rotl(c[(x + 1) % 5], 1));
      ThetaColumn(a, x, d);
      forall k: nat | k < 25 && k % 5 == x ensures a[k] == ThetaLane(s, k) {
        ThetaIsXor(s, k);
      }
    }
    assert Contents(a) == Theta(s);
  }

  /** The inner loop: one column of five lanes. */
  method ThetaColumn(a: array<Lane>, x: nat, d: Lane)
    requires a.Length == 25 && x < 5
    modifies a
    ensures forall k: nat :: k < 25 ==> a[k] == if k % 5 == x then Xor(old(a[k]), d) else old(a[k])
  {
    hide Xor;
    var y := 0;
    while y < 25
      invariant y % 5 == 0 && y <= 25
      invariant forall k: nat :: k < 25 ==> a[k] == if k % 5 == x && k < y then Xor(old(a[k]), d) else old(a[k])
    {
      a[x + y] := Xor(a[x + y], d);
      y := y + 5;
    }
  }

  function ParityLane(s: StateArray, x: nat): Lane
    requires x < 5
  {
    seq(64, z requires 0 <= z < 64 => Parity(s, x, z))
  }

  lemma ParityIsXor(s: StateArray, x: nat)
    requires x < 5
    ensures Xor(Xor(Xor(Xor(s[x], s[x + 5]), s[x + 10]), s[x + 15]), s[x + 20]) == ParityLane(s, x)
  {
  }

  lemma ThetaIsXor(s: StateArray, k: nat)
    requires k < 25
    ensures Xor(s[k], Xor(ParityLane(s, (k % 5 + 4) % 5), Rotl(ParityLane(s, (k % 5 + 1) % 5), 1))) == ThetaLane(s, k)
  {
    RotlRotates(ParityLane(s, (k % 5 + 1) % 5), 1);
    hide Rotl, Parity;
  }

  /** The step that writes lane j: the inverse of the table `PI`. */
  function Slot(j: nat): (k: nat)
    requires 1 <= j < 25
    ensures k < 24
  {
    match j
    case 1 => 23 case 2 => 17 case 3 => 5 case 4 => 11 case 5 => 6 case 6 => 22
    case 7 => 1 case 8 => 8 case 9 => 21 case 10 => 0 case 11 => 2 case 12 => 16
    case 13 => 15 case 14 => 19 case 15 => 12 case 16 => 7 case 17 => 3 case 18 => 4
    case 19 => 14 case 20 => 18 case 21 => 9 case 22 => 20 case 23 => 13 case _ => 10
  }

  lemma SlotInvertsPi(k: nat)
    requires k < 24
    ensures 1 <= PI(k) < 25 && Slot(PI(k)) == k
  {
  }

  lemma PiInvertsSlot(j: nat)
    requires 1 <= j < 25
    ensures PI(Slot(j)) == j
  {
  }

  /** The walk visits each lane but lane 0 once. */
  lemma WalkIsInjective(k: nat, m: nat)
    requires k < m < 24
    ensures Walk(k) != Walk(m) && Walk(k) != 0 && Walk(m) != 0
  {
    hide Walk;
    WalkIsSource(k);
    WalkIsSource(m);
    hide PI, Slot;
    SlotInvertsPi(m - 1);
    if k > 0 {
      SlotInvertsPi(k - 1);
    } else {
      SlotInvertsPi(23);
      LastReturns();
    }
  }

  lemma LastReturns()
    ensures PI(23) == 1
  {
  }

  lemma {:induction false} RhoStepsAt(s: StateArray, t: nat, k: nat)
    requires t <= 24 && k < 24
    ensures RhoSteps(s, t)[Walk(k)] == if k < t then Rotated(s[Walk(k)], Triangle(k)) else s[Walk(k)]
    ensures RhoSteps(s, t)[0] == s[0]
  {
    hide Rotated, Triangle, Walk;
    if t > 0 {
      RhoStepsAt(s, t - 1, k);
      if k < t - 1 {
        WalkIsInjective(k, t - 1);
      } else if k > t - 1 {
        WalkIsInjective(t - 1, k);
      } else if k > 0 {
        WalkIsInjective(0, k);
      } else {
        WalkIsInjective(0, 1);
      }
    }
  }

  lemma RotatedModulo(a: Lane, n: nat)
    ensures Rotated(a, n) == Rotated(a, n % 64)
  {
    forall z: nat | z < 64 ensures Rotated(a, n)[z] == Rotated(a, n % 64)[z] {
      assert n == 64 * (n / 64) + n % 64;
      SubModulo(z - n % 64, n / 64);
    }
  }

  lemma SubModulo(a: int, q: int)
    ensures (a - 64 * q) % 64 == a % 64
  {
  }

  /** What the tables say of the step that writes lane j. */
  lemma SlotFacts(j: nat)
    requires 1 <= j < 25
    ensures var k := Slot(j); Source(k) < 25 && PiSource(j) == Source(k) == Walk(k) && ROT(k) == Triangle(k) % 64 <= 64
  {
    var k := Slot(j);
    PiInvertsSlot(j);
    PiFollowsWalk(k);
    PiUndoesWalk(Source(k));
    WalkIsSource(k);
    RotIsTriangle(k);
    hide Slot, PI, ROT, Next, Triangle;
  }

  /** Lane j after rho and pi, in terms of the tables. */
  lemma RhoPiLane(s: StateArray, j: nat)
    requires 1 <= j < 25
    ensures Source(Slot(j)) < 25 && ROT(Slot(j)) <= 64
    ensures Pi(Rho(s))[j] == Rotl(s[Source(Slot(j))], ROT(Slot(j)))
  {
    hide Slot, ROT, Source, Walk, Triangle, Rotated, Rotl, RhoSteps, PiSource;
    var k := Slot(j);
    SlotFacts(j);
    RhoStepsAt(s, 24, k);
    RotatedModulo(s[Walk(k)], Triangle(k));
    RotlRotates(s[Walk(k)], ROT(k));
  }

  /** The chain of rho and pi: each write's old value is the next one written. */
  method RhoPiStep(a: array<Lane>)
    requires a.Length == 25
    modifies a
    ensures Contents(a) == Pi(Rho(old(Contents(a))))
  {
    hide Rotl, Slot, PI, ROT, Source, ChainLane, Rho, Pi;
    ghost var s := Contents(a);
    var t := a[1];
    ChainStarts(s);
    for i := 0 to 24
      invariant Source(i) < 25 && t == s[Source(i)] && a[0] == s[0]
      invariant forall j: nat :: 1 <= j < 25 ==> a[j] == ChainLane(s, j, i)
    {
      ChainStep(s, i);
      var j := PI(i);
      var tmp := a[j];
      a[j] := Rotl(t, ROT(i));
      t := tmp;
    }
    ChainEnds(s);
    assert Contents(a) == Pi(Rho(s));
  }

  /** Lane j once i steps of the chain are done. */
  function ChainLane(s: StateArray, j: nat, i: nat): Lane
    requires 1 <= j < 25
  {
    RhoPiLane(s, j);
    if Slot(j) < i then Rotl(s[Source(Slot(j))], ROT(Slot(j))) else s[j]
  }

  lemma ChainStarts(s: StateArray)
    ensures Source(0) == 1 && forall j: nat :: 1 <= j < 25 ==> ChainLane(s, j, 0) == s[j]
  {
  }

  lemma ChainStep(s: StateArray, i: nat)
    requires i < 24
    ensures 1 <= PI(i) < 25 && ROT(i) <= 64 && Source(i) < 25 && Source(i + 1) == PI(i)
    ensures ChainLane(s, PI(i), i) == s[PI(i)] && ChainLane(s, PI(i), i + 1) == Rotl(s[Source(i)], ROT(i))
    ensures forall j: nat :: 1 <= j < 25 && j != PI(i) ==> ChainLane(s, j, i + 1) == ChainLane(s, j, i)
  {
    SlotInvertsPi(i);
    PiFollowsWalk(i);
    RotIsTriangle(i);
    hide Rotl, ROT, Triangle, Next;
    forall j: nat | 1 <= j < 25 && j != PI(i) ensures Slot(j) != i {
      PiInvertsSlot(j);
    }
    hide PI, Slot;
  }

  lemma ChainEnds(s: StateArray)
    ensures forall j: nat :: 1 <= j < 25 ==> ChainLane(s, j, 24) == Pi(Rho(s))[j]
    ensures Pi(Rho(s))[0] == s[0]
  {
    hide Rotl, ROT, Slot, Rho;
    forall j: nat | 1 <= j < 25 ensures ChainLane(s, j, 24) == Pi(Rho(s))[j] {
      RhoPiLane(s, j);
    }
    FirstLaneStays(s);
  }

  lemma FirstLaneStays(s: StateArray)
    ensures Rho(s)[0] == s[0]
  {
    RhoStepsAt(s, 24, 0);
  }

  /** One lane of a row after chi. */
  function ChiOf(row: seq<Lane>, x: nat): Lane
    requires |row| == 5 && x < 5
  {
    Xor(row[x], And(Not(row[(x + 1) % 5]), row[(x + 2) % 5]))
  }

  lemma ChiOfRow(s: StateArray, y: nat, x: nat)
    requires y % 5 == 0 && y < 25 && x < 5
    ensures ChiOf(s[y..y + 5], x) == ChiLane(s, y + x)
  {
    hide InRow, Xor, And, Not;
    var row, right, far := s[y..y + 5], (x + 1) % 5, (x + 2) % 5;
    assert row[x] == s[y + x] && row[right] == s[y + right] && row[far] == s[y + far];
    InRowOf(y, x, 1);
    InRowOf(y, x, 2);
    ChiIsAnd(s, y + x);
  }

  lemma InRowOf(y: nat, x: nat, d: nat)
    requires y % 5 == 0 && y < 25 && x < 5
    ensures y + x < 25 && InRow(y + x, d) == y + (x + d) % 5
  {
    assert (y + x) % 5 == x && 5 * ((y + x) / 5) == y;
  }

  lemma ChiIsAnd(s: StateArray, k: nat)
    requires k < 25
    ensures Xor(s[k], And(Not(s[InRow(k, 1)]), s[InRow(k, 2)])) == ChiLane(s, k)
  {
    hide InRow;
  }

  /** One row of chi. */
  method ChiRow(a: array<Lane>, y: nat)
    requires a.Length == 25 && y % 5 == 0 && y < 25
    modifies a
    ensures forall k: nat :: k < 25 ==> a[k] == if y <= k < y + 5 then ChiLane(old(Contents(a)), k) else old(a[k])
  {
    hide ChiOf, ChiLane;
    ghost var s := Contents(a);
    var row := [a[y], a[y + 1], a[y + 2], a[y + 3], a[y + 4]];
    assert row == s[y..y + 5];
    for x := 0 to 5
      invariant forall k: nat :: k < 25 ==> a[k] == if y <= k < y + x then ChiLane(s, k) else s[k]
    {
      ChiOfRow(s, y, x);
      a[y + x] := ChiOf(row, x);
    }
  }

  method ChiStep(a: array<Lane>)
    requires a.Length == 25
    modifies a
    ensures Contents(a) == Chi(old(Contents(a)))
  {
    hide ChiLane;
    ghost var s := Contents(a);
    var y := 0;
    while y < 25
      invariant y % 5 == 0 && y <= 25
      invariant forall k: nat :: k < 25 ==> a[k] == if k < y then ChiLane(s, k) else s[k]
    {
      ghost var now := Contents(a);
      ChiRow(a, y);
      forall k: nat | y <= k < y + 5 ensures ChiLane(now, k) == ChiLane(s, k) {
        ChiRowOnly(now, s, y, k);
      }
      y := y + 5;
    }
    assert Contents(a) == Chi(s);
  }

  /** Chi looks at one row only. */
  lemma ChiRowOnly(s: StateArray, t: StateArray, y: nat, k: nat)
    requires y % 5 == 0 && y <= k < y + 5 <= 25 && forall i: nat :: y <= i < y + 5 ==> s[i] == t[i]
    ensures ChiLane(s, k) == ChiLane(t, k)
  {
    assert y <= InRow(k, 1) < y + 5 && y <= InRow(k, 2) < y + 5;
  }

  /** `keccakF`: the permutation of section 3.3, in place, on every state. */
  method KeccakF(a: array<Lane>)
    requires a.Length == 25
    modifies a
    ensures Contents(a) == KeccakP(old(Contents(a)))
  {
    hide Theta, Rho, Pi, Chi, Xor, RC, LaneOf, RoundLane;
    ghost var s := Contents(a);
    for round := 0 to 24
      invariant Contents(a) == Rounds(s, round)
    {
      ThetaStep(a);
      RhoPiStep(a);
      ChiStep(a);
      ghost var t := Contents(a);
      ConstantsAreStandard(round);
      a[0] := Xor(a[0], LaneOf(RC(round)));
      assert Contents(a) == Iota(t, round);
    }
  }
}
