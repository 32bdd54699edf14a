/**
 * The seeded tables and lattice indexing of the 2D simplex noise (src/lib/noise.ts),
 * and the shape of its curl sampler over an arbitrary noise function.
 *
 * Table bytes (a Uint8Array) are `bv8`; the seed word goes through JavaScript's
 * 32-bit integer conversion and is a `bv32`. The lattice index `n & 255` is modelled
 * on unbounded integers with an explicit bitwise AND, so that it can be related to
 * Euclidean `%`. The floating-point value of the noise is not modelled.
 */
module Noise {

  datatype Grad = Grad(gx: int, gy: int)

  /** The eight gradient directions. */
  const GRAD3: seq<Grad> := [
    Grad(1, 1), Grad(-1, 1), Grad(1, -1), Grad(-1, -1),
    Grad(1, 0), Grad(-1, 0), Grad(0, 1), Grad(0, -1)
  ]

  /** The permutation table is 256 entries repeated twice. */
  const TABLE_LENGTH: nat := 512

  /** The seed the module applies when it is loaded. */
  const DEFAULT_SEED: real := 42.0

  /** The finite-difference step of the curl sampler. */
  const EPSILON: real := 0.001

  // ---------------------------------------------------------------------------
  // JavaScript 32-bit integer semantics
  // ---------------------------------------------------------------------------

  const TWO_POW_32: int := 0x1_0000_0000

  function Pow2(k: nat): (p: nat)
    ensures p >= 1
  {
    if k == 0 then 1 else 2 * Pow2(k - 1)
  }

  /** Bitwise AND of two non-negative integers, bit by bit from the least significant. */
  function BitAnd(a: nat, b: nat): nat
    decreases a
  {
    if a == 0 || b == 0 then 0
    else 2 * BitAnd(a / 2, b / 2) + (if a % 2 == 1 && b % 2 == 1 then 1 else 0)
  }

  /** ToUint32: the 32-bit pattern of an integer, read as unsigned. */
  function Uint32(n: int): (u: nat)
    ensures u < TWO_POW_32
  {
    n % TWO_POW_32
  }

  /** Reads an unsigned 32-bit pattern as a signed 32-bit integer. */
  function Int32(u: nat): int
    requires u < TWO_POW_32
  {
    if u >= 0x8000_0000 then u - TWO_POW_32 else u
  }

  /** JavaScript's `a & b`: both operands through ToInt32, the result signed. */
  function JsAnd(a: int, b: int): int
  {
    var u := BitAnd(Uint32(a), Uint32(b));
    BitAndBound(Uint32(a), Uint32(b));
    Int32(u)
  }

  /** The 32-bit pattern of an integer as a bit-vector (ToInt32 and ToUint32 share it). */
  function Bits32(n: int): bv32
  {
    (n % TWO_POW_32) as bv32
  }

  function LowByte(w: bv32): bv8
  {
    (w & 0xff) as bv8
  }

  // ---------------------------------------------------------------------------
  // Arithmetic helpers
  // ---------------------------------------------------------------------------

  lemma MulAtLeast(k: int, n: int)
    requires n > 0
    ensures k >= 1 ==> k * n >= n
    ensures k <= -1 ==> k * n <= -n
  {
    if k >= 1 {
      assert k * n == (k - 1) * n + n;
      assert (k - 1) * n >= 0;
    } else if k <= -1 {
      assert k * n == (k + 1) * n - n;
      assert (k + 1) * n <= 0;
    }
  }

  lemma ModUnique(a: int, n: int, x: int, r: int)
    requires n > 0 && a == x * n + r && 0 <= r < n
    ensures a % n == r && a / n == x
  {
    var q, m := a / n, a % n;
    assert a == q * n + m;
    assert (q - x) * n == r - m;
    MulAtLeast(q - x, n);
  }

  lemma DivModStep(a: nat, m: nat)
    requires m >= 1
    ensures 2 * ((a / 2) % m) + a % 2 == a % (2 * m)
  {
    var q, r := a / 2, a % 2;
    var qq, qr := q / m, q % m;
    assert a == 2 * q + r;
    assert q == qq * m + qr;
    assert a == qq * (2 * m) + (2 * qr + r);
    ModUnique(a, 2 * m, qq, 2 * qr + r);
  }

  lemma {:induction false} BitAndBound(a: nat, b: nat)
    ensures BitAnd(a, b) <= a
  {
    if a != 0 && b != 0 {
      BitAndBound(a / 2, b / 2);
    }
  }

  lemma AndOddStep(a: nat, b: nat)
    requires a > 0 && b % 2 == 1
    ensures BitAnd(a, b) == 2 * BitAnd(a / 2, b / 2) + a % 2
  {
  }

  /** ANDing with 2^k - 1 keeps the k low bits: the remainder modulo 2^k. */
  lemma {:induction false} AndLowMask(a: nat, k: nat)
    ensures BitAnd(a, Pow2(k) - 1) == a % Pow2(k)
  {
    if k == 0 {
      assert Pow2(k) - 1 == 0;
    } else if a != 0 {
      AndLowMask(a / 2, k - 1);
      AndLowMaskStep(a, k);
    }
  }

  /** The step of AndLowMask: from the bits of a / 2 to the bits of a. */
  lemma AndLowMaskStep(a: nat, k: nat)
    requires a > 0 && k > 0
    requires BitAnd(a / 2, Pow2(k - 1) - 1) == (a / 2) % Pow2(k - 1)
    ensures BitAnd(a, Pow2(k) - 1) == a % Pow2(k)
  {
    var m := Pow2(k - 1);
    var mask := Pow2(k) - 1;
    assert mask == 2 * (m - 1) + 1;
    assert mask / 2 == m - 1 && mask % 2 == 1;
    AndOddStep(a, mask);
    DivModStep(a, m);
    assert a % Pow2(k) == a % (2 * m);
  }

  lemma ModOfMod256(n: int)
    ensures (n % TWO_POW_32) % 256 == n % 256
  {
    var q, r := n / TWO_POW_32, n % TWO_POW_32;
    assert n == q * TWO_POW_32 + r;
    var rq, rr := r / 256, r % 256;
    assert r == rq * 256 + rr;
    assert n == (q * 0x100_0000 + rq) * 256 + rr;
    ModUnique(n, 256, q * 0x100_0000 + rq, rr);
  }

  /**
   * `n & 255` is the Euclidean remainder of n modulo 256, negative n included:
   * the lattice index of simplex2 always lands in 0..255.
   */
  lemma LatticeIndexIsEuclideanMod(n: int)
    ensures JsAnd(n, 255) == n % 256
    ensures 0 <= JsAnd(n, 255) < 256
  {
    assert Pow2(8) == 256;
    assert Uint32(255) == 255;
    AndLowMask(Uint32(n), 8);
    ModOfMod256(n);
  }

  // ---------------------------------------------------------------------------
  // Seeding
  // ---------------------------------------------------------------------------

  /** A seed strictly between 0 and 1 is scaled by 65536; then it is floored. */
  function SeedInteger(s: real): (n: int)
    ensures 0.0 < s < 1.0 ==> 0 <= n < 65536
    ensures !(0.0 < s < 1.0) ==> n as real <= s < n as real + 1.0
  {
    (if 0.0 < s < 1.0 then s * 65536.0 else s).Floor
  }

  /** The XOR masks applied to even and to odd table positions. */
  datatype Masks = Masks(even: bv8, odd: bv8)

  /**
   * The seed word (a seed below 256 is copied into its second byte by
   * `s |= s << 8`) and the two bytes the table construction reads from it.
   */
  function SeedMasks(s: real): (m: Masks)
    ensures 0 <= SeedInteger(s) < 256 ==> m.even == m.odd == SeedInteger(s) as bv8
  {
    var n := SeedInteger(s);
    SmallSeedCopied(n);
    var word := if n < 256 then Bits32(n) | (Bits32(n) << 8) else Bits32(n);
    Masks(LowByte(word), LowByte(word >> 8))
  }

  /** A seed below 256 copied into the second byte reads back as itself from both bytes. */
  lemma SmallSeedCopied(n: int)
    ensures 0 <= n < 256 ==>
      var word := Bits32(n) | (Bits32(n) << 8);
      LowByte(word) == n as bv8 && LowByte(word >> 8) == n as bv8
  {
    if 0 <= n < 256 {
      SmallBits(n);
      ByteCopied(Bits32(n));
    }
  }

  lemma SmallBits(n: int)
    requires 0 <= n < 256
    ensures Bits32(n) < 256 && Bits32(n) as bv8 == n as bv8
  {
    assert n % TWO_POW_32 == n;
    SmallBitsCast(n);
  }

  lemma SmallBitsCast(n: int)
    requires 0 <= n < 256
    ensures (n as bv32) < 256 && (n as bv32) as bv8 == n as bv8
  {
  }

  lemma ByteCopied(b: bv32)
    requires b < 256
    ensures LowByte(b | (b << 8)) == b as bv8 && LowByte((b | (b << 8)) >> 8) == b as bv8
  {
  }

  /** The seed the module uses gives the same mask, 42, to both parities. */
  lemma DefaultSeedMasks()
    ensures SeedMasks(DEFAULT_SEED) == Masks(42, 42)
  {
    assert SeedInteger(DEFAULT_SEED) == 42;
  }

  /** The byte scramble: shift right, and fold the dropped bit into 0xb8. */
  function Scramble(v: bv8): bv8
  {
    (v >> 1) ^ (if v & 1 == 1 then 0xb8 else 0)
  }

  /** Bit 7 of a scrambled byte records the dropped bit, so it can be undone. */
  function Unscramble(u: bv8): bv8
  {
    if u & 0x80 == 0 then u << 1 else ((u ^ 0xb8) << 1) | 1
  }

  lemma ScrambleRoundTrip(v: bv8, u: bv8)
    ensures Unscramble(Scramble(v)) == v
    ensures Scramble(Unscramble(u)) == u
  {
  }

  /** The mask applied at position b: the odd mask at odd positions, the even mask at even ones. */
  function MaskAt(m: Masks, b: bv8): bv8
  {
    if b & 1 == 1 then m.odd else m.even
  }

  /** Entry b of the 256-byte base table. */
  function BaseEntry(m: Masks, b: bv8): bv8
  {
    Scramble(b ^ MaskAt(m, b))
  }

  /** Undoes the masking of a byte, when both masks have the same parity. */
  function Unmask(m: Masks, v: bv8): bv8
  {
    v ^ (if (v ^ m.odd) & 1 == 1 then m.odd else m.even)
  }

  /** The position of byte x in the base table. */
  function BasePosition(m: Masks, x: bv8): bv8
  {
    Unmask(m, Unscramble(x))
  }

  lemma XorFacts(a: bv8, b: bv8, c: bv8)
    ensures (a ^ b) & 1 == (a & 1) ^ (b & 1)
    ensures (a ^ b) ^ b == a
    ensures (a ^ b) ^ c == (a ^ c) ^ b
  {
  }

  lemma UnmaskInverts(m: Masks, v: bv8)
    requires m.even & 1 == m.odd & 1
    ensures Unmask(m, v) ^ MaskAt(m, Unmask(m, v)) == v
  {
    XorFacts(v, m.odd, 0);
    XorFacts(v, m.even, 0);
  }

  lemma BasePositionOfEntry(m: Masks, b: bv8)
    requires m.even & 1 == m.odd & 1
    ensures BasePosition(m, BaseEntry(m, b)) == b
  {
    var k := MaskAt(m, b);
    var v := b ^ k;
    ScrambleRoundTrip(v, 0);
    assert Unscramble(BaseEntry(m, b)) == v;
    XorFacts(b, k, m.odd);
    XorFacts(v, m.odd, 0);
    if b & 1 == 1 {
      XorFacts(b, m.odd, 0);
    } else {
      XorFacts(b, m.even, 0);
    }
  }

  lemma EntryAtBasePosition(m: Masks, x: bv8)
    requires m.even & 1 == m.odd & 1
    ensures BaseEntry(m, BasePosition(m, x)) == x
  {
    ScrambleRoundTrip(0, x);
    UnmaskInverts(m, Unscramble(x));
  }

  lemma ByteToIntToByte(b: bv8)
    ensures (b as int) as bv8 == b
  {
  }

  lemma ByteSuccessor(b: bv8)
    requires b < 255
    ensures (b + 1) as int == b as int + 1
  {
  }

  /** The byte reached by counting up from 0 in i steps of bv8 addition. */
  ghost function CountedByte(i: int): (b: bv8)
    requires 0 <= i < 256
    ensures b as int == i
  {
    if i == 0 then 0 else
      var prev := CountedByte(i - 1);
      ByteSuccessor(prev);
      prev + 1
  }

  lemma ByteRoundTrip(i: int)
    requires 0 <= i < 256
    ensures (i as bv8) as int == i
  {
    ByteToIntToByte(CountedByte(i));
  }

  /** The base table as a sequence of integers. */
  function BaseTable(m: Masks): (t: seq<int>)
    ensures |t| == 256
  {
    seq(256, i requires 0 <= i < 256 => BaseEntry(m, i as bv8) as int)
  }

  ghost predicate IsByteTable(t: seq<int>)
  {
    |t| == 256 && forall i :: 0 <= i < 256 ==> 0 <= t[i] < 256
  }

  /** Every byte value occurs, and occurs once. */
  ghost predicate IsPermutationOfBytes(t: seq<int>)
  {
    && IsByteTable(t)
    && (forall i, j :: 0 <= i < j < 256 ==> t[i] != t[j])
    && (forall x :: 0 <= x < 256 ==> x in t)
  }

  lemma BvToIntInjective(a: bv8, b: bv8)
    requires a != b
    ensures a as int != b as int
  {
  }

  lemma BaseTableAt(m: Masks, i: int)
    requires 0 <= i < 256
    ensures BaseTable(m)[i] == BaseEntry(m, i as bv8) as int
  {
  }

  lemma EntriesDistinct(m: Masks, i: int, j: int)
    requires m.even & 1 == m.odd & 1
    requires 0 <= i < j < 256
    ensures BaseTable(m)[i] != BaseTable(m)[j]
  {
    BaseTableAt(m, i);
    BaseTableAt(m, j);
    var bi, bj := i as bv8, j as bv8;
    ByteRoundTrip(i);
    ByteRoundTrip(j);
    assert bi != bj;
    BasePositionOfEntry(m, bi);
    BasePositionOfEntry(m, bj);
    BvToIntInjective(BaseEntry(m, bi), BaseEntry(m, bj));
  }

  lemma EntryFound(m: Masks, x: int)
    requires m.even & 1 == m.odd & 1
    requires 0 <= x < 256
    ensures BaseEntry(m, BasePosition(m, x as bv8)) as int == x
  {
    EntryAtBasePosition(m, x as bv8);
    ByteRoundTrip(x);
  }

  lemma BaseTableInjective(m: Masks)
    requires m.even & 1 == m.odd & 1
    ensures forall i, j :: 0 <= i < j < 256 ==> BaseTable(m)[i] != BaseTable(m)[j]
  {
    forall i, j | 0 <= i < j < 256
      ensures BaseTable(m)[i] != BaseTable(m)[j]
    {
      EntriesDistinct(m, i, j);
    }
  }

  lemma BaseTableCoversBytes(m: Masks)
    requires m.even & 1 == m.odd & 1
    ensures forall x :: 0 <= x < 256 ==> x in BaseTable(m)
  {
    forall x | 0 <= x < 256
      ensures x in BaseTable(m)
    {
      var p := BasePosition(m, x as bv8) as int;
      EntryFound(m, x);
      assert BaseTable(m)[p] == x;
    }
  }

  /** When the two masks agree in parity, the base table is a permutation of 0..255. */
  lemma SameParityMasksPermute(m: Masks)
    requires m.even & 1 == m.odd & 1
    ensures IsPermutationOfBytes(BaseTable(m))
  {
    BaseTableInjective(m);
    BaseTableCoversBytes(m);
  }

  lemma CollidingPositions(m: Masks)
    requires m.even & 1 != m.odd & 1
    ensures (m.even ^ m.odd) & 1 == 1
    ensures BaseEntry(m, m.even ^ m.odd) == BaseEntry(m, 0)
  {
    XorFacts(m.even, m.odd, 0);
    XorFacts(m.odd, m.even, 0);
  }

  lemma DifferentParityMasksCollide(m: Masks)
    requires m.even & 1 != m.odd & 1
    ensures !IsPermutationOfBytes(BaseTable(m))
  {
    var j: bv8 := m.even ^ m.odd;
    CollidingPositions(m);
    ByteRoundTrip(j as int);
    ByteRoundTrip(0);
    assert j as int != 0;
    assert BaseTable(m)[0] == BaseTable(m)[j as int];
  }

  /** The table the module seeds with 42 is a permutation of 0..255. */
  lemma DefaultTableIsPermutation()
    ensures IsPermutationOfBytes(BaseTable(SeedMasks(DEFAULT_SEED)))
  {
    DefaultSeedMasks();
    SameParityMasksPermute(Masks(42, 42));
  }

  /** Entry i of the doubled permutation table: the base table at `i & 255`. */
  function PermEntry(m: Masks, i: nat): (r: int)
    requires i < TABLE_LENGTH
    ensures 0 <= r < 256
  {
    LatticeIndexIsEuclideanMod(i);
    BaseEntry(m, JsAnd(i, 255) as bv8) as int
  }

  /** Entry i of the gradient table. */
  function GradEntry(m: Masks, i: nat): (g: Grad)
    requires i < TABLE_LENGTH
    ensures g in GRAD3
  {
    GRAD3[PermEntry(m, i) % 8]
  }

  lemma PermEntryIsBase(m: Masks, i: nat)
    requires i < TABLE_LENGTH
    ensures PermEntry(m, i) == BaseTable(m)[i % 256]
  {
    LatticeIndexIsEuclideanMod(i);
  }

  /** The second half of the table repeats the first, and every gradient is one of the eight. */
  lemma TablesDoubled(m: Masks, i: nat)
    requires i < 256
    ensures PermEntry(m, i + 256) == PermEntry(m, i) == BaseTable(m)[i]
    ensures GradEntry(m, i + 256) == GradEntry(m, i)
    ensures GradEntry(m, i) in GRAD3
  {
    PermEntryIsBase(m, i);
    PermEntryIsBase(m, i + 256);
  }

  /** The permutation and gradient tables, filled in place by `Seed`. */
  class Tables {
    const perm: array<int>
    const gradP: array<Grad>

    ghost predicate Valid()
      reads this
    {
      perm.Length == TABLE_LENGTH && gradP.Length == TABLE_LENGTH
    }

    /** The tables hold what seeding with masks m produces. */
    ghost predicate SeededWith(m: Masks)
      reads this, perm, gradP
    {
      && Valid()
      && (forall i :: 0 <= i < TABLE_LENGTH ==> perm[i] == PermEntry(m, i))
      && (forall i :: 0 <= i < TABLE_LENGTH ==> gradP[i] == GRAD3[perm[i] % 8])
    }

    /** Loading the module allocates the tables and seeds them with 42. */
    constructor ()
      ensures SeededWith(SeedMasks(DEFAULT_SEED))
      ensures fresh(perm) && fresh(gradP)
    {
      perm := new int[TABLE_LENGTH];
      gradP := new Grad[TABLE_LENGTH](_ => Grad(0, 0));
      new;
      Seed(DEFAULT_SEED);
    }

    method Seed(s: real)
      requires Valid()
      modifies perm, gradP
      ensures SeededWith(SeedMasks(s))
    {
      var m := SeedMasks(s);
      FillTables(m);
    }

    /** The two loops of seeding, once the masks are read from the seed word. */
    method FillTables(m: Masks)
      requires Valid()
      modifies perm, gradP
      ensures SeededWith(m)
    {
      var p := BaseBytes(m);
      var base := p[..];

      var i := 0;
      while i < TABLE_LENGTH
        invariant 0 <= i <= TABLE_LENGTH
        invariant FilledFrom(base, i)
      {
        FillEntry(base, i);
        i := i + 1;
      }
      PermEntriesFromBase(m, base);
    }

    /** The first n entries of both tables are taken from the base bytes. */
    ghost predicate FilledFrom(base: seq<bv8>, n: nat)
      reads this, perm, gradP
    {
      && Valid() && |base| == 256 && n <= TABLE_LENGTH
      && (forall k :: 0 <= k < n ==> perm[k] == base[k % 256] as int)
      && (forall k :: 0 <= k < n ==> gradP[k] == GRAD3[perm[k] % 8])
    }

    /** One iteration of the second loop: entry i of both tables. */
    method FillEntry(base: seq<bv8>, i: nat)
      requires i < TABLE_LENGTH && FilledFrom(base, i)
      modifies perm, gradP
      ensures FilledFrom(base, i + 1)
    {
      var entry := LookUpBase(base, i);
      var g := GRAD3[entry % 8];
      perm[i] := entry;
      gradP[i] := g;
      assert forall k :: 0 <= k < i ==> perm[k] == old(perm[k]) && gradP[k] == old(gradP[k]);
    }
  }

  /** Entry i of the permutation table is base byte i modulo 256. */
  lemma PermEntriesFromBase(m: Masks, base: seq<bv8>)
    requires |base| == 256
    requires forall k :: 0 <= k < 256 ==> base[k] == BaseEntry(m, k as bv8)
    ensures forall i :: 0 <= i < TABLE_LENGTH ==> PermEntry(m, i) == base[i % 256] as int
  {
    forall i | 0 <= i < TABLE_LENGTH
      ensures PermEntry(m, i) == base[i % 256] as int
    {
      var j := JsAnd(i, 255);
      LatticeIndexIsEuclideanMod(i);
      assert PermEntry(m, i) == BaseEntry(m, j as bv8) as int;
      assert base[j] == BaseEntry(m, j as bv8);
    }
  }

  /** The first loop of seeding: the 256 masked and scrambled bytes. */
  method BaseBytes(m: Masks) returns (p: array<bv8>)
    ensures fresh(p) && p.Length == 256
    ensures forall k :: 0 <= k < 256 ==> p[k] == BaseEntry(m, k as bv8)
  {
    p := new bv8[256];
    var i := 0;
    while i < 256
      invariant 0 <= i <= 256
      invariant forall k :: 0 <= k < i ==> p[k] == BaseEntry(m, k as bv8)
    {
      var v := MaskAndScramble(m, i);
      p[i] := v;
      i := i + 1;
    }
  }

  /** Entry i of the permutation table: the base byte at `i & 255`. */
  method LookUpBase(base: seq<bv8>, i: nat) returns (entry: int)
    requires |base| == 256 && i < TABLE_LENGTH
    ensures entry == base[i % 256] as int
  {
    var j := JsAnd(i, 255);
    LatticeIndexIsEuclideanMod(i);
    entry := base[j] as int;
  }

  /** The body of the first loop: mask position i by its parity's byte, then scramble. */
  method MaskAndScramble(m: Masks, i: nat) returns (v: bv8)
    requires i < 256
    ensures v == BaseEntry(m, i as bv8)
  {
    var b := i as bv8;
    if b & 1 == 1 {
      v := b ^ m.odd;
    } else {
      v := b ^ m.even;
    }
    v := (v >> 1) ^ (if v & 1 == 1 then 0xb8 else 0);
  }

  // ---------------------------------------------------------------------------
  // Lattice indexing of simplex2
  // ---------------------------------------------------------------------------

  /**
   * The lattice cell of a point: the wrapped lattice coordinates ii and jj and the
   * offset (i1, j1) of the middle simplex corner. The skew and unskew factors
   * (irrational constants in the source) are parameters.
   */
  datatype Cell = Cell(ii: int, jj: int, i1: int, j1: int)

  /** The unwrapped lattice coordinates and the offsets of the point from the cell origin. */
  function Skewed(x: real, y: real, f2: real, g2: real): (int, int, real, real)
  {
    var s := (x + y) * f2;
    var i := (x + s).Floor;
    var j := (y + s).Floor;
    var t := (i + j) as real * g2;
    (i, j, x - (i as real - t), y - (j as real - t))
  }

  function SimplexCell(x: real, y: real, f2: real, g2: real): (c: Cell)
    ensures 0 <= c.ii < 256 && 0 <= c.jj < 256
    ensures c.ii == Skewed(x, y, f2, g2).0 % 256 && c.jj == Skewed(x, y, f2, g2).1 % 256
    ensures (c.i1, c.j1) == (1, 0) || (c.i1, c.j1) == (0, 1)
    ensures c.i1 == 1 <==> Skewed(x, y, f2, g2).2 > Skewed(x, y, f2, g2).3
  {
    var (i, j, x0, y0) := Skewed(x, y, f2, g2);
    LatticeIndexIsEuclideanMod(i);
    LatticeIndexIsEuclideanMod(j);
    if x0 > y0 then Cell(JsAnd(i, 255), JsAnd(j, 255), 1, 0)
    else Cell(JsAnd(i, 255), JsAnd(j, 255), 0, 1)
  }

  /**
   * The three gradient-table positions simplex2 reads for a point: every one is
   * below 512, which is why the permutation table is doubled.
   */
  function GradientIndices(m: Masks, x: real, y: real, f2: real, g2: real): (g: (int, int, int))
    ensures 0 <= g.0 < TABLE_LENGTH && 0 <= g.1 < TABLE_LENGTH && 0 <= g.2 < TABLE_LENGTH
  {
    var c := SimplexCell(x, y, f2, g2);
    (c.ii + PermEntry(m, c.jj),
     c.ii + c.i1 + PermEntry(m, c.jj + c.j1),
     c.ii + 1 + PermEntry(m, c.jj + 1))
  }

  // ---------------------------------------------------------------------------
  // Curl sampler
  // ---------------------------------------------------------------------------

  /**
   * curl2 over a noise function: the central difference along y (time added to the
   * y argument) is called dx and the one along x is called dy, and (dy, -dx) is returned.
   */
  function Curl2(noise: (real, real) -> real, x: real, y: real, time: real): (real, real)
  {
    var n1 := noise(x, y + EPSILON + time);
    var n2 := noise(x, y - EPSILON + time);
    var dx := (n1 - n2) / (2.0 * EPSILON);
    var n3 := noise(x + EPSILON, y + time);
    var n4 := noise(x - EPSILON, y + time);
    var dy := (n3 - n4) / (2.0 * EPSILON);
    (dy, -dx)
  }

  /**
   * On a linear field a·x + b·y + c the sampler returns (a, -b): the x slope and the
   * negated y slope, for every point and time.
   */
  lemma Curl2OfLinearField(a: real, b: real, c: real, x: real, y: real, time: real)
    ensures Curl2((p: real, q: real) => a * p + b * q + c, x, y, time) == (a, -b)
  {
    var f := (p: real, q: real) => a * p + b * q + c;
    assert f(x, y + EPSILON + time) - f(x, y - EPSILON + time) == b * (2.0 * EPSILON);
    assert f(x + EPSILON, y + time) - f(x - EPSILON, y + time) == a * (2.0 * EPSILON);
  }

  /**
   * The result is perpendicular to the field's gradient (a, b) only when |a| = |b|:
   * the sampler does not rotate the gradient by 90 degrees.
   */
  lemma Curl2NotPerpendicularToGradient(a: real, b: real, x: real, y: real, time: real)
    ensures var v := Curl2((p: real, q: real) => a * p + b * q, x, y, time);
      v.0 * a + v.1 * b == a * a - b * b
  {
    Curl2OfLinearField(a, b, 0.0, x, y, time);
  }

  /**
   * The rotation the comment in curl2 describes: the gradient (dN/dx, dN/dy) turned by
   * 90 degrees into (dN/dy, -dN/dx), from the same four samples.
   */
  function RotatedCurl2(noise: (real, real) -> real, x: real, y: real, time: real): (real, real)
  {
    var dNdy := (noise(x, y + EPSILON + time) - noise(x, y - EPSILON + time)) / (2.0 * EPSILON);
    var dNdx := (noise(x + EPSILON, y + time) - noise(x - EPSILON, y + time)) / (2.0 * EPSILON);
    (dNdy, -dNdx)
  }

  /** On a linear field a·x + b·y + c the rotated sampler returns (b, -a). */
  lemma RotatedCurl2OfLinearField(a: real, b: real, c: real, x: real, y: real, time: real)
    ensures RotatedCurl2((p: real, q: real) => a * p + b * q + c, x, y, time) == (b, -a)
  {
    var f := (p: real, q: real) => a * p + b * q + c;
    assert f(x, y + EPSILON + time) - f(x, y - EPSILON + time) == b * (2.0 * EPSILON);
    assert f(x + EPSILON, y + time) - f(x - EPSILON, y + time) == a * (2.0 * EPSILON);
  }

  /** The rotated sampler is perpendicular to the gradient of every linear field. */
  lemma RotatedCurl2PerpendicularToGradient(a: real, b: real, x: real, y: real, time: real)
    ensures var v := RotatedCurl2((p: real, q: real) => a * p + b * q, x, y, time);
      v.0 * a + v.1 * b == 0.0
  {
    RotatedCurl2OfLinearField(a, b, 0.0, x, y, time);
  }

  /** On the field N(x, y) = x the sampler as written returns (1, 0): along the gradient, not across it. */
  lemma Curl2AlongGradientOfX(x: real, y: real, time: real)
    ensures Curl2((p: real, q: real) => 1.0 * p + 0.0 * q + 0.0, x, y, time) == (1.0, 0.0)
  {
    Curl2OfLinearField(1.0, 0.0, 0.0, x, y, time);
  }
}
