/** The words of SHA-1: 32 bits wide in the standard (FIPS 180-4), 64 bits wide in the program. All operations
    but the sums and shifts work bit by bit, so the low 32 bits never hear of the others. */
module Sha1Words {

  const M32 := 0x1_0000_0000
  const M64 := 0x1_0000_0000_0000_0000

  // --- bit by bit

  function Odd(x: nat): bool {
    x % 2 == 1
  }

  function One(b: bool): (n: nat)
    ensures n <= 1
  {
    if b then 1 else 0
  }

  /** The low `k` bits of a binary operation. */
  function Bits(f: (bool, bool) -> bool, x: nat, y: nat, k: nat): (r: nat)
    decreases k
  {
    if k == 0 then 0 else One(f(Odd(x), Odd(y))) + 2 * Bits(f, x / 2, y / 2, k - 1)
  }

  function And(x: nat, y: nat, k: nat): nat {
    Bits((a, b) => a && b, x, y, k)
  }

  function Or(x: nat, y: nat, k: nat): nat {
    Bits((a, b) => a || b, x, y, k)
  }

  function Xor(x: nat, y: nat, k: nat): nat {
    Bits((a, b) => a != b, x, y, k)
  }

  function Not(x: nat, k: nat): nat {
    Bits((a, b) => !a, x, x, k)
  }

  function Pow2(k: nat): (p: nat)
    ensures p > 0
  {
    if k == 0 then 1 else 2 * Pow2(k - 1)
  }

  lemma {:induction false} BitsBound(f: (bool, bool) -> bool, x: nat, y: nat, k: nat)
    ensures Bits(f, x, y, k) < Pow2(k)
    decreases k
  {
    if k > 0 {
      BitsBound(f, x / 2, y / 2, k - 1);
    }
  }

  lemma Halve(x: nat, b: bool)
    ensures Odd(One(b) + 2 * x) == b && (One(b) + 2 * x) / 2 == x
  {
  }

  /** The low bits of an operation depend on the low bits of its operands only. */
  lemma {:induction false} LowBits(f: (bool, bool) -> bool, x: nat, y: nat, k: nat, n: nat)
    requires k <= n
    ensures Bits(f, x, y, n) % Pow2(k) == Bits(f, x % Pow2(k), y % Pow2(k), k)
    decreases k
  {
    if k > 0 {
      LowBits(f, x / 2, y / 2, k - 1, n - 1);
      ModHalf(x, k);
      ModHalf(y, k);
      ModDouble(One(f(Odd(x), Odd(y))), Bits(f, x / 2, y / 2, n - 1), Pow2(k - 1));
    } else {
      ModOne(Bits(f, x, y, n));
    }
  }

  lemma ModOne(x: nat)
    ensures x % 1 == 0
  {
  }

  /** Halving the low bits. */
  lemma ModHalf(x: nat, k: nat)
    requires k > 0
    ensures Odd(x % Pow2(k)) == Odd(x) && (x % Pow2(k)) / 2 == (x / 2) % Pow2(k - 1)
  {
    var p := Pow2(k - 1);
    ModDouble(x % 2, x / 2, p);
    assert x == x % 2 + 2 * (x / 2);
  }

  lemma ModDouble(b: nat, x: nat, p: nat)
    requires b <= 1 && p > 0
    ensures (b + 2 * x) % (2 * p) == b + 2 * (x % p)
  {
    var q, r := x / p, x % p;
    assert x == p * q + r;
    assert b + 2 * x == 2 * p * q + (b + 2 * r) by {
      assert 2 * (p * q) == 2 * p * q;
    }
    Remainder(2 * p, q, b + 2 * r);
  }

  lemma Remainder(m: nat, q: nat, r: nat)
    requires r < m
    ensures (m * q + r) % m == r
  {
    var z := m * q + r;
    var d := q - z / m;
    assert m * d == z % m - r by {
      assert z == m * (z / m) + z % m;
      assert m * d == m * q - m * (z / m);
    }
    if d >= 1 {
      AtLeast(m, d);
    } else if d <= -1 {
      AtLeast(m, -d);
    }
  }

  lemma AtLeast(m: nat, d: int)
    requires d >= 1
    ensures m * d >= m
  {
  }

  lemma Sizes()
    ensures Pow2(32) == M32 && Pow2(64) == M64
  {
    assert Pow2(8) == 256;
    assert Pow2(16) == 0x1_0000;
    assert Pow2(24) == 0x100_0000;
    assert Pow2(32) == M32;
    assert Pow2(40) == 0x100_0000_0000;
    assert Pow2(48) == 0x1_0000_0000_0000;
    assert Pow2(56) == 0x100_0000_0000_0000;
  }

  // --- the standard's words: section 3.2 of FIPS 180-4

  type Word = x: nat | x < M32 witness 0

  function Plus(x: Word, y: Word): Word {
    (x + y) % M32
  }

  function Shl(x: Word, n: nat): Word
    decreases n
  {
    if n == 0 then x else Shl(2 * x % M32, n - 1)
  }

  function Shr(x: nat, n: nat): (r: nat)
    ensures r <= x
  {
    if n == 0 then x else Shr(x / 2, n - 1)
  }

  function OrW(x: Word, y: Word): Word {
    Sizes();
    BitsBound((a, b) => a || b, x, y, 32);
    Or(x, y, 32)
  }

  function AndW(x: Word, y: Word): Word {
    Sizes();
    BitsBound((a, b) => a && b, x, y, 32);
    And(x, y, 32)
  }

  function XorW(x: Word, y: Word): Word {
    Sizes();
    BitsBound((a, b) => a != b, x, y, 32);
    Xor(x, y, 32)
  }

  function NotW(x: Word): Word {
    Sizes();
    BitsBound((a, b) => !a, x, x, 32);
    Not(x, 32)
  }

  /** Rotate left. */
  function Rotl(x: Word, n: nat): Word
    requires n <= 32
  {
    OrW(Shl(x, n), Shr(x, 32 - n))
  }

  // --- the program's words

  type Wide = x: nat | x < M64 witness 0

  function Low(x: Wide): Word {
    x % M32
  }

  function Plus64(x: Wide, y: Wide): Wide {
    (x + y) % M64
  }

  function Shl64(x: Wide, n: nat): Wide
    decreases n
  {
    if n == 0 then x else Shl64(2 * x % M64, n - 1)
  }

  function Or64(x: Wide, y: Wide): Wide {
    Sizes();
    BitsBound((a, b) => a || b, x, y, 64);
    Or(x, y, 64)
  }

  function And64(x: Wide, y: Wide): Wide {
    Sizes();
    BitsBound((a, b) => a && b, x, y, 64);
    And(x, y, 64)
  }

  function Xor64(x: Wide, y: Wide): Wide {
    Sizes();
    BitsBound((a, b) => a != b, x, y, 64);
    Xor(x, y, 64)
  }

  /** SHA1_ROL: only the bits that move to the right are cut to 32. */
  function Rol(x: Wide, n: nat): Wide
    requires n <= 32
  {
    Or64(Shl64(x, n), Shr(Low(x), 32 - n))
  }

  lemma ModMod(x: nat)
    ensures x % M64 % M32 == x % M32
  {
    assert x == M64 * (x / M64) + x % M64;
    assert M64 * (x / M64) == M32 * (M32 * (x / M64));
  }

  lemma LowPlus(x: Wide, y: Wide)
    ensures Low(Plus64(x, y)) == Plus(Low(x), Low(y))
  {
    ModMod(x + y);
    assert x + y == M32 * (x / M32 + y / M32) + (Low(x) + Low(y)) by {
      assert x == M32 * (x / M32) + x % M32 && y == M32 * (y / M32) + y % M32;
    }
    Reduce(x / M32 + y / M32, Low(x) + Low(y));
  }

  lemma LowOps(x: Wide, y: Wide)
    ensures Low(Or64(x, y)) == OrW(Low(x), Low(y)) && Low(And64(x, y)) == AndW(Low(x), Low(y))
      && Low(Xor64(x, y)) == XorW(Low(x), Low(y))
  {
    hide Bits, Pow2;
    Sizes();
    LowBits((a, b) => a || b, x, y, 32, 64);
    LowBits((a, b) => a && b, x, y, 32, 64);
    LowBits((a, b) => a != b, x, y, 32, 64);
  }

  lemma LowDouble(x: Wide)
    ensures Low(2 * x % M64) == 2 * Low(x) % M32
  {
    ModMod(2 * x);
    assert x == M32 * (x / M32) + x % M32;
    Reduce(2 * (x / M32), 2 * (x % M32));
  }

  lemma Reduce(j: nat, r: nat)
    ensures (M32 * j + r) % M32 == r % M32
  {
  }

  lemma {:induction false} LowShl(x: Wide, n: nat)
    ensures Low(Shl64(x, n)) == Shl(Low(x), n)
    decreases n
  {
    hide Low;
    if n > 0 {
      LowDouble(x);
      LowShl(2 * x % M64, n - 1);
    }
  }

  lemma Small(x: Word)
    ensures Low(x) == x
  {
  }

  lemma LowRol(x: Wide, n: nat)
    requires n <= 32
    ensures Low(Rol(x, n)) == Rotl(Low(x), n)
  {
    hide Or64, OrW, Shl64, Shl, Shr, Low;
    var y := Shr(Low(x), 32 - n);
    LowOps(Shl64(x, n), y);
    LowShl(x, n);
    Small(y);
  }

  // --- the three functions: section 4.1.1 of FIPS 180-4

  function Ch(x: Word, y: Word, z: Word): Word {
    XorW(AndW(x, y), AndW(NotW(x), z))
  }

  function Parity(x: Word, y: Word, z: Word): Word {
    XorW(XorW(x, y), z)
  }

  function Maj(x: Word, y: Word, z: Word): Word {
    XorW(XorW(AndW(x, y), AndW(x, z)), AndW(y, z))
  }

  lemma {:induction false} ChBits(x: nat, y: nat, z: nat, k: nat)
    ensures Xor(And(x, Xor(y, z, k), k), z, k) == Xor(And(x, y, k), And(Not(x, k), z, k), k)
    decreases k
  {
    if k > 0 {
      var x', y', z', k' := x / 2, y / 2, z / 2, k - 1;
      ChBits(x', y', z', k');
      Halve(Xor(y', z', k'), Odd(y) != Odd(z));
      Halve(And(x', Xor(y', z', k'), k'), Odd(x) && (Odd(y) != Odd(z)));
      Halve(And(x', y', k'), Odd(x) && Odd(y));
      Halve(Not(x', k'), !Odd(x));
      Halve(And(Not(x', k'), z', k'), !Odd(x) && Odd(z));
    }
  }

  lemma {:induction false} MajBits(x: nat, y: nat, z: nat, k: nat)
    ensures Or(And(Or(x, y, k), z, k), And(x, y, k), k) == Xor(Xor(And(x, y, k), And(x, z, k), k), And(y, z, k), k)
    decreases k
  {
    if k > 0 {
      var x', y', z', k' := x / 2, y / 2, z / 2, k - 1;
      MajBits(x', y', z', k');
      Halve(Or(x', y', k'), Odd(x) || Odd(y));
      Halve(And(Or(x', y', k'), z', k'), (Odd(x) || Odd(y)) && Odd(z));
      Halve(And(x', y', k'), Odd(x) && Odd(y));
      Halve(And(x', z', k'), Odd(x) && Odd(z));
      Halve(And(y', z', k'), Odd(y) && Odd(z));
      Halve(Xor(And(x', y', k'), And(x', z', k'), k'), (Odd(x) && Odd(y)) != (Odd(x) && Odd(z)));
    }
  }

  /** What the rounds compute instead of Ch and Maj. */
  lemma ChIs(x: Word, y: Word, z: Word)
    ensures XorW(AndW(x, XorW(y, z)), z) == Ch(x, y, z)
  {
    hide Bits, And, Xor, Not;
    ChBits(x, y, z, 32);
  }

  lemma MajIs(x: Word, y: Word, z: Word)
    ensures OrW(AndW(OrW(x, y), z), AndW(x, y)) == Maj(x, y, z)
  {
    hide Bits, And, Xor, Or;
    MajBits(x, y, z, 32);
  }

  lemma LowCh(x: Wide, y: Wide, z: Wide)
    ensures Low(Xor64(And64(x, Xor64(y, z)), z)) == Ch(Low(x), Low(y), Low(z))
  {
    hide Low, Xor64, And64, XorW, AndW, Ch;
    LowOps(y, z);
    LowOps(x, Xor64(y, z));
    LowOps(And64(x, Xor64(y, z)), z);
    ChIs(Low(x), Low(y), Low(z));
  }

  lemma LowParity(x: Wide, y: Wide, z: Wide)
    ensures Low(Xor64(Xor64(x, y), z)) == Parity(Low(x), Low(y), Low(z))
  {
    hide Low, Xor64, XorW;
    LowOps(x, y);
    LowOps(Xor64(x, y), z);
  }

  lemma LowMaj(x: Wide, y: Wide, z: Wide)
    ensures Low(Or64(And64(Or64(x, y), z), And64(x, y))) == Maj(Low(x), Low(y), Low(z))
  {
    hide Low, Or64, And64, OrW, AndW, Maj;
    LowOps(x, y);
    LowOps(Or64(x, y), z);
    LowOps(And64(Or64(x, y), z), And64(x, y));
    MajIs(Low(x), Low(y), Low(z));
  }

  /** A round adds its five terms in another order than the standard. */
  lemma Reordered(r: Word, f: Word, e: Word, k: Word, w: Word)
    ensures Plus(e, Plus(Plus(Plus(f, w), k), r)) == Plus(Plus(Plus(Plus(r, f), e), k), w)
  {
    PlusPlus(f, w, k);
    assert Plus(Plus(Plus(f, w), k), r) == (f + w + k + r) % M32 by {
      ModPlus(f + w + k, r);
    }
    ModPlus(f + w + k + r, e);
    PlusPlus(r, f, e);
    ModPlus(r + f + e, k);
    ModPlus(r + f + e + k, w);
  }

  lemma PlusPlus(x: Word, y: Word, z: Word)
    ensures Plus(Plus(x, y), z) == (x + y + z) % M32
  {
    ModPlus(x + y, z);
  }

  lemma ModPlus(x: nat, y: nat)
    ensures (x % M32 + y) % M32 == (x + y) % M32
  {
    assert x + y == M32 * (x / M32) + (x % M32 + y);
    Reduce(x / M32, x % M32 + y);
  }
}
