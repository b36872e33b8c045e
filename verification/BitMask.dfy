/** Machine words of 64 bits: the alignment mask, checked addition and byte order. */
module BitMask {
  import opened Basics

  const USIZE_MODULUS := 0x1_0000_0000_0000_0000

  type byte = x: int | 0 <= x < 256

  function Pow2(k: nat): (p: nat)
    ensures p > 0
  {
    if k == 0 then 1 else 2 * Pow2(k - 1)
  }

  predicate PowerOfTwo(n: nat) {
    n == 1 || (n > 1 && n % 2 == 0 && PowerOfTwo(n / 2))
  }

  /** Bitwise and. */
  function And(a: nat, b: nat): nat {
    if a == 0 || b == 0 then 0 else 2 * And(a / 2, b / 2) + Bit(a % 2 == 1 && b % 2 == 1)
  }

  /** Bitwise not of a 64-bit word. */
  function Not64(a: nat): nat
    requires a < USIZE_MODULUS
  {
    USIZE_MODULUS - 1 - a
  }

  function CheckedAdd(a: nat, b: nat): Option<nat> {
    if a + b < USIZE_MODULUS then Some(a + b) else None
  }

  /** The low bits of an address are clear, down to the bit of the alignment. */
  predicate Aligned(v: nat, align: nat) {
    align <= 1 || (v % 2 == 0 && Aligned(v / 2, align / 2))
  }

  /** That is: the address is a multiple of the alignment. */
  lemma {:induction false} AlignedIsMultiple(v: nat, align: nat)
    requires PowerOfTwo(align)
    ensures Aligned(v, align) <==> v % align == 0
  {
    if align > 1 {
      AlignedIsMultiple(v / 2, align / 2);
      HalfMod(v, align);
    }
  }

  lemma {:induction false} AndAllOnes(v: nat, w: nat)
    requires v < Pow2(w)
    ensures And(v, Pow2(w) - 1) == v
  {
    if w > 0 {
      AndAllOnes(v / 2, w - 1);
      AndOdd(v, Pow2(w - 1) - 1);
    }
  }

  /** The mask with all the bits from the alignment up, in `w` bits, clears the bits below. */
  lemma {:induction false} AndHighBits(v: nat, w: nat, align: nat)
    requires PowerOfTwo(align) && v < Pow2(w) && align <= Pow2(w)
    ensures var r := And(v, Pow2(w) - align); Aligned(r, align) && r <= v < r + align
    decreases w
  {
    if align == 1 {
      AndAllOnes(v, w);
    } else {
      var m, r := Pow2(w - 1) - align / 2, And(v / 2, Pow2(w - 1) - align / 2);
      AndHighBits(v / 2, w - 1, align / 2);
      AndEven(v, m);
      AlignedDouble(r, align);
      assert Pow2(w) - align == 2 * m;
    }
  }

  lemma AlignedDouble(r: nat, align: nat)
    requires Aligned(r, align / 2)
    ensures Aligned(2 * r, align)
  {
    assert 2 * r / 2 == r;
  }

  lemma AndEven(v: nat, m: nat)
    ensures And(v, 2 * m) == 2 * And(v / 2, m)
  {
  }

  lemma AndOdd(v: nat, m: nat)
    ensures And(v, 2 * m + 1) == 2 * And(v / 2, m) + v % 2
  {
  }

  lemma HalfMod(v: nat, m: nat)
    requires m > 1 && m % 2 == 0
    ensures v % m == 2 * (v / 2 % (m / 2)) + v % 2
  {
    var h := m / 2;
    var q, r := v / 2 / h, v / 2 % h;
    assert v / 2 == q * h + r;
    assert v == q * m + (2 * r + v % 2) by {
      assert 2 * (q * h) == q * m;
    }
    ModUnique(v, m, q, 2 * r + v % 2);
  }

  lemma ModUnique(v: nat, m: nat, q: nat, r: nat)
    requires 0 <= r < m && v == q * m + r
    ensures v % m == r
  {
    if v / m > q {
      Gap(v / m, q, m);
    } else if v / m < q {
      Gap(q, v / m, m);
    }
  }

  lemma {:induction false} Gap(d: nat, q: nat, m: nat)
    requires d > q
    ensures d * m >= q * m + m
  {
    assert d * m == (d - 1) * m + m;
    if d - 1 > q {
      Gap(d - 1, q, m);
    }
  }

  /** The width of a word, as a number that is not taken apart. */
  lemma WordWidth() returns (w: nat)
    ensures w == 64 && Pow2(w) == USIZE_MODULUS
  {
    w := 8;
    assert Pow2(w) == 0x100;
    Pow2Sum(w, w);
    w := w + w;
    Pow2Sum(w, w);
    w := w + w;
    Pow2Sum(w, w);
    w := w + w;
  }

  lemma {:induction false} Pow2Sum(a: nat, b: nat)
    ensures Pow2(a + b) == Pow2(a) * Pow2(b)
  {
    if a > 0 {
      Pow2Sum(a - 1, b);
    }
  }

  /** `(start + align - 1) & !(align - 1)`, when the sum does not overflow, is the first
    * multiple of the alignment at or after the start. */
  lemma MaskRoundsUp(start: nat, align: nat)
    requires PowerOfTwo(align) && start + align - 1 < USIZE_MODULUS
    ensures align <= USIZE_MODULUS
    ensures var r := And(start + align - 1, Not64(align - 1)); Aligned(r, align) && start <= r < start + align
  {
    var w := WordWidth();
    AndHighBits(start + align - 1, w, align);
    assert Not64(align - 1) == Pow2(w) - align;
  }

  /** What is aligned more is aligned less. */
  lemma {:induction false} AlignedLess(v: nat, a: nat, b: nat)
    requires PowerOfTwo(a) && PowerOfTwo(b) && a <= b && Aligned(v, b)
    ensures Aligned(v, a)
  {
    if a > 1 {
      AlignedLess(v / 2, a / 2, b / 2);
    }
  }

  /** Two aligned addresses closer than the alignment are the same. */
  lemma {:induction false} AlignedApart(a: nat, b: nat, m: nat)
    requires PowerOfTwo(m) && Aligned(a, m) && Aligned(b, m) && a <= b < a + m
    ensures a == b
    decreases m
  {
    if m > 1 {
      AlignedApart(a / 2, b / 2, m / 2);
    }
  }

  /** Rounding up something aligned keeps that alignment. */
  lemma AlignedBelow(x: nat, p: nat, align: nat, word: nat)
    requires PowerOfTwo(align) && PowerOfTwo(word)
    requires Aligned(x, word) && Aligned(p, align) && x <= p < x + align
    ensures Aligned(p, word)
  {
    if align <= word {
      AlignedLess(x, align, word);
      AlignedApart(x, p, align);
    } else {
      AlignedLess(p, word, align);
    }
  }

  // ---- little-endian words in memory ----

  function Bytes(w: nat, n: nat): (s: seq<byte>)
    ensures |s| == n
  {
    if n == 0 then [] else [w % 256] + Bytes(w / 256, n - 1)
  }

  function Word(s: seq<byte>): nat {
    if s == [] then 0 else s[0] + 256 * Word(s[1..])
  }

  lemma {:induction false} WordOfBytes(w: nat, n: nat)
    requires w < Pow2(8 * n)
    ensures Word(Bytes(w, n)) == w
  {
    if n > 0 {
      Pow2Sum(8, 8 * (n - 1));
      assert Pow2(8) == 256;
      WordOfBytes(w / 256, n - 1);
    }
  }

  type Memory = nat -> byte

  function Write(m: Memory, at: nat, s: seq<byte>): Memory {
    (x: nat) => if at <= x < at + |s| then s[x - at] else m(x)
  }

  function Read(m: Memory, at: nat, n: nat): seq<byte> {
    seq(n, (i: nat) => m(at + i))
  }

  /** Reading sees what was written there, and nothing of what was written elsewhere. */
  lemma ReadWrite(m: Memory, at: nat, s: seq<byte>)
    ensures Read(Write(m, at, s), at, |s|) == s
  {
  }

  lemma ReadElsewhere(m: Memory, at: nat, s: seq<byte>, from: nat, n: nat)
    requires from + n <= at || at + |s| <= from
    ensures Read(Write(m, at, s), from, n) == Read(m, from, n)
  {
  }
}
