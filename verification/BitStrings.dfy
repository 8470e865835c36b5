/**
  Non-negative integers as bit strings, most significant bit first, and the
  exclusive-or of Python's unbounded integers.
 */
module BitStrings {

  /** The low `k` bits of `n`, most significant first. */
  function Bits(n: nat, k: nat): (s: seq<bool>)
    ensures |s| == k
    decreases k, n
  {
    if k == 0 then [] else Bits(n / 2, k - 1) + [n % 2 == 1]
  }

  /** Python's `a ^ b` on non-negative integers. */
  function Xor(a: nat, b: nat): nat {
    if a == 0 && b == 0 then 0
    else 2 * Xor(a / 2, b / 2) + (if a % 2 != b % 2 then 1 else 0)
  }

  function Zeros(k: nat): (s: seq<bool>)
    ensures |s| == k
    ensures forall i :: 0 <= i < k ==> !s[i]
  {
    seq(k, i => false)
  }

  function Ones(k: nat): (s: seq<bool>)
    ensures |s| == k
    ensures forall i :: 0 <= i < k ==> s[i]
  {
    seq(k, i => true)
  }

  ghost predicate IsZero(s: seq<bool>) {
    forall i :: 0 <= i < |s| ==> !s[i]
  }

  /** Bitwise addition over GF(2) of two strings of equal length. */
  function Add(s: seq<bool>, t: seq<bool>): (u: seq<bool>)
    requires |s| == |t|
    ensures |u| == |s|
    ensures forall i :: 0 <= i < |u| ==> u[i] == (s[i] != t[i])
  {
    seq(|s|, i requires 0 <= i < |s| => s[i] != t[i])
  }

  /** Whether the number of set bits is odd. */
  function Parity(s: seq<bool>): bool {
    if s == [] then false else s[0] != Parity(s[1..])
  }

  lemma {:induction false} BitsOfXor(a: nat, b: nat, k: nat)
    ensures Bits(Xor(a, b), k) == Add(Bits(a, k), Bits(b, k))
  {
    if k > 0 {
      BitsOfXor(a / 2, b / 2, k - 1);
      assert Xor(a, b) / 2 == Xor(a / 2, b / 2);
    }
  }

  function Pow2(k: nat): (p: nat)
    ensures p > 0
  {
    if k == 0 then 1 else 2 * Pow2(k - 1)
  }

  lemma Pow2Values()
    ensures Pow2(8) == 0x100 && Pow2(15) == 0x8000 && Pow2(16) == 0x10000
  {
  }

  lemma {:induction false} XorBelow(a: nat, b: nat, k: nat)
    requires a < Pow2(k) && b < Pow2(k)
    ensures Xor(a, b) < Pow2(k)
  {
    if k > 0 {
      XorBelow(a / 2, b / 2, k - 1);
    }
  }

  lemma XorWord(a: nat, b: nat)
    requires a < 0x10000 && b < 0x10000
    ensures Xor(a, b) < 0x10000
  {
    Pow2Values();
    XorBelow(a, b, 16);
  }

  /** A number below 2^k is determined by its k low bits. */
  lemma {:induction false} BitsInjective(a: nat, b: nat, k: nat)
    requires a < Pow2(k) && b < Pow2(k)
    requires Bits(a, k) == Bits(b, k)
    ensures a == b
  {
    if k > 0 {
      var p, q := Bits(a / 2, k - 1), Bits(b / 2, k - 1);
      assert p == Bits(a, k)[..k - 1];
      assert q == Bits(b, k)[..k - 1];
      assert Bits(a, k)[k - 1] == Bits(b, k)[k - 1];
      BitsInjective(a / 2, b / 2, k - 1);
    }
  }

  lemma WordEqual(a: nat, b: nat)
    requires a < 0x10000 && b < 0x10000
    ensures Bits(a, 16) == Bits(b, 16) <==> a == b
  {
    Pow2Values();
    if Bits(a, 16) == Bits(b, 16) {
      BitsInjective(a, b, 16);
    }
  }

  /** A byte in the upper half of a word. */
  lemma UpperByte(b: nat)
    ensures Bits(b * 256, 16) == Bits(b, 8) + Zeros(8)
  {
    Pow2Values();
    BitsConcat(b, 0, 8, 8);
    BitsOfZero(8);
  }

  /** Dropping the top bit of a wider view leaves the narrower view. */
  lemma {:induction false} BitsDropTop(n: nat, k: nat)
    ensures Bits(n, k + 1)[1..] == Bits(n, k)
    ensures Bits(n, k + 1)[0] == (n / Pow2(k) % 2 == 1)
  {
    if k > 0 {
      BitsDropTop(n / 2, k - 1);
      DivTwice(n, Pow2(k - 1));
      assert Bits(n, k + 1) == Bits(n / 2, k) + [n % 2 == 1];
      assert Bits(n, k + 1)[1..] == Bits(n / 2, k)[1..] + [n % 2 == 1];
    }
  }

  lemma {:induction false} DivTwice(n: nat, p: nat)
    requires p > 0
    ensures n / (2 * p) == n / 2 / p
  {
    var q := n / 2 / p;
    var r := n / 2 % p;
    assert n / 2 == p * q + r;
    assert n == 2 * (p * q) + (2 * r + n % 2);
    assert n == (2 * p) * q + (2 * r + n % 2);
    DivIs(n, 2 * p, q, 2 * r + n % 2);
  }

  lemma {:induction false} DivIs(n: nat, d: nat, q: nat, r: nat)
    requires d > 0 && n == d * q + r && r < d
    ensures n / d == q
  {
    var m := n / d;
    if m < q {
      MulGap(d, m, q);
    } else if q < m {
      MulGap(d, q, m);
    }
  }

  lemma BitsNibble(n: nat, k: nat)
    ensures Bits(n, k + 4) == Bits(n / 16, k) + [n / 8 % 2 == 1, n / 4 % 2 == 1, n / 2 % 2 == 1, n % 2 == 1]
  {
    assert Bits(n, k + 4) == Bits(n / 2, k + 3) + [n % 2 == 1];
    assert Bits(n / 2, k + 3) == Bits(n / 4, k + 2) + [n / 2 % 2 == 1];
    assert Bits(n / 4, k + 2) == Bits(n / 8, k + 1) + [n / 4 % 2 == 1];
    assert Bits(n / 8, k + 1) == Bits(n / 16, k) + [n / 8 % 2 == 1];
  }

  lemma {:induction false} BitsOfZero(k: nat)
    ensures Bits(0, k) == Zeros(k)
  {
    if k > 0 {
      BitsOfZero(k - 1);
    }
  }

  /** Writing a number in front of `j` low bits puts its bits in front. */
  lemma {:induction false} BitsConcat(hi: nat, lo: nat, k: nat, j: nat)
    requires lo < Pow2(j)
    ensures Bits(hi * Pow2(j) + lo, k + j) == Bits(hi, k) + Bits(lo, j)
  {
    if j > 0 {
      var top := hi * Pow2(j - 1);
      assert hi * Pow2(j) == 2 * top by {
        DoubleProduct(hi, Pow2(j - 1));
      }
      BitsConcat(hi, lo / 2, k, j - 1);
      var n := hi * Pow2(j) + lo;
      assert n / 2 == top + lo / 2;
      assert Bits(n, k + j) == Bits(top + lo / 2, k + (j - 1)) + [lo % 2 == 1];
    }
  }

  lemma MulGap(d: nat, a: nat, b: nat)
    requires a < b
    ensures d * a + d <= d * b
  {
    assert d * b == d * (a + 1) + d * (b - a - 1);
  }

  lemma DoubleProduct(a: nat, b: nat)
    ensures a * (2 * b) == 2 * (a * b)
  {
  }

  lemma {:induction false} ParityOfAdd(s: seq<bool>, t: seq<bool>)
    requires |s| == |t|
    ensures Parity(Add(s, t)) == (Parity(s) != Parity(t))
  {
    if s != [] {
      assert Add(s, t)[1..] == Add(s[1..], t[1..]);
      ParityOfAdd(s[1..], t[1..]);
    }
  }

  lemma {:induction false} ParityOfConcat(s: seq<bool>, t: seq<bool>)
    ensures Parity(s + t) == (Parity(s) != Parity(t))
  {
    if s == [] {
      assert s + t == t;
    } else {
      assert (s + t)[1..] == s[1..] + t;
      ParityOfConcat(s[1..], t);
    }
  }

  lemma {:induction false} ParityOfZeros(k: nat)
    ensures !Parity(Zeros(k))
  {
    if k > 0 {
      assert Zeros(k)[1..] == Zeros(k - 1);
      ParityOfZeros(k - 1);
    }
  }
}
