/** Bytes and machine words as rows of bits, the lowest first. */
module Words {
  type Bits = seq<bool>

  type Octet = b: Bits | |b| == 8 witness seq(8, _ => false)

  type Word = b: Bits | |b| == 32 witness seq(32, _ => false)

  function And(x: Bits, y: Bits): (r: Bits)
    requires |x| == |y|
    ensures |r| == |x|
  {
    seq(|x|, i requires 0 <= i < |x| => x[i] && y[i])
  }

  function Or(x: Bits, y: Bits): (r: Bits)
    requires |x| == |y|
    ensures |r| == |x|
  {
    seq(|x|, i requires 0 <= i < |x| => x[i] || y[i])
  }

  function Xor(x: Bits, y: Bits): (r: Bits)
    requires |x| == |y|
    ensures |r| == |x|
  {
    seq(|x|, i requires 0 <= i < |x| => x[i] != y[i])
  }

  function Not(x: Bits): (r: Bits)
    ensures |r| == |x|
  {
    seq(|x|, i requires 0 <= i < |x| => !x[i])
  }

  /** x << s, x >> s */
  function Shl(x: Bits, s: nat): (r: Bits)
    ensures |r| == |x|
  {
    seq(|x|, i requires 0 <= i < |x| => i >= s && x[i - s])
  }

  function Shr(x: Bits, s: nat): (r: Bits)
    ensures |r| == |x|
  {
    seq(|x|, i requires 0 <= i < |x| => i + s < |x| && x[i + s])
  }

  function Zero(w: nat): (r: Bits)
    ensures |r| == w
  {
    seq(w, _ => false)
  }

  /** 1 << k */
  function Unit(w: nat, k: nat): (r: Bits)
    ensures |r| == w
  {
    seq(w, i => i == k)
  }

  /** (1 << n) - 1 */
  function Ones(w: nat, n: nat): (r: Bits)
    ensures |r| == w
  {
    seq(w, i => i < n)
  }

  function Flip(x: Bits, k: nat): (r: Bits)
    requires k < |x|
    ensures |r| == |x|
  {
    x[k := !x[k]]
  }

  function Pow2(n: nat): (r: nat)
    ensures r > 0
  {
    if n == 0 then 1 else 2 * Pow2(n - 1)
  }

  /** The number a row of bits stands for, and back. */
  function Value(bits: Bits): nat {
    if |bits| == 0 then 0 else (if bits[0] then 1 else 0) + 2 * Value(bits[1..])
  }

  function BitsOf(n: nat, w: nat): (r: Bits)
    ensures |r| == w
    decreases w
  {
    if w == 0 then [] else [n % 2 == 1] + BitsOf(n / 2, w - 1)
  }

  lemma {:induction false} BitsOfValue(b: Bits)
    ensures BitsOf(Value(b), |b|) == b
  {
    if |b| > 0 {
      BitsOfValue(b[1..]);
      assert Value(b) / 2 == Value(b[1..]);
    }
  }

  lemma {:induction false} ValueOfBits(n: nat, w: nat)
    requires n < Pow2(w)
    ensures Value(BitsOf(n, w)) == n
    decreases w
  {
    if w > 0 {
      ValueOfBits(n / 2, w - 1);
      assert BitsOf(n, w)[1..] == BitsOf(n / 2, w - 1);
    }
  }

  lemma {:induction false} ValueBelow(bits: Bits)
    ensures Value(bits) < Pow2(|bits|)
  {
    if |bits| > 0 {
      ValueBelow(bits[1..]);
    }
  }

  lemma {:induction false} ValueSplit(bits: Bits, g: nat)
    requires g <= |bits|
    ensures Value(bits) == Value(bits[..g]) + Pow2(g) * Value(bits[g..])
    decreases g
  {
    if g == 0 {
      assert bits[..0] == [] && bits[0..] == bits;
    } else {
      ValueSplit(bits[1..], g - 1);
      assert bits[1..][..g - 1] == bits[..g][1..] && bits[1..][g - 1..] == bits[g..];
      Doubled(Pow2(g - 1), Value(bits[g..]));
    }
  }

  lemma Doubled(p: nat, v: nat)
    ensures 2 * (p * v) == (2 * p) * v
  {
  }

  lemma {:induction false} ValueZero(bits: Bits)
    requires forall j | 0 <= j < |bits| :: !bits[j]
    ensures Value(bits) == 0
  {
    if |bits| > 0 {
      ValueZero(bits[1..]);
    }
  }

  lemma {:induction false} ZeroValue(bits: Bits, j: nat)
    requires Value(bits) == 0 && j < |bits|
    ensures !bits[j]
    decreases |bits|
  {
    if j > 0 {
      ZeroValue(bits[1..], j - 1);
    }
  }

  /** How many bits are set. */
  function Count(bits: Bits): nat {
    if |bits| == 0 then 0 else (if bits[0] then 1 else 0) + Count(bits[1..])
  }

  lemma {:induction false} CountZero(bits: Bits)
    ensures Count(bits) == 0 <==> bits == Zero(|bits|)
  {
    if |bits| > 0 {
      CountZero(bits[1..]);
      assert bits == [bits[0]] + bits[1..];
      assert bits[1..] == Zero(|bits| - 1) ==> forall j | 1 <= j < |bits| :: bits[j] == bits[1..][j - 1] == false;
      assert bits == Zero(|bits|) ==> bits[1..] == Zero(|bits| - 1);
    }
  }

  lemma {:induction false} CountUnit(w: nat, k: nat)
    requires k < w
    ensures Count(Unit(w, k)) == 1
    decreases w
  {
    if k == 0 {
      assert Unit(w, k)[1..] == Zero(w - 1);
      CountZero(Zero(w - 1));
    } else {
      assert Unit(w, k)[1..] == Unit(w - 1, k - 1);
      CountUnit(w - 1, k - 1);
    }
  }

  lemma {:induction false} CountAdds(a: Bits, b: Bits)
    ensures Count(a + b) == Count(a) + Count(b)
  {
    if |a| == 0 {
      assert a + b == b;
    } else {
      CountAdds(a[1..], b);
      assert (a + b)[1..] == a[1..] + b;
    }
  }

  lemma CountShift(x: Bits)
    requires |x| > 0
    ensures Count(x) == (if x[0] then 1 else 0) + Count(Shr(x, 1))
  {
    assert Shr(x, 1) == x[1..] + [false];
    CountAdds(x[1..], [false]);
  }

  lemma XorFlip(x: Bits, k: nat)
    requires k < |x|
    ensures Flip(x, k) == Xor(x, Unit(|x|, k))
  {
  }
}
