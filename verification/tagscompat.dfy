/** The tags of yaffs1: eight bytes with a twelve-bit code among them. */
module TagsCompat {
  import opened Words
  import opened Ecc

  const ECC_AT: nat := 50
  const ECC_WIDTH: nat := 12

  /** Bit p of the eight bytes. */
  ghost predicate BitAt(b: seq<Octet>, p: nat)
    requires |b| == 8 && p < 64
  {
    b[p / 8][p % 8]
  }

  ghost function FlipBit(b: seq<Octet>, p: nat): (r: seq<Octet>)
    requires |b| == 8 && p < 64
    ensures |r| == 8
  {
    Flipped(b, p / 8, p % 8)
  }

  predicate InField(p: nat) {
    ECC_AT <= p < ECC_AT + ECC_WIDTH
  }

  /** The code field: the upper six bits of byte 6 and the lower six of byte 7. */
  function EccField(b: seq<Octet>): (e: Bits)
    requires |b| == 8
    ensures |e| == ECC_WIDTH
  {
    b[6][2..] + b[7][..6]
  }

  function WithEcc(b: seq<Octet>, e: Bits): (r: seq<Octet>)
    requires |b| == 8 && |e| == ECC_WIDTH
    ensures |r| == 8
  {
    var low, high := b[6][..2] + e[..6], e[6..] + b[7][6..];
    b[6 := low][7 := high]
  }

  /** The numbers of the set bits among the first n, counted from 1, taken together. */
  ghost function Syndrome(b: seq<Octet>, n: nat): (s: Bits)
    requires |b| == 8 && n <= 64
    ensures |s| == ECC_WIDTH
  {
    if n == 0 then Zero(ECC_WIDTH)
    else if BitAt(b, n - 1) then Xor(Syndrome(b, n - 1), BitsOf(n, ECC_WIDTH))
    else Syndrome(b, n - 1)
  }

  /** The tags with the code that belongs to them. */
  ghost function Sealed(b: seq<Octet>): (r: seq<Octet>)
    requires |b| == 8
    ensures |r| == 8
  {
    WithEcc(b, Syndrome(WithEcc(b, Zero(ECC_WIDTH)), 64))
  }

  lemma SameBits(a: seq<Octet>, b: seq<Octet>)
    requires |a| == |b| == 8 && forall p: nat | p < 64 :: BitAt(a, p) == BitAt(b, p)
    ensures a == b
  {
    forall i | 0 <= i < 8
      ensures a[i] == b[i]
    {
      forall j | 0 <= j < 8
        ensures a[i][j] == b[i][j]
      {
        assert BitAt(a, 8 * i + j) == BitAt(b, 8 * i + j);
      }
    }
  }

  lemma WithEccBit(b: seq<Octet>, e: Bits, p: nat)
    requires |b| == 8 && |e| == ECC_WIDTH && p < 64
    ensures BitAt(WithEcc(b, e), p) == if InField(p) then e[p - ECC_AT] else BitAt(b, p)
  {
  }

  lemma EccFieldBit(b: seq<Octet>, j: nat)
    requires |b| == 8 && j < ECC_WIDTH
    ensures EccField(b)[j] == BitAt(b, ECC_AT + j)
  {
  }

  lemma FlipBitBit(b: seq<Octet>, p: nat, q: nat)
    requires |b| == 8 && p < 64 && q < 64
    ensures BitAt(FlipBit(b, p), q) == (BitAt(b, q) != (p == q))
  {
  }

  /** Setting the code twice, taking it out again, and flipping a bit beside it or in it. */
  lemma WithEccLaws(b: seq<Octet>, d: Bits, e: Bits)
    requires |b| == 8 && |d| == |e| == ECC_WIDTH
    ensures WithEcc(WithEcc(b, d), e) == WithEcc(b, e)
    ensures EccField(WithEcc(b, e)) == e && WithEcc(b, EccField(b)) == b
  {
    forall p: nat | p < 64
      ensures BitAt(WithEcc(WithEcc(b, d), e), p) == BitAt(WithEcc(b, e), p)
      ensures BitAt(WithEcc(b, EccField(b)), p) == BitAt(b, p)
    {
      WithEccBit(WithEcc(b, d), e, p);
      WithEccBit(b, d, p);
      WithEccBit(b, e, p);
      WithEccBit(b, EccField(b), p);
      if InField(p) {
        EccFieldBit(b, p - ECC_AT);
      }
    }
    SameBits(WithEcc(WithEcc(b, d), e), WithEcc(b, e));
    SameBits(WithEcc(b, EccField(b)), b);
    forall j: nat | j < ECC_WIDTH
      ensures EccField(WithEcc(b, e))[j] == e[j]
    {
      EccFieldBit(WithEcc(b, e), j);
      WithEccBit(b, e, ECC_AT + j);
    }
  }

  lemma FlipOutside(b: seq<Octet>, e: Bits, p: nat)
    requires |b| == 8 && |e| == ECC_WIDTH && p < 64 && !InField(p)
    ensures WithEcc(FlipBit(b, p), e) == FlipBit(WithEcc(b, e), p)
    ensures EccField(FlipBit(b, p)) == EccField(b)
    ensures FlipBit(FlipBit(b, p), p) == b
  {
    hide WithEcc, FlipBit, EccField;
    forall q: nat | q < 64
      ensures BitAt(WithEcc(FlipBit(b, p), e), q) == BitAt(FlipBit(WithEcc(b, e), p), q)
      ensures BitAt(FlipBit(FlipBit(b, p), p), q) == BitAt(b, q)
    {
      WithEccBit(FlipBit(b, p), e, q);
      WithEccBit(b, e, q);
      FlipBitBit(b, p, q);
      FlipBitBit(WithEcc(b, e), p, q);
      FlipBitBit(FlipBit(b, p), p, q);
    }
    SameBits(WithEcc(FlipBit(b, p), e), FlipBit(WithEcc(b, e), p));
    SameBits(FlipBit(FlipBit(b, p), p), b);
    forall j: nat | j < ECC_WIDTH
      ensures EccField(FlipBit(b, p))[j] == EccField(b)[j]
    {
      EccFieldBit(FlipBit(b, p), j);
      EccFieldBit(b, j);
      FlipBitBit(b, p, ECC_AT + j);
    }
  }

  lemma FlipInside(b: seq<Octet>, e: Bits, p: nat)
    requires |b| == 8 && |e| == ECC_WIDTH && p < 64 && InField(p)
    ensures WithEcc(FlipBit(b, p), e) == WithEcc(b, e)
    ensures EccField(FlipBit(b, p)) == Flip(EccField(b), p - ECC_AT)
  {
    hide WithEcc, FlipBit, EccField;
    forall q: nat | q < 64
      ensures BitAt(WithEcc(FlipBit(b, p), e), q) == BitAt(WithEcc(b, e), q)
    {
      WithEccBit(FlipBit(b, p), e, q);
      WithEccBit(b, e, q);
      FlipBitBit(b, p, q);
    }
    SameBits(WithEcc(FlipBit(b, p), e), WithEcc(b, e));
    forall j: nat | j < ECC_WIDTH
      ensures EccField(FlipBit(b, p))[j] == Flip(EccField(b), p - ECC_AT)[j]
    {
      EccFieldBit(FlipBit(b, p), j);
      EccFieldBit(b, j);
      FlipBitBit(b, p, ECC_AT + j);
    }
  }

  /** A flipped bit changes the syndrome by its number. */
  lemma {:induction false} FlippedSyndrome(b: seq<Octet>, p: nat, n: nat)
    requires |b| == 8 && p < 64 && n <= 64
    ensures Syndrome(FlipBit(b, p), n) == if p < n then Xor(Syndrome(b, n), BitsOf(p + 1, ECC_WIDTH))
        else Syndrome(b, n)
    decreases n
  {
    hide Xor, FlipBit, BitAt, BitsOf;
    if n > 0 {
      FlippedSyndrome(b, p, n - 1);
      FlipBitBit(b, p, n - 1);
      XorSwap(Syndrome(b, n - 1), BitsOf(p + 1, ECC_WIDTH), BitsOf(n, ECC_WIDTH));
      XorTwice(Syndrome(b, n - 1), BitsOf(n, ECC_WIDTH));
    }
  }

  /** How many of the first n bits that are not of the code are set and have bit j set in their number. */
  ghost function Numbered(b: seq<Octet>, j: nat, n: nat): nat
    requires |b| == 8 && n <= 64
  {
    if n == 0 then 0 else Numbered(b, j, n - 1) + N(BitAt(b, n - 1) && !InField(n - 1) && BitOf(n, j))
  }

  lemma {:induction false} SyndromeBit(b: seq<Octet>, j: nat, n: nat)
    requires |b| == 8 && n <= 64 && j < ECC_WIDTH
    ensures Syndrome(WithEcc(b, Zero(ECC_WIDTH)), n)[j] <==> Numbered(b, j, n) % 2 == 1
    decreases n
  {
    hide WithEcc, BitAt, BitsOf, BitOf;
    if n > 0 {
      SyndromeBit(b, j, n - 1);
      WithEccBit(b, Zero(ECC_WIDTH), n - 1);
      BitOfBits(n, ECC_WIDTH, j);
    }
  }

  /** The tags are w but for the code, and bit j of the code is set if an odd number of the other bits are set
      and have that bit set in their number, counted from 1. */
  ghost predicate IsSealed(b: seq<Octet>, w: seq<Octet>) {
    |b| == |w| == 8 && forall p: nat | p < 64 ::
      BitAt(b, p) == if InField(p) then Numbered(w, p - ECC_AT, 64) % 2 == 1 else BitAt(w, p)
  }

  lemma SealedIs(w: seq<Octet>)
    requires |w| == 8
    ensures IsSealed(Sealed(w), w)
  {
    hide WithEcc, BitAt, Syndrome, Numbered;
    forall p: nat | p < 64
      ensures BitAt(Sealed(w), p) == if InField(p) then Numbered(w, p - ECC_AT, 64) % 2 == 1 else BitAt(w, p)
    {
      WithEccBit(w, Syndrome(WithEcc(w, Zero(ECC_WIDTH)), 64), p);
      if InField(p) {
        SyndromeBit(w, p - ECC_AT, 64);
      }
    }
  }

  method CalcTagsECC(b: array<Octet>)
    requires b.Length == 8
    modifies b
    ensures b[..] == Sealed(old(b[..])) && IsSealed(b[..], old(b[..]))
  {
    hide Xor, WithEcc, BitsOf, IsSealed;
    SealedIs(b[..]);
    ghost var was := b[..];
    SetEcc(b, Zero(ECC_WIDTH));
    ghost var cleared := b[..];
    var ecc := Zero(ECC_WIDTH);
    var bit := 0;
    var i := 0;
    while i < 8
      invariant 0 <= i <= 8 && bit == 8 * i && b[..] == cleared && |ecc| == ECC_WIDTH && ecc == Syndrome(cleared, bit)
    {
      var j := 0;
      while j < 8
        invariant 0 <= j <= 8 && bit == 8 * i + j && b[..] == cleared && |ecc| == ECC_WIDTH
            && ecc == Syndrome(cleared, bit)
      {
        bit := bit + 1;
        assert BitAt(cleared, bit - 1) == b[i][j];
        if b[i][j] {
          ecc := Xor(ecc, BitsOf(bit, ECC_WIDTH));
        }
        j := j + 1;
      }
      i := i + 1;
    }
    SetEcc(b, ecc);
    WithEccLaws(was, Zero(ECC_WIDTH), ecc);
  }

  method SetEcc(b: array<Octet>, e: Bits)
    requires b.Length == 8 && |e| == ECC_WIDTH
    modifies b
    ensures b[..] == WithEcc(old(b[..]), e)
  {
    b[6] := b[6][..2] + e[..6];
    b[7] := e[6..] + b[7][6..];
  }

  /** What the code stored and the code of the tags differ by. */
  ghost function Difference(b: seq<Octet>): (e: Bits)
    requires |b| == 8
    ensures |e| == ECC_WIDTH
  {
    Xor(EccField(b), EccField(Sealed(b)))
  }

  /** What checking makes of the tags: it takes a small difference for the number of a wrong bit. */
  method CheckECCOnTags(b: array<Octet>) returns (r: int)
    requires b.Length == 8
    modifies b
    ensures var was := old(b[..]); var v := Value(Difference(was));
            && (v == 0 ==> r == 0 && b[..] == was)
            && (0 < v <= 64 ==> r == 1 && b[..] == Sealed(FlipBit(Sealed(was), v - 1)))
            && (v > 64 ==> r == -1 && b[..] == Sealed(was))
  {
    hide Xor, WithEcc, Sealed, EccField, Value;
    ghost var was := b[..];
    var ecc := EccField(b[..]);
    CalcTagsECC(b);
    ecc := Xor(ecc, EccField(b[..]));
    var v := Value(ecc);
    if v != 0 && v <= 64 {
      v := v - 1;
      b[v / 8] := Flip(b[v / 8], v % 8);
      assert b[..] == FlipBit(Sealed(was), v);
      CalcTagsECC(b);
      return 1;
    } else if v != 0 {
      return -1;
    }
    NoDifference(was);
    r := 0;
  }

  lemma NoDifference(b: seq<Octet>)
    requires |b| == 8 && Value(Difference(b)) == 0
    ensures Sealed(b) == b
  {
    hide WithEcc, EccField, Syndrome, Value;
    var s := Syndrome(WithEcc(b, Zero(ECC_WIDTH)), 64);
    WithEccLaws(b, Zero(ECC_WIDTH), s);
    BitsOfValue(Difference(b));
    ValueZero(Zero(ECC_WIDTH));
    BitsOfValue(Zero(ECC_WIDTH));
    XorZero(EccField(b), s);
  }

  lemma SealedLaws(b: seq<Octet>)
    requires |b| == 8
    ensures Sealed(Sealed(b)) == Sealed(b) && EccField(Sealed(b)) == Syndrome(WithEcc(b, Zero(ECC_WIDTH)), 64)
    ensures WithEcc(Sealed(b), Zero(ECC_WIDTH)) == WithEcc(b, Zero(ECC_WIDTH))
  {
    hide WithEcc, EccField, Syndrome;
    var s := Syndrome(WithEcc(b, Zero(ECC_WIDTH)), 64);
    WithEccLaws(b, s, Zero(ECC_WIDTH));
    WithEccLaws(b, s, s);
  }

  lemma TwelveBits(v: nat)
    requires v <= 64
    ensures Value(BitsOf(v, ECC_WIDTH)) == v
  {
    assert Pow2(12) == 4096;
    ValueOfBits(v, 12);
  }

  /** A bit flipped outside the code: the difference is its number, and setting it right gives the tags
      as they were. */
  lemma FlipOutsideFound(w: seq<Octet>, p: nat)
    requires |w| == 8 && Sealed(w) == w && p < 64 && !InField(p)
    ensures Value(Difference(FlipBit(w, p))) == p + 1
    ensures Sealed(FlipBit(Sealed(FlipBit(w, p)), p)) == w
  {
    hide WithEcc, EccField, FlipBit, Xor, Value, BitsOf, Syndrome;
    var z := Zero(ECC_WIDTH);
    var read := FlipBit(w, p);
    FlipOutside(w, z, p);
    FlippedSyndrome(WithEcc(w, z), p, 64);
    SealedLaws(w);
    SealedLaws(read);
    XorTwice(EccField(w), BitsOf(p + 1, ECC_WIDTH));
    TwelveBits(p + 1);
    var s := Syndrome(WithEcc(read, z), 64);
    FlipOutside(read, s, p);
    assert FlipBit(Sealed(read), p) == WithEcc(w, s);
    WithEccLaws(w, s, z);
    WithEccLaws(w, s, EccField(w));
  }

  lemma {:induction false} ValueUnit(w: nat, k: nat)
    requires k < w
    ensures Value(Unit(w, k)) == Pow2(k)
    decreases w
  {
    if k == 0 {
      assert Unit(w, k)[1..] == Zero(w - 1);
      ValueZero(Zero(w - 1));
    } else {
      assert Unit(w, k)[1..] == Unit(w - 1, k - 1);
      ValueUnit(w - 1, k - 1);
    }
  }

  /** A bit flipped in the code gives a power of two, which may pass for the number of a bit. */
  lemma FlipInsideFound(w: seq<Octet>, p: nat)
    requires |w| == 8 && Sealed(w) == w && p < 64 && InField(p)
    ensures Value(Difference(FlipBit(w, p))) == Pow2(p - ECC_AT) && Sealed(FlipBit(w, p)) == w
  {
    hide WithEcc, EccField, FlipBit, Xor, Value, BitsOf, Syndrome, Flip;
    var z := Zero(ECC_WIDTH);
    var read := FlipBit(w, p);
    FlipInside(w, z, p);
    FlipInside(w, EccField(w), p);
    SealedLaws(w);
    SealedLaws(read);
    WithEccLaws(w, z, EccField(w));
    XorFlip(EccField(w), p - ECC_AT);
    XorTwice(EccField(w), Unit(ECC_WIDTH, p - ECC_AT));
    XorSwap(EccField(w), Unit(ECC_WIDTH, p - ECC_AT), EccField(w));
    FlipDelta(EccField(w), p - ECC_AT);
    ValueUnit(ECC_WIDTH, p - ECC_AT);
  }

  lemma FlipDelta(e: Bits, k: nat)
    requires k < |e|
    ensures Xor(Flip(e, k), e) == Unit(|e|, k)
  {
  }

  lemma SmallPowers(k: nat)
    requires k < ECC_WIDTH
    ensures Pow2(k) <= 64 <==> k <= 6
    ensures k <= 6 ==> !InField(Pow2(k) - 1)
  {
    assert Pow2(0) == 1 && Pow2(1) == 2 && Pow2(2) == 4 && Pow2(3) == 8;
    assert Pow2(4) == 16 && Pow2(5) == 32 && Pow2(6) == 64 && Pow2(7) == 128;
    assert Pow2(8) == 256 && Pow2(9) == 512 && Pow2(10) == 1024 && Pow2(11) == 2048;
  }

  /** Tags are read with one bit wrong. They come back as they were written, and are said to have been put
      right, exactly when the bit is not one of the code. A wrong low bit of the code makes the check
      spoil a good bit; a wrong high one is reported as beyond repair, though the tags are good again. */
  method CheckFlipped(b: array<Octet>, ghost written: seq<Octet>, ghost p: nat) returns (r: int)
    requires b.Length == |written| == 8 && Sealed(written) == written && p < 64 && b[..] == FlipBit(written, p)
    modifies b
    ensures (r == 1 && b[..] == written) <==> !InField(p)
    ensures InField(p) && p - ECC_AT <= 6 ==>
        r == 1 && Pow2(p - ECC_AT) <= 64 && b[..] == Sealed(FlipBit(written, Pow2(p - ECC_AT) - 1)) != written
    ensures InField(p) && p - ECC_AT > 6 ==> r == -1 && b[..] == written
  {
    hide Difference, Sealed, FlipBit, Value, Pow2;
    r := CheckECCOnTags(b);
    if InField(p) {
      FlipInsideFound(written, p);
      SmallPowers(p - ECC_AT);
      if p - ECC_AT <= 6 {
        StaysWrong(written, Pow2(p - ECC_AT) - 1);
      }
    } else {
      FlipOutsideFound(written, p);
    }
  }

  lemma StaysWrong(w: seq<Octet>, p: nat)
    requires |w| == 8 && p < 64 && !InField(p)
    ensures Sealed(FlipBit(w, p)) != w
  {
    hide Syndrome, WithEcc, FlipBit;
    var b := FlipBit(w, p);
    WithEccBit(b, Syndrome(WithEcc(b, Zero(ECC_WIDTH)), 64), p);
    FlipBitBit(w, p, p);
  }
}
