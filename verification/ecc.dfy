/** The error-correcting codes: column and line parities, and what they repair. */
module Parity {
  import opened Words

  /** Bit j of the byte written with these two hexadecimal digits. */
  predicate HexBit(e: (nat, nat), j: nat) {
    if j < 4 then NibbleBit(e.1, j) else NibbleBit(e.0, j - 4)
  }

  predicate NibbleBit(n: nat, j: nat) {
    if j == 0 then n == 1 || n == 3 || n == 5 || n == 7 || n == 9 || n == 11 || n == 13 || n == 15
    else if j == 1 then n == 2 || n == 3 || n == 6 || n == 7 || n == 10 || n == 11 || n == 14 || n == 15
    else if j == 2 then 4 <= n < 8 || 12 <= n
    else 8 <= n
  }

  function Hex(e: (nat, nat)): Octet {
    seq(8, j requires 0 <= j < 8 => HexBit(e, j))
  }

  type Row = r: seq<(nat, nat)> | |r| == 8 witness seq(8, _ => (0, 0))

  /** The column parity table, eight entries a row and four rows a part; each entry as its two hexadecimal digits. */
  function TableRows0(r: nat): Row
    requires r < 4
  {
    if r == 0 then [(0, 0), (5, 5), (5, 9), (0, 12), (6, 5), (3, 0), (3, 12), (6, 9)]
    else if r == 1 then [(6, 9), (3, 12), (3, 0), (6, 5), (0, 12), (5, 9), (5, 5), (0, 0)]
    else if r == 2 then [(9, 5), (12, 0), (12, 12), (9, 9), (15, 0), (10, 5), (10, 9), (15, 12)]
    else [(15, 12), (10, 9), (10, 5), (15, 0), (9, 9), (12, 12), (12, 0), (9, 5)]
  }

  function TableRows1(r: nat): Row
    requires r < 4
  {
    if r == 0 then [(9, 9), (12, 12), (12, 0), (9, 5), (15, 12), (10, 9), (10, 5), (15, 0)]
    else if r == 1 then [(15, 0), (10, 5), (10, 9), (15, 12), (9, 5), (12, 0), (12, 12), (9, 9)]
    else if r == 2 then [(0, 12), (5, 9), (5, 5), (0, 0), (6, 9), (3, 12), (3, 0), (6, 5)]
    else [(6, 5), (3, 0), (3, 12), (6, 9), (0, 0), (5, 5), (5, 9), (0, 12)]
  }

  function TableRows2(r: nat): Row
    requires r < 4
  {
    if r == 0 then [(10, 5), (15, 0), (15, 12), (10, 9), (12, 0), (9, 5), (9, 9), (12, 12)]
    else if r == 1 then [(12, 12), (9, 9), (9, 5), (12, 0), (10, 9), (15, 12), (15, 0), (10, 5)]
    else if r == 2 then [(3, 0), (6, 5), (6, 9), (3, 12), (5, 5), (0, 0), (0, 12), (5, 9)]
    else [(5, 9), (0, 12), (0, 0), (5, 5), (3, 12), (6, 9), (6, 5), (3, 0)]
  }

  function TableRows3(r: nat): Row
    requires r < 4
  {
    if r == 0 then [(3, 12), (6, 9), (6, 5), (3, 0), (5, 9), (0, 12), (0, 0), (5, 5)]
    else if r == 1 then [(5, 5), (0, 0), (0, 12), (5, 9), (3, 0), (6, 5), (6, 9), (3, 12)]
    else if r == 2 then [(10, 9), (15, 12), (15, 0), (10, 5), (12, 12), (9, 9), (9, 5), (12, 0)]
    else [(12, 0), (9, 5), (9, 9), (12, 12), (10, 5), (15, 0), (15, 12), (10, 9)]
  }

  function TableRows4(r: nat): Row
    requires r < 4
  {
    if r == 0 then [(10, 9), (15, 12), (15, 0), (10, 5), (12, 12), (9, 9), (9, 5), (12, 0)]
    else if r == 1 then [(12, 0), (9, 5), (9, 9), (12, 12), (10, 5), (15, 0), (15, 12), (10, 9)]
    else if r == 2 then [(3, 12), (6, 9), (6, 5), (3, 0), (5, 9), (0, 12), (0, 0), (5, 5)]
    else [(5, 5), (0, 0), (0, 12), (5, 9), (3, 0), (6, 5), (6, 9), (3, 12)]
  }

  function TableRows5(r: nat): Row
    requires r < 4
  {
    if r == 0 then [(3, 0), (6, 5), (6, 9), (3, 12), (5, 5), (0, 0), (0, 12), (5, 9)]
    else if r == 1 then [(5, 9), (0, 12), (0, 0), (5, 5), (3, 12), (6, 9), (6, 5), (3, 0)]
    else if r == 2 then [(10, 5), (15, 0), (15, 12), (10, 9), (12, 0), (9, 5), (9, 9), (12, 12)]
    else [(12, 12), (9, 9), (9, 5), (12, 0), (10, 9), (15, 12), (15, 0), (10, 5)]
  }

  function TableRows6(r: nat): Row
    requires r < 4
  {
    if r == 0 then [(0, 12), (5, 9), (5, 5), (0, 0), (6, 9), (3, 12), (3, 0), (6, 5)]
    else if r == 1 then [(6, 5), (3, 0), (3, 12), (6, 9), (0, 0), (5, 5), (5, 9), (0, 12)]
    else if r == 2 then [(9, 9), (12, 12), (12, 0), (9, 5), (15, 12), (10, 9), (10, 5), (15, 0)]
    else [(15, 0), (10, 5), (10, 9), (15, 12), (9, 5), (12, 0), (12, 12), (9, 9)]
  }

  function TableRows7(r: nat): Row
    requires r < 4
  {
    if r == 0 then [(9, 5), (12, 0), (12, 12), (9, 9), (15, 0), (10, 5), (10, 9), (15, 12)]
    else if r == 1 then [(15, 12), (10, 9), (10, 5), (15, 0), (9, 9), (12, 12), (12, 0), (9, 5)]
    else if r == 2 then [(0, 0), (5, 5), (5, 9), (0, 12), (6, 5), (3, 0), (3, 12), (6, 9)]
    else [(6, 9), (3, 12), (3, 0), (6, 5), (0, 12), (5, 9), (5, 5), (0, 0)]
  }

  function Low2(b: bool, c: bool): (r: nat)
    ensures r < 4
  {
    (if b then 1 else 0) + (if c then 2 else 0)
  }

  function Low3(b: bool, c: bool, d: bool): (r: nat)
    ensures r < 8
  {
    Low2(b, c) + (if d then 4 else 0)
  }

  function TableRow(r: nat, part: nat): Row
    requires r < 4 && part < 8
  {
    if part == 0 then TableRows0(r) else if part == 1 then TableRows1(r) else if part == 2 then TableRows2(r)
    else if part == 3 then TableRows3(r) else if part == 4 then TableRows4(r) else if part == 5 then TableRows5(r)
    else if part == 6 then TableRows6(r) else TableRows7(r)
  }

  /** column_parity_table[b] */
  function ColumnParity(b: Octet): Octet {
    Hex(TableRow(Low2(b[3], b[4]), Low3(b[5], b[6], b[7]))[Low3(b[0], b[1], b[2])])
  }

  /** Is an odd number of the four true? */
  predicate Odd4(a: bool, b: bool, c: bool, d: bool) {
    (a != b) != (c != d)
  }

  /** The parity of all bits, then of each half of the bits, the halves told apart by one bit of their number. */
  predicate ParityBit(b: Octet, j: nat) {
    if j == 0 then Odd4(b[0], b[1], b[2], b[3]) != Odd4(b[4], b[5], b[6], b[7])
    else if j == 1 then false
    else if j == 2 then Odd4(b[0], b[2], b[4], b[6])
    else if j == 3 then Odd4(b[1], b[3], b[5], b[7])
    else if j == 4 then Odd4(b[0], b[1], b[4], b[5])
    else if j == 5 then Odd4(b[2], b[3], b[6], b[7])
    else if j == 6 then Odd4(b[0], b[1], b[2], b[3])
    else Odd4(b[4], b[5], b[6], b[7])
  }

  function Parities(b: Octet): Octet {
    seq(8, j requires 0 <= j < 8 => ParityBit(b, j))
  }

  predicate Matches(e: (nat, nat), b: Octet) {
    && HexBit(e, 0) == ParityBit(b, 0) && HexBit(e, 1) == ParityBit(b, 1)
    && HexBit(e, 2) == ParityBit(b, 2) && HexBit(e, 3) == ParityBit(b, 3)
    && HexBit(e, 4) == ParityBit(b, 4) && HexBit(e, 5) == ParityBit(b, 5)
    && HexBit(e, 6) == ParityBit(b, 6) && HexBit(e, 7) == ParityBit(b, 7)
  }

  lemma TableRows0Match(b: Octet)
    requires b[5] == false && b[6] == false && b[7] == false
    ensures Matches(TableRows0(Low2(b[3], b[4]))[Low3(b[0], b[1], b[2])], b)
  {
  }

  lemma TableRows1Match(b: Octet)
    requires b[5] == true && b[6] == false && b[7] == false
    ensures Matches(TableRows1(Low2(b[3], b[4]))[Low3(b[0], b[1], b[2])], b)
  {
  }

  lemma TableRows2Match(b: Octet)
    requires b[5] == false && b[6] == true && b[7] == false
    ensures Matches(TableRows2(Low2(b[3], b[4]))[Low3(b[0], b[1], b[2])], b)
  {
  }

  lemma TableRows3Match(b: Octet)
    requires b[5] == true && b[6] == true && b[7] == false
    ensures Matches(TableRows3(Low2(b[3], b[4]))[Low3(b[0], b[1], b[2])], b)
  {
  }

  lemma TableRows4Match(b: Octet)
    requires b[5] == false && b[6] == false && b[7] == true
    ensures Matches(TableRows4(Low2(b[3], b[4]))[Low3(b[0], b[1], b[2])], b)
  {
  }

  lemma TableRows5Match(b: Octet)
    requires b[5] == true && b[6] == false && b[7] == true
    ensures Matches(TableRows5(Low2(b[3], b[4]))[Low3(b[0], b[1], b[2])], b)
  {
  }

  lemma TableRows6Match(b: Octet)
    requires b[5] == false && b[6] == true && b[7] == true
    ensures Matches(TableRows6(Low2(b[3], b[4]))[Low3(b[0], b[1], b[2])], b)
  {
  }

  lemma TableRows7Match(b: Octet)
    requires b[5] == true && b[6] == true && b[7] == true
    ensures Matches(TableRows7(Low2(b[3], b[4]))[Low3(b[0], b[1], b[2])], b)
  {
  }

  /** The table holds the parities, for all 256 bytes. */
  lemma TableIsParities(b: Octet)
    ensures ColumnParity(b) == Parities(b)
  {
    hide HexBit, ParityBit, TableRows0, TableRows1, TableRows2, TableRows3, TableRows4, TableRows5, TableRows6,
        TableRows7;
    var part := Low3(b[5], b[6], b[7]);
    if part == 0 {
      TableRows0Match(b);
    } else if part == 1 {
      TableRows1Match(b);
    } else if part == 2 {
      TableRows2Match(b);
    } else if part == 3 {
      TableRows3Match(b);
    } else if part == 4 {
      TableRows4Match(b);
    } else if part == 5 {
      TableRows5Match(b);
    } else if part == 6 {
      TableRows6Match(b);
    } else {
      TableRows7Match(b);
    }
    var e := TableRow(Low2(b[3], b[4]), part)[Low3(b[0], b[1], b[2])];
    forall j: nat | j < 8
      ensures HexBit(e, j) == ParityBit(b, j)
    {
    }
  }
}

/** The code over 256 bytes, and the one over any number of bytes. */
module Ecc {
  import opened Words
  import opened Parity

  /** The parities of the byte whose only bit is k: the bits of k, each with its inverse below it. */
  predicate SignatureBit(k: nat, j: nat)
    requires k < 8
  {
    var b0, b1, b2 := k == 1 || k == 3 || k == 5 || k == 7, k == 2 || k == 3 || k == 6 || k == 7, k >= 4;
    if j == 0 then true
    else if j == 1 then false
    else if j == 2 then !b0
    else if j == 3 then b0
    else if j == 4 then !b1
    else if j == 5 then b1
    else if j == 6 then !b2
    else b2
  }

  function Signature(k: nat): Octet
    requires k < 8
  {
    seq(8, j requires 0 <= j < 8 => SignatureBit(k, j))
  }

  lemma FlippedBit(b: Octet, k: nat, j: nat)
    requires k < 8 && j < 8
    ensures ParityBit(Flip(b, k), j) == (ParityBit(b, j) != SignatureBit(k, j))
  {
  }

  lemma FlippedParities(b: Octet, k: nat)
    requires k < 8
    ensures Parities(Flip(b, k)) == Xor(Parities(b), Signature(k))
  {
    hide SignatureBit, ParityBit;
    forall j: nat | j < 8
      ensures ParityBit(Flip(b, k), j) == (ParityBit(b, j) != SignatureBit(k, j))
    {
      FlippedBit(b, k, j);
    }
  }

  /** The column parity of all bytes. */
  ghost function Columns(data: seq<Octet>): Octet {
    if |data| == 0 then Zero(8) else Xor(Columns(data[..|data| - 1]), Parities(data[|data| - 1]))
  }

  /** The numbers of the bytes with an odd number of bits, or those numbers inverted, taken together. */
  ghost function Lines(data: seq<Octet>, w: nat, inverted: bool): (r: Bits)
    ensures |r| == w
  {
    if |data| == 0 then Zero(w)
    else
      var i := |data| - 1;
      var before := Lines(data[..i], w, inverted);
      if Parities(data[i])[0] then Xor(before, LineBits(i, w, inverted)) else before
  }

  function LineBits(i: nat, w: nat, inverted: bool): (r: Bits)
    ensures |r| == w
  {
    if inverted then Not(BitsOf(i, w)) else BitsOf(i, w)
  }

  ghost function Flipped(data: seq<Octet>, i: nat, k: nat): (r: seq<Octet>)
    requires i < |data| && k < 8
    ensures |r| == |data|
  {
    data[i := Flip(data[i], k)]
  }

  lemma XorSwap(a: Bits, b: Bits, c: Bits)
    requires |a| == |b| == |c|
    ensures Xor(Xor(a, b), c) == Xor(Xor(a, c), b) == Xor(a, Xor(b, c))
  {
    var x, y, z := Xor(Xor(a, b), c), Xor(Xor(a, c), b), Xor(a, Xor(b, c));
    forall j | 0 <= j < |a|
      ensures x[j] == y[j] == z[j]
    {
    }
  }

  lemma XorTwice(a: Bits, b: Bits)
    requires |a| == |b|
    ensures Xor(Xor(a, b), b) == a && Xor(a, Xor(a, b)) == b
  {
  }

  /** One flipped bit changes the column parity by its signature. */
  lemma {:induction false} FlippedColumns(data: seq<Octet>, i: nat, k: nat)
    requires i < |data| && k < 8
    ensures Columns(Flipped(data, i, k)) == Xor(Columns(data), Signature(k))
  {
    hide Parities, Signature, Xor, Flip;
    var n := |data| - 1;
    var data' := Flipped(data, i, k);
    if i == n {
      assert data'[..n] == data[..n];
      FlippedParities(data[n], k);
      XorSwap(Columns(data[..n]), Parities(data[n]), Signature(k));
    } else {
      assert data'[..n] == Flipped(data[..n], i, k);
      FlippedColumns(data[..n], i, k);
      XorSwap(Columns(data[..n]), Signature(k), Parities(data[n]));
    }
  }

  /** And the line parities by the number of its byte. */
  lemma {:induction false} FlippedLines(data: seq<Octet>, w: nat, inverted: bool, i: nat, k: nat)
    requires i < |data| && k < 8
    ensures Lines(Flipped(data, i, k), w, inverted) == Xor(Lines(data, w, inverted), LineBits(i, w, inverted))
  {
    hide Signature, Xor, Flip, LineBits, Parities;
    var n := |data| - 1;
    var data' := Flipped(data, i, k);
    if i == n {
      assert data'[..n] == data[..n];
      OddChanges(data[n], k);
      XorTwice(Lines(data[..n], w, inverted), LineBits(n, w, inverted));
    } else {
      assert data'[..n] == Flipped(data[..n], i, k);
      FlippedLines(data[..n], w, inverted, i, k);
      XorSwap(Lines(data[..n], w, inverted), LineBits(i, w, inverted), LineBits(n, w, inverted));
    }
  }

  lemma OddChanges(b: Octet, k: nat)
    requires k < 8
    ensures Parities(Flip(b, k))[0] != Parities(b)[0]
  {
    FlippedParities(b, k);
  }

  /** What the codes keep of a block: column parity, line parity, inverse line parity. */
  datatype Parity3 = Parity3(col: Octet, line: Bits, linePrime: Bits)

  ghost function ParityOf(data: seq<Octet>, w: nat): (p: Parity3)
    ensures |p.line| == |p.linePrime| == w
  {
    Parity3(Columns(data), Lines(data, w, false), Lines(data, w, true))
  }

  ghost function Delta(p: Parity3, q: Parity3): (d: Parity3)
    requires |p.line| == |q.line| && |p.linePrime| == |q.linePrime|
    ensures |d.line| == |p.line| && |d.linePrime| == |p.linePrime|
  {
    Parity3(Xor(p.col, q.col), Xor(p.line, q.line), Xor(p.linePrime, q.linePrime))
  }

  lemma OneFlipDelta(data: seq<Octet>, w: nat, i: nat, k: nat)
    requires i < |data| && k < 8
    ensures Delta(ParityOf(data, w), ParityOf(Flipped(data, i, k), w)) ==
              Parity3(Signature(k), BitsOf(i, w), Not(BitsOf(i, w)))
  {
    hide Signature, Xor, Flipped, Columns, Lines;
    FlippedColumns(data, i, k);
    FlippedLines(data, w, false, i, k);
    FlippedLines(data, w, true, i, k);
    XorTwice(Columns(data), Signature(k));
    XorTwice(Lines(data, w, false), LineBits(i, w, false));
    XorTwice(Lines(data, w, true), LineBits(i, w, true));
  }

  lemma XorNots(a: Bits, b: Bits)
    requires |a| == |b|
    ensures Xor(Not(a), Not(b)) == Xor(a, b)
  {
  }

  lemma TwoFlipsDelta(data: seq<Octet>, w: nat, i: nat, k: nat, j: nat, l: nat)
    requires i < |data| && k < 8 && j < |data| && l < 8
    ensures Delta(ParityOf(data, w), ParityOf(Flipped(Flipped(data, i, k), j, l), w)) ==
              Parity3(Xor(Signature(k), Signature(l)), Xor(BitsOf(i, w), BitsOf(j, w)), Xor(BitsOf(i, w), BitsOf(j, w)))
  {
    hide Signature, Xor, Flipped, Columns, Lines, Not;
    var once := Flipped(data, i, k);
    FlippedColumns(data, i, k);
    FlippedLines(data, w, false, i, k);
    FlippedLines(data, w, true, i, k);
    FlippedColumns(once, j, l);
    FlippedLines(once, w, false, j, l);
    FlippedLines(once, w, true, j, l);
    XorSwap(Columns(data), Signature(k), Signature(l));
    XorSwap(Lines(data, w, false), LineBits(i, w, false), LineBits(j, w, false));
    XorSwap(Lines(data, w, true), LineBits(i, w, true), LineBits(j, w, true));
    XorTwice(Columns(data), Xor(Signature(k), Signature(l)));
    XorTwice(Lines(data, w, false), Xor(LineBits(i, w, false), LineBits(j, w, false)));
    XorTwice(Lines(data, w, true), Xor(LineBits(i, w, true), LineBits(j, w, true)));
    XorNots(BitsOf(i, w), BitsOf(j, w));
  }

  lemma {:induction false} DifferentNumbers(i: nat, j: nat, w: nat)
    requires i < Pow2(w) && j < Pow2(w) && i != j
    ensures Xor(BitsOf(i, w), BitsOf(j, w)) != Zero(w)
  {
    hide Xor, Zero;
    ValueOfBits(i, w);
    ValueOfBits(j, w);
    XorZero(BitsOf(i, w), BitsOf(j, w));
  }

  lemma XorZero(a: Bits, b: Bits)
    requires |a| == |b|
    ensures Xor(a, b) == Zero(|a|) <==> a == b
  {
    forall j | 0 <= j < |a|
      ensures Xor(a, b)[j] == (a[j] != b[j])
    {
    }
    if Xor(a, b) == Zero(|a|) {
      forall j | 0 <= j < |a|
        ensures a[j] == b[j]
      {
        assert Zero(|a|)[j] == false;
      }
    }
  }

  /** Which mask: every even bit from lo on. */
  function Evens(lo: nat, hi: nat): Octet {
    seq(8, j => lo <= j < hi && j % 2 == 0)
  }

  /** (d ^ d >> 1) has all of the mask: the bits of each of those pairs differ. */
  predicate PairsDiffer(d: Octet, lo: nat, hi: nat) {
    And(Xor(d, Shr(d, 1)), Evens(lo, hi)) == Evens(lo, hi)
  }

  lemma PairsDifferIs(d: Octet, lo: nat, hi: nat)
    requires hi <= 8
    ensures PairsDiffer(d, lo, hi) <==> forall j | lo <= j < hi && j % 2 == 0 :: d[j] != d[j + 1]
  {
    var x := And(Xor(d, Shr(d, 1)), Evens(lo, hi));
    forall j | lo <= j < hi && j % 2 == 0
      ensures x[j] == (d[j] != d[j + 1]) && Evens(lo, hi)[j]
    {
      assert Shr(d, 1)[j] == d[j + 1];
    }
    forall j | 0 <= j < 8 && !(lo <= j < hi && j % 2 == 0)
      ensures x[j] == Evens(lo, hi)[j] == false
    {
    }
  }

  /** The bits of the line parities from lo on, each with its inverse's below it. */
  function Pairs(line: Bits, linePrime: Bits, lo: nat): Octet
    requires |line| == |linePrime| == 8 && lo <= 4
  {
    seq(8, j requires 0 <= j < 8 => if j % 2 == 0 then linePrime[lo + j / 2] else line[lo + j / 2])
  }

  /** The three bytes of the code, inverted; the two unused bits are set. */
  function Code(p: Parity3): (c: seq<Octet>)
    requires |p.line| == |p.linePrime| == 8
    ensures |c| == 3
  {
    [Not(Pairs(p.line, p.linePrime, 0)), Not(Pairs(p.line, p.linePrime, 4)), Or(Not(p.col), Ones(8, 2))]
  }

  /** The code of a 256-byte block. */
  ghost function CodeOf(data: seq<Octet>): (c: seq<Octet>)
    ensures |c| == 3
  {
    Code(ParityOf(data, 8))
  }

  function Upper(col: Octet): Octet {
    seq(8, j requires 0 <= j < 8 => j >= 2 && col[j])
  }

  /** What the code compares: the parities themselves. */
  lemma CodeDelta(p: Parity3, q: Parity3)
    requires |p.line| == |p.linePrime| == |q.line| == |q.linePrime| == 8
    ensures var d := Delta(p, q);
            && Xor(Code(p)[0], Code(q)[0]) == Pairs(d.line, d.linePrime, 0)
            && Xor(Code(p)[1], Code(q)[1]) == Pairs(d.line, d.linePrime, 4)
            && Xor(Code(p)[2], Code(q)[2]) == Upper(d.col)
  {
    var d := Delta(p, q);
    LineDelta(p, q, 0);
    LineDelta(p, q, 4);
    var x := Xor(Or(Not(p.col), Ones(8, 2)), Or(Not(q.col), Ones(8, 2)));
    forall j | 0 <= j < 8
      ensures x[j] == Upper(d.col)[j]
    {
    }
  }

  lemma LineDelta(p: Parity3, q: Parity3, lo: nat)
    requires |p.line| == |p.linePrime| == |q.line| == |q.linePrime| == 8 && lo <= 4
    ensures Xor(Not(Pairs(p.line, p.linePrime, lo)), Not(Pairs(q.line, q.linePrime, lo)))
        == Pairs(Delta(p, q).line, Delta(p, q).linePrime, lo)
  {
    var x := Xor(Not(Pairs(p.line, p.linePrime, lo)), Not(Pairs(q.line, q.linePrime, lo)));
    forall j | 0 <= j < 8
      ensures x[j] == Pairs(Delta(p, q).line, Delta(p, q).linePrime, lo)[j]
    {
    }
  }

  // ------------------------------------------------------------ what the bits of a code stand for

  /** What a bit of a code covers: the bytes whose number has bit m set, or has it clear; or in every byte
      the bits whose number has. */
  datatype Cover = BytesWith(m: nat, one: bool) | BitsWith(m: nat, one: bool)

  /** Bit m of the number n. */
  predicate BitOf(n: nat, m: nat)
    decreases m
  {
    if m == 0 then n % 2 == 1 else BitOf(n / 2, m - 1)
  }

  predicate Covers(c: Cover, i: nat, k: nat) {
    match c
    case BytesWith(m, one) => BitOf(i, m) == one
    case BitsWith(m, one) => BitOf(k, m) == one
  }

  /** How many of the bits set in byte number i are covered. */
  function SetIn(b: Octet, c: Cover, i: nat): nat {
    N(b[0] && Covers(c, i, 0)) + N(b[1] && Covers(c, i, 1)) + N(b[2] && Covers(c, i, 2)) + N(b[3] && Covers(c, i, 3))
    + N(b[4] && Covers(c, i, 4)) + N(b[5] && Covers(c, i, 5)) + N(b[6] && Covers(c, i, 6)) + N(b[7] && Covers(c, i, 7))
  }

  /** And of all the data. */
  ghost function SetBits(data: seq<Octet>, c: Cover): nat {
    if |data| == 0 then 0 else SetBits(data[..|data| - 1], c) + SetIn(data[|data| - 1], c, |data| - 1)
  }

  ghost predicate Odd(data: seq<Octet>, c: Cover) {
    SetBits(data, c) % 2 == 1
  }

  lemma SmallBits(m: nat)
    requires m < 3
    ensures forall k: nat | k < 8 :: BitOf(k, m) == if m == 0 then k in {1, 3, 5, 7} else if m == 1
        then k in {2, 3, 6, 7}
        else k >= 4
  {
    forall k: nat | k < 8
      ensures BitOf(k, 0) == (k in {1, 3, 5, 7}) && BitOf(k, 1) == (k in {2, 3, 6, 7}) && BitOf(k, 2) == (k >= 4)
    {
      assert BitOf(k, 2) == BitOf(k / 2, 1) == BitOf(k / 4, 0);
    }
  }

  lemma ColumnsOfByte(b: Octet, m: nat, one: bool, i: nat)
    requires m < 3
    ensures SetIn(b, BitsWith(m, one), i) % 2 == 1 <==> Parities(b)[2 + 2 * m + N(one)]
  {
    hide BitOf;
    SmallBits(m);
    assert Parities(b)[2 + 2 * m + N(one)] == ParityBit(b, 2 + 2 * m + N(one));
  }

  lemma LinesOfByte(b: Octet, m: nat, one: bool, i: nat)
    ensures SetIn(b, BytesWith(m, one), i) % 2 == 1 <==> BitOf(i, m) == one && Parities(b)[0]
  {
    hide BitOf;
    assert Parities(b)[0] == ParityBit(b, 0);
  }

  lemma {:induction false} BitOfBits(n: nat, w: nat, m: nat)
    requires m < w
    ensures BitsOf(n, w)[m] == BitOf(n, m)
    decreases w
  {
    if m > 0 {
      BitOfBits(n / 2, w - 1, m - 1);
    }
  }

  lemma {:induction false} ColumnsAreOdd(data: seq<Octet>, m: nat, one: bool)
    requires m < 3
    ensures Columns(data)[2 + 2 * m + N(one)] <==> Odd(data, BitsWith(m, one))
  {
    hide SetIn, Parities;
    if |data| > 0 {
      ColumnsAreOdd(data[..|data| - 1], m, one);
      ColumnsOfByte(data[|data| - 1], m, one, |data| - 1);
    }
  }

  lemma {:induction false} LinesAreOdd(data: seq<Octet>, w: nat, m: nat, one: bool)
    requires m < w
    ensures Lines(data, w, !one)[m] <==> Odd(data, BytesWith(m, one))
  {
    hide SetIn, Parities, BitOf, BitsOf;
    if |data| > 0 {
      LinesAreOdd(data[..|data| - 1], w, m, one);
      LinesOfByte(data[|data| - 1], m, one, |data| - 1);
      BitOfBits(|data| - 1, w, m);
    }
  }

  /** What bit p of the 24 bits of the code covers: in the first two bytes the bits of the byte number, in the
      third those of the bit number, each first where it is clear and then where it is set. */
  function CoverOf(p: nat): Cover
    requires p < 24 && p != 16 && p != 17
  {
    if p < 16 then BytesWith(p / 2, p % 2 == 1) else BitsWith((p - 18) / 2, p % 2 == 1)
  }

  /** A bit of the code is set if an even number of the data bits it covers are; two bits are always set. */
  ghost predicate CodeBitSet(data: seq<Octet>, p: nat)
    requires p < 24
  {
    p == 16 || p == 17 || !Odd(data, CoverOf(p))
  }

  lemma CodeBits(data: seq<Octet>, p: nat)
    requires p < 24
    ensures CodeOf(data)[p / 8][p % 8] <==> CodeBitSet(data, p)
  {
    hide Odd, Columns, Lines;
    if p < 16 {
      LinesAreOdd(data, 8, p / 2, p % 2 == 1);
    } else if p >= 18 {
      ColumnsAreOdd(data, (p - 18) / 2, p % 2 == 1);
    }
  }

  predicate AllSet(s: seq<Octet>) {
    forall i, j | 0 <= i < |s| && 0 <= j < 8 :: s[i][j]
  }

  lemma {:induction false} NoParities(data: seq<Octet>, w: nat)
    requires AllSet(data)
    ensures Columns(data) == Zero(8) && Lines(data, w, false) == Lines(data, w, true) == Zero(w)
  {
    hide Parities, LineBits;
    if |data| > 0 {
      NoParities(data[..|data| - 1], w);
      EvenByte(data[|data| - 1]);
    }
  }

  lemma EvenByte(b: Octet)
    requires forall j | 0 <= j < 8 :: b[j]
    ensures Parities(b) == Zero(8)
  {
    forall j: nat | j < 8
      ensures Parities(b)[j] == false
    {
      assert Parities(b)[j] == ParityBit(b, j);
    }
  }

  /** The code of erased flash is that of erased flash. */
  lemma ErasedCode(data: seq<Octet>)
    requires AllSet(data)
    ensures AllSet(CodeOf(data))
  {
    hide Columns, Lines, AllSet;
    NoParities(data, 8);
    ZeroCode();
  }

  lemma AllSetSame(s: seq<Octet>, t: seq<Octet>)
    requires AllSet(s) && AllSet(t) && |s| == |t|
    ensures s == t
  {
    forall i | 0 <= i < |s|
      ensures s[i] == t[i]
    {
      assert forall j | 0 <= j < 8 :: s[i][j] == t[i][j];
    }
  }

  lemma ZeroCode()
    ensures AllSet(Code(Parity3(Zero(8), Zero(8), Zero(8))))
  {
  }

  datatype Verdict = Fine | DataBit(byte: nat, bit: nat) | CodeBit | Lost

  function BitNumber(d: Octet, from: nat): nat
    requires from <= 3
  {
    Value([d[from], d[from + 2], d[from + 4]])
  }

  function ByteNumber(d0: Octet, d1: Octet): nat {
    Value(OddBits(d0, d1))
  }

  /** Bits 1, 3, 5 and 7 of both. */
  function OddBits(d0: Octet, d1: Octet): Octet {
    seq(8, j requires 0 <= j < 8 => if j < 4 then d0[2 * j + 1] else d1[2 * (j - 4) + 1])
  }

  predicate LooksLikeDataBit(d0: Octet, d1: Octet, d2: Octet) {
    PairsDiffer(d0, 0, 8) && PairsDiffer(d1, 0, 8) && PairsDiffer(d2, 2, 8)
  }

  /** What the differences between the code read and the code of the data say. */
  function Judge(d0: Octet, d1: Octet, d2: Octet): Verdict {
    if d0 == Zero(8) && d1 == Zero(8) && d2 == Zero(8) then Fine
    else if LooksLikeDataBit(d0, d1, d2) then DataBit(ByteNumber(d0, d1), BitNumber(d2, 3))
    else if Count(d0) + Count(d1) + Count(d2) == 1 then CodeBit
    else Lost
  }

  function JudgeCodes(read: seq<Octet>, test: seq<Octet>): Verdict
    requires |read| == |test| == 3
  {
    Judge(Xor(read[0], test[0]), Xor(read[1], test[1]), Xor(read[2], test[2]))
  }

  lemma SignatureNumber(k: nat)
    requires k < 8
    ensures BitNumber(Upper(Signature(k)), 3) == k && PairsDiffer(Upper(Signature(k)), 2, 8)
    ensures Upper(Signature(k))[7] == SignatureBit(k, 7)
  {
    var d := Upper(Signature(k));
    PairsDifferIs(d, 2, 8);
    assert d[2] == SignatureBit(k, 2) && d[3] == SignatureBit(k, 3) && d[4] == SignatureBit(k, 4);
    assert d[5] == SignatureBit(k, 5) && d[6] == SignatureBit(k, 6) && d[7] == SignatureBit(k, 7);
    ThreeBits(d[3], d[5], d[7]);
  }

  lemma ThreeBits(a: bool, b: bool, c: bool)
    ensures Value([a, b, c]) == (if a then 1 else 0) + (if b then 2 else 0) + (if c then 4 else 0)
  {
    assert [a, b, c][1..] == [b, c] && [b, c][1..] == [c] && [c][1..] == [];
    assert Value([c]) == if c then 1 else 0;
    assert Value([b, c]) == (if b then 1 else 0) + 2 * Value([c]);
  }

  lemma InversePairs(b: Octet, lo: nat)
    requires lo <= 4
    ensures var d := Pairs(b, Not(b), lo); PairsDiffer(d, 0, 8) && d != Zero(8)
    ensures var d := Pairs(b, Not(b), lo); forall j | 0 <= j < 4 :: d[2 * j + 1] == b[lo + j]
  {
    var d := Pairs(b, Not(b), lo);
    forall j | 0 <= j < 8 && j % 2 == 0
      ensures d[j] != d[j + 1]
    {
      assert d[j] == !b[lo + j / 2] && d[j + 1] == b[lo + (j + 1) / 2];
    }
    PairsDifferIs(d, 0, 8);
    assert d[0] != d[1] && Zero(8)[0] == Zero(8)[1];
  }

  lemma NumberPairs(i: nat)
    requires i < 256
    ensures var b := BitsOf(i, 8);
            var d0, d1 := Pairs(b, Not(b), 0), Pairs(b, Not(b), 4);
            PairsDiffer(d0, 0, 8) && PairsDiffer(d1, 0, 8) && ByteNumber(d0, d1) == i && d0 != Zero(8)
  {
    hide Pairs, PairsDiffer, Value, BitsOf, Not, Zero;
    var b := BitsOf(i, 8);
    InversePairs(b, 0);
    InversePairs(b, 4);
    assert OddBits(Pairs(b, Not(b), 0), Pairs(b, Not(b), 4)) == b;
    assert Pow2(8) == 256;
    ValueOfBits(i, 8);
  }

  /** A flipped data bit is found. */
  lemma JudgeOneFlip(data: seq<Octet>, i: nat, k: nat)
    requires i < |data| <= 256 && k < 8
    ensures JudgeCodes(CodeOf(data), CodeOf(Flipped(data, i, k))) == DataBit(i, k)
  {
    hide Signature, Xor, Flipped, Columns, Lines, Code, Pairs, Upper, PairsDiffer, BitNumber, ByteNumber, Zero, Count,
        Delta;
    OneFlipDelta(data, 8, i, k);
    CodeDelta(ParityOf(data, 8), ParityOf(Flipped(data, i, k), 8));
    SignatureNumber(k);
    NumberPairs(i);
  }

  lemma Count8(b: Octet)
    ensures Count(b) == N(b[0]) + N(b[1]) + N(b[2]) + N(b[3]) + N(b[4]) + N(b[5]) + N(b[6]) + N(b[7])
  {
    Count4(b[..4]);
    Count4(b[4..]);
    assert b == b[..4] + b[4..];
    CountAdds(b[..4], b[4..]);
  }

  function N(b: bool): nat {
    if b then 1 else 0
  }

  lemma Count4(b: Bits)
    requires |b| == 4
    ensures Count(b) == N(b[0]) + N(b[1]) + N(b[2]) + N(b[3])
  {
    assert b[1..][1..] == b[2..] && b[2..][1..] == b[3..] && b[3..][1..] == [];
    assert Count(b[2..]) == N(b[2]) + Count(b[3..]);
  }

  /** Equal pairs count even. */
  lemma EqualPairs(d: Octet)
    requires d[0] == d[1] && d[2] == d[3] && d[4] == d[5] && d[6] == d[7]
    ensures Count(d) % 2 == 0
  {
    Count8(d);
  }

  lemma PairsOfSame(x: Bits, lo: nat)
    requires |x| == 8 && lo <= 4
    ensures var d := Pairs(x, x, lo); Count(d) % 2 == 0 && !PairsDiffer(d, 0, 8)
  {
    var d := Pairs(x, x, lo);
    assert d[0] == d[1] && d[2] == d[3] && d[4] == d[5] && d[6] == d[7];
    EqualPairs(d);
    PairsDifferIs(d, 0, 8);
  }

  /** The signatures of two bits differ in pairs. */
  lemma TwoSignatures(k: nat, l: nat)
    requires k < 8 && l < 8
    ensures var s := Xor(Signature(k), Signature(l));
            && !s[0] && !s[1] && s[2] == s[3] && s[4] == s[5] && s[6] == s[7]
            && (k != l ==> s[2] || s[4] || s[6])
  {
    var s := Xor(Signature(k), Signature(l));
    assert forall j | 0 <= j < 8 :: s[j] == (SignatureBit(k, j) != SignatureBit(l, j));
  }

  lemma ZeroPairs(x: Bits)
    requires |x| == 8 && Pairs(x, x, 0) == Zero(8) && Pairs(x, x, 4) == Zero(8)
    ensures x == Zero(8)
  {
    forall j | 0 <= j < 8
      ensures !x[j]
    {
      if j < 4 {
        assert Pairs(x, x, 0)[2 * j] == x[j];
      } else {
        assert Pairs(x, x, 4)[2 * (j - 4)] == x[j];
      }
    }
  }

  /** Two flipped data bits are noticed, and taken for nothing else. */
  lemma JudgeTwoFlips(data: seq<Octet>, i: nat, k: nat, j: nat, l: nat)
    requires i < |data| <= 256 && k < 8 && j < |data| && l < 8 && (i, k) != (j, l)
    ensures JudgeCodes(CodeOf(data), CodeOf(Flipped(Flipped(data, i, k), j, l))) == Lost
  {
    hide Signature, Xor, Flipped, Columns, Lines, Code, Pairs, PairsDiffer, BitNumber, ByteNumber, Zero, Count, Delta;
    TwoFlipsDelta(data, 8, i, k, j, l);
    CodeDelta(ParityOf(data, 8), ParityOf(Flipped(Flipped(data, i, k), j, l), 8));
    var x := Xor(BitsOf(i, 8), BitsOf(j, 8));
    var s := Xor(Signature(k), Signature(l));
    var d2 := Upper(s);
    TwoSignatures(k, l);
    assert !d2[0] && !d2[1] && d2[2] == s[2] && d2[3] == s[3] && d2[4] == s[4] && d2[5] == s[5] && d2[6] == s[6]
        && d2[7] == s[7];
    EqualPairs(d2);
    PairsOfSame(x, 0);
    PairsOfSame(x, 4);
    assert Pow2(8) == 256;
    if i != j {
      DifferentNumbers(i, j, 8);
      if Pairs(x, x, 0) == Zero(8) && Pairs(x, x, 4) == Zero(8) {
        ZeroPairs(x);
      }
    } else {
      NotZero(d2);
    }
  }

  lemma NotZero(d: Octet)
    requires d[2] || d[4] || d[6]
    ensures d != Zero(8)
  {
  }

  lemma UnitDelta(c: Octet, b: nat)
    requires b < 8
    ensures Xor(Flip(c, b), c) == Unit(8, b) && Xor(c, c) == Zero(8)
    ensures Count(Unit(8, b)) == 1 && Count(Zero(8)) == 0 && Unit(8, b) != Zero(8)
    ensures !PairsDiffer(Zero(8), 0, 8)
    ensures !PairsDiffer(Unit(8, b), 0, 8)
  {
    CountUnit(8, b);
    CountZero(Zero(8));
    PairsDifferIs(Zero(8), 0, 8);
    PairsDifferIs(Unit(8, b), 0, 8);
    assert Zero(8)[0] == Zero(8)[1];
    if b < 2 {
      assert Unit(8, b)[2] == Unit(8, b)[3];
    } else {
      assert Unit(8, b)[0] == Unit(8, b)[1];
    }
    assert Unit(8, b)[b] && !Zero(8)[b];
  }

  /** A flipped bit of the code is known as one. */
  lemma JudgeCodeFlip(code: seq<Octet>, n: nat, b: nat)
    requires |code| == 3 && n < 3 && b < 8
    ensures JudgeCodes(code[n := Flip(code[n], b)], code) == CodeBit
  {
    hide Flip, Xor, Unit, Zero, Count, PairsDiffer;
    UnitDelta(code[0], b);
    UnitDelta(code[1], b);
    UnitDelta(code[2], b);
  }

  lemma JudgeSame(code: seq<Octet>)
    requires |code| == 3
    ensures JudgeCodes(code, code) == Fine
  {
    XorZero(code[0], code[0]);
    XorZero(code[1], code[1]);
    XorZero(code[2], code[2]);
  }

  method CountBits(x: Bits) returns (r: nat)
    ensures r == Count(x)
  {
    var y := x;
    r := 0;
    ghost var n := 0;
    assert Shr(x, 0) == x;
    while y != Zero(|x|)
      invariant n <= |x| && y == Shr(x, n) && r + Count(y) == Count(x)
      decreases |x| - n
    {
      assert n < |x|;
      CountShift(y);
      if y[0] {
        r := r + 1;
      }
      y := Shr(y, 1);
      n := n + 1;
    }
    CountZero(y);
  }

  lemma OneMoreByte(data: seq<Octet>, i: nat, w: nat, b: Octet)
    requires i < |data| && b == ColumnParity(data[i])
    ensures Columns(data[..i + 1]) == Xor(Columns(data[..i]), b)
    ensures Lines(data[..i + 1], w, false) == if b[0] then Xor(Lines(data[..i], w, false), BitsOf(i, w))
        else Lines(data[..i], w, false)
    ensures Lines(data[..i + 1], w, true) == if b[0] then Xor(Lines(data[..i], w, true), Not(BitsOf(i, w)))
        else Lines(data[..i], w, true)
  {
    hide Parities, ColumnParity, Xor, Not;
    TableIsParities(data[i]);
    assert data[..i + 1][..i] == data[..i];
  }

  /** Go over the bytes, gathering the parities. */
  method Gather(data: array<Octet>, n: nat, w: nat) returns (col: Octet, line: Bits, linePrime: Bits)
    requires n <= data.Length
    ensures Parity3(col, line, linePrime) == ParityOf(data[..n], w)
  {
    hide Parities, ColumnParity, Xor, Not, BitsOf;
    col, line, linePrime := Zero(8), Zero(w), Zero(w);
    var i := 0;
    while i < n
      invariant 0 <= i <= n && |line| == |linePrime| == w
      invariant Parity3(col, line, linePrime) == ParityOf(data[..i], w)
    {
      OneMoreByte(data[..], i, w, ColumnParity(data[i]));
      assert data[..][..i] == data[..i] && data[..][..i + 1] == data[..i + 1];
      var b := ColumnParity(data[i]);
      col := Xor(col, b);
      if b[0] {
        line := Xor(line, BitsOf(i, w));
        linePrime := Xor(linePrime, Not(BitsOf(i, w)));
      }
      i := i + 1;
    }
  }

  method ECCCalculate(data: array<Octet>, ecc: array<Octet>)
    requires data.Length == 256 && ecc.Length == 3 && ecc != data
    modifies ecc
    ensures ecc[..] == CodeOf(data[..])
    ensures forall p: nat | p < 24 :: ecc[p / 8][p % 8] <==> CodeBitSet(data[..], p)
  {
    var col, line, linePrime := Gather(data, 256, 8);
    assert data[..256] == data[..];
    ecc[2] := Or(Not(col), Ones(8, 2));
    ecc[1] := Not(Pairs(line, linePrime, 4));
    ecc[0] := Not(Pairs(line, linePrime, 0));
    forall p: nat | p < 24
      ensures ecc[p / 8][p % 8] <==> CodeBitSet(data[..], p)
    {
      CodeBits(data[..], p);
    }
  }

  method ECCCorrect(data: array<Octet>, readEcc: array<Octet>, testEcc: seq<Octet>) returns (r: int)
    requires data.Length == 256 && readEcc.Length == |testEcc| == 3 && data != readEcc
    modifies data, readEcc
    ensures var v := JudgeCodes(old(readEcc[..]), testEcc);
            && r == (if v.Fine? then 0 else if v.Lost? then -1 else 1)
            && (v.DataBit? ==> v.byte < 256 && v.bit < 8 && data[..] == Flipped(old(data[..]), v.byte, v.bit))
            && (!v.DataBit? ==> data[..] == old(data[..]))
            && readEcc[..] == (if v.CodeBit? then testEcc else old(readEcc[..]))
  {
    hide PairsDiffer, Xor, Zero, Value, Flip, Count;
    var d0, d1, d2 := Xor(readEcc[0], testEcc[0]), Xor(readEcc[1], testEcc[1]), Xor(readEcc[2], testEcc[2]);
    if d0 == Zero(8) && d1 == Zero(8) && d2 == Zero(8) {
      return 0;
    }
    if PairsDiffer(d0, 0, 8) && PairsDiffer(d1, 0, 8) && PairsDiffer(d2, 2, 8) {
      var byte, bit := ByteNumber(d0, d1), BitNumber(d2, 3);
      SmallNumbers(d0, d1, d2);
      data[byte] := Flip(data[byte], bit);
      return 1;
    }
    var c0 := CountBits(d0);
    var c1 := CountBits(d1);
    var c2 := CountBits(d2);
    if c0 + c1 + c2 == 1 {
      readEcc[0], readEcc[1], readEcc[2] := testEcc[0], testEcc[1], testEcc[2];
      assert readEcc[..] == testEcc;
      return 1;
    }
    return -1;
  }

  lemma SmallNumbers(d0: Octet, d1: Octet, d2: Octet)
    ensures ByteNumber(d0, d1) < 256 && BitNumber(d2, 3) < 8 && BitNumber(d2, 1) < 8
  {
    hide Value;
    assert Pow2(8) == 256 && Pow2(3) == 8;
    ValueBelow(OddBits(d0, d1));
    ValueBelow([d2[3], d2[5], d2[7]]);
    ValueBelow([d2[1], d2[3], d2[5]]);
  }

  /** b is a with one bit flipped; with two. */
  ghost predicate OneFlip(a: seq<Octet>, b: seq<Octet>) {
    exists i: nat, k: nat :: i < |a| && k < 8 && b == Flipped(a, i, k)
  }

  ghost predicate TwoFlips(a: seq<Octet>, b: seq<Octet>) {
    exists i: nat, k: nat, j: nat, l: nat ::
      i < |a| && k < 8 && j < |a| && l < 8 && (i, k) != (j, l) && b == Flipped(Flipped(a, i, k), j, l)
  }

  lemma FlipBack(a: seq<Octet>, i: nat, k: nat)
    requires i < |a| && k < 8
    ensures Flipped(Flipped(a, i, k), i, k) == a
  {
    assert Flip(Flip(a[i], k), k) == a[i];
  }

  /** A block is read with its stored code. Against the block as it was written: one wrong data bit is put
      right; one wrong bit of the code is put right and the data left alone; two wrong data bits are
      reported, and nothing is changed. Erased flash is read as such. */
  method CheckBlock(data: array<Octet>, readEcc: array<Octet>, ghost written: seq<Octet>) returns (r: int)
    requires data.Length == 256 && readEcc.Length == 3 && data != readEcc && |written| == 256
    modifies data, readEcc
    ensures old(data[..]) == written && old(readEcc[..]) == CodeOf(written) ==>
              r == 0 && data[..] == written && readEcc[..] == CodeOf(written)
    ensures OneFlip(written, old(data[..])) && old(readEcc[..]) == CodeOf(written) ==>
              r == 1 && data[..] == written && readEcc[..] == CodeOf(written)
    ensures old(data[..]) == written && OneFlip(CodeOf(written), old(readEcc[..])) ==>
              r == 1 && data[..] == written && readEcc[..] == CodeOf(written)
    ensures TwoFlips(written, old(data[..])) && old(readEcc[..]) == CodeOf(written) ==>
              r == -1 && data[..] == old(data[..]) && readEcc[..] == old(readEcc[..])
    ensures AllSet(old(data[..])) && AllSet(old(readEcc[..])) ==>
              r == 0 && data[..] == old(data[..]) && readEcc[..] == old(readEcc[..])
  {
    hide CodeOf, JudgeCodes, Flipped, AllSet, CodeBitSet;
    var testEcc := new Octet[3](_ => Zero(8));
    ECCCalculate(data, testEcc);
    if AllSet(data[..]) && AllSet(readEcc[..]) {
      ErasedCode(data[..]);
      AllSetSame(readEcc[..], testEcc[..]);
    }
    ghost var read := data[..];
    assert data[..] == old(data[..]) && readEcc[..] == old(readEcc[..]);
    r := ECCCorrect(data, readEcc, testEcc[..]);
    JudgeSame(CodeOf(read));
    if OneFlip(written, read) && old(readEcc[..]) == CodeOf(written) {
      var i: nat, k: nat :| i < |written| && k < 8 && read == Flipped(written, i, k);
      JudgeOneFlip(written, i, k);
      FlipBack(written, i, k);
    }
    if TwoFlips(written, read) && old(readEcc[..]) == CodeOf(written) {
      var i: nat, k: nat, j: nat, l: nat :|
        i < |written| && k < 8 && j < |written| && l < 8 && (i, k) != (j, l)
            && read == Flipped(Flipped(written, i, k), j, l);
      JudgeTwoFlips(written, i, k, j, l);
    }
    if read == written && OneFlip(CodeOf(written), old(readEcc[..])) {
      CodeFlipJudged(CodeOf(written), old(readEcc[..]));
    }
  }

  lemma CodeFlipJudged(code: seq<Octet>, read: seq<Octet>)
    requires |code| == 3 && OneFlip(code, read)
    ensures |read| == 3 && JudgeCodes(read, code) == CodeBit
  {
    hide JudgeCodes, Flip;
    var n: nat, b: nat :| n < |code| && b < 8 && read == Flipped(code, n, b);
    JudgeCodeFlip(code, n, b);
  }

  // ------------------------------------------------------------ any number of bytes

  /** (col >> 2) & 0x3f */
  function Lower6(col: Octet): Octet {
    And(Shr(col, 2), Ones(8, 6))
  }

  /** The code of any number of bytes. */
  ghost function OtherCodeOf(data: seq<Octet>): (p: Parity3)
    ensures |p.line| == |p.linePrime| == 32
  {
    Parity3(Lower6(Columns(data)), Lines(data, 32, false), Lines(data, 32, true))
  }

  function JudgeOther(d: Parity3, nBytes: nat): Verdict
    requires |d.line| == |d.linePrime| == 32
  {
    if d.col == Zero(8) && d.line == Zero(32) && d.linePrime == Zero(32) then Fine
    else if d.line == Not(d.linePrime) && PairsDiffer(d.col, 0, 6) then
      if Value(d.line) >= nBytes then Lost else DataBit(Value(d.line), BitNumber(d.col, 1))
    else if Count(d.line) + Count(d.linePrime) + Count(d.col) == 1 then CodeBit
    else Lost
  }

  lemma LowerDelta(p: Octet, q: Octet)
    ensures Xor(Lower6(p), Lower6(q)) == Lower6(Xor(p, q))
  {
  }

  lemma LowerSignature(k: nat)
    requires k < 8
    ensures BitNumber(Lower6(Signature(k)), 1) == k && PairsDiffer(Lower6(Signature(k)), 0, 6)
    ensures Lower6(Signature(k)) != Zero(8)
  {
    var d := Lower6(Signature(k));
    assert d[0] == SignatureBit(k, 2) && d[1] == SignatureBit(k, 3) && d[2] == SignatureBit(k, 4);
    assert d[3] == SignatureBit(k, 5) && d[4] == SignatureBit(k, 6) && d[5] == SignatureBit(k, 7);
    PairsDifferIs(d, 0, 6);
    ThreeBits(d[1], d[3], d[5]);
    assert Zero(8)[0] == Zero(8)[1];
  }

  lemma JudgeOtherOneFlip(data: seq<Octet>, i: nat, k: nat)
    requires i < |data| <= Pow2(32) && k < 8
    ensures JudgeOther(Delta(OtherCodeOf(data), OtherCodeOf(Flipped(data, i, k))), |data|) == DataBit(i, k)
  {
    hide Signature, Xor, Flipped, Columns, Lines, Lower6, PairsDiffer, BitNumber, Zero, Count, Not, Pow2;
    OneFlipDelta(data, 32, i, k);
    LowerDelta(Columns(data), Columns(Flipped(data, i, k)));
    LowerSignature(k);
    ValueOfBits(i, 32);
    NotNot(BitsOf(i, 32));
  }

  lemma NotNot(x: Bits)
    ensures Not(Not(x)) == x
    ensures |x| > 0 ==> Not(x) != x
  {
    if |x| > 0 {
      assert Not(x)[0] != x[0];
    }
  }

  lemma JudgeOtherTwoFlips(data: seq<Octet>, i: nat, k: nat, j: nat, l: nat)
    requires i < |data| <= Pow2(32) && k < 8 && j < |data| && l < 8 && (i, k) != (j, l)
    ensures JudgeOther(Delta(OtherCodeOf(data), OtherCodeOf(Flipped(Flipped(data, i, k), j, l))), |data|) == Lost
  {
    hide Signature, Xor, Flipped, Columns, Lines, Lower6, PairsDiffer, BitNumber, Zero, Count, Not, Pow2;
    var twice := Flipped(Flipped(data, i, k), j, l);
    TwoFlipsDelta(data, 32, i, k, j, l);
    LowerDelta(Columns(data), Columns(twice));
    var s := Xor(Signature(k), Signature(l));
    TwoSignatures(k, l);
    LowerOfPairs(s);
    if i != j {
      DifferentNumbers(i, j, 32);
    }
    JudgeEvenDelta(Lower6(s), Xor(BitsOf(i, 32), BitsOf(j, 32)), |data|);
  }

  lemma JudgeEvenDelta(c: Octet, x: Bits, nBytes: nat)
    requires |x| == 32 && Count(c) % 2 == 0 && (c != Zero(8) || x != Zero(32))
    ensures JudgeOther(Parity3(c, x, x), nBytes) == Lost
  {
    hide PairsDiffer, BitNumber, Zero, Count, Not, Value;
    NotNot(x);
  }

  lemma LowerOfPairs(s: Octet)
    requires s[2] == s[3] && s[4] == s[5] && s[6] == s[7]
    ensures Count(Lower6(s)) % 2 == 0
    ensures s[2] || s[4] || s[6] ==> Lower6(s) != Zero(8)
  {
    var d := Lower6(s);
    assert d[0] == s[2] && d[1] == s[3] && d[2] == s[4] && d[3] == s[5] && d[4] == s[6] && d[5] == s[7] && !d[6]
        && !d[7];
    EqualPairs(d);
    if s[2] || s[4] || s[6] {
      NotZero4(d);
    }
  }

  lemma NotZero4(d: Octet)
    requires d[0] || d[2] || d[4]
    ensures d != Zero(8)
  {
  }

  /** A flipped bit in the stored column parity, line parity or inverse line parity. */
  ghost predicate OtherCodeFlip(p: Parity3, q: Parity3) {
    || (exists b: nat :: b < 8 && q == p.(col := Flip(p.col, b)))
    || (exists b: nat :: b < |p.line| && q == p.(line := Flip(p.line, b)))
    || (exists b: nat :: b < |p.linePrime| && q == p.(linePrime := Flip(p.linePrime, b)))
  }

  lemma UnitDeltaAny(c: Bits, b: nat)
    requires b < |c|
    ensures Xor(Flip(c, b), c) == Unit(|c|, b) && Count(Unit(|c|, b)) == 1 && Unit(|c|, b) != Zero(|c|)
  {
    CountUnit(|c|, b);
    assert Unit(|c|, b)[b] && !Zero(|c|)[b];
  }

  lemma ZeroDelta(c: Bits)
    ensures Xor(c, c) == Zero(|c|) && Count(Zero(|c|)) == 0
  {
    CountZero(Zero(|c|));
  }

  lemma UnitNotInverse(b: nat)
    requires b < 32
    ensures Unit(32, b) != Not(Zero(32)) && Zero(32) != Not(Unit(32, b)) && Zero(32) != Not(Zero(32))
  {
    var c := if b == 0 then 1 else 0;
    assert !Unit(32, b)[c] && Not(Zero(32))[c] && !Zero(32)[c] && Not(Unit(32, b))[c];
  }

  lemma JudgeOtherCodeFlip(p: Parity3, q: Parity3, nBytes: nat)
    requires |p.line| == |p.linePrime| == 32 && OtherCodeFlip(p, q)
    ensures |q.line| == |q.linePrime| == 32 && JudgeOther(Delta(q, p), nBytes) == CodeBit
  {
    hide Xor, Zero, Unit, Count, Not, Flip, PairsDiffer, Value, BitNumber;
    ZeroDelta(p.col);
    ZeroDelta(p.line);
    ZeroDelta(p.linePrime);
    UnitNotInverse(0);
    if b: nat :| b < 8 && q == p.(col := Flip(p.col, b)) {
      UnitDeltaAny(p.col, b);
    } else if b: nat :| b < |p.line| && q == p.(line := Flip(p.line, b)) {
      UnitDeltaAny(p.line, b);
      UnitNotInverse(b);
    } else {
      var b: nat :| b < |p.linePrime| && q == p.(linePrime := Flip(p.linePrime, b));
      UnitDeltaAny(p.linePrime, b);
      UnitNotInverse(b);
    }
  }

  /** The bits of the code of any number of bytes: each is set if an odd number of the data bits it covers are.
      Of the column parity six bits are used. */
  ghost predicate OtherCodeBits(data: seq<Octet>, p: Parity3)
    requires |p.line| == |p.linePrime| == 32
  {
    && (forall j: nat | j < 8 :: p.col[j] <==> j < 6 && Odd(data, BitsWith(j / 2, j % 2 == 1)))
    && (forall m: nat | m < 32 :: p.line[m] <==> Odd(data, BytesWith(m, true)))
    && (forall m: nat | m < 32 :: p.linePrime[m] <==> Odd(data, BytesWith(m, false)))
  }

  lemma OtherBits(data: seq<Octet>)
    ensures OtherCodeBits(data, OtherCodeOf(data))
  {
    hide Odd, Columns, Lines;
    var p := OtherCodeOf(data);
    forall j: nat | j < 8
      ensures p.col[j] <==> j < 6 && Odd(data, BitsWith(j / 2, j % 2 == 1))
    {
      if j < 6 {
        ColumnsAreOdd(data, j / 2, j % 2 == 1);
      }
    }
    forall m: nat | m < 32
      ensures p.line[m] <==> Odd(data, BytesWith(m, true))
      ensures p.linePrime[m] <==> Odd(data, BytesWith(m, false))
    {
      LinesAreOdd(data, 32, m, true);
      LinesAreOdd(data, 32, m, false);
    }
  }

  method ECCCalculateOther(data: array<Octet>) returns (ecc: Parity3)
    ensures ecc == OtherCodeOf(data[..])
    ensures OtherCodeBits(data[..], ecc)
  {
    hide OtherCodeBits;
    OtherBits(data[..]);
    var col, line, linePrime := Gather(data, data.Length, 32);
    assert data[..data.Length] == data[..];
    ecc := Parity3(Lower6(col), line, linePrime);
  }

  /** The code as it was read, for correction in place. */
  class StoredCode {
    var code: Parity3

    constructor (c: Parity3)
      ensures code == c
    {
      code := c;
    }
  }

  method ECCCorrectOther(data: array<Octet>, readEcc: StoredCode, testEcc: Parity3) returns (r: int)
    requires |readEcc.code.line| == |readEcc.code.linePrime| == |testEcc.line| == |testEcc.linePrime| == 32
    modifies data, readEcc
    ensures var v := JudgeOther(Delta(old(readEcc.code), testEcc), data.Length);
            && r == (if v.Fine? then 0 else if v.Lost? then -1 else 1)
            && (v.DataBit? ==> v.byte < data.Length && v.bit < 8 && data[..] == Flipped(old(data[..]), v.byte, v.bit))
            && (!v.DataBit? ==> data[..] == old(data[..]))
            && readEcc.code == (if v.CodeBit? then testEcc else old(readEcc.code))
  {
    hide PairsDiffer, Xor, Zero, Value, Flip, Count, Not;
    var cDelta := Xor(readEcc.code.col, testEcc.col);
    var lDelta := Xor(readEcc.code.line, testEcc.line);
    var lDeltaPrime := Xor(readEcc.code.linePrime, testEcc.linePrime);
    if cDelta == Zero(8) && lDelta == Zero(32) && lDeltaPrime == Zero(32) {
      return 0;
    }
    if lDelta == Not(lDeltaPrime) && PairsDiffer(cDelta, 0, 6) {
      var bit := BitNumber(cDelta, 1);
      SmallNumbers(cDelta, cDelta, cDelta);
      if Value(lDelta) >= data.Length {
        return -1;
      }
      data[Value(lDelta)] := Flip(data[Value(lDelta)], bit);
      return 1;
    }
    var c0 := CountBits(lDelta);
    var c1 := CountBits(lDeltaPrime);
    var c2 := CountBits(cDelta);
    if c0 + c1 + c2 == 1 {
      readEcc.code := testEcc;
      return 1;
    }
    return -1;
  }

  /** The same for any number of bytes. */
  method CheckBytes(data: array<Octet>, readEcc: StoredCode, ghost written: seq<Octet>) returns (r: int)
    requires data.Length == |written| <= Pow2(32)
    requires |readEcc.code.line| == |readEcc.code.linePrime| == 32
    modifies data, readEcc
    ensures old(data[..]) == written && old(readEcc.code) == OtherCodeOf(written) ==>
              r == 0 && data[..] == written && readEcc.code == OtherCodeOf(written)
    ensures OneFlip(written, old(data[..])) && old(readEcc.code) == OtherCodeOf(written) ==>
              r == 1 && data[..] == written && readEcc.code == OtherCodeOf(written)
    ensures old(data[..]) == written && OtherCodeFlip(OtherCodeOf(written), old(readEcc.code)) ==>
              r == 1 && data[..] == written && readEcc.code == OtherCodeOf(written)
    ensures TwoFlips(written, old(data[..])) && old(readEcc.code) == OtherCodeOf(written) ==>
              r == -1 && data[..] == old(data[..]) && readEcc.code == old(readEcc.code)
    ensures |readEcc.code.line| == |readEcc.code.linePrime| == 32
  {
    hide OtherCodeOf, JudgeOther, Flipped, Delta, Pow2, Zero;
    ghost var read := data[..];
    var testEcc := ECCCalculateOther(data);
    r := ECCCorrectOther(data, readEcc, testEcc);
    JudgeOtherSame(OtherCodeOf(written), |written|);
    if OneFlip(written, read) && old(readEcc.code) == OtherCodeOf(written) {
      var i: nat, k: nat :| i < |written| && k < 8 && read == Flipped(written, i, k);
      JudgeOtherOneFlip(written, i, k);
      FlipBack(written, i, k);
    }
    if TwoFlips(written, read) && old(readEcc.code) == OtherCodeOf(written) {
      var i: nat, k: nat, j: nat, l: nat :|
        i < |written| && k < 8 && j < |written| && l < 8 && (i, k) != (j, l)
            && read == Flipped(Flipped(written, i, k), j, l);
      JudgeOtherTwoFlips(written, i, k, j, l);
    }
    if read == written && OtherCodeFlip(OtherCodeOf(written), old(readEcc.code)) {
      JudgeOtherCodeFlip(OtherCodeOf(written), old(readEcc.code), |written|);
    }
  }

  lemma JudgeOtherSame(p: Parity3, nBytes: nat)
    requires |p.line| == |p.linePrime| == 32
    ensures JudgeOther(Delta(p, p), nBytes) == Fine
  {
    ZeroDelta(p.col);
    ZeroDelta(p.line);
    ZeroDelta(p.linePrime);
  }
}
