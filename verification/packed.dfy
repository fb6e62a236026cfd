/** The sixteen entries of a level-0 tnode, packed into 32-bit words. */
module PackedLevel0 {
  import opened Words

  /** Bit k of the whole tnode. */
  ghost predicate MapBit(words: seq<Word>, k: nat)
    requires k < 32 * |words|
  {
    words[k / 32][k % 32]
  }

  /** The n bits from bit k on. */
  ghost function Field(words: seq<Word>, k: nat, n: nat): seq<bool>
    requires k + n <= 32 * |words|
  {
    seq(n, j requires 0 <= j < n => MapBit(words, k + j))
  }

  /** The entry at position pos of a tnode with entries w bits wide. */
  ghost function EntryBits(words: seq<Word>, w: nat, pos: nat): (bits: seq<bool>)
    requires ProperWidth(w) && pos < 16 && |words| == w / 2
    ensures |bits| == w
  {
    EntryFits(w, pos);
    Field(words, pos * w, w)
  }

  /** Widths are even, so that sixteen entries fill whole words. */
  predicate ProperWidth(w: nat) {
    16 <= w <= 30 && w % 2 == 0
  }

  lemma EntryFits(w: nat, pos: nat)
    requires ProperWidth(w) && pos < 16
    ensures pos * w + w <= 16 * w == 32 * (w / 2)
  {
    assert (pos + 1) * w <= 16 * w;
  }

  lemma EntriesApart(w: nat, p: nat, q: nat)
    requires p < q
    ensures p * w + w <= q * w
  {
    assert (p + 1) * w <= q * w;
  }

  /** What one store does to the bits: the w bits from b on become those of v, all others stay. */
  ghost predicate Stored(was: seq<Word>, now: seq<Word>, b: nat, w: nat, v: Word)
    requires w <= 32
  {
    && |now| == |was|
    && forall k: nat | k < 32 * |was| :: MapBit(now, k) == if b <= k < b + w then v[k - b] else MapBit(was, k)
  }

  lemma StoredField(was: seq<Word>, now: seq<Word>, w: nat, p: nat, q: nat, v: Word)
    requires ProperWidth(w) && |was| == w / 2 && p < 16 && q < 16 && Stored(was, now, p * w, w, v)
    ensures EntryBits(now, w, q) == if q == p then v[..w] else EntryBits(was, w, q)
  {
    EntryFits(w, q);
    if q < p {
      EntriesApart(w, q, p);
    } else if p < q {
      EntriesApart(w, p, q);
    }
    StoredBits(was, now, w, p * w, q * w, v);
  }

  lemma StoredBits(was: seq<Word>, now: seq<Word>, w: nat, b: nat, c: nat, v: Word)
    requires w <= 32 && c + w <= 32 * |was| && Stored(was, now, b, w, v)
    requires c == b || c + w <= b || b + w <= c
    ensures Field(now, c, w) == if c == b then v[..w] else Field(was, c, w)
  {
    hide MapBit;
    forall j: nat | j < w
      ensures MapBit(now, c + j) == if c == b then v[j] else MapBit(was, c + j)
    {
    }
  }

  /** A store that fits into one word. */
  lemma OneWord(was: seq<Word>, b: nat, w: nat, v: Word)
    requires ProperWidth(w) && b + w <= 32 * |was| && b % 32 + w <= 32
    ensures var i, s := b / 32, b % 32;
            var mask := Shl(Ones(32, w), s);
            Stored(was, was[i := Or(And(was[i], Not(mask)), And(mask, Shl(v, s)))], b, w, v)
  {
    var i, s := b / 32, b % 32;
    var mask := Shl(Ones(32, w), s);
    var now := was[i := Or(And(was[i], Not(mask)), And(mask, Shl(v, s)))];
    forall k: nat | k < 32 * |was|
      ensures MapBit(now, k) == if b <= k < b + w then v[k - b] else MapBit(was, k)
    {
      if k / 32 == i {
        assert k - b == k % 32 - s;
      }
    }
  }

  /** A store that runs over into the next word. */
  lemma TwoWords(was: seq<Word>, b: nat, w: nat, v: Word)
    requires ProperWidth(w) && b + w <= 32 * |was| && b % 32 + w > 32
    ensures b / 32 + 1 < |was|
    ensures var i, s := b / 32, b % 32;
            var mask := Shl(Ones(32, w), s);
            var mask2 := Shr(Ones(32, w), 32 - s);
            var first := Or(And(was[i], Not(mask)), And(mask, Shl(v, s)));
            var second := Or(And(was[i + 1], Not(mask2)), And(mask2, Shr(v, 32 - s)));
            Stored(was, was[i := first][i + 1 := second], b, w, v)
  {
    var i, s := b / 32, b % 32;
    var mask := Shl(Ones(32, w), s);
    var mask2 := Shr(Ones(32, w), 32 - s);
    var first := Or(And(was[i], Not(mask)), And(mask, Shl(v, s)));
    var second := Or(And(was[i + 1], Not(mask2)), And(mask2, Shr(v, 32 - s)));
    var now := was[i := first][i + 1 := second];
    forall k: nat | k < 32 * |was|
      ensures MapBit(now, k) == if b <= k < b + w then v[k - b] else MapBit(was, k)
    {
      if k / 32 == i {
        assert k - b == k % 32 - s;
      } else if k / 32 == i + 1 {
        assert k - b == k % 32 + 32 - s;
      }
    }
  }

  /** Store val, less the bits of its chunk group, at a position. That entry reads as those bits from
      then on; the other fifteen stay, also when the entry lies in two words. */
  method LoadLevel0Tnode(tn: array<Word>, tnodeWidth: nat, chunkGroupBits: nat, pos: nat, val: Word)
    requires ProperWidth(tnodeWidth) && tn.Length == tnodeWidth / 2
    modifies tn
    ensures forall q: nat | q < 16 :: EntryBits(tn[..], tnodeWidth, q) ==
              if q == pos % 16 then Shr(val, chunkGroupBits)[..tnodeWidth] else EntryBits(old(tn[..]), tnodeWidth, q)
  {
    hide And, Or, Not, Shl, Shr, Ones, Stored, EntryBits;
    var tnodeMask := Ones(32, tnodeWidth);
    var p := pos % 16;
    var v := Shr(val, chunkGroupBits);
    var bitInMap := p * tnodeWidth;
    EntryFits(tnodeWidth, p);
    var wordInMap := bitInMap / 32;
    var bitInWord := bitInMap % 32;
    var mask := Shl(tnodeMask, bitInWord);
    tn[wordInMap] := And(tn[wordInMap], Not(mask));
    tn[wordInMap] := Or(tn[wordInMap], And(mask, Shl(v, bitInWord)));
    if tnodeWidth > 32 - bitInWord {
      TwoWords(old(tn[..]), bitInMap, tnodeWidth, v);
      bitInWord := 32 - bitInWord;
      wordInMap := wordInMap + 1;
      mask := Shr(tnodeMask, bitInWord);
      tn[wordInMap] := And(tn[wordInMap], Not(mask));
      tn[wordInMap] := Or(tn[wordInMap], And(mask, Shr(v, bitInWord)));
      assert tn[..] == old(tn[..])[wordInMap - 1 := tn[wordInMap - 1]][wordInMap := tn[wordInMap]];
    } else {
      OneWord(old(tn[..]), bitInMap, tnodeWidth, v);
      assert tn[..] == old(tn[..])[wordInMap := tn[wordInMap]];
    }
    assert Stored(old(tn[..]), tn[..], bitInMap, tnodeWidth, v);
    forall q: nat | q < 16
      ensures EntryBits(tn[..], tnodeWidth, q) == if q == p then v[..tnodeWidth]
          else EntryBits(old(tn[..]), tnodeWidth, q)
    {
      StoredField(old(tn[..]), tn[..], tnodeWidth, p, q, v);
    }
  }

  function Padded(bits: seq<bool>): Word
    requires |bits| <= 32
  {
    bits + seq(32 - |bits|, _ => false)
  }

  lemma ReadOneWord(words: seq<Word>, b: nat, w: nat)
    requires ProperWidth(w) && b + w <= 32 * |words| && b % 32 + w <= 32
    ensures And(Shr(words[b / 32], b % 32), Ones(32, w)) == Padded(Field(words, b, w))
  {
    var got := And(Shr(words[b / 32], b % 32), Ones(32, w));
    forall j: nat | j < 32
      ensures got[j] == Padded(Field(words, b, w))[j]
    {
      if j < w {
        assert (b + j) / 32 == b / 32 && (b + j) % 32 == b % 32 + j;
        assert Padded(Field(words, b, w))[j] == MapBit(words, b + j);
      }
    }
  }

  lemma ReadTwoWords(words: seq<Word>, b: nat, w: nat)
    requires ProperWidth(w) && b + w <= 32 * |words| && b % 32 + w > 32
    ensures b / 32 + 1 < |words|
    ensures And(Or(Shr(words[b / 32], b % 32), Shl(words[b / 32 + 1], 32 - b % 32)), Ones(32, w))
        == Padded(Field(words, b, w))
  {
    var i, s := b / 32, b % 32;
    var got := And(Or(Shr(words[i], s), Shl(words[i + 1], 32 - s)), Ones(32, w));
    forall j: nat | j < 32
      ensures got[j] == Padded(Field(words, b, w))[j]
    {
      if j < w {
        assert Padded(Field(words, b, w))[j] == MapBit(words, b + j);
        if j < 32 - s {
          assert (b + j) / 32 == i && (b + j) % 32 == s + j;
        } else {
          assert (b + j) / 32 == i + 1 && (b + j) % 32 == j - (32 - s);
        }
      }
    }
  }

  /** The entry at a position, as the first chunk of its group. */
  method GetChunkGroupBase(tn: array<Word>, tnodeWidth: nat, chunkGroupBits: nat, pos: nat) returns (val: Word)
    requires ProperWidth(tnodeWidth) && tn.Length == tnodeWidth / 2
    ensures val == Shl(Padded(EntryBits(tn[..], tnodeWidth, pos % 16)), chunkGroupBits)
  {
    hide And, Or, Shl, Shr, Ones, Padded;
    var p := pos % 16;
    var bitInMap := p * tnodeWidth;
    EntryFits(tnodeWidth, p);
    var wordInMap := bitInMap / 32;
    var bitInWord := bitInMap % 32;
    val := Shr(tn[wordInMap], bitInWord);
    if tnodeWidth > 32 - bitInWord {
      ReadTwoWords(tn[..], bitInMap, tnodeWidth);
      bitInWord := 32 - bitInWord;
      wordInMap := wordInMap + 1;
      val := Or(val, Shl(tn[wordInMap], bitInWord));
    } else {
      ReadOneWord(tn[..], bitInMap, tnodeWidth);
    }
    val := And(val, Ones(32, tnodeWidth));
    val := Shl(val, chunkGroupBits);
  }

  /** Shifting the low g bits out and zeros in rounds down to a multiple of the group size. */
  lemma RoundedDown(v: Word, g: nat)
    requires g <= 32
    ensures Value(Shl(Shr(v, g), g)) == Value(v) - Value(v) % Pow2(g)
  {
    var r := Shl(Shr(v, g), g);
    ValueSplit(v, g);
    ValueSplit(r, g);
    assert r[g..] == v[g..];
    ValueZero(r[..g]);
    ValueBelow(v[..g]);
    LowPart(Value(v[..g]), Pow2(g), Value(v[g..]));
  }

  lemma LowPart(low: nat, p: nat, high: nat)
    requires low < p
    ensures (low + p * high) % p == low
  {
    var x := low + p * high;
    var q, r := x / p, x % p;
    assert x == p * q + r && 0 <= r < p;
    if q < high {
      MoreTimes(p, q, high);
    } else if q > high {
      MoreTimes(p, high, q);
    }
  }

  lemma MoreTimes(p: nat, a: nat, b: nat)
    requires a < b
    ensures p * a + p <= p * b
  {
    assert p * (a + 1) <= p * b;
  }

  /** A number below 2^(w + g) fits the entry. */
  lemma {:induction false} FitsEntry(v: Word, n: nat, j: nat)
    requires n <= j < 32 && Value(v) < Pow2(n)
    ensures !v[j]
  {
    ValueSplit(v, n);
    if Value(v[n..]) > 0 {
      MoreTimes(Pow2(n), 0, Value(v[n..]));
    }
    ZeroValue(v[n..], j - n);
  }

  lemma StoredComesBack(val: Word, w: nat, g: nat)
    requires ProperWidth(w) && w + g <= 32 && Value(val) < Pow2(w + g)
    ensures Shl(Padded(Shr(val, g)[..w]), g) == Shl(Shr(val, g), g)
  {
    var v := Shr(val, g);
    forall j: nat | j < 32
      ensures Padded(v[..w])[j] == v[j]
    {
      if w <= j && j + g < 32 {
        FitsEntry(val, w + g, j + g);
      }
    }
    assert Padded(v[..w]) == v;
  }

  /** What is stored comes back rounded down to its chunk group, for every chunk number that fits, and
      every other position reads as before. */
  method StoreThenFetch(tn: array<Word>, tnodeWidth: nat, chunkGroupBits: nat, pos: nat, val: Word, other: nat)
    returns (before: Word, got: Word, after: Word)
    requires ProperWidth(tnodeWidth) && tn.Length == tnodeWidth / 2 && tnodeWidth + chunkGroupBits <= 32
    requires Value(val) < Pow2(tnodeWidth + chunkGroupBits)
    modifies tn
    ensures Value(got) == Value(val) - Value(val) % Pow2(chunkGroupBits)
    ensures other % 16 != pos % 16 ==> after == before
    ensures before == Shl(Padded(EntryBits(old(tn[..]), tnodeWidth, other % 16)), chunkGroupBits)
  {
    hide Shl, Shr, Padded, Value, EntryBits;
    before := GetChunkGroupBase(tn, tnodeWidth, chunkGroupBits, other);
    LoadLevel0Tnode(tn, tnodeWidth, chunkGroupBits, pos, val);
    got := GetChunkGroupBase(tn, tnodeWidth, chunkGroupBits, pos);
    after := GetChunkGroupBase(tn, tnodeWidth, chunkGroupBits, other);
    StoredComesBack(val, tnodeWidth, chunkGroupBits);
    RoundedDown(val, chunkGroupBits);
  }
}
