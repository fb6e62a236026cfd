/** The tags of a chunk as they lie in the spare area, with their code. */
module PackedTags {
  import opened Words
  import opened Ecc

  datatype EccResult = NoError | Fixed | Unfixed

  /** Tags in memory; a chunk that is not used has no tags. */
  datatype ExtendedTags = Unused | Tags(
    sequenceNumber: Word, objectId: Word, chunkId: Word, byteCount: Word,
    extraHeaderInfoAvailable: bool, extraParentObjectId: Word, extraIsShrinkHeader: bool, extraShadows: bool,
    extraObjectType: Word, extraFileLength: Word, extraEquivalentObjectId: Word, eccResult: EccResult)

  datatype TagsPart = TagsPart(sequenceNumber: Word, objectId: Word, chunkId: Word, byteCount: Word)

  const FILE: nat := 1
  const HARDLINK: nat := 4

  function Num(n: nat): Word {
    BitsOf(n, 32)
  }

  /** 0xFFFFFFFF, 0x80000000, 0x40000000, 0x20000000 and 0xF0000000. */
  function AllOnes(): Word {
    Ones(32, 32)
  }

  function HeaderInfoFlag(): Word {
    Unit(32, 31)
  }

  function ShrinkFlag(): Word {
    Unit(32, 30)
  }

  function ShadowsFlag(): Word {
    Unit(32, 29)
  }

  function ExtraFlags(): Word {
    Not(Ones(32, 28))
  }

  const OBJECT_TYPE_SHIFT: nat := 28

  method PackTags2TagsPart(t: ExtendedTags) returns (p: TagsPart)
    requires t.Tags?
    ensures p == Packed(t)
  {
    var chunkId, objectId, byteCount := t.chunkId, t.objectId, t.byteCount;
    if t.chunkId == Zero(32) && t.extraHeaderInfoAvailable {
      chunkId := Or(HeaderInfoFlag(), t.extraParentObjectId);
      if t.extraIsShrinkHeader {
        chunkId := Or(chunkId, ShrinkFlag());
      }
      if t.extraShadows {
        chunkId := Or(chunkId, ShadowsFlag());
      }
      objectId := And(objectId, Not(ExtraFlags()));
      objectId := Or(objectId, Shl(t.extraObjectType, OBJECT_TYPE_SHIFT));
      if t.extraObjectType == Num(HARDLINK) {
        byteCount := t.extraEquivalentObjectId;
      } else if t.extraObjectType == Num(FILE) {
        byteCount := t.extraFileLength;
      } else {
        byteCount := Zero(32);
      }
    }
    p := TagsPart(t.sequenceNumber, objectId, chunkId, byteCount);
    if t.chunkId == Zero(32) && t.extraHeaderInfoAvailable {
      PackedHas(t, p);
    }
  }

  /** The packed words, bit by bit: a header with extra information has its flags and its parent in the
      chunk id, its type in the top four bits of the object id, and its length or equivalent in the
      byte count. */
  ghost function Packed(t: ExtendedTags): TagsPart
    requires t.Tags?
  {
    if t.chunkId == Zero(32) && t.extraHeaderInfoAvailable then
      TagsPart(t.sequenceNumber,
               seq(32, j requires 0 <= j < 32 => if j < 28 then t.objectId[j] else t.extraObjectType[j - 28]),
               seq(32, j requires 0 <= j < 32 =>
                 t.extraParentObjectId[j] || j == 31 || (j == 30 && t.extraIsShrinkHeader)
                     || (j == 29 && t.extraShadows)),
               if t.extraObjectType == Num(HARDLINK) then t.extraEquivalentObjectId
               else if t.extraObjectType == Num(FILE) then t.extraFileLength else Zero(32))
    else TagsPart(t.sequenceNumber, t.objectId, t.chunkId, t.byteCount)
  }

  lemma PackedHas(t: ExtendedTags, p: TagsPart)
    requires t.Tags? && t.chunkId == Zero(32) && t.extraHeaderInfoAvailable
    requires p.sequenceNumber == t.sequenceNumber
    requires p.objectId == Or(And(t.objectId, Not(ExtraFlags())), Shl(t.extraObjectType, OBJECT_TYPE_SHIFT))
    requires var c := Or(HeaderInfoFlag(), t.extraParentObjectId);
             var c1 := if t.extraIsShrinkHeader then Or(c, ShrinkFlag()) else c;
             p.chunkId == if t.extraShadows then Or(c1, ShadowsFlag()) else c1
    requires p.byteCount == Packed(t).byteCount
    ensures p == Packed(t)
  {
    forall j | 0 <= j < 32
      ensures p.objectId[j] == Packed(t).objectId[j]
    {
    }
    forall j | 0 <= j < 32
      ensures p.chunkId[j] == Packed(t).chunkId[j]
    {
    }
  }

  /** Tags as they may be written: numbers leave the bits free that the packing takes, what a kind of
      object does not have is zero, and the sequence number is not that of erased flash. */
  ghost predicate InRange(t: ExtendedTags) {
    && t.Tags? && t.sequenceNumber != AllOnes() && t.eccResult == NoError
    && (if t.extraHeaderInfoAvailable then
          && t.chunkId == Zero(32) && t.byteCount == Zero(32)
          && (forall j | 28 <= j < 32 :: !t.objectId[j] && !t.extraParentObjectId[j])
          && (forall j | 4 <= j < 32 :: !t.extraObjectType[j])
          && (t.extraObjectType != Num(HARDLINK) ==> t.extraEquivalentObjectId == Zero(32))
          && (t.extraObjectType != Num(FILE) ==> t.extraFileLength == Zero(32))
        else
          && !t.chunkId[31]
          && t.extraParentObjectId == t.extraObjectType == t.extraFileLength == t.extraEquivalentObjectId == Zero(32)
          && !t.extraIsShrinkHeader && !t.extraShadows)
  }

  function Unpacked(p: TagsPart): ExtendedTags {
    if p.sequenceNumber == AllOnes() then Unused
    else if And(p.chunkId, HeaderInfoFlag()) != Zero(32) then
      var objectType := Shr(p.objectId, OBJECT_TYPE_SHIFT);
      Tags(p.sequenceNumber, And(p.objectId, Not(ExtraFlags())), Zero(32), Zero(32),
           true, And(p.chunkId, Not(ExtraFlags())),
           And(p.chunkId, ShrinkFlag()) != Zero(32), And(p.chunkId, ShadowsFlag()) != Zero(32), objectType,
           if objectType == Num(HARDLINK) then Zero(32) else p.byteCount,
           if objectType == Num(HARDLINK) then p.byteCount else Zero(32), NoError)
    else
      Tags(p.sequenceNumber, p.objectId, p.chunkId, p.byteCount,
           false, Zero(32), false, false, Zero(32), Zero(32), Zero(32), NoError)
  }

  lemma FlagSet(x: Word, k: nat)
    requires k < 32
    ensures And(x, Unit(32, k)) != Zero(32) <==> x[k]
  {
    assert And(x, Unit(32, k))[k] == x[k];
    if !x[k] {
      assert And(x, Unit(32, k)) == Zero(32);
    } else {
      assert Zero(32)[k] == false;
    }
  }

  /** Unpacking gives back the tags packed, for all tags that may be written. */
  lemma UnpackUndoesPack(t: ExtendedTags)
    requires InRange(t)
    ensures Unpacked(Packed(t)) == t
  {
    hide BitsOf;
    var p := Packed(t);
    FlagSet(p.chunkId, 31);
    FlagSet(p.chunkId, 30);
    FlagSet(p.chunkId, 29);
    if t.extraHeaderInfoAvailable {
      assert p.chunkId[31] && p.chunkId[30] == t.extraIsShrinkHeader && p.chunkId[29] == t.extraShadows;
      HeaderWords(t, p);
      NumbersDiffer();
    }
  }

  lemma NumbersDiffer()
    ensures Num(FILE) != Num(HARDLINK)
  {
    assert Num(FILE)[0] && !Num(HARDLINK)[0];
  }

  lemma HeaderWords(t: ExtendedTags, p: TagsPart)
    requires InRange(t) && t.extraHeaderInfoAvailable && p == Packed(t)
    ensures And(p.objectId, Not(ExtraFlags())) == t.objectId
    ensures And(p.chunkId, Not(ExtraFlags())) == t.extraParentObjectId
    ensures Shr(p.objectId, OBJECT_TYPE_SHIFT) == t.extraObjectType
  {
    hide BitsOf;
    var a, b, c := And(p.objectId, Not(ExtraFlags())), And(p.chunkId, Not(ExtraFlags())),
        Shr(p.objectId, OBJECT_TYPE_SHIFT);
    forall j | 0 <= j < 32
      ensures a[j] == t.objectId[j] && b[j] == t.extraParentObjectId[j] && c[j] == t.extraObjectType[j]
    {
    }
  }

  /** The bytes of a word, the low one first, and the 16 bytes of the four words. */
  function WordBytes(w: Word): (b: seq<Octet>)
    ensures |b| == 4
  {
    [w[..8], w[8..16], w[16..24], w[24..]]
  }

  function AsBytes(p: TagsPart): (b: seq<Octet>)
    ensures |b| == 16
  {
    WordBytes(p.sequenceNumber) + WordBytes(p.objectId) + WordBytes(p.chunkId) + WordBytes(p.byteCount)
  }

  function WordAt(b: seq<Octet>, i: nat): Word
    requires i + 4 <= |b|
  {
    Joined(b[i], b[i + 1], b[i + 2], b[i + 3])
  }

  function Joined(a: Bits, b: Bits, c: Bits, d: Bits): Bits {
    a + b + c + d
  }

  function FromBytes(b: seq<Octet>): TagsPart
    requires |b| == 16
  {
    TagsPart(WordAt(b, 0), WordAt(b, 4), WordAt(b, 8), WordAt(b, 12))
  }

  lemma WordBack(w: Word, b: seq<Octet>, i: nat)
    requires i + 4 <= |b| && b[i..i + 4] == WordBytes(w)
    ensures WordAt(b, i) == w
  {
    assert b[i] == b[i..i + 4][0] && b[i + 1] == b[i..i + 4][1] && b[i + 2] == b[i..i + 4][2]
        && b[i + 3] == b[i..i + 4][3];
    assert w == w[..8] + w[8..16] + w[16..24] + w[24..];
  }

  lemma BytesBack(p: TagsPart)
    ensures FromBytes(AsBytes(p)) == p
  {
    hide WordAt, WordBytes;
    var b := AsBytes(p);
    assert b[0..4] == WordBytes(p.sequenceNumber) && b[4..8] == WordBytes(p.objectId);
    assert b[8..12] == WordBytes(p.chunkId) && b[12..16] == WordBytes(p.byteCount);
    WordBack(p.sequenceNumber, b, 0);
    WordBack(p.objectId, b, 4);
    WordBack(p.chunkId, b, 8);
    WordBack(p.byteCount, b, 12);
  }

  class PackedTags2 {
    const part: array<Octet>
    const ecc: StoredCode

    ghost predicate Valid()
      reads this, ecc
    {
      part.Length == 16 && |ecc.code.line| == |ecc.code.linePrime| == 32
    }

    /** Pack the tags, and their code if asked for. */
    constructor (t: ExtendedTags, tagsECC: bool)
      requires t.Tags?
      ensures Valid() && fresh(part) && fresh(ecc)
      ensures part[..] == AsBytes(Packed(t))
      ensures tagsECC ==> ecc.code == OtherCodeOf(part[..])
    {
      var p := PackTags2TagsPart(t);
      var bytes := AsBytes(p);
      var a := new Octet[16](i requires 0 <= i < 16 => bytes[i]);
      assert a[..] == bytes;
      var code := Parity3(Zero(8), Zero(32), Zero(32));
      if tagsECC {
        code := ECCCalculateOther(a);
      }
      part := a;
      ecc := new StoredCode(code);
    }

    /** Unpack what was read. Chunks that look erased are left alone; else the bytes are first put right. */
    method UnpackTags2(tagsECC: bool, ghost written: seq<Octet>) returns (t: ExtendedTags)
      requires Valid() && |written| == 16
      modifies part, ecc
      ensures Valid()
      ensures WordAt(old(part[..]), 0) == AllOnes() ==> t == Unused && part[..] == old(part[..])
      ensures !tagsECC ==> t == Unpacked(FromBytes(old(part[..]))) && part[..] == old(part[..])
      ensures WordAt(old(part[..]), 0) != AllOnes() && tagsECC ==>
                Repaired(written, old(part[..]), old(ecc.code), FromBytes(part[..]), t)
    {
      hide WordAt, OtherCodeOf, OneFlip, TwoFlips, OtherCodeFlip, Unpacked, Pow2;
      var eccResult := NoError;
      ErasedIsUnused(FromBytes(part[..]));
      if WordAt(part[..], 0) != AllOnes() && tagsECC {
        assert 16 <= Pow2(32) by { SixteenIsSmall(); }
        var result := CheckBytes(part, ecc, written);
        eccResult := if result == 0 then NoError else if result == 1 then Fixed else Unfixed;
      }
      t := Unpacked(FromBytes(part[..]));
      ErasedIsUnused(FromBytes(part[..]));
      if t.Tags? {
        t := t.(eccResult := eccResult);
      }
    }
  }

  lemma SixteenIsSmall()
    ensures 16 <= Pow2(32)
  {
    assert Pow2(4) == 16;
    ValueBelow(Unit(32, 31));
    Pow2Grows(4, 32);
  }

  lemma {:induction false} Pow2Grows(m: nat, n: nat)
    requires m <= n
    ensures Pow2(m) <= Pow2(n)
    decreases n
  {
    if m < n {
      Pow2Grows(m, n - 1);
    }
  }

  lemma ErasedIsUnused(p: TagsPart)
    ensures p.sequenceNumber == AllOnes() <==> Unpacked(p) == Unused
    ensures Unpacked(p).Tags? ==> Unpacked(p).eccResult == NoError
  {
  }

  /** What unpacking with the code does, against the bytes as they were written. */
  ghost predicate Repaired(written: seq<Octet>, read: seq<Octet>, code: Parity3, p: TagsPart, t: ExtendedTags)
    requires |written| == |read| == 16 && |code.line| == |code.linePrime| == 32
  {
    && (read == written && code == OtherCodeOf(written) ==> t == Unpacked(FromBytes(written)))
    && (OneFlip(written, read) && code == OtherCodeOf(written) ==> t == WithResult(Unpacked(FromBytes(written)), Fixed))
    && (read == written && OtherCodeFlip(OtherCodeOf(written), code) ==>
        t == WithResult(Unpacked(FromBytes(written)), Fixed))
    && (TwoFlips(written, read) && code == OtherCodeOf(written) ==> t == WithResult(Unpacked(FromBytes(read)), Unfixed))
  }

  ghost function WithResult(t: ExtendedTags, r: EccResult): ExtendedTags {
    if t.Tags? then t.(eccResult := r) else t
  }

  /** Tags that may be written are recovered from what was packed with any one bit of their bytes or of
      their code flipped -- unless the flip makes the sequence number that of erased flash. */
  method RecoverTags(pt: PackedTags2, ghost t: ExtendedTags) returns (got: ExtendedTags)
    requires pt.Valid() && InRange(t)
    modifies pt.part, pt.ecc
    ensures var written := AsBytes(Packed(t)); var code := OtherCodeOf(written);
            && (old(pt.part[..]) == written && old(pt.ecc.code) == code ==> got == t)
            && (OneFlip(written, old(pt.part[..])) && old(pt.ecc.code) == code ==>
                  (got == t.(eccResult := Fixed) <==> WordAt(old(pt.part[..]), 0) != AllOnes())
                  && (WordAt(old(pt.part[..]), 0) == AllOnes() ==> got == Unused))
            && (old(pt.part[..]) == written && OtherCodeFlip(code, old(pt.ecc.code)) ==> got == t.(eccResult := Fixed))
  {
    hide WordAt, OtherCodeOf, OneFlip, TwoFlips, OtherCodeFlip, Unpacked, Packed, AsBytes;
    ghost var written := AsBytes(Packed(t));
    BytesBack(Packed(t));
    UnpackUndoesPack(t);
    SequenceOf(Packed(t));
    PackedSequence(t);
    got := pt.UnpackTags2(true, written);
  }

  lemma SequenceOf(p: TagsPart)
    ensures WordAt(AsBytes(p), 0) == p.sequenceNumber
  {
    hide AsBytes;
    BytesBack(p);
    assert FromBytes(AsBytes(p)).sequenceNumber == WordAt(AsBytes(p), 0);
  }

  lemma PackedSequence(t: ExtendedTags)
    requires t.Tags?
    ensures Packed(t).sequenceNumber == t.sequenceNumber
  {
  }

  const HIGHEST_SEQUENCE_NUMBER: nat := 0xEFFFFF00

  lemma {:induction false} ValueOnes(n: nat)
    ensures Value(Ones(n, n)) == Pow2(n) - 1
  {
    if n > 0 {
      ValueOnes(n - 1);
      assert Ones(n, n)[1..] == Ones(n - 1, n - 1);
    }
  }

  /** It can happen: there is a sequence number in use one bit away from that of erased flash. */
  lemma MayLookErased() returns (sequenceNumber: Word)
    ensures sequenceNumber != AllOnes() && Value(sequenceNumber) <= HIGHEST_SEQUENCE_NUMBER
    ensures exists k: nat :: k < 32 && Flip(sequenceNumber, k) == AllOnes()
  {
    hide Value, Pow2;
    sequenceNumber := Flip(AllOnes(), 29);
    var low, high := sequenceNumber[..29], sequenceNumber[29..];
    assert Flip(sequenceNumber, 29) == AllOnes();
    assert sequenceNumber[29] != AllOnes()[29];
    ValueSplit(sequenceNumber, 29);
    assert low == Ones(29, 29);
    ValueOnes(29);
    assert high == [false, true, true];
    ThreeBits(false, true, true);
    TwoTo29();
  }

  lemma TwoTo29()
    ensures Pow2(29) == 0x2000_0000
  {
    assert Pow2(10) == 1024;
    assert Pow2(20) == 1024 * 1024;
  }
}
