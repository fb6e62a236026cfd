/** The chunk bitmap: one bit for each chunk of each block, packed into bytes. It behaves as a set
    of pages for each block. */
module Bitmap {
  import opened Records

  /** 1 << k */
  function Mask(k: nat): Byte
    requires k < 8
  {
    if k == 0 then 1 else if k == 1 then 2 else if k == 2 then 4 else if k == 3 then 8
    else if k == 4 then 16 else if k == 5 then 32 else if k == 6 then 64 else 128
  }

  /** x >> k */
  function Shr(x: Byte, k: nat): Byte
    requires k <= 8
  {
    if k == 0 then x else if k == 1 then x >> 1 else if k == 2 then x >> 2 else if k == 3 then x >> 3
    else if k == 4 then x >> 4 else if k == 5 then x >> 5 else if k == 6 then x >> 6 else if k == 7 then x >> 7 else 0
  }

  predicate Bit(x: Byte, k: nat)
    requires k < 8
  {
    x & Mask(k) != 0
  }

  lemma SetBit(x: Byte, k: nat, j: nat)
    requires k < 8 && j < 8
    ensures Bit(x | Mask(k), j) == (j == k || Bit(x, j))
  {
    hide Mask;
    MasksApart(k, j);
    MaskBits(x, Mask(k), Mask(j));
  }

  lemma ClearBit(x: Byte, k: nat, j: nat)
    requires k < 8 && j < 8
    ensures Bit(x & !Mask(k), j) == (j != k && Bit(x, j))
  {
    hide Mask;
    MasksApart(k, j);
    MaskBits(x, Mask(k), Mask(j));
  }

  lemma MasksApart(k: nat, j: nat)
    requires k < 8 && j < 8
    ensures k == j <==> Mask(k) == Mask(j)
    ensures IsMask(Mask(k)) && IsMask(Mask(j))
  {
  }

  predicate IsMask(m: Byte) {
    m == 1 || m == 2 || m == 4 || m == 8 || m == 16 || m == 32 || m == 64 || m == 128
  }

  lemma MaskBits(x: Byte, m: Byte, m': Byte)
    requires IsMask(m) && IsMask(m')
    ensures ((x | m) & m' != 0) == (m == m' || x & m' != 0)
    ensures ((x & !m) & m' != 0) == (m != m' && x & m' != 0)
  {
  }

  lemma ShrStep(x: Byte, k: nat)
    requires k < 8
    ensures Shr(x, k) >> 1 == Shr(x, k + 1)
    ensures (Shr(x, k) & 1 != 0) == Bit(x, k)
  {
  }

  lemma ShrZero(x: Byte, k: nat, j: nat)
    requires k <= j < 8 && Shr(x, k) == 0
    ensures !Bit(x, j)
    decreases j - k
  {
    if k < j {
      ShrStep(x, k);
      assert Shr(x, k + 1) == 0;
      ShrZero(x, k + 1, j);
    } else {
      ShrStep(x, k);
    }
  }

  lemma ZeroBits(x: Byte)
    ensures x == 0 <==> forall k: nat | k < 8 :: !Bit(x, k)
  {
    if x != 0 {
      NonZero(x);
      assert Bit(x, 0) || Bit(x, 1) || Bit(x, 2) || Bit(x, 3) || Bit(x, 4) || Bit(x, 5) || Bit(x, 6) || Bit(x, 7);
    }
  }

  lemma NonZero(x: Byte)
    requires x != 0
    ensures x & 1 != 0 || x & 2 != 0 || x & 4 != 0 || x & 8 != 0 || x & 16 != 0 || x & 32 != 0 || x & 64 != 0
        || x & 128 != 0
  {
  }

  /** The pages whose bits are set in the bytes of one block. */
  function Pages(bytes: seq<Byte>): set<nat> {
    set p: nat | p < 8 * |bytes| && Bit(bytes[p / 8], p % 8)
  }

  /** The pages below k among them. */
  function PagesBelow(bytes: seq<Byte>, k: nat): set<nat> {
    set p: nat | p < 8 * |bytes| && p < k && Bit(bytes[p / 8], p % 8)
  }

  lemma PagesSet(bytes: seq<Byte>, p: nat, x: Byte, to: bool)
    requires p < 8 * |bytes|
    requires forall j: nat | j < 8 :: Bit(x, j) == (if j == p % 8 then to else Bit(bytes[p / 8], j))
    ensures Pages(bytes[p / 8 := x]) == if to then Pages(bytes) + {p} else Pages(bytes) - {p}
  {
    var b' := bytes[p / 8 := x];
    forall q: nat
      ensures q in Pages(b') <==> (if q == p then to else q in Pages(bytes))
    {
      if q < 8 * |bytes| && q / 8 == p / 8 {
        assert b'[q / 8] == x;
        assert q % 8 == p % 8 <==> q == p;
      }
    }
  }

  /** Where the bytes of a block start. */
  function Offset(stride: nat, blk: nat): nat {
    stride * blk
  }

  class ChunkBitmap {
    const nBlocks: nat
    const chunksPerBlock: nat
    const stride: nat
    const chunkBits: array<Byte>

    /** No bit is set that does not stand for a chunk. */
    ghost predicate Valid()
      reads this, chunkBits
    {
      && stride == (chunksPerBlock + 7) / 8 && chunkBits.Length == stride * nBlocks
      && (forall blk: nat | blk < nBlocks :: Offset(stride, blk) + stride <= chunkBits.Length)
      && (forall blk: nat, p | blk < nBlocks && p in Pages(BlockBits(blk)) :: p < chunksPerBlock)
    }

    /** The bytes of one block. */
    ghost function BlockBits(blk: nat): seq<Byte>
      reads this, chunkBits
    {
      if Offset(stride, blk) + stride <= chunkBits.Length
          then chunkBits[Offset(stride, blk)..Offset(stride, blk) + stride] else []
    }

    /** The pages of block blk that are in use. */
    ghost function Used(blk: nat): (s: set<nat>)
      reads this, chunkBits
    {
      Pages(BlockBits(blk))
    }

    constructor (nBlocks: nat, chunksPerBlock: nat)
      ensures Valid() && this.nBlocks == nBlocks && this.chunksPerBlock == chunksPerBlock && fresh(chunkBits)
      ensures forall blk | 0 <= blk < nBlocks :: Used(blk) == {}
    {
      this.nBlocks, this.chunksPerBlock := nBlocks, chunksPerBlock;
      stride := (chunksPerBlock + 7) / 8;
      chunkBits := new Byte[((chunksPerBlock + 7) / 8) * nBlocks](i => 0);
      new;
      forall blk: nat | blk < nBlocks
        ensures Offset(stride, blk) + stride <= chunkBits.Length && Used(blk) == {}
      {
        StrideFits(stride, blk, nBlocks);
        forall i | 0 <= i < |BlockBits(blk)|
          ensures BlockBits(blk)[i] == 0
        {
          assert BlockBits(blk)[i] == chunkBits[Offset(stride, blk) + i];
        }
      }
    }

    static lemma StrideFits(stride: nat, blk: nat, nBlocks: nat)
      requires blk < nBlocks
      ensures Offset(stride, blk) + stride <= stride * nBlocks
    {
      assert stride * nBlocks == stride * blk + stride + stride * (nBlocks - blk - 1);
      assert stride * (nBlocks - blk - 1) >= 0;
    }

    static lemma StridesApart(stride: nat, a: nat, b: nat)
      requires a < b
      ensures Offset(stride, a) + stride <= Offset(stride, b)
    {
      StrideFits(stride, a, b);
    }

    /** Only block blk has changed: one byte of it, or all of them. */
    twostate lemma OthersUnchanged(blk: nat)
      requires old(Valid()) && blk < nBlocks
      requires forall i | 0 <= i < chunkBits.Length && !(Offset(stride, blk) <= i < Offset(stride, blk) + stride) ::
          chunkBits[i] == old(chunkBits[i])
      requires forall p | p in Used(blk) :: p < chunksPerBlock
      ensures Valid() && forall b: nat | b < nBlocks && b != blk :: Used(b) == old(Used(b))
    {
      hide Offset, Pages;
      ghost var s, s' := old(chunkBits[..]), chunkBits[..];
      var lo := Offset(stride, blk);
      forall b: nat | b < nBlocks && b != blk
        ensures BlockBits(b) == old(BlockBits(b))
      {
        if b < blk { StridesApart(stride, b, blk); } else { StridesApart(stride, blk, b); }
        SliceSame(s, s', lo, lo + stride, Offset(stride, b), Offset(stride, b) + stride);
        assert BlockBits(b) == s'[Offset(stride, b)..Offset(stride, b) + stride];
        assert old(BlockBits(b)) == s[Offset(stride, b)..Offset(stride, b) + stride];
      }
      forall b: nat, p | b < nBlocks && p in Pages(BlockBits(b))
        ensures p < chunksPerBlock
      {
        assert b != blk ==> p in old(Pages(BlockBits(b)));
        assert b == blk ==> p in Used(blk);
      }
    }

    static lemma SliceSame(s: seq<Byte>, s': seq<Byte>, lo: nat, hi: nat, a: nat, b: nat)
      requires |s| == |s'| && a <= b <= |s| && (b <= lo || hi <= a)
      requires forall i | 0 <= i < |s| && !(lo <= i < hi) :: s'[i] == s[i]
      ensures s'[a..b] == s[a..b]
    {
    }

    method ClearChunkBits(blk: nat)
      requires Valid() && blk < nBlocks
      modifies chunkBits
      ensures Valid() && Used(blk) == {} && forall b: nat | b < nBlocks && b != blk :: Used(b) == old(Used(b))
    {
      hide Offset;
      forall i | Offset(stride, blk) <= i < Offset(stride, blk) + stride {
        chunkBits[i] := 0;
      }
      assert forall i | 0 <= i < stride :: BlockBits(blk)[i] == chunkBits[Offset(stride, blk) + i] == 0;
      OthersUnchanged(blk);
    }

    static lemma ByteOf(n: nat, chunk: nat)
      requires chunk < n
      ensures chunk / 8 < (n + 7) / 8
    {
    }

    method ClearChunkBit(blk: nat, chunk: nat)
      requires Valid() && blk < nBlocks && chunk < chunksPerBlock
      modifies chunkBits
      ensures Valid() && Used(blk) == old(Used(blk)) - {chunk} && forall b: nat | b < nBlocks && b != blk ::
          Used(b) == old(Used(b))
    {
      hide Offset;
      ByteOf(chunksPerBlock, chunk);
      ghost var bytes := BlockBits(blk);
      var i := Offset(stride, blk) + chunk / 8;
      assert bytes[chunk / 8] == chunkBits[i];
      chunkBits[i] := chunkBits[i] & !Mask(chunk % 8);
      assert BlockBits(blk) == bytes[chunk / 8 := chunkBits[i]];
      forall j: nat | j < 8
        ensures Bit(chunkBits[i], j) == (if j == chunk % 8 then false else Bit(bytes[chunk / 8], j))
      {
        ClearBit(bytes[chunk / 8], chunk % 8, j);
      }
      PagesSet(bytes, chunk, chunkBits[i], false);
      OthersUnchanged(blk);
    }

    method SetChunkBit(blk: nat, chunk: nat)
      requires Valid() && blk < nBlocks && chunk < chunksPerBlock
      modifies chunkBits
      ensures Valid() && Used(blk) == old(Used(blk)) + {chunk} && forall b: nat | b < nBlocks && b != blk ::
          Used(b) == old(Used(b))
    {
      hide Offset;
      ByteOf(chunksPerBlock, chunk);
      ghost var bytes := BlockBits(blk);
      var i := Offset(stride, blk) + chunk / 8;
      assert bytes[chunk / 8] == chunkBits[i];
      chunkBits[i] := chunkBits[i] | Mask(chunk % 8);
      assert BlockBits(blk) == bytes[chunk / 8 := chunkBits[i]];
      forall j: nat | j < 8
        ensures Bit(chunkBits[i], j) == (if j == chunk % 8 then true else Bit(bytes[chunk / 8], j))
      {
        SetBit(bytes[chunk / 8], chunk % 8, j);
      }
      PagesSet(bytes, chunk, chunkBits[i], true);
      OthersUnchanged(blk);
    }

    method CheckChunkBit(blk: nat, chunk: nat) returns (set_: bool)
      requires Valid() && blk < nBlocks && chunk < chunksPerBlock
      ensures set_ <==> chunk in Used(blk)
    {
      hide Offset;
      ByteOf(chunksPerBlock, chunk);
      assert BlockBits(blk)[chunk / 8] == chunkBits[Offset(stride, blk) + chunk / 8];
      set_ := chunkBits[Offset(stride, blk) + chunk / 8] & Mask(chunk % 8) != 0;
    }

    method StillSomeChunkBits(blk: nat) returns (some: bool)
      requires Valid() && blk < nBlocks
      ensures some <==> Used(blk) != {}
    {
      hide Offset;
      var i := 0;
      while i < stride
        invariant 0 <= i <= stride && forall p | p in Used(blk) :: p >= 8 * i
      {
        var x := chunkBits[Offset(stride, blk) + i];
        assert BlockBits(blk)[i] == x;
        ZeroBits(x);
        if x != 0 {
          var k: nat :| k < 8 && Bit(x, k);
          assert (8 * i + k) / 8 == i && (8 * i + k) % 8 == k;
          assert 8 * i + k in Used(blk);
          return true;
        }
        forall p | p in Used(blk)
          ensures p >= 8 * (i + 1)
        {
          assert p >= 8 * i;
          assert p / 8 == i ==> !Bit(x, p % 8);
        }
        i := i + 1;
      }
      return false;
    }

    /** Count the bits of a block, byte by byte and bit by bit. */
    method CountChunkBits(blk: nat) returns (n: nat)
      requires Valid() && blk < nBlocks
      ensures n == |Used(blk)|
    {
      hide Offset;
      ghost var bytes := BlockBits(blk);
      n := 0;
      var i := 0;
      assert PagesBelow(bytes, 0) == {};
      while i < stride
        invariant 0 <= i <= stride && n == |PagesBelow(bytes, 8 * i)|
      {
        var x := chunkBits[Offset(stride, blk) + i];
        assert bytes[i] == x;
        ghost var k := 0;
        assert Shr(x, 0) == x;
        while x != 0
          invariant 0 <= k <= 8 && x == Shr(bytes[i], k) && n == |PagesBelow(bytes, 8 * i + k)|
          decreases 8 - k
        {
          assert k < 8 by { assert Shr(bytes[i], 8) == 0; }
          ShrStep(bytes[i], k);
          BelowStep(bytes, i, k);
          if x & 1 != 0 {
            n := n + 1;
          }
          x := x >> 1;
          k := k + 1;
        }
        RestZero(bytes, i, k);
        i := i + 1;
      }
      assert PagesBelow(bytes, 8 * stride) == Pages(bytes);
    }

    static lemma BelowStep(bytes: seq<Byte>, i: nat, k: nat)
      requires i < |bytes| && k < 8
      ensures |PagesBelow(bytes, 8 * i + k + 1)| == |PagesBelow(bytes, 8 * i + k)| + (if Bit(bytes[i], k) then 1 else 0)
    {
      var q := 8 * i + k;
      assert q / 8 == i && q % 8 == k;
      assert PagesBelow(bytes, q + 1) == if Bit(bytes[i], k) then PagesBelow(bytes, q) + {q} else PagesBelow(bytes, q);
    }

    static lemma RestZero(bytes: seq<Byte>, i: nat, k: nat)
      requires i < |bytes| && k <= 8 && Shr(bytes[i], k) == 0
      ensures PagesBelow(bytes, 8 * i + k) == PagesBelow(bytes, 8 * i + 8)
    {
      var s := PagesBelow(bytes, 8 * i + 8);
      forall p: nat | p in s
        ensures p in PagesBelow(bytes, 8 * i + k)
      {
        if p >= 8 * i + k {
          ShrZero(bytes[i], k, p % 8);
        }
      }
    }
  }
}
