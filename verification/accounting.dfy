/** Space accounting: the state of each block, its chunk bitmap, and the counters kept beside them. */
module Accounting {
  import opened Bitmap
  import opened Collection
  import Qsort
  import Recovery

  datatype BlockState = Unknown | NeedsScanning | Empty | Allocating | Full | Dirty | CheckpointBlock | Collecting | Dead

  datatype BlockInfo = BlockInfo(state: BlockState, pagesInUse: int, softDeletions: int, sequenceNumber: nat,
      hasShrinkHeader: bool, needsRetiring: bool)

  // ----- the counts -----

  predicate Counted(s: BlockState) {
    s == Empty || s == Allocating || s == Full || s == Collecting
  }

  /** The free chunks of one block. */
  function FreeIn(n: nat, b: BlockInfo): int {
    if Counted(b.state) then n - b.pagesInUse + b.softDeletions else 0
  }

  function FreeChunks(n: nat, bs: seq<BlockInfo>): int {
    if bs == [] then 0 else FreeChunks(n, bs[..|bs| - 1]) + FreeIn(n, bs[|bs| - 1])
  }

  function InState(b: BlockInfo, s: BlockState): nat {
    if b.state == s then 1 else 0
  }

  /** The number of blocks in a state. */
  function BlocksIn(bs: seq<BlockInfo>, s: BlockState): nat {
    if bs == [] then 0 else BlocksIn(bs[..|bs| - 1], s) + InState(bs[|bs| - 1], s)
  }

  lemma {:induction false} FreeSet(n: nat, bs: seq<BlockInfo>, i: nat, b: BlockInfo)
    requires i < |bs|
    ensures FreeChunks(n, bs[i := b]) == FreeChunks(n, bs) - FreeIn(n, bs[i]) + FreeIn(n, b)
  {
    var k := |bs| - 1;
    if i < k {
      assert bs[i := b][..k] == bs[..k][i := b];
      FreeSet(n, bs[..k], i, b);
    } else {
      assert bs[i := b][..k] == bs[..k];
    }
  }

  lemma {:induction false} StateSet(bs: seq<BlockInfo>, i: nat, b: BlockInfo, s: BlockState)
    requires i < |bs|
    ensures BlocksIn(bs[i := b], s) == BlocksIn(bs, s) - InState(bs[i], s) + InState(b, s)
  {
    var k := |bs| - 1;
    if i < k {
      assert bs[i := b][..k] == bs[..k][i := b];
      StateSet(bs[..k], i, b, s);
    } else {
      assert bs[i := b][..k] == bs[..k];
    }
  }

  lemma {:induction false} SomeIn(bs: seq<BlockInfo>, s: BlockState)
    ensures BlocksIn(bs, s) == 0 <==> forall i | 0 <= i < |bs| :: bs[i].state != s
  {
    if bs != [] {
      SomeIn(bs[..|bs| - 1], s);
    }
  }

  /** Counts kept beside the blocks. slack is what nFree holds for a block that is between states. */
  ghost predicate Counts(n: nat, bs: seq<BlockInfo>, nFree: int, nErased: int, slack: int) {
    nFree == FreeChunks(n, bs) + slack && nErased == BlocksIn(bs, Empty)
  }

  lemma CountsSet(n: nat, bs: seq<BlockInfo>, i: nat, b: BlockInfo, nFree: int, nErased: int, slack: int, nFree': int,
          slack': int)
    requires i < |bs| && Counts(n, bs, nFree, nErased, slack)
    requires nFree' - slack' == nFree - slack - FreeIn(n, bs[i]) + FreeIn(n, b)
    ensures Counts(n, bs[i := b], nFree', nErased - InState(bs[i], Empty) + InState(b, Empty), slack')
  {
    FreeSet(n, bs, i, b);
    StateSet(bs, i, b, Empty);
  }

  // ----- each block -----

  predicate Blank(s: BlockState) {
    s == Unknown || s == Empty || s == CheckpointBlock || s == Dirty || s == Dead
  }

  /** pagesInUse and softDeletions count the pages in use, and those of them that only hold data of
      deleted files. */
  ghost predicate PageOk(n: nat, b: BlockInfo, used: set<nat>, soft: set<nat>) {
    && b.pagesInUse == |used| && b.softDeletions == |soft| && soft <= used && (forall p | p in used :: p < n)
    && (Blank(b.state) ==> used == {} && !b.hasShrinkHeader)
  }

  ghost predicate PagesOk(n: nat, bs: seq<BlockInfo>, used: seq<set<nat>>, soft: seq<set<nat>>) {
    |used| == |bs| && |soft| == |bs| && forall i | 0 <= i < |bs| :: PageOk(n, bs[i], used[i], soft[i])
  }

  predicate Written(s: BlockState) {
    s == Allocating || s == Full || s == Collecting
  }

  /** Sequence numbers tell the written blocks apart; the block chunks are taken from has the newest. */
  ghost predicate SeqOk(y2: bool, bs: seq<BlockInfo>, sequenceNumber: nat, alloc: int) {
    && (y2 ==> forall i | 0 <= i < |bs| && Written(bs[i].state) :: 0 < bs[i].sequenceNumber <= sequenceNumber)
    && (y2 ==> forall i, j | 0 <= i < j < |bs| && Written(bs[i].state) && Written(bs[j].state) ::
        bs[i].sequenceNumber != bs[j].sequenceNumber)
    && (forall i | 0 <= i < |bs| :: bs[i].state == Allocating <==> i == alloc)
    && -1 <= alloc < |bs|
    && (y2 && alloc >= 0 ==> bs[alloc].sequenceNumber == sequenceNumber)
  }

  /** The block chunks are taken from is written up to page. */
  ghost predicate AllocOk(n: nat, used: seq<set<nat>>, alloc: int, page: nat) {
    0 <= alloc < |used| ==> page < n && forall p | p in used[alloc] :: p < page
  }

  // ----- the oldest dirty block -----

  /** A full block with discarded pages. */
  predicate Discarded(n: nat, b: BlockInfo) {
    (b.state == Full || b.state == Collecting) && b.pagesInUse - b.softDeletions < n
  }

  /** seq is the lowest sequence number of such a block. */
  ghost predicate IsOldestDirty(n: nat, bs: seq<BlockInfo>, seq_: nat) {
    && (exists i :: 0 <= i < |bs| && Discarded(n, bs[i]) && bs[i].sequenceNumber == seq_)
    && (forall i | 0 <= i < |bs| && Discarded(n, bs[i]) :: seq_ <= bs[i].sequenceNumber)
  }

  ghost predicate OldestOk(n: nat, bs: seq<BlockInfo>, oldest: nat) {
    oldest != 0 ==> IsOldestDirty(n, bs, oldest)
  }

  /** Block i goes out of the running: its number may no longer be the one remembered. */
  lemma OldestWithout(n: nat, bs: seq<BlockInfo>, i: nat, b: BlockInfo, oldest: nat)
    requires i < |bs| && OldestOk(n, bs, oldest) && !Discarded(n, b)
    requires Discarded(n, bs[i]) && oldest != 0 ==> oldest != bs[i].sequenceNumber
    ensures OldestOk(n, bs[i := b], oldest)
  {
    if oldest != 0 {
      var j :| 0 <= j < |bs| && Discarded(n, bs[j]) && bs[j].sequenceNumber == oldest;
      assert j != i;
      assert bs[i := b][j] == bs[j];
    }
  }

  /** Block i has discarded pages from now on; the number remembered is lowered to its own. */
  lemma OldestWith(n: nat, bs: seq<BlockInfo>, i: nat, b: BlockInfo, oldest: nat, oldest': nat)
    requires i < |bs| && OldestOk(n, bs, oldest) && b.sequenceNumber == bs[i].sequenceNumber
    requires Discarded(n, b) || !Discarded(n, bs[i])
    requires Discarded(n, b) && oldest != 0 ==> oldest' == if oldest > b.sequenceNumber then b.sequenceNumber
        else oldest
    requires !Discarded(n, b) || oldest == 0 ==> oldest' == oldest
    ensures OldestOk(n, bs[i := b], oldest')
  {
    if oldest != 0 {
      var j :| 0 <= j < |bs| && Discarded(n, bs[j]) && bs[j].sequenceNumber == oldest;
      var bs' := bs[i := b];
      assert bs'[i] == b && (j != i ==> bs'[j] == bs[j]);
    }
  }

  lemma OldestSame(n: nat, bs: seq<BlockInfo>, i: nat, b: BlockInfo, oldest: nat)
    requires i < |bs| && OldestOk(n, bs, oldest) && Discarded(n, b) == Discarded(n, bs[i])
        && (Discarded(n, b) ==> b.sequenceNumber == bs[i].sequenceNumber)
    ensures OldestOk(n, bs[i := b], oldest)
  {
    if oldest != 0 {
      var j :| 0 <= j < |bs| && Discarded(n, bs[j]) && bs[j].sequenceNumber == oldest;
      var bs' := bs[i := b];
      assert j != i ==> bs'[j] == bs[j];
      assert Discarded(n, bs'[j]) && bs'[j].sequenceNumber == oldest;
    }
  }

  lemma SeqSame(y2: bool, bs: seq<BlockInfo>, i: nat, b: BlockInfo, sequenceNumber: nat, alloc: int)
    requires i < |bs| && SeqOk(y2, bs, sequenceNumber, alloc)
        && (Written(b.state) ==> Written(bs[i].state) && b.sequenceNumber == bs[i].sequenceNumber)
    requires b.state == Allocating <==> bs[i].state == Allocating
    ensures SeqOk(y2, bs[i := b], sequenceNumber, alloc)
  {
  }

  function Range(n: nat): set<nat> {
    if n == 0 then {} else Range(n - 1) + {n - 1}
  }

  lemma {:induction false} RangeIs(n: nat)
    ensures |Range(n)| == n && forall p: nat :: p in Range(n) <==> p < n
  {
    if n > 0 {
      RangeIs(n - 1);
    }
  }

  lemma {:induction false} SubsetSize<T>(a: set<T>, b: set<T>)
    requires a <= b
    ensures |a| <= |b| && (|a| == |b| ==> a == b)
  {
    assert b == a + (b - a);
    if |a| == |b| {
      assert b - a == {};
    }
  }

  lemma UsedSize(n: nat, used: set<nat>)
    requires forall p | p in used :: p < n
    ensures |used| <= n
  {
    RangeIs(n);
    SubsetSize(used, Range(n));
  }

  datatype Option<+T> = None | Some(value: T)

  /** What a mount makes of a chunk: it was never written, it cannot be used (it is unreadable, its tags make
      no sense, or it is marked deleted), it holds data or a header that is not wanted any more (a newer chunk
      has its place, a header cuts it off, or its object is not one that has data), or it is in use. */
  datatype ChunkKind = Unused | Junk | Stale | InUse

  predicate Holds(k: ChunkKind) {
    k == Stale || k == InUse
  }

  /** What the tags of a chunk say: its object, its number in it, 0 for the header, and the two-bit count
      of the times it was written. */
  datatype ChunkTag = ChunkTag(obj: nat, chunk: nat, serial: nat)

  /** For a place, given by object and number, the chunk held for it, given by block and page. */
  type Holders = map<(nat, nat), (nat, nat)>

  const LOWEST_SEQUENCE_NUMBER: nat := 0x0000_1000
  const HIGHEST_SEQUENCE_NUMBER: nat := 0xEFFF_FF00

  /** The driver's answer is that of a block to scan. */
  predicate ToScan(answer: (BlockState, nat)) {
    answer.0 == NeedsScanning && GoodSequence(answer.1)
  }

  /** Scanning finds nothing in the block, though its first chunk is unused. */
  predicate BlankBlock(n: nat, kind: (nat, nat) -> ChunkKind, blk: nat) {
    n > 0 && kind(blk, 0) == Unused && forall c: nat | c < n :: !Holds(kind(blk, c))
  }

  /** Another chunk than the first is unused, and nothing above it holds anything. */
  predicate FreeTail(n: nat, kind: (nat, nat) -> ChunkKind, blk: nat) {
    exists c: nat :: 1 <= c < n && kind(blk, c) == Unused && NothingFrom(n, kind, blk, c)
  }

  predicate FreeTailFrom(n: nat, kind: (nat, nat) -> ChunkKind, blk: nat, c: nat) {
    exists d: nat :: 1 <= d < n && c <= d && kind(blk, d) == Unused && NothingFrom(n, kind, blk, d)
  }

  predicate NothingFrom(n: nat, kind: (nat, nat) -> ChunkKind, blk: nat, c: nat) {
    forall d: nat | c <= d < n :: !Holds(kind(blk, d))
  }

  /** The chunks of the block that are in use. */
  function InUseIn(n: nat, kind: (nat, nat) -> ChunkKind, blk: nat): set<nat> {
    set c: nat | c < n && kind(blk, c) == InUse
  }

  function InUseFrom(n: nat, kind: (nat, nat) -> ChunkKind, blk: nat, c: nat): set<nat> {
    set d: nat | c <= d < n && kind(blk, d) == InUse
  }

  predicate ShrinkFrom(n: nat, kind: (nat, nat) -> ChunkKind, shrink: (nat, nat) -> bool, blk: nat, c: nat) {
    exists d: nat :: c <= d < n && Holds(kind(blk, d)) && shrink(blk, d)
  }

  /** Some header in the block says that its file was cut. */
  predicate ShrinkIn(n: nat, kind: (nat, nat) -> ChunkKind, shrink: (nat, nat) -> bool, blk: nat) {
    exists c: nat :: c < n && Holds(kind(blk, c)) && shrink(blk, c)
  }

  /** The newest of the blocks to scan, and blank: what the scan does wrong with it is shown below. */
  ghost predicate Strands(n: nat, query: seq<(BlockState, nat)>, kind: (nat, nat) -> ChunkKind, b: nat) {
    && b < |query| && ToScan(query[b]) && (forall j | 0 <= j < |query| && ToScan(query[j]) :: query[j].1 <= query[b].1)
    && BlankBlock(n, kind, b) && FreeTail(n, kind, b)
  }

  predicate GoodSequence(q: nat) {
    LOWEST_SEQUENCE_NUMBER <= q < HIGHEST_SEQUENCE_NUMBER
  }

  /** Blocks that hold something differ in their sequence numbers. */
  ghost predicate DistinctSeqs(bs: seq<BlockInfo>) {
    forall i, j | 0 <= i < j < |bs| && Holding(bs[i]) && Holding(bs[j]) :: bs[i].sequenceNumber != bs[j].sequenceNumber
  }

  predicate Holding(b: BlockInfo) {
    Written(b.state) || (b.state == NeedsScanning && GoodSequence(b.sequenceNumber))
  }

  lemma {:induction false} NothingCounted(n: nat, bs: seq<BlockInfo>)
    requires forall i | 0 <= i < |bs| :: bs[i].state == Unknown
    ensures FreeChunks(n, bs) == 0 && BlocksIn(bs, Empty) == 0
  {
    if bs != [] {
      NothingCounted(n, bs[..|bs| - 1]);
    }
  }

  lemma Unscanned(y2: bool, n: nat, bs: seq<BlockInfo>, used: seq<set<nat>>, soft: seq<set<nat>>)
    requires |used| == |soft| == |bs| && forall i | 0 <= i < |bs| ::
        bs[i] == BlockInfo(Unknown, 0, 0, 0, false, false) && used[i] == {} && soft[i] == {}
    ensures PagesOk(n, bs, used, soft) && Counts(n, bs, 0, 0, 0) && SeqOk(y2, bs, 0, -1) && AllocOk(n, used, -1, 0)
        && OldestOk(n, bs, 0)
  {
    NothingCounted(n, bs);
  }

  /** What happens to the blocks other than blk: those of a checkpoint may be erased, or die. */
  predicate OthersKept(bs: seq<BlockInfo>, bs': seq<BlockInfo>, blk: int) {
    |bs'| == |bs| && forall j | 0 <= j < |bs| && j != blk ::
        bs'[j] == bs[j] || (bs[j].state == CheckpointBlock && (bs'[j].state == Empty || bs'[j].state == Dead))
  }

  /** The device: blockInfo and chunkBits with all that is counted beside them. Block numbers count
      from 0 here, and -1 stands for none. */
  class Accounts {
    const isYaffs2: bool
    const n: nat
    const nReservedBlocks: nat
    /** What the driver answers when a block, filled under some sequence number, is to be erased. */
    const erases: (nat, nat) -> bool
    const bitmap: ChunkBitmap
    var blocks: seq<BlockInfo>
    /** The pages in use of each block, as the bitmap has them. */
    ghost var used: seq<set<nat>>
    /** The pages that hold data of soft-deleted files. */
    var soft: seq<set<nat>>
    var nFreeChunks: int
    var nErasedBlocks: int
    var sequenceNumber: nat
    var allocationBlock: int
    var allocationPage: nat
    var allocationBlockFinder: int
    var oldestDirtySequence: nat
    var oldestDirtyBlock: int
    var gcBlock: int
    var gcChunk: nat
    var gcDirtiest: int
    var nCleanups: nat
    var blocksInCheckpoint: nat
    var isCheckpointed: bool
    const refreshPeriod: nat
    var refreshSkip: nat

    ghost predicate Shape()
      reads this, bitmap, bitmap.chunkBits
    {
      && n > 0 && bitmap.Valid() && bitmap.chunksPerBlock == n && bitmap.nBlocks == |blocks|
      && PagesOk(n, blocks, used, soft)
      && forall i: nat | i < |blocks| :: used[i] == bitmap.Used(i)
    }

    /** slack is what nFreeChunks holds for a block that is between states. */
    ghost predicate Inv(slack: int)
      reads this, bitmap, bitmap.chunkBits
    {
      && Shape()
      && Counts(n, blocks, nFreeChunks, nErasedBlocks, slack)
      && SeqOk(isYaffs2, blocks, sequenceNumber, allocationBlock)
      && AllocOk(n, used, allocationBlock, allocationPage)
      && OldestOk(n, blocks, oldestDirtySequence) && (!isYaffs2 ==> oldestDirtySequence == 0)
    }

    /** The tables of a device that has not been scanned yet. */
    constructor (isYaffs2: bool, nBlocks: nat, n: nat, nReservedBlocks: nat, refreshPeriod: nat,
            erases: (nat, nat) -> bool)
      requires n > 0
      ensures Inv(0) && |blocks| == nBlocks && fresh(bitmap) && fresh(bitmap.chunkBits) && this.n == n
      ensures this.isYaffs2 == isYaffs2 && this.erases == erases && oldestDirtySequence == 0
      ensures forall i | 0 <= i < nBlocks :: blocks[i].state == Unknown
    {
      hide PagesOk, Counts, SeqOk, OldestOk, AllocOk, ChunkBitmap.Valid;
      this.isYaffs2, this.n, this.nReservedBlocks, this.refreshPeriod, refreshSkip := isYaffs2, n, nReservedBlocks,
          refreshPeriod, refreshPeriod;
      this.erases := erases;
      bitmap := new ChunkBitmap(nBlocks, n);
      blocks := seq(nBlocks, i => BlockInfo(Unknown, 0, 0, 0, false, false));
      used := seq(nBlocks, i => {});
      soft := seq(nBlocks, i => {});
      nFreeChunks, nErasedBlocks, sequenceNumber := 0, 0, 0;
      allocationBlock, allocationPage, allocationBlockFinder := -1, 0, 0;
      oldestDirtySequence, oldestDirtyBlock := 0, -1;
      gcBlock, gcChunk, gcDirtiest, nCleanups := -1, 0, -1, 0;
      blocksInCheckpoint, isCheckpointed := 0, false;
      new;
      Unscanned(isYaffs2, n, blocks, used, soft);
    }

    ghost predicate NoneCollecting()
      reads this
    {
      forall i | 0 <= i < |blocks| :: blocks[i].state != Collecting
    }

    /** What the counters are checked against. */
    method CountFreeChunks() returns (nFree: int)
      ensures nFree == FreeChunks(n, blocks)
      ensures Inv(0) ==> nFree == nFreeChunks
    {
      hide Inv;
      nFree := 0;
      var b := 0;
      while b < |blocks|
        invariant 0 <= b <= |blocks| && nFree == FreeChunks(n, blocks[..b])
      {
        assert blocks[..b + 1][..b] == blocks[..b];
        if Counted(blocks[b].state) {
          nFree := nFree + (n - blocks[b].pagesInUse + blocks[b].softDeletions);
        }
        b := b + 1;
      }
      assert blocks[..b] == blocks;
      if Inv(0) {
        InvParts(0);
      }
    }

    /** Take the erased block that comes next after the last one taken, going round. */
    method FindBlockForAllocation() returns (blk: int)
      requires nErasedBlocks == BlocksIn(blocks, Empty)
      modifies `blocks, `sequenceNumber, `nErasedBlocks, `allocationBlockFinder
      ensures -1 <= blk < |blocks| && |blocks| == |old(blocks)|
      ensures blk < 0 <==> old(nErasedBlocks) == 0
      ensures blk < 0 ==> blocks == old(blocks) && sequenceNumber == old(sequenceNumber) && nErasedBlocks == old(nErasedBlocks)
      ensures blk >= 0 ==> old(blocks)[blk].state == Empty && sequenceNumber == old(sequenceNumber) + 1 && nErasedBlocks == old(nErasedBlocks) - 1
      ensures blk >= 0 ==> blocks == old(blocks)[blk := old(blocks)[blk].(state := Allocating,
          sequenceNumber := sequenceNumber)]
    {
      if nErasedBlocks < 1 {
        return -1;
      }
      SomeIn(blocks, Empty);
      var i := 0;
      ghost var first := 0;
      while i < |blocks|
        invariant 0 <= i <= |blocks| && blocks == old(blocks) && sequenceNumber == old(sequenceNumber)
            && nErasedBlocks == old(nErasedBlocks)
        invariant i > 0 ==> 0 <= first < |blocks| && (allocationBlockFinder == first + i - 1 < |blocks| || 0 <= allocationBlockFinder == first + i - 1 - |blocks|)
        invariant i > 0 && first <= allocationBlockFinder ==> forall b | first <= b <= allocationBlockFinder ::
            blocks[b].state != Empty
        invariant i > 0 && allocationBlockFinder < first ==>
            forall b | first <= b < |blocks| || 0 <= b <= allocationBlockFinder :: blocks[b].state != Empty
      {
        allocationBlockFinder := allocationBlockFinder + 1;
        if allocationBlockFinder < 0 || allocationBlockFinder >= |blocks| {
          allocationBlockFinder := 0;
        }
        if i == 0 {
          first := allocationBlockFinder;
        }
        blk := allocationBlockFinder;
        if blocks[blk].state == Empty {
          sequenceNumber := sequenceNumber + 1;
          blocks := blocks[blk := blocks[blk].(state := Allocating, sequenceNumber := sequenceNumber)];
          nErasedBlocks := nErasedBlocks - 1;
          return;
        }
        i := i + 1;
      }
      assert false;
      return -1;
    }

    /** Is there room for nChunks, beyond the reserve and what a checkpoint would need? */
    method CheckSpaceForAllocation(nChunks: nat, checkpointBlocks: nat) returns (ok: bool)
      ensures ok <==> nFreeChunks > (nReservedBlocks + checkpointBlocks) * n + nChunks
    {
      var reservedChunks := (nReservedBlocks + checkpointBlocks) * n;
      ok := nFreeChunks > reservedChunks + nChunks;
    }

    static lemma AllocatedBlock(y2: bool, n: nat, bs: seq<BlockInfo>, used: seq<set<nat>>, soft: seq<set<nat>>,
            blk: nat, q: nat, nFree: int, nErased: int, slack: int, oldest: nat)
      requires blk < |bs| && bs[blk].state == Empty && PagesOk(n, bs, used, soft) && SeqOk(y2, bs, q, -1)
      requires Counts(n, bs, nFree, nErased, slack) && OldestOk(n, bs, oldest)
      ensures var bs' := bs[blk := bs[blk].(state := Allocating, sequenceNumber := q + 1)];
              && PagesOk(n, bs', used, soft) && SeqOk(y2, bs', q + 1, blk) && Counts(n, bs', nFree, nErased - 1, slack)
                  && OldestOk(n, bs', oldest)
              && used[blk] == {}
    {
      var b := bs[blk].(state := Allocating, sequenceNumber := q + 1);
      assert PageOk(n, bs[blk], used[blk], soft[blk]);
      CountsSet(n, bs, blk, b, nFree, nErased, slack, nFree, slack);
      OldestSame(n, bs, blk, b, oldest);
    }

    static lemma AllocatedPage(y2: bool, n: nat, bs: seq<BlockInfo>, used: seq<set<nat>>, soft: seq<set<nat>>, blk: nat,
            page: nat, q: nat, nFree: int, nErased: int, slack: int, oldest: nat)
      requires oldest != 0 ==> y2
      requires blk < |bs| && n > 0 && PagesOk(n, bs, used, soft) && SeqOk(y2, bs, q, blk) && AllocOk(n, used, blk, page)
      requires Counts(n, bs, nFree, nErased, slack) && OldestOk(n, bs, oldest)
      ensures page !in used[blk] && page < n
      ensures var full := page + 1 >= n;
              var bs' := bs[blk := bs[blk].(pagesInUse := bs[blk].pagesInUse + 1, state := if full then Full
                  else Allocating)];
              var used' := used[blk := used[blk] + {page}];
              && PagesOk(n, bs', used', soft) && SeqOk(y2, bs', q, if full then -1 else blk)
                  && Counts(n, bs', nFree - 1, nErased, slack)
              && OldestOk(n, bs', oldest) && AllocOk(n, used', if full then -1 else blk, page + 1)
    {
      hide SeqOk, OldestOk, Counts, Discarded;
      var full := page + 1 >= n;
      var b := bs[blk].(pagesInUse := bs[blk].pagesInUse + 1, state := if full then Full else Allocating);
      SeqFilled(y2, bs, blk, b, q);
      assert PageOk(n, bs[blk], used[blk], soft[blk]);
      UsedSize(n, used[blk] + {page});
      CountsSet(n, bs, blk, b, nFree, nErased, slack, nFree - 1, slack);
      OldestNewer(y2, n, bs, blk, b, q, oldest);
    }

    static lemma SeqFilled(y2: bool, bs: seq<BlockInfo>, blk: nat, b: BlockInfo, q: nat)
      requires blk < |bs| && SeqOk(y2, bs, q, blk) && b.sequenceNumber == bs[blk].sequenceNumber
          && b.state in {Full, Allocating}
      ensures bs[blk].state == Allocating && SeqOk(y2, bs[blk := b], q, if b.state == Full then -1 else blk)
    {
    }

    /** The block with the newest sequence number becomes full: it is not the oldest dirty one unless
        there was none. */
    static lemma OldestNewer(y2: bool, n: nat, bs: seq<BlockInfo>, i: nat, b: BlockInfo, q: nat, oldest: nat)
      requires oldest != 0 ==> y2
      requires i < |bs| && SeqOk(y2, bs, q, i) && OldestOk(n, bs, oldest) && b.sequenceNumber == bs[i].sequenceNumber
      ensures OldestOk(n, bs[i := b], oldest)
    {
      if oldest != 0 {
        var j :| 0 <= j < |bs| && Discarded(n, bs[j]) && bs[j].sequenceNumber == oldest;
        var bs' := bs[i := b];
        assert j != i && bs'[j] == bs[j];
      }
    }

    /** Nothing but the listed fields has changed. */
    twostate predicate SameElsewhere()
      reads this
    {
      && gcBlock == old(gcBlock) && gcChunk == old(gcChunk) && nCleanups == old(nCleanups)
          && gcDirtiest == old(gcDirtiest)
      && oldestDirtySequence == old(oldestDirtySequence) && blocksInCheckpoint == old(blocksInCheckpoint)
          && isCheckpointed == old(isCheckpointed)
    }

    /** Get the next block to take chunks from, if there is one. */
    method NextBlock()
      requires Inv(0) && allocationBlock == -1
      modifies `blocks, `sequenceNumber, `nErasedBlocks, `allocationBlockFinder, `allocationBlock, `allocationPage
      ensures Inv(0) && |blocks| == |old(blocks)| && -1 <= allocationBlock < |blocks|
      ensures allocationBlock < 0 <==> old(nErasedBlocks) == 0
      ensures allocationBlock < 0 ==>
          blocks == old(blocks) && nErasedBlocks == old(nErasedBlocks) && sequenceNumber == old(sequenceNumber)
      ensures allocationBlock >= 0 ==>
          old(blocks)[allocationBlock].state == Empty && sequenceNumber == old(sequenceNumber) + 1
      ensures allocationBlock >= 0 ==>
          blocks == old(blocks)[allocationBlock := old(blocks)[allocationBlock].(state := Allocating,
          sequenceNumber := sequenceNumber)]
    {
      hide PagesOk, Counts, SeqOk, OldestOk, ChunkBitmap.Valid, ChunkBitmap.Used;
      ghost var bs, q, e := blocks, sequenceNumber, nErasedBlocks;
      CountsErased(n, blocks, nFreeChunks, nErasedBlocks, 0);
      allocationBlock := FindBlockForAllocation();
      if allocationBlock >= 0 {
        AllocatedBlock(isYaffs2, n, bs, used, soft, allocationBlock, q, nFreeChunks, e, 0, oldestDirtySequence);
      }
      allocationPage := 0;
    }

    /** Give out the next page of the block that chunks are taken from, whatever state it is in. */
    method NextPage() returns (page: nat)
      requires bitmap.Valid() && bitmap.nBlocks == |blocks| == |used| && bitmap.chunksPerBlock == n
      requires forall i: nat | i < |blocks| :: used[i] == bitmap.Used(i)
      requires 0 <= allocationBlock < |blocks| && allocationPage < n
      modifies `blocks, `used, `nFreeChunks, `allocationBlock, `allocationPage, bitmap.chunkBits
      ensures page == old(allocationPage) && allocationPage == page + 1 && nFreeChunks == old(nFreeChunks) - 1
      ensures bitmap.Valid() && used == old(used)[old(allocationBlock) := old(used)[old(allocationBlock)] + {page}]
      ensures forall i: nat | i < |used| :: used[i] == bitmap.Used(i)
      ensures var bi := old(blocks)[old(allocationBlock)];
              blocks == old(blocks)[old(allocationBlock) := bi.(pagesInUse := bi.pagesInUse + 1,
                  state := if page + 1 >= n then Full else bi.state)]
      ensures allocationBlock == if page + 1 >= n then -1 else old(allocationBlock)
    {
      hide ChunkBitmap.Valid, ChunkBitmap.Used;
      var blk := allocationBlock;
      page := allocationPage;
      bitmap.SetChunkBit(blk, page);
      used := used[blk := used[blk] + {page}];
      allocationPage := allocationPage + 1;
      nFreeChunks := nFreeChunks - 1;
      blocks := blocks[blk := blocks[blk].(pagesInUse := blocks[blk].pagesInUse + 1)];
      if allocationPage >= n {
        blocks := blocks[blk := blocks[blk].(state := Full)];
        allocationBlock := -1;
      }
    }

    /** Take the next page of the block that chunks are taken from. */
    method TakePage() returns (page: nat)
      requires Inv(0) && 0 <= allocationBlock < |blocks|
      modifies `blocks, `used, `nFreeChunks, `allocationBlock, `allocationPage, bitmap.chunkBits
      ensures Inv(0) && |blocks| == |old(blocks)| && |used| == |blocks|
      ensures page !in old(used)[old(allocationBlock)] && nFreeChunks == old(nFreeChunks) - 1
      ensures used == old(used)[old(allocationBlock) := old(used)[old(allocationBlock)] + {page}]
      ensures blocks[old(allocationBlock)].state in {Allocating, Full}
          && old(blocks)[old(allocationBlock)].state == Allocating
      ensures forall j | 0 <= j < |blocks| && j != old(allocationBlock) :: blocks[j] == old(blocks)[j]
      ensures SameOrigin(old(blocks)[old(allocationBlock)], blocks[old(allocationBlock)])
    {
      hide PagesOk, Counts, SeqOk, OldestOk, AllocOk, ChunkBitmap.Valid, ChunkBitmap.Used;
      SeqFacts(isYaffs2, blocks, sequenceNumber, allocationBlock);
      PagesSizes(n, blocks, used, soft);
      AllocatedPage(isYaffs2, n, blocks, used, soft, allocationBlock, allocationPage, sequenceNumber, nFreeChunks,
          nErasedBlocks, 0, oldestDirtySequence);
      page := NextPage();
    }

    /** The block is as it was, or has been filled further, or taken into use with a number above q. */
    static predicate Filled(b: BlockInfo, b': BlockInfo, q: nat) {
      || b' == b
      || (b.state == Allocating && b'.state in {Allocating, Full} && b'.sequenceNumber == b.sequenceNumber)
      || (b.state == Empty && b'.state in {Allocating, Full} && b'.sequenceNumber > q)
    }

    /** Take the next free chunk. It was not in use; unless the reserve may be used, none is given when
        space is short. */
    method AllocateChunk(useReserve: bool, checkpointBlocks: nat) returns (blk: int, page: nat)
      requires Inv(0)
      modifies this, bitmap.chunkBits
      ensures Inv(0) && |blocks| == |old(blocks)| && -1 <= blk < |blocks| && |used| == |old(used)| == |blocks|
          && SameElsewhere()
      ensures blk >= 0 ==> old(blocks)[blk].state in {Empty, Allocating}
      ensures blk >= 0 ==> page !in old(used)[blk] && used == old(used)[blk := old(used)[blk] + {page}] && soft == old(soft) && nFreeChunks == old(nFreeChunks) - 1
      ensures blk < 0 ==> used == old(used) && soft == old(soft) && nFreeChunks == old(nFreeChunks)
      ensures blk < 0 <==> (old(allocationBlock) < 0 && old(nErasedBlocks) == 0) || (!useReserve && old(nFreeChunks) <= (nReservedBlocks + checkpointBlocks) * n + 1)
      ensures blk < 0 && useReserve ==> allocationBlock < 0 && nErasedBlocks == 0
      ensures sequenceNumber >= old(sequenceNumber)
      ensures forall j | 0 <= j < |blocks| :: Filled(old(blocks)[j], blocks[j], old(sequenceNumber))
    {
      hide PagesOk, Counts, SeqOk, OldestOk, AllocOk;
      SeqFacts(isYaffs2, blocks, sequenceNumber, allocationBlock);
      PagesSizes(n, blocks, used, soft);
      if allocationBlock < 0 {
        NextBlock();
      }
      var ok := true;
      if !useReserve {
        ok := CheckSpaceForAllocation(1, checkpointBlocks);
      }
      if !ok || allocationBlock < 0 {
        return -1, 0;
      }
      blk := allocationBlock;
      page := TakePage();
    }

    static lemma CountsErased(n: nat, bs: seq<BlockInfo>, nFree: int, nErased: int, slack: int)
      requires Counts(n, bs, nFree, nErased, slack)
      ensures nErased == BlocksIn(bs, Empty)
    {
    }

    static lemma SeqFacts(y2: bool, bs: seq<BlockInfo>, q: nat, alloc: int)
      requires SeqOk(y2, bs, q, alloc)
      ensures -1 <= alloc < |bs| && (forall i | 0 <= i < |bs| :: bs[i].state == Allocating <==> i == alloc)
          && (alloc >= 0 ==> bs[alloc].state == Allocating)
    {
    }

    static lemma PagesSizes(n: nat, bs: seq<BlockInfo>, used: seq<set<nat>>, soft: seq<set<nat>>)
      requires PagesOk(n, bs, used, soft)
      ensures |used| == |bs| && |soft| == |bs|
    {
    }

    /** One block changes, and its pages do not. */
    static lemma StateChange(n: nat, bs: seq<BlockInfo>, used: seq<set<nat>>, soft: seq<set<nat>>, i: nat, b: BlockInfo,
            nFree: int, nErased: int, slack: int, nFree': int, slack': int)
      requires i < |bs| && PagesOk(n, bs, used, soft) && Counts(n, bs, nFree, nErased, slack)
          && PageOk(n, b, used[i], soft[i])
      requires nFree' - slack' == nFree - slack - FreeIn(n, bs[i]) + FreeIn(n, b)
      ensures PagesOk(n, bs[i := b], used, soft)
          && Counts(n, bs[i := b], nFree', nErased - InState(bs[i], Empty) + InState(b, Empty), slack')
    {
      hide PageOk;
      CountsSet(n, bs, i, b, nFree, nErased, slack, nFree', slack');
    }

    /** The rest of the block is not going to be written; a block that is not being filled is left as it is. */
    method SkipRestOfBlock()
      requires -1 <= allocationBlock < |blocks|
      modifies `blocks, `allocationBlock
      ensures old(Inv(0)) ==> Inv(0) && allocationBlock == -1
      ensures if 0 <= old(allocationBlock) && old(blocks)[old(allocationBlock)].state == Allocating
              then allocationBlock == -1 && blocks
                  == old(blocks)[old(allocationBlock) := old(blocks)[old(allocationBlock)].(state := Full)]
              else allocationBlock == old(allocationBlock) && blocks == old(blocks)
    {
      hide PagesOk, Counts, SeqOk, OldestOk, AllocOk, ChunkBitmap.Valid, ChunkBitmap.Used;
      ghost var inv := Inv(0);
      if inv {
        SeqFacts(isYaffs2, blocks, sequenceNumber, allocationBlock);
      }
      if allocationBlock >= 0 {
        var bi := blocks[allocationBlock];
        if bi.state == Allocating {
          if inv {
            SkippedBlock(isYaffs2, n, blocks, used, soft, allocationBlock, sequenceNumber, nFreeChunks, nErasedBlocks,
                0, oldestDirtySequence, allocationPage);
          }
          blocks := blocks[allocationBlock := bi.(state := Full)];
          allocationBlock := -1;
        }
      }
    }

    static lemma SkippedBlock(y2: bool, n: nat, bs: seq<BlockInfo>, used: seq<set<nat>>, soft: seq<set<nat>>, blk: nat,
            q: nat, nFree: int, nErased: int, slack: int, oldest: nat, page: nat)
      requires oldest != 0 ==> y2
      requires blk < |bs| && PagesOk(n, bs, used, soft) && SeqOk(y2, bs, q, blk) && Counts(n, bs, nFree, nErased, slack)
          && OldestOk(n, bs, oldest)
      ensures var bs' := bs[blk := bs[blk].(state := Full)];
              && PagesOk(n, bs', used, soft) && SeqOk(y2, bs', q, -1) && Counts(n, bs', nFree, nErased, slack)
                  && OldestOk(n, bs', oldest) && AllocOk(n, used, -1, page)
    {
      var b := bs[blk].(state := Full);
      assert PageOk(n, bs[blk], used[blk], soft[blk]);
      StateChange(n, bs, used, soft, blk, b, nFree, nErased, slack, nFree, slack);
      OldestNewer(y2, n, bs, blk, b, q, oldest);
    }

    /** Erase the blocks of the checkpoint. A block that cannot be erased is marked bad. */
    method CheckpointErase(ghost slack: int)
      requires Inv(slack)
      modifies `blocks, `nErasedBlocks, `nFreeChunks, `blocksInCheckpoint
      ensures Inv(slack) && blocksInCheckpoint == 0
      ensures OthersKept(old(blocks), blocks, -1) && forall i | 0 <= i < |blocks|
          && old(blocks)[i].state == CheckpointBlock ::
          blocks[i] == old(blocks)[i].(state := if erases(i, old(blocks)[i].sequenceNumber) then Empty else Dead)
    {
      hide PagesOk, Counts, SeqOk, OldestOk, AllocOk, ChunkBitmap.Valid, ChunkBitmap.Used;
      var i := 0;
      while i < |blocks|
        invariant 0 <= i <= |blocks| && Inv(slack) && OthersKept(old(blocks), blocks, -1)
        invariant forall j | 0 <= j < i && old(blocks)[j].state == CheckpointBlock ::
            blocks[j] == old(blocks)[j].(state := if erases(j, old(blocks)[j].sequenceNumber) then Empty else Dead)
        invariant forall j | i <= j < |blocks| :: blocks[j] == old(blocks)[j]
      {
        var bi := blocks[i];
        if bi.state == CheckpointBlock {
          var erased := erases(i, bi.sequenceNumber);
          ErasedCheckpoint(isYaffs2, n, blocks, used, soft, i, sequenceNumber, allocationBlock, nFreeChunks,
              nErasedBlocks, slack, oldestDirtySequence, erased);
          if erased {
            blocks := blocks[i := bi.(state := Empty)];
            nErasedBlocks := nErasedBlocks + 1;
            nFreeChunks := nFreeChunks + n;
          } else {
            blocks := blocks[i := bi.(state := Dead)];
          }
        }
        i := i + 1;
      }
      blocksInCheckpoint := 0;
    }

    static lemma ErasedCheckpoint(y2: bool, n: nat, bs: seq<BlockInfo>, used: seq<set<nat>>, soft: seq<set<nat>>,
            i: nat, q: nat, alloc: int, nFree: int, nErased: int, slack: int, oldest: nat, erased: bool)
      requires i < |bs| && bs[i].state == CheckpointBlock && PagesOk(n, bs, used, soft) && SeqOk(y2, bs, q, alloc)
      requires Counts(n, bs, nFree, nErased, slack) && OldestOk(n, bs, oldest)
      ensures var bs' := bs[i := bs[i].(state := if erased then Empty else Dead)];
              && PagesOk(n, bs', used, soft) && SeqOk(y2, bs', q, alloc) && OldestOk(n, bs', oldest)
              && Counts(n, bs', if erased then nFree + n else nFree, if erased then nErased + 1 else nErased, slack)
    {
      var b := bs[i].(state := if erased then Empty else Dead);
      assert PageOk(n, bs[i], used[i], soft[i]);
      assert |used[i]| == 0 && soft[i] == {};
      StateChange(n, bs, used, soft, i, b, nFree, nErased, slack, if erased then nFree + n else nFree, slack);
      OldestSame(n, bs, i, b, oldest);
    }

    method InvalidateCheckpoint(ghost slack: int)
      requires Inv(slack)
      modifies `blocks, `nErasedBlocks, `nFreeChunks, `blocksInCheckpoint, `isCheckpointed
      ensures Inv(slack) && OthersKept(old(blocks), blocks, -1) && !isCheckpointed && blocksInCheckpoint == 0
      ensures !old(isCheckpointed) && old(blocksInCheckpoint) == 0 ==> blocks == old(blocks)
      ensures old(isCheckpointed) || old(blocksInCheckpoint) > 0 ==>
          forall i | 0 <= i < |blocks| && old(blocks)[i].state == CheckpointBlock ::
            blocks[i] == old(blocks)[i].(state := if erases(i, old(blocks)[i].sequenceNumber) then Empty else Dead)
    {
      if isCheckpointed || blocksInCheckpoint > 0 {
        isCheckpointed := false;
        CheckpointErase(slack);
      }
    }

    /** Called when a block's sequence number goes out of use. */
    method ClearOldestDirtySequence(blk: nat)
      requires blk < |blocks| && OldestOk(n, blocks, oldestDirtySequence)
      modifies `oldestDirtySequence, `oldestDirtyBlock
      ensures OldestOk(n, blocks, oldestDirtySequence)
          && (oldestDirtySequence != 0 ==> oldestDirtySequence != blocks[blk].sequenceNumber)
      ensures oldestDirtySequence == old(oldestDirtySequence) || oldestDirtySequence == 0
    {
      if blocks[blk].sequenceNumber == oldestDirtySequence {
        oldestDirtySequence := 0;
        oldestDirtyBlock := -1;
      }
    }

    /** Called just before a page of the block is discarded. The number remembered was that of the oldest
        block with discarded pages; it will be so again once the block has its discarded page. */
    method UpdateOldestDirtySequence(blk: nat)
      requires blk < |blocks|
      modifies `oldestDirtySequence, `oldestDirtyBlock
      ensures old(oldestDirtySequence) == 0 ==> oldestDirtySequence == 0
      ensures old(oldestDirtySequence) != 0 ==>
                && oldestDirtySequence <= old(oldestDirtySequence) && oldestDirtySequence <= blocks[blk].sequenceNumber
                && oldestDirtySequence in {old(oldestDirtySequence), blocks[blk].sequenceNumber}
      ensures OldestOk(n, blocks, old(oldestDirtySequence)) ==>
                forall b: BlockInfo | Discarded(n, b) && b.sequenceNumber == blocks[blk].sequenceNumber ::
                  OldestOk(n, blocks[blk := b], oldestDirtySequence)
    {
      if OldestOk(n, blocks, oldestDirtySequence) {
        forall b: BlockInfo | Discarded(n, b) && b.sequenceNumber == blocks[blk].sequenceNumber
          ensures OldestOk(n, blocks[blk := b], LoweredTo(oldestDirtySequence, b.sequenceNumber))
        {
          OldestWith(n, blocks, blk, b, oldestDirtySequence, LoweredTo(oldestDirtySequence, b.sequenceNumber));
        }
      }
      if oldestDirtySequence != 0 {
        if oldestDirtySequence > blocks[blk].sequenceNumber {
          oldestDirtySequence := blocks[blk].sequenceNumber;
          oldestDirtyBlock := blk;
        }
      }
    }

    static lemma BecomesDirty(y2: bool, n: nat, bs: seq<BlockInfo>, used: seq<set<nat>>, soft: seq<set<nat>>, i: nat,
            q: nat, alloc: int, nFree: int, nErased: int, slack: int, oldest: nat)
      requires i < |bs| && (bs[i].state == Full || bs[i].state == Collecting) && PagesOk(n, bs, used, soft)
          && SeqOk(y2, bs, q, alloc)
      requires Counts(n, bs, nFree, nErased, slack) && OldestOk(n, bs, oldest) && used[i] == {}
          && !bs[i].hasShrinkHeader
      requires oldest != 0 ==> oldest != bs[i].sequenceNumber
      ensures var bs' := bs[i := bs[i].(state := Dirty)];
              && PagesOk(n, bs', used, soft) && SeqOk(y2, bs', q, alloc) && OldestOk(n, bs', oldest)
                  && Counts(n, bs', nFree, nErased, slack + n)
    {
      var b := bs[i].(state := Dirty);
      assert PageOk(n, bs[i], used[i], soft[i]);
      assert soft[i] == {};
      StateChange(n, bs, used, soft, i, b, nFree, nErased, slack, nFree, slack + n);
      OldestWithout(n, bs, i, b, oldest);
    }

    static lemma DirtyDone(y2: bool, n: nat, bs: seq<BlockInfo>, used: seq<set<nat>>, soft: seq<set<nat>>, i: nat,
            b: BlockInfo, q: nat, alloc: int, nFree: int, nErased: int, slack: int, oldest: nat)
      requires i < |bs| && bs[i].state == Dirty && PagesOk(n, bs, used, soft) && SeqOk(y2, bs, q, alloc)
      requires Counts(n, bs, nFree, nErased, slack + n) && OldestOk(n, bs, oldest)
      requires (b.state == Empty || b.state == Dead) && b.pagesInUse == 0 && b.softDeletions == 0 && !b.hasShrinkHeader
      ensures var bs' := bs[i := b];
              && PagesOk(n, bs', used, soft) && SeqOk(y2, bs', q, alloc) && OldestOk(n, bs', oldest) && used[i] == {}
              && Counts(n, bs', if b.state == Empty then nFree else nFree - n, nErased + InState(b, Empty), slack)
    {
      assert PageOk(n, bs[i], used[i], soft[i]);
      StateChange(n, bs, used, soft, i, b, nFree, nErased, slack + n, if b.state == Empty then nFree
          else nFree - n, slack);
      OldestSame(n, bs, i, b, oldest);
    }

    /** The block is about to be erased: it is no candidate for collection any more. */
    method MarkDirty(blk: nat, ghost slack: int)
      requires Inv(slack) && blk < |blocks| && (blocks[blk].state == Full || blocks[blk].state == Collecting)
      requires |used| == |blocks| && used[blk] == {} && !blocks[blk].hasShrinkHeader
      modifies `blocks, `oldestDirtySequence, `oldestDirtyBlock, `gcBlock, `gcDirtiest
      ensures Inv(slack + n) && blocks == old(blocks)[blk := old(blocks)[blk].(state := Dirty)]
      ensures gcBlock == if old(gcBlock) == blk then -1 else old(gcBlock)
      ensures oldestDirtySequence == old(oldestDirtySequence) || oldestDirtySequence == 0
    {
      hide PagesOk, Counts, SeqOk, OldestOk, AllocOk, ChunkBitmap.Valid, ChunkBitmap.Used;
      ClearOldestDirtySequence(blk);
      BecomesDirty(isYaffs2, n, blocks, used, soft, blk, sequenceNumber, allocationBlock, nFreeChunks, nErasedBlocks,
          slack, oldestDirtySequence);
      blocks := blocks[blk := blocks[blk].(state := Dirty)];
      if blk == gcBlock {
        gcBlock := -1;
      }
      if blk == gcDirtiest {
        gcDirtiest := -1;
      }
    }

    /** The erasure succeeded. */
    method CleanUp(blk: nat, ghost slack: int)
      requires Inv(slack + n) && blk < |blocks| && blocks[blk].state == Dirty && |used| == |blocks|
      modifies `blocks, `nErasedBlocks, bitmap.chunkBits
      ensures Inv(slack) && |blocks| == |old(blocks)| && nErasedBlocks == old(nErasedBlocks) + 1
      ensures blocks == old(blocks)[blk := BlockInfo(Empty, 0, 0, 0, false, old(blocks)[blk].needsRetiring)]
    {
      hide PagesOk, Counts, SeqOk, OldestOk, AllocOk, ChunkBitmap.Valid, ChunkBitmap.Used;
      var b := blocks[blk].(state := Empty, sequenceNumber := 0, pagesInUse := 0, softDeletions := 0,
          hasShrinkHeader := false);
      DirtyDone(isYaffs2, n, blocks, used, soft, blk, b, sequenceNumber, allocationBlock, nFreeChunks, nErasedBlocks,
          slack, oldestDirtySequence);
      blocks := blocks[blk := b];
      nErasedBlocks := nErasedBlocks + 1;
      bitmap.ClearChunkBits(blk);
    }

    /** The block is bad: its space is lost. */
    method RetireBlock(blk: nat, ghost slack: int)
      requires Inv(slack + n) && blk < |blocks| && blocks[blk].state == Dirty
      modifies `blocks, `nErasedBlocks, `nFreeChunks, `blocksInCheckpoint, `isCheckpointed
      ensures Inv(slack) && OthersKept(old(blocks), blocks, blk) && blocks[blk].state == Dead
          && !blocks[blk].needsRetiring
    {
      hide PagesOk, Counts, SeqOk, OldestOk, AllocOk, ChunkBitmap.Valid, ChunkBitmap.Used;
      InvalidateCheckpoint(slack + n);
      DirtyBlank(n, blocks, used, soft, blk);
      var b := blocks[blk].(state := Dead, needsRetiring := false);
      DirtyDone(isYaffs2, n, blocks, used, soft, blk, b, sequenceNumber, allocationBlock, nFreeChunks, nErasedBlocks,
          slack, oldestDirtySequence);
      nFreeChunks := nFreeChunks - n;
      blocks := blocks[blk := b];
    }

    /** No page of the block is in use any more: it is erased. If it has failed before, or the driver cannot
        erase it, it is retired, and its space is lost. */
    method BlockBecameDirty(blk: nat, ghost slack: int)
      requires Inv(slack) && blk < |blocks| && (blocks[blk].state == Full || blocks[blk].state == Collecting)
      requires |used| == |blocks| && used[blk] == {} && !blocks[blk].hasShrinkHeader
      modifies this, bitmap.chunkBits
      ensures Inv(slack) && |blocks| == |old(blocks)| && OthersKept(old(blocks), blocks, blk) && used == old(used)
          && soft == old(soft)
      ensures blocks[blk].state
          == if !old(blocks)[blk].needsRetiring && erases(blk, old(blocks)[blk].sequenceNumber) then Empty else Dead
      ensures !blocks[blk].needsRetiring
      ensures gcChunk == old(gcChunk) && nCleanups == old(nCleanups) && gcBlock == if old(gcBlock) == blk then -1
          else old(gcBlock)
      ensures oldestDirtySequence == old(oldestDirtySequence) || oldestDirtySequence == 0
      ensures allocationBlock == old(allocationBlock) && allocationPage == old(allocationPage)
          && sequenceNumber == old(sequenceNumber)
    {
      hide PagesOk, Counts, SeqOk, OldestOk, AllocOk, ChunkBitmap.Valid, ChunkBitmap.Used;
      MarkDirty(blk, slack);
      var erasedOk := false;
      if !blocks[blk].needsRetiring {
        InvalidateCheckpoint(slack + n);
        erasedOk := erases(blk, blocks[blk].sequenceNumber);
      }
      if erasedOk {
        CleanUp(blk, slack);
      } else {
        RetireBlock(blk, slack);
      }
    }

    static lemma DirtyBlank(n: nat, bs: seq<BlockInfo>, used: seq<set<nat>>, soft: seq<set<nat>>, i: nat)
      requires i < |bs| && bs[i].state == Dirty && PagesOk(n, bs, used, soft)
      ensures bs[i].pagesInUse == 0 && bs[i].softDeletions == 0 && !bs[i].hasShrinkHeader && |used| == |bs|
          && used[i] == {}
    {
      assert PageOk(n, bs[i], used[i], soft[i]);
    }

    static function LoweredTo(oldest: nat, seq_: nat): nat {
      if oldest != 0 && oldest > seq_ then seq_ else oldest
    }

    static lemma DiscardPage(y2: bool, n: nat, bs: seq<BlockInfo>, used: seq<set<nat>>, soft: seq<set<nat>>, i: nat,
            page: nat, q: nat, alloc: int, allocPage: nat, nFree: int, nErased: int, slack: int, oldest: nat)
      requires oldest != 0 ==> y2
      requires i < |bs| && PagesOk(n, bs, used, soft) && SeqOk(y2, bs, q, alloc) && Counts(n, bs, nFree, nErased, slack)
          && OldestOk(n, bs, oldest)
      requires AllocOk(n, used, alloc, allocPage) && page in used[i] && page !in soft[i]
      requires Written(bs[i].state) || (bs[i].state == NeedsScanning && oldest == 0)
      ensures var bs' := bs[i := bs[i].(pagesInUse := bs[i].pagesInUse - 1)];
              var used' := used[i := used[i] - {page}];
              && PagesOk(n, bs', used', soft) && SeqOk(y2, bs', q, alloc)
                  && OldestOk(n, bs', LoweredTo(oldest, bs[i].sequenceNumber)) && AllocOk(n, used', alloc, allocPage)
              && Counts(n, bs', nFree + 1, nErased, if bs[i].state == NeedsScanning then slack + 1 else slack)
              && page < n && (bs[i].pagesInUse - 1 == 0 <==> used'[i] == {})
    {
      var b := bs[i].(pagesInUse := bs[i].pagesInUse - 1);
      assert PageOk(n, bs[i], used[i], soft[i]);
      UsedSize(n, used[i]);
      CountsSet(n, bs, i, b, nFree, nErased, slack, nFree + 1, if bs[i].state == NeedsScanning then slack + 1
          else slack);
      hide Counts;
      if bs[i].state == Allocating {
        OldestBelow(y2, n, bs, q, alloc, oldest);
        OldestNewer(y2, n, bs, i, b, q, oldest);
      } else if Written(bs[i].state) {
        OldestWith(n, bs, i, b, oldest, LoweredTo(oldest, b.sequenceNumber));
      }
      SeqSame(y2, bs, i, b, q, alloc);
    }

    static lemma OldestBelow(y2: bool, n: nat, bs: seq<BlockInfo>, q: nat, alloc: int, oldest: nat)
      requires oldest != 0 ==> y2
      requires SeqOk(y2, bs, q, alloc) && OldestOk(n, bs, oldest)
      ensures oldest <= q
    {
    }

    /** The page goes from the counts, the bitmap and the block's entry. */
    method DiscardChunk(blk: nat, page: nat, ghost slack: int)
      requires Inv(slack) && blk < |blocks| && |used| == |soft| == |blocks| && page in used[blk] && page !in soft[blk]
      requires Written(blocks[blk].state) || (blocks[blk].state == NeedsScanning && oldestDirtySequence == 0)
      modifies `blocks, `used, `nFreeChunks, `oldestDirtySequence, `oldestDirtyBlock, bitmap.chunkBits
      ensures used == old(used)[blk := old(used)[blk] - {page}]
      ensures blocks == old(blocks)[blk := old(blocks)[blk].(pagesInUse := old(blocks)[blk].pagesInUse - 1)]
      ensures Inv(if old(blocks)[blk].state == NeedsScanning then slack + 1 else slack)
      ensures blocks[blk].pagesInUse == 0 <==> used[blk] == {}
      ensures old(oldestDirtySequence) == 0 ==> oldestDirtySequence == 0
    {
      hide PagesOk, Counts, SeqOk, OldestOk, AllocOk, ChunkBitmap.Valid, ChunkBitmap.Used;
      DiscardPage(isYaffs2, n, blocks, used, soft, blk, page, sequenceNumber, allocationBlock, allocationPage,
          nFreeChunks, nErasedBlocks, slack, oldestDirtySequence);
      UpdateOldestDirtySequence(blk);
      nFreeChunks := nFreeChunks + 1;
      bitmap.ClearChunkBit(blk, page);
      used := used[blk := used[blk] - {page}];
      blocks := blocks[blk := blocks[blk].(pagesInUse := blocks[blk].pagesInUse - 1)];
    }

    /** A page of the block is not wanted any more. The last one takes the block with it. */
    method DeleteChunk(blk: nat, page: nat, ghost slack: int)
      requires Inv(slack) && blk < |blocks| && |used| == |soft| == |blocks| && page in used[blk] && page !in soft[blk]
      requires Written(blocks[blk].state) || (blocks[blk].state == NeedsScanning && oldestDirtySequence == 0)
      modifies this, bitmap.chunkBits
      ensures Inv(if old(blocks)[blk].state == NeedsScanning then slack + 1 else slack) && |blocks| == |old(blocks)|
          && OthersKept(old(blocks), blocks, blk)
      ensures |used| == |blocks| && used == old(used)[blk := old(used)[blk] - {page}] && soft == old(soft)
      ensures if used[blk] == {} && !old(blocks)[blk].hasShrinkHeader
          && (old(blocks)[blk].state == Full || old(blocks)[blk].state == Collecting)
              then blocks[blk].state == if !old(blocks)[blk].needsRetiring
                  && erases(blk, old(blocks)[blk].sequenceNumber) then Empty else Dead
              else blocks[blk] == old(blocks)[blk].(pagesInUse := old(blocks)[blk].pagesInUse - 1)
      ensures gcChunk == old(gcChunk) && nCleanups == old(nCleanups) && (gcBlock == old(gcBlock) || gcBlock == -1)
      ensures old(oldestDirtySequence) == 0 ==> oldestDirtySequence == 0
      ensures allocationBlock == old(allocationBlock) && allocationPage == old(allocationPage)
          && sequenceNumber == old(sequenceNumber)
    {
      hide PagesOk, Counts, SeqOk, OldestOk, AllocOk, ChunkBitmap.Valid, ChunkBitmap.Used;
      DiscardChunk(blk, page, slack);
      if blocks[blk].pagesInUse == 0 && !blocks[blk].hasShrinkHeader && blocks[blk].state != Allocating
          && blocks[blk].state != NeedsScanning {
        BlockBecameDirty(blk, slack);
      }
    }

    static lemma SoftGone(y2: bool, n: nat, bs: seq<BlockInfo>, used: seq<set<nat>>, soft: seq<set<nat>>, i: nat,
            page: nat, q: nat, alloc: int, allocPage: nat, nFree: int, nErased: int, oldest: nat)
      requires i < |bs| && PagesOk(n, bs, used, soft) && SeqOk(y2, bs, q, alloc) && Counts(n, bs, nFree, nErased, 0)
          && OldestOk(n, bs, oldest)
      requires AllocOk(n, used, alloc, allocPage) && page in used[i] && page in soft[i] && bs[i].state == Collecting
      ensures var bs' := bs[i := bs[i].(softDeletions := bs[i].softDeletions - 1, pagesInUse := bs[i].pagesInUse - 1)];
              var used' := used[i := used[i] - {page}];
              && PagesOk(n, bs', used', soft[i := soft[i] - {page}]) && SeqOk(y2, bs', q, alloc)
                  && OldestOk(n, bs', LoweredTo(oldest, bs[i].sequenceNumber)) && AllocOk(n, used', alloc, allocPage)
              && Counts(n, bs', nFree, nErased, 0) && page < n && (bs[i].pagesInUse - 1 == 0 <==> used'[i] == {})
    {
      var b := bs[i].(softDeletions := bs[i].softDeletions - 1, pagesInUse := bs[i].pagesInUse - 1);
      assert PageOk(n, bs[i], used[i], soft[i]);
      UsedSize(n, used[i]);
      SubsetSize(soft[i], used[i]);
      CountsSet(n, bs, i, b, nFree, nErased, 0, nFree, 0);
      hide Counts;
      OldestWith(n, bs, i, b, oldest, LoweredTo(oldest, b.sequenceNumber));
      SeqSame(y2, bs, i, b, q, alloc);
    }

    /** The page goes from the counts, the bitmap and the block's entry. */
    method ForgetSoftPage(blk: nat, page: nat)
      requires Inv(0) && blk < |blocks| && |used| == |soft| == |blocks| && page in used[blk] && page in soft[blk]
      requires blocks[blk].state == Collecting
      modifies `blocks, `used, `soft, `nFreeChunks, `oldestDirtySequence, `oldestDirtyBlock, bitmap.chunkBits
      ensures Inv(0) && nFreeChunks == old(nFreeChunks)
      ensures used == old(used)[blk := old(used)[blk] - {page}] && soft == old(soft)[blk := old(soft)[blk] - {page}]
      ensures blocks == old(blocks)[blk := old(blocks)[blk].(softDeletions := old(blocks)[blk].softDeletions - 1,
          pagesInUse := old(blocks)[blk].pagesInUse - 1)]
      ensures blocks[blk].pagesInUse == 0 <==> used[blk] == {}
    {
      hide PagesOk, Counts, SeqOk, OldestOk, AllocOk, ChunkBitmap.Valid, ChunkBitmap.Used;
      SoftGone(isYaffs2, n, blocks, used, soft, blk, page, sequenceNumber, allocationBlock, allocationPage, nFreeChunks,
          nErasedBlocks, oldestDirtySequence);
      nFreeChunks := nFreeChunks - 1;
      soft := soft[blk := soft[blk] - {page}];
      UpdateOldestDirtySequence(blk);
      nFreeChunks := nFreeChunks + 1;
      bitmap.ClearChunkBit(blk, page);
      used := used[blk := used[blk] - {page}];
      blocks := blocks[blk := blocks[blk].(softDeletions := blocks[blk].softDeletions - 1,
          pagesInUse := blocks[blk].pagesInUse - 1)];
    }

    /** In the block being collected there is a page of a deleted file: it is forgotten. It was counted
        as free when it was soft-deleted, so the count of free chunks goes down before it goes up. */
    method DropSoftChunk(blk: nat, page: nat)
      requires Inv(0) && blk < |blocks| && |used| == |soft| == |blocks| && page in used[blk] && page in soft[blk]
      requires blocks[blk].state == Collecting && !blocks[blk].hasShrinkHeader
      modifies this, bitmap.chunkBits
      ensures Inv(0) && |blocks| == |old(blocks)| && OthersKept(old(blocks), blocks, blk)
          && |used| == |soft| == |blocks|
      ensures used == old(used)[blk := old(used)[blk] - {page}] && soft == old(soft)[blk := old(soft)[blk] - {page}]
      ensures if used[blk] == {}
              then blocks[blk].state == if !old(blocks)[blk].needsRetiring
                  && erases(blk, old(blocks)[blk].sequenceNumber) then Empty else Dead
              else blocks[blk] == old(blocks)[blk].(softDeletions := old(blocks)[blk].softDeletions - 1,
                  pagesInUse := old(blocks)[blk].pagesInUse - 1)
      ensures gcChunk == old(gcChunk) && nCleanups == old(nCleanups) && sequenceNumber == old(sequenceNumber)
    {
      hide PagesOk, Counts, SeqOk, OldestOk, AllocOk, ChunkBitmap.Valid, ChunkBitmap.Used;
      ForgetSoftPage(blk, page);
      if blocks[blk].pagesInUse == 0 {
        BlockBecameDirty(blk, 0);
      }
    }

    static lemma SoftPage(y2: bool, n: nat, bs: seq<BlockInfo>, used: seq<set<nat>>, soft: seq<set<nat>>, i: nat,
            page: nat, q: nat, alloc: int, nFree: int, nErased: int, slack: int, oldest: nat)
      requires oldest != 0 ==> y2
      requires i < |bs| && PagesOk(n, bs, used, soft) && SeqOk(y2, bs, q, alloc) && Counts(n, bs, nFree, nErased, slack)
          && OldestOk(n, bs, oldest)
      requires page in used[i] && page !in soft[i] && Written(bs[i].state)
      ensures var bs' := bs[i := bs[i].(softDeletions := bs[i].softDeletions + 1)];
              && PagesOk(n, bs', used, soft[i := soft[i] + {page}]) && SeqOk(y2, bs', q, alloc)
                  && OldestOk(n, bs', LoweredTo(oldest, bs[i].sequenceNumber))
              && Counts(n, bs', nFree + 1, nErased, slack)
    {
      var b := bs[i].(softDeletions := bs[i].softDeletions + 1);
      assert PageOk(n, bs[i], used[i], soft[i]);
      UsedSize(n, used[i]);
      CountsSet(n, bs, i, b, nFree, nErased, slack, nFree + 1, slack);
      hide Counts;
      if bs[i].state == Allocating {
        OldestBelow(y2, n, bs, q, alloc, oldest);
        OldestNewer(y2, n, bs, i, b, q, oldest);
      } else {
        OldestWith(n, bs, i, b, oldest, LoweredTo(oldest, b.sequenceNumber));
      }
      SeqSame(y2, bs, i, b, q, alloc);
    }

    /** The page holds data of a file that has been deleted. It stays in use until its block is collected. */
    method SoftDeleteChunk(blk: nat, page: nat)
      requires Inv(0) && blk < |blocks| && |used| == |soft| == |blocks| && page in used[blk] && page !in soft[blk]
          && Written(blocks[blk].state)
      modifies `blocks, `soft, `nFreeChunks, `oldestDirtySequence, `oldestDirtyBlock
      ensures Inv(0) && soft == old(soft)[blk := old(soft)[blk] + {page}] && nFreeChunks == old(nFreeChunks) + 1
      ensures blocks == old(blocks)[blk := old(blocks)[blk].(softDeletions := old(blocks)[blk].softDeletions + 1)]
    {
      hide PagesOk, Counts, SeqOk, OldestOk, AllocOk, ChunkBitmap.Valid, ChunkBitmap.Used;
      SoftPage(isYaffs2, n, blocks, used, soft, blk, page, sequenceNumber, allocationBlock, nFreeChunks, nErasedBlocks,
          0, oldestDirtySequence);
      soft := soft[blk := soft[blk] + {page}];
      nFreeChunks := nFreeChunks + 1;
      UpdateOldestDirtySequence(blk);
      blocks := blocks[blk := blocks[blk].(softDeletions := blocks[blk].softDeletions + 1)];
    }

    // ----- which blocks may be collected -----

    method CalcOldestDirtySequence()
      requires Inv(0) && NoneCollecting()
      modifies `oldestDirtySequence, `oldestDirtyBlock
      ensures Inv(0)
      ensures isYaffs2 && old(oldestDirtySequence) == 0 ==>
          (oldestDirtySequence == 0 <==> forall i | 0 <= i < |blocks| :: !Discarded(n, blocks[i]))
      ensures oldestDirtySequence != 0 ==> IsOldestDirty(n, blocks, oldestDirtySequence)
      ensures isYaffs2 && oldestDirtySequence != 0 && (exists i ::
          0 <= i < |blocks| && blocks[i].state == Full && Discarded(n, blocks[i])) ==>
                && 0 <= oldestDirtyBlock < |blocks| && Discarded(n, blocks[oldestDirtyBlock])
                && blocks[oldestDirtyBlock].sequenceNumber == oldestDirtySequence
    {
      hide PagesOk, Counts, AllocOk, ChunkBitmap.Valid, ChunkBitmap.Used;
      if !isYaffs2 {
        return;
      }
      var seq_, blockNo := sequenceNumber + 1, -1;
      var i := 0;
      while i < |blocks|
        invariant 0 <= i <= |blocks| && -1 <= blockNo < i
        invariant blockNo < 0 ==> seq_ == sequenceNumber + 1 && forall j | 0 <= j < i :: !Discarded(n, blocks[j])
        invariant blockNo >= 0 ==> Discarded(n, blocks[blockNo]) && seq_ == blocks[blockNo].sequenceNumber
        invariant forall j | 0 <= j < i && Discarded(n, blocks[j]) :: seq_ <= blocks[j].sequenceNumber
      {
        var b := blocks[i];
        if b.state == Full && b.pagesInUse - b.softDeletions < n && b.sequenceNumber < seq_ {
          seq_, blockNo := b.sequenceNumber, i;
        }
        i := i + 1;
      }
      if blockNo >= 0 {
        oldestDirtySequence := seq_;
        oldestDirtyBlock := blockNo;
      }
    }

    /** May block blk be collected? In yaffs2 one with a shrink header may if and only if some full block
        has discarded pages, and none of those is older. */
    method BlockNotDisqualifiedFromGC(blk: nat) returns (ok: bool)
      requires Inv(0) && NoneCollecting() && blk < |blocks| && Written(blocks[blk].state)
      modifies `oldestDirtySequence, `oldestDirtyBlock
      ensures Inv(0)
      ensures ok <==> !isYaffs2 || !blocks[blk].hasShrinkHeader
                      || ((exists i :: 0 <= i < |blocks| && Discarded(n, blocks[i]))
                          && forall i | 0 <= i < |blocks| && Discarded(n, blocks[i]) ::
                              blocks[blk].sequenceNumber <= blocks[i].sequenceNumber)
    {
      hide PagesOk, Counts, AllocOk, ChunkBitmap.Valid, ChunkBitmap.Used;
      if !isYaffs2 || !blocks[blk].hasShrinkHeader {
        return true;
      }
      if oldestDirtySequence == 0 {
        CalcOldestDirtySequence();
      }
      ok := blocks[blk].sequenceNumber <= oldestDirtySequence;
    }

    /** Once in a refresh period, unless refreshing is disabled, the oldest full block is chosen so that
        its data are written afresh. */
    method FindRefreshBlock() returns (oldest: int)
      modifies `refreshSkip
      ensures -1 <= oldest < |blocks|
      ensures refreshPeriod >= 10 && old(refreshSkip) == 0 ==>
          refreshSkip == refreshPeriod && (oldest < 0 <==> forall i | 0 <= i < |blocks| :: blocks[i].state != Full)
      ensures refreshPeriod < 10 || old(refreshSkip) > 0 ==> oldest < 0
      ensures refreshPeriod >= 10 ==> refreshSkip <= refreshPeriod
      ensures oldest >= 0 ==> blocks[oldest].state == Full && forall i | 0 <= i < |blocks| && blocks[i].state == Full ::
          blocks[oldest].sequenceNumber <= blocks[i].sequenceNumber
    {
      oldest := -1;
      if refreshPeriod < 10 {
        return;
      }
      if refreshSkip > refreshPeriod {
        refreshSkip := refreshPeriod;
      }
      if refreshSkip > 0 {
        return;
      }
      refreshSkip := refreshPeriod;
      var b := 0;
      while b < |blocks|
        invariant 0 <= b <= |blocks| && -1 <= oldest < b
        invariant oldest < 0 ==> forall i | 0 <= i < b :: blocks[i].state != Full
        invariant oldest >= 0 ==> blocks[oldest].state == Full && forall i | 0 <= i < b && blocks[i].state == Full ::
            blocks[oldest].sequenceNumber <= blocks[i].sequenceNumber
      {
        if blocks[b].state == Full {
          if oldest < 0 || blocks[b].sequenceNumber < blocks[oldest].sequenceNumber {
            oldest := b;
          }
        }
        b := b + 1;
      }
    }

    // ----- collecting a block -----

    static lemma Recast(y2: bool, n: nat, bs: seq<BlockInfo>, used: seq<set<nat>>, soft: seq<set<nat>>, i: nat,
            state: BlockState, q: nat, alloc: int, nFree: int, nErased: int, oldest: nat)
      requires i < |bs| && PagesOk(n, bs, used, soft) && SeqOk(y2, bs, q, alloc) && Counts(n, bs, nFree, nErased, 0)
          && OldestOk(n, bs, oldest)
      requires bs[i].state in {Full, Collecting} && state in {Full, Collecting}
      ensures var bs' := bs[i := bs[i].(state := state, hasShrinkHeader := false)];
              PagesOk(n, bs', used, soft) && SeqOk(y2, bs', q, alloc) && Counts(n, bs', nFree, nErased, 0)
                  && OldestOk(n, bs', oldest)
    {
      var b := bs[i].(state := state, hasShrinkHeader := false);
      assert PageOk(n, bs[i], used[i], soft[i]);
      StateChange(n, bs, used, soft, i, b, nFree, nErased, 0, nFree, 0);
      OldestSame(n, bs, i, b, oldest);
      SeqSame(y2, bs, i, b, q, alloc);
    }

    ghost predicate CollectingOnly(blk: nat)
      reads this
    {
      && blk < |blocks| && |used| == |soft| == |blocks|
      && (forall j | 0 <= j < |blocks| && j != blk :: blocks[j].state != Collecting)
      && (if blocks[blk].state == Collecting then !blocks[blk].hasShrinkHeader
          else blocks[blk].state == Empty || blocks[blk].state == Dead)
    }

    /** Page gcChunk of the block being collected: it is copied, or dropped. Which object it belongs to,
        and whether that is the last chunk of a deleted file, is up to the tags. */
    method CollectPage(blk: nat) returns (ok: bool)
      requires Inv(0) && CollectingOnly(blk) && blocks[blk].state == Collecting && gcChunk in used[blk]
          && nCleanups <= gcChunk < n
      modifies this, bitmap.chunkBits
      ensures Inv(0) && CollectingOnly(blk) && gcChunk == old(gcChunk) && nCleanups <= gcChunk + 1
      ensures |blocks| == |old(blocks)| && sequenceNumber >= old(sequenceNumber)
      ensures used[blk] == if ok then old(used)[blk] - {gcChunk} else old(used)[blk]
      ensures blocks[blk].state == AfterCollecting(blk, old(blocks)[blk], used[blk])
          && (used[blk] != {} ==> SameOrigin(old(blocks)[blk], blocks[blk]))
      ensures !ok ==> allocationBlock < 0 && nErasedBlocks == 0
    {
      hide PagesOk, Counts, SeqOk, OldestOk, AllocOk, ChunkBitmap.Valid, ChunkBitmap.Used;
      ok := true;
      var hasObject: bool, lastChunk: bool, checkpointBlocks: nat := *, *, *;
      if gcChunk in soft[blk] {
        if lastChunk {
          nCleanups := nCleanups + 1;
        }
        DropSoftChunk(blk, gcChunk);
      } else {
        if hasObject {
          var newBlk, newPage := AllocateChunk(true, checkpointBlocks);
          ok := newBlk >= 0;
        }
        if ok {
          DeleteChunk(blk, gcChunk, 0);
        }
      }
    }

    /** One of the deleted files none of whose chunks is left: its deletion is recorded, if it was not
        yet, and its header is dropped. */
    method CleanUpObject(ghost i: nat, ghost q: nat)
      requires Inv(0) && NoneCollecting() && |used| == |soft| == |blocks|
      requires i < |blocks| && GoneOrNew(blocks[i], q) && q <= sequenceNumber
      modifies this, bitmap.chunkBits
      ensures |blocks| == |old(blocks)| && GoneOrNew(blocks[i], q) && q <= sequenceNumber
      ensures Inv(0) && NoneCollecting() && gcChunk == old(gcChunk) && nCleanups == old(nCleanups)
          && |used| == |soft| == |blocks|
    {
      hide PagesOk, Counts, SeqOk, OldestOk, AllocOk, ChunkBitmap.Valid, ChunkBitmap.Used;
      var writeHeader: bool, checkpointBlocks: nat, blk: nat, page: nat := *, *, *, *;
      if writeHeader {
        var newBlk, newPage := AllocateChunk(true, checkpointBlocks);
      }
      if blk < |blocks| && page < n && Written(blocks[blk].state) && page !in soft[blk] {
        var inUse := bitmap.CheckChunkBit(blk, page);
        if inUse {
          DeleteChunk(blk, page, 0);
        }
      }
    }

    /** The block changes between full and collecting; its shrink header no longer keeps it. */
    method SetState(blk: nat, state: BlockState)
      requires Inv(0) && blk < |blocks| && blocks[blk].state in {Full, Collecting} && state in {Full, Collecting}
      modifies `blocks
      ensures Inv(0) && blocks == old(blocks)[blk := old(blocks)[blk].(state := state, hasShrinkHeader := false)]
          && |used| == |soft| == |blocks|
    {
      hide PagesOk, Counts, SeqOk, OldestOk, AllocOk, ChunkBitmap.Valid, ChunkBitmap.Used;
      Recast(isYaffs2, n, blocks, used, soft, blk, state, sequenceNumber, allocationBlock, nFreeChunks, nErasedBlocks,
          oldestDirtySequence);
      PagesSizes(n, blocks, used, soft);
      blocks := blocks[blk := blocks[blk].(state := state, hasShrinkHeader := false)];
    }

    /** The state of a block being collected once its pages in use are u: when none is left it has been
        erased, or retired. */
    function AfterCollecting(blk: nat, b: BlockInfo, u: set<nat>): BlockState {
      if u != {} then Collecting
      else if !b.needsRetiring && erases(blk, b.sequenceNumber) then Empty else Dead
    }

    /** Page gcChunk, if it is in use, and on to the next. */
    method CollectHere(blk: nat) returns (ok: bool, inUse: bool)
      requires Inv(0) && CollectingOnly(blk) && nCleanups <= gcChunk < n && blocks[blk].state == Collecting
          && used[blk] != {}
      modifies this, bitmap.chunkBits
      ensures Inv(0) && CollectingOnly(blk) && |blocks| == |old(blocks)| && nCleanups <= gcChunk == old(gcChunk) + 1
      ensures sequenceNumber >= old(sequenceNumber) && (inUse <==> old(gcChunk) in old(used)[blk])
      ensures used[blk] == if inUse && ok then old(used)[blk] - {old(gcChunk)} else old(used)[blk]
      ensures inUse && ok ==> |used[blk]| + 1 == |old(used)[blk]|
      ensures blocks[blk].state == AfterCollecting(blk, old(blocks)[blk], used[blk])
          && (used[blk] != {} ==> SameOrigin(old(blocks)[blk], blocks[blk]))
      ensures !ok ==> inUse && allocationBlock < 0 && nErasedBlocks == 0
    {
      hide PagesOk, Counts, SeqOk, OldestOk, AllocOk, ChunkBitmap.Valid, ChunkBitmap.Used;
      ok := true;
      inUse := bitmap.CheckChunkBit(blk, gcChunk);
      if inUse {
        ok := CollectPage(blk);
      }
      gcChunk := gcChunk + 1;
    }

    method CollectPages(blk: nat, wholeBlock: bool) returns (ok: bool)
      requires Inv(0) && CollectingOnly(blk) && nCleanups <= gcChunk <= n && blocks[blk].state == Collecting
          && used[blk] != {}
      modifies this, bitmap.chunkBits
      ensures Inv(0) && CollectingOnly(blk) && |blocks| == |old(blocks)| && nCleanups <= gcChunk <= n && gcChunk > 0
      ensures old(gcChunk) <= gcChunk && sequenceNumber >= old(sequenceNumber)
      ensures Swept(old(used)[blk], used[blk], old(gcChunk), gcChunk, ok)
      ensures blocks[blk].state == AfterCollecting(blk, old(blocks)[blk], used[blk])
          && (used[blk] != {} ==> SameOrigin(old(blocks)[blk], blocks[blk]))
      ensures ok && used[blk] != {} ==> gcChunk == n || (!wholeBlock && |used[blk]| + 5 <= |old(used)[blk]|)
      ensures !ok ==> allocationBlock < 0 && nErasedBlocks == 0
    {
      hide PagesOk, Counts, SeqOk, OldestOk, AllocOk, ChunkBitmap.Valid, ChunkBitmap.Used, Swept;
      ok := true;
      var maxCopies := if wholeBlock then n else 5;
      InvPositive(0);
      SweptNothing(used[blk], gcChunk);
      while ok && gcChunk < n && blocks[blk].state == Collecting && maxCopies > 0
        invariant Inv(0) && CollectingOnly(blk) && nCleanups <= gcChunk <= n && |blocks| == |old(blocks)|
        invariant old(gcChunk) <= gcChunk && sequenceNumber >= old(sequenceNumber)
        invariant Swept(old(used)[blk], used[blk], old(gcChunk), gcChunk, ok)
        invariant blocks[blk].state == AfterCollecting(blk, old(blocks)[blk], used[blk])
            && (used[blk] != {} ==> SameOrigin(old(blocks)[blk], blocks[blk]))
        invariant ok ==> |used[blk]| + (if wholeBlock then n else 5) == |old(used)[blk]| + maxCopies
        invariant ok && wholeBlock ==> n - maxCopies <= gcChunk - old(gcChunk)
        invariant gcChunk > old(gcChunk) || (ok && used[blk] != {} && maxCopies > 0)
        invariant !ok ==> allocationBlock < 0 && nErasedBlocks == 0
        decreases n - gcChunk
      {
        ghost var u, c := used[blk], gcChunk;
        var inUse;
        ok, inUse := CollectHere(blk);
        SweptOn(old(used)[blk], u, used[blk], old(gcChunk), c, inUse, ok);
        if inUse {
          maxCopies := maxCopies - 1;
        }
      }
    }

    lemma InvPositive(slack: int)
      requires Inv(slack)
      ensures n > 0
    {
    }

    static predicate GoneOrNew(b: BlockInfo, q: nat) {
      b.state in {Empty, Dead} || b.sequenceNumber > q
    }

    method CleanUpObjects(ghost b: nat, ghost q: nat)
      requires Inv(0) && NoneCollecting() && |used| == |soft| == |blocks| && nCleanups <= gcChunk <= n
      requires b < |blocks| && GoneOrNew(blocks[b], q) && q <= sequenceNumber
      modifies this, bitmap.chunkBits
      ensures Inv(0) && NoneCollecting() && |blocks| == |old(blocks)| && nCleanups == 0 && gcChunk == 0
          && gcBlock == -1 && GoneOrNew(blocks[b], q) && |used| == |blocks|
    {
      hide PagesOk, Counts, SeqOk, OldestOk, AllocOk, ChunkBitmap.Valid, ChunkBitmap.Used;
      var i := 0;
      while i < nCleanups
        invariant Inv(0) && NoneCollecting() && |blocks| == |old(blocks)| && |used| == |soft| == |blocks|
        invariant GoneOrNew(blocks[b], q) && q <= sequenceNumber
        decreases nCleanups - i
      {
        CleanUpObject(b, q);
        i := i + 1;
      }
      gcBlock := -1;
      gcChunk := 0;
      nCleanups := 0;
    }

    /** Collect block blk: from page gcChunk on at most five chunks, or all of them, are moved away or dropped.
        When none is left the block has been erased, or retired, or even taken into use again, and the next pass
        starts afresh. Else gcChunk says how far this one has come; it has moved five chunks, or all as far as
        the end of the block, unless there was no page left to move one to. At most one object is put on the
        clean-up list for each page. */
    method GarbageCollectBlock(blk: nat, wholeBlock: bool) returns (ok: bool)
      requires Inv(0) && NoneCollecting() && blk < |blocks| && blocks[blk].state == Full && nCleanups <= gcChunk <= n
      modifies this, bitmap.chunkBits
      ensures Inv(0) && NoneCollecting() && |blocks| == |old(blocks)| == |used| == |old(used)|
          && nCleanups <= gcChunk <= n
      ensures gcChunk == 0 ==>
          gcBlock == -1 && (blocks[blk].state in {Empty, Dead} || blocks[blk].sequenceNumber > old(sequenceNumber))
      ensures gcChunk > 0 ==>
          blocks[blk].state == Full && used[blk] != {} && old(gcChunk) <= gcChunk
          && Swept(old(used)[blk], used[blk], old(gcChunk), gcChunk, ok)
      ensures ok && gcChunk > 0 ==> gcChunk == n || (!wholeBlock && |used[blk]| + 5 <= |old(used)[blk]|)
      ensures ok && wholeBlock && (forall p | p in old(used)[blk] :: p >= old(gcChunk)) ==> gcChunk == 0
      ensures old(used)[blk] == {} ==> gcChunk == 0
      ensures !ok && gcChunk > 0 ==> allocationBlock < 0 && nErasedBlocks == 0
    {
      hide PagesOk, Counts, SeqOk, OldestOk, AllocOk, ChunkBitmap.Valid, ChunkBitmap.Used, Swept;
      ghost var q := sequenceNumber;
      PagesSizes(n, blocks, used, soft);
      ok := true;
      SetState(blk, Collecting);
      var some := bitmap.StillSomeChunkBits(blk);
      if some {
        ok := CollectPages(blk, wholeBlock);
      } else {
        BlockBecameDirty(blk, 0);
      }
      if blocks[blk].state == Collecting {
        SetState(blk, Full);
        UsedBelow(blk);
        SweptAll(old(used)[blk], used[blk], old(gcChunk), n, gcChunk, ok);
      } else {
        CleanUpObjects(blk, q);
      }
    }

    lemma UsedBelow(b: nat)
      requires Inv(0) && b < |blocks|
      ensures |used| == |blocks| && forall p | p in used[b] :: p < n
    {
      assert PageOk(n, blocks[b], used[b], soft[b]);
    }

    // ----- mounting -----

    static lemma Queried(n: nat, bs: seq<BlockInfo>, used: seq<set<nat>>, soft: seq<set<nat>>, i: nat,
            state: BlockState, q: nat, nFree: int, nErased: int)
      requires i < |bs| && bs[i].state == Unknown && PagesOk(n, bs, used, soft) && Counts(n, bs, nFree, nErased, 0)
      requires state in {Empty, NeedsScanning, CheckpointBlock, Dead}
      ensures used[i] == {} && soft[i] == {}
      ensures var bs' := bs[i := BlockInfo(state, 0, 0, q, false, false)];
              && PagesOk(n, bs', used, soft)
              && Counts(n, bs', if state == Empty then nFree + n else nFree, if state == Empty then nErased + 1
                  else nErased, 0)
    {
      var b := BlockInfo(state, 0, 0, q, false, false);
      assert PageOk(n, bs[i], used[i], soft[i]);
      StateChange(n, bs, used, soft, i, b, nFree, nErased, 0, if state == Empty then nFree + n else nFree, 0);
    }

    static lemma SeqQueried(y2: bool, bs: seq<BlockInfo>, i: nat, b: BlockInfo, q: nat, q': nat)
      requires i < |bs| && SeqOk(y2, bs, q, -1) && bs[i].state == Unknown && !Written(b.state) && q <= q'
      ensures SeqOk(y2, bs[i := b], q', -1)
    {
    }

    /** The driver says that block i is in that state with that sequence number. */
    method QueryBlock(i: nat, state: BlockState, q: nat)
      requires Inv(0) && i < |blocks| && blocks[i].state == Unknown && |used| == |soft| == |blocks|
          && oldestDirtySequence == 0 && allocationBlock == -1
      requires state in {Empty, NeedsScanning, CheckpointBlock, Dead}
      modifies `blocks, `nFreeChunks, `nErasedBlocks, `sequenceNumber, `blocksInCheckpoint
      ensures Inv(0) && blocks == old(blocks)[i := BlockInfo(state, 0, 0, q, false, false)] && used[i] == {}
          && soft[i] == {}
      ensures sequenceNumber == if isYaffs2 && state == NeedsScanning && GoodSequence(q) && q >= old(sequenceNumber)
          then q else old(sequenceNumber)
    {
      hide PagesOk, Counts, SeqOk, OldestOk, AllocOk, ChunkBitmap.Valid, ChunkBitmap.Used;
      SeqQueried(isYaffs2, blocks, i, BlockInfo(state, 0, 0, q, false, false), sequenceNumber, if isYaffs2
          && state == NeedsScanning && GoodSequence(q) && q >= sequenceNumber then q else sequenceNumber);
      Queried(n, blocks, used, soft, i, state, q, nFreeChunks, nErasedBlocks);
      blocks := blocks[i := BlockInfo(state, 0, 0, q, false, false)];
      NoOldest(n, blocks);
      if state == CheckpointBlock {
        blocksInCheckpoint := blocksInCheckpoint + 1;
      } else if state == Empty {
        nErasedBlocks := nErasedBlocks + 1;
        nFreeChunks := nFreeChunks + n;
      } else if state == NeedsScanning {
        if isYaffs2 && LOWEST_SEQUENCE_NUMBER <= q < HIGHEST_SEQUENCE_NUMBER && q >= sequenceNumber {
          sequenceNumber := q;
        }
      }
    }

    /** Ask the driver about each block, and count what is erased. The newest sequence number found is
        the device's. */
    method QueryBlocks(query: seq<(BlockState, nat)>)
      requires Inv(0) && |query| == |blocks| && oldestDirtySequence == 0 && forall i | 0 <= i < |blocks| ::
          blocks[i].state == Unknown
      requires forall i | 0 <= i < |query| :: query[i].0 in {Empty, NeedsScanning, CheckpointBlock, Dead}
      modifies `blocks, `nFreeChunks, `nErasedBlocks, `sequenceNumber, `blocksInCheckpoint
      ensures Inv(0) && |blocks| == |query| && allocationBlock == -1 && |used| == |soft| == |blocks|
      ensures forall i | 0 <= i < |blocks| ::
          blocks[i] == BlockInfo(query[i].0, 0, 0, query[i].1, false, false) && used[i] == {} && soft[i] == {}
      ensures sequenceNumber >= LOWEST_SEQUENCE_NUMBER
      ensures sequenceNumber == LOWEST_SEQUENCE_NUMBER || exists i ::
          0 <= i < |query| && ToScan(query[i]) && query[i].1 == sequenceNumber
      ensures isYaffs2 ==> forall i | 0 <= i < |blocks| && blocks[i].state == NeedsScanning
          && GoodSequence(blocks[i].sequenceNumber) :: blocks[i].sequenceNumber <= sequenceNumber
    {
      hide PagesOk, Counts, SeqOk, OldestOk, AllocOk, ChunkBitmap.Valid, ChunkBitmap.Used;
      PagesSizes(n, blocks, used, soft);
      SeqFacts(isYaffs2, blocks, sequenceNumber, allocationBlock);
      NoOldest(n, blocks);
      sequenceNumber := LOWEST_SEQUENCE_NUMBER;
      blocksInCheckpoint := 0;
      SeqNone(isYaffs2, blocks, sequenceNumber);
      var i := 0;
      while i < |blocks|
        invariant 0 <= i <= |blocks| == |query| && Inv(0) && allocationBlock == -1
            && sequenceNumber >= LOWEST_SEQUENCE_NUMBER && |used| == |soft| == |blocks|
        invariant sequenceNumber == LOWEST_SEQUENCE_NUMBER || exists j ::
            0 <= j < i && ToScan(query[j]) && query[j].1 == sequenceNumber
        invariant forall j | i <= j < |blocks| :: blocks[j].state == Unknown
        invariant forall j | 0 <= j < i ::
            blocks[j] == BlockInfo(query[j].0, 0, 0, query[j].1, false, false) && used[j] == {} && soft[j] == {}
        invariant isYaffs2 ==> forall j | 0 <= j < i && blocks[j].state == NeedsScanning
            && GoodSequence(blocks[j].sequenceNumber) :: blocks[j].sequenceNumber <= sequenceNumber
      {
        QueryBlock(i, query[i].0, query[i].1);
        i := i + 1;
      }
    }

    static lemma SeqNone(y2: bool, bs: seq<BlockInfo>, q: nat)
      requires forall i | 0 <= i < |bs| :: !Written(bs[i].state)
      ensures SeqOk(y2, bs, q, -1)
    {
    }

    static lemma NoOldest(n: nat, bs: seq<BlockInfo>)
      ensures OldestOk(n, bs, 0)
    {
    }

    static lemma ScannedPage(n: nat, bs: seq<BlockInfo>, used: seq<set<nat>>, soft: seq<set<nat>>, i: nat, page: nat,
            shrink: bool, nFree: int, nErased: int, slack: int)
      requires i < |bs| && bs[i].state == NeedsScanning && PagesOk(n, bs, used, soft)
          && Counts(n, bs, nFree, nErased, slack) && page < n && page !in used[i]
      ensures var bs' := bs[i := bs[i].(pagesInUse := bs[i].pagesInUse + 1, hasShrinkHeader := shrink)];
              && PagesOk(n, bs', used[i := used[i] + {page}], soft) && Counts(n, bs', nFree, nErased, slack)
    {
      var b := bs[i].(pagesInUse := bs[i].pagesInUse + 1, hasShrinkHeader := shrink);
      assert PageOk(n, bs[i], used[i], soft[i]);
      CountsSet(n, bs, i, b, nFree, nErased, slack, nFree, slack);
    }

    /** A chunk that holds something is in use; a header may say that the file was cut. */
    method FoundChunk(blk: nat, page: nat, shrink: bool, ghost slack: int)
      requires Inv(slack) && oldestDirtySequence == 0 && blk < |blocks| && blocks[blk].state == NeedsScanning
          && page < n
      requires |used| == |soft| == |blocks| && page !in used[blk]
      modifies `blocks, `used, bitmap.chunkBits
      ensures Inv(slack) && used == old(used)[blk := old(used)[blk] + {page}]
      ensures blocks == old(blocks)[blk := old(blocks)[blk].(pagesInUse := old(blocks)[blk].pagesInUse + 1,
          hasShrinkHeader := old(blocks)[blk].hasShrinkHeader || shrink)]
    {
      hide PagesOk, Counts, SeqOk, OldestOk, AllocOk, ChunkBitmap.Valid, ChunkBitmap.Used;
      ghost var bs := blocks;
      ScannedPage(n, blocks, used, soft, blk, page, blocks[blk].hasShrinkHeader
          || shrink, nFreeChunks, nErasedBlocks, slack);
      bitmap.SetChunkBit(blk, page);
      used := used[blk := used[blk] + {page}];
      blocks := blocks[blk := blocks[blk].(pagesInUse := blocks[blk].pagesInUse + 1,
          hasShrinkHeader := blocks[blk].hasShrinkHeader || shrink)];
      ScanningSeq(isYaffs2, n, bs, blk, blocks[blk], sequenceNumber, allocationBlock);
      AllocOther(n, old(used), blk, used[blk], allocationBlock, allocationPage);
    }

    static lemma AllocOther(n: nat, used: seq<set<nat>>, i: nat, u: set<nat>, alloc: int, page: nat)
      requires i < |used| && AllocOk(n, used, alloc, page) && alloc != i
      ensures AllocOk(n, used[i := u], alloc, page)
    {
    }

    static lemma ScanningSeq(y2: bool, n: nat, bs: seq<BlockInfo>, i: nat, b: BlockInfo, q: nat, alloc: int)
      requires i < |bs| && SeqOk(y2, bs, q, alloc) && bs[i].state == NeedsScanning && b.state == NeedsScanning
      ensures SeqOk(y2, bs[i := b], q, alloc) && OldestOk(n, bs[i := b], 0) && alloc != i
    {
    }

    /** A block that has been scanned to the end. */
    static lemma BlockScanned(y2: bool, n: nat, bs: seq<BlockInfo>, used: seq<set<nat>>, soft: seq<set<nat>>, i: nat,
            state: BlockState, q: nat, alloc: int, nFree: int, nErased: int)
      requires i < |bs| && bs[i].state == NeedsScanning && PagesOk(n, bs, used, soft) && SeqOk(y2, bs, q, alloc)
      requires Counts(n, bs, nFree, nErased, n - |used[i]|) && soft[i] == {}
      requires state in {Full, Allocating, Empty}
          && (state == Allocating ==> alloc == -1 && (y2 ==> bs[i].sequenceNumber == q))
      requires state == Empty ==> used[i] == {} && !bs[i].hasShrinkHeader
      requires y2 ==> DistinctSeqs(bs) && GoodSequence(bs[i].sequenceNumber) && bs[i].sequenceNumber <= q
      ensures var bs' := bs[i := bs[i].(state := state)];
              && PagesOk(n, bs', used, soft) && SeqOk(y2, bs', q, if state == Allocating then i else alloc)
                  && OldestOk(n, bs', 0)
              && Counts(n, bs', nFree, if state == Empty then nErased + 1 else nErased, 0) && (y2 ==> DistinctSeqs(bs'))
    {
      var b := bs[i].(state := state);
      assert PageOk(n, bs[i], used[i], soft[i]);
      StateChange(n, bs, used, soft, i, b, nFree, nErased, n - |used[i]|, nFree, 0);
      hide PagesOk, Counts;
      if y2 {
        var bs' := bs[i := b];
        assert forall j | 0 <= j < |bs| && Holding(bs'[j]) ::
            Holding(bs[j]) && bs'[j].sequenceNumber == bs[j].sequenceNumber;
        assert forall j | 0 <= j < |bs| && Written(bs'[j].state) :: Holding(bs'[j]);
      }
    }

    /** What scanning has done to the other blocks and to the device. */
    twostate predicate ScanKeeps(blk: nat)
      reads this
    {
      && |blocks| == |old(blocks)| && OthersKept(old(blocks), blocks, blk) && soft == old(soft) && |used| == |old(used)|
      && (forall j | 0 <= j < |used| && j != blk && j < |old(used)| :: used[j] == old(used)[j])
      && oldestDirtySequence == 0 && sequenceNumber == old(sequenceNumber)
    }

    /** Block blk is being scanned; s of its chunks have been looked at. */
    ghost predicate Scanning(blk: nat, s: int)
      reads this, bitmap, bitmap.chunkBits
    {
      && n > 0 && blk < |blocks| && |used| == |soft| == |blocks| && Inv(s - |used[blk]|) && oldestDirtySequence == 0
      && blocks[blk].state == NeedsScanning && allocationBlock != blk && soft[blk] == {}
    }

    method FreeChunk(blk: nat, ghost s: int)
      requires Scanning(blk, s)
      modifies `nFreeChunks
      ensures Scanning(blk, s + 1) && (ScannedFull(blk) <==> old(ScannedFull(blk)))
    {
      hide PagesOk, Counts, SeqOk, OldestOk, AllocOk, ChunkBitmap.Valid, ChunkBitmap.Used;
      OneMoreFree(n, blocks, nFreeChunks, nErasedBlocks, s - |used[blk]|);
      nFreeChunks := nFreeChunks + 1;
    }

    /** One more chunk of the block has been looked at: it is free, or in use, or was found in use and
        deleted because it is stale. */
    method ScanChunk(blk: nat, c: nat, kind: ChunkKind, shrink: bool, ghost s: int)
      requires Scanning(blk, s) && c < n && c !in used[blk]
      modifies this, bitmap.chunkBits
      ensures Scanning(blk, s + 1) && ScanKeeps(blk) && allocationBlock == old(allocationBlock)
      ensures used[blk] == if kind == InUse then old(used)[blk] + {c} else old(used)[blk]
      ensures blocks[blk].sequenceNumber == old(blocks)[blk].sequenceNumber
          && blocks[blk].needsRetiring == old(blocks)[blk].needsRetiring
      ensures blocks[blk].hasShrinkHeader <==> old(blocks)[blk].hasShrinkHeader || (Holds(kind) && shrink)
    {
      hide PagesOk, Counts, SeqOk, OldestOk, AllocOk, ChunkBitmap.Valid, ChunkBitmap.Used;
      if !Holds(kind) {
        FreeChunk(blk, s);
        return;
      }
      FoundChunk(blk, c, shrink, s - |used[blk]|);
      if kind == Stale {
        DeleteChunk(blk, c, s - |old(used)[blk]|);
        assert old(used)[blk] + {c} - {c} == old(used)[blk];
      }
    }

    static lemma OneMoreFree(n: nat, bs: seq<BlockInfo>, nFree: int, nErased: int, slack: int)
      requires Counts(n, bs, nFree, nErased, slack)
      ensures Counts(n, bs, nFree + 1, nErased, slack + 1)
    {
    }

    /** yaffs2: scan one block from its last chunk to its first. Unwritten chunks at the end of the
        newest block are where allocation goes on, unless the block turns out to be blank after that. */
    method ScanChunks(blk: nat, kind: (nat, nat) -> ChunkKind, shrink: (nat, nat) -> bool)
      returns (state: BlockState, allocating: bool, page: nat)
      requires blk < |blocks| && |used| == |blocks| && used[blk] == {} && Scanning(blk, 0)
          && !blocks[blk].hasShrinkHeader
      modifies this, bitmap.chunkBits
      ensures Scanning(blk, n) && ScanKeeps(blk) && allocationBlock == old(allocationBlock)
      ensures blocks[blk].sequenceNumber == old(blocks)[blk].sequenceNumber
          && blocks[blk].needsRetiring == old(blocks)[blk].needsRetiring && state in {NeedsScanning, Allocating, Empty}
      ensures used[blk] == InUseIn(n, kind, blk)
      ensures blocks[blk].hasShrinkHeader <==> ShrinkIn(n, kind, shrink, blk)
      ensures state == Empty <==> BlankBlock(n, kind, blk)
      ensures state == Empty ==> used[blk] == {} && !blocks[blk].hasShrinkHeader
      ensures allocating <==> blocks[blk].sequenceNumber == sequenceNumber && FreeTail(n, kind, blk)
      ensures state == Allocating <==> allocating && state != Empty
      ensures allocating ==> 1 <= page < n && forall p | p in used[blk] :: p < page
    {
      hide Inv, InUseFrom, ShrinkFrom, InUseIn, ShrinkIn, NothingFrom, FreeTail, FreeTailFrom, BlankBlock;
      state, allocating, page := NeedsScanning, false, 0;
      var foundChunksInBlock := false;
      NothingYet(n, kind, shrink, blk);
      var c: int := n - 1;
      while c >= 0 && (state == NeedsScanning || state == Allocating)
        invariant -1 <= c < n && Scanning(blk, n - 1 - c) && ScanKeeps(blk) && allocationBlock == old(allocationBlock)
        invariant blocks[blk].sequenceNumber == old(blocks)[blk].sequenceNumber
            && blocks[blk].needsRetiring == old(blocks)[blk].needsRetiring
        invariant used[blk] == InUseFrom(n, kind, blk, c + 1)
            && (state == Empty ==> used[blk] == {} && !blocks[blk].hasShrinkHeader)
        invariant blocks[blk].hasShrinkHeader <==> ShrinkFrom(n, kind, shrink, blk, c + 1)
        invariant !foundChunksInBlock <==> NothingFrom(n, kind, blk, c + 1)
        invariant state in {NeedsScanning, Allocating, Empty} && (state == Empty <==> c < 0 && BlankBlock(n, kind, blk))
        invariant allocating <==> blocks[blk].sequenceNumber == sequenceNumber && FreeTailFrom(n, kind, blk, c + 1)
        invariant state == Allocating <==> allocating && state != Empty
        invariant allocating ==> 1 <= page < n && c < page && forall p | p in used[blk] :: p < page
        decreases c
      {
        var k := kind(blk, c);
        ghost var found := foundChunksInBlock;
        NothingStep(n, kind, shrink, blk, c);
        FromAbove(n, kind, blk, c + 1);
        if k == Unused && !foundChunksInBlock {
          if c == 0 {
            state := Empty;
          } else if sequenceNumber == blocks[blk].sequenceNumber {
            state, allocating, page := Allocating, true, c;
          }
        }
        if Holds(k) {
          foundChunksInBlock := true;
        }
        ScanChunk(blk, c, k, shrink(blk, c), n - 1 - c);
        c := c - 1;
      }
    }

    static lemma NothingYet(n: nat, kind: (nat, nat) -> ChunkKind, shrink: (nat, nat) -> bool, blk: nat)
      ensures NothingFrom(n, kind, blk, n) && InUseFrom(n, kind, blk, n) == {} && !ShrinkFrom(n, kind, shrink, blk, n)
      ensures InUseFrom(n, kind, blk, 0) == InUseIn(n, kind, blk)
      ensures ShrinkFrom(n, kind, shrink, blk, 0) <==> ShrinkIn(n, kind, shrink, blk)
      ensures !FreeTailFrom(n, kind, blk, n) && (FreeTailFrom(n, kind, blk, 0) <==> FreeTail(n, kind, blk))
    {
    }

    static lemma FromAbove(n: nat, kind: (nat, nat) -> ChunkKind, blk: nat, c: nat)
      ensures forall d | d in InUseFrom(n, kind, blk, c) :: d >= c
      ensures BlankBlock(n, kind, blk) ==> NothingFrom(n, kind, blk, 0)
    {
    }

    static lemma NothingStep(n: nat, kind: (nat, nat) -> ChunkKind, shrink: (nat, nat) -> bool, blk: nat, c: nat)
      requires c < n
      ensures InUseFrom(n, kind, blk, c)
          == InUseFrom(n, kind, blk, c + 1) + if kind(blk, c) == InUse then {c} else {}
      ensures ShrinkFrom(n, kind, shrink, blk, c) <==>
          ShrinkFrom(n, kind, shrink, blk, c + 1) || (Holds(kind(blk, c)) && shrink(blk, c))
      ensures FreeTailFrom(n, kind, blk, c) <==>
          FreeTailFrom(n, kind, blk, c + 1) || (c > 0 && kind(blk, c) == Unused && NothingFrom(n, kind, blk, c))
      ensures NothingFrom(n, kind, blk, c) ==>
          InUseFrom(n, kind, blk, c) == {} && !ShrinkFrom(n, kind, shrink, blk, c)
      ensures NothingFrom(n, kind, blk, c) <==> !Holds(kind(blk, c)) && NothingFrom(n, kind, blk, c + 1)
      ensures BlankBlock(n, kind, blk) <==> kind(blk, 0) == Unused && NothingFrom(n, kind, blk, 0)
    {
    }

    /** The block has been scanned: its state is settled, and if nothing in it is in use it is erased. */
    method EndOfBlock(blk: nat, state: BlockState, page: nat)
      requires Scanning(blk, n) && state in {Full, Allocating, Empty}
      requires isYaffs2 ==>
          DistinctSeqs(blocks) && GoodSequence(blocks[blk].sequenceNumber)
          && blocks[blk].sequenceNumber <= sequenceNumber
      requires state == Allocating ==>
          allocationBlock == -1 && (isYaffs2 ==> blocks[blk].sequenceNumber == sequenceNumber) && page < n
          && forall p | p in used[blk] :: p < page
      requires state == Empty ==> used[blk] == {} && !blocks[blk].hasShrinkHeader
      modifies this, bitmap.chunkBits
      ensures Inv(0) && ScanKeeps(blk) && |used| == |soft| == |blocks|
          && blocks[blk].state in {Full, Allocating, Empty, Dead}
      ensures (blocks[blk].state == Allocating ==> state == Allocating) && (isYaffs2 ==> DistinctSeqs(blocks))
      ensures used == old(used)
      ensures blocks[blk].state == if state == Full && used[blk] == {} && !old(blocks)[blk].hasShrinkHeader
                  then if !old(blocks)[blk].needsRetiring && erases(blk, old(blocks)[blk].sequenceNumber) then Empty
                       else Dead
                  else state
      ensures blocks[blk].state in {Full, Allocating} ==> blocks[blk] == old(blocks)[blk].(state := state)
      ensures allocationBlock == if state == Allocating then blk else old(allocationBlock)
    {
      hide PagesOk, Counts, SeqOk, OldestOk, AllocOk, ChunkBitmap.Valid, ChunkBitmap.Used, DistinctSeqs;
      BlockScanned(isYaffs2, n, blocks, used, soft, blk, state, sequenceNumber, allocationBlock, nFreeChunks,
          nErasedBlocks);
      if state == Allocating {
        AllocHere(n, used, blk, page);
        allocationBlock := blk;
        allocationPage := page;
        allocationBlockFinder := blk;
      }
      if state == Empty {
        nErasedBlocks := nErasedBlocks + 1;
      }
      blocks := blocks[blk := blocks[blk].(state := state)];
      NothingUsed(n, blocks, used, soft, blk);
      if blocks[blk].pagesInUse == 0 && !blocks[blk].hasShrinkHeader && state == Full {
        ghost var bs := blocks;
        BlockBecameDirty(blk, 0);
        if isYaffs2 {
          ErasedDistinct(bs, blocks, blk);
        }
      }
    }

    static lemma AllocHere(n: nat, used: seq<set<nat>>, blk: nat, page: nat)
      requires blk < |used| && page < n && forall p | p in used[blk] :: p < page
      ensures AllocOk(n, used, blk, page)
    {
    }

    static lemma NothingUsed(n: nat, bs: seq<BlockInfo>, used: seq<set<nat>>, soft: seq<set<nat>>, i: nat)
      requires PagesOk(n, bs, used, soft) && i < |bs|
      ensures |used| == |bs| && (bs[i].pagesInUse == 0 <==> used[i] == {})
    {
      assert PageOk(n, bs[i], used[i], soft[i]);
    }

    static lemma ErasedDistinct(bs: seq<BlockInfo>, bs': seq<BlockInfo>, blk: nat)
      requires DistinctSeqs(bs) && OthersKept(bs, bs', blk) && blk < |bs| && bs'[blk].state in {Empty, Dead}
      ensures DistinctSeqs(bs')
    {
      assert forall j | 0 <= j < |bs| && Holding(bs'[j]) :: bs'[j] == bs[j];
    }

    ghost predicate Indexes(index: seq<nat>)
      reads this
    {
      && (forall k | 0 <= k < |index| ::
          index[k] < |blocks| && blocks[index[k]].state == NeedsScanning
          && GoodSequence(blocks[index[k]].sequenceNumber))
      && (forall k, m | 0 <= k < m < |index| ::
          index[k] != index[m] && blocks[index[k]].sequenceNumber <= blocks[index[m]].sequenceNumber)
      && (forall b: nat | b < |blocks| && blocks[b].state == NeedsScanning && GoodSequence(blocks[b].sequenceNumber) ::
          Listed(index, b))
    }

    static ghost predicate Listed(index: seq<nat>, b: nat) {
      exists k :: 0 <= k < |index| && index[k] == b
    }

    static ghost predicate Entries(bs: seq<BlockInfo>, a: seq<Recovery.BlockIndex>, upTo: nat) {
      && (forall x | x in a ::
          x.blk < |bs| && x.blk < upTo && bs[x.blk].state == NeedsScanning && GoodSequence(bs[x.blk].sequenceNumber)
          && x.seqNo == bs[x.blk].sequenceNumber)
      && (forall b: nat | b < |bs| && b < upTo && bs[b].state == NeedsScanning && GoodSequence(bs[b].sequenceNumber) ::
          Recovery.BlockIndex(bs[b].sequenceNumber, b) in a)
      && Recovery.Distinct(a)
    }

    static lemma EntriesPermuted(bs: seq<BlockInfo>, a: seq<Recovery.BlockIndex>, a': seq<Recovery.BlockIndex>)
      requires Entries(bs, a, |bs|) && multiset(a) == multiset(a')
      ensures Entries(bs, a', |bs|)
    {
      forall x: Recovery.BlockIndex
        ensures x in a <==> x in a'
      {
        assert x in a <==> x in multiset(a);
        assert x in a' <==> x in multiset(a');
      }
      forall x | x in a'
        ensures multiset(a')[x] <= 1
      {
        Recovery.DistinctCount(a, x);
      }
      Recovery.CountDistinct(a');
    }

    static function Numbers(a: seq<Recovery.BlockIndex>): (index: seq<nat>)
      ensures |index| == |a| && forall k | 0 <= k < |a| :: index[k] == a[k].blk
    {
      seq(|a|, k requires 0 <= k < |a| => a[k].blk)
    }

    lemma SortedEntries(a: seq<Recovery.BlockIndex>)
      requires Entries(blocks, a, |blocks|) && Qsort.Sorted(a, Recovery.Ybicmp)
      ensures Indexes(Numbers(a))
    {
      var index := Numbers(a);
      forall k, m | 0 <= k < m < |index|
        ensures index[k] != index[m] && blocks[index[k]].sequenceNumber <= blocks[index[m]].sequenceNumber
      {
        assert a[k] in a && a[m] in a && a[k] != a[m];
        assert Qsort.Cmp(Recovery.Ybicmp, a[k], a[m]) <= 0;
      }
      forall k | 0 <= k < |index|
        ensures index[k] < |blocks| && blocks[index[k]].state == NeedsScanning
            && GoodSequence(blocks[index[k]].sequenceNumber)
      {
        assert a[k] in a;
      }
      forall b: nat | b < |blocks| && blocks[b].state == NeedsScanning && GoodSequence(blocks[b].sequenceNumber)
        ensures Listed(index, b)
      {
        var k :| 0 <= k < |a| && a[k] == Recovery.BlockIndex(blocks[b].sequenceNumber, b);
        assert index[k] == b;
      }
    }

    /** The blocks to scan, oldest first. */
    method SortBlocks() returns (index: seq<nat>)
      ensures Indexes(index)
    {
      var a := new Recovery.BlockIndex[|blocks|](i => Recovery.BlockIndex(0, 0));
      var k, b := 0, 0;
      while b < |blocks|
        invariant 0 <= k <= b <= |blocks| && a.Length == |blocks| && fresh(a) && Entries(blocks, a[..k], b)
      {
        if blocks[b].state == NeedsScanning
            && LOWEST_SEQUENCE_NUMBER <= blocks[b].sequenceNumber < HIGHEST_SEQUENCE_NUMBER {
          a[k] := Recovery.BlockIndex(blocks[b].sequenceNumber, b);
          assert a[..k + 1] == a[..k] + [a[k]];
          k := k + 1;
        }
        b := b + 1;
      }
      Recovery.YbicmpCompares();
      ghost var before := a[..];
      Qsort.QSort(a, 0, k, Recovery.Ybicmp);
      assert a[..k] == a[..][0..k] && before[0..k] == before[..k];
      EntriesPermuted(blocks, before[..k], a[..k]);
      SortedEntries(a[..k]);
      index := Numbers(a[..k]);
    }

    static ghost predicate DistinctQuery(query: seq<(BlockState, nat)>) {
      forall i, j | 0 <= i < j < |query| && query[i].0 == query[j].0 == NeedsScanning :: query[i].1 != query[j].1
    }

    lemma QueriedDistinct(query: seq<(BlockState, nat)>)
      requires |blocks| == |query| && DistinctQuery(query)
      requires forall i | 0 <= i < |query| :: query[i].0 in {Empty, NeedsScanning, CheckpointBlock, Dead}
      requires forall i | 0 <= i < |blocks| :: blocks[i] == BlockInfo(query[i].0, 0, 0, query[i].1, false, false)
      ensures DistinctSeqs(blocks) && NoneCollecting()
    {
    }

    /** The blocks before position i of the index are still to be scanned. */
    ghost predicate StillToScan(index: seq<nat>, i: int)
      reads this
    {
      && |used| == |soft| == |blocks|
      && (forall k | 0 <= k < |index| && k < i ::
          index[k] < |blocks| && blocks[index[k]].state == NeedsScanning
          && GoodSequence(blocks[index[k]].sequenceNumber)
                 && blocks[index[k]].sequenceNumber <= sequenceNumber && used[index[k]] == {} && soft[index[k]] == {}
                     && !blocks[index[k]].hasShrinkHeader)
    }

    lemma StartScanning(blk: nat)
      requires Inv(0) && blk < |blocks| && |used| == |soft| == |blocks| && oldestDirtySequence == 0
      requires blocks[blk].state == NeedsScanning && used[blk] == {} && soft[blk] == {}
      ensures Scanning(blk, 0)
    {
      SeqFacts(isYaffs2, blocks, sequenceNumber, allocationBlock);
    }

    /** Only one block can have the newest number. */
    lemma OneNewest(blk: nat, slack: int)
      requires Inv(slack) && isYaffs2 && DistinctSeqs(blocks) && blk < |blocks|
      requires blocks[blk].state == NeedsScanning && GoodSequence(blocks[blk].sequenceNumber)
          && blocks[blk].sequenceNumber == sequenceNumber
      ensures allocationBlock == -1
    {
    }

    static lemma KeptDistinct(bs: seq<BlockInfo>, bs': seq<BlockInfo>, blk: nat)
      requires DistinctSeqs(bs) && OthersKept(bs, bs', blk) && blk < |bs| && bs'[blk].state == bs[blk].state
          && bs'[blk].sequenceNumber == bs[blk].sequenceNumber
      ensures DistinctSeqs(bs')
    {
      assert forall j | 0 <= j < |bs| && Holding(bs'[j]) ::
          Holding(bs[j]) && bs'[j].sequenceNumber == bs[j].sequenceNumber;
    }

    /** Scan one block of the index. stranded says that allocation was to go on in it, and that it was
        blank after all; the scan leaves allocationBlock set then, which is done here at its end, since
        nothing looks at it until then. */
    method ScanOneBlock(blk: nat, kind: (nat, nat) -> ChunkKind, shrink: (nat, nat) -> bool)
      returns (stranded: bool, page: nat)
      requires Inv(0) && isYaffs2 && oldestDirtySequence == 0 && DistinctSeqs(blocks) && NoneCollecting()
      requires blk < |blocks| && |used| == |soft| == |blocks| && blocks[blk].state == NeedsScanning
          && GoodSequence(blocks[blk].sequenceNumber)
      requires blocks[blk].sequenceNumber <= sequenceNumber && used[blk] == {} && soft[blk] == {}
          && !blocks[blk].hasShrinkHeader
      modifies this, bitmap.chunkBits
      ensures Inv(0) && DistinctSeqs(blocks) && NoneCollecting() && ScanKeeps(blk)
          && |used| == |soft| == |blocks| == |old(blocks)|
      ensures Scanned(kind, shrink, blk, old(blocks)[blk], sequenceNumber, blocks[blk], used[blk])
      ensures stranded <==>
          old(blocks)[blk].sequenceNumber == sequenceNumber && BlankBlock(n, kind, blk) && FreeTail(n, kind, blk)
      ensures stranded ==> blocks[blk].state == Empty && 1 <= page < n && allocationBlock == old(allocationBlock)
      ensures old(blocks)[blk].sequenceNumber != sequenceNumber ==> allocationBlock == old(allocationBlock)
    {
      hide Inv, DistinctSeqs, Shape, BlankBlock, FreeTail;
      ghost var bs := blocks;
      StartScanning(blk);
      var state, allocating;
      state, allocating, page := ScanChunks(blk, kind, shrink);
      KeptDistinct(bs, blocks, blk);
      stranded := allocating && state == Empty;
      if state == Allocating {
        OneNewest(blk, n - |used[blk]|);
      } else if state == NeedsScanning {
        state := Full;
      }
      EndOfBlock(blk, state, page);
    }

    /** What becomes of a block that has been scanned: the chunks found in use are, and it is erased if it is
        blank, taken for the one allocation goes on in if it is the newest and has unwritten chunks at its end,
        full if something in it is in use or a header says that a file was cut, and else erased if the driver
        can. b and u are the block and its pages in use, q the newest number. */
    ghost predicate Scanned(kind: (nat, nat) -> ChunkKind, shrink: (nat, nat) -> bool, i: nat, was: BlockInfo, q: nat,
            b: BlockInfo, u: set<nat>) {
      && u == InUseIn(n, kind, i)
      && b.state == if BlankBlock(n, kind, i) then Empty
                    else if was.sequenceNumber == q && FreeTail(n, kind, i) then Allocating
                    else if u != {} || ShrinkIn(n, kind, shrink, i) then Full
                    else if !was.needsRetiring && erases(i, was.sequenceNumber) then Empty else Dead
    }

    /** The blocks of the index behind position i have been scanned. */
    ghost predicate ScannedAll(kind: (nat, nat) -> ChunkKind, shrink: (nat, nat) -> bool, bs0: seq<BlockInfo>, q: nat,
            bs: seq<BlockInfo>, used: seq<set<nat>>, index: seq<nat>, i: int) {
      |bs| == |used| == |bs0| && forall k | 0 <= k < |index| && i < k ::
        index[k] < |bs| && Scanned(kind, shrink, index[k], bs0[index[k]], q, bs[index[k]], used[index[k]])
    }

    lemma NoneScanned(kind: (nat, nat) -> ChunkKind, shrink: (nat, nat) -> bool, bs: seq<BlockInfo>, q: nat,
            used: seq<set<nat>>, index: seq<nat>)
      requires |used| == |bs|
      ensures ScannedAll(kind, shrink, bs, q, bs, used, index, |index| - 1)
    {
    }

    lemma ScannedNext(kind: (nat, nat) -> ChunkKind, shrink: (nat, nat) -> bool, bs0: seq<BlockInfo>, q: nat,
            bs: seq<BlockInfo>, used: seq<set<nat>>, bs': seq<BlockInfo>, used': seq<set<nat>>, index: seq<nat>, i: nat)
      requires i < |index| && ScannedAll(kind, shrink, bs0, q, bs, used, index, i) && OthersKept(bs, bs', index[i])
      requires |used'| == |used| && (forall j | 0 <= j < |used| && j != index[i] :: used'[j] == used[j])
          && forall k, m | 0 <= k < m < |index| :: index[k] != index[m]
      requires index[i] < |bs| && Scanned(kind, shrink, index[i], bs0[index[i]], q, bs'[index[i]], used'[index[i]])
      ensures ScannedAll(kind, shrink, bs0, q, bs', used', index, i - 1)
    {
      hide BlankBlock, FreeTail, ShrinkIn, InUseIn;
      forall k | 0 <= k < |index| && i < k
        ensures Scanned(kind, shrink, index[k], bs0[index[k]], q, bs'[index[k]], used'[index[k]])
      {
        assert index[k] != index[i];
        assert Scanned(kind, shrink, index[k], bs0[index[k]], q, bs[index[k]], used[index[k]]);
      }
    }

    /** Scan the blocks of the index, newest first. */
    method ScanBlocks(index: seq<nat>, kind: (nat, nat) -> ChunkKind, shrink: (nat, nat) -> bool)
      returns (stranded: int, page: nat)
      requires Inv(0) && isYaffs2 && oldestDirtySequence == 0 && allocationBlock == -1 && DistinctSeqs(blocks)
          && NoneCollecting()
      requires StillToScan(index, |index|) && forall k, m | 0 <= k < m < |index| :: index[k] != index[m]
      modifies this, bitmap.chunkBits
      ensures Inv(0) && NoneCollecting() && |blocks| == |old(blocks)| && sequenceNumber == old(sequenceNumber)
      ensures ScannedAll(kind, shrink, old(blocks), sequenceNumber, blocks, used, index, -1)
      ensures stranded >= 0 ==>
          stranded in index && stranded < |blocks| && StrandedAt(old(blocks), sequenceNumber, kind, stranded)
      ensures stranded >= 0 ==> blocks[stranded].state == Empty && allocationBlock == -1 && 1 <= page < n
      ensures stranded < 0 ==> forall k | 0 <= k < |index| && index[k] < |old(blocks)| ::
          !StrandedAt(old(blocks), sequenceNumber, kind, index[k])
    {
      hide Inv, DistinctSeqs, Shape, BlankBlock, FreeTail, StrandedSoFar, Scanned, ScannedAll;
      ghost var bs := blocks;
      AllocIndex(0);
      stranded, page := -1, 0;
      var i := |index| - 1;
      StrandedStarts(bs, sequenceNumber, kind, index);
      NoneScanned(kind, shrink, bs, sequenceNumber, used, index);
      while i >= 0
        invariant -1 <= i < |index| && Inv(0) && oldestDirtySequence == 0 && DistinctSeqs(blocks) && NoneCollecting()
            && |blocks| == |bs|
        invariant StillToScan(index, i + 1) && sequenceNumber == old(sequenceNumber)
        invariant ScannedAll(kind, shrink, bs, sequenceNumber, blocks, used, index, i)
        invariant -1 <= allocationBlock < |blocks|
            && StrandedSoFar(bs, blocks, sequenceNumber, allocationBlock, kind, index, i, stranded, page)
      {
        ghost var before, alloc, was := blocks, allocationBlock, stranded;
        ghost var wasPage := page;
        OthersOlder(index, i);
        ghost var usedBefore := used;
        var strands, firstFree := ScanOneBlock(index[i], kind, shrink);
        StillSame(bs, before, sequenceNumber, alloc, kind, index, i, was, wasPage);
        ScannedNext(kind, shrink, bs, sequenceNumber, before, usedBefore, blocks, used, index, i);
        if strands {
          stranded, page := index[i], firstFree;
        }
        AllocIndex(0);
        StrandedNext(bs, before, blocks, sequenceNumber, alloc, allocationBlock, kind, index, i, was, wasPage, strands,
            firstFree);
        i := i - 1;
      }
      StrandedEnds(bs, blocks, sequenceNumber, allocationBlock, kind, index, stranded, page);
    }

    /** Of the blocks scanned so far, those after i, stranded is the one found blank that allocation was to go
        on in, if there is one. The blocks still to come are as they were, and once such a block or the one
        being allocated from is found none of them has the newest number. */
    ghost predicate StrandedSoFar(bs0: seq<BlockInfo>, bs: seq<BlockInfo>, q: nat, alloc: int,
            kind: (nat, nat) -> ChunkKind, index: seq<nat>, i: int, stranded: int, page: nat) {
      && -1 <= i < |index| && |bs| == |bs0|
      && (forall k | 0 <= k <= i :: index[k] < |bs| && bs[index[k]] == bs0[index[k]])
      && (stranded >= 0 ==>
          stranded < |bs| && (exists k :: i < k < |index| && index[k] == stranded) && StrandedAt(bs0, q, kind, stranded)
                            && bs[stranded].state == Empty && alloc == -1 && 1 <= page < n)
      && (stranded < 0 ==> forall k | i < k < |index| && index[k] < |bs0| :: !StrandedAt(bs0, q, kind, index[k]))
      && (stranded >= 0 || alloc >= 0 ==> forall k | 0 <= k <= i :: bs[index[k]].sequenceNumber != q)
    }

    lemma StrandedStarts(bs: seq<BlockInfo>, q: nat, kind: (nat, nat) -> ChunkKind, index: seq<nat>)
      requires forall k | 0 <= k < |index| :: index[k] < |bs|
      ensures StrandedSoFar(bs, bs, q, -1, kind, index, |index| - 1, -1, 0)
    {
    }

    lemma StillSame(bs0: seq<BlockInfo>, bs: seq<BlockInfo>, q: nat, alloc: int, kind: (nat, nat) -> ChunkKind,
            index: seq<nat>, i: nat, stranded: int, page: nat)
      requires StrandedSoFar(bs0, bs, q, alloc, kind, index, i, stranded, page)
      ensures i < |index| && index[i] < |bs| == |bs0| && bs[index[i]] == bs0[index[i]]
    {
    }

    lemma StrandedNext(bs0: seq<BlockInfo>, bs: seq<BlockInfo>, bs': seq<BlockInfo>, q: nat, alloc: int, alloc': int,
            kind: (nat, nat) -> ChunkKind, index: seq<nat>, i: int,
                       stranded: int, page: nat, strands: bool, firstFree: nat)
      requires StrandedSoFar(bs0, bs, q, alloc, kind, index, i, stranded, page) && 0 <= i
          && forall k, m | 0 <= k < m < |index| :: index[k] != index[m]
      requires OthersKept(bs, bs', index[i]) && forall k | 0 <= k <= i ::
          index[k] < |bs| && bs[index[k]].state == NeedsScanning
      requires bs[index[i]].sequenceNumber == q ==> forall k | 0 <= k < i :: bs[index[k]].sequenceNumber != q
      requires bs[index[i]].sequenceNumber != q ==> alloc' == alloc
      requires strands <==> StrandedAt(bs, q, kind, index[i])
      requires strands ==> bs'[index[i]].state == Empty && 1 <= firstFree < n && alloc' == alloc >= -1
      ensures StrandedSoFar(bs0, bs', q, alloc', kind, index, i - 1, if strands then index[i] else stranded, if strands
          then firstFree else page)
    {
      hide BlankBlock, FreeTail;
      forall k | 0 <= k < i
        ensures bs'[index[k]] == bs[index[k]]
      {
        assert index[k] != index[i];
      }
      if strands {
        assert exists k :: i - 1 < k < |index| && index[k] == index[i];
      } else if stranded >= 0 {
        var k :| i < k < |index| && index[k] == stranded;
        assert i - 1 < k && index[i] != stranded;
      }
    }

    lemma StrandedEnds(bs0: seq<BlockInfo>, bs: seq<BlockInfo>, q: nat, alloc: int, kind: (nat, nat) -> ChunkKind,
            index: seq<nat>, stranded: int, page: nat)
      requires StrandedSoFar(bs0, bs, q, alloc, kind, index, -1, stranded, page)
      ensures stranded >= 0 ==> stranded in index && stranded < |bs| && StrandedAt(bs0, q, kind, stranded)
      ensures stranded >= 0 ==> bs[stranded].state == Empty && alloc == -1 && 1 <= page < n
      ensures stranded < 0 ==> forall k | 0 <= k < |index| && index[k] < |bs0| :: !StrandedAt(bs0, q, kind, index[k])
    {
    }

    /** Among the blocks still to be scanned no two have the newest number. */
    lemma OthersOlder(index: seq<nat>, i: nat)
      requires DistinctSeqs(blocks) && StillToScan(index, i + 1) && i < |index| && forall k, m | 0 <= k < m < |index| ::
          index[k] != index[m]
      ensures blocks[index[i]].sequenceNumber == sequenceNumber ==> forall k | 0 <= k < i ::
          blocks[index[k]].sequenceNumber != sequenceNumber
    {
    }

    /** In bs, as it was before scanning, block b has the newest number; it is found to be blank. */
    ghost predicate StrandedAt(bs: seq<BlockInfo>, q: nat, kind: (nat, nat) -> ChunkKind, b: nat)
      requires b < |bs|
    {
      bs[b].sequenceNumber == q && BlankBlock(n, kind, b) && FreeTail(n, kind, b)
    }

    /** Mount a yaffs2 device. Of the blocks scanned the chunks in use are those that hold something wanted. A
        block that is blank counts as erased; one with nothing in use and no shrink header is erased, if the
        driver can, unless it is the newest and has unwritten chunks at its end; all others are full. The
        counters agree with the blocks afterwards, and no block is left to be filled up, but for one case: the
        newest block is blank, though the driver did not know it. Then, and only then, allocation is left to go
        on in a block that counts as erased. */
    method Yaffs2Scan(query: seq<(BlockState, nat)>, kind: (nat, nat) -> ChunkKind, shrink: (nat, nat) -> bool)
      requires Inv(0) && isYaffs2 && |query| == |blocks| && oldestDirtySequence == 0 && forall i | 0 <= i < |blocks| ::
          blocks[i].state == Unknown
      requires DistinctQuery(query) && forall i | 0 <= i < |query| ::
          query[i].0 in {Empty, NeedsScanning, CheckpointBlock, Dead}
      modifies this, bitmap.chunkBits
      ensures Shape() && Counts(n, blocks, nFreeChunks, nErasedBlocks, 0) && NoneCollecting() && |blocks| == |query|
      ensures Inv(0) <==> forall b: nat :: !Strands(n, query, kind, b)
      ensures Inv(0) ==> allocationBlock == -1
      ensures !Inv(0) ==> 0 <= allocationBlock < |blocks| && Strands(n, query, kind, allocationBlock) && blocks[allocationBlock].state == Empty && 1 <= allocationPage < n
      ensures |used| == |blocks| && forall i: nat | i < |blocks| && ToScan(query[i]) ::
                && used[i] == InUseIn(n, kind, i)
                && blocks[i].state == if BlankBlock(n, kind, i) then Empty
                    else if InUseIn(n, kind, i) != {} || ShrinkIn(n, kind, shrink, i)
                        || (FreeTail(n, kind, i) && Newest(query, i)) then Full
                    else if erases(i, query[i].1) then Empty else Dead
    {
      hide Inv, DistinctSeqs, Shape, Strands, StrandedAt, BlankBlock, FreeTail, Counts, PagesOk, ChunkBitmap.Valid,
          ChunkBitmap.Used;
      QueryBlocks(query);
      QueriedDistinct(query);
      ghost var bs := blocks;
      var stranded, page := ScanAllBlocks(query, kind, shrink);
      InvParts(0);
      AllocIndex(0);
      ShapeParts();
      NewestNumber(query, bs, sequenceNumber);
      if stranded >= 0 {
        assert StrandedAt(bs, sequenceNumber, kind, stranded);
        StrandedIs(query, bs, sequenceNumber, kind, stranded);
        allocationBlock, allocationPage := stranded, page;
      } else {
        forall b: nat
          ensures !Strands(n, query, kind, b)
        {
          NotStranded(query, bs, sequenceNumber, kind, b);
        }
      }
      SkipRestOfBlock();
      if stranded >= 0 {
        PartsShape();
        NotInv(0);
        assert Strands(n, query, kind, allocationBlock);
      } else {
        InvParts(0);
        AllocIndex(0);
      }
    }

    /** It is to be scanned, and no other block to be scanned has a greater number. */
    static predicate Newest(query: seq<(BlockState, nat)>, b: nat) {
      b < |query| && ToScan(query[b]) && forall j | 0 <= j < |query| && ToScan(query[j]) :: query[j].1 <= query[b].1
    }

    static lemma NewestNumber(query: seq<(BlockState, nat)>, bs: seq<BlockInfo>, q: nat)
      requires q == LOWEST_SEQUENCE_NUMBER || exists i :: 0 <= i < |query| && ToScan(query[i]) && query[i].1 == q
      requires forall i | 0 <= i < |query| && ToScan(query[i]) :: query[i].1 <= q
      ensures forall b: nat | b < |query| && ToScan(query[b]) :: query[b].1 == q <==> Newest(query, b)
    {
    }

    method ScanAllBlocks(query: seq<(BlockState, nat)>, kind: (nat, nat) -> ChunkKind, shrink: (nat, nat) -> bool)
      returns (stranded: int, page: nat)
      requires Inv(0) && isYaffs2 && |query| == |blocks| && oldestDirtySequence == 0 && allocationBlock == -1
          && DistinctSeqs(blocks) && NoneCollecting()
      requires |used| == |soft| == |blocks|
      requires forall i | 0 <= i < |blocks| ::
          blocks[i] == BlockInfo(query[i].0, 0, 0, query[i].1, false, false) && used[i] == {} && soft[i] == {}
      requires forall i | 0 <= i < |blocks| && blocks[i].state == NeedsScanning
          && GoodSequence(blocks[i].sequenceNumber) :: blocks[i].sequenceNumber <= sequenceNumber
      modifies this, bitmap.chunkBits
      ensures Inv(0) && NoneCollecting() && |blocks| == |query| && sequenceNumber == old(sequenceNumber)
      ensures |used| == |blocks| && forall i: nat | i < |blocks| && ToScan(query[i]) ::
          Scanned(kind, shrink, i, BlockInfo(NeedsScanning, 0, 0, query[i].1, false, false), sequenceNumber, blocks[i],
              used[i])
      ensures stranded >= 0 ==>
          stranded < |query| && ToScan(query[stranded]) && StrandedAt(old(blocks), sequenceNumber, kind, stranded)
      ensures stranded >= 0 ==> blocks[stranded].state == Empty && allocationBlock == -1 && 1 <= page < n
      ensures stranded < 0 ==> forall b | 0 <= b < |query| && ToScan(query[b]) ::
          !StrandedAt(old(blocks), sequenceNumber, kind, b)
    {
      hide Inv, DistinctSeqs, Shape, BlankBlock, FreeTail, Scanned;
      ghost var bs := blocks;
      var index := SortBlocks();
      stranded, page := ScanBlocks(index, kind, shrink);
      forall i: nat | i < |blocks| && ToScan(query[i])
        ensures Scanned(kind, shrink, i, bs[i], sequenceNumber, blocks[i], used[i]) && exists k ::
            0 <= k < |index| && index[k] == i
      {
        assert bs[i] == BlockInfo(query[i].0, 0, 0, query[i].1, false, false);
        assert Listed(index, i);
      }
    }

    /** The newest number is that of the newest block to scan. */
    lemma StrandedIs(query: seq<(BlockState, nat)>, bs: seq<BlockInfo>, q: nat, kind: (nat, nat) -> ChunkKind, b: nat)
      requires b < |query| == |bs| && ToScan(query[b]) && StrandedAt(bs, q, kind, b)
          && bs[b].sequenceNumber == query[b].1
      requires forall i | 0 <= i < |query| && ToScan(query[i]) :: query[i].1 <= q
      ensures Strands(n, query, kind, b)
    {
    }

    lemma NotStranded(query: seq<(BlockState, nat)>, bs: seq<BlockInfo>, q: nat, kind: (nat, nat) -> ChunkKind, b: nat)
      requires |query| == |bs| && forall i | 0 <= i < |query| :: bs[i].sequenceNumber == query[i].1
      requires q == LOWEST_SEQUENCE_NUMBER || exists i :: 0 <= i < |query| && ToScan(query[i]) && query[i].1 == q
      requires forall i | 0 <= i < |query| && ToScan(query[i]) :: query[i].1 <= q
      requires forall i | 0 <= i < |query| && ToScan(query[i]) :: !StrandedAt(bs, q, kind, i)
      ensures !Strands(n, query, kind, b)
    {
    }

    lemma ShapeParts()
      requires Shape()
      ensures n > 0 && bitmap.Valid() && bitmap.chunksPerBlock == n && bitmap.nBlocks == |blocks| == |used|
      ensures PagesOk(n, blocks, used, soft) && forall i: nat | i < |blocks| :: used[i] == bitmap.Used(i)
    {
    }

    lemma PartsShape()
      requires n > 0 && bitmap.Valid() && bitmap.chunksPerBlock == n && bitmap.nBlocks == |blocks| == |used|
      requires PagesOk(n, blocks, used, soft) && forall i: nat | i < |blocks| :: used[i] == bitmap.Used(i)
      ensures Shape()
    {
    }

    lemma InvParts(slack: int)
      requires Inv(slack)
      ensures Shape() && Counts(n, blocks, nFreeChunks, nErasedBlocks, slack)
    {
    }

    /** Allocation going on in a block that is not being filled. */
    lemma NotInv(slack: int)
      requires 0 <= allocationBlock < |blocks| && blocks[allocationBlock].state != Allocating
      ensures !Inv(slack)
    {
    }

    lemma AllocIndex(slack: int)
      requires Inv(slack)
      ensures -1 <= allocationBlock < |blocks| && forall i | 0 <= i < |blocks| ::
          blocks[i].state == Allocating <==> i == allocationBlock
    {
      SeqFacts(isYaffs2, blocks, sequenceNumber, allocationBlock);
    }

    // ----- yaffs1 -----

    /** Which of two chunks that claim one place is the newer: chunks are written one after the other, and
        count in two bits. */
    static predicate Replaces(existingSerial: nat, newSerial: nat) {
      (existingSerial + 1) % 4 == newSerial
    }

    /** Two chunks found in this order, written as the first-th and the second-th for their place: the rule keeps
        the newer exactly when it was written right after the older, give or take four writes, or is
        found first and is not three writes ahead, give or take four. */
    static lemma NewerHeaderKept(first: nat, second: nat)
      requires first != second
      ensures (Replaces(first % 4, second % 4) <==> first < second) <==>
              (if first < second then (second - first) % 4 == 1 else (first - second) % 4 != 3)
    {
      if first < second {
        assert (second - first) % 4 == (second % 4 - first % 4) % 4;
      } else {
        assert (first - second) % 4 == (first % 4 - second % 4) % 4;
      }
    }

    /** The place that a chunk claims. */
    static function Key(tag: (nat, nat) -> ChunkTag, at: (nat, nat)): (nat, nat) {
      (tag(at.0, at.1).obj, tag(at.0, at.1).chunk)
    }

    /** Another chunk has been found: of two that claim the same place one is kept. */
    static function Place(tag: (nat, nat) -> ChunkTag, held: Holders, at: (nat, nat)): Holders {
      var k := Key(tag, at);
      if k in held && !Replaces(tag(held[k].0, held[k].1).serial, tag(at.0, at.1).serial) then held
      else held[k := at]
    }

    /** The chunks kept of those found in this order. */
    static function Placed(tag: (nat, nat) -> ChunkTag, found: seq<(nat, nat)>): Holders {
      if found == [] then map[] else Place(tag, Placed(tag, found[..|found| - 1]), found[|found| - 1])
    }

    static ghost predicate Reached(kind: (nat, nat) -> ChunkKind, b: nat, c: nat) {
      forall p: nat | p < c :: kind(b, p) != Unused
    }

    /** What the scan finds in the first c chunks of block b: it stops at the first that was never written. */
    static ghost function FoundIn(kind: (nat, nat) -> ChunkKind, tag: (nat, nat) -> ChunkTag, b: nat, c: nat):
        seq<(nat, nat)>
    {
      if c == 0 then []
      else FoundIn(kind, tag, b, c - 1) + if Claims(kind, tag, b, c - 1) then [(b, c - 1)] else []
    }

    static ghost predicate Claims(kind: (nat, nat) -> ChunkKind, tag: (nat, nat) -> ChunkTag, b: nat, c: nat) {
      kind(b, c) == InUse && Reached(kind, b, c)
    }

    /** What is behind the first chunk that was never written is not found. */
    static lemma {:induction false} NothingMore(kind: (nat, nat) -> ChunkKind, tag: (nat, nat) -> ChunkTag, b: nat,
                                                c: nat, n: nat)
      requires c <= n && !Reached(kind, b, c)
      ensures FoundIn(kind, tag, b, n) == FoundIn(kind, tag, b, c)
    {
      if c < n {
        NothingMore(kind, tag, b, c, n - 1);
      }
    }

    static lemma NextReached(kind: (nat, nat) -> ChunkKind, b: nat, c: nat)
      ensures Reached(kind, b, 0)
      ensures Reached(kind, b, c + 1) <==> Reached(kind, b, c) && kind(b, c) != Unused
    {
    }

    static lemma FoundMore(kind: (nat, nat) -> ChunkKind, tag: (nat, nat) -> ChunkTag, b: nat, c: nat,
                           found: seq<(nat, nat)>)
      ensures found + FoundIn(kind, tag, b, 0) == found
      ensures found + FoundIn(kind, tag, b, c + 1)
          == if Claims(kind, tag, b, c) then found + FoundIn(kind, tag, b, c) + [(b, c)]
             else found + FoundIn(kind, tag, b, c)
    {
    }

    /** And in the first b blocks. */
    static ghost function FoundUpTo(n: nat, kind: (nat, nat) -> ChunkKind, tag: (nat, nat) -> ChunkTag,
                                    query: seq<(BlockState, nat)>, b: nat): seq<(nat, nat)>
      requires b <= |query|
    {
      if b == 0 then []
      else
        FoundUpTo(n, kind, tag, query, b - 1)
        + if query[b - 1].0 == NeedsScanning then FoundIn(kind, tag, b - 1, n) else []
    }

    static lemma {:induction false} PlacedMore(tag: (nat, nat) -> ChunkTag, found: seq<(nat, nat)>, at: (nat, nat))
      ensures Placed(tag, found + [at]) == Place(tag, Placed(tag, found), at)
    {
      assert (found + [at])[..|found|] == found;
    }

    /** Whatever was found, its place is held, by a chunk that claims it. */
    static lemma {:induction false} PlacedKeys(tag: (nat, nat) -> ChunkTag, found: seq<(nat, nat)>, k: (nat, nat))
      ensures k in Placed(tag, found) <==> exists i :: 0 <= i < |found| && Key(tag, found[i]) == k
      ensures k in Placed(tag, found) ==> Key(tag, Placed(tag, found)[k]) == k
    {
      if found != [] {
        PlacedKeys(tag, found[..|found| - 1], k);
        assert forall i | 0 <= i < |found| - 1 :: found[..|found| - 1][i] == found[i];
        if k in Placed(tag, found) && k !in Placed(tag, found[..|found| - 1]) {
          assert Key(tag, found[|found| - 1]) == k;
        }
      }
    }

    /** Chunks that claim other places do not matter. */
    static lemma {:induction false} NotClaimed(tag: (nat, nat) -> ChunkTag, found: seq<(nat, nat)>, m: nat,
            k: (nat, nat))
      requires m <= |found| && forall i | m <= i < |found| :: Key(tag, found[i]) != k
      ensures k in Placed(tag, found) <==> k in Placed(tag, found[..m])
      ensures k in Placed(tag, found) ==> Placed(tag, found)[k] == Placed(tag, found[..m])[k]
      decreases |found|
    {
      if m == |found| {
        assert found[..m] == found;
      } else {
        NotClaimed(tag, found[..|found| - 1], m, k);
        assert found[..|found| - 1][..m] == found[..m];
      }
    }

    /** When power failed in a write, two chunks claim one place. The scan keeps the newer exactly when it was
        written right after the older, give or take four writes, or is found first and is not three writes
        ahead, give or take four. */
    static lemma NewestOfTwo(tag: (nat, nat) -> ChunkTag, found: seq<(nat, nat)>, i: nat, j: nat, first: nat,
            second: nat)
      requires i < j < |found| && Key(tag, found[i]) == Key(tag, found[j]) && first != second
      requires forall m | 0 <= m < |found| && m != i && m != j :: Key(tag, found[m]) != Key(tag, found[i])
      requires tag(found[i].0, found[i].1).serial == first % 4 && tag(found[j].0, found[j].1).serial == second % 4
      requires found[i] != found[j]
      ensures var k := Key(tag, found[i]);
              && k in Placed(tag, found)
              && (Placed(tag, found)[k] == (if first < second then found[j] else found[i]) <==>
                  if first < second then (second - first) % 4 == 1 else (first - second) % 4 != 3)
    {
      var k := Key(tag, found[i]);
      assert found[..i + 1][..i] == found[..i] && found[..j + 1][..j] == found[..j];
      NotClaimed(tag, found[..i], 0, k);
      assert Placed(tag, []) == map[];
      assert found[..i][..0] == [];
      assert found[..j][..i + 1] == found[..i + 1];
      NotClaimed(tag, found[..j], i + 1, k);
      NotClaimed(tag, found, j + 1, k);
      NewerHeaderKept(first, second);
    }

    /** The chunks in use are the ones kept. */
    static ghost predicate Held(tag: (nat, nat) -> ChunkTag, used: seq<set<nat>>, held: Holders) {
      && (forall k | k in held :: held[k].0 < |used| && Key(tag, held[k]) == k)
      && (forall b: nat, p: nat | b < |used| :: p in used[b] <==> IsHeld(tag, held, (b, p)))
    }

    static predicate IsHeld(tag: (nat, nat) -> ChunkTag, held: Holders, at: (nat, nat)) {
      Key(tag, at) in held && held[Key(tag, at)] == at
    }

    /** The chunks in use after a chunk has been found, and one of two that claim its place has gone. */
    static ghost function UsedAfter(tag: (nat, nat) -> ChunkTag, used: seq<set<nat>>, held: Holders,
                                    at: (nat, nat)): seq<set<nat>>
      requires at.0 < |used| && forall k | k in held :: held[k].0 < |used|
    {
      var k := Key(tag, at);
      var more := used[at.0 := used[at.0] + {at.1}];
      if k !in held then more
      else if Replaces(tag(held[k].0, held[k].1).serial, tag(at.0, at.1).serial) then
        more[held[k].0 := more[held[k].0] - {held[k].1}]
      else used
    }

    static lemma HeldPlaced(tag: (nat, nat) -> ChunkTag, used: seq<set<nat>>, held: Holders, at: (nat, nat))
      requires Held(tag, used, held) && at.0 < |used| && at.1 !in used[at.0]
      ensures forall k | k in held :: held[k].0 < |used|
      ensures Held(tag, UsedAfter(tag, used, held, at), Place(tag, held, at))
    {
      hide Replaces;
      var used', held', k := UsedAfter(tag, used, held, at), Place(tag, held, at), Key(tag, at);
      assert IsHeld(tag, held, at) <==> at.1 in used[at.0];
      forall b: nat, p: nat | b < |used|
        ensures p in used'[b] <==> IsHeld(tag, held', (b, p))
      {
        assert p in used[b] <==> IsHeld(tag, held, (b, p));
      }
    }

    static lemma HeldIn(tag: (nat, nat) -> ChunkTag, used: seq<set<nat>>, held: Holders, k: (nat, nat))
      requires Held(tag, used, held) && k in held
      ensures held[k].0 < |used| && held[k].1 in used[held[k].0]
    {
      assert IsHeld(tag, held, held[k]);
    }

    static predicate SameOrigin(b: BlockInfo, b': BlockInfo) {
      b'.hasShrinkHeader == b.hasShrinkHeader && b'.sequenceNumber == b.sequenceNumber
      && b'.needsRetiring == b.needsRetiring
    }

    /** No page of a deleted file, and every block with a page in use, but for the one scanned, is full. */
    ghost predicate ScannedFull(blk: int)
      reads this
    {
      && |used| == |soft| == |blocks| && (forall j | 0 <= j < |soft| :: soft[j] == {})
      && forall j | 0 <= j < |blocks| && j != blk && used[j] != {} :: blocks[j].state == Full
    }

    /** A chunk in use is found. */
    method UseChunk(blk: nat, c: nat)
      requires Scanning(blk, c) && !isYaffs2 && c < n && c !in used[blk] && ScannedFull(blk)
      modifies this, bitmap.chunkBits
      ensures Scanning(blk, c + 1) && ScanKeepsAll(blk) && allocationBlock == old(allocationBlock)
      ensures used == old(used)[blk := old(used)[blk] + {c}] && ScannedFull(blk)
      ensures SameOrigin(old(blocks)[blk], blocks[blk])
    {
      hide PagesOk, Counts, SeqOk, OldestOk, AllocOk, ChunkBitmap.Valid, ChunkBitmap.Used;
      FoundChunk(blk, c, false, c - |used[blk]|);
    }

    /** A chunk in use goes, of the block scanned or of one scanned before. */
    method DropChunk(blk: nat, b: nat, page: nat, ghost s: int)
      requires Scanning(blk, s) && !isYaffs2 && ScannedFull(blk) && b < |used| && page in used[b]
      modifies this, bitmap.chunkBits
      ensures Scanning(blk, s) && ScanKeepsAll(blk) && allocationBlock == old(allocationBlock)
      ensures used == old(used)[b := old(used)[b] - {page}] && ScannedFull(blk)
      ensures SameOrigin(old(blocks)[blk], blocks[blk])
    {
      hide PagesOk, Counts, SeqOk, OldestOk, AllocOk, ChunkBitmap.Valid, ChunkBitmap.Used;
      DeleteChunk(b, page, s - |used[blk]|);
    }

    /** A chunk in use is found. If another is held already that claims the same place, one of them goes:
        the one held if the new one counts one more, else the new one. */
    method PlaceChunk(blk: nat, c: nat, tag: (nat, nat) -> ChunkTag, held: Holders) returns (held': Holders)
      requires Scanning(blk, c) && !isYaffs2 && c < n && c !in used[blk] && Held(tag, used, held) && ScannedFull(blk)
      modifies this, bitmap.chunkBits
      ensures Scanning(blk, c + 1) && ScanKeepsAll(blk) && allocationBlock == old(allocationBlock)
      ensures held' == Place(tag, held, (blk, c)) && Held(tag, used, held') && ScannedFull(blk)
      ensures used[blk] <= old(used)[blk] + {c} && SameOrigin(old(blocks)[blk], blocks[blk])
    {
      hide Inv, Held, Replaces, ScannedFull;
      HeldPlaced(tag, used, held, (blk, c));
      ghost var want := UsedAfter(tag, used, held, (blk, c));
      var k := Key(tag, (blk, c));
      if k in held {
        HeldIn(tag, used, held, k);
      }
      UseChunk(blk, c);
      held' := held[k := (blk, c)];
      if k in held {
        if Replaces(tag(held[k].0, held[k].1).serial, tag(blk, c).serial) {
          DropChunk(blk, held[k].0, held[k].1, c + 1);
        } else {
          DropChunk(blk, blk, c, c + 1);
          held' := held;
          assert old(used)[blk] + {c} - {c} == old(used)[blk];
        }
      }
      assert used == want;
    }

    /** Scanning may erase blocks that have been scanned, but does not touch those still to come. */
    twostate predicate ScanKeepsAll(blk: nat)
      reads this
    {
      soft == old(soft) && oldestDirtySequence == 0 && OthersScanned(blk, old(blocks), old(used), blocks, used)
    }

    ghost predicate OthersScanned(blk: nat, bs: seq<BlockInfo>, used: seq<set<nat>>, bs': seq<BlockInfo>,
            used': seq<set<nat>>) {
      && |bs'| == |bs| && |used'| == |used|
      && (forall j | 0 <= j < |bs| && j != blk && !Written(bs[j].state) && bs[j].state != CheckpointBlock
          && j < |used| :: bs'[j] == bs[j] && used'[j] == used[j])
      && (forall j: nat | j < |bs| && j != blk && bs[j].state == Full && j < |used| ::
          if bs'[j].state == Full
          then SameOrigin(bs[j], bs'[j]) && (used[j] != {} && !bs'[j].hasShrinkHeader ==> used'[j] != {})
          else used'[j] == {} && bs'[j].state == if !bs[j].needsRetiring && erases(j, bs[j].sequenceNumber) then Empty
                   else Dead)
      && (forall j | 0 <= j < |bs| && j != blk && bs[j].state != Collecting :: bs'[j].state != Collecting)
    }

    /** Chunk c and those after it were never written. */
    method RestIsFree(blk: nat, c: nat)
      requires Scanning(blk, c) && c <= n
      modifies `nFreeChunks
      ensures Scanning(blk, n) && (ScannedFull(blk) <==> old(ScannedFull(blk)))
    {
      hide PagesOk, SeqOk, OldestOk, AllocOk, ChunkBitmap.Valid, ChunkBitmap.Used;
      nFreeChunks := nFreeChunks + (n - c);
    }

    /** Data of something that is not a file goes at once. */
    method StrayChunk(blk: nat, c: nat, ghost tag: (nat, nat) -> ChunkTag, ghost held: Holders)
      requires Scanning(blk, c) && !isYaffs2 && c < n && c !in used[blk] && Held(tag, used, held) && ScannedFull(blk)
      modifies this, bitmap.chunkBits
      ensures Scanning(blk, c + 1) && ScanKeepsAll(blk) && allocationBlock == old(allocationBlock)
      ensures used == old(used) && Held(tag, used, held) && ScannedFull(blk)
      ensures SameOrigin(old(blocks)[blk], blocks[blk])
    {
      hide Inv, Held, ScannedFull;
      UseChunk(blk, c);
      DropChunk(blk, blk, c, c + 1);
      assert old(used)[blk] + {c} - {c} == old(used)[blk];
      assert used == old(used);
    }

    /** A chunk that was written is in use and placed, or goes at once, or cannot be used. */
    method LookAt(blk: nat, c: nat, k: ChunkKind, tag: (nat, nat) -> ChunkTag, held: Holders) returns (held': Holders)
      requires Scanning(blk, c) && !isYaffs2 && c < n && c !in used[blk] && Held(tag, used, held) && ScannedFull(blk)
      modifies this, bitmap.chunkBits
      ensures Scanning(blk, c + 1) && ScanKeepsAll(blk) && allocationBlock == old(allocationBlock)
      ensures held' == if k == InUse then Place(tag, held, (blk, c)) else held
      ensures Held(tag, used, held') && ScannedFull(blk)
      ensures used[blk] <= old(used)[blk] + {c} && SameOrigin(old(blocks)[blk], blocks[blk])
    {
      hide Inv, Held, ScannedFull, Place;
      held' := held;
      if k == Stale {
        StrayChunk(blk, c, tag, held);
      } else if k == InUse {
        held' := PlaceChunk(blk, c, tag, held);
      } else {
        FreeChunk(blk, c);
      }
    }

    /** yaffs1: scan one block from its first chunk on. The first chunk that was never written ends it:
        there the block is erased, or partly written. */
    method ScanForward(blk: nat, kind: (nat, nat) -> ChunkKind, tag: (nat, nat) -> ChunkTag,
                       held: Holders, ghost found: seq<(nat, nat)>)
      returns (state: BlockState, held': Holders)
      requires blk < |blocks| && |used| == |blocks| && used[blk] == {} && !blocks[blk].hasShrinkHeader
          && Scanning(blk, 0) && !isYaffs2
      requires Held(tag, used, held) && ScannedFull(blk) && held == Placed(tag, found)
      modifies this, bitmap.chunkBits
      ensures Scanning(blk, n) && ScanKeepsAll(blk) && allocationBlock == old(allocationBlock)
          && state in {NeedsScanning, Allocating, Empty}
      ensures state == Empty <==> kind(blk, 0) == Unused
      ensures SameOrigin(old(blocks)[blk], blocks[blk]) && (state == Empty ==> used[blk] == {})
      ensures Held(tag, used, held') && ScannedFull(blk) && held' == Placed(tag, found + FoundIn(kind, tag, blk, n))
    {
      hide Inv, Held, Placed, Place, Reached, FoundIn, ScannedFull;
      state, held' := NeedsScanning, held;
      FoundMore(kind, tag, blk, 0, found);
      NextReached(kind, blk, 0);
      var c := 0;
      while c < n && state == NeedsScanning
        invariant 0 <= c <= n && ScanKeepsAll(blk) && allocationBlock == old(allocationBlock)
            && state in {NeedsScanning, Allocating, Empty}
        invariant Scanning(blk, if state == NeedsScanning then c else n)
        invariant forall p | p in used[blk] :: p < c
        invariant (state == Empty <==> c > 0 && kind(blk, 0) == Unused) && (state != NeedsScanning ==> c > 0)
        invariant SameOrigin(old(blocks)[blk], blocks[blk]) && (c == 0 || state == Empty ==> used[blk] == {})
        invariant Held(tag, used, held') && ScannedFull(blk) && held' == Placed(tag, found + FoundIn(kind, tag, blk, c))
        invariant Reached(kind, blk, c) <==> state == NeedsScanning
        decreases n - c, state == NeedsScanning
      {
        var k := kind(blk, c);
        NextReached(kind, blk, c);
        FoundMore(kind, tag, blk, c, found);
        if k == Unused {
          state := if c == 0 then Empty else Allocating;
          RestIsFree(blk, c);
        } else {
          if k == InUse {
            PlacedMore(tag, found + FoundIn(kind, tag, blk, c), (blk, c));
          }
          held' := LookAt(blk, c, k, tag, held');
        }
        c := c + 1;
      }
      if state != NeedsScanning {
        NothingMore(kind, tag, blk, c, n);
      }
    }

    /** What becomes of a block that has been scanned, in whose chunks only those that are held are in use. */
    predicate Settled(kind: (nat, nat) -> ChunkKind, i: nat, was: BlockInfo, b: BlockInfo, u: set<nat>) {
      b.state == (if u != {} then Full
                  else if kind(i, 0) == Unused || (!was.needsRetiring && erases(i, was.sequenceNumber)) then Empty
                  else Dead)
      && (b.state == Full ==> SameOrigin(was, b)) && (u != {} ==> kind(i, 0) != Unused)
    }

    /** The blocks before upTo have been scanned or did not need to be; the others are as the driver said. */
    ghost predicate SettledTo(kind: (nat, nat) -> ChunkKind, query: seq<(BlockState, nat)>, upTo: nat,
            bs: seq<BlockInfo>, used: seq<set<nat>>) {
      && upTo <= |query| == |bs| == |used|
      && (forall j: nat | j < upTo && query[j].0 != NeedsScanning :: bs[j].state == query[j].0)
      && (forall j: nat | j < upTo && query[j].0 == NeedsScanning ::
          Settled(kind, j, BlockInfo(NeedsScanning, 0, 0, query[j].1, false, false), bs[j], used[j]))
      && (forall j | upTo <= j < |query| ::
          bs[j] == BlockInfo(query[j].0, 0, 0, query[j].1, false, false) && used[j] == {})
    }

    lemma NextSettled(kind: (nat, nat) -> ChunkKind, query: seq<(BlockState, nat)>, blk: nat, bs: seq<BlockInfo>,
            used: seq<set<nat>>, bs': seq<BlockInfo>, used': seq<set<nat>>)
      requires forall i | 0 <= i < |query| :: query[i].0 in {Empty, NeedsScanning, Dead}
      requires blk < |query| && SettledTo(kind, query, blk, bs, used) && OthersScanned(blk, bs, used, bs', used')
      requires query[blk].0 == NeedsScanning && Settled(kind, blk, bs[blk], bs'[blk], used'[blk])
      ensures SettledTo(kind, query, blk + 1, bs', used')
    {
    }

    lemma AllSettled(kind: (nat, nat) -> ChunkKind, query: seq<(BlockState, nat)>, bs: seq<BlockInfo>,
            used: seq<set<nat>>)
      requires SettledTo(kind, query, |query|, bs, used)
      ensures forall i: nat | i < |query| ::
                bs[i].state == if query[i].0 != NeedsScanning then query[i].0
                    else if used[i] != {} then Full
                    else if kind(i, 0) == Unused || erases(i, query[i].1) then Empty else Dead
    {
    }

    /** yaffs1: scan one block, settle its state and see whether it is dirty. A block that was partly
        written is not written any further. */
    method ScanOneForward(blk: nat, kind: (nat, nat) -> ChunkKind, tag: (nat, nat) -> ChunkTag,
                          held: Holders, ghost found: seq<(nat, nat)>)
      returns (held': Holders)
      requires Inv(0) && !isYaffs2 && NoneCollecting() && blk < |blocks| && |used| == |soft| == |blocks|
      requires blocks[blk].state == NeedsScanning && used[blk] == {} && soft[blk] == {} && !blocks[blk].hasShrinkHeader
      requires Held(tag, used, held) && ScannedFull(-1) && held == Placed(tag, found)
      modifies this, bitmap.chunkBits
      ensures Inv(0) && NoneCollecting() && ScanKeepsAll(blk) && |used| == |soft| == |blocks|
          && allocationBlock == old(allocationBlock)
      ensures blk < |blocks| && Settled(kind, blk, old(blocks)[blk], blocks[blk], used[blk])
      ensures Held(tag, used, held') && ScannedFull(-1) && held' == Placed(tag, found + FoundIn(kind, tag, blk, n))
    {
      hide Inv, DistinctSeqs, Shape, Held, Placed;
      NoOldestIn();
      StartScanning(blk);
      var state;
      state, held' := ScanForward(blk, kind, tag, held, found);
      if state != Empty {
        state := Full;
      }
      EndOfBlock(blk, state, 0);
    }

    lemma NoOldestIn()
      requires Inv(0) && !isYaffs2
      ensures oldestDirtySequence == 0
    {
    }

    /** Before the scan nothing is in use. */
    lemma NothingHeld(tag: (nat, nat) -> ChunkTag)
      requires |used| == |soft| == |blocks| && forall b | 0 <= b < |used| :: used[b] == {} && soft[b] == {}
      ensures Held(tag, used, map[]) && ScannedFull(-1)
    {
    }

    static lemma NothingFound(n: nat, kind: (nat, nat) -> ChunkKind, tag: (nat, nat) -> ChunkTag,
                              query: seq<(BlockState, nat)>)
      ensures Placed(tag, FoundUpTo(n, kind, tag, query, 0)) == map[]
    {
    }

    static lemma FoundNext(n: nat, kind: (nat, nat) -> ChunkKind, tag: (nat, nat) -> ChunkTag,
                           query: seq<(BlockState, nat)>, b: nat)
      requires b < |query|
      ensures FoundUpTo(n, kind, tag, query, b + 1)
          == FoundUpTo(n, kind, tag, query, b) + if query[b].0 == NeedsScanning then FoundIn(kind, tag, b, n) else []
      ensures query[b].0 != NeedsScanning ==>
          FoundUpTo(n, kind, tag, query, b + 1) == FoundUpTo(n, kind, tag, query, b)
    {
    }

    /** Mount a yaffs1 device: the counters agree with the blocks afterwards, and the chunks in use are those
        kept of all that were found. */
    method Yaffs1Scan(query: seq<(BlockState, nat)>, kind: (nat, nat) -> ChunkKind, tag: (nat, nat) -> ChunkTag)
      returns (held: Holders)
      requires Inv(0) && !isYaffs2 && |query| == |blocks| && oldestDirtySequence == 0 && forall i | 0 <= i < |blocks| ::
          blocks[i].state == Unknown
      requires forall i | 0 <= i < |query| :: query[i].0 in {Empty, NeedsScanning, Dead}
      modifies this, bitmap.chunkBits
      ensures Inv(0) && NoneCollecting() && allocationBlock == -1 && |blocks| == |query|
      ensures |used| == |blocks| && forall i: nat | i < |blocks| ::
                blocks[i].state == if query[i].0 != NeedsScanning then query[i].0
                    else if used[i] != {} then Full
                    else if kind(i, 0) == Unused || erases(i, query[i].1) then Empty else Dead
      ensures held == Placed(tag, FoundUpTo(n, kind, tag, query, |query|)) && Held(tag, used, held)
    {
      hide Inv, DistinctSeqs, Shape, Held, ScannedFull, FoundIn, FoundUpTo, Placed, Settled;
      QueryBlocks(query);
      NothingHeld(tag);
      NothingFound(n, kind, tag, query);
      held := map[];
      var blk := 0;
      while blk < |blocks|
        invariant 0 <= blk <= |blocks| == |query| && Inv(0) && NoneCollecting() && allocationBlock == -1
            && |used| == |soft| == |blocks|
        invariant SettledTo(kind, query, blk, blocks, used) && forall j | blk <= j < |soft| :: soft[j] == {}
        invariant held == Placed(tag, FoundUpTo(n, kind, tag, query, blk)) && Held(tag, used, held) && ScannedFull(-1)
      {
        FoundNext(n, kind, tag, query, blk);
        if blocks[blk].state == NeedsScanning {
          ghost var bs, u := blocks, used;
          held := ScanOneForward(blk, kind, tag, held, FoundUpTo(n, kind, tag, query, blk));
          NextSettled(kind, query, blk, bs, u, blocks, used);
        }
        blk := blk + 1;
      }
      AllSettled(kind, query, blocks, used);
    }
  }

  /** What comes of it: a device of one block of two chunks, both blank, is mounted, and the next chunk is
      taken. The block is full then, and counts as erased all the same. */
  method StrandedMount() returns (dev: Accounts, page: nat)
    ensures page == 1 && |dev.blocks| == 1 && dev.blocks[0].state == Full
    ensures dev.nErasedBlocks == 1 != BlocksIn(dev.blocks, Empty)
  {
    hide Accounts.Inv, Accounts.Shape, Counts, PagesOk;
    dev := new Accounts(true, 1, 2, 0, 0, (b: nat, s: nat) => true);
    var query := [(NeedsScanning, LOWEST_SEQUENCE_NUMBER)];
    var kind := (b: nat, c: nat) => Unused;
    BlankStrands(query, kind);
    dev.Yaffs2Scan(query, kind, (b: nat, c: nat) => false);
    dev.ShapeParts();
    OneErased(2, dev.blocks, dev.nFreeChunks, dev.nErasedBlocks);
    page := dev.NextPage();
    SomeIn(dev.blocks, Empty);
  }

  lemma BlankStrands(query: seq<(BlockState, nat)>, kind: (nat, nat) -> ChunkKind)
    requires query == [(NeedsScanning, LOWEST_SEQUENCE_NUMBER)] && forall b: nat, c: nat :: kind(b, c) == Unused
    ensures Strands(2, query, kind, 0)
  {
    assert 1 <= 1 < 2 && kind(0, 1) == Unused && NothingFrom(2, kind, 0, 1);
  }

  lemma OneErased(n: nat, bs: seq<BlockInfo>, nFree: int, nErased: int)
    requires Counts(n, bs, nFree, nErased, 0) && |bs| == 1 && bs[0].state == Empty
    ensures nErased == 1
  {
    assert bs[..|bs| - 1] == [];
    assert BlocksIn(bs, Empty) == BlocksIn([], Empty) + 1;
  }
}
