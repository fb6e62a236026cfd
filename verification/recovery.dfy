/** Mounting: the scan of the whole of NAND, and the proof that it rebuilds every file whose
    header is up to date. */
module Recovery {
  import opened Records
  import opened Scan
  import opened Replay
  import opened Flash
  import opened LogDevice
  import Qsort

  /** All that is written, oldest first. */
  ghost predicate IsLog(bs: seq<Block>, log: seq<Entry>) {
    && (forall i | 0 <= i < |log| :: On(bs, log[i].addr) && At(bs, log[i].addr) == log[i].rec)
    && (forall i, j | 0 <= i < j < |log| :: Before(bs, log[i].addr, log[j].addr))
    && (forall a | On(bs, a) :: Logged(log, a))
  }

  ghost predicate Logged(log: seq<Entry>, a: Addr) {
    exists i :: 0 <= i < |log| && log[i].addr == a
  }

  ghost predicate DistinctSeqs(bs: seq<Block>) {
    forall i, j | 0 <= i < j < |bs| && bs[i].pages != [] && bs[j].pages != [] :: bs[i].seqNo != bs[j].seqNo
  }

  datatype BlockIndex = BlockIndex(seqNo: nat, blk: nat)

  /** yaffs2_ybicmp */
  function Ybicmp(a: BlockIndex, b: BlockIndex): int {
    if a.seqNo == b.seqNo then a.blk - b.blk else a.seqNo - b.seqNo
  }

  lemma YbicmpCompares()
    ensures Qsort.Comparison(Ybicmp)
  {
  }

  lemma {:induction false} ScanPrepend(n: nat, e: Entry, log: seq<Entry>, t: Table)
    ensures ScanFrom(n, [e] + log, t) == ScanStep(n, ScanFrom(n, log, t), e)
  {
    var l := [e] + log;
    if log == [] {
      assert l[..0] == [];
    } else {
      assert l[..|l| - 1] == [e] + log[..|log| - 1];
      ScanPrepend(n, e, log[..|log| - 1], ScanStep(n, t, log[|log| - 1]));
    }
  }

  // ----- the block index -----

  ghost predicate Distinct<T>(s: seq<T>) {
    forall i, j | 0 <= i < j < |s| :: s[i] != s[j]
  }

  lemma {:induction false} DistinctCount<T>(s: seq<T>, x: T)
    requires Distinct(s)
    ensures multiset(s)[x] <= 1
  {
    if s != [] {
      var k := |s| - 1;
      assert s == s[..k] + [s[k]];
      DistinctCount(s[..k], x);
      assert forall j | 0 <= j < k :: s[..k][j] != s[k];
      assert s[k] !in multiset(s[..k]);
    }
  }

  lemma CountTwice<T>(s: seq<T>, i: int, j: int)
    requires 0 <= i < j < |s| && s[i] == s[j]
    ensures multiset(s)[s[i]] >= 2
  {
    assert s == s[..i] + [s[i]] + s[i + 1..j] + [s[j]] + s[j + 1..];
  }

  lemma CountDistinct<T>(s: seq<T>)
    requires forall x | x in s :: multiset(s)[x] <= 1
    ensures Distinct(s)
  {
    forall i, j | 0 <= i < j < |s|
      ensures s[i] != s[j]
    {
      if s[i] == s[j] {
        CountTwice(s, i, j);
      }
    }
  }

  /** The index lists each block that holds something, once. */
  ghost predicate Indexes(bs: seq<Block>, index: seq<BlockIndex>, upTo: int) {
    && (forall x | x in index :: x.blk < |bs| && bs[x.blk].pages != [] && x.seqNo == bs[x.blk].seqNo)
    && (forall b | 0 <= b < |bs| && b < upTo && bs[b].pages != [] :: BlockIndex(bs[b].seqNo, b) in index)
    && Distinct(index)
  }

  lemma IndexPermuted(bs: seq<Block>, index: seq<BlockIndex>, index': seq<BlockIndex>)
    requires Indexes(bs, index, |bs|) && multiset(index) == multiset(index')
    ensures Indexes(bs, index', |bs|)
  {
    forall x: BlockIndex
      ensures x in index <==> x in index'
    {
      assert x in index <==> x in multiset(index);
      assert x in index' <==> x in multiset(index');
    }
    forall x | x in index'
      ensures multiset(index')[x] <= 1
    {
      DistinctCount(index, x);
    }
    CountDistinct(index');
  }

  /** Blocks in the index come in the order they were written. */
  ghost predicate InOrder(index: seq<BlockIndex>) {
    forall i, j | 0 <= i < j < |index| :: index[i].seqNo < index[j].seqNo
  }

  lemma SortedInOrder(bs: seq<Block>, index: seq<BlockIndex>)
    requires Indexes(bs, index, |bs|) && DistinctSeqs(bs) && Qsort.Sorted(index, Ybicmp)
    ensures InOrder(index)
  {
    forall i, j | 0 <= i < j < |index|
      ensures index[i].seqNo < index[j].seqNo
    {
      assert Qsort.Cmp(Ybicmp, index[i], index[j]) <= 0;
      assert index[i] in index && index[j] in index;
    }
  }

  method IndexBlocks(bs: seq<Block>) returns (index: seq<BlockIndex>)
    requires DistinctSeqs(bs)
    ensures Indexes(bs, index, |bs|) && InOrder(index)
  {
    var a := new BlockIndex[|bs|](i => BlockIndex(0, 0));
    var k, b := 0, 0;
    while b < |bs|
      invariant 0 <= k <= b <= |bs| && a.Length == |bs| && fresh(a)
      invariant Indexes(bs, a[..k], b) && forall x | x in a[..k] :: x.blk < b
    {
      if bs[b].pages != [] {
        a[k] := BlockIndex(bs[b].seqNo, b);
        assert a[..k + 1] == a[..k] + [a[k]];
        k := k + 1;
      }
      b := b + 1;
    }
    YbicmpCompares();
    ghost var before := a[..];
    Qsort.QSort(a, 0, k, Ybicmp);
    index := a[..k];
    assert index == a[..][0..k] && before[0..k] == before[..k];
    IndexPermuted(bs, before[..k], index);
    SortedInOrder(bs, index);
  }

  // ----- the scan -----

  /** log is the part of the log from page c of the block at position i of the index onwards. */
  ghost predicate LogFrom(bs: seq<Block>, index: seq<BlockIndex>, i: int, c: int, log: seq<Entry>) {
    && (forall k | 0 <= k < |log| :: On(bs, log[k].addr) && At(bs, log[k].addr) == log[k].rec)
    && (forall k, m | 0 <= k < m < |log| :: Before(bs, log[k].addr, log[m].addr))
    && (forall k | 0 <= k < |log| :: InTail(bs, index, i, c, log[k].addr))
    && (forall a | On(bs, a) && InTail(bs, index, i, c, a) :: Logged(log, a))
  }

  ghost predicate InTail(bs: seq<Block>, index: seq<BlockIndex>, i: int, c: int, a: Addr) {
    exists k :: 0 <= k < |index| && index[k].blk == a.blk && (i < k || (i == k && c <= a.page))
  }

  /** Record x comes before all those logged so far. */
  lemma TailIsLater(bs: seq<Block>, index: seq<BlockIndex>, i: int, c: int, a: Addr)
    requires Indexes(bs, index, |bs|) && InOrder(index) && 0 <= i < |index| && 0 <= c
    requires On(bs, Addr(index[i].blk, c)) && On(bs, a) && InTail(bs, index, i, c + 1, a)
    ensures Before(bs, Addr(index[i].blk, c), a)
  {
    var k :| 0 <= k < |index| && index[k].blk == a.blk && (i < k || (i == k && c + 1 <= a.page));
    assert index[k] in index && index[i] in index;
  }

  lemma TailGrows(bs: seq<Block>, index: seq<BlockIndex>, i: int, c: int, a: Addr)
    requires 0 <= i < |index| && 0 <= c && a.blk < |bs|
    ensures InTail(bs, index, i, c + 1, a) ==> InTail(bs, index, i, c, a)
    ensures InTail(bs, index, i, c, a) && a != Addr(index[i].blk, c) ==> InTail(bs, index, i, c + 1, a)
  {
    if InTail(bs, index, i, c + 1, a) {
      var k :| 0 <= k < |index| && index[k].blk == a.blk && (i < k || (i == k && c + 1 <= a.page));
      assert 0 <= k < |index| && index[k].blk == a.blk && (i < k || (i == k && c <= a.page));
    }
  }

  lemma LogGrows(bs: seq<Block>, index: seq<BlockIndex>, i: int, c: int, log: seq<Entry>)
    requires Indexes(bs, index, |bs|) && InOrder(index) && 0 <= i < |index| && 0 <= c
    requires LogFrom(bs, index, i, c + 1, log) && On(bs, Addr(index[i].blk, c))
    ensures LogFrom(bs, index, i, c, [Entry(Addr(index[i].blk, c), At(bs, Addr(index[i].blk, c)))] + log)
  {
    hide Indexes, InOrder, InTail, Before, Logged;
    var x := Addr(index[i].blk, c);
    var log' := [Entry(x, At(bs, x))] + log;
    forall k, m | 0 <= k < m < |log'|
      ensures Before(bs, log'[k].addr, log'[m].addr)
    {
      assert log'[m] == log[m - 1];
      if k == 0 {
        TailIsLater(bs, index, i, c, log[m - 1].addr);
      } else {
        assert log'[k] == log[k - 1];
      }
    }
    InOwnTail(bs, index, i, c);
    forall k | 0 <= k < |log'|
      ensures InTail(bs, index, i, c, log'[k].addr)
    {
      if k > 0 {
        TailGrows(bs, index, i, c, log[k - 1].addr);
      }
    }
    forall a | On(bs, a) && InTail(bs, index, i, c, a)
      ensures Logged(log', a)
    {
      TailGrows(bs, index, i, c, a);
      LoggedLater(log, log'[0], a);
    }
  }

  lemma InOwnTail(bs: seq<Block>, index: seq<BlockIndex>, i: int, c: int)
    requires 0 <= i < |index| && 0 <= c
    ensures InTail(bs, index, i, c, Addr(index[i].blk, c))
  {
  }

  lemma LoggedLater(log: seq<Entry>, e: Entry, a: Addr)
    requires a == e.addr || Logged(log, a)
    ensures Logged([e] + log, a)
  {
    if a == e.addr {
      assert ([e] + log)[0].addr == a;
    } else {
      var j :| 0 <= j < |log| && log[j].addr == a;
      assert ([e] + log)[j + 1].addr == a;
    }
  }

  lemma SkipUnwritten(bs: seq<Block>, index: seq<BlockIndex>, i: int, c: int, log: seq<Entry>)
    requires 0 <= i < |index| && 0 <= c && LogFrom(bs, index, i, c + 1, log) && !On(bs, Addr(index[i].blk, c))
    ensures LogFrom(bs, index, i, c, log)
  {
    forall k | 0 <= k < |log|
      ensures InTail(bs, index, i, c, log[k].addr)
    {
      var j :| 0 <= j < |index| && index[j].blk == log[k].addr.blk && (i < j || (i == j && c + 1 <= log[k].addr.page));
    }
    forall a | On(bs, a) && InTail(bs, index, i, c, a)
      ensures Logged(log, a)
    {
      assert a != Addr(index[i].blk, c);
      assert InTail(bs, index, i, c + 1, a);
    }
  }

  /** Past the last page of a block nothing is written, so the tail is that of the next block. */
  lemma NextBlock(bs: seq<Block>, index: seq<BlockIndex>, i: int, perBlock: int, log: seq<Entry>)
    requires 0 <= i < |index| && LogFrom(bs, index, i + 1, 0, log)
    requires forall b | 0 <= b < |bs| :: |bs[b].pages| <= perBlock
    ensures LogFrom(bs, index, i, perBlock, log)
  {
    forall k | 0 <= k < |log|
      ensures InTail(bs, index, i, perBlock, log[k].addr)
    {
      var j :| 0 <= j < |index| && index[j].blk == log[k].addr.blk
          && (i + 1 < j || (i + 1 == j && 0 <= log[k].addr.page));
    }
    forall a | On(bs, a) && InTail(bs, index, i, perBlock, a)
      ensures Logged(log, a)
    {
      var j :| 0 <= j < |index| && index[j].blk == a.blk && (i < j || (i == j && perBlock <= a.page));
      assert InTail(bs, index, i + 1, 0, a);
    }
  }

  lemma WholeLog(bs: seq<Block>, index: seq<BlockIndex>, log: seq<Entry>)
    requires Indexes(bs, index, |bs|) && LogFrom(bs, index, 0, 0, log)
    ensures IsLog(bs, log)
  {
    forall a | On(bs, a)
      ensures Logged(log, a)
    {
      assert BlockIndex(bs[a.blk].seqNo, a.blk) in index;
      var k :| 0 <= k < |index| && index[k] == BlockIndex(bs[a.blk].seqNo, a.blk);
      assert InTail(bs, index, 0, 0, a);
    }
  }

  lemma IndexIn(bs: seq<Block>, l: seq<Entry>, a: Addr) returns (j: int)
    requires IsLog(bs, l) && On(bs, a)
    ensures 0 <= j < |l| && l[j].addr == a && l[j].rec == At(bs, a)
  {
    assert Logged(l, a);
    j :| 0 <= j < |l| && l[j].addr == a;
  }

  lemma AddrIn(bs: seq<Block>, l: seq<Entry>, k: int)
    requires IsLog(bs, l) && 0 <= k < |l|
    ensures On(bs, l[k].addr) && l[k].rec == At(bs, l[k].addr)
  {
  }

  lemma OrderIn(bs: seq<Block>, l: seq<Entry>, i: int, j: int)
    requires IsLog(bs, l) && 0 <= i < j < |l|
    ensures On(bs, l[i].addr) && On(bs, l[j].addr) && l[i].addr != l[j].addr
    ensures Before(bs, l[i].addr, l[j].addr) && !Before(bs, l[j].addr, l[i].addr)
  {
  }

  /** The chunk that comes next in one log stands no earlier in the other. */
  lemma NotEarlier(bs: seq<Block>, l: seq<Entry>, m: seq<Entry>, k: nat) returns (j: int)
    requires IsLog(bs, l) && IsLog(bs, m) && k < |l| && k <= |m| && forall h | 0 <= h < k :: l[h] == m[h]
    ensures k <= j < |m| && m[j].addr == l[k].addr
  {
    hide IsLog, Before, On;
    AddrIn(bs, l, k);
    j := IndexIn(bs, m, l[k].addr);
    forall h | 0 <= h < k
      ensures m[h].addr != l[k].addr
    {
      OrderIn(bs, l, h, k);
    }
  }

  lemma SameNext(bs: seq<Block>, l: seq<Entry>, m: seq<Entry>, k: nat)
    requires IsLog(bs, l) && IsLog(bs, m) && k < |l| && k <= |m| && forall h | 0 <= h < k :: l[h] == m[h]
    ensures k < |m| && l[k] == m[k]
  {
    hide IsLog, Before, On;
    var j := NotEarlier(bs, l, m, k);
    var i := NotEarlier(bs, m, l, k);
    AddrIn(bs, l, k);
    AddrIn(bs, m, k);
    if i > k {
      OrderIn(bs, l, k, i);
    }
    if j > k {
      OrderIn(bs, m, k, j);
    }
  }

  /** What is written has one order only. */
  lemma {:induction false} SamePrefix(bs: seq<Block>, l: seq<Entry>, m: seq<Entry>, k: nat)
    requires IsLog(bs, l) && IsLog(bs, m) && k <= |l|
    ensures k <= |m| && forall h | 0 <= h < k :: l[h] == m[h]
  {
    hide IsLog;
    if k > 0 {
      SamePrefix(bs, l, m, k - 1);
      SameNext(bs, l, m, k - 1);
    }
  }

  lemma OneLog(bs: seq<Block>, l: seq<Entry>, m: seq<Entry>)
    requires IsLog(bs, l) && IsLog(bs, m)
    ensures l == m
  {
    hide IsLog;
    SamePrefix(bs, l, m, |l|);
    SamePrefix(bs, m, l, |m|);
  }

  /** Read every written chunk, newest first, into the object table. */
  method ScanBackwards(n: nat, perBlock: nat, bs: seq<Block>) returns (t: Table, ghost log: seq<Entry>)
    requires DistinctSeqs(bs) && forall b | 0 <= b < |bs| :: |bs[b].pages| <= perBlock
    ensures IsLog(bs, log) && t == ScanLog(n, log)
    ensures forall l | IsLog(bs, l) :: t == ScanLog(n, l)
  {
    hide LogFrom, Indexes, InOrder, IsLog, ScanStep, DistinctSeqs, InitialTable;
    var index := IndexBlocks(bs);
    t, log := InitialTable(), [];
    var i := |index| - 1;
    NothingLogged(bs, index);
    while i >= 0
      invariant -1 <= i < |index| && LogFrom(bs, index, i + 1, 0, log) && t == ScanLog(n, log)
    {
      IndexedIsBlock(bs, index, i);
      var blk := index[i].blk;
      NextBlock(bs, index, i, perBlock, log);
      var c := perBlock - 1;
      while c >= 0
        invariant -1 <= c < perBlock && LogFrom(bs, index, i, c + 1, log) && t == ScanLog(n, log)
      {
        if c < |bs[blk].pages| {
          var e := Entry(Addr(blk, c), bs[blk].pages[c]);
          LogGrows(bs, index, i, c, log);
          ScanPrepend(n, e, log, InitialTable());
          t := ScanStep(n, t, e);
          log := [e] + log;
        } else {
          SkipUnwritten(bs, index, i, c, log);
        }
        c := c - 1;
      }
      i := i - 1;
    }
    WholeLog(bs, index, log);
    forall l | IsLog(bs, l)
      ensures l == log
    {
      OneLog(bs, l, log);
    }
  }

  lemma NothingLogged(bs: seq<Block>, index: seq<BlockIndex>)
    ensures LogFrom(bs, index, |index|, 0, [])
  {
  }

  lemma IndexedIsBlock(bs: seq<Block>, index: seq<BlockIndex>, i: int)
    requires Indexes(bs, index, |bs|) && 0 <= i < |index|
    ensures index[i].blk < |bs|
  {
    assert index[i] in index;
  }
}

/** What a remount rebuilds. */
module Remount {
  import opened Records
  import opened Scan
  import opened Replay
  import opened Flash
  import opened FlashSteps
  import opened LogDevice
  import opened Recovery
  import Names

  // ----- which record of a chunk the replay ends with -----

  /** Header j of the log drops chunk c. */
  predicate CutsAt(n: nat, log: seq<Entry>, f: nat, last: int, j: int, c: nat)
    requires 0 <= j < |log|
  {
    IsHeader(log[j].rec, f) && (if j == last then log[j].rec.size <= Base(n, c)
        else IsCut(log[j].rec, f) && CutSize(log[j].rec) <= Base(n, c))
  }

  lemma {:induction false} ForwardHas(n: nat, log: seq<Entry>, f: nat, last: int, k: nat, i: int, c: nat)
    requires 0 <= i < k <= |log| && IsData(log[i].rec, f, c)
    requires forall j | i < j < k :: !IsData(log[j].rec, f, c) && !CutsAt(n, log, f, last, j, c)
    ensures var m := Forward(n, log, f, last, k); c in m && m[c] == log[i].addr
  {
    if i < k - 1 {
      ForwardHas(n, log, f, last, k - 1, i, c);
    }
  }

  lemma {:induction false} ForwardFrom(n: nat, log: seq<Entry>, f: nat, last: int, k: nat, c: nat) returns (i: int)
    requires k <= |log| && c in Forward(n, log, f, last, k)
    ensures 0 <= i < k && IsData(log[i].rec, f, c) && forall j | i < j < k :: !CutsAt(n, log, f, last, j, c)
  {
    if IsData(log[k - 1].rec, f, c) {
      i := k - 1;
    } else {
      i := ForwardFrom(n, log, f, last, k - 1, c);
    }
  }

  // ----- directories -----

  /** The ids used as directories are never files. */
  ghost predicate DirsOnly(t: Table, dirs: set<nat>) {
    forall p | p in dirs && p in t :: t[p].kind == DirKind
  }

  ghost predicate TreeRecord(dirs: set<nat>, r: Record) {
    r.obj !in dirs && r.obj != ROOT && r.obj != LOSTNFOUND && (r.Header? ==> r.parent in dirs && r.shadows == 0)
  }

  lemma ParentStep(n: nat, dirs: set<nat>, t: Table, e: Entry, f: nat)
    requires DirsOnly(t, dirs) && TreeRecord(dirs, e.rec) && f !in dirs && f > DELETED
    ensures var t' := ScanStep(n, t, e);
            && DirsOnly(t', dirs)
            && (f in t ==> f in t' && (t[f].valid ==> t'[f].valid && t'[f].parent == t[f].parent))
            && (IsHeader(e.rec, f) && !(f in t && t[f].valid) ==>
                f in t' && t'[f].valid && t'[f].parent == e.rec.parent)
            && (!IsHeader(e.rec, f) && !(f in t && t[f].valid) ==> !(f in t' && t'[f].valid))
  {
  }

  lemma {:induction false} ParentScan(n: nat, dirs: set<nat>, log: seq<Entry>, t: Table, f: nat)
    requires DirsOnly(t, dirs) && f !in dirs && f > DELETED
    requires forall i | 0 <= i < |log| :: TreeRecord(dirs, log[i].rec)
    ensures var t' := ScanFrom(n, log, t);
            && (f in t && t[f].valid ==> f in t' && t'[f].parent == t[f].parent)
            && (!(f in t && t[f].valid) && LastHeader(log, f) >= 0 ==>
                f in t' && t'[f].parent == log[LastHeader(log, f)].rec.parent)
  {
    if log != [] {
      var k := |log| - 1;
      ParentStep(n, dirs, t, log[k], f);
      ParentScan(n, dirs, log[..k], ScanStep(n, t, log[k]), f);
    }
  }

  lemma {:induction false} DirsStay(n: nat, dirs: set<nat>, log: seq<Entry>, t: Table, f: nat)
    requires DirsOnly(t, dirs) && f !in dirs && f > DELETED
    requires forall i | 0 <= i < |log| :: TreeRecord(dirs, log[i].rec)
    ensures DirsOnly(ScanFrom(n, log, t), dirs)
  {
    if log != [] {
      var k := |log| - 1;
      ParentStep(n, dirs, t, log[k], f);
      DirsStay(n, dirs, log[..k], ScanStep(n, t, log[k]), f);
    }
  }

  function AllDirs(dirs: set<nat>): set<nat> {
    dirs + {0, ROOT, LOSTNFOUND, UNLINKED, DELETED}
  }

  lemma DirsFound(n: nat, dirs: set<nat>, bs: seq<Block>, log: seq<Entry>)
    requires IsLog(bs, log) && RecordsOk(n, dirs, bs)
    ensures DirsOnly(ScanLog(n, log), AllDirs(dirs))
  {
    NoRootRecords(n, dirs, bs, log);
    if log == [] {
    } else {
      DirsStay(n, AllDirs(dirs), log, InitialTable(), log[0].rec.obj);
    }
  }

  // ----- one file -----

  /** Positions in the log agree with the order in which records were written. */
  lemma LogOrder(bs: seq<Block>, log: seq<Entry>, i: int, j: int)
    requires IsLog(bs, log) && 0 <= i < |log| && 0 <= j < |log| && Before(bs, log[i].addr, log[j].addr)
    ensures i < j
  {
  }

  lemma LogIsPlain(n: nat, dirs: set<nat>, bs: seq<Block>, log: seq<Entry>, f: nat)
    requires IsLog(bs, log) && RecordsOk(n, dirs, bs) && f > DELETED && f !in dirs && DELETED !in dirs
        && n < 0x8000_0000
    ensures PlainFile(n, log, f)
    ensures forall i | 0 <= i < |log| ::
        TreeRecord(dirs + {DELETED}, log[i].rec) || log[i].rec.obj in {ROOT, LOSTNFOUND}
  {
    forall i | 0 <= i < |log|
      ensures PlainRecord(n, log[i].rec, f) && TreeRecord(dirs + {DELETED}, log[i].rec)
    {
      assert RecordOk(n, dirs, At(bs, log[i].addr));
    }
  }

  /** The newest header in the log is the one RAM knows. */
  lemma HeaderIsLast(n: nat, bs: seq<Block>, log: seq<Entry>, f: nat, o: Obj)
    requires IsLog(bs, log) && HeaderOk(bs, f, o.hdr, o)
    ensures LastHeader(log, f) >= 0 && log[LastHeader(log, f)].addr == o.hdr
        && log[LastHeader(log, f)].rec == At(bs, o.hdr)
  {
    var i := IndexIn(bs, log, o.hdr);
    var last := LastHeader(log, f);
    if last != i {
      LogOrder(bs, log, last, i);
    }
  }

  /** The newest header of the file drops the copy of chunk c that RAM holds: the copy is older, and
      the size recorded lies before the chunk. */
  ghost predicate Lost(n: nat, bs: seq<Block>, o: Obj, c: nat)
    requires c in o.entries
  {
    && On(bs, o.entries[c]) && On(bs, o.hdr) && At(bs, o.hdr).Header?
    && Before(bs, o.entries[c], o.hdr) && At(bs, o.hdr).size <= Base(n, c)
  }

  /** After the copy that RAM knows, the log neither rewrites the chunk nor cuts it, except that the
      newest header cuts a lost one. */
  lemma NothingLater(n: nat, bs: seq<Block>, log: seq<Entry>, f: nat, o: Obj, c: nat, i: int, j: int)
    requires IsLog(bs, log) && c in o.entries && EntryOk(n, bs, f, c, o.entries[c], o.size)
    requires 0 <= i < j < |log| && log[i].addr == o.entries[c]
    requires HeaderOk(bs, f, o.hdr, o)
    ensures !IsData(log[j].rec, f, c)
    ensures CutsAt(n, log, f, LastHeader(log, f), j, c) <==> j == LastHeader(log, f) && Lost(n, bs, o, c)
  {
    HeaderIsLast(n, bs, log, f, o);
    var x, y := log[i].addr, log[j].addr;
    assert Before(bs, x, y) && On(bs, y) && At(bs, y) == log[j].rec;
    assert !Before(bs, y, x) && y != x;
  }

  /** The replay holds of chunk c what RAM holds, unless it is lost. */
  lemma ChunkRebuilt(n: nat, bs: seq<Block>, approved: set<nat>, log: seq<Entry>, f: nat, o: Obj, c: nat)
    requires IsLog(bs, log) && FileOk(n, bs, approved, f, o, o.size, o.size) && c in o.entries && !Lost(n, bs, o, c)
    ensures var m := Forward(n, log, f, LastHeader(log, f), |log|); c in m && m[c] == o.entries[c]
  {
    hide HeaderOk, Before, IsLog, IsData, CutsAt, Covered, Forward, LastHeader, Lost;
    var a := o.entries[c];
    assert EntryOk(n, bs, f, c, a, o.size);
    EntryIsData(n, bs, f, c, a, o.size);
    var i := IndexIn(bs, log, a);
    forall j | i < j < |log|
      ensures !IsData(log[j].rec, f, c) && !CutsAt(n, log, f, LastHeader(log, f), j, c)
    {
      NothingLater(n, bs, log, f, o, c, i, j);
    }
    ForwardHas(n, log, f, LastHeader(log, f), |log|, i, c);
  }

  lemma EntryIsData(n: nat, bs: seq<Block>, f: nat, c: nat, a: Addr, e: int)
    requires EntryOk(n, bs, f, c, a, e)
    ensures On(bs, a) && IsData(At(bs, a), f, c)
  {
  }

  /** No copy of a lost chunk is newer than the one RAM holds, so the newest header cuts them all. */
  lemma LostIsCut(n: nat, bs: seq<Block>, approved: set<nat>, log: seq<Entry>, f: nat, o: Obj, c: nat, i: int)
    requires IsLog(bs, log) && FileOk(n, bs, approved, f, o, o.size, o.size) && c in o.entries && Lost(n, bs, o, c)
    requires 0 <= i < |log| && IsData(log[i].rec, f, c)
    ensures i < LastHeader(log, f) && CutsAt(n, log, f, LastHeader(log, f), LastHeader(log, f), c)
  {
    hide Covered, Guarded, Forward;
    HeaderIsLast(n, bs, log, f, o);
    assert EntryOk(n, bs, f, c, o.entries[c], o.size);
    LogOrder(bs, log, i, LastHeader(log, f));
  }

  /** A stale record b of a chunk that RAM does not hold is cut somewhere later in the log. */
  lemma StaleIsCut(n: nat, bs: seq<Block>, approved: set<nat>, log: seq<Entry>, f: nat, o: Obj, c: nat, i: int)
    returns (j: int)
    requires IsLog(bs, log) && FileOk(n, bs, approved, f, o, o.size, o.size) && c !in o.entries
    requires 0 <= i < |log| && IsData(log[i].rec, f, c) && Base(n, c) < End(n, log[i].rec)
    requires Base(n, c) < o.size || Synced(n, bs, f, o)
    ensures i < j < |log| && CutsAt(n, log, f, LastHeader(log, f), j, c)
  {
    HeaderIsLast(n, bs, log, f, o);
    var b := log[i].addr;
    if Base(n, c) < o.size {
      assert Covered(n, bs, approved, f, c, b);
      var h :| On(bs, h) && IsCut(At(bs, h), f) && Before(bs, b, h) && CutSize(At(bs, h)) <= Base(n, c)
          && Guarded(bs, approved, b, h);
      j := IndexIn(bs, log, h);
      LogOrder(bs, log, i, j);
    } else {
      j := LastHeader(log, f);
    }
  }

  lemma ChunkNotRebuilt(n: nat, bs: seq<Block>, approved: set<nat>, log: seq<Entry>, f: nat, o: Obj, c: nat)
    requires IsLog(bs, log) && FileOk(n, bs, approved, f, o, o.size, o.size)
    requires if c in o.entries then Lost(n, bs, o, c) else Base(n, c) < o.size || Synced(n, bs, f, o)
    requires forall a | On(bs, a) && IsData(At(bs, a), f, c) :: Base(n, c) < End(n, At(bs, a))
    ensures c !in Forward(n, log, f, LastHeader(log, f), |log|)
  {
    hide FileOk, Synced, Lost, Forward, LastHeader, CutsAt, IsData;
    if c in Forward(n, log, f, LastHeader(log, f), |log|) {
      var i := ForwardFrom(n, log, f, LastHeader(log, f), |log|, c);
      if c in o.entries {
        LostIsCut(n, bs, approved, log, f, o, c, i);
      } else {
        var j := StaleIsCut(n, bs, approved, log, f, o, c, i);
      }
    }
  }

  /** The size found: the one that the newest header records, or the end of the file's data written
      after it if that lies further. */
  ghost predicate SizeFound(n: nat, bs: seq<Block>, f: nat, h: Addr, size: int)
    requires On(bs, h) && At(bs, h).Header?
  {
    && size >= At(bs, h).size
    && (forall b | DataAfter(bs, f, h, b) :: End(n, At(bs, b)) <= size)
    && (size == At(bs, h).size || exists b :: DataAfter(bs, f, h, b) && End(n, At(bs, b)) == size)
  }

  ghost predicate DataAfter(bs: seq<Block>, f: nat, h: Addr, b: Addr) {
    On(bs, b) && At(bs, b).Data? && At(bs, b).obj == f && On(bs, h) && Before(bs, h, b)
  }

  lemma {:induction false} ForwardSizeIs(n: nat, log: seq<Entry>, f: nat)
    requires LastHeader(log, f) >= 0
    ensures var size, last := ForwardSize(n, log, f), LastHeader(log, f);
            && size >= log[last].rec.size
            && (forall i | last < i < |log| && log[i].rec.Data? && log[i].rec.obj == f :: End(n, log[i].rec) <= size)
            && (size == log[last].rec.size || exists i ::
                last < i < |log| && log[i].rec.Data? && log[i].rec.obj == f && End(n, log[i].rec) == size)
  {
    var k := |log| - 1;
    if !IsHeader(log[k].rec, f) {
      ForwardSizeIs(n, log[..k], f);
      var last, size := LastHeader(log, f), ForwardSize(n, log[..k], f);
      assert last == LastHeader(log[..k], f) && log[..k][last] == log[last];
      if size != log[last].rec.size {
        var i :| last < i < k && log[..k][i].rec.Data? && log[..k][i].rec.obj == f && End(n, log[..k][i].rec) == size;
        assert log[..k][i] == log[i];
      }
      forall i | last < i < k && log[i].rec.Data? && log[i].rec.obj == f
        ensures End(n, log[i].rec) <= size
      {
        assert log[..k][i] == log[i];
      }
    }
  }

  lemma SizeRebuilt(n: nat, bs: seq<Block>, log: seq<Entry>, f: nat, o: Obj)
    requires IsLog(bs, log) && HeaderOk(bs, f, o.hdr, o)
    ensures SizeFound(n, bs, f, o.hdr, ForwardSize(n, log, f))
  {
    HeaderIsLast(n, bs, log, f, o);
    ForwardSizeIs(n, log, f);
    var last, size := LastHeader(log, f), ForwardSize(n, log, f);
    forall b | DataAfter(bs, f, o.hdr, b)
      ensures End(n, At(bs, b)) <= size
    {
      var i := IndexIn(bs, log, b);
      LogOrder(bs, log, last, i);
    }
    if size != At(bs, o.hdr).size {
      var i :| last < i < |log| && log[i].rec.Data? && log[i].rec.obj == f && End(n, log[i].rec) == size;
      assert Before(bs, log[last].addr, log[i].addr);
      assert DataAfter(bs, f, o.hdr, log[i].addr);
    }
  }

  // ----- the device -----

  /** File f stands in the scanned table as it does in RAM, but for the lost chunks; a file whose
      header is up to date has none and keeps its size. */
  ghost predicate Rebuilt(n: nat, bs: seq<Block>, t: Table, f: nat, o: Obj) {
    && f in t && t[f].kind == FileKind && t[f].valid && t[f].hdr == Some(o.hdr) && t[f].parent == o.parent
        && t[f].name == o.name
    && (forall c | c in o.entries :: c in t[f].entries <==> !Lost(n, bs, o, c))
    && (forall c | c in o.entries && c in t[f].entries :: t[f].entries[c] == o.entries[c])
    && (forall c | c in t[f].entries && c !in o.entries :: Base(n, c) >= o.size)
    && On(bs, o.hdr) && At(bs, o.hdr).Header? && SizeFound(n, bs, f, o.hdr, t[f].fileSize)
    && (!o.dirty ==> t[f].entries == o.entries && t[f].fileSize == o.size)
  }

  /** The replayed chunk map is the one in RAM without the lost chunks, as far as the size in RAM goes. */
  lemma EntriesRebuilt(n: nat, dirs: set<nat>, bs: seq<Block>, approved: set<nat>, log: seq<Entry>, f: nat, o: Obj)
    requires IsLog(bs, log) && FileOk(n, bs, approved, f, o, o.size, o.size) && RecordsOk(n, dirs, bs)
    ensures var m := Forward(n, log, f, LastHeader(log, f), |log|);
            && (forall c | c in o.entries :: c in m <==> !Lost(n, bs, o, c))
            && (forall c | c in o.entries && c in m :: m[c] == o.entries[c])
            && (forall c | c in m && c !in o.entries :: Base(n, c) >= o.size && !Synced(n, bs, f, o))
  {
    hide IsLog, Synced, Forward, LastHeader, HeaderOk, Covered, EntryOk, Lost, FileOk;
    var m := Forward(n, log, f, LastHeader(log, f), |log|);
    forall c: nat
      ensures c in o.entries ==> (c in m <==> !Lost(n, bs, o, c)) && (c in m ==> m[c] == o.entries[c])
      ensures c in m && c !in o.entries ==> Base(n, c) >= o.size && !Synced(n, bs, f, o)
    {
      DataBounds(n, dirs, bs, f, c);
      if c in o.entries && !Lost(n, bs, o, c) {
        ChunkRebuilt(n, bs, approved, log, f, o, c);
      } else if c in o.entries || Base(n, c) < o.size || Synced(n, bs, f, o) {
        ChunkNotRebuilt(n, bs, approved, log, f, o, c);
      }
    }
  }

  /** A file whose header is up to date has lost nothing. */
  lemma SyncedLosesNothing(n: nat, dirs: set<nat>, bs: seq<Block>, approved: set<nat>, f: nat, o: Obj)
    requires FileOk(n, bs, approved, f, o, o.size, o.size) && RecordsOk(n, dirs, bs) && Synced(n, bs, f, o)
    ensures forall c | c in o.entries :: !Lost(n, bs, o, c)
    ensures forall size | SizeFound(n, bs, f, o.hdr, size) :: size == o.size
  {
    hide Covered, HeaderOk;
    forall c | c in o.entries
      ensures !Lost(n, bs, o, c)
    {
      assert EntryOk(n, bs, f, c, o.entries[c], o.size);
      EntryBelow(n, dirs, bs, f, c, o.entries[c], o.size);
    }
  }

  lemma EntryBelow(n: nat, dirs: set<nat>, bs: seq<Block>, f: nat, c: nat, a: Addr, e: int)
    requires EntryOk(n, bs, f, c, a, e) && RecordsOk(n, dirs, bs)
    ensures Base(n, c) < e
  {
    assert RecordOk(n, dirs, At(bs, a));
  }

  lemma FileRebuilt(n: nat, dirs: set<nat>, bs: seq<Block>, approved: set<nat>, objs: map<nat, Obj>, log: seq<Entry>,
          f: nat)
    requires IsLog(bs, log) && ObjsOk(n, dirs, bs, approved, objs, Idle) && RecordsOk(n, dirs, bs) && f in objs
    requires DELETED !in dirs && n < 0x8000_0000 && ROOT in dirs && LOSTNFOUND in dirs
    ensures Rebuilt(n, bs, ScanLog(n, log), f, objs[f])
  {
    hide IsLog, RecordsOk, ScanLog, Forward, LastHeader, ForwardSize, FileOk, Synced, HeaderOk, PlainFile, InitialTable,
        TreeRecord, Lost, SizeFound;
    var o := objs[f];
    var t := ScanLog(n, log);
    assert ObjOk(n, bs, approved, f, o, Idle);
    FileOkHeader(n, bs, approved, f, o);
    LogIsPlain(n, dirs, bs, log, f);
    ScanIsForwardReplay(n, log, f);
    HeaderIsLast(n, bs, log, f, o);
    ParentRebuilt(n, dirs, bs, log, f);
    HeaderFacts(bs, f, o);
    EntriesRebuilt(n, dirs, bs, approved, log, f, o);
    SizeRebuilt(n, bs, log, f, o);
    if !o.dirty {
      SyncedLosesNothing(n, dirs, bs, approved, f, o);
      assert ScanLog(n, log)[f].entries == o.entries;
    }
  }

  lemma FileOkHeader(n: nat, bs: seq<Block>, approved: set<nat>, f: nat, o: Obj)
    requires FileOk(n, bs, approved, f, o, o.size, o.size)
    ensures HeaderOk(bs, f, o.hdr, o)
  {
  }

  lemma HeaderFacts(bs: seq<Block>, f: nat, o: Obj)
    requires HeaderOk(bs, f, o.hdr, o)
    ensures On(bs, o.hdr) && At(bs, o.hdr).Header? && At(bs, o.hdr).name == o.name && At(bs, o.hdr).parent == o.parent
  {
  }

  lemma ParentRebuilt(n: nat, dirs: set<nat>, bs: seq<Block>, log: seq<Entry>, f: nat)
    requires IsLog(bs, log) && RecordsOk(n, dirs, bs) && f > DELETED && f !in dirs && DELETED !in dirs
        && n < 0x8000_0000
    requires ROOT in dirs && LOSTNFOUND in dirs && LastHeader(log, f) >= 0
    ensures var t := ScanLog(n, log); f in t && t[f].parent == log[LastHeader(log, f)].rec.parent
  {
    LogIsPlain(n, dirs, bs, log, f);
    NoRootRecords(n, dirs, bs, log);
    ParentScan(n, dirs + {DELETED}, log, InitialTable(), f);
  }

  lemma NoRootRecords(n: nat, dirs: set<nat>, bs: seq<Block>, log: seq<Entry>)
    requires IsLog(bs, log) && RecordsOk(n, dirs, bs)
    ensures forall i | 0 <= i < |log| :: RecordOk(n, dirs, log[i].rec)
  {
    forall i | 0 <= i < |log|
      ensures RecordOk(n, dirs, log[i].rec)
    {
      assert RecordOk(n, dirs, At(bs, log[i].addr));
    }
  }

  lemma DataBounds(n: nat, dirs: set<nat>, bs: seq<Block>, f: nat, c: nat)
    requires RecordsOk(n, dirs, bs)
    ensures forall a | On(bs, a) && IsData(At(bs, a), f, c) :: Base(n, c) < End(n, At(bs, a))
  {
    forall a | On(bs, a) && IsData(At(bs, a), f, c)
      ensures Base(n, c) < End(n, At(bs, a))
    {
      assert RecordOk(n, dirs, At(bs, a));
    }
  }

  /** A file that RAM does not know is not on flash, or is found under deleted. */
  lemma GoneNotRebuilt(n: nat, dirs: set<nat>, bs: seq<Block>, approved: set<nat>, objs: map<nat, Obj>, log: seq<Entry>,
          f: nat)
    requires IsLog(bs, log) && RecordsOk(n, dirs, bs) && GoneOk(bs, approved, objs, {}) && f !in objs
    requires DELETED !in dirs && UNLINKED !in dirs && n < 0x8000_0000 && ROOT in dirs && LOSTNFOUND in dirs
        && f > DELETED && f !in dirs
    ensures var t := ScanLog(n, log); f in t ==> t[f].parent == DELETED
  {
    hide IsLog, RecordsOk, ScanLog, ScanFrom, GoneOk, LastHeader, PlainFile, Gone, InitialTable, ScanStep;
    if i :| 0 <= i < |log| && log[i].rec.obj == f {
      var j := BuriedIndex(bs, approved, objs, log, i);
      var last := LastHeader(log, f);
      LastIsLater(log, f, j);
      var k := BuriedIndex(bs, approved, objs, log, last);
      LastIsLater(log, f, k);
      ParentRebuilt(n, dirs, bs, log, f);
      NoRootRecords(n, dirs, bs, log);
      GoneMeansDeleted(n, dirs, log[last].rec);
    } else {
      LogIsPlain(n, dirs, bs, log, f);
      NothingThere(n, log, f);
    }
  }

  lemma LastIsLater(log: seq<Entry>, f: nat, j: int)
    requires 0 <= j < |log| && IsHeader(log[j].rec, f)
    ensures j <= LastHeader(log, f) && IsHeader(log[LastHeader(log, f)].rec, f)
  {
  }

  lemma GoneMeansDeleted(n: nat, dirs: set<nat>, r: Record)
    requires RecordOk(n, dirs, r) && r.Header? && Gone(r) && UNLINKED !in dirs
    ensures r.parent == DELETED
  {
  }

  lemma NothingThere(n: nat, log: seq<Entry>, f: nat)
    requires PlainFile(n, log, f) && forall i | 0 <= i < |log| :: log[i].rec.obj != f
    ensures f !in ScanLog(n, log)
  {
    forall i | 0 <= i < |log|
      ensures log[i].rec.Header? ==> log[i].rec.parent != f && log[i].rec.shadows != f
    {
      assert PlainRecord(n, log[i].rec, f);
    }
    NoStrangers(n, log, InitialTable(), f);
  }

  lemma BuriedIndex(bs: seq<Block>, approved: set<nat>, objs: map<nat, Obj>, log: seq<Entry>, i: int) returns (j: int)
    requires IsLog(bs, log) && GoneOk(bs, approved, objs, {}) && 0 <= i < |log| && log[i].rec.obj !in objs
    ensures i <= j < |log| && IsHeader(log[j].rec, log[i].rec.obj) && Gone(log[j].rec)
  {
    var a := log[i].addr;
    assert Buried(bs, approved, a);
    var h :| On(bs, h) && IsHeader(At(bs, h), At(bs, a).obj) && Gone(At(bs, h)) && (h == a || Before(bs, a, h))
        && Guarded(bs, approved, a, h);
    if h == a {
      j := i;
    } else {
      j := IndexIn(bs, log, h);
      LogOrder(bs, log, i, j);
    }
  }

  /** An object without records is met only as a directory, or in a shadow mark. */
  lemma {:induction false} NoStrangers(n: nat, log: seq<Entry>, t: Table, f: nat)
    requires f > DELETED && f !in t
    requires forall i | 0 <= i < |log| ::
        log[i].rec.obj != f && (log[i].rec.Header? ==> log[i].rec.parent != f && log[i].rec.shadows != f)
    ensures f !in ScanFrom(n, log, t)
  {
    if log != [] {
      NoStrangers(n, log[..|log| - 1], ScanStep(n, t, log[|log| - 1]), f);
    }
  }

  /** Mount a device that has been running: for any run that led here, the scan finds exactly the
      files RAM had, each under its name, and each one whose header is up to date as it was. */
  method Mount(dev: Device) returns (t: Table)
    requires dev.Inv(Idle) && dev.n < 0x8000_0000 && ROOT in dev.dirs && LOSTNFOUND in dev.dirs
    ensures forall f | f in dev.objs :: Rebuilt(dev.n, dev.blocks, t, f, dev.objs[f])
    ensures forall f: nat | f > DELETED && f !in dev.dirs :: f in dev.objs <==> f in t && t[f].parent != DELETED
    ensures forall d | d in t && (d <= DELETED || d in dev.dirs) :: t[d].kind == DirKind
  {
    ghost var log;
    t, log := ScanBackwards(dev.n, dev.perBlock, dev.blocks);
    DirsFound(dev.n, dev.dirs, dev.blocks, log);
    forall f: nat | f > DELETED && f !in dev.dirs
      ensures f in dev.objs <==> f in t && t[f].parent != DELETED
      ensures f in dev.objs ==> Rebuilt(dev.n, dev.blocks, t, f, dev.objs[f])
    {
      if f in dev.objs {
        FileRebuilt(dev.n, dev.dirs, dev.blocks, dev.approved, dev.objs, log, f);
      } else {
        GoneNotRebuilt(dev.n, dev.dirs, dev.blocks, dev.approved, dev.objs, log, f);
      }
    }
  }

  // ----- from one mount to the next -----

  /** The chunk at a, which holds r, is in use. */
  predicate InUse(objs: map<nat, Obj>, r: Record, a: Addr) {
    r.obj in objs && Refers(objs[r.obj], r, a)
  }

  /** What the scan makes of block i: its chunks in use are those that the files found refer to, and every
      shrink header in it sets the flag. */
  function Rescanned(b: Block, i: nat, objs: map<nat, Obj>): Block {
    Block(if b.pages == [] then Empty else Full, if b.pages == [] then 0 else b.seqNo, b.pages,
          (set p | 0 <= p < |b.pages| && InUse(objs, b.pages[p], Addr(i, p))), HasShrinkHeader(b.pages))
  }

  function Rescan(bs: seq<Block>, objs: map<nat, Obj>): (r: seq<Block>)
    ensures |r| == |bs| && forall i | 0 <= i < |bs| :: r[i] == Rescanned(bs[i], i, objs)
  {
    seq(|bs|, i requires 0 <= i < |bs| => Rescanned(bs[i], i, objs))
  }

  /** The files in the table. */
  function FilesFound(t: Table): map<nat, Obj> {
    map f | f in t && t[f].kind == FileKind && t[f].hdr.Some? && t[f].parent != DELETED && t[f].parent != UNLINKED
      :: Obj(t[f].hdr.value, t[f].entries, t[f].fileSize, false, t[f].parent, t[f].name)
  }

  lemma FilesAreFound(n: nat, dirs: set<nat>, bs: seq<Block>, objs: map<nat, Obj>, t: Table)
    requires forall f | f in objs :: Rebuilt(n, bs, t, f, objs[f]) && !objs[f].dirty && objs[f].parent in dirs
    requires forall f: nat | f > DELETED && f !in dirs :: f in objs <==> f in t && t[f].parent != DELETED
    requires forall d | d in t && (d <= DELETED || d in dirs) :: t[d].kind == DirKind
    requires DELETED !in dirs && UNLINKED !in dirs
    ensures FilesFound(t) == objs
  {
    hide Lost, SizeFound;
    var found := FilesFound(t);
    forall f: nat
      ensures f in found <==> f in objs
      ensures f in objs ==> found[f] == objs[f]
    {
      if f in objs {
        assert Rebuilt(n, bs, t, f, objs[f]);
      }
    }
  }

  /** A chunk is in use exactly when a file refers to it. */
  lemma InUseIsLive(n: nat, dirs: set<nat>, bs: seq<Block>, approved: set<nat>, objs: map<nat, Obj>, a: Addr)
    requires ObjsOk(n, dirs, bs, approved, objs, Idle) && OwnersOk(bs, objs, {}) && On(bs, a)
    ensures InUse(objs, At(bs, a), a) <==> Live(bs, a)
  {
    hide Synced, Covered;
    if InUse(objs, At(bs, a), a) {
      var g := At(bs, a).obj;
      assert ObjOk(n, bs, approved, g, objs[g], Idle);
      if At(bs, a).Data? {
        assert EntryOk(n, bs, g, At(bs, a).chunk, a, objs[g].size);
      }
    }
  }

  lemma RescanShape(n: nat, dirs: set<nat>, bs: seq<Block>, objs: map<nat, Obj>, perBlock: nat, q: nat, q': nat)
    requires WellFormed(bs, perBlock, q) && RecordsOk(n, dirs, bs)
    requires forall i | 0 <= i < |bs| :: Rescan(bs, objs)[i].seqNo <= q'
    ensures WellFormed(Rescan(bs, objs), perBlock, q') && RecordsOk(n, dirs, Rescan(bs, objs))
  {
    hide RecordOk, InUse;
    var bs' := Rescan(bs, objs);
    assert forall a | On(bs', a) :: On(bs, a) && At(bs', a) == At(bs, a);
  }

  /** The scanned blocks are those before the mount, all flags set that may be needed. */
  lemma RescanKeeps(n: nat, dirs: set<nat>, bs: seq<Block>, approved: set<nat>, objs: map<nat, Obj>, perBlock: nat,
          q: nat)
    requires WellFormed(bs, perBlock, q) && ObjsOk(n, dirs, bs, approved, objs, Idle) && OwnersOk(bs, objs, {})
        && GoneOk(bs, approved, objs, {})
    ensures var bs' := Rescan(bs, objs);
            && ObjsOk(n, dirs, bs', {}, objs, Idle) && OwnersOk(bs', objs, {}) && GoneOk(bs', {}, objs, {})
            && FilesOf(bs', objs) == FilesOf(bs, objs)
  {
    var bs' := Rescan(bs, objs);
    assert SamePages(bs, bs') && GuardsKept(bs, bs', approved, {});
    forall a
      ensures On(bs', a) == On(bs, a) && Live(bs', a) == Live(bs, a)
    {
      if On(bs, a) {
        InUseIsLive(n, dirs, bs, approved, objs, a);
      }
    }
    hide FileOk, RestOk, Buried, FileOf, Rescan, SamePages, GuardsKept, WellFormed;
    SamePagesGone(bs, bs', approved, {}, objs, {});
    SamePagesFiles(bs, bs', objs);
    forall g | g in objs
      ensures ObjOk(n, bs', {}, g, objs[g], Idle)
    {
      SamePagesObj(n, bs, bs', approved, {}, g, objs[g], Idle);
    }
  }

  method NewestSequence(bs: seq<Block>) returns (q: nat)
    ensures forall i | 0 <= i < |bs| :: bs[i].seqNo <= q
  {
    q := 0;
    var i := 0;
    while i < |bs|
      invariant 0 <= i <= |bs| && forall j | 0 <= j < i :: bs[j].seqNo <= q
    {
      if bs[i].seqNo > q {
        q := bs[i].seqNo;
      }
      i := i + 1;
    }
  }

  /** Unmount with every file flushed, and mount: from nothing but what is on flash the device comes back
      with the same files, and in a state in which all that was proved of a running device goes on to hold. */
  method MountAgain(dev: Device) returns (dev': Device)
    requires dev.Inv(Idle) && dev.n < 0x8000_0000 && ROOT in dev.dirs && LOSTNFOUND in dev.dirs
    requires forall f | f in dev.objs :: !dev.objs[f].dirty
    ensures fresh(dev') && dev'.Inv(Idle) && dev'.NoneCollecting() && dev'.objs == dev.objs
        && dev'.Files() == dev.Files()
    ensures dev'.n == dev.n && dev'.perBlock == dev.perBlock && dev'.dirs == dev.dirs && |dev'.blocks| == |dev.blocks|
  {
    hide ObjsOk, OwnersOk, GoneOk, RecordsOk, WellFormed, ApprovedOk, OneAllocating, FilesOf, Rebuilt, Rescan,
        OnlyMoved;
    var t := Mount(dev);
    FilesHaveDirs(dev.n, dev.dirs, dev.blocks, dev.approved, dev.objs);
    FilesAreFound(dev.n, dev.dirs, dev.blocks, dev.objs, t);
    var objs := FilesFound(t);
    var blocks := Rescan(dev.blocks, objs);
    var q := NewestSequence(blocks);
    RescanShape(dev.n, dev.dirs, dev.blocks, objs, dev.perBlock, dev.seqNumber, q);
    RescanKeeps(dev.n, dev.dirs, dev.blocks, dev.approved, objs, dev.perBlock, dev.seqNumber);
    dev' := new Device.Mounted(dev.perBlock, dev.n, dev.space, dev.dirs, blocks, q, objs);
    var i := 0;
    while i < |blocks|
      invariant 0 <= i <= |blocks| && fresh(dev') && |dev'.blocks| == |blocks|
      invariant dev'.Inv(Idle) && dev'.NoneCollecting() && dev'.objs == objs && dev'.Files() == dev.Files()
    {
      if dev'.blocks[i].live == {} && !dev'.blocks[i].shrink && dev'.blocks[i].state == Full {
        ghost var bs := dev'.blocks;
        dev'.BlockBecameDirty(i, Idle);
        FilesMoved(bs, dev'.blocks, objs);
      }
      i := i + 1;
    }
  }

  lemma FilesHaveDirs(n: nat, dirs: set<nat>, bs: seq<Block>, approved: set<nat>, objs: map<nat, Obj>)
    requires ObjsOk(n, dirs, bs, approved, objs, Idle)
    ensures forall f | f in objs :: objs[f].parent in dirs
  {
  }

  lemma FilesMoved(bs: seq<Block>, bs': seq<Block>, objs: map<nat, Obj>)
    requires OnlyMoved(bs, objs, bs', objs)
    ensures FilesOf(bs', objs) == FilesOf(bs, objs)
  {
  }

  // ----- what the device erases -----

  /** The records of one block stand together in the log. */
  lemma BlockInLog(bs: seq<Block>, log: seq<Entry>, i: nat) returns (lo: nat, hi: nat)
    requires IsLog(bs, log) && DistinctSeqs(bs)
    ensures lo <= hi <= |log| && forall k | 0 <= k < |log| :: log[k].addr.blk == i <==> lo <= k < hi
  {
    lo := 0;
    while lo < |log| && log[lo].addr.blk != i
      invariant 0 <= lo <= |log| && forall k | 0 <= k < lo :: log[k].addr.blk != i
    {
      lo := lo + 1;
    }
    hi := lo;
    while hi < |log| && log[hi].addr.blk == i
      invariant lo <= hi <= |log| && forall k | lo <= k < hi :: log[k].addr.blk == i
    {
      hi := hi + 1;
    }
    forall k | hi <= k < |log|
      ensures log[k].addr.blk != i
    {
      if hi < k && lo < hi {
        assert Before(bs, log[lo].addr, log[hi].addr) && Before(bs, log[hi].addr, log[k].addr);
      }
    }
  }

  /** The newest header of an object that is gone is a deletion. */
  lemma NewestIsGone(bs: seq<Block>, approved: set<nat>, objs: map<nat, Obj>, log: seq<Entry>, k: int)
    requires IsLog(bs, log) && GoneOk(bs, approved, objs, {})
    requires 0 <= k < |log| && Names.NewestHeader(log, k) && log[k].rec.obj !in objs
    ensures Gone(log[k].rec)
  {
    hide GoneOk, IsLog;
    var j := BuriedIndex(bs, approved, objs, log, k);
  }

  /** And when its block goes, so is the newest one left. */
  lemma OlderIsGone(bs: seq<Block>, approved: set<nat>, objs: map<nat, Obj>, log: seq<Entry>, i: nat, lo: nat, k: int)
    requires IsLog(bs, log) && GoneOk(bs, approved, objs, {}) && i < |bs| && !bs[i].shrink
    requires 0 <= lo <= k < |log| && Names.NewestHeader(log, k) && log[k].rec.obj !in objs
    requires (forall m | 0 <= m < lo :: log[m].addr.blk != i) && (forall m | lo <= m <= k :: log[m].addr.blk == i)
    ensures Names.GoneAt(log[..lo], log[k].rec.obj)
  {
    hide LastHeader, Gone;
    var g := log[k].rec.obj;
    var h := LastHeader(log[..lo], g);
    if h >= 0 {
      var a := log[h].addr;
      assert On(bs, a) && At(bs, a) == log[..lo][h].rec;
      assert Buried(bs, approved, a);
      var x :| On(bs, x) && IsHeader(At(bs, x), At(bs, a).obj) && Gone(At(bs, x)) && (x == a || Before(bs, a, x))
          && Guarded(bs, approved, a, x);
      var j := IndexIn(bs, log, x);
      assert j <= k;
      assert log[..lo][j] == log[j];
      if x != a {
        LogOrder(bs, log, h, j);
      }
    }
  }

  /** Names and files meet here: a block that the device erases, with no chunk in use and no shrink flag,
      is one that the log of names can do without. */
  lemma ErasedIsDisposable(n: nat, dirs: set<nat>, bs: seq<Block>, approved: set<nat>, objs: map<nat, Obj>,
          log: seq<Entry>, i: nat) returns (lo: nat, hi: nat)
    requires IsLog(bs, log) && DistinctSeqs(bs) && ObjsOk(n, dirs, bs, approved, objs, Idle)
        && GoneOk(bs, approved, objs, {})
    requires i < |bs| && bs[i].live == {} && !bs[i].shrink
    ensures lo <= hi <= |log| && forall k | 0 <= k < |log| :: log[k].addr.blk == i <==> lo <= k < hi
    ensures Names.Disposable(log, lo, hi)
  {
    hide IsLog, DistinctSeqs, ObjsOk, GoneOk, LastHeader, Gone;
    lo, hi := BlockInLog(bs, log, i);
    forall k | lo <= k < hi && Names.NewestHeader(log, k)
      ensures Gone(log[k].rec) && Names.GoneAt(log[..lo], log[k].rec.obj)
    {
      HeldIsLive(n, dirs, bs, approved, objs, log, k);
      NewestIsGone(bs, approved, objs, log, k);
      OlderIsGone(bs, approved, objs, log, i, lo, k);
    }
  }

  lemma HeldIsLive(n: nat, dirs: set<nat>, bs: seq<Block>, approved: set<nat>, objs: map<nat, Obj>, log: seq<Entry>,
          k: int)
    requires IsLog(bs, log) && ObjsOk(n, dirs, bs, approved, objs, Idle) && 0 <= k < |log| && Names.NewestHeader(log, k)
    ensures log[k].rec.obj in objs ==> Live(bs, log[k].addr)
  {
    hide IsLog, Synced, Covered, LastHeader;
    var g := log[k].rec.obj;
    if g in objs {
      assert ObjOk(n, bs, approved, g, objs[g], Idle);
      HeaderIsLast(n, bs, log, g, objs[g]);
    }
  }

  // ----- why only a flushed file comes back whole -----

  /** When garbage collection moves the header of a file in the middle of a write, the header records
      the size from before the write: whatever the write has put beyond it is lost until the next header. */
  lemma MovedHeaderLoses(n: nat, bs: seq<Block>, objs: map<nat, Obj>, bs': seq<Block>, objs': map<nat, Obj>, f: nat,
          c: nat)
    requires f in objs && On(bs, objs[f].hdr) && IsHeader(At(bs, objs[f].hdr), f)
    requires Recopied(bs, objs, bs', objs', objs[f].hdr)
    requires c in objs[f].entries && On(bs', objs[f].entries[c]) && At(bs', objs[f].entries[c]).Data?
    ensures f in objs' && c in objs'[f].entries
    ensures Lost(n, bs', objs'[f], c) <==> objs[f].size <= Base(n, c)
  {
  }

  /** A lost chunk is not gone for good. The mount leaves it out, but its record stays on flash until its
      block is erased, and once another header is the newest the one that cut it does not count any more,
      unless that is a cutting one itself: the next mount finds the chunk again, with its data from before
      the crash, exactly when the new header records a size beyond it. */
  lemma LostComesBack(n: nat, dirs: set<nat>, bs: seq<Block>, approved: set<nat>, log: seq<Entry>, f: nat, o: Obj,
          c: nat, mid: seq<Block>, bs': seq<Block>, log': seq<Entry>, x: Addr, r: Record)
    requires IsLog(bs, log) && FileOk(n, bs, approved, f, o, o.size, o.size) && RecordsOk(n, dirs, bs)
        && c in o.entries && Lost(n, bs, o, c)
    requires SamePages(bs, mid) && Appended(mid, bs', x, r) && IsLog(bs', log')
    requires IsHeader(r, f) && !IsCut(r, f) && RecordOk(n, dirs, r)
    ensures c !in Forward(n, log, f, LastHeader(log, f), |log|)
    ensures var m := Forward(n, log', f, LastHeader(log', f), |log'|);
            && (c in m <==> Base(n, c) < r.size)
            && (c in m ==> m[c] == o.entries[c])
  {
    hide IsLog, FileOk, Lost, Forward, LastHeader, Covered, HeaderOk, RecordOk, Appended, SamePages;
    EntriesRebuilt(n, dirs, bs, approved, log, f, o);
    var o' := o.(hdr := x, name := r.name, parent := r.parent);
    var bs1 := WithoutMount(bs, mid, bs', log', x, r);
    AppendedHeader(n, bs, bs1, x, r, approved, o, o', o.size, o.size);
    AppendedRecords(n, dirs, bs, bs1, x, r);
    EntriesRebuilt(n, dirs, bs1, approved, log', f, o');
    StillLost(n, bs, bs1, o, c, x, r);
  }

  /** The log is the same as if the record had been written before the mount. */
  lemma WithoutMount(bs: seq<Block>, mid: seq<Block>, bs': seq<Block>, log: seq<Entry>, x: Addr, r: Record)
    returns (bs1: seq<Block>)
    requires SamePages(bs, mid) && Appended(mid, bs', x, r) && IsLog(bs', log)
    ensures Appended(bs, bs1, x, r) && Live(bs1, x) && IsLog(bs1, log)
  {
    hide IsLog;
    bs1 := bs[x.blk := bs[x.blk].(seqNo := bs'[x.blk].seqNo, pages := bs[x.blk].pages + [r],
                                  live := bs[x.blk].live + {x.page})];
    assert forall a | On(bs, a) :: On(mid, a);
    SameLog(bs1, bs', log);
  }

  lemma SameLog(bs: seq<Block>, bs': seq<Block>, log: seq<Entry>)
    requires SamePages(bs, bs') && IsLog(bs', log)
    ensures IsLog(bs, log)
  {
    assert forall a :: On(bs, a) <==> On(bs', a);
    assert forall i | 0 <= i < |log| :: On(bs, log[i].addr) && At(bs, log[i].addr) == log[i].rec;
  }

  lemma StillLost(n: nat, bs: seq<Block>, bs': seq<Block>, o: Obj, c: nat, x: Addr, r: Record)
    requires Appended(bs, bs', x, r) && r.Header? && c in o.entries && Lost(n, bs, o, c)
    ensures Lost(n, bs', o.(hdr := x, name := r.name, parent := r.parent), c) <==> r.size <= Base(n, c)
  {
    AppendedKeeps(bs, bs', x, r);
  }

  /** Blocks other than these are erased. */
  ghost predicate Used(bs: seq<Block>, s: set<nat>) {
    forall i | 0 <= i < |bs| && i !in s :: bs[i].state == Empty
  }

  /** Write the next chunk of the write under way, as WriteChunkDataToObject does when no garbage is collected. */
  method WriteNextChunk(dev: Device, f: nat, c: nat, p: seq<Byte>, ghost t: nat) returns (ghost x: Addr)
    requires c > 0 && t == 2 * (c - 1) && dev.n == 2 && t + 2 < 0x8000_0000 && dev.space.Plenty?
    requires dev.Inv(Working(f, t, t)) && dev.NoneCollecting() && dev.HasRoom()
    requires f in dev.objs && c !in dev.objs[f].entries
    modifies dev
    ensures dev.Inv(Working(f, t + 2, t + 2)) && dev.NoneCollecting()
    ensures Appended(old(dev.blocks), dev.blocks, x, Data(f, c, 2, p))
    ensures dev.objs == old(dev.objs)[f := WithEntry(old(dev.objs)[f], c, x)]
    ensures f in old(dev.Files()) && f in dev.Files()
        && dev.Files()[f] == old(dev.Files())[f].(chunks := old(dev.Files())[f].chunks[c := Data(f, c, 2, p)])
  {
    hide ObjsOk, OwnersOk, GoneOk, FilesOf, WellFormed, ApprovedOk, OneAllocating, RecordsOk, RecordOk, Appended,
        WithEntry;
    var r := Data(f, c, 2, p);
    WorkingIn(dev.n, dev.dirs, dev.blocks, dev.approved, dev.objs, Working(f, t, t));
    PieceOk(dev.n, dev.dirs, r, t, 2, t);
    ghost var bs, os := dev.blocks, dev.objs;
    var ok, prev := dev.PutChunk(f, r, false, Working(f, t, t), t + 2);
    x :| Appended(bs, dev.blocks, x, r) && dev.objs == os[f := WithEntry(os[f], c, x)];
    WorkingIn(dev.n, dev.dirs, dev.blocks, dev.approved, dev.objs, Working(f, t, t + 2));
    GrowOver(dev.n, dev.dirs, dev.blocks, dev.approved, dev.objs, Working(f, t, t + 2), c, t + 2);
  }

  /** The header of f stands first on flash, alone in its block. */
  ghost predicate HeaderFirst(bs: seq<Block>, f: nat, h: Addr) {
    && Live(bs, h) && IsHeader(At(bs, h), f) && bs[h.blk].state == Full && h.page == 0 && |bs[h.blk].pages| == 1
    && forall i | 0 <= i < |bs| && i != h.blk && bs[i].state == Full :: bs[h.blk].seqNo < bs[i].seqNo
  }

  /** One pass of CheckGarbageCollection when the refresh of the oldest block is due and that block
      holds the header of f. */
  method RefreshHeader(dev: Device, f: nat, ghost b: Busy)
    requires dev.Inv(b) && !b.Dying? && dev.NoneCollecting() && dev.HasRoom()
    requires f in dev.objs && HeaderFirst(dev.blocks, f, dev.objs[f].hdr)
    modifies dev
    ensures dev.Inv(b) && dev.NoneCollecting() && dev.Files() == old(dev.Files())
    ensures f in dev.objs && dev.objs == old(dev.objs)[f := old(dev.objs[f]).(hdr := dev.objs[f].hdr)]
    ensures Latest(dev.blocks, dev.objs[f].hdr) && IsHeader(At(dev.blocks, dev.objs[f].hdr), f)
    ensures At(dev.blocks, dev.objs[f].hdr).size == old(dev.objs[f].size)
    ensures SameBut(old(dev.blocks), dev.blocks, {old(dev.objs[f].hdr.blk), dev.objs[f].hdr.blk})
    ensures forall a | On(old(dev.blocks), a) && a.blk != old(dev.objs[f].hdr.blk) ::
        On(dev.blocks, a) && At(dev.blocks, a) == At(old(dev.blocks), a)
  {
    hide ObjsOk, OwnersOk, GoneOk, FilesOf, WellFormed, ApprovedOk, OneAllocating, RecordsOk, Recopied, HeaderFirst,
        Latest, SameBut;
    ghost var bs, os := dev.blocks, dev.objs;
    FirstIsFull(bs, f, os[f].hdr);
    var oldest := dev.FindRefreshBlock();
    OldestIsFirst(bs, f, os[f].hdr, oldest);
    dev.Admit(oldest, b);
    dev.SetState(oldest, Collecting, b);
    ghost var mid := dev.blocks;
    StillRoom(bs, mid, oldest);
    var ok := dev.CopyChunk(Addr(oldest, 0), b);
    RefreshedHeader(bs, mid, os, dev.blocks, dev.objs, f);
    ghost var copied := dev.blocks;
    if dev.blocks[oldest].state == Collecting {
      dev.SetState(oldest, Full, b);
    }
    RefreshDone(bs, copied, dev.blocks, os[f].hdr, dev.objs[f].hdr);
  }

  lemma FirstIsFull(bs: seq<Block>, f: nat, h: Addr)
    requires HeaderFirst(bs, f, h)
    ensures h.blk < |bs| && bs[h.blk].state == Full
  {
  }

  lemma OldestIsFirst(bs: seq<Block>, f: nat, h: Addr, oldest: int)
    requires HeaderFirst(bs, f, h) && 0 <= oldest < |bs| && bs[oldest].state == Full
        && bs[oldest].seqNo <= bs[h.blk].seqNo
    ensures h == Addr(oldest, 0) && Live(bs, h)
  {
  }

  lemma StillRoom(bs: seq<Block>, mid: seq<Block>, i: nat)
    requires i < |bs| && bs[i].state == Full && mid == bs[i := bs[i].(state := Collecting, shrink := false)]
    ensures (exists k :: 0 <= k < |bs| && bs[k].state == Empty) ==> exists k :: 0 <= k < |mid| && mid[k].state == Empty
  {
    if k :| 0 <= k < |bs| && bs[k].state == Empty {
      assert mid[k].state == Empty;
    }
  }

  ghost predicate SameBut(bs: seq<Block>, bs': seq<Block>, s: set<nat>) {
    |bs'| == |bs| && forall i | 0 <= i < |bs| && i !in s :: bs'[i] == bs[i]
  }

  lemma RefreshedHeader(bs: seq<Block>, mid: seq<Block>, objs: map<nat, Obj>, bs': seq<Block>, objs': map<nat, Obj>,
          f: nat)
    requires f in objs && HeaderFirst(bs, f, objs[f].hdr)
    requires mid == bs[objs[f].hdr.blk := bs[objs[f].hdr.blk].(state := Collecting, shrink := false)]
    requires Recopied(mid, objs, bs', objs', objs[f].hdr)
    ensures f in objs' && objs' == objs[f := objs[f].(hdr := objs'[f].hdr)] && objs'[f].hdr.blk != objs[f].hdr.blk
    ensures Latest(bs', objs'[f].hdr) && IsHeader(At(bs', objs'[f].hdr), f)
        && At(bs', objs'[f].hdr).size == objs[f].size
    ensures SameBut(bs, bs', {objs[f].hdr.blk, objs'[f].hdr.blk})
    ensures forall a | On(bs, a) && a.blk != objs[f].hdr.blk :: On(bs', a) && At(bs', a) == At(bs, a)
  {
    var a := objs[f].hdr;
    var r := At(mid, a);
    var x, m :| Appended(mid, m, x, CopyOf(r, objs[r.obj])) && Deleted(m, bs', a)
        && objs' == objs[r.obj := Rehomed(objs[r.obj], r, x)]
                && Latest(bs', x) && At(bs', x) == CopyOf(r, objs[r.obj]) && x.blk != a.blk;
    assert objs'[f] == objs[f].(hdr := x);
    AppendedKeeps(mid, m, x, CopyOf(r, objs[r.obj]));
  }

  lemma RefreshDone(bs: seq<Block>, copied: seq<Block>, bs': seq<Block>, h: Addr, a: Addr)
    requires |bs'| == |copied| && h.blk < |bs| && SameBut(bs, copied, {h.blk, a.blk}) && Latest(copied, a)
    requires bs' == copied || bs' == copied[h.blk := copied[h.blk].(state := Full, shrink := false)]
    requires forall x | On(bs, x) && x.blk != h.blk :: On(copied, x) && At(copied, x) == At(bs, x)
    ensures SameBut(bs, bs', {h.blk, a.blk}) && Latest(bs', a) && At(bs', a) == At(copied, a)
    ensures forall x | On(bs, x) && x.blk != h.blk :: On(bs', x) && At(bs', x) == At(bs, x)
  {
    assert forall b | On(bs', b) :: On(copied, b);
  }

  /** A device of four blocks of one page of two bytes, with one empty file. */
  method NewFile() returns (dev: Device)
    ensures fresh(dev) && dev.Inv(Working(256, 0, 0)) && dev.NoneCollecting() && dev.n == 2 && dev.perBlock == 1
        && dev.space.Plenty?
    ensures dev.dirs == {ROOT, LOSTNFOUND} && 256 in dev.objs
        && dev.objs[256] == Obj(dev.objs[256].hdr, map[], 0, false, ROOT, "f")
    ensures 256 in dev.Files() && dev.Files()[256] == FileState(0, map[], ROOT, "f", false)
    ensures |dev.blocks| == 4 && Used(dev.blocks, {dev.objs[256].hdr.blk})
    ensures Live(dev.blocks, dev.objs[256].hdr) && IsHeader(At(dev.blocks, dev.objs[256].hdr), 256)
  {
    hide ObjsOk, OwnersOk, GoneOk, FilesOf, WellFormed, ApprovedOk, OneAllocating, RecordsOk, Appended;
    dev := new Device(4, 1, 2, Plenty, {ROOT, LOSTNFOUND});
    ghost var bs := dev.blocks;
    assert bs[0].state == Empty;
    var ok := dev.MknodFile(256, ROOT, "f");
    assert ok;
    OneUsed(bs, dev.blocks, dev.objs[256].hdr, Header(256, FileKind, ROOT, "f", 0, false, 0), {});
    assert {} + {dev.objs[256].hdr.blk} == {dev.objs[256].hdr.blk};
    ghost var b := dev.Begin(256);
  }

  /** The whole run: a file is made and four bytes are written to it, two chunks, before it is flushed;
      between the two the refresh of the oldest block moves the file's header. In RAM the file holds both
      chunks; after a mount the first one is missing. */
  method UnflushedWriteLost(p: seq<Byte>, q: seq<Byte>) returns (dev: Device, t: Table)
    ensures dev.Inv(Idle) && dev.NoneCollecting() && 256 in dev.objs && 256 in dev.Files()
    ensures dev.Files()[256] == FileState(4, map[1 := Data(256, 1, 2, p), 2 := Data(256, 2, 2, q)], ROOT, "f", true)
    ensures 256 in t && t[256].fileSize == 4 && 1 !in t[256].entries && 2 in t[256].entries
  {
    hide ObjsOk, OwnersOk, GoneOk, FilesOf, WellFormed, ApprovedOk, OneAllocating, RecordsOk, Appended, Latest, Before,
        Rebuilt, HeaderFirst;
    dev := NewFile();
    ghost var bs1, x0 := dev.blocks, dev.objs[256].hdr;
    assert {x0.blk} == {x0.blk, x0.blk, x0.blk};
    SomeLeft(bs1, x0.blk, x0.blk, x0.blk);
    ghost var x1 := WriteNextChunk(dev, 256, 1, p, 0);
    ghost var bs2 := dev.blocks;
    OneUsed(bs1, bs2, x1, Data(256, 1, 2, p), {x0.blk});
    assert {x0.blk} + {x1.blk} == {x0.blk, x1.blk, x1.blk};
    SomeLeft(bs2, x0.blk, x1.blk, x1.blk);
    FirstHeader(dev, bs1, x0, x1, Data(256, 1, 2, p));
    RefreshHeader(dev, 256, Working(256, 2, 2));
    ghost var bs3, x2 := dev.blocks, dev.objs[256].hdr;
    SomeLeft(bs3, x0.blk, x1.blk, x2.blk);
    ghost var x3 := WriteNextChunk(dev, 256, 2, q, 2);
    dev.Resize(256, 4, true, Working(256, 4, 4), 4, 4);
    FinishWork(dev.n, dev.dirs, dev.blocks, dev.approved, dev.objs, Working(256, 4, 4));
    t := Mount(dev);
    RunEnds(bs3, dev.blocks, dev.objs[256], x1, x2, x3, Data(256, 2, 2, q), t);
  }

  lemma OneUsed(bs: seq<Block>, bs': seq<Block>, x: Addr, r: Record, s: set<nat>)
    requires Used(bs, s) && Appended(bs, bs', x, r)
    ensures Used(bs', s + {x.blk}) && |bs'| == |bs| && Live(bs', x) && At(bs', x) == r
    ensures forall a | On(bs, a) :: On(bs', a) && At(bs', a) == At(bs, a) && Before(bs', a, x)
  {
    AppendedKeeps(bs, bs', x, r);
  }

  lemma SomeLeft(bs: seq<Block>, i: nat, j: nat, k: nat)
    requires |bs| == 4 && Used(bs, {i, j, k})
    ensures exists m :: 0 <= m < |bs| && bs[m].state == Empty
  {
    var m := if 0 !in {i, j, k} then 0 else if 1 !in {i, j, k} then 1 else if 2 !in {i, j, k} then 2 else 3;
    assert bs[m].state == Empty;
  }

  lemma FirstHeader(dev: Device, bs: seq<Block>, x0: Addr, x1: Addr, r: Record)
    requires dev.Shape() && dev.NoneCollecting() && dev.perBlock == 1 && Used(dev.blocks, {x0.blk, x1.blk})
    requires Appended(bs, dev.blocks, x1, r) && Live(bs, x0) && IsHeader(At(bs, x0), 256)
    ensures HeaderFirst(dev.blocks, 256, x0)
  {
    AppendedKeeps(bs, dev.blocks, x1, r);
  }

  lemma RunEnds(bs: seq<Block>, bs': seq<Block>, o: Obj, x1: Addr, x2: Addr, x3: Addr, r: Record, t: Table)
    requires Latest(bs, x2) && IsHeader(At(bs, x2), 256) && At(bs, x2).size == 0 && On(bs, x1) && x1 != x2
        && Appended(bs, bs', x3, r)
    requires o.hdr == x2 && o.entries == map[1 := x1, 2 := x3] && r.Data? && r == Data(256, 2, 2, r.payload)
        && Rebuilt(2, bs', t, 256, o)
    ensures t[256].fileSize == 4 && 1 !in t[256].entries && 2 in t[256].entries && t[256].entries[2] == x3
  {
    AppendedKeeps(bs, bs', x3, r);
    assert Lost(2, bs', o, 1);
    assert !Lost(2, bs', o, 2);
    assert DataAfter(bs', 256, x2, x3);
  }
}
