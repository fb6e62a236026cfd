/** The yaffs2 device: allocation, deletion, garbage collection and file operations over
    NAND, with the invariant that a later scan rebuilds what RAM holds. */
module LogDevice {
  import opened Records
  import opened Flash
  import opened FlashSteps
  import opened Offsets
  import opened Collection

  /** What a file is, wherever its chunks happen to lie. */
  datatype FileState = FileState(size: nat, chunks: map<nat, Record>, parent: nat, name: string, dirty: bool)

  function FileOf(bs: seq<Block>, o: Obj): FileState {
    FileState(o.size, map c | c in o.entries && On(bs, o.entries[c]) :: At(bs, o.entries[c]), o.parent, o.name, o.dirty)
  }

  function FilesOf(bs: seq<Block>, objs: map<nat, Obj>): map<nat, FileState> {
    map g | g in objs :: FileOf(bs, objs[g])
  }

  lemma FileOfSame(bs: seq<Block>, bs': seq<Block>, o: Obj)
    requires forall c | c in o.entries ::
        On(bs, o.entries[c]) && On(bs', o.entries[c]) && At(bs', o.entries[c]) == At(bs, o.entries[c])
    ensures FileOf(bs', o) == FileOf(bs, o)
  {
  }

  /** Page a is no longer in use; its block has been erased if that was the last one. */
  ghost predicate Deleted(bs: seq<Block>, bs': seq<Block>, a: Addr)
    requires a.blk < |bs|
  {
    && |bs'| == |bs|
    && (forall i | 0 <= i < |bs| && i != a.blk :: bs'[i] == bs[i])
    && bs'[a.blk] == if bs[a.blk].live <= {a.page} && !bs[a.blk].shrink && bs[a.blk].state in {Full, Collecting}
                     then Block(Empty, 0, [], {}, false)
                     else bs[a.blk].(live := bs[a.blk].live - {a.page})
  }

  function Range(k: nat): set<nat> {
    if k == 0 then {} else Range(k - 1) + {k - 1}
  }

  lemma {:induction false} RangeIs(k: nat)
    ensures |Range(k)| == k && forall p: nat :: p in Range(k) <==> p < k
  {
    if k > 0 {
      RangeIs(k - 1);
    }
  }

  lemma {:induction false} SubsetSize(s: set<nat>, r: set<nat>)
    requires s <= r
    ensures |s| <= |r|
    decreases s
  {
    if s != {} {
      var x :| x in s;
      SubsetSize(s - {x}, r - {x});
    }
  }

  /** A block with as many live pages as written ones has nothing stale on it. */
  lemma AllLive(s: set<nat>, k: nat, m: nat)
    requires k <= m && |s| >= m && forall p | p in s :: p < k
    ensures forall p: nat | p < k :: p in s
  {
    RangeIs(k);
    assert s <= Range(k);
    if p: nat :| p < k && p !in s {
      SubsetSize(s, Range(k) - {p});
    }
  }

  function Open(bs: seq<Block>, i: nat, q: nat): seq<Block>
    requires i < |bs|
  {
    bs[i := bs[i].(state := Allocating, seqNo := q)]
  }

  function Write(bs: seq<Block>, i: nat, r: Record, perBlock: nat): seq<Block>
    requires i < |bs|
  {
    bs[i := bs[i].(pages := bs[i].pages + [r], live := bs[i].live + {|bs[i].pages|},
                   state := if |bs[i].pages| + 1 >= perBlock then Full else bs[i].state)]
  }

  ghost predicate ApprovedOk(bs: seq<Block>, approved: set<nat>) {
    forall i | i in approved :: i < |bs| && bs[i].state in {Full, Collecting}
  }

  ghost predicate OneAllocating(bs: seq<Block>, alloc: int) {
    && -1 <= alloc < |bs|
    && (forall i | 0 <= i < |bs| :: bs[i].state == Allocating <==> i == alloc)
  }

  /** Neither opening a block nor writing to it touches the others. */
  ghost predicate OnlyAt(bs: seq<Block>, bs': seq<Block>, i: int) {
    |bs'| == |bs| && forall j | 0 <= j < |bs| && j != i :: bs'[j] == bs[j]
  }

  /** A block was opened, or nothing happened. */
  ghost predicate Opened(bs: seq<Block>, bs': seq<Block>, i: int) {
    && OnlyAt(bs, bs', i)
    && (0 <= i < |bs| ==> bs'[i].(state := bs[i].state, seqNo := bs[i].seqNo) == bs[i]
                          && (bs[i].pages != [] ==> bs'[i] == bs[i])
                          && bs[i].state in {Empty, Allocating} && bs'[i].state == Allocating)
  }

  lemma OpenKeeps(bs: seq<Block>, i: nat, perBlock: nat, q: nat, approved: set<nat>)
    requires WellFormed(bs, perBlock, q) && i < |bs| && bs[i].state == Empty && perBlock > 0
    requires OneAllocating(bs, -1) && ApprovedOk(bs, approved)
    ensures var bs' := Open(bs, i, q + 1);
            WellFormed(bs', perBlock, q + 1) && Opened(bs, bs', i) && OneAllocating(bs', i) && ApprovedOk(bs', approved)
  {
  }

  lemma WriteAppends(bs: seq<Block>, i: nat, perBlock: nat, q: nat, r: Record)
    requires WellFormed(bs, perBlock, q) && i < |bs| && bs[i].state == Allocating
    ensures var bs' := Write(bs, i, r, perBlock);
            && Appended(bs, bs', Addr(i, |bs[i].pages|), r)
            && (forall j | 0 <= j < |bs'| && j != i :: bs'[j] == bs[j])
  {
    var bs' := Write(bs, i, r, perBlock);
    var x := Addr(i, |bs[i].pages|);
    forall a | On(bs, a)
      ensures On(bs', a) && Before(bs', a, x)
    {
    }
  }

  lemma WriteWellFormed(bs: seq<Block>, i: nat, perBlock: nat, q: nat, r: Record, approved: set<nat>)
    requires WellFormed(bs, perBlock, q) && OneAllocating(bs, i) && ApprovedOk(bs, approved)
    ensures var bs' := Write(bs, i, r, perBlock);
            WellFormed(bs', perBlock, q) && ApprovedOk(bs', approved)
            && OneAllocating(bs', if bs'[i].state == Full then -1 else i) && i !in approved
  {
    ShrinkKept(bs[i].pages, r);
  }

  lemma ShrinkKept(pages: seq<Record>, r: Record)
    ensures HasShrinkHeader(pages) ==> HasShrinkHeader(pages + [r])
  {
    if p :| 0 <= p < |pages| && pages[p].Header? && pages[p].isShrink {
      assert (pages + [r])[p] == pages[p];
    }
  }

  lemma AppendedRecords(n: nat, dirs: set<nat>, bs: seq<Block>, bs': seq<Block>, x: Addr, r: Record)
    requires Appended(bs, bs', x, r) && RecordsOk(n, dirs, bs) && RecordOk(n, dirs, r)
    ensures RecordsOk(n, dirs, bs')
  {
    AppendedKeeps(bs, bs', x, r);
  }

  /** Opening an erased block does not show in the appended relation. */
  lemma OpenThenAppend(bs: seq<Block>, mid: seq<Block>, bs': seq<Block>, x: Addr, r: Record)
    requires Opened(bs, mid, x.blk) && Appended(mid, bs', x, r)
    ensures Appended(bs, bs', x, r)
  {
    assert forall a | On(bs, a) :: On(mid, a);
  }

  lemma OpenedSame(bs: seq<Block>, mid: seq<Block>, i: int)
    requires Opened(bs, mid, i)
    ensures SamePages(bs, mid)
  {
  }

  lemma SameRecords(n: nat, dirs: set<nat>, bs: seq<Block>, bs': seq<Block>)
    requires SamePages(bs, bs') && RecordsOk(n, dirs, bs)
    ensures RecordsOk(n, dirs, bs')
  {
    assert forall a | On(bs', a) :: On(bs, a) && At(bs', a) == At(bs, a);
  }

  // ----- the invariant of all objects, step by step -----

  lemma SamePagesFiles(bs: seq<Block>, bs': seq<Block>, objs: map<nat, Obj>)
    requires SamePages(bs, bs')
    ensures FilesOf(bs', objs) == FilesOf(bs, objs)
  {
    forall g | g in objs
      ensures FileOf(bs', objs[g]) == FileOf(bs, objs[g])
    {
      assert forall c | c in objs[g].entries :: On(bs', objs[g].entries[c]) == On(bs, objs[g].entries[c]);
    }
  }

  lemma OpenedObjs(n: nat, dirs: set<nat>, bs: seq<Block>, bs': seq<Block>, i: int, approved: set<nat>,
          objs: map<nat, Obj>, b: Busy, dying: set<nat>)
    requires Opened(bs, bs', i)
    requires ObjsOk(n, dirs, bs, approved, objs, b) && OwnersOk(bs, objs, {}) && GoneOk(bs, approved, objs, dying)
    ensures ObjsOk(n, dirs, bs', approved, objs, b) && OwnersOk(bs', objs, {}) && GoneOk(bs', approved, objs, dying)
    ensures FilesOf(bs', objs) == FilesOf(bs, objs)
  {
    hide ObjOk, FilesOf, GoneOk, SamePages, GuardsKept;
    OpenedSame(bs, bs', i);
    OpenedGuards(bs, bs', i, approved);
    SamePagesFiles(bs, bs', objs);
    SamePagesGone(bs, bs', approved, approved, objs, dying);
    forall g | g in objs
      ensures ObjOk(n, bs', approved, g, objs[g], b)
    {
      OpenedObj(n, bs, bs', i, approved, g, objs[g], b);
    }
  }

  lemma OpenedGuards(bs: seq<Block>, bs': seq<Block>, i: int, approved: set<nat>)
    requires Opened(bs, bs', i)
    ensures |bs| == |bs'| && GuardsKept(bs, bs', approved, approved)
    ensures forall a | Live(bs', a) :: Live(bs, a) && At(bs', a) == At(bs, a)
    ensures forall a | Live(bs, a) :: Live(bs', a)
  {
  }

  lemma OpenedObj(n: nat, bs: seq<Block>, bs': seq<Block>, i: int, approved: set<nat>, g: nat, o: Obj, b: Busy)
    requires Opened(bs, bs', i) && ObjOk(n, bs, approved, g, o, b)
    ensures ObjOk(n, bs', approved, g, o, b)
  {
    hide Opened, SamePages, GuardsKept, FileOk, Synced;
    OpenedSame(bs, bs', i);
    OpenedGuards(bs, bs', i, approved);
    EntriesLive(n, bs, approved, g, o, b);
    SamePagesFile(n, bs, bs', approved, approved, g, o, BoundT(b, g, o), BoundE(b, g, o));
  }

  lemma AppendedFiles(bs: seq<Block>, bs': seq<Block>, x: Addr, r: Record, objs: map<nat, Obj>)
    requires Appended(bs, bs', x, r)
    requires forall g | g in objs :: forall c | c in objs[g].entries :: On(bs, objs[g].entries[c])
    ensures FilesOf(bs', objs) == FilesOf(bs, objs)
  {
    hide Appended, FileOf, Before, Guarded;
    AppendedKeeps(bs, bs', x, r);
    forall g | g in objs
      ensures FileOf(bs', objs[g]) == FileOf(bs, objs[g])
    {
      FileOfSame(bs, bs', objs[g]);
    }
  }

  lemma EntriesLive(n: nat, bs: seq<Block>, approved: set<nat>, g: nat, o: Obj, b: Busy)
    requires ObjOk(n, bs, approved, g, o, b)
    ensures Live(bs, o.hdr) && forall c | c in o.entries :: Live(bs, o.entries[c]) && IsData(At(bs, o.entries[c]), g, c)
  {
    forall c | c in o.entries
      ensures Live(bs, o.entries[c]) && IsData(At(bs, o.entries[c]), g, c)
    {
      assert EntryOk(n, bs, g, c, o.entries[c], BoundE(b, g, o));
    }
  }

  lemma EntriesOn(n: nat, dirs: set<nat>, bs: seq<Block>, approved: set<nat>, objs: map<nat, Obj>, b: Busy)
    requires ObjsOk(n, dirs, bs, approved, objs, b)
    ensures forall g | g in objs :: forall c | c in objs[g].entries :: On(bs, objs[g].entries[c])
  {
    forall g | g in objs
      ensures forall c | c in objs[g].entries :: On(bs, objs[g].entries[c])
    {
      EntriesLive(n, bs, approved, g, objs[g], b);
    }
  }

  /** Objects other than the one written to. */
  lemma AppendedOthers(n: nat, dirs: set<nat>, bs: seq<Block>, bs': seq<Block>, x: Addr, r: Record, approved: set<nat>,
          objs: map<nat, Obj>, b: Busy)
    requires Appended(bs, bs', x, r)
    requires ObjsOk(n, dirs, bs, approved, objs, b)
    ensures forall g | g in objs && g != r.obj :: ObjOk(n, bs', approved, g, objs[g], b)
  {
    forall g | g in objs && g != r.obj
      ensures ObjOk(n, bs', approved, g, objs[g], b)
    {
      var o := objs[g];
      AppendedOther(n, bs, bs', x, r, approved, g, o, BoundT(b, g, o), BoundE(b, g, o));
    }
  }

  /** After a write, everything live is owned but the new page and the one it replaces. */
  lemma AppendedOwners(bs: seq<Block>, bs': seq<Block>, x: Addr, r: Record, objs: map<nat, Obj>, objs': map<nat, Obj>,
          spare: set<Addr>)
    requires Appended(bs, bs', x, r) && OwnersOk(bs, objs, {})
    requires x !in spare ==> r.obj in objs' && Refers(objs'[r.obj], r, x)
    requires forall a | Live(bs, a) && a !in spare && At(bs, a).obj in objs
        && Refers(objs[At(bs, a).obj], At(bs, a), a) ::
               At(bs, a).obj in objs' && Refers(objs'[At(bs, a).obj], At(bs, a), a)
    ensures OwnersOk(bs', objs', spare)
  {
    AppendedKeeps(bs, bs', x, r);
    forall a | Live(bs', a) && a !in spare
      ensures At(bs', a).obj in objs' && Refers(objs'[At(bs', a).obj], At(bs', a), a)
    {
      if a != x { assert Live(bs, a); }
    }
  }

  /** What page, if any, a new copy of chunk c replaces. */
  function Previous(o: Obj, c: nat): set<Addr> {
    if c in o.entries then {o.entries[c]} else {}
  }

  function WithEntry(o: Obj, c: nat, x: Addr): Obj {
    o.(entries := o.entries[c := x])
  }

  /** The bounds promised of object g while b is under way. */
  function BoundT(b: Busy, g: nat, o: Obj): int {
    if b.Working? && b.f == g then b.t else o.size
  }

  function BoundE(b: Busy, g: nat, o: Obj): int {
    if b.Working? && b.f == g then b.e else o.size
  }

  lemma DataWrittenObjs(n: nat, dirs: set<nat>, bs: seq<Block>, bs': seq<Block>, x: Addr, r: Record, approved: set<nat>,
          objs: map<nat, Obj>, b: Busy, b': Busy)
    requires Appended(bs, bs', x, r) && r.Data? && r.obj in objs
    requires ObjsOk(n, dirs, bs, approved, objs, b) && !b.Dying?
    requires if b.Working? && b.f == r.obj
        then b'.Working? && b'.f == b.f && b'.t == b.t && b.e <= b'.e && End(n, r) <= b'.e
             else b' == b && End(n, r) <= objs[r.obj].size
    ensures ObjsOk(n, dirs, bs', approved, objs[r.obj := WithEntry(objs[r.obj], r.chunk, x)], b')
  {
    var o := objs[r.obj];
    var objs' := objs[r.obj := WithEntry(o, r.chunk, x)];
    assert Live(bs', x);
    hide Appended, EntryOk, HeaderOk, Covered, Synced, End;
    AppendedOthers(n, dirs, bs, bs', x, r, approved, objs, b);
    assert ObjOk(n, bs, approved, r.obj, o, b);
    AppendedData(n, bs, bs', x, r, approved, o, BoundT(b, r.obj, o), BoundE(b, r.obj, o), BoundE(b', r.obj, o));
    assert ObjOk(n, bs', approved, r.obj, objs'[r.obj], b');
    forall g | g in objs'
      ensures ObjOk(n, bs', approved, g, objs'[g], b')
    {
      hide FileOk, RestOk;
    }
  }

  lemma DataWrittenFile(bs: seq<Block>, x: Addr, r: Record, o: Obj)
    requires On(bs, x) && At(bs, x) == r && r.Data?
    ensures FileOf(bs, WithEntry(o, r.chunk, x)) == FileOf(bs, o).(chunks := FileOf(bs, o).chunks[r.chunk := r])
  {
  }

  lemma DataWrittenFiles(n: nat, dirs: set<nat>, bs: seq<Block>, bs': seq<Block>, x: Addr, r: Record,
          approved: set<nat>, objs: map<nat, Obj>, b: Busy)
    requires Appended(bs, bs', x, r) && r.Data? && r.obj in objs
    requires ObjsOk(n, dirs, bs, approved, objs, b)
    ensures var fs := FilesOf(bs, objs)[r.obj];
            FilesOf(bs', objs[r.obj := WithEntry(objs[r.obj], r.chunk, x)])
                == FilesOf(bs, objs)[r.obj := fs.(chunks := fs.chunks[r.chunk := r])]
  {
    hide FileOf, ObjsOk, Appended;
    EntriesOn(n, dirs, bs, approved, objs, b);
    AppendedFiles(bs, bs', x, r, objs);
    NewPage(bs, bs', x, r);
    DataWrittenFile(bs', x, r, objs[r.obj]);
    assert FileOf(bs', objs[r.obj]) == FilesOf(bs', objs)[r.obj];
  }

  lemma DataWrittenOwners(bs: seq<Block>, bs': seq<Block>, x: Addr, r: Record, approved: set<nat>, objs: map<nat, Obj>)
    requires Appended(bs, bs', x, r) && r.Data? && r.obj in objs
    requires OwnersOk(bs, objs, {}) && GoneOk(bs, approved, objs, {})
    ensures OwnersOk(bs', objs[r.obj := WithEntry(objs[r.obj], r.chunk, x)], Previous(objs[r.obj], r.chunk))
    ensures GoneOk(bs', approved, objs[r.obj := WithEntry(objs[r.obj], r.chunk, x)], {})
  {
    var objs' := objs[r.obj := WithEntry(objs[r.obj], r.chunk, x)];
    AppendedGone(bs, bs', x, r, approved, objs, {});
    GoneSameObjs(bs', approved, objs, objs');
    AppendedOwners(bs, bs', x, r, objs, objs', Previous(objs[r.obj], r.chunk));
  }

  lemma GoneSameObjs(bs: seq<Block>, approved: set<nat>, objs: map<nat, Obj>, objs': map<nat, Obj>)
    requires GoneOk(bs, approved, objs, {}) && objs'.Keys == objs.Keys
    ensures GoneOk(bs, approved, objs', {})
  {
    forall r | On(bs, r) && At(bs, r).obj !in objs'
      ensures Buried(bs, approved, r)
    {
    }
  }

  /** Every chunk the file holds starts below its size. */
  ghost predicate Closed(n: nat, o: Obj) {
    forall c | c in o.entries :: Base(n, c) < o.size
  }

  lemma HeaderWrittenObjs(n: nat, dirs: set<nat>, bs: seq<Block>, bs': seq<Block>, x: Addr, r: Record,
          approved: set<nat>, objs: map<nat, Obj>, b: Busy, o': Obj)
    requires Appended(bs, bs', x, r) && r.Header? && r.obj in objs && !Gone(r) && r.parent in dirs
    requires ObjsOk(n, dirs, bs, approved, objs, b) && !b.Dying?
    requires o'.hdr == x && o'.entries == objs[r.obj].entries && o'.size == objs[r.obj].size == r.size
        && o'.parent == r.parent && o'.name == r.name
    requires if b.Working? && b.f == r.obj then r.isShrink ==> Closed(n, objs[r.obj]) else !r.isShrink
    ensures ObjsOk(n, dirs, bs', approved, objs[r.obj := o'], b) && Newest(bs', r.obj, x)
  {
    hide Appended, ObjOk, Newest, Gone, Closed;
    AppendedOthers(n, dirs, bs, bs', x, r, approved, objs, b);
    HeaderWrittenObj(n, bs, bs', x, r, approved, objs[r.obj], b, o');
  }

  lemma HeaderWrittenObj(n: nat, bs: seq<Block>, bs': seq<Block>, x: Addr, r: Record, approved: set<nat>, o: Obj,
          b: Busy, o': Obj)
    requires Appended(bs, bs', x, r) && r.Header? && !Gone(r)
    requires ObjOk(n, bs, approved, r.obj, o, b) && !b.Dying?
    requires o'.hdr == x && o'.entries == o.entries && o'.size == o.size == r.size && o'.parent == r.parent
        && o'.name == r.name
    requires if b.Working? && b.f == r.obj then r.isShrink ==> Closed(n, o) else !r.isShrink
    ensures ObjOk(n, bs', approved, r.obj, o', b) && Newest(bs', r.obj, x)
  {
    hide FileOk, Synced, HeaderOk, Before;
    NewPage(bs, bs', x, r);
    AppendedHeader(n, bs, bs', x, r, approved, o, o', BoundT(b, r.obj, o), BoundE(b, r.obj, o));
    NewestSynced(n, bs', r.obj, o');
  }

  lemma NewPage(bs: seq<Block>, bs': seq<Block>, x: Addr, r: Record)
    requires Appended(bs, bs', x, r)
    ensures Live(bs', x) && On(bs', x) && At(bs', x) == r
  {
  }

  lemma NewestSynced(n: nat, bs: seq<Block>, f: nat, o: Obj)
    requires Newest(bs, f, o.hdr) && IsHeader(At(bs, o.hdr), f)
    requires At(bs, o.hdr).size == o.size
    ensures Synced(n, bs, f, o)
  {
  }

  lemma HeaderWrittenOwners(n: nat, dirs: set<nat>, bs: seq<Block>, bs': seq<Block>, x: Addr, r: Record,
          approved: set<nat>, objs: map<nat, Obj>, b: Busy, o': Obj)
    requires Appended(bs, bs', x, r) && r.Header? && r.obj in objs
    requires ObjsOk(n, dirs, bs, approved, objs, b) && OwnersOk(bs, objs, {}) && GoneOk(bs, approved, objs, {})
    requires o'.hdr == x && o'.entries == objs[r.obj].entries && o'.size == objs[r.obj].size && o'.parent == r.parent
        && o'.name == r.name
    ensures var objs' := objs[r.obj := o'];
            && OwnersOk(bs', objs', {objs[r.obj].hdr}) && GoneOk(bs', approved, objs', {})
            && FilesOf(bs', objs') == FilesOf(bs,
                objs)[r.obj := FilesOf(bs, objs)[r.obj].(parent := r.parent, name := r.name, dirty := o'.dirty)]
  {
    hide FilesOf, ObjsOk;
    var o := objs[r.obj];
    var objs' := objs[r.obj := o'];
    AppendedGone(bs, bs', x, r, approved, objs, {});
    GoneSameObjs(bs', approved, objs, objs');
    AppendedOwners(bs, bs', x, r, objs, objs', {o.hdr});
    HeaderWrittenFiles(n, dirs, bs, bs', x, r, approved, objs, b, o');
  }

  lemma HeaderWrittenFiles(n: nat, dirs: set<nat>, bs: seq<Block>, bs': seq<Block>, x: Addr, r: Record,
          approved: set<nat>, objs: map<nat, Obj>, b: Busy, o': Obj)
    requires Appended(bs, bs', x, r) && r.Header? && r.obj in objs && ObjsOk(n, dirs, bs, approved, objs, b)
    requires o'.hdr == x && o'.entries == objs[r.obj].entries && o'.size == objs[r.obj].size && o'.parent == r.parent
        && o'.name == r.name
    ensures FilesOf(bs', objs[r.obj := o'])
        == FilesOf(bs, objs)[r.obj := FilesOf(bs, objs)[r.obj].(parent := r.parent, name := r.name, dirty := o'.dirty)]
  {
    hide ObjsOk, Appended, On, At;
    EntriesOn(n, dirs, bs, approved, objs, b);
    AppendedFiles(bs, bs', x, r, objs);
    assert FileOf(bs', o') == FileOf(bs', objs[r.obj]).(parent := r.parent, name := r.name, dirty := o'.dirty);
  }

  /** Nothing of f was written after a. */
  ghost predicate Newest(bs: seq<Block>, f: nat, a: Addr) {
    On(bs, a) && forall b | On(bs, b) && At(bs, b).obj == f && b != a :: Before(bs, b, a)
  }

  lemma NotReferenced(n: nat, bs: seq<Block>, approved: set<nat>, g: nat, o: Obj, b: Busy, a: Addr)
    requires ObjOk(n, bs, approved, g, o, b) && On(bs, a)
    requires At(bs, a).obj == g ==> !Refers(o, At(bs, a), a)
    ensures o.hdr != a && forall c | c in o.entries :: o.entries[c] != a
  {
    EntriesLive(n, bs, approved, g, o, b);
  }

  function KillPage(bs: seq<Block>, a: Addr): seq<Block>
    requires a.blk < |bs|
  {
    bs[a.blk := bs[a.blk].(live := bs[a.blk].live - {a.page})]
  }

  function EraseBlock(bs: seq<Block>, i: nat): seq<Block>
    requires i < |bs|
  {
    bs[i := Block(Empty, 0, [], {}, false)]
  }

  lemma KillPageIs(bs: seq<Block>, a: Addr, approved: set<nat>)
    requires Live(bs, a)
    ensures var bs' := KillPage(bs, a);
            && SamePages(bs, bs') && GuardsKept(bs, bs', approved, approved)
            && (forall x | Live(bs', x) :: Live(bs, x) && x != a && At(bs', x) == At(bs, x))
            && (forall x | Live(bs, x) && x != a :: Live(bs', x))
  {
  }

  lemma KilledObj(n: nat, bs: seq<Block>, a: Addr, approved: set<nat>, g: nat, o: Obj, b: Busy)
    requires Live(bs, a) && ObjOk(n, bs, approved, g, o, b)
    requires At(bs, a).obj == g ==> !Refers(o, At(bs, a), a)
    ensures ObjOk(n, KillPage(bs, a), approved, g, o, b)
  {
    hide SamePages, GuardsKept, KillPage, FileOk, Synced;
    KillPageIs(bs, a, approved);
    NotReferenced(n, bs, approved, g, o, b, a);
    EntriesLive(n, bs, approved, g, o, b);
    SamePagesFile(n, bs, KillPage(bs, a), approved, approved, g, o, BoundT(b, g, o), BoundE(b, g, o));
  }

  lemma KilledObjs(n: nat, dirs: set<nat>, bs: seq<Block>, a: Addr, approved: set<nat>, objs: map<nat, Obj>, b: Busy,
          dying: set<nat>, spare: set<Addr>)
    requires ObjsOk(n, dirs, bs, approved, objs, b) && OwnersOk(bs, objs, spare + {a})
        && GoneOk(bs, approved, objs, dying)
    requires Live(bs, a) && (At(bs, a).obj in objs ==> !Refers(objs[At(bs, a).obj], At(bs, a), a))
    ensures var bs' := KillPage(bs, a);
            && ObjsOk(n, dirs, bs', approved, objs, b) && OwnersOk(bs', objs, spare)
                && GoneOk(bs', approved, objs, dying)
            && FilesOf(bs', objs) == FilesOf(bs, objs) && SamePages(bs, bs')
  {
    hide ObjOk, FilesOf, GoneOk, SamePages, GuardsKept, KillPage;
    var bs' := KillPage(bs, a);
    KillPageIs(bs, a, approved);
    SamePagesFiles(bs, bs', objs);
    SamePagesGone(bs, bs', approved, approved, objs, dying);
    forall g | g in objs
      ensures ObjOk(n, bs', approved, g, objs[g], b)
    {
      KilledObj(n, bs, a, approved, g, objs[g], b);
    }
    forall x | Live(bs', x) && x !in spare
      ensures At(bs', x).obj in objs && Refers(objs[At(bs', x).obj], At(bs', x), x)
    {
      assert Live(bs, x) && x != a;
    }
  }

  lemma ErasedObjs(n: nat, dirs: set<nat>, bs: seq<Block>, i: nat, approved: set<nat>, objs: map<nat, Obj>, b: Busy)
    requires ObjsOk(n, dirs, bs, approved, objs, b)
    requires i < |bs| && bs[i].live == {} && !bs[i].shrink
    ensures ObjsOk(n, dirs, EraseBlock(bs, i), approved - {i}, objs, b)
  {
    var bs' := EraseBlock(bs, i);
    forall g | g in objs
      ensures ObjOk(n, bs', approved - {i}, g, objs[g], b)
    {
      var o := objs[g];
      ErasedFile(n, bs, bs', i, approved, g, o, BoundT(b, g, o), BoundE(b, g, o));
    }
  }

  lemma ErasedFiles(n: nat, dirs: set<nat>, bs: seq<Block>, i: nat, approved: set<nat>, objs: map<nat, Obj>, b: Busy)
    requires ObjsOk(n, dirs, bs, approved, objs, b)
    requires i < |bs| && bs[i].live == {}
    ensures FilesOf(EraseBlock(bs, i), objs) == FilesOf(bs, objs)
  {
    hide FileOk, RestOk;
    var bs' := EraseBlock(bs, i);
    forall g | g in objs
      ensures FileOf(bs', objs[g]) == FileOf(bs, objs[g])
    {
      EntriesLive(n, bs, approved, g, objs[g], b);
      FileOfSame(bs, bs', objs[g]);
    }
  }

  lemma ErasedOwners(bs: seq<Block>, i: nat, approved: set<nat>, objs: map<nat, Obj>, dying: set<nat>, spare: set<Addr>)
    requires OwnersOk(bs, objs, spare) && GoneOk(bs, approved, objs, dying)
    requires i < |bs| && bs[i].live == {} && !bs[i].shrink
    ensures OwnersOk(EraseBlock(bs, i), objs, spare) && GoneOk(EraseBlock(bs, i), approved - {i}, objs, dying)
  {
    var bs' := EraseBlock(bs, i);
    ErasedGone(bs, bs', i, approved, objs, dying);
    forall x | Live(bs', x) && x !in spare
      ensures At(bs', x).obj in objs && Refers(objs[At(bs', x).obj], At(bs', x), x)
    {
      assert Live(bs, x);
    }
  }

  lemma KilledShape(n: nat, dirs: set<nat>, bs: seq<Block>, a: Addr, perBlock: nat, q: nat, approved: set<nat>,
          alloc: int)
    requires WellFormed(bs, perBlock, q) && RecordsOk(n, dirs, bs) && ApprovedOk(bs, approved)
        && OneAllocating(bs, alloc)
    requires a.blk < |bs|
    ensures var bs' := KillPage(bs, a);
            WellFormed(bs', perBlock, q) && RecordsOk(n, dirs, bs') && ApprovedOk(bs', approved)
                && OneAllocating(bs', alloc)
  {
    SameRecords(n, dirs, bs, KillPage(bs, a));
  }

  lemma NotAllocating(bs: seq<Block>, alloc: int, i: nat)
    requires OneAllocating(bs, alloc) && i < |bs| && bs[i].state != Allocating
    ensures i != alloc
  {
  }

  lemma ErasedShape(n: nat, dirs: set<nat>, bs: seq<Block>, i: nat, perBlock: nat, q: nat, approved: set<nat>,
          alloc: int)
    requires WellFormed(bs, perBlock, q) && RecordsOk(n, dirs, bs) && ApprovedOk(bs, approved)
        && OneAllocating(bs, alloc)
    requires i < |bs| && i != alloc
    ensures var bs' := EraseBlock(bs, i);
            WellFormed(bs', perBlock, q) && RecordsOk(n, dirs, bs') && ApprovedOk(bs', approved - {i})
                && OneAllocating(bs', alloc)
  {
    var bs' := EraseBlock(bs, i);
    assert forall a | On(bs', a) :: On(bs, a) && At(bs', a) == At(bs, a);
  }

  lemma SamePagesObj(n: nat, bs: seq<Block>, bs': seq<Block>, approved: set<nat>, approved': set<nat>, g: nat, o: Obj,
          b: Busy)
    requires SamePages(bs, bs') && GuardsKept(bs, bs', approved, approved')
    requires ObjOk(n, bs, approved, g, o, b)
    requires forall a | Live(bs, a) :: Live(bs', a)
    ensures ObjOk(n, bs', approved', g, o, b)
  {
    EntriesLive(n, bs, approved, g, o, b);
    SamePagesFile(n, bs, bs', approved, approved', g, o, BoundT(b, g, o), BoundE(b, g, o));
  }

  // ----- collecting -----

  /** Blocks in other states than Empty and Allocating, flags cleared only where collecting is allowed. */
  ghost predicate Flagged(bs: seq<Block>, bs': seq<Block>, i: nat, approved: set<nat>) {
    && i < |bs| && OnlyAt(bs, bs', i)
    && bs'[i].pages == bs[i].pages && bs'[i].live == bs[i].live && bs'[i].seqNo == bs[i].seqNo
    && (bs[i].shrink ==> i in approved || bs'[i].shrink)
  }

  lemma FlaggedObjs(n: nat, dirs: set<nat>, bs: seq<Block>, bs': seq<Block>, i: nat, approved: set<nat>,
          approved': set<nat>, objs: map<nat, Obj>, b: Busy, dying: set<nat>)
    requires Flagged(bs, bs', i, approved)
    requires approved <= approved' && forall j | j in approved' - approved :: j < |bs| && !bs[j].shrink
    requires ObjsOk(n, dirs, bs, approved, objs, b) && OwnersOk(bs, objs, {}) && GoneOk(bs, approved, objs, dying)
        && RecordsOk(n, dirs, bs)
    ensures ObjsOk(n, dirs, bs', approved', objs, b) && OwnersOk(bs', objs, {}) && GoneOk(bs', approved', objs, dying)
        && RecordsOk(n, dirs, bs')
    ensures FilesOf(bs', objs) == FilesOf(bs, objs)
  {
    assert SamePages(bs, bs') && GuardsKept(bs, bs', approved, approved');
    hide FileOk, RestOk, RecordOk, Buried, FileOf;
    SamePagesFiles(bs, bs', objs);
    SameRecords(n, dirs, bs, bs');
    SamePagesGone(bs, bs', approved, approved', objs, dying);
    assert forall a :: Live(bs', a) == Live(bs, a);
    forall g | g in objs
      ensures ObjOk(n, bs', approved', g, objs[g], b)
    {
      SamePagesObj(n, bs, bs', approved, approved', g, objs[g], b);
    }
  }

  lemma ApproveObjs(n: nat, dirs: set<nat>, bs: seq<Block>, i: nat, approved: set<nat>, objs: map<nat, Obj>, b: Busy)
    requires i < |bs| && OlderAllLive(bs, i)
    requires ObjsOk(n, dirs, bs, approved, objs, b) && OwnersOk(bs, objs, {}) && GoneOk(bs, approved, objs, {})
    ensures ObjsOk(n, dirs, bs, approved + {i}, objs, b) && GoneOk(bs, approved + {i}, objs, {})
  {
    ApproveGone(bs, approved, i, objs);
    forall g | g in objs
      ensures ObjOk(n, bs, approved + {i}, g, objs[g], b)
    {
      ApproveFile(n, bs, approved, i, objs, g, BoundT(b, g, objs[g]), BoundE(b, g, objs[g]));
    }
  }

  /** A full block with discarded pages. */
  predicate Dirty(b: Block, perBlock: nat) {
    b.state == Full && |b.live| < perBlock
  }

  /** The oldest block with discarded pages is no older than block i, so everything older is in use. */
  lemma NotDisqualified(bs: seq<Block>, perBlock: nat, q: nat, i: nat, oldest: nat)
    requires WellFormed(bs, perBlock, q) && i < |bs| && bs[i].state == Full && bs[i].seqNo <= oldest
    requires forall j | 0 <= j < |bs| :: bs[j].state != Collecting
    requires forall j | 0 <= j < |bs| && Dirty(bs[j], perBlock) :: oldest <= bs[j].seqNo
    ensures OlderAllLive(bs, i)
  {
    forall a | On(bs, a) && bs[a.blk].seqNo < bs[i].seqNo
      ensures Live(bs, a)
    {
      AllLive(bs[a.blk].live, |bs[a.blk].pages|, perBlock);
    }
  }

  /** Nothing is older than the oldest full block. */
  lemma OldestFull(bs: seq<Block>, perBlock: nat, q: nat, i: nat)
    requires WellFormed(bs, perBlock, q) && i < |bs| && bs[i].state == Full
    requires forall j | 0 <= j < |bs| :: bs[j].state != Collecting
    requires forall j | 0 <= j < |bs| && bs[j].state == Full :: bs[i].seqNo <= bs[j].seqNo
    ensures OlderAllLive(bs, i)
  {
    forall a | On(bs, a)
      ensures bs[i].seqNo <= bs[a.blk].seqNo
    {
    }
  }

  /** The header written when a header is collected: its shrink and shadow marks have done their work. */
  function Collected(r: Record, o: Obj): Record
    requires r.Header?
  {
    r.(isShrink := false, shadows := 0, size := o.size)
  }

  lemma CopyFacts(n: nat, dirs: set<nat>, bs: seq<Block>, a: Addr, approved: set<nat>, objs: map<nat, Obj>, b: Busy)
    requires Live(bs, a) && ObjsOk(n, dirs, bs, approved, objs, b) && OwnersOk(bs, objs, {}) && RecordsOk(n, dirs, bs)
    ensures RecordOk(n, dirs, At(bs, a))
    ensures At(bs, a).obj in objs && Refers(objs[At(bs, a).obj], At(bs, a), a)
    ensures At(bs, a).Data? ==> End(n, At(bs, a)) <= BoundE(b, At(bs, a).obj, objs[At(bs, a).obj])
    ensures At(bs, a).Header? ==>
        HeaderOk(bs, At(bs, a).obj, a, objs[At(bs, a).obj]) && objs[At(bs, a).obj].parent in dirs
    ensures objs[At(bs, a).obj].size < 0x8000_0000
  {
    var r := At(bs, a);
    assert ObjOk(n, bs, approved, r.obj, objs[r.obj], b);
    if r.Data? {
      assert EntryOk(n, bs, r.obj, r.chunk, a, BoundE(b, r.obj, objs[r.obj]));
    }
  }

  lemma AppendedAt(bs: seq<Block>, bs': seq<Block>, x: Addr, r: Record, a: Addr)
    requires Appended(bs, bs', x, r) && Live(bs, a)
    ensures Live(bs', a) && At(bs', a) == At(bs, a) && x != a && Live(bs', x) && At(bs', x) == r
  {
    AppendedKeeps(bs, bs', x, r);
  }

  lemma CopyDataFiles(n: nat, dirs: set<nat>, bs: seq<Block>, bs': seq<Block>, a: Addr, x: Addr, r: Record,
          approved: set<nat>, objs: map<nat, Obj>, b: Busy)
    requires Live(bs, a) && r == At(bs, a) && r.Data? && r.obj in objs && Appended(bs, bs', x, r)
    requires ObjsOk(n, dirs, bs, approved, objs, b) && Refers(objs[r.obj], r, a)
    ensures FilesOf(bs', objs[r.obj := WithEntry(objs[r.obj], r.chunk, x)]) == FilesOf(bs, objs)
  {
    hide ObjsOk, Appended, FileOf;
    CopyFile(bs, objs[r.obj], r.chunk, a);
    DataWrittenFiles(n, dirs, bs, bs', x, r, approved, objs, b);
    var fs := FilesOf(bs, objs)[r.obj];
    assert fs.(chunks := fs.chunks[r.chunk := r]) == fs;
    assert FilesOf(bs, objs)[r.obj := fs] == FilesOf(bs, objs);
  }

  lemma CopyData(n: nat, dirs: set<nat>, bs: seq<Block>, bs': seq<Block>, a: Addr, x: Addr, r: Record,
          approved: set<nat>, objs: map<nat, Obj>, b: Busy)
    requires Live(bs, a) && r == At(bs, a) && r.Data? && r.obj in objs && Appended(bs, bs', x, r) && !b.Dying?
    requires ObjsOk(n, dirs, bs, approved, objs, b) && OwnersOk(bs, objs, {}) && GoneOk(bs, approved, objs, {})
        && RecordsOk(n, dirs, bs)
    ensures var objs' := objs[r.obj := WithEntry(objs[r.obj], r.chunk, x)];
            && ObjsOk(n, dirs, bs', approved, objs', b) && OwnersOk(bs', objs', {a}) && GoneOk(bs', approved, objs', {})
            && FilesOf(bs', objs') == FilesOf(bs, objs)
            && Live(bs', a) && At(bs', a) == r && !Refers(objs'[r.obj], r, a)
  {
    hide ObjsOk, OwnersOk, GoneOk, RecordsOk, Appended, FilesOf, End, RecordOk;
    CopyFacts(n, dirs, bs, a, approved, objs, b);
    AppendedAt(bs, bs', x, r, a);
    CopyDataFiles(n, dirs, bs, bs', a, x, r, approved, objs, b);
    DataWrittenObjs(n, dirs, bs, bs', x, r, approved, objs, b, b);
    DataWrittenOwners(bs, bs', x, r, approved, objs);
  }

  lemma CopyFile(bs: seq<Block>, o: Obj, c: nat, a: Addr)
    requires c in o.entries && o.entries[c] == a && On(bs, a)
    ensures FileOf(bs, o).chunks[c := At(bs, a)] == FileOf(bs, o).chunks
  {
  }

  lemma HeaderCopyFacts(n: nat, dirs: set<nat>, bs: seq<Block>, a: Addr, approved: set<nat>, objs: map<nat, Obj>,
          b: Busy)
    requires Live(bs, a) && ObjsOk(n, dirs, bs, approved, objs, b) && OwnersOk(bs, objs, {}) && RecordsOk(n, dirs, bs)
    requires At(bs, a).Header? && At(bs, a).obj in objs
    ensures var r, o := At(bs, a), objs[At(bs, a).obj];
            o.hdr == a && !Gone(r) && r.parent in dirs && o.parent == r.parent && o.name == r.name
  {
    CopyFacts(n, dirs, bs, a, approved, objs, b);
  }

  lemma CopyHeader(n: nat, dirs: set<nat>, bs: seq<Block>, bs': seq<Block>, a: Addr, x: Addr, r: Record, r': Record,
          approved: set<nat>, objs: map<nat, Obj>, b: Busy)
    requires Live(bs, a) && r == At(bs, a) && r.Header? && r.obj in objs && Appended(bs, bs', x, r') && !b.Dying?
    requires ObjsOk(n, dirs, bs, approved, objs, b) && OwnersOk(bs, objs, {}) && GoneOk(bs, approved, objs, {})
        && RecordsOk(n, dirs, bs)
    requires r' == Collected(r, objs[r.obj])
    ensures var objs' := objs[r.obj := objs[r.obj].(hdr := x)];
            && ObjsOk(n, dirs, bs', approved, objs', b) && OwnersOk(bs', objs', {a}) && GoneOk(bs', approved, objs', {})
            && FilesOf(bs', objs') == FilesOf(bs, objs)
            && Live(bs', a) && At(bs', a) == r && !Refers(objs'[r.obj], r, a)
  {
    hide ObjsOk, OwnersOk, GoneOk, RecordsOk, Appended, Newest;
    var o := objs[r.obj];
    HeaderCopyFacts(n, dirs, bs, a, approved, objs, b);
    AppendedAt(bs, bs', x, r', a);
    HeaderWrittenObjs(n, dirs, bs, bs', x, r', approved, objs, b, o.(hdr := x));
    HeaderWrittenOwners(n, dirs, bs, bs', x, r', approved, objs, b, o.(hdr := x));
    var fs := FilesOf(bs, objs)[r.obj];
    assert fs.(parent := r'.parent, name := r'.name, dirty := o.dirty) == fs;
    assert FilesOf(bs, objs)[r.obj := fs] == FilesOf(bs, objs);
  }

  ghost predicate SameMeta(o: Obj, o': Obj) {
    o'.(hdr := o.hdr, entries := o.entries) == o && o'.entries.Keys == o.entries.Keys
  }

  /** Nothing but where objects are held has changed. */
  ghost predicate OnlyMoved(bs: seq<Block>, objs: map<nat, Obj>, bs': seq<Block>, objs': map<nat, Obj>) {
    && FilesOf(bs', objs') == FilesOf(bs, objs)
    && objs'.Keys == objs.Keys
    && forall g | g in objs :: SameMeta(objs[g], objs'[g])
  }

  lemma EntryMoved(bs: seq<Block>, objs: map<nat, Obj>, bs': seq<Block>, f: nat, o': Obj)
    requires f in objs && FilesOf(bs', objs[f := o']) == FilesOf(bs, objs)
    requires SameMeta(objs[f], o')
    ensures OnlyMoved(bs, objs, bs', objs[f := o'])
  {
  }

  /** The record written when r, owned by o, is collected. */
  function CopyOf(r: Record, o: Obj): Record {
    if r.Data? then r else Collected(r, o)
  }

  /** The owner of r uses the copy at x. */
  function Rehomed(o: Obj, r: Record, x: Addr): Obj {
    if r.Data? then WithEntry(o, r.chunk, x) else o.(hdr := x)
  }

  lemma CopyOk(n: nat, dirs: set<nat>, bs: seq<Block>, a: Addr, r: Record, approved: set<nat>, objs: map<nat, Obj>,
          b: Busy)
    requires Live(bs, a) && r == At(bs, a)
    requires ObjsOk(n, dirs, bs, approved, objs, b) && OwnersOk(bs, objs, {}) && RecordsOk(n, dirs, bs)
    ensures r.obj in objs && RecordOk(n, dirs, CopyOf(r, objs[r.obj]))
  {
    CopyFacts(n, dirs, bs, a, approved, objs, b);
  }

  lemma Copied(n: nat, dirs: set<nat>, bs: seq<Block>, bs': seq<Block>, a: Addr, x: Addr, r: Record, approved: set<nat>,
          objs: map<nat, Obj>, b: Busy)
    requires Live(bs, a) && r == At(bs, a) && r.obj in objs && Appended(bs, bs', x, CopyOf(r, objs[r.obj])) && !b.Dying?
    requires ObjsOk(n, dirs, bs, approved, objs, b) && OwnersOk(bs, objs, {}) && GoneOk(bs, approved, objs, {})
        && RecordsOk(n, dirs, bs)
    ensures var objs' := objs[r.obj := Rehomed(objs[r.obj], r, x)];
            && ObjsOk(n, dirs, bs', approved, objs', b) && OwnersOk(bs', objs', {a}) && GoneOk(bs', approved, objs', {})
            && Live(bs', a) && At(bs', a) == r && !Refers(objs'[r.obj], r, a)
            && OnlyMoved(bs, objs, bs', objs')
  {
    hide ObjsOk, OwnersOk, GoneOk, FilesOf, Appended, RecordOk, HeaderOk, BoundE, RecordsOk;
    var o' := Rehomed(objs[r.obj], r, x);
    CopyFacts(n, dirs, bs, a, approved, objs, b);
    if r.Data? {
      CopyData(n, dirs, bs, bs', a, x, r, approved, objs, b);
    } else {
      CopyHeader(n, dirs, bs, bs', a, x, r, Collected(r, objs[r.obj]), approved, objs, b);
    }
    EntryMoved(bs, objs, bs', r.obj, o');
  }

  /** What a step of garbage collection does to the block that holds a, and to the states of the others. */
  ghost predicate Moved(bs: seq<Block>, bs': seq<Block>, a: Addr, ok: bool)
    requires a.blk < |bs|
  {
    && |bs'| == |bs|
    && (forall i | 0 <= i < |bs| && i != a.blk && bs'[i].state == Collecting :: bs[i].state == Collecting)
    && bs'[a.blk] == if !ok then bs[a.blk]
                     else if bs[a.blk].live <= {a.page} && !bs[a.blk].shrink then Block(Empty, 0, [], {}, false)
                     else bs[a.blk].(live := bs[a.blk].live - {a.page})
  }

  lemma MovedBy(bs: seq<Block>, mid: seq<Block>, bs': seq<Block>, a: Addr, x: Addr, r: Record)
    requires a.blk < |bs| && Appended(bs, mid, x, r) && Deleted(mid, bs', a)
    requires bs[a.blk].state == Collecting && bs[x.blk].state in {Empty, Allocating}
        && mid[x.blk].state in {Allocating, Full}
    ensures Moved(bs, bs', a, true)
  {
  }

  lemma NotMoved(bs: seq<Block>, bs': seq<Block>, a: Addr, i: int)
    requires a.blk < |bs| && Opened(bs, bs', i) && bs[a.blk].state == Collecting
    ensures Moved(bs, bs', a, false)
  {
  }

  lemma SameMoved(bs: seq<Block>, bs': seq<Block>, objs: map<nat, Obj>)
    requires FilesOf(bs', objs) == FilesOf(bs, objs)
    ensures OnlyMoved(bs, objs, bs', objs)
  {
  }

  lemma MovedTwice(bs: seq<Block>, objs: map<nat, Obj>, bs': seq<Block>, objs': map<nat, Obj>, bs'': seq<Block>,
          objs'': map<nat, Obj>)
    requires OnlyMoved(bs, objs, bs', objs') && OnlyMoved(bs', objs', bs'', objs'')
    ensures OnlyMoved(bs, objs, bs'', objs'')
  {
  }

  lemma ShapeFlagged(n: nat, dirs: set<nat>, bs: seq<Block>, bs': seq<Block>, i: nat, perBlock: nat, q: nat,
          approved: set<nat>, approved': set<nat>, alloc: int)
    requires WellFormed(bs, perBlock, q) && RecordsOk(n, dirs, bs) && ApprovedOk(bs, approved)
        && OneAllocating(bs, alloc)
    requires Flagged(bs, bs', i, approved)
    requires {bs[i].state, bs'[i].state} <= {Full, Collecting} || bs[i].state == bs'[i].state != Empty
    requires approved' <= approved && (bs'[i].shrink ==> bs[i].shrink || HasShrinkHeader(bs[i].pages))
    ensures WellFormed(bs', perBlock, q) && RecordsOk(n, dirs, bs') && ApprovedOk(bs', approved')
        && OneAllocating(bs', alloc)
  {
    assert SamePages(bs, bs');
    SameRecords(n, dirs, bs, bs');
  }

  lemma LiveIsOn(bs: seq<Block>, perBlock: nat, q: nat, i: nat, p: nat)
    requires WellFormed(bs, perBlock, q) && i < |bs| && p in bs[i].live
    ensures Live(bs, Addr(i, p))
  {
  }

  lemma LiveBelow(bs: seq<Block>, perBlock: nat, q: nat, i: nat)
    requires WellFormed(bs, perBlock, q) && i < |bs|
    ensures forall p | p in bs[i].live :: p < perBlock
  {
  }

  lemma ShapeApproved(bs: seq<Block>, i: nat, approved: set<nat>)
    requires ApprovedOk(bs, approved) && i < |bs| && bs[i].state in {Full, Collecting}
    ensures ApprovedOk(bs, approved + {i})
  {
  }

  lemma FlaggedNothing(bs: seq<Block>, i: nat, approved: set<nat>)
    requires i < |bs|
    ensures Flagged(bs, bs, i, approved)
  {
  }

  lemma WorkingIn(n: nat, dirs: set<nat>, bs: seq<Block>, approved: set<nat>, objs: map<nat, Obj>, b: Busy)
    requires ObjsOk(n, dirs, bs, approved, objs, b) && b.Working?
    ensures b.f in objs && b.f in FilesOf(bs, objs) && objs[b.f].size < 0x8000_0000 && b.f > DELETED && b.f !in dirs
        && objs[b.f].parent in dirs
  {
  }

  lemma OpenedStates(bs: seq<Block>, bs': seq<Block>, i: int)
    requires Opened(bs, bs', i)
    ensures |bs'| == |bs| && forall j | 0 <= j < |bs'| && bs'[j].state == Collecting :: bs[j].state == Collecting
  {
  }

  lemma AppendedStates(bs: seq<Block>, bs': seq<Block>, x: Addr, r: Record)
    requires Appended(bs, bs', x, r) && bs'[x.blk].state in {Allocating, Full}
    ensures |bs'| == |bs| && forall j | 0 <= j < |bs'| && bs'[j].state == Collecting :: bs[j].state == Collecting
  {
  }

  lemma DataReplaced(n: nat, dirs: set<nat>, bs: seq<Block>, bs': seq<Block>, x: Addr, r: Record, approved: set<nat>,
          objs: map<nat, Obj>, b: Busy)
    requires ObjsOk(n, dirs, bs, approved, objs, b) && Appended(bs, bs', x, r) && r.Data? && r.obj in objs
        && r.chunk in objs[r.obj].entries
    ensures var p := objs[r.obj].entries[r.chunk];
            Live(bs', p) && At(bs', p).obj == r.obj && !Refers(WithEntry(objs[r.obj], r.chunk, x), At(bs', p), p)
                && Previous(objs[r.obj], r.chunk) == {p}
  {
    EntriesLive(n, bs, approved, r.obj, objs[r.obj], b);
    AppendedKeeps(bs, bs', x, r);
  }

  lemma DeletedStates(bs: seq<Block>, bs': seq<Block>, a: Addr)
    requires a.blk < |bs| && Deleted(bs, bs', a)
    ensures |bs'| == |bs| && forall j | 0 <= j < |bs'| && bs'[j].state == Collecting :: bs[j].state == Collecting
  {
  }

  lemma HeaderKnown(n: nat, bs: seq<Block>, approved: set<nat>, g: nat, o: Obj, b: Busy)
    requires ObjOk(n, bs, approved, g, o, b)
    ensures HeaderOk(bs, g, o.hdr, o)
  {
  }

  lemma HeaderReplaced(n: nat, dirs: set<nat>, bs: seq<Block>, bs': seq<Block>, x: Addr, r: Record, approved: set<nat>,
          objs: map<nat, Obj>, b: Busy, o': Obj)
    requires o'.hdr == x
    requires ObjsOk(n, dirs, bs, approved, objs, b) && Appended(bs, bs', x, r) && r.Header? && r.obj in objs
    ensures var p := objs[r.obj].hdr;
            Live(bs', p) && IsHeader(At(bs', p), r.obj) && p != x && On(bs', x) && At(bs', x) == r
                && !Refers(o', At(bs', p), p)
  {
    EntriesLive(n, bs, approved, r.obj, objs[r.obj], b);
    HeaderKnown(n, bs, approved, r.obj, objs[r.obj], b);
    AppendedKeeps(bs, bs', x, r);
  }

  lemma FlaggedShrink(bs: seq<Block>, bs': seq<Block>, i: nat, h: Addr, approved: set<nat>)
    requires i < |bs| && bs' == bs[i := bs[i].(shrink := true)]
    requires On(bs, h) && h.blk == i && At(bs, h).Header? && At(bs, h).isShrink
    ensures Flagged(bs, bs', i, approved) && HasShrinkHeader(bs[i].pages)
  {
  }

  lemma MarkerObjs(n: nat, dirs: set<nat>, bs: seq<Block>, bs': seq<Block>, approved: set<nat>, objs: map<nat, Obj>,
          b: Busy, t: int)
    requires b.Working? && ObjsOk(n, dirs, bs', approved, objs, b) && b.f in objs
    requires var x := objs[b.f].hdr; Newest(bs, b.f, x) && IsCut(At(bs, x), b.f) && CutSize(At(bs, x)) <= b.t && x.blk !in approved
                                     && bs' == bs[x.blk := bs[x.blk].(shrink := true)]
    ensures ObjsOk(n, dirs, bs', approved, objs, Working(b.f, t, b.e))
  {
    var o := objs[b.f];
    hide Covered, HeaderOk, EntryOk, RestOk;
    assert forall a | On(bs', a) :: On(bs, a) && At(bs', a) == At(bs, a);
    assert ObjOk(n, bs', approved, b.f, o, b);
    MarkerCoversAll(n, bs', approved, b.f, o, b.t, t, b.e);
    forall g | g in objs
      ensures ObjOk(n, bs', approved, g, objs[g], Working(b.f, t, b.e))
    {
      assert ObjOk(n, bs', approved, g, objs[g], b);
    }
  }

  lemma MovedClosed(n: nat, bs: seq<Block>, objs: map<nat, Obj>, bs': seq<Block>, objs': map<nat, Obj>, f: nat)
    requires OnlyMoved(bs, objs, bs', objs') && f in objs
    ensures FilesOf(bs', objs') == FilesOf(bs, objs)
    ensures f in objs' && objs'[f].size == objs[f].size && (Closed(n, objs[f]) ==> Closed(n, objs'[f]))
        && objs'[f].entries.Keys == objs[f].entries.Keys
    ensures objs'[f].parent == objs[f].parent && objs'[f].name == objs[f].name && objs'[f].dirty == objs[f].dirty
  {
    assert SameMeta(objs[f], objs'[f]);
  }

  lemma HeaderRecordOk(n: nat, dirs: set<nat>, r: Record)
    requires r.Header? && r.obj > DELETED && r.obj !in dirs && r.kind == FileKind && r.parent in dirs && r.shadows == 0
        && r.size < 0x8000_0000
    ensures RecordOk(n, dirs, r)
  {
  }

  lemma HeaderLive(n: nat, dirs: set<nat>, bs: seq<Block>, approved: set<nat>, objs: map<nat, Obj>, b: Busy, f: nat)
    requires ObjsOk(n, dirs, bs, approved, objs, b) && f in objs
    ensures Live(bs, objs[f].hdr)
  {
    EntriesLive(n, bs, approved, f, objs[f], b);
  }

  lemma NewestKept(n: nat, bs: seq<Block>, bs': seq<Block>, a: Addr, f: nat, o: Obj, r: Record)
    requires a.blk < |bs| && Deleted(bs, bs', a) && Live(bs, o.hdr) && o.hdr != a
    requires Newest(bs, f, o.hdr) && At(bs, o.hdr) == r && IsHeader(r, f) && r.size == o.size
    requires bs[o.hdr.blk].state != Empty
    ensures Newest(bs', f, o.hdr) && At(bs', o.hdr) == r && Synced(n, bs', f, o) && bs'[o.hdr.blk].state != Empty
  {
    assert On(bs', o.hdr) && At(bs', o.hdr) == r;
    assert forall x | On(bs', x) :: On(bs, x) && At(bs', x) == At(bs, x);
    assert Newest(bs', f, o.hdr);
  }

  lemma SyncedFlag(n: nat, bs: seq<Block>, bs': seq<Block>, f: nat, o: Obj)
    requires Synced(n, bs, f, o) && bs' == bs[o.hdr.blk := bs[o.hdr.blk].(shrink := true)]
    ensures Synced(n, bs', f, o)
  {
    assert forall a | On(bs', a) :: On(bs, a) && At(bs', a) == At(bs, a);
  }

  // ----- starting and finishing an operation on a file -----

  lemma BeginWork(n: nat, dirs: set<nat>, bs: seq<Block>, approved: set<nat>, objs: map<nat, Obj>, f: nat)
    requires ObjsOk(n, dirs, bs, approved, objs, Idle) && f in objs
    ensures ObjsOk(n, dirs, bs, approved, objs, Working(f, objs[f].size, objs[f].size))
  {
    var b := Working(f, objs[f].size, objs[f].size);
    forall g | g in objs
      ensures ObjOk(n, bs, approved, g, objs[g], b)
    {
      hide FileOk, Synced;
      assert ObjOk(n, bs, approved, g, objs[g], Idle);
    }
  }

  lemma FileOkWeaker(n: nat, bs: seq<Block>, approved: set<nat>, f: nat, o: Obj, o': Obj, t: int, e: int, t': int,
          e': int)
    requires FileOk(n, bs, approved, f, o, t, e) && t' <= t && e <= e'
    requires o'.hdr == o.hdr && o'.entries == o.entries && o'.name == o.name && o'.parent == o.parent
    ensures FileOk(n, bs, approved, f, o', t', e')
  {
    assert forall c | c in o.entries :: EntryOk(n, bs, f, c, o.entries[c], e);
  }

  /** Size and dirtiness of the file being worked on may change, and its bounds may be loosened. */
  lemma Reshape(n: nat, dirs: set<nat>, bs: seq<Block>, approved: set<nat>, objs: map<nat, Obj>, b: Busy, o': Obj,
          t': int, e': int)
    requires b.Working? && ObjsOk(n, dirs, bs, approved, objs, b) && t' <= b.t && b.e <= e'
    requires b.f in objs && o' == objs[b.f].(size := o'.size, dirty := o'.dirty) && o'.size < 0x8000_0000
    ensures ObjsOk(n, dirs, bs, approved, objs[b.f := o'], Working(b.f, t', e'))
  {
    assert ObjOk(n, bs, approved, b.f, objs[b.f], b);
    FileOkWeaker(n, bs, approved, b.f, objs[b.f], o', b.t, b.e, t', e');
    forall g | g in objs
      ensures ObjOk(n, bs, approved, g, objs[b.f := o'][g], Working(b.f, t', e'))
    {
      hide FileOk, Synced;
      assert ObjOk(n, bs, approved, g, objs[g], b);
    }
  }

  lemma FinishWork(n: nat, dirs: set<nat>, bs: seq<Block>, approved: set<nat>, objs: map<nat, Obj>, b: Busy)
    requires b.Working? && ObjsOk(n, dirs, bs, approved, objs, b) && b.f in objs
    requires objs[b.f].size <= b.t && b.e <= objs[b.f].size
    requires objs[b.f].dirty || Synced(n, bs, b.f, objs[b.f])
    ensures ObjsOk(n, dirs, bs, approved, objs, Idle)
  {
    var o := objs[b.f];
    assert ObjOk(n, bs, approved, b.f, o, b);
    FileOkWeaker(n, bs, approved, b.f, o, o, b.t, b.e, o.size, o.size);
    forall g | g in objs
      ensures ObjOk(n, bs, approved, g, objs[g], Idle)
    {
      hide FileOk, Synced;
      assert ObjOk(n, bs, approved, g, objs[g], b);
    }
  }

  lemma ReshapeOwners(bs: seq<Block>, approved: set<nat>, objs: map<nat, Obj>, f: nat, o': Obj)
    requires OwnersOk(bs, objs, {}) && GoneOk(bs, approved, objs, {}) && f in objs
    requires o' == objs[f].(size := o'.size, dirty := o'.dirty)
    ensures OwnersOk(bs, objs[f := o'], {}) && GoneOk(bs, approved, objs[f := o'], {})
    ensures f in FilesOf(bs, objs) && FilesOf(bs, objs[f := o'])
        == FilesOf(bs, objs)[f := FilesOf(bs, objs)[f].(size := o'.size, dirty := o'.dirty)]
  {
    GoneSameObjs(bs, approved, objs, objs[f := o']);
  }

  lemma ClosedAt(n: nat, dirs: set<nat>, bs: seq<Block>, approved: set<nat>, objs: map<nat, Obj>, b: Busy)
    requires b.Working? && ObjsOk(n, dirs, bs, approved, objs, b) && RecordsOk(n, dirs, bs) && b.f in objs
        && b.e <= objs[b.f].size
    ensures Closed(n, objs[b.f])
  {
    var o := objs[b.f];
    assert ObjOk(n, bs, approved, b.f, o, b);
    forall c | c in o.entries
      ensures Base(n, c) < o.size
    {
      assert EntryOk(n, bs, b.f, c, o.entries[c], b.e);
    }
  }

  // ----- chunk arithmetic -----

  lemma BaseOrder(n: nat, c: nat, c': nat)
    requires c < c'
    ensures Base(n, c) + n <= Base(n, c')
  {
    assert (c' - 1) * n == (c - 1) * n + n + (c' - c - 1) * n;
    assert (c' - c - 1) * n >= 0;
  }

  lemma BaseIs(n: nat, pos: nat)
    requires n > 0
    ensures var c := pos / n + 1; Base(n, c) == pos - pos % n && 0 <= pos % n < n && Base(n, c) >= 0
  {
  }

  /** Extending the bound over one chunk that the file now holds. */
  lemma GrowOver(n: nat, dirs: set<nat>, bs: seq<Block>, approved: set<nat>, objs: map<nat, Obj>, b: Busy, c: nat,
          t': int)
    requires b.Working? && ObjsOk(n, dirs, bs, approved, objs, b) && RecordsOk(n, dirs, bs) && b.f in objs
    requires c in FilesOf(bs, objs)[b.f].chunks && Base(n, c) <= b.t && t' <= Base(n, c) + n
    ensures ObjsOk(n, dirs, bs, approved, objs, Working(b.f, Max(b.t, t'), b.e))
  {
    var o := objs[b.f];
    var t := Max(b.t, t');
    assert ObjOk(n, bs, approved, b.f, o, b);
    forall c': nat | c' > 0 && b.t <= Base(n, c') < t
      ensures c' in o.entries
    {
      if c' < c { BaseOrder(n, c', c); }
      if c < c' { BaseOrder(n, c, c'); }
    }
    GrowBound(n, bs, approved, b.f, o, b.t, t, b.e);
    forall g | g in objs
      ensures ObjOk(n, bs, approved, g, objs[g], Working(b.f, t, b.e))
    {
      hide FileOk, Synced;
      assert ObjOk(n, bs, approved, g, objs[g], b);
    }
  }

  /** Does a write of [offset, end) reach chunk c? */
  predicate Touches(n: nat, c: nat, offset: nat, end: nat) {
    offset < end && Base(n, c) < end && offset < Base(n, c) + n
  }

  /** The chunks of the file after data has been written to [offset, end): those reached hold
      the new bytes and the others are as they were. */
  ghost predicate Wrote(n: nat, m: map<nat, Record>, m': map<nat, Record>, offset: nat, end: nat,
          data: nat -> seq<Byte>) {
    && (forall c: nat | c > 0 && Touches(n, c, offset, end) :: c in m' && m'[c].Data? && m'[c].payload == data(c))
    && (forall c: nat | c == 0 || !Touches(n, c, offset, end) :: (c in m' <==> c in m) && (c in m ==> m'[c] == m[c]))
  }

  lemma WroteMore(n: nat, m: map<nat, Record>, m1: map<nat, Record>, offset: nat, pos: nat, end: nat, r: Record,
          data: nat -> seq<Byte>)
    requires n > 0 && Wrote(n, m, m1, offset, pos, data) && offset <= pos < end && r.Data?
    requires var c := pos / n + 1; end <= Base(n, c) + n && r.payload == data(c) && r.chunk == c
    ensures Wrote(n, m, m1[r.chunk := r], offset, end, data)
  {
    var c := r.chunk;
    BaseIs(n, pos);
    forall c': nat | c' > 0 && c' != c
      ensures Touches(n, c', offset, end) == Touches(n, c', offset, pos)
    {
      if c' < c { BaseOrder(n, c', c); } else { BaseOrder(n, c, c'); }
    }
    assert Touches(n, c, offset, end);
  }

  lemma WroteNothing(n: nat, m: map<nat, Record>, offset: nat, data: nat -> seq<Byte>)
    ensures Wrote(n, m, m, offset, offset, data)
  {
  }

  /** The chunks of a file that is about to grow from size to end: those that do not reach into the
      hole are as they were, and whatever is new in the hole is the fill. */
  ghost predicate Padded(n: nat, m: map<nat, Record>, m': map<nat, Record>, size: nat, end: nat, fill: nat -> seq<Byte>,
          tail: seq<Byte>) {
    && (forall c: nat | c == 0 || !Touches(n, c, size, end) :: (c in m' <==> c in m) && (c in m ==> m'[c] == m[c]))
    && (forall c: nat | c > 0 && Touches(n, c, size, end) && c in m' ::
        (c in m && m'[c] == m[c]) || (m'[c].Data? && m'[c].payload in {fill(c), tail}))
    && (forall c | c in m :: c in m')
  }

  lemma PaddedNothing(n: nat, m: map<nat, Record>, size: nat, end: nat, fill: nat -> seq<Byte>, tail: seq<Byte>)
    ensures Padded(n, m, m, size, end, fill, tail)
  {
  }

  lemma PaddedMore(n: nat, m: map<nat, Record>, m1: map<nat, Record>, m2: map<nat, Record>, size: nat, pos: nat,
          to: nat, end: nat, fill: nat -> seq<Byte>, tail: seq<Byte>)
    requires Padded(n, m, m1, size, end, fill, tail) && size <= pos <= to <= end && Wrote(n, m1, m2, pos, to, fill)
    ensures Padded(n, m, m2, size, end, fill, tail)
  {
    hide Base;
    assert forall c: nat | Touches(n, c, pos, to) :: Touches(n, c, size, end);
  }

  /** A hole that could not be filled is cut away again. */
  lemma PaddedUndone(n: nat, m: map<nat, Record>, m1: map<nat, Record>, m2: map<nat, Record>, size: nat, end: nat,
          fill: nat -> seq<Byte>, tail: seq<Byte>)
    requires n > 0 && Padded(n, m, m1, size, end, fill, tail) && size < end && Shortened(n, m1, m2, size, tail)
    requires forall c | c in m :: c > 0 && Base(n, c) < size
    ensures Padded(n, m, m2, size, end, fill, tail)
  {
    hide Base;
    BaseIs(n, size);
    var last := size / n + 1;
    assert size % n != 0 ==> Touches(n, last, size, end);
  }

  /** One piece of a write stays within its chunk, and what is written back ends at or before the
      new end of file. */
  lemma PieceOk(n: nat, dirs: set<nat>, r: Record, pos: nat, nToCopy: nat, size: nat)
    requires n > 0 && r.Data? && r.obj > DELETED && r.obj !in dirs && r.chunk == pos / n + 1 && 0 < nToCopy
    requires pos + nToCopy < 0x8000_0000 && size < 0x8000_0000
    requires pos % n + nToCopy <= n
    requires r.nbytes == (if pos % n + nToCopy == n then n
                          else Max(Min(n, if (pos / n) * n > size then 0 else size - (pos / n) * n), pos % n + nToCopy))
    ensures RecordOk(n, dirs, r) && End(n, r) <= Max(size, pos + nToCopy)
    ensures Base(n, r.chunk) <= pos && pos + nToCopy <= Base(n, r.chunk) + n
  {
    BaseIs(n, pos);
  }

  lemma SizeIs(bs: seq<Block>, objs: map<nat, Obj>, f: nat)
    requires f in FilesOf(bs, objs)
    ensures f in objs && objs[f].size == FilesOf(bs, objs)[f].size && objs[f].dirty == FilesOf(bs, objs)[f].dirty
    ensures objs[f].parent == FilesOf(bs, objs)[f].parent && objs[f].name == FilesOf(bs, objs)[f].name
  {
  }

  /** [pos, pos + k) lies in chunk c. */
  predicate IsPiece(n: nat, pos: nat, k: nat, c: nat)
    requires n > 0
  {
    c == pos / n + 1 && pos % n + k <= n
  }

  lemma PieceWrote(n: nat, m: map<nat, Record>, m1: map<nat, Record>, offset: nat, pos: nat, k: nat, r: Record,
          data: nat -> seq<Byte>)
    requires n > 0 && Wrote(n, m, m1, offset, pos, data) && offset <= pos && 0 < k
    requires r.Data? && IsPiece(n, pos, k, r.chunk) && r.payload == data(r.chunk)
    ensures Wrote(n, m, m1[r.chunk := r], offset, pos + k, data)
  {
    BaseIs(n, pos);
    WroteMore(n, m, m1, offset, pos, pos + k, r, data);
  }

  // ----- cutting a file short -----

  function WithoutEntry(o: Obj, c: nat): Obj {
    o.(entries := o.entries - {c})
  }

  lemma DroppedObjs(n: nat, dirs: set<nat>, bs: seq<Block>, approved: set<nat>, objs: map<nat, Obj>, b: Busy, c: nat)
    requires b.Working? && ObjsOk(n, dirs, bs, approved, objs, b) && b.f in objs && b.t <= Base(n, c)
    ensures ObjsOk(n, dirs, bs, approved, objs[b.f := WithoutEntry(objs[b.f], c)], b)
  {
    var o := objs[b.f];
    var o' := WithoutEntry(o, c);
    assert ObjOk(n, bs, approved, b.f, o, b);
    assert HeaderOk(bs, b.f, o'.hdr, o');
    assert FileOk(n, bs, approved, b.f, o', b.t, b.e);
    forall g | g in objs
      ensures ObjOk(n, bs, approved, g, objs[b.f := o'][g], b)
    {
      hide FileOk, Synced;
      assert ObjOk(n, bs, approved, g, objs[g], b);
    }
  }

  lemma DroppedFiles(bs: seq<Block>, objs: map<nat, Obj>, f: nat, c: nat)
    requires f in objs
    ensures f in FilesOf(bs, objs)
    ensures FilesOf(bs, objs[f := WithoutEntry(objs[f], c)])
        == FilesOf(bs, objs)[f := FilesOf(bs, objs)[f].(chunks := FilesOf(bs, objs)[f].chunks - {c})]
  {
    assert FileOf(bs, WithoutEntry(objs[f], c)) == FileOf(bs, objs[f]).(chunks := FileOf(bs, objs[f]).chunks - {c});
  }

  lemma DroppedOwners(n: nat, dirs: set<nat>, bs: seq<Block>, approved: set<nat>, objs: map<nat, Obj>, b: Busy, c: nat)
    requires b.Working? && ObjsOk(n, dirs, bs, approved, objs, b) && b.f in objs && c in objs[b.f].entries
    requires OwnersOk(bs, objs, {}) && GoneOk(bs, approved, objs, {})
    ensures var a := objs[b.f].entries[c];
            var objs' := objs[b.f := WithoutEntry(objs[b.f], c)];
            && OwnersOk(bs, objs', {a}) && GoneOk(bs, approved, objs', {}) && Live(bs, a) && At(bs, a).obj == b.f
            && !Refers(objs'[b.f], At(bs, a), a)
  {
    EntriesLive(n, bs, approved, b.f, objs[b.f], b);
    GoneSameObjs(bs, approved, objs, objs[b.f := WithoutEntry(objs[b.f], c)]);
    hide ObjsOk, GoneOk;
  }

  /** All the entries end by e', so that may be the bound. */
  lemma Tighten(n: nat, dirs: set<nat>, bs: seq<Block>, approved: set<nat>, objs: map<nat, Obj>, b: Busy, e': int)
    requires b.Working? && ObjsOk(n, dirs, bs, approved, objs, b) && b.f in objs
    requires var m := FilesOf(bs, objs)[b.f].chunks; forall c | c in m ::
        m[c].Data? && m[c].chunk == c && End(n, m[c]) <= e'
    ensures ObjsOk(n, dirs, bs, approved, objs, Working(b.f, b.t, e'))
  {
    var o := objs[b.f];
    assert ObjOk(n, bs, approved, b.f, o, b);
    EntriesLive(n, bs, approved, b.f, o, b);
    forall c | c in o.entries
      ensures EntryOk(n, bs, b.f, c, o.entries[c], e')
    {
      assert EntryOk(n, bs, b.f, c, o.entries[c], b.e);
      assert FileOf(bs, o).chunks[c] == At(bs, o.entries[c]);
    }
    assert FileOk(n, bs, approved, b.f, o, b.t, e');
    forall g | g in objs
      ensures ObjOk(n, bs, approved, g, objs[g], Working(b.f, b.t, e'))
    {
      hide FileOk, Synced;
      assert ObjOk(n, bs, approved, g, objs[g], b);
    }
  }

  /** The chunks a file holds are well formed, and none starts at or beyond e. */
  lemma ChunksBelow(n: nat, dirs: set<nat>, bs: seq<Block>, approved: set<nat>, objs: map<nat, Obj>, b: Busy)
    requires b.Working? && ObjsOk(n, dirs, bs, approved, objs, b) && RecordsOk(n, dirs, bs) && b.f in objs
    ensures b.f in FilesOf(bs, objs)
    ensures var m := FilesOf(bs, objs)[b.f].chunks;
            && m.Keys == objs[b.f].entries.Keys
            && forall c | c in m :: c > 0 && IsData(m[c], b.f, c) && RecordOk(n, dirs, m[c]) && Base(n, c) < b.e
  {
    var o := objs[b.f];
    assert ObjOk(n, bs, approved, b.f, o, b);
    EntriesLive(n, bs, approved, b.f, o, b);
    var m := FileOf(bs, o).chunks;
    forall c | c in m
      ensures c > 0 && IsData(m[c], b.f, c) && RecordOk(n, dirs, m[c]) && Base(n, c) < b.e
    {
      assert EntryOk(n, bs, b.f, c, o.entries[c], b.e);
    }
  }

  /** Only chunks that lie before the new size, or its partial last chunk, are left. */
  lemma ShortEnds(n: nat, dirs: set<nat>, f: nat, m: map<nat, Record>, newSize: nat)
    requires n > 0
    requires forall c | c in m :: c > 0 && IsData(m[c], f, c) && RecordOk(n, dirs, m[c]) && Base(n, c) < newSize
    requires newSize % n != 0 && newSize / n + 1 in m ==>
        m[newSize / n + 1].Data? && End(n, m[newSize / n + 1]) <= newSize
    ensures forall c | c in m :: m[c].Data? && m[c].chunk == c && End(n, m[c]) <= newSize
  {
    BaseIs(n, newSize);
    var last := newSize / n + 1;
    forall c | c in m
      ensures m[c].Data? && m[c].chunk == c && End(n, m[c]) <= newSize
    {
      if c < last { BaseOrder(n, c, last); }
      if c > last { BaseOrder(n, last, c); }
    }
  }

  /** The chunks below size. */
  function CutChunks(n: nat, m: map<nat, Record>, size: int): map<nat, Record> {
    map c | c in m && Base(n, c) < size :: m[c]
  }

  /** What a truncation to newSize leaves: the chunks below it, and a last partial chunk holding tail. */
  ghost predicate Shortened(n: nat, m: map<nat, Record>, m': map<nat, Record>, newSize: nat, tail: seq<Byte>)
    requires n > 0
  {
    var last := newSize / n + 1;
    && (forall c: nat | c != last || newSize % n == 0 ::
        (c in m' <==> c in m && Base(n, c) < newSize) && (c in m' ==> m'[c] == m[c]))
    && (newSize % n != 0 ==> last in m' && m'[last].Data? && m'[last].payload == tail && m'[last].nbytes == newSize % n)
  }

  function KeepTo(m: map<nat, Record>, i: int): map<nat, Record> {
    map c | c in m && c <= i :: m[c]
  }

  lemma KeepLess(m: map<nat, Record>, i: int)
    requires i >= 0
    ensures KeepTo(m, i) - {i} == KeepTo(m, i - 1)
  {
  }

  /** The first chunk that starts at or beyond size. */
  function FirstBeyond(n: nat, size: nat): (c: nat)
    requires n > 0
    ensures c > 0
  {
    1 + (size + n - 1) / n
  }

  /** The chunk that holds the last byte of a file, or chunk 1 of an empty one. */
  function LastChunk(n: nat, size: nat): (c: nat)
    requires n > 0
    ensures c > 0
  {
    if size == 0 then 1 else 1 + (size - 1) / n
  }

  lemma StartDel(n: nat, newSize: nat, startDel: nat, i: nat)
    requires n > 0 && startDel == FirstBeyond(n, newSize)
    ensures i >= startDel ==> newSize <= Base(n, i)
    ensures i > 0 && i < startDel ==> Base(n, i) < newSize
  {
    var q := (newSize + n - 1) / n;
    RemainderIs(newSize + n - 1, n);
    MulGrows(i - 1 - q, n);
    MulGrows(q - i, n);
    assert (i - 1) * n == q * n + (i - 1 - q) * n;
    assert (i - 1) * n == q * n - n - (q - i) * n;
  }

  /** Deleting the chunks from startDel to lastDel leaves exactly those below the new size. */
  lemma DelRange(n: nat, m: map<nat, Record>, oldSize: nat, newSize: nat, lastDel: nat, startDel: nat)
    requires n > 0 && startDel == FirstBeyond(n, newSize)
    requires lastDel == LastChunk(n, oldSize)
    requires forall c | c in m :: c > 0 && Base(n, c) < oldSize
    ensures KeepTo(m, startDel - 1) == CutChunks(n, m, newSize)
    ensures KeepTo(m, Max(lastDel, startDel - 1)) == m
  {
    hide Base;
    forall c | c in m
      ensures (c <= startDel - 1 <==> Base(n, c) < newSize) && c <= lastDel
    {
      StartDel(n, newSize, startDel, c);
      if c > lastDel {
        LastDel(n, oldSize, lastDel, c);
      }
    }
  }

  lemma LastDel(n: nat, oldSize: nat, lastDel: nat, c: nat)
    requires n > 0 && lastDel == LastChunk(n, oldSize)
    requires c > lastDel
    ensures Base(n, c) >= oldSize
  {
    if oldSize > 0 {
      var q := (oldSize - 1) / n;
      assert oldSize - 1 == q * n + (oldSize - 1) % n;
      MulMonotone(q + 1, c - 1, n);
      assert (q + 1) * n == q * n + n;
    }
  }

  lemma MulMonotone(x: nat, y: nat, n: nat)
    requires x <= y
    ensures x * n <= y * n
  {
    assert y * n == x * n + (y - x) * n;
  }

  lemma TailOk(n: nat, dirs: set<nat>, f: nat, newSize: nat, tail: seq<Byte>)
    requires n > 0 && newSize % n != 0 && newSize < 0x8000_0000 && f > DELETED && f !in dirs
    ensures var r := Data(f, newSize / n + 1, newSize % n, tail); RecordOk(n, dirs, r) && End(n, r) == newSize
  {
    BaseIs(n, newSize);
  }

  /** After dropping the chunks beyond newSize and writing the partial one, every chunk ends by newSize. */
  lemma CutWritten(n: nat, dirs: set<nat>, f: nat, m: map<nat, Record>, cut: map<nat, Record>, m': map<nat, Record>,
          newSize: nat, tail: seq<Byte>)
    requires n > 0 && newSize < 0x8000_0000 && f > DELETED && f !in dirs
    requires cut == CutChunks(n, m, newSize)
    requires m' == if newSize % n == 0 then cut else cut[newSize / n + 1 := Data(f, newSize / n + 1, newSize % n, tail)]
    requires forall c | c in m' :: c > 0 && IsData(m'[c], f, c) && RecordOk(n, dirs, m'[c])
    ensures forall c | c in m' :: m'[c].Data? && m'[c].chunk == c && End(n, m'[c]) <= newSize
    ensures Shortened(n, m, m', newSize, tail)
  {
    BaseIs(n, newSize);
    if newSize % n != 0 { TailOk(n, dirs, f, newSize, tail); }
    ShortEnds(n, dirs, f, m', newSize);
  }

  lemma EmptyFile(n: nat, dirs: set<nat>, bs: seq<Block>, approved: set<nat>, objs: map<nat, Obj>, b: Busy)
    requires b.Working? && ObjsOk(n, dirs, bs, approved, objs, b) && RecordsOk(n, dirs, bs) && b.f in objs && b.e <= 0
        && n > 0
    ensures objs[b.f].entries == map[]
  {
    hide ObjsOk, RecordsOk, FilesOf, RecordOk, Base;
    ChunksBelow(n, dirs, bs, approved, objs, b);
    if c :| c in objs[b.f].entries {
      assert c in FilesOf(bs, objs)[b.f].chunks;
      BaseOrder(n, 0, c);
      BaseZero(n);
      assert false;
    }
  }

  lemma BaseZero(n: nat)
    ensures Base(n, 0) + n == 0
  {
  }

  // ----- files coming and going -----

  lemma NoneBelowZero(n: nat, dirs: set<nat>, bs: seq<Block>)
    requires RecordsOk(n, dirs, bs)
    ensures forall b | On(bs, b) && At(bs, b).Data? :: Base(n, At(bs, b).chunk) >= 0
  {
    forall b | On(bs, b) && At(bs, b).Data?
      ensures Base(n, At(bs, b).chunk) >= 0
    {
      assert RecordOk(n, dirs, At(bs, b));
      BaseOrder(n, 0, At(bs, b).chunk);
      BaseZero(n);
    }
  }

  lemma BornObjs(n: nat, dirs: set<nat>, bs: seq<Block>, bs': seq<Block>, x: Addr, r: Record, approved: set<nat>,
          objs: map<nat, Obj>)
    requires Appended(bs, bs', x, r) && r.Header? && r.obj !in objs && !Gone(r) && !r.isShrink && r.size == 0
    requires r.obj > DELETED && r.obj !in dirs && r.parent in dirs
    requires RecordsOk(n, dirs, bs) && ObjsOk(n, dirs, bs, approved, objs, Idle)
    ensures ObjsOk(n, dirs, bs', approved, objs[r.obj := Obj(x, map[], 0, false, r.parent, r.name)], Idle)
  {
    var o := Obj(x, map[], 0, false, r.parent, r.name);
    AppendedOthers(n, dirs, bs, bs', x, r, approved, objs, Idle);
    AppendedKeeps(bs, bs', x, r);
    assert Live(bs', x);
    assert HeaderOk(bs', r.obj, x, o);
    NoneBelowZero(n, dirs, bs);
    assert FileOk(n, bs', approved, r.obj, o, 0, 0);
    assert Synced(n, bs', r.obj, o);
    assert ObjOk(n, bs', approved, r.obj, o, Idle);
    forall g | g in objs
      ensures ObjOk(n, bs', approved, g, objs[r.obj := o][g], Idle)
    {
    }
  }

  lemma BornOwners(bs: seq<Block>, bs': seq<Block>, x: Addr, r: Record, approved: set<nat>, objs: map<nat, Obj>, o: Obj)
    requires Appended(bs, bs', x, r) && r.Header? && r.obj !in objs && o.hdr == x
    requires OwnersOk(bs, objs, {}) && GoneOk(bs, approved, objs, {})
    ensures OwnersOk(bs', objs[r.obj := o], {}) && GoneOk(bs', approved, objs[r.obj := o], {})
  {
    var objs' := objs[r.obj := o];
    AppendedOwners(bs, bs', x, r, objs, objs', {});
    forall a | On(bs, a) && At(bs, a).obj !in objs'
      ensures Buried(bs, approved, a)
    {
    }
    assert GoneOk(bs, approved, objs', {});
    AppendedGone(bs, bs', x, r, approved, objs', {});
  }

  /** f leaves RAM once its deletion header x is written; its headers still await deletion. */
  lemma DyingObjs(n: nat, dirs: set<nat>, bs: seq<Block>, bs': seq<Block>, x: Addr, r: Record, approved: set<nat>,
          objs: map<nat, Obj>, f: nat)
    requires Appended(bs, bs', x, r) && r.obj == f && f in objs && ObjsOk(n, dirs, bs, approved, objs, Idle)
    ensures ObjsOk(n, dirs, bs', approved, objs - {f}, Dying(f))
  {
    AppendedOthers(n, dirs, bs, bs', x, r, approved, objs, Idle);
    hide Appended, FileOk, Synced;
    forall g | g in objs - {f}
      ensures ObjOk(n, bs', approved, g, (objs - {f})[g], Dying(f))
    {
      assert ObjOk(n, bs', approved, g, objs[g], Idle);
    }
  }

  lemma DyingOwners(n: nat, dirs: set<nat>, bs: seq<Block>, bs': seq<Block>, x: Addr, r: Record, approved: set<nat>,
          objs: map<nat, Obj>, f: nat)
    requires Appended(bs, bs', x, r) && r.Header? && r.obj == f && f in objs && objs[f].entries == map[]
    requires OwnersOk(bs, objs, {})
    ensures OwnersOk(bs', objs - {f}, {x} + {objs[f].hdr})
  {
    var p := objs[f].hdr;
    AppendedKeeps(bs, bs', x, r);
    forall a | Live(bs', a) && a !in {x} + {p}
      ensures At(bs', a).obj in objs - {f} && Refers((objs - {f})[At(bs', a).obj], At(bs', a), a)
    {
      assert Live(bs, a);
    }
  }

  lemma DyingGone(n: nat, dirs: set<nat>, bs: seq<Block>, bs': seq<Block>, x: Addr, r: Record, approved: set<nat>,
          objs: map<nat, Obj>, f: nat)
    requires Appended(bs, bs', x, r) && r.Header? && r.obj == f && f in objs
    requires ObjsOk(n, dirs, bs, approved, objs, Idle) && GoneOk(bs, approved, objs, {})
    ensures var p := objs[f].hdr;
            && GoneOk(bs', approved, objs - {f}, {f}) && Live(bs', p) && Live(bs', x) && At(bs', p).obj == f
                && At(bs', x) == r && p != x
            && Newest(bs', f, x)
  {
    EntriesLive(n, bs, approved, f, objs[f], Idle);
    HeaderKnown(n, bs, approved, f, objs[f], Idle);
    AppendedKeeps(bs, bs', x, r);
    AppendedGone(bs, bs', x, r, approved, objs, {});
    forall a | On(bs', a) && At(bs', a).obj !in objs - {f} && At(bs', a).obj !in {f}
      ensures Buried(bs', approved, a)
    {
    }
  }

  /** Everything of f precedes its deletion header, whose block is kept for it. */
  lemma BuriedAll(bs: seq<Block>, approved: set<nat>, objs: map<nat, Obj>, f: nat, x: Addr)
    requires GoneOk(bs, approved, objs, {f}) && On(bs, x) && IsHeader(At(bs, x), f) && Gone(At(bs, x))
        && Newest(bs, f, x)
    requires bs[x.blk].shrink && x.blk !in approved
    ensures GoneOk(bs, approved, objs, {})
  {
    forall a | On(bs, a) && At(bs, a).obj !in objs
      ensures Buried(bs, approved, a)
    {
      if At(bs, a).obj == f {
        assert Guarded(bs, approved, a, x);
      }
    }
  }

  lemma MovedKeys(bs: seq<Block>, objs: map<nat, Obj>, bs': seq<Block>, objs': map<nat, Obj>)
    requires OnlyMoved(bs, objs, bs', objs')
    ensures objs'.Keys == objs.Keys && FilesOf(bs', objs') == FilesOf(bs, objs)
  {
  }

  lemma BornFiles(bs: seq<Block>, objs: map<nat, Obj>, f: nat, o: Obj)
    requires o.entries == map[]
    ensures FilesOf(bs, objs[f := o]) == FilesOf(bs, objs)[f := FileState(o.size, map[], o.parent, o.name, o.dirty)]
  {
    assert FileOf(bs, o).chunks == map[];
  }

  lemma DeletionRecordOk(n: nat, dirs: set<nat>, r: Record)
    requires r.Header? && r.obj > DELETED && r.obj !in dirs && r.kind == FileKind && r.parent == DELETED && r.isShrink
        && r.shadows == 0 && r.size == 0
    ensures RecordOk(n, dirs, r)
  {
  }

  lemma DyingKept(bs: seq<Block>, bs': seq<Block>, a: Addr, x: Addr, f: nat, r: Record)
    requires a.blk < |bs| && Deleted(bs, bs', a) && Live(bs, x) && x != a && At(bs, x) == r && Newest(bs, f, x)
        && bs[x.blk].state in {Allocating, Full}
    ensures Live(bs', x) && At(bs', x) == r && Newest(bs', f, x) && bs'[x.blk].state != Empty
  {
    assert forall y | On(bs', y) :: On(bs, y) && At(bs', y) == At(bs, y);
  }

  lemma FlagKept(bs: seq<Block>, bs': seq<Block>, x: Addr, f: nat, r: Record)
    requires Live(bs, x) && At(bs, x) == r && Newest(bs, f, x) && bs' == bs[x.blk := bs[x.blk].(shrink := true)]
    ensures Live(bs', x) && At(bs', x) == r && Newest(bs', f, x)
  {
    assert forall y | On(bs', y) :: On(bs, y) && At(bs', y) == At(bs, y);
  }

  lemma FlaggedDying(n: nat, dirs: set<nat>, bs: seq<Block>, bs': seq<Block>, i: nat, approved: set<nat>,
          objs: map<nat, Obj>, f: nat, spare: set<Addr>)
    requires Flagged(bs, bs', i, approved) && bs'[i].shrink
    requires ObjsOk(n, dirs, bs, approved, objs, Dying(f)) && OwnersOk(bs, objs, spare)
        && GoneOk(bs, approved, objs, {f})
    ensures ObjsOk(n, dirs, bs', approved, objs, Dying(f)) && OwnersOk(bs', objs, spare)
        && GoneOk(bs', approved, objs, {f})
  {
    assert SamePages(bs, bs') && GuardsKept(bs, bs', approved, approved);
    hide FileOk, RestOk, Buried;
    SamePagesGone(bs, bs', approved, approved, objs, {f});
    assert forall a :: Live(bs', a) == Live(bs, a);
    forall g | g in objs
      ensures ObjOk(n, bs', approved, g, objs[g], Dying(f))
    {
      SamePagesObj(n, bs, bs', approved, approved, g, objs[g], Dying(f));
    }
  }

  lemma ForgottenFiles(bs: seq<Block>, objs: map<nat, Obj>, f: nat)
    ensures FilesOf(bs, objs - {f}) == FilesOf(bs, objs) - {f}
  {
  }

  lemma FlaggedFiles(bs: seq<Block>, bs': seq<Block>, i: nat, approved: set<nat>, objs: map<nat, Obj>)
    requires Flagged(bs, bs', i, approved)
    ensures FilesOf(bs', objs) == FilesOf(bs, objs)
  {
    assert SamePages(bs, bs');
    SamePagesFiles(bs, bs', objs);
  }

  lemma DyingDone(n: nat, dirs: set<nat>, bs: seq<Block>, approved: set<nat>, objs: map<nat, Obj>, f: nat)
    requires ObjsOk(n, dirs, bs, approved, objs, Dying(f))
    ensures ObjsOk(n, dirs, bs, approved, objs, Idle) && f !in objs
  {
    forall g | g in objs
      ensures ObjOk(n, bs, approved, g, objs[g], Idle)
    {
      hide FileOk, Synced;
      assert ObjOk(n, bs, approved, g, objs[g], Dying(f));
    }
  }

  /** The chunk at a has been written again, after everything else, and its owner uses the copy; the
      page itself is no longer in use. */
  ghost predicate Recopied(bs: seq<Block>, objs: map<nat, Obj>, bs': seq<Block>, objs': map<nat, Obj>, a: Addr)
    requires On(bs, a)
  {
    exists x, mid ::
      var r := At(bs, a);
      && r.obj in objs && Appended(bs, mid, x, CopyOf(r, objs[r.obj])) && Deleted(mid, bs', a)
      && objs' == objs[r.obj := Rehomed(objs[r.obj], r, x)]
      && Latest(bs', x) && At(bs', x) == CopyOf(r, objs[r.obj]) && x.blk != a.blk
  }

  lemma RecopiedBy(bs: seq<Block>, objs: map<nat, Obj>, mid: seq<Block>, bs': seq<Block>, objs': map<nat, Obj>, a: Addr,
          x: Addr, r: Record)
    requires On(bs, a) && At(bs, a).obj in objs && r == CopyOf(At(bs, a), objs[At(bs, a).obj])
        && Appended(bs, mid, x, r)
    requires a.blk < |mid| && Deleted(mid, bs', a)
        && objs' == objs[At(bs, a).obj := Rehomed(objs[At(bs, a).obj], At(bs, a), x)]
    requires bs[a.blk].state == Collecting && bs[x.blk].state in {Empty, Allocating}
        && mid[x.blk].state in {Allocating, Full}
    ensures Recopied(bs, objs, bs', objs', a)
  {
    hide CopyOf, Rehomed;
    LatestStays(bs, mid, bs', a, x, r);
  }

  /** Record a is the newest of all. */
  ghost predicate Latest(bs: seq<Block>, a: Addr) {
    On(bs, a) && forall b | On(bs, b) && b != a :: Before(bs, b, a)
  }

  lemma LatestStays(bs: seq<Block>, mid: seq<Block>, bs': seq<Block>, a: Addr, x: Addr, r: Record)
    requires Appended(bs, mid, x, r) && a != x && a.blk < |mid| && Deleted(mid, bs', a)
    requires bs[a.blk].state == Collecting && bs[x.blk].state != Collecting && mid[x.blk].state != Collecting
    ensures Latest(bs', x) && At(bs', x) == r
  {
    AppendedKeeps(bs, mid, x, r);
    assert x.blk != a.blk;
    assert bs'[x.blk] == mid[x.blk];
    forall b | On(bs', b) && b != x
      ensures Before(bs', b, x)
    {
      assert On(mid, b) && bs'[b.blk].seqNo == mid[b.blk].seqNo;
    }
  }

  /** No file but f, if any, is different. */
  ghost predicate OnlyFile(fs: map<nat, FileState>, fs': map<nat, FileState>, f: nat) {
    f in fs' && fs' == fs[f := fs'[f]]
  }

  lemma FilesOnly(fs: map<nat, FileState>, fs': map<nat, FileState>, f: nat)
    requires f in fs' && fs' == fs[f := fs'[f]]
    ensures OnlyFile(fs, fs', f)
  {
  }

  lemma SameFilesOnly(fs: map<nat, FileState>, f: nat)
    requires f in fs
    ensures OnlyFile(fs, fs, f)
  {
    assert fs[f := fs[f]] == fs;
  }

  predicate Named(o: Obj, parent: nat, name: string) {
    o.parent == parent && o.name == name
  }

  /** What the counts and thresholds come to: the block that is picked, whether it was remembered as the
      dirtiest or is to be tested and then collected now, whether a refresh is due, and whether the whole block is
      to be collected. */
  datatype Choice = Choice(block: nat, remembered: bool, now: bool, refresh: bool, wholeBlock: bool)

  /** Some block has discarded pages, and none of those is older than block i. */
  ghost predicate NoneDirtier(bs: seq<Block>, perBlock: nat, i: nat)
    requires i < |bs|
  {
    && (exists k :: 0 <= k < |bs| && Dirty(bs[k], perBlock))
    && forall k | 0 <= k < |bs| && Dirty(bs[k], perBlock) :: bs[i].seqNo <= bs[k].seqNo
  }

  /** The block picked is full, and is remembered, or passes the test and is to be collected now. */
  ghost predicate MayCollect(bs: seq<Block>, perBlock: nat, approved: set<nat>, c: Choice) {
    && c.block < |bs| && bs[c.block].state == Full
    && ((c.remembered && c.block in approved)
        || (c.now && (!bs[c.block].shrink || NoneDirtier(bs, perBlock, c.block))))
  }

  class Device {
    const perBlock: nat
    const n: nat
    ghost const dirs: set<nat>
    const space: Space

    var blocks: seq<Block>
    var seqNumber: nat
    var allocBlock: int
    var finder: nat
    var objs: map<nat, Obj>
    var gcBlock: int
    var gcChunk: nat
    /** Blocks that have passed the disqualification test and may be collected. */
    var approved: set<nat>

    ghost predicate Shape()
      reads this
    {
      && perBlock > 0 && n > 0 && DELETED !in dirs && UNLINKED !in dirs
      && WellFormed(blocks, perBlock, seqNumber)
      && RecordsOk(n, dirs, blocks)
      && ApprovedOk(blocks, approved)
      && OneAllocating(blocks, allocBlock)
    }

    /** The device invariant, while the operation b is under way. */
    ghost predicate Inv(b: Busy)
      reads this
    {
      && Shape()
      && ObjsOk(n, dirs, blocks, approved, objs, b)
      && OwnersOk(blocks, objs, {})
      && GoneOk(blocks, approved, objs, DyingSet(b))
    }

    static ghost function DyingSet(b: Busy): set<nat> {
      if b.Dying? then {b.f} else {}
    }

    ghost predicate NoneCollecting()
      reads this
    {
      forall i | 0 <= i < |blocks| :: blocks[i].state != Collecting
    }

    /** There is a page to write to. */
    ghost predicate HasRoom()
      reads this
    {
      allocBlock >= 0 || exists i :: 0 <= i < |blocks| && blocks[i].state == Empty
    }

    ghost function Files(): map<nat, FileState>
      reads this
    {
      FilesOf(blocks, objs)
    }

    /** A freshly formatted device: every block is erased and there are no files. */
    constructor (nBlocks: nat, perBlock: nat, n: nat, space: Space, ghost dirs: set<nat>)
      requires perBlock > 0 && n > 0 && DELETED !in dirs && UNLINKED !in dirs
      ensures Inv(Idle) && NoneCollecting() && Files() == map[] && objs == map[]
      ensures this.perBlock == perBlock && this.n == n && this.dirs == dirs && this.space == space
      ensures |blocks| == nBlocks && forall i | 0 <= i < nBlocks :: blocks[i].state == Empty
    {
      this.perBlock, this.n, this.space, this.dirs := perBlock, n, space, dirs;
      blocks := seq(nBlocks, i => Block(Empty, 0, [], {}, false));
      seqNumber, allocBlock, finder := 0, -1, 0;
      objs, approved := map[], {};
      gcBlock, gcChunk := -1, 0;
    }

    /** A device whose blocks and objects a scan has found: nothing is being allocated from or collected. */
    constructor Mounted(perBlock: nat, n: nat, space: Space, ghost dirs: set<nat>, blocks: seq<Block>, seqNumber: nat,
            objs: map<nat, Obj>)
      requires perBlock > 0 && n > 0 && DELETED !in dirs && UNLINKED !in dirs
      requires WellFormed(blocks, perBlock, seqNumber) && RecordsOk(n, dirs, blocks) && forall i | 0 <= i < |blocks| ::
          blocks[i].state in {Empty, Full}
      requires ObjsOk(n, dirs, blocks, {}, objs, Idle) && OwnersOk(blocks, objs, {}) && GoneOk(blocks, {}, objs, {})
      ensures Inv(Idle) && NoneCollecting() && this.blocks == blocks && this.objs == objs
      ensures this.perBlock == perBlock && this.n == n && this.dirs == dirs && this.space == space
    {
      this.perBlock, this.n, this.space, this.dirs := perBlock, n, space, dirs;
      this.blocks, this.seqNumber, this.objs := blocks, seqNumber, objs;
      allocBlock, finder, approved := -1, 0, {};
      gcBlock, gcChunk := -1, 0;
    }

    /** An erased block becomes the one chunks are taken from. */
    method FindBlockForAllocation()
      requires Shape() && allocBlock == -1
      modifies this`blocks, this`seqNumber, this`allocBlock, this`finder
      ensures Shape()
      ensures Opened(old(blocks), blocks, allocBlock)
      ensures allocBlock >= 0 <==> old(HasRoom())
      ensures allocBlock < 0 ==> blocks == old(blocks)
    {
      hide WellFormed, RecordsOk, ApprovedOk, OneAllocating;
      var i := 0;
      ghost var first := if finder + 1 >= |blocks| then 0 else finder + 1;
      while i < |blocks|
        invariant 0 <= i <= |blocks| && blocks == old(blocks) && seqNumber == old(seqNumber) && allocBlock == -1
        invariant i == 0 ==> finder == old(finder)
        invariant i > 0 ==> finder == (if first + i - 1 < |blocks| then first + i - 1 else first + i - 1 - |blocks|)
        invariant forall k | 0 <= k < |blocks| && (first <= k < first + i || k < first + i - |blocks|) ::
            blocks[k].state != Empty
      {
        finder := finder + 1;
        if finder >= |blocks| {
          finder := 0;
        }
        if blocks[finder].state == Empty {
          OpenKeeps(blocks, finder, perBlock, seqNumber, approved);
          OpenedSame(blocks, Open(blocks, finder, seqNumber + 1), finder);
          SameRecords(n, dirs, blocks, Open(blocks, finder, seqNumber + 1));
          seqNumber := seqNumber + 1;
          blocks := Open(blocks, finder, seqNumber);
          allocBlock := finder;
          return;
        }
        i := i + 1;
      }
    }

    /** Take the next page and write r to it. Only writes that may not use the reserve can be
        turned down for lack of space while erased blocks remain. */
    method WriteNew(r: Record, useReserve: bool) returns (x: Option<Addr>)
      requires Shape() && RecordOk(n, dirs, r)
      modifies this`blocks, this`seqNumber, this`allocBlock, this`finder
      ensures Shape()
      ensures x.Some? ==> Appended(old(blocks), blocks, x.value, r) && x.value.blk !in approved
      ensures x.Some? ==> blocks[x.value.blk].state in {Allocating, Full} && old(blocks)[x.value.blk].state in {Empty, Allocating}
      ensures x.None? ==> Opened(old(blocks), blocks, allocBlock)
      ensures x.None? ==> !HasRoom() || (!useReserve && !space.Plenty?)
      ensures x.None? <== !old(HasRoom()) || (!useReserve && space.Short?)
      ensures old(HasRoom()) && (useReserve || space.Plenty?) ==> x.Some?
    {
      hide RecordsOk, ApprovedOk, RecordOk, Appended;
      if allocBlock < 0 {
        FindBlockForAllocation();
      }
      var room: bool := *;
      room := if space.Plenty? then true else if space.Short? then false else room;
      if !useReserve && !room {
        return None;
      }
      if allocBlock < 0 {
        return None;
      }
      ghost var mid := blocks;
      ghost var i := allocBlock;
      WriteAppends(blocks, allocBlock, perBlock, seqNumber, r);
      WriteWellFormed(blocks, allocBlock, perBlock, seqNumber, r, approved);
      x := Some(Addr(allocBlock, |blocks[allocBlock].pages|));
      blocks := Write(blocks, allocBlock, r, perBlock);
      if blocks[allocBlock].state == Full {
        allocBlock := -1;
      }
      OpenThenAppend(old(blocks), mid, blocks, x.value, r);
      AppendedRecords(n, dirs, mid, blocks, x.value, r);
    }

    /** The chunk at a is no longer wanted. When it was the last one in use in its block, and the
        block is not kept for a shrink header, the block is erased. */
    method DeleteChunk(a: Addr, ghost b: Busy, ghost spare: set<Addr>)
      requires Shape() && ObjsOk(n, dirs, blocks, approved, objs, b) && OwnersOk(blocks, objs, spare + {a})
      requires GoneOk(blocks, approved, objs, DyingSet(b))
      requires Live(blocks, a) && (At(blocks, a).obj in objs ==> !Refers(objs[At(blocks, a).obj], At(blocks, a), a))
      modifies this`blocks, this`approved, this`gcBlock
      ensures Shape() && ObjsOk(n, dirs, blocks, approved, objs, b) && OwnersOk(blocks, objs, spare)
      ensures GoneOk(blocks, approved, objs, DyingSet(b)) && Files() == old(Files())
      ensures Deleted(old(blocks), blocks, a) && approved <= old(approved)
      ensures gcBlock == old(gcBlock) || gcBlock == -1
    {
      hide FilesOf, ObjsOk, OwnersOk, GoneOk, RecordsOk, Refers, WellFormed, ApprovedOk, OneAllocating;
      KilledObjs(n, dirs, blocks, a, approved, objs, b, DyingSet(b), spare);
      KilledShape(n, dirs, blocks, a, perBlock, seqNumber, approved, allocBlock);
      blocks := KillPage(blocks, a);
      var blk := blocks[a.blk];
      if blk.live == {} && !blk.shrink && blk.state in {Full, Collecting} {
        if a.blk == gcBlock {
          gcBlock := -1;
        }
        NotAllocating(blocks, allocBlock, a.blk);
        ErasedObjs(n, dirs, blocks, a.blk, approved, objs, b);
        ErasedFiles(n, dirs, blocks, a.blk, approved, objs, b);
        ErasedOwners(blocks, a.blk, approved, objs, DyingSet(b), spare);
        ErasedShape(n, dirs, blocks, a.blk, perBlock, seqNumber, approved, allocBlock);
        blocks := EraseBlock(blocks, a.blk);
        approved := approved - {a.blk};
      }
    }

    /** May block i be collected? A block with a shrink header may not while an older block has
        discarded pages. */
    method BlockNotDisqualifiedFromGC(i: nat) returns (ok: bool)
      requires Shape() && NoneCollecting() && i < |blocks| && blocks[i].state == Full
      ensures ok && blocks[i].shrink ==> OlderAllLive(blocks, i)
      ensures ok <==> !blocks[i].shrink || NoneDirtier(blocks, perBlock, i)
    {
      hide OlderAllLive;
      if !blocks[i].shrink {
        return true;
      }
      var oldest: nat := 0;
      var j := 0;
      while j < |blocks|
        invariant 0 <= j <= |blocks|
        invariant oldest != 0 ==> exists k :: 0 <= k < j && Dirty(blocks[k], perBlock) && blocks[k].seqNo == oldest
        invariant forall k | 0 <= k < j && Dirty(blocks[k], perBlock) :: 0 < oldest <= blocks[k].seqNo
      {
        if Dirty(blocks[j], perBlock) && (oldest == 0 || blocks[j].seqNo < oldest) {
          assert blocks[j].seqNo > 0;
          oldest := blocks[j].seqNo;
        }
        j := j + 1;
      }
      ok := blocks[i].seqNo <= oldest;
      if ok {
        NotDisqualified(blocks, perBlock, seqNumber, i, oldest);
      }
    }

    /** Write the chunk at a again at the current end of the log and make its owner use the copy. */
    method Relocate(a: Addr, ghost b: Busy) returns (x: Option<Addr>, ghost r': Record)
      requires Inv(b) && !b.Dying? && Live(blocks, a)
      modifies this`blocks, this`seqNumber, this`allocBlock, this`finder, this`objs
      ensures Shape() && ObjsOk(n, dirs, blocks, approved, objs, b) && GoneOk(blocks, approved, objs, {})
      ensures OwnersOk(blocks, objs, if x.None? then {} else {a})
      ensures x.None? ==> Opened(old(blocks), blocks, allocBlock) && !HasRoom()
      ensures x.Some? ==> Appended(old(blocks), blocks, x.value, r') && blocks[x.value.blk].state in {Allocating, Full} && old(blocks)[x.value.blk].state in {Empty, Allocating}
      ensures var r := At(old(blocks), a);
              r.obj in old(objs) && r' == CopyOf(r, old(objs)[r.obj])
              && (x.Some? ==> objs == old(objs)[r.obj := Rehomed(old(objs)[r.obj], r, x.value)])
      ensures x.Some? ==> Live(blocks, a) && At(blocks, a).obj in objs && !Refers(objs[At(blocks, a).obj], At(blocks, a), a)
      ensures old(HasRoom()) ==> x.Some?
      ensures OnlyMoved(old(blocks), old(objs), blocks, objs)
    {
      hide ObjsOk, OwnersOk, GoneOk, FilesOf, WellFormed, ApprovedOk, OneAllocating, Appended, RecordOk, Refers,
          RecordsOk, Opened, OnlyMoved, CopyOf, Rehomed;
      var r := At(blocks, a);
      CopyOk(n, dirs, blocks, a, r, approved, objs, b);
      ghost var bs := blocks;
      r' := CopyOf(r, objs[r.obj]);
      x := WriteNew(CopyOf(r, objs[r.obj]), true);
      if x.None? {
        OpenedObjs(n, dirs, bs, blocks, allocBlock, approved, objs, b, {});
        SameMoved(bs, blocks, objs);
        return;
      }
      Copied(n, dirs, bs, blocks, a, x.value, r, approved, objs, b);
      objs := objs[r.obj := Rehomed(objs[r.obj], r, x.value)];
    }

    /** Move the chunk at a to the current end of the log. */
    method CopyChunk(a: Addr, ghost b: Busy) returns (ok: bool)
      requires Inv(b) && !b.Dying? && Live(blocks, a) && blocks[a.blk].state == Collecting
      modifies this
      ensures Inv(b) && OnlyMoved(old(blocks), old(objs), blocks, objs)
      ensures Moved(old(blocks), blocks, a, ok) && gcChunk == old(gcChunk)
      ensures ok ==> Recopied(old(blocks), old(objs), blocks, objs, a)
      ensures !ok ==> !HasRoom()
      ensures old(HasRoom()) ==> ok
    {
      hide ObjsOk, OwnersOk, GoneOk, WellFormed, ApprovedOk, OneAllocating, Appended, Refers, RecordsOk, Deleted, Moved,
          Opened, FilesOf, OnlyMoved, CopyOf, Rehomed, Latest;
      var x, r := Relocate(a, b);
      if x.None? {
        NotMoved(old(blocks), blocks, a, allocBlock);
        return false;
      }
      ghost var mid, objs' := blocks, objs;
      assert {} + {a} == {a};
      DeleteChunk(a, b, {});
      SameMoved(mid, blocks, objs);
      MovedTwice(old(blocks), old(objs), mid, objs', blocks, objs);
      MovedBy(old(blocks), mid, blocks, a, x.value, r);
      RecopiedBy(old(blocks), old(objs), mid, blocks, objs, a, x.value, r);
      assert OnlyMoved(old(blocks), old(objs), blocks, objs);
      assert Moved(old(blocks), blocks, a, true);
      assert Inv(b);
      return true;
    }

    /** Block i changes state and drops its shrink flag. */
    method SetState(i: nat, state: BlockState, ghost b: Busy)
      requires Inv(b) && i < |blocks| && blocks[i].state in {Full, Collecting} && state in {Full, Collecting}
      requires blocks[i].shrink ==> i in approved
      modifies this`blocks
      ensures Inv(b) && OnlyMoved(old(blocks), old(objs), blocks, objs)
      ensures blocks == old(blocks)[i := old(blocks)[i].(state := state, shrink := false)]
    {
      hide ObjsOk, OwnersOk, GoneOk, FilesOf, WellFormed, ApprovedOk, OneAllocating, RecordsOk, OnlyMoved;
      ghost var bs := blocks;
      blocks := blocks[i := blocks[i].(state := state, shrink := false)];
      FlaggedObjs(n, dirs, bs, blocks, i, approved, approved, objs, b, DyingSet(b));
      ShapeFlagged(n, dirs, bs, blocks, i, perBlock, seqNumber, approved, approved, allocBlock);
      SameMoved(bs, blocks, objs);
    }

    /** The block has nothing in use left: erase it. */
    method BlockBecameDirty(i: nat, ghost b: Busy)
      requires Inv(b) && i < |blocks| && blocks[i].state in {Full, Collecting} && blocks[i].live == {}
          && !blocks[i].shrink
      modifies this`blocks, this`approved
      ensures Inv(b) && OnlyMoved(old(blocks), old(objs), blocks, objs)
      ensures blocks == EraseBlock(old(blocks), i)
    {
      hide ObjsOk, OwnersOk, GoneOk, FilesOf, WellFormed, ApprovedOk, OneAllocating, RecordsOk, OnlyMoved;
      NotAllocating(blocks, allocBlock, i);
      ErasedObjs(n, dirs, blocks, i, approved, objs, b);
      ErasedFiles(n, dirs, blocks, i, approved, objs, b);
      ErasedOwners(blocks, i, approved, objs, DyingSet(b), {});
      ErasedShape(n, dirs, blocks, i, perBlock, seqNumber, approved, allocBlock);
      ghost var bs := blocks;
      blocks := EraseBlock(blocks, i);
      approved := approved - {i};
      SameMoved(bs, blocks, objs);
    }

    /** What a pass from page from on makes of a block. Either nothing in it was left and it has been erased,
        and the next pass starts afresh; or its pages up to page c have been moved, as many as it was to move or
        all to the end of the block, unless there was no room. */
    ghost predicate Passed(b: Block, b': Block, from: nat, c: nat, wholeBlock: bool, ok: bool) {
      || (c == 0 && b' == Block(Empty, 0, [], {}, false))
      || (&& from <= c && b'.live != {} && b' == b.(live := b'.live, shrink := false)
          && Swept(b.live, b'.live, from, c, ok)
          && (ok ==> c >= perBlock || (!wholeBlock && |b'.live| + 5 <= |b.live|)))
    }

    /** One pass of collecting block i: at most maxCopies chunks are moved, and the block is
        erased when none is left. Running out of room, and nothing else, stops the pass. */
    method GarbageCollectBlock(i: nat, wholeBlock: bool, ghost b: Busy) returns (ok: bool)
      requires Inv(b) && !b.Dying? && NoneCollecting()
      requires i < |blocks| && blocks[i].state == Full && (blocks[i].shrink ==> i in approved)
      modifies this
      ensures Inv(b) && NoneCollecting() && OnlyMoved(old(blocks), old(objs), blocks, objs)
      ensures |blocks| == |old(blocks)|
          && Passed(old(blocks)[i], blocks[i], old(gcChunk), gcChunk, wholeBlock, ok)
      ensures ok && wholeBlock && (forall p | p in old(blocks)[i].live :: p >= old(gcChunk)) ==>
          blocks[i].state == Empty
      ensures old(blocks)[i].live == {} ==> blocks[i].state == Empty
      ensures blocks[i].state == Empty ==> gcBlock == -1
      ensures !ok ==> !HasRoom()
    {
      hide ObjsOk, OwnersOk, GoneOk, FilesOf, WellFormed, ApprovedOk, OneAllocating, RecordsOk, OnlyMoved, Swept;
      ok := true;
      LiveBelow(blocks, perBlock, seqNumber, i);
      SetState(i, Collecting, b);
      if blocks[i].live == {} {
        ghost var bs, os := blocks, objs;
        BlockBecameDirty(i, b);
        MovedTwice(old(blocks), old(objs), bs, os, blocks, objs);
      } else {
        var maxCopies := if wholeBlock then perBlock else 5;
        SweptNothing(blocks[i].live, gcChunk);
        while ok && gcChunk < perBlock && blocks[i].state == Collecting && maxCopies > 0
          invariant i < |blocks| == |old(blocks)| && old(gcChunk) <= gcChunk
          invariant !ok ==> !HasRoom() && blocks[i].state == Collecting
          invariant blocks[i].state == Collecting ==>
              blocks[i] == old(blocks)[i].(state := Collecting, shrink := false, live := blocks[i].live)
              && blocks[i].live != {} && Swept(old(blocks)[i].live, blocks[i].live, old(gcChunk), gcChunk, ok)
              && (ok ==> |blocks[i].live| + (if wholeBlock then perBlock else 5) == |old(blocks)[i].live| + maxCopies)
          invariant blocks[i].state == Empty ==> blocks[i] == Block(Empty, 0, [], {}, false)
          invariant ok && wholeBlock ==> perBlock - maxCopies <= gcChunk - old(gcChunk)
          invariant Inv(b) && OnlyMoved(old(blocks), old(objs), blocks, objs)
          invariant (blocks[i].state == Collecting && !blocks[i].shrink) || blocks[i].state == Empty
          invariant forall j | 0 <= j < |blocks| && j != i :: blocks[j].state != Collecting
          decreases perBlock - gcChunk
        {
          ghost var bs, os := blocks, objs;
          var inUse := gcChunk in blocks[i].live;
          if inUse {
            maxCopies := maxCopies - 1;
            LiveIsOn(blocks, perBlock, seqNumber, i, gcChunk);
            ok := CopyChunk(Addr(i, gcChunk), b);
            MovedTwice(old(blocks), old(objs), bs, os, blocks, objs);
          }
          if blocks[i].state == Collecting {
            SweptOn(old(blocks)[i].live, bs[i].live, blocks[i].live, old(gcChunk), gcChunk, inUse, ok);
          }
          gcChunk := gcChunk + 1;
        }
      }
      if blocks[i].state == Collecting {
        ghost var bs, os := blocks, objs;
        SetState(i, Full, b);
        MovedTwice(old(blocks), old(objs), bs, os, blocks, objs);
        LiveBelow(blocks, perBlock, seqNumber, i);
        SweptAll(old(blocks)[i].live, blocks[i].live, old(gcChunk), perBlock, gcChunk, ok);
      } else {
        gcBlock := -1;
        gcChunk := 0;
      }
    }

    /** The oldest full block, to have its data written afresh. It is not put to the disqualification
        test; it would pass, but that the test lets no shrink header pass while no block is dirty. */
    method FindRefreshBlock() returns (oldest: int)
      requires Shape() && NoneCollecting()
      ensures -1 <= oldest < |blocks|
      ensures oldest < 0 <==> forall j | 0 <= j < |blocks| :: blocks[j].state != Full
      ensures oldest >= 0 ==> blocks[oldest].state == Full && OlderAllLive(blocks, oldest)
      ensures oldest >= 0 ==> forall j | 0 <= j < |blocks| && blocks[j].state == Full ::
          blocks[oldest].seqNo <= blocks[j].seqNo
    {
      hide OlderAllLive;
      oldest := -1;
      var j := 0;
      while j < |blocks|
        invariant 0 <= j <= |blocks| && -1 <= oldest < j
        invariant oldest < 0 ==> forall k | 0 <= k < j :: blocks[k].state != Full
        invariant oldest >= 0 ==> blocks[oldest].state == Full && forall k | 0 <= k < j && blocks[k].state == Full ::
            blocks[oldest].seqNo <= blocks[k].seqNo
      {
        if blocks[j].state == Full && (oldest < 0 || blocks[j].seqNo < blocks[oldest].seqNo) {
          oldest := j;
        }
        j := j + 1;
      }
      if oldest >= 0 {
        OldestFull(blocks, perBlock, seqNumber, oldest);
      }
    }

    /** Remember that block i may be collected. */
    method Admit(i: nat, ghost b: Busy)
      requires Inv(b) && !b.Dying? && i < |blocks| && blocks[i].state == Full
      requires blocks[i].shrink ==> OlderAllLive(blocks, i)
      modifies this`approved
      ensures Inv(b) && i in approved
    {
      hide ObjsOk, OwnersOk, GoneOk, FilesOf, WellFormed, ApprovedOk, OneAllocating, RecordsOk, Flagged, OlderAllLive;
      ShapeApproved(blocks, i, approved);
      if blocks[i].shrink {
        ApproveObjs(n, dirs, blocks, i, approved, objs, b);
      } else {
        FlaggedNothing(blocks, i, approved);
        FlaggedObjs(n, dirs, blocks, blocks, i, approved, approved + {i}, objs, b, {});
      }
      approved := approved + {i};
    }

    /** Put block i to the disqualification test, and remember it if it passes. */
    method Approve(i: nat, ghost b: Busy) returns (ok: bool)
      requires Inv(b) && !b.Dying? && NoneCollecting() && i < |blocks| && blocks[i].state == Full
      modifies this`approved
      ensures Inv(b)
      ensures ok <==> !blocks[i].shrink || NoneDirtier(blocks, perBlock, i)
      ensures ok ==> i in approved
    {
      hide ObjsOk, OwnersOk, GoneOk, FilesOf, WellFormed, ApprovedOk, OneAllocating, RecordsOk, OlderAllLive;
      ok := BlockNotDisqualifiedFromGC(i);
      if ok {
        Admit(i, b);
      }
    }

    /** The block that choice c comes down to: the oldest full one if a refresh is due and no collection is
        under way, else the one picked, if it is full. */
    method PickBlock(c: Choice, ghost b: Busy) returns (i: int)
      requires Inv(b) && !b.Dying? && NoneCollecting()
      modifies this`approved
      ensures Inv(b) && -1 <= i < |blocks| && (i >= 0 ==> blocks[i].state == Full && i in approved)
      ensures c.refresh && gcBlock < 0 && (exists k :: 0 <= k < |blocks| && blocks[k].state == Full) ==>
          i >= 0 && forall k | 0 <= k < |blocks| && blocks[k].state == Full :: blocks[i].seqNo <= blocks[k].seqNo
      ensures i < 0 ==> !MayCollect(blocks, perBlock, old(approved), c)
      ensures i >= 0 && !c.refresh ==> i == c.block
    {
      hide ObjsOk, OwnersOk, GoneOk, FilesOf, WellFormed, ApprovedOk, OneAllocating, RecordsOk;
      if c.refresh && gcBlock < 0 {
        var oldest := FindRefreshBlock();
        if oldest >= 0 {
          Admit(oldest, b);
          return oldest;
        }
      }
      if c.block >= |blocks| || blocks[c.block].state != Full {
        return -1;
      }
      if !(c.remembered && c.block in approved) {
        var ok := Approve(c.block, b);
        if !ok || !c.now {
          return -1;
        }
      }
      return c.block;
    }

    /** Collect garbage as choice c says: a pass over the block it comes down to, from where the last pass over
        the same block has stopped. */
    method CollectOnce(c: Choice, ghost b: Busy) returns (i: int, done: bool)
      requires Inv(b) && !b.Dying? && NoneCollecting()
      modifies this
      ensures Inv(b) && NoneCollecting() && OnlyMoved(old(blocks), old(objs), blocks, objs)
      ensures -1 <= i < |blocks| == |old(blocks)|
      ensures i < 0 ==> blocks == old(blocks) && objs == old(objs) && allocBlock == old(allocBlock)
      ensures i < 0 ==> !MayCollect(blocks, perBlock, old(approved), c)
      ensures i < 0 && c.refresh && old(gcBlock) < 0 ==> forall k | 0 <= k < |blocks| :: blocks[k].state != Full
      ensures i >= 0 ==>
                && old(blocks)[i].state == Full && (done || !HasRoom())
                && Passed(old(blocks)[i], blocks[i], if old(gcBlock) == i then old(gcChunk)
                    else 0, gcChunk, c.wholeBlock, done)
      ensures i >= 0 && !c.refresh ==> i == c.block
    {
      hide ObjsOk, OwnersOk, GoneOk, FilesOf, WellFormed, ApprovedOk, OneAllocating, RecordsOk, OnlyMoved, Passed;
      SameMoved(blocks, blocks, objs);
      i := PickBlock(c, b);
      done := true;
      if i >= 0 {
        if gcBlock != i {
          gcBlock := i;
          gcChunk := 0;
        }
        done := GarbageCollectBlock(i, c.wholeBlock, b);
      }
    }

    /** Before a chunk is written, some garbage may be collected, in at most two passes. Which block is picked,
        and whether any is, depends on counts and thresholds, and is given by the choices; it may be any
        block that the disqualification test lets through, now or when it was remembered as the dirtiest, or the
        oldest full block, which is collected once in a refresh period without that test. */
    method CheckGarbageCollection(choices: seq<Choice>, ghost b: Busy) returns (i: int, done: bool)
      requires Inv(b) && !b.Dying? && NoneCollecting()
      modifies this
      ensures Inv(b) && NoneCollecting() && OnlyMoved(old(blocks), old(objs), blocks, objs)
      ensures (forall k | 0 <= k < |old(blocks)| :: old(blocks)[k].state == Empty) ==>
          blocks == old(blocks) && objs == old(objs) && allocBlock == old(allocBlock)
      ensures -1 <= i < |blocks| == |old(blocks)|
      ensures |choices| == 1 && i < 0 ==>
          blocks == old(blocks) && !MayCollect(blocks, perBlock, old(approved), choices[0])
      ensures |choices| == 1 && i >= 0 ==>
          old(blocks)[i].state == Full && (done || !HasRoom()) && Passed(old(blocks)[i], blocks[i],
              if old(gcBlock) == i then old(gcChunk) else 0, gcChunk, choices[0].wholeBlock, done)
    {
      hide ObjsOk, OwnersOk, GoneOk, FilesOf, WellFormed, ApprovedOk, OneAllocating, RecordsOk, OnlyMoved, Passed;
      SameMoved(blocks, blocks, objs);
      i, done := -1, true;
      if choices == [] {
        return;
      }
      i, done := CollectOnce(choices[0], b);
      if i >= 0 && |choices| > 1 {
        ghost var bs, os := blocks, objs;
        i, done := CollectOnce(choices[1], b);
        MovedTwice(old(blocks), old(objs), bs, os, blocks, objs);
      }
    }

    /** The same with whatever choices are made. */
    method CollectSome(ghost b: Busy)
      requires Inv(b) && !b.Dying? && NoneCollecting()
      modifies this
      ensures Inv(b) && NoneCollecting() && OnlyMoved(old(blocks), old(objs), blocks, objs)
      ensures (forall k | 0 <= k < |old(blocks)| :: old(blocks)[k].state == Empty) ==>
          blocks == old(blocks) && objs == old(objs) && allocBlock == old(allocBlock)
    {
      var choices: seq<Choice> := *;
      var i, done := CheckGarbageCollection(choices, b);
    }

    /** Write a new copy of chunk c of file f and make it the one in use; the old copy, if any,
        is left for the caller to delete. */
    method PutChunk(f: nat, r: Record, useReserve: bool, ghost b: Busy, ghost e': int)
      returns (ok: bool, prev: Option<Addr>)
      requires Inv(b) && b.Working? && b.f == f && r.Data? && r.obj == f && RecordOk(n, dirs, r) && b.e <= e'
          && End(n, r) <= e'
      modifies this`blocks, this`seqNumber, this`allocBlock, this`finder, this`objs
      ensures Shape() && (forall i | 0 <= i < |blocks| ::
          blocks[i].state == Collecting ==> i < |old(blocks)| && old(blocks)[i].state == Collecting)
      ensures !ok ==> Inv(b) && objs == old(objs) && Files() == old(Files())
      ensures ok ==> ObjsOk(n, dirs, blocks, approved, objs, Working(f, b.t, e')) && GoneOk(blocks, approved, objs, {})
      ensures ok ==> OwnersOk(blocks, objs, if prev.Some? then {prev.value} else {})
      ensures ok && prev.Some? ==>
          Live(blocks, prev.value) && At(blocks, prev.value).obj == f
          && !Refers(objs[f], At(blocks, prev.value), prev.value)
      ensures ok ==> f in old(Files()) && Files() == old(Files())[f := old(Files())[f].(chunks := old(Files())[f].chunks[r.chunk := r])]
      ensures ok ==> f in old(objs) && exists x ::
          Appended(old(blocks), blocks, x, r) && objs == old(objs)[f := WithEntry(old(objs)[f], r.chunk, x)]
      ensures prev.Some? <==> r.chunk in old(objs)[f].entries
      ensures !ok ==> !HasRoom() || (!useReserve && !space.Plenty?)
      ensures old(HasRoom()) && (useReserve || space.Plenty?) ==> ok
    {
      hide ObjsOk, OwnersOk, GoneOk, FilesOf, WellFormed, ApprovedOk, OneAllocating, RecordsOk, RecordOk, Appended,
          Opened, End, WithEntry;
      WorkingIn(n, dirs, blocks, approved, objs, b);
      ghost var bs := blocks;
      prev := if r.chunk in objs[f].entries then Some(objs[f].entries[r.chunk]) else None;
      var x := WriteNew(r, useReserve);
      if x.None? {
        OpenedObjs(n, dirs, bs, blocks, allocBlock, approved, objs, b, {});
        OpenedStates(bs, blocks, allocBlock);
        return false, prev;
      }
      AppendedStates(bs, blocks, x.value, r);
      DataWrittenObjs(n, dirs, bs, blocks, x.value, r, approved, objs, b, Working(f, b.t, e'));
      DataWrittenFiles(n, dirs, bs, blocks, x.value, r, approved, objs, b);
      DataWrittenOwners(bs, blocks, x.value, r, approved, objs);
      if prev.Some? {
        DataReplaced(n, dirs, bs, blocks, x.value, r, approved, objs, b);
      }
      objs := objs[f := WithEntry(objs[f], r.chunk, x.value)];
      return true, prev;
    }

    /** Write one chunk of a file: collect garbage if need be, write the new copy, delete the old one. */
    method WriteChunkDataToObject(f: nat, r: Record, useReserve: bool, ghost b: Busy, ghost e': int) returns (ok: bool)
      requires Inv(b) && b.Working? && b.f == f && NoneCollecting()
      requires r.Data? && r.obj == f && RecordOk(n, dirs, r) && b.e <= e' && End(n, r) <= e'
      modifies this
      ensures NoneCollecting()
      ensures !ok ==> !HasRoom() || (!useReserve && !space.Plenty?)
      ensures !ok ==> Inv(b) && Files() == old(Files())
      ensures ok ==> Inv(Working(f, b.t, e'))
      ensures ok ==> f in old(Files()) && Files() == old(Files())[f := old(Files())[f].(chunks := old(Files())[f].chunks[r.chunk := r])]
    {
      hide ObjsOk, OwnersOk, GoneOk, FilesOf, WellFormed, ApprovedOk, OneAllocating, RecordsOk, RecordOk, End, Refers,
          Deleted;
      CollectSome(b);
      var prev;
      ok, prev := PutChunk(f, r, useReserve, b, e');
      if ok && prev.Some? {
        ghost var bs := blocks;
        assert {} + {prev.value} == {prev.value};
        DeleteChunk(prev.value, Working(f, b.t, e'), {});
        DeletedStates(bs, blocks, prev.value);
      }
    }

    /** Write the header of f, with its present size, and make it the newest; a shrink header marks
        its block. dirty is cleared since nothing is cached. */
    method PutHeader(f: nat, r: Record, ghost b: Busy) returns (ok: bool, prev: Addr)
      requires Inv(b) && b.Working? && b.f == f && r.Header? && r.obj == f && RecordOk(n, dirs, r) && r.parent in dirs
      requires r.size == objs[f].size
      requires r.isShrink ==> Closed(n, objs[f])
      modifies this`blocks, this`seqNumber, this`allocBlock, this`finder, this`objs
      ensures Shape() && (forall i | 0 <= i < |blocks| ::
          blocks[i].state == Collecting ==> i < |old(blocks)| && old(blocks)[i].state == Collecting)
      ensures !ok ==> Inv(b) && objs == old(objs) && Files() == old(Files()) && !HasRoom()
      ensures ok ==> ObjsOk(n, dirs, blocks, approved, objs, b) && GoneOk(blocks, approved, objs, {}) && OwnersOk(blocks, objs, {prev})
      ensures ok ==> Live(blocks, prev) && At(blocks, prev).obj == f && f in objs && !Refers(objs[f], At(blocks, prev), prev)
      ensures ok ==> f in old(Files()) && Files() == old(Files())[f := old(Files())[f].(parent := r.parent, name := r.name, dirty := false)]
      ensures ok ==> Newest(blocks, f, objs[f].hdr) && At(blocks, objs[f].hdr) == r && objs[f].hdr.blk !in approved && objs[f].hdr != prev
      ensures ok ==> blocks[objs[f].hdr.blk].state in {Allocating, Full} && objs[f].size == r.size
    {
      hide ObjsOk, OwnersOk, GoneOk, FilesOf, WellFormed, ApprovedOk, OneAllocating, RecordsOk, RecordOk, Appended,
          Opened, Newest, Refers;
      WorkingIn(n, dirs, blocks, approved, objs, b);
      ghost var bs := blocks;
      var o := objs[f];
      prev := o.hdr;
      var x := WriteNew(r, true);
      if x.None? {
        OpenedObjs(n, dirs, bs, blocks, allocBlock, approved, objs, b, {});
        OpenedStates(bs, blocks, allocBlock);
        return false, prev;
      }
      AppendedStates(bs, blocks, x.value, r);
      var o' := o.(hdr := x.value, dirty := false, parent := r.parent, name := r.name);
      HeaderReplaced(n, dirs, bs, blocks, x.value, r, approved, objs, b, o');
      HeaderWrittenObjs(n, dirs, bs, blocks, x.value, r, approved, objs, b, o');
      HeaderWrittenOwners(n, dirs, bs, blocks, x.value, r, approved, objs, b, o');
      objs := objs[f := o'];
      return true, prev;
    }

    /** The block of f's newest header, a hole marker, is kept while it is needed. */
    method MarkShrink(f: nat, ghost b: Busy, ghost t: int)
      requires Inv(b) && b.Working? && b.f == f && f in objs
      requires On(blocks, objs[f].hdr) && Newest(blocks, f, objs[f].hdr) && IsCut(At(blocks, objs[f].hdr), f)
          && CutSize(At(blocks, objs[f].hdr)) <= b.t
      requires At(blocks, objs[f].hdr).isShrink && objs[f].hdr.blk !in approved
          && blocks[objs[f].hdr.blk].state != Empty
      modifies this`blocks
      ensures Inv(Working(f, t, b.e)) && Files() == old(Files())
      ensures blocks == old(blocks)[objs[f].hdr.blk := old(blocks)[objs[f].hdr.blk].(shrink := true)]
    {
      hide ObjsOk, OwnersOk, GoneOk, FilesOf, WellFormed, ApprovedOk, OneAllocating, RecordsOk, Newest, Flagged;
      var i := objs[f].hdr.blk;
      ghost var bs := blocks;
      blocks := blocks[i := blocks[i].(shrink := true)];
      FlaggedShrink(bs, blocks, i, objs[f].hdr, approved);
      FlaggedObjs(n, dirs, bs, blocks, i, approved, approved, objs, b, DyingSet(b));
      ShapeFlagged(n, dirs, bs, blocks, i, perBlock, seqNumber, approved, approved, allocBlock);
      MarkerObjs(n, dirs, bs, blocks, approved, objs, b, t);
    }

    /** Write a new header for f. Its size is the present one; with isShrink it marks the start of a
        hole there, after which nothing stale beyond can come back: t may be anything. */
    method UpdateObjectHeader(f: nat, isShrink: bool, parent: nat, name: string, ghost b: Busy, ghost t: int)
      returns (ok: bool)
      requires Inv(b) && b.Working? && b.f == f && f in objs && NoneCollecting() && parent in dirs
      requires if isShrink then Closed(n, objs[f]) && objs[f].size <= b.t else t == b.t
      modifies this
      ensures NoneCollecting()
      ensures !ok ==> Inv(b) && Files() == old(Files()) && !HasRoom()
      ensures ok ==> Inv(Working(f, t, b.e))
      ensures ok ==> f in old(Files()) && Files() == old(Files())[f := old(Files())[f].(parent := parent, name := name, dirty := false)]
      ensures ok ==> f in objs && Synced(n, blocks, f, objs[f])
    {
      hide ObjsOk, OwnersOk, GoneOk, FilesOf, WellFormed, ApprovedOk, OneAllocating, RecordsOk, RecordOk, Refers,
          Deleted, Newest, OnlyMoved, Flagged, Synced, Closed;
      ghost var bs0, os0 := blocks, objs;
      CollectSome(b);
      MovedClosed(n, bs0, os0, blocks, objs, f);
      WorkingIn(n, dirs, blocks, approved, objs, b);
      var r := Header(f, FileKind, parent, name, objs[f].size, isShrink, 0);
      HeaderRecordOk(n, dirs, r);
      var prev;
      ok, prev := PutHeader(f, r, b);
      if ok {
        ghost var bs := blocks;
        assert {} + {prev} == {prev};
        HeaderLive(n, dirs, bs, approved, objs, b, f);
        DeleteChunk(prev, b, {});
        DeletedStates(bs, blocks, prev);
        NewestKept(n, bs, blocks, prev, f, objs[f], r);
        if isShrink {
          bs := blocks;
          MarkShrink(f, b, t);
          SyncedFlag(n, bs, blocks, f, objs[f]);
        }
      }
    }

    /** How much of [pos, pos + nLeft) lies in the chunk of pos, and how many bytes to write back:
        at least as much as was there before. */
    method PieceOf(pos: nat, nLeft: nat, size: nat) returns (nToCopy: nat, nToWriteBack: nat)
      requires n > 0 && nLeft > 0
      ensures 0 < nToCopy <= nLeft && pos % n + nToCopy <= n
      ensures nToWriteBack == if pos % n + nToCopy == n then n
                              else Max(Min(n, if (pos / n) * n > size then 0 else size - (pos / n) * n),
                                  pos % n + nToCopy)
    {
      var start := pos % n;
      if start + nLeft < n {
        nToCopy := nLeft;
        var chunkStart := (pos / n) * n;
        var nBytesRead := if chunkStart > size then 0 else size - chunkStart;
        if nBytesRead > n {
          nBytesRead := n;
        }
        nToWriteBack := if nBytesRead > start + nToCopy then nBytesRead else start + nToCopy;
      } else {
        nToCopy := n - start;
        nToWriteBack := n;
      }
    }

    /** Write what of [pos, pos + nLeft) lies in the chunk of pos. */
    method WritePiece(f: nat, pos: nat, nLeft: nat, data: nat -> seq<Byte>, ghost b: Busy)
      returns (ok: bool, nToCopy: nat, ghost r: Record)
      requires Inv(b) && b.Working? && b.f == f && f in objs && NoneCollecting()
      requires pos <= b.t && b.e <= Max(objs[f].size, pos) && 0 < nLeft && pos + nLeft < 0x8000_0000
      modifies this
      ensures NoneCollecting() && f in objs && objs[f].size == old(objs[f].size)
      ensures !ok ==> Inv(b) && Files() == old(Files()) && (!HasRoom() || !space.Plenty?)
      ensures 0 < nToCopy <= nLeft
      ensures ok ==> Inv(Working(f, Max(b.t, pos + nToCopy), Max(objs[f].size, pos + nToCopy)))
      ensures f in old(Files()) && f in Files() && n > 0
      ensures ok ==> && r.Data? && IsPiece(n, pos, nToCopy, r.chunk) && r.payload == data(r.chunk)
                     && Files() == old(Files())[f := old(Files())[f].(chunks := old(Files())[f].chunks[r.chunk := r])]
    {
      hide ObjsOk, OwnersOk, GoneOk, WellFormed, ApprovedOk, OneAllocating, RecordsOk, RecordOk, End, OnlyMoved,
          FilesOf, Base;
      WorkingIn(n, dirs, blocks, approved, objs, b);
      SizeIs(blocks, objs, f);
      var size := objs[f].size;
      var nToWriteBack;
      nToCopy, nToWriteBack := PieceOf(pos, nLeft, size);
      var c := pos / n + 1;
      r := Data(f, c, nToWriteBack, data(c));
      PieceOk(n, dirs, r, pos, nToCopy, size);
      ok := WriteChunkDataToObject(f, Data(f, c, nToWriteBack, data(c)), false, b, Max(size, pos + nToCopy));
      ghost var w := if ok then Working(f, b.t, Max(size, pos + nToCopy)) else b;
      WorkingIn(n, dirs, blocks, approved, objs, w);
      SizeIs(blocks, objs, f);
      if ok {
        GrowOver(n, dirs, blocks, approved, objs, w, c, pos + nToCopy);
      }
    }

    /** Write nBytes at offset of file f, chunk by chunk; data gives what each chunk reached holds
        afterwards. Stops early when there is no room. */
    method DoWriteDataToFile(f: nat, offset: nat, nBytes: nat, data: nat -> seq<Byte>, ghost b: Busy)
      returns (nDone: nat)
      requires Inv(b) && b.Working? && b.f == f && f in objs && NoneCollecting()
      requires offset <= b.t && b.e <= Max(objs[f].size, offset) && offset + nBytes < 0x8000_0000
      modifies this
      ensures NoneCollecting() && nDone <= nBytes && f in objs && objs[f].size == Max(old(objs[f].size), offset + nDone)
          && objs[f].dirty
      ensures nDone < nBytes ==> !HasRoom() || !space.Plenty?
      ensures Inv(Working(f, Max(b.t, offset + nDone), objs[f].size))
      ensures f in old(Files()) && f in Files() && Files() == old(Files())[f := Files()[f]]
      ensures Wrote(n, old(Files())[f].chunks, Files()[f].chunks, offset, offset + nDone, data)
      ensures Files()[f] == old(Files())[f].(chunks := Files()[f].chunks, size := objs[f].size, dirty := true)
    {
      hide ObjsOk, OwnersOk, GoneOk, WellFormed, ApprovedOk, OneAllocating, RecordsOk, RecordOk, End, OnlyMoved,
          FilesOf, Wrote, Base, IsPiece;
      WorkingIn(n, dirs, blocks, approved, objs, b);
      SizeIs(blocks, objs, f);
      Reshape(n, dirs, blocks, approved, objs, b, objs[f], b.t, Max(objs[f].size, offset));
      assert objs[f := objs[f]] == objs;
      var size := objs[f].size;
      ghost var m := Files()[f].chunks;
      WroteNothing(n, m, offset, data);
      nDone := 0;
      var ok := true;
      while nDone < nBytes && ok
        invariant nDone <= nBytes && NoneCollecting() && f in objs && objs[f].size == size
        invariant !ok ==> !HasRoom() || !space.Plenty?
        invariant Inv(Working(f, Max(b.t, offset + nDone), Max(size, offset + nDone)))
        invariant f in Files() && Files() == old(Files())[f := old(Files())[f].(chunks := Files()[f].chunks)]
        invariant Wrote(n, m, Files()[f].chunks, offset, offset + nDone, data)
        decreases nBytes - nDone, ok
      {
        ghost var m1 := Files()[f].chunks;
        var nToCopy;
        ghost var r;
        ok, nToCopy, r := WritePiece(f, offset + nDone, nBytes - nDone, data,
            Working(f, Max(b.t, offset + nDone), Max(size, offset + nDone)));
        if ok {
          PieceWrote(n, m, m1, offset, offset + nDone, nToCopy, r, data);
          nDone := nDone + nToCopy;
        }
      }
      if offset + nDone > size {
        size := offset + nDone;
      }
      Resize(f, size, true, Working(f, Max(b.t, offset + nDone), size), Max(b.t, offset + nDone), size);
    }

    /** Set the size and the dirty mark of f in RAM. */
    method Resize(f: nat, size: nat, dirty: bool, ghost b: Busy, ghost t: int, ghost e: int)
      requires Inv(b) && b.Working? && b.f == f && f in objs && size < 0x8000_0000 && t <= b.t && b.e <= e
      modifies this`objs
      ensures Inv(Working(f, t, e)) && objs == old(objs)[f := old(objs)[f].(size := size, dirty := dirty)]
      ensures f in old(Files()) && Files() == old(Files())[f := old(Files())[f].(size := size, dirty := dirty)]
    {
      hide ObjsOk, OwnersOk, GoneOk, WellFormed, ApprovedOk, OneAllocating, RecordsOk, FilesOf;
      var o := objs[f].(size := size, dirty := dirty);
      Reshape(n, dirs, blocks, approved, objs, b, o, t, e);
      ReshapeOwners(blocks, approved, objs, f, o);
      objs := objs[f := o];
    }

    /** Drop chunk c from f's map and delete it. */
    method DropChunk(f: nat, c: nat, ghost b: Busy)
      requires Inv(b) && b.Working? && b.f == f && f in objs && NoneCollecting() && b.t <= Base(n, c)
      modifies this
      ensures Inv(b) && NoneCollecting() && f in objs && objs[f].entries.Keys == old(objs[f].entries.Keys) - {c}
      ensures f in old(Files()) && Files()
          == old(Files())[f := old(Files())[f].(chunks := old(Files())[f].chunks - {c})]
    {
      hide ObjsOk, OwnersOk, GoneOk, WellFormed, ApprovedOk, OneAllocating, RecordsOk, FilesOf, Deleted, Refers;
      if c in objs[f].entries {
        var a := objs[f].entries[c];
        DroppedObjs(n, dirs, blocks, approved, objs, b, c);
        DroppedOwners(n, dirs, blocks, approved, objs, b, c);
        DroppedFiles(blocks, objs, f, c);
        objs := objs[f := WithoutEntry(objs[f], c)];
        ghost var bs := blocks;
        assert {} + {a} == {a};
        DeleteChunk(a, b, {});
        DeletedStates(bs, blocks, a);
      } else {
        ChunksBelow(n, dirs, blocks, approved, objs, b);
        assert Files()[f].chunks - {c} == Files()[f].chunks;
      }
    }

    /** Drop the chunks at or beyond newSize, last first. */
    method PruneResizedChunks(f: nat, newSize: nat, ghost b: Busy)
      requires Inv(b) && b.Working? && b.f == f && f in objs && NoneCollecting()
      requires b.t <= newSize && b.e <= objs[f].size
      modifies this
      ensures Inv(b) && NoneCollecting() && f in objs
      ensures f in old(Files()) && Files()
          == old(Files())[f := old(Files())[f].(chunks := CutChunks(n, old(Files())[f].chunks, newSize))]
    {
      hide ObjsOk, OwnersOk, GoneOk, WellFormed, ApprovedOk, OneAllocating, RecordsOk, FilesOf, RecordOk, Base, KeepTo,
          CutChunks, IsData, FirstBeyond, LastChunk;
      var oldSize := objs[f].size;
      var lastDel := LastChunk(n, oldSize);
      var startDel := FirstBeyond(n, newSize);
      ChunksBelow(n, dirs, blocks, approved, objs, b);
      ghost var m := Files()[f].chunks;
      DelRange(n, m, oldSize, newSize, lastDel, startDel);
      var i := lastDel;
      while i >= startDel
        invariant Inv(b) && NoneCollecting() && f in objs
        invariant f in Files() && Files() == old(Files())[f := old(Files())[f].(chunks := Files()[f].chunks)]
        invariant Files()[f].chunks == KeepTo(m, Max(i, startDel - 1))
      {
        StartDel(n, newSize, startDel, i);
        KeepLess(m, i);
        DropChunk(f, i, b);
        i := i - 1;
      }
    }

    /** Cut f down to newSize: drop the chunks beyond, and write the last partial chunk again,
        padded with zeros. */
    method ResizeDown(f: nat, newSize: nat, tail: seq<Byte>, ghost b: Busy) returns (ok: bool)
      requires Inv(b) && b.Working? && b.f == f && f in objs && NoneCollecting()
      requires newSize <= b.t && newSize <= objs[f].size && b.e <= objs[f].size
      modifies this
      ensures NoneCollecting()
      ensures ok ==> Inv(Working(f, newSize, newSize)) && f in objs && n > 0
      ensures ok ==> f in old(Files()) && f in Files() && Shortened(n, old(Files())[f].chunks, Files()[f].chunks, newSize, tail)
      ensures ok ==> Files() == old(Files())[f := old(Files())[f].(chunks := Files()[f].chunks, size := newSize)]
      ensures !ok ==> Inv(Working(f, newSize, old(objs[f].size))) && OnlyFile(old(Files()), Files(), f) && !HasRoom()
    {
      hide ObjsOk, OwnersOk, GoneOk, WellFormed, ApprovedOk, OneAllocating, RecordsOk, FilesOf, RecordOk, Base,
          CutChunks, End, IsData, Shortened;
      WorkingIn(n, dirs, blocks, approved, objs, b);
      SizeIs(blocks, objs, f);
      ghost var fs, e := Files()[f], objs[f].size;
      ghost var w := Working(f, newSize, e);
      Resize(f, objs[f].size, objs[f].dirty, b, newSize, e);
      SizeIs(blocks, objs, f);
      PruneResizedChunks(f, newSize, w);
      ghost var cut := Files()[f].chunks;
      ok := true;
      if newSize % n != 0 {
        var last := newSize / n + 1;
        TailOk(n, dirs, f, newSize, tail);
        SameFilesOnly(Files(), f);
        ok := WriteChunkDataToObject(f, Data(f, last, newSize % n, tail), true, w, e);
      }
      if ok {
        WorkingIn(n, dirs, blocks, approved, objs, w);
        SizeIs(blocks, objs, f);
        ChunksBelow(n, dirs, blocks, approved, objs, w);
        CutWritten(n, dirs, f, fs.chunks, cut, Files()[f].chunks, newSize, tail);
        Tighten(n, dirs, blocks, approved, objs, w, newSize);
        Resize(f, newSize, objs[f].dirty, Working(f, newSize, newSize), newSize, newSize);
      }
    }

    /** f is about to grow to newSize past its end. A small hole is filled with zeros; otherwise, or
        when that fails, a header marks where the hole starts. */
    method HandleHole(f: nat, newSize: nat, fill: nat -> seq<Byte>, tail: seq<Byte>, ghost b: Busy)
      returns (ok: bool, ghost w: Busy)
      requires Inv(b) && b.Working? && b.f == f && f in objs && NoneCollecting()
      requires b.t == objs[f].size && b.e == objs[f].size && newSize < 0x8000_0000
      modifies this
      ensures NoneCollecting()
      ensures ok ==> f in objs && old(objs[f].size) <= objs[f].size <= Max(old(objs[f].size), newSize)
      ensures ok ==> Inv(Working(f, Max(newSize, objs[f].size), objs[f].size))
      ensures ok ==> f in old(Files()) && f in Files() && Files() == old(Files())[f := Files()[f]]
      ensures ok ==> Files()[f] == old(Files())[f].(chunks := Files()[f].chunks, size := objs[f].size,
          dirty := objs[f].dirty)
      ensures ok ==> Padded(n, old(Files())[f].chunks, Files()[f].chunks, old(objs[f].size), newSize, fill, tail)
      ensures !ok ==> w.Working? && w.f == f && Inv(w) && OnlyFile(old(Files()), Files(), f) && !HasRoom()
    {
      hide ObjsOk, OwnersOk, GoneOk, WellFormed, ApprovedOk, OneAllocating, RecordsOk, FilesOf, RecordOk, Wrote,
          Shortened, Synced, Padded, IsData;
      w := b;
      WorkingIn(n, dirs, blocks, approved, objs, b);
      SizeIs(blocks, objs, f);
      ChunksBelow(n, dirs, blocks, approved, objs, b);
      ghost var fs := Files()[f];
      PaddedNothing(n, fs.chunks, objs[f].size, newSize, fill, tail);
      var oldSize := objs[f].size;
      if newSize <= oldSize {
        ok := true;
        return;
      }
      var space: bool := *;
      var pos := oldSize;
      if newSize - oldSize < 4 * n && space {
        var smallIncreaseOk := true;
        while pos < newSize && smallIncreaseOk
          invariant oldSize <= pos <= newSize && NoneCollecting() && f in objs && oldSize <= objs[f].size <= newSize
          invariant smallIncreaseOk ==> objs[f].size == pos
          invariant Inv(Working(f, objs[f].size, objs[f].size))
          invariant f in Files() && Files() == old(Files())[f := Files()[f]]
          invariant Files()[f] == fs.(chunks := Files()[f].chunks, size := objs[f].size, dirty := objs[f].dirty)
          invariant Padded(n, fs.chunks, Files()[f].chunks, oldSize, newSize, fill, tail)
          decreases newSize - pos, smallIncreaseOk
        {
          var thisWrite := if newSize - pos > n then n else newSize - pos;
          ghost var m1 := Files()[f].chunks;
          var written := DoWriteDataToFile(f, pos, thisWrite, fill, Working(f, objs[f].size, objs[f].size));
          PaddedMore(n, fs.chunks, m1, Files()[f].chunks, oldSize, pos, pos + written, newSize, fill, tail);
          if written == thisWrite {
            pos := pos + thisWrite;
          } else {
            smallIncreaseOk := false;
          }
        }
        if smallIncreaseOk {
          ok := true;
          return;
        }
        ghost var m1 := Files()[f].chunks;
        w := Working(f, oldSize, objs[f].size);
        ok := ResizeDown(f, oldSize, tail, Working(f, objs[f].size, objs[f].size));
        if !ok {
          return;
        }
        PaddedUndone(n, fs.chunks, m1, Files()[f].chunks, oldSize, newSize, fill, tail);
        SizeIs(blocks, objs, f);
        w := Working(f, oldSize, oldSize);
      }
      ClosedAt(n, dirs, blocks, approved, objs, w);
      WorkingIn(n, dirs, blocks, approved, objs, w);
      SizeIs(blocks, objs, f);
      SameFilesOnly(Files(), f);
      ok := UpdateObjectHeader(f, true, objs[f].parent, objs[f].name, w, newSize);
      if ok {
        SizeIs(blocks, objs, f);
      }
    }

    method Begin(f: nat) returns (ghost b: Busy)
      requires Inv(Idle) && f in objs
      ensures Inv(b) && b == Working(f, objs[f].size, objs[f].size) && f in Files() && Files()[f].size == objs[f].size
          && objs[f].parent in dirs
    {
      hide OwnersOk, GoneOk, WellFormed, ApprovedOk, OneAllocating, RecordsOk, ObjsOk;
      BeginWork(n, dirs, blocks, approved, objs, f);
      b := Working(f, objs[f].size, objs[f].size);
      WorkingIn(n, dirs, blocks, approved, objs, b);
    }

    /** Write nBytes at offset, making a hole first when offset lies past the end of file. */
    method WriteDataToFile(f: nat, offset: nat, nBytes: nat, data: nat -> seq<Byte>, fill: nat -> seq<Byte>,
            tail: seq<Byte>) returns (ok: bool, nDone: nat, ghost mid: map<nat, Record>, ghost w: Busy)
      requires Inv(Idle) && NoneCollecting() && f in objs && offset + nBytes < 0x8000_0000
      modifies this
      ensures NoneCollecting()
      ensures ok ==> Inv(Idle) && nDone <= nBytes && f in objs && objs[f].size == Max(old(objs[f].size), offset + nDone)
      ensures ok ==> f in old(Files()) && f in Files() && Files() == old(Files())[f := Files()[f]]
      ensures ok ==> Files()[f] == old(Files())[f].(chunks := Files()[f].chunks, size := objs[f].size, dirty := true)
      ensures ok ==> Padded(n, old(Files())[f].chunks, mid, old(objs[f].size), offset, fill, tail)
      ensures ok ==> Wrote(n, mid, Files()[f].chunks, offset, offset + nDone, data)
      ensures ok && nDone < nBytes ==> !HasRoom() || !space.Plenty?
      ensures !ok ==> w.Working? && w.f == f && Inv(w) && OnlyFile(old(Files()), Files(), f) && !HasRoom()
    {
      hide ObjsOk, OwnersOk, GoneOk, WellFormed, ApprovedOk, OneAllocating, RecordsOk, FilesOf, RecordOk, Wrote, Synced,
          Padded;
      ghost var b := Begin(f);
      nDone := 0;
      mid := Files()[f].chunks;
      ok, w := HandleHole(f, offset, fill, tail, b);
      if ok {
        mid := Files()[f].chunks;
        b := Working(f, Max(offset, objs[f].size), objs[f].size);
        nDone := DoWriteDataToFile(f, offset, nBytes, data, b);
        FinishWork(n, dirs, blocks, approved, objs, Working(f, Max(b.t, offset + nDone), objs[f].size));
      }
    }

    /** Set the size of f: cut it down or mark a hole, and record the new size in a header. */
    method ResizeFile(f: nat, newSize: nat, fill: nat -> seq<Byte>, tail: seq<Byte>)
      returns (ok: bool, ghost w: Busy)
      requires Inv(Idle) && NoneCollecting() && f in objs && newSize < 0x8000_0000
      modifies this
      ensures NoneCollecting()
      ensures ok ==> Inv(Idle) && f in objs && objs[f].size == newSize
      ensures ok && old(objs[f].size) != newSize ==> !objs[f].dirty
      ensures ok && newSize == 0 ==> objs[f].entries == map[]
      ensures ok ==> f in old(Files()) && f in Files() && Files() == old(Files())[f := Files()[f]]
      ensures ok ==> Files()[f] == old(Files())[f].(chunks := Files()[f].chunks, size := newSize,
          dirty := objs[f].dirty)
      ensures ok && newSize == old(objs[f].size) ==> Files() == old(Files())
      ensures ok && newSize > old(objs[f].size) ==>
          Padded(n, old(Files())[f].chunks, Files()[f].chunks, old(objs[f].size), newSize, fill, tail)
      ensures ok && newSize < old(objs[f].size) ==>
          n > 0 && Shortened(n, old(Files())[f].chunks, Files()[f].chunks, newSize, tail)
      ensures !ok ==> w.Working? && w.f == f && Inv(w) && OnlyFile(old(Files()), Files(), f) && !HasRoom()
    {
      hide ObjsOk, OwnersOk, GoneOk, WellFormed, ApprovedOk, OneAllocating, RecordsOk, FilesOf, RecordOk, Synced,
          Shortened, OnlyMoved, Padded, OnlyFile;
      ghost var bs, os := blocks, objs;
      CollectSome(Idle);
      MovedClosed(n, bs, os, blocks, objs, f);
      ghost var b := Begin(f);
      if newSize == objs[f].size {
        if newSize == 0 {
          EmptyFile(n, dirs, blocks, approved, objs, b);
        }
        SizeIs(blocks, objs, f);
        ok, w := true, b;
        return;
      }
      ghost var fs := Files();
      if newSize > objs[f].size {
        ok, w := HandleHole(f, newSize, fill, tail, b);
        if ok {
          Resize(f, newSize, objs[f].dirty, Working(f, Max(newSize, objs[f].size), objs[f].size), newSize, newSize);
        }
      } else {
        w := Working(f, newSize, objs[f].size);
        ok := ResizeDown(f, newSize, tail, b);
      }
      if ok {
        b := Working(f, newSize, newSize);
        w := b;
        WorkingIn(n, dirs, blocks, approved, objs, b);
        SizeIs(blocks, objs, f);
        FilesOnly(fs, Files(), f);
        ok := UpdateObjectHeader(f, false, objs[f].parent, objs[f].name, b, newSize);
        if ok {
          SizeIs(blocks, objs, f);
          if newSize == 0 {
            EmptyFile(n, dirs, blocks, approved, objs, b);
          }
          FinishWork(n, dirs, blocks, approved, objs, b);
        }
      }
    }

    /** Make the newest header of f record its size. */
    method FlushFile(f: nat) returns (ok: bool)
      requires Inv(Idle) && NoneCollecting() && f in objs
      modifies this
      ensures NoneCollecting() && Inv(Idle)
      ensures ok ==> f in objs && !objs[f].dirty && f in old(Files()) && Files() == old(Files())[f := old(Files())[f].(dirty := false)]
      ensures !ok ==> old(objs[f].dirty) && Files() == old(Files()) && !HasRoom()
    {
      hide ObjsOk, OwnersOk, GoneOk, WellFormed, ApprovedOk, OneAllocating, RecordsOk, FilesOf, RecordOk, Synced;
      ghost var b := Begin(f);
      SizeIs(blocks, objs, f);
      ok := true;
      if objs[f].dirty {
        ok := UpdateObjectHeader(f, false, objs[f].parent, objs[f].name, b, b.t);
        WorkingIn(n, dirs, blocks, approved, objs, b);
        SizeIs(blocks, objs, f);
        FinishWork(n, dirs, blocks, approved, objs, b);
      }
    }

    /** The file of this name in this directory, if there is one. */
    method FindObjectByName(parent: nat, name: string) returns (found: Option<nat>)
      ensures found.Some? ==> found.value in objs && Named(objs[found.value], parent, name)
      ensures found.None? ==> forall g | g in objs :: !Named(objs[g], parent, name)
    {
      var left := objs.Keys;
      while left != {}
        invariant left <= objs.Keys && forall g | g in objs && g !in left :: !Named(objs[g], parent, name)
        decreases |left|
      {
        var g :| g in left;
        if Named(objs[g], parent, name) {
          return Some(g);
        }
        left := left - {g};
      }
      return None;
    }

    /** Give f a new name and directory. It is refused, and nothing changes, if there is a file of that name
        already, unless it is forced. */
    method ChangeObjectName(f: nat, parent: nat, name: string, force: bool) returns (ok: bool, ghost w: Busy)
      requires Inv(Idle) && NoneCollecting() && f in objs && parent in dirs
      modifies this
      ensures NoneCollecting()
      ensures ok ==> Inv(Idle) && f in objs && !objs[f].dirty
      ensures ok ==> f in old(Files()) && Files() == old(Files())[f := old(Files())[f].(parent := parent, name := name, dirty := false)]
      ensures !ok ==> w.Working? && w.f == f && Inv(w) && Files() == old(Files())
      ensures !ok ==> !HasRoom() || (!force && exists g :: g in old(objs) && Named(old(objs)[g], parent, name))
      ensures !force && (exists g :: g in old(objs) && Named(old(objs)[g], parent, name)) ==>
          !ok && Inv(Idle) && objs == old(objs) && blocks == old(blocks)
    {
      hide ObjsOk, OwnersOk, GoneOk, WellFormed, ApprovedOk, OneAllocating, RecordsOk, FilesOf, RecordOk, Synced, Named;
      var existing := FindObjectByName(parent, name);
      ghost var b := Begin(f);
      w := b;
      ok := false;
      if force || existing.None? {
        ok := UpdateObjectHeader(f, false, parent, name, b, b.t);
        if ok {
          SizeIs(blocks, objs, f);
          FinishWork(n, dirs, blocks, approved, objs, b);
        }
      }
    }

    /** Create file f in a directory. */
    method MknodFile(f: nat, parent: nat, name: string) returns (ok: bool)
      requires Inv(Idle) && NoneCollecting() && f !in objs && f > DELETED && f !in dirs && parent in dirs
      modifies this
      ensures NoneCollecting() && Inv(Idle)
      ensures ok ==> Files() == old(Files())[f := FileState(0, map[], parent, name, false)] && f in objs && !objs[f].dirty
      ensures !ok ==> Files() == old(Files())
      ensures !ok ==> !HasRoom() || !space.Plenty?
      ensures ok ==> objs[f] == Obj(objs[f].hdr, map[], 0, false, parent, name)
      ensures old(HasRoom()) && space.Plenty? && (forall k | 0 <= k < |old(blocks)| :: old(blocks)[k].state == Empty)
              ==> ok && Appended(old(blocks), blocks, objs[f].hdr, Header(f, FileKind, parent, name, 0, false, 0))
    {
      hide ObjsOk, OwnersOk, GoneOk, WellFormed, ApprovedOk, OneAllocating, RecordsOk, FilesOf, RecordOk, Synced,
          Appended, Opened, OnlyMoved;
      ghost var bs0, os0 := blocks, objs;
      CollectSome(Idle);
      MovedKeys(bs0, os0, blocks, objs);
      var r := Header(f, FileKind, parent, name, 0, false, 0);
      HeaderRecordOk(n, dirs, r);
      ghost var bs := blocks;
      var x := WriteNew(r, false);
      if x.None? {
        OpenedObjs(n, dirs, bs, blocks, allocBlock, approved, objs, Idle, {});
        OpenedStates(bs, blocks, allocBlock);
        return false;
      }
      AppendedStates(bs, blocks, x.value, r);
      var o := Obj(x.value, map[], 0, false, parent, name);
      BornObjs(n, dirs, bs, blocks, x.value, r, approved, objs);
      BornOwners(bs, blocks, x.value, r, approved, objs, o);
      EntriesOn(n, dirs, bs, approved, objs, Idle);
      AppendedFiles(bs, blocks, x.value, r, objs);
      BornFiles(blocks, objs, f, o);
      objs := objs[f := o];
      return true;
    }

    /** Nothing of f is referred to any more; x is its deletion header and prev its last other header.
        prev goes, the block of x is kept for its shrink flag, and x goes too. */
    method Bury(f: nat, prev: Addr, x: Addr, r: Record)
      requires Shape() && f !in objs && NoneCollecting() && r.Header? && r.obj == f && Gone(r) && r.isShrink
      requires ObjsOk(n, dirs, blocks, approved, objs, Dying(f)) && OwnersOk(blocks, objs, {x} + {prev})
          && GoneOk(blocks, approved, objs, {f})
      requires Live(blocks, prev) && Live(blocks, x) && At(blocks, prev).obj == f && At(blocks, x) == r && prev != x
          && Newest(blocks, f, x)
      requires x.blk !in approved && blocks[x.blk].state in {Allocating, Full}
      modifies `blocks, `approved, `gcBlock
      ensures Inv(Idle) && NoneCollecting() && Files() == old(Files())
    {
      hide ObjsOk, OwnersOk, GoneOk, WellFormed, ApprovedOk, OneAllocating, RecordsOk, FilesOf, RecordOk, Newest,
          Deleted, Flagged;
      ghost var bs := blocks;
      DeleteChunk(prev, Dying(f), {x});
      DeletedStates(bs, blocks, prev);
      DyingKept(bs, blocks, prev, x, f, r);
      bs := blocks;
      blocks := blocks[x.blk := blocks[x.blk].(shrink := true)];
      FlaggedShrink(bs, blocks, x.blk, x, approved);
      FlaggedDying(n, dirs, bs, blocks, x.blk, approved, objs, f, {x});
      FlaggedFiles(bs, blocks, x.blk, approved, objs);
      ShapeFlagged(n, dirs, bs, blocks, x.blk, perBlock, seqNumber, approved, approved, allocBlock);
      FlagKept(bs, blocks, x, f, r);
      BuriedAll(blocks, approved, objs, f, x);
      bs := blocks;
      assert {} + {x} == {x};
      DyingDone(n, dirs, blocks, approved, objs, f);
      DeleteChunk(x, Idle, {});
      DeletedStates(bs, blocks, x);
    }

    /** Record under the deleted directory that f, which is empty, is gone, and forget it. */
    method RecordDeletion(f: nat) returns (ok: bool)
      requires Inv(Idle) && NoneCollecting() && f in objs && objs[f].entries == map[]
      modifies this
      ensures NoneCollecting()
      ensures ok ==> Inv(Idle) && f !in objs && Files() == old(Files()) - {f}
      ensures !ok ==> Inv(Idle) && Files() == old(Files()) && !HasRoom()
    {
      hide ObjsOk, OwnersOk, GoneOk, WellFormed, ApprovedOk, OneAllocating, RecordsOk, FilesOf, RecordOk, Synced,
          Appended, Opened, Newest, Deleted, Flagged;
      ghost var w := Begin(f);
      WorkingIn(n, dirs, blocks, approved, objs, w);
      var r := Header(f, FileKind, DELETED, "deleted", 0, true, 0);
      DeletionRecordOk(n, dirs, r);
      ghost var bs := blocks;
      var prev := objs[f].hdr;
      var x := WriteNew(r, true);
      if x.None? {
        OpenedObjs(n, dirs, bs, blocks, allocBlock, approved, objs, Idle, {});
        OpenedStates(bs, blocks, allocBlock);
        return false;
      }
      AppendedStates(bs, blocks, x.value, r);
      DyingObjs(n, dirs, bs, blocks, x.value, r, approved, objs, f);
      DyingOwners(n, dirs, bs, blocks, x.value, r, approved, objs, f);
      DyingGone(n, dirs, bs, blocks, x.value, r, approved, objs, f);
      EntriesOn(n, dirs, bs, approved, objs, Idle);
      AppendedFiles(bs, blocks, x.value, r, objs);
      ForgottenFiles(blocks, objs, f);
      objs := objs - {f};
      Bury(f, prev, x.value, r);
      return true;
    }

    /** Delete f: cut it to nothing, record that it is gone, and forget it. */
    method DeleteFile(f: nat) returns (ok: bool, ghost w: Busy)
      requires Inv(Idle) && NoneCollecting() && f in objs
      modifies this
      ensures NoneCollecting()
      ensures ok ==> Inv(Idle) && f !in objs && Files() == old(Files()) - {f}
      ensures !ok ==>
          (w == Idle || (w.Working? && w.f == f)) && Inv(w) && OnlyFile(old(Files()), Files(), f) && !HasRoom()
    {
      hide ObjsOk, OwnersOk, GoneOk, WellFormed, ApprovedOk, OneAllocating, RecordsOk, FilesOf, RecordOk, Synced,
          OnlyMoved, Padded, Shortened;
      ok, w := ResizeFile(f, 0, c => [], []);
      if ok {
        ghost var bs, os := blocks, objs;
        CollectSome(Idle);
        MovedClosed(n, bs, os, blocks, objs, f);
        assert objs[f].entries.Keys == {};
        w := Idle;
        ok := RecordDeletion(f);
      }
    }
  }
}
