/** NAND as an array of blocks of write-once chunks, and the invariant that ties the
    records on it to the objects in RAM. */
module Flash {
  import opened Records

  datatype BlockState = Empty | Allocating | Full | Collecting

  /** pages is the written prefix of the block, live the pages still in use (the chunk bitmap),
      shrink the flag hasShrinkHeader. */
  datatype Block = Block(state: BlockState, seqNo: nat, pages: seq<Record>, live: set<nat>, shrink: bool)

  /** A file in RAM: its newest header, its chunk map and its size. */
  datatype Obj = Obj(hdr: Addr, entries: map<nat, Addr>, size: nat, dirty: bool, parent: nat, name: string)

  predicate On(bs: seq<Block>, a: Addr) {
    a.blk < |bs| && a.page < |bs[a.blk].pages|
  }

  function At(bs: seq<Block>, a: Addr): Record
    requires On(bs, a)
  {
    bs[a.blk].pages[a.page]
  }

  predicate Live(bs: seq<Block>, a: Addr) {
    On(bs, a) && a.page in bs[a.blk].live
  }

  /** Record a was written before record b. */
  predicate Before(bs: seq<Block>, a: Addr, b: Addr)
    requires On(bs, a) && On(bs, b)
  {
    bs[a.blk].seqNo < bs[b.blk].seqNo || (a.blk == b.blk && a.page < b.page)
  }

  predicate HasShrinkHeader(pages: seq<Record>) {
    exists p :: 0 <= p < |pages| && pages[p].Header? && pages[p].isShrink
  }

  ghost predicate WellFormed(bs: seq<Block>, perBlock: nat, seqNumber: nat) {
    && (forall i | 0 <= i < |bs| ::
          && |bs[i].pages| <= perBlock
          && (forall p | p in bs[i].live :: p < |bs[i].pages|)
          && (bs[i].state == Empty ==> bs[i].pages == [] && !bs[i].shrink)
          && (bs[i].shrink ==> HasShrinkHeader(bs[i].pages))
          && (bs[i].state != Empty ==> 0 < bs[i].seqNo <= seqNumber)
          && (bs[i].state == Allocating ==> bs[i].seqNo == seqNumber && |bs[i].pages| < perBlock))
    && (forall i, j | 0 <= i < j < |bs| && bs[i].state != Empty && bs[j].state != Empty :: bs[i].seqNo != bs[j].seqNo)
  }

  // ----- one file -----

  /** Chunk c of file f is held at a: the newest copy, not cut by any later header. */
  ghost predicate EntryOk(n: nat, bs: seq<Block>, f: nat, c: nat, a: Addr, e: int) {
    && Live(bs, a) && IsData(At(bs, a), f, c) && End(n, At(bs, a)) <= e
    && (forall b | On(bs, b) && IsData(At(bs, b), f, c) && b != a :: Before(bs, b, a))
    && (forall h | On(bs, h) && IsCut(At(bs, h), f) && Before(bs, a, h) :: CutSize(At(bs, h)) > Base(n, c))
  }

  /** If h goes from flash then so does r: they share a block, or the block of h is still kept
      for its shrink header. */
  predicate Guarded(bs: seq<Block>, approved: set<nat>, r: Addr, h: Addr)
    requires On(bs, r) && On(bs, h)
  {
    h.blk == r.blk || (bs[h.blk].shrink && h.blk !in approved)
  }

  /** The stale record b of chunk c is cut by a later header that outlives it. */
  ghost predicate Covered(n: nat, bs: seq<Block>, approved: set<nat>, f: nat, c: nat, b: Addr)
    requires On(bs, b)
  {
    exists h :: On(bs, h) && IsCut(At(bs, h), f) && Before(bs, b, h) && CutSize(At(bs, h)) <= Base(n, c)
                && Guarded(bs, approved, b, h)
  }

  ghost predicate HeaderOk(bs: seq<Block>, f: nat, a: Addr, o: Obj) {
    && Live(bs, a) && IsHeader(At(bs, a), f) && !Gone(At(bs, a))
    && At(bs, a).name == o.name && At(bs, a).parent == o.parent
    && (forall b | On(bs, b) && IsHeader(At(bs, b), f) && b != a :: Before(bs, b, a))
  }

  /** File f is held by o: entries are right and end at or before e; and no stale record of a
      missing chunk that starts below t can come back. */
  ghost predicate FileOk(n: nat, bs: seq<Block>, approved: set<nat>, f: nat, o: Obj, t: int, e: int) {
    && HeaderOk(bs, f, o.hdr, o)
    && (forall c | c in o.entries :: EntryOk(n, bs, f, c, o.entries[c], e))
    && (forall b | On(bs, b) && At(bs, b).Data? && At(bs, b).obj == f && At(bs, b).chunk !in o.entries
                   && Base(n, At(bs, b).chunk) < t :: Covered(n, bs, approved, f, At(bs, b).chunk, b))
  }

  /** The newest header of f records its size, and nothing written after it goes beyond. */
  ghost predicate Synced(n: nat, bs: seq<Block>, f: nat, o: Obj) {
    && On(bs, o.hdr) && IsHeader(At(bs, o.hdr), f) && At(bs, o.hdr).size == o.size
    && (forall b | On(bs, b) && At(bs, b).Data? && At(bs, b).obj == f && Before(bs, o.hdr, b) ::
        End(n, At(bs, b)) <= o.size)
  }

  ghost predicate RestOk(n: nat, bs: seq<Block>, approved: set<nat>, f: nat, o: Obj) {
    FileOk(n, bs, approved, f, o, o.size, o.size) && (!o.dirty ==> Synced(n, bs, f, o))
  }

  // ----- the whole device -----

  predicate Refers(o: Obj, r: Record, a: Addr) {
    match r
    case Data(_, c, _, _) => c in o.entries && o.entries[c] == a
    case Header(_, _, _, _, _, _, _) => o.hdr == a
  }

  /** A page in use, other than those in spare, belongs to the object its tags name. */
  ghost predicate OwnersOk(bs: seq<Block>, objs: map<nat, Obj>, spare: set<Addr>) {
    forall a | Live(bs, a) && a !in spare :: At(bs, a).obj in objs && Refers(objs[At(bs, a).obj], At(bs, a), a)
  }

  ghost predicate Buried(bs: seq<Block>, approved: set<nat>, r: Addr)
    requires On(bs, r)
  {
    exists h :: On(bs, h) && IsHeader(At(bs, h), At(bs, r).obj) && Gone(At(bs, h)) && (h == r || Before(bs, r, h))
                && Guarded(bs, approved, r, h)
  }

  /** Every record of an object that no longer exists precedes a deletion header that outlives it. */
  ghost predicate GoneOk(bs: seq<Block>, approved: set<nat>, objs: map<nat, Obj>, dying: set<nat>) {
    forall r {:trigger Buried(bs, approved, r)} | On(bs, r) && At(bs, r).obj !in objs && At(bs, r).obj !in dying ::
        Buried(bs, approved, r)
  }

  /** The records themselves: files only, in known directories, with offsets the scanner can hold. */
  ghost predicate RecordOk(n: nat, dirs: set<nat>, r: Record) {
    && r.obj > DELETED && r.obj !in dirs
    && (r.Header? ==> r.kind == FileKind && (r.parent in dirs || (r.parent == DELETED && r.isShrink)) && r.shadows == 0 && r.size < 0x8000_0000)
    && (r.Data? ==> r.chunk > 0 && 0 < r.nbytes <= n && Base(n, r.chunk) < End(n, r) < 0x8000_0000)
  }

  ghost predicate RecordsOk(n: nat, dirs: set<nat>, bs: seq<Block>) {
    forall a | On(bs, a) :: RecordOk(n, dirs, At(bs, a))
  }

  /** What is allowed of the one file that an operation is working on: its chunk map is right
      up to t with entries ending by e, or it is on its way out. */
  datatype Busy = Idle | Working(f: nat, t: int, e: int) | Dying(f: nat)

  ghost predicate ObjOk(n: nat, bs: seq<Block>, approved: set<nat>, g: nat, o: Obj, b: Busy) {
    && (if b.Working? && b.f == g then FileOk(n, bs, approved, g, o, b.t, b.e)
        else RestOk(n, bs, approved, g, o))
    && o.size < 0x8000_0000
  }

  ghost predicate ObjsOk(n: nat, dirs: set<nat>, bs: seq<Block>, approved: set<nat>, objs: map<nat, Obj>, b: Busy) {
    && (forall g | g in objs ::
        ObjOk(n, bs, approved, g, objs[g], b) && g > DELETED && g !in dirs && objs[g].parent in dirs)
    && (b.Working? ==> b.f in objs)
    && (b.Dying? ==> b.f !in objs)
  }

  // ----- how blocks change -----

  /** Record r has been written at x, the page after everything else. */
  ghost predicate Appended(bs: seq<Block>, bs': seq<Block>, x: Addr, r: Record) {
    && |bs'| == |bs| && On(bs', x) && At(bs', x) == r
    && (forall i | 0 <= i < |bs| && i != x.blk :: bs'[i] == bs[i])
    && bs'[x.blk].pages == bs[x.blk].pages + [r] && x.page == |bs[x.blk].pages|
    && bs'[x.blk].live == bs[x.blk].live + {x.page}
    && bs'[x.blk].shrink == bs[x.blk].shrink
    && (bs[x.blk].pages != [] ==> bs'[x.blk].seqNo == bs[x.blk].seqNo)
    && (forall a | On(bs, a) :: On(bs', a) && Before(bs', a, x))
  }

  /** Only states, flags and bits changed, not what is written. */
  ghost predicate SamePages(bs: seq<Block>, bs': seq<Block>) {
    && |bs'| == |bs|
    && (forall i | 0 <= i < |bs| :: bs'[i].pages == bs[i].pages && (bs[i].pages != [] ==> bs'[i].seqNo == bs[i].seqNo))
  }

  /** Block i has been erased. */
  ghost predicate Erased(bs: seq<Block>, bs': seq<Block>, i: nat) {
    && |bs'| == |bs| && i < |bs| && bs'[i].pages == [] && bs'[i].live == {}
    && (forall j | 0 <= j < |bs| && j != i :: bs'[j] == bs[j])
  }
}

/** Each way the blocks change keeps the invariant. */
module FlashSteps {
  import opened Records
  import opened Flash

  lemma AppendedKeeps(bs: seq<Block>, bs': seq<Block>, x: Addr, r: Record)
    requires Appended(bs, bs', x, r)
    ensures forall a | On(bs, a) :: On(bs', a) && At(bs', a) == At(bs, a) && (Live(bs', a) == Live(bs, a)) && a != x
    ensures forall a | On(bs', a) :: a == x || On(bs, a)
    ensures forall a, b | On(bs, a) && On(bs, b) :: Before(bs', a, b) == Before(bs, a, b)
    ensures forall a | On(bs, a) :: !Before(bs', x, a)
    ensures forall p, a, b | On(bs, a) && On(bs, b) && Guarded(bs, p, a, b) :: Guarded(bs', p, a, b)
  {
    forall a | On(bs', a)
      ensures a == x || On(bs, a)
    {
      if a.blk == x.blk && a.page == x.page { assert a == x; }
    }
  }

  lemma AppendedOther(n: nat, bs: seq<Block>, bs': seq<Block>, x: Addr, r: Record, approved: set<nat>, g: nat, o: Obj,
          t: int, e: int)
    requires Appended(bs, bs', x, r) && r.obj != g
    requires FileOk(n, bs, approved, g, o, t, e)
    ensures FileOk(n, bs', approved, g, o, t, e)
    ensures Synced(n, bs, g, o) ==> Synced(n, bs', g, o)
  {
    AppendedKeeps(bs, bs', x, r);
    forall b | On(bs', b) && At(bs', b).Data? && At(bs', b).obj == g && At(bs', b).chunk !in o.entries
        && Base(n, At(bs', b).chunk) < t
      ensures Covered(n, bs', approved, g, At(bs', b).chunk, b)
    {
      CoveredAppended(n, bs, bs', x, r, approved, g, At(bs, b).chunk, b);
    }
  }

  lemma CoveredAppended(n: nat, bs: seq<Block>, bs': seq<Block>, x: Addr, r: Record, approved: set<nat>, g: nat, c: nat,
          b: Addr)
    requires Appended(bs, bs', x, r) && On(bs, b) && On(bs', b)
    requires Covered(n, bs, approved, g, c, b)
    ensures Covered(n, bs', approved, g, c, b)
  {
    AppendedKeeps(bs, bs', x, r);
    var h :| On(bs, h) && IsCut(At(bs, h), g) && Before(bs, b, h) && CutSize(At(bs, h)) <= Base(n, c)
        && Guarded(bs, approved, b, h);
    assert On(bs', h) && Guarded(bs', approved, b, h);
  }

  lemma AppendedEntry(n: nat, bs: seq<Block>, bs': seq<Block>, x: Addr, r: Record, c: nat, a: Addr, e: int, e': int)
    requires Appended(bs, bs', x, r) && r.Data? && Live(bs', x) && e <= e' && End(n, r) <= e'
    requires if c == r.chunk then a == x else EntryOk(n, bs, r.obj, c, a, e)
    ensures EntryOk(n, bs', r.obj, c, a, e')
  {
    hide Appended, Before;
    AppendedKeeps(bs, bs', x, r);
    AppendedIsNewest(bs, bs', x, r);
  }

  lemma AppendedIsNewest(bs: seq<Block>, bs': seq<Block>, x: Addr, r: Record)
    requires Appended(bs, bs', x, r)
    ensures |bs'| == |bs| && On(bs', x) && At(bs', x) == r
    ensures forall a | On(bs, a) :: On(bs', a) && Before(bs', a, x)
  {
  }

  /** The file's own data record: the new copy takes the entry. */
  lemma AppendedData(n: nat, bs: seq<Block>, bs': seq<Block>, x: Addr, r: Record, approved: set<nat>, o: Obj, t: int,
          e: int, e': int)
    requires Appended(bs, bs', x, r) && r.Data? && Live(bs', x)
    requires FileOk(n, bs, approved, r.obj, o, t, e)
    requires e <= e' && End(n, r) <= e'
    ensures FileOk(n, bs', approved, r.obj, o.(entries := o.entries[r.chunk := x]), t, e')
    ensures Synced(n, bs, r.obj, o) && End(n, r) <= o.size ==>
        Synced(n, bs', r.obj, o.(entries := o.entries[r.chunk := x]))
  {
    hide Appended, Covered, Guarded, Before, EntryOk;
    AppendedKeeps(bs, bs', x, r);
    AppendedIsNewest(bs, bs', x, r);
    var o' := o.(entries := o.entries[r.chunk := x]);
    forall c | c in o'.entries
      ensures EntryOk(n, bs', r.obj, c, o'.entries[c], e')
    {
      AppendedEntry(n, bs, bs', x, r, c, if c == r.chunk then x else o.entries[c], e, e');
    }
    forall b | On(bs', b) && At(bs', b).Data? && At(bs', b).obj == r.obj && At(bs', b).chunk !in o'.entries
        && Base(n, At(bs', b).chunk) < t
      ensures Covered(n, bs', approved, r.obj, At(bs', b).chunk, b)
    {
      CoveredAppended(n, bs, bs', x, r, approved, r.obj, At(bs, b).chunk, b);
    }
  }

  /** The file's own header: it may cut only what the file does not hold. */
  lemma AppendedHeader(n: nat, bs: seq<Block>, bs': seq<Block>, x: Addr, r: Record, approved: set<nat>, o: Obj, o': Obj,
          t: int, e: int)
    requires Appended(bs, bs', x, r) && r.Header? && !Gone(r) && Live(bs', x)
    requires FileOk(n, bs, approved, r.obj, o, t, e)
    requires o'.hdr == x && o'.entries == o.entries && o'.name == r.name && o'.parent == r.parent
    requires r.isShrink ==> forall c | c in o.entries :: Base(n, c) < r.size
    ensures FileOk(n, bs', approved, r.obj, o', t, e)
    ensures forall b | On(bs', b) && At(bs', b).obj == r.obj && b != x :: Before(bs', b, x)
  {
    AppendedKeeps(bs, bs', x, r);
    forall b | On(bs', b) && At(bs', b).Data? && At(bs', b).obj == r.obj && At(bs', b).chunk !in o'.entries
        && Base(n, At(bs', b).chunk) < t
      ensures Covered(n, bs', approved, r.obj, At(bs', b).chunk, b)
    {
      CoveredAppended(n, bs, bs', x, r, approved, r.obj, At(bs, b).chunk, b);
    }
  }

  lemma AppendedGone(bs: seq<Block>, bs': seq<Block>, x: Addr, r: Record, approved: set<nat>, objs: map<nat, Obj>,
          dying: set<nat>)
    requires Appended(bs, bs', x, r) && GoneOk(bs, approved, objs, dying)
    requires r.obj in objs || r.obj in dying
    ensures GoneOk(bs', approved, objs, dying)
  {
    AppendedKeeps(bs, bs', x, r);
    forall a | On(bs', a) && At(bs', a).obj !in objs && At(bs', a).obj !in dying
      ensures Buried(bs', approved, a)
    {
      assert Buried(bs, approved, a);
      var h :| On(bs, h) && IsHeader(At(bs, h), At(bs, a).obj) && Gone(At(bs, h)) && (h == a || Before(bs, a, h))
          && Guarded(bs, approved, a, h);
      assert On(bs', h) && Guarded(bs', approved, a, h);
    }
  }

  // ----- states, flags and bits -----

  ghost predicate GuardsKept(bs: seq<Block>, bs': seq<Block>, approved: set<nat>, approved': set<nat>)
    requires |bs| == |bs'|
  {
    forall i | 0 <= i < |bs| && bs[i].shrink && i !in approved :: bs'[i].shrink && i !in approved'
  }

  lemma SamePagesFile(n: nat, bs: seq<Block>, bs': seq<Block>, approved: set<nat>, approved': set<nat>, g: nat, o: Obj,
          t: int, e: int)
    requires SamePages(bs, bs') && GuardsKept(bs, bs', approved, approved')
    requires FileOk(n, bs, approved, g, o, t, e)
    requires Live(bs', o.hdr) && forall c | c in o.entries :: Live(bs', o.entries[c])
    ensures FileOk(n, bs', approved', g, o, t, e)
    ensures Synced(n, bs, g, o) ==> Synced(n, bs', g, o)
  {
    forall b | On(bs', b) && At(bs', b).Data? && At(bs', b).obj == g && At(bs', b).chunk !in o.entries
        && Base(n, At(bs', b).chunk) < t
      ensures Covered(n, bs', approved', g, At(bs', b).chunk, b)
    {
      assert On(bs, b);
      var c := At(bs, b).chunk;
      var h :| On(bs, h) && IsCut(At(bs, h), g) && Before(bs, b, h) && CutSize(At(bs, h)) <= Base(n, c)
          && Guarded(bs, approved, b, h);
      assert On(bs', h) && Guarded(bs', approved', b, h);
    }
    SamePagesRest(n, bs, bs', g, o, e);
  }

  lemma SamePagesRest(n: nat, bs: seq<Block>, bs': seq<Block>, g: nat, o: Obj, e: int)
    requires SamePages(bs, bs')
    requires HeaderOk(bs, g, o.hdr, o) && Live(bs', o.hdr)
    requires forall c | c in o.entries :: EntryOk(n, bs, g, c, o.entries[c], e) && Live(bs', o.entries[c])
    ensures HeaderOk(bs', g, o.hdr, o)
    ensures forall c | c in o.entries :: EntryOk(n, bs', g, c, o.entries[c], e)
    ensures Synced(n, bs, g, o) ==> Synced(n, bs', g, o)
  {
    assert forall a | On(bs', a) :: On(bs, a);
  }

  lemma SamePagesGone(bs: seq<Block>, bs': seq<Block>, approved: set<nat>, approved': set<nat>, objs: map<nat, Obj>,
          dying: set<nat>)
    requires SamePages(bs, bs') && GuardsKept(bs, bs', approved, approved')
    requires GoneOk(bs, approved, objs, dying)
    ensures GoneOk(bs', approved', objs, dying)
  {
    forall a | On(bs', a) && At(bs', a).obj !in objs && At(bs', a).obj !in dying
      ensures Buried(bs', approved', a)
    {
      assert On(bs, a);
      assert Buried(bs, approved, a);
      var h :| On(bs, h) && IsHeader(At(bs, h), At(bs, a).obj) && Gone(At(bs, h)) && (h == a || Before(bs, a, h))
          && Guarded(bs, approved, a, h);
      assert On(bs', h) && Guarded(bs', approved', a, h);
    }
  }

  // ----- erasing -----

  /** A block with nothing live and no shrink flag can go: everything its headers cut goes with it. */
  lemma ErasedFile(n: nat, bs: seq<Block>, bs': seq<Block>, i: nat, approved: set<nat>, g: nat, o: Obj, t: int, e: int)
    requires Erased(bs, bs', i) && bs[i].live == {} && !bs[i].shrink
    requires FileOk(n, bs, approved, g, o, t, e)
    ensures FileOk(n, bs', approved - {i}, g, o, t, e)
    ensures Synced(n, bs, g, o) ==> Synced(n, bs', g, o)
  {
    forall b | On(bs', b) && At(bs', b).Data? && At(bs', b).obj == g && At(bs', b).chunk !in o.entries
        && Base(n, At(bs', b).chunk) < t
      ensures Covered(n, bs', approved - {i}, g, At(bs', b).chunk, b)
    {
      assert On(bs, b);
      var c := At(bs, b).chunk;
      var h :| On(bs, h) && IsCut(At(bs, h), g) && Before(bs, b, h) && CutSize(At(bs, h)) <= Base(n, c)
          && Guarded(bs, approved, b, h);
      assert On(bs', h) && Guarded(bs', approved - {i}, b, h);
    }
    ErasedRest(n, bs, bs', i, g, o, e);
  }

  lemma ErasedRest(n: nat, bs: seq<Block>, bs': seq<Block>, i: nat, g: nat, o: Obj, e: int)
    requires Erased(bs, bs', i) && bs[i].live == {}
    requires HeaderOk(bs, g, o.hdr, o)
    requires forall c | c in o.entries :: EntryOk(n, bs, g, c, o.entries[c], e)
    ensures HeaderOk(bs', g, o.hdr, o)
    ensures forall c | c in o.entries :: EntryOk(n, bs', g, c, o.entries[c], e)
    ensures Synced(n, bs, g, o) ==> Synced(n, bs', g, o)
  {
    assert forall a | On(bs', a) :: On(bs, a) && a.blk != i;
  }

  lemma ErasedGone(bs: seq<Block>, bs': seq<Block>, i: nat, approved: set<nat>, objs: map<nat, Obj>, dying: set<nat>)
    requires Erased(bs, bs', i) && !bs[i].shrink
    requires GoneOk(bs, approved, objs, dying)
    ensures GoneOk(bs', approved - {i}, objs, dying)
  {
    forall a | On(bs', a) && At(bs', a).obj !in objs && At(bs', a).obj !in dying
      ensures Buried(bs', approved - {i}, a)
    {
      assert On(bs, a);
      assert Buried(bs, approved, a);
      var h :| On(bs, h) && IsHeader(At(bs, h), At(bs, a).obj) && Gone(At(bs, h)) && (h == a || Before(bs, a, h))
          && Guarded(bs, approved, a, h);
      assert On(bs', h) && Guarded(bs', approved - {i}, a, h);
    }
  }

  // ----- approving a block with a shrink header for collection -----

  /** Every block written before block i still has all its pages in use. */
  ghost predicate OlderAllLive(bs: seq<Block>, i: nat)
    requires i < |bs|
  {
    forall a | On(bs, a) && bs[a.blk].seqNo < bs[i].seqNo :: Live(bs, a)
  }

  lemma ApproveFile(n: nat, bs: seq<Block>, approved: set<nat>, i: nat, objs: map<nat, Obj>, g: nat, t: int, e: int)
    requires i < |bs| && OlderAllLive(bs, i) && OwnersOk(bs, objs, {})
    requires g in objs && FileOk(n, bs, approved, g, objs[g], t, e)
    ensures FileOk(n, bs, approved + {i}, g, objs[g], t, e)
  {
    var o := objs[g];
    forall b | On(bs, b) && At(bs, b).Data? && At(bs, b).obj == g && At(bs, b).chunk !in o.entries
        && Base(n, At(bs, b).chunk) < t
      ensures Covered(n, bs, approved + {i}, g, At(bs, b).chunk, b)
    {
      var c := At(bs, b).chunk;
      var h :| On(bs, h) && IsCut(At(bs, h), g) && Before(bs, b, h) && CutSize(At(bs, h)) <= Base(n, c)
          && Guarded(bs, approved, b, h);
      assert !Live(bs, b);
      assert Guarded(bs, approved + {i}, b, h);
    }
  }

  lemma ApproveGone(bs: seq<Block>, approved: set<nat>, i: nat, objs: map<nat, Obj>)
    requires i < |bs| && OlderAllLive(bs, i) && OwnersOk(bs, objs, {})
    requires GoneOk(bs, approved, objs, {})
    ensures GoneOk(bs, approved + {i}, objs, {})
  {
    forall a | On(bs, a) && At(bs, a).obj !in objs
      ensures Buried(bs, approved + {i}, a)
    {
      assert Buried(bs, approved, a);
      var h :| On(bs, h) && IsHeader(At(bs, h), At(bs, a).obj) && Gone(At(bs, h)) && (h == a || Before(bs, a, h))
          && Guarded(bs, approved, a, h);
      assert !Live(bs, a);
      assert Guarded(bs, approved + {i}, a, h);
    }
  }

  // ----- moving the bounds of the file being worked on -----

  lemma GrowBound(n: nat, bs: seq<Block>, approved: set<nat>, f: nat, o: Obj, t: int, t': int, e: int)
    requires FileOk(n, bs, approved, f, o, t, e)
    requires forall c: nat | c > 0 && t <= Base(n, c) < t' :: c in o.entries
    requires forall b | On(bs, b) && At(bs, b).Data? :: At(bs, b).chunk > 0
    ensures FileOk(n, bs, approved, f, o, t', e)
  {
    forall b | On(bs, b) && At(bs, b).Data? && At(bs, b).obj == f && At(bs, b).chunk !in o.entries
        && Base(n, At(bs, b).chunk) < t'
      ensures Covered(n, bs, approved, f, At(bs, b).chunk, b)
    {
      assert Base(n, At(bs, b).chunk) < t;
    }
  }

  /** A hole marker, the newest record of f, covers everything from its size on. */
  lemma MarkerCoversAll(n: nat, bs: seq<Block>, approved: set<nat>, f: nat, o: Obj, t: int, t': int, e: int)
    requires FileOk(n, bs, approved, f, o, t, e)
    requires IsCut(At(bs, o.hdr), f) && CutSize(At(bs, o.hdr)) <= t
    requires forall b | On(bs, b) && At(bs, b).obj == f && b != o.hdr :: Before(bs, b, o.hdr)
    requires bs[o.hdr.blk].shrink && o.hdr.blk !in approved
    ensures FileOk(n, bs, approved, f, o, t', e)
  {
    forall b | On(bs, b) && At(bs, b).Data? && At(bs, b).obj == f && At(bs, b).chunk !in o.entries
        && Base(n, At(bs, b).chunk) < t'
      ensures Covered(n, bs, approved, f, At(bs, b).chunk, b)
    {
      if Base(n, At(bs, b).chunk) >= t {
        assert Before(bs, b, o.hdr) && Guarded(bs, approved, b, o.hdr);
      }
    }
  }
}
