/** The mount-time scan of yaffs2: the log is read from its newest record to its
    oldest, and each record either fills in the object table or is discarded. */
module Scan {
  import opened Records

  const NO_SHRINK: nat := 0xFFFF_FFFF

  datatype ScanObj = ScanObj(
    valid: bool, kind: Kind, parent: nat, name: string, hdr: Option<Addr>,
    shrinkSize: nat, fileSize: nat, scannedSize: nat, entries: map<nat, Addr>)

  type Table = map<nat, ScanObj>

  /** An object met for the first time: it starts in lost+found, with no header. */
  function NewObj(kind: Kind): ScanObj {
    ScanObj(false, kind, LOSTNFOUND, "", None, NO_SHRINK, 0, 0, map[])
  }

  function FindOrCreate(t: Table, id: nat, kind: Kind): Table {
    if id in t then t else t[id := NewObj(kind)]
  }

  /** The table before any record is read holds the four special directories. */
  function InitialTable(): Table {
    map[ROOT := NewObj(DirKind).(parent := 0),
        LOSTNFOUND := NewObj(DirKind).(parent := ROOT),
        UNLINKED := NewObj(DirKind).(parent := 0),
        DELETED := NewObj(DirKind).(parent := 0)]
  }

  function ScanData(n: nat, o: ScanObj, a: Addr, r: Record): ScanObj
    requires r.Data?
  {
    if o.kind == FileKind && Base(n, r.chunk) < o.shrinkSize then
      var o1 := if r.chunk in o.entries then o else o.(entries := o.entries[r.chunk := a]);
      if !o.valid && o.scannedSize < End(n, r) then
        o1.(scannedSize := End(n, r), fileSize := End(n, r))
      else
        o1
    else
      o
  }

  /** A header of an object whose newest header is already known: only its resize matters. */
  function ScanOldHeader(o: ScanObj, r: Record): ScanObj
    requires r.Header?
  {
    if o.kind == FileKind && r.kind == FileKind && (r.isShrink || Gone(r)) && o.shrinkSize > CutSize(r) then
      o.(shrinkSize := CutSize(r))
    else
      o
  }

  /** An object that a newer header shadows and of which nothing newer is known
      becomes an emptied file under unlinked. */
  function HandleShadowed(t: Table, id: nat): Table {
    if id == 0 || id in t then t
    else t[id := NewObj(FileKind).(valid := true, parent := UNLINKED, shrinkSize := 0)]
  }

  /** The newest header of an object. */
  function ScanNewHeader(t: Table, a: Addr, r: Record): Table
    requires r.Header? && r.obj in t
  {
    if r.obj == ROOT || r.obj == LOSTNFOUND then
      t[r.obj := t[r.obj].(valid := true, hdr := Some(a))]
    else
      var o := t[r.obj].(valid := true, hdr := Some(a), kind := r.kind, name := r.name);
      var t1 := HandleShadowed(t[r.obj := o], r.shadows);
      var t2 := FindOrCreate(t1, r.parent, DirKind);
      var p := if t2[r.parent].kind == DirKind then r.parent else LOSTNFOUND;
      var o1 := t2[r.obj].(parent := p);
      var o2 := if o1.kind != FileKind then o1
                else o1.(fileSize := if o1.scannedSize < r.size then r.size else o1.fileSize,
                         scannedSize := Max(o1.scannedSize, r.size),
                         shrinkSize := Min(o1.shrinkSize, r.size));
      t2[r.obj := o2]
  }

  function ScanStep(n: nat, t: Table, e: Entry): Table {
    match e.rec
    case Data(obj, _, _, _) =>
      var t1 := FindOrCreate(t, obj, FileKind);
      t1[obj := ScanData(n, t1[obj], e.addr, e.rec)]
    case Header(obj, kind, _, _, _, _, _) =>
      var t1 := FindOrCreate(t, obj, kind);
      if t1[obj].valid then t1[obj := ScanOldHeader(t1[obj], e.rec)]
      else ScanNewHeader(t1, e.addr, e.rec)
  }

  /** Scan a log, listed oldest record first, into table t. */
  function ScanFrom(n: nat, log: seq<Entry>, t: Table): Table {
    if log == [] then t
    else ScanFrom(n, log[..|log| - 1], ScanStep(n, t, log[|log| - 1]))
  }

  function ScanLog(n: nat, log: seq<Entry>): Table {
    ScanFrom(n, log, InitialTable())
  }
}

/** The forward reading of the same log, and the proof that the backward scan computes it. */
module Replay {
  import opened Records
  import opened Scan

  /** Entries whose chunk starts below size. */
  function Cut(n: nat, m: map<nat, Addr>, size: int): map<nat, Addr> {
    map c | c in m && Base(n, c) < size :: m[c]
  }

  function LastHeader(log: seq<Entry>, f: nat): (i: int)
    ensures -1 <= i < |log|
    ensures i >= 0 ==> IsHeader(log[i].rec, f)
    ensures forall j | i < j < |log| :: !IsHeader(log[j].rec, f)
  {
    if log == [] then -1
    else if IsHeader(log[|log| - 1].rec, f) then |log| - 1
    else LastHeader(log[..|log| - 1], f)
  }

  /** What the first k records leave of f's chunk map when they are replayed in the order
      written: data sets its entry, a shrink header drops the entries at or beyond its size,
      and so does the record numbered last, the newest header of f. */
  function Forward(n: nat, log: seq<Entry>, f: nat, last: int, k: nat): map<nat, Addr>
    requires k <= |log|
  {
    if k == 0 then map[]
    else
      var m := Forward(n, log, f, last, k - 1);
      var e := log[k - 1];
      if e.rec.Data? && e.rec.obj == f then m[e.rec.chunk := e.addr]
      else if IsHeader(e.rec, f) && k - 1 == last then Cut(n, m, e.rec.size)
      else if IsCut(e.rec, f) then Cut(n, m, CutSize(e.rec))
      else m
  }

  /** The newest header's size, or the end of the data written after it if that is larger. */
  function ForwardSize(n: nat, log: seq<Entry>, f: nat): nat {
    if log == [] then 0
    else
      var e := log[|log| - 1];
      if e.rec.Data? && e.rec.obj == f then Max(Max(0, End(n, e.rec)), ForwardSize(n, log[..|log| - 1], f))
      else if IsHeader(e.rec, f) then e.rec.size
      else ForwardSize(n, log[..|log| - 1], f)
  }

  /** f is a file: its headers say so, none uses it as a directory or shadows it,
      and every offset is within the scanner's 32-bit sizes. */
  ghost predicate PlainFile(n: nat, log: seq<Entry>, f: nat) {
    && f > DELETED
    && (forall i | 0 <= i < |log| :: PlainRecord(n, log[i].rec, f))
  }

  ghost predicate PlainRecord(n: nat, r: Record, f: nat) {
    && (r.Header? ==> r.parent != f && r.shadows != f && (r.obj == f ==> r.kind == FileKind && r.size < NO_SHRINK))
    && (r.Data? && r.obj == f ==> r.chunk > 0 && End(n, r) < NO_SHRINK && Base(n, r.chunk) < NO_SHRINK)
  }

  /** The scan of one file, seen alone. */
  ghost predicate FileView(t: Table, f: nat, o: ScanObj) {
    o.kind == FileKind && (if f in t then
                             && t[f].kind == FileKind && t[f].valid == o.valid && t[f].shrinkSize == o.shrinkSize
                             && t[f].fileSize == o.fileSize && t[f].scannedSize == o.scannedSize
                             && t[f].entries == o.entries && t[f].hdr == o.hdr && t[f].name == o.name
                           else o == NewObj(FileKind))
  }

  function FileStep(n: nat, o: ScanObj, e: Entry, f: nat): ScanObj {
    if e.rec.Data? && e.rec.obj == f then ScanData(n, o, e.addr, e.rec)
    else if IsHeader(e.rec, f) then
      if o.valid then ScanOldHeader(o, e.rec)
      else o.(valid := true, hdr := Some(e.addr), name := e.rec.name,
              fileSize := if o.scannedSize < e.rec.size then e.rec.size else o.fileSize,
              scannedSize := Max(o.scannedSize, e.rec.size),
              shrinkSize := Min(o.shrinkSize, e.rec.size))
    else o
  }

  function FileScan(n: nat, log: seq<Entry>, o: ScanObj, f: nat): ScanObj {
    if log == [] then o
    else FileScan(n, log[..|log| - 1], FileStep(n, o, log[|log| - 1], f), f)
  }

  lemma {:induction false} StepView(n: nat, t: Table, e: Entry, f: nat, o: ScanObj)
    requires f > DELETED && PlainRecord(n, e.rec, f)
    requires FileView(t, f, o)
    ensures FileView(ScanStep(n, t, e), f, FileStep(n, o, e, f))
  {
  }

  lemma {:induction false} ScanView(n: nat, log: seq<Entry>, t: Table, f: nat, o: ScanObj)
    requires PlainFile(n, log, f) && FileView(t, f, o)
    ensures FileView(ScanFrom(n, log, t), f, FileScan(n, log, o, f))
  {
    if log != [] {
      var k := |log| - 1;
      StepView(n, t, log[k], f, o);
      ScanView(n, log[..k], ScanStep(n, t, log[k]), f, FileStep(n, o, log[k], f));
    }
  }

  lemma {:induction false} ForwardPrefix(n: nat, log: seq<Entry>, f: nat, last: int, j: nat, k: nat)
    requires k <= j <= |log|
    ensures Forward(n, log[..j], f, last, k) == Forward(n, log, f, last, k)
  {
    if k > 0 {
      ForwardPrefix(n, log, f, last, j, k - 1);
    }
  }

  lemma {:induction false} ForwardLastUnused(n: nat, log: seq<Entry>, f: nat, last: int, k: nat)
    requires k <= |log| && last >= k
    ensures Forward(n, log, f, last, k) == Forward(n, log, f, -1, k)
  {
    if k > 0 {
      ForwardLastUnused(n, log, f, last, k - 1);
    }
  }

  /** The part of the replayed map that a scan in state o will still add. */
  function Pending(n: nat, log: seq<Entry>, f: nat, o: ScanObj): map<nat, Addr> {
    Cut(n, Forward(n, log, f, if o.valid then -1 else LastHeader(log, f), |log|), o.shrinkSize)
  }

  lemma CutData(n: nat, m: map<nat, Addr>, kept: map<nat, Addr>, s: int, c: nat, a: Addr)
    ensures Base(n, c) < s ==> Cut(n, m[c := a], s) + kept == Cut(n, m, s) + (if c in kept then kept else kept[c := a])
    ensures Base(n, c) >= s ==> Cut(n, m[c := a], s) == Cut(n, m, s)
  {
  }

  lemma CutTwice(n: nat, m: map<nat, Addr>, s: int, s': int)
    ensures Cut(n, Cut(n, m, s), s') == Cut(n, m, Min(s, s'))
  {
  }

  /** One record moves from the replayed part to the scanned part without changing the sum. */
  lemma StepKeepsSum(n: nat, log: seq<Entry>, f: nat, o: ScanObj)
    requires PlainFile(n, log, f) && o.kind == FileKind && log != []
    ensures var o1 := FileStep(n, o, log[|log| - 1], f);
            Pending(n, log, f, o) + o.entries == Pending(n, log[..|log| - 1], f, o1) + o1.entries
  {
    var k := |log| - 1;
    var e := log[k];
    var pre := log[..k];
    var last := if o.valid then -1 else LastHeader(log, f);
    var m := Forward(n, log, f, last, k);
    ForwardPrefix(n, log, f, last, k, k);
    if e.rec.Data? && e.rec.obj == f {
      CutData(n, m, o.entries, o.shrinkSize, e.rec.chunk, e.addr);
    } else if IsHeader(e.rec, f) {
      if !o.valid {
        ForwardLastUnused(n, log, f, k, k);
        ForwardPrefix(n, log, f, -1, k, k);
        CutTwice(n, m, e.rec.size, o.shrinkSize);
      } else {
        CutTwice(n, m, CutSize(e.rec), o.shrinkSize);
      }
    }
  }

  lemma {:induction false} FileScanIsForward(n: nat, log: seq<Entry>, f: nat, o: ScanObj)
    requires PlainFile(n, log, f) && o.kind == FileKind
    ensures FileScan(n, log, o, f).entries == Pending(n, log, f, o) + o.entries
  {
    if log != [] {
      var k := |log| - 1;
      StepKeepsSum(n, log, f, o);
      FileScanIsForward(n, log[..k], f, FileStep(n, o, log[k], f));
    } else {
      assert Pending(n, log, f, o) == map[];
    }
  }

  lemma {:induction false} FileScanSize(n: nat, log: seq<Entry>, f: nat, o: ScanObj)
    requires PlainFile(n, log, f) && o.kind == FileKind
    requires o.fileSize == o.scannedSize
    requires !o.valid ==> o.shrinkSize == NO_SHRINK
    ensures FileScan(n, log, o, f).fileSize == if o.valid then o.fileSize else Max(o.fileSize, ForwardSize(n, log, f))
    ensures FileScan(n, log, o, f).hdr == (if o.valid || LastHeader(log, f) < 0 then o.hdr
        else Some(log[LastHeader(log, f)].addr))
    ensures FileScan(n, log, o, f).name
        == (if o.valid || LastHeader(log, f) < 0 then o.name else log[LastHeader(log, f)].rec.name)
    ensures FileScan(n, log, o, f).valid == (o.valid || LastHeader(log, f) >= 0)
  {
    if log != [] {
      var k := |log| - 1;
      FileScanSize(n, log[..k], f, FileStep(n, o, log[k], f));
    }
  }

  /** The backward scan computes the forward replay: chunk map, size and newest header. */
  lemma ScanIsForwardReplay(n: nat, log: seq<Entry>, f: nat)
    requires PlainFile(n, log, f)
    ensures var t := ScanLog(n, log);
            if f in t then
              && t[f].kind == FileKind
              && t[f].entries == Forward(n, log, f, LastHeader(log, f), |log|)
              && t[f].fileSize == ForwardSize(n, log, f)
              && t[f].valid == (LastHeader(log, f) >= 0)
              && (LastHeader(log, f) >= 0 ==>
                  t[f].hdr == Some(log[LastHeader(log, f)].addr) && t[f].name == log[LastHeader(log, f)].rec.name)
            else
              forall i | 0 <= i < |log| :: log[i].rec.obj != f
  {
    var o := NewObj(FileKind);
    ScanView(n, log, InitialTable(), f, o);
    FileScanIsForward(n, log, f, o);
    FileScanSize(n, log, f, o);
    var m := Forward(n, log, f, LastHeader(log, f), |log|);
    ForwardBelow(n, log, f, LastHeader(log, f), |log|);
    assert Cut(n, m, NO_SHRINK) == m;
    ScanMeets(n, log, InitialTable(), f);
  }

  lemma {:induction false} ForwardBelow(n: nat, log: seq<Entry>, f: nat, last: int, k: nat)
    requires k <= |log| && PlainFile(n, log, f)
    ensures forall c | c in Forward(n, log, f, last, k) :: Base(n, c) < NO_SHRINK
  {
    if k > 0 {
      ForwardBelow(n, log, f, last, k - 1);
    }
  }

  /** Every object with a record in the log is in the scanned table. */
  lemma {:induction false} ScanMeets(n: nat, log: seq<Entry>, t: Table, f: nat)
    ensures f in t || (exists i :: 0 <= i < |log| && log[i].rec.obj == f) ==> f in ScanFrom(n, log, t)
  {
    if log != [] {
      var k := |log| - 1;
      ScanMeets(n, log[..k], ScanStep(n, t, log[k]), f);
      if i :| 0 <= i < |log| && log[i].rec.obj == f {
        if i < k { assert log[..k][i].rec.obj == f; }
      }
    }
  }
}
