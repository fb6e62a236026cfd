/** Where a file offset falls: the chunk it lies in and the place within it. */
module Offsets {

  function Pow2(k: nat): (p: nat)
    ensures p > 0
  {
    if k == 0 then 1 else 2 * Pow2(k - 1)
  }

  /** chunkShift and chunkDiv of a device with chunks of x bytes. */
  method Shifts(x: nat) returns (shift: nat, div: nat)
    requires x > 0
    ensures x == div * Pow2(shift) && div % 2 == 1
  {
    shift, div := 0, x;
    while div % 2 == 0
      invariant div > 0 && x == div * Pow2(shift)
      decreases div
    {
      HalveAndDouble(div, shift);
      div := div / 2;
      shift := shift + 1;
    }
  }

  lemma HalveAndDouble(d: nat, k: nat)
    requires d % 2 == 0
    ensures d * Pow2(k) == (d / 2) * Pow2(k + 1)
  {
    var h := d / 2;
    assert d == 2 * h;
    assert (2 * h) * Pow2(k) == h * (2 * Pow2(k));
  }

  lemma MulGrows(k: int, n: nat)
    ensures k >= 1 ==> k * n >= n
    ensures k <= -1 ==> k * n + n <= 0
  {
    if k >= 1 {
      assert (k - 1) * n >= 0;
    } else if k <= -1 {
      assert (-1 - k) * n >= 0;
    }
  }

  /** a = q * n + r with r < n settles the quotient and the remainder. */
  lemma QuotientIs(a: nat, n: nat, q: nat, r: nat)
    requires n > 0 && r < n && a == q * n + r
    ensures a / n == q && a % n == r
  {
    var q', r' := a / n, a % n;
    assert a == q' * n + r';
    assert (q' - q) * n == q' * n - q * n;
    MulGrows(q' - q, n);
  }

  lemma Regroup(q: nat, d: nat, s: nat, p: nat, r: nat)
    requires s < d && r < p
    ensures (q * d + s) * p + r == q * (d * p) + (s * p + r) && s * p + r < d * p
  {
    assert (q * d + s) * p == q * (d * p) + s * p;
    assert d * p == (d - 1 - s) * p + s * p + p;
    assert (d - 1 - s) * p >= 0;
  }

  lemma RemainderIs(a: nat, n: nat)
    requires n > 0
    ensures a - (a / n) * n == a % n && a == (a / n) * n + a % n
  {
  }

  lemma QuotientOfQuotient(a: nat, p: nat, d: nat, b: nat, r: nat, q: nat, s: nat)
    requires a == b * p + r && b == q * d + s && r < p && s < d
    ensures d * p > 0 && a / (d * p) == q && a % (d * p) == s * p + r
  {
    Regroup(q, d, s, p, r);
    assert b * p == (q * d + s) * p;
    QuotientIs(a, d * p, q, s * p + r);
  }

  lemma DivideTwice(a: nat, p: nat, d: nat)
    requires p > 0 && d > 0
    ensures d * p > 0 && a / p / d == a / (d * p)
  {
    RemainderIs(a, p);
    RemainderIs(a / p, d);
    QuotientOfQuotient(a, p, d, a / p, a % p, a / p / d, a / p % d);
  }

  /** Positions that follow pos within its chunk. */
  lemma SameChunk(pos: nat, n: nat, j: nat)
    requires n > 0 && pos % n + j < n
    ensures (pos + j) / n == pos / n && (pos + j) % n == pos % n + j
  {
    RemainderIs(pos, n);
    QuotientIs(pos + j, n, pos / n, pos % n + j);
  }

  /** Shift, then divide if the chunk size is no power of two. */
  method AddrToChunk(addr: nat, chunkShift: nat, chunkDiv: nat, n: nat) returns (chunk: nat, offset: nat)
    requires chunkDiv > 0 && n == chunkDiv * Pow2(chunkShift)
    ensures n > 0 && chunk == addr / n && offset == addr % n
  {
    hide Pow2;
    DivideTwice(addr, Pow2(chunkShift), chunkDiv);
    chunk := addr / Pow2(chunkShift);
    if chunkDiv == 1 {
      offset := addr % Pow2(chunkShift);
    } else {
      chunk := chunk / chunkDiv;
      var chunkBase := chunk * n;
      RemainderIs(addr, n);
      offset := addr - chunkBase;
    }
  }
}

/** The data of files: what NAND holds of each chunk, and in front of it the short-operation cache.
    Together they behave as flat arrays of bytes. */
module FileData {
  import opened Records
  import opened Offsets

  datatype File = File(size: nat, chunks: map<nat, seq<Byte>>, dirty: bool, linked: bool)

  /** One entry of the cache; it is free when obj is None. */
  datatype Slot = Slot(obj: Option<nat>, chunkId: nat, dirty: bool, nBytes: nat, lastUse: int, data: seq<Byte>)

  type Files = map<nat, File>

  const SMALL_HOLE_THRESHOLD: nat := 4

  function Zeros(n: nat): (s: seq<Byte>)
    ensures |s| == n && forall i | 0 <= i < n :: s[i] == 0
  {
    seq(n, i => 0)
  }

  /** What NAND holds of chunk c of f; a chunk that is not there reads as zeros. */
  function Nand(n: nat, fs: Files, f: nat, c: nat): seq<Byte> {
    if f in fs && c in fs[f].chunks then fs[f].chunks[c] else Zeros(n)
  }

  predicate Holds(s: Slot, f: nat, c: nat) {
    s.obj == Some(f) && s.chunkId == c
  }

  /** FindChunkCache: the slot with chunk c of f, or -1. */
  function Find(sl: seq<Slot>, f: nat, c: nat): (i: int)
    ensures -1 <= i < |sl|
    ensures i >= 0 ==> Holds(sl[i], f, c)
    ensures i < 0 ==> forall k | 0 <= k < |sl| :: !Holds(sl[k], f, c)
  {
    if sl == [] then -1
    else if Holds(sl[0], f, c) then 0
    else var k := Find(sl[1..], f, c); if k < 0 then -1 else k + 1
  }

  /** What a read of chunk c of f sees. */
  function View(n: nat, fs: Files, sl: seq<Slot>, f: nat, c: nat): seq<Byte> {
    var i := Find(sl, f, c);
    if i >= 0 then sl[i].data else Nand(n, fs, f, c)
  }

  /** Bytes of chunk c from file offset z on are zero. */
  predicate ZeroTail(n: nat, c: nat, s: seq<Byte>, z: int) {
    forall k | 0 <= k < |s| && z <= Base(n, c) + k :: s[k] == 0
  }

  /** Neither NAND nor the cache holds anything of f from offset z on. */
  ghost predicate ZeroFrom(n: nat, fs: Files, sl: seq<Slot>, f: nat, z: int) {
    && (forall c: nat :: ZeroTail(n, c, Nand(n, fs, f, c), z))
    && (forall i | 0 <= i < |sl| && sl[i].obj == Some(f) :: ZeroTail(n, sl[i].chunkId, sl[i].data, z))
  }

  ghost predicate Unique(sl: seq<Slot>) {
    forall i, j | 0 <= i < j < |sl| && sl[i].obj.Some? && sl[j].obj.Some? ::
        sl[i].obj != sl[j].obj || sl[i].chunkId != sl[j].chunkId
  }

  ghost predicate SlotOk(n: nat, fs: Files, s: Slot) {
    && |s.data| == n
    && (s.obj.Some? ==> s.obj.value in fs && s.chunkId > 0)
    && (s.obj.Some? && !s.dirty ==> s.data == Nand(n, fs, s.obj.value, s.chunkId))
    && (s.obj.Some? && s.dirty ==> 0 < s.nBytes <= n)
  }

  /** At most one entry for each chunk, clean entries equal to NAND, and whole chunks everywhere. */
  ghost predicate CacheOk(n: nat, fs: Files, sl: seq<Slot>) {
    && Unique(sl)
    && (forall i | 0 <= i < |sl| :: SlotOk(n, fs, sl[i]))
    && (forall f: nat, c: nat :: |Nand(n, fs, f, c)| == n)
  }

  /** Dirty entries belong to dirty files. */
  ghost predicate DirtyOk(fs: Files, sl: seq<Slot>, except: Option<nat>) {
    forall i | 0 <= i < |sl| && sl[i].obj.Some? && sl[i].dirty && sl[i].obj != except ::
        sl[i].obj.value in fs && fs[sl[i].obj.value].dirty
  }

  ghost predicate PastEndZero(n: nat, fs: Files, sl: seq<Slot>, except: Option<nat>) {
    forall f | f in fs && Some(f) != except :: ZeroFrom(n, fs, sl, f, fs[f].size)
  }

  // ----- how the state changes -----

  ghost predicate SameFiles(fs: Files, fs': Files) {
    fs.Keys == fs'.Keys && forall f | f in fs ::
        fs'[f].size == fs[f].size && fs'[f].dirty == fs[f].dirty && fs'[f].linked == fs[f].linked
  }

  /** What NAND holds of a chunk is what it held before, or what reads saw of it before, or saw after. */
  ghost predicate NandFrom(n: nat, fs: Files, sl: seq<Slot>, fs': Files, f: nat, c: nat, v: seq<Byte>) {
    Nand(n, fs', f, c) == Nand(n, fs, f, c) || Nand(n, fs', f, c) == View(n, fs, sl, f, c) || Nand(n, fs', f, c) == v
  }

  /** Is there a dirty entry for chunk c of f? */
  predicate IsDirty(sl: seq<Slot>, f: nat, c: nat) {
    var i := Find(sl, f, c);
    i >= 0 && sl[i].dirty
  }

  /** If the chunk has a dirty entry now it had one before, and NAND holds of it what it held. */
  ghost predicate Calm(n: nat, fs: Files, sl: seq<Slot>, fs': Files, sl': seq<Slot>, f: nat, c: nat) {
    IsDirty(sl', f, c) ==> IsDirty(sl, f, c) && Nand(n, fs', f, c) == Nand(n, fs, f, c)
  }

  /** What reads of chunk d of g see once chunk c of f has become v. */
  function Seen(n: nat, fs: Files, sl: seq<Slot>, f: nat, c: nat, v: seq<Byte>, g: nat, d: nat): seq<Byte> {
    if g == f && d == c then v else View(n, fs, sl, g, d)
  }

  /** Reads of every chunk see what they saw before, except for chunk c of f, where they see v. */
  ghost predicate Changed(n: nat, fs: Files, sl: seq<Slot>, fs': Files, sl': seq<Slot>, f: nat, c: nat, v: seq<Byte>) {
    && SameFiles(fs, fs')
    && (forall g: nat, d: nat :: View(n, fs', sl', g, d) == Seen(n, fs, sl, f, c, v, g, d))
    && (forall g: nat, d: nat :: NandFrom(n, fs, sl, fs', g, d, Seen(n, fs, sl, f, c, v, g, d)))
    && (forall g: nat, d: nat | g != f || d != c :: Calm(n, fs, sl, fs', sl', g, d))
  }

  /** Reads see the same everywhere. */
  ghost predicate Kept(n: nat, fs: Files, sl: seq<Slot>, fs': Files, sl': seq<Slot>) {
    && SameFiles(fs, fs')
    && (forall g: nat, d: nat :: View(n, fs', sl', g, d) == View(n, fs, sl, g, d))
    && (forall g: nat, d: nat :: NandFrom(n, fs, sl, fs', g, d, View(n, fs, sl, g, d)))
    && (forall g: nat, d: nat :: Calm(n, fs, sl, fs', sl', g, d))
  }

  lemma KeptIsChanged(n: nat, fs: Files, sl: seq<Slot>, fs': Files, sl': seq<Slot>, f: nat, c: nat)
    requires Kept(n, fs, sl, fs', sl')
    ensures Changed(n, fs, sl, fs', sl', f, c, View(n, fs, sl, f, c))
  {
  }

  lemma KeptSame(n: nat, fs: Files, sl: seq<Slot>)
    ensures Kept(n, fs, sl, fs, sl)
  {
  }

  lemma KeptChanged(n: nat, fs: Files, sl: seq<Slot>, fs1: Files, sl1: seq<Slot>, fs2: Files, sl2: seq<Slot>, f: nat,
          c: nat, v: seq<Byte>)
    requires Kept(n, fs, sl, fs1, sl1) && Changed(n, fs1, sl1, fs2, sl2, f, c, v)
    ensures Changed(n, fs, sl, fs2, sl2, f, c, v)
  {
    hide View, Nand, IsDirty;
    forall g: nat, d: nat
      ensures View(n, fs2, sl2, g, d) == Seen(n, fs, sl, f, c, v, g, d)
      ensures NandFrom(n, fs, sl, fs2, g, d, Seen(n, fs, sl, f, c, v, g, d))
      ensures g != f || d != c ==> Calm(n, fs, sl, fs2, sl2, g, d)
    {
      assert NandFrom(n, fs, sl, fs1, g, d, View(n, fs, sl, g, d));
      assert NandFrom(n, fs1, sl1, fs2, g, d, Seen(n, fs1, sl1, f, c, v, g, d));
      assert Calm(n, fs, sl, fs1, sl1, g, d);
      assert g != f || d != c ==> Calm(n, fs1, sl1, fs2, sl2, g, d);
    }
  }

  lemma KeptKept(n: nat, fs: Files, sl: seq<Slot>, fs1: Files, sl1: seq<Slot>, fs2: Files, sl2: seq<Slot>)
    requires Kept(n, fs, sl, fs1, sl1) && Kept(n, fs1, sl1, fs2, sl2)
    ensures Kept(n, fs, sl, fs2, sl2)
  {
    hide View, Nand, IsDirty;
    forall g: nat, d: nat
      ensures NandFrom(n, fs, sl, fs2, g, d, View(n, fs, sl, g, d))
      ensures Calm(n, fs, sl, fs2, sl2, g, d)
    {
      assert NandFrom(n, fs, sl, fs1, g, d, View(n, fs, sl, g, d));
      assert NandFrom(n, fs1, sl1, fs2, g, d, View(n, fs1, sl1, g, d));
      assert Calm(n, fs, sl, fs1, sl1, g, d) && Calm(n, fs1, sl1, fs2, sl2, g, d);
    }
  }

  /** The slot that holds a chunk is the one found for it. */
  lemma FoundAt(sl: seq<Slot>, i: int, f: nat, c: nat)
    requires Unique(sl) && 0 <= i < |sl| && Holds(sl[i], f, c)
    ensures Find(sl, f, c) == i
  {
    var k := Find(sl, f, c);
    assert Holds(sl[k], f, c);
  }

  lemma ViewAt(n: nat, fs: Files, sl: seq<Slot>, i: int, f: nat, c: nat)
    requires Unique(sl) && 0 <= i < |sl| && Holds(sl[i], f, c)
    ensures View(n, fs, sl, f, c) == sl[i].data
  {
    FoundAt(sl, i, f, c);
  }

  lemma ViewNand(n: nat, fs: Files, sl: seq<Slot>, f: nat, c: nat)
    requires forall k | 0 <= k < |sl| :: !Holds(sl[k], f, c)
    ensures View(n, fs, sl, f, c) == Nand(n, fs, f, c)
  {
  }

  /** One slot changes; the views of chunks it does not hold, before or after, stay. */
  lemma OtherViews(n: nat, fs: Files, sl: seq<Slot>, i: int, s: Slot, f: nat, c: nat)
    requires Unique(sl) && 0 <= i < |sl| && Unique(sl[i := s]) && !Holds(sl[i], f, c) && !Holds(s, f, c)
    ensures View(n, fs, sl[i := s], f, c) == View(n, fs, sl, f, c)
  {
    var k := Find(sl, f, c);
    if k >= 0 {
      assert Holds(sl[i := s][k], f, c);
      FoundAt(sl[i := s], k, f, c);
    } else {
      var sl' := sl[i := s];
      assert forall j | 0 <= j < |sl| :: !Holds(sl'[j], f, c);
    }
  }

  // ----- the steps -----

  function Free(s: Slot): Slot {
    s.(obj := None, dirty := false)
  }

  function PutChunk(fs: Files, f: nat, c: nat, w: seq<Byte>): Files
    requires f in fs
  {
    fs[f := fs[f].(chunks := fs[f].chunks[c := w])]
  }

  /** NAND is as it was, or has w for chunk c of f. */
  ghost predicate NandStep(n: nat, fs: Files, fs': Files, f: nat, c: nat) {
    f in fs && (fs' == fs || exists w :: |w| == n && fs' == PutChunk(fs, f, c, w))
  }

  lemma NandStepKeeps(n: nat, fs: Files, fs': Files, f: nat, c: nat)
    requires NandStep(n, fs, fs', f, c)
    ensures SameFiles(fs, fs')
    ensures forall g: nat, d: nat | g != f || d != c :: Nand(n, fs', g, d) == Nand(n, fs, g, d)
    ensures |Nand(n, fs, f, c)| == n ==> |Nand(n, fs', f, c)| == n
  {
  }

  /** Slots other than i are as they were, and do not hold chunk c of f; slot i holds nothing else. */
  ghost predicate SlotStep(sl: seq<Slot>, sl': seq<Slot>, i: int, f: nat, c: nat) {
    && |sl'| == |sl| && 0 <= i < |sl|
    && (forall j | 0 <= j < |sl| && j != i :: sl'[j] == sl[j] && !Holds(sl[j], f, c))
    && (sl[i].obj.Some? ==> Holds(sl[i], f, c)) && (sl'[i].obj.Some? ==> Holds(sl'[i], f, c))
  }

  lemma SlotStepUnique(sl: seq<Slot>, sl': seq<Slot>, i: int, f: nat, c: nat)
    requires SlotStep(sl, sl', i, f, c) && Unique(sl)
    ensures Unique(sl')
  {
  }

  lemma SlotStepViews(n: nat, fs: Files, sl: seq<Slot>, fs': Files, sl': seq<Slot>, i: int, f: nat, c: nat, g: nat,
          d: nat)
    requires SlotStep(sl, sl', i, f, c) && Unique(sl) && Unique(sl') && NandStep(n, fs, fs', f, c)
    ensures View(n, fs', sl', g, d) == if g == f && d == c
        then (if Holds(sl'[i], f, c) then sl'[i].data else Nand(n, fs', f, c))
                                       else View(n, fs, sl, g, d)
  {
    hide NandStep, Nand;
    NandStepKeeps(n, fs, fs', f, c);
    if g == f && d == c {
      if Holds(sl'[i], f, c) {
        FoundAt(sl', i, f, c);
      } else {
        ViewNand(n, fs', sl', f, c);
      }
    } else {
      var k := Find(sl, g, d);
      if k >= 0 {
        assert Holds(sl'[k], g, d);
        FoundAt(sl', k, g, d);
      } else {
        ViewNand(n, fs', sl', g, d);
      }
    }
  }

  lemma SlotStepDirty(n: nat, fs: Files, sl: seq<Slot>, fs': Files, sl': seq<Slot>, i: int, f: nat, c: nat, g: nat,
          d: nat)
    requires SlotStep(sl, sl', i, f, c) && Unique(sl) && Unique(sl') && NandStep(n, fs, fs', f, c) && (g != f || d != c)
    ensures IsDirty(sl', g, d) == IsDirty(sl, g, d) && Nand(n, fs', g, d) == Nand(n, fs, g, d)
    ensures Calm(n, fs, sl, fs', sl', g, d)
  {
    hide NandStep, Nand;
    NandStepKeeps(n, fs, fs', f, c);
    var k := Find(sl, g, d);
    if k >= 0 {
      assert Holds(sl'[k], g, d);
      FoundAt(sl', k, g, d);
    } else {
      var m := Find(sl', g, d);
    }
  }

  /** One chunk is dealt with: its slot and its copy in NAND may change. */
  lemma StepOne(n: nat, fs: Files, sl: seq<Slot>, fs': Files, sl': seq<Slot>, i: int, f: nat, c: nat, v: seq<Byte>)
    requires CacheOk(n, fs, sl) && SlotStep(sl, sl', i, f, c) && NandStep(n, fs, fs', f, c)
    requires SlotOk(n, fs', sl'[i]) && v == (if Holds(sl'[i], f, c) then sl'[i].data else Nand(n, fs', f, c))
    requires NandFrom(n, fs, sl, fs', f, c, v)
    ensures CacheOk(n, fs', sl') && Changed(n, fs, sl, fs', sl', f, c, v)
    ensures forall d: nat | d != c :: IsDirty(sl', f, d) == IsDirty(sl, f, d) && Nand(n, fs', f, d) == Nand(n, fs, f, d)
  {
    hide NandStep, Nand, View, Unique, Calm, IsDirty;
    NandStepKeeps(n, fs, fs', f, c);
    SlotStepUnique(sl, sl', i, f, c);
    forall g: nat, d: nat
      ensures View(n, fs', sl', g, d) == Seen(n, fs, sl, f, c, v, g, d)
      ensures NandFrom(n, fs, sl, fs', g, d, Seen(n, fs, sl, f, c, v, g, d))
      ensures g != f || d != c ==>
          Calm(n, fs, sl, fs', sl', g, d) && IsDirty(sl', g, d) == IsDirty(sl, g, d)
          && Nand(n, fs', g, d) == Nand(n, fs, g, d)
    {
      SlotStepViews(n, fs, sl, fs', sl', i, f, c, g, d);
      if g != f || d != c {
        SlotStepDirty(n, fs, sl, fs', sl', i, f, c, g, d);
      }
    }
    forall j | 0 <= j < |sl'|
      ensures SlotOk(n, fs', sl'[j])
    {
      assert j != i ==> SlotOk(n, fs, sl[j]) && !Holds(sl[j], f, c);
    }
  }

  /** A chunk that is not cached is written to NAND. */
  lemma StepUncached(n: nat, fs: Files, sl: seq<Slot>, f: nat, c: nat, v: seq<Byte>)
    requires CacheOk(n, fs, sl) && f in fs && |v| == n && forall j | 0 <= j < |sl| :: !Holds(sl[j], f, c)
    ensures var fs' := PutChunk(fs, f, c, v);
            CacheOk(n, fs', sl) && Changed(n, fs, sl, fs', sl, f, c, v) && forall d: nat | d != c ::
                Nand(n, fs', f, d) == Nand(n, fs, f, d)
  {
    var fs' := PutChunk(fs, f, c, v);
    assert NandStep(n, fs, fs', f, c);
    NandStepKeeps(n, fs, fs', f, c);
    assert Nand(n, fs', f, c) == v;
    hide NandStep, Nand, View, PutChunk;
    forall g: nat, d: nat
      ensures View(n, fs', sl, g, d) == Seen(n, fs, sl, f, c, v, g, d)
      ensures NandFrom(n, fs, sl, fs', g, d, Seen(n, fs, sl, f, c, v, g, d))
    {
      UncachedViews(n, fs, sl, fs', f, c, g, d);
    }
    forall j | 0 <= j < |sl|
      ensures SlotOk(n, fs', sl[j])
    {
      assert SlotOk(n, fs, sl[j]) && !Holds(sl[j], f, c);
    }
  }

  lemma UncachedViews(n: nat, fs: Files, sl: seq<Slot>, fs': Files, f: nat, c: nat, g: nat, d: nat)
    requires NandStep(n, fs, fs', f, c) && forall j | 0 <= j < |sl| :: !Holds(sl[j], f, c)
    ensures View(n, fs', sl, g, d) == if g == f && d == c then Nand(n, fs', f, c) else View(n, fs, sl, g, d)
  {
    NandStepKeeps(n, fs, fs', f, c);
  }

  // ----- zeros past the end -----

  lemma ZeroView(n: nat, fs: Files, sl: seq<Slot>, f: nat, c: nat, z: int)
    requires ZeroFrom(n, fs, sl, f, z)
    ensures ZeroTail(n, c, View(n, fs, sl, f, c), z)
  {
    assert ZeroTail(n, c, Nand(n, fs, f, c), z);
  }

  lemma SlotIsView(n: nat, fs: Files, sl: seq<Slot>, i: int, f: nat)
    requires CacheOk(n, fs, sl) && 0 <= i < |sl| && sl[i].obj == Some(f)
    ensures View(n, fs, sl, f, sl[i].chunkId) == sl[i].data
  {
    ViewAt(n, fs, sl, i, f, sl[i].chunkId);
  }

  lemma ZeroChanged(n: nat, fs: Files, sl: seq<Slot>, fs': Files, sl': seq<Slot>, f: nat, c: nat, v: seq<Byte>, g: nat,
          z: int)
    requires Changed(n, fs, sl, fs', sl', f, c, v) && CacheOk(n, fs', sl') && ZeroFrom(n, fs, sl, g, z)
    requires g == f ==> ZeroTail(n, c, v, z)
    ensures ZeroFrom(n, fs', sl', g, z)
  {
    hide View, Nand, ZeroTail;
    forall d: nat
      ensures ZeroTail(n, d, Nand(n, fs', g, d), z)
    {
      ZeroView(n, fs, sl, g, d, z);
      assert ZeroTail(n, d, Nand(n, fs, g, d), z);
      assert NandFrom(n, fs, sl, fs', g, d, Seen(n, fs, sl, f, c, v, g, d));
    }
    forall i | 0 <= i < |sl'| && sl'[i].obj == Some(g)
      ensures ZeroTail(n, sl'[i].chunkId, sl'[i].data, z)
    {
      SlotIsView(n, fs', sl', i, g);
      ZeroView(n, fs, sl, g, sl'[i].chunkId, z);
      assert View(n, fs', sl', g, sl'[i].chunkId) == Seen(n, fs, sl, f, c, v, g, sl'[i].chunkId);
    }
  }

  /** What a change to chunk c of f does to the other files, and to f when the change ends by z. */
  lemma PastEndChanged(n: nat, fs: Files, sl: seq<Slot>, fs': Files, sl': seq<Slot>, f: nat, c: nat, v: seq<Byte>,
          except: Option<nat>)
    requires Changed(n, fs, sl, fs', sl', f, c, v) && CacheOk(n, fs', sl') && PastEndZero(n, fs, sl, except)
    requires f in fs && Some(f) != except ==> ZeroTail(n, c, v, fs[f].size)
    ensures PastEndZero(n, fs', sl', except)
  {
    hide View, Nand, ZeroTail, CacheOk, Changed;
    ChangedFiles(n, fs, sl, fs', sl', f, c, v);
    forall g | g in fs' && Some(g) != except
      ensures ZeroFrom(n, fs', sl', g, fs'[g].size)
    {
      ZeroChanged(n, fs, sl, fs', sl', f, c, v, g, fs[g].size);
    }
  }

  lemma ChangedFiles(n: nat, fs: Files, sl: seq<Slot>, fs': Files, sl': seq<Slot>, f: nat, c: nat, v: seq<Byte>)
    requires Changed(n, fs, sl, fs', sl', f, c, v)
    ensures SameFiles(fs, fs')
  {
  }

  lemma PastEndKept(n: nat, fs: Files, sl: seq<Slot>, fs': Files, sl': seq<Slot>, except: Option<nat>)
    requires Kept(n, fs, sl, fs', sl') && CacheOk(n, fs', sl') && PastEndZero(n, fs, sl, except)
    ensures PastEndZero(n, fs', sl', except)
  {
    hide View, Nand, ZeroTail, CacheOk, Changed;
    KeptIsChanged(n, fs, sl, fs', sl', 0, 0);
    if 0 in fs && Some(0) != except {
      ZeroView(n, fs, sl, 0, 0, fs[0].size);
    }
    PastEndChanged(n, fs, sl, fs', sl', 0, 0, View(n, fs, sl, 0, 0), except);
  }

  lemma ZeroKept(n: nat, fs: Files, sl: seq<Slot>, fs': Files, sl': seq<Slot>, g: nat, z: int)
    requires Kept(n, fs, sl, fs', sl') && CacheOk(n, fs', sl') && ZeroFrom(n, fs, sl, g, z)
    ensures ZeroFrom(n, fs', sl', g, z)
  {
    hide View, Nand, ZeroTail, CacheOk, Changed;
    KeptIsChanged(n, fs, sl, fs', sl', g, 0);
    ZeroView(n, fs, sl, g, 0, z);
    ZeroChanged(n, fs, sl, fs', sl', g, 0, View(n, fs, sl, g, 0), g, z);
  }

  // ----- bookkeeping in the slots -----

  ghost predicate Refreshed(sl: seq<Slot>, sl': seq<Slot>) {
    |sl'| == |sl| && forall j | 0 <= j < |sl| :: sl'[j] == sl[j].(lastUse := sl'[j].lastUse)
  }

  lemma RefreshedKeeps(n: nat, fs: Files, sl: seq<Slot>, sl': seq<Slot>)
    requires CacheOk(n, fs, sl) && Refreshed(sl, sl')
    ensures CacheOk(n, fs, sl') && Kept(n, fs, sl, fs, sl')
  {
    hide Nand;
    assert forall j | 0 <= j < |sl| :: SlotOk(n, fs, sl[j]) ==> SlotOk(n, fs, sl'[j]);
    forall g: nat, d: nat
      ensures View(n, fs, sl', g, d) == View(n, fs, sl, g, d)
    {
      var k := Find(sl, g, d);
      if k >= 0 {
        FoundAt(sl', k, g, d);
      } else {
        assert forall j | 0 <= j < |sl'| :: Holds(sl'[j], g, d) == Holds(sl[j], g, d);
      }
    }
  }

  /** No entry is dirty that was not. */
  ghost predicate FewerDirty(sl: seq<Slot>, sl': seq<Slot>) {
    |sl'| == |sl| && forall j | 0 <= j < |sl| && sl'[j].obj.Some? && sl'[j].dirty ::
        sl[j].obj == sl'[j].obj && sl[j].dirty
  }

  lemma DirtyFewer(fs: Files, sl: seq<Slot>, fs': Files, sl': seq<Slot>, x: Option<nat>)
    requires DirtyOk(fs, sl, x) && SameFiles(fs, fs') && FewerDirty(sl, sl')
    ensures DirtyOk(fs', sl', x)
  {
  }

  function DirtyOf(sl: seq<Slot>, f: nat): set<int> {
    set i | 0 <= i < |sl| && sl[i].obj == Some(f) && sl[i].dirty
  }

  /** An entry is written to NAND and dropped. */
  lemma FlushSlot(n: nat, fs: Files, sl: seq<Slot>, i: int, f: nat)
    requires CacheOk(n, fs, sl) && 0 <= i < |sl| && sl[i].obj == Some(f) && f in fs
    ensures var fs' := PutChunk(fs, f, sl[i].chunkId, sl[i].data);
            var sl' := sl[i := Free(sl[i])];
            CacheOk(n, fs', sl') && Kept(n, fs, sl, fs', sl') && FewerDirty(sl, sl')
  {
    var c := sl[i].chunkId;
    var v := sl[i].data;
    var fs' := PutChunk(fs, f, c, v);
    var sl' := sl[i := Free(sl[i])];
    assert SlotOk(n, fs, sl[i]);
    ViewAt(n, fs, sl, i, f, c);
    assert SlotStep(sl, sl', i, f, c);
    assert NandStep(n, fs, fs', f, c);
    StepOne(n, fs, sl, fs', sl', i, f, c, v);
    ChangedNothing(n, fs, sl, fs', sl', f, c, v);
  }

  lemma ChangedNothing(n: nat, fs: Files, sl: seq<Slot>, fs': Files, sl': seq<Slot>, f: nat, c: nat, v: seq<Byte>)
    requires Changed(n, fs, sl, fs', sl', f, c, v) && v == View(n, fs, sl, f, c) && !IsDirty(sl', f, c)
    ensures Kept(n, fs, sl, fs', sl')
  {
    hide View, Nand, IsDirty;
    forall g: nat, d: nat
      ensures View(n, fs', sl', g, d) == View(n, fs, sl, g, d)
      ensures NandFrom(n, fs, sl, fs', g, d, View(n, fs, sl, g, d))
    {
      assert Calm(n, fs, sl, fs', sl', g, d);
      assert Seen(n, fs, sl, f, c, v, g, d) == View(n, fs, sl, g, d);
      assert NandFrom(n, fs, sl, fs', g, d, Seen(n, fs, sl, f, c, v, g, d));
    }
  }

  /** Dropping a clean entry changes nothing. */
  lemma FreeClean(n: nat, fs: Files, sl: seq<Slot>, i: int)
    requires CacheOk(n, fs, sl) && 0 <= i < |sl| && (sl[i].obj.Some? ==> !sl[i].dirty)
    ensures var sl' := sl[i := Free(sl[i])]; CacheOk(n, fs, sl') && Kept(n, fs, sl, fs, sl')
  {
    hide View, Nand;
    var s := Free(sl[i]);
    assert SlotOk(n, fs, sl[i]);
    assert Unique(sl[i := s]);
    forall g: nat, d: nat
      ensures View(n, fs, sl[i := s], g, d) == View(n, fs, sl, g, d)
    {
      if Holds(sl[i], g, d) {
        ViewAt(n, fs, sl, i, g, d);
        ViewNand(n, fs, sl[i := s], g, d);
      } else {
        OtherViews(n, fs, sl, i, s, g, d);
      }
    }
  }

  /** A free slot takes a chunk that is not cached. */
  lemma FillSlot(n: nat, fs: Files, sl: seq<Slot>, i: int, f: nat, c: nat)
    requires CacheOk(n, fs, sl) && 0 <= i < |sl| && (sl[i].obj.Some? ==> !sl[i].dirty) && f in fs && c > 0
    requires forall j | 0 <= j < |sl| :: !Holds(sl[j], f, c)
    ensures var sl' := sl[i := Slot(Some(f), c, false, 0, sl[i].lastUse, Nand(n, fs, f, c))];
            CacheOk(n, fs, sl') && Kept(n, fs, sl, fs, sl') && FewerDirty(sl, sl') && Holds(sl'[i], f, c)
  {
    var v := Nand(n, fs, f, c);
    var sl0 := sl[i := Free(sl[i])];
    var sl' := sl[i := Slot(Some(f), c, false, 0, sl[i].lastUse, v)];
    FreeClean(n, fs, sl, i);
    ViewNand(n, fs, sl0, f, c);
    assert SlotStep(sl0, sl', i, f, c) && NandStep(n, fs, fs, f, c);
    StepOne(n, fs, sl0, fs, sl', i, f, c, v);
    ChangedNothing(n, fs, sl0, fs, sl', f, c, v);
    KeptKept(n, fs, sl, fs, sl0, fs, sl');
  }

  /** A cached chunk is written to, in the cache alone or through to NAND. */
  lemma PatchSlot(n: nat, fs: Files, sl: seq<Slot>, i: int, f: nat, c: nat, v: seq<Byte>, nBytes: nat, through: bool)
    requires CacheOk(n, fs, sl) && 0 <= i < |sl| && Holds(sl[i], f, c) && f in fs && |v| == n && 0 < nBytes <= n
    ensures var fs' := if through then PutChunk(fs, f, c, v) else fs;
            var sl' := sl[i := sl[i].(data := v, nBytes := nBytes, dirty := !through)];
            CacheOk(n, fs', sl') && Changed(n, fs, sl, fs', sl', f, c, v)
  {
    var fs' := if through then PutChunk(fs, f, c, v) else fs;
    var sl' := sl[i := sl[i].(data := v, nBytes := nBytes, dirty := !through)];
    assert SlotOk(n, fs, sl[i]);
    assert SlotStep(sl, sl', i, f, c);
    assert NandStep(n, fs, fs', f, c);
    assert Nand(n, fs', f, c) == if through then v else Nand(n, fs, f, c);
    StepOne(n, fs, sl, fs', sl', i, f, c, v);
  }

  /** A whole chunk goes to NAND, or fails to; either way the entry for it is dropped. */
  lemma DropSlot(n: nat, fs: Files, sl: seq<Slot>, i: int, f: nat, c: nat, v: seq<Byte>, ok: bool)
    requires CacheOk(n, fs, sl) && 0 <= i < |sl| && Holds(sl[i], f, c) && f in fs && |v| == n
    ensures var fs' := if ok then PutChunk(fs, f, c, v) else fs;
            var sl' := sl[i := Free(sl[i])];
            CacheOk(n, fs', sl') && Changed(n, fs, sl, fs', sl', f, c, if ok then v else Nand(n, fs, f, c))
                && FewerDirty(sl, sl')
            && (forall d: nat | d != c ::
                IsDirty(sl', f, d) == IsDirty(sl, f, d) && Nand(n, fs', f, d) == Nand(n, fs, f, d))
            && (forall j | 0 <= j < |sl| :: !Holds(sl'[j], f, c))
  {
    var fs' := if ok then PutChunk(fs, f, c, v) else fs;
    var sl' := sl[i := Free(sl[i])];
    assert SlotOk(n, fs, sl[i]);
    assert SlotStep(sl, sl', i, f, c);
    assert NandStep(n, fs, fs', f, c);
    assert Nand(n, fs', f, c) == if ok then v else Nand(n, fs, f, c);
    StepOne(n, fs, sl, fs', sl', i, f, c, if ok then v else Nand(n, fs, f, c));
  }

  // ----- patched views -----

  lemma ChunksApart(n: nat, c: nat, d: nat)
    requires c < d
    ensures Base(n, c) + n <= Base(n, d)
  {
    assert (d - 1 - c) * n >= 0;
    assert Base(n, d) == Base(n, c) + n + (d - 1 - c) * n;
  }

  /** s, the bytes of chunk c, after d has been written at offset. */
  function Patch(n: nat, s: seq<Byte>, c: nat, offset: nat, d: seq<Byte>): (r: seq<Byte>)
    ensures |r| == |s|
  {
    seq(|s|, k requires 0 <= k < |s| => if offset <= Base(n, c) + k < offset + |d| then d[Base(n, c) + k - offset]
        else s[k])
  }

  /** Reads see d written at offset of f, and everything else as it was; but if lost is not 0, chunk
      lost of f holds back instead. */
  ghost predicate Patched(n: nat, fs: Files, sl: seq<Slot>, fs': Files, sl': seq<Slot>, f: nat, offset: nat,
          d: seq<Byte>, lost: nat, back: seq<Byte>) {
    forall g: nat, c: nat :: View(n, fs', sl', g, c) == Wanted(n, fs, sl, f, offset, d, lost, back, g, c)
  }

  function Wanted(n: nat, fs: Files, sl: seq<Slot>, f: nat, offset: nat, d: seq<Byte>, lost: nat, back: seq<Byte>,
          g: nat, c: nat): seq<Byte> {
    if g != f || c == 0 then View(n, fs, sl, g, c)
    else if c == lost then back
    else Patch(n, View(n, fs, sl, f, c), c, offset, d)
  }

  lemma PatchNothing(n: nat, s: seq<Byte>, c: nat, offset: nat)
    ensures Patch(n, s, c, offset, []) == s
  {
  }

  lemma PatchedNothing(n: nat, fs: Files, sl: seq<Slot>, fs': Files, sl': seq<Slot>, f: nat, offset: nat)
    requires Kept(n, fs, sl, fs', sl')
    ensures Patched(n, fs, sl, fs', sl', f, offset, [], 0, [])
  {
    hide View, Nand, Patch;
    forall g: nat, c: nat
      ensures View(n, fs', sl', g, c) == Wanted(n, fs, sl, f, offset, [], 0, [], g, c)
    {
      PatchNothing(n, View(n, fs, sl, f, c), c, offset);
    }
  }

  /** Bytes written within chunk c leave the patches of other chunks alone. */
  lemma PatchOther(n: nat, s: seq<Byte>, c: nat, d: nat, offset: nat, data: seq<Byte>, k: nat, m: nat)
    requires c != d && |s| <= n && k <= m <= |data| && Base(n, d) <= offset + k && offset + m <= Base(n, d) + n
    ensures Patch(n, s, c, offset, data[..m]) == Patch(n, s, c, offset, data[..k])
  {
    hide Base;
    if c < d { ChunksApart(n, c, d); } else { ChunksApart(n, d, c); }
  }

  function Splice(s: seq<Byte>, start: nat, piece: seq<Byte>): (r: seq<Byte>)
    requires start + |piece| <= |s|
    ensures |r| == |s|
  {
    s[..start] + piece + s[start + |piece|..]
  }

  lemma PatchMore(n: nat, s: seq<Byte>, c: nat, offset: nat, data: seq<Byte>, k: nat, m: nat)
    requires |s| == n && k <= m <= |data| && Base(n, c) <= offset + k && offset + m <= Base(n, c) + n
    ensures Splice(Patch(n, s, c, offset, data[..k]), offset + k - Base(n, c), data[k..m])
        == Patch(n, s, c, offset, data[..m])
  {
    hide Base;
  }

  lemma PatchedMore(n: nat, fs: Files, sl: seq<Slot>, fs1: Files, sl1: seq<Slot>, fs2: Files, sl2: seq<Slot>, f: nat,
          c: nat, offset: nat, data: seq<Byte>, k: nat, m: nat)
    requires k <= m <= |data| && Base(n, c) <= offset + k && offset + m <= Base(n, c) + n
    requires Patched(n, fs, sl, fs1, sl1, f, offset, data[..k], 0, []) && c > 0
    requires forall g: nat, d: nat :: |View(n, fs, sl, g, d)| == n
    requires |View(n, fs1, sl1, f, c)| == n
    requires Changed(n, fs1, sl1, fs2, sl2, f, c, Splice(View(n, fs1, sl1, f, c), offset + k - Base(n, c), data[k..m]))
    ensures Patched(n, fs, sl, fs2, sl2, f, offset, data[..m], 0, [])
  {
    hide View, Nand, Patch, Splice, Base;
    var v := Splice(View(n, fs1, sl1, f, c), offset + k - Base(n, c), data[k..m]);
    forall g: nat, d: nat
      ensures View(n, fs2, sl2, g, d) == Wanted(n, fs, sl, f, offset, data[..m], 0, [], g, d)
    {
      assert View(n, fs2, sl2, g, d) == Seen(n, fs1, sl1, f, c, v, g, d);
      assert View(n, fs1, sl1, g, d) == Wanted(n, fs, sl, f, offset, data[..k], 0, [], g, d);
      if g == f && d == c {
        PatchMore(n, View(n, fs, sl, f, c), c, offset, data, k, m);
      } else if g == f && d > 0 {
        PatchOther(n, View(n, fs, sl, f, d), d, c, offset, data, k, m);
      }
    }
  }

  /** The chunk whose whole write failed has lost what the cache held of it. */
  lemma PatchedLost(n: nat, fs: Files, sl: seq<Slot>, fs1: Files, sl1: seq<Slot>, fs2: Files, sl2: seq<Slot>, f: nat,
          c: nat, offset: nat, d: seq<Byte>, back: seq<Byte>)
    requires Patched(n, fs, sl, fs1, sl1, f, offset, d, 0, []) && c > 0
    requires Changed(n, fs1, sl1, fs2, sl2, f, c, back)
    ensures Patched(n, fs, sl, fs2, sl2, f, offset, d, c, back)
  {
    hide View, Nand, Patch;
    forall g: nat, e: nat
      ensures View(n, fs2, sl2, g, e) == Wanted(n, fs, sl, f, offset, d, c, back, g, e)
    {
      assert View(n, fs2, sl2, g, e) == Seen(n, fs1, sl1, f, c, back, g, e);
      assert View(n, fs1, sl1, g, e) == Wanted(n, fs, sl, f, offset, d, 0, [], g, e);
    }
  }

  lemma PatchedKept(n: nat, fs: Files, sl: seq<Slot>, fs1: Files, sl1: seq<Slot>, fs2: Files, sl2: seq<Slot>, f: nat,
          offset: nat, d: seq<Byte>, lost: nat, back: seq<Byte>)
    requires Patched(n, fs, sl, fs1, sl1, f, offset, d, lost, back) && Kept(n, fs1, sl1, fs2, sl2)
    ensures Patched(n, fs, sl, fs2, sl2, f, offset, d, lost, back)
  {
    hide View, Nand, Patch;
    forall g: nat, e: nat
      ensures View(n, fs2, sl2, g, e) == Wanted(n, fs, sl, f, offset, d, lost, back, g, e)
    {
      assert View(n, fs1, sl1, g, e) == Wanted(n, fs, sl, f, offset, d, lost, back, g, e);
    }
  }

  lemma ViewSize(n: nat, fs: Files, sl: seq<Slot>, f: nat, c: nat)
    requires CacheOk(n, fs, sl)
    ensures |View(n, fs, sl, f, c)| == n
  {
    var i := Find(sl, f, c);
    if i >= 0 {
      assert SlotOk(n, fs, sl[i]);
    }
  }

  lemma ViewSizes(n: nat, fs: Files, sl: seq<Slot>)
    requires CacheOk(n, fs, sl)
    ensures forall f: nat, c: nat :: |View(n, fs, sl, f, c)| == n
  {
    forall f: nat, c: nat
      ensures |View(n, fs, sl, f, c)| == n
    {
      ViewSize(n, fs, sl, f, c);
    }
  }

  /** Bytes written before z, or zeros, keep the file zero from z on. */
  lemma SpliceZero(n: nat, c: nat, s: seq<Byte>, start: nat, piece: seq<Byte>, z: int)
    requires ZeroTail(n, c, s, z) && start + |piece| <= |s|
    requires forall k | 0 <= k < |piece| && z <= Base(n, c) + start + k :: piece[k] == 0
    ensures ZeroTail(n, c, Splice(s, start, piece), z)
  {
    var r := Splice(s, start, piece);
    forall k | 0 <= k < |r| && z <= Base(n, c) + k
      ensures r[k] == 0
    {
      if start <= k < start + |piece| {
        assert r[k] == piece[k - start];
      }
    }
  }

  /** Byte i of file f, as a read sees it. */
  function ByteAt(n: nat, fs: Files, sl: seq<Slot>, f: nat, i: nat): Byte
    requires n > 0
  {
    var v := View(n, fs, sl, f, i / n + 1);
    if i % n < |v| then v[i % n] else 0
  }

  lemma KeptByte(n: nat, fs: Files, sl: seq<Slot>, fs': Files, sl': seq<Slot>, f: nat, i: nat)
    requires n > 0 && Kept(n, fs, sl, fs', sl')
    ensures ByteAt(n, fs', sl', f, i) == ByteAt(n, fs, sl, f, i)
  {
    hide View, Nand, NandFrom;
  }

  /** buffer is what reads see of f from offset on. */
  ghost predicate Reads(n: nat, fs: Files, sl: seq<Slot>, f: nat, offset: nat, buffer: seq<Byte>)
    requires n > 0
  {
    forall k | 0 <= k < |buffer| :: buffer[k] == ByteAt(n, fs, sl, f, offset + k)
  }

  lemma ReadsMore(n: nat, fs: Files, sl: seq<Slot>, fs': Files, sl': seq<Slot>, f: nat, offset: nat, buffer: seq<Byte>,
          piece: seq<Byte>)
    requires n > 0 && Kept(n, fs, sl, fs', sl') && Reads(n, fs, sl, f, offset, buffer)
        && Reads(n, fs', sl', f, offset + |buffer|, piece)
    ensures Reads(n, fs, sl, f, offset, buffer + piece)
  {
    hide ByteAt, Kept;
    var all := buffer + piece;
    forall k | 0 <= k < |all|
      ensures all[k] == ByteAt(n, fs, sl, f, offset + k)
    {
      if k >= |buffer| {
        KeptByte(n, fs, sl, fs', sl', f, offset + k);
        assert piece[k - |buffer|] == ByteAt(n, fs', sl', f, offset + |buffer| + (k - |buffer|));
      }
    }
  }

  /** The bytes of a piece, all in one chunk, are read from its view. */
  lemma PieceReads(n: nat, fs: Files, sl: seq<Slot>, f: nat, pos: nat, piece: seq<Byte>)
    requires n > 0 && pos % n + |piece| <= n && |View(n, fs, sl, f, pos / n + 1)| == n
    requires piece == View(n, fs, sl, f, pos / n + 1)[pos % n..pos % n + |piece|]
    ensures Reads(n, fs, sl, f, pos, piece)
  {
    hide View;
    forall j | 0 <= j < |piece|
      ensures piece[j] == ByteAt(n, fs, sl, f, pos + j)
    {
      SameChunk(pos, n, j);
    }
  }

  // ----- files as flat arrays of bytes -----

  /** The bytes of file f. */
  function Contents(n: nat, fs: Files, sl: seq<Slot>, f: nat): (s: seq<Byte>)
    requires n > 0 && f in fs
    ensures |s| == fs[f].size
  {
    seq(fs[f].size, i requires 0 <= i => ByteAt(n, fs, sl, f, i))
  }

  /** d written into s at offset; a gap is filled with zeros. */
  function FlatWrite(s: seq<Byte>, offset: nat, d: seq<Byte>): seq<Byte> {
    seq(Max(|s|, offset + |d|), i requires 0 <= i => if offset <= i < offset + |d| then d[i - offset] else if i < |s|
        then s[i] else 0)
  }

  /** s cut or padded with zeros to size bytes. */
  function FlatResize(s: seq<Byte>, size: nat): seq<Byte> {
    seq(size, i requires 0 <= i => if i < |s| then s[i] else 0)
  }

  /** nBytes of s from offset on; past the end there are zeros. */
  function FlatRead(s: seq<Byte>, offset: nat, nBytes: nat): seq<Byte> {
    seq(nBytes, k requires 0 <= k => if offset + k < |s| then s[offset + k] else 0)
  }

  /** Past the end a file reads as zeros. */
  lemma PastEndByte(n: nat, fs: Files, sl: seq<Slot>, f: nat, i: nat, z: int)
    requires n > 0 && ZeroFrom(n, fs, sl, f, z) && z <= i
    ensures ByteAt(n, fs, sl, f, i) == 0
  {
    hide ZeroFrom, View;
    ZeroView(n, fs, sl, f, i / n + 1, z);
    RemainderIs(i, n);
    assert Base(n, i / n + 1) + i % n == i;
  }

  lemma ReadIsFlat(n: nat, fs: Files, sl: seq<Slot>, f: nat, offset: nat, buffer: seq<Byte>)
    requires n > 0 && f in fs && Reads(n, fs, sl, f, offset, buffer) && ZeroFrom(n, fs, sl, f, fs[f].size)
    ensures buffer == FlatRead(Contents(n, fs, sl, f), offset, |buffer|)
  {
    hide ZeroFrom, ByteAt;
    forall k | 0 <= k < |buffer|
      ensures buffer[k] == FlatRead(Contents(n, fs, sl, f), offset, |buffer|)[k]
    {
      if offset + k >= fs[f].size {
        PastEndByte(n, fs, sl, f, offset + k, fs[f].size);
      }
    }
  }

  lemma SameContents(n: nat, fs: Files, sl: seq<Slot>, fs': Files, sl': seq<Slot>, f: nat)
    requires n > 0 && f in fs && f in fs' && fs'[f].size == fs[f].size
    requires forall c: nat :: View(n, fs', sl', f, c) == View(n, fs, sl, f, c)
    ensures Contents(n, fs', sl', f) == Contents(n, fs, sl, f)
  {
    hide View;
  }

  lemma PatchedByte(n: nat, fs: Files, sl: seq<Slot>, fs': Files, sl': seq<Slot>, f: nat, offset: nat, d: seq<Byte>,
          lost: nat, back: seq<Byte>, i: nat)
    requires n > 0 && CacheOk(n, fs, sl) && Patched(n, fs, sl, fs', sl', f, offset, d, lost, back)
    ensures i / n + 1 != lost ==> ByteAt(n, fs', sl', f, i) == if offset <= i < offset + |d| then d[i - offset]
        else ByteAt(n, fs, sl, f, i)
    ensures i / n + 1 == lost && |back| == n ==> ByteAt(n, fs', sl', f, i) == back[i % n]
  {
    hide View, CacheOk;
    var c := i / n + 1;
    ViewSize(n, fs, sl, f, c);
    RemainderIs(i, n);
    assert Base(n, c) + i % n == i;
    assert View(n, fs', sl', f, c) == Wanted(n, fs, sl, f, offset, d, lost, back, f, c);
  }

  /** Nothing is lost: the file is the flat array with d written into it. */
  lemma PatchedIsFlat(n: nat, fs: Files, sl: seq<Slot>, fs': Files, sl': seq<Slot>, f: nat, offset: nat, d: seq<Byte>)
    requires n > 0 && CacheOk(n, fs, sl) && Patched(n, fs, sl, fs', sl', f, offset, d, 0, [])
    requires f in fs && f in fs' && fs'[f].size == Max(fs[f].size, offset + |d|) && ZeroFrom(n, fs, sl, f, fs[f].size)
    ensures Contents(n, fs', sl', f) == FlatWrite(Contents(n, fs, sl, f), offset, d)
  {
    hide ByteAt, CacheOk, ZeroFrom, Patched;
    var s, w := Contents(n, fs', sl', f), FlatWrite(Contents(n, fs, sl, f), offset, d);
    forall i: nat | i < |s|
      ensures s[i] == w[i]
    {
      PatchedByte(n, fs, sl, fs', sl', f, offset, d, 0, [], i);
      if i >= fs[f].size {
        PastEndByte(n, fs, sl, f, i, fs[f].size);
      }
    }
  }

  /** s is w but for chunk lost, if that is not 0, where it is back. */
  ghost predicate AsWritten(n: nat, s: seq<Byte>, w: seq<Byte>, lost: nat, back: seq<Byte>)
    requires n > 0
  {
    && |s| == |w| && (lost != 0 ==> |back| == n)
    && forall i: nat | i < |s| :: s[i] == if lost != 0 && i / n + 1 == lost then back[i % n] else w[i]
  }

  lemma AllWritten(n: nat, s: seq<Byte>, back: seq<Byte>)
    requires n > 0
    ensures AsWritten(n, s, s, 0, back)
  {
  }

  /** Chunk lost has gone back to what NAND held of it: the file is the flat array if and only if that
      is what the cache held too. */
  lemma LostIsFlat(n: nat, fs: Files, sl: seq<Slot>, fs': Files, sl': seq<Slot>, f: nat, offset: nat, d: seq<Byte>,
          lost: nat, back: seq<Byte>)
    requires n > 0 && CacheOk(n, fs, sl) && Patched(n, fs, sl, fs', sl', f, offset, d, lost, back)
    requires f in fs && f in fs' && fs'[f].size == Max(fs[f].size, offset + |d|) && ZeroFrom(n, fs, sl, f, fs[f].size)
    requires lost > 0 && |back| == n && offset + |d| <= Base(n, lost) && ZeroTail(n, lost, back, fs'[f].size)
    ensures AsWritten(n, Contents(n, fs', sl', f), FlatWrite(Contents(n, fs, sl, f), offset, d), lost, back)
    ensures Contents(n, fs', sl', f) == FlatWrite(Contents(n, fs, sl, f), offset, d) <==>
        back == View(n, fs, sl, f, lost)
  {
    hide ByteAt, CacheOk, ZeroFrom, Patched, View;
    var s, w, v := Contents(n, fs', sl', f), FlatWrite(Contents(n, fs, sl, f), offset, d), View(n, fs, sl, f, lost);
    ViewSize(n, fs, sl, f, lost);
    forall i: nat | i < |s|
      ensures s[i] == if i / n + 1 == lost then back[i % n] else w[i]
      ensures i / n + 1 == lost ==> w[i] == v[i % n]
    {
      PatchedByte(n, fs, sl, fs', sl', f, offset, d, lost, back, i);
      RemainderIs(i, n);
      assert i / n + 1 == lost ==> Base(n, lost) + i % n == i;
      LostByte(n, fs, sl, f, lost, i);
      if i >= fs[f].size {
        PastEndByte(n, fs, sl, f, i, fs[f].size);
      }
    }
    if s == w {
      forall k: nat | k < n
        ensures back[k] == v[k]
      {
        var i: nat := Base(n, lost) + k;
        ChunkOf(n, lost, k);
        LostByte(n, fs, sl, f, lost, i);
        if i >= |s| {
          PastEndByte(n, fs, sl, f, i, fs[f].size);
        }
      }
      assert back == v;
    } else {
      assert exists i: nat :: i < |s| && s[i] != w[i];
    }
  }

  lemma LostByte(n: nat, fs: Files, sl: seq<Slot>, f: nat, lost: nat, i: nat)
    requires n > 0 && CacheOk(n, fs, sl)
    ensures |View(n, fs, sl, f, lost)| == n
    ensures i / n + 1 == lost ==> ByteAt(n, fs, sl, f, i) == View(n, fs, sl, f, lost)[i % n]
  {
    ViewSize(n, fs, sl, f, lost);
  }

  lemma ChunkOf(n: nat, c: nat, k: nat)
    requires n > 0 && c > 0 && k < n
    ensures Base(n, c) + k >= 0 && (Base(n, c) + k) / n + 1 == c && (Base(n, c) + k) % n == k
  {
    QuotientIs((c - 1) * n + k, n, c - 1, k);
  }

  lemma CutIsFlat(n: nat, fs: Files, sl: seq<Slot>, fs': Files, sl': seq<Slot>, f: nat)
    requires n > 0 && CacheOk(n, fs, sl) && f in fs && f in fs' && fs'[f].size <= fs[f].size
    requires ViewsCut(n, fs, sl, fs', sl', f, fs'[f].size)
    ensures Contents(n, fs', sl', f) == FlatResize(Contents(n, fs, sl, f), fs'[f].size)
  {
    hide View, CacheOk;
    var s, w := Contents(n, fs', sl', f), FlatResize(Contents(n, fs, sl, f), fs'[f].size);
    forall i: nat | i < |s|
      ensures s[i] == w[i]
    {
      var c := i / n + 1;
      ViewSize(n, fs, sl, f, c);
      RemainderIs(i, n);
      assert Base(n, c) + i % n == i;
      assert View(n, fs', sl', f, c) == Cut(n, View(n, fs, sl, f, c), f, fs'[f].size, f, c);
    }
  }

  /** A file that grows without anything being written to it gains zeros. */
  lemma GrownIsFlat(n: nat, fs: Files, sl: seq<Slot>, fs': Files, sl': seq<Slot>, f: nat)
    requires n > 0 && f in fs && f in fs' && fs[f].size <= fs'[f].size && SameViews(n, fs, sl, fs', sl')
    requires ZeroFrom(n, fs, sl, f, fs[f].size)
    ensures Contents(n, fs', sl', f) == FlatResize(Contents(n, fs, sl, f), fs'[f].size)
  {
    hide View, ZeroFrom;
    var s, w := Contents(n, fs', sl', f), FlatResize(Contents(n, fs, sl, f), fs'[f].size);
    forall i: nat | i < |s|
      ensures s[i] == w[i]
    {
      assert View(n, fs', sl', f, i / n + 1) == View(n, fs, sl, f, i / n + 1);
      if i >= fs[f].size {
        PastEndByte(n, fs, sl, f, i, fs[f].size);
      }
    }
  }

  // ----- cutting a file -----

  /** The bytes of chunk c with everything from offset z on set to zero. */
  function Trunc(n: nat, s: seq<Byte>, c: nat, z: int): (r: seq<Byte>)
    ensures |r| == |s| && ZeroTail(n, c, r, z) && (ZeroTail(n, c, s, z) ==> r == s)
  {
    seq(|s|, k requires 0 <= k < |s| => if Base(n, c) + k < z then s[k] else 0)
  }

  function Cut(n: nat, s: seq<Byte>, f: nat, z: int, g: nat, c: nat): seq<Byte> {
    if g == f then Trunc(n, s, c, z) else s
  }

  /** NAND holds of f what it held, cut at z. */
  ghost predicate NandCut(n: nat, fs: Files, fs': Files, f: nat, z: int) {
    forall g: nat, c: nat :: Nand(n, fs', g, c) == Cut(n, Nand(n, fs, g, c), f, z, g, c)
  }

  ghost predicate ViewsCut(n: nat, fs: Files, sl: seq<Slot>, fs': Files, sl': seq<Slot>, f: nat, z: int) {
    forall g: nat, c: nat :: View(n, fs', sl', g, c) == Cut(n, View(n, fs, sl, g, c), f, z, g, c)
  }

  ghost predicate SameViews(n: nat, fs: Files, sl: seq<Slot>, fs': Files, sl': seq<Slot>) {
    forall g: nat, c: nat :: View(n, fs', sl', g, c) == View(n, fs, sl, g, c)
  }

  /** The cache may stay as it is when it has nothing of f, or f is zero from z on already. */
  lemma CutState(n: nat, fs: Files, sl: seq<Slot>, fs': Files, f: nat, z: int)
    requires CacheOk(n, fs, sl) && NandCut(n, fs, fs', f, z) && fs.Keys <= fs'.Keys
    requires (forall i | 0 <= i < |sl| :: sl[i].obj != Some(f)) || ZeroFrom(n, fs, sl, f, z)
    ensures CacheOk(n, fs', sl) && ViewsCut(n, fs, sl, fs', sl, f, z) && ZeroFrom(n, fs', sl, f, z)
    ensures forall g: nat, y | g != f && ZeroFrom(n, fs, sl, g, y) :: ZeroFrom(n, fs', sl, g, y)
  {
    hide Nand, Trunc;
    forall g: nat, c: nat
      ensures View(n, fs', sl, g, c) == Cut(n, View(n, fs, sl, g, c), f, z, g, c)
    {
      assert Nand(n, fs', g, c) == Cut(n, Nand(n, fs, g, c), f, z, g, c);
      var i := Find(sl, g, c);
      if i >= 0 && g == f {
        assert ZeroTail(n, sl[i].chunkId, sl[i].data, z);
      }
    }
    forall j | 0 <= j < |sl|
      ensures SlotOk(n, fs', sl[j])
    {
      assert SlotOk(n, fs, sl[j]);
      if sl[j].obj.Some? {
        var g, c := sl[j].obj.value, sl[j].chunkId;
        assert Nand(n, fs', g, c) == Cut(n, Nand(n, fs, g, c), f, z, g, c);
        assert g == f ==> ZeroTail(n, c, sl[j].data, z);
      }
    }
    CutSizes(n, fs, fs', f, z);
    CutZero(n, fs, sl, fs', f, z);
  }

  lemma CutSizes(n: nat, fs: Files, fs': Files, f: nat, z: int)
    requires NandCut(n, fs, fs', f, z) && forall g: nat, c: nat :: |Nand(n, fs, g, c)| == n
    ensures forall g: nat, c: nat :: |Nand(n, fs', g, c)| == n
  {
    hide Nand, Trunc;
    forall g: nat, c: nat
      ensures |Nand(n, fs', g, c)| == n
    {
      assert Nand(n, fs', g, c) == Cut(n, Nand(n, fs, g, c), f, z, g, c);
    }
  }

  lemma CutZero(n: nat, fs: Files, sl: seq<Slot>, fs': Files, f: nat, z: int)
    requires NandCut(n, fs, fs', f, z)
    requires (forall i | 0 <= i < |sl| :: sl[i].obj != Some(f)) || ZeroFrom(n, fs, sl, f, z)
    ensures ZeroFrom(n, fs', sl, f, z)
    ensures forall g: nat, y | g != f && ZeroFrom(n, fs, sl, g, y) :: ZeroFrom(n, fs', sl, g, y)
  {
    hide Nand, Trunc, ZeroTail;
    forall c: nat
      ensures ZeroTail(n, c, Nand(n, fs', f, c), z)
    {
      assert Nand(n, fs', f, c) == Cut(n, Nand(n, fs, f, c), f, z, f, c);
    }
    forall g: nat, y | g != f && ZeroFrom(n, fs, sl, g, y)
      ensures ZeroFrom(n, fs', sl, g, y)
    {
      forall c: nat
        ensures ZeroTail(n, c, Nand(n, fs', g, c), y)
      {
        assert Nand(n, fs', g, c) == Cut(n, Nand(n, fs, g, c), f, z, g, c);
        assert ZeroTail(n, c, Nand(n, fs, g, c), y);
      }
    }
  }

  /** The chunks of a file without those numbered lo to hi. */
  function Without(m: map<nat, seq<Byte>>, lo: int, hi: int): map<nat, seq<Byte>> {
    map c | c in m && !(lo <= c <= hi) :: m[c]
  }

  lemma WithoutMore(m: map<nat, seq<Byte>>, i: nat, hi: int)
    requires i <= hi
    ensures Without(m, i + 1, hi) - {i} == Without(m, i, hi)
  {
  }

  /** From chunk startDel on everything starts at or past newSize. */
  lemma StartDel(n: nat, newSize: nat, startDel: nat, c: nat)
    requires n > 0 && startDel == 1 + (newSize + n - 1) / n && c > 0
    ensures if c < startDel then Base(n, c) < newSize else newSize <= Base(n, c)
  {
    var q := (newSize + n - 1) / n;
    RemainderIs(newSize + n - 1, n);
    if c < startDel {
      MulGrows(q - c, n);
      assert (c - 1) * n == (q - 1) * n - (q - c) * n;
      assert (q - 1) * n == q * n - n;
    } else {
      MulGrows(c - 1 - q, n);
      assert (c - 1) * n == q * n + (c - 1 - q) * n;
    }
  }

  lemma LastDel(n: nat, oldSize: nat, lastDel: nat, c: nat)
    requires n > 0 && lastDel == (if oldSize == 0 then 1 else 1 + (oldSize - 1) / n) && c > lastDel
    ensures oldSize <= Base(n, c)
  {
    if oldSize > 0 {
      var q := (oldSize - 1) / n;
      RemainderIs(oldSize - 1, n);
      MulGrows(c - 1 - q, n);
      assert (c - 1) * n == q * n + (c - 1 - q) * n;
    } else {
      assert Base(n, c) == (c - 1) * n;
    }
  }

  lemma TruncAll(n: nat, s: seq<Byte>, c: nat, z: int)
    requires |s| == n && z <= Base(n, c)
    ensures Trunc(n, s, c, z) == Zeros(n)
  {
  }

  lemma TruncNone(n: nat, s: seq<Byte>, c: nat, z: int)
    requires |s| == n && Base(n, c) + n <= z
    ensures Trunc(n, s, c, z) == s
  {
  }

  lemma TruncLast(n: nat, s: seq<Byte>, z: nat)
    requires n > 0 && |s| == n
    ensures Trunc(n, s, z / n + 1, z) == s[..z % n] + Zeros(n - z % n)
  {
    RemainderIs(z, n);
    var r := Trunc(n, s, z / n + 1, z);
    assert Base(n, z / n + 1) == (z / n) * n;
  }

  /** What is left of chunk c once the chunks from startDel to lastDel are gone and the last partial
      one has been written again. */
  lemma CutChunk(n: nat, fs: Files, sl: seq<Slot>, fs1: Files, fs': Files, f: nat, c: nat, newSize: nat, oldSize: nat,
          startDel: nat, lastDel: nat)
    requires n > 0 && f in fs && f in fs1 && newSize <= oldSize && |Nand(n, fs, f, c)| == n
        && ZeroFrom(n, fs, sl, f, oldSize)
    requires startDel == 1 + (newSize + n - 1) / n && lastDel == if oldSize == 0 then 1 else 1 + (oldSize - 1) / n
    requires fs1[f].chunks == Without(fs[f].chunks, startDel, lastDel)
    requires Nand(n, fs', f, c) == if newSize % n != 0 && c == newSize / n + 1
        then Nand(n, fs1, f, c)[..newSize % n] + Zeros(n - newSize % n) else Nand(n, fs1, f, c)
    ensures Nand(n, fs', f, c) == Trunc(n, Nand(n, fs, f, c), c, newSize)
  {
    var s := Nand(n, fs, f, c);
    assert ZeroTail(n, c, s, oldSize);
    hide ZeroFrom, Trunc;
    if c == 0 {
      assert Base(n, 0) == 0 - n;
      TruncNone(n, s, c, newSize);
      CutZeroth(n, newSize);
    } else {
      StartDel(n, newSize, startDel, c);
      BaseOfEnd(n, newSize, c);
      if c >= startDel {
        TruncAll(n, s, c, newSize);
        if c > lastDel {
          LastDel(n, oldSize, lastDel, c);
          assert s == Zeros(n);
        }
      } else if newSize % n != 0 && c == newSize / n + 1 {
        TruncLast(n, s, newSize);
      } else {
        TruncNone(n, s, c, newSize);
      }
    }
  }

  lemma CutZeroth(n: nat, newSize: nat)
    requires n > 0
    ensures newSize / n + 1 != 0
  {
  }

  /** A chunk that starts before newSize and is not the partial last one ends by newSize; the partial
      last one starts before it. */
  lemma BaseOfEnd(n: nat, newSize: nat, c: nat)
    requires n > 0 && c > 0
    ensures Base(n, c) < newSize && !(newSize % n != 0 && c == newSize / n + 1) ==> Base(n, c) + n <= newSize
    ensures newSize % n != 0 && c == newSize / n + 1 ==> Base(n, c) < newSize
  {
    var q := newSize / n;
    RemainderIs(newSize, n);
    MulGrows(q + 1 - c, n);
    MulGrows(c - 1 - q, n);
    assert (c - 1) * n == q * n - (q + 1 - c) * n;
    assert (c - 1) * n == q * n + (c - 1 - q) * n;
  }

  // ----- the store -----

  class Store {
    const n: nat
    const nCaches: nat
    const inbandTags: bool
    const chunkShift: nat
    const chunkDiv: nat
    var files: Files
    var slots: seq<Slot>
    var srLastUse: int
    /** The device outside the files: how often it has been asked whether there is room for a write that may
        not use the reserve, and which of the questions, counted from 0, it answers with no. */
    var asked: nat
    var refusals: iset<nat>

    /** The invariant; file x, if any, is in the middle of a write. */
    ghost predicate Inv(x: Option<nat>)
      reads this
    {
      && n > 0 && chunkDiv > 0 && n == chunkDiv * Pow2(chunkShift) && |slots| == nCaches
      && CacheOk(n, files, slots) && DirtyOk(files, slots, x) && PastEndZero(n, files, slots, x)
    }

    constructor (n: nat, nCaches: nat, inbandTags: bool, refusals: iset<nat>)
      requires n > 0
      ensures this.refusals == refusals && asked == 0
      ensures Inv(None) && files == map[] && this.n == n && this.nCaches == nCaches && this.inbandTags == inbandTags
    {
      var shift, div := Shifts(n);
      this.n, this.nCaches, this.inbandTags := n, nCaches, inbandTags;
      chunkShift, chunkDiv := shift, div;
      files := map[];
      slots := seq(nCaches, i => Slot(None, 0, false, 0, 0, Zeros(n)));
      srLastUse := 0;
      this.refusals, asked := refusals, 0;
    }

    /** CheckSpaceForAllocation */
    method AskSpace() returns (ok: bool)
      modifies `asked
      ensures (ok <==> old(asked) !in refusals) && asked == old(asked) + 1
    {
      ok := asked !in refusals;
      asked := asked + 1;
    }

    /** Between the questions since and asked there was one, the last, that was answered with no. */
    static predicate Refused(refusals: iset<nat>, since: nat, asked: nat) {
      asked > since && asked - 1 in refusals
    }

    /** Write a whole chunk to NAND; the reserve may be used. */
    method WriteWithReserve(f: nat, c: nat, data: seq<Byte>, nBytes: nat)
      requires f in files && |data| == n && 0 < nBytes <= n
      modifies `files
      ensures files == PutChunk(old(files), f, c, data)
    {
      files := files[f := files[f].(chunks := files[f].chunks[c := data])];
    }

    /** Write a whole chunk to NAND. Only a write that may not use the reserve can be refused. */
    method WriteChunkDataToObject(f: nat, c: nat, data: seq<Byte>, nBytes: nat) returns (ok: bool)
      requires f in files && |data| == n && 0 < nBytes <= n
      modifies `files, `asked
      ensures (ok <==> old(asked) !in refusals) && asked == old(asked) + 1
      ensures files == if ok then PutChunk(old(files), f, c, data) else old(files)
    {
      ok := AskSpace();
      if ok {
        WriteWithReserve(f, c, data, nBytes);
      }
    }

    /** The dirty entry of f with the lowest chunk number, or -1. */
    method LowestDirty(f: nat) returns (i: int)
      ensures -1 <= i < |slots|
      ensures i < 0 <==> DirtyOf(slots, f) == {}
      ensures i >= 0 ==> i in DirtyOf(slots, f) && forall k | k in DirtyOf(slots, f) ::
          slots[i].chunkId <= slots[k].chunkId
    {
      i := -1;
      var k := 0;
      while k < |slots|
        invariant 0 <= k <= |slots| && -1 <= i < k
        invariant i < 0 ==> forall j | 0 <= j < k :: j !in DirtyOf(slots, f)
        invariant i >= 0 ==> i in DirtyOf(slots, f) && forall j | 0 <= j < k && j in DirtyOf(slots, f) ::
            slots[i].chunkId <= slots[j].chunkId
      {
        if slots[k].obj == Some(f) && slots[k].dirty && (i < 0 || slots[k].chunkId < slots[i].chunkId) {
          i := k;
        }
        k := k + 1;
      }
    }

    /** Write out the dirty entries of f, lowest chunk first, and drop them. */
    method FlushFilesChunkCache(f: nat, ghost x: Option<nat>)
      requires Inv(x) && f in files
      modifies `files, `slots
      ensures Inv(x) && Kept(n, old(files), old(slots), files, slots)
      ensures DirtyOf(slots, f) == {}
      ensures forall j | 0 <= j < |slots| ::
          slots[j] == old(slots)[j] || (slots[j] == Free(old(slots)[j]) && j in DirtyOf(old(slots), f))
    {
      hide CacheOk, DirtyOk, PastEndZero, Kept, FewerDirty, Pow2, PutChunk;
      KeptSame(n, files, slots);
      var i := LowestDirty(f);
      while i >= 0
        invariant Inv(x) && Kept(n, old(files), old(slots), files, slots) && f in files
        invariant -1 <= i < |slots| && (i < 0 <==> DirtyOf(slots, f) == {}) && (i >= 0 ==> i in DirtyOf(slots, f))
        invariant forall j | 0 <= j < |slots| ::
            slots[j] == old(slots)[j] || (slots[j] == Free(old(slots)[j]) && j in DirtyOf(old(slots), f))
        decreases |DirtyOf(slots, f)|
      {
        ghost var fs, sl := files, slots;
        FlushSlot(n, fs, sl, i, f);
        DirtyBytes(n, fs, sl, i);
        WriteWithReserve(f, slots[i].chunkId, slots[i].data, slots[i].nBytes);
        slots := slots[i := Free(slots[i])];
        assert DirtyOf(slots, f) == DirtyOf(sl, f) - {i};
        FlushedOne(n, old(files), old(slots), fs, sl, files, slots, x);
        i := LowestDirty(f);
      }
    }

    static lemma DirtyBytes(n: nat, fs: Files, sl: seq<Slot>, i: int)
      requires CacheOk(n, fs, sl) && 0 <= i < |sl|
      ensures |sl[i].data| == n && (sl[i].obj.Some? && sl[i].dirty ==> 0 < sl[i].nBytes <= n)
          && (sl[i].obj.Some? ==> sl[i].obj.value in fs && sl[i].chunkId > 0)
    {
      assert SlotOk(n, fs, sl[i]);
    }

    static lemma FlushedOne(n: nat, fs0: Files, sl0: seq<Slot>, fs: Files, sl: seq<Slot>, fs': Files, sl': seq<Slot>,
            x: Option<nat>)
      requires Kept(n, fs0, sl0, fs, sl) && Kept(n, fs, sl, fs', sl') && FewerDirty(sl, sl') && CacheOk(n, fs', sl')
      requires DirtyOk(fs, sl, x) && PastEndZero(n, fs, sl, x)
      ensures Kept(n, fs0, sl0, fs', sl') && DirtyOk(fs', sl', x) && PastEndZero(n, fs', sl', x) && fs.Keys == fs'.Keys
    {
      hide CacheOk, DirtyOk, PastEndZero, FewerDirty, View, Nand, NandFrom;
      KeptKept(n, fs0, sl0, fs, sl, fs', sl');
      DirtyFewer(fs, sl, fs', sl', x);
      PastEndKept(n, fs, sl, fs', sl', x);
    }

    /** A free slot, or -1. */
    method GrabChunkCacheWorker() returns (i: int)
      ensures -1 <= i < |slots| && (i >= 0 ==> slots[i].obj.None?)
      ensures i < 0 ==> forall k | 0 <= k < |slots| :: slots[k].obj.Some?
    {
      i := 0;
      while i < |slots|
        invariant 0 <= i <= |slots| && forall k | 0 <= k < i :: slots[k].obj.Some?
      {
        if slots[i].obj.None? {
          return;
        }
        i := i + 1;
      }
      i := -1;
    }

    /** A slot to use: a free one, else the least recently used one, whose file is flushed first if
        the slot is dirty. The chunk in it, if any, is clean. */
    method GrabChunkCache(ghost x: Option<nat>) returns (i: nat)
      requires Inv(x) && nCaches > 0
      modifies `files, `slots
      ensures Inv(x) && Kept(n, old(files), old(slots), files, slots)
      ensures i < |slots| && (slots[i].obj.Some? ==> !slots[i].dirty)
      ensures forall j | 0 <= j < |slots| :: slots[j] == old(slots)[j] || slots[j] == Free(old(slots)[j])
    {
      hide CacheOk, DirtyOk, PastEndZero, Kept, FewerDirty, Pow2;
      KeptSame(n, files, slots);
      var free := GrabChunkCacheWorker();
      if free >= 0 {
        return free;
      }
      i := 0;
      var usage := slots[0].lastUse;
      var k := 1;
      while k < |slots|
        invariant 1 <= k <= |slots| && i < k && usage == slots[i].lastUse
        invariant forall j | 0 <= j < k :: usage <= slots[j].lastUse
      {
        if slots[k].lastUse < usage {
          i, usage := k, slots[k].lastUse;
        }
        k := k + 1;
      }
      if slots[i].dirty {
        DirtyBytes(n, files, slots, i);
        assert i in DirtyOf(slots, slots[i].obj.value);
        ghost var g := slots[i].obj.value;
        FlushFilesChunkCache(slots[i].obj.value, x);
        assert i !in DirtyOf(slots, g);
        free := GrabChunkCacheWorker();
        i := free;
      }
    }

    /** Note the use of slot i; the counters start again when they have become large. */
    method UseChunkCache(i: nat, ghost x: Option<nat>)
      requires Inv(x) && i < |slots|
      modifies `slots, `srLastUse
      ensures Inv(x) && Kept(n, files, old(slots), files, slots) && Refreshed(old(slots), slots)
      ensures slots[i].lastUse == srLastUse
    {
      hide CacheOk, DirtyOk, PastEndZero, Kept, FewerDirty, Pow2;
      if srLastUse < 0 || srLastUse > 100000000 {
        var k := 1;
        while k < |slots|
          invariant 1 <= k && Refreshed(old(slots), slots)
        {
          slots := slots[k := slots[k].(lastUse := 0)];
          k := k + 1;
        }
        srLastUse := 0;
      }
      srLastUse := srLastUse + 1;
      slots := slots[i := slots[i].(lastUse := srLastUse)];
      RefreshedKeeps(n, files, old(slots), slots);
      RefreshedDirty(old(slots), slots);
      SameFilesSame(files);
      DirtyFewer(files, old(slots), files, slots, x);
      PastEndKept(n, files, old(slots), files, slots, x);
    }

    static lemma SameFilesSame(fs: Files)
      ensures SameFiles(fs, fs)
    {
    }

    static lemma RefreshedDirty(sl: seq<Slot>, sl': seq<Slot>)
      requires Refreshed(sl, sl')
      ensures FewerDirty(sl, sl')
    {
    }

    /** Bring chunk c of f, which is not cached, into the cache. */
    method LoadChunk(f: nat, c: nat, ghost x: Option<nat>) returns (i: nat)
      requires Inv(x) && nCaches > 0 && f in files && c > 0 && Find(slots, f, c) < 0
      modifies `files, `slots
      ensures Inv(x) && Kept(n, old(files), old(slots), files, slots)
      ensures i < |slots| && Holds(slots[i], f, c)
    {
      hide CacheOk, DirtyOk, PastEndZero, Kept, FewerDirty, Pow2;
      i := GrabChunkCache(x);
      KeptIsSame(n, old(files), old(slots), files, slots);
      ghost var fs, sl := files, slots;
      assert forall j | 0 <= j < |slots| :: !Holds(slots[j], f, c);
      FillSlot(n, fs, sl, i, f, c);
      slots := slots[i := Slot(Some(f), c, false, 0, slots[i].lastUse, Nand(n, files, f, c))];
      FlushedOne(n, old(files), old(slots), fs, sl, files, slots, x);
    }

    static lemma KeptIsSame(n: nat, fs: Files, sl: seq<Slot>, fs': Files, sl': seq<Slot>)
      requires Kept(n, fs, sl, fs', sl')
      ensures SameFiles(fs, fs')
    {
    }

    /** FindChunkCache */
    method FindChunkCache(f: nat, c: nat) returns (i: int)
      requires Unique(slots)
      ensures i == Find(slots, f, c)
    {
      i := 0;
      while i < |slots|
        invariant 0 <= i <= |slots| && forall k | 0 <= k < i :: !Holds(slots[k], f, c)
      {
        if slots[i].obj == Some(f) && slots[i].chunkId == c {
          FoundAt(slots, i, f, c);
          return;
        }
        i := i + 1;
      }
      i := -1;
    }

    /** Read what of [pos, pos + nLeft) lies in the chunk of pos. */
    method ReadPiece(f: nat, pos: nat, nLeft: nat) returns (piece: seq<Byte>)
      requires Inv(None) && f in files && nLeft > 0
      modifies `files, `slots, `srLastUse
      ensures Inv(None) && Kept(n, old(files), old(slots), files, slots)
      ensures 0 < |piece| <= nLeft && n > 0 && Reads(n, old(files), old(slots), f, pos, piece)
    {
      hide CacheOk, DirtyOk, PastEndZero, Kept, FewerDirty, Pow2, ByteAt, View, Nand, Refreshed;
      var chunk, start := AddrToChunk(pos, chunkShift, chunkDiv, n);
      var c := chunk + 1;
      var nToCopy := if start + nLeft < n then nLeft else n - start;
      ViewSize(n, files, slots, f, c);
      KeptSame(n, files, slots);
      CacheUnique(n, files, slots);
      var i := FindChunkCache(f, c);
      if i >= 0 || nToCopy != n || inbandTags {
        if nCaches > 0 {
          if i < 0 {
            i := LoadChunk(f, c, None);
          }
          ghost var fs, sl := files, slots;
          UseChunkCache(i, None);
          KeptKept(n, old(files), old(slots), fs, sl, files, slots);
          StillHolds(sl, slots, i, f, c);
          CacheUnique(n, files, slots);
          ViewAt(n, files, slots, i, f, c);
          KeptView(n, old(files), old(slots), files, slots, f, c);
          piece := slots[i].data[start..start + nToCopy];
        } else {
          ViewNand(n, files, slots, f, c);
          var localBuffer := Nand(n, files, f, c);
          piece := localBuffer[start..start + nToCopy];
        }
      } else {
        ViewNand(n, files, slots, f, c);
        piece := Nand(n, files, f, c);
        assert piece == piece[start..start + nToCopy];
      }
      PieceReads(n, old(files), old(slots), f, pos, piece);
    }

    static lemma CacheUnique(n: nat, fs: Files, sl: seq<Slot>)
      requires CacheOk(n, fs, sl)
      ensures Unique(sl)
    {
    }

    static lemma StillHolds(sl: seq<Slot>, sl': seq<Slot>, i: int, f: nat, c: nat)
      requires Refreshed(sl, sl') && 0 <= i < |sl| && Holds(sl[i], f, c)
      ensures Holds(sl'[i], f, c)
    {
    }

    static lemma KeptView(n: nat, fs: Files, sl: seq<Slot>, fs': Files, sl': seq<Slot>, f: nat, c: nat)
      requires Kept(n, fs, sl, fs', sl')
      ensures View(n, fs', sl', f, c) == View(n, fs, sl, f, c)
    {
    }

    /** Read nBytes at offset, chunk by chunk. */
    method DoReadDataFromFile(f: nat, offset: nat, nBytes: nat) returns (buffer: seq<Byte>)
      requires Inv(None) && f in files
      modifies `files, `slots, `srLastUse
      ensures Inv(None) && Kept(n, old(files), old(slots), files, slots)
      ensures |buffer| == nBytes && n > 0 && Reads(n, old(files), old(slots), f, offset, buffer)
    {
      hide CacheOk, DirtyOk, PastEndZero, Kept, FewerDirty, Pow2, ByteAt, View, Nand;
      KeptSame(n, files, slots);
      buffer := [];
      while |buffer| < nBytes
        invariant Inv(None) && Kept(n, old(files), old(slots), files, slots) && f in files
        invariant |buffer| <= nBytes && Reads(n, old(files), old(slots), f, offset, buffer)
        decreases nBytes - |buffer|
      {
        ghost var fs, sl := files, slots;
        var piece := ReadPiece(f, offset + |buffer|, nBytes - |buffer|);
        ReadsMore(n, old(files), old(slots), fs, sl, f, offset, buffer, piece);
        KeptKept(n, old(files), old(slots), fs, sl, files, slots);
        KeptIsSame(n, old(files), old(slots), files, slots);
        buffer := buffer + piece;
      }
    }

    /** The part of a write that lies within one chunk goes through the cache. It is refused when the
        chunk is not already dirty in the cache and there is no room on the device. */
    method WriteCached(f: nat, c: nat, start: nat, piece: seq<Byte>, nToWriteBack: nat, writeThrough: bool)
      returns (ok: bool)
      requires Inv(Some(f)) && f in files && c > 0 && nCaches > 0 && start + |piece| <= n && 0 < nToWriteBack <= n
      modifies `files, `slots, `srLastUse, `asked
      ensures Inv(Some(f)) && |View(n, old(files), old(slots), f, c)| == n
      ensures ok ==> Changed(n, old(files), old(slots), files, slots, f, c,
          Splice(View(n, old(files), old(slots), f, c), start, piece))
      ensures !ok ==> Kept(n, old(files), old(slots), files, slots)
      ensures ok <==> IsDirty(old(slots), f, c) || old(asked) !in refusals
      ensures asked == if IsDirty(old(slots), f, c) then old(asked) else old(asked) + 1
      ensures ok && !writeThrough ==> IsDirty(slots, f, c) && Nand(n, files, f, c) == Nand(n, old(files), f, c)
    {
      hide CacheOk, DirtyOk, PastEndZero, Kept, Changed, FewerDirty, Pow2, View, Nand, Refreshed, Splice, PutChunk,
          IsDirty;
      ViewSize(n, files, slots, f, c);
      KeptSame(n, files, slots);
      CacheUnique(n, files, slots);
      var i := FindChunkCache(f, c);
      FoundDirty(slots, i, f, c);
      if i < 0 || !slots[i].dirty {
        var room := AskSpace();
        if i < 0 && room {
          i := LoadChunk(f, c, Some(f));
        } else if !room {
          i := -1;
        }
      }
      if i < 0 {
        return false;
      }
      ghost var fs, sl := files, slots;
      KeptIsSame(n, old(files), old(slots), fs, sl);
      NandOfUncached(n, old(files), old(slots), fs, sl, f, c);
      UseChunkCache(i, Some(f));
      StillHolds(sl, slots, i, f, c);
      KeptKept(n, old(files), old(slots), fs, sl, files, slots);
      CacheUnique(n, files, slots);
      ViewAt(n, files, slots, i, f, c);
      KeptView(n, old(files), old(slots), files, slots, f, c);
      var data := Splice(slots[i].data, start, piece);
      fs, sl := files, slots;
      PatchSlot(n, files, slots, i, f, c, data, nToWriteBack, writeThrough);
      if writeThrough {
        WriteWithReserve(f, c, data, nToWriteBack);
      }
      slots := slots[i := slots[i].(data := data, nBytes := nToWriteBack, dirty := !writeThrough)];
      KeptChanged(n, old(files), old(slots), fs, sl, files, slots, f, c, data);
      OwnPatch(n, fs, sl, files, slots, i, f, c, data);
      CacheUnique(n, files, slots);
      DirtyAt(slots, i, f, c);
      ok := true;
    }

    static lemma FoundDirty(sl: seq<Slot>, i: int, f: nat, c: nat)
      requires Unique(sl) && -1 <= i < |sl|
      requires if i < 0 then forall j | 0 <= j < |sl| :: !Holds(sl[j], f, c) else Holds(sl[i], f, c)
      ensures IsDirty(sl, f, c) <==> i >= 0 && sl[i].dirty
    {
      if i >= 0 {
        DirtyAt(sl, i, f, c);
      } else {
        NotDirty(sl, f, c);
      }
    }

    static lemma DirtyAt(sl: seq<Slot>, i: int, f: nat, c: nat)
      requires Unique(sl) && 0 <= i < |sl| && Holds(sl[i], f, c)
      ensures IsDirty(sl, f, c) == sl[i].dirty
    {
      FoundAt(sl, i, f, c);
    }

    /** Loading a chunk that is not cached does not change what NAND holds of it. */
    static lemma NandOfUncached(n: nat, fs: Files, sl: seq<Slot>, fs': Files, sl': seq<Slot>, f: nat, c: nat)
      requires Kept(n, fs, sl, fs', sl')
      ensures Find(sl, f, c) < 0 ==> Nand(n, fs', f, c) == Nand(n, fs, f, c)
    {
      assert NandFrom(n, fs, sl, fs', f, c, View(n, fs, sl, f, c));
    }

    /** What is left of the invariant after chunk c of f, in the middle of a write, has changed. */
    static lemma OwnPatch(n: nat, fs: Files, sl: seq<Slot>, fs': Files, sl': seq<Slot>, i: int, f: nat, c: nat,
            v: seq<Byte>)
      requires Changed(n, fs, sl, fs', sl', f, c, v) && CacheOk(n, fs', sl') && DirtyOk(fs, sl, Some(f))
          && PastEndZero(n, fs, sl, Some(f))
      requires |sl'| == |sl| && forall j | 0 <= j < |sl| && j != i :: sl'[j] == sl[j]
      requires 0 <= i < |sl| ==> sl'[i].obj == None || sl'[i].obj == Some(f)
      ensures DirtyOk(fs', sl', Some(f)) && PastEndZero(n, fs', sl', Some(f)) && SameFiles(fs, fs')
    {
      ChangedFiles(n, fs, sl, fs', sl', f, c, v);
      hide CacheOk, Changed, View, Nand;
      PastEndChanged(n, fs, sl, fs', sl', f, c, v, Some(f));
    }

    /** Without a cache, part of a chunk is read, changed and written again. */
    method WriteUncached(f: nat, c: nat, start: nat, piece: seq<Byte>, nToWriteBack: nat) returns (ok: bool)
      requires Inv(Some(f)) && f in files && c > 0 && nCaches == 0 && start + |piece| <= n && 0 < nToWriteBack <= n
      modifies `files, `slots, `srLastUse, `asked
      ensures (ok <==> old(asked) !in refusals) && asked == old(asked) + 1
      ensures Inv(Some(f)) && |View(n, old(files), old(slots), f, c)| == n
      ensures ok ==> Changed(n, old(files), old(slots), files, slots, f, c,
          Splice(View(n, old(files), old(slots), f, c), start, piece))
      ensures !ok ==> Kept(n, old(files), old(slots), files, slots)
    {
      hide CacheOk, DirtyOk, PastEndZero, Kept, Changed, FewerDirty, Pow2, View, Nand, Refreshed, Splice, PutChunk;
      ViewSize(n, files, slots, f, c);
      KeptSame(n, files, slots);
      ViewNand(n, files, slots, f, c);
      var localBuffer := Splice(Nand(n, files, f, c), start, piece);
      ghost var fs := files;
      StepUncached(n, files, slots, f, c, localBuffer);
      ok := WriteChunkDataToObject(f, c, localBuffer, nToWriteBack);
      if ok {
        OwnPatch(n, fs, slots, files, slots, -1, f, c, localBuffer);
      }
    }

    /** A whole chunk is written straight to NAND, and what the cache holds of it is dropped, even
        when the write has failed. */
    method WriteWhole(f: nat, c: nat, piece: seq<Byte>) returns (ok: bool)
      requires Inv(Some(f)) && f in files && c > 0 && |piece| == n
      modifies `files, `slots, `srLastUse, `asked
      ensures (ok <==> old(asked) !in refusals) && asked == old(asked) + 1
      ensures Inv(Some(f))
      ensures Changed(n, old(files), old(slots), files, slots, f, c, if ok then piece else Nand(n, old(files), f, c))
      ensures !ok && !IsDirty(old(slots), f, c) ==> Nand(n, old(files), f, c) == View(n, old(files), old(slots), f, c)
      ensures !IsDirty(slots, f, c) && forall d: nat | d != c ::
          SameChunkState(n, old(files), old(slots), files, slots, f, d)
    {
      hide CacheOk, DirtyOk, PastEndZero, Kept, Changed, FewerDirty, Pow2, View, Nand, PutChunk, IsDirty;
      ghost var fs, sl := files, slots;
      CacheUnique(n, files, slots);
      CleanView(n, fs, sl, f, c);
      ok := WriteChunkDataToObject(f, c, piece, n);
      var i := FindChunkCache(f, c);
      if i >= 0 {
        DropSlot(n, fs, sl, i, f, c, piece, ok);
        slots := slots[i := Free(slots[i])];
      } else if ok {
        StepUncached(n, fs, sl, f, c, piece);
      } else {
        NotDirty(sl, f, c);
        KeptSame(n, fs, sl);
        KeptIsChanged(n, fs, sl, fs, sl, f, c);
      }
      OwnPatch(n, fs, sl, files, slots, i, f, c, if ok then piece else Nand(n, fs, f, c));
      CacheUnique(n, files, slots);
      NotDirty(slots, f, c);
    }

    /** The cache and NAND have of chunk d what they had, so far as a failed write would tell. */
    static ghost predicate SameChunkState(n: nat, fs: Files, sl: seq<Slot>, fs': Files, sl': seq<Slot>, f: nat,
            d: nat) {
      IsDirty(sl', f, d) == IsDirty(sl, f, d) && Nand(n, fs', f, d) == Nand(n, fs, f, d)
    }

    static lemma NotDirty(sl: seq<Slot>, f: nat, c: nat)
      requires forall j | 0 <= j < |sl| :: !Holds(sl[j], f, c)
      ensures !IsDirty(sl, f, c)
    {
    }

    static lemma CleanView(n: nat, fs: Files, sl: seq<Slot>, f: nat, c: nat)
      requires CacheOk(n, fs, sl)
      ensures !IsDirty(sl, f, c) ==> Nand(n, fs, f, c) == View(n, fs, sl, f, c)
    {
      var i := Find(sl, f, c);
      if i >= 0 {
        assert SlotOk(n, fs, sl[i]);
      }
    }

    /** How much of a write of nLeft bytes at start of chunk c goes into that chunk, and how many bytes
        of the chunk its new tags will say are in use. */
    method PieceOf(c: nat, start: nat, nLeft: nat, size: nat) returns (nToCopy: nat, nToWriteBack: nat)
      requires n > 0 && start < n && nLeft > 0 && c > 0
      ensures 0 < nToCopy <= nLeft && start + nToCopy <= n && (nToCopy < nLeft ==> start + nToCopy == n)
      ensures start + nToCopy <= nToWriteBack <= n && (nToCopy == n ==> start == 0)
      ensures Base(n, c) + nToWriteBack >= Min(size, Base(n, c) + n)
    {
      if start + nLeft < n {
        nToCopy := nLeft;
        var chunkStart := (c - 1) * n;
        var nBytesRead := if chunkStart > size then 0 else size - chunkStart;
        if nBytesRead > n {
          nBytesRead := n;
        }
        nToWriteBack := if nBytesRead > start + nToCopy then nBytesRead else start + nToCopy;
      } else {
        nToCopy := n - start;
        nToWriteBack := n;
      }
    }

    /** The next piece of a write of nLeft bytes at pos is a whole chunk, written past the cache. */
    ghost predicate WholePiece(pos: nat, nLeft: nat)
      requires n > 0
    {
      pos % n == 0 && nLeft >= n && !inbandTags
    }

    /** Write what of buffer, to be placed at pos, lies in the chunk of pos. */
    method WritePiece(f: nat, pos: nat, buffer: seq<Byte>, writeThrough: bool)
      returns (ok: bool, nToCopy: nat, ghost lost: bool)
      requires Inv(Some(f)) && f in files && |buffer| > 0
      modifies `files, `slots, `srLastUse, `asked
      ensures asked >= old(asked) && (!ok ==> Refused(refusals, old(asked), asked))
      ensures Inv(Some(f)) && n > 0 && SameFiles(old(files), files)
      ensures 0 < nToCopy <= |buffer| && pos % n + nToCopy <= n && (nToCopy < |buffer| ==> pos % n + nToCopy == n)
      ensures |View(n, old(files), old(slots), f, pos / n + 1)| == n
      ensures ok ==> Changed(n, old(files), old(slots), files, slots, f, pos / n + 1,
          Splice(View(n, old(files), old(slots), f, pos / n + 1), pos % n, buffer[..nToCopy]))
      ensures !ok && !lost ==> Kept(n, old(files), old(slots), files, slots)
      ensures lost ==> !ok && pos % n == 0 && |buffer| >= n
      ensures lost ==> Changed(n, old(files), old(slots), files, slots, f, pos / n + 1,
          Nand(n, old(files), f, pos / n + 1))
      ensures lost ==> IsDirty(old(slots), f, pos / n + 1) && !inbandTags
      ensures WholePiece(pos, |buffer|) ==>
          nToCopy == n && (ok <==> old(asked) !in refusals) && (!ok && IsDirty(old(slots), f, pos / n + 1) ==> lost)
      ensures WholePiece(pos, |buffer|) ==> forall d: nat | d != pos / n + 1 ::
          SameChunkState(n, old(files), old(slots), files, slots, f, d)
      ensures pos % n + |buffer| < n && nCaches > 0 && ok ==> nToCopy == |buffer|
      ensures pos % n + |buffer| < n && nCaches > 0 && ok && !writeThrough ==>
                IsDirty(slots, f, pos / n + 1) && Nand(n, files, f, pos / n + 1) == Nand(n, old(files), f, pos / n + 1)
    {
      hide CacheOk, DirtyOk, PastEndZero, Kept, Changed, Pow2, View, Nand, Splice, IsDirty, SameChunkState;
      var chunk, start := AddrToChunk(pos, chunkShift, chunkDiv, n);
      var c := chunk + 1;
      ViewSize(n, files, slots, f, c);
      var nToWriteBack;
      nToCopy, nToWriteBack := PieceOf(c, start, |buffer|, files[f].size);
      lost := false;
      if nToCopy != n || inbandTags {
        if nCaches > 0 {
          ok := WriteCached(f, c, start, buffer[..nToCopy], nToWriteBack, writeThrough);
        } else {
          ok := WriteUncached(f, c, start, buffer[..nToCopy], nToWriteBack);
        }
      } else {
        WholeSplice(View(n, files, slots, f, c), buffer[..nToCopy]);
        ok := WriteWhole(f, c, buffer[..nToCopy]);
        lost := !ok && IsDirty(old(slots), f, c);
        if !ok && !lost {
          ChangedNothing(n, old(files), old(slots), files, slots, f, c, Nand(n, old(files), f, c));
        }
      }
      ghost var v := if ok then Splice(View(n, old(files), old(slots), f, c), start, buffer[..nToCopy])
          else Nand(n, old(files), f, c);
      if ok || lost {
        ChangedFiles(n, old(files), old(slots), files, slots, f, c, v);
      } else {
        KeptIsSame(n, old(files), old(slots), files, slots);
      }
    }

    static lemma WholeSplice(s: seq<Byte>, piece: seq<Byte>)
      requires |s| == |piece|
      ensures Splice(s, 0, piece) == piece
    {
    }

    /** What the whole write of buffer at offset has come to after nDone bytes. */
    ghost predicate Written(fs: Files, sl: seq<Slot>, f: nat, offset: nat, buffer: seq<Byte>, nDone: nat, z: int)
      reads this
    {
      && nDone <= |buffer| && f in files && f in fs && SameFiles(fs, files)
      && ZeroFrom(n, files, slots, f, Max(fs[f].size, offset + nDone)) && ZeroFrom(n, files, slots, f, z)
    }

    static lemma ZeroFromMore(n: nat, fs: Files, sl: seq<Slot>, f: nat, z: int, z': int)
      requires ZeroFrom(n, fs, sl, f, z) && z <= z'
      ensures ZeroFrom(n, fs, sl, f, z')
    {
      forall c: nat
        ensures ZeroTail(n, c, Nand(n, fs, f, c), z')
      {
        assert ZeroTail(n, c, Nand(n, fs, f, c), z);
      }
      assert forall i | 0 <= i < |sl| && sl[i].obj == Some(f) :: ZeroTail(n, sl[i].chunkId, sl[i].data, z);
    }

    static lemma BaseOf(n: nat, pos: nat)
      requires n > 0
      ensures Base(n, pos / n + 1) + pos % n == pos
    {
    }

    /** A piece keeps f zero from z on, if z lies past the piece or the piece is zero from there. */
    static lemma PieceZero(n: nat, fs: Files, sl: seq<Slot>, fs': Files, sl': seq<Slot>, f: nat, pos: nat,
            piece: seq<Byte>, z: int)
      requires n > 0 && CacheOk(n, fs', sl') && ZeroFrom(n, fs, sl, f, z)
      requires |View(n, fs, sl, f, pos / n + 1)| == n && pos % n + |piece| <= n
      requires Changed(n, fs, sl, fs', sl', f, pos / n + 1, Splice(View(n, fs, sl, f, pos / n + 1), pos % n, piece))
      requires forall k | 0 <= k < |piece| && z <= pos + k :: piece[k] == 0
      ensures ZeroFrom(n, fs', sl', f, z)
    {
      hide CacheOk, Changed, ZeroFrom, View, Splice, ZeroTail, Base;
      var c := pos / n + 1;
      BaseOf(n, pos);
      ZeroView(n, fs, sl, f, c, z);
      SpliceZero(n, c, View(n, fs, sl, f, c), pos % n, piece, z);
      ZeroChanged(n, fs, sl, fs', sl', f, c, Splice(View(n, fs, sl, f, c), pos % n, piece), f, z);
    }

    /** The size and the dirty mark of f do not matter to what reads see. */
    static lemma MetaViews(n: nat, fs: Files, sl: seq<Slot>, f: nat, file: File)
      requires CacheOk(n, fs, sl) && f in fs && file.chunks == fs[f].chunks
      ensures var fs' := fs[f := file];
              CacheOk(n, fs', sl) && (forall g: nat, c: nat ::
                  View(n, fs', sl, g, c) == View(n, fs, sl, g, c) && Nand(n, fs', g, c) == Nand(n, fs, g, c))
    {
      var fs' := fs[f := file];
      assert forall g: nat, c: nat :: Nand(n, fs', g, c) == Nand(n, fs, g, c);
      assert forall j | 0 <= j < |sl| :: SlotOk(n, fs, sl[j]) ==> SlotOk(n, fs', sl[j]);
    }

    static lemma MetaZero(n: nat, fs: Files, sl: seq<Slot>, f: nat, file: File, g: nat, z: int)
      requires f in fs && file.chunks == fs[f].chunks && ZeroFrom(n, fs, sl, g, z)
      ensures ZeroFrom(n, fs[f := file], sl, g, z)
    {
      hide ZeroTail;
      var fs' := fs[f := file];
      forall c: nat
        ensures ZeroTail(n, c, Nand(n, fs', g, c), z)
      {
        assert ZeroTail(n, c, Nand(n, fs, g, c), z);
      }
    }

    /** The write of f is over: its size and dirty mark are set. */
    static lemma MetaDone(n: nat, fs: Files, sl: seq<Slot>, f: nat, file: File, x: Option<nat>)
      requires CacheOk(n, fs, sl) && f in fs && file.chunks == fs[f].chunks && (x == Some(f) || x == None)
      requires DirtyOk(fs, sl, x) && PastEndZero(n, fs, sl, x) && ZeroFrom(n, fs, sl, f, file.size)
      requires file.dirty || DirtyOf(sl, f) == {}
      ensures CacheOk(n, fs[f := file], sl) && DirtyOk(fs[f := file], sl, None)
          && PastEndZero(n, fs[f := file], sl, None)
    {
      MetaViews(n, fs, sl, f, file);
      hide CacheOk, ZeroFrom, View, Nand;
      var fs' := fs[f := file];
      forall g | g in fs'
        ensures ZeroFrom(n, fs', sl, g, fs'[g].size)
      {
        MetaZero(n, fs, sl, f, file, g, fs'[g].size);
      }
      forall i | 0 <= i < |sl| && sl[i].obj.Some? && sl[i].dirty
        ensures sl[i].obj.value in fs && fs[f := file][sl[i].obj.value].dirty
      {
        if sl[i].obj == Some(f) {
          assert i in DirtyOf(sl, f) || file.dirty;
          assert i in DirtyOf(sl, f);
        }
      }
    }

    static lemma ViewsPatched(n: nat, fs: Files, sl: seq<Slot>, fs1: Files, sl1: seq<Slot>, fs2: Files, f: nat,
            offset: nat, d: seq<Byte>, lost: nat, back: seq<Byte>)
      requires Patched(n, fs, sl, fs1, sl1, f, offset, d, lost, back)
      requires forall g: nat, c: nat :: View(n, fs2, sl1, g, c) == View(n, fs1, sl1, g, c)
      ensures Patched(n, fs, sl, fs2, sl1, f, offset, d, lost, back)
    {
      hide View, Wanted;
      forall g: nat, c: nat
        ensures View(n, fs2, sl1, g, c) == Wanted(n, fs, sl, f, offset, d, lost, back, g, c)
      {
        assert View(n, fs1, sl1, g, c) == Wanted(n, fs, sl, f, offset, d, lost, back, g, c);
      }
    }

    /** Only f has another size or dirty mark. */
    static ghost predicate Resized(fs: Files, fs': Files, f: nat, size: nat, dirty: bool) {
      && fs.Keys == fs'.Keys && f in fs && fs'[f].size == size && fs'[f].dirty == dirty && fs'[f].linked == fs[f].linked
      && forall g | g in fs && g != f :: fs'[g].size == fs[g].size && fs'[g].dirty == fs[g].dirty
          && fs'[g].linked == fs[g].linked
    }

    static lemma ResizedFrom(fs: Files, fs1: Files, f: nat, file: File)
      requires SameFiles(fs, fs1) && f in fs && file.linked == fs1[f].linked
      ensures Resized(fs, fs1[f := file], f, file.size, file.dirty)
    {
    }

    /** What is known of the chunk, if any, that lost its cached bytes after nDone bytes. */
    static ghost predicate LostOk(n: nat, offset: nat, total: nat, nDone: nat, lost: nat, back: seq<Byte>, size: int,
            z: int)
      requires n > 0
    {
      lost != 0 ==> && (offset + nDone) % n == 0 && nDone + n <= total && lost == (offset + nDone) / n + 1
                    && |back| == n && ZeroTail(n, lost, back, size) && ZeroTail(n, lost, back, z)
    }

    lemma WholeAligned(pos: nat, nLeft: nat)
      requires n > 0 && WholePiece(pos, nLeft)
      ensures pos % n == 0 && nLeft >= n
    {
    }

    /** The next piece of a write of buffer at offset, of which nDone bytes have been written. */
    method WriteNext(f: nat, offset: nat, buffer: seq<Byte>, nDone: nat, writeThrough: bool, ghost z: int,
            ghost fs0: Files, ghost sl0: seq<Slot>)
      returns (ok: bool, nToCopy: nat, ghost lost: nat, ghost back: seq<Byte>)
      requires Inv(Some(f)) && nDone < |buffer| && Written(fs0, sl0, f, offset, buffer, nDone, z)
      requires Patched(n, fs0, sl0, files, slots, f, offset, buffer[..nDone], 0, [])
      requires CacheOk(n, fs0, sl0) && forall k | 0 <= k < |buffer| && z <= offset + k :: buffer[k] == 0
      requires CalmAhead(n, fs0, sl0, files, slots, f, offset + nDone)
      modifies `files, `slots, `srLastUse, `asked
      ensures asked >= old(asked) && (!ok ==> Refused(refusals, old(asked), asked))
      ensures Inv(Some(f)) && n > 0 && (ok ==> nDone + nToCopy <= |buffer| && lost == 0 && back == [] && nToCopy > 0)
      ensures Written(fs0, sl0, f, offset, buffer, if ok then nDone + nToCopy else nDone, z)
      ensures Patched(n, fs0, sl0, files, slots, f, offset, buffer[..if ok then nDone + nToCopy else nDone], lost, back)
      ensures !ok ==> LostOk(n, offset, |buffer|, nDone, lost, back, Max(fs0[f].size, offset + nDone), z)
      ensures ok ==> CalmAhead(n, fs0, sl0, files, slots, f, offset + nDone + nToCopy)
      ensures lost != 0 ==>
          lost == (offset + nDone) / n + 1 && IsDirty(sl0, f, lost) && back == Nand(n, fs0, f, lost) && !inbandTags
      ensures WholePiece(offset + nDone, |buffer| - nDone) && SameAhead(n, fs0, sl0, old(files), old(slots), f, offset + nDone) ==>
                && (ok ==> nToCopy == n && SameAhead(n, fs0, sl0, files, slots, f, offset + nDone + n))
                && (!ok && IsDirty(sl0, f, (offset + nDone) / n + 1) ==> lost != 0)
      ensures WholePiece(offset + nDone, |buffer| - nDone) ==> (ok <==> old(asked) !in refusals)
      ensures (offset + nDone) % n + |buffer| - nDone < n && nCaches > 0 && ok ==> nDone + nToCopy == |buffer|
      ensures (offset + nDone) % n + |buffer| - nDone < n && nCaches > 0 && ok && !writeThrough ==>
                IsDirty(slots, f, (offset + nDone) / n + 1)
                    && Nand(n, files, f, (offset + nDone) / n + 1) == Nand(n, old(files), f, (offset + nDone) / n + 1)
    {
      hide CacheOk, DirtyOk, PastEndZero, Kept, Changed, Pow2, View, Nand, Splice, ZeroFrom, Patched, FewerDirty,
          ZeroTail, Base, SameFiles, LostOk, IsDirty,
        CalmAhead, SameAhead, SameChunkState;
      ghost var fs, sl := files, slots;
      ghost var c := (offset + nDone) / n + 1;
      BaseOf(n, offset + nDone);
      lost, back := 0, [];
      ghost var gone;
      ok, nToCopy, gone := WritePiece(f, offset + nDone, buffer[nDone..], writeThrough);
      SameFilesTwice(fs0, fs, files);
      if WholePiece(offset + nDone, |buffer| - nDone) && SameAhead(n, fs0, sl0, fs, sl, f, offset + nDone) {
        WholeAligned(offset + nDone, |buffer| - nDone);
        SameAheadThen(n, fs0, sl0, fs, sl, files, slots, f, offset + nDone);
      }
      if gone {
        lost, back := c, Nand(n, fs, f, c);
      }
      PieceDone(n, fs0, sl0, fs, sl, files, slots, f, offset, buffer, nDone, nToCopy, ok, lost, back, z);
    }

    static lemma PieceDone(n: nat, fs0: Files, sl0: seq<Slot>, fs: Files, sl: seq<Slot>, fs': Files, sl': seq<Slot>,
            f: nat, offset: nat, buffer: seq<Byte>, nDone: nat, nToCopy: nat, ok: bool, lost: nat, back: seq<Byte>,
            z: int)
      requires n > 0 && f in fs0 && CacheOk(n, fs0, sl0) && CacheOk(n, fs, sl) && CacheOk(n, fs', sl')
      requires 0 < nToCopy <= |buffer| - nDone && (offset + nDone) % n + nToCopy <= n
      requires forall k | 0 <= k < |buffer| && z <= offset + k :: buffer[k] == 0
      requires Patched(n, fs0, sl0, fs, sl, f, offset, buffer[..nDone], 0, [])
      requires CalmAhead(n, fs0, sl0, fs, sl, f, offset + nDone)
      requires ZeroFrom(n, fs, sl, f, Max(fs0[f].size, offset + nDone)) && ZeroFrom(n, fs, sl, f, z)
      requires |View(n, fs, sl, f, (offset + nDone) / n + 1)| == n
      requires ok ==> lost == 0 && back == [] && Changed(n, fs, sl, fs', sl', f, (offset + nDone) / n + 1,
          Splice(View(n, fs, sl, f, (offset + nDone) / n + 1), (offset + nDone) % n, buffer[nDone..][..nToCopy]))
      requires !ok && lost == 0 ==> back == [] && Kept(n, fs, sl, fs', sl')
      requires lost != 0 ==>
          lost == (offset + nDone) / n + 1 && back == Nand(n, fs, f, lost)
              && Changed(n, fs, sl, fs', sl', f, lost, back)
          && (offset + nDone) % n == 0 && nDone + n <= |buffer| && IsDirty(sl, f, lost)
      ensures var done := if ok then nDone + nToCopy else nDone;
              && Patched(n, fs0, sl0, fs', sl', f, offset, buffer[..done], lost, back)
              && ZeroFrom(n, fs', sl', f, Max(fs0[f].size, offset + done)) && ZeroFrom(n, fs', sl', f, z)
      ensures !ok ==> LostOk(n, offset, |buffer|, nDone, lost, back, Max(fs0[f].size, offset + nDone), z)
      ensures ok ==> CalmAhead(n, fs0, sl0, fs', sl', f, offset + nDone + nToCopy)
      ensures lost != 0 ==> IsDirty(sl0, f, lost) && back == Nand(n, fs0, f, lost)
    {
      hide CacheOk, DirtyOk, PastEndZero, Kept, Changed, Pow2, View, Nand, Splice, ZeroFrom, Patched, FewerDirty,
          ZeroTail, Base, SameFiles, LostOk, IsDirty, CalmAhead;
      var c := (offset + nDone) / n + 1;
      BaseOf(n, offset + nDone);
      if ok {
        CalmAheadThen(n, fs0, sl0, fs, sl, fs', sl', f, offset + nDone, nToCopy,
            Splice(View(n, fs, sl, f, c), (offset + nDone) % n, buffer[nDone..][..nToCopy]));
        PieceWritten(n, fs0, sl0, fs, sl, fs', sl', f, offset, buffer, nDone, nToCopy, z);
      } else if lost != 0 {
        CalmAt(n, fs0, sl0, fs, sl, f, offset + nDone, lost);
        PieceLost(n, fs0, sl0, fs, sl, fs', sl', f, offset, buffer, nDone, z);
      } else {
        PatchedKept(n, fs0, sl0, fs, sl, fs', sl', f, offset, buffer[..nDone], 0, []);
        ZeroKept(n, fs, sl, fs', sl', f, Max(fs0[f].size, offset + nDone));
        ZeroKept(n, fs, sl, fs', sl', f, z);
        NoneLost(n, offset, |buffer|, nDone, Max(fs0[f].size, offset + nDone), z);
      }
    }

    /** Of the chunks from offset p on, those that have a dirty entry had one before the write began, and NAND
        holds of them what it held. */
    static ghost predicate CalmAhead(n: nat, fs0: Files, sl0: seq<Slot>, fs: Files, sl: seq<Slot>, f: nat, p: int) {
      forall d: nat | d > 0 && Base(n, d) >= p :: Calm(n, fs0, sl0, fs, sl, f, d)
    }

    /** While only whole chunks are written nothing is flushed on the way either. */
    static ghost predicate SameAhead(n: nat, fs0: Files, sl0: seq<Slot>, fs: Files, sl: seq<Slot>, f: nat, p: int) {
      forall d: nat | d > 0 && Base(n, d) >= p :: SameChunkState(n, fs0, sl0, fs, sl, f, d)
    }

    static lemma CalmAt(n: nat, fs0: Files, sl0: seq<Slot>, fs: Files, sl: seq<Slot>, f: nat, p: int, d: nat)
      requires CalmAhead(n, fs0, sl0, fs, sl, f, p) && d > 0 && Base(n, d) >= p && IsDirty(sl, f, d)
      ensures IsDirty(sl0, f, d) && Nand(n, fs, f, d) == Nand(n, fs0, f, d)
    {
      hide IsDirty, Nand;
      assert Calm(n, fs0, sl0, fs, sl, f, d);
    }

    static lemma CalmAheadThen(n: nat, fs0: Files, sl0: seq<Slot>, fs: Files, sl: seq<Slot>, fs': Files, sl': seq<Slot>,
            f: nat, p: nat, m: nat, v: seq<Byte>)
      requires n > 0 && m > 0 && CalmAhead(n, fs0, sl0, fs, sl, f, p) && Changed(n, fs, sl, fs', sl', f, p / n + 1, v)
      ensures CalmAhead(n, fs0, sl0, fs', sl', f, p + m)
    {
      hide IsDirty, Nand, View, Seen, NandFrom;
      BaseOf(n, p);
      forall d: nat | d > 0 && Base(n, d) >= p + m
        ensures Calm(n, fs0, sl0, fs', sl', f, d)
      {
        assert d != p / n + 1;
        assert Calm(n, fs0, sl0, fs, sl, f, d) && Calm(n, fs, sl, fs', sl', f, d);
      }
    }

    static lemma SameAheadThen(n: nat, fs0: Files, sl0: seq<Slot>, fs: Files, sl: seq<Slot>, fs': Files, sl': seq<Slot>,
            f: nat, p: nat)
      requires n > 0 && p % n == 0 && SameAhead(n, fs0, sl0, fs, sl, f, p)
      requires forall d: nat | d != p / n + 1 :: SameChunkState(n, fs, sl, fs', sl', f, d)
      ensures SameAhead(n, fs0, sl0, fs', sl', f, p + n)
      ensures IsDirty(sl, f, p / n + 1) == IsDirty(sl0, f, p / n + 1)
    {
      hide IsDirty, Nand;
      BaseOf(n, p);
      assert SameChunkState(n, fs0, sl0, fs, sl, f, p / n + 1);
      forall d: nat | d > 0 && Base(n, d) >= p + n
        ensures SameChunkState(n, fs0, sl0, fs', sl', f, d)
      {
        assert d != p / n + 1;
        assert SameChunkState(n, fs0, sl0, fs, sl, f, d) && SameChunkState(n, fs, sl, fs', sl', f, d);
      }
    }

    static lemma PieceWritten(n: nat, fs0: Files, sl0: seq<Slot>, fs: Files, sl: seq<Slot>, fs': Files, sl': seq<Slot>,
            f: nat, offset: nat, buffer: seq<Byte>, nDone: nat, nToCopy: nat, z: int)
      requires n > 0 && CacheOk(n, fs0, sl0) && CacheOk(n, fs', sl') && f in fs0
      requires nDone + nToCopy <= |buffer| && (offset + nDone) % n + nToCopy <= n
      requires forall k | 0 <= k < |buffer| && z <= offset + k :: buffer[k] == 0
      requires Patched(n, fs0, sl0, fs, sl, f, offset, buffer[..nDone], 0, [])
      requires ZeroFrom(n, fs, sl, f, Max(fs0[f].size, offset + nDone)) && ZeroFrom(n, fs, sl, f, z)
      requires var c := (offset + nDone) / n + 1;
               |View(n, fs, sl, f, c)| == n && Changed(n, fs, sl, fs', sl', f, c,
                   Splice(View(n, fs, sl, f, c), (offset + nDone) % n, buffer[nDone..][..nToCopy]))
      ensures Patched(n, fs0, sl0, fs', sl', f, offset, buffer[..nDone + nToCopy], 0, [])
      ensures ZeroFrom(n, fs', sl', f, Max(fs0[f].size, offset + nDone + nToCopy)) && ZeroFrom(n, fs', sl', f, z)
    {
      hide CacheOk, Changed, View, Nand, Splice, ZeroFrom, Patched, ZeroTail, Base;
      var pos, m, size := offset + nDone, nDone + nToCopy, fs0[f].size;
      assert buffer[nDone..][..nToCopy] == buffer[nDone..m];
      BaseOf(n, pos);
      ViewSizes(n, fs0, sl0);
      PatchedMore(n, fs0, sl0, fs, sl, fs', sl', f, pos / n + 1, offset, buffer, nDone, m);
      ZeroFromMore(n, fs, sl, f, Max(size, pos), Max(size, offset + m));
      PieceZero(n, fs, sl, fs', sl', f, pos, buffer[nDone..m], Max(size, offset + m));
      PieceZero(n, fs, sl, fs', sl', f, pos, buffer[nDone..m], z);
    }

    static lemma PieceLost(n: nat, fs0: Files, sl0: seq<Slot>, fs: Files, sl: seq<Slot>, fs': Files, sl': seq<Slot>,
            f: nat, offset: nat, buffer: seq<Byte>, nDone: nat, z: int)
      requires n > 0 && CacheOk(n, fs, sl) && CacheOk(n, fs', sl') && f in fs0
      requires nDone + n <= |buffer| && (offset + nDone) % n == 0
      requires Patched(n, fs0, sl0, fs, sl, f, offset, buffer[..nDone], 0, [])
      requires ZeroFrom(n, fs, sl, f, Max(fs0[f].size, offset + nDone)) && ZeroFrom(n, fs, sl, f, z)
      requires var c := (offset + nDone) / n + 1; Changed(n, fs, sl, fs', sl', f, c, Nand(n, fs, f, c))
      ensures var c := (offset + nDone) / n + 1;
              var back := Nand(n, fs, f, c);
              && Patched(n, fs0, sl0, fs', sl', f, offset, buffer[..nDone], c, back)
              && LostOk(n, offset, |buffer|, nDone, c, back, Max(fs0[f].size, offset + nDone), z)
      ensures ZeroFrom(n, fs', sl', f, Max(fs0[f].size, offset + nDone)) && ZeroFrom(n, fs', sl', f, z)
    {
      hide CacheOk, Changed, View, Nand, Splice, ZeroFrom, Patched, ZeroTail, Base;
      var c, y := (offset + nDone) / n + 1, Max(fs0[f].size, offset + nDone);
      var back := Nand(n, fs, f, c);
      NandBack(n, fs, sl, f, c, y, z);
      PatchedLost(n, fs0, sl0, fs, sl, fs', sl', f, c, offset, buffer[..nDone], back);
      ZeroChanged(n, fs, sl, fs', sl', f, c, back, f, y);
      ZeroChanged(n, fs, sl, fs', sl', f, c, back, f, z);
    }

    /** Write buffer at offset, chunk by chunk. It stops early when there is no room; a whole chunk
        whose write fails loses what the cache held of it, if that was dirty. z is an offset from which
        both the file and what is written are zero. */
    method DoWriteDataToFile(f: nat, offset: nat, buffer: seq<Byte>, writeThrough: bool, ghost z: int)
      returns (nDone: nat, ghost lost: nat, ghost back: seq<Byte>)
      requires Inv(None) && f in files && ZeroFrom(n, files, slots, f, z)
      requires forall k | 0 <= k < |buffer| && z <= offset + k :: buffer[k] == 0
      modifies `files, `slots, `srLastUse, `asked
      ensures Inv(None) && n > 0 && nDone <= |buffer| && asked >= old(asked)
      ensures nDone < |buffer| ==> Refused(refusals, old(asked), asked)
      ensures Resized(old(files), files, f, Max(old(files[f].size), offset + nDone), true)
          && ZeroFrom(n, files, slots, f, z)
      ensures Patched(n, old(files), old(slots), files, slots, f, offset, buffer[..nDone], lost, back)
      ensures LostOk(n, offset, |buffer|, nDone, lost, back, files[f].size, z)
      ensures WriteEnds(old(files), old(slots), files, slots, f, offset, |buffer|, writeThrough, nDone, lost, back,
          old(asked))
    {
      hide CacheOk, DirtyOk, PastEndZero, Kept, Changed, Pow2, View, Nand, Splice, ZeroFrom, Patched, FewerDirty,
          ZeroTail, LostOk, SameFiles, Resized, IsDirty,
        SoFar, WholePiece, WriteEnds;
      ghost var fs0, sl0, t0 := files, slots, asked;
      KeptSame(n, files, slots);
      PatchedNothing(n, fs0, sl0, files, slots, f, offset);
      SizedZero(n, files, slots, f);
      ZeroFromMore(n, files, slots, f, files[f].size, Max(files[f].size, offset));
      StartWrite(n, files, slots, f);
      SameFilesSame(files);
      NoneLost(n, offset, |buffer|, 0, fs0[f].size, z);
      SoFarStarts(f, offset, |buffer|, writeThrough);
      assert buffer[..0] == [];
      nDone, lost, back := 0, 0, [];
      var ok := true;
      while nDone < |buffer| && ok
        invariant Inv(Some(f)) && n > 0 && Written(fs0, sl0, f, offset, buffer, nDone, z)
        invariant Patched(n, fs0, sl0, files, slots, f, offset, buffer[..nDone], lost, back)
        invariant ok ==> lost == 0 && back == []
        invariant SoFar(fs0, sl0, f, offset, |buffer|, writeThrough, nDone, ok, lost, back, t0)
        invariant asked >= t0 && (!ok ==> Refused(refusals, t0, asked))
        invariant !ok ==> LostOk(n, offset, |buffer|, nDone, lost, back, Max(fs0[f].size, offset + nDone), z)
        decreases |buffer| - nDone, ok
      {
        var nToCopy;
        ok, nToCopy, lost, back := WriteStep(f, offset, buffer, nDone, writeThrough, z, fs0, sl0, t0);
        if ok {
          nDone := nDone + nToCopy;
        }
      }
      SoFarEnds(fs0, sl0, f, offset, |buffer|, writeThrough, nDone, ok, lost, back, t0);
      ghost var fs := files;
      SizesSame(fs0, fs, f);
      NoneLost(n, offset, |buffer|, nDone, Max(fs0[f].size, offset + nDone), z);
      var newSize := if offset + nDone > files[f].size then offset + nDone else files[f].size;
      files := files[f := files[f].(size := newSize, dirty := true)];
      MetaViews(n, fs, slots, f, files[f]);
      MetaZero(n, fs, slots, f, files[f], f, z);
      MetaDone(n, fs, slots, f, files[f], Some(f));
      EndsKept(fs0, sl0, fs, files, slots, f, offset, |buffer|, writeThrough, nDone, lost, back, t0);
      ViewsPatched(n, fs0, sl0, fs, slots, files, f, offset, buffer[..nDone], lost, back);
      ResizedFrom(fs0, fs, f, files[f]);
    }

    /** What is known on the way of the chunks still to be written, of a chunk that was lost, and of a write
        that stays within one chunk. */
    ghost predicate SoFar(fs0: Files, sl0: seq<Slot>, f: nat, offset: nat, total: nat, writeThrough: bool, nDone: nat,
            ok: bool, lost: nat, back: seq<Byte>, t0: nat)
      requires n > 0
      reads `files, `slots, `asked, `refusals
    {
      && (ok ==> CalmAhead(n, fs0, sl0, files, slots, f, offset + nDone))
      && (lost != 0 ==> IsDirty(sl0, f, lost) && back == Nand(n, fs0, f, lost) && !inbandTags)
      && (offset % n == 0 && !inbandTags && nDone + n <= total ==>
            if ok then (offset + nDone) % n == 0 && SameAhead(n, fs0, sl0, files, slots, f, offset + nDone)
            else IsDirty(sl0, f, (offset + nDone) / n + 1) ==> lost != 0)
      && (WholePiece(offset, total) && t0 in refusals ==> nDone == 0)
      && (ok && nDone == 0 ==> asked == t0)
      && (offset % n + total < n && nCaches > 0 ==>
            if nDone == 0 then ok ==> Nand(n, files, f, offset / n + 1) == Nand(n, fs0, f, offset / n + 1)
            else nDone == total
                 && (!writeThrough ==>
                     IsDirty(slots, f, offset / n + 1)
                     && Nand(n, files, f, offset / n + 1) == Nand(n, fs0, f, offset / n + 1)))
    }

    lemma SoFarStarts(f: nat, offset: nat, total: nat, writeThrough: bool)
      requires n > 0
      ensures SoFar(files, slots, f, offset, total, writeThrough, 0, true, 0, [], asked)
    {
      hide IsDirty, Nand;
      AheadSame(n, files, slots, f, offset);
    }

    /** What is known at the end: only a chunk that was dirty can be lost, and what comes back is what NAND
        held of it when the write began; an aligned write that stops at such a chunk has lost it; without room
        nothing of a whole chunk is written; and a write within one chunk stays in the cache. */
    ghost predicate WriteEnds(fs0: Files, sl0: seq<Slot>, fs: Files, sl: seq<Slot>, f: nat, offset: nat, total: nat,
            writeThrough: bool, nDone: nat, lost: nat, back: seq<Byte>, t0: nat)
      reads `refusals
    {
      n > 0
      && (lost != 0 ==> IsDirty(sl0, f, lost) && back == Nand(n, fs0, f, lost) && !inbandTags)
      && (offset % n == 0 && !inbandTags && nDone + n <= total && IsDirty(sl0, f, (offset + nDone) / n + 1) ==>
          lost != 0)
      && (WholePiece(offset, total) && t0 in refusals ==> nDone == 0)
      && (offset % n + total < n && nCaches > 0 && 0 < nDone == total && !writeThrough ==>
            IsDirty(sl, f, offset / n + 1) && Nand(n, fs, f, offset / n + 1) == Nand(n, fs0, f, offset / n + 1))
    }

    lemma SoFarEnds(fs0: Files, sl0: seq<Slot>, f: nat, offset: nat, total: nat, writeThrough: bool, nDone: nat,
            ok: bool, lost: nat, back: seq<Byte>, t0: nat)
      requires n > 0 && SoFar(fs0, sl0, f, offset, total, writeThrough, nDone, ok, lost, back, t0) && nDone <= total
          && (ok ==> nDone == total)
      ensures WriteEnds(fs0, sl0, files, slots, f, offset, total, writeThrough, nDone, lost, back, t0)
    {
      hide IsDirty, Nand, CalmAhead, SameAhead;
    }

    lemma EndsKept(fs0: Files, sl0: seq<Slot>, fs: Files, fs': Files, sl: seq<Slot>, f: nat, offset: nat, total: nat,
            writeThrough: bool, nDone: nat, lost: nat, back: seq<Byte>, t0: nat)
      requires WriteEnds(fs0, sl0, fs, sl, f, offset, total, writeThrough, nDone, lost, back, t0)
      requires forall c: nat :: Nand(n, fs', f, c) == Nand(n, fs, f, c)
      ensures WriteEnds(fs0, sl0, fs', sl, f, offset, total, writeThrough, nDone, lost, back, t0)
    {
      hide IsDirty, Nand, WholePiece;
    }

    /** One piece, and what is known then. */
    method WriteStep(f: nat, offset: nat, buffer: seq<Byte>, nDone: nat, writeThrough: bool, ghost z: int,
            ghost fs0: Files, ghost sl0: seq<Slot>, ghost t0: nat)
      returns (ok: bool, nToCopy: nat, ghost lost: nat, ghost back: seq<Byte>)
      requires Inv(Some(f)) && n > 0 && t0 <= asked && nDone < |buffer|
          && Written(fs0, sl0, f, offset, buffer, nDone, z)
      requires Patched(n, fs0, sl0, files, slots, f, offset, buffer[..nDone], 0, [])
      requires CacheOk(n, fs0, sl0) && forall k | 0 <= k < |buffer| && z <= offset + k :: buffer[k] == 0
      requires SoFar(fs0, sl0, f, offset, |buffer|, writeThrough, nDone, true, 0, [], t0)
      modifies `files, `slots, `srLastUse, `asked
      ensures asked >= t0 && (!ok ==> Refused(refusals, t0, asked))
      ensures Inv(Some(f)) && n > 0 && (ok ==> nDone + nToCopy <= |buffer| && lost == 0 && back == [] && nToCopy > 0)
      ensures Written(fs0, sl0, f, offset, buffer, if ok then nDone + nToCopy else nDone, z)
      ensures Patched(n, fs0, sl0, files, slots, f, offset, buffer[..if ok then nDone + nToCopy else nDone], lost, back)
      ensures !ok ==> LostOk(n, offset, |buffer|, nDone, lost, back, Max(fs0[f].size, offset + nDone), z)
      ensures SoFar(fs0, sl0, f, offset, |buffer|, writeThrough, if ok then nDone + nToCopy
          else nDone, ok, lost, back, t0)
    {
      hide CacheOk, DirtyOk, PastEndZero, Pow2, View, Nand, ZeroFrom, Patched, LostOk, IsDirty, CalmAhead, SameAhead,
          Written, SoFar, WholePiece;
      WrittenFacts(fs0, sl0, f, offset, buffer, nDone, z);
      SoFarNow(fs0, sl0, f, offset, |buffer|, writeThrough, nDone, t0);
      ghost var whole := offset % n == 0 && !inbandTags && nDone + n <= |buffer|;
      ghost var small := offset % n + |buffer| < n && nCaches > 0;
      NextAligned(n, offset + nDone);
      ok, nToCopy, lost, back := WriteNext(f, offset, buffer, nDone, writeThrough, z, fs0, sl0);
      SoFarNext(fs0, sl0, f, offset, |buffer|, writeThrough, nDone, ok, nToCopy, lost, back, whole, small, t0);
    }

    lemma SoFarNow(fs0: Files, sl0: seq<Slot>, f: nat, offset: nat, total: nat, writeThrough: bool, nDone: nat,
            t0: nat)
      requires n > 0 && nDone < total && SoFar(fs0, sl0, f, offset, total, writeThrough, nDone, true, 0, [], t0)
      ensures CalmAhead(n, fs0, sl0, files, slots, f, offset + nDone)
      ensures offset % n == 0 && !inbandTags && nDone + n <= total ==>
                WholePiece(offset + nDone, total - nDone) && (offset + nDone) % n == 0
                    && SameAhead(n, fs0, sl0, files, slots, f, offset + nDone)
      ensures offset % n + total < n && nCaches > 0 ==>
          nDone == 0 && Nand(n, files, f, offset / n + 1) == Nand(n, fs0, f, offset / n + 1)
      ensures WholePiece(offset, total) && t0 in refusals ==> nDone == 0
      ensures nDone == 0 ==> asked == t0
      ensures nDone == 0 ==> offset + nDone == offset && total - nDone == total
    {
      hide IsDirty, Nand, CalmAhead, SameAhead;
    }

    lemma SoFarNext(fs0: Files, sl0: seq<Slot>, f: nat, offset: nat, total: nat, writeThrough: bool, nDone: nat,
            ok: bool, nToCopy: nat, lost: nat, back: seq<Byte>, whole: bool, small: bool, t0: nat)
      requires n > 0 && nDone < total && (ok ==> nDone + nToCopy <= total && nToCopy > 0)
      requires whole <==> offset % n == 0 && !inbandTags && nDone + n <= total
      requires small <==> offset % n + total < n && nCaches > 0
      requires ok ==> CalmAhead(n, fs0, sl0, files, slots, f, offset + nDone + nToCopy)
      requires lost != 0 ==> IsDirty(sl0, f, lost) && back == Nand(n, fs0, f, lost) && !inbandTags
      requires whole ==> (ok ==>
          nToCopy == n && (offset + nDone + n) % n == 0 && SameAhead(n, fs0, sl0, files, slots, f, offset + nDone + n))
                         && (!ok && IsDirty(sl0, f, (offset + nDone) / n + 1) ==> lost != 0)
      requires WholePiece(offset, total) && t0 in refusals ==> nDone == 0 && !ok
      requires small ==> nDone == 0 && (ok ==> nToCopy == total)
      requires small && ok && !writeThrough ==>
          IsDirty(slots, f, offset / n + 1) && Nand(n, files, f, offset / n + 1) == Nand(n, fs0, f, offset / n + 1)
      ensures SoFar(fs0, sl0, f, offset, total, writeThrough, if ok then nDone + nToCopy else nDone, ok, lost, back, t0)
    {
      hide IsDirty, Nand, CalmAhead, SameAhead, WholePiece;
    }

    lemma WrittenFacts(fs0: Files, sl0: seq<Slot>, f: nat, offset: nat, buffer: seq<Byte>, nDone: nat, z: int)
      requires Written(fs0, sl0, f, offset, buffer, nDone, z)
      ensures f in fs0 && f in files && nDone <= |buffer|
    {
    }

    static lemma NextAligned(n: nat, p: nat)
      requires n > 0
      ensures p % n == 0 ==> (p + n) % n == 0
    {
      if p % n == 0 {
        RemainderIs(p, n);
        QuotientIs(p + n, n, p / n + 1, 0);
      }
    }

    static lemma AheadSame(n: nat, fs: Files, sl: seq<Slot>, f: nat, p: int)
      ensures CalmAhead(n, fs, sl, fs, sl, f, p) && SameAhead(n, fs, sl, fs, sl, f, p)
    {
    }

    static lemma NoneLost(n: nat, offset: nat, total: nat, nDone: nat, size: int, z: int)
      requires n > 0
      ensures LostOk(n, offset, total, nDone, 0, [], size, z)
    {
    }

    static lemma SizesSame(fs: Files, fs': Files, f: nat)
      requires SameFiles(fs, fs') && f in fs
      ensures f in fs' && fs'[f].size == fs[f].size
    {
    }

    static lemma SizedZero(n: nat, fs: Files, sl: seq<Slot>, f: nat)
      requires PastEndZero(n, fs, sl, None) && f in fs
      ensures ZeroFrom(n, fs, sl, f, fs[f].size)
    {
    }

    static lemma StartWrite(n: nat, fs: Files, sl: seq<Slot>, f: nat)
      requires DirtyOk(fs, sl, None) && PastEndZero(n, fs, sl, None)
      ensures DirtyOk(fs, sl, Some(f)) && PastEndZero(n, fs, sl, Some(f))
    {
    }

    static lemma SameFilesTwice(fs: Files, fs1: Files, fs2: Files)
      requires SameFiles(fs, fs1) && SameFiles(fs1, fs2)
      ensures SameFiles(fs, fs2)
    {
    }

    static lemma NandBack(n: nat, fs: Files, sl: seq<Slot>, f: nat, c: nat, z: int, z': int)
      requires CacheOk(n, fs, sl) && ZeroFrom(n, fs, sl, f, z) && ZeroFrom(n, fs, sl, f, z')
      ensures |Nand(n, fs, f, c)| == n && ZeroTail(n, c, Nand(n, fs, f, c), z) && ZeroTail(n, c, Nand(n, fs, f, c), z')
    {
    }

    /** Take the chunks at or beyond newSize out of the file, last first. */
    method PruneResizedChunks(f: nat, newSize: nat, ghost startDel: nat, ghost lastDel: nat)
      requires f in files && n > 0
      requires startDel == 1 + (newSize + n - 1) / n
      requires lastDel == if files[f].size == 0 then 1 else 1 + (files[f].size - 1) / n
      modifies `files
      ensures files == old(files)[f := old(files)[f].(chunks := Without(old(files)[f].chunks, startDel, lastDel))]
    {
      var oldFileSize := files[f].size;
      var last := if oldFileSize == 0 then 1 else 1 + (oldFileSize - 1) / n;
      var start := 1 + (newSize + n - 1) / n;
      var i := last;
      assert Without(files[f].chunks, i + 1, last) == files[f].chunks;
      while i >= start
        invariant start - 1 <= i <= last || i == last
        invariant f in files && files == old(files)[f := old(files)[f].(chunks := Without(old(files)[f].chunks, i + 1,
            last))]
      {
        WithoutMore(old(files)[f].chunks, i, last);
        files := files[f := files[f].(chunks := files[f].chunks - {i})];
        i := i - 1;
      }
      assert Without(old(files)[f].chunks, i + 1, last) == Without(old(files)[f].chunks, start, last);
    }

    /** Cut the file to newSize. It works on NAND alone: either the cache has nothing of f, or all it
        has from newSize on is zeros. */
    method ResizeDown(f: nat, newSize: nat)
      requires Inv(None) && f in files && newSize <= files[f].size
      requires (forall i | 0 <= i < |slots| :: slots[i].obj != Some(f)) || ZeroFrom(n, files, slots, f, newSize)
      modifies `files
      ensures Inv(None) && Resized(old(files), files, f, newSize, old(files[f].dirty))
          && ZeroFrom(n, files, slots, f, newSize)
      ensures ViewsCut(n, old(files), slots, files, slots, f, newSize)
    {
      hide CacheOk, DirtyOk, PastEndZero, View, Nand, ZeroFrom, Pow2, Zeros, Without, NandCut, Resized, ViewsCut;
      ghost var fs, size := files, files[f].size;
      ghost var startDel, lastDel := 1 + (newSize + n - 1) / n, if size == 0 then 1 else 1 + (size - 1) / n;
      SizedZero(n, files, slots, f);
      PruneResizedChunks(f, newSize, startDel, lastDel);
      ghost var fs1 := files;
      if newSize % n != 0 {
        var lastChunk := newSize / n + 1;
        NandWithout(n, fs, slots, fs1, f, lastChunk, startDel, lastDel);
        var localBuffer := Nand(n, files, f, lastChunk)[..newSize % n] + Zeros(n - newSize % n);
        ZerosSize(n - newSize % n);
        WriteWithReserve(f, lastChunk, localBuffer, newSize % n);
      }
      AllCut(n, fs, slots, fs1, files, f, newSize, startDel, lastDel);
      ghost var fs2 := files;
      files := files[f := files[f].(size := newSize)];
      CutDone(n, fs, slots, fs2, f, newSize);
    }

    static lemma ZerosSize(k: nat)
      ensures |Zeros(k)| == k
    {
    }

    static lemma NandWithout(n: nat, fs: Files, sl: seq<Slot>, fs1: Files, f: nat, c: nat, lo: nat, hi: nat)
      requires CacheOk(n, fs, sl) && f in fs && fs1 == fs[f := fs[f].(chunks := Without(fs[f].chunks, lo, hi))]
      ensures |Nand(n, fs1, f, c)| == n && forall g: nat, d: nat | g != f :: Nand(n, fs1, g, d) == Nand(n, fs, g, d)
    {
      assert |Nand(n, fs, f, c)| == n;
    }

    static lemma AllCut(n: nat, fs: Files, sl: seq<Slot>, fs1: Files, fs2: Files, f: nat, newSize: nat, startDel: nat,
            lastDel: nat)
      requires n > 0 && CacheOk(n, fs, sl) && f in fs && newSize <= fs[f].size && ZeroFrom(n, fs, sl, f, fs[f].size)
      requires startDel == 1 + (newSize + n - 1) / n && lastDel == if fs[f].size == 0 then 1
          else 1 + (fs[f].size - 1) / n
      requires fs1 == fs[f := fs[f].(chunks := Without(fs[f].chunks, startDel, lastDel))]
      requires var last := newSize / n + 1;
               fs2 == if newSize % n == 0 then fs1
                   else PutChunk(fs1, f, last, Nand(n, fs1, f,
                   last)[..Min(newSize % n, |Nand(n, fs1, f, last)|)] + Zeros(n - newSize % n))
      ensures NandCut(n, fs, fs2, f, newSize)
    {
      hide ZeroFrom, Zeros, Without;
      forall g: nat, c: nat
        ensures Nand(n, fs2, g, c) == Cut(n, Nand(n, fs, g, c), f, newSize, g, c)
      {
        NandWithout(n, fs, sl, fs1, f, c, startDel, lastDel);
        if g == f {
          assert |Nand(n, fs, f, c)| == n;
          CutChunk(n, fs, sl, fs1, fs2, f, c, newSize, fs[f].size, startDel, lastDel);
        }
      }
    }

    static lemma CutDone(n: nat, fs: Files, sl: seq<Slot>, fs2: Files, f: nat, newSize: nat)
      requires CacheOk(n, fs, sl) && DirtyOk(fs, sl, None) && PastEndZero(n, fs, sl, None) && f in fs
      requires NandCut(n, fs, fs2, f, newSize)
      requires (forall i | 0 <= i < |sl| :: sl[i].obj != Some(f)) || ZeroFrom(n, fs, sl, f, newSize)
      requires fs2.Keys == fs.Keys && fs2[f].dirty == fs[f].dirty && fs2[f].linked == fs[f].linked && forall g | g in fs
          && g != f :: fs2[g] == fs[g]
      ensures var fs' := fs2[f := fs2[f].(size := newSize)];
              && CacheOk(n, fs', sl) && DirtyOk(fs', sl, None) && PastEndZero(n, fs', sl, None)
              && Resized(fs, fs', f, newSize, fs[f].dirty) && ZeroFrom(n, fs', sl, f, newSize)
                  && ViewsCut(n, fs, sl, fs', sl, f, newSize)
    {
      CutState(n, fs, sl, fs2, f, newSize);
      hide CacheOk, View, Nand, ZeroFrom, NandCut;
      var file := fs2[f].(size := newSize);
      MetaViews(n, fs2, sl, f, file);
      MetaZero(n, fs2, sl, f, file, f, newSize);
      forall g | g in fs && g != f
        ensures ZeroFrom(n, fs2[f := file], sl, g, fs[g].size)
      {
        MetaZero(n, fs2, sl, f, file, g, fs[g].size);
      }
    }

    /** Is there a dirty entry of f in the cache? */
    method ObjectHasCachedWriteData(f: nat) returns (has: bool)
      ensures has <==> DirtyOf(slots, f) != {}
    {
      var i := 0;
      while i < |slots|
        invariant 0 <= i <= |slots| && forall j | 0 <= j < i :: j !in DirtyOf(slots, f)
      {
        if slots[i].obj == Some(f) && slots[i].dirty {
          assert i in DirtyOf(slots, f);
          return true;
        }
        i := i + 1;
      }
      return false;
    }

    /** A header is written for f: nothing is left to write, unless the cache still has something. */
    method UpdateObjectHeader(f: nat)
      requires Inv(None) && f in files
      modifies `files
      ensures Inv(None) && SameViews(n, old(files), slots, files, slots)
      ensures files == old(files)[f := old(files)[f].(dirty := old(files)[f].dirty && DirtyOf(slots, f) != {})]
      ensures forall z | ZeroFrom(n, old(files), slots, f, z) :: ZeroFrom(n, files, slots, f, z)
    {
      hide CacheOk, DirtyOk, PastEndZero, View, Nand, ZeroFrom, Pow2, DirtyOf;
      var has := ObjectHasCachedWriteData(f);
      ghost var fs := files;
      var file := files[f].(dirty := files[f].dirty && has);
      DirtyMark(fs, slots, f);
      SizedZero(n, fs, slots, f);
      MetaViews(n, fs, slots, f, file);
      MetaDone(n, fs, slots, f, file, None);
      forall z | ZeroFrom(n, fs, slots, f, z)
        ensures ZeroFrom(n, fs[f := file], slots, f, z)
      {
        MetaZero(n, fs, slots, f, file, f, z);
      }
      files := files[f := file];
    }

    static lemma DirtyMark(fs: Files, sl: seq<Slot>, f: nat)
      requires DirtyOk(fs, sl, None) && f in fs
      ensures !fs[f].dirty ==> DirtyOf(sl, f) == {}
    {
    }

    /** Writing zeros where f is zero already is not seen, whether it succeeds or not. */
    static lemma ZerosUnseen(n: nat, fs: Files, sl: seq<Slot>, fs1: Files, sl1: seq<Slot>, fs2: Files, sl2: seq<Slot>,
            f: nat, pos: nat, total: nat, nDone: nat, lost: nat, back: seq<Byte>, size: int, z: int)
      requires n > 0 && nDone <= total && z <= pos && SameViews(n, fs, sl, fs1, sl1) && ZeroFrom(n, fs1, sl1, f, z)
          && CacheOk(n, fs1, sl1)
      requires Patched(n, fs1, sl1, fs2, sl2, f, pos, Zeros(total)[..nDone], lost, back)
          && LostOk(n, pos, total, nDone, lost, back, size, z)
      ensures SameViews(n, fs, sl, fs2, sl2)
    {
      hide View, Nand, ZeroFrom, CacheOk, Base;
      forall g: nat, c: nat
        ensures View(n, fs2, sl2, g, c) == View(n, fs, sl, g, c)
      {
        assert View(n, fs2, sl2, g, c) == Wanted(n, fs1, sl1, f, pos, Zeros(total)[..nDone], lost, back, g, c);
        ViewSize(n, fs1, sl1, g, c);
        if g == f {
          ZeroView(n, fs1, sl1, f, c, z);
          ZerosOver(n, View(n, fs1, sl1, f, c), c, pos, Zeros(total)[..nDone], z);
          if c == lost && c != 0 {
            BaseOf(n, pos + nDone);
          }
        }
      }
    }

    static lemma ZerosOver(n: nat, s: seq<Byte>, c: nat, pos: nat, d: seq<Byte>, z: int)
      requires ZeroTail(n, c, s, z) && z <= pos && forall k | 0 <= k < |d| :: d[k] == 0
      ensures Patch(n, s, c, pos, d) == s
    {
    }

    /** f is about to grow to newSize: the hole is filled with zeros if it is small and there is room,
        otherwise its start is marked by a header. Either way reads see no change. */
    method HandleHole(f: nat, newSize: nat)
      requires Inv(None) && f in files
      modifies `files, `slots, `srLastUse, `asked
      ensures asked >= old(asked) && (newSize <= old(files[f].size) ==> asked == old(asked))
      ensures Inv(None) && SameViews(n, old(files), old(slots), files, slots)
      ensures f in files && ZeroFrom(n, files, slots, f, old(files[f].size))
      ensures old(files[f].size) <= files[f].size <= Max(old(files[f].size), newSize)
      ensures Resized(old(files), files, f, files[f].size, files[f].dirty)
      ensures newSize <= old(files[f].size) ==> files == old(files) && slots == old(slots)
    {
      hide CacheOk, DirtyOk, PastEndZero, View, Nand, ZeroFrom, Pow2, Zeros, SameViews, Patched, LostOk, ViewsCut,
          DirtyOf;
      ghost var fs0, sl0 := files, slots;
      var oldFileSize := files[f].size;
      SizedZero(n, files, slots, f);
      NothingSeen(n, files, slots, f);
      if newSize <= oldFileSize {
        return;
      }
      var room := AskSpace();
      var smallIncreaseOk := false;
      if newSize - oldFileSize < SMALL_HOLE_THRESHOLD * n && room {
        var pos := oldFileSize;
        smallIncreaseOk := true;
        while pos < newSize && smallIncreaseOk
          invariant oldFileSize <= pos <= newSize && Inv(None) && n > 0 && asked >= old(asked)
          invariant f in files && oldFileSize <= files[f].size <= newSize && ZeroFrom(n, files, slots, f, oldFileSize)
          invariant Resized(fs0, files, f, files[f].size, files[f].dirty) && SameViews(n, fs0, sl0, files, slots)
          decreases newSize - pos, smallIncreaseOk
        {
          ghost var fs, sl := files, slots;
          var thisWrite := if newSize - pos > n then n else newSize - pos;
          AllZeros(thisWrite);
          ghost var lost, back;
          var written;
          written, lost, back := DoWriteDataToFile(f, pos, Zeros(thisWrite), false, oldFileSize);
          ZerosUnseen(n, fs0, sl0, fs, sl, files, slots, f, pos, thisWrite, written, lost, back, files[f].size,
              oldFileSize);
          ResizedTwice(fs0, fs, files, f);
          if written == thisWrite {
            pos := pos + thisWrite;
          } else {
            smallIncreaseOk := false;
          }
        }
        if !smallIncreaseOk {
          ghost var fs := files;
          ResizeDown(f, oldFileSize);
          CutUnseen(n, fs0, sl0, fs, slots, files, slots, f, oldFileSize);
          ResizedTwice(fs0, fs, files, f);
        }
      }
      if !smallIncreaseOk && files[f].linked {
        ghost var fs := files;
        UpdateObjectHeader(f);
        SeenTwice(n, fs0, sl0, fs, slots, files, slots);
        ResizedBy(fs0, fs, f, files[f]);
      }
    }

    static lemma AllZeros(k: nat)
      ensures |Zeros(k)| == k && forall i | 0 <= i < k :: Zeros(k)[i] == 0
    {
    }

    static lemma NothingSeen(n: nat, fs: Files, sl: seq<Slot>, f: nat)
      ensures SameViews(n, fs, sl, fs, sl)
      ensures f in fs ==> Resized(fs, fs, f, fs[f].size, fs[f].dirty)
    {
    }

    static lemma SeenTwice(n: nat, fs: Files, sl: seq<Slot>, fs1: Files, sl1: seq<Slot>, fs2: Files, sl2: seq<Slot>)
      requires SameViews(n, fs, sl, fs1, sl1) && SameViews(n, fs1, sl1, fs2, sl2)
      ensures SameViews(n, fs, sl, fs2, sl2)
    {
      hide View;
    }

    static lemma ResizedTwice(fs: Files, fs1: Files, fs2: Files, f: nat)
      requires f in fs1 && f in fs2 && Resized(fs, fs1, f, fs1[f].size, fs1[f].dirty)
          && Resized(fs1, fs2, f, fs2[f].size, fs2[f].dirty)
      ensures Resized(fs, fs2, f, fs2[f].size, fs2[f].dirty)
    {
    }

    static lemma ResizedBy(fs: Files, fs1: Files, f: nat, file: File)
      requires f in fs1 && Resized(fs, fs1, f, fs1[f].size, fs1[f].dirty) && file.linked == fs1[f].linked
      ensures Resized(fs, fs1[f := file], f, file.size, file.dirty)
    {
    }

    /** Cutting at z a file that is zero from there is not seen. */
    static lemma CutUnseen(n: nat, fs: Files, sl: seq<Slot>, fs1: Files, sl1: seq<Slot>, fs2: Files, sl2: seq<Slot>,
            f: nat, z: int)
      requires SameViews(n, fs, sl, fs1, sl1) && ZeroFrom(n, fs1, sl1, f, z) && ViewsCut(n, fs1, sl1, fs2, sl2, f, z)
      ensures SameViews(n, fs, sl, fs2, sl2)
    {
      hide View, ZeroFrom, Trunc;
      forall g: nat, c: nat
        ensures View(n, fs2, sl2, g, c) == View(n, fs, sl, g, c)
      {
        assert View(n, fs2, sl2, g, c) == Cut(n, View(n, fs1, sl1, g, c), f, z, g, c);
        if g == f {
          ZeroView(n, fs1, sl1, f, c, z);
        }
      }
    }

    /** No file but f has changed. */
    static ghost predicate OthersSame(n: nat, fs: Files, sl: seq<Slot>, fs': Files, sl': seq<Slot>, f: nat)
      requires n > 0
    {
      && fs'.Keys == fs.Keys
      && forall g | g in fs && g in fs' && g != f :: Contents(n, fs', sl', g) == Contents(n, fs, sl, g)
    }

    static lemma OthersSeen(n: nat, fs: Files, sl: seq<Slot>, fs': Files, sl': seq<Slot>, f: nat)
      requires n > 0 && fs'.Keys == fs.Keys && forall g | g in fs && g != f :: fs'[g].size == fs[g].size
      requires forall g: nat, c: nat | g != f :: View(n, fs', sl', g, c) == View(n, fs, sl, g, c)
      ensures OthersSame(n, fs, sl, fs', sl', f)
    {
      hide View, Contents;
      forall g | g in fs && g in fs' && g != f
        ensures Contents(n, fs', sl', g) == Contents(n, fs, sl, g)
      {
        SameContents(n, fs, sl, fs', sl', g);
      }
    }

    static lemma SeenOthers(n: nat, fs: Files, sl: seq<Slot>, fs': Files, sl': seq<Slot>, f: nat)
      requires n > 0 && SameViews(n, fs, sl, fs', sl') && f in fs' && Resized(fs, fs', f, fs'[f].size, fs'[f].dirty)
      ensures OthersSame(n, fs, sl, fs', sl', f)
      ensures fs'[f].size == fs[f].size ==> Contents(n, fs', sl', f) == Contents(n, fs, sl, f)
    {
      hide View, Contents;
      OthersSeen(n, fs, sl, fs', sl', f);
      if fs'[f].size == fs[f].size {
        SameContents(n, fs, sl, fs', sl', f);
      }
    }

    static lemma KeptSeen(n: nat, fs: Files, sl: seq<Slot>, fs': Files, sl': seq<Slot>, f: nat)
      requires Kept(n, fs, sl, fs', sl') && f in fs
      ensures SameViews(n, fs, sl, fs', sl') && f in fs' && Resized(fs, fs', f, fs'[f].size, fs'[f].dirty)
          && fs'[f].size == fs[f].size && fs'[f].dirty == fs[f].dirty
    {
    }

    /** Read nBytes at offset: the bytes of the flat array, and zeros past its end. No file changes. */
    method ReadDataFromFile(f: nat, offset: nat, nBytes: nat) returns (buffer: seq<Byte>)
      requires Inv(None) && f in files
      modifies `files, `slots, `srLastUse
      ensures Inv(None) && n > 0 && f in files && OthersSame(n, old(files), old(slots), files, slots, f)
      ensures Contents(n, files, slots, f) == Contents(n, old(files), old(slots), f)
      ensures buffer == FlatRead(Contents(n, files, slots, f), offset, nBytes)
    {
      hide CacheOk, DirtyOk, PastEndZero, Kept, Pow2, Contents, FlatRead, Reads, Resized, SameViews, ZeroFrom,
          OthersSame;
      SizedZero(n, files, slots, f);
      ghost var fs, sl := files, slots;
      buffer := DoReadDataFromFile(f, offset, nBytes);
      ReadIsFlat(n, fs, sl, f, offset, buffer);
      KeptSeen(n, fs, sl, files, slots, f);
      SeenOthers(n, fs, sl, files, slots, f);
    }

    static lemma PatchedOthers(n: nat, fs: Files, sl: seq<Slot>, fs1: Files, sl1: seq<Slot>, fs2: Files, sl2: seq<Slot>,
            f: nat, offset: nat, d: seq<Byte>, lost: nat, back: seq<Byte>)
      requires n > 0 && SameViews(n, fs, sl, fs1, sl1) && Patched(n, fs1, sl1, fs2, sl2, f, offset, d, lost, back)
      requires f in fs1 && f in fs2 && Resized(fs, fs1, f, fs1[f].size, fs1[f].dirty)
          && Resized(fs1, fs2, f, fs2[f].size, fs2[f].dirty)
      ensures OthersSame(n, fs, sl, fs2, sl2, f) && Patched(n, fs, sl, fs2, sl2, f, offset, d, lost, back)
    {
      hide View, Contents, Patch;
      forall g: nat, c: nat
        ensures View(n, fs2, sl2, g, c) == Wanted(n, fs, sl, f, offset, d, lost, back, g, c)
      {
        assert View(n, fs2, sl2, g, c) == Wanted(n, fs1, sl1, f, offset, d, lost, back, g, c);
      }
      OthersSeen(n, fs, sl, fs2, sl2, f);
    }

    static lemma LostPlace(n: nat, offset: nat, total: nat, nDone: nat, lost: nat, back: seq<Byte>, size: int, z: int)
      requires n > 0 && LostOk(n, offset, total, nDone, lost, back, size, z)
      ensures lost != 0 ==>
          nDone < total && lost == (offset + nDone) / n + 1 && offset + nDone <= Base(n, lost) && |back| == n
          && ZeroTail(n, lost, back, size)
      ensures lost != 0 ==> (offset + nDone) % n == 0 && nDone + n <= total
    {
      RemainderIs(offset + nDone, n);
    }

    /** Write buffer at offset: as many bytes of it as could be written, nDone, are in the flat array, and
        a gap before them reads as zeros. There is one exception, a whole chunk that could not be written
        although the cache held newer bytes of it than NAND: if lost is not 0, chunk lost, the next to be
        written, has gone back to what NAND held of it when the write began. All other chunks are as they
        should be. */
    method WriteDataToFile(f: nat, offset: nat, buffer: seq<Byte>, writeThrough: bool)
      returns (nDone: nat, ghost lost: nat)
      requires Inv(None) && f in files
      modifies `files, `slots, `srLastUse, `asked
      ensures Inv(None) && n > 0 && f in files && nDone <= |buffer|
          && OthersSame(n, old(files), old(slots), files, slots, f)
      ensures files[f].dirty && files[f].size == Max(old(files[f].size), offset + nDone)
      ensures nDone < |buffer| ==> Refused(refusals, old(asked), asked)
      ensures refusals == iset{} ==>
                nDone == |buffer|
                && Contents(n, files, slots, f) == FlatWrite(Contents(n, old(files), old(slots), f), offset, buffer)
      ensures Contents(n, files, slots, f) == FlatWrite(Contents(n, old(files), old(slots), f), offset, buffer[..nDone]) <==> lost == 0
      ensures AsWritten(n, Contents(n, files, slots, f),
          FlatWrite(Contents(n, old(files), old(slots), f), offset, buffer[..nDone]),
                        lost, Nand(n, old(files), f, lost))
      ensures lost != 0 ==>
                && WholePiece(offset + nDone, |buffer| - nDone) && lost == (offset + nDone) / n + 1
                    && offset <= old(files[f].size)
                && IsDirty(old(slots), f, lost) && View(n, old(files), old(slots), f, lost)
                    != Nand(n, old(files), f, lost)
      ensures offset % n == 0 && offset <= old(files[f].size) && !inbandTags && nDone + n <= |buffer| ==>
                var c := (offset + nDone) / n + 1;
                lost != 0 <==> IsDirty(old(slots), f, c) && View(n, old(files), old(slots), f, c) != Nand(n, old(files), f, c)
      ensures WholePiece(offset, |buffer|) && offset <= old(files[f].size) && old(asked) in refusals ==> nDone == 0
      ensures offset % n + |buffer| < n && nCaches > 0 && offset <= old(files[f].size) && 0 < nDone == |buffer| && !writeThrough ==>
                IsDirty(slots, f, offset / n + 1)
                    && Nand(n, files, f, offset / n + 1) == Nand(n, old(files), f, offset / n + 1)
    {
      hide CacheOk, DirtyOk, PastEndZero, Pow2, Contents, FlatWrite, SameViews, ZeroFrom, OthersSame, Patched, LostOk,
          View, Nand, IsDirty, WholePiece, AsWritten;
      ghost var fs, sl := files, slots;
      SizedZero(n, files, slots, f);
      HandleHole(f, offset);
      ghost var fs1, sl1 := files, slots;
      ghost var z := Max(files[f].size, offset + |buffer|);
      SizedZero(n, files, slots, f);
      ZeroFromMore(n, files, slots, f, files[f].size, z);
      ghost var back;
      nDone, lost, back := DoWriteDataToFile(f, offset, buffer, writeThrough, z);
      PatchedOthers(n, fs, sl, fs1, sl1, files, slots, f, offset, buffer[..nDone], lost, back);
      LostPlace(n, offset, |buffer|, nDone, lost, back, files[f].size, z);
      if lost == 0 {
        NothingBack(n, fs, sl, files, slots, f, offset, buffer[..nDone], back);
        PatchedIsFlat(n, fs, sl, files, slots, f, offset, buffer[..nDone]);
        AllWritten(n, Contents(n, files, slots, f), Nand(n, fs, f, 0));
      } else {
        if offset > fs[f].size {
          LostInHole(n, fs, sl, fs1, sl1, f, lost, back, fs[f].size);
        }
        LostWhole(offset + nDone, |buffer| - nDone);
        LostIsFlat(n, fs, sl, files, slots, f, offset, buffer[..nDone], lost, back);
        if back == View(n, fs, sl, f, lost) {
          AllWritten(n, Contents(n, files, slots, f), Nand(n, fs, f, 0));
          lost := 0;
        }
      }
      assert nDone == |buffer| ==> buffer[..nDone] == buffer;
    }

    /** In a hole there is nothing to lose. */
    static lemma LostInHole(n: nat, fs: Files, sl: seq<Slot>, fs1: Files, sl1: seq<Slot>, f: nat, lost: nat,
            back: seq<Byte>, z: int)
      requires CacheOk(n, fs, sl) && CacheOk(n, fs1, sl1) && ZeroFrom(n, fs, sl, f, z) && ZeroFrom(n, fs1, sl1, f, z)
      requires back == Nand(n, fs1, f, lost) && Base(n, lost) >= z
      ensures back == View(n, fs, sl, f, lost)
    {
      hide View, Nand;
      ZeroView(n, fs, sl, f, lost, z);
      ViewSize(n, fs, sl, f, lost);
      NandBack(n, fs1, sl1, f, lost, z, z);
      var v := View(n, fs, sl, f, lost);
      forall k | 0 <= k < n
        ensures back[k] == v[k]
      {
      }
    }

    lemma LostWhole(pos: nat, nLeft: nat)
      requires n > 0 && pos % n == 0 && nLeft >= n && !inbandTags
      ensures WholePiece(pos, nLeft)
    {
    }

    static lemma NothingBack(n: nat, fs: Files, sl: seq<Slot>, fs': Files, sl': seq<Slot>, f: nat, offset: nat,
            d: seq<Byte>, back: seq<Byte>)
      requires Patched(n, fs, sl, fs', sl', f, offset, d, 0, back)
      ensures Patched(n, fs, sl, fs', sl', f, offset, d, 0, [])
    {
      hide View, Patch;
      forall g: nat, c: nat
        ensures View(n, fs', sl', g, c) == Wanted(n, fs, sl, f, offset, d, 0, [], g, c)
      {
        assert View(n, fs', sl', g, c) == Wanted(n, fs, sl, f, offset, d, 0, back, g, c);
      }
    }

    /** Drop what the cache holds of f; none of it is dirty. */
    method InvalidateWholeChunkCache(f: nat)
      requires Inv(None) && f in files && DirtyOf(slots, f) == {}
      modifies `slots
      ensures Inv(None) && Kept(n, files, old(slots), files, slots)
      ensures forall i | 0 <= i < |slots| :: slots[i].obj != Some(f)
    {
      hide CacheOk, DirtyOk, PastEndZero, Kept, Pow2;
      KeptSame(n, files, slots);
      var i := 0;
      while i < |slots|
        invariant 0 <= i <= |slots| && Inv(None) && Kept(n, files, old(slots), files, slots) && DirtyOf(slots, f) == {}
        invariant forall j | 0 <= j < i :: slots[j].obj != Some(f)
      {
        if slots[i].obj == Some(f) {
          assert i !in DirtyOf(slots, f);
          ghost var sl := slots;
          FreeClean(n, files, slots, i);
          slots := slots[i := Free(slots[i])];
          SameFilesSame(files);
          KeptKept(n, files, old(slots), files, sl, files, slots);
          DirtyFewer(files, sl, files, slots, None);
          PastEndKept(n, files, sl, files, slots, None);
          assert DirtyOf(slots, f) <= DirtyOf(sl, f);
        }
        i := i + 1;
      }
    }

    /** Set the size of f: the flat array is cut, or padded with zeros. */
    method ResizeFile(f: nat, newSize: nat)
      requires Inv(None) && f in files
      modifies `files, `slots, `srLastUse, `asked
      ensures Inv(None) && n > 0 && f in files && OthersSame(n, old(files), old(slots), files, slots, f)
      ensures Contents(n, files, slots, f) == FlatResize(Contents(n, old(files), old(slots), f), newSize)
    {
      hide CacheOk, DirtyOk, PastEndZero, Kept, Pow2, Contents, FlatResize, SameViews, ZeroFrom, OthersSame, View,
          ViewsCut, DirtyOf;
      ghost var fs, sl := files, slots;
      FlushFilesChunkCache(f, None);
      KeptSeen(n, fs, sl, files, slots, f);
      ghost var fs1, sl1 := files, slots;
      InvalidateWholeChunkCache(f);
      KeptKept(n, fs, sl, fs1, sl1, files, slots);
      KeptSeen(n, fs, sl, files, slots, f);
      SeenOthers(n, fs, sl, files, slots, f);
      fs1, sl1 := files, slots;
      SizedZero(n, files, slots, f);
      if newSize == files[f].size {
        ResizedAlready(Contents(n, files, slots, f));
        return;
      }
      if newSize > files[f].size {
        GrowFile(f, newSize);
      } else {
        ResizeDown(f, newSize);
        CutIsFlat(n, fs1, sl1, files, slots, f);
        CutOthers(n, fs1, sl1, files, slots, f, newSize);
      }
      OthersTwice(n, fs, sl, fs1, sl1, files, slots, f);
      if files[f].linked {
        ghost var fs2, sl2 := files, slots;
        UpdateObjectHeader(f);
        SeenOthers(n, fs2, sl2, files, slots, f);
        OthersTwice(n, fs, sl, fs2, sl2, files, slots, f);
      }
    }

    method GrowFile(f: nat, newSize: nat)
      requires Inv(None) && f in files && newSize > files[f].size
      modifies `files, `slots, `srLastUse, `asked
      ensures Inv(None) && n > 0 && f in files && OthersSame(n, old(files), old(slots), files, slots, f)
      ensures Contents(n, files, slots, f) == FlatResize(Contents(n, old(files), old(slots), f), newSize)
    {
      hide CacheOk, DirtyOk, PastEndZero, Pow2, Contents, FlatResize, SameViews, ZeroFrom, OthersSame, View, DirtyOf;
      ghost var fs, sl := files, slots;
      SizedZero(n, files, slots, f);
      HandleHole(f, newSize);
      ghost var fs1, sl1 := files, slots;
      ZeroFromMore(n, fs1, sl1, f, fs[f].size, newSize);
      DirtyMark(fs1, sl1, f);
      MetaViews(n, fs1, sl1, f, fs1[f].(size := newSize));
      MetaDone(n, fs1, sl1, f, fs1[f].(size := newSize), None);
      files := files[f := files[f].(size := newSize)];
      MetaSeen(n, fs, sl, fs1, sl1, files);
      SeenOthers(n, fs, sl, files, slots, f);
      GrownIsFlat(n, fs, sl, files, slots, f);
    }

    static lemma MetaSeen(n: nat, fs: Files, sl: seq<Slot>, fs1: Files, sl1: seq<Slot>, fs2: Files)
      requires SameViews(n, fs, sl, fs1, sl1) && forall g: nat, c: nat ::
          View(n, fs2, sl1, g, c) == View(n, fs1, sl1, g, c)
      ensures SameViews(n, fs, sl, fs2, sl1)
    {
      hide View;
    }

    static lemma ResizedAlready(s: seq<Byte>)
      ensures FlatResize(s, |s|) == s
    {
    }

    static lemma CutOthers(n: nat, fs: Files, sl: seq<Slot>, fs': Files, sl': seq<Slot>, f: nat, z: int)
      requires n > 0 && ViewsCut(n, fs, sl, fs', sl', f, z) && f in fs'
          && Resized(fs, fs', f, fs'[f].size, fs'[f].dirty)
      ensures OthersSame(n, fs, sl, fs', sl', f)
    {
      hide View, Contents, Trunc;
      forall g: nat, c: nat | g != f
        ensures View(n, fs', sl', g, c) == View(n, fs, sl, g, c)
      {
        assert View(n, fs', sl', g, c) == Cut(n, View(n, fs, sl, g, c), f, z, g, c);
      }
      OthersSeen(n, fs, sl, fs', sl', f);
    }

    static lemma OthersTwice(n: nat, fs: Files, sl: seq<Slot>, fs1: Files, sl1: seq<Slot>, fs2: Files, sl2: seq<Slot>,
            f: nat)
      requires n > 0 && OthersSame(n, fs, sl, fs1, sl1, f) && OthersSame(n, fs1, sl1, fs2, sl2, f)
      ensures OthersSame(n, fs, sl, fs2, sl2, f)
    {
      hide Contents;
    }

    /** Write out what the cache holds of f, and its header unless only the data matter. Afterwards NAND
        alone has the whole file. */
    method FlushFile(f: nat, dataSync: bool)
      requires Inv(None) && f in files
      modifies `files, `slots, `srLastUse
      ensures Inv(None) && n > 0 && f in files && OthersSame(n, old(files), old(slots), files, slots, f)
      ensures Contents(n, files, slots, f) == Contents(n, old(files), old(slots), f)
      ensures forall c: nat :: View(n, files, slots, f, c) == Nand(n, files, f, c)
      ensures !dataSync ==> !files[f].dirty
    {
      hide CacheOk, DirtyOk, PastEndZero, Kept, Pow2, Contents, SameViews, ZeroFrom, OthersSame, View, DirtyOf, Nand;
      ghost var fs, sl := files, slots;
      NothingSeen(n, fs, sl, f);
      DirtyMark(fs, sl, f);
      if files[f].dirty {
        FlushFilesChunkCache(f, None);
        KeptSeen(n, fs, sl, files, slots, f);
        if !dataSync {
          ghost var fs1 := files;
          UpdateObjectHeader(f);
          SeenTwice(n, fs, sl, fs1, slots, files, slots);
        }
      }
      AllClean(n, files, slots, f);
      SeenOthers(n, fs, sl, files, slots, f);
    }

    static lemma AllClean(n: nat, fs: Files, sl: seq<Slot>, f: nat)
      requires CacheOk(n, fs, sl) && DirtyOf(sl, f) == {}
      ensures forall c: nat :: View(n, fs, sl, f, c) == Nand(n, fs, f, c)
    {
      hide View, Nand;
      forall c: nat
        ensures View(n, fs, sl, f, c) == Nand(n, fs, f, c)
      {
        var i := Find(sl, f, c);
        assert i >= 0 ==> i !in DirtyOf(sl, f);
        CleanView(n, fs, sl, f, c);
      }
    }

    /** A new, empty file. */
    method CreateFile(f: nat)
      requires Inv(None) && f !in files
      modifies `files
      ensures Inv(None) && n > 0 && files == old(files)[f := File(0, map[], false, true)]
          && Contents(n, files, slots, f) == []
      ensures forall g | g in old(files) ::
          g in files && Contents(n, files, slots, g) == Contents(n, old(files), slots, g)
    {
      hide Contents;
      ghost var fs := files;
      files := files[f := File(0, map[], false, true)];
      NewFile(n, fs, files, slots, f);
      forall g | g in fs
        ensures Contents(n, files, slots, g) == Contents(n, fs, slots, g)
      {
        SameContents(n, fs, slots, files, slots, g);
      }
    }

    static lemma NewFile(n: nat, fs: Files, fs': Files, sl: seq<Slot>, f: nat)
      requires f !in fs && fs' == fs[f := File(0, map[], false, true)]
      requires CacheOk(n, fs, sl) && DirtyOk(fs, sl, None) && PastEndZero(n, fs, sl, None)
      ensures CacheOk(n, fs', sl) && DirtyOk(fs', sl, None) && PastEndZero(n, fs', sl, None)
      ensures forall g: nat, c: nat :: View(n, fs', sl, g, c) == View(n, fs, sl, g, c)
    {
      assert forall g: nat, c: nat :: Nand(n, fs', g, c) == Nand(n, fs, g, c);
      hide Nand, ZeroTail, View;
      assert forall j | 0 <= j < |sl| :: SlotOk(n, fs, sl[j]);
      forall g | g in fs
        ensures ZeroFrom(n, fs', sl, g, fs[g].size)
      {
        NewZero(n, fs, fs', sl, g, fs[g].size);
      }
      forall c: nat
        ensures ZeroTail(n, c, Nand(n, fs', f, c), 0)
      {
        EmptyZero(n, fs, f, c);
      }
      NewViews(n, fs, fs', sl);
    }

    static lemma NewViews(n: nat, fs: Files, fs': Files, sl: seq<Slot>)
      requires forall g: nat, c: nat :: Nand(n, fs', g, c) == Nand(n, fs, g, c)
      ensures forall g: nat, c: nat :: View(n, fs', sl, g, c) == View(n, fs, sl, g, c)
    {
      hide Nand;
    }

    static lemma NewZero(n: nat, fs: Files, fs': Files, sl: seq<Slot>, g: nat, z: int)
      requires ZeroFrom(n, fs, sl, g, z) && forall c: nat :: Nand(n, fs', g, c) == Nand(n, fs, g, c)
      ensures ZeroFrom(n, fs', sl, g, z)
    {
      hide Nand, ZeroTail;
      forall c: nat
        ensures ZeroTail(n, c, Nand(n, fs', g, c), z)
      {
        assert ZeroTail(n, c, Nand(n, fs, g, c), z);
      }
    }

    static lemma EmptyZero(n: nat, fs: Files, f: nat, c: nat)
      requires f !in fs
      ensures ZeroTail(n, c, Nand(n, fs, f, c), 0)
    {
    }
  }

  /** The exception happens. A byte is written, which stays in the cache; then there is no more room, and a
      write of the whole chunk fails. The byte is gone. */
  method FailedWriteLosesData() returns (s: Store, first: nat, second: nat, after: seq<Byte>)
    ensures first == 1 && second == 0 && after == [0]
  {
    hide CacheOk, DirtyOk, PastEndZero, ZeroFrom, View, IsDirty, Contents;
    s := new Store(2, 1, false, iset{});
    s.CreateFile(256);
    ghost var l1, l2;
    first, l1 := s.WriteDataToFile(256, 0, [7], false);
    HasByte(2, s.files, s.slots, 256, 7);
    s.refusals := iset{s.asked};
    assert s.WholePiece(0, 2);
    second, l2 := s.WriteDataToFile(256, 0, [9, 9], false);
    after := s.ReadDataFromFile(256, 0, 1);
  }

  lemma HasByte(n: nat, fs: Files, sl: seq<Slot>, f: nat, b: Byte)
    requires n > 0 && f in fs && Contents(n, fs, sl, f) == [b] && CacheOk(n, fs, sl)
    ensures |View(n, fs, sl, f, 1)| == n && View(n, fs, sl, f, 1)[0] == b
  {
    ViewSize(n, fs, sl, f, 1);
    assert Contents(n, fs, sl, f)[0] == b;
  }
}
