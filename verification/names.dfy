/** Names: what the mount-time scan makes of the headers in the log, and the renaming of one
    object over another, which a crash can only find not yet done or done. */
module Names {
  import opened Records
  import opened Scan
  import opened Replay

  /** What RAM knows of an object that stands in a directory. */
  datatype Named = Named(kind: Kind, parent: nat, name: string, size: nat)

  function Dirs(objs: map<nat, Named>): set<nat> {
    {ROOT, LOSTNFOUND} + set g | g in objs && objs[g].kind == DirKind
  }

  // ----- the log -----

  /** Only the root has headers among the special directories. */
  predicate RecordFits(r: Record) {
    && (r.Data? ==> r.obj > DELETED)
    && (r.Header? ==> r.obj > DELETED || (r.obj == ROOT && r.kind == DirKind && r.shadows == 0))
  }

  predicate Shadows(r: Record, g: nat) {
    r.Header? && r.shadows == g
  }

  predicate IsDataOf(r: Record, g: nat) {
    r.Data? && r.obj == g
  }

  /** After its newest header, the log has neither data of g nor a mark that shadows it. */
  ghost predicate Undisturbed(log: seq<Entry>, g: nat) {
    forall i | LastHeader(log, g) < i < |log| :: !IsDataOf(log[i].rec, g) && !Shadows(log[i].rec, g)
  }

  ghost predicate Unshadowed(log: seq<Entry>, g: nat) {
    forall i | LastHeader(log, g) < i < |log| :: !Shadows(log[i].rec, g)
  }

  ghost predicate Stands(log: seq<Entry>, g: nat, o: Named) {
    var h := LastHeader(log, g);
    && h >= 0 && log[h].rec.kind == o.kind && log[h].rec.parent == o.parent && log[h].rec.name == o.name
    && Unshadowed(log, g) && (o.kind == DirKind ==> Undisturbed(log, g))
  }

  /** Object p has lost its name to object heir, whose newest header says so; p's own deletion is not
      yet in the log. */
  ghost predicate ShadowedBy(log: seq<Entry>, p: nat, heir: nat) {
    var j := LastHeader(log, heir);
    && j >= 0 && Shadows(log[j].rec, p) && heir != p && Unshadowed(log, heir)
    && forall i | j < i < |log| :: log[i].rec.obj != p
  }

  predicate GoneAt(log: seq<Entry>, g: nat) {
    var h := LastHeader(log, g);
    h >= 0 ==> Gone(log[h].rec)
  }

  /** An operation may be between its two headers: object heir has taken the place of target, whose
      deletion is still to be recorded. */
  datatype Phase = Settled | Replacing(target: nat, heir: nat)

  /** The log records the objects of RAM. */
  ghost predicate LogOk(log: seq<Entry>, objs: map<nat, Named>, w: Phase) {
    && (forall i | 0 <= i < |log| :: RecordFits(log[i].rec))
    && (forall g | g in objs :: Stands(log, g, objs[g]) && g > DELETED && objs[g].parent in Dirs(objs))
    && (forall g: nat | g > DELETED && g !in objs && !(w.Replacing? && g == w.target) :: GoneAt(log, g))
    && (w.Replacing? ==> Pending(log, objs, w.target, w.heir))
  }

  ghost predicate Pending(log: seq<Entry>, objs: map<nat, Named>, p: nat, heir: nat) {
    && p > DELETED && p !in objs && heir in objs && ShadowedBy(log, p, heir) && OnlyMarkedBy(log, p, heir)
    && (LastHeader(log, p) >= 0 ==> log[LastHeader(log, p)].rec.parent in Dirs(objs))
  }

  /** No other object has ever taken the name of p. */
  ghost predicate OnlyMarkedBy(log: seq<Entry>, p: nat, heir: nat) {
    forall i | LastHeader(log, p) < i < |log| && Shadows(log[i].rec, p) :: log[i].rec.obj == heir
  }

  // ----- the scan -----

  predicate Valid(t: Table, g: nat) {
    g in t && t[g].valid
  }

  /** Directory d is known as one, or will be when its newest header is reached. */
  ghost predicate LiveDir(t: Table, log: seq<Entry>, d: nat) {
    && (d in t ==> t[d].kind == DirKind)
    && ((d in t && (d <= DELETED || t[d].valid))
        || (LastHeader(log, d) >= 0 && log[LastHeader(log, d)].rec.kind == DirKind && Undisturbed(log, d)))
  }

  /** The next header of an object not yet known lies in one of the directories. */
  ghost predicate ParentKnown(t: Table, log: seq<Entry>, live: set<nat>, g: nat) {
    !Valid(t, g) && LastHeader(log, g) >= 0 ==> log[LastHeader(log, g)].rec.parent in live
  }

  ghost predicate Ready(t: Table, log: seq<Entry>, live: set<nat>) {
    && (forall i | 0 <= i < |log| :: RecordFits(log[i].rec))
    && (forall d | d in live :: LiveDir(t, log, d))
    && (forall g: nat | g > DELETED :: ParentKnown(t, log, live, g))
    && {ROOT, LOSTNFOUND, UNLINKED, DELETED} <= live && {ROOT, LOSTNFOUND, UNLINKED, DELETED} <= t.Keys
  }

  lemma StepLiveDir(n: nat, t: Table, log: seq<Entry>, d: nat)
    requires log != [] && RecordFits(log[|log| - 1].rec) && LiveDir(t, log, d)
    requires {ROOT, LOSTNFOUND, UNLINKED, DELETED} <= t.Keys
    ensures LiveDir(ScanStep(n, t, log[|log| - 1]), log[..|log| - 1], d)
  {
    var k := |log| - 1;
    var e := log[k];
    if !(d in t && (d <= DELETED || t[d].valid)) && !IsHeader(e.rec, d) {
      assert !IsDataOf(e.rec, d) && !Shadows(e.rec, d);
      assert LastHeader(log, d) == LastHeader(log[..k], d);
    }
  }

  lemma StepParentKnown(n: nat, t: Table, log: seq<Entry>, live: set<nat>, g: nat)
    requires log != [] && ParentKnown(t, log, live, g) && g > DELETED
    ensures ParentKnown(ScanStep(n, t, log[|log| - 1]), log[..|log| - 1], live, g)
  {
  }

  lemma StepReady(n: nat, t: Table, log: seq<Entry>, live: set<nat>)
    requires log != [] && Ready(t, log, live)
    ensures Ready(ScanStep(n, t, log[|log| - 1]), log[..|log| - 1], live)
  {
    hide LiveDir, ParentKnown;
    var k := |log| - 1;
    var t' := ScanStep(n, t, log[k]);
    forall d | d in live
      ensures LiveDir(t', log[..k], d)
    {
      StepLiveDir(n, t, log, d);
    }
    forall g: nat | g > DELETED
      ensures ParentKnown(t', log[..k], live, g)
    {
      StepParentKnown(n, t, log, live, g);
    }
  }

  predicate SameName(a: ScanObj, b: ScanObj) {
    a.valid == b.valid && a.kind == b.kind && a.parent == b.parent && a.name == b.name && a.hdr == b.hdr
  }

  predicate NameIs(o: ScanObj, r: Record)
    requires r.Header?
  {
    o.valid && o.hdr.Some? && o.kind == r.kind && o.parent == r.parent && o.name == r.name
  }

  lemma KnownStays(n: nat, t: Table, e: Entry, g: nat)
    requires Valid(t, g) && g > DELETED
    ensures var t' := ScanStep(n, t, e); Valid(t', g) && SameName(t'[g], t[g])
  {
  }

  lemma HeaderNames(n: nat, t: Table, e: Entry, g: nat)
    requires !Valid(t, g) && g > DELETED && IsHeader(e.rec, g)
        && (e.rec.parent in t ==> t[e.rec.parent].kind == DirKind)
    requires e.rec.parent == g ==> e.rec.kind == DirKind
    requires e.rec.parent in t || e.rec.parent == g || e.rec.shadows != e.rec.parent
    ensures var t' := ScanStep(n, t, e); g in t' && NameIs(t'[g], e.rec)
  {
  }

  lemma OtherLeaves(n: nat, t: Table, e: Entry, g: nat)
    requires !Valid(t, g) && g > DELETED && !IsHeader(e.rec, g) && !Shadows(e.rec, g) && (g in t ==> t[g].hdr == None)
    ensures var t' := ScanStep(n, t, e); !Valid(t', g) && (g in t' ==> t'[g].hdr == None)
  {
  }

  /** One step of the scan, for the name of g. */
  lemma NameStep(n: nat, t: Table, log: seq<Entry>, live: set<nat>, g: nat)
    requires log != [] && Ready(t, log, live) && g > DELETED
    ensures var e := log[|log| - 1];
            var t' := ScanStep(n, t, e);
            && (Valid(t, g) ==> Valid(t', g) && SameName(t'[g], t[g]))
            && (!Valid(t, g) && IsHeader(e.rec, g) ==> g in t' && NameIs(t'[g], e.rec))
            && (!Valid(t, g) && !IsHeader(e.rec, g) && !Shadows(e.rec, g) && (g in t ==> t[g].hdr == None) ==>
                !Valid(t', g) && (g in t' ==> t'[g].hdr == None))
  {
    hide ScanStep;
    var e := log[|log| - 1];
    if Valid(t, g) {
      KnownStays(n, t, e, g);
    } else if IsHeader(e.rec, g) {
      assert LastHeader(log, g) == |log| - 1 && ParentKnown(t, log, live, g);
      assert LiveDir(t, log, e.rec.parent);
      assert e.rec.parent in t || e.rec.parent == g || !Shadows(e.rec, e.rec.parent);
      HeaderNames(n, t, e, g);
    } else if !Shadows(e.rec, g) && (g in t ==> t[g].hdr == None) {
      OtherLeaves(n, t, e, g);
    }
  }

  /** The name an object ends with is that of its newest header. */
  lemma {:induction false} NameScan(n: nat, t: Table, log: seq<Entry>, live: set<nat>, g: nat)
    requires Ready(t, log, live) && g > DELETED && (g in t && !t[g].valid ==> t[g].hdr == None)
    ensures var t' := ScanFrom(n, log, t);
            && (Valid(t, g) ==> Valid(t', g) && SameName(t'[g], t[g]))
            && (!Valid(t, g) && Unshadowed(log, g) && LastHeader(log, g) >= 0 ==>
                g in t' && NameIs(t'[g], log[LastHeader(log, g)].rec))
    decreases |log|
  {
    hide Ready, ScanStep;
    if log != [] {
      var k := |log| - 1;
      NameStep(n, t, log, live, g);
      StepReady(n, t, log, live);
      if Valid(t, g) || IsHeader(log[k].rec, g) || !Shadows(log[k].rec, g) {
        NameScan(n, ScanStep(n, t, log[k]), log[..k], live, g);
      }
    }
  }

  /** Whether shadowed or not: if an object ends with a header, it is its newest one. */
  lemma {:induction false} NoOtherName(n: nat, t: Table, log: seq<Entry>, live: set<nat>, g: nat)
    requires Ready(t, log, live) && g > DELETED && (g in t ==> t[g].hdr == None)
    ensures var t' := ScanFrom(n, log, t);
            g in t' && t'[g].hdr.Some? ==> LastHeader(log, g) >= 0 && NameIs(t'[g], log[LastHeader(log, g)].rec)
    decreases |log|
  {
    hide Ready, ScanStep;
    if Valid(t, g) {
      NameScan(n, t, log, live, g);
    } else if log != [] {
      var k := |log| - 1;
      var t1 := ScanStep(n, t, log[k]);
      NameStep(n, t, log, live, g);
      StepReady(n, t, log, live);
      if IsHeader(log[k].rec, g) {
        NameScan(n, t1, log[..k], live, g);
      } else {
        NoHeaderYet(n, t, log[k], g);
        NoOtherName(n, t1, log[..k], live, g);
      }
    }
  }

  lemma NoHeaderYet(n: nat, t: Table, e: Entry, g: nat)
    requires g > DELETED && !IsHeader(e.rec, g) && (g in t ==> t[g].hdr == None)
    ensures var t' := ScanStep(n, t, e); g in t' ==> t'[g].hdr == None
  {
  }

  /** One step before the shadowing header is reached leaves p unknown, unless it is shadowed already. */
  lemma ShadowStep(n: nat, t: Table, log: seq<Entry>, live: set<nat>, p: nat, heir: nat)
    requires log != [] && Ready(t, log, live) && p !in t && p > DELETED && p !in live && ShadowedBy(log, p, heir)
    ensures var e := log[|log| - 1];
            var t' := ScanStep(n, t, e);
            if IsHeader(e.rec, heir) && !Valid(t, heir)
                then Valid(t', p) && t'[p].hdr == None && t'[p].parent == UNLINKED
            else (p !in t' || (Valid(t', p) && t'[p].hdr == None && t'[p].parent == UNLINKED))
                 && (!Valid(t, heir) ==> !Valid(t', heir))
  {
    var e, j := log[|log| - 1], LastHeader(log, heir);
    assert IsHeader(e.rec, e.rec.obj) ==> LastHeader(log, e.rec.obj) == |log| - 1;
    assert e.rec.obj > DELETED ==> ParentKnown(t, log, live, e.rec.obj);
    assert j < |log| - 1 ==> e.rec.obj != p && !IsHeader(e.rec, heir) && !Shadows(e.rec, heir);
  }

  lemma {:induction false} ShadowScan(n: nat, t: Table, log: seq<Entry>, live: set<nat>, p: nat, heir: nat)
    requires Ready(t, log, live) && p !in t && p > DELETED && p !in live && ShadowedBy(log, p, heir)
    requires !Valid(t, heir)
    ensures var t' := ScanFrom(n, log, t); Valid(t', p) && t'[p].parent == UNLINKED
    decreases |log|
  {
    hide Ready, ScanStep;
    var k := |log| - 1;
    ShadowStep(n, t, log, live, p, heir);
    StepReady(n, t, log, live);
    var t1 := ScanStep(n, t, log[k]);
    if p in t1 {
      NameScan(n, t1, log[..k], live, p);
    } else {
      assert LastHeader(log[..k], heir) == LastHeader(log, heir);
      ShadowScan(n, t1, log[..k], live, p, heir);
    }
  }

  /** Scanning the log shows exactly these objects, each under its name; whatever else there is
      lies under unlinked or deleted, and is stripped, or was never more than mentioned. */
  ghost predicate Shows(n: nat, log: seq<Entry>, objs: map<nat, Named>) {
    forall g: nat | g > DELETED :: Shown(ScanLog(n, log), objs, g)
  }

  predicate Shown(t: Table, objs: map<nat, Named>, g: nat) {
    if g in objs then g in t && t[g].hdr.Some? && t[g].kind == objs[g].kind && t[g].parent == objs[g].parent
        && t[g].name == objs[g].name
    else g in t && t[g].hdr.Some? ==> t[g].parent == UNLINKED || t[g].parent == DELETED
  }

  lemma LiveAtFirst(log: seq<Entry>, objs: map<nat, Named>, w: Phase, d: nat)
    requires LogOk(log, objs, w) && d in Dirs(objs) + {UNLINKED, DELETED}
    ensures LiveDir(InitialTable(), log, d)
  {
    hide Undisturbed, Unshadowed, ShadowedBy, GoneAt, RecordFits, LastHeader;
    assert d in objs ==> Stands(log, d, objs[d]);
  }

  lemma ParentAtFirst(log: seq<Entry>, objs: map<nat, Named>, w: Phase, g: nat)
    requires LogOk(log, objs, w) && g > DELETED
    ensures ParentKnown(InitialTable(), log, Dirs(objs) + {UNLINKED, DELETED}, g)
  {
    hide Undisturbed, Unshadowed, ShadowedBy, RecordFits, LastHeader;
    if g in objs {
      assert Stands(log, g, objs[g]);
    } else if !(w.Replacing? && g == w.target) {
      assert GoneAt(log, g);
    }
  }

  lemma ReadyAtFirst(log: seq<Entry>, objs: map<nat, Named>, w: Phase)
    requires LogOk(log, objs, w)
    ensures Ready(InitialTable(), log, Dirs(objs) + {UNLINKED, DELETED})
  {
    hide Stands, GoneAt, Pending, LiveDir, ParentKnown, RecordFits;
    var live := Dirs(objs) + {UNLINKED, DELETED};
    forall d | d in live
      ensures LiveDir(InitialTable(), log, d)
    {
      LiveAtFirst(log, objs, w, d);
    }
    forall g: nat | g > DELETED
      ensures ParentKnown(InitialTable(), log, live, g)
    {
      ParentAtFirst(log, objs, w, g);
    }
  }

  /** A log that is as it should be shows the objects of RAM. */
  lemma LogShows(n: nat, log: seq<Entry>, objs: map<nat, Named>, w: Phase)
    requires LogOk(log, objs, w)
    ensures Shows(n, log, objs)
  {
    hide Ready, InitialTable, Unshadowed, Undisturbed, ShadowedBy, LastHeader, RecordFits;
    var t := InitialTable();
    var live := Dirs(objs) + {UNLINKED, DELETED};
    ReadyAtFirst(log, objs, w);
    SpecialsOnly();
    forall g: nat | g > DELETED
      ensures Shown(ScanLog(n, log), objs, g)
    {
      if g in objs {
        assert Stands(log, g, objs[g]);
        NameScan(n, t, log, live, g);
      } else if w.Replacing? && g == w.target {
        ShadowScan(n, t, log, live, g, w.heir);
      } else {
        assert GoneAt(log, g);
        NoOtherName(n, t, log, live, g);
      }
    }
  }

  lemma SpecialsOnly()
    ensures forall g: nat | g > DELETED :: g !in InitialTable()
    ensures forall g: nat :: !Valid(InitialTable(), g)
  {
  }

  // ----- appending headers -----

  lemma AppendLast(log: seq<Entry>, e: Entry, g: nat)
    ensures LastHeader(log + [e], g) == if IsHeader(e.rec, g) then |log| else LastHeader(log, g)
  {
    assert (log + [e])[..|log|] == log;
  }

  lemma AppendUnshadowed(log: seq<Entry>, e: Entry, g: nat)
    ensures IsHeader(e.rec, g) ==> Unshadowed(log + [e], g) && Undisturbed(log + [e], g)
    ensures !Shadows(e.rec, g) && Unshadowed(log, g) ==> Unshadowed(log + [e], g)
    ensures !Shadows(e.rec, g) && !IsDataOf(e.rec, g) && Undisturbed(log, g) ==> Undisturbed(log + [e], g)
  {
    AppendLast(log, e, g);
    assert forall i | 0 <= i < |log| :: (log + [e])[i] == log[i];
  }

  lemma AppendStands(log: seq<Entry>, e: Entry, g: nat, o: Named)
    requires Stands(log, g, o) && e.rec.Header? && e.rec.obj != g && !Shadows(e.rec, g)
    ensures Stands(log + [e], g, o)
  {
    AppendLast(log, e, g);
    AppendUnshadowed(log, e, g);
  }

  lemma AppendNewStands(log: seq<Entry>, e: Entry, o: Named)
    requires e.rec.Header? && e.rec.kind == o.kind && e.rec.parent == o.parent && e.rec.name == o.name
    ensures Stands(log + [e], e.rec.obj, o)
  {
    AppendLast(log, e, e.rec.obj);
    AppendUnshadowed(log, e, e.rec.obj);
  }

  lemma AppendGone(log: seq<Entry>, e: Entry, g: nat)
    requires e.rec.Header?
    ensures e.rec.obj != g && GoneAt(log, g) ==> GoneAt(log + [e], g)
    ensures e.rec.obj == g && Gone(e.rec) ==> GoneAt(log + [e], g)
  {
    AppendLast(log, e, g);
  }

  lemma AppendPending(log: seq<Entry>, e: Entry, objs: map<nat, Named>, p: nat, heir: nat)
    requires Pending(log, objs, p, heir) && e.rec.Header? && e.rec.shadows == 0 && e.rec.obj != p && e.rec.obj != heir
        && heir > DELETED
    ensures Pending(log + [e], objs, p, heir)
  {
    AppendLast(log, e, heir);
    AppendLast(log, e, p);
    AppendUnshadowed(log, e, heir);
    assert forall i | 0 <= i < |log| :: (log + [e])[i] == log[i];
  }

  predicate NamesIt(r: Record, o: Named) {
    r.Header? && r.kind == o.kind && r.parent == o.parent && r.name == o.name
  }

  /** What a new header leaves in place for the objects it does not name. */
  lemma OthersStand(log: seq<Entry>, objs: map<nat, Named>, e: Entry, objs': map<nat, Named>)
    requires forall g | g in objs :: Stands(log, g, objs[g]) && g > DELETED
    requires e.rec.Header?
    requires forall g | g in objs' && g != e.rec.obj :: g in objs && objs'[g] == objs[g] && !Shadows(e.rec, g)
    requires e.rec.obj in objs' ==> NamesIt(e.rec, objs'[e.rec.obj])
    ensures forall g | g in objs' :: Stands(log + [e], g, objs'[g])
  {
    hide Stands, Shadows;
    forall g | g in objs'
      ensures Stands(log + [e], g, objs'[g])
    {
      if g == e.rec.obj {
        AppendNewStands(log, e, objs'[g]);
      } else {
        AppendStands(log, e, g, objs[g]);
      }
    }
  }

  predicate Target(w: Phase, g: nat) {
    w.Replacing? && g == w.target
  }

  lemma OthersGone(log: seq<Entry>, objs: map<nat, Named>, e: Entry, objs': map<nat, Named>, w: Phase, w': Phase)
    requires forall g: nat | g > DELETED && g !in objs && !(w.Replacing? && g == w.target) :: GoneAt(log, g)
    requires e.rec.Header?
    requires forall g: nat | g > DELETED && g !in objs' && !Target(w', g) :: if g == e.rec.obj then Gone(e.rec)
        else g !in objs && !Target(w, g)
    ensures forall g: nat | g > DELETED && g !in objs' && !(w'.Replacing? && g == w'.target) :: GoneAt(log + [e], g)
  {
    forall g: nat | g > DELETED && g !in objs' && !(w'.Replacing? && g == w'.target)
      ensures GoneAt(log + [e], g)
    {
      assert !Target(w', g);
      AppendGone(log, e, g);
    }
  }

  lemma AppendFits(log: seq<Entry>, e: Entry)
    requires RecordFits(e.rec) && forall i | 0 <= i < |log| :: RecordFits(log[i].rec)
    ensures forall i | 0 <= i < |log + [e]| :: RecordFits((log + [e])[i].rec)
  {
  }

  // ----- the headers that operations write -----

  /** Header r names an object, for the first time or again. */
  ghost predicate Gives(r: Record, objs: map<nat, Named>, objs': map<nat, Named>) {
    && r.Header? && r.shadows == 0 && r.obj > DELETED && r.obj in objs' && objs' == objs[r.obj := objs'[r.obj]]
    && NamesIt(r, objs'[r.obj]) && objs'[r.obj].parent in Dirs(objs')
    && (r.obj in objs && objs[r.obj].kind == DirKind ==> objs'[r.obj].kind == DirKind)
  }

  lemma HeaderKeeps(log: seq<Entry>, objs: map<nat, Named>, e: Entry, objs': map<nat, Named>)
    requires LogOk(log, objs, Settled) && Gives(e.rec, objs, objs')
    ensures LogOk(log + [e], objs', Settled)
  {
    hide Stands, GoneAt, RecordFits;
    assert Dirs(objs) <= Dirs(objs');
    Fits(e.rec);
    AppendFits(log, e);
    OthersStand(log, objs, e, objs');
    OthersGone(log, objs, e, objs', Settled, Settled);
  }

  lemma Fits(r: Record)
    requires r.Header? && (r.obj > DELETED || (r.obj == ROOT && r.kind == DirKind && r.shadows == 0))
    ensures RecordFits(r)
  {
  }

  /** Header r says again what is known already. */
  ghost predicate Repeats(r: Record, objs: map<nat, Named>) {
    && r.Header? && r.shadows == 0
    && if r.obj == ROOT then r.kind == DirKind
       else if r.obj in objs then NamesIt(r, objs[r.obj])
       else r.obj > DELETED && Gone(r)
  }

  lemma RepeatKeeps(log: seq<Entry>, objs: map<nat, Named>, e: Entry, w: Phase)
    requires LogOk(log, objs, w) && Repeats(e.rec, objs)
        && (w.Replacing? ==> e.rec.obj != w.target && e.rec.obj != w.heir)
    ensures LogOk(log + [e], objs, w)
  {
    hide Stands, GoneAt, RecordFits, Pending, Gone;
    RepeatFits(log, objs, e.rec, w);
    AppendFits(log, e);
    OthersStand(log, objs, e, objs);
    OthersGone(log, objs, e, objs, w, w);
    if w.Replacing? {
      PendingIds(log, objs, w.target, w.heir);
      AppendPending(log, e, objs, w.target, w.heir);
    }
  }

  lemma RepeatFits(log: seq<Entry>, objs: map<nat, Named>, r: Record, w: Phase)
    requires LogOk(log, objs, w) && Repeats(r, objs)
    ensures RecordFits(r) && forall g | g in objs && g != r.obj :: !Shadows(r, g)
  {
  }

  lemma PendingIds(log: seq<Entry>, objs: map<nat, Named>, p: nat, heir: nat)
    requires Pending(log, objs, p, heir)
    ensures heir in objs && p !in objs && p > DELETED
  {
  }

  /** Header r gives an object a new name and directory, which it takes over from another object. */
  ghost predicate TakesOver(r: Record, objs: map<nat, Named>, objs': map<nat, Named>) {
    && r.Header? && r.obj in objs && r.shadows in objs && r.shadows != r.obj
    && r.obj in objs' && objs' == (objs - {r.shadows})[r.obj := objs'[r.obj]]
    && NamesIt(r, objs'[r.obj]) && r.kind == objs[r.obj].kind
    && (forall g | g in objs && g != r.obj :: objs[g].parent != r.shadows)
    && r.parent in Dirs(objs) && r.parent != r.shadows
  }

  /** Step one of a rename over another object: the header that gives obj its new name shadows the
      target, and from here on a scan no longer shows the target. */
  lemma ShadowKeeps(log: seq<Entry>, objs: map<nat, Named>, e: Entry, objs': map<nat, Named>)
    requires LogOk(log, objs, Settled) && TakesOver(e.rec, objs, objs')
    ensures LogOk(log + [e], objs', Replacing(e.rec.shadows, e.rec.obj))
  {
    hide GoneAt, RecordFits, Stands, ShadowedBy, OnlyMarkedBy, Shadows, Dirs, LastHeader;
    var p: nat := e.rec.shadows;
    var w' := Replacing(p, e.rec.obj);
    StandsParent(log, p, objs[p]);
    FirstMark(log, e, p, objs[p]);
    MarksNow(e.rec);
    DirsLeft(objs, e.rec, objs');
    Fits(e.rec);
    AppendFits(log, e);
    OthersStand(log, objs, e, objs');
    OthersGone(log, objs, e, objs', Settled, w');
    PendingStarts(log, e);
    AppendLast(log, e, p);
  }

  lemma DirsLeft(objs: map<nat, Named>, r: Record, objs': map<nat, Named>)
    requires TakesOver(r, objs, objs')
    ensures forall g | g in Dirs(objs) && g != r.shadows :: g in Dirs(objs')
    ensures forall g | g in objs' :: objs'[g].parent in Dirs(objs) ==> objs'[g].parent in Dirs(objs')
  {
  }

  lemma FirstMark(log: seq<Entry>, e: Entry, p: nat, o: Named)
    requires Stands(log, p, o) && e.rec.Header? && e.rec.obj != p
    ensures OnlyMarkedBy(log + [e], p, e.rec.obj)
  {
    hide LastHeader;
    AppendLast(log, e, p);
    assert forall i | 0 <= i < |log| :: (log + [e])[i] == log[i];
  }

  lemma StandsParent(log: seq<Entry>, g: nat, o: Named)
    requires Stands(log, g, o)
    ensures LastHeader(log, g) >= 0 && log[LastHeader(log, g)].rec.parent == o.parent
  {
  }

  lemma MarksNow(r: Record)
    requires r.Header?
    ensures Shadows(r, r.shadows)
    ensures forall g | g != r.shadows :: !Shadows(r, g)
  {
  }

  lemma PendingStarts(log: seq<Entry>, e: Entry)
    requires e.rec.Header? && e.rec.shadows != e.rec.obj
    ensures ShadowedBy(log + [e], e.rec.shadows, e.rec.obj)
  {
    AppendLast(log, e, e.rec.obj);
    AppendUnshadowed(log, e, e.rec.obj);
  }

  /** Step two: the shadowed object's own deletion is recorded. */
  lemma BuryKeeps(log: seq<Entry>, objs: map<nat, Named>, e: Entry, p: nat, heir: nat)
    requires LogOk(log, objs, Replacing(p, heir)) && e.rec.Header? && e.rec.obj == p && Gone(e.rec)
        && e.rec.shadows == 0
    ensures LogOk(log + [e], objs, Settled)
  {
    hide GoneAt, RecordFits, Stands, Gone;
    Fits(e.rec);
    AppendFits(log, e);
    OthersStand(log, objs, e, objs);
    OthersGone(log, objs, e, objs, Replacing(p, heir), Settled);
  }

  /** An object is deleted outright. */
  lemma DeleteKeeps(log: seq<Entry>, objs: map<nat, Named>, e: Entry)
    requires LogOk(log, objs, Settled) && e.rec.Header? && e.rec.obj in objs && Gone(e.rec) && e.rec.shadows == 0
    requires forall g | g in objs && g != e.rec.obj :: objs[g].parent != e.rec.obj
    ensures LogOk(log + [e], objs - {e.rec.obj}, Settled)
  {
    hide GoneAt, RecordFits, Stands, Gone;
    var objs' := objs - {e.rec.obj};
    assert forall g | g in Dirs(objs) && g != e.rec.obj :: g in Dirs(objs');
    Fits(e.rec);
    AppendFits(log, e);
    OthersStand(log, objs, e, objs');
    OthersGone(log, objs, e, objs', Settled, Settled);
  }

  /** How the header r takes the objects that a scan shows from objs to objs'. */
  ghost predicate Writes(r: Record, objs: map<nat, Named>, w: Phase, objs': map<nat, Named>, w': Phase) {
    r.Header? &&
    (|| (w == w' && objs' == objs && Repeats(r, objs) && (w.Replacing? ==> r.obj != w.target && r.obj != w.heir))
     || (w == w' == Settled && Gives(r, objs, objs'))
     || (w == Settled && TakesOver(r, objs, objs') && w' == Replacing(r.shadows, r.obj))
     || (w.Replacing? && w' == Settled && objs' == objs && r.obj == w.target && Gone(r) && r.shadows == 0)
     || (w == w' == Settled && r.obj in objs && Gone(r) && r.shadows == 0 && objs' == objs - {r.obj}
         && forall g | g in objs && g != r.obj :: objs[g].parent != r.obj))
  }

  lemma WriteKeeps(log: seq<Entry>, e: Entry, objs: map<nat, Named>, w: Phase, objs': map<nat, Named>, w': Phase)
    requires LogOk(log, objs, w) && Writes(e.rec, objs, w, objs', w')
    ensures LogOk(log + [e], objs', w')
  {
    hide LogOk, Repeats, Gives, TakesOver, Gone;
    if w == w' && objs' == objs && Repeats(e.rec, objs)
        && (w.Replacing? ==> e.rec.obj != w.target && e.rec.obj != w.heir) {
      RepeatKeeps(log, objs, e, w);
    } else if w == w' == Settled && Gives(e.rec, objs, objs') {
      HeaderKeeps(log, objs, e, objs');
    } else if w == Settled && TakesOver(e.rec, objs, objs') && w' == Replacing(e.rec.shadows, e.rec.obj) {
      ShadowKeeps(log, objs, e, objs');
    } else if w.Replacing? {
      BuryKeeps(log, objs, e, w.target, w.heir);
    } else {
      DeleteKeeps(log, objs, e);
    }
  }

  /** Wherever it is written, r takes the log to one that records these objects. */
  ghost predicate Makes(log: seq<Entry>, r: Record, objs: map<nat, Named>, w: Phase) {
    forall e: Entry | e.rec == r :: LogOk(log + [e], objs, w)
  }

  // ----- what garbage collection does to the log -----

  /** Record k is the newest header of its object: its chunk is collected by writing the header again,
      with its marks cleared. */
  predicate NewestHeader(log: seq<Entry>, k: int)
    requires 0 <= k < |log|
  {
    log[k].rec.Header? && LastHeader(log, log[k].rec.obj) == k
  }

  lemma CopyRepeats(log: seq<Entry>, objs: map<nat, Named>, k: int, size: nat)
    requires LogOk(log, objs, Settled) && 0 <= k < |log| && NewestHeader(log, k)
    ensures Repeats(log[k].rec.(isShrink := false, shadows := 0, size := size), objs)
  {
    var g := log[k].rec.obj;
    assert RecordFits(log[k].rec);
    if g in objs {
      assert Stands(log, g, objs[g]);
    } else if g != ROOT {
      assert GoneAt(log, g);
    }
  }

  /** The log may take a data chunk of anything but a directory. */
  predicate OwnerIsFile(log: seq<Entry>, g: nat) {
    LastHeader(log, g) >= 0 && log[LastHeader(log, g)].rec.kind == FileKind
  }

  lemma DataKeeps(log: seq<Entry>, e: Entry, objs: map<nat, Named>)
    requires LogOk(log, objs, Settled) && e.rec.Data? && e.rec.obj > DELETED && OwnerIsFile(log, e.rec.obj)
    ensures LogOk(log + [e], objs, Settled)
  {
    AppendFits(log, e);
    forall g | g in objs
      ensures Stands(log + [e], g, objs[g])
    {
      assert Stands(log, g, objs[g]);
      AppendLast(log, e, g);
      AppendUnshadowed(log, e, g);
    }
    forall g: nat | g > DELETED && g !in objs
      ensures GoneAt(log + [e], g)
    {
      AppendLast(log, e, g);
    }
  }

  /** Records i up to j, the content of a block, can be erased: none of them is the newest header of an
      object that is not deleted; and a deletion goes only when what is left before it does not bring
      its object back, which is what keeping blocks with shrink headers is for. */
  predicate Disposable(log: seq<Entry>, i: nat, j: nat)
    requires i <= j <= |log|
  {
    forall k | i <= k < j && NewestHeader(log, k) :: Gone(log[k].rec) && GoneAt(log[..i], log[k].rec.obj)
  }

  /** Where the record now at k stood before records i up to j were erased. */
  function Was(i: nat, j: nat, k: nat): nat
    requires i <= j
  {
    if k < i then k else k + (j - i)
  }

  ghost predicate IsErased(log: seq<Entry>, cut: seq<Entry>, i: nat, j: nat) {
    i <= j <= |log| && |cut| == |log| - (j - i) && forall k: nat | k < |cut| :: cut[k] == log[Was(i, j, k)]
  }

  lemma ErasedIs(log: seq<Entry>, i: nat, j: nat)
    requires i <= j <= |log|
    ensures IsErased(log, log[..i] + log[j..], i, j)
  {
  }

  lemma ErasedLast(log: seq<Entry>, cut: seq<Entry>, i: nat, j: nat, g: nat)
    requires IsErased(log, cut, i, j) && !(i <= LastHeader(log, g) < j)
    ensures LastHeader(log, g) < 0 ==> LastHeader(cut, g) < 0
    ensures LastHeader(log, g) >= 0 ==> LastHeader(cut, g) >= 0 && LastHeader(log, g) == Was(i, j, LastHeader(cut, g))
  {
    hide LastHeader;
    var h, h' := LastHeader(log, g), LastHeader(cut, g);
    if h >= 0 {
      var k := if h < i then h else h - (j - i);
      assert cut[k] == log[h];
    }
    if h' >= 0 {
      assert IsHeader(log[Was(i, j, h')].rec, g);
    }
  }

  lemma ErasedUndisturbed(log: seq<Entry>, cut: seq<Entry>, i: nat, j: nat, g: nat)
    requires IsErased(log, cut, i, j) && 0 <= LastHeader(log, g) && !(i <= LastHeader(log, g) < j)
    ensures Unshadowed(log, g) ==> Unshadowed(cut, g)
    ensures Undisturbed(log, g) ==> Undisturbed(cut, g)
  {
    hide LastHeader, Shadows, IsDataOf;
    ErasedLast(log, cut, i, j, g);
    forall k | LastHeader(cut, g) < k < |cut|
      ensures LastHeader(log, g) < Was(i, j, k) < |log| && cut[k] == log[Was(i, j, k)]
    {
    }
  }

  lemma ErasedStands(log: seq<Entry>, cut: seq<Entry>, i: nat, j: nat, g: nat, o: Named)
    requires IsErased(log, cut, i, j) && Stands(log, g, o) && !(i <= LastHeader(log, g) < j)
    ensures Stands(cut, g, o)
  {
    hide LastHeader, Unshadowed, Undisturbed, IsErased, Was;
    ErasedLast(log, cut, i, j, g);
    ErasedUndisturbed(log, cut, i, j, g);
    ErasedSame(log, cut, i, j, LastHeader(cut, g));
  }

  lemma ErasedSame(log: seq<Entry>, cut: seq<Entry>, i: nat, j: nat, k: int)
    requires IsErased(log, cut, i, j) && 0 <= k < |cut|
    ensures 0 <= Was(i, j, k) < |log| && cut[k] == log[Was(i, j, k)]
  {
  }

  lemma ErasedShadowed(log: seq<Entry>, cut: seq<Entry>, i: nat, j: nat, p: nat, heir: nat)
    requires IsErased(log, cut, i, j) && ShadowedBy(log, p, heir) && !(i <= LastHeader(log, heir) < j)
    ensures ShadowedBy(cut, p, heir)
  {
    hide LastHeader, Unshadowed, Shadows;
    ErasedLast(log, cut, i, j, heir);
    ErasedUndisturbed(log, cut, i, j, heir);
    forall k | LastHeader(cut, heir) < k < |cut|
      ensures cut[k].rec.obj != p
    {
      assert LastHeader(log, heir) < Was(i, j, k);
    }
  }

  lemma ErasedMarks(log: seq<Entry>, cut: seq<Entry>, i: nat, j: nat, p: nat, heir: nat)
    requires IsErased(log, cut, i, j) && OnlyMarkedBy(log, p, heir) && !(i <= LastHeader(log, p) < j)
    ensures OnlyMarkedBy(cut, p, heir)
  {
    hide LastHeader, Shadows;
    ErasedLast(log, cut, i, j, p);
    forall k | LastHeader(cut, p) < k < |cut| && Shadows(cut[k].rec, p)
      ensures cut[k].rec.obj == heir
    {
      assert LastHeader(log, p) < Was(i, j, k) < |log| && cut[k] == log[Was(i, j, k)];
    }
  }

  lemma ErasedPending(log: seq<Entry>, cut: seq<Entry>, i: nat, j: nat, objs: map<nat, Named>, p: nat, heir: nat)
    requires IsErased(log, cut, i, j) && Pending(log, objs, p, heir) && !(i <= LastHeader(log, heir) < j)
        && !(i <= LastHeader(log, p) < j)
    ensures Pending(cut, objs, p, heir)
  {
    hide LastHeader, ShadowedBy, OnlyMarkedBy, IsErased, Was;
    ErasedLast(log, cut, i, j, p);
    ErasedMarks(log, cut, i, j, p, heir);
    ErasedShadowed(log, cut, i, j, p, heir);
    if LastHeader(cut, p) >= 0 {
      ErasedSame(log, cut, i, j, LastHeader(cut, p));
    }
  }

  lemma NotErased(log: seq<Entry>, objs: map<nat, Named>, w: Phase, i: nat, j: nat, g: nat)
    requires LogOk(log, objs, w) && i <= j <= |log| && Disposable(log, i, j)
        && (g in objs || (w.Replacing? && g == w.target))
    ensures !(i <= LastHeader(log, g) < j)
  {
    hide LogOk, LastHeader, Gone;
    NotGone(log, objs, w, g);
    var h := LastHeader(log, g);
    assert h >= 0 ==> NewestHeader(log, h);
  }

  lemma NotGone(log: seq<Entry>, objs: map<nat, Named>, w: Phase, g: nat)
    requires LogOk(log, objs, w) && (g in objs || (w.Replacing? && g == w.target))
    ensures LastHeader(log, g) >= 0 ==> !Gone(log[LastHeader(log, g)].rec)
  {
    hide LastHeader, Unshadowed, Undisturbed, RecordFits, GoneAt;
    assert g in objs ==> Stands(log, g, objs[g]);
    assert forall d | d in Dirs(objs) :: d != UNLINKED && d != DELETED;
  }

  /** Erasing such a block leaves the log as it should be, at any point of an operation. */
  lemma EraseKeeps(log: seq<Entry>, objs: map<nat, Named>, w: Phase, i: nat, j: nat)
    requires LogOk(log, objs, w) && i <= j <= |log| && Disposable(log, i, j)
    ensures LogOk(log[..i] + log[j..], objs, w)
  {
    hide Stands, RecordFits, Pending, Gone, GoneAt, ShadowedBy, IsErased, Disposable;
    var cut := log[..i] + log[j..];
    ErasedIs(log, i, j);
    ErasedFits(log, cut, i, j);
    forall g | g in objs
      ensures Stands(cut, g, objs[g])
    {
      NotErased(log, objs, w, i, j, g);
      ErasedStands(log, cut, i, j, g, objs[g]);
    }
    forall g: nat | g > DELETED && g !in objs && !(w.Replacing? && g == w.target)
      ensures GoneAt(cut, g)
    {
      ErasedGone(log, cut, i, j, g);
    }
    if w.Replacing? {
      PendingIds(log, objs, w.target, w.heir);
      NotErased(log, objs, w, i, j, w.heir);
      NotErased(log, objs, w, i, j, w.target);
      ErasedPending(log, cut, i, j, objs, w.target, w.heir);
    }
  }

  lemma ErasedFits(log: seq<Entry>, cut: seq<Entry>, i: nat, j: nat)
    requires IsErased(log, cut, i, j) && forall k | 0 <= k < |log| :: RecordFits(log[k].rec)
    ensures forall k | 0 <= k < |cut| :: RecordFits(cut[k].rec)
  {
    hide RecordFits;
  }

  /** When the newest header of g is erased, the one before the erased records is the newest. */
  lemma ErasedBack(log: seq<Entry>, cut: seq<Entry>, i: nat, j: nat, g: nat)
    requires IsErased(log, cut, i, j) && i <= LastHeader(log, g) < j
    ensures LastHeader(cut, g) == LastHeader(log[..i], g)
    ensures LastHeader(cut, g) >= 0 ==> cut[LastHeader(cut, g)] == log[..i][LastHeader(cut, g)]
  {
    hide LastHeader;
    var pre := log[..i];
    forall k | 0 <= k < i
      ensures cut[k] == pre[k] == log[k]
    {
      assert Was(i, j, k) == k;
    }
    forall k | i <= k < |cut|
      ensures !IsHeader(cut[k].rec, g)
    {
      assert LastHeader(log, g) < Was(i, j, k);
    }
  }

  lemma ErasedGone(log: seq<Entry>, cut: seq<Entry>, i: nat, j: nat, g: nat)
    requires IsErased(log, cut, i, j) && GoneAt(log, g) && Disposable(log, i, j)
    ensures GoneAt(cut, g)
  {
    hide LastHeader, Gone;
    var h := LastHeader(log, g);
    assert h >= 0 ==> NewestHeader(log, h);
    if i <= h < j {
      ErasedBack(log, cut, i, j, g);
    } else {
      ErasedLast(log, cut, i, j, g);
    }
  }

  // ----- why nothing may be collected while a target is being replaced -----

  lemma KnownMark(n: nat, t: Table, e: Entry, p: nat)
    requires Valid(t, e.rec.obj) && e.rec.obj > DELETED && e.rec.Header? && e.rec.obj != p
    ensures var t' := ScanStep(n, t, e); (p in t' <==> p in t) && (p in t ==> t'[p] == t[p])
  {
  }

  /** An object whose marks are all of headers older than one already read gets its own name. */
  lemma {:induction false} MarksPassed(n: nat, t: Table, log: seq<Entry>, live: set<nat>, p: nat, heir: nat)
    requires Ready(t, log, live) && p > DELETED && heir > DELETED && !Valid(t, p) && (p in t ==> t[p].hdr == None)
    requires Valid(t, heir) && LastHeader(log, p) >= 0 && OnlyMarkedBy(log, p, heir) && heir != p
    ensures var t' := ScanFrom(n, log, t); p in t' && NameIs(t'[p], log[LastHeader(log, p)].rec)
    decreases |log|
  {
    hide Ready, ScanStep;
    var k := |log| - 1;
    NameStep(n, t, log, live, p);
    NameStep(n, t, log, live, heir);
    StepReady(n, t, log, live);
    if IsHeader(log[k].rec, p) {
      NameScan(n, ScanStep(n, t, log[k]), log[..k], live, p);
    } else {
      if Shadows(log[k].rec, p) {
        KnownMark(n, t, log[k], p);
      }
      MarksPassed(n, ScanStep(n, t, log[k]), log[..k], live, p, heir);
    }
  }

  /** A collection between the two headers, which would clear the mark in the heir's header, brings the
      target back beside it, if it has a header left: a scan would show two objects of one name. */
  lemma CollectedMarkIsLost(n: nat, log: seq<Entry>, objs: map<nat, Named>, p: nat, heir: nat, e: Entry, size: nat)
    requires LogOk(log, objs, Replacing(p, heir)) && LastHeader(log, heir) >= 0
    requires e.rec == log[LastHeader(log, heir)].rec.(isShrink := false, shadows := 0, size := size)
    ensures var t := ScanLog(n, log + [e]);
            && (p in t && t[p].hdr.Some? <==> LastHeader(log, p) >= 0)
            && (LastHeader(log, p) >= 0 ==> NameIs(t[p], log[LastHeader(log, p)].rec) && t[p].parent in Dirs(objs))
  {
    hide Ready, ScanStep, Unshadowed, Undisturbed;
    var t, live, log' := InitialTable(), Dirs(objs) + {UNLINKED, DELETED}, log + [e];
    HeirNames(log, objs, p, heir);
    ReadyAtFirst(log, objs, Replacing(p, heir));
    CopyReady(t, log, live, e, heir, objs);
    SpecialsOnly();
    assert log'[|log'| - 1] == e && log'[..|log'| - 1] == log;
    NameStep(n, t, log', live, heir);
    NameStep(n, t, log', live, p);
    StepReady(n, t, log', live);
    var t1 := ScanStep(n, t, e);
    if LastHeader(log, p) >= 0 {
      MarksPassed(n, t1, log, live, p, heir);
    } else {
      NoOtherName(n, t1, log, live, p);
    }
  }

  lemma HeirNames(log: seq<Entry>, objs: map<nat, Named>, p: nat, heir: nat)
    requires LogOk(log, objs, Replacing(p, heir))
    ensures p > DELETED && heir > DELETED && heir != p && OnlyMarkedBy(log, p, heir)
    ensures LastHeader(log, p) >= 0 ==> log[LastHeader(log, p)].rec.parent in Dirs(objs)
    ensures LastHeader(log, heir) >= 0 && log[LastHeader(log, heir)].rec.parent in Dirs(objs)
  {
    assert Stands(log, heir, objs[heir]);
  }

  lemma CopyReady(t: Table, log: seq<Entry>, live: set<nat>, e: Entry, heir: nat, objs: map<nat, Named>)
    requires t == InitialTable() && Ready(t, log, live) && heir > DELETED && LastHeader(log, heir) >= 0
    requires log[LastHeader(log, heir)].rec.parent in live && e.rec.Header?
    requires var r := log[LastHeader(log, heir)].rec; e.rec == r.(isShrink := false, shadows := 0, size := e.rec.size)
    ensures Ready(t, log + [e], live)
  {
    var log' := log + [e];
    Fits(e.rec);
    AppendFits(log, e);
    forall d | d in live
      ensures LiveDir(t, log', d)
    {
      assert LiveDir(t, log, d);
      AppendLast(log, e, d);
      AppendUnshadowed(log, e, d);
    }
    forall g: nat | g > DELETED
      ensures ParentKnown(t, log', live, g)
    {
      assert ParentKnown(t, log, live, g);
      AppendLast(log, e, g);
    }
  }

  // ----- every state that flash goes through -----

  /** A record was written, or a block erased. */
  ghost predicate FlashStep(a: seq<Entry>, b: seq<Entry>) {
    || (|b| == |a| + 1 && b[..|a|] == a)
    || (exists i: nat, j: nat | i <= j <= |a| :: b == a[..i] + a[j..])
  }

  /** The states that flash has been in, one after the other. */
  ghost predicate Chain(states: seq<seq<Entry>>) {
    forall k | 0 < k < |states| :: FlashStep(states[k - 1], states[k])
  }

  /** A scan shows the objects, and a mount can go on from there. */
  ghost predicate Sound(n: nat, log: seq<Entry>, objs: map<nat, Named>) {
    Shows(n, log, objs) && exists w :: LogOk(log, objs, w)
  }

  lemma PhaseOf(n: nat, log: seq<Entry>, objs: map<nat, Named>) returns (w: Phase)
    requires Sound(n, log, objs)
    ensures LogOk(log, objs, w)
  {
    w :| LogOk(log, objs, w);
  }

  lemma LogSound(n: nat, log: seq<Entry>, objs: map<nat, Named>, w: Phase)
    requires LogOk(log, objs, w)
    ensures Sound(n, log, objs)
  {
    hide LogOk, Shows;
    LogShows(n, log, objs, w);
  }

  /** Whichever state from number from on a crash leaves flash in, the scan shows objs0 if its number is
      less than m, and objs1 from m on. */
  ghost predicate CrashShows(n: nat, states: seq<seq<Entry>>, from: nat, objs0: map<nat, Named>, m: nat,
          objs1: map<nat, Named>) {
    forall k | from <= k < |states| :: Sound(n, states[k], if k < m then objs0 else objs1)
  }

  ghost predicate OldThenNew(n: nat, states: seq<seq<Entry>>, from: nat, objs0: map<nat, Named>,
          objs1: map<nat, Named>) {
    exists m: nat :: CrashShows(n, states, from, objs0, m, objs1)
  }

  lemma CrashMore(n: nat, states: seq<seq<Entry>>, log: seq<Entry>, from: nat, objs0: map<nat, Named>, m: nat,
          objs: map<nat, Named>, objs': map<nat, Named>)
    requires CrashShows(n, states, from, objs0, m, objs) && m <= |states| && Sound(n, log, objs')
        && (objs' == objs || objs == objs0)
    ensures CrashShows(n, states + [log], from, objs0, if objs' == objs then m else |states|, objs')
  {
    hide Sound;
    var states' := states + [log];
    assert forall k | from <= k < |states| ::
        Sound(n, states[k], if k < m then objs0 else objs) && states'[k] == states[k];
  }

  lemma ChainMore(states: seq<seq<Entry>>, log: seq<Entry>)
    requires Chain(states) && states != [] && FlashStep(states[|states| - 1], log)
    ensures Chain(states + [log])
  {
    hide FlashStep;
    var states' := states + [log];
    forall k | 0 < k < |states'|
      ensures FlashStep(states'[k - 1], states'[k])
    {
      if k < |states| {
        assert FlashStep(states[k - 1], states[k]);
      }
    }
  }

  // ----- the directory tree -----

  const MAX_NAME_LENGTH: nat := 255

  /** The states that a crash in the running operation may leave: those from number from on, of which the
      ones before number m show objs0. */
  datatype Span = Span(from: nat, objs0: map<nat, Named>, m: nat)

  /** The same objects, under the same names; of a size nothing is said. */
  predicate SameNames(objs: map<nat, Named>, objs': map<nat, Named>) {
    objs.Keys == objs'.Keys
    && forall g | g in objs && g in objs' ::
        objs[g].kind == objs'[g].kind && objs[g].parent == objs'[g].parent && objs[g].name == objs'[g].name
  }

  /** What a mount finds in the scanned table. */
  function TreeFound(t: Table): map<nat, Named> {
    map g | g in t && g > DELETED && t[g].hdr.Some? && t[g].parent != UNLINKED && t[g].parent != DELETED
      :: Named(t[g].kind, t[g].parent, t[g].name, t[g].fileSize)
  }

  lemma FoundIsShown(n: nat, log: seq<Entry>, objs: map<nat, Named>, w: Phase)
    requires LogOk(log, objs, w) && Shows(n, log, objs)
    ensures SameNames(TreeFound(ScanLog(n, log)), objs)
  {
    hide Stands, GoneAt, Pending, ScanLog, RecordFits;
    var t := ScanLog(n, log);
    forall g: nat
      ensures g in TreeFound(t) <==> g in objs
      ensures g in objs ==> t[g].kind == objs[g].kind && t[g].parent == objs[g].parent && t[g].name == objs[g].name
    {
      if g > DELETED {
        assert Shown(t, objs, g);
      }
      assert forall d | d in Dirs(objs) :: d != UNLINKED && d != DELETED;
    }
  }

  /** Whether a log is in order depends on names only. */
  lemma NamesOnly(log: seq<Entry>, objs: map<nat, Named>, objs0: map<nat, Named>, w: Phase)
    requires LogOk(log, objs0, w) && SameNames(objs, objs0)
    ensures LogOk(log, objs, w)
  {
    hide Unshadowed, Undisturbed, RecordFits, GoneAt, LastHeader, ShadowedBy, OnlyMarkedBy;
    assert objs.Keys == objs0.Keys;
    assert Dirs(objs) == Dirs(objs0);
    forall g | g in objs
      ensures Stands(log, g, objs[g])
    {
      assert Stands(log, g, objs0[g]);
    }
  }

  /** A target not yet recorded as deleted is found under unlinked. */
  lemma TargetFound(n: nat, log: seq<Entry>, objs: map<nat, Named>, w: Phase)
    requires LogOk(log, objs, w)
    ensures w.Replacing? ==> var t := ScanLog(n, log); w.target in t && w.target > DELETED && t[w.target].valid && t[w.target].parent == UNLINKED
  {
    hide Ready, InitialTable, Unshadowed, Undisturbed, ShadowedBy, LastHeader, RecordFits, OnlyMarkedBy;
    if w.Replacing? {
      ReadyAtFirst(log, objs, w);
      SpecialsOnly();
      ShadowScan(n, InitialTable(), log, Dirs(objs) + {UNLINKED, DELETED}, w.target, w.heir);
    }
  }

  lemma SameUnique(objs: map<nat, Named>, objs0: map<nat, Named>)
    requires SameNames(objs, objs0) && Tree.UniqueNames(objs0)
    ensures Tree.UniqueNames(objs)
  {
  }

  /** The objects of the directory tree in RAM, and the log on flash. */
  class Tree {
    const n: nat
    const deferDirectoryUpdate: bool
    var log: seq<Entry>
    var objs: map<nat, Named>
    var gcDisable: bool
    /** Every state that flash has been in; the last one is log. */
    ghost var states: seq<seq<Entry>>

    ghost predicate Inv()
      reads this
    {
      LogOk(log, objs, Settled) && UniqueNames(objs) && !gcDisable && Recorded()
    }

    ghost predicate Recorded()
      reads this
    {
      states != [] && states[|states| - 1] == log && Chain(states)
    }

    /** An operation is under way, and its headers so far show these objects. */
    ghost predicate Underway(shown: map<nat, Named>, w: Phase, c: Span)
      reads this
    {
      && Recorded() && LogOk(log, shown, w) && (w.Replacing? ==> gcDisable)
      && c.from < |states| && c.m <= |states| && CrashShows(n, states, c.from, c.objs0, c.m, shown)
    }

    /** A device with nothing on it. */
    constructor (n: nat, deferDirectoryUpdate: bool)
      ensures Inv() && objs == map[] && log == []
    {
      this.n, this.deferDirectoryUpdate := n, deferDirectoryUpdate;
      log, objs, gcDisable, states := [], map[], false, [[]];
    }

    /** A device mounted from what is on flash. A crash may have come between the two headers of a
        replacement: the target is found under unlinked then, without a header of its own, and like all that
        is found there it is deleted, which records its deletion at last. This is a mount during which no
        collection falls due: the flag that keeps them off is not set then, and CollectedMarkIsLost says what
        one could do. */
    constructor Mounted(n: nat, deferDirectoryUpdate: bool, log: seq<Entry>, ghost objs0: map<nat, Named>)
      requires Sound(n, log, objs0) && UniqueNames(objs0)
      ensures Inv() && SameNames(objs, objs0)
      ensures states[0] == log && forall k | 0 <= k < |states| :: Sound(n, states[k], objs)
    {
      hide LogOk, CrashShows, Chain, Sound, TreeFound, SameNames, UniqueNames, ScanLog, Stripped;
      this.n, this.deferDirectoryUpdate := n, deferDirectoryUpdate;
      this.log, gcDisable, states := log, true, [log];
      objs := TreeFound(ScanLog(n, log));
      new;
      ghost var w := PhaseOf(n, log, objs0);
      MountFinds(n, log, objs0, w);
      StripDeletedObjects(w);
      SameUnique(objs, objs0);
    }

    /** What a mount finds under unlinked is deleted. */
    method StripDeletedObjects(ghost w: Phase)
      requires objs == TreeFound(ScanLog(n, log)) && gcDisable && Underway(objs, w, Span(0, objs, 0))
      requires w.Replacing? ==> Stripped(ScanLog(n, log), w.target)
      modifies this`log, this`states, this`gcDisable
      ensures LogOk(log, objs, Settled) && !gcDisable && Recorded() && old(states) <= states
      ensures forall k | 0 <= k < |states| :: Sound(n, states[k], objs)
    {
      hide LogOk, CrashShows, Chain, Sound, Writes;
      var t := ScanLog(n, log);
      ghost var c, ph := Span(0, objs, 0), w;
      var rest := set g | g in t && Stripped(t, g);
      while rest != {}
        invariant forall g | g in rest :: g in t && Stripped(t, g)
        invariant Underway(objs, ph, c) && (ph == Settled || (ph == w && w.target in rest)) && gcDisable
        invariant c == Span(0, objs, 0) && old(states) <= states
        decreases |rest|
      {
        var g :| g in rest;
        ghost var next := if ph.Replacing? && g == ph.target then Settled else ph;
        NotTarget(log, objs, ph);
        StripWrites(HeaderOf(g, Named(t[g].kind, DELETED, "deleted", 0), true, 0), objs, ph, next);
        c := UpdateObjectHeader(g, Named(t[g].kind, DELETED, "deleted", 0), true, 0, objs, ph, objs, next, c);
        ph := next;
        rest := rest - {g};
      }
      gcDisable := false;
      AllShown(n, states, objs);
    }

    /** Object g lies under unlinked. */
    static predicate Stripped(t: Table, g: nat) {
      g in t && g > DELETED && t[g].valid && t[g].parent == UNLINKED
    }

    static lemma MountFinds(n: nat, l: seq<Entry>, objs0: map<nat, Named>, w: Phase)
      requires LogOk(l, objs0, w)
      ensures var objs := TreeFound(ScanLog(n, l));
              && SameNames(objs, objs0) && LogOk(l, objs, w) && Chain([l]) && CrashShows(n, [l], 0, objs, 0, objs)
              && (w.Replacing? ==> Stripped(ScanLog(n, l), w.target))
    {
      hide LogOk, CrashShows, Chain, Sound, ScanLog;
      LogShows(n, l, objs0, w);
      FoundIsShown(n, l, objs0, w);
      var objs := TreeFound(ScanLog(n, l));
      NamesOnly(l, objs, objs0, w);
      LogSound(n, l, objs, w);
      FirstState(n, l, objs);
      TargetFound(n, l, objs, w);
    }

    static lemma StripWrites(r: Record, objs: map<nat, Named>, w: Phase, w': Phase)
      requires r.Header? && r.obj !in objs && r.obj > DELETED && Gone(r) && r.shadows == 0
      requires w.Replacing? ==> w.heir in objs
      requires w' == if w.Replacing? && r.obj == w.target then Settled else w
      ensures Writes(r, objs, w, objs, w')
    {
    }

    static lemma AllShown(n: nat, states: seq<seq<Entry>>, objs: map<nat, Named>)
      requires CrashShows(n, states, 0, objs, 0, objs)
      ensures forall k | 0 <= k < |states| :: Sound(n, states[k], objs)
    {
      hide Sound;
    }

    static lemma FirstState(n: nat, l: seq<Entry>, objs: map<nat, Named>)
      requires Sound(n, l, objs)
      ensures Chain([l]) && CrashShows(n, [l], 0, objs, 0, objs)
    {
      hide Sound;
    }

    static ghost predicate UniqueNames(objs: map<nat, Named>) {
      forall g, h | g in objs && h in objs && g != h :: objs[g].parent != objs[h].parent || objs[g].name != objs[h].name
    }

    /** The object of that name in directory d. */
    method FindObjectByName(d: nat, name: string) returns (g: Option<nat>)
      ensures match g
              case Some(i) => i in objs && objs[i].parent == d && objs[i].name == name
              case None => forall i | i in objs :: objs[i].parent != d || objs[i].name != name
    {
      var rest := objs.Keys;
      while rest != {}
        invariant rest <= objs.Keys
        invariant forall i | i in objs && i !in rest :: objs[i].parent != d || objs[i].name != name
        decreases |rest|
      {
        var i :| i in rest;
        if objs[i].parent == d && objs[i].name == name {
          return Some(i);
        }
        rest := rest - {i};
      }
      return None;
    }

    method IsNonEmptyDirectory(d: nat) returns (ok: bool)
      requires d in objs
      ensures ok <==> objs[d].kind == DirKind && exists i :: i in objs && objs[i].parent == d
    {
      if objs[d].kind != DirKind {
        return false;
      }
      var rest := objs.Keys;
      while rest != {}
        invariant rest <= objs.Keys && forall i | i in objs && i !in rest :: objs[i].parent != d
        decreases |rest|
      {
        var i :| i in rest;
        if objs[i].parent == d {
          return true;
        }
        rest := rest - {i};
      }
      return false;
    }

    // ----- writing to flash -----

    /** Flash goes to its next state. */
    method SetLog(l: seq<Entry>, ghost shown: map<nat, Named>, ghost w: Phase, ghost shown': map<nat, Named>,
            ghost w': Phase, ghost c: Span) returns (ghost c': Span)
      requires Underway(shown, w, c) && FlashStep(log, l) && LogOk(l, shown', w')
          && (shown' == shown || shown == c.objs0) && (w'.Replacing? ==> gcDisable)
      modifies this`log, this`states
      ensures Underway(shown', w', c') && old(states) < states && log == l
      ensures c' == c.(m := if shown' == shown then c.m else |old(states)|)
    {
      hide LogOk, CrashShows, Sound, Chain, FlashStep;
      LogSound(n, l, shown', w');
      CrashMore(n, states, l, c.from, c.objs0, c.m, shown, shown');
      ChainMore(states, l);
      c' := c.(m := if shown' == shown then c.m else |states|);
      log, states := l, states + [l];
    }

    /** A chunk is written at the end of the log. */
    method Append(r: Record, ghost shown: map<nat, Named>, ghost w: Phase, ghost shown': map<nat, Named>,
            ghost w': Phase, ghost c: Span) returns (ghost c': Span)
      requires Underway(shown, w, c) && (shown' == shown || shown == c.objs0) && (w'.Replacing? ==> gcDisable)
      requires Makes(log, r, shown', w')
      modifies this`log, this`states
      ensures Underway(shown', w', c') && old(states) < states
          && c' == c.(m := if shown' == shown then c.m else |old(states)|)
    {
      hide LogOk, CrashShows, Chain;
      var blk: nat, page: nat := *, *;
      var e := Entry(Addr(blk, page), r);
      c' := SetLog(log + [e], shown, w, shown', w', c);
    }

    /** Blocks whose chunks have all been discarded are erased, some now and some later. */
    method Reclaim(ghost shown: map<nat, Named>, ghost w: Phase, ghost c: Span)
      requires Underway(shown, w, c)
      modifies this`log, this`states
      ensures Underway(shown, w, c) && old(states) <= states
    {
      hide LogOk, CrashShows, Chain, Disposable;
      var times: nat := *;
      while times > 0
        invariant Underway(shown, w, c) && old(states) <= states
      {
        var i: nat, j: nat := *, *;
        if i <= j <= |log| && Disposable(log, i, j) {
          EraseKeeps(log, shown, w, i, j);
          ErasesStep(log, i, j);
          ghost var c' := SetLog(log[..i] + log[j..], shown, w, shown, w, c);
        }
        times := times - 1;
      }
    }

    static lemma ErasesStep(l: seq<Entry>, i: nat, j: nat)
      requires i <= j <= |l|
      ensures FlashStep(l, l[..i] + l[j..])
    {
    }

    /** Unless it is switched off, some garbage may be collected: headers and data chunks are written
        again, and the blocks they came from are erased. */
    method CheckGarbageCollection(ghost shown: map<nat, Named>, ghost w: Phase, ghost c: Span)
      requires Underway(shown, w, c)
      modifies this`log, this`states
      ensures Underway(shown, w, c) && old(states) <= states
    {
      hide LogOk, CrashShows, Chain, FlashStep, Repeats, Makes, NewestHeader, OwnerIsFile;
      if gcDisable {
        return;
      }
      var copies: nat := *;
      while copies > 0
        invariant Underway(shown, w, c) && old(states) <= states && w == Settled
      {
        var k: nat, size: nat := *, *;
        if k < |log| {
          var r := log[k].rec;
          ghost var c';
          if r.Header? && NewestHeader(log, k) {
            CopyRepeats(log, shown, k, size);
            AnyRepeat(log, shown, r.(isShrink := false, shadows := 0, size := size), w);
            c' := Append(r.(isShrink := false, shadows := 0, size := size), shown, w, shown, w, c);
          } else if r.Data? && r.obj > DELETED && OwnerIsFile(log, r.obj) {
            AnyData(log, shown, r);
            c' := Append(r, shown, w, shown, w, c);
          }
        }
        Reclaim(shown, w, c);
        copies := copies - 1;
      }
    }

    static lemma AnyRepeat(l: seq<Entry>, shown: map<nat, Named>, r: Record, w: Phase)
      requires LogOk(l, shown, w) && w == Settled && Repeats(r, shown)
      ensures Makes(l, r, shown, w)
    {
      hide LogOk, Repeats;
      forall e: Entry | e.rec == r
        ensures LogOk(l + [e], shown, w)
      {
        RepeatKeeps(l, shown, e, w);
      }
    }

    static lemma AnyData(l: seq<Entry>, shown: map<nat, Named>, r: Record)
      requires LogOk(l, shown, Settled) && r.Data? && r.obj > DELETED && OwnerIsFile(l, r.obj)
      ensures Makes(l, r, shown, Settled)
    {
      hide LogOk, OwnerIsFile;
      forall e: Entry | e.rec == r
        ensures LogOk(l + [e], shown, Settled)
      {
        DataKeeps(l, e, shown);
      }
    }

    static lemma AnyWrite(l: seq<Entry>, shown: map<nat, Named>, w: Phase, r: Record, shown': map<nat, Named>,
            w': Phase)
      requires LogOk(l, shown, w) && Writes(r, shown, w, shown', w')
      ensures Makes(l, r, shown', w')
    {
      hide LogOk, Writes;
      forall e: Entry | e.rec == r
        ensures LogOk(l + [e], shown', w')
      {
        WriteKeeps(l, e, shown, w, shown', w');
      }
    }

    /** The header written for an object that is as o says. */
    static function HeaderOf(g: nat, o: Named, isShrink: bool, shadows: nat): Record {
      Header(g, o.kind, o.parent, o.name, if o.parent == DELETED || o.parent == UNLINKED then 0
          else o.size, isShrink, shadows)
    }

    /** Collect garbage if need be, write the header of an object, and discard its previous one. */
    method UpdateObjectHeader(g: nat, o: Named, isShrink: bool, shadows: nat,
                              ghost shown: map<nat, Named>, ghost w: Phase, ghost shown': map<nat, Named>,
                                  ghost w': Phase, ghost c: Span)
      returns (ghost c': Span)
      requires Underway(shown, w, c) && Writes(HeaderOf(g, o, isShrink, shadows), shown, w, shown', w')
      requires (shown' == shown || shown == c.objs0) && (w'.Replacing? ==> gcDisable)
      modifies this`log, this`states
      ensures Underway(shown', w', c') && old(states) < states && c'.from == c.from && c'.objs0 == c.objs0
          && (shown' == shown ==> c' == c)
    {
      hide LogOk, CrashShows, Chain, Writes, HeaderOf, Makes;
      CheckGarbageCollection(shown, w, c);
      AnyWrite(log, shown, w, HeaderOf(g, o, isShrink, shadows), shown', w');
      c' := Append(HeaderOf(g, o, isShrink, shadows), shown, w, shown', w', c);
      Reclaim(shown', w', c');
    }

    /** Record that the contents of directory d have changed, now or later. The root's header is
        written too; lost+found has none. */
    method UpdateParent(d: nat, ghost w: Phase, ghost c: Span)
      requires Underway(objs, w, c) && d in Dirs(objs) && (w.Replacing? ==> d != w.heir)
      modifies this`log, this`states
      ensures Underway(objs, w, c) && old(states) <= states
    {
      hide LogOk, CrashShows, Chain;
      if !deferDirectoryUpdate && d != LOSTNFOUND {
        ghost var c';
        NotTarget(log, objs, w);
        if d == ROOT {
          c' := UpdateObjectHeader(d, Named(DirKind, 0, "", 0), false, 0, objs, w, objs, w, c);
        } else {
          c' := UpdateObjectHeader(d, objs[d], false, 0, objs, w, objs, w, c);
        }
      }
    }

    static lemma NotTarget(l: seq<Entry>, objs: map<nat, Named>, w: Phase)
      requires LogOk(l, objs, w)
      ensures w.Replacing? ==> w.target !in objs && w.target > DELETED && w.heir in objs && w.heir > DELETED
    {
    }

    static lemma GoodParent(l: seq<Entry>, objs: map<nat, Named>, w: Phase, d: nat)
      requires LogOk(l, objs, w) && d in objs
      ensures d > DELETED && objs[d].parent in Dirs(objs)
    {
    }

    method Begin() returns (ghost c: Span)
      requires Inv()
      ensures Underway(objs, Settled, c) && c.from == |states| - 1 && c.objs0 == objs
    {
      hide LogOk, Sound, Chain, UniqueNames;
      LogSound(n, log, objs, Settled);
      c := Span(|states| - 1, objs, 0);
    }

    // ----- the operations -----

    /** Move g to a directory and name, in RAM and in the log; not onto another object unless
        forced or shadowing it. */
    method ChangeObjectName(g: nat, newDir: nat, newName: string, force: bool, shadows: nat,
                            ghost shown': map<nat, Named>, ghost w': Phase, ghost c: Span)
      returns (ok: bool, ghost c': Span)
      requires g in objs && Underway(objs, Settled, c) && (w'.Replacing? ==> gcDisable)
          && (shown' == objs || objs == c.objs0)
      requires Writes(HeaderOf(g, objs[g].(parent := newDir, name := newName), false, shadows), objs, Settled, shown',
          w')
      modifies this`log, this`states, this`objs
      ensures ok <==> force || shadows > 0 || forall i | i in old(objs) ::
          old(objs)[i].parent != newDir || old(objs)[i].name != newName
      ensures old(states) <= states && c'.from == c.from && c'.objs0 == c.objs0
      ensures !ok ==> objs == old(objs) && Underway(objs, Settled, c')
      ensures ok ==> objs == old(objs)[g := old(objs)[g].(parent := newDir, name := newName)] && Underway(shown', w', c')
    {
      hide LogOk, CrashShows, Chain, Writes;
      var existing := FindObjectByName(newDir, newName);
      ok := force || shadows > 0 || existing.None?;
      c' := c;
      if ok {
        ghost var shown := objs;
        objs := objs[g := objs[g].(parent := newDir, name := newName)];
        c' := UpdateObjectHeader(g, objs[g], false, shadows, shown, Settled, shown', w', c);
      }
    }

    /** Unlink the shadowed object t: its deletion, or its move to unlinked while it is still open,
        goes into the log. */
    method UnlinkShadowed(t: nat, o: Named, held: bool, ghost heir: nat, ghost c: Span)
      requires Underway(objs, Replacing(t, heir), c) && o.parent in Dirs(objs) && o.parent != heir
      modifies this`log, this`states
      ensures Underway(objs, Settled, c) && old(states) <= states
    {
      hide LogOk, CrashShows, Chain;
      UpdateParent(o.parent, Replacing(t, heir), c);
      ghost var c';
      if held {
        c' := UpdateObjectHeader(t, o.(parent := UNLINKED, name := "unlinked"), false, 0, objs, Replacing(t, heir),
            objs, Settled, c);
      } else {
        c' := UpdateObjectHeader(t, o.(parent := DELETED, name := "deleted"), true, 0, objs, Replacing(t, heir), objs,
            Settled, c);
      }
    }

    static ghost function Renamed(objs: map<nat, Named>, g: nat, t: Option<nat>, d: nat, name: string): map<nat, Named>
      requires g in objs
    {
      (if t.Some? then objs - {t.value} else objs)[g := objs[g].(parent := d, name := name)]
    }

    /** Rename over t: the new header of g shadows t, then t is unlinked. No garbage is collected between. */
    method ReplaceTarget(g: nat, t: nat, newDir: nat, newName: string, held: bool, ghost c: Span)
      returns (ghost c': Span)
      requires Underway(objs, Settled, c) && objs == c.objs0 && !gcDisable
      requires g in objs && t in objs && g != t && newDir in Dirs(objs) && g != newDir
      requires objs[t].parent == newDir && objs[t].name == newName
      requires forall i | i in objs :: objs[i].parent != t
      modifies this
      ensures Underway(objs, Settled, c') && old(states) <= states && c'.from == c.from && c'.objs0 == c.objs0
          && !gcDisable
      ensures objs == Renamed(old(objs), g, Some(t), newDir, newName)
    {
      hide LogOk, CrashShows, Chain;
      ghost var objs1 := Renamed(objs, g, Some(t), newDir, newName);
      var o := objs[t];
      GoodParent(log, objs, Settled, t);
      GoodParent(log, objs, Settled, g);
      gcDisable := true;
      var ok;
      ok, c' := ChangeObjectName(g, newDir, newName, false, t, objs1, Replacing(t, g), c);
      objs := objs - {t};
      assert objs == objs1;
      UnlinkShadowed(t, o, held, g, c');
      gcDisable := false;
    }

    /** The object of that name in directory d is g. */
    static ghost predicate Called(objs: map<nat, Named>, g: nat, d: nat, name: string) {
      g in objs && objs[g].parent == d && objs[g].name == name
    }

    static ghost predicate HasChildren(objs: map<nat, Named>, d: nat) {
      d in objs && objs[d].kind == DirKind && exists i :: i in objs && objs[i].parent == d
    }

    static lemma OnlyCalled(objs: map<nat, Named>, g: nat, d: nat, name: string)
      requires UniqueNames(objs) && Called(objs, g, d, name)
      ensures forall i | Called(objs, i, d, name) :: i == g
    {
    }

    /** Give the object called oldName in oldDir a new name and directory. Another object that
        has that name already is replaced. It is refused for want of such an object, if the name is too long, and
        if the new name is that of a directory with something in it. Whatever state
        of flash a crash leaves, a scan shows the tree from before or the tree from after, and once it
        has shown the latter it keeps to it. */
    method RenameObject(oldDir: nat, oldName: string, newDir: nat, newName: string, held: bool) returns (ok: bool)
      requires Inv() && oldDir in Dirs(objs) && newDir in Dirs(objs)
      requires forall g | g in objs && objs[g].parent == oldDir && objs[g].name == oldName :: g != newDir
      modifies this
      ensures Inv()
      ensures ok <==> |newName| <= 255 && (exists g :: Called(old(objs), g, oldDir, oldName))
                      && !(exists t :: Called(old(objs), t, newDir, newName) && HasChildren(old(objs), t))
      ensures !ok ==> objs == old(objs) && log == old(log)
      ensures ok ==> exists g, t :: Moved(old(objs), objs, g, t, oldDir, oldName, newDir, newName)
      ensures old(states) <= states && OldThenNew(n, states, |old(states)| - 1, old(objs), objs)
    {
      hide LogOk, CrashShows, UniqueNames, Chain, Writes, HeaderOf;
      ghost var c := Begin();
      if |newName| > MAX_NAME_LENGTH {
        return false;
      }
      var found := FindObjectByName(oldDir, oldName);
      if found.None? {
        return false;
      }
      var g := found.value;
      ghost var objs0 := objs;
      var target := FindObjectByName(newDir, newName);
      ghost var t := if target.Some? && target.value != g then target else None;
      GoodParent(log, objs, Settled, g);
      assert Called(objs, g, oldDir, oldName);
      if target.Some? {
        var nonEmpty := IsNonEmptyDirectory(target.value);
        if nonEmpty {
          assert Called(objs, target.value, newDir, newName) && HasChildren(objs, target.value);
          return false;
        }
        OnlyCalled(objs, target.value, newDir, newName);
        if target.value != g {
          NoChildren(log, objs, target.value);
          c := ReplaceTarget(g, target.value, newDir, newName, held, c);
        }
      }
      StillDirs(objs0, g, t, oldDir, newDir, newName);
      MoveGives(objs, g, newDir, newName);
      var renamed;
      assert Renamed(objs0, g, t, newDir, newName) == objs[g := objs[g].(parent := newDir, name := newName)];
      renamed, c := ChangeObjectName(g, newDir, newName, true, 0, Renamed(objs0, g, t, newDir, newName), Settled, c);
      UpdateParent(oldDir, Settled, c);
      if newDir != oldDir {
        UpdateParent(newDir, Settled, c);
      }
      AloneThere(objs0, g);
      RenamedUnique(objs0, g, t, newDir, newName);
      assert Moved(objs0, objs, g, t, oldDir, oldName, newDir, newName);
      return true;
    }

    /** objs is objs0 with g moved over t, the other object that had the new name, if there was one. */
    static ghost predicate Moved(objs0: map<nat, Named>, objs: map<nat, Named>, g: nat, t: Option<nat>, oldDir: nat,
            oldName: string, newDir: nat, newName: string) {
      && g in objs0 && objs0[g].parent == oldDir && objs0[g].name == oldName
      && (match t
          case Some(i) => i in objs0 && i != g && objs0[i].parent == newDir && objs0[i].name == newName
          case None => forall i | i in objs0 && i != g :: objs0[i].parent != newDir || objs0[i].name != newName)
      && objs == Renamed(objs0, g, t, newDir, newName)
    }

    static lemma MoveGives(objs: map<nat, Named>, g: nat, d: nat, name: string)
      requires g in objs && g > DELETED && d in Dirs(objs[g := objs[g].(parent := d, name := name)])
      ensures Writes(HeaderOf(g, objs[g].(parent := d, name := name), false, 0), objs, Settled,
          objs[g := objs[g].(parent := d, name := name)], Settled)
    {
      assert Gives(HeaderOf(g, objs[g].(parent := d, name := name), false, 0), objs,
          objs[g := objs[g].(parent := d, name := name)]);
    }

    static lemma NoChildren(l: seq<Entry>, objs: map<nat, Named>, t: nat)
      requires LogOk(l, objs, Settled) && t in objs
      requires objs[t].kind == DirKind ==> forall i | i in objs :: objs[i].parent != t
      ensures forall i | i in objs :: objs[i].parent != t
    {
    }

    static lemma StillDirs(objs: map<nat, Named>, g: nat, t: Option<nat>, oldDir: nat, newDir: nat, newName: string)
      requires g in objs && objs[g].parent == oldDir && oldDir in Dirs(objs) && newDir in Dirs(objs)
      requires t.Some? ==> t.value in objs && objs[t.value].parent == newDir && forall i | i in objs ::
          objs[i].parent != t.value
      ensures oldDir in Dirs(Renamed(objs, g, t, newDir, newName))
          && newDir in Dirs(Renamed(objs, g, t, newDir, newName))
    {
    }

    static lemma AloneThere(objs: map<nat, Named>, g: nat)
      requires UniqueNames(objs) && g in objs
      ensures forall i | i in objs && i != g :: objs[i].parent != objs[g].parent || objs[i].name != objs[g].name
    {
    }

    static lemma RenamedUnique(objs: map<nat, Named>, g: nat, t: Option<nat>, newDir: nat, newName: string)
      requires g in objs && UniqueNames(objs)
      requires if t.Some? then t.value in objs && t.value != g && objs[t.value].parent == newDir
          && objs[t.value].name == newName
               else forall i | i in objs && i != g :: objs[i].parent != newDir || objs[i].name != newName
      ensures UniqueNames(Renamed(objs, g, t, newDir, newName))
    {
    }

    /** Create an object in a directory. */
    method MknodObject(g: nat, kind: Kind, parent: nat, name: string) returns (ok: bool)
      requires Inv() && g !in objs && g > DELETED && parent in Dirs(objs)
      modifies this
      ensures Inv()
      ensures ok <==> forall i | i in old(objs) :: old(objs)[i].parent != parent || old(objs)[i].name != name
      ensures objs == if ok then old(objs)[g := Named(kind, parent, name, 0)] else old(objs)
      ensures old(states) <= states && OldThenNew(n, states, |old(states)| - 1, old(objs), objs)
    {
      hide LogOk, CrashShows, Chain;
      ghost var c := Begin();
      var existing := FindObjectByName(parent, name);
      if existing.Some? {
        return false;
      }
      ghost var objs0 := objs;
      objs := objs[g := Named(kind, parent, name, 0)];
      c := UpdateObjectHeader(g, objs[g], false, 0, objs0, Settled, objs, Settled, c);
      UpdateParent(parent, Settled, c);
      return true;
    }

    /** Write a chunk of a file: no name changes, whatever garbage is collected on the way. */
    method WriteChunk(g: nat, chunk: nat, nbytes: nat, payload: seq<Byte>)
      requires Inv() && g in objs && objs[g].kind == FileKind
      modifies this`log, this`states
      ensures Inv() && old(states) < states && OldThenNew(n, states, |old(states)| - 1, objs, objs)
    {
      hide LogOk, CrashShows, Chain, UniqueNames, Makes;
      ghost var c := Begin();
      CheckGarbageCollection(objs, Settled, c);
      FileKnown(log, objs, g);
      AnyData(log, objs, Data(g, chunk, nbytes, payload));
      ghost var c' := Append(Data(g, chunk, nbytes, payload), objs, Settled, objs, Settled, c);
      Reclaim(objs, Settled, c);
    }

    static lemma FileKnown(l: seq<Entry>, objs: map<nat, Named>, g: nat)
      requires LogOk(l, objs, Settled) && g in objs && objs[g].kind == FileKind
      ensures OwnerIsFile(l, g) && g > DELETED
    {
      assert Stands(l, g, objs[g]);
    }

    /** Delete an object, or move it to unlinked while it is still open. */
    method UnlinkObject(g: nat, held: bool) returns (ok: bool)
      requires Inv() && g in objs
      modifies this
      ensures Inv()
      ensures ok <==> !(old(objs)[g].kind == DirKind && exists i :: i in old(objs) && old(objs)[i].parent == g)
      ensures objs == if ok then old(objs) - {g} else old(objs)
      ensures old(states) <= states && OldThenNew(n, states, |old(states)| - 1, old(objs), objs)
    {
      hide LogOk, CrashShows, Chain;
      ghost var c := Begin();
      var o := objs[g];
      GoodParent(log, objs, Settled, g);
      UpdateParent(o.parent, Settled, c);
      var nonEmpty := IsNonEmptyDirectory(g);
      if nonEmpty {
        return false;
      }
      NoChildren(log, objs, g);
      ghost var objs1 := objs - {g};
      if held {
        c := UpdateObjectHeader(g, o.(parent := UNLINKED, name := "unlinked"), false, 0, objs, Settled, objs1, Settled,
            c);
      } else {
        if o.kind == FileKind && o.size != 0 {
          c := UpdateObjectHeader(g, o.(size := 0), false, 0, objs, Settled, objs, Settled, c);
        }
        c := UpdateObjectHeader(g, o.(parent := DELETED, name := "deleted"), true, 0, objs, Settled, objs1, Settled, c);
      }
      objs := objs - {g};
      return true;
    }
  }
}
