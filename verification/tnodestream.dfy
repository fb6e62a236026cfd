/** The look-up tree of a file in a checkpoint: its level-0 tnodes, each after the first chunk it is about. */
module TnodeStream {
  import opened Tnodes

  const END_MARKER: nat := 0xFFFFFFFF

  datatype Rec = Rec(base: nat, entries: seq<nat>)

  datatype Parsed = Parsed(recs: seq<Rec>, ended: bool)

  ghost predicate WellFormed(recs: seq<Rec>) {
    forall r | r in recs :: |r.entries| == NTNODES_LEVEL0 && r.base != END_MARKER
  }

  ghost function Flat(recs: seq<Rec>): seq<nat> {
    if |recs| == 0 then [] else [recs[0].base] + recs[0].entries + Flat(recs[1..])
  }

  /** The records a stream of words holds, and whether the end marker is where it should be. */
  ghost function Parse(words: seq<nat>): (p: Parsed)
    ensures WellFormed(p.recs)
  {
    if |words| == 0 then Parsed([], false)
    else if words[0] == END_MARKER then Parsed([], true)
    else if |words| < 17 then Parsed([], false)
    else
      var p := Parse(words[17..]);
      Parsed([Rec(words[0], words[1..17])] + p.recs, p.ended)
  }

  lemma SumsAssociate(a: seq<nat>, b: seq<nat>, c: seq<nat>)
    ensures a + (b + c) == (a + b) + c
  {
  }

  lemma {:induction false} FlatAdds(a: seq<Rec>, b: seq<Rec>)
    ensures Flat(a + b) == Flat(a) + Flat(b)
  {
    if |a| == 0 {
      assert a + b == b;
    } else {
      FlatAdds(a[1..], b);
      assert (a + b)[1..] == a[1..] + b && (a + b)[0] == a[0];
      var x := [a[0].base] + a[0].entries;
      assert Flat(a + b) == x + (Flat(a[1..]) + Flat(b)) && Flat(a) == x + Flat(a[1..]);
      SumsAssociate(x, Flat(a[1..]), Flat(b));
    }
  }

  lemma FlatOne(r: Rec)
    ensures Flat([r]) == [r.base] + r.entries
  {
    assert [r][1..] == [];
  }

  /** What was written parses back to the same records, whatever follows. */
  lemma {:induction false} ParseFlat(recs: seq<Rec>, rest: seq<nat>)
    requires WellFormed(recs)
    ensures Parse(Flat(recs) + [END_MARKER] + rest) == Parsed(recs, true)
  {
    var words := Flat(recs) + [END_MARKER] + rest;
    if |recs| > 0 {
      assert recs[0] in recs;
      ParseFlat(recs[1..], rest);
      assert words == [recs[0].base] + recs[0].entries + (Flat(recs[1..]) + [END_MARKER] + rest);
      assert words[1..17] == recs[0].entries && words[17..] == Flat(recs[1..]) + [END_MARKER] + rest;
      assert recs == [recs[0]] + recs[1..];
    }
  }

  /** The entry for chunk y after the records have been put into a tree that said init. */
  ghost function Applied(recs: seq<Rec>, y: nat, init: nat): nat
    requires WellFormed(recs)
  {
    if |recs| == 0 then init
    else
      var r := recs[|recs| - 1];
      assert r in recs;
      if r.base / 16 == y / 16 then r.entries[y % 16] else Applied(recs[..|recs| - 1], y, init)
  }

  /** Records that all say v about y leave y at v. */
  lemma {:induction false} AppliedIs(recs: seq<Rec>, y: nat, init: nat, v: nat)
    requires WellFormed(recs)
    requires forall r | r in recs && r.base / 16 == y / 16 :: r.entries[y % 16] == v
    requires init == v || exists r :: r in recs && r.base / 16 == y / 16
    ensures Applied(recs, y, init) == v
  {
    if |recs| > 0 {
      var r := recs[|recs| - 1];
      assert r in recs;
      if r.base / 16 != y / 16 {
        assert recs == recs[..|recs| - 1] + [r];
        AppliedIs(recs[..|recs| - 1], y, init, v);
      }
    }
  }

  ghost function RecAt(nodes: map<nat, Tnode>, at: map<Place, nat>, q: Place): Rec
    requires NoSharing(nodes, at) && q in at
  {
    Rec(16 * q.prefix, nodes[at[q]].level0)
  }

  /** The records of the level-0 tnodes at or below pl, from left to right. */
  ghost function Recs(nodes: map<nat, Tnode>, at: map<Place, nat>, pl: Place): seq<Rec>
    requires NoSharing(nodes, at)
    decreases pl.level, 9
  {
    if pl !in at then []
    else if pl.level == 0 then [RecAt(nodes, at, pl)]
    else RecsOfKids(nodes, at, pl, 8)
  }

  ghost function RecsOfKids(nodes: map<nat, Tnode>, at: map<Place, nat>, pl: Place, i: nat): seq<Rec>
    requires NoSharing(nodes, at) && pl.level > 0 && i <= 8
    decreases pl.level, i
  {
    if i == 0 then [] else RecsOfKids(nodes, at, pl, i - 1) + Recs(nodes, at, Kid(pl, i - 1))
  }

  /** r is the record of a level-0 tnode at or below pl. */
  ghost predicate IsRecBelow(nodes: map<nat, Tnode>, at: map<Place, nat>, pl: Place, r: Rec)
    requires NoSharing(nodes, at)
  {
    exists q :: q in at && q.level == 0 && Under(pl, q) && r == RecAt(nodes, at, q)
  }

  /** The records are of those level-0 tnodes, and of all of them. */
  lemma {:induction false} RecsAreBelow(nodes: map<nat, Tnode>, at: map<Place, nat>, pl: Place, r: Rec)
    requires NoSharing(nodes, at) && r in Recs(nodes, at, pl)
    ensures IsRecBelow(nodes, at, pl, r)
    decreases pl.level, 9
  {
    if pl.level == 0 {
      assert Under(pl, pl);
    } else {
      var i := RecsOfKidsAreBelow(nodes, at, pl, 8, r);
      RecsAreBelow(nodes, at, Kid(pl, i), r);
      var q :| q in at && q.level == 0 && Under(Kid(pl, i), q) && r == RecAt(nodes, at, q);
      UnderKid(pl, q, i);
    }
  }

  lemma {:induction false} RecsOfKidsAreBelow(nodes: map<nat, Tnode>, at: map<Place, nat>, pl: Place, n: nat, r: Rec)
    returns (i: nat)
    requires NoSharing(nodes, at) && pl.level > 0 && n <= 8 && r in RecsOfKids(nodes, at, pl, n)
    ensures i < n && r in Recs(nodes, at, Kid(pl, i))
    decreases n
  {
    hide NoSharing, Recs;
    if r in Recs(nodes, at, Kid(pl, n - 1)) {
      i := n - 1;
    } else {
      i := RecsOfKidsAreBelow(nodes, at, pl, n - 1, r);
    }
  }

  lemma {:induction false} AllBelowHaveRecs(nodes: map<nat, Tnode>, at: map<Place, nat>, topLevel: nat, pl: Place,
          q: Place)
    requires NoSharing(nodes, at) && Standing(at, topLevel) && pl.level <= topLevel
    requires q in at && q.level == 0 && Under(pl, q)
    ensures RecAt(nodes, at, q) in Recs(nodes, at, pl)
    decreases pl.level
  {
    hide Standing;
    Ancestors(at, topLevel, q, pl.level);
    if pl.level > 0 {
      var i := WhichKid(pl, q);
      AllBelowHaveRecs(nodes, at, topLevel, Kid(pl, i), q);
      KidsHaveRecs(nodes, at, pl, i, 8, RecAt(nodes, at, q));
    }
  }

  lemma {:induction false} KidsHaveRecs(nodes: map<nat, Tnode>, at: map<Place, nat>, pl: Place, i: nat, n: nat, r: Rec)
    requires NoSharing(nodes, at) && pl.level > 0 && i < n <= 8 && r in Recs(nodes, at, Kid(pl, i))
    ensures r in RecsOfKids(nodes, at, pl, n)
    decreases n
  {
    hide NoSharing, Recs;
    if i < n - 1 {
      KidsHaveRecs(nodes, at, pl, i, n - 1, r);
    }
  }

  lemma RecsWellFormed(nodes: map<nat, Tnode>, at: map<Place, nat>, pl: Place)
    requires NoSharing(nodes, at) && InRange(at)
    ensures WellFormed(Recs(nodes, at, pl))
    ensures forall r | r in Recs(nodes, at, pl) :: r.base <= MAX_CHUNK_ID
  {
    forall r | r in Recs(nodes, at, pl)
      ensures |r.entries| == NTNODES_LEVEL0 && r.base <= MAX_CHUNK_ID
    {
      RecsAreBelow(nodes, at, pl, r);
      var q :| q in at && q.level == 0 && Under(pl, q) && r == RecAt(nodes, at, q);
    }
  }

  /** Put into an empty tree, the records of a tree give each chunk the entry it had. */
  lemma RecsRebuild(nodes: map<nat, Tnode>, at: map<Place, nat>, top: nat, topLevel: nat, y: nat)
    requires Tree(nodes, at, top, topLevel) && InRange(at) && WellFormed(Recs(nodes, at, Place(topLevel, 0)))
    ensures Applied(Recs(nodes, at, Place(topLevel, 0)), y, 0) == Entry(nodes, at, y)
  {
    hide Standing, Recs;
    var recs := Recs(nodes, at, Place(topLevel, 0));
    forall r | r in recs && r.base / 16 == y / 16
      ensures Place(0, y / 16) in at && r.entries == nodes[at[Place(0, y / 16)]].level0
    {
      RecsAreBelow(nodes, at, Place(topLevel, 0), r);
      var q :| q in at && q.level == 0 && Under(Place(topLevel, 0), q) && r == RecAt(nodes, at, q);
      assert q == Place(0, y / 16);
    }
    if Place(0, y / 16) in at {
      PlacesAreLow(at, topLevel, Place(0, y / 16));
      AllBelowHaveRecs(nodes, at, topLevel, Place(topLevel, 0), Place(0, y / 16));
      assert RecAt(nodes, at, Place(0, y / 16)).base / 16 == y / 16;
    }
    AppliedIs(recs, y, 0, Entry(nodes, at, y));
  }

  class WordStream {
    var words: seq<nat>
    var pos: nat

    ghost predicate Valid()
      reads this
    {
      pos <= |words|
    }

    ghost function Rest(): seq<nat>
      requires Valid()
      reads this
    {
      words[pos..]
    }

    constructor ()
      ensures Valid() && words == [] && pos == 0
    {
      words := [];
      pos := 0;
    }

    method Write(ws: seq<nat>)
      modifies `words
      ensures words == old(words) + ws
    {
      words := words + ws;
    }

    method Read(n: nat) returns (ok: bool, ws: seq<nat>)
      requires Valid()
      modifies `pos
      ensures Valid()
      ensures ok <==> n <= |old(Rest())|
      ensures ok ==> ws == old(Rest())[..n] && Rest() == old(Rest())[n..]
      ensures !ok ==> pos == old(pos)
    {
      ok := n <= |words| - pos;
      ws := [];
      if ok {
        ws := words[pos..pos + n];
        pos := pos + n;
      }
    }
  }

  lemma RecsUnfold(nodes: map<nat, Tnode>, at: map<Place, nat>, pl: Place)
    requires NoSharing(nodes, at)
    ensures pl !in at ==> Flat(Recs(nodes, at, pl)) == []
    ensures pl in at && pl.level == 0 ==> Flat(Recs(nodes, at, pl)) == [16 * pl.prefix] + nodes[at[pl]].level0
    ensures pl in at && pl.level > 0 ==> Recs(nodes, at, pl) == RecsOfKids(nodes, at, pl, 8)
    ensures pl.level > 0 ==> Flat(RecsOfKids(nodes, at, pl, 0)) == []
  {
    if pl in at && pl.level == 0 {
      FlatOne(RecAt(nodes, at, pl));
    }
  }

  lemma OneMoreKid(nodes: map<nat, Tnode>, at: map<Place, nat>, pl: Place, i: nat)
    requires NoSharing(nodes, at) && pl.level > 0 && i < 8
    ensures Flat(RecsOfKids(nodes, at, pl, i + 1))
        == Flat(RecsOfKids(nodes, at, pl, i)) + Flat(Recs(nodes, at, Kid(pl, i)))
    ensures Kid(pl, i) !in at ==> Flat(RecsOfKids(nodes, at, pl, i + 1)) == Flat(RecsOfKids(nodes, at, pl, i))
  {
    hide NoSharing, Recs, Flat;
    FlatAdds(RecsOfKids(nodes, at, pl, i), Recs(nodes, at, Kid(pl, i)));
    RecsUnfold(nodes, at, Kid(pl, i));
  }

  /** Write out what lies at or below the tnode tn. */
  method CheckpointTnodeWorker(f: FileStructure, s: WordStream, tn: nat, level: nat, chunkOffset: nat)
    requires f.Valid() && tn == NodeAt(f.at, Place(level, chunkOffset))
    modifies s`words
    ensures s.words == old(s.words) + Flat(Recs(f.nodes, f.at, Place(level, chunkOffset)))
    decreases level
  {
    hide NoSharing, Links, Standing, InRange, Recs, RecsOfKids, Flat;
    ghost var pl := Place(level, chunkOffset);
    RecsUnfold(f.nodes, f.at, pl);
    NullIsNoNode(f.nodes, f.at);
    if tn != NULL {
      if level > 0 {
        var i := 0;
        while i < NTNODES_INTERNAL
          invariant 0 <= i <= 8
          invariant s.words == old(s.words) + Flat(RecsOfKids(f.nodes, f.at, pl, i))
        {
          LinkIs(f.nodes, f.at, pl, i);
          Distinct(f.nodes, f.at, pl, Kid(pl, i));
          OneMoreKid(f.nodes, f.at, pl, i);
          if f.nodes[tn].internal[i] != NULL {
            CheckpointTnodeWorker(f, s, f.nodes[tn].internal[i], level - 1, 8 * chunkOffset + i);
          }
          i := i + 1;
        }
      } else {
        Distinct(f.nodes, f.at, pl, Place(1, 0));
        s.Write([16 * chunkOffset]);
        s.Write(f.nodes[tn].level0);
      }
    } else {
      Present(f.nodes, f.at, pl);
    }
  }

  lemma Present(nodes: map<nat, Tnode>, at: map<Place, nat>, pl: Place)
    requires NoSharing(nodes, at) && NodeAt(at, pl) == NULL
    ensures pl !in at
  {
  }

  method WriteCheckpointTnodes(f: FileStructure, s: WordStream)
    requires f.Valid()
    modifies s`words
    ensures s.words == old(s.words) + Flat(Recs(f.nodes, f.at, Place(f.topLevel, 0))) + [END_MARKER]
  {
    hide NoSharing, Links, InRange;
    CheckpointTnodeWorker(f, s, f.top, f.topLevel, 0);
    s.Write([END_MARKER]);
  }

  lemma LooseAdded(nodes: map<nat, Tnode>, at: map<Place, nat>, top: nat, topLevel: nat, tn: nat, content: Tnode)
    requires Tree(nodes, at, top, topLevel) && tn !in nodes && tn != NULL
    requires |content.internal| == NTNODES_INTERNAL && |content.level0| == NTNODES_LEVEL0
    ensures Tree(nodes[tn := content], at, top, topLevel) && tn !in at.Values
    ensures forall y: nat :: Entry(nodes[tn := content], at, y) == Entry(nodes, at, y)
  {
    hide Standing;
  }

  /** One tnode has come loose. */
  ghost predicate OneLost(nodes: map<nat, Tnode>, at: map<Place, nat>, nodes': map<nat, Tnode>, at': map<Place, nat>) {
    exists tn :: tn in nodes' && tn !in at'.Values && OthersKept(nodes, at, nodes' - {tn}, at', NULL)
  }

  lemma LostLater(n0: map<nat, Tnode>, a0: map<Place, nat>, n1: map<nat, Tnode>, a1: map<Place, nat>,
          n2: map<nat, Tnode>, a2: map<Place, nat>)
    requires OthersKept(n0, a0, n1, a1, NULL) && OneLost(n1, a1, n2, a2) && NULL !in n0
    ensures OneLost(n0, a0, n2, a2)
  {
    hide OthersKept;
    var tn :| tn in n2 && tn !in a2.Values && OthersKept(n1, a1, n2 - {tn}, a2, NULL);
    OthersKeptTrans(n0, a0, n1, a1, n2 - {tn}, a2, NULL);
  }

  lemma IsLost(n0: map<nat, Tnode>, a0: map<Place, nat>, n1: map<nat, Tnode>, n2: map<nat, Tnode>, a2: map<Place, nat>,
          tn: nat)
    requires tn !in n0 && tn in n1 && n1.Keys == n0.Keys + {tn} && tn !in a0.Values && tn != NULL && NULL !in n0
    requires forall id | id in n0 :: n1[id] == n0[id]
    requires OthersKept(n1, a0, n2, a2, NULL)
    ensures OneLost(n0, a0, n2, a2)
  {
    assert OthersKept(n0, a0, n2 - {tn}, a2, NULL);
  }

  lemma NothingAdded(at: map<Place, nat>, p: nat)
    ensures Extended(at, at, p)
  {
  }

  lemma BlankTnode()
    ensures |Blank().internal| == NTNODES_INTERNAL && |Blank().level0| == NTNODES_LEVEL0
  {
  }

  /** Make a tnode and read its entries. */
  method FetchTnode(f: FileStructure, s: WordStream) returns (ok: bool, tn: nat)
    requires f.Valid() && s.Valid()
    modifies f`nodes, f`nextId, f`spare, s`pos
    ensures f.Valid() && s.Valid() && (tn == NULL <==> old(f.spare) == 0)
    ensures tn == NULL ==> !ok && f.nodes == old(f.nodes) && f.spare == old(f.spare) && s.pos == old(s.pos)
    ensures tn != NULL ==> tn !in old(f.nodes) && tn in f.nodes && f.nodes.Keys == old(f.nodes).Keys + {tn}
    ensures tn != NULL ==> tn !in f.at.Values && f.spare == old(f.spare) - 1 && (ok <==> |old(s.Rest())| >= 16)
    ensures forall id | id in old(f.nodes) :: f.nodes[id] == old(f.nodes)[id]
    ensures ok ==> f.nodes[tn].level0 == old(s.Rest())[..16] && s.Rest() == old(s.Rest())[16..]
    ensures s.pos == old(s.pos) || s.pos == old(s.pos) + 16
    ensures forall y: nat :: Entry(f.nodes, f.at, y) == old(Entry(f.nodes, f.at, y))
  {
    hide NoSharing, Links, Standing, InRange, Entry, Blank;
    BlankTnode();
    ok := false;
    tn := f.GetTnode();
    if tn != NULL {
      var words;
      ok, words := s.Read(16);
      f.nodes := f.nodes[tn := if ok then f.nodes[tn].(level0 := words) else f.nodes[tn]];
      LooseAdded(old(f.nodes), f.at, f.top, f.topLevel, tn, f.nodes[tn]);
      assert f.nodes == old(f.nodes)[tn := f.nodes[tn]];
    }
  }

  /** Read one level-0 tnode and put it into the tree. When that fails after a tnode has been made for it, that
      tnode is lost. */
  method LoadTnode(f: FileStructure, s: WordStream, baseChunk: nat) returns (ok: bool)
    requires f.Valid() && s.Valid()
    modifies f, s`pos
    ensures f.Valid() && s.Valid()
    ensures ok <==> old(f.spare) > 0 && |old(s.Rest())| >= 16 && baseChunk <= MAX_CHUNK_ID
                    && Needed(old(f.at), old(f.topLevel), baseChunk / 16, true) < old(f.spare)
    ensures if ok || old(f.spare) == 0 then OthersKept(old(f.nodes), old(f.at), f.nodes, f.at, NULL)
            else OneLost(old(f.nodes), old(f.at), f.nodes, f.at)
    ensures f.spare + |f.at| == old(f.spare + |f.at|) - if ok || old(f.spare) == 0 then 0 else 1
    ensures Extended(old(f.at), f.at, baseChunk / 16)
    ensures ok ==> f.topLevel == if Tallness(baseChunk / 16) > old(f.topLevel) then Tallness(baseChunk / 16)
        else old(f.topLevel)
    ensures ok ==> s.Rest() == old(s.Rest())[16..]
    ensures !ok ==> f.spare == 0 || |old(s.Rest())| < 16 || baseChunk > MAX_CHUNK_ID
    ensures s.pos == old(s.pos) || s.pos == old(s.pos) + 16
    ensures ok ==> (forall y: nat :: Entry(f.nodes, f.at, y) ==
                      if y / 16 == baseChunk / 16 then old(s.Rest())[y % 16] else old(Entry(f.nodes, f.at, y)))
  {
    hide NoSharing, Links, Standing, InRange, Entry, OthersKept, OneLost, Extended, Needed, Tallness;
    NothingAdded(f.at, baseChunk / 16);
    OthersKeptRefl(f.nodes, f.at);
    var tn;
    ok, tn := FetchTnode(f, s);
    if tn == NULL {
      return;
    }
    ghost var n1 := f.nodes;
    NullIsNoNode(old(f.nodes), old(f.at));
    OthersKeptRefl(n1, f.at);
    if ok {
      var placed := f.AddOrFindLevel0Tnode(baseChunk, tn);
      ok := placed != NULL;
    }
    if ok {
      OthersKeptWithNew(old(f.nodes), old(f.at), n1, f.nodes, f.at, tn);
    } else {
      IsLost(old(f.nodes), old(f.at), n1, f.nodes, f.at, tn);
    }
  }

  lemma OthersKeptWithNew(n0: map<nat, Tnode>, a0: map<Place, nat>, n1: map<nat, Tnode>, n2: map<nat, Tnode>,
          a2: map<Place, nat>, tn: nat)
    requires tn !in n0 && n1.Keys == n0.Keys + {tn} && NULL !in n0 && tn != NULL
    requires forall id | id in n0 :: n1[id] == n0[id]
    requires OthersKept(n1, a0, n2, a2, tn)
    ensures OthersKept(n0, a0, n2, a2, NULL)
  {
  }

  lemma ParseUnfold(words: seq<nat>)
    requires |words| > 0 && words[0] != END_MARKER
    ensures |words| < 17 ==> Parse(words) == Parsed([], false)
    ensures |words| >= 17 ==>
        Parse(words) == Parsed([Rec(words[0], words[1..17])] + Parse(words[17..]).recs, Parse(words[17..]).ended)
  {
  }

  /** One step of the parse. */
  lemma ParseStep(base: nat, rest: seq<nat>)
    requires base != END_MARKER
    ensures |rest| < 16 ==> Parse([base] + rest) == Parsed([], false)
    ensures |rest| >= 16 ==>
        Parse([base] + rest) == Parsed([Rec(base, rest[..16])] + Parse(rest[16..]).recs, Parse(rest[16..]).ended)
  {
    hide Parse;
    var words := [base] + rest;
    ParseUnfold(words);
    if |rest| >= 16 {
      assert words[1..17] == rest[..16] && words[17..] == rest[16..];
    }
  }

  /** After the records in done and the word base: what is still to come. */
  ghost predicate Reading(all: seq<nat>, done: seq<Rec>, base: nat, rest: seq<nat>) {
    && WellFormed(done)
    && all == Flat(done) + [base] + rest
    && Parse(all) == Parsed(done + Parse([base] + rest).recs, Parse([base] + rest).ended)
  }

  lemma ReadingStarts(all: seq<nat>)
    requires |all| > 0
    ensures Reading(all, [], all[0], all[1..])
  {
    assert all == [all[0]] + all[1..];
    assert [] + Parse(all).recs == Parse(all).recs;
  }

  lemma ReadingGoesOn(all: seq<nat>, done: seq<Rec>, base: nat, rest: seq<nat>)
    requires Reading(all, done, base, rest) && base != END_MARKER && |rest| >= 17
    ensures Reading(all, done + [Rec(base, rest[..16])], rest[16], rest[17..])
    ensures WellFormed(done + [Rec(base, rest[..16])])
  {
    hide Parse, Flat, WellFormed;
    var r := Rec(base, rest[..16]);
    ParseStep(base, rest);
    assert [rest[16]] + rest[17..] == rest[16..];
    FlatAdds(done, [r]);
    FlatOne(r);
    MoreIsWellFormed(done, r);
    Regroup(done, r, Parse(rest[16..]).recs);
    Rewords(Flat(done), base, rest);
  }

  lemma MoreIsWellFormed(done: seq<Rec>, r: Rec)
    requires WellFormed(done) && |r.entries| == NTNODES_LEVEL0 && r.base != END_MARKER
    ensures WellFormed(done + [r])
  {
  }

  lemma Regroup(done: seq<Rec>, r: Rec, more: seq<Rec>)
    ensures done + ([r] + more) == done + [r] + more
  {
  }

  lemma Rewords(flat: seq<nat>, base: nat, rest: seq<nat>)
    requires |rest| >= 17
    ensures flat + [base] + rest == (flat + ([base] + rest[..16])) + [rest[16]] + rest[17..]
  {
    assert rest == rest[..16] + [rest[16]] + rest[17..];
  }

  /** The stream breaks off. */
  lemma ReadingBreaks(all: seq<nat>, done: seq<Rec>, base: nat, rest: seq<nat>)
    requires Reading(all, done, base, rest) && base != END_MARKER && |rest| <= 16
    ensures !Parse(all).ended
  {
    ParseStep(base, rest);
  }

  lemma ReadingHasRec(all: seq<nat>, done: seq<Rec>, base: nat, rest: seq<nat>)
    requires Reading(all, done, base, rest) && base != END_MARKER && |rest| >= 16
    ensures Parse(all).ended ==> exists r :: r in Parse(all).recs && r.base == base
  {
    ParseStep(base, rest);
    var r := Rec(base, rest[..16]);
    assert (done + ([r] + Parse(rest[16..]).recs))[|done|] == r;
  }

  lemma ReadingEnds(all: seq<nat>, done: seq<Rec>, rest: seq<nat>)
    requires Reading(all, done, END_MARKER, rest)
    ensures Parse(all) == Parsed(done, true) && all == Flat(done) + [END_MARKER] + rest
  {
    assert done + [] == done;
  }

  lemma AppliedOneMore(done: seq<Rec>, r: Rec, y: nat, init: nat)
    requires WellFormed(done) && |r.entries| == NTNODES_LEVEL0 && r.base != END_MARKER
    ensures WellFormed(done + [r])
    ensures Applied(done + [r], y, init) == if r.base / 16 == y / 16 then r.entries[y % 16] else Applied(done, y, init)
  {
    assert (done + [r])[..|done|] == done;
  }

  /** Why reading may fail: tnodes ran out, the stream breaks off, or a chunk number is too large. */
  ghost predicate MayFail(spare: nat, all: seq<nat>) {
    spare == 0 || !Parse(all).ended || exists r :: r in Parse(all).recs && r.base > MAX_CHUNK_ID
  }

  /** A tree, part of another one that has all the recorded tnodes too, and enough tnodes to spare for that one
      and one to read into. */
  ghost predicate Enough(recs: seq<Rec>, at: map<Place, nat>, spare: nat, large: map<Place, nat>, top: nat) {
    && Standing(large, top) && at.Keys <= large.Keys && (forall r | r in recs :: Place(0, r.base / 16) in large)
    && |large| < spare + |at|
  }

  ghost predicate Loadable(p: Parsed, at: map<Place, nat>, spare: nat) {
    p.ended && (forall r | r in p.recs :: r.base <= MAX_CHUNK_ID) && exists large, top ::
        Enough(p.recs, at, spare, large, top)
  }

  /** The records of a tree fit in a tree that is part of it, as far as there are as many tnodes. */
  lemma OwnRecords(nodes: map<nat, Tnode>, at: map<Place, nat>, top: nat, topLevel: nat, recs: seq<Rec>,
          at': map<Place, nat>, spare: nat)
    requires Tree(nodes, at, top, topLevel) && InRange(at) && recs == Recs(nodes, at, Place(topLevel, 0))
    requires at'.Keys <= at.Keys && |at| < spare + |at'|
    ensures Loadable(Parsed(recs, true), at', spare)
  {
    hide Standing;
    RecsWellFormed(nodes, at, Place(topLevel, 0));
    forall r | r in recs
      ensures Place(0, r.base / 16) in at
    {
      RecsAreBelow(nodes, at, Place(topLevel, 0), r);
      var q :| q in at && q.level == 0 && Under(Place(topLevel, 0), q) && r == RecAt(nodes, at, q);
      assert q == Place(0, r.base / 16);
    }
    assert Enough(recs, at', spare, at, topLevel);
  }

  lemma EnoughMore(recs: seq<Rec>, base: nat, at: map<Place, nat>, topLevel: nat, spare: nat, at': map<Place, nat>,
          topLevel': nat, spare': nat, large: map<Place, nat>, top: nat)
    requires Enough(recs, at, spare, large, top) && Standing(at, topLevel) && exists r :: r in recs && r.base == base
    ensures Needed(at, topLevel, base / 16, true) < spare
    ensures Extended(at, at', base / 16) && Standing(at', topLevel') && spare' + |at'| == spare + |at|
        && topLevel' == (if Tallness(base / 16) > topLevel then Tallness(base / 16) else topLevel)
        ==> Enough(recs, at', spare', large, top)
  {
    hide Standing, Up, Tallness, Extended;
    NeededWithin(at, topLevel, base / 16, true, large, top);
    if Extended(at, at', base / 16) && Standing(at', topLevel')
        && topLevel' == (if Tallness(base / 16) > topLevel then Tallness(base / 16) else topLevel) {
      StillInside(at, at', topLevel', base / 16, large, top);
    }
  }

  lemma StillInside(at: map<Place, nat>, at': map<Place, nat>, topLevel': nat, p: nat, large: map<Place, nat>, top: nat)
    requires at.Keys <= large.Keys && Extended(at, at', p) && Standing(at', topLevel') && topLevel' <= top
    requires Standing(large, top) && Place(0, p) in large
    ensures at'.Keys <= large.Keys
  {
    hide Up, HasParent;
    forall pl | pl in at' && pl !in at
      ensures pl in large
    {
      assert pl.level <= topLevel';
      WayInside(large, top, p, pl.level);
      assert pl == Place(pl.level, pl.prefix);
    }
  }

  /** Read tnodes up to the end marker. Reading fails only for the reasons above, and not for want of tnodes
      where there are enough; else every chunk has the entry the records give it. A tnode is lost if it fails
      while one is being read. */
  method ReadCheckpointTnodes(f: FileStructure, s: WordStream) returns (ok: bool)
    requires f.Valid() && s.Valid()
    modifies f, s`pos
    ensures f.Valid() && s.Valid()
    ensures OthersKept(old(f.nodes), old(f.at), f.nodes, f.at, NULL)
        || (!ok && OneLost(old(f.nodes), old(f.at), f.nodes, f.at))
    ensures ok ==> f.spare + |f.at| == old(f.spare + |f.at|)
    ensures Loadable(Parse(old(s.Rest())), old(f.at), old(f.spare)) ==> ok
    ensures !ok ==> MayFail(f.spare, old(s.Rest()))
    ensures ok ==> Parse(old(s.Rest())).ended && old(s.Rest()) == Flat(Parse(old(s.Rest())).recs) + [END_MARKER] + s.Rest()
    ensures ok ==> forall y: nat ::
        Entry(f.nodes, f.at, y) == Applied(Parse(old(s.Rest())).recs, y, old(Entry(f.nodes, f.at, y)))
  {
    hide NoSharing, Links, Standing, InRange, Entry, OthersKept, Parse, Reading, Flat, WellFormed, Applied, Enough,
        OneLost, Extended, Needed, Tallness;
    ghost var all := s.Rest();
    ghost var done: seq<Rec> := [];
    ghost var enough := Loadable(Parse(all), f.at, f.spare);
    ghost var large, top := f.at, f.topLevel;
    if enough {
      large, top :| Enough(Parse(all).recs, f.at, f.spare, large, top);
    }
    var ws;
    OthersKeptRefl(f.nodes, f.at);
    ok, ws := s.Read(1);
    if !ok {
      NothingToParse(all);
      return;
    }
    var baseChunk := ws[0];
    ReadingStarts(all);
    NothingApplied();
    while ok && baseChunk != END_MARKER
      invariant f.Valid() && s.Valid()
      invariant OthersKept(old(f.nodes), old(f.at), f.nodes, f.at, NULL)
          || (!ok && OneLost(old(f.nodes), old(f.at), f.nodes, f.at))
      invariant if enough then ok && Enough(Parse(all).recs, f.at, f.spare, large, top) else true
      invariant ok ==> f.spare + |f.at| == old(f.spare + |f.at|)
      invariant ok ==> Reading(all, done, baseChunk, s.Rest())
      invariant ok ==> WellFormed(done) && forall y: nat ::
          Entry(f.nodes, f.at, y) == Applied(done, y, old(Entry(f.nodes, f.at, y)))
      invariant !ok ==> MayFail(f.spare, all)
      decreases |s.words| - s.pos, ok
    {
      ghost var rest := s.Rest();
      ghost var (n1, a1) := (f.nodes, f.at);
      ghost var top1, spare1 := f.topLevel, f.spare;
      ok := LoadTnode(f, s, baseChunk);
      KeptLater(old(f.nodes), old(f.at), n1, a1, f.nodes, f.at);
      if enough {
        HasBase(all, done, baseChunk, rest);
        EnoughMore(Parse(all).recs, baseChunk, a1, top1, spare1, f.at, f.topLevel, f.spare, large, top);
      }
      if ok {
        ok, ws := s.Read(1);
        if ok {
          ReadingGoesOn(all, done, baseChunk, rest);
          forall y: nat
            ensures WellFormed(done + [Rec(baseChunk, rest[..16])])
            ensures Entry(f.nodes, f.at, y) == Applied(done + [Rec(baseChunk, rest[..16])], y,
                old(Entry(f.nodes, f.at, y)))
          {
            AppliedOneMore(done, Rec(baseChunk, rest[..16]), y, old(Entry(f.nodes, f.at, y)));
          }
          done := done + [Rec(baseChunk, rest[..16])];
          baseChunk := ws[0];
        } else {
          ReadingBreaks(all, done, baseChunk, rest);
        }
      } else {
        WhyLoadFailed(all, done, baseChunk, rest, f.spare);
      }
    }
    if ok {
      ReadingEnds(all, done, s.Rest());
    }
  }

  lemma KeptLater(n0: map<nat, Tnode>, a0: map<Place, nat>, n1: map<nat, Tnode>, a1: map<Place, nat>,
          n2: map<nat, Tnode>, a2: map<Place, nat>)
    requires NoSharing(n0, a0) && OthersKept(n0, a0, n1, a1, NULL)
    ensures OthersKept(n1, a1, n2, a2, NULL) ==> OthersKept(n0, a0, n2, a2, NULL)
    ensures OneLost(n1, a1, n2, a2) ==> OneLost(n0, a0, n2, a2)
  {
    hide OthersKept, OneLost;
    if OthersKept(n1, a1, n2, a2, NULL) {
      OthersKeptTrans(n0, a0, n1, a1, n2, a2, NULL);
    }
    if OneLost(n1, a1, n2, a2) {
      LostLater(n0, a0, n1, a1, n2, a2);
    }
  }

  /** In a stream that ends well, a record follows. */
  lemma HasBase(all: seq<nat>, done: seq<Rec>, base: nat, rest: seq<nat>)
    requires Reading(all, done, base, rest) && base != END_MARKER && Parse(all).ended
    ensures |rest| >= 16 && exists r :: r in Parse(all).recs && r.base == base
  {
    hide Reading, Parse;
    if |rest| < 16 {
      ReadingBreaks(all, done, base, rest);
    } else {
      ReadingHasRec(all, done, base, rest);
    }
  }

  lemma NothingToParse(all: seq<nat>)
    requires |all| == 0
    ensures !Parse(all).ended
  {
  }

  lemma NothingApplied()
    ensures WellFormed([]) && forall y: nat, init: nat :: Applied([], y, init) == init
  {
  }

  lemma WhyLoadFailed(all: seq<nat>, done: seq<Rec>, base: nat, rest: seq<nat>, spare: nat)
    requires Reading(all, done, base, rest) && base != END_MARKER
    requires spare == 0 || |rest| < 16 || base > MAX_CHUNK_ID
    ensures MayFail(spare, all)
  {
    hide Reading;
    if |rest| < 16 {
      ReadingBreaks(all, done, base, rest);
    } else {
      ReadingHasRec(all, done, base, rest);
    }
  }

  /** A file's tnodes, written to a checkpoint and read into a fresh file, give every chunk the entry it
      had, whatever surrounds them in the stream; only running out of tnodes can get in the way. It does not
      if there are as many to spare as the first file has. */
  method SaveAndRestoreTnodes(a: FileStructure, b: FileStructure, s: WordStream) returns (ok: bool)
    requires a != b && a.Valid() && b.Valid() && s.Valid() && s.pos == |s.words|
    requires forall y: nat :: Entry(b.nodes, b.at, y) == 0
    modifies b, s
    ensures b.Valid() && s.Valid()
    ensures ok ==> (forall y: nat :: Entry(b.nodes, b.at, y) == Entry(a.nodes, a.at, y)) && s.pos == |s.words|
    ensures !ok ==> b.spare == 0
    ensures old(b.at).Keys <= a.at.Keys && |a.at| < old(b.spare + |b.at|) ==> ok
    ensures ok ==> b.spare + |b.at| == old(b.spare + |b.at|)
  {
    hide NoSharing, Links, Standing, InRange, Entry, OthersKept, Parse, Flat, WellFormed, Applied, Recs, Loadable;
    ghost var recs := Recs(a.nodes, a.at, Place(a.topLevel, 0));
    RecsWellFormed(a.nodes, a.at, Place(a.topLevel, 0));
    WriteCheckpointTnodes(a, s);
    assert s.Rest() == Flat(recs) + [END_MARKER] + [];
    ParseFlat(recs, []);
    if b.at.Keys <= a.at.Keys && |a.at| < b.spare + |b.at| {
      OwnRecords(a.nodes, a.at, a.top, a.topLevel, recs, b.at, b.spare);
    }
    ok := ReadCheckpointTnodes(b, s);
    if ok {
      forall y: nat
        ensures Entry(b.nodes, b.at, y) == Entry(a.nodes, a.at, y)
      {
        RecsRebuild(a.nodes, a.at, a.top, a.topLevel, y);
      }
    }
  }
}
