/** The look-up tree of a file: tnodes on up to seven levels lead from a chunk number to its entry. */
module Tnodes {
  const NULL: nat := 0
  const NTNODES_LEVEL0: nat := 16
  const NTNODES_INTERNAL: nat := 8
  const TNODES_MAX_LEVEL: nat := 6
  const MAX_CHUNK_ID: nat := 0xFFFFF

  /** A tnode holds pointers above level 0 and entries on level 0. */
  datatype Tnode = Tnode(internal: seq<nat>, level0: seq<nat>)

  /** A place in the tree: on which level, and for which leading bits of the chunk number. */
  datatype Place = Place(level: nat, prefix: nat)

  function Blank(): Tnode {
    Tnode(seq(NTNODES_INTERNAL, _ => NULL), seq(NTNODES_LEVEL0, _ => 0))
  }

  function Kid(pl: Place, i: nat): Place
    requires pl.level > 0
  {
    Place(pl.level - 1, 8 * pl.prefix + i)
  }

  /** Shift the leading bits p up by k levels of three bits. */
  function Up(p: nat, k: nat): nat
    decreases k
  {
    if k == 0 then p else Up(p, k - 1) / 8
  }

  /** The levels needed above level 0. */
  function Tallness(p: nat): nat {
    if p == 0 then 0 else 1 + Tallness(p / 8)
  }

  lemma {:induction false} UpShift(p: nat, k: nat)
    requires k > 0
    ensures Up(p, k) == Up(p / 8, k - 1)
    decreases k
  {
    if k > 1 {
      UpShift(p, k - 1);
    }
  }

  /** The tree is tall enough exactly when nothing is left of the chunk number above its top. */
  lemma {:induction false} TallEnough(p: nat, k: nat)
    ensures k >= Tallness(p) <==> Up(p, k) == 0
    decreases k
  {
    if k > 0 {
      UpShift(p, k);
      TallEnough(p / 8, k - 1);
    }
  }

  lemma MaxTallness(p: nat)
    requires p <= MAX_CHUNK_ID / NTNODES_LEVEL0
    ensures Tallness(p) <= TNODES_MAX_LEVEL
  {
    assert Up(p, 1) == p / 8 < 8192;
    assert Up(p, 2) < 1024;
    assert Up(p, 3) < 128;
    assert Up(p, 4) < 16;
    assert Up(p, 5) < 2;
    assert Up(p, 6) == 0;
    TallEnough(p, 6);
  }

  /** q lies at or below pl. */
  predicate Under(pl: Place, q: Place) {
    q.level <= pl.level && Up(q.prefix, pl.level - q.level) == pl.prefix
  }

  lemma UnderKid(pl: Place, q: Place, i: nat)
    requires pl.level > 0 && i < 8 && Under(Kid(pl, i), q)
    ensures Under(pl, q) && q != pl && i == Up(q.prefix, pl.level - 1 - q.level) % 8
  {
  }

  lemma WhichKid(pl: Place, q: Place) returns (i: nat)
    requires Under(pl, q) && q != pl
    ensures pl.level > 0 && i < 8 && Under(Kid(pl, i), q) && i == Up(q.prefix, pl.level - 1 - q.level) % 8
  {
    i := Up(q.prefix, pl.level - 1 - q.level) % 8;
  }

  function NodeAt(at: map<Place, nat>, pl: Place): nat {
    if pl in at then at[pl] else NULL
  }

  /** Every tnode in the tree exists, and is there once. */
  ghost predicate NoSharing(nodes: map<nat, Tnode>, at: map<Place, nat>) {
    && NULL !in nodes
    && (forall pl | pl in at :: at[pl] in nodes)
    && (forall a, b | a in at && b in at && a != b :: at[a] != at[b])
    && (forall id | id in nodes :: |nodes[id].internal| == NTNODES_INTERNAL && |nodes[id].level0| == NTNODES_LEVEL0)
  }

  /** The pointers lead from each tnode to exactly the tnodes below it; the pointer to skip is not looked at. */
  ghost predicate LinksBut(nodes: map<nat, Tnode>, at: map<Place, nat>, skip: Place)
    requires NoSharing(nodes, at)
  {
    forall pl, i: nat | pl in at && pl.level > 0 && i < 8 && Kid(pl, i) != skip ::
      nodes[at[pl]].internal[i] == NodeAt(at, Kid(pl, i))
  }

  ghost predicate Links(nodes: map<nat, Tnode>, at: map<Place, nat>)
    requires NoSharing(nodes, at)
  {
    forall pl, i: nat | pl in at && pl.level > 0 && i < 8 :: nodes[at[pl]].internal[i] == NodeAt(at, Kid(pl, i))
  }

  ghost predicate HasParent(at: map<Place, nat>, pl: Place) {
    Place(pl.level + 1, pl.prefix / 8) in at
  }

  lemma KidHasParent(at: map<Place, nat>, pl: Place, i: nat)
    requires pl in at && pl.level > 0 && i < 8
    ensures HasParent(at, Kid(pl, i))
  {
  }

  /** One tree: everything hangs below the top, and the leftmost tnode of every level is there. */
  ghost predicate Standing(at: map<Place, nat>, topLevel: nat) {
    && (forall l: nat | l <= topLevel :: Place(l, 0) in at)
    && (forall pl | pl in at :: pl.level <= topLevel && (pl.level == topLevel ==> pl.prefix == 0))
    && (forall pl | pl in at && pl.level < topLevel :: HasParent(at, pl))
  }

  ghost predicate Tree(nodes: map<nat, Tnode>, at: map<Place, nat>, top: nat, topLevel: nat) {
    && NoSharing(nodes, at)
    && Links(nodes, at)
    && Standing(at, topLevel)
    && topLevel <= TNODES_MAX_LEVEL
    && top == at[Place(topLevel, 0)]
  }

  /** The tree is about chunk numbers that may be. */
  ghost predicate InRange(at: map<Place, nat>) {
    forall pl | pl in at && pl.level == 0 :: 16 * pl.prefix <= MAX_CHUNK_ID
  }

  /** What the tree says about a chunk; no tnode means no chunk. */
  ghost function Entry(nodes: map<nat, Tnode>, at: map<Place, nat>, y: nat): nat
    requires NoSharing(nodes, at)
  {
    if Place(0, y / 16) in at then nodes[at[Place(0, y / 16)]].level0[y % 16] else 0
  }

  /** Whoever is in the tree has all its ancestors there. */
  lemma {:induction false} Ancestors(at: map<Place, nat>, topLevel: nat, pl: Place, k: nat)
    requires Standing(at, topLevel) && pl in at && pl.level + k <= topLevel
    ensures Place(pl.level + k, Up(pl.prefix, k)) in at
    decreases k
  {
    hide Standing, HasParent;
    if k > 0 {
      Ancestors(at, topLevel, pl, k - 1);
      ParentThere(at, topLevel, Place(pl.level + k - 1, Up(pl.prefix, k - 1)));
    }
  }

  lemma ParentThere(at: map<Place, nat>, topLevel: nat, pl: Place)
    requires Standing(at, topLevel) && pl in at && pl.level < topLevel
    ensures Place(pl.level + 1, pl.prefix / 8) in at
  {
    hide HasParent;
    assert HasParent(at, pl);
    ParentIs(at, pl);
  }

  lemma ParentIs(at: map<Place, nat>, pl: Place)
    requires HasParent(at, pl)
    ensures Place(pl.level + 1, pl.prefix / 8) in at
  {
  }

  lemma PlacesAreLow(at: map<Place, nat>, topLevel: nat, pl: Place)
    requires Standing(at, topLevel) && pl in at
    ensures Up(pl.prefix, topLevel - pl.level) == 0 && Under(Place(topLevel, 0), pl)
  {
    hide Standing, Up;
    AtMostTop(at, topLevel, pl);
    Ancestors(at, topLevel, pl, topLevel - pl.level);
    AtMostTop(at, topLevel, Place(topLevel, Up(pl.prefix, topLevel - pl.level)));
  }

  lemma AtMostTop(at: map<Place, nat>, topLevel: nat, pl: Place)
    requires Standing(at, topLevel) && pl in at
    ensures pl.level <= topLevel && (pl.level == topLevel ==> pl.prefix == 0)
  {
  }

  /** A blank tnode tn is put where none was, as child i of the tnode at pl. */
  ghost predicate Planted(nodes: map<nat, Tnode>, at: map<Place, nat>, pl: Place, i: nat, tn: nat,
                          nodes': map<nat, Tnode>, at': map<Place, nat>)
    requires NoSharing(nodes, at)
  {
    && pl in at && pl.level > 0 && i < 8 && Kid(pl, i) !in at
    && tn !in nodes && tn != NULL
    && nodes' == nodes[tn := Blank()][at[pl] := nodes[at[pl]].(internal := nodes[at[pl]].internal[i := tn])]
    && at' == at[Kid(pl, i) := tn]
  }

  lemma IsPlanted(nodes: map<nat, Tnode>, at: map<Place, nat>, pl: Place, i: nat, tn: nat,
                  nodes': map<nat, Tnode>, at': map<Place, nat>)
    requires NoSharing(nodes, at) && pl in at && pl.level > 0 && i < 8 && Kid(pl, i) !in at && tn !in nodes
        && tn != NULL
    requires nodes' == nodes[tn := Blank()][at[pl] := nodes[at[pl]].(internal := nodes[at[pl]].internal[i := tn])]
    requires at' == at[Kid(pl, i) := tn]
    ensures Planted(nodes, at, pl, i, tn, nodes', at')
  {
  }

  lemma PlantedNoSharing(nodes: map<nat, Tnode>, at: map<Place, nat>, pl: Place, i: nat, tn: nat,
                         nodes': map<nat, Tnode>, at': map<Place, nat>)
    requires NoSharing(nodes, at) && Planted(nodes, at, pl, i, tn, nodes', at')
    ensures NoSharing(nodes', at') && nodes'.Keys == nodes.Keys + {tn}
    ensures forall y: nat :: Entry(nodes', at', y) == Entry(nodes, at, y)
  {
  }

  lemma PlantedLinks(nodes: map<nat, Tnode>, at: map<Place, nat>, topLevel: nat, pl: Place, i: nat, tn: nat,
                     nodes': map<nat, Tnode>, at': map<Place, nat>)
    requires NoSharing(nodes, at) && Links(nodes, at) && Standing(at, topLevel)
        && Planted(nodes, at, pl, i, tn, nodes', at')
    requires NoSharing(nodes', at')
    ensures Links(nodes', at')
  {
    NothingBelow(at, topLevel, Kid(pl, i));
    forall q, j: nat | q in at' && q.level > 0 && j < 8
      ensures nodes'[at'[q]].internal[j] == NodeAt(at', Kid(q, j))
    {
      if q == Kid(pl, i) {
        assert Kid(q, j) !in at;
      } else if q == pl {
        assert Kid(q, j) == Kid(pl, i) <==> j == i;
      } else {
        assert Kid(q, j) != Kid(pl, i);
      }
    }
  }

  lemma PlantedStands(at: map<Place, nat>, topLevel: nat, pl: Place, i: nat, tn: nat)
    requires Standing(at, topLevel) && pl in at && pl.level > 0 && i < 8
    ensures Standing(at[Kid(pl, i) := tn], topLevel)
  {
    hide HasParent;
    var at' := at[Kid(pl, i) := tn];
    forall q | q in at' && q.level < topLevel
      ensures HasParent(at', q)
    {
      if q == Kid(pl, i) {
        KidHasParent(at', pl, i);
      } else {
        MoreParents(at, at', q);
      }
    }
  }

  lemma MoreParents(at: map<Place, nat>, at': map<Place, nat>, q: Place)
    requires HasParent(at, q) && at.Keys <= at'.Keys
    ensures HasParent(at', q)
  {
    assert Place(q.level + 1, q.prefix / 8) in at.Keys;
  }

  /** Planting keeps the tree, and every entry. */
  lemma PlantedKid(nodes: map<nat, Tnode>, at: map<Place, nat>, top: nat, topLevel: nat, pl: Place, i: nat, tn: nat,
                   nodes': map<nat, Tnode>, at': map<Place, nat>)
    requires Tree(nodes, at, top, topLevel) && Planted(nodes, at, pl, i, tn, nodes', at')
    ensures Tree(nodes', at', top, topLevel) && nodes'.Keys == nodes.Keys + {tn}
    ensures forall y: nat :: Entry(nodes', at', y) == Entry(nodes, at, y)
  {
    hide NoSharing, Links, Standing, Entry;
    PlantedNoSharing(nodes, at, pl, i, tn, nodes', at');
    PlantedLinks(nodes, at, topLevel, pl, i, tn, nodes', at');
    PlantedStands(at, topLevel, pl, i, tn);
    assert Standing(at, topLevel);
    assert Place(topLevel, 0) != Kid(pl, i) by { Lower(at, topLevel, pl); }
    HasTop(at, topLevel);
  }

  lemma Lower(at: map<Place, nat>, topLevel: nat, pl: Place)
    requires Standing(at, topLevel) && pl in at
    ensures pl.level <= topLevel
  {
  }

  lemma HasTop(at: map<Place, nat>, topLevel: nat)
    requires Standing(at, topLevel)
    ensures Place(topLevel, 0) in at
  {
  }

  /** Below an empty place there is nothing. */
  lemma NothingBelow(at: map<Place, nat>, topLevel: nat, pl: Place)
    requires Standing(at, topLevel) && pl !in at && pl.level < topLevel
    ensures forall j: nat | j < 8 && pl.level > 0 :: Kid(pl, j) !in at
  {
    forall j: nat | j < 8 && pl.level > 0
      ensures Kid(pl, j) !in at
    {
      assert Kid(pl, j).prefix / 8 == pl.prefix;
    }
  }

  /** The top tnode tn is put above the tree. */
  lemma GrownTree(nodes: map<nat, Tnode>, at: map<Place, nat>, top: nat, topLevel: nat, tn: nat,
                  nodes': map<nat, Tnode>, at': map<Place, nat>)
    requires Tree(nodes, at, top, topLevel) && tn !in nodes && tn != NULL && topLevel < TNODES_MAX_LEVEL
    requires nodes' == nodes[tn := Blank().(internal := Blank().internal[0 := top])]
    requires at' == at[Place(topLevel + 1, 0) := tn]
    ensures Tree(nodes', at', tn, topLevel + 1)
    ensures forall y: nat :: Entry(nodes', at', y) == Entry(nodes, at, y)
  {
    hide NoSharing, Links, Standing, Entry;
    GrownStands(at, topLevel, tn);
    GrownNoSharing(nodes, at, topLevel, top, tn, nodes', at');
    GrownLinks(nodes, at, top, topLevel, tn, nodes', at');
  }

  lemma GrownNoSharing(nodes: map<nat, Tnode>, at: map<Place, nat>, topLevel: nat, top: nat, tn: nat,
                       nodes': map<nat, Tnode>, at': map<Place, nat>)
    requires NoSharing(nodes, at) && tn !in nodes && tn != NULL && Place(topLevel + 1, 0) !in at
    requires nodes' == nodes[tn := Blank().(internal := Blank().internal[0 := top])]
    requires at' == at[Place(topLevel + 1, 0) := tn]
    ensures NoSharing(nodes', at')
    ensures forall y: nat :: Entry(nodes', at', y) == Entry(nodes, at, y)
  {
  }

  lemma GrownStands(at: map<Place, nat>, topLevel: nat, tn: nat)
    requires Standing(at, topLevel)
    ensures Standing(at[Place(topLevel + 1, 0) := tn], topLevel + 1)
    ensures Place(topLevel + 1, 0) !in at
  {
    hide HasParent;
    var at' := at[Place(topLevel + 1, 0) := tn];
    forall q | q in at' && q.level < topLevel + 1
      ensures HasParent(at', q)
    {
      if q.level == topLevel {
        assert HasParent(at', Kid(Place(topLevel + 1, 0), 0)) by { KidHasParent(at', Place(topLevel + 1, 0), 0); }
      } else {
        MoreParents(at, at', q);
      }
    }
  }

  lemma GrownLinks(nodes: map<nat, Tnode>, at: map<Place, nat>, top: nat, topLevel: nat, tn: nat,
                   nodes': map<nat, Tnode>, at': map<Place, nat>)
    requires Tree(nodes, at, top, topLevel) && tn !in nodes && tn != NULL
    requires nodes' == nodes[tn := Blank().(internal := Blank().internal[0 := top])]
    requires at' == at[Place(topLevel + 1, 0) := tn]
    requires NoSharing(nodes', at')
    ensures Links(nodes', at')
  {
    hide HasParent;
    forall q, j: nat | q in at' && q.level > 0 && j < 8
      ensures nodes'[at'[q]].internal[j] == NodeAt(at', Kid(q, j))
    {
      if q == Place(topLevel + 1, 0) {
        assert Kid(q, j).level == topLevel && (Kid(q, j).prefix == 0 <==> j == 0);
      } else {
        assert Kid(q, j) != Place(topLevel + 1, 0);
      }
    }
  }

  /** The tnode passed takes the place of child i of the level-1 tnode at pl; what was there is freed. */
  ghost predicate Replaced(nodes: map<nat, Tnode>, at: map<Place, nat>, pl: Place, i: nat, passed: nat,
                           nodes': map<nat, Tnode>, at': map<Place, nat>)
    requires NoSharing(nodes, at)
  {
    && pl in at && pl.level == 1 && i < 8
    && passed in nodes && passed !in at.Values
    && nodes' == nodes[at[pl] := nodes[at[pl]].(internal := nodes[at[pl]].internal[i := passed])] - {NodeAt(at,
        Kid(pl, i))}
    && at' == at[Kid(pl, i) := passed]
  }

  lemma IsReplaced(nodes: map<nat, Tnode>, at: map<Place, nat>, pl: Place, i: nat, passed: nat,
                   nodes': map<nat, Tnode>, at': map<Place, nat>)
    requires NoSharing(nodes, at) && pl in at && pl.level == 1 && i < 8 && passed in nodes && passed !in at.Values
    requires nodes' == nodes[at[pl] := nodes[at[pl]].(internal := nodes[at[pl]].internal[i := passed])]
        - {NodeAt(at, Kid(pl, i))}
    requires at' == at[Kid(pl, i) := passed]
    ensures Replaced(nodes, at, pl, i, passed, nodes', at')
  {
  }

  lemma ReplacedNoSharing(nodes: map<nat, Tnode>, at: map<Place, nat>, pl: Place, i: nat, passed: nat,
                          nodes': map<nat, Tnode>, at': map<Place, nat>)
    requires NoSharing(nodes, at) && Replaced(nodes, at, pl, i, passed, nodes', at')
    ensures NoSharing(nodes', at')
    ensures forall y: nat :: Entry(nodes', at', y) ==
              if y / 16 == Kid(pl, i).prefix then nodes[passed].level0[y % 16] else Entry(nodes, at, y)
  {
    forall q | q in at
      ensures at[q] != passed && (q != Kid(pl, i) ==> at[q] != NodeAt(at, Kid(pl, i)))
    {
      assert at[q] in at.Values;
    }
  }

  lemma ReplacedLinks(nodes: map<nat, Tnode>, at: map<Place, nat>, pl: Place, i: nat, passed: nat,
                      nodes': map<nat, Tnode>, at': map<Place, nat>)
    requires NoSharing(nodes, at) && Links(nodes, at) && Replaced(nodes, at, pl, i, passed, nodes', at')
    requires NoSharing(nodes', at')
    ensures Links(nodes', at')
  {
    forall q, j: nat | q in at' && q.level > 0 && j < 8
      ensures nodes'[at'[q]].internal[j] == NodeAt(at', Kid(q, j))
    {
      if q == pl {
        assert Kid(q, j) == Kid(pl, i) <==> j == i;
      } else {
        assert Kid(q, j) != Kid(pl, i);
        assert at[q] in at.Values;
      }
    }
  }

  lemma ReplacedKid(nodes: map<nat, Tnode>, at: map<Place, nat>, top: nat, topLevel: nat, pl: Place, i: nat,
          passed: nat,
                    nodes': map<nat, Tnode>, at': map<Place, nat>)
    requires Tree(nodes, at, top, topLevel) && Replaced(nodes, at, pl, i, passed, nodes', at')
    ensures Tree(nodes', at', top, topLevel)
    ensures forall y: nat :: Entry(nodes', at', y) ==
              if y / 16 == Kid(pl, i).prefix then nodes[passed].level0[y % 16] else Entry(nodes, at, y)
  {
    hide NoSharing, Links, Standing, Entry;
    ReplacedNoSharing(nodes, at, pl, i, passed, nodes', at');
    ReplacedLinks(nodes, at, pl, i, passed, nodes', at');
    PlantedStands(at, topLevel, pl, i, passed);
    Lower(at, topLevel, pl);
    HasTop(at, topLevel);
  }

  /** The only tnode of a tree of one level takes over what the tnode passed holds, which is freed. */
  lemma CopiedTop(nodes: map<nat, Tnode>, at: map<Place, nat>, top: nat, passed: nat, nodes': map<nat, Tnode>)
    requires Tree(nodes, at, top, 0) && passed in nodes && passed !in at.Values
    requires nodes' == nodes[top := nodes[passed]] - {passed}
    ensures Tree(nodes', at, top, 0)
    ensures forall y: nat :: Entry(nodes', at, y) == if y / 16 == 0 then nodes[passed].level0[y % 16]
        else Entry(nodes, at, y)
  {
    forall q | q in at
      ensures at[q] != passed && q == Place(0, 0)
    {
      assert at[q] in at.Values;
    }
  }

  /** Tnodes of other files, and loose ones, stay as they are, but for one; no other tnode comes loose. */
  ghost predicate OthersKept(nodes: map<nat, Tnode>, at: map<Place, nat>, nodes': map<nat, Tnode>, at': map<Place, nat>,
          but: nat) {
    && (forall id | id in nodes && id !in at.Values && id != but ::
        id in nodes' && nodes'[id] == nodes[id] && id !in at'.Values)
    && (forall id | id in nodes' && id !in at'.Values :: id in nodes && id !in at.Values && (id != but || id == NULL))
  }

  lemma Placed(nodes: map<nat, Tnode>, at: map<Place, nat>, pl: Place)
    requires NoSharing(nodes, at) && pl in at
    ensures at[pl] in nodes && at[pl] != NULL
  {
  }

  lemma Sized(nodes: map<nat, Tnode>, at: map<Place, nat>, id: nat)
    requires NoSharing(nodes, at) && id in nodes
    ensures |nodes[id].internal| == NTNODES_INTERNAL && |nodes[id].level0| == NTNODES_LEVEL0
  {
  }

  lemma OneLess(at: map<Place, nat>, pl: Place)
    requires pl in at
    ensures |at - {pl}| == |at| - 1
  {
    assert (at - {pl}).Keys == at.Keys - {pl};
    assert |at - {pl}| == |(at - {pl}).Keys| && |at| == |at.Keys|;
  }

  lemma ValuesWithout(nodes: map<nat, Tnode>, at: map<Place, nat>, pl: Place)
    requires NoSharing(nodes, at) && pl in at
    ensures (at - {pl}).Values == at.Values - {at[pl]}
  {
    forall id | id in at.Values - {at[pl]}
      ensures id in (at - {pl}).Values
    {
      var q :| q in at && at[q] == id;
      assert (at - {pl})[q] == id;
    }
  }

  lemma OthersKeptAfterPut(nodes: map<nat, Tnode>, at: map<Place, nat>, nodes': map<nat, Tnode>, pl: Place, tn: nat)
    requires tn !in nodes
    requires forall id | id in nodes && id !in at.Values :: id in nodes' && nodes'[id] == nodes[id]
    requires nodes'.Keys == nodes.Keys + {tn} && pl !in at
    ensures OthersKept(nodes, at, nodes', at[pl := tn], NULL)
  {
    assert at[pl := tn][pl] in at[pl := tn].Values;
    forall id | id in at.Values
      ensures id in at[pl := tn].Values
    {
      var q :| q in at && at[q] == id;
      assert at[pl := tn][q] == id;
    }
  }

  lemma OthersKeptTrans(n0: map<nat, Tnode>, a0: map<Place, nat>, n1: map<nat, Tnode>, a1: map<Place, nat>,
                        n2: map<nat, Tnode>, a2: map<Place, nat>, but: nat)
    requires OthersKept(n0, a0, n1, a1, NULL) && OthersKept(n1, a1, n2, a2, but) && NULL !in n0
    ensures OthersKept(n0, a0, n2, a2, but)
  {
  }

  ghost predicate HasData(tn: Tnode) {
    exists j: nat :: j < |tn.level0| && tn.level0[j] != 0
  }

  ghost predicate DataAt(nodes: map<nat, Tnode>, at: map<Place, nat>, r: Place)
    requires NoSharing(nodes, at)
  {
    r in at && r.level == 0 && HasData(nodes[at[r]])
  }

  /** Some chunk has an entry at or below q. */
  ghost predicate Live(nodes: map<nat, Tnode>, at: map<Place, nat>, q: Place)
    requires NoSharing(nodes, at)
  {
    exists r :: DataAt(nodes, at, r) && Under(q, r)
  }

  /** Of the places in done, those stay that are on the left edge or have an entry below; all others stay.
      Those that go are freed. */
  ghost predicate Pruned(n0: map<nat, Tnode>, a0: map<Place, nat>, n1: map<nat, Tnode>, a1: map<Place, nat>,
          done: set<Place>)
    requires NoSharing(n0, a0) && NoSharing(n1, a1)
  {
    && (forall q | q in a1 :: q in a0 && a1[q] == a0[q] && n1[a1[q]].level0 == n0[a0[q]].level0)
    && (forall q | q in a0 :: q in a1 <==> (q !in done || q.prefix == 0 || Live(n0, a0, q)))
    && (forall q | q in a0 && q !in a1 :: a0[q] !in n1)
    && OthersKept(n0, a0, n1, a1, NULL)
    && n1.Keys <= n0.Keys
  }

  /** A place with data stays, so the same places have data below. */
  lemma PrunedData(n0: map<nat, Tnode>, a0: map<Place, nat>, n1: map<nat, Tnode>, a1: map<Place, nat>, done: set<Place>,
          r: Place)
    requires NoSharing(n0, a0) && NoSharing(n1, a1) && Pruned(n0, a0, n1, a1, done)
    ensures DataAt(n1, a1, r) <==> DataAt(n0, a0, r)
  {
    if DataAt(n0, a0, r) {
      assert Under(r, r);
      assert Live(n0, a0, r);
    }
  }

  lemma PrunedLive(n0: map<nat, Tnode>, a0: map<Place, nat>, n1: map<nat, Tnode>, a1: map<Place, nat>, done: set<Place>,
          q: Place)
    requires NoSharing(n0, a0) && NoSharing(n1, a1) && Pruned(n0, a0, n1, a1, done)
    ensures Live(n1, a1, q) <==> Live(n0, a0, q)
  {
    hide NoSharing, Pruned, DataAt, Under;
    if Live(n0, a0, q) {
      var r :| DataAt(n0, a0, r) && Under(q, r);
      PrunedData(n0, a0, n1, a1, done, r);
    }
    if Live(n1, a1, q) {
      var r :| DataAt(n1, a1, r) && Under(q, r);
      PrunedData(n0, a0, n1, a1, done, r);
    }
  }

  /** No entry is lost. */
  lemma PrunedEntry(n0: map<nat, Tnode>, a0: map<Place, nat>, n1: map<nat, Tnode>, a1: map<Place, nat>,
          done: set<Place>, y: nat)
    requires NoSharing(n0, a0) && NoSharing(n1, a1) && Pruned(n0, a0, n1, a1, done)
    ensures Entry(n1, a1, y) == Entry(n0, a0, y)
  {
    PrunedData(n0, a0, n1, a1, done, Place(0, y / 16));
  }

  lemma PrunedNothing(nodes: map<nat, Tnode>, at: map<Place, nat>)
    requires NoSharing(nodes, at)
    ensures Pruned(nodes, at, nodes, at, {})
  {
  }

  lemma PrunedTrans(n0: map<nat, Tnode>, a0: map<Place, nat>, n1: map<nat, Tnode>, a1: map<Place, nat>, d1: set<Place>,
                    n2: map<nat, Tnode>, a2: map<Place, nat>, d2: set<Place>)
    requires NoSharing(n0, a0) && NoSharing(n1, a1) && NoSharing(n2, a2)
    requires Pruned(n0, a0, n1, a1, d1) && Pruned(n1, a1, n2, a2, d2)
    ensures Pruned(n0, a0, n2, a2, d1 + d2)
  {
    hide NoSharing, Live;
    forall q | q in a0
      ensures q in a2 <==> (q !in d1 + d2 || q.prefix == 0 || Live(n0, a0, q))
      ensures q !in a2 ==> a0[q] !in n2
    {
      PrunedLive(n0, a0, n1, a1, d1, q);
    }
    NullIsNoNode(n0, a0);
    OthersKeptTrans(n0, a0, n1, a1, n2, a2, NULL);
  }

  /** The places below the first i children of pl. */
  ghost function DoneBelow(at: map<Place, nat>, pl: Place, i: nat): set<Place> {
    set q | q in at && Under(pl, q) && q != pl && Up(q.prefix, pl.level - 1 - q.level) % 8 < i
  }

  ghost function AllBelow(at: map<Place, nat>, pl: Place): set<Place> {
    set q | q in at && Under(pl, q)
  }

  lemma DoneGrows(a0: map<Place, nat>, pl: Place, i: nat, q: Place)
    requires pl.level > 0 && i < 8 && q in a0
    ensures q in DoneBelow(a0, pl, i + 1) <==> q in DoneBelow(a0, pl, i) || Under(Kid(pl, i), q)
  {
    hide Up;
    if Under(pl, q) && q != pl {
      var j := WhichKid(pl, q);
      if Under(Kid(pl, i), q) {
        UnderKid(pl, q, i);
      }
    } else if Under(Kid(pl, i), q) {
      UnderKid(pl, q, i);
    }
  }

  lemma OneMoreDone(n0: map<nat, Tnode>, a0: map<Place, nat>, n1: map<nat, Tnode>, a1: map<Place, nat>, pl: Place,
          i: nat,
                    n2: map<nat, Tnode>, a2: map<Place, nat>)
    requires NoSharing(n0, a0) && NoSharing(n1, a1) && NoSharing(n2, a2) && pl.level > 0 && i < 8
    requires Pruned(n0, a0, n1, a1, DoneBelow(a0, pl, i)) && Pruned(n1, a1, n2, a2, AllBelow(a1, Kid(pl, i)))
    ensures Pruned(n0, a0, n2, a2, DoneBelow(a0, pl, i + 1))
  {
    hide NoSharing, Live, DoneBelow, Under, OthersKept;
    PrunedTrans(n0, a0, n1, a1, DoneBelow(a0, pl, i), n2, a2, AllBelow(a1, Kid(pl, i)));
    forall q | q in a0
      ensures q in DoneBelow(a0, pl, i + 1) <==> q in DoneBelow(a0, pl, i) || Under(Kid(pl, i), q)
    {
      DoneGrows(a0, pl, i, q);
    }
  }

  /** A place has data below exactly when one of its children has. */
  lemma LiveKid(nodes: map<nat, Tnode>, at: map<Place, nat>, topLevel: nat, pl: Place)
    requires NoSharing(nodes, at) && Standing(at, topLevel) && pl in at && pl.level > 0
    ensures Live(nodes, at, pl) <==> exists i: nat :: i < 8 && Kid(pl, i) in at && Live(nodes, at, Kid(pl, i))
  {
    hide NoSharing, Standing;
    Lower(at, topLevel, pl);
    if Live(nodes, at, pl) {
      var r :| DataAt(nodes, at, r) && Under(pl, r);
      var i := WhichKid(pl, r);
      Ancestors(at, topLevel, r, pl.level - 1 - r.level);
      assert Kid(pl, i) in at && Live(nodes, at, Kid(pl, i));
    }
    if i: nat :| i < 8 && Kid(pl, i) in at && Live(nodes, at, Kid(pl, i)) {
      var r :| DataAt(nodes, at, r) && Under(Kid(pl, i), r);
      UnderKid(pl, r, i);
    }
  }

  lemma LiveLeaf(nodes: map<nat, Tnode>, at: map<Place, nat>, pl: Place)
    requires NoSharing(nodes, at) && pl in at && pl.level == 0
    ensures Live(nodes, at, pl) <==> HasData(nodes[at[pl]])
  {
    assert Under(pl, pl);
    assert HasData(nodes[at[pl]]) ==> DataAt(nodes, at, pl);
  }

  /** A place all of whose children are done stays just when it is on the left edge or a child stayed. */
  lemma StaysWithKid(n0: map<nat, Tnode>, a0: map<Place, nat>, topLevel: nat, n1: map<nat, Tnode>, a1: map<Place, nat>,
          pl: Place)
    requires NoSharing(n0, a0) && NoSharing(n1, a1) && Standing(a0, topLevel) && pl in a0 && pl.level > 0
    requires Pruned(n0, a0, n1, a1, DoneBelow(a0, pl, 8))
    ensures (pl.prefix == 0 || exists i: nat :: i < 8 && Kid(pl, i) in a1) <==> (pl.prefix == 0 || Live(n0, a0, pl))
  {
    hide NoSharing, Standing;
    LiveKid(n0, a0, topLevel, pl);
    forall i: nat | i < 8 && Kid(pl, i) in a0
      ensures Kid(pl, i) in a1 <==> (Kid(pl, i).prefix == 0 || Live(n0, a0, Kid(pl, i)))
    {
      assert Under(Kid(pl, i), Kid(pl, i));
      UnderKid(pl, Kid(pl, i), i);
      assert Kid(pl, i) in DoneBelow(a0, pl, 8);
    }
  }

  /** pl itself stays. */
  lemma PlaceKept(n0: map<nat, Tnode>, a0: map<Place, nat>, n1: map<nat, Tnode>, a1: map<Place, nat>, pl: Place)
    requires NoSharing(n0, a0) && NoSharing(n1, a1) && pl in a0 && (pl.prefix == 0 || Live(n0, a0, pl))
    requires Pruned(n0, a0, n1, a1, DoneBelow(a0, pl, 8))
    ensures Pruned(n0, a0, n1, a1, AllBelow(a0, pl))
  {
    hide NoSharing, Live;
    forall q | q in a0
      ensures q in AllBelow(a0, pl) <==> q in DoneBelow(a0, pl, 8) || q == pl
    {
    }
  }

  /** pl itself goes. */
  lemma PlaceFreed(n0: map<nat, Tnode>, a0: map<Place, nat>, n1: map<nat, Tnode>, a1: map<Place, nat>, pl: Place)
    requires NoSharing(n0, a0) && NoSharing(n1, a1) && pl in a0 && pl in a1 && pl.prefix != 0 && !Live(n0, a0, pl)
    requires Pruned(n0, a0, n1, a1, DoneBelow(a0, pl, 8))
    ensures NoSharing(n1 - {a1[pl]}, a1 - {pl})
    ensures Pruned(n0, a0, n1 - {a1[pl]}, a1 - {pl}, AllBelow(a0, pl))
  {
    hide NoSharing, Live, Under, OthersKept, Pruned, DoneBelow, AllBelow;
    OneFreed(n1, a1, pl);
    FreedPruned(n0, a0, n1, a1, pl);
  }

  lemma FreedPruned(n0: map<nat, Tnode>, a0: map<Place, nat>, n1: map<nat, Tnode>, a1: map<Place, nat>, pl: Place)
    requires NoSharing(n0, a0) && NoSharing(n1, a1) && pl in a0 && pl in a1 && pl.prefix != 0 && !Live(n0, a0, pl)
    requires Pruned(n0, a0, n1, a1, DoneBelow(a0, pl, 8)) && NoSharing(n1 - {a1[pl]}, a1 - {pl})
    requires OthersKept(n1, a1, n1 - {a1[pl]}, a1 - {pl}, NULL)
    requires forall q | q in a1 :: a1[q] in n1 && (q != pl ==> a1[q] != a1[pl])
    ensures Pruned(n0, a0, n1 - {a1[pl]}, a1 - {pl}, AllBelow(a0, pl))
  {
    hide NoSharing, Live, OthersKept, AllBelow, DoneBelow, Under;
    AllOrSelf(a0, pl);
    NullIsNoNode(n0, a0);
    OthersKeptTrans(n0, a0, n1, a1, n1 - {a1[pl]}, a1 - {pl}, NULL);
  }

  lemma AllOrSelf(at: map<Place, nat>, pl: Place)
    requires pl in at
    ensures AllBelow(at, pl) == DoneBelow(at, pl, 8) + {pl}
  {
  }

  lemma OneFreed(nodes: map<nat, Tnode>, at: map<Place, nat>, pl: Place)
    requires NoSharing(nodes, at) && pl in at
    ensures NoSharing(nodes - {at[pl]}, at - {pl})
    ensures OthersKept(nodes, at, nodes - {at[pl]}, at - {pl}, NULL)
    ensures forall q | q in at :: at[q] in nodes && (q != pl ==> at[q] != at[pl])
  {
    assert at[pl] in at.Values;
    ValuesWithout(nodes, at, pl);
  }

  lemma FreedStands(nodes: map<nat, Tnode>, at: map<Place, nat>, topLevel: nat, pl: Place)
    requires NoSharing(nodes, at) && Standing(at, topLevel) && Links(nodes, at) && pl in at && pl.prefix != 0
    requires pl.level > 0 ==> forall i: nat | i < 8 :: Kid(pl, i) !in at
    ensures Standing(at - {pl}, topLevel)
  {
    hide HasParent, NoSharing, Links;
    forall q | q in at - {pl} && q.level < topLevel
      ensures HasParent(at - {pl}, q)
    {
      NotMyParent(at, pl, q);
    }
  }

  lemma NotMyParent(at: map<Place, nat>, pl: Place, q: Place)
    requires q in at && q != pl && HasParent(at, q)
    requires pl.level > 0 ==> forall i: nat | i < 8 :: Kid(pl, i) !in at
    ensures HasParent(at - {pl}, q)
  {
    if pl.level > 0 {
      assert Kid(pl, q.prefix % 8) !in at;
    }
  }

  lemma FreedLinks(nodes: map<nat, Tnode>, at: map<Place, nat>, pl: Place)
    requires NoSharing(nodes, at) && Links(nodes, at) && pl in at && NoSharing(nodes - {at[pl]}, at - {pl})
    ensures LinksBut(nodes - {at[pl]}, at - {pl}, pl)
  {
  }

  lemma Relinked(nodes: map<nat, Tnode>, at: map<Place, nat>, pl: Place, i: nat, kid: nat, nodes': map<nat, Tnode>)
    requires NoSharing(nodes, at) && pl in at && pl.level > 0 && i < 8 && LinksBut(nodes, at, Kid(pl, i))
    requires kid == NodeAt(at, Kid(pl, i))
        && nodes' == nodes[at[pl] := nodes[at[pl]].(internal := nodes[at[pl]].internal[i := kid])]
    ensures NoSharing(nodes', at) && Links(nodes', at)
    ensures Pruned(nodes, at, nodes', at, {})
  {
    assert at[pl] in at.Values;
    forall q, j: nat | q in at && q.level > 0 && j < 8
      ensures nodes'[at[q]].internal[j] == NodeAt(at, Kid(q, j))
    {
      if q == pl && j != i {
        assert Kid(q, j) != Kid(pl, i);
      } else if q != pl {
        assert Kid(q, j) != Kid(pl, i);
      }
    }
  }

  // ----- how many tnodes it takes -----

  /** The tnodes missing on the way to p below level k. None is made on level 0 if one is passed. */
  ghost function Missing(at: map<Place, nat>, p: nat, k: nat, passed: bool): nat
    decreases k
  {
    if k == 0 then 0
        else (if Place(k - 1, Up(p, k - 1)) in at || (k == 1 && passed) then 0 else 1) + Missing(at, p, k - 1, passed)
  }

  /** One for each level that the tree grows by, and those missing on the way down. */
  ghost function Needed(at: map<Place, nat>, topLevel: nat, p: nat, passed: bool): nat {
    if Tallness(p) > topLevel then Tallness(p) - topLevel + Missing(at, p, Tallness(p), passed)
        else Missing(at, p, topLevel, passed)
  }

  /** A tnode that is passed takes the place of the one there. */
  ghost function Freed(at: map<Place, nat>, p: nat, passed: bool): nat {
    if passed && Place(0, p) in at then 1 else 0
  }

  lemma {:induction false} MissingSame(at: map<Place, nat>, at': map<Place, nat>, p: nat, k: nat, passed: bool)
    requires forall l: nat | l < k :: Place(l, Up(p, l)) in at <==> Place(l, Up(p, l)) in at'
    ensures Missing(at, p, k, passed) == Missing(at', p, k, passed)
    decreases k
  {
    if k > 0 {
      MissingSame(at, at', p, k - 1, passed);
    }
  }

  /** The spine above the old top has been added. */
  ghost predicate Taller(at: map<Place, nat>, topLevel: nat, at': map<Place, nat>, topLevel': nat) {
    forall pl :: pl in at' <==> pl in at || (pl.prefix == 0 && topLevel < pl.level <= topLevel')
  }

  /** Tnodes have been added on the way to p and on the left edge only, and none has gone. */
  ghost predicate Extended(at: map<Place, nat>, at': map<Place, nat>, p: nat) {
    && at.Keys <= at'.Keys
    && forall pl | pl in at' && pl !in at :: pl.prefix == 0 || pl.prefix == Up(p, pl.level)
  }

  lemma ExtendedMore(at0: map<Place, nat>, at: map<Place, nat>, at': map<Place, nat>, p: nat)
    requires Extended(at0, at, p) && Extended(at, at', p)
    ensures Extended(at0, at', p)
  {
  }

  lemma ExtendedBy(at: map<Place, nat>, pl: Place, p: nat)
    requires pl.prefix == Up(p, pl.level)
    ensures Extended(at, at, p) && forall at': map<Place, nat> | at'.Keys == at.Keys + {pl} :: Extended(at, at', p)
  {
  }

  lemma ExtendedTaller(at: map<Place, nat>, topLevel: nat, at': map<Place, nat>, topLevel': nat, p: nat)
    requires Taller(at, topLevel, at', topLevel')
    ensures Extended(at, at', p)
  {
  }

  /** Growing adds nothing on the way to p. */
  lemma MissingTaller(at: map<Place, nat>, topLevel: nat, at': map<Place, nat>, topLevel': nat, p: nat, passed: bool)
    requires Taller(at, topLevel, at', topLevel')
    requires topLevel' == if Tallness(p) > topLevel then Tallness(p) else topLevel
    ensures Missing(at', p, topLevel', passed) == Missing(at, p, topLevel', passed)
    ensures Place(0, p) in at' <==> Place(0, p) in at
  {
    forall l: nat | l < topLevel'
      ensures Place(l, Up(p, l)) in at <==> Place(l, Up(p, l)) in at'
    {
      TallEnough(p, l);
    }
    MissingSame(at', at, p, topLevel', passed);
  }

  lemma TallerMore(at0: map<Place, nat>, k: nat, at: map<Place, nat>, topLevel: nat, top: nat)
    requires Taller(at0, k, at, topLevel) && k <= topLevel
    ensures Taller(at0, k, at[Place(topLevel + 1, 0) := top], topLevel + 1)
  {
  }

  lemma TallerNot(at: map<Place, nat>, topLevel: nat)
    ensures Taller(at, topLevel, at, topLevel)
  {
  }

  lemma NoneMissing(at: map<Place, nat>, p: nat, passed: bool)
    ensures Missing(at, p, 0, passed) == 0
  {
  }

  lemma MissingBelow(at: map<Place, nat>, p: nat, k: nat, passed: bool)
    requires k > 0
    ensures Missing(at, p, k, passed) == Missing(at, p, k - 1, passed)
        + if Place(k - 1, Up(p, k - 1)) in at || (k == 1 && passed) then 0 else 1
  {
  }

  /** The places on the way to p below level k where there is no tnode, and those the tree grows by from
      topLevel to t. */
  ghost function Gaps(at: map<Place, nat>, p: nat, k: nat): (s: set<Place>)
    ensures forall pl | pl in s :: pl.level < k && pl.prefix == Up(p, pl.level) && pl !in at
    decreases k
  {
    if k == 0 then {}
        else Gaps(at, p, k - 1) + if Place(k - 1, Up(p, k - 1)) in at then {} else {Place(k - 1, Up(p, k - 1))}
  }

  ghost function Spine(topLevel: nat, t: nat): (s: set<Place>)
    ensures forall pl | pl in s :: topLevel < pl.level <= t && pl.prefix == 0
    decreases t
  {
    if t <= topLevel then {} else Spine(topLevel, t - 1) + {Place(t, 0)}
  }

  lemma {:induction false} GapsMissing(at: map<Place, nat>, p: nat, k: nat, passed: bool)
    ensures Missing(at, p, k, passed) <= |Gaps(at, p, k)|
    decreases k
  {
    hide Up;
    if k > 0 {
      GapsMissing(at, p, k - 1, passed);
      assert Place(k - 1, Up(p, k - 1)) !in Gaps(at, p, k - 1);
    }
  }

  lemma {:induction false} SpineSize(topLevel: nat, t: nat)
    requires topLevel <= t
    ensures |Spine(topLevel, t)| == t - topLevel
    decreases t
  {
    if topLevel < t {
      SpineSize(topLevel, t - 1);
    }
  }

  lemma ThreeParts(a: set<Place>, b: set<Place>, c: set<Place>, d: set<Place>)
    requires a !! b && a !! c && b !! c && a <= d && b <= d && c <= d
    ensures |a| + |b| + |c| <= |d|
  {
    assert |a + b| == |a| + |b|;
    assert |a + b + c| == |a + b| + |c|;
    assert d == (a + b + c) + (d - (a + b + c));
  }

  lemma Inside(at: map<Place, nat>, topLevel: nat, large: map<Place, nat>, top: nat)
    requires Standing(at, topLevel) && Standing(large, top) && at.Keys <= large.Keys
    ensures topLevel <= top
    ensures forall l: nat | l <= top :: Place(l, 0) in large
    ensures forall l: nat | topLevel < l :: Place(l, 0) !in at
  {
    hide HasParent;
    assert Place(topLevel, 0) in large;
  }

  lemma WayInside(large: map<Place, nat>, top: nat, p: nat, l: nat)
    requires Standing(large, top) && Place(0, p) in large && l <= top
    ensures Place(l, Up(p, l)) in large
  {
    hide Standing;
    Ancestors(large, top, Place(0, p), l);
  }

  /** A tree that is part of a larger one, with p in it, lacks no more tnodes than it has less than that. */
  lemma NeededWithin(at: map<Place, nat>, topLevel: nat, p: nat, passed: bool, large: map<Place, nat>, top: nat)
    requires Standing(at, topLevel) && Standing(large, top) && Place(0, p) in large && at.Keys <= large.Keys
    ensures Needed(at, topLevel, p, passed) <= |large| - |at| && Tallness(p) <= top && topLevel <= top
  {
    hide HasParent, Up, Gaps, Spine, Missing, Tallness, Standing;
    PlacesAreLow(large, top, Place(0, p));
    TallEnough(p, top);
    Inside(at, topLevel, large, top);
    var t := if Tallness(p) > topLevel then Tallness(p) else topLevel;
    GapsMissing(at, p, t, passed);
    SpineSize(topLevel, t);
    forall pl | pl in Gaps(at, p, t)
      ensures pl in large && pl !in Spine(topLevel, t)
    {
      WayInside(large, top, p, pl.level);
      TallEnough(p, pl.level);
    }
    forall pl | pl in Spine(topLevel, t)
      ensures pl in large && pl !in at
    {
      assert pl == Place(pl.level, 0);
    }
    ThreeParts(Gaps(at, p, t), Spine(topLevel, t), at.Keys, large.Keys);
    assert |large| == |large.Keys| && |at| == |at.Keys|;
  }

  class FileStructure {
    var nodes: map<nat, Tnode>
    var nextId: nat
    var spare: nat
    var top: nat
    var topLevel: nat
    ghost var at: map<Place, nat>

    ghost predicate Valid()
      reads this
    {
      && Tree(nodes, at, top, topLevel) && InRange(at) && nextId > NULL && (forall id | id in nodes :: id < nextId)
    }

    /** A file starts with one blank level-0 tnode. */
    constructor (tnodes: map<nat, Tnode>, unusedId: nat, allocatable: nat)
      requires NULL < unusedId && NULL !in tnodes && forall id | id in tnodes :: id < unusedId
      requires forall id | id in tnodes ::
          |tnodes[id].internal| == NTNODES_INTERNAL && |tnodes[id].level0| == NTNODES_LEVEL0
      ensures Valid() && spare == allocatable && topLevel == 0
      ensures nodes == tnodes[top := Blank()] && top !in tnodes
      ensures forall y: nat :: Entry(nodes, at, y) == 0
    {
      nodes := tnodes[unusedId := Blank()];
      nextId := unusedId + 1;
      spare := allocatable;
      top := unusedId;
      topLevel := 0;
      at := map[Place(0, 0) := unusedId];
      new;
      hide Entry, Tree, InRange;
      FirstTnode(tnodes, unusedId, nodes, at);
    }

    static lemma FirstTnode(tnodes: map<nat, Tnode>, id: nat, nodes: map<nat, Tnode>, at: map<Place, nat>)
      requires NULL < id && NULL !in tnodes && id !in tnodes
      requires forall id | id in tnodes ::
          |tnodes[id].internal| == NTNODES_INTERNAL && |tnodes[id].level0| == NTNODES_LEVEL0
      requires nodes == tnodes[id := Blank()] && at == map[Place(0, 0) := id]
      ensures Tree(nodes, at, id, 0) && InRange(at) && NoSharing(nodes, at)
      ensures forall y: nat :: Entry(nodes, at, y) == 0
    {
    }

    /** A fresh blank tnode, while the allocator has any. */
    method GetTnode() returns (tn: nat)
      requires nextId > NULL && forall id | id in nodes :: id < nextId
      modifies `nodes, `nextId, `spare
      ensures tn == NULL <==> old(spare) == 0
      ensures tn == NULL ==> nodes == old(nodes) && spare == 0
      ensures tn != NULL ==> tn !in old(nodes) && nodes == old(nodes)[tn := Blank()] && spare == old(spare) - 1
      ensures nextId > NULL && forall id | id in nodes :: id < nextId
    {
      if spare == 0 {
        return NULL;
      }
      tn := nextId;
      nodes := nodes[tn := Blank()];
      nextId := nextId + 1;
      spare := spare - 1;
    }

    method FreeTnode(tn: nat)
      modifies `nodes, `spare
      ensures nodes == old(nodes) - {tn} && spare == old(spare) + 1
    {
      nodes := nodes - {tn};
      spare := spare + 1;
    }

    /** The level-0 tnode for a chunk, if the tree has one. */
    method FindLevel0Tnode(chunkId: nat) returns (tn: nat)
      requires Valid()
      ensures tn == if chunkId <= MAX_CHUNK_ID then NodeAt(at, Place(0, chunkId / 16)) else NULL
    {
      hide Standing, Tallness, Entry;
      if chunkId > MAX_CHUNK_ID {
        return NULL;
      }
      var requiredTallness := RequiredTallness(chunkId);
      if requiredTallness > topLevel {
        NotTallEnough(nodes, at, top, topLevel, chunkId);
        return NULL;
      }
      TallEnough(chunkId / 16, topLevel);
      HasTop(at, topLevel);
      tn := top;
      var level := topLevel;
      while level > 0 && tn != NULL
        invariant 0 <= level <= topLevel && tn == NodeAt(at, Place(level, Up(chunkId / 16, level)))
      {
        ghost var pl := Place(level, Up(chunkId / 16, level));
        assert Kid(pl, Up(chunkId / 16, level - 1) % 8) == Place(level - 1, Up(chunkId / 16, level - 1));
        tn := nodes[tn].internal[Up(chunkId / 16, level - 1) % 8];
        level := level - 1;
      }
      if tn == NULL && Place(0, chunkId / 16) in at {
        Ancestors(at, topLevel, Place(0, chunkId / 16), level);
      }
    }

    method RequiredTallness(chunkId: nat) returns (required: nat)
      ensures required == Tallness(chunkId / 16)
    {
      var i := chunkId / 16;
      required := 0;
      while i != 0
        invariant 0 <= i && 0 <= required && required + Tallness(i) == Tallness(chunkId / 16)
      {
        i := i / 8;
        required := required + 1;
      }
    }

    /** Make the tree taller, one tnode at a time. */
    method Grow(requiredTallness: nat) returns (ok: bool)
      requires Valid() && requiredTallness <= TNODES_MAX_LEVEL
      modifies this
      ensures Valid() && OthersKept(old(nodes), old(at), nodes, at, NULL)
      ensures ok ==> topLevel == if requiredTallness > old(topLevel) then requiredTallness else old(topLevel)
      ensures ok <==> requiredTallness <= old(topLevel) + old(spare)
      ensures spare + |at| == old(spare + |at|)
      ensures if ok then spare + topLevel == old(spare) + old(topLevel) else spare == 0
      ensures Taller(old(at), old(topLevel), at, topLevel)
      ensures forall y: nat :: Entry(nodes, at, y) == old(Entry(nodes, at, y))
    {
      hide NoSharing, Links, Standing, Entry, OthersKept, Taller, InRange;
      OthersKeptRefl(nodes, at);
      TallerNot(at, topLevel);
      while topLevel < requiredTallness
        invariant Valid() && OthersKept(old(nodes), old(at), nodes, at, NULL)
        invariant old(topLevel) <= topLevel && (topLevel <= requiredTallness || topLevel == old(topLevel))
        invariant spare + |at| == old(spare + |at|)
        invariant spare + topLevel == old(spare) + old(topLevel) && Taller(old(at), old(topLevel), at, topLevel)
        invariant forall y: nat :: Entry(nodes, at, y) == old(Entry(nodes, at, y))
      {
        ghost var (n1, a1) := (nodes, at);
        ok := GrowOne();
        NullIsNoNode(old(nodes), old(at));
        OthersKeptTrans(old(nodes), old(at), n1, a1, nodes, at, NULL);
        if !ok {
          return;
        }
        TallerMore(old(at), old(topLevel), a1, topLevel - 1, top);
      }
      ok := true;
    }

    method GrowOne() returns (ok: bool)
      requires Valid() && topLevel < TNODES_MAX_LEVEL
      modifies this
      ensures Valid() && OthersKept(old(nodes), old(at), nodes, at, NULL)
      ensures topLevel == old(topLevel) + if ok then 1 else 0
      ensures ok <==> old(spare) > 0
      ensures spare + |at| == old(spare + |at|)
      ensures ok ==> spare == old(spare) - 1
      ensures ok ==> at == old(at)[Place(topLevel, 0) := top]
      ensures !ok ==> spare == 0 && at == old(at)
      ensures forall y: nat :: Entry(nodes, at, y) == old(Entry(nodes, at, y))
    {
      hide Tree, Entry, OthersKept, InRange, Blank;
      BlankSize();
      var tn := GetTnode();
      if tn == NULL {
        OthersKeptRefl(nodes, at);
        return false;
      }
      nodes := nodes[tn := nodes[tn].(internal := nodes[tn].internal[0 := top])];
      AboveTop(old(nodes), at, top, topLevel);
      RangeKept(at, Place(topLevel + 1, 0), tn);
      ghost var at' := at[Place(topLevel + 1, 0) := tn];
      GrownTree(old(nodes), at, top, topLevel, tn, nodes, at');
      OthersKeptAfterPut(old(nodes), at, nodes, Place(topLevel + 1, 0), tn);
      top, topLevel, at := tn, topLevel + 1, at';
      ok := true;
    }

    static lemma BlankSize()
      ensures |Blank().internal| == NTNODES_INTERNAL
    {
    }

    static lemma AboveTop(nodes: map<nat, Tnode>, at: map<Place, nat>, top: nat, topLevel: nat)
      requires Tree(nodes, at, top, topLevel)
      ensures Place(topLevel + 1, 0) !in at
    {
    }

    /** Hang a fresh tnode below the one at pl. */
    method AddKid(tn: nat, i: nat, ghost pl: Place) returns (kid: nat)
      requires Valid() && pl in at && at[pl] == tn && pl.level > 0 && i < 8 && Kid(pl, i) !in at
      requires pl.level == 1 ==> 16 * Kid(pl, i).prefix <= MAX_CHUNK_ID
      modifies this
      ensures Valid() && OthersKept(old(nodes), old(at), nodes, at, NULL) && topLevel == old(topLevel)
      ensures kid == NULL <==> old(spare) == 0
      ensures spare + |at| == old(spare + |at|)
      ensures kid == NULL ==> spare == 0 && at == old(at)
      ensures kid != NULL ==> at == old(at)[Kid(pl, i) := kid] && spare == old(spare) - 1
      ensures forall y: nat :: Entry(nodes, at, y) == old(Entry(nodes, at, y))
    {
      hide NoSharing, Links, Standing, InRange, Entry, OthersKept, Planted;
      Distinct(nodes, at, pl, Kid(pl, i));
      NullIsNoNode(nodes, at);
      kid := GetTnode();
      if kid == NULL {
        OthersKeptRefl(nodes, at);
        return;
      }
      nodes := nodes[tn := nodes[tn].(internal := nodes[tn].internal[i := kid])];
      ghost var at' := at[Kid(pl, i) := kid];
      assert nodes == old(nodes)[kid := Blank()][tn := old(nodes)[tn].(internal := old(nodes)[tn].internal[i := kid])];
      IsPlanted(old(nodes), at, pl, i, kid, nodes, at');
      PlantedKid(old(nodes), at, top, topLevel, pl, i, kid, nodes, at');
      RangeKept(at, Kid(pl, i), kid);
      PlacedIsNotOther(at, pl);
      OthersKeptAfterPut(old(nodes), at, nodes, Kid(pl, i), kid);
      at := at';
    }

    /** Hang the tnode passed below the level-1 tnode at pl; one that is there is released. */
    method PlugIn(tn: nat, i: nat, passedTn: nat, ghost pl: Place)
      requires Valid() && pl in at && at[pl] == tn && pl.level == 1 && i < 8
      requires 16 * Kid(pl, i).prefix <= MAX_CHUNK_ID && passedTn in nodes && passedTn !in at.Values
      modifies this
      ensures Valid() && OthersKept(old(nodes), old(at), nodes, at, passedTn) && topLevel == old(topLevel)
      ensures at == old(at)[Kid(pl, i) := passedTn] && nodes[tn].internal[i] == passedTn
      ensures spare + |at| == old(spare + |at|) + 1
      ensures spare == old(spare) + if Kid(pl, i) in old(at) then 1 else 0
      ensures forall y: nat :: Entry(nodes, at, y) ==
                if y / 16 == Kid(pl, i).prefix then old(nodes)[passedTn].level0[y % 16] else old(Entry(nodes, at, y))
    {
      hide Standing, Entry, OthersKept, InRange, NoSharing, Links;
      ghost var at' := at[Kid(pl, i) := passedTn];
      assert at[pl] in at.Values && Kid(pl, i) != pl;
      LinkIs(nodes, at, pl, i);
      NullIsNoNode(nodes, at);
      Distinct(nodes, at, pl, Kid(pl, i));
      if nodes[tn].internal[i] != NULL {
        FreeTnode(nodes[tn].internal[i]);
      }
      assert nodes == old(nodes) - {NodeAt(at, Kid(pl, i))};
      nodes := nodes[tn := nodes[tn].(internal := nodes[tn].internal[i := passedTn])];
      PluggedIn(old(nodes), at, top, topLevel, pl, i, passedTn, nodes, at');
      at := at';
    }

    static lemma PluggedIn(n0: map<nat, Tnode>, at: map<Place, nat>, top: nat, topLevel: nat, pl: Place, i: nat,
            passed: nat, nodes: map<nat, Tnode>, at': map<Place, nat>)
      requires Tree(n0, at, top, topLevel) && InRange(at) && pl in at && pl.level == 1 && i < 8
      requires 16 * Kid(pl, i).prefix <= MAX_CHUNK_ID && passed in n0 && passed !in at.Values
      requires at[pl] in n0 && at[pl] != NodeAt(at, Kid(pl, i)) && |n0[at[pl]].internal| == NTNODES_INTERNAL
      requires nodes == (n0 - {NodeAt(at,
          Kid(pl, i))})[at[pl] := n0[at[pl]].(internal := n0[at[pl]].internal[i := passed])]
      requires at' == at[Kid(pl, i) := passed]
      ensures Tree(nodes, at', top, topLevel) && InRange(at') && OthersKept(n0, at, nodes, at', passed)
      ensures forall y: nat :: Entry(nodes, at', y) ==
                if y / 16 == Kid(pl, i).prefix then n0[passed].level0[y % 16] else Entry(n0, at, y)
    {
      hide Standing, Entry, OthersKept, InRange, NoSharing, Links, Replaced;
      assert nodes == n0[at[pl] := n0[at[pl]].(internal := n0[at[pl]].internal[i := passed])] - {NodeAt(at,
          Kid(pl, i))};
      IsReplaced(n0, at, pl, i, passed, nodes, at');
      ReplacedKid(n0, at, top, topLevel, pl, i, passed, nodes, at');
      ReplacedKeepsOthers(n0, at, pl, i, passed, nodes, at');
      RangeKept(at, Kid(pl, i), passed);
    }

    /** One level down towards chunkId, adding what is missing. */
    method StepDown(chunkId: nat, passedTn: nat, tn: nat, l: nat) returns (kid: nat)
      requires Valid() && chunkId <= MAX_CHUNK_ID && 0 < l && Place(l, Up(chunkId / 16, l)) in at
          && at[Place(l, Up(chunkId / 16, l))] == tn
      requires passedTn != NULL ==> passedTn in nodes && passedTn !in at.Values
      modifies this
      ensures Valid() && topLevel == old(topLevel)
      ensures OthersKept(old(nodes), old(at), nodes, at, if l > 1 || kid == NULL then NULL else passedTn)
      ensures var here := Place(l - 1, Up(chunkId / 16, l - 1));
              && (kid == NULL <==> here !in old(at) && !(l == 1 && passedTn != NULL) && old(spare) == 0)
              && (kid == NULL ==> spare == 0)
              && (kid != NULL ==> spare == old(spare) + if l == 1 && passedTn != NULL
                                       then if here in old(at) then 1 else 0
                                       else if here in old(at) then 0 else -1)
      ensures forall q: Place | q.level < l - 1 :: q in at <==> q in old(at)
      ensures spare + |at| == old(spare + |at|) + if l > 1 || kid == NULL || passedTn == NULL then 0 else 1
      ensures Extended(old(at), at, chunkId / 16)
      ensures kid != NULL ==>
          Place(l - 1, Up(chunkId / 16, l - 1)) in at && at[Place(l - 1, Up(chunkId / 16, l - 1))] == kid
      ensures forall y: nat :: Entry(nodes, at, y) ==
                if l > 1 || kid == NULL || passedTn == NULL || y / 16 != chunkId / 16 then old(Entry(nodes, at, y))
                else old(nodes)[passedTn].level0[y % 16]
    {
      hide Standing, Entry, OthersKept, InRange, Extended;
      ghost var pl := Place(l, Up(chunkId / 16, l));
      var i := Up(chunkId / 16, l - 1) % 8;
      assert Kid(pl, i) == Place(l - 1, Up(chunkId / 16, l - 1));
      assert nodes[tn].internal[i] == NodeAt(at, Kid(pl, i));
      ExtendedBy(at, Kid(pl, i), chunkId / 16);
      if l > 1 && nodes[tn].internal[i] == NULL {
        kid := AddKid(tn, i, pl);
      } else if l == 1 && passedTn != NULL {
        PlugIn(tn, i, passedTn, pl);
        kid := passedTn;
      } else if l == 1 && nodes[tn].internal[i] == NULL {
        kid := AddKid(tn, i, pl);
      } else {
        OthersKeptRefl(nodes, at);
        kid := nodes[tn].internal[i];
        Placed(nodes, at, Kid(pl, i));
      }
    }

    /** From the top down to level 0. */
    method Descend(chunkId: nat, passedTn: nat) returns (tn: nat)
      requires Valid() && chunkId <= MAX_CHUNK_ID && Up(chunkId / 16, topLevel) == 0
      requires passedTn != NULL ==> passedTn in nodes && passedTn !in at.Values
      modifies this
      ensures Valid() && topLevel == old(topLevel)
      ensures OthersKept(old(nodes), old(at), nodes, at, if tn == NULL then NULL else passedTn)
      ensures Extended(old(at), at, chunkId / 16)
      ensures tn == NULL <==> Missing(old(at), chunkId / 16, topLevel, passedTn != NULL) > old(spare)
      ensures spare + |at| == old(spare + |at|) + if tn == NULL || passedTn == NULL then 0 else 1
      ensures tn == NULL ==> spare == 0
      ensures tn != NULL ==> spare == old(spare) + Freed(old(at), chunkId / 16, passedTn != NULL)
                                      - Missing(old(at), chunkId / 16, topLevel, passedTn != NULL)
      ensures tn != NULL ==> Place(0, chunkId / 16) in at && at[Place(0, chunkId / 16)] == tn
      ensures forall y: nat :: Entry(nodes, at, y) ==
                if tn == NULL || passedTn == NULL || y / 16 != chunkId / 16 then old(Entry(nodes, at, y))
                else old(nodes)[passedTn].level0[y % 16]
    {
      hide Standing, Entry, OthersKept, Links, NoSharing, InRange, Missing;
      HasTop(at, topLevel);
      OthersKeptRefl(nodes, at);
      NullIsNoNode(nodes, at);
      Placed(nodes, at, Place(topLevel, 0));
      NoneMissing(at, chunkId / 16, passedTn != NULL);
      if passedTn != NULL {
        Sized(nodes, at, passedTn);
      }
      tn := top;
      var l := topLevel;
      if l == 0 {
        if passedTn != NULL {
          CopyToTop(passedTn);
        }
        return;
      }
      while l > 0
        invariant 0 <= l <= topLevel && Valid() && topLevel == old(topLevel)
        invariant Place(l, Up(chunkId / 16, l)) in at && at[Place(l, Up(chunkId / 16, l))] == tn
        invariant OthersKept(old(nodes), old(at), nodes, at, if l > 0 then NULL else passedTn)
        invariant forall y: nat :: Entry(nodes, at, y) ==
                    if l > 0 || passedTn == NULL || y / 16 != chunkId / 16 then old(Entry(nodes, at, y))
                    else old(nodes)[passedTn].level0[y % 16]
        invariant tn != NULL && (forall q: Place | q.level < l :: q in at <==> q in old(at))
        invariant spare + |at| == old(spare + |at|) + if l > 0 || passedTn == NULL then 0 else 1
        invariant Extended(old(at), at, chunkId / 16)
        invariant spare == old(spare) - Missing(old(at), chunkId / 16, topLevel, passedTn != NULL)
                    + Missing(old(at), chunkId / 16, l, passedTn != NULL)
                    + (if l == 0 then Freed(old(at), chunkId / 16, passedTn != NULL) else 0)
        invariant Missing(old(at), chunkId / 16, topLevel, passedTn != NULL)
            <= old(spare) + Missing(old(at), chunkId / 16, l, passedTn != NULL)
      {
        MissingBelow(old(at), chunkId / 16, l, passedTn != NULL);
        ghost var (nodes0, at0) := (nodes, at);
        LooseStaysLoose(old(nodes), old(at), nodes, at, passedTn);
        tn := StepDown(chunkId, passedTn, tn, l);
        NullIsNoNode(old(nodes), old(at));
        OthersKeptTrans(old(nodes), old(at), nodes0, at0, nodes, at, if l > 1 || tn == NULL then NULL else passedTn);
        ExtendedMore(old(at), at0, at, chunkId / 16);
        l := l - 1;
        if tn == NULL {
          return;
        }
      }
    }

    method CopyToTop(passedTn: nat)
      requires Valid() && topLevel == 0 && passedTn in nodes && passedTn !in at.Values
      modifies this
      ensures Valid() && topLevel == 0 && at == old(at) && top == old(top) && spare == old(spare) + 1
      ensures OthersKept(old(nodes), old(at), nodes, at, passedTn)
      ensures forall y: nat :: Entry(nodes, at, y) ==
                if y / 16 == 0 then old(nodes)[passedTn].level0[y % 16] else old(Entry(nodes, at, y))
    {
      assert at[Place(0, 0)] in at.Values;
      nodes := nodes[top := nodes[passedTn]];
      FreeTnode(passedTn);
      CopiedTop(old(nodes), at, top, passedTn, nodes);
    }

    /** The level-0 tnode for a chunk, made if need be: the tree is made taller, then tnodes are added on
        the way down. A tnode passed in takes the place of the one there. No entry outside that one tnode
        changes, and none at all changes when tnodes run out half-way. They run out exactly when there are fewer
        than the tree lacks, and just as many are used. */
    method AddOrFindLevel0Tnode(chunkId: nat, passedTn: nat) returns (tn: nat)
      requires Valid()
      requires passedTn != NULL ==> passedTn in nodes && passedTn !in at.Values
      modifies this
      ensures Valid()
      ensures OthersKept(old(nodes), old(at), nodes, at, if tn == NULL then NULL else passedTn)
      ensures chunkId > MAX_CHUNK_ID ==> tn == NULL && nodes == old(nodes) && at == old(at)
      ensures chunkId <= MAX_CHUNK_ID ==>
          (tn != NULL <==> Needed(old(at), old(topLevel), chunkId / 16, passedTn != NULL) <= old(spare))
      ensures chunkId <= MAX_CHUNK_ID && tn == NULL ==> spare == 0
      ensures Extended(old(at), at, chunkId / 16)
      ensures spare + |at| == old(spare + |at|) + if tn == NULL || passedTn == NULL then 0 else 1
      ensures tn != NULL ==> spare == old(spare) + Freed(old(at), chunkId / 16, passedTn != NULL)
                                      - Needed(old(at), old(topLevel), chunkId / 16, passedTn != NULL)
      ensures tn != NULL ==> Place(0, chunkId / 16) in at && at[Place(0, chunkId / 16)] == tn
      ensures tn != NULL ==> topLevel == if Tallness(chunkId / 16) > old(topLevel) then Tallness(chunkId / 16)
          else old(topLevel)
      ensures forall y: nat :: Entry(nodes, at, y) ==
                if tn == NULL || passedTn == NULL || y / 16 != chunkId / 16 then old(Entry(nodes, at, y))
                else old(nodes)[passedTn].level0[y % 16]
    {
      hide Standing, Entry, OthersKept, NoSharing, Links, Missing, Taller;
      if chunkId > MAX_CHUNK_ID {
        OthersKeptRefl(nodes, at);
        return NULL;
      }
      var requiredTallness := RequiredTallness(chunkId);
      MaxTallness(chunkId / 16);
      var ok := Grow(requiredTallness);
      ExtendedTaller(old(at), old(topLevel), at, topLevel, chunkId / 16);
      if !ok {
        return NULL;
      }
      ghost var (nodes0, at0) := (nodes, at);
      TallEnough(chunkId / 16, topLevel);
      MissingTaller(old(at), old(topLevel), at, topLevel, chunkId / 16, passedTn != NULL);
      LooseStaysLoose(old(nodes), old(at), nodes, at, passedTn);
      tn := Descend(chunkId, passedTn);
      NullIsNoNode(old(nodes), old(at));
      OthersKeptTrans(old(nodes), old(at), nodes0, at0, nodes, at, if tn == NULL then NULL else passedTn);
      ExtendedMore(old(at), at0, at, chunkId / 16);
    }

    /** Prune below the tnode tn, and tn itself if nothing is left of it, unless it is on the left edge. */
    method PruneWorker(tn: nat, level: nat, del0: bool, ghost pl: Place) returns (r: nat)
      requires NoSharing(nodes, at) && Links(nodes, at) && Standing(at, topLevel)
      requires pl in at && at[pl] == tn && pl.level == level && (del0 <==> pl.prefix != 0)
      modifies `nodes, `spare, `at
      ensures spare + |at| == old(spare + |at|)
      ensures NoSharing(nodes, at) && LinksBut(nodes, at, pl) && Standing(at, topLevel)
      ensures r == NodeAt(at, pl)
      ensures Pruned(old(nodes), old(at), nodes, at, AllBelow(old(at), pl))
      decreases level, 2
    {
      hide NoSharing, Links, LinksBut, Standing, Pruned, Live, AllBelow, Under, Up;
      var hasData := PruneBelow(tn, level, del0, pl);
      if hasData == 0 && del0 {
        PlaceFreed(old(nodes), old(at), nodes, at, pl);
        FreedStands(nodes, at, topLevel, pl);
        FreedLinks(nodes, at, pl);
        FreeTnode(tn);
        OneLess(at, pl);
        at := at - {pl};
        return NULL;
      }
      PlaceKept(old(nodes), old(at), nodes, at, pl);
      LinksAreLinks(nodes, at, pl);
      r := tn;
    }

    /** The tnodes below tn, counting those that stay; on level 0, whether there is an entry. */
    method PruneBelow(tn: nat, level: nat, del0: bool, ghost pl: Place) returns (hasData: nat)
      requires NoSharing(nodes, at) && Links(nodes, at) && Standing(at, topLevel)
      requires pl in at && at[pl] == tn && pl.level == level && (del0 <==> pl.prefix != 0)
      modifies `nodes, `spare, `at
      ensures spare + |at| == old(spare + |at|)
      ensures NoSharing(nodes, at) && Links(nodes, at) && Standing(at, topLevel)
      ensures pl in at && at[pl] == tn
      ensures Pruned(old(nodes), old(at), nodes, at, DoneBelow(old(at), pl, 8))
      ensures (hasData == 0 && del0) <==> (pl.prefix != 0 && !Live(old(nodes), old(at), pl))
      ensures hasData == 0 && level > 0 ==> forall i: nat | i < 8 :: Kid(pl, i) !in at
      decreases level, 1
    {
      hide Links, LinksBut, Standing, Pruned, Live, AllBelow, Under, Up, DoneBelow;
      hasData := 0;
      PrunedNothing(nodes, at);
      NoneDone(at, pl);
      if level > 0 {
        var i := 0;
        while i < NTNODES_INTERNAL
          invariant 0 <= i <= 8
          invariant NoSharing(nodes, at) && Links(nodes, at) && Standing(at, topLevel)
          invariant spare + |at| == old(spare + |at|)
          invariant pl in at && at[pl] == tn
          invariant Pruned(old(nodes), old(at), nodes, at, DoneBelow(old(at), pl, i))
          invariant hasData > 0 <==> exists j: nat :: j < i && Kid(pl, j) in at
        {
          ghost var (n1, a1) := (nodes, at);
          PruneKid(tn, level, i, del0, pl);
          OneMoreDone(old(nodes), old(at), n1, a1, pl, i, nodes, at);
          if nodes[tn].internal[i] != NULL {
            hasData := hasData + 1;
          }
          i := i + 1;
        }
        StaysWithKid(old(nodes), old(at), topLevel, nodes, at, pl);
      } else {
        hasData := CountData(nodes[tn].level0);
        LiveLeaf(nodes, at, pl);
        AllDoneAtLeaf(at, pl);
      }
    }

    method CountData(entries: seq<nat>) returns (hasData: nat)
      ensures hasData > 0 <==> exists j: nat :: j < |entries| && entries[j] != 0
    {
      hasData := 0;
      var i := 0;
      while hasData == 0 && i < |entries|
        invariant 0 <= i <= |entries|
        invariant hasData > 0 <==> exists j: nat :: j < i && entries[j] != 0
      {
        if entries[i] != 0 {
          hasData := hasData + 1;
        }
        i := i + 1;
      }
    }

    /** Child i of tn, if there is one. */
    method PruneKid(tn: nat, level: nat, i: nat, del0: bool, ghost pl: Place)
      requires NoSharing(nodes, at) && Links(nodes, at) && Standing(at, topLevel)
      requires pl in at && at[pl] == tn && pl.level == level > 0 && (del0 <==> pl.prefix != 0) && i < 8
      modifies `nodes, `spare, `at
      ensures spare + |at| == old(spare + |at|)
      ensures NoSharing(nodes, at) && Links(nodes, at) && Standing(at, topLevel)
      ensures pl in at && at[pl] == tn
      ensures Pruned(old(nodes), old(at), nodes, at, AllBelow(old(at), Kid(pl, i)))
      ensures nodes[tn].internal[i] != NULL <==> Kid(pl, i) in at
      ensures forall j: nat | j < i :: Kid(pl, j) in at <==> Kid(pl, j) in old(at)
      decreases level, 0
    {
      hide Links, LinksBut, Standing, Pruned, Live, AllBelow;
      LinkIs(nodes, at, pl, i);
      if nodes[tn].internal[i] != NULL {
        var kid := PruneWorker(nodes[tn].internal[i], level - 1, if i == 0 then del0 else true, Kid(pl, i));
        KeptBeside(old(nodes), old(at), nodes, at, pl, i);
        ghost var n1 := nodes;
        nodes := nodes[tn := nodes[tn].(internal := nodes[tn].internal[i := kid])];
        Relinked(n1, at, pl, i, kid, nodes);
        PrunedTrans(old(nodes), old(at), n1, at, AllBelow(old(at), Kid(pl, i)), nodes, at, {});
        assert AllBelow(old(at), Kid(pl, i)) + {} == AllBelow(old(at), Kid(pl, i));
        LinkIs(nodes, at, pl, i);
      } else {
        Lower(at, topLevel, pl);
        NothingUnder(nodes, at, topLevel, Kid(pl, i));
        PrunedNothing(nodes, at);
      }
    }

    /** Prune the tree, then make it as low as it can be. */
    method PruneFileStructure()
      requires Valid()
      modifies this
      ensures Valid() && OthersKept(old(nodes), old(at), nodes, at, NULL)
      ensures forall y: nat :: Entry(nodes, at, y) == old(Entry(nodes, at, y))
      ensures topLevel <= old(topLevel)
      ensures topLevel > 0 ==> exists y: nat :: Entry(nodes, at, y) != 0 && Tallness(y / 16) == topLevel
      ensures topLevel > 0 ==> forall q | q in at :: q.prefix == 0 || Live(nodes, at, q)
      ensures spare + |at| == old(spare + |at|)
    {
      hide NoSharing, Links, LinksBut, Standing, Pruned, Live, AllBelow, Under, Up, Entry, OthersKept, Tallness;
      OthersKeptRefl(nodes, at);
      if topLevel > 0 {
        ghost var pl := Place(topLevel, 0);
        HasTop(at, topLevel);
        top := PruneWorker(top, topLevel, false, pl);
        PrunedTree(old(nodes), old(at), old(top), topLevel, nodes, at);
        ghost var (n1, a1) := (nodes, at);
        Shorten();
        NullIsNoNode(old(nodes), old(at));
        OthersKeptTrans(old(nodes), old(at), n1, a1, nodes, at, NULL);
      }
    }

    /** Drop top tnodes that only lead to their child 0. */
    method Shorten()
      requires Valid() && forall q | q in at :: q.prefix == 0 || Live(nodes, at, q)
      modifies this
      ensures Valid() && OthersKept(old(nodes), old(at), nodes, at, NULL)
      ensures forall y: nat :: Entry(nodes, at, y) == old(Entry(nodes, at, y))
      ensures topLevel <= old(topLevel) && spare + |at| == old(spare + |at|)
      ensures topLevel > 0 ==> exists y: nat :: Entry(nodes, at, y) != 0 && Tallness(y / 16) == topLevel
      ensures forall q | q in at :: q.prefix == 0 || Live(nodes, at, q)
    {
      hide NoSharing, Links, Standing, Live, Entry, OthersKept, Tallness;
      OthersKeptRefl(nodes, at);
      var done := false;
      while topLevel > 0 && !done
        invariant Valid() && OthersKept(old(nodes), old(at), nodes, at, NULL) && topLevel <= old(topLevel)
        invariant forall y: nat :: Entry(nodes, at, y) == old(Entry(nodes, at, y))
        invariant spare + |at| == old(spare + |at|)
        invariant forall q | q in at :: q.prefix == 0 || Live(nodes, at, q)
        invariant done ==> exists y: nat :: Entry(nodes, at, y) != 0 && Tallness(y / 16) == topLevel
        decreases topLevel, !done
      {
        HasTop(at, topLevel);
        var hasData := CountSide(top, Place(topLevel, 0));
        if hasData == 0 {
          ghost var (n1, a1) := (nodes, at);
          DropTop();
          NullIsNoNode(old(nodes), old(at));
          OthersKeptTrans(old(nodes), old(at), n1, a1, nodes, at, NULL);
        } else {
          var y := NeedsTop(nodes, at, top, topLevel);
          done := true;
        }
      }
    }

    /** How many children besides child 0. */
    method CountSide(tn: nat, ghost pl: Place) returns (hasData: nat)
      requires Valid() && pl in at && at[pl] == tn && pl.level > 0
      ensures hasData > 0 <==> exists i: nat :: 1 <= i < 8 && Kid(pl, i) in at
    {
      hide NoSharing, Links, Standing, InRange;
      Distinct(nodes, at, pl, Place(pl.level + 1, 0));
      hasData := 0;
      var i := 1;
      while i < NTNODES_INTERNAL
        invariant 1 <= i <= 8
        invariant hasData > 0 <==> exists j: nat :: 1 <= j < i && Kid(pl, j) in at
      {
        LinkIs(nodes, at, pl, i);
        if nodes[tn].internal[i] != NULL {
          hasData := hasData + 1;
        }
        i := i + 1;
      }
    }

    method DropTop()
      requires Valid() && topLevel > 0 && forall i: nat | 1 <= i < 8 :: Kid(Place(topLevel, 0), i) !in at
      requires forall q | q in at :: q.prefix == 0 || Live(nodes, at, q)
      modifies this
      ensures Valid() && OthersKept(old(nodes), old(at), nodes, at, NULL) && topLevel == old(topLevel) - 1
      ensures spare + |at| == old(spare + |at|)
      ensures forall y: nat :: Entry(nodes, at, y) == old(Entry(nodes, at, y))
      ensures forall q | q in at :: q.prefix == 0 || Live(nodes, at, q)
    {
      hide NoSharing, Links, Standing, Live, Entry, OthersKept;
      var tn := top;
      DroppedTop(nodes, at, top, topLevel);
      top := nodes[tn].internal[0];
      topLevel := topLevel - 1;
      HasTop(old(at), old(topLevel));
      OneLess(at, Place(topLevel + 1, 0));
      at := at - {Place(topLevel + 1, 0)};
      FreeTnode(tn);
    }
  }

  lemma DroppedTop(nodes: map<nat, Tnode>, at: map<Place, nat>, top: nat, topLevel: nat)
    requires Tree(nodes, at, top, topLevel) && topLevel > 0 && forall i: nat | 1 <= i < 8 ::
        Kid(Place(topLevel, 0), i) !in at
    ensures top in nodes && |nodes[top].internal| == NTNODES_INTERNAL
    ensures Tree(nodes - {top}, at - {Place(topLevel, 0)}, nodes[top].internal[0], topLevel - 1)
    ensures OthersKept(nodes, at, nodes - {top}, at - {Place(topLevel, 0)}, NULL)
    ensures forall y: nat :: Entry(nodes - {top}, at - {Place(topLevel, 0)}, y) == Entry(nodes, at, y)
    ensures forall q :: Live(nodes - {top}, at - {Place(topLevel, 0)}, q) <==> Live(nodes, at, q)
  {
    hide NoSharing, Links, Standing, Entry, OthersKept, Live;
    HasTop(at, topLevel);
    LinkIs(nodes, at, Place(topLevel, 0), 0);
    Distinct(nodes, at, Place(topLevel, 0), Place(topLevel + 1, 0));
    DroppedNoSharing(nodes, at, Place(topLevel, 0));
    DroppedStands(at, topLevel);
    HasTop(at - {Place(topLevel, 0)}, topLevel - 1);
    DroppedLinks(nodes, at, top, topLevel);
    forall q
      ensures Live(nodes - {top}, at - {Place(topLevel, 0)}, q) <==> Live(nodes, at, q)
    {
      DroppedLive(nodes, at, top, topLevel, q);
    }
  }

  lemma DroppedNoSharing(nodes: map<nat, Tnode>, at: map<Place, nat>, pl: Place)
    requires NoSharing(nodes, at) && pl in at && pl.level > 0
    ensures NoSharing(nodes - {at[pl]}, at - {pl})
    ensures OthersKept(nodes, at, nodes - {at[pl]}, at - {pl}, NULL)
    ensures forall y: nat :: Entry(nodes - {at[pl]}, at - {pl}, y) == Entry(nodes, at, y)
  {
    assert at[pl] in at.Values;
    ValuesWithout(nodes, at, pl);
  }

  lemma DroppedLinks(nodes: map<nat, Tnode>, at: map<Place, nat>, top: nat, topLevel: nat)
    requires Tree(nodes, at, top, topLevel) && topLevel > 0 && NoSharing(nodes - {top}, at - {Place(topLevel, 0)})
    ensures Links(nodes - {top}, at - {Place(topLevel, 0)})
  {
    hide HasParent;
    forall q, j: nat | q in at - {Place(topLevel, 0)} && q.level > 0 && j < 8
      ensures (nodes - {top})[at[q]].internal[j] == NodeAt(at - {Place(topLevel, 0)}, Kid(q, j))
    {
      assert Kid(q, j) != Place(topLevel, 0);
    }
  }

  lemma DroppedStands(at: map<Place, nat>, topLevel: nat)
    requires Standing(at, topLevel) && topLevel > 0 && forall i: nat | 1 <= i < 8 :: Kid(Place(topLevel, 0), i) !in at
    ensures Standing(at - {Place(topLevel, 0)}, topLevel - 1)
  {
    hide HasParent;
    var a1 := at - {Place(topLevel, 0)};
    forall q | q in a1
      ensures q.level <= topLevel - 1
      ensures q.level == topLevel - 1 ==> q.prefix == 0
      ensures q.level < topLevel - 1 ==> HasParent(a1, q)
    {
      if q.level == topLevel - 1 {
        BelowTop(at, topLevel, q);
        assert q == Kid(Place(topLevel, 0), q.prefix);
      } else {
        OtherParent(at, q, Place(topLevel, 0));
      }
    }
  }

  lemma BelowTop(at: map<Place, nat>, topLevel: nat, q: Place)
    requires Standing(at, topLevel) && q in at && q.level + 1 == topLevel
    ensures q.prefix < 8
  {
  }

  lemma OtherParent(at: map<Place, nat>, q: Place, pl: Place)
    requires HasParent(at, q) && q.level + 1 != pl.level
    ensures HasParent(at - {pl}, q)
  {
  }

  lemma DroppedLive(nodes: map<nat, Tnode>, at: map<Place, nat>, top: nat, topLevel: nat, q: Place)
    requires Tree(nodes, at, top, topLevel) && topLevel > 0 && NoSharing(nodes - {top}, at - {Place(topLevel, 0)})
    ensures Live(nodes - {top}, at - {Place(topLevel, 0)}, q) <==> Live(nodes, at, q)
  {
    hide Standing, Links, HasData, Under;
    var n1, a1 := nodes - {top}, at - {Place(topLevel, 0)};
    forall r
      ensures DataAt(n1, a1, r) <==> DataAt(nodes, at, r)
    {
    }
  }

  /** After the worker has been over the whole tree it is a tree still, with all its entries. */
  lemma PrunedTree(n0: map<nat, Tnode>, a0: map<Place, nat>, top: nat, topLevel: nat, n1: map<nat, Tnode>,
          a1: map<Place, nat>)
    requires Tree(n0, a0, top, topLevel) && NoSharing(n1, a1) && LinksBut(n1, a1, Place(topLevel, 0))
        && Standing(a1, topLevel)
    requires Pruned(n0, a0, n1, a1, AllBelow(a0, Place(topLevel, 0))) && InRange(a0)
    ensures InRange(a1)
    ensures Tree(n1, a1, NodeAt(a1, Place(topLevel, 0)), topLevel)
    ensures OthersKept(n0, a0, n1, a1, NULL) && n1.Keys <= n0.Keys
    ensures forall y: nat :: Entry(n1, a1, y) == Entry(n0, a0, y)
    ensures forall q | q in a1 :: q.prefix == 0 || Live(n1, a1, q)
  {
    hide NoSharing, Live, HasParent, Entry, OthersKept;
    forall y: nat
      ensures Entry(n1, a1, y) == Entry(n0, a0, y)
    {
      PrunedEntry(n0, a0, n1, a1, AllBelow(a0, Place(topLevel, 0)), y);
    }
    forall q | q in a1
      ensures q.prefix == 0 || Live(n1, a1, q)
    {
      PlacesAreLow(a0, topLevel, q);
      PrunedLive(n0, a0, n1, a1, AllBelow(a0, Place(topLevel, 0)), q);
    }
    WholeLinks(n1, a1, topLevel);
  }

  lemma WholeLinks(nodes: map<nat, Tnode>, at: map<Place, nat>, topLevel: nat)
    requires NoSharing(nodes, at) && LinksBut(nodes, at, Place(topLevel, 0)) && Standing(at, topLevel)
    ensures Links(nodes, at)
  {
    hide HasParent, NoSharing;
  }

  /** With a second child below the top, some chunk needs the top. */
  lemma NeedsTop(nodes: map<nat, Tnode>, at: map<Place, nat>, top: nat, topLevel: nat) returns (y: nat)
    requires Tree(nodes, at, top, topLevel) && topLevel > 0
    requires forall q | q in at :: q.prefix == 0 || Live(nodes, at, q)
    requires exists i: nat :: 1 <= i < 8 && Kid(Place(topLevel, 0), i) in at
    ensures Entry(nodes, at, y) != 0 && Tallness(y / 16) == topLevel
  {
    hide Standing, Links, NoSharing, Tallness, DataAt, Under, Entry;
    var i: nat :| 1 <= i < 8 && Kid(Place(topLevel, 0), i) in at;
    var r :| DataAt(nodes, at, r) && Under(Kid(Place(topLevel, 0), i), r);
    y := SomeEntry(nodes, at, r);
    TallAs(topLevel, i, r);
  }

  lemma SomeEntry(nodes: map<nat, Tnode>, at: map<Place, nat>, r: Place) returns (y: nat)
    requires NoSharing(nodes, at) && DataAt(nodes, at, r)
    ensures Entry(nodes, at, y) != 0 && y / 16 == r.prefix && r.level == 0
  {
    var j: nat :| j < 16 && nodes[at[r]].level0[j] != 0;
    y := 16 * r.prefix + j;
    assert y / 16 == r.prefix && y % 16 == j && r == Place(0, r.prefix);
  }

  lemma TallAs(topLevel: nat, i: nat, r: Place)
    requires topLevel > 0 && 1 <= i < 8 && r.level == 0 && Under(Kid(Place(topLevel, 0), i), r)
    ensures Tallness(r.prefix) == topLevel
  {
    hide Tallness;
    TallEnough(r.prefix, topLevel - 1);
    TallEnough(r.prefix, topLevel);
  }

  lemma Distinct(nodes: map<nat, Tnode>, at: map<Place, nat>, a: Place, b: Place)
    requires NoSharing(nodes, at) && a in at && a != b
    ensures at[a] in nodes && at[a] != NULL && NodeAt(at, b) != at[a]
    ensures |nodes[at[a]].internal| == NTNODES_INTERNAL
  {
  }

  lemma RangeKept(at: map<Place, nat>, pl: Place, tn: nat)
    requires InRange(at) && (pl.level == 0 ==> 16 * pl.prefix <= MAX_CHUNK_ID)
    ensures InRange(at[pl := tn])
  {
  }

  lemma LinksAreLinks(nodes: map<nat, Tnode>, at: map<Place, nat>, pl: Place)
    requires NoSharing(nodes, at) && Links(nodes, at)
    ensures LinksBut(nodes, at, pl)
  {
  }

  lemma LinkIs(nodes: map<nat, Tnode>, at: map<Place, nat>, pl: Place, i: nat)
    requires NoSharing(nodes, at) && Links(nodes, at) && pl in at && pl.level > 0 && i < 8
    ensures nodes[at[pl]].internal[i] == NodeAt(at, Kid(pl, i))
    ensures nodes[at[pl]].internal[i] != NULL <==> Kid(pl, i) in at
  {
  }

  lemma NoneDone(at: map<Place, nat>, pl: Place)
    ensures DoneBelow(at, pl, 0) == {}
  {
  }

  lemma AllDoneAtLeaf(at: map<Place, nat>, pl: Place)
    requires pl.level == 0
    ensures DoneBelow(at, pl, 8) == {}
  {
  }

  lemma NothingUnder(nodes: map<nat, Tnode>, at: map<Place, nat>, topLevel: nat, pl: Place)
    requires Standing(at, topLevel) && pl !in at && pl.level < topLevel
    ensures AllBelow(at, pl) == {}
  {
    hide Standing;
    forall q | q in at
      ensures !Under(pl, q)
    {
      if Under(pl, q) {
        Lower(at, topLevel, q);
        Ancestors(at, topLevel, q, pl.level - q.level);
      }
    }
  }

  /** Pruning one child leaves its parent and the other children alone. */
  lemma KeptBeside(n0: map<nat, Tnode>, a0: map<Place, nat>, n1: map<nat, Tnode>, a1: map<Place, nat>, pl: Place,
          i: nat)
    requires NoSharing(n0, a0) && NoSharing(n1, a1) && pl in a0 && pl.level > 0 && i < 8
    requires Pruned(n0, a0, n1, a1, AllBelow(a0, Kid(pl, i)))
    ensures pl in a1 && a1[pl] == a0[pl]
    ensures forall j: nat | j < 8 && j != i :: Kid(pl, j) in a1 <==> Kid(pl, j) in a0
  {
    assert !Under(Kid(pl, i), pl);
    forall j: nat | j < 8 && j != i
      ensures Kid(pl, j) in a1 <==> Kid(pl, j) in a0
    {
      assert !Under(Kid(pl, i), Kid(pl, j));
    }
  }

  lemma NullIsNoNode(nodes: map<nat, Tnode>, at: map<Place, nat>)
    requires NoSharing(nodes, at)
    ensures NULL !in nodes
  {
  }

  lemma PlacedIsNotOther(at: map<Place, nat>, pl: Place)
    requires pl in at
    ensures at[pl] in at.Values
  {
  }

  lemma LooseStaysLoose(nodes: map<nat, Tnode>, at: map<Place, nat>, nodes': map<nat, Tnode>, at': map<Place, nat>,
          id: nat)
    requires OthersKept(nodes, at, nodes', at', NULL)
    ensures id != NULL && id in nodes && id !in at.Values ==>
        id in nodes' && id !in at'.Values && nodes'[id] == nodes[id]
  {
  }

  lemma ReplacedKeepsOthers(nodes: map<nat, Tnode>, at: map<Place, nat>, pl: Place, i: nat, passed: nat,
                            nodes': map<nat, Tnode>, at': map<Place, nat>)
    requires NoSharing(nodes, at) && Replaced(nodes, at, pl, i, passed, nodes', at')
    ensures OthersKept(nodes, at, nodes', at', passed)
  {
    assert at[pl] in at.Values;
    assert Kid(pl, i) in at ==> at[Kid(pl, i)] in at.Values;
    assert at'[Kid(pl, i)] in at'.Values;
    forall id | id in at.Values && (Kid(pl, i) !in at || id != at[Kid(pl, i)])
      ensures id in at'.Values
    {
      var q :| q in at && at[q] == id;
      assert at'[q] == id;
    }
  }

  lemma OthersKeptRefl(nodes: map<nat, Tnode>, at: map<Place, nat>)
    ensures OthersKept(nodes, at, nodes, at, NULL)
  {
  }

  lemma NotTallEnough(nodes: map<nat, Tnode>, at: map<Place, nat>, top: nat, topLevel: nat, chunkId: nat)
    requires Tree(nodes, at, top, topLevel) && Tallness(chunkId / 16) > topLevel
    ensures Place(0, chunkId / 16) !in at
  {
    TallEnough(chunkId / 16, topLevel);
    if Place(0, chunkId / 16) in at {
      PlacesAreLow(at, topLevel, Place(0, chunkId / 16));
    }
  }
}
