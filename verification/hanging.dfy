/** After a mount every object must be found somewhere: those that hang loose go to lost+found. */
module Hanging {
  import opened Records

  datatype Node = Node(isDir: bool, parent: nat)

  const NONE: nat := 0

  /** The directories at the top of the object tree; they have no parent. */
  predicate HasNullParent(x: nat) {
    x == ROOT || x == UNLINKED || x == DELETED
  }

  /** x is k parent links below the root, all of them through directories. */
  ghost predicate Chain(objs: map<nat, Node>, x: nat, k: nat)
    decreases k
  {
    x in objs && if k == 0 then x == ROOT
                 else x != ROOT && objs[x].parent in objs && objs[objs[x].parent].isDir && Chain(objs, objs[x].parent, k - 1)
  }

  ghost predicate Rooted(objs: map<nat, Node>, x: nat) {
    exists k: nat :: Chain(objs, x, k)
  }

  /** x is where an object may be. */
  ghost predicate InPlace(objs: map<nat, Node>, x: nat)
    requires x in objs
  {
    HasNullParent(x) || objs[x].parent == UNLINKED || objs[x].parent == DELETED || Rooted(objs, x)
  }

  /** The special directories are as they are always kept, and parents are objects. */
  ghost predicate Special(objs: map<nat, Node>) {
    && ROOT in objs && LOSTNFOUND in objs && UNLINKED in objs && DELETED in objs && NONE !in objs
    && objs[ROOT] == Node(true, NONE) && objs[UNLINKED] == Node(true, NONE) && objs[DELETED] == Node(true, NONE)
    && objs[LOSTNFOUND] == Node(true, ROOT)
    && forall x | x in objs :: objs[x].parent == NONE || objs[x].parent in objs
  }

  function ToLostAndFound(objs: map<nat, Node>, y: nat): map<nat, Node>
    requires y in objs
  {
    objs[y := objs[y].(parent := LOSTNFOUND)]
  }

  lemma LostAndFoundRooted(objs: map<nat, Node>)
    requires Special(objs)
    ensures Chain(objs, ROOT, 0) && Chain(objs, LOSTNFOUND, 1)
  {
  }

  /** Moving one object to lost+found takes the root from nobody: what hung below it goes with it. */
  lemma {:induction false} MoveKeepsRooted(objs: map<nat, Node>, y: nat, x: nat, k: nat)
    requires Special(objs) && y in objs && y != LOSTNFOUND && !HasNullParent(y) && Chain(objs, x, k)
    ensures Special(ToLostAndFound(objs, y)) && Rooted(ToLostAndFound(objs, y), x)
    decreases k
  {
    var objs' := ToLostAndFound(objs, y);
    LostAndFoundRooted(objs');
    if x == y {
      assert Chain(objs', y, 2);
    } else if k == 0 {
      assert Chain(objs', x, 0);
    } else {
      MoveKeepsRooted(objs, y, objs[x].parent, k - 1);
      var m: nat :| Chain(objs', objs[x].parent, m);
      assert Chain(objs', x, m + 1);
    }
  }

  lemma MovedIsRooted(objs: map<nat, Node>, y: nat)
    requires Special(objs) && y in objs && y != LOSTNFOUND && !HasNullParent(y)
    ensures Special(ToLostAndFound(objs, y)) && Rooted(ToLostAndFound(objs, y), y)
  {
    LostAndFoundRooted(ToLostAndFound(objs, y));
    assert Chain(ToLostAndFound(objs, y), y, 2);
  }

  const DEPTH_LIMIT: nat := 100

  /** Near enough to the root for the check to see it. */
  ghost predicate Shallow(objs: map<nat, Node>, x: nat) {
    exists k: nat :: k <= 101 && Chain(objs, x, k)
  }

  /** A way to the root that no moved object is on stays. */
  lemma {:induction false} ShallowStays(objs: map<nat, Node>, y: nat, x: nat, k: nat)
    requires y in objs && Chain(objs, x, k) && k <= 101 && !Shallow(objs, y)
    ensures Chain(ToLostAndFound(objs, y), x, k)
    decreases k
  {
    assert x != y;
    if k > 0 {
      ShallowStays(objs, y, objs[x].parent, k - 1);
    }
  }

  /** Who may not be moved: what lies directly under a top directory or near the root, and the top itself. */
  ghost predicate Untouchable(objs: map<nat, Node>, x: nat)
    requires x in objs
  {
    HasNullParent(x) || objs[x].parent == UNLINKED || objs[x].parent == DELETED || Shallow(objs, x)
  }

  /** No way to the root is lost, and the short ones are as they were. */
  ghost predicate KeepsRoots(objs: map<nat, Node>, objs': map<nat, Node>) {
    && (forall x | Rooted(objs, x) :: Rooted(objs', x))
    && (forall x, k: nat | k <= 101 && Chain(objs, x, k) :: Chain(objs', x, k))
  }

  lemma KeepsRootsSelf(objs: map<nat, Node>)
    ensures KeepsRoots(objs, objs)
  {
  }

  lemma KeepsRootsTrans(a: map<nat, Node>, b: map<nat, Node>, c: map<nat, Node>)
    requires KeepsRoots(a, b) && KeepsRoots(b, c)
    ensures KeepsRoots(a, c)
  {
    hide Chain, Rooted;
  }

  /** What may still not be moved: an object not moved so far that might be moved now might have been
      from the start. */
  lemma UntouchableStays(a: map<nat, Node>, b: map<nat, Node>, x: nat)
    requires KeepsRoots(a, b) && x in a && x in b && !Untouchable(b, x)
    requires b[x] == a[x] || (b[x] == a[x].(parent := LOSTNFOUND) && !Untouchable(a, x))
    ensures !Untouchable(a, x)
  {
    hide Chain;
  }

  /** The objects of the row that may be moved when their turn comes have been moved. */
  ghost function Swept(objs: map<nat, Node>, order: seq<nat>): (r: map<nat, Node>)
    requires forall x | x in order :: x in objs
    ensures r.Keys == objs.Keys
    decreases |order|
  {
    if order == [] then objs
    else
      var before, x := Swept(objs, order[..|order| - 1]), order[|order| - 1];
      if Untouchable(before, x) then before else ToLostAndFound(before, x)
  }

  lemma SweptNone(objs: map<nat, Node>, order: seq<nat>)
    ensures order[..0] == [] && Swept(objs, []) == objs
  {
  }

  /** What it means for the objects that are rooted, and for those that are near the root. */
  lemma RootsKept(objs: map<nat, Node>, objs': map<nat, Node>)
    requires KeepsRoots(objs, objs') && objs.Keys == objs'.Keys && forall x | x in objs ::
        objs'[x] == objs[x] || (objs'[x] == objs[x].(parent := LOSTNFOUND) && !Untouchable(objs, x))
    ensures forall x | Rooted(objs, x) :: Rooted(objs', x)
    ensures forall x, k: nat | k <= 101 && Chain(objs, x, k) :: x in objs' && objs'[x] == objs[x]
  {
    forall x, k: nat | k <= 101 && Chain(objs, x, k)
      ensures x in objs' && objs'[x] == objs[x]
    {
      assert Shallow(objs, x);
    }
  }

  lemma SweptNext(objs: map<nat, Node>, order: seq<nat>, i: nat)
    requires i < |order| && forall x | x in order :: x in objs
    ensures order[..0] == [] && order[..|order|] == order
    ensures forall x | x in order[..i] || x in order[..i + 1] :: x in objs
    ensures var before, x := Swept(objs, order[..i]), order[i];
            Swept(objs, order[..i + 1]) == if Untouchable(before, x) then before else ToLostAndFound(before, x)
  {
    assert order[..i + 1][..i] == order[..i];
  }

  class ObjectTable {
    var objs: map<nat, Node>

    /** Does x hang loose? It does unless it lies directly under a top directory, or its way up, of
        at most 101 links, ends at the root. */
    method IsHanging(x: nat) returns (hanging: bool)
      requires Special(objs) && x in objs
      ensures hanging <==> !HasNullParent(x) && objs[x].parent != UNLINKED && objs[x].parent != DELETED && !Shallow(objs, x)
    {
      var parent := objs[x].parent;
      if HasNullParent(x) {
        return false;
      }
      if parent == NONE || !objs[parent].isDir {
        assert forall k: nat :: !Chain(objs, x, k);
        return true;
      }
      if HasNullParent(parent) {
        LostAndFoundRooted(objs);
        assert parent == ROOT ==> Chain(objs, x, 1);
        return false;
      }
      var depthLimit := DEPTH_LIMIT;
      while parent != ROOT && objs[parent].parent != NONE && objs[objs[parent].parent].isDir && depthLimit > 0
        invariant 0 <= depthLimit <= DEPTH_LIMIT && parent in objs && objs[parent].isDir
        invariant forall k: nat :: Chain(objs, x, DEPTH_LIMIT - depthLimit + 1 + k) <==> Chain(objs, parent, k)
        invariant forall k: nat | k < DEPTH_LIMIT - depthLimit + 1 :: !Chain(objs, x, k)
        decreases depthLimit
      {
        ghost var up := DEPTH_LIMIT - depthLimit + 1;
        forall k: nat
          ensures Chain(objs, x, up + 1 + k) <==> Chain(objs, objs[parent].parent, k)
        {
          assert Chain(objs, x, up + (k + 1)) <==> Chain(objs, parent, k + 1);
        }
        assert Chain(objs, x, up + 0) <==> Chain(objs, parent, 0);
        parent := objs[parent].parent;
        depthLimit := depthLimit - 1;
      }
      ghost var up := DEPTH_LIMIT - depthLimit + 1;
      hanging := parent != ROOT;
      if hanging {
        forall k: nat | k <= 101
          ensures !Chain(objs, x, k)
        {
          if k >= up {
            assert Chain(objs, x, up + (k - up)) <==> Chain(objs, parent, k - up);
          }
        }
      } else {
        assert Chain(objs, parent, 0);
        assert Chain(objs, x, up + 0);
      }
    }

    method MoveOne(y: nat)
      requires Special(objs) && y in objs && y != LOSTNFOUND && !HasNullParent(y) && !Shallow(objs, y)
      modifies this
      ensures Special(objs) && objs == ToLostAndFound(old(objs), y) && InPlace(objs, y)
      ensures KeepsRoots(old(objs), objs)
      ensures forall x | x in objs && x != y && InPlace(old(objs), x) :: InPlace(objs, x)
    {
      forall x | Rooted(objs, x)
        ensures Rooted(ToLostAndFound(objs, y), x)
      {
        var k: nat :| Chain(objs, x, k);
        MoveKeepsRooted(objs, y, x, k);
      }
      forall x, k: nat | k <= 101 && Chain(objs, x, k)
        ensures Chain(ToLostAndFound(objs, y), x, k)
      {
        ShallowStays(objs, y, x, k);
      }
      MovedIsRooted(objs, y);
      objs := ToLostAndFound(objs, y);
    }

    /** One object: move it to lost+found if it hangs loose. */
    method FixOne(x: nat)
      requires Special(objs) && x in objs
      modifies this
      ensures Special(objs) && x in objs && InPlace(objs, x)
      ensures objs == if Untouchable(old(objs), x) then old(objs) else ToLostAndFound(old(objs), x)
      ensures KeepsRoots(old(objs), objs)
      ensures forall y | y in objs && y != x && InPlace(old(objs), y) :: InPlace(objs, y)
    {
      hide Chain;
      LostAndFoundRooted(objs);
      var hanging := IsHanging(x);
      if hanging {
        MoveOne(x);
      } else if Shallow(objs, x) {
        assert Rooted(objs, x);
      }
    }

    /** Look at every object, in any order, and move those that hang loose to lost+found. Afterwards each
        object is in place; none that had a way to the root has lost it, and those within 101 links
        of it, or directly under a top directory, are where they were. All others were moved when their
        turn came, unless a move before that had brought them into place. */
    method FixHangingObjects(order: seq<nat>)
      requires Special(objs) && forall x :: x in objs <==> x in order
      modifies this
      ensures Special(objs) && objs.Keys == old(objs).Keys
      ensures forall x | x in objs :: InPlace(objs, x)
      ensures forall x | Rooted(old(objs), x) :: Rooted(objs, x)
      ensures objs == Swept(old(objs), order)
      ensures forall x, k: nat | k <= 101 && Chain(old(objs), x, k) :: x in objs && objs[x] == old(objs)[x]
      ensures forall x | x in objs ::
          objs[x] == old(objs)[x] || (objs[x] == old(objs)[x].(parent := LOSTNFOUND) && !Untouchable(old(objs), x))
    {
      hide Chain, Rooted, Shallow, InPlace, Special, KeepsRoots, Untouchable, Swept;
      KeepsRootsSelf(objs);
      SweptNone(objs, order);
      var i := 0;
      while i < |order|
        invariant 0 <= i <= |order| && objs == Swept(old(objs), order[..i])
        invariant 0 <= i <= |order| && Special(objs) && objs.Keys == old(objs).Keys
        invariant forall j | 0 <= j < i :: InPlace(objs, order[j])
        invariant KeepsRoots(old(objs), objs)
        invariant forall x | x in objs ::
            objs[x] == old(objs)[x] || (objs[x] == old(objs)[x].(parent := LOSTNFOUND) && !Untouchable(old(objs), x))
      {
        ghost var before := objs;
        var x := order[i];
        assert x in objs;
        FixOne(x);
        KeepsRootsTrans(old(objs), before, objs);
        SweptNext(old(objs), order, i);
        if objs != before {
          UntouchableStays(old(objs), before, x);
        }
        i := i + 1;
      }
      assert order[..i] == order;
      forall x | x in objs
        ensures InPlace(objs, x)
      {
        assert x in order;
      }
      RootsKept(old(objs), objs);
    }
  }
}
