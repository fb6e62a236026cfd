/** What a pass of garbage collection does to the pages in use of a block. */
module Collection {
  /** Of the pages in use, was, those from page from up to page c have gone, but for the last if it could
      not be moved. The others, u, are still in use. */
  ghost predicate Swept(was: set<nat>, u: set<nat>, from: nat, c: nat, ok: bool) {
    && u <= was
    && (forall p | p in was && p !in u :: from <= p < c)
    && (forall p | p in u && from <= p < c :: !ok && p == c - 1)
  }

  lemma SweptNothing(u: set<nat>, from: nat)
    ensures Swept(u, u, from, from, true)
  {
  }

  lemma SweptOn(was: set<nat>, u: set<nat>, u': set<nat>, from: nat, c: nat, inUse: bool, ok: bool)
    requires Swept(was, u, from, c, true) && from <= c && (inUse <==> c in u)
    requires if inUse then u' == (if ok then u - {c} else u) else u' == u && ok
    ensures Swept(was, u', from, c + 1, ok)
  {
  }

  /** A pass that comes to the end of the block leaves nothing of what it had to collect. */
  lemma SweptAll(was: set<nat>, u: set<nat>, from: nat, n: nat, c: nat, ok: bool)
    requires Swept(was, u, from, c, ok) && u != {} && forall p | p in u :: p < n
    ensures ok && c >= n ==> exists p :: p in was && p < from
  {
    if ok && c >= n {
      var p :| p in u;
      assert p in was;
    }
  }
}
