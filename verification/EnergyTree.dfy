/** The tree of energy nodes, which nothing keeps from being any graph in which a node has one parent at most. */
module EnergyTree {
  import opened Wrappers

  type NodeId = nat

  type Parents = map<NodeId, Option<NodeId>>

  predicate IsParent(parents: Parents, p: NodeId, n: NodeId) {
    n in parents && parents[n] == Some(p)
  }

  /** A way down from `root` to `n`, each node a child of the one before. */
  ghost predicate WayDown(parents: Parents, path: seq<NodeId>, root: NodeId, n: NodeId) {
    && |path| > 0 && path[0] == root && path[|path| - 1] == n
    && forall i :: 0 <= i < |path| - 1 ==> IsParent(parents, path[i], path[i + 1])
  }

  ghost predicate Below(parents: Parents, root: NodeId, n: NodeId) {
    exists path :: WayDown(parents, path, root, n)
  }

  lemma BelowItself(parents: Parents, root: NodeId)
    ensures Below(parents, root, root)
  {
    assert WayDown(parents, [root], root, root);
  }

  lemma BelowChild(parents: Parents, root: NodeId, p: NodeId, n: NodeId)
    requires Below(parents, root, p) && IsParent(parents, p, n)
    ensures Below(parents, root, n)
  {
    var path :| WayDown(parents, path, root, p);
    assert WayDown(parents, path + [n], root, n);
  }

  /** A set that holds the root and all children of its members holds everything below the root. */
  lemma {:induction false} ClosedHoldsBelow(parents: Parents, ids: set<NodeId>, path: seq<NodeId>, root: NodeId,
                                            n: NodeId)
    requires root in ids && WayDown(parents, path, root, n)
    requires forall p, k :: p in ids && IsParent(parents, p, k) ==> k in ids
    ensures n in ids
  {
    if |path| > 1 {
      var init := path[..|path| - 1];
      ClosedHoldsBelow(parents, ids, init, root, path[|path| - 2]);
      assert IsParent(parents, path[|path| - 2], path[|path| - 1]);
    }
  }

  lemma CountRest(parents: Parents, ids: set<NodeId>)
    requires ids <= parents.Keys
    ensures |parents| == |parents - ids| + |ids|
  {
    assert parents.Keys == (parents - ids).Keys + ids;
  }

  class NodeTable {
    var parents: Parents

    constructor (parents: Parents)
      ensures this.parents == parents
    {
      this.parents := parents;
    }

    /** The node and everything below it, level by level. */
    method Subtree(nid: NodeId) returns (ids: set<NodeId>)
      requires nid in parents
      ensures ids <= parents.Keys
      ensures forall n :: n in ids <==> Below(parents, nid, n)
    {
      var frontier := {nid};
      ids := {nid};
      BelowItself(parents, nid);
      while frontier != {}
        invariant nid in ids && frontier <= ids <= parents.Keys
        invariant forall n :: n in ids ==> Below(parents, nid, n)
        invariant forall p, k :: p in ids - frontier && IsParent(parents, p, k) ==> k in ids
        decreases parents.Keys - ids, frontier
      {
        var kids := set n | n in parents && parents[n].Some? && parents[n].value in frontier;
        forall k | k in kids ensures Below(parents, nid, k) {
          BelowChild(parents, nid, parents[k].value, k);
        }
        frontier := kids - ids;
        ids := ids + frontier;
      }
      forall n | Below(parents, nid, n) ensures n in ids {
        var path :| WayDown(parents, path, nid, n);
        ClosedHoldsBelow(parents, ids, path, nid, n);
      }
    }

    /** Deletes row by row. */
    method DeleteAll(ids: set<NodeId>)
      requires ids <= parents.Keys
      modifies this
      ensures parents == old(parents) - ids
    {
      var rest := ids;
      while rest != {}
        invariant rest <= ids && parents == old(parents) - (ids - rest)
        decreases rest
      {
        var i :| i in rest;
        parents := parents - {i};
        assert ids - (rest - {i}) == (ids - rest) + {i};
        rest := rest - {i};
      }
      assert ids - rest == ids;
    }

    /** Deletes the node and everything below it, cycles included; `None` when there is no such node. */
    method DeleteNode(nid: NodeId) returns (deleted: Option<nat>)
      modifies this
      ensures deleted.Some? <==> nid in old(parents)
      ensures deleted.None? ==> parents == old(parents)
      ensures deleted.Some? ==>
                forall n :: n in parents <==> n in old(parents) && !Below(old(parents), nid, n)
      ensures forall n :: n in parents ==> parents[n] == old(parents)[n]
      ensures deleted.Some? ==> |old(parents)| == |parents| + deleted.value
    {
      if nid !in parents {
        return None;
      }
      var ids := Subtree(nid);
      DeleteAll(ids);
      CountRest(old(parents), ids);
      return Some(|ids|);
    }
  }

  /** Nobody is left behind under a deleted node. */
  lemma NoOrphans(before: Parents, after: Parents, nid: NodeId, p: NodeId, n: NodeId)
    requires forall m :: m in after <==> m in before && !Below(before, nid, m)
    requires forall m :: m in after ==> after[m] == before[m]
    requires n in after && after[n] == Some(p) && p in before
    ensures p in after
  {
    if Below(before, nid, p) {
      BelowChild(before, nid, p, n);
    }
  }

  lemma BelowIsTransitive(parents: Parents, a: NodeId, b: NodeId, c: NodeId)
    requires Below(parents, a, b) && Below(parents, b, c)
    ensures Below(parents, a, c)
  {
    var up :| WayDown(parents, up, a, b);
    var down :| WayDown(parents, down, b, c);
    var path := up + down[1..];
    forall i | 0 <= i < |path| - 1 ensures IsParent(parents, path[i], path[i + 1]) {
      if i >= |up| - 1 {
        var k := i - (|up| - 1);
        assert path[i] == down[k] && path[i + 1] == down[k + 1];
      }
    }
    assert WayDown(parents, path, a, c);
  }

  /** Deleting any node of a cycle deletes the whole cycle. */
  lemma CyclesGoTogether(parents: Parents, a: NodeId, b: NodeId, n: NodeId)
    requires Below(parents, a, b) && Below(parents, b, a)
    ensures Below(parents, a, n) <==> Below(parents, b, n)
  {
    if Below(parents, a, n) {
      BelowIsTransitive(parents, b, a, n);
    }
    if Below(parents, b, n) {
      BelowIsTransitive(parents, a, b, n);
    }
  }
}
