/** The entity hierarchy the progressors walk (event_system/event_listeners.rs):
  * each entity's `Parent`, if it has one. Bevy keeps the hierarchy a forest;
  * the model states this as a rank that strictly decreases from a child to
  * its parent, which is what lets the upward walk of `is_descendant` stop. */
module Hierarchy {
  import opened Common

  type ParentMap = map<Entity, Entity>

  /** The hierarchy has no cycles: every parent link goes to a smaller rank. */
  ghost predicate Ranked(parent: ParentMap, rank: map<Entity, nat>)
  {
    forall c :: c in parent ==> c in rank && parent[c] in rank && rank[parent[c]] < rank[c]
  }

  /** The `k`-th ancestor of `c` (`c` itself for `k = 0`), if the chain reaches that far. */
  function AncestorAt(parent: ParentMap, c: Entity, k: nat): Option<Entity>
  {
    if k == 0 then Some(c)
    else match AncestorAt(parent, c, k - 1)
      case None => None
      case Some(a) => if a in parent then Some(parent[a]) else None
  }

  /** `c` lies strictly below `a`: `a` is one of its ancestors. */
  ghost predicate Descends(parent: ParentMap, a: Entity, c: Entity)
  {
    exists k :: 1 <= k && AncestorAt(parent, c, k) == Some(a)
  }

  /** Once the chain has ended at a root, it stays ended. */
  lemma {:induction false} ChainEnds(parent: ParentMap, c: Entity, k: nat, root: Entity, j: nat)
    requires AncestorAt(parent, c, k) == Some(root) && root !in parent && j > k
    ensures AncestorAt(parent, c, j) == None
    decreases j
  {
    if j > k + 1 {
      ChainEnds(parent, c, k, root, j - 1);
    }
  }

  /** `is_descendant`: walks up from `child` until it meets `ancestor` or a root. */
  method IsDescendant(parent: ParentMap, ancestor: Entity, child: Entity, ghost rank: map<Entity, nat>)
    returns (r: bool)
    requires Ranked(parent, rank)
    ensures r <==> Descends(parent, ancestor, child)
  {
    var current := child;
    ghost var k: nat := 0;
    while current in parent
      invariant AncestorAt(parent, child, k) == Some(current)
      invariant forall j :: 1 <= j <= k ==> AncestorAt(parent, child, j) != Some(ancestor)
      decreases if current in rank then rank[current] else 0
    {
      assert AncestorAt(parent, child, k + 1) == Some(parent[current]);
      if parent[current] == ancestor {
        return true;
      }
      current := parent[current];
      k := k + 1;
    }
    forall j | 1 <= j && AncestorAt(parent, child, j) == Some(ancestor)
      ensures false
    {
      if j > k {
        ChainEnds(parent, child, k, current, j);
      }
    }
    return false;
  }

  /** No entity lies below itself in a ranked hierarchy. */
  lemma NotOwnDescendant(parent: ParentMap, rank: map<Entity, nat>, c: Entity)
    requires Ranked(parent, rank)
    ensures !Descends(parent, c, c)
  {
    if Descends(parent, c, c) {
      var k :| 1 <= k && AncestorAt(parent, c, k) == Some(c);
      RankDecreases(parent, rank, c, k);
      assert false;
    }
  }

  /** Every ancestor strictly outranks the entity. */
  lemma {:induction false} RankDecreases(parent: ParentMap, rank: map<Entity, nat>, c: Entity, k: nat)
    requires Ranked(parent, rank) && k >= 1 && AncestorAt(parent, c, k).Some?
    ensures c in rank && AncestorAt(parent, c, k).value in rank
    ensures rank[AncestorAt(parent, c, k).value] < rank[c]
    decreases k
  {
    if k > 1 {
      RankDecreases(parent, rank, c, k - 1);
    }
  }

  /** The entities strictly below `container` among `entities`. */
  ghost function DescendantsOf(entities: set<Entity>, parent: ParentMap, container: Entity): set<Entity>
  {
    set e | e in entities && e != container && Descends(parent, container, e)
  }

  /** `collect_entity_and_descendants`: the root and everything below it. */
  ghost function SubtreeOf(entities: set<Entity>, parent: ParentMap, root: Entity): set<Entity>
  {
    {root} + DescendantsOf(entities, parent, root)
  }

  /** Counts the entities strictly below `container`, testing each entity in turn. */
  method CountDescendants(entities: set<Entity>, parent: ParentMap, container: Entity, ghost rank: map<Entity, nat>)
    returns (n: nat)
    requires Ranked(parent, rank)
    ensures n == |DescendantsOf(entities, parent, container)|
  {
    n := 0;
    var remaining := entities;
    ghost var done: set<Entity> := {};
    ghost var found: set<Entity> := {};
    while remaining != {}
      invariant remaining !! done && remaining + done == entities
      invariant found == DescendantsOf(done, parent, container) && found <= done
      invariant n == |found|
      decreases |remaining|
    {
      var e :| e in remaining;
      var below := IsDescendant(parent, container, e, rank);
      DescendantsOfAdd(done, e, parent, container);
      if e != container && below {
        found := found + {e};
        n := n + 1;
      }
      MoveOne(remaining, done, entities, e);
      remaining := remaining - {e};
      done := done + {e};
    }
    assert done == entities;
  }

  /** The root and everything below it, gathered entity by entity. */
  method CollectSubtree(entities: set<Entity>, parent: ParentMap, root: Entity, ghost rank: map<Entity, nat>)
    returns (sub: set<Entity>)
    requires Ranked(parent, rank)
    ensures sub == SubtreeOf(entities, parent, root)
  {
    sub := {root};
    var remaining := entities;
    ghost var done: set<Entity> := {};
    while remaining != {}
      invariant remaining !! done && remaining + done == entities
      invariant sub == SubtreeOf(done, parent, root)
      decreases |remaining|
    {
      var e :| e in remaining;
      sub := CollectEntity(parent, root, rank, e, done, sub);
      MoveOne(remaining, done, entities, e);
      remaining := remaining - {e};
      done := done + {e};
    }
    assert done == entities;
  }

  /** The loop body: `e` joins the subtree when it lies below the root. */
  method CollectEntity(parent: ParentMap, root: Entity, ghost rank: map<Entity, nat>, e: Entity,
                       ghost done: set<Entity>, sub: set<Entity>) returns (sub': set<Entity>)
    requires Ranked(parent, rank) && sub == SubtreeOf(done, parent, root)
    ensures sub' == SubtreeOf(done + {e}, parent, root)
  {
    var below := IsDescendant(parent, root, e, rank);
    DescendantsOfAdd(done, e, parent, root);
    if e != root && below {
      sub' := sub + {e};
    } else {
      sub' := sub;
    }
  }

  /** One more entity joins the descendants exactly when it lies below the container. */
  lemma DescendantsOfAdd(done: set<Entity>, e: Entity, parent: ParentMap, container: Entity)
    ensures DescendantsOf(done + {e}, parent, container) ==
      DescendantsOf(done, parent, container) + (if e != container && Descends(parent, container, e) then {e} else {})
  {
  }
}
