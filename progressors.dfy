/** The subtree-stabilisation progressors (event_system/event_listeners.rs):
  * a root tagged `GenerationOnlyCollider` has its colliders stripped once its
  * subtree has stopped changing, and a selective replacement replaces some
  * tagged descendants of its container once the subtree and the tagged
  * candidates have stopped changing. Both read one snapshot of the world per
  * tick; the removals they order are applied after the system has run. */
module SubtreeProgressors {
  import opened Common
  import opened Geometry
  import opened Structures
  import opened Hierarchy

  const GenerationOnlyColliderTag := "GenerationOnlyCollider"
  const StripStableFrames: u8 := 3
  const ReplaceStableFrames: u8 := 2

  // ---------------------------------------------------------------------------
  // GenerationOnlyCollider

  /** `GenerationOnlyColliderPending`. */
  datatype GenOnlyPending = GenOnlyPending(lastDescendantCount: nat, lastColliderCount: nat, stableFrames: u8)

  const FreshGenOnly := GenOnlyPending(0, 0, 0)

  /** One tick of a pending root: the subtree size and collider count are
    * compared with the last tick's; unchanged counts add a stable tick,
    * any change restarts; three stable ticks strip. */
  function StripStep(st: GenOnlyPending, descendants: nat, colliders: nat): (GenOnlyPending, bool)
  {
    var stable :=
      if descendants == st.lastDescendantCount && colliders == st.lastColliderCount then SatIncU8(st.stableFrames)
      else 0;
    (GenOnlyPending(descendants, colliders, stable), stable >= StripStableFrames)
  }

  /** The pending state after a run of observed (subtree size, collider count) pairs. */
  function StripRun(obs: seq<(nat, nat)>): GenOnlyPending
  {
    if |obs| == 0 then FreshGenOnly
    else StripStep(StripRun(obs[..|obs| - 1]), obs[|obs| - 1].0, obs[|obs| - 1].1).0
  }

  /** The observation before tick `i`: the fresh counters before the first. */
  function Before(obs: seq<(nat, nat)>, i: nat): (nat, nat)
    requires i < |obs|
  {
    if i == 0 then (0, 0) else obs[i - 1]
  }

  /** How many of the last ticks saw the same counts as the tick before. */
  function Unchanged(obs: seq<(nat, nat)>): nat
  {
    if |obs| == 0 || obs[|obs| - 1] != Before(obs, |obs| - 1) then 0
    else Unchanged(obs[..|obs| - 1]) + 1
  }

  /** The stable count is the run of unchanged ticks (capped at 255), and the
    * last counts are the last observation. */
  lemma {:induction false} StripRunFacts(obs: seq<(nat, nat)>)
    ensures |obs| > 0 ==> (StripRun(obs).lastDescendantCount, StripRun(obs).lastColliderCount) == obs[|obs| - 1]
    ensures StripRun(obs).stableFrames as int == Min(Unchanged(obs), 0xFF)
    decreases |obs|
  {
    if |obs| > 0 {
      StripRunFacts(obs[..|obs| - 1]);
    }
  }

  /** `Unchanged` counts exactly the trailing ticks equal to their predecessor. */
  lemma {:induction false} UnchangedSuffix(obs: seq<(nat, nat)>, k: nat)
    ensures Unchanged(obs) >= k <==>
      (k <= |obs| && forall i :: |obs| - k <= i < |obs| ==> obs[i] == Before(obs, i))
    decreases |obs|
  {
    if k > 0 && |obs| > 0 {
      var n := |obs| - 1;
      var init := obs[..n];
      UnchangedSuffix(init, k - 1);
      SuffixStep(obs, init, k);
      if obs[n] == Before(obs, n) {
        assert Unchanged(obs) == Unchanged(init) + 1;
      } else {
        assert Unchanged(obs) == 0;
      }
    }
  }

  /** The last `k` ticks of a run repeat their predecessors exactly when the
    * last tick does and the `k - 1` before it do. */
  lemma SuffixStep(obs: seq<(nat, nat)>, init: seq<(nat, nat)>, k: nat)
    requires k > 0 && |obs| > 0 && init == obs[..|obs| - 1]
    ensures (k <= |obs| && forall i :: |obs| - k <= i < |obs| ==> obs[i] == Before(obs, i)) <==>
      (obs[|obs| - 1] == Before(obs, |obs| - 1) &&
       k - 1 <= |init| && forall i :: |init| - (k - 1) <= i < |init| ==> init[i] == Before(init, i))
  {
    assert forall i :: 0 <= i < |init| ==> init[i] == obs[i] && Before(init, i) == Before(obs, i);
  }

  /** The colliders are stripped on a tick exactly when that tick and the two
    * before it each saw the same subtree size and collider count as the
    * tick before them. */
  lemma StripIffThreeUnchangedTicks(obs: seq<(nat, nat)>, descendants: nat, colliders: nat)
    ensures var obs' := obs + [(descendants, colliders)];
      StripStep(StripRun(obs), descendants, colliders).1 <==>
      (|obs'| >= 3 && forall i :: |obs'| - 3 <= i < |obs'| ==> obs'[i] == Before(obs', i))
  {
    var obs' := obs + [(descendants, colliders)];
    assert obs'[..|obs'| - 1] == obs;
    StripRunFacts(obs');
    UnchangedSuffix(obs', 3);
  }

  /** The roots `enqueue_generation_only_colliders` marks: tagged
    * `GenerationOnlyCollider`, neither pending nor already stripped. */
  function NewRoots(tagged: seq<(Entity, seq<string>)>, pending: set<Entity>, stripped: set<Entity>): set<Entity>
  {
    set i | 0 <= i < |tagged| && GenerationOnlyColliderTag in tagged[i].1 &&
            tagged[i].0 !in pending && tagged[i].0 !in stripped :: tagged[i].0
  }

  /** The entities in the subtrees of `roots`. */
  ghost function StrippedBy(roots: set<Entity>, entities: set<Entity>, parent: ParentMap): set<Entity>
  {
    set e, r | r in roots && e in SubtreeOf(entities, parent, r) :: e
  }

  lemma StrippedByAdd(roots: set<Entity>, r: Entity, entities: set<Entity>, parent: ParentMap)
    ensures StrippedBy(roots + {r}, entities, parent) == StrippedBy(roots, entities, parent) + SubtreeOf(entities, parent, r)
  {
  }

  class GenerationOnlyColliders {
    /** The roots carrying `GenerationOnlyColliderPending`, with that component. */
    var pending: map<Entity, GenOnlyPending>
    /** The roots marked `GenerationOnlyCollidersStripped`. */
    var stripped: set<Entity>
    /** The entities carrying a `Collider`. */
    var colliders: set<Entity>

    /** `enqueue_generation_only_colliders`: every new tagged root becomes
      * pending with fresh counters; other roots are left as they are. */
    method EnqueueGenerationOnlyColliders(tagged: seq<(Entity, seq<string>)>)
      modifies this`pending
      ensures pending.Keys == old(pending).Keys + NewRoots(tagged, old(pending).Keys, stripped)
      ensures forall r :: r in old(pending) ==> pending[r] == old(pending)[r]
      ensures forall r :: r in NewRoots(tagged, old(pending).Keys, stripped) ==> pending[r] == FreshGenOnly
    {
      ghost var keys := pending.Keys;
      for i := 0 to |tagged|
        invariant pending.Keys == keys + NewRoots(tagged[..i], keys, stripped)
        invariant forall r :: r in old(pending) ==> pending[r] == old(pending)[r]
        invariant forall r :: r in NewRoots(tagged[..i], keys, stripped) ==> pending[r] == FreshGenOnly
      {
        assert forall j :: 0 <= j < i ==> tagged[..i + 1][j] == tagged[..i][j];
        assert NewRoots(tagged[..i + 1], keys, stripped) ==
          NewRoots(tagged[..i], keys, stripped) +
          (if GenerationOnlyColliderTag in tagged[i].1 && tagged[i].0 !in keys && tagged[i].0 !in stripped
           then {tagged[i].0} else {});
        var (root, tags) := tagged[i];
        if GenerationOnlyColliderTag in tags && root !in pending && root !in stripped {
          pending := pending[root := FreshGenOnly];
        }
      }
      assert tagged[..|tagged|] == tagged;
    }

    /** `strip_generation_only_colliders_progressor`: every pending root takes
      * one step; a root that strips loses every collider in its subtree, is
      * marked stripped and is no longer pending. */
    method StripGenerationOnlyCollidersProgressor(entities: set<Entity>, parent: ParentMap, ghost rank: map<Entity, nat>)
      requires Ranked(parent, rank)
      modifies this
      ensures pending.Keys == old(pending).Keys - Firing(old(pending), old(colliders), entities, parent)
      ensures forall r :: r in pending ==> (r in old(pending) &&
        pending[r] == StepAt(old(pending), old(colliders), entities, parent, r).0)
      ensures stripped == old(stripped) + Firing(old(pending), old(colliders), entities, parent)
      ensures colliders == old(colliders) - StrippedBy(Firing(old(pending), old(colliders), entities, parent), entities, parent)
    {
      var next, fired, removed := StripAll(pending, colliders, entities, parent, rank);
      StripDoneAll(pending, colliders, entities, parent, next, fired, removed);
      pending := next;
      stripped := stripped + fired;
      colliders := colliders - removed;
    }
  }

  /** The subtree size and collider count of `root`. */
  ghost function Counts(colliders: set<Entity>, entities: set<Entity>, parent: ParentMap, root: Entity): (nat, nat)
  {
    var sub := SubtreeOf(entities, parent, root);
    (|sub|, |sub * colliders|)
  }

  /** The step a pending root takes on this tick, against the snapshot. */
  ghost function StepAt(pending: map<Entity, GenOnlyPending>, colliders: set<Entity>, entities: set<Entity>,
                        parent: ParentMap, r: Entity): (GenOnlyPending, bool)
    requires r in pending
  {
    var c := Counts(colliders, entities, parent, r);
    StripStep(pending[r], c.0, c.1)
  }

  /** The pending roots that strip on this tick. */
  ghost function Firing(pending: map<Entity, GenOnlyPending>, colliders: set<Entity>, entities: set<Entity>,
                        parent: ParentMap): set<Entity>
  {
    set r | r in pending && StepAt(pending, colliders, entities, parent, r).1
  }

  /** After the roots in `done` have taken their step: `fired` are those of
    * them that strip, `next` holds the others with their new counters, and
    * `removed` is everything below the fired roots. */
  ghost predicate StripDone(pending: map<Entity, GenOnlyPending>, colliders: set<Entity>, entities: set<Entity>,
                            parent: ParentMap, done: set<Entity>,
                            next: map<Entity, GenOnlyPending>, fired: set<Entity>, removed: set<Entity>)
  {
    && done <= pending.Keys
    && fired <= done && next.Keys == done - fired
    && (forall r :: r in done ==> (r in fired <==> StepAt(pending, colliders, entities, parent, r).1))
    && (forall r :: r in next ==> next[r] == StepAt(pending, colliders, entities, parent, r).0)
    && removed == StrippedBy(fired, entities, parent)
  }

  /** A root strips: its subtree joins the entities whose colliders go. */
  method StripSubtree(fired: set<Entity>, removed: set<Entity>, root: Entity, sub: set<Entity>,
                      entities: set<Entity>, parent: ParentMap)
    returns (fired': set<Entity>, removed': set<Entity>)
    requires removed == StrippedBy(fired, entities, parent) && sub == SubtreeOf(entities, parent, root)
    ensures fired' == fired + {root} && removed' == StrippedBy(fired', entities, parent)
  {
    StrippedByAdd(fired, root, entities, parent);
    fired', removed' := fired + {root}, removed + sub;
  }

  /** One pending root takes its step. */
  method StripOne(pending: map<Entity, GenOnlyPending>, colliders: set<Entity>, entities: set<Entity>,
                  parent: ParentMap, ghost rank: map<Entity, nat>, root: Entity, ghost done: set<Entity>,
                  next: map<Entity, GenOnlyPending>, fired: set<Entity>, removed: set<Entity>)
    returns (next': map<Entity, GenOnlyPending>, fired': set<Entity>, removed': set<Entity>)
    requires Ranked(parent, rank) && root in pending && root !in done
    requires StripDone(pending, colliders, entities, parent, done, next, fired, removed)
    ensures StripDone(pending, colliders, entities, parent, done + {root}, next', fired', removed')
  {
    var sub := CollectSubtree(entities, parent, root, rank);
    var step := StripStep(pending[root], |sub|, |sub * colliders|);
    assert step == StepAt(pending, colliders, entities, parent, root);
    if step.1 {
      fired', removed' := StripSubtree(fired, removed, root, sub, entities, parent);
      next' := next;
      StripDoneFires(pending, colliders, entities, parent, root, done, next, fired, removed);
    } else {
      next', fired', removed' := next[root := step.0], fired, removed;
      StripDoneWaits(pending, colliders, entities, parent, root, done, next, fired, removed);
    }
  }

  /** A root that strips joins the fired roots. */
  lemma StripDoneFires(pending: map<Entity, GenOnlyPending>, colliders: set<Entity>, entities: set<Entity>,
                       parent: ParentMap, root: Entity, done: set<Entity>,
                       next: map<Entity, GenOnlyPending>, fired: set<Entity>, removed: set<Entity>)
    requires root in pending && root !in done && StepAt(pending, colliders, entities, parent, root).1
    requires StripDone(pending, colliders, entities, parent, done, next, fired, removed)
    ensures StripDone(pending, colliders, entities, parent, done + {root}, next, fired + {root},
                      StrippedBy(fired + {root}, entities, parent))
  {
    assert (done + {root}) - (fired + {root}) == done - fired;
  }

  /** A root that does not strip stays pending with its new counters. */
  lemma StripDoneWaits(pending: map<Entity, GenOnlyPending>, colliders: set<Entity>, entities: set<Entity>,
                       parent: ParentMap, root: Entity, done: set<Entity>,
                       next: map<Entity, GenOnlyPending>, fired: set<Entity>, removed: set<Entity>)
    requires root in pending && root !in done && !StepAt(pending, colliders, entities, parent, root).1
    requires StripDone(pending, colliders, entities, parent, done, next, fired, removed)
    ensures StripDone(pending, colliders, entities, parent, done + {root},
                      next[root := StepAt(pending, colliders, entities, parent, root).0], fired, removed)
  {
    var step := StepAt(pending, colliders, entities, parent, root);
    WaitKeys(done, fired, next, root, step.0);
  }

  lemma WaitKeys<V>(done: set<Entity>, fired: set<Entity>, next: map<Entity, V>, root: Entity, v: V)
    requires fired <= done && next.Keys == done - fired && root !in done
    ensures fired <= done + {root} && next[root := v].Keys == (done + {root}) - fired
  {
  }

  /** The steps of all pending roots against one snapshot. */
  method StripAll(pending: map<Entity, GenOnlyPending>, colliders: set<Entity>, entities: set<Entity>,
                  parent: ParentMap, ghost rank: map<Entity, nat>)
    returns (next: map<Entity, GenOnlyPending>, fired: set<Entity>, removed: set<Entity>)
    requires Ranked(parent, rank)
    ensures StripDone(pending, colliders, entities, parent, pending.Keys, next, fired, removed)
  {
    var remaining := pending.Keys;
    ghost var done: set<Entity> := {};
    next, fired, removed := map[], {}, {};
    assert removed == StrippedBy(fired, entities, parent);
    while remaining != {}
      invariant remaining !! done && remaining + done == pending.Keys
      invariant StripDone(pending, colliders, entities, parent, done, next, fired, removed)
      decreases |remaining|
    {
      var root :| root in remaining;
      next, fired, removed := StripOne(pending, colliders, entities, parent, rank, root, done, next, fired, removed);
      MoveOne(remaining, done, pending.Keys, root);
      remaining := remaining - {root};
      done := done + {root};
    }
    assert done == pending.Keys;
  }

  /** Once every pending root has taken its step: the fired roots are exactly
    * the firing ones, the others stay pending with their new counters, and
    * the entities whose colliders go are the fired roots' subtrees. */
  lemma StripDoneAll(pending: map<Entity, GenOnlyPending>, colliders: set<Entity>, entities: set<Entity>,
                     parent: ParentMap, next: map<Entity, GenOnlyPending>, fired: set<Entity>, removed: set<Entity>)
    requires StripDone(pending, colliders, entities, parent, pending.Keys, next, fired, removed)
    ensures fired == Firing(pending, colliders, entities, parent)
    ensures next.Keys == pending.Keys - fired
    ensures forall r :: r in next ==> next[r] == StepAt(pending, colliders, entities, parent, r).0
    ensures removed == StrippedBy(fired, entities, parent)
  {
  }

  // ---------------------------------------------------------------------------
  // Selective replacement

  /** `SelectiveReplacementPending`. */
  datatype SelectivePending = SelectivePending(replacement: StructureReference, tags: seq<string>, replaceCount: nat,
                                               lastDescendantCount: nat, lastCandidateCount: nat, stableFrames: u8)

  /** The counters `selective_replacement_spawn_listener` starts with. */
  predicate FreshCounters(st: SelectivePending)
  {
    st.lastDescendantCount == 0 && st.lastCandidateCount == 0 && st.stableFrames == 0
  }

  /** One tick of a pending replacement. No descendants, or a changed
    * descendant count, restarts it before the candidates are looked at; no
    * candidates, or a changed candidate count, restarts it too; otherwise
    * the stable count grows, and reaching two fires. */
  function SelectiveStep(st: SelectivePending, total: nat, count: nat): (SelectivePending, bool)
  {
    if total == 0 then (st.(lastDescendantCount := 0, stableFrames := 0), false)
    else if total != st.lastDescendantCount then (st.(lastDescendantCount := total, stableFrames := 0), false)
    else if count == 0 then (st.(lastCandidateCount := 0, stableFrames := 0), false)
    else if count != st.lastCandidateCount then (st.(lastCandidateCount := count, stableFrames := 0), false)
    else
      var stable := SatIncU8(st.stableFrames);
      (st.(stableFrames := stable), stable >= ReplaceStableFrames)
  }

  /** The pending state after a run of observed (descendant count, candidate count) pairs. */
  function SelectiveRun(st: SelectivePending, obs: seq<(nat, nat)>): SelectivePending
  {
    if |obs| == 0 then st
    else SelectiveStep(SelectiveRun(st, obs[..|obs| - 1]), obs[|obs| - 1].0, obs[|obs| - 1].1).0
  }

  /** What a run from fresh counters remembers: the last descendant count,
    * and, while stable, that the last tick repeated the descendant count of
    * the tick before and recorded its non-zero candidate count. */
  lemma {:induction false} SelectiveRunFacts(st: SelectivePending, obs: seq<(nat, nat)>)
    requires FreshCounters(st)
    ensures SelectiveRun(st, obs).replacement == st.replacement && SelectiveRun(st, obs).tags == st.tags
    ensures SelectiveRun(st, obs).replaceCount == st.replaceCount
    ensures SelectiveRun(st, obs).lastDescendantCount == if |obs| == 0 then 0 else obs[|obs| - 1].0
    ensures SelectiveRun(st, obs).stableFrames >= 1 ==>
      |obs| >= 2 && obs[|obs| - 1].0 > 0 && obs[|obs| - 1].0 == obs[|obs| - 2].0 &&
      obs[|obs| - 1].1 > 0 && SelectiveRun(st, obs).lastCandidateCount == obs[|obs| - 1].1
    decreases |obs|
  {
    if |obs| > 0 {
      var init := obs[..|obs| - 1];
      SelectiveRunFacts(st, init);
      if |init| > 0 {
        assert init[|init| - 1] == obs[|obs| - 2];
      }
    }
  }

  /** A replacement fires only once the descendant count has been the same
    * non-zero value on three consecutive ticks and the candidate count the
    * same non-zero value on the last two. */
  lemma SelectiveFiresOnlyWhenStable(st: SelectivePending, obs: seq<(nat, nat)>, total: nat, count: nat)
    requires FreshCounters(st)
    requires SelectiveStep(SelectiveRun(st, obs), total, count).1
    ensures |obs| >= 2
    ensures total > 0 && total == obs[|obs| - 1].0 && total == obs[|obs| - 2].0
    ensures count > 0 && count == obs[|obs| - 1].1
  {
    SelectiveRunFacts(st, obs);
  }

  /** ... and it does fire once the same non-zero counts have been seen on
    * four consecutive ticks. */
  lemma SelectiveFiresWhenStable(st: SelectivePending, obs: seq<(nat, nat)>, total: nat, count: nat)
    requires FreshCounters(st) && total > 0 && count > 0
    requires |obs| >= 3 && forall i :: |obs| - 3 <= i < |obs| ==> obs[i] == (total, count)
    ensures SelectiveStep(SelectiveRun(st, obs), total, count).1
  {
    var n := |obs|;
    var o1 := obs[..n - 2];
    var o2 := obs[..n - 1];
    SelectiveRunFacts(st, o1);
    assert o1[|o1| - 1] == obs[n - 3];
    assert o2[..|o2| - 1] == o1 && obs[..n - 1] == o2;
    var s1 := SelectiveRun(st, o1);
    var s2 := SelectiveRun(st, o2);
    assert s2 == SelectiveStep(s1, total, count).0;
    assert s2.lastDescendantCount == total && s2.lastCandidateCount == count;
    var s3 := SelectiveRun(st, obs);
    assert s3 == SelectiveStep(s2, total, count).0;
    assert s3.stableFrames >= 1;
  }

  datatype Replacement = Replacement(target: Entity, parentOfTarget: Option<Entity>,
                                     transform: EulerTransform, structure: Structure)

  /** What a firing replacement does: nothing when the replacement reference
    * cannot be resolved, otherwise the chosen targets' replacements. */
  datatype Outcome = ReplacementUnresolved | Replaced(replacements: seq<Replacement>)

  /** `choose_multiple(rng, n)` over the candidates: all of them when `n`
    * reaches their number, otherwise `n` drawn from distinct positions. */
  function ChosenTargets(cands: seq<Entity>, n: nat, draw: nat -> nat): (r: seq<Entity>)
    ensures |r| == Min(n, |cands|)
    ensures forall i :: 0 <= i < |r| ==> r[i] in cands
  {
    if n >= |cands| then cands
    else
      var positions := ChosenPositions(|cands|, n, draw);
      seq(n, i requires 0 <= i < n => cands[positions[i]])
  }

  /** Distinct candidates give distinct targets. */
  lemma ChosenTargetsDistinct(cands: seq<Entity>, n: nat, draw: nat -> nat)
    requires forall i, j :: 0 <= i < j < |cands| ==> cands[i] != cands[j]
    ensures var r := ChosenTargets(cands, n, draw);
      forall i, j :: 0 <= i < j < |r| ==> r[i] != r[j]
  {
    if n < |cands| {
      var positions := ChosenPositions(|cands|, n, draw);
      var r := ChosenTargets(cands, n, draw);
      forall i, j | 0 <= i < j < |r| ensures r[i] != r[j] {
        assert r[i] == cands[positions[i]] && r[j] == cands[positions[j]];
        assert positions[i] != positions[j];
      }
    }
  }

  /** Each chosen target that has a transform is replaced in place: the
    * replacement goes under the target's parent with the target's transform. */
  function ReplacementsOf(targets: seq<Entity>, parent: ParentMap, transforms: map<Entity, EulerTransform>,
                          s: Structure): (r: seq<Replacement>)
    ensures |r| <= |targets|
    ensures forall k :: 0 <= k < |r| ==> r[k].target in targets && r[k].target in transforms
  {
    if |targets| == 0 then []
    else
      var t := targets[|targets| - 1];
      ReplacementsOf(targets[..|targets| - 1], parent, transforms, s) +
      (if t in transforms then [Replacement(t, if t in parent then Some(parent[t]) else None, transforms[t], s)] else [])
  }

  /** With every target placed, every target is replaced, in the chosen order. */
  lemma {:induction false} ReplacementsOfAll(targets: seq<Entity>, parent: ParentMap, transforms: map<Entity, EulerTransform>,
                                             s: Structure)
    requires forall t :: t in targets ==> t in transforms
    ensures var r := ReplacementsOf(targets, parent, transforms, s);
      |r| == |targets| && forall k :: 0 <= k < |r| ==> r[k].target == targets[k]
    decreases |targets|
  {
    if |targets| > 0 {
      var init := targets[..|targets| - 1];
      var t := targets[|targets| - 1];
      ReplacementsOfAll(init, parent, transforms, s);
      var head := ReplacementsOf(init, parent, transforms, s);
      var r := ReplacementsOf(targets, parent, transforms, s);
      assert t in transforms;
      assert r == head + [Replacement(t, if t in parent then Some(parent[t]) else None, transforms[t], s)];
      forall k | 0 <= k < |r| ensures r[k].target == targets[k] {
        if k < |head| {
          assert r[k] == head[k] && targets[k] == init[k];
        }
      }
    }
  }

  function FireOutcome(st: SelectivePending, cands: seq<Entity>, parent: ParentMap,
                       transforms: map<Entity, EulerTransform>, importer: Importer, draw: nat -> nat): Outcome
  {
    match TryFrom(st.replacement, importer)
    case Err(_) => ReplacementUnresolved
    case Ok(s) => Replaced(ReplacementsOf(ChosenTargets(cands, st.replaceCount, draw), parent, transforms, s))
  }

  /** Once it fires, a resolvable replacement replaces min(replace_count,
    * candidates) distinct candidates, every one of which is a placed entity. */
  lemma ReplacesMinDistinct(st: SelectivePending, cands: seq<Entity>, parent: ParentMap,
                            transforms: map<Entity, EulerTransform>, importer: Importer, draw: nat -> nat)
    requires forall i, j :: 0 <= i < j < |cands| ==> cands[i] != cands[j]
    requires forall e :: e in cands ==> e in transforms
    requires TryFrom(st.replacement, importer).Ok?
    ensures var out := FireOutcome(st, cands, parent, transforms, importer, draw);
      out.Replaced? && |out.replacements| == Min(st.replaceCount, |cands|) &&
      (forall k :: 0 <= k < |out.replacements| ==> out.replacements[k].target in cands) &&
      (forall k, l :: 0 <= k < l < |out.replacements| ==>
         out.replacements[k].target != out.replacements[l].target)
  {
    var targets := ChosenTargets(cands, st.replaceCount, draw);
    ChosenTargetsDistinct(cands, st.replaceCount, draw);
    ReplacementsOfAll(targets, parent, transforms, TryFrom(st.replacement, importer).value);
  }

  /** Whether an entity's tags include any of the wanted ones. */
  predicate HasAnyTag(entityTags: seq<string>, wanted: seq<string>)
  {
    exists t :: t in entityTags && t in wanted
  }

  /** The candidates under `container`, in query order: tagged entities below
    * it carrying one of the wanted tags. */
  ghost function Candidates(tagged: seq<(Entity, seq<string>)>, parent: ParentMap, container: Entity,
                            wanted: seq<string>): seq<Entity>
  {
    if |tagged| == 0 then []
    else
      var (e, ts) := tagged[|tagged| - 1];
      Candidates(tagged[..|tagged| - 1], parent, container, wanted) +
      (if HasAnyTag(ts, wanted) && Descends(parent, container, e) then [e] else [])
  }

  /** The entities of one tick's snapshot: every entity, the parent links,
    * the tagged entities in query order, and the transforms. */
  datatype World = World(entities: set<Entity>, parent: ParentMap, tagged: seq<(Entity, seq<string>)>,
                         transforms: map<Entity, EulerTransform>)

  /** Collects the candidates under `container`. */
  method CollectCandidates(w: World, container: Entity, wanted: seq<string>, ghost rank: map<Entity, nat>)
    returns (cands: seq<Entity>)
    requires Ranked(w.parent, rank)
    ensures cands == Candidates(w.tagged, w.parent, container, wanted)
  {
    cands := [];
    for i := 0 to |w.tagged|
      invariant cands == Candidates(w.tagged[..i], w.parent, container, wanted)
    {
      assert w.tagged[..i + 1][..i] == w.tagged[..i];
      var (e, ts) := w.tagged[i];
      var below := IsDescendant(w.parent, container, e, rank);
      if HasAnyTag(ts, wanted) && below {
        cands := cands + [e];
      }
    }
    assert w.tagged[..|w.tagged|] == w.tagged;
  }

  /** The step one container takes on this tick. */
  ghost function StepOf(w: World, st: SelectivePending, c: Entity): (SelectivePending, bool)
  {
    SelectiveStep(st, |DescendantsOf(w.entities, w.parent, c)|, |Candidates(w.tagged, w.parent, c, st.tags)|)
  }

  class SelectiveReplacements {
    /** The containers carrying `SelectiveReplacementPending`, with that component. */
    var pending: map<Entity, SelectivePending>

    /** `selective_replacement_progressor`: every pending container takes one
      * step; one that fires resolves its replacement, replaces its chosen
      * targets (or nothing, when the replacement cannot be resolved), and is
      * no longer pending. `draw(c)` is the random stream container `c` draws from. */
    method SelectiveReplacementProgressor(w: World, ghost rank: map<Entity, nat>, importer: Importer,
                                          draw: Entity -> nat -> nat)
      returns (outcomes: map<Entity, Outcome>)
      requires Ranked(w.parent, rank)
      modifies this
      ensures pending.Keys <= old(pending).Keys && outcomes.Keys <= old(pending).Keys
      ensures forall c :: c in old(pending) ==>
        var (st, fire) := StepOf(w, old(pending)[c], c);
        (!fire ==> c in pending && pending[c] == st && c !in outcomes) &&
        (fire ==> (c !in pending && c in outcomes &&
                   outcomes[c] == FireOutcome(st, Candidates(w.tagged, w.parent, c, st.tags), w.parent,
                                              w.transforms, importer, draw(c))))
    {
      var remaining := pending.Keys;
      var next: map<Entity, SelectivePending> := map[];
      outcomes := map[];
      while remaining != {}
        invariant remaining <= pending.Keys
        invariant next.Keys <= pending.Keys - remaining && outcomes.Keys <= pending.Keys - remaining
        invariant forall c :: c in pending.Keys - remaining ==>
          var (st, fire) := StepOf(w, pending[c], c);
          (!fire ==> c in next && next[c] == st && c !in outcomes) &&
          (fire ==> (c !in next && c in outcomes &&
                     outcomes[c] == FireOutcome(st, Candidates(w.tagged, w.parent, c, st.tags), w.parent,
                                                w.transforms, importer, draw(c))))
        modifies {}
        decreases |remaining|
      {
        var c :| c in remaining;
        var st, fire, cands := StepContainer(w, pending[c], c, rank);
        if fire {
          outcomes := outcomes[c := FireOutcome(st, cands, w.parent, w.transforms, importer, draw(c))];
        } else {
          next := next[c := st];
        }
        remaining := remaining - {c};
      }
      pending := next;
    }
  }

  /** One container's tick, counting only as far as the step needs. */
  method StepContainer(w: World, st0: SelectivePending, c: Entity, ghost rank: map<Entity, nat>)
    returns (st: SelectivePending, fire: bool, cands: seq<Entity>)
    requires Ranked(w.parent, rank)
    ensures (st, fire) == StepOf(w, st0, c)
    ensures fire ==> cands == Candidates(w.tagged, w.parent, c, st.tags)
  {
    var total := CountDescendants(w.entities, w.parent, c, rank);
    cands := [];
    if total == 0 {
      return st0.(lastDescendantCount := 0, stableFrames := 0), false, cands;
    }
    if total != st0.lastDescendantCount {
      return st0.(lastDescendantCount := total, stableFrames := 0), false, cands;
    }
    cands := CollectCandidates(w, c, st0.tags, rank);
    var count := |cands|;
    if count == 0 {
      return st0.(lastCandidateCount := 0, stableFrames := 0), false, cands;
    }
    if count != st0.lastCandidateCount {
      return st0.(lastCandidateCount := count, stableFrames := 0), false, cands;
    }
    st := st0.(stableFrames := SatIncU8(st0.stableFrames));
    fire := st.stableFrames >= ReplaceStableFrames;
  }
}
