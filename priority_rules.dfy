/** The two rules driven by `ColliderPriority` (event_system/event_listeners.rs):
  * which queued colliders become navmesh affectors when navmesh building
  * starts, and which collider of a touching pair is despawned. */
module PriorityRules {
  import opened Common
  import opened CommandQueue

  // ---------------------------------------------------------------------------
  // activate_navmesh_affectors

  /** `NavMeshPriorityThreshold::default()`. */
  const DefaultPriorityThreshold: i8 := 1

  /** The threshold in force: the resource's value, or the default when there is none. */
  function Threshold(configured: Option<i8>): i8
  {
    if configured.Some? then configured.value else DefaultPriorityThreshold
  }

  /** A queued collider affects the navmesh when it has no priority, or one
    * at least the threshold. */
  predicate Affects(priority: Option<i8>, threshold: i8)
  {
    priority.None? || priority.value >= threshold
  }

  /** The commands for one queued collider: an affecting one gains
    * `NavMeshAffector`, and every one loses its queued flag. */
  function AffectorCommand(queued: (Entity, Option<i8>), threshold: i8): seq<Command>
  {
    if Affects(queued.1, threshold) then [InsertNavMeshAffector(queued.0), RemoveQueuedAffector(queued.0)]
    else [RemoveQueuedAffector(queued.0)]
  }

  /** The commands for the queued colliders, in query order. */
  function AffectorCommands(queued: seq<(Entity, Option<i8>)>, threshold: i8): seq<Command>
  {
    if |queued| == 0 then []
    else AffectorCommands(queued[..|queued| - 1], threshold) + AffectorCommand(queued[|queued| - 1], threshold)
  }

  /** Every queued collider loses its flag, and exactly the affecting ones
    * become navmesh affectors; nothing else is touched. */
  lemma AffectorPartition(queued: seq<(Entity, Option<i8>)>, threshold: i8, e: Entity)
    ensures RemoveQueuedAffector(e) in AffectorCommands(queued, threshold) <==>
      exists i :: 0 <= i < |queued| && queued[i].0 == e
    ensures InsertNavMeshAffector(e) in AffectorCommands(queued, threshold) <==>
      exists i :: 0 <= i < |queued| && queued[i].0 == e && Affects(queued[i].1, threshold)
    ensures forall c :: c in AffectorCommands(queued, threshold) ==>
      c.InsertNavMeshAffector? || c.RemoveQueuedAffector?
  {
    AffectorRemovals(queued, threshold, e);
    AffectorInserts(queued, threshold, e);
    AffectorOnlyFlags(queued, threshold);
  }

  /** Whether `e` is queued, with a priority that affects the navmesh when
    * `affecting` is asked for. */
  ghost predicate QueuedWith(queued: seq<(Entity, Option<i8>)>, threshold: i8, e: Entity, affecting: bool)
  {
    exists i :: 0 <= i < |queued| && queued[i].0 == e && (affecting ==> Affects(queued[i].1, threshold))
  }

  /** Being queued is being queued before the last collider or being the last. */
  lemma QueuedWithStep(queued: seq<(Entity, Option<i8>)>, init: seq<(Entity, Option<i8>)>, threshold: i8,
                       e: Entity, affecting: bool)
    requires |queued| > 0 && init == queued[..|queued| - 1]
    ensures QueuedWith(queued, threshold, e, affecting) <==>
      QueuedWith(init, threshold, e, affecting) ||
      (queued[|queued| - 1].0 == e && (affecting ==> Affects(queued[|queued| - 1].1, threshold)))
  {
    if QueuedWith(queued, threshold, e, affecting) {
      var i :| 0 <= i < |queued| && queued[i].0 == e && (affecting ==> Affects(queued[i].1, threshold));
      if i < |init| {
        assert init[i] == queued[i];
      }
    }
    if QueuedWith(init, threshold, e, affecting) {
      var i :| 0 <= i < |init| && init[i].0 == e && (affecting ==> Affects(init[i].1, threshold));
      assert init[i] == queued[i];
    }
  }

  /** Exactly the queued colliders lose their flag. */
  lemma {:induction false} AffectorRemovals(queued: seq<(Entity, Option<i8>)>, threshold: i8, e: Entity)
    ensures RemoveQueuedAffector(e) in AffectorCommands(queued, threshold) <==> QueuedWith(queued, threshold, e, false)
    decreases |queued|
  {
    if |queued| > 0 {
      var init := queued[..|queued| - 1];
      AffectorRemovals(init, threshold, e);
      QueuedWithStep(queued, init, threshold, e, false);
    }
  }

  /** Exactly the queued colliders that affect the navmesh become affectors. */
  lemma {:induction false} AffectorInserts(queued: seq<(Entity, Option<i8>)>, threshold: i8, e: Entity)
    ensures InsertNavMeshAffector(e) in AffectorCommands(queued, threshold) <==> QueuedWith(queued, threshold, e, true)
    decreases |queued|
  {
    if |queued| > 0 {
      var init := queued[..|queued| - 1];
      AffectorInserts(init, threshold, e);
      QueuedWithStep(queued, init, threshold, e, true);
    }
  }

  /** The pass only inserts and removes the two markers. */
  lemma {:induction false} AffectorOnlyFlags(queued: seq<(Entity, Option<i8>)>, threshold: i8)
    ensures forall c :: c in AffectorCommands(queued, threshold) ==>
      c.InsertNavMeshAffector? || c.RemoveQueuedAffector?
    decreases |queued|
  {
    if |queued| > 0 {
      AffectorOnlyFlags(queued[..|queued| - 1], threshold);
    }
  }

  /** Without a threshold resource, a collider of priority 0 or below is
    * dropped and one of priority 1 or above affects the navmesh. */
  lemma DefaultThresholdIsOne(queued: seq<(Entity, Option<i8>)>, i: nat)
    requires i < |queued| && queued[i].1.Some?
    ensures InsertNavMeshAffector(queued[i].0) in AffectorCommands(queued, Threshold(None)) <==>
      exists j :: 0 <= j < |queued| && queued[j].0 == queued[i].0 && (queued[j].1.None? || queued[j].1.value >= 1)
  {
    AffectorPartition(queued, Threshold(None), queued[i].0);
  }

  /** `activate_navmesh_affectors`: one pass over the queued colliders. */
  method ActivateNavmeshAffectors(commands: Commands, queued: seq<(Entity, Option<i8>)>, configured: Option<i8>)
    requires commands.Valid()
    modifies commands
    ensures commands.Valid() && commands.nextEntity == old(commands.nextEntity)
    ensures commands.queue == old(commands.queue) + AffectorCommands(queued, Threshold(configured))
  {
    var thr := Threshold(configured);
    for i := 0 to |queued|
      invariant commands.Valid() && commands.nextEntity == old(commands.nextEntity)
      invariant commands.queue == old(commands.queue) + AffectorCommands(queued[..i], thr)
    {
      var (e, priority) := queued[i];
      assert queued[..i + 1][..i] == queued[..i];
      if priority.None? || priority.value >= thr {
        commands.Push(InsertNavMeshAffector(e));
        commands.Push(RemoveQueuedAffector(e));
      } else {
        commands.Push(RemoveQueuedAffector(e));
      }
    }
    assert queued[..|queued|] == queued;
  }

  // ---------------------------------------------------------------------------
  // collider_priority_despawn_system

  /** Rapier's `CollisionEvent`: only `Started` pairs are considered. */
  datatype CollisionEvent = Started(a: Entity, b: Entity) | Stopped(a: Entity, b: Entity)

  /** The collider a touching pair loses: none unless both carry a priority
    * and the priorities differ; otherwise the one of lower priority. */
  function Loser(pair: (Entity, Entity), priorities: map<Entity, i8>): (r: Option<Entity>)
    ensures r.Some? <==>
      pair.0 in priorities && pair.1 in priorities && priorities[pair.0] != priorities[pair.1]
    ensures r.Some? ==>
      (r.value == pair.0 && priorities[pair.0] < priorities[pair.1]) ||
      (r.value == pair.1 && priorities[pair.1] < priorities[pair.0])
  {
    if pair.0 in priorities && pair.1 in priorities && priorities[pair.0] != priorities[pair.1] then
      Some(if priorities[pair.0] < priorities[pair.1] then pair.0 else pair.1)
    else None
  }

  /** The pairs of the `Started` collision events, in order. */
  function StartedPairs(events: seq<CollisionEvent>): seq<(Entity, Entity)>
  {
    if |events| == 0 then []
    else
      var last := events[|events| - 1];
      StartedPairs(events[..|events| - 1]) + (if last.Started? then [(last.a, last.b)] else [])
  }

  /** The despawn order for a run of pairs: each pair's loser, unless it was
    * already despawned this frame. */
  function Despawned(pairs: seq<(Entity, Entity)>, priorities: map<Entity, i8>): seq<Entity>
  {
    if |pairs| == 0 then []
    else
      var before := Despawned(pairs[..|pairs| - 1], priorities);
      var l := Loser(pairs[|pairs| - 1], priorities);
      before + (if l.Some? && l.value !in before then [l.value] else [])
  }

  /** No entity is despawned twice, and the despawned entities are exactly
    * the losers of the pairs. */
  lemma DespawnedExactly(pairs: seq<(Entity, Entity)>, priorities: map<Entity, i8>)
    ensures var d := Despawned(pairs, priorities);
      (forall i, j :: 0 <= i < j < |d| ==> d[i] != d[j]) &&
      forall e :: e in d <==> exists k :: 0 <= k < |pairs| && Loser(pairs[k], priorities) == Some(e)
  {
    DespawnedDistinct(pairs, priorities);
    DespawnedLosers(pairs, priorities);
  }

  /** Whether no entity occurs twice in `s`. */
  predicate NoRepeats(s: seq<Entity>)
  {
    forall i, j :: 0 <= i < j < |s| ==> s[i] != s[j]
  }

  /** The despawn order never names an entity twice. */
  lemma {:induction false} DespawnedDistinct(pairs: seq<(Entity, Entity)>, priorities: map<Entity, i8>)
    ensures NoRepeats(Despawned(pairs, priorities))
    decreases |pairs|
  {
    if |pairs| > 0 {
      var n := |pairs| - 1;
      var init := pairs[..n];
      DespawnedDistinct(init, priorities);
      var before := Despawned(init, priorities);
      var l := Loser(pairs[n], priorities);
      var d := Despawned(pairs, priorities);
      assert d == before + (if l.Some? && l.value !in before then [l.value] else []);
      forall i, j | 0 <= i < j < |d|
        ensures d[i] != d[j]
      {
        assert i < |before| && d[i] == before[i];
        if j < |before| {
          assert d[j] == before[j] && before[i] != before[j];
        } else {
          assert d[j] == l.value && l.value !in before;
          assert before[i] in before;
        }
      }
    }
  }

  /** Whether `e` loses one of `pairs`. */
  ghost predicate LosesSome(pairs: seq<(Entity, Entity)>, priorities: map<Entity, i8>, e: Entity)
  {
    exists k :: 0 <= k < |pairs| && Loser(pairs[k], priorities) == Some(e)
  }

  /** An entity is despawned exactly when it loses one of the pairs. */
  lemma {:induction false} DespawnedLosers(pairs: seq<(Entity, Entity)>, priorities: map<Entity, i8>)
    ensures forall e :: e in Despawned(pairs, priorities) <==> LosesSome(pairs, priorities, e)
    decreases |pairs|
  {
    if |pairs| > 0 {
      var n := |pairs| - 1;
      var init := pairs[..n];
      DespawnedLosers(init, priorities);
      var before := Despawned(init, priorities);
      var l := Loser(pairs[n], priorities);
      assert Despawned(pairs, priorities) == before + (if l.Some? && l.value !in before then [l.value] else []);
      forall e: Entity ensures LosesSome(pairs, priorities, e) <==> LosesSome(init, priorities, e) || l == Some(e) {
        LosesSomeStep(pairs, init, priorities, e);
      }
    }
  }

  /** Losing one of the pairs is losing one of the earlier pairs or the last. */
  lemma LosesSomeStep(pairs: seq<(Entity, Entity)>, init: seq<(Entity, Entity)>, priorities: map<Entity, i8>, e: Entity)
    requires |pairs| > 0 && init == pairs[..|pairs| - 1]
    ensures LosesSome(pairs, priorities, e) <==>
      LosesSome(init, priorities, e) || Loser(pairs[|pairs| - 1], priorities) == Some(e)
  {
    if LosesSome(pairs, priorities, e) && Loser(pairs[|pairs| - 1], priorities) != Some(e) {
      var k :| 0 <= k < |pairs| && Loser(pairs[k], priorities) == Some(e);
      assert init[k] == pairs[k];
    }
    if LosesSome(init, priorities, e) {
      var k :| 0 <= k < |init| && Loser(init[k], priorities) == Some(e);
      assert init[k] == pairs[k];
    }
  }

  /** A collider whose priority is at least every other priority is never despawned. */
  lemma HighestPrioritySurvives(pairs: seq<(Entity, Entity)>, priorities: map<Entity, i8>, e: Entity)
    requires e in priorities && forall x :: x in priorities ==> priorities[x] <= priorities[e]
    ensures e !in Despawned(pairs, priorities)
  {
    DespawnedExactly(pairs, priorities);
  }

  /** One despawn command per despawned entity. */
  function DespawnCommands(es: seq<Entity>): seq<Command>
  {
    seq(|es|, i requires 0 <= i < |es| => DespawnRecursive(es[i]))
  }

  /** One touching pair: despawn its loser unless `already` holds it. */
  method ConsiderPair(commands: Commands, already: set<Entity>, pair: (Entity, Entity), priorities: map<Entity, i8>,
                      ghost pairs: seq<(Entity, Entity)>)
    returns (already': set<Entity>)
    requires commands.Valid() && (forall e :: e in already <==> e in Despawned(pairs, priorities))
    modifies commands
    ensures commands.Valid() && commands.nextEntity == old(commands.nextEntity)
    ensures (forall e :: e in already' <==> e in Despawned(pairs + [pair], priorities))
    ensures commands.queue ==
      old(commands.queue) + DespawnCommands(Despawned(pairs + [pair], priorities)[|Despawned(pairs, priorities)|..])
  {
    assert (pairs + [pair])[..|pairs|] == pairs;
    ghost var before := Despawned(pairs, priorities);
    already' := already;
    if pair.0 in priorities && pair.1 in priorities {
      var pa, pb := priorities[pair.0], priorities[pair.1];
      if pa != pb {
        var loser := if pa < pb then pair.0 else pair.1;
        if loser !in already {
          already' := already + {loser};
          commands.Push(DespawnRecursive(loser));
          assert Despawned(pairs + [pair], priorities)[|before|..] == [loser];
          return;
        }
      }
    }
    assert Despawned(pairs + [pair], priorities)[|before|..] == [];
  }

  /** `collider_priority_despawn_system`: the contact-force pairs, then the
    * `Started` collision pairs, sharing one set of despawned entities. */
  method ColliderPriorityDespawn(commands: Commands, contacts: seq<(Entity, Entity)>,
                                 collisions: seq<CollisionEvent>, priorities: map<Entity, i8>)
    requires commands.Valid()
    modifies commands
    ensures commands.Valid() && commands.nextEntity == old(commands.nextEntity)
    ensures commands.queue ==
      old(commands.queue) + DespawnCommands(Despawned(contacts + StartedPairs(collisions), priorities))
  {
    ghost var q0 := commands.queue;
    var already := ConsiderContacts(commands, contacts, priorities);
    ghost var q1 := commands.queue;
    ConsiderCollisions(commands, already, contacts, collisions, priorities);
    DespawnedGrows(contacts, StartedPairs(collisions), priorities);
    DespawnQueueJoins(q0, q1, commands.queue, Despawned(contacts + StartedPairs(collisions), priorities),
                      |Despawned(contacts, priorities)|);
  }

  /** The contact-force loop. */
  method ConsiderContacts(commands: Commands, contacts: seq<(Entity, Entity)>, priorities: map<Entity, i8>)
    returns (already: set<Entity>)
    requires commands.Valid()
    modifies commands
    ensures commands.Valid() && commands.nextEntity == old(commands.nextEntity)
    ensures (forall e :: e in already <==> e in Despawned(contacts, priorities))
    ensures commands.queue == old(commands.queue) + DespawnCommands(Despawned(contacts, priorities))
  {
    already := {};
    for i := 0 to |contacts|
      invariant commands.Valid() && commands.nextEntity == old(commands.nextEntity)
      invariant (forall e :: e in already <==> e in Despawned(contacts[..i], priorities))
      invariant commands.queue == old(commands.queue) + DespawnCommands(Despawned(contacts[..i], priorities))
    {
      already := ConsiderContact(commands, contacts, i, already, priorities, old(commands.queue));
    }
    assert contacts[..|contacts|] == contacts;
  }

  /** The contact loop's body: the pair at `i` extends the queue of the pairs before it. */
  method ConsiderContact(commands: Commands, contacts: seq<(Entity, Entity)>, i: nat, already: set<Entity>,
                         priorities: map<Entity, i8>, ghost q0: seq<Command>)
    returns (already': set<Entity>)
    requires i < |contacts| && commands.Valid()
    requires (forall e :: e in already <==> e in Despawned(contacts[..i], priorities))
    requires commands.queue == q0 + DespawnCommands(Despawned(contacts[..i], priorities))
    modifies commands
    ensures commands.Valid() && commands.nextEntity == old(commands.nextEntity)
    ensures (forall e :: e in already' <==> e in Despawned(contacts[..i + 1], priorities))
    ensures commands.queue == q0 + DespawnCommands(Despawned(contacts[..i + 1], priorities))
  {
    ghost var d0 := Despawned(contacts[..i], priorities);
    ghost var q1 := commands.queue;
    already' := ConsiderPair(commands, already, contacts[i], priorities, contacts[..i]);
    assert contacts[..i] + [contacts[i]] == contacts[..i + 1];
    DespawnedGrows(contacts[..i], [contacts[i]], priorities);
    DespawnQueueJoins(q0, q1, commands.queue, Despawned(contacts[..i + 1], priorities), |d0|);
  }

  /** The collision-event loop, continuing after the contact pairs. */
  method ConsiderCollisions(commands: Commands, already: set<Entity>, contacts: seq<(Entity, Entity)>,
                            collisions: seq<CollisionEvent>, priorities: map<Entity, i8>)
    requires commands.Valid()
    requires (forall e :: e in already <==> e in Despawned(contacts, priorities))
    modifies commands
    ensures commands.Valid() && commands.nextEntity == old(commands.nextEntity)
    ensures |Despawned(contacts, priorities)| <= |Despawned(contacts + StartedPairs(collisions), priorities)|
    ensures commands.queue == old(commands.queue) +
      DespawnCommands(Despawned(contacts + StartedPairs(collisions), priorities)[|Despawned(contacts, priorities)|..])
  {
    var seen := already;
    ghost var d0 := Despawned(contacts, priorities);
    assert contacts + StartedPairs(collisions[..0]) == contacts;
    for j := 0 to |collisions|
      invariant commands.Valid() && commands.nextEntity == old(commands.nextEntity)
      invariant (forall e :: e in seen <==> e in Despawned(contacts + StartedPairs(collisions[..j]), priorities))
      invariant |d0| <= |Despawned(contacts + StartedPairs(collisions[..j]), priorities)|
      invariant commands.queue == old(commands.queue) +
        DespawnCommands(Despawned(contacts + StartedPairs(collisions[..j]), priorities)[|d0|..])
    {
      seen := ConsiderCollision(commands, contacts, collisions, j, seen, priorities, old(commands.queue), d0);
    }
    assert collisions[..|collisions|] == collisions;
  }

  /** The collision loop's body: the event at `j` extends the queue of the
    * events before it. */
  method ConsiderCollision(commands: Commands, contacts: seq<(Entity, Entity)>, collisions: seq<CollisionEvent>,
                           j: nat, seen: set<Entity>, priorities: map<Entity, i8>, ghost q0: seq<Command>,
                           ghost d0: seq<Entity>)
    returns (seen': set<Entity>)
    requires j < |collisions| && commands.Valid()
    requires (forall e :: e in seen <==> e in Despawned(contacts + StartedPairs(collisions[..j]), priorities))
    requires |d0| <= |Despawned(contacts + StartedPairs(collisions[..j]), priorities)|
    requires commands.queue == q0 + DespawnCommands(Despawned(contacts + StartedPairs(collisions[..j]), priorities)[|d0|..])
    modifies commands
    ensures commands.Valid() && commands.nextEntity == old(commands.nextEntity)
    ensures (forall e :: e in seen' <==> e in Despawned(contacts + StartedPairs(collisions[..j + 1]), priorities))
    ensures |d0| <= |Despawned(contacts + StartedPairs(collisions[..j + 1]), priorities)|
    ensures commands.queue == q0 + DespawnCommands(Despawned(contacts + StartedPairs(collisions[..j + 1]), priorities)[|d0|..])
  {
    assert collisions[..j + 1][..j] == collisions[..j];
    var ev := collisions[j];
    seen' := seen;
    if ev.Started? {
      ghost var pairs := contacts + StartedPairs(collisions[..j]);
      ghost var d1 := Despawned(pairs, priorities);
      seen' := ConsiderPair(commands, seen, (ev.a, ev.b), priorities, pairs);
      assert pairs + [(ev.a, ev.b)] == contacts + StartedPairs(collisions[..j + 1]);
      DespawnedGrows(pairs, [(ev.a, ev.b)], priorities);
      DespawnQueueSteps(q0, d0, d1, Despawned(pairs + [(ev.a, ev.b)], priorities));
    } else {
      assert StartedPairs(collisions[..j + 1]) == StartedPairs(collisions[..j]);
    }
  }

  /** The despawn commands queued for a prefix of an order and for the rest
    * make up those of the whole order. */
  lemma DespawnQueueJoins(q0: seq<Command>, q1: seq<Command>, q2: seq<Command>, d: seq<Entity>, k: nat)
    requires k <= |d|
    requires q1 == q0 + DespawnCommands(d[..k]) && q2 == q1 + DespawnCommands(d[k..])
    ensures q2 == q0 + DespawnCommands(d)
  {
    assert d[..k] + d[k..] == d;
    DespawnCommandsAppend(d[..k], d[k..]);
  }

  /** Queuing the commands from `d1` on to `d2` after those from `d0` on to `d1`. */
  lemma DespawnQueueSteps(q: seq<Command>, d0: seq<Entity>, d1: seq<Entity>, d2: seq<Entity>)
    requires |d0| <= |d1| <= |d2| && d2[..|d1|] == d1
    ensures q + DespawnCommands(d1[|d0|..]) + DespawnCommands(d2[|d1|..]) == q + DespawnCommands(d2[|d0|..])
  {
    DespawnCommandsAppend(d1[|d0|..], d2[|d1|..]);
    assert d1[|d0|..] + d2[|d1|..] == d2[|d0|..];
  }

  /** The despawn order of a run of pairs extends that of any prefix. */
  lemma {:induction false} DespawnedGrows(a: seq<(Entity, Entity)>, b: seq<(Entity, Entity)>, priorities: map<Entity, i8>)
    ensures |Despawned(a, priorities)| <= |Despawned(a + b, priorities)|
    ensures Despawned(a + b, priorities)[..|Despawned(a, priorities)|] == Despawned(a, priorities)
    decreases |b|
  {
    if |b| > 0 {
      var b' := b[..|b| - 1];
      assert (a + b)[..|a + b| - 1] == a + b';
      DespawnedGrows(a, b', priorities);
    } else {
      assert a + b == a;
    }
  }

  /** Despawn commands of consecutive runs concatenate. */
  lemma DespawnCommandsAppend(s: seq<Entity>, t: seq<Entity>)
    ensures DespawnCommands(s + t) == DespawnCommands(s) + DespawnCommands(t)
  {
    assert forall i :: 0 <= i < |s + t| ==> DespawnCommands(s + t)[i] == (DespawnCommands(s) + DespawnCommands(t))[i];
  }
}
