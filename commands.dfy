/** Bevy's deferred `Commands`: spawning reserves a fresh entity id at once,
  * everything else is queued and applied later, in order. Only the commands
  * the structure spawners issue are represented. */
module CommandQueue {
  import opened Common
  import opened Geometry
  import opened Structures
  import opened TagList

  /** A `NestSpawnEvent` is what dispatching a `Nest` key sends, so the
    * listeners that send one queue a `Dispatch` of a `Nest` key. */
  datatype Command =
    | SpawnEntity(entity: Entity, name: string, transform: EulerTransform)
    | AddChild(parent: Entity, child: Entity)
    | InsertTags(entity: Entity, tags: Tags)
    /** `StructureKey::dispatch_event`: one spawn event for the key's listener. */
    | Dispatch(key: StructureKey, transform: EulerTransform, under: Option<Entity>)
    /** `insert(NavMeshAffector)`. */
    | InsertNavMeshAffector(entity: Entity)
    /** `remove::<QueuedNavMeshAffector>()`. */
    | RemoveQueuedAffector(entity: Entity)
    /** A queued `despawn_recursive` of the entity and everything below it. */
    | DespawnRecursive(entity: Entity)

  class Commands {
    /** The id the next spawn reserves. */
    var nextEntity: Entity
    var queue: seq<Command>

    /** Every spawned entity has an id below the next one, so ids are fresh. */
    ghost predicate Valid()
      reads this
    {
      forall i :: 0 <= i < |queue| && queue[i].SpawnEntity? ==> queue[i].entity < nextEntity
    }

    constructor ()
      ensures Valid() && queue == [] && nextEntity == 0
    {
      nextEntity := 0;
      queue := [];
    }

    /** `spawn_empty().insert(Name).insert(Transform)`, followed by `.id()`. */
    method Spawn(name: string, transform: EulerTransform) returns (e: Entity)
      requires Valid()
      modifies this
      ensures Valid()
      ensures e == old(nextEntity) && nextEntity == e + 1
      ensures queue == old(queue) + [SpawnEntity(e, name, transform)]
    {
      e := nextEntity;
      queue := queue + [SpawnEntity(e, name, transform)];
      nextEntity := nextEntity + 1;
    }

    /** Queues any command other than a spawn. */
    method Push(c: Command)
      requires Valid() && !c.SpawnEntity?
      modifies this
      ensures Valid()
      ensures nextEntity == old(nextEntity) && queue == old(queue) + [c]
    {
      queue := queue + [c];
    }
  }

  /** The `add_child` command for an optional parent: one command or none. */
  function Parenting(parent: Option<Entity>, child: Entity): (r: seq<Command>)
    ensures parent.None? <==> r == []
    ensures parent.Some? ==> r == [AddChild(parent.value, child)]
  {
    if parent.Some? then [AddChild(parent.value, child)] else []
  }

  /** The tag insertion of a container: nothing when there are no tags. */
  function Tagging(e: Entity, tags: seq<string>): (r: seq<Command>)
    ensures |tags| == 0 <==> r == []
    ensures |tags| > 0 ==> r == [InsertTags(e, Tags(tags))]
  {
    if |tags| > 0 then [InsertTags(e, Tags(tags))] else []
  }

  /** How many spawn events a run of commands dispatches. */
  function CountDispatches(cs: seq<Command>): nat
  {
    if |cs| == 0 then 0 else CountDispatches(cs[..|cs| - 1]) + (if cs[|cs| - 1].Dispatch? then 1 else 0)
  }

  /** How many entities a run of commands spawns. */
  function CountSpawns(cs: seq<Command>): nat
  {
    if |cs| == 0 then 0 else CountSpawns(cs[..|cs| - 1]) + (if cs[|cs| - 1].SpawnEntity? then 1 else 0)
  }

  /** Both counts add up over consecutive runs of commands. */
  lemma {:induction false} CountsAppend(a: seq<Command>, b: seq<Command>)
    ensures CountDispatches(a + b) == CountDispatches(a) + CountDispatches(b)
    ensures CountSpawns(a + b) == CountSpawns(a) + CountSpawns(b)
    decreases |b|
  {
    if |b| > 0 {
      var b' := b[..|b| - 1];
      assert (a + b)[..|a + b| - 1] == a + b';
      CountsAppend(a, b');
    } else {
      assert a + b == a;
    }
  }

  /** A run made only of dispatches dispatches once per command and spawns nothing. */
  lemma {:induction false} CountAllDispatches(cs: seq<Command>)
    requires forall i :: 0 <= i < |cs| ==> cs[i].Dispatch?
    ensures CountDispatches(cs) == |cs| && CountSpawns(cs) == 0
    decreases |cs|
  {
    if |cs| > 0 {
      CountAllDispatches(cs[..|cs| - 1]);
    }
  }
}
