/** The listeners that repeat one reference (event_system/event_listeners.rs):
  * `loop_spawn_listener` groups its copies under a fresh "Loop" container,
  * `nesting_loop_spawn_listener` sends them straight to the event's parent.
  * Every copy is a `NestSpawnEvent`, queued as a `Dispatch` of a `Nest` key. */
module RepeatListeners {
  import opened Common
  import opened Geometry
  import opened Structures
  import opened CommandQueue
  import opened GenerationPipeline

  // ---------------------------------------------------------------------------
  // loop_spawn_listener

  /** `LoopSpawnEvent`. */
  datatype LoopSpawnEvent = LoopSpawnEvent(reference: StructureReference, shiftTransform: EulerTransform,
                                           childTransform: EulerTransform, count: nat,
                                           transform: EulerTransform, parent: Option<Entity>)

  /** The rotation `Quat::from_euler(XYZ, angles in radians · k) * v` applied
    * to `v`, for angles in degrees and a repeat `k`. Quaternion arithmetic is
    * not modelled: the loop listener takes it as a parameter of this type. */
  type Rotate = (Vec3, nat, Vec3) -> Vec3

  /** Component-wise product. */
  function Mul(a: Vec3, b: Vec3): Vec3 { Vec3(a.x * b.x, a.y * b.y, a.z * b.z) }

  /** `get_looped_position_list`: copy `i` (counting from 0) sits at the origin
    * plus the shift translation, stretched by `1 + scale · i` and rotated `i`
    * times by the shift rotation. */
  function LoopedPositions(origin: Vec3, shift: EulerTransform, count: nat, rotate: Rotate): (ps: seq<Vec3>)
    ensures |ps| == count
  {
    seq(count, i requires 0 <= i < count =>
      Add(origin, rotate(shift.rotation, i, Mul(shift.translation, Add(One, Scale(i as real, shift.scale))))))
  }

  /** The transform of copy `i`: its position plus `i` times the child
    * translation, `i` times the child rotation, and scale `1 + i · s`. */
  function LoopChild(c: EulerTransform, pos: Vec3, i: nat): EulerTransform
  {
    EulerTransform(Add(pos, Scale(i as real, c.translation)), Scale(i as real, c.rotation),
                   Add(One, Scale(i as real, c.scale)))
  }

  /** The first copy keeps its position, is not rotated and has unit scale;
    * each further copy adds one child rotation and one child scale step. */
  lemma LoopChildProgression(c: EulerTransform, p: Vec3, q: Vec3, i: nat)
    ensures LoopChild(c, p, 0) == EulerTransform(p, Zero, One)
    ensures LoopChild(c, q, i + 1).rotation == Add(LoopChild(c, p, i).rotation, c.rotation)
    ensures LoopChild(c, q, i + 1).scale == Add(LoopChild(c, p, i).scale, c.scale)
  {
  }

  /** The nest requests of one loop event, all under its container. */
  function LoopRequests(e: LoopSpawnEvent, container: Entity, rotate: Rotate): (r: seq<Command>)
    ensures |r| == e.count
  {
    var ps := LoopedPositions(e.transform.translation, e.shiftTransform, e.count, rotate);
    seq(e.count, i requires 0 <= i < e.count =>
      Dispatch(Nest(e.reference), LoopChild(e.childTransform, ps[i], i), Some(container)))
  }

  /** One loop event: a "Loop" container at the event's transform, parented
    * when the event has a parent, then one nest request per copy. */
  function LoopCommands(e: LoopSpawnEvent, container: Entity, rotate: Rotate): seq<Command>
  {
    [SpawnEntity(container, "Loop", e.transform)] + Parenting(e.parent, container) + LoopRequests(e, container, rotate)
  }

  /** The commands of a run of loop events, whose containers take the ids
    * from `first` on. */
  function LoopAll(events: seq<LoopSpawnEvent>, first: Entity, rotate: Rotate): seq<Command>
  {
    if |events| == 0 then []
    else LoopAll(events[..|events| - 1], first, rotate) +
         LoopCommands(events[|events| - 1], first + |events| - 1, rotate)
  }

  /** The copies asked for by a run of loop events. */
  function LoopTotal(events: seq<LoopSpawnEvent>): nat
  {
    if |events| == 0 then 0 else LoopTotal(events[..|events| - 1]) + events[|events| - 1].count
  }

  /** One loop event spawns one container and sends `count` nest requests. */
  lemma LoopCommandsCounts(e: LoopSpawnEvent, container: Entity, rotate: Rotate)
    ensures CountSpawns(LoopCommands(e, container, rotate)) == 1
    ensures CountDispatches(LoopCommands(e, container, rotate)) == e.count
  {
    var head := [SpawnEntity(container, "Loop", e.transform)] + Parenting(e.parent, container);
    CountsAppend(head, LoopRequests(e, container, rotate));
    CountsAppend([SpawnEntity(container, "Loop", e.transform)], Parenting(e.parent, container));
    CountAllDispatches(LoopRequests(e, container, rotate));
    assert CountSpawns([SpawnEntity(container, "Loop", e.transform)]) == 1;
    assert CountSpawns(Parenting(e.parent, container)) == 0 by {
      if e.parent.Some? {
        assert CountSpawns(Parenting(e.parent, container)) == CountSpawns([]) + 0;
      }
    }
    assert CountDispatches(head) == 0 by {
      if e.parent.Some? {
        assert CountDispatches(Parenting(e.parent, container)) == CountDispatches([]) + 0;
      }
    }
  }

  /** A run of loop events spawns one container per event and sends as many
    * nest requests as the events' counts add up to. */
  lemma {:induction false} LoopAllCounts(events: seq<LoopSpawnEvent>, first: Entity, rotate: Rotate)
    ensures CountSpawns(LoopAll(events, first, rotate)) == |events|
    ensures CountDispatches(LoopAll(events, first, rotate)) == LoopTotal(events)
    decreases |events|
  {
    if |events| > 0 {
      var n := |events| - 1;
      LoopAllCounts(events[..n], first, rotate);
      LoopAllLast(events, first, rotate);
      var last :| LoopAll(events, first, rotate) == LoopAll(events[..n], first, rotate) + last &&
                  CountSpawns(last) == 1 && CountDispatches(last) == events[n].count;
      CountsAppend(LoopAll(events[..n], first, rotate), last);
    }
  }

  /** The last event's commands follow the others' and count one spawn and
    * its copies. */
  lemma LoopAllLast(events: seq<LoopSpawnEvent>, first: Entity, rotate: Rotate)
    requires |events| > 0
    ensures exists last ::
              LoopAll(events, first, rotate) == LoopAll(events[..|events| - 1], first, rotate) + last &&
              CountSpawns(last) == 1 && CountDispatches(last) == events[|events| - 1].count
  {
    var last := LoopCommands(events[|events| - 1], first + |events| - 1, rotate);
    LoopCommandsCounts(events[|events| - 1], first + |events| - 1, rotate);
    assert LoopAll(events, first, rotate) == LoopAll(events[..|events| - 1], first, rotate) + last &&
      CountSpawns(last) == 1 && CountDispatches(last) == events[|events| - 1].count;
  }

  /** Every request of a loop event nests the event's reference under that
    * event's container. */
  lemma LoopRequestsUnderContainer(e: LoopSpawnEvent, container: Entity, rotate: Rotate, k: nat)
    requires k < |LoopRequests(e, container, rotate)|
    ensures LoopRequests(e, container, rotate)[k].Dispatch?
    ensures LoopRequests(e, container, rotate)[k].key == Nest(e.reference)
    ensures LoopRequests(e, container, rotate)[k].under == Some(container)
  {
  }

  /** The requests of one loop event, queued copy by copy. */
  method QueueLoopCopies(commands: Commands, e: LoopSpawnEvent, container: Entity, rotate: Rotate)
    requires commands.Valid()
    modifies commands
    ensures commands.Valid() && commands.nextEntity == old(commands.nextEntity)
    ensures commands.queue == old(commands.queue) + LoopRequests(e, container, rotate)
  {
    var positions := LoopedPositions(e.transform.translation, e.shiftTransform, e.count, rotate);
    ghost var all := LoopRequests(e, container, rotate);
    for n := 0 to e.count
      invariant commands.Valid() && commands.nextEntity == old(commands.nextEntity)
      invariant commands.queue == old(commands.queue) + all[..n]
    {
      assert all[..n + 1] == all[..n] + [all[n]];
      commands.Push(Dispatch(Nest(e.reference), LoopChild(e.childTransform, positions[n], n), Some(container)));
    }
    assert all[..e.count] == all;
  }

  /** One loop event: the container, its parenting, then the copies. */
  method LoopOne(commands: Commands, e: LoopSpawnEvent, rotate: Rotate) returns (container: Entity)
    requires commands.Valid()
    modifies commands
    ensures commands.Valid()
    ensures container == old(commands.nextEntity) && commands.nextEntity == container + 1
    ensures commands.queue == old(commands.queue) + LoopCommands(e, container, rotate)
  {
    container := commands.Spawn("Loop", e.transform);
    if e.parent.Some? {
      commands.Push(AddChild(e.parent.value, container));
    }
    QueueLoopCopies(commands, e, container, rotate);
  }

  /** `loop_spawn_listener`: every event in turn, then the idle counter is
    * reset if any event was read. */
  method LoopSpawnListener(commands: Commands, p: Pipeline, events: seq<LoopSpawnEvent>, rotate: Rotate)
    requires commands.Valid()
    modifies commands, p`idleFrames
    ensures commands.Valid() && commands.nextEntity == old(commands.nextEntity) + |events|
    ensures commands.queue == old(commands.queue) + LoopAll(events, old(commands.nextEntity), rotate)
    ensures p.idleFrames == if |events| > 0 then 0 else old(p.idleFrames)
  {
    var processed := false;
    for i := 0 to |events|
      invariant commands.Valid() && commands.nextEntity == old(commands.nextEntity) + i
      invariant commands.queue == old(commands.queue) + LoopAll(events[..i], old(commands.nextEntity), rotate)
      invariant processed <==> i > 0
      invariant p.idleFrames == old(p.idleFrames)
    {
      processed := true;
      var container := LoopOne(commands, events[i], rotate);
      assert events[..i + 1][..i] == events[..i];
    }
    assert events[..|events|] == events;
    if processed {
      p.idleFrames := 0;
    }
  }

  // ---------------------------------------------------------------------------
  // nesting_loop_spawn_listener

  /** `NestingLoopSpawnEvent`. */
  datatype NestingLoopSpawnEvent = NestingLoopSpawnEvent(reference: StructureReference,
                                                         repeatedTransform: EulerTransform, count: nat,
                                                         transform: EulerTransform, parent: Option<Entity>)

  /** Copy `i` of a nesting loop: the base transform followed by `i` steps. */
  function NestingTransform(base: EulerTransform, step: EulerTransform, i: nat, compose: Compose): EulerTransform
  {
    if i == 0 then base else compose(NestingTransform(base, step, i - 1, compose), step)
  }

  /** The nest requests of one nesting-loop event, all under the event's own parent. */
  function NestingRequests(e: NestingLoopSpawnEvent, compose: Compose): (r: seq<Command>)
    ensures |r| == e.count
  {
    seq(e.count, i requires 0 <= i < e.count =>
      Dispatch(Nest(e.reference), NestingTransform(e.transform, e.repeatedTransform, i, compose), e.parent))
  }

  /** The commands of a run of nesting-loop events. */
  function NestingAll(events: seq<NestingLoopSpawnEvent>, compose: Compose): seq<Command>
  {
    if |events| == 0 then []
    else NestingAll(events[..|events| - 1], compose) + NestingRequests(events[|events| - 1], compose)
  }

  /** The copies asked for by a run of nesting-loop events. */
  function NestingTotal(events: seq<NestingLoopSpawnEvent>): nat
  {
    if |events| == 0 then 0 else NestingTotal(events[..|events| - 1]) + events[|events| - 1].count
  }

  /** A run of nesting-loop events spawns no container and sends as many nest
    * requests as the events' counts add up to. */
  lemma {:induction false} NestingAllCounts(events: seq<NestingLoopSpawnEvent>, compose: Compose)
    ensures CountSpawns(NestingAll(events, compose)) == 0
    ensures CountDispatches(NestingAll(events, compose)) == NestingTotal(events)
    decreases |events|
  {
    if |events| > 0 {
      var n := |events| - 1;
      NestingAllCounts(events[..n], compose);
      CountsAppend(NestingAll(events[..n], compose), NestingRequests(events[n], compose));
      CountAllDispatches(NestingRequests(events[n], compose));
    }
  }

  /** Each copy is the one before it followed by one more step. */
  lemma NestingSteps(e: NestingLoopSpawnEvent, compose: Compose, i: nat)
    requires i + 1 < e.count
    ensures NestingRequests(e, compose)[i + 1].transform ==
      compose(NestingRequests(e, compose)[i].transform, e.repeatedTransform)
    ensures NestingRequests(e, compose)[0].transform == e.transform
  {
  }

  /** The copies of one nesting-loop event; copy `i` is rebuilt from the base
    * with `i` steps. */
  method QueueNestingCopies(commands: Commands, e: NestingLoopSpawnEvent, compose: Compose)
    requires commands.Valid()
    modifies commands
    ensures commands.Valid() && commands.nextEntity == old(commands.nextEntity)
    ensures commands.queue == old(commands.queue) + NestingRequests(e, compose)
  {
    ghost var all := NestingRequests(e, compose);
    for i := 0 to e.count
      invariant commands.Valid() && commands.nextEntity == old(commands.nextEntity)
      invariant commands.queue == old(commands.queue) + all[..i]
    {
      var current := e.transform;
      for j := 0 to i
        invariant current == NestingTransform(e.transform, e.repeatedTransform, j, compose)
      {
        current := compose(current, e.repeatedTransform);
      }
      assert all[..i + 1] == all[..i] + [all[i]];
      commands.Push(Dispatch(Nest(e.reference), current, e.parent));
    }
    assert all[..e.count] == all;
  }

  /** `nesting_loop_spawn_listener`: every event in turn, then the idle
    * counter is reset if any event was read. */
  method NestingLoopSpawnListener(commands: Commands, p: Pipeline, events: seq<NestingLoopSpawnEvent>,
                                  compose: Compose)
    requires commands.Valid()
    modifies commands, p`idleFrames
    ensures commands.Valid() && commands.nextEntity == old(commands.nextEntity)
    ensures commands.queue == old(commands.queue) + NestingAll(events, compose)
    ensures p.idleFrames == if |events| > 0 then 0 else old(p.idleFrames)
  {
    var processed := false;
    for i := 0 to |events|
      invariant commands.Valid() && commands.nextEntity == old(commands.nextEntity)
      invariant commands.queue == old(commands.queue) + NestingAll(events[..i], compose)
      invariant processed <==> i > 0
      invariant p.idleFrames == old(p.idleFrames)
    {
      processed := true;
      QueueNestingCopies(commands, events[i], compose);
      assert events[..i + 1][..i] == events[..i];
    }
    assert events[..|events|] == events;
    if processed {
      p.idleFrames := 0;
    }
  }
}
