/** `reflection_spawn_listener` (event_system/event_listeners.rs): a plain
  * reflection nests the reference twice, at its transform and at the mirror
  * image of its translation; a child reflection imports the reference and
  * expands a composite holding every entry together with its mirror image. */
module ReflectionListener {
  import opened Common
  import opened Geometry
  import opened Structures
  import opened CommandQueue
  import opened SpawnableStructure
  import opened Helpers

  /** `ReflectionSpawnEvent`. */
  datatype ReflectionSpawnEvent = ReflectionSpawnEvent(reference: StructureReference, plane: Plane3d, point: Vec3,
                                                       reflectChild: bool, transform: EulerTransform,
                                                       parent: Option<Entity>)

  // ---------------------------------------------------------------------------
  // Mirror images

  /** A transform with its translation mirrored in the plane through `point`. */
  function Mirrored(t: EulerTransform, plane: Plane3d, point: Vec3): EulerTransform
  {
    t.(translation := ReflectPoint(t.translation, plane, point))
  }

  /** A child's mirror image: its translation, taken relative to the
    * container at `base`, is mirrored in world space and made relative again. */
  function MirroredChild(child: EulerTransform, base: Vec3, plane: Plane3d, point: Vec3): EulerTransform
  {
    child.(translation := Sub(ReflectPoint(Add(base, child.translation), plane, point), base))
  }

  /** Mirroring a transform twice gives it back. */
  lemma MirroredTwice(t: EulerTransform, plane: Plane3d, point: Vec3)
    ensures Mirrored(Mirrored(t, plane, point), plane, point) == t
  {
    ReflectTwice(t.translation, plane, point);
  }

  /** Mirroring a child twice gives it back, wherever the container is. */
  lemma MirroredChildTwice(child: EulerTransform, base: Vec3, plane: Plane3d, point: Vec3)
    ensures MirroredChild(MirroredChild(child, base, plane, point), base, plane, point) == child
  {
    var w := ReflectPoint(Add(base, child.translation), plane, point);
    assert Add(base, Sub(w, base)) == w;
    ReflectTwice(Add(base, child.translation), plane, point);
    assert Sub(Add(base, child.translation), base) == child.translation;
  }

  /** The composite's entries: each entry of `data` followed by its mirror image. */
  function ReflectedData(data: seq<(StructureKey, EulerTransform)>, base: Vec3, plane: Plane3d, point: Vec3)
    : seq<(StructureKey, EulerTransform)>
  {
    if |data| == 0 then []
    else
      var (k, t) := data[|data| - 1];
      ReflectedData(data[..|data| - 1], base, plane, point) + [(k, t), (k, MirroredChild(t, base, plane, point))]
  }

  /** The composite has two entries per entry: entry `2i` is entry `i` as it
    * is, and entry `2i + 1` has the same key and its mirror image. */
  lemma {:induction false} ReflectedDataShape(data: seq<(StructureKey, EulerTransform)>, base: Vec3, plane: Plane3d,
                                              point: Vec3)
    ensures var r := ReflectedData(data, base, plane, point);
      |r| == 2 * |data| &&
      forall i :: 0 <= i < |data| ==>
        r[2 * i] == data[i] && r[2 * i + 1] == (data[i].0, MirroredChild(data[i].1, base, plane, point))
    decreases |data|
  {
    if |data| > 0 {
      var n := |data| - 1;
      var init := data[..n];
      ReflectedDataShape(init, base, plane, point);
      var r := ReflectedData(data, base, plane, point);
      var ri := ReflectedData(init, base, plane, point);
      assert r == ri + [data[n], (data[n].0, MirroredChild(data[n].1, base, plane, point))];
      forall i | 0 <= i < |data|
        ensures r[2 * i] == data[i] && r[2 * i + 1] == (data[i].0, MirroredChild(data[i].1, base, plane, point))
      {
        if i < n {
          assert r[2 * i] == ri[2 * i] && r[2 * i + 1] == ri[2 * i + 1];
          assert init[i] == data[i];
        }
      }
    }
  }

  /** The composite's entries, built entry by entry. */
  method BuildReflectedData(data: seq<(StructureKey, EulerTransform)>, base: Vec3, plane: Plane3d, point: Vec3)
    returns (combined: seq<(StructureKey, EulerTransform)>)
    ensures combined == ReflectedData(data, base, plane, point)
  {
    combined := [];
    for i := 0 to |data|
      invariant combined == ReflectedData(data[..i], base, plane, point)
    {
      var (key, child) := data[i];
      combined := combined + [(key, child)];
      var reflectedWorld := ReflectPoint(Add(base, child.translation), plane, point);
      combined := combined + [(key, child.(translation := Sub(reflectedWorld, base)))];
      assert data[..i + 1][..i] == data[..i];
    }
    assert data[..|data|] == data;
  }

  // ---------------------------------------------------------------------------
  // The listener

  /** A plain reflection: an identity "Reflection" container, parented when
    * the event has a parent, and two nest requests under it, at the event's
    * transform and at its mirror image. */
  function PlainReflection(e: ReflectionSpawnEvent, container: Entity): seq<Command>
  {
    [SpawnEntity(container, "Reflection", Identity)] + Parenting(e.parent, container) +
      [Dispatch(Nest(e.reference), e.transform, Some(container)),
       Dispatch(Nest(e.reference), Mirrored(e.transform, e.plane, e.point), Some(container))]
  }

  /** A child reflection of the imported structure `s`: a container named
    * after it at the event's transform, parented, tagged when `s` has tags,
    * then the composite's requests under an identity base transform. */
  function ChildReflection(e: ReflectionSpawnEvent, s: Structure, container: Entity, compose: Compose): seq<Command>
  {
    [SpawnEntity(container, s.name + " (Child Reflection)", e.transform)] + Parenting(e.parent, container) +
      Tagging(container, s.tags) +
      Requests(ReflectedData(s.data, e.transform.translation, e.plane, e.point), Identity, Some(container), compose)
  }

  /** The commands of one event, whose container would get the id
    * `container`, and whether that container was spawned: an import failure
    * of a child reflection spawns and sends nothing. */
  function ReflectionCommands(e: ReflectionSpawnEvent, container: Entity, importer: Importer, compose: Compose)
    : (seq<Command>, bool)
  {
    if !e.reflectChild then (PlainReflection(e, container), true)
    else match TryFrom(e.reference, importer)
      case Ok(s) => (ChildReflection(e, s, container, compose), true)
      case Err(_) => ([], false)
  }

  /** The commands of a run of events, and the id the next spawn would take. */
  function ReflectionAll(events: seq<ReflectionSpawnEvent>, first: Entity, importer: Importer, compose: Compose)
    : (seq<Command>, Entity)
  {
    if |events| == 0 then ([], first)
    else
      var (before, next) := ReflectionAll(events[..|events| - 1], first, importer, compose);
      var (cs, spawned) := ReflectionCommands(events[|events| - 1], next, importer, compose);
      (before + cs, if spawned then next + 1 else next)
  }

  /** The two requests of a plain reflection differ only in translation, and
    * each is the other's mirror image. */
  lemma PlainReflectionMirrors(e: ReflectionSpawnEvent, container: Entity)
    ensures var cs := PlainReflection(e, container);
      var a := cs[|cs| - 2].transform;
      var b := cs[|cs| - 1].transform;
      a.rotation == b.rotation && a.scale == b.scale &&
      b == Mirrored(a, e.plane, e.point) && a == Mirrored(b, e.plane, e.point)
  {
    MirroredTwice(e.transform, e.plane, e.point);
  }

  /** Parenting and tagging neither spawn nor dispatch. */
  lemma DecorationCounts(parent: Option<Entity>, container: Entity, tags: seq<string>)
    ensures CountSpawns(Parenting(parent, container)) == 0 && CountDispatches(Parenting(parent, container)) == 0
    ensures CountSpawns(Tagging(container, tags)) == 0 && CountDispatches(Tagging(container, tags)) == 0
  {
    if parent.Some? {
      assert Parenting(parent, container)[..0] == [];
    }
    if |tags| > 0 {
      assert Tagging(container, tags)[..0] == [];
    }
  }

  /** Each event spawns its container unless it is a child reflection whose
    * import fails, a plain reflection sends two nest requests and a child
    * reflection two requests per entry of the imported structure. */
  lemma ReflectionCommandsCounts(e: ReflectionSpawnEvent, container: Entity, importer: Importer, compose: Compose)
    ensures var (cs, spawned) := ReflectionCommands(e, container, importer, compose);
      && (!spawned <==> e.reflectChild && TryFrom(e.reference, importer).Err?)
      && CountSpawns(cs) == (if spawned then 1 else 0)
      && (!e.reflectChild ==> CountDispatches(cs) == 2)
      && (e.reflectChild && TryFrom(e.reference, importer).Ok? ==>
            CountDispatches(cs) == 2 * |TryFrom(e.reference, importer).value.data|)
  {
    if !e.reflectChild {
      PlainReflectionCounts(e, container);
    } else if TryFrom(e.reference, importer).Ok? {
      ChildReflectionCounts(e, TryFrom(e.reference, importer).value, container, compose);
    }
  }

  lemma PlainReflectionCounts(e: ReflectionSpawnEvent, container: Entity)
    ensures CountSpawns(PlainReflection(e, container)) == 1
    ensures CountDispatches(PlainReflection(e, container)) == 2
  {
    var head := [SpawnEntity(container, "Reflection", Identity)];
    var pair := [Dispatch(Nest(e.reference), e.transform, Some(container)),
                 Dispatch(Nest(e.reference), Mirrored(e.transform, e.plane, e.point), Some(container))];
    assert PlainReflection(e, container) == head + Parenting(e.parent, container) + pair;
    DecorationCounts(e.parent, container, []);
    CountsAppend(head, Parenting(e.parent, container));
    CountsAppend(head + Parenting(e.parent, container), pair);
    CountAllDispatches(pair);
    assert CountSpawns(head) == 1 by { assert head[..0] == []; }
    assert CountDispatches(head) == 0 by { assert head[..0] == []; }
  }

  lemma ChildReflectionCounts(e: ReflectionSpawnEvent, s: Structure, container: Entity, compose: Compose)
    ensures CountSpawns(ChildReflection(e, s, container, compose)) == 1
    ensures CountDispatches(ChildReflection(e, s, container, compose)) == 2 * |s.data|
  {
    var head := [SpawnEntity(container, s.name + " (Child Reflection)", e.transform)];
    var data := ReflectedData(s.data, e.transform.translation, e.plane, e.point);
    var reqs := Requests(data, Identity, Some(container), compose);
    var deco := head + Parenting(e.parent, container) + Tagging(container, s.tags);
    assert ChildReflection(e, s, container, compose) == deco + reqs;
    DecorationCounts(e.parent, container, s.tags);
    CountsAppend(head, Parenting(e.parent, container));
    CountsAppend(head + Parenting(e.parent, container), Tagging(container, s.tags));
    CountsAppend(deco, reqs);
    RequestsPerEntry(data, Identity, Some(container), compose);
    CountAllDispatches(reqs);
    ReflectedDataShape(s.data, e.transform.translation, e.plane, e.point);
    assert CountSpawns(head) == 1 by { assert head[..0] == []; }
    assert CountDispatches(head) == 0 by { assert head[..0] == []; }
  }

  /** The reflection container: spawned, then parented when there is a parent. */
  method SpawnParented(commands: Commands, name: string, transform: EulerTransform, parent: Option<Entity>)
    returns (container: Entity)
    requires commands.Valid()
    modifies commands
    ensures commands.Valid()
    ensures container == old(commands.nextEntity) && commands.nextEntity == container + 1
    ensures commands.queue == old(commands.queue) + [SpawnEntity(container, name, transform)] + Parenting(parent, container)
  {
    container := commands.Spawn(name, transform);
    if parent.Some? {
      commands.Push(AddChild(parent.value, container));
    }
  }

  /** A plain reflection. */
  method ReflectPlain(commands: Commands, e: ReflectionSpawnEvent) returns (container: Entity)
    requires commands.Valid()
    modifies commands
    ensures commands.Valid()
    ensures container == old(commands.nextEntity) && commands.nextEntity == container + 1
    ensures commands.queue == old(commands.queue) + PlainReflection(e, container)
  {
    container := SpawnParented(commands, "Reflection", Identity, e.parent);
    commands.Push(Dispatch(Nest(e.reference), e.transform, Some(container)));
    var reflected := e.transform.(translation := ReflectPoint(e.transform.translation, e.plane, e.point));
    commands.Push(Dispatch(Nest(e.reference), reflected, Some(container)));
  }

  /** A child reflection of the imported structure `s`. */
  method ReflectChildren(commands: Commands, e: ReflectionSpawnEvent, s: Structure, compose: Compose)
    returns (container: Entity)
    requires commands.Valid()
    modifies commands
    ensures commands.Valid()
    ensures container == old(commands.nextEntity) && commands.nextEntity == container + 1
    ensures commands.queue == old(commands.queue) + ChildReflection(e, s, container, compose)
  {
    container := SpawnParented(commands, s.name + " (Child Reflection)", e.transform, e.parent);
    ghost var head := [SpawnEntity(container, s.name + " (Child Reflection)", e.transform)] +
      Parenting(e.parent, container);
    AppendAssoc(old(commands.queue), [SpawnEntity(container, s.name + " (Child Reflection)", e.transform)],
                Parenting(e.parent, container));
    if |s.tags| != 0 {
      commands.Push(InsertTags(container, TagList.Tags(s.tags)));
    }
    AppendAssoc(old(commands.queue), head, Tagging(container, s.tags));
    var combined := BuildReflectedData(s.data, e.transform.translation, e.plane, e.point);
    var composite := Structure(s.name + " (+Reflected)", [], combined);
    var _ := SpawnStructureData(commands, composite, Identity, Some(container), compose);
    AppendAssoc(old(commands.queue), head + Tagging(container, s.tags),
                Requests(combined, Identity, Some(container), compose));
  }

  /** One event: a plain reflection, or a child reflection that imports the
    * reference and, on success, expands the composite under its container. */
  method ReflectOne(commands: Commands, e: ReflectionSpawnEvent, importer: Importer, compose: Compose)
    requires commands.Valid()
    modifies commands
    ensures commands.Valid()
    ensures commands.queue == old(commands.queue) + ReflectionCommands(e, old(commands.nextEntity), importer, compose).0
    ensures commands.nextEntity ==
      if ReflectionCommands(e, old(commands.nextEntity), importer, compose).1 then old(commands.nextEntity) + 1
      else old(commands.nextEntity)
  {
    if e.reflectChild {
      match TryFrom(e.reference, importer)
      case Ok(s) =>
        var _ := ReflectChildren(commands, e, s, compose);
      case Err(_) =>
    } else {
      var _ := ReflectPlain(commands, e);
    }
  }

  /** One more event appends its commands and moves the next id past its container. */
  lemma ReflectionAllStep(events: seq<ReflectionSpawnEvent>, i: int, first: Entity, importer: Importer,
                          compose: Compose)
    requires 0 <= i < |events|
    ensures var prev := ReflectionAll(events[..i], first, importer, compose);
      var step := ReflectionCommands(events[i], prev.1, importer, compose);
      ReflectionAll(events[..i + 1], first, importer, compose) ==
        (prev.0 + step.0, if step.1 then prev.1 + 1 else prev.1)
  {
    assert events[..i + 1][..i] == events[..i];
  }

  /** The listener's loop body: event `i` after the first `i`. */
  method ReflectNext(commands: Commands, events: seq<ReflectionSpawnEvent>, i: int, ghost queue0: seq<Command>,
                     ghost first: Entity, importer: Importer, compose: Compose)
    requires 0 <= i < |events| && commands.Valid()
    requires commands.queue == queue0 + ReflectionAll(events[..i], first, importer, compose).0
    requires commands.nextEntity == ReflectionAll(events[..i], first, importer, compose).1
    modifies commands
    ensures commands.Valid()
    ensures commands.queue == queue0 + ReflectionAll(events[..i + 1], first, importer, compose).0
    ensures commands.nextEntity == ReflectionAll(events[..i + 1], first, importer, compose).1
  {
    ghost var prev := ReflectionAll(events[..i], first, importer, compose);
    ghost var step := ReflectionCommands(events[i], prev.1, importer, compose);
    ReflectionAllStep(events, i, first, importer, compose);
    ReflectOne(commands, events[i], importer, compose);
    assert commands.queue == queue0 + prev.0 + step.0;
    AppendAssoc(queue0, prev.0, step.0);
  }

  /** `reflection_spawn_listener`: every event in turn. */
  method ReflectionSpawnListener(commands: Commands, events: seq<ReflectionSpawnEvent>, importer: Importer,
                                 compose: Compose)
    requires commands.Valid()
    modifies commands
    ensures commands.Valid()
    ensures commands.queue == old(commands.queue) + ReflectionAll(events, old(commands.nextEntity), importer, compose).0
    ensures commands.nextEntity == ReflectionAll(events, old(commands.nextEntity), importer, compose).1
  {
    for i := 0 to |events|
      invariant commands.Valid()
      invariant commands.queue ==
        old(commands.queue) + ReflectionAll(events[..i], old(commands.nextEntity), importer, compose).0
      invariant commands.nextEntity == ReflectionAll(events[..i], old(commands.nextEntity), importer, compose).1
    {
      ReflectNext(commands, events, i, old(commands.queue), old(commands.nextEntity), importer, compose);
    }
    assert events[..|events|] == events;
  }
}
