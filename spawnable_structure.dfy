/** event_system/spawnables/structure.rs: spawning a named structure as a
  * container entity whose entries are dispatched as spawn events. */
module SpawnableStructure {
  import opened Common
  import opened Geometry
  import opened Structures
  import opened TagList
  import opened CommandQueue

  /** The transform an entry is dispatched with: a `Rand` entry keeps its
    * local transform (its jitter amplitudes), every other entry gets the
    * parent transform composed with its local one. */
  function EntryTransform(k: StructureKey, local: EulerTransform, parentTransform: EulerTransform,
                          compose: Compose): EulerTransform
  {
    if k.Rand? then local else compose(parentTransform, local)
  }

  /** The request one entry dispatches. */
  function Request(entry: (StructureKey, EulerTransform), parentTransform: EulerTransform,
                   parent: Option<Entity>, compose: Compose): Command
  {
    Dispatch(entry.0, EntryTransform(entry.0, entry.1, parentTransform, compose), parent)
  }

  /** The requests of a list of entries, built entry by entry. */
  function Requests(entries: seq<(StructureKey, EulerTransform)>, parentTransform: EulerTransform,
                    parent: Option<Entity>, compose: Compose): (r: seq<Command>)
    ensures |r| == |entries|
  {
    if |entries| == 0 then []
    else Requests(entries[..|entries| - 1], parentTransform, parent, compose) +
         [Request(entries[|entries| - 1], parentTransform, parent, compose)]
  }

  /** Exactly one dispatch per entry, in entry order, all under the same parent. */
  lemma {:induction false} RequestsPerEntry(entries: seq<(StructureKey, EulerTransform)>,
                                            parentTransform: EulerTransform, parent: Option<Entity>,
                                            compose: Compose)
    ensures var r := Requests(entries, parentTransform, parent, compose);
      |r| == |entries| &&
      forall i :: 0 <= i < |entries| ==>
        r[i] == Dispatch(entries[i].0, EntryTransform(entries[i].0, entries[i].1, parentTransform, compose), parent)
    decreases |entries|
  {
    if |entries| > 0 {
      var init := entries[..|entries| - 1];
      RequestsPerEntry(init, parentTransform, parent, compose);
      var r := Requests(entries, parentTransform, parent, compose);
      forall i | 0 <= i < |entries|
        ensures r[i] == Dispatch(entries[i].0, EntryTransform(entries[i].0, entries[i].1, parentTransform, compose), parent)
      {
        if i < |init| {
          assert r[i] == Requests(init, parentTransform, parent, compose)[i];
          assert init[i] == entries[i];
        }
      }
    }
  }

  /** A `Rand` entry's request does not depend on the parent transform. */
  lemma RandIgnoresParentTransform(entries: seq<(StructureKey, EulerTransform)>, i: nat,
                                   pt1: EulerTransform, pt2: EulerTransform,
                                   parent: Option<Entity>, compose: Compose)
    requires i < |entries| && entries[i].0.Rand?
    ensures Requests(entries, pt1, parent, compose)[i] == Requests(entries, pt2, parent, compose)[i] ==
      Dispatch(entries[i].0, entries[i].1, parent)
  {
    RequestsPerEntry(entries, pt1, parent, compose);
    RequestsPerEntry(entries, pt2, parent, compose);
  }

  /** Requests of consecutive runs of entries concatenate. */
  lemma {:induction false} RequestsAppend(a: seq<(StructureKey, EulerTransform)>, b: seq<(StructureKey, EulerTransform)>,
                                          parentTransform: EulerTransform, parent: Option<Entity>, compose: Compose)
    ensures Requests(a + b, parentTransform, parent, compose) ==
      Requests(a, parentTransform, parent, compose) + Requests(b, parentTransform, parent, compose)
    decreases |b|
  {
    if |b| > 0 {
      var b' := b[..|b| - 1];
      assert (a + b)[..|a + b| - 1] == a + b';
      RequestsAppend(a, b', parentTransform, parent, compose);
    } else {
      assert a + b == a;
    }
  }

  /** `spawn_structure_data`: dispatches every entry of `s` and returns the parent. */
  method SpawnStructureData(commands: Commands, s: Structure, parentTransform: EulerTransform,
                            parent: Option<Entity>, compose: Compose) returns (r: Result<Option<Entity>, string>)
    requires commands.Valid()
    modifies commands
    ensures commands.Valid()
    ensures r == Ok(parent)
    ensures commands.nextEntity == old(commands.nextEntity)
    ensures commands.queue == old(commands.queue) + Requests(s.data, parentTransform, parent, compose)
  {
    for i := 0 to |s.data|
      invariant commands.Valid()
      invariant commands.nextEntity == old(commands.nextEntity)
      invariant commands.queue == old(commands.queue) + Requests(s.data[..i], parentTransform, parent, compose)
    {
      var (key, local) := s.data[i];
      if key.Rand? {
        commands.Push(Dispatch(key, local, parent));
      } else {
        commands.Push(Dispatch(key, compose(parentTransform, local), parent));
      }
      assert s.data[..i + 1][..i] == s.data[..i];
    }
    assert s.data[..|s.data|] == s.data;
    return Ok(parent);
  }

  /** `StructureSpawnEvent`. */
  datatype StructureSpawnEvent = StructureSpawnEvent(structure: string, transform: EulerTransform, parent: Option<Entity>)

  /** `spawn_structure`: the container is spawned (named after the structure,
    * with the event's transform) and parented before the import, so an
    * import failure leaves it in place. On success the structure's tags, if
    * any, go on the container, and the entries are dispatched under it with
    * an identity base transform. */
  method SpawnStructure(commands: Commands, event: StructureSpawnEvent, importer: Importer, compose: Compose)
    returns (r: Result<Option<Entity>, ImportError>)
    requires commands.Valid()
    modifies commands
    ensures commands.Valid()
    ensures commands.nextEntity == old(commands.nextEntity) + 1
    ensures var e := old(commands.nextEntity);
      var head := old(commands.queue) + [SpawnEntity(e, event.structure, event.transform)] + Parenting(event.parent, e);
      match importer(event.structure)
      case Err(error) => r == Err(error) && commands.queue == head
      case Ok(s) =>
        (r == Ok(Some(e)) &&
         commands.queue == head + Tagging(e, s.tags) + Requests(s.data, Identity, Some(e), compose))
  {
    var e := commands.Spawn(event.structure, event.transform);
    if event.parent.Some? {
      commands.Push(AddChild(event.parent.value, e));
    }
    match importer(event.structure)
    case Err(error) =>
      return Err(error);
    case Ok(s) =>
      if |s.tags| > 0 {
        commands.Push(InsertTags(e, Tags(s.tags)));
      }
      var _ := SpawnStructureData(commands, s, Identity, Some(e), compose);
      return Ok(Some(e));
  }
}
