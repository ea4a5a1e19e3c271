/** spawning/structure_spawning.rs: the cycle and depth guard around
  * `spawn_structure_by_name`, and the decisions `spawn_structure_by_data`
  * takes for `Nest`, `ProbabilitySpawn`, `Choose`, `ChooseSome` and
  * `Reflection` entries. */
module StructureSpawning {
  import opened Common
  import opened Geometry
  import opened Structures
  import opened CommandQueue
  import DebugFormat
  import Helpers

  /** The deepest nesting of named structures. */
  const MaxDepth: nat := 100

  /** The names of the structures being expanded, outermost first. */
  class NameStack {
    var names: seq<string>

    constructor ()
      ensures names == []
    {
      names := [];
    }
  }

  /** The error the guard raises before anything is spawned, if any: a name
    * already being expanded is a cycle, and a stack of 100 names is too deep. */
  function Guard(names: seq<string>, name: string): (r: Option<StructureError>)
    ensures r.None? <==> name !in names && |names| < MaxDepth
    ensures name in names ==> r == Some(CycleDetected(name))
    ensures name !in names && |names| >= MaxDepth ==>
      r == Some(StructureError.Other("Maximum recursion depth exceeded while processing " + name))
  {
    if name in names then Some(CycleDetected(name))
    else if |names| >= MaxDepth then Some(StructureError.Other("Maximum recursion depth exceeded while processing " + name))
    else None
  }

  /** `spawn_structure_by_data` as seen from `spawn_structure_by_name`: given
    * the imported structure, the base transform and the container, the data
    * entity it returns or its error. The commands it issues are not modelled. */
  type DataExpansion = (Structure, EulerTransform, Entity) -> Result<Option<Entity>, StructureError>

  /** The commands and result that follow a finished data expansion: a data
    * entity is adopted by the container and returned; any error is reported
    * as an import failure of the name. */
  function Adopt(e: Entity, name: string, expanded: Result<Option<Entity>, StructureError>): (out: (seq<Command>, Result<Option<Entity>, StructureError>))
    ensures expanded.Ok? && expanded.value.Some? ==>
      out == ([AddChild(e, expanded.value.value)], Ok(expanded.value))
    ensures expanded.Ok? && expanded.value.None? ==> out == ([], Ok(None))
    ensures expanded.Err? ==> out == ([], Err(ImportFailed(name)))
  {
    match expanded
    case Ok(Some(child)) => ([AddChild(e, child)], Ok(Some(child)))
    case Ok(None) => ([], Ok(None))
    case Err(_) => ([], Err(ImportFailed(name)))
  }

  /** `spawn_structure_by_name` as written: an import failure returns before
    * the pop, so the name stays on the stack. */
  method SpawnStructureByNameAsWritten(commands: Commands, stack: NameStack, name: string,
                                       parentTransform: EulerTransform, importer: Importer,
                                       expand: DataExpansion, parent: Option<Entity>)
    returns (r: Result<Option<Entity>, StructureError>)
    requires commands.Valid()
    modifies commands, stack
    ensures commands.Valid()
    ensures Guard(old(stack.names), name).Some? ==>
      r == Err(Guard(old(stack.names), name).value) && stack.names == old(stack.names) &&
      commands.queue == old(commands.queue) && commands.nextEntity == old(commands.nextEntity)
    ensures Guard(old(stack.names), name).None? ==>
      var e := old(commands.nextEntity);
      var head := old(commands.queue) + [SpawnEntity(e, DebugFormat.DebugQuote(name), Identity)] + Parenting(parent, e);
      commands.nextEntity == e + 1 &&
      (importer(name).Err? ==>
        r == Err(ImportFailed(name)) && commands.queue == head && stack.names == old(stack.names) + [name]) &&
      (importer(name).Ok? ==>
        var out := Adopt(e, name, expand(importer(name).value, parentTransform, e));
        r == out.1 && stack.names == old(stack.names) &&
        commands.queue == head + Tagging(e, importer(name).value.tags) + out.0)
  {
    var guard := Guard(stack.names, name);
    if guard.Some? {
      return Err(guard.value);
    }
    stack.names := stack.names + [name];
    var e := commands.Spawn(DebugFormat.DebugQuote(name), Identity);
    if parent.Some? {
      commands.Push(AddChild(parent.value, e));
    }
    var result;
    match importer(name) {
      case Ok(s) =>
        if |s.tags| != 0 {
          commands.Push(InsertTags(e, TagList.Tags(s.tags)));
        }
        result := expand(s, parentTransform, e);
      case Err(_) =>
        return Err(ImportFailed(name));
    }
    stack.names := stack.names[..|stack.names| - 1];
    match result
    case Ok(Some(child)) =>
      commands.Push(AddChild(e, child));
      r := Ok(Some(child));
    case Ok(None) =>
      r := Ok(None);
    case Err(_) =>
      r := Err(ImportFailed(name));
  }

  /** `spawn_structure_by_name` with the stack popped on every path after the
    * push: the stack always comes back to what it was on entry. */
  method SpawnStructureByName(commands: Commands, stack: NameStack, name: string,
                              parentTransform: EulerTransform, importer: Importer,
                              expand: DataExpansion, parent: Option<Entity>)
    returns (r: Result<Option<Entity>, StructureError>)
    requires commands.Valid()
    modifies commands, stack
    ensures commands.Valid()
    ensures stack.names == old(stack.names)
    ensures Guard(old(stack.names), name).Some? ==>
      r == Err(Guard(old(stack.names), name).value) &&
      commands.queue == old(commands.queue) && commands.nextEntity == old(commands.nextEntity)
    ensures Guard(old(stack.names), name).None? ==>
      var e := old(commands.nextEntity);
      var head := old(commands.queue) + [SpawnEntity(e, DebugFormat.DebugQuote(name), Identity)] + Parenting(parent, e);
      commands.nextEntity == e + 1 &&
      (importer(name).Err? ==> r == Err(ImportFailed(name)) && commands.queue == head) &&
      (importer(name).Ok? ==>
        var out := Adopt(e, name, expand(importer(name).value, parentTransform, e));
        r == out.1 && commands.queue == head + Tagging(e, importer(name).value.tags) + out.0)
  {
    var guard := Guard(stack.names, name);
    if guard.Some? {
      return Err(guard.value);
    }
    stack.names := stack.names + [name];
    var e := commands.Spawn(DebugFormat.DebugQuote(name), Identity);
    if parent.Some? {
      commands.Push(AddChild(parent.value, e));
    }
    var result;
    match importer(name) {
      case Ok(s) =>
        if |s.tags| != 0 {
          commands.Push(InsertTags(e, TagList.Tags(s.tags)));
        }
        result := expand(s, parentTransform, e);
      case Err(_) =>
        result := Err(ImportFailed(name));
    }
    stack.names := stack.names[..|stack.names| - 1];
    match result
    case Ok(Some(child)) =>
      commands.Push(AddChild(e, child));
      r := Ok(Some(child));
    case Ok(None) =>
      r := Ok(None);
    case Err(_) =>
      r := Err(ImportFailed(name));
  }

  /** As written, retrying a name whose import failed on the same stack is
    * reported as a cycle. */
  method RetryAfterFailedImportAsWritten(commands: Commands, stack: NameStack, name: string,
                                         importer: Importer, expand: DataExpansion)
    returns (first: Result<Option<Entity>, StructureError>, second: Result<Option<Entity>, StructureError>)
    requires commands.Valid() && stack.names == [] && importer(name).Err?
    modifies commands, stack
    ensures first == Err(ImportFailed(name))
    ensures second == Err(CycleDetected(name))
    ensures stack.names == [name]
  {
    first := SpawnStructureByNameAsWritten(commands, stack, name, Identity, importer, expand, None);
    second := SpawnStructureByNameAsWritten(commands, stack, name, Identity, importer, expand, None);
  }

  /** With the stack restored, the retry fails for the same reason as the first attempt. */
  method RetryAfterFailedImport(commands: Commands, stack: NameStack, name: string,
                                importer: Importer, expand: DataExpansion)
    returns (first: Result<Option<Entity>, StructureError>, second: Result<Option<Entity>, StructureError>)
    requires commands.Valid() && stack.names == [] && importer(name).Err?
    modifies commands, stack
    ensures first == Err(ImportFailed(name)) && second == first
    ensures stack.names == []
  {
    first := SpawnStructureByName(commands, stack, name, Identity, importer, expand, None);
    second := SpawnStructureByName(commands, stack, name, Identity, importer, expand, None);
  }

  // ---------------------------------------------------------------------------
  // Entry decisions of spawn_structure_by_data

  /** What an entry expands into. */
  datatype Expansion =
    /** Recursive `spawn_structure_by_data` calls, in order, each with its base transform. */
    | Nested(parts: seq<(Structure, EulerTransform)>)
    /** A bare named entity. */
    | Placeholder(name: string)
    /** An entry kind whose expansion is not decided here. */
    | Undecided

  /** The local transform mirrored in the reflection plane through the
    * reflection point; rotation and scale are kept. */
  function ReflectedLocal(local: EulerTransform, plane: Plane3d, point: Vec3): (m: EulerTransform)
    ensures m.rotation == local.rotation && m.scale == local.scale
    ensures Dot(Sub(m.translation, point), plane.normal) == -Dot(Sub(local.translation, point), plane.normal)
  {
    EulerTransform(Helpers.ReflectPoint(local.translation, plane, point), local.rotation, local.scale)
  }

  /** How `spawn_structure_by_data` expands one entry with local transform
    * `local` under `parentTransform`. `u` is the entry's `gen::<f32>()` draw
    * and `picks` the draws of `choose_multiple`. */
  function ExpandEntry(k: StructureKey, local: EulerTransform, parentTransform: EulerTransform,
                       importer: Importer, compose: Compose, u: Helpers.UnitDraw, picks: nat -> nat)
    : (r: Result<Expansion, StructureError>)
    ensures !(k.Nest? || k.ProbabilitySpawn? || k.Choose? || k.ChooseSome? || k.Reflection?) ==> r == Ok(Undecided)
    ensures r.Err? ==> (k.Reflection? && k.reflectChild) || TryFrom(TargetReference(k), importer).Err?
  {
    var combined := compose(parentTransform, local);
    match k
    case Nest(reference) =>
      (match TryFrom(reference, importer)
       case Ok(s) => Ok(Nested([(s, combined)]))
       case Err(e) => Err(e))
    case ProbabilitySpawn(reference, probability) =>
      if u < probability then
        (match TryFrom(reference, importer)
         case Ok(s) => Ok(Nested([(s, combined)]))
         case Err(e) => Err(e))
      else Ok(Placeholder("Probabalistically Rejected"))
    case Choose(list) =>
      (match TryFrom(list, importer)
       case Ok(s) => Ok(Nested([(CreateRandomSubstructure(s, 1, picks), combined)]))
       case Err(e) => Err(e))
    case ChooseSome(list, count) =>
      (match TryFrom(list, importer)
       case Ok(s) => Ok(Nested([(CreateRandomSubstructure(s, count, picks), combined)]))
       case Err(e) => Err(e))
    case Reflection(reference, plane, point, reflectChild) =>
      if reflectChild then Err(StructureError.Other("Child reflection not implemented!"))
      else
        (match TryFrom(reference, importer)
         case Ok(s) => Ok(Nested([(s, combined), (s, compose(parentTransform, ReflectedLocal(local, plane, point)))]))
         case Err(e) => Err(e))
    case _ => Ok(Undecided)
  }

  /** A nested reference is resolved with `try_from` and expanded once at the combined transform. */
  lemma NestDecision(k: StructureKey, local: EulerTransform, parentTransform: EulerTransform,
                     importer: Importer, compose: Compose, u: Helpers.UnitDraw, picks: nat -> nat)
    requires k.Nest?
    ensures var r := ExpandEntry(k, local, parentTransform, importer, compose, u, picks);
      var s := TryFrom(k.reference, importer);
      (r.Ok? <==> s.Ok?) &&
      (s.Ok? ==> r.value == Nested([(s.value, compose(parentTransform, local))])) &&
      (s.Err? ==> r.error == s.error)
  {
  }

  /** The reference of a probabilistic entry is expanded exactly when the
    * draw is below the probability; otherwise a "Probabalistically Rejected"
    * placeholder is spawned and the reference is never resolved. */
  lemma ProbabilityDecision(k: StructureKey, local: EulerTransform, parentTransform: EulerTransform,
                            importer: Importer, compose: Compose, u: Helpers.UnitDraw, picks: nat -> nat)
    requires k.ProbabilitySpawn?
    ensures var r := ExpandEntry(k, local, parentTransform, importer, compose, u, picks);
      var s := TryFrom(k.reference, importer);
      (r == Ok(Placeholder("Probabalistically Rejected")) <==> u >= k.probability) &&
      (u < k.probability && s.Ok? ==> r == Ok(Nested([(s.value, compose(parentTransform, local))]))) &&
      (u < k.probability && s.Err? ==> r == Err(s.error))
  {
  }

  /** `Choose` expands a one-entry random substructure of the resolved list,
    * `ChooseSome` a `count`-entry one (all entries when `count` reaches the length). */
  lemma ChooseDecision(k: StructureKey, local: EulerTransform, parentTransform: EulerTransform,
                       importer: Importer, compose: Compose, u: Helpers.UnitDraw, picks: nat -> nat)
    requires (k.Choose? || k.ChooseSome?) && TryFrom(k.list, importer).Ok?
    ensures var r := ExpandEntry(k, local, parentTransform, importer, compose, u, picks);
      var s := TryFrom(k.list, importer).value;
      var n := if k.Choose? then 1 else k.count;
      r.Ok? && r.value.Nested? && |r.value.parts| == 1 &&
      r.value.parts[0] == (CreateRandomSubstructure(s, n, picks), compose(parentTransform, local)) &&
      |r.value.parts[0].0.data| == Min(n, |s.data|)
  {
    var s := TryFrom(k.list, importer).value;
    var n := if k.Choose? then 1 else k.count;
    if n >= |s.data| {
      SubstructureOfAll(s, n, picks);
    } else {
      SubstructureOfSome(s, n, picks);
    }
  }

  /** Child reflection is refused before the reference is resolved. Otherwise
    * the resolved structure is expanded twice: at the combined transform, and
    * with the local translation mirrored in the plane. */
  lemma ReflectionDecision(k: StructureKey, local: EulerTransform, parentTransform: EulerTransform,
                           importer: Importer, compose: Compose, u: Helpers.UnitDraw, picks: nat -> nat)
    requires k.Reflection?
    ensures var r := ExpandEntry(k, local, parentTransform, importer, compose, u, picks);
      var s := TryFrom(k.reference, importer);
      (k.reflectChild ==> r == Err(StructureError.Other("Child reflection not implemented!"))) &&
      (!k.reflectChild ==> (r.Ok? <==> s.Ok?)) &&
      (!k.reflectChild && s.Ok? ==>
        r.value.Nested? && |r.value.parts| == 2 &&
        r.value.parts[0] == (s.value, compose(parentTransform, local)) &&
        r.value.parts[1] == (s.value, compose(parentTransform, ReflectedLocal(local, k.reflectionPlane, k.reflectionPoint))))
  {
  }
}
