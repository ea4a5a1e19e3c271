/** The structure data model (`Structure`, `StructureKey`,
  * `StructureReference`, `Ownership`, `StructureError`) and the operations
  * of core/structure.rs: team-ownership propagation, resolution of a
  * reference (`TryFrom<&StructureReference>`) and random substructures. */
module Structures {
  import opened Common
  import opened Geometry
  import Colliders
  import DebugFormat

  datatype Ownership = Team(team: u8) | Inherit

  datatype ObjectType = Building | Unit | Cosmetic | Resource | Terrain | Other

  datatype VisibilityMode = Visible | Hidden | Inherit

  datatype RandData = Linear(spread: real) | Gaussian(deviation: real)

  datatype SeededOrNot = Seeded(seed: nat) | Unseeded

  datatype FbmData = FbmData(seed: SeededOrNot, scale: real, octaves: u8, frequency: real,
                             lacunarity: real, persistence: real)

  datatype SampleSize = UUniDim(n: int) | UBiDim(n: int) | UTriDim(n: int)
                      | UniDim(x: int) | BiDim(x: int, y: int) | TriDim(x: int, y: int, z: int)

  datatype SpreadData = Regular | Gaussian(deviation: real)
                      | Noise(fbmData: FbmData, sampleSize: real, exclusivityRadius: real, resolutionModifier: real)

  /** Engine settings (light, fog) that the core only carries along. */
  datatype EngineSettings = EngineSettings(values: seq<real>)

  datatype StructureReference =
    | Raw(structure: Structure, ownership: Ownership)
    | Ref(name: string, ownership: Ownership)

  /** Every operator variant the code refers to. `PathToTag`, `RandDistDir`,
    * `SelectiveReplacement`, `InPass` and the `visibility` field of `Object`
    * are used by the code but missing from the enum shown in
    * core/structure_key.rs; their other fields are not modelled. */
  datatype StructureKey =
    | Object(path: string, collider: Option<Colliders.ColliderInfo>, offset: Vec3, ownership: Ownership,
             selectable: bool, objectType: ObjectType, visibility: Option<VisibilityMode>)
    | PointLight(light: EngineSettings)
    | SpotLight(light: EngineSettings)
    | SoundEffect(file: string)
    | DirectionalLight(light: EngineSettings)
    | AmbientLight(light: EngineSettings)
    | FogSettings(fog: EngineSettings)
    | BackgroundMusic(file: string)
    | Nest(reference: StructureReference)
    | Choose(list: StructureReference)
    | ChooseSome(list: StructureReference, count: nat)
    | Rand(reference: StructureReference, rand: RandData)
    | ProbabilitySpawn(reference: StructureReference, probability: real)
    | Loop(reference: StructureReference, shiftTransform: EulerTransform, childTransform: EulerTransform, count: nat)
    | NestingLoop(reference: StructureReference, repeatedTransform: EulerTransform, count: nat)
    | NoiseSpawn(reference: StructureReference, fbm: FbmData, sampleSize: SampleSize, count: nat,
                 exclusivityRadius: real, resolutionModifier: real)
    | PathSpawn(reference: StructureReference, points: seq<Vec3>, tension: real, spread: SpreadData, count: nat)
    | Reflection(reference: StructureReference, reflectionPlane: Plane3d, reflectionPoint: Vec3, reflectChild: bool)
    | PathToTag(reference: StructureReference, tag: string, storeAs: Option<string>)
    | RandDistDir(reference: StructureReference, angleMinDeg: real, angleMaxDeg: real,
                  distMin: real, distMax: real, y: real)
    | SelectiveReplacement(initialReference: StructureReference, replacementReference: StructureReference,
                           tags: seq<string>, replaceCount: nat)
    | InPass(index: u8, reference: StructureReference)

  datatype Structure = Structure(name: string, tags: seq<string>, data: seq<(StructureKey, EulerTransform)>)

  datatype StructureError =
    | CycleDetected(name: string)
    | ImportFailed(name: string)
    | Other(message: string)
    | InheritOwnershipAtTopLevel(name: string)

  /** The error `import_structure` reports (a `ron::Error`). */
  datatype ImportError = FileNotFound(path: string) | Unreadable(path: string)

  /** Name-to-structure lookup, as done by `import_structure`. */
  type Importer = string -> Result<Structure, ImportError>

  /** The name a reference points at: the embedded structure's name or the referenced name. */
  function ReferencedName(r: StructureReference): string
  {
    match r
    case Raw(s, _) => s.name
    case Ref(n, _) => n
  }

  /** The variants whose reference `propagate_team_ownership` visits. */
  predicate PropagationTarget(k: StructureKey)
  {
    k.Nest? || k.Choose? || k.ChooseSome? || k.Rand? || k.ProbabilitySpawn? || k.Loop? ||
    k.NestingLoop? || k.NoiseSpawn? || k.PathSpawn? || k.PathToTag? || k.RandDistDir? || k.Reflection?
  }

  /** Lights, fog and audio: variants with no reference and no ownership. */
  predicate IsLeaf(k: StructureKey)
  {
    k.PointLight? || k.SpotLight? || k.SoundEffect? || k.DirectionalLight? ||
    k.AmbientLight? || k.FogSettings? || k.BackgroundMusic?
  }

  /** The reference a propagation target carries (`list` for the Choose variants). */
  function TargetReference(k: StructureKey): StructureReference
    requires PropagationTarget(k)
  {
    if k.Choose? || k.ChooseSome? then k.list else k.reference
  }

  // ---------------------------------------------------------------------------
  // Ownership propagation: the specification

  function Claimed(o: Ownership, team: u8): Ownership
  {
    if o.Inherit? then Team(team) else o
  }

  function WithTargetReference(k: StructureKey, r: StructureReference): (k': StructureKey)
    requires PropagationTarget(k)
  {
    match k
    case Nest(_) => Nest(r)
    case Choose(_) => Choose(r)
    case ChooseSome(_, count) => ChooseSome(r, count)
    case Rand(_, rand) => Rand(r, rand)
    case ProbabilitySpawn(_, p) => ProbabilitySpawn(r, p)
    case Loop(_, shift, child, count) => Loop(r, shift, child, count)
    case NestingLoop(_, repeated, count) => NestingLoop(r, repeated, count)
    case NoiseSpawn(_, fbm, size, count, radius, rm) => NoiseSpawn(r, fbm, size, count, radius, rm)
    case PathSpawn(_, points, tension, spread, count) => PathSpawn(r, points, tension, spread, count)
    case Reflection(_, plane, point, child) => Reflection(r, plane, point, child)
    case PathToTag(_, tag, storeAs) => PathToTag(r, tag, storeAs)
    case RandDistDir(_, a0, a1, d0, d1, y) => RandDistDir(r, a0, a1, d0, d1, y)
    case _ => k
  }

  lemma WithTargetReferenceOfOwn(k: StructureKey)
    requires PropagationTarget(k)
    ensures WithTargetReference(k, TargetReference(k)) == k
  {
  }

  lemma WithTargetReferenceReads(k: StructureKey, r: StructureReference)
    requires PropagationTarget(k)
    ensures PropagationTarget(WithTargetReference(k, r)) && TargetReference(WithTargetReference(k, r)) == r
  {
  }

  function Propagated(s: Structure, team: u8): Structure
    decreases s
  {
    Structure(s.name, s.tags,
      seq(|s.data|, i requires 0 <= i < |s.data| => (PropagatedKey(s.data[i].0, team), s.data[i].1)))
  }

  function PropagatedKey(k: StructureKey, team: u8): StructureKey
    decreases k
  {
    if PropagationTarget(k) then WithTargetReference(k, UpdatedOwnership(TargetReference(k), team))
    else if k.Object? then
      Object(k.path, k.collider, k.offset, Claimed(k.ownership, team), k.selectable, k.objectType, k.visibility)
    else k
  }

  function UpdatedOwnership(r: StructureReference, team: u8): StructureReference
    decreases r
  {
    match r
    case Raw(s, o) => Raw(Propagated(s, team), Claimed(o, team))
    case Ref(n, o) => Ref(n, Claimed(o, team))
  }

  // ---------------------------------------------------------------------------
  // Ownership propagation: the in-place rewrite

  /** `propagate_team_ownership`: rewrites every entry's key in turn. */
  method PropagateTeamOwnership(s: Structure, team: u8) returns (r: Structure)
    ensures r == Propagated(s, team)
    decreases s, 1
  {
    var data := s.data;
    for i := 0 to |data|
      invariant |data| == |s.data|
      invariant forall j :: 0 <= j < i ==> data[j] == (PropagatedKey(s.data[j].0, team), s.data[j].1)
      invariant forall j :: i <= j < |data| ==> data[j] == s.data[j]
    {
      var key := data[i].0;
      if PropagationTarget(key) {
        var updated := UpdateOwnership(TargetReference(key), team);
        key := WithTargetReference(key, updated);
      } else if key.Object? && key.ownership.Inherit? {
        key := Object(key.path, key.collider, key.offset, Team(team), key.selectable, key.objectType, key.visibility);
      }
      data := data[i := (key, data[i].1)];
    }
    r := Structure(s.name, s.tags, data);
  }

  /** `update_ownership`: claims an inheriting reference for the team and
    * always descends into an embedded structure. */
  method UpdateOwnership(r: StructureReference, team: u8) returns (u: StructureReference)
    ensures u == UpdatedOwnership(r, team)
    decreases r, 0
  {
    var ownership := r.ownership;
    if ownership.Inherit? {
      ownership := Team(team);
    }
    match r
    case Raw(s, _) =>
      var propagated := PropagateTeamOwnership(s, team);
      u := Raw(propagated, ownership);
    case Ref(n, _) =>
      u := Ref(n, ownership);
  }

  // ---------------------------------------------------------------------------
  // Properties of propagation

  /** Entry count, order, transforms and every leaf key are preserved; the
    * name and tags are kept. */
  lemma PropagationPreservesLayout(s: Structure, team: u8)
    ensures var r := Propagated(s, team);
      r.name == s.name && r.tags == s.tags && |r.data| == |s.data| &&
      (forall i :: 0 <= i < |s.data| ==> r.data[i].1 == s.data[i].1) &&
      (forall i :: 0 <= i < |s.data| && IsLeaf(s.data[i].0) ==> r.data[i].0 == s.data[i].0)
  {
  }

  /** An `Object` that inherits now belongs to the team; one that already
    * belongs to a team keeps it; its other fields are unchanged. */
  lemma PropagationClaimsObjects(s: Structure, team: u8, i: nat)
    requires i < |s.data| && s.data[i].0.Object?
    ensures var k := s.data[i].0;
      var k' := Propagated(s, team).data[i].0;
      k'.Object? && k'.path == k.path && k'.collider == k.collider && k'.offset == k.offset &&
      k'.selectable == k.selectable && k'.objectType == k.objectType && k'.visibility == k.visibility &&
      (k.ownership.Inherit? ==> k'.ownership == Team(team)) &&
      (k.ownership.Team? ==> k'.ownership == k.ownership)
  {
  }

  /** A referencing entry keeps its variant and its other fields; only its
    * reference is updated. */
  lemma PropagationUpdatesReferences(s: Structure, team: u8, i: nat)
    requires i < |s.data| && PropagationTarget(s.data[i].0)
    ensures var k' := Propagated(s, team).data[i].0;
      PropagationTarget(k') &&
      k' == WithTargetReference(s.data[i].0, UpdatedOwnership(TargetReference(s.data[i].0), team))
  {
  }

  /** For any reference an inheriting flag becomes the team and a team flag
    * is kept; an embedded structure is always propagated into, whatever the
    * reference's own flag; the name behind a `Ref` is left alone. */
  lemma UpdatedOwnershipFlags(r: StructureReference, team: u8)
    ensures var u := UpdatedOwnership(r, team);
      (r.ownership.Inherit? ==> u.ownership == Team(team)) &&
      (r.ownership.Team? ==> u.ownership == r.ownership) &&
      (r.Raw? ==> u.Raw? && u.structure == Propagated(r.structure, team)) &&
      (r.Ref? ==> u.Ref? && u.name == r.name)
  {
  }

  /** No ownership flag that propagation visits is left as `Inherit`. */
  predicate Settled(s: Structure)
    decreases s
  {
    forall i :: 0 <= i < |s.data| ==> KeySettled(s.data[i].0)
  }

  predicate KeySettled(k: StructureKey)
    decreases k
  {
    if PropagationTarget(k) then ReferenceSettled(TargetReference(k))
    else k.Object? ==> k.ownership.Team?
  }

  predicate ReferenceSettled(r: StructureReference)
    decreases r
  {
    r.ownership.Team? && (r.Raw? ==> Settled(r.structure))
  }

  lemma {:induction false} PropagatedIsSettled(s: Structure, team: u8)
    ensures Settled(Propagated(s, team))
    decreases s
  {
    var r := Propagated(s, team);
    forall i | 0 <= i < |r.data|
      ensures KeySettled(r.data[i].0)
    {
      var k := s.data[i].0;
      assert r.data[i].0 == PropagatedKey(k, team);
      if PropagationTarget(k) {
        UpdatedIsSettled(TargetReference(k), team);
        WithTargetReferenceReads(k, UpdatedOwnership(TargetReference(k), team));
      }
    }
  }

  lemma {:induction false} UpdatedIsSettled(r: StructureReference, team: u8)
    ensures ReferenceSettled(UpdatedOwnership(r, team))
    decreases r
  {
    if r.Raw? {
      PropagatedIsSettled(r.structure, team);
    }
  }

  lemma {:induction false} SettledIsFixed(s: Structure, team: u8)
    requires Settled(s)
    ensures Propagated(s, team) == s
    decreases s
  {
    var r := Propagated(s, team);
    forall i | 0 <= i < |s.data|
      ensures r.data[i] == s.data[i]
    {
      var k := s.data[i].0;
      assert KeySettled(k);
      assert r.data[i] == (PropagatedKey(k, team), s.data[i].1);
      if PropagationTarget(k) {
        SettledReferenceIsFixed(TargetReference(k), team);
        WithTargetReferenceOfOwn(k);
      }
    }
    assert r.data == s.data;
  }

  lemma {:induction false} SettledReferenceIsFixed(r: StructureReference, team: u8)
    requires ReferenceSettled(r)
    ensures UpdatedOwnership(r, team) == r
    decreases r
  {
    if r.Raw? {
      SettledIsFixed(r.structure, team);
    }
  }

  /** Propagating again, with any team, changes nothing: the first
    * propagation already claimed every inheriting flag. */
  lemma PropagationIsIdempotent(s: Structure, team: u8, other: u8)
    ensures Propagated(Propagated(s, team), other) == Propagated(s, team)
  {
    PropagatedIsSettled(s, team);
    SettledIsFixed(Propagated(s, team), other);
  }

  // ---------------------------------------------------------------------------
  // Resolving a reference

  /** `Structure::try_from(&reference)`. A `Ref` is imported first, so an
    * import failure wins over an `Inherit` flag. The error carries the name
    * involved; the message texts are not modelled. */
  function TryFrom(r: StructureReference, importer: Importer): (res: Result<Structure, StructureError>)
    ensures res.Ok? <==> r.ownership.Team? && (r.Ref? ==> importer(r.name).Ok?)
    ensures res.Ok? && r.Raw? ==> res.value == Propagated(r.structure, r.ownership.team)
    ensures res.Ok? && r.Ref? ==> res.value == Propagated(importer(r.name).value, r.ownership.team)
    ensures res.Err? && r.Ref? && importer(r.name).Err? ==> res.error == ImportFailed(r.name)
    ensures res.Err? && (r.Raw? || importer(r.name).Ok?) ==>
      res.error == InheritOwnershipAtTopLevel(ReferencedName(r))
  {
    match r
    case Raw(s, o) =>
      if o.Team? then Ok(Propagated(s, o.team)) else Err(InheritOwnershipAtTopLevel(s.name))
    case Ref(n, o) =>
      match importer(n)
      case Err(_) => Err(ImportFailed(n))
      case Ok(imported) =>
        if o.Team? then Ok(Propagated(imported, o.team)) else Err(InheritOwnershipAtTopLevel(n))
  }

  // ---------------------------------------------------------------------------
  // Random substructures

  /** `0, 1, ..., n - 1`. */
  function Range(n: nat): (r: seq<nat>)
    ensures |r| == n && forall i :: 0 <= i < n ==> r[i] == i
  {
    if n == 0 then [] else Range(n - 1) + [n - 1]
  }

  predicate Distinct(s: seq<nat>)
  {
    forall i, j :: 0 <= i < j < |s| ==> s[i] != s[j]
  }

  function Without(pool: seq<nat>, j: nat): seq<nat>
    requires j < |pool|
  {
    pool[..j] + pool[j + 1..]
  }

  /** `n` picks without replacement from `pool`; the `k`-th pick takes the
    * position `draw(k)` modulo the size of what is left. */
  function PickWithoutReplacement(pool: seq<nat>, n: nat, draw: nat -> nat, k: nat): seq<nat>
    requires n <= |pool|
    decreases n
  {
    if n == 0 then []
    else
      var j := draw(k) % |pool|;
      [pool[j]] + PickWithoutReplacement(Without(pool, j), n - 1, draw, k + 1)
  }

  lemma {:induction false} PicksAreDistinctMembers(pool: seq<nat>, n: nat, draw: nat -> nat, k: nat)
    requires n <= |pool| && Distinct(pool)
    ensures var p := PickWithoutReplacement(pool, n, draw, k);
      |p| == n && Distinct(p) && forall i :: 0 <= i < n ==> p[i] in pool
    decreases n
  {
    if n > 0 {
      var j := draw(k) % |pool|;
      var rest := Without(pool, j);
      assert Distinct(rest) by {
        forall a, b | 0 <= a < b < |rest| ensures rest[a] != rest[b] {
          var a' := if a < j then a else a + 1;
          var b' := if b < j then b else b + 1;
          assert rest[a] == pool[a'] && rest[b] == pool[b'];
        }
      }
      PicksAreDistinctMembers(rest, n - 1, draw, k + 1);
      var tail := PickWithoutReplacement(rest, n - 1, draw, k + 1);
      forall i | 0 <= i < |tail| ensures tail[i] in pool && tail[i] != pool[j] {
        var m :| 0 <= m < |rest| && rest[m] == tail[i];
        assert rest[m] == pool[if m < j then m else m + 1];
      }
    }
  }

  /** The positions `choose_multiple` takes when fewer than all entries are wanted. */
  function ChosenPositions(len: nat, n: nat, draw: nat -> nat): (p: seq<nat>)
    requires n <= len
    ensures |p| == n && Distinct(p) && forall i :: 0 <= i < n ==> p[i] < len
  {
    PicksAreDistinctMembers(Range(len), n, draw, 0);
    PickWithoutReplacement(Range(len), n, draw, 0)
  }

  /** `create_random_substructure(n)`: all entries when `n` reaches the
    * length, otherwise the entries at `n` positions drawn without
    * replacement; tags are kept and the name is the Debug-quoted original
    * name followed by " Random Substructure". */
  function CreateRandomSubstructure(s: Structure, n: nat, draw: nat -> nat): (r: Structure)
    ensures r.tags == s.tags
    ensures r.name == DebugFormat.DebugQuote(s.name) + " Random Substructure"
  {
    var selected :=
      if n >= |s.data| then s.data
      else
        var positions := ChosenPositions(|s.data|, n, draw);
        seq(n, i requires 0 <= i < n => s.data[positions[i]]);
    Structure(DebugFormat.DebugQuote(s.name) + " Random Substructure", s.tags, selected)
  }

  lemma SubstructureOfAll(s: Structure, n: nat, draw: nat -> nat)
    requires n >= |s.data|
    ensures CreateRandomSubstructure(s, n, draw).data == s.data
  {
  }

  /** Fewer than all: exactly `n` entries, taken from `n` distinct positions. */
  lemma SubstructureOfSome(s: Structure, n: nat, draw: nat -> nat)
    requires n < |s.data|
    ensures var r := CreateRandomSubstructure(s, n, draw);
      |r.data| == n &&
      exists positions: seq<nat> ::
        |positions| == n && Distinct(positions) &&
        (forall i :: 0 <= i < n ==> positions[i] < |s.data| && r.data[i] == s.data[positions[i]])
  {
    var positions := ChosenPositions(|s.data|, n, draw);
    assert forall i :: 0 <= i < n ==> CreateRandomSubstructure(s, n, draw).data[i] == s.data[positions[i]];
  }
}
