/** The display labels and tag extraction of core/structure_key.rs. */
module StructureKeys {
  import opened Common
  import opened Structures
  import opened TagList
  import DebugFormat

  /** The prefix `variant_name` puts before the Debug-quoted referenced name. */
  function LabelPrefix(k: StructureKey): Option<string>
  {
    match k
    case ProbabilitySpawn(_, _) => Some("Prob ")
    case Choose(_) => Some("Choose ")
    case ChooseSome(_, _) => Some("Some ")
    case Loop(_, _, _, _) => Some("Loop ")
    case Rand(_, _) => Some("Rand ")
    case NoiseSpawn(_, _, _, _, _, _) => Some("Noise ")
    case PathSpawn(_, _, _, _, _) => Some("Path ")
    case Reflection(_, _, _, _) => Some("Reflect ")
    case NestingLoop(_, _, _) => Some("NLoop ")
    case _ => None
  }

  /** The constant label of each light, fog and audio variant. */
  function LeafLabel(k: StructureKey): string
    requires IsLeaf(k)
  {
    match k
    case PointLight(_) => "PointLight"
    case DirectionalLight(_) => "DirectionalLight"
    case AmbientLight(_) => "AmbientLight"
    case FogSettings(_) => "FogSettings"
    case BackgroundMusic(_) => "BackgroundMusic"
    case SoundEffect(_) => "SoundEffect"
    case SpotLight(_) => "SpotLight"
  }

  /** `variant_name`. The four variants missing from the enum shown in
    * core/structure_key.rs have no arm there, so they get `None`. */
  function VariantName(k: StructureKey): (name: Option<string>)
    ensures name.None? <==> k.PathToTag? || k.RandDistDir? || k.SelectiveReplacement? || k.InPass?
  {
    if k.Object? then Some(k.path)
    else if k.Nest? then Some(ReferencedName(k.reference))
    else if IsLeaf(k) then Some(LeafLabel(k))
    else if LabelPrefix(k).Some? then
      Some(LabelPrefix(k).value + DebugFormat.DebugQuote(ReferencedName(TargetReference(k))))
    else None
  }

  /** `Object` is labelled by its asset path and `Nest` by the bare referenced name. */
  lemma ObjectAndNestLabels(k: StructureKey)
    requires k.Object? || k.Nest?
    ensures k.Object? ==> VariantName(k) == Some(k.path)
    ensures k.Nest? ==> VariantName(k) == Some(ReferencedName(k.reference))
  {
  }

  /** Lights, fog and audio are labelled by their variant name whatever they carry. */
  lemma LeafLabelsAreConstant(k: StructureKey, k': StructureKey)
    requires IsLeaf(k) && IsLeaf(k')
    ensures VariantName(k).Some? && VariantName(k').Some?
    ensures VariantName(k) == VariantName(k') <==>
      (k.PointLight? == k'.PointLight? && k.SpotLight? == k'.SpotLight? &&
       k.SoundEffect? == k'.SoundEffect? && k.DirectionalLight? == k'.DirectionalLight? &&
       k.AmbientLight? == k'.AmbientLight? && k.FogSettings? == k'.FogSettings? &&
       k.BackgroundMusic? == k'.BackgroundMusic?)
  {
  }

  /** Every other referencing variant is labelled by its prefix followed by
    * the Debug-quoted referenced name, and that name can be read back from
    * the label. */
  lemma PrefixedLabelNamesReference(k: StructureKey)
    requires LabelPrefix(k).Some?
    ensures PropagationTarget(k)
    ensures var prefix := LabelPrefix(k).value;
      var name := VariantName(k).value;
      |name| > |prefix| && name[..|prefix|] == prefix &&
      DebugFormat.Unquote(name[|prefix|..]) == Some(ReferencedName(TargetReference(k)))
  {
    var prefix := LabelPrefix(k).value;
    var quoted := DebugFormat.DebugQuote(ReferencedName(TargetReference(k)));
    assert VariantName(k).value == prefix + quoted;
    assert (prefix + quoted)[|prefix|..] == quoted;
    DebugFormat.DebugQuoteRoundTrip(ReferencedName(TargetReference(k)));
  }

  /** The variants whose tags `get_tags` looks up. */
  predicate TagSource(k: StructureKey)
  {
    k.Nest? || k.Choose? || k.ChooseSome? || k.Rand? || k.ProbabilitySpawn? || k.Loop? ||
    k.NestingLoop? || k.NoiseSpawn? || k.PathSpawn? || k.Reflection?
  }

  /** `extract_tags`: the embedded structure's tags, or the imported one's,
    * or exactly `["Error"]` when the import fails. */
  function ExtractTags(r: StructureReference, importer: Importer): (tags: Tags)
    ensures r.Raw? ==> tags.items == r.structure.tags
    ensures r.Ref? && importer(r.name).Ok? ==> tags.items == importer(r.name).value.tags
    ensures r.Ref? && importer(r.name).Err? ==> tags.items == ["Error"]
  {
    match r
    case Raw(s, _) => Tags(s.tags)
    case Ref(n, _) =>
      match importer(n)
      case Ok(imported) => Tags(imported.tags)
      case Err(_) => Tags(["Error"])
  }

  /** `get_tags`: the extracted tags, or `None` when there are none. */
  function GetTags(k: StructureKey, importer: Importer): (r: Option<Tags>)
    ensures !TagSource(k) ==> r.None?
    ensures TagSource(k) ==>
      (r.None? <==> ExtractTags(TargetReference(k), importer).Len() == 0) &&
      (r.Some? ==> r.value == ExtractTags(TargetReference(k), importer))
  {
    var tags := if TagSource(k) then ExtractTags(TargetReference(k), importer) else Tags([]);
    if tags.Len() == 0 then None else Some(tags)
  }

  /** Whatever the key, `get_tags` never yields an empty tag list. */
  lemma GetTagsNeverEmpty(k: StructureKey, importer: Importer)
    ensures GetTags(k, importer).Some? ==> GetTags(k, importer).value.Len() > 0
  {
  }

  /** A referencing key whose named structure cannot be imported is always tagged "Error". */
  lemma FailedImportTagsError(k: StructureKey, importer: Importer)
    requires TagSource(k) && TargetReference(k).Ref? && importer(TargetReference(k).name).Err?
    ensures GetTags(k, importer) == Some(Tags(["Error"]))
  {
  }
}
