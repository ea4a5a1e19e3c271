/** The material autoloader (management/material_autoloader.rs): texture file
  * paths are classified by material name and texture kind, grouped into
  * one set of four texture slots per material, and each set becomes one
  * material in the store and one entry of a fresh `MaterialCache`. */
module TextureFiles {
  import opened Common
  import opened MaterialCaching

  // ---------------------------------------------------------------------------
  // Splitting paths

  /** `s.split(sep)`: always at least one part, none containing `sep`. */
  function Split(s: string, sep: char): (parts: seq<string>)
    ensures |parts| >= 1
    ensures forall i :: 0 <= i < |parts| ==> sep !in parts[i]
    decreases |s|
  {
    if |s| == 0 then [""]
    else if s[0] == sep then [""] + Split(s[1..], sep)
    else
      var rest := Split(s[1..], sep);
      [[s[0]] + rest[0]] + rest[1..]
  }

  /** The parts put back together with `sep` between them. */
  function Join(parts: seq<string>, sep: char): string
    requires |parts| >= 1
    decreases |parts|
  {
    if |parts| == 1 then parts[0] else parts[0] + [sep] + Join(parts[1..], sep)
  }

  lemma {:induction false} SplitJoin(s: string, sep: char)
    ensures Join(Split(s, sep), sep) == s
    decreases |s|
  {
    if |s| > 0 {
      SplitJoin(s[1..], sep);
      var rest := Split(s[1..], sep);
      if s[0] == sep {
        assert ([""] + rest)[1..] == rest;
        assert s == [s[0]] + s[1..];
      } else {
        var parts := [[s[0]] + rest[0]] + rest[1..];
        if |rest| == 1 {
          assert s == [s[0]] + s[1..];
        } else {
          assert parts[1..] == rest[1..];
          assert Join(rest, sep) == rest[0] + [sep] + Join(rest[1..], sep);
          assert s == [s[0]] + s[1..];
        }
      }
    }
  }

  /** Splitting text that starts with a separator-free `p` extends the first part. */
  lemma {:induction false} SplitPrefix(p: string, t: string, sep: char)
    requires sep !in p
    ensures Split(p + t, sep) == [p + Split(t, sep)[0]] + Split(t, sep)[1..]
    decreases |p|
  {
    if |p| > 0 {
      assert sep !in p[1..] by {
        assert forall c :: c in p[1..] ==> c in p;
      }
      SplitPrefix(p[1..], t, sep);
      assert (p + t)[1..] == p[1..] + t;
      assert p[0] != sep by { assert p[0] in p; }
      assert [p[0]] + (p[1..] + Split(t, sep)[0]) == p + Split(t, sep)[0];
    } else {
      assert p + t == t;
      assert p + Split(t, sep)[0] == Split(t, sep)[0];
      assert Split(t, sep) == [Split(t, sep)[0]] + Split(t, sep)[1..];
    }
  }

  lemma {:induction false} JoinSplit(parts: seq<string>, sep: char)
    requires |parts| >= 1
    requires forall i :: 0 <= i < |parts| ==> sep !in parts[i]
    ensures Split(Join(parts, sep), sep) == parts
    decreases |parts|
  {
    var p := parts[0];
    if |parts| == 1 {
      SplitPrefix(p, "", sep);
      assert p + "" == p;
    } else {
      var tail := parts[1..];
      assert forall i :: 0 <= i < |tail| ==> sep !in tail[i] by {
        forall i | 0 <= i < |tail| ensures sep !in tail[i] {
          assert tail[i] == parts[i + 1];
        }
      }
      JoinSplit(tail, sep);
      var t := [sep] + Join(tail, sep);
      assert Join(parts, sep) == p + t;
      assert t[1..] == Join(tail, sep);
      assert Split(t, sep) == [""] + tail;
      SplitPrefix(p, t, sep);
      assert p + "" == p;
      assert parts == [p] + tail;
    }
  }

  /** `parts.iter().position(|&r| r == x)`. */
  function FirstIndex(parts: seq<string>, x: string): (r: Option<nat>)
    ensures r.Some? ==> (r.value < |parts| && parts[r.value] == x &&
                         forall j :: 0 <= j < r.value ==> parts[j] != x)
    ensures r.None? <==> x !in parts
  {
    if |parts| == 0 then None
    else if parts[0] == x then Some(0)
    else match FirstIndex(parts[1..], x) {
      case None => None
      case Some(i) => Some(i + 1)
    }
  }

  /** The material a texture belongs to: the path segment after the first
    * `materials` segment, or segment 1 when there is none, or "". */
  function MaterialName(path: string): (name: string)
    ensures var parts := Split(path, '/');
      match FirstIndex(parts, "materials")
      case Some(i) => name == (if i + 1 < |parts| then parts[i + 1] else "")
      case None => name == (if 1 < |parts| then parts[1] else "")
    ensures '/' !in name
  {
    var parts := Split(path, '/');
    var index := match FirstIndex(parts, "materials") { case Some(i) => i case None => 0 };
    if index + 1 < |parts| then parts[index + 1] else ""
  }

  // ---------------------------------------------------------------------------
  // Texture kinds

  const TextureTypes: seq<string> := ["albedo", "ao", "normal", "met_roughness", "metallicRoughness"]
  const Unknown: string := "unknown"

  /** `s.contains(sub)`. */
  predicate Contains(s: string, sub: string)
  {
    exists i | 0 <= i <= |s| - |sub| :: OccursAt(s, sub, i)
  }

  predicate OccursAt(s: string, sub: string, i: int)
  {
    0 <= i <= |s| - |sub| && s[i..i + |sub|] == sub
  }

  /** The first of `types` whose `_` + name occurs in the path. */
  function FindType(path: string, types: seq<string>): (t: Option<nat>)
    ensures t.Some? ==> (t.value < |types| && Contains(path, "_" + types[t.value]) &&
                         forall j :: 0 <= j < t.value ==> !Contains(path, "_" + types[j]))
    ensures t.None? ==> forall j :: 0 <= j < |types| ==> !Contains(path, "_" + types[j])
  {
    if |types| == 0 then None
    else if Contains(path, "_" + types[0]) then Some(0)
    else match FindType(path, types[1..]) {
      case None => None
      case Some(i) => Some(i + 1)
    }
  }

  /** The texture kind a path names, or "unknown". */
  function TextureType(path: string): (t: string)
    ensures t == Unknown || t in TextureTypes
  {
    match FindType(path, TextureTypes)
    case None => Unknown
    case Some(k) => TextureTypes[k]
  }

  /** The kind is the first in the list whose `_` + name occurs in the path,
    * and "unknown" exactly when none does. */
  lemma TextureTypeFirstMatch(path: string)
    ensures TextureType(path) == Unknown <==>
      forall k :: 0 <= k < |TextureTypes| ==> !Contains(path, "_" + TextureTypes[k])
    ensures TextureType(path) != Unknown ==>
      exists k :: 0 <= k < |TextureTypes| && TextureType(path) == TextureTypes[k] &&
        Contains(path, "_" + TextureTypes[k]) &&
        forall j :: 0 <= j < k ==> !Contains(path, "_" + TextureTypes[j])
  {
    assert Unknown !in TextureTypes;
    match FindType(path, TextureTypes)
    case None =>
    case Some(k) =>
      assert TextureType(path) == TextureTypes[k];
  }

  /** `extract_tex_data`. */
  function ExtractTexData(path: string): (string, string)
  {
    (MaterialName(path), TextureType(path))
  }

  /** The slot a texture kind fills: albedo 0, ao 1, normal 2, the two
    * metallic-roughness spellings 3. */
  function Slot(t: string): (k: Option<nat>)
    ensures k.Some? <==> t in TextureTypes
    ensures k.Some? ==> k.value < 4
  {
    if t == "albedo" then Some(0)
    else if t == "ao" then Some(1)
    else if t == "normal" then Some(2)
    else if t == "met_roughness" || t == "metallicRoughness" then Some(3)
    else None
  }

  // ---------------------------------------------------------------------------
  // Grouping into texture sets

  /** The four texture slots of one material. */
  datatype TextureSet = TextureSet(albedo: Option<string>, ao: Option<string>,
                                   normal: Option<string>, metRoughness: Option<string>)
  {
    function Get(k: nat): Option<string>
    {
      if k == 0 then albedo else if k == 1 then ao else if k == 2 then normal
      else if k == 3 then metRoughness else None
    }

    function Put(k: nat, path: string): (s: TextureSet)
      requires k < 4
      ensures s.Get(k) == Some(path)
      ensures forall j :: j != k ==> s.Get(j) == Get(j)
    {
      if k == 0 then this.(albedo := Some(path))
      else if k == 1 then this.(ao := Some(path))
      else if k == 2 then this.(normal := Some(path))
      else this.(metRoughness := Some(path))
    }
  }

  const EmptySet := TextureSet(None, None, None, None)

  /** How a path is classified, as `(material name, texture kind)`;
    * `ExtractTexData` in the system. */
  type Classify = string -> (string, string)

  /** One file's effect on the grouping: unknown kinds are skipped, other
    * files create their material's entry if needed and fill their slot. */
  function AddTexture(sets: map<string, TextureSet>, path: string, classify: Classify): map<string, TextureSet>
  {
    var (name, t) := classify(path);
    if t == Unknown then sets
    else
      var entry := if name in sets then sets[name] else EmptySet;
      match Slot(t)
      case Some(k) => sets[name := entry.Put(k, path)]
      case None => sets[name := entry]
  }

  /** The grouping of the files in iteration order. */
  function Group(paths: seq<string>, classify: Classify): map<string, TextureSet>
  {
    if |paths| == 0 then map[]
    else AddTexture(Group(paths[..|paths| - 1], classify), paths[|paths| - 1], classify)
  }

  /** File `path` goes into slot `k` of material `name`. */
  predicate Classified(classify: Classify, path: string, name: string, k: nat)
  {
    classify(path).0 == name && Slot(classify(path).1) == Some(k)
  }

  function SlotOf(sets: map<string, TextureSet>, name: string, k: nat): Option<string>
  {
    if name in sets then sets[name].Get(k) else None
  }

  /** The materials grouped are exactly the names of the files of a known kind. */
  lemma {:induction false} GroupKeys(paths: seq<string>, classify: Classify, name: string)
    ensures name in Group(paths, classify) <==>
      exists i :: 0 <= i < |paths| && classify(paths[i]).1 != Unknown && classify(paths[i]).0 == name
    decreases |paths|
  {
    if |paths| > 0 {
      var init := paths[..|paths| - 1];
      GroupKeys(init, classify, name);
      if exists i :: 0 <= i < |init| && classify(init[i]).1 != Unknown && classify(init[i]).0 == name {
        var i :| 0 <= i < |init| && classify(init[i]).1 != Unknown && classify(init[i]).0 == name;
        assert paths[i] == init[i];
      }
      if exists i :: 0 <= i < |paths| && classify(paths[i]).1 != Unknown && classify(paths[i]).0 == name {
        var i :| 0 <= i < |paths| && classify(paths[i]).1 != Unknown && classify(paths[i]).0 == name;
        if i < |init| {
          assert init[i] == paths[i];
        }
      }
    }
  }

  /** `v` is what a slot holds after `paths`: the last file classified into
    * it, or nothing when no file is. */
  ghost predicate LastInSlot(paths: seq<string>, classify: Classify, name: string, k: nat, v: Option<string>)
  {
    (v.Some? <==> exists i :: 0 <= i < |paths| && Classified(classify, paths[i], name, k)) &&
    (v.Some? ==>
       exists i :: 0 <= i < |paths| && Classified(classify, paths[i], name, k) && v.value == paths[i] &&
         forall j :: i < j < |paths| ==> !Classified(classify, paths[j], name, k))
  }

  /** Each slot of each material holds the last file classified into it, and
    * is empty when no file is. */
  lemma {:induction false} GroupSlots(paths: seq<string>, classify: Classify, name: string, k: nat)
    ensures LastInSlot(paths, classify, name, k, SlotOf(Group(paths, classify), name, k))
    decreases |paths|
  {
    if |paths| > 0 {
      var init := paths[..|paths| - 1];
      GroupSlots(init, classify, name, k);
      AddTextureSlot(Group(init, classify), paths[|paths| - 1], classify, name, k);
      if Classified(classify, paths[|paths| - 1], name, k) {
        SlotTakesLast(paths, classify, name, k);
      } else {
        SlotSkipsLast(paths, classify, name, k, SlotOf(Group(init, classify), name, k));
      }
    }
  }

  lemma SlotTakesLast(paths: seq<string>, classify: Classify, name: string, k: nat)
    requires |paths| > 0 && Classified(classify, paths[|paths| - 1], name, k)
    ensures LastInSlot(paths, classify, name, k, Some(paths[|paths| - 1]))
  {
  }

  lemma SlotSkipsLast(paths: seq<string>, classify: Classify, name: string, k: nat, v: Option<string>)
    requires |paths| > 0 && !Classified(classify, paths[|paths| - 1], name, k)
    requires LastInSlot(paths[..|paths| - 1], classify, name, k, v)
    ensures LastInSlot(paths, classify, name, k, v)
  {
    var init := paths[..|paths| - 1];
    SomeClassifiedSkipsLast(paths, init, classify, name, k);
    if v.Some? {
      var i :| 0 <= i < |init| && Classified(classify, init[i], name, k) && v.value == init[i] &&
        forall j :: i < j < |init| ==> !Classified(classify, init[j], name, k);
      LatestSkipsLast(paths, init, classify, name, k, i);
    }
  }

  lemma SomeClassifiedSkipsLast(paths: seq<string>, init: seq<string>, classify: Classify, name: string, k: nat)
    requires |paths| > 0 && init == paths[..|paths| - 1] && !Classified(classify, paths[|paths| - 1], name, k)
    ensures (exists i :: 0 <= i < |paths| && Classified(classify, paths[i], name, k)) <==>
      (exists i :: 0 <= i < |init| && Classified(classify, init[i], name, k))
  {
    if exists i :: 0 <= i < |init| && Classified(classify, init[i], name, k) {
      var i :| 0 <= i < |init| && Classified(classify, init[i], name, k);
      assert paths[i] == init[i];
    }
    if exists i :: 0 <= i < |paths| && Classified(classify, paths[i], name, k) {
      var i :| 0 <= i < |paths| && Classified(classify, paths[i], name, k);
      assert i < |init| && init[i] == paths[i];
    }
  }

  lemma LatestSkipsLast(paths: seq<string>, init: seq<string>, classify: Classify, name: string, k: nat, i: int)
    requires |paths| > 0 && init == paths[..|paths| - 1] && !Classified(classify, paths[|paths| - 1], name, k)
    requires 0 <= i < |init|
    requires forall j :: i < j < |init| ==> !Classified(classify, init[j], name, k)
    ensures forall j :: i < j < |paths| ==> !Classified(classify, paths[j], name, k)
  {
    forall j | i < j < |paths| ensures !Classified(classify, paths[j], name, k) {
      if j < |init| {
        assert paths[j] == init[j];
      }
    }
  }

  /** One file changes exactly the slot it is classified into. */
  lemma AddTextureSlot(sets: map<string, TextureSet>, path: string, classify: Classify, name: string, k: nat)
    ensures SlotOf(AddTexture(sets, path, classify), name, k) ==
      if Classified(classify, path, name, k) then Some(path) else SlotOf(sets, name, k)
  {
    assert Slot(Unknown) == None;
  }

  /** `preload_materials_system`'s first loop, over the files in iteration order. */
  method GroupTextures(paths: seq<string>) returns (sets: map<string, TextureSet>)
    ensures sets == Group(paths, ExtractTexData)
  {
    sets := map[];
    for i := 0 to |paths|
      invariant sets == Group(paths[..i], ExtractTexData)
    {
      sets := FileIntoSet(sets, paths[i]);
      assert paths[..i + 1][..i] == paths[..i];
    }
    assert paths[..|paths|] == paths;
  }

  /** The loop body: one file into its material's entry. */
  method FileIntoSet(sets: map<string, TextureSet>, path: string) returns (sets': map<string, TextureSet>)
    ensures sets' == AddTexture(sets, path, ExtractTexData)
  {
    var (name, t) := ExtractTexData(path);
    if t == Unknown {
      return sets;
    }
    var entry := if name in sets then sets[name] else EmptySet;
    if t == "albedo" {
      entry := entry.(albedo := Some(path));
    } else if t == "ao" {
      entry := entry.(ao := Some(path));
    } else if t == "normal" {
      entry := entry.(normal := Some(path));
    } else if t == "met_roughness" || t == "metallicRoughness" {
      entry := entry.(metRoughness := Some(path));
    }
    sets' := sets[name := entry];
  }

  // ---------------------------------------------------------------------------
  // Materials and the cache

  /** The material built from a texture set (the texture loads are by path). */
  datatype MaterialDesc = MaterialDesc(baseColor: Option<string>, occlusion: Option<string>,
                                       normalMap: Option<string>, metallicRoughness: Option<string>,
                                       metallic: real, perceptualRoughness: real, flipNormalMapY: bool)

  function MaterialFor(s: TextureSet): MaterialDesc
  {
    MaterialDesc(s.albedo, s.ao, s.normal, s.metRoughness, 0.1, 0.9, true)
  }

  /** `Assets<StandardMaterial>`: `add` appends and hands back the index. */
  class MaterialStore {
    var materials: seq<MaterialDesc>

    method Add(m: MaterialDesc) returns (h: Handle)
      modifies this
      ensures h == |old(materials)| && materials == old(materials) + [m]
    {
      h := |materials|;
      materials := materials + [m];
    }
  }

  /** `preload_materials_system`'s second loop: one new material and one
    * entry of a fresh cache per material name, visited in any order. */
  method CacheMaterials(sets: map<string, TextureSet>, store: MaterialStore) returns (cache: MaterialCache)
    modifies store
    ensures fresh(cache)
    ensures cache.entries.Keys == sets.Keys
    ensures |store.materials| == |old(store.materials)| + |sets.Keys|
    ensures store.materials[..|old(store.materials)|] == old(store.materials)
    ensures forall name :: name in cache.entries ==>
      |old(store.materials)| <= cache.entries[name] < |store.materials| &&
      store.materials[cache.entries[name]] == MaterialFor(sets[name])
    ensures forall a, b :: a in cache.entries && b in cache.entries && a != b ==> cache.entries[a] != cache.entries[b]
  {
    cache := new MaterialCache.New();
    CacheAll(sets, store, cache);
  }

  /** The loop: every name gets a new material, cached under it. */
  method CacheAll(sets: map<string, TextureSet>, store: MaterialStore, cache: MaterialCache)
    requires cache.entries == map[]
    modifies store, cache
    ensures cache.entries.Keys == sets.Keys
    ensures |store.materials| == |old(store.materials)| + |sets.Keys|
    ensures store.materials[..|old(store.materials)|] == old(store.materials)
    ensures CachedFrom(sets, cache.entries, store.materials, |old(store.materials)|)
  {
    ghost var base := |store.materials|;
    var remaining := sets.Keys;
    while remaining != {}
      invariant remaining <= sets.Keys
      invariant cache.entries.Keys == sets.Keys - remaining
      invariant base <= |store.materials| && |store.materials| - base + |remaining| == |sets.Keys|
      invariant CachedFrom(sets, cache.entries, store.materials, base)
      invariant store.materials[..base] == old(store.materials)
      decreases remaining
    {
      var name :| name in remaining;
      CacheOne(sets, store, cache, name, base);
      assert cache.entries.Keys == sets.Keys - (remaining - {name});
      assert |remaining - {name}| == |remaining| - 1;
      remaining := remaining - {name};
    }
  }

  /** Every cached name points at its own material among those added since
    * `base`, and no two names share one. */
  ghost predicate CachedFrom(sets: map<string, TextureSet>, entries: map<string, Handle>,
                             materials: seq<MaterialDesc>, base: nat)
  {
    (forall name :: name in entries ==>
       name in sets && base <= entries[name] < |materials| && materials[entries[name]] == MaterialFor(sets[name])) &&
    (forall a, b :: a in entries && b in entries && a != b ==> entries[a] != entries[b])
  }

  /** The loop body: a new material for `name`, cached under it. */
  method CacheOne(sets: map<string, TextureSet>, store: MaterialStore, cache: MaterialCache, name: string,
                  ghost base: nat)
    requires name in sets && name !in cache.entries && base <= |store.materials|
    requires CachedFrom(sets, cache.entries, store.materials, base)
    modifies store, cache
    ensures cache.entries == old(cache.entries)[name := |old(store.materials)|]
    ensures store.materials == old(store.materials) + [MaterialFor(sets[name])]
    ensures store.materials[..base] == old(store.materials)[..base]
    ensures CachedFrom(sets, cache.entries, store.materials, base)
  {
    var h := store.Add(MaterialFor(sets[name]));
    cache.Insert(name, h);
    forall n | n in cache.entries
      ensures n in sets && base <= cache.entries[n] < |store.materials| &&
        store.materials[cache.entries[n]] == MaterialFor(sets[n])
    {
      if n != name {
        assert n in old(cache.entries) && cache.entries[n] == old(cache.entries)[n];
      }
    }
  }

  /** `preload_materials_system`: the files are grouped, then every group
    * becomes a material and a cache entry. */
  method PreloadMaterials(paths: seq<string>, store: MaterialStore) returns (cache: MaterialCache)
    modifies store
    ensures fresh(cache)
    ensures cache.entries.Keys == Group(paths, ExtractTexData).Keys
    ensures |store.materials| == |old(store.materials)| + |Group(paths, ExtractTexData).Keys|
    ensures store.materials[..|old(store.materials)|] == old(store.materials)
    ensures forall name :: name in cache.entries ==>
      |old(store.materials)| <= cache.entries[name] < |store.materials| &&
      store.materials[cache.entries[name]] == MaterialFor(Group(paths, ExtractTexData)[name])
    ensures forall a, b :: a in cache.entries && b in cache.entries && a != b ==> cache.entries[a] != cache.entries[b]
  {
    var sets := GroupTextures(paths);
    cache := CacheMaterials(sets, store);
  }
}
