# proc_gen core in Dafny

proc_gen builds 3D scenes out of nested structure descriptions. A
`Structure` is a name, a tag list and an ordered list of
(`StructureKey`, transform) entries. Spawning a structure expands every
entry into a spawn event, and each kind of entry has its own listener.
A tick-driven `GenerationState` machine (Generating, CollisionResolution,
NavMeshBuilding, PathResolve, Completed) decides when one generation pass
has settled and the next can start.

This project models that core and proves what it promises:

- the structure data model: ownership propagation, resolving a reference,
  random substructures, display labels and tags;
- expansion: one request per entry, the cycle and depth guard on the name
  stack, the import cache, and the decisions for probabilistic, choose and
  reflection entries;
- the pipeline's state machine, its counters and its deferred queues
  (`PendingInPass`, `PendingPathEvents`, `ResolvedPathSpawns`);
- the subtree-stabilisation progressors, the navmesh-affector threshold,
  the lower-priority-despawns rule, and the loop, nesting-loop and
  reflection listeners;
- the samplers and small buffers: the exclusivity filter and the noise grid,
  `reflect_point` and `jiggle_transform`, the 256-slot path-blend segment
  table, texture classification and grouping, and the material cache.

Modelling choices:

- Bevy's deferred `Commands` become the class `CommandQueue.Commands`.
  Spawning reserves a fresh id at once; everything else is appended to a
  queue of commands.
- World queries become an explicit snapshot: entity ids, a parent map, tag
  lists and transforms.
- Transform composition (`parent * Transform::from(local)`) and the
  quaternion rotation of looped positions are function parameters.
- The random number generator is an input stream of draws.
- Reading and parsing structure files is a function from path to outcome.
- Integers keep Rust's widths (`u8`, `u16`, `u32`, `i8`), and
  `saturating_add` is written out.
- Where the sampler divides, an `f32` value may be NaN or infinite
  (`Float32`).

Modules:

| module | file | models |
|---|---|---|
| `Common`, `Geometry`, `Float32` | common.dfy, geometry.dfy, float32.dfy | options, results, Rust integer widths, vectors and Euler transforms, non-finite `f32` values |
| `DebugFormat` | debug_format.dfy | `format!("{:?}", s)` for names, escaping ASCII characters only |
| `TagList` | tags.dfy | `src/core/tags.rs` |
| `Structures` | structures.dfy | `src/core/structure.rs` |
| `StructureKeys` | structure_keys.dfy | `src/core/structure_key.rs` |
| `Colliders` | colliders.dfy | `create_collider` in `src/spawning/helpers.rs` |
| `CommandQueue` | commands.dfy | Bevy's deferred commands, as the spawners use them |
| `SpawnableStructure` | spawnable_structure.dfy | `src/event_system/spawnables/structure.rs` |
| `StructureSpawning` | structure_spawning.dfy | `src/spawning/structure_spawning.rs` |
| `StructureManagement` | structure_management.dfy | `src/management/structure_management.rs` |
| `GenerationPipeline` | generation_state.dfy | the state driver and its hooks in `src/event_system/event_listeners.rs` |
| `DeferredQueues` | deferred_queues.dfy | the InPass, path-event and resolved-path queues |
| `Hierarchy` | hierarchy.dfy | `is_descendant` and `collect_entity_and_descendants` |
| `SubtreeProgressors` | progressors.dfy | the collider-strip and selective-replacement progressors |
| `PriorityRules` | priority_rules.dfy | `activate_navmesh_affectors`, `collider_priority_despawn_system` |
| `RepeatListeners` | repeat_listeners.dfy | `loop_spawn_listener`, `nesting_loop_spawn_listener` |
| `ReflectionListener` | reflection_listener.dfy | `reflection_spawn_listener` |
| `Exclusivity`, `NoiseScatter` | exclusivity.dfy, noise_scatter.dfy | `src/spawning/transformation.rs` |
| `Helpers` | helpers.dfy | `reflect_point`, `jiggle_transform` |
| `PathBlend` | path_blend.dfy | `src/materials/path_blend.rs` |
| `TextureFiles` | texture_files.dfy | `src/management/material_autoloader.rs` |
| `MaterialCaching` | material_cache.dfy | `src/serialization/caching.rs` |

Notes on the source that shape the model:

- `generate_noise_spawn_points_2d` divides each returned offset by the
  centre coordinate, not by the radius (transformation.rs:149-156). The
  radius is half the centre coordinate, so for even positive sizes and a
  modifier of at least 1 every returned offset lies in [-1/2, 1/2] on both
  axes, under the footprint test as written and under the corrected one
  (`NoiseScatter.NoiseSpawnOffsetsWithinHalf`).
- `StructureKey` in structure_key.rs has no `PathToTag`, `RandDistDir`,
  `SelectiveReplacement` or `InPass` variant and no `visibility` field on
  `Object`, yet the listeners and spawners use all of them. The datatype is
  the union.
- `variant_name` has no arm for those four extra variants. The model gives
  them no label (`None`).
- The `OnEnter` registration of the enter hooks is outside the modelled
  sources. The hooks are modelled as methods to call on entering their
  state, as their comments say.

## Model

| member | source | states |
|---|---|---|
| `TagList.Tags.Contains` | src/core/tags.rs:15-17 | true exactly when some stored tag equals the argument |
| `TagList.Tags.Len` | src/core/tags.rs:19-21 | the number of stored tags |
| `TagList.Tags.Iter` | src/core/tags.rs:11-13 | yields the stored tags, in stored order |
| `TagList.EmptyTags` | src/core/tags.rs:15-21 | empty tags contain nothing and have length 0 |
| `TagList.LenCountsRepeats` | src/core/tags.rs:19-21 | a repeated tag still counts once more in `len` |
| `TagList.ContainsAfterAppend` | src/core/tags.rs:15-17 | `contains` over a concatenation is the disjunction over the parts |
| `Common.SatIncU8` | src/event_system/event_listeners.rs:1216-1218 | `u8::saturating_add(1)`: one more below 255, and 255 stays 255 |
| `Common.SatIncU16` | src/event_system/event_listeners.rs:1209 | `u16::saturating_add(1)`: one more below 65535, and 65535 stays 65535 |
| `DebugFormat.DebugQuote` | src/core/structure.rs:31 | a Debug-formatted name is enclosed in double quotes |
| `DebugFormat.DebugQuoteRoundTrip` | src/core/structure.rs:31 | the Debug quoting of a name reads back to the name |
| `DebugFormat.DebugQuoteInjective` | src/core/structure_key.rs:100-141 | distinct names never get the same quoted label |
| `DebugFormat.EscapedRoundTrip` | src/core/structure.rs:31 | the escaped body of a quoted name unescapes to the name |
| `Structures.PropagateTeamOwnership` | src/core/structure.rs:73-98 | the entry-by-entry rewrite computes exactly the propagated structure |
| `Structures.UpdateOwnership` | src/core/structure.rs:100-114 | the in-place update of a reference computes exactly the updated reference |
| `Structures.PropagationPreservesLayout` | src/core/structure.rs:74-97 | propagation keeps the entry count, the order, every transform, every leaf key, the name and the tags |
| `Structures.PropagationClaimsObjects` | src/core/structure.rs:90-94 | an `Object` that inherits now belongs to the team; one already on a team keeps its team; its other fields are unchanged |
| `Structures.PropagationUpdatesReferences` | src/core/structure.rs:76-89 | a referencing entry keeps its variant and fields, and only its reference is updated |
| `Structures.UpdatedOwnershipFlags` | src/core/structure.rs:100-113 | `Inherit` becomes the team and a team is kept; a `Raw` structure is always propagated into; the name behind a `Ref` is untouched |
| `Structures.PropagatedIsSettled` | src/core/structure.rs:73-98 | after propagation no visited ownership flag is left as `Inherit` |
| `Structures.UpdatedIsSettled` | src/core/structure.rs:100-113 | after an update the reference has no `Inherit` flag left |
| `Structures.SettledIsFixed` | src/core/structure.rs:73-98 | propagating into a structure without `Inherit` flags changes nothing |
| `Structures.SettledReferenceIsFixed` | src/core/structure.rs:100-113 | updating a reference without `Inherit` flags changes nothing |
| `Structures.PropagationIsIdempotent` | src/core/structure.rs:73-98 | propagating a second time, with any team, changes nothing |
| `Structures.TryFrom` | src/core/structure.rs:41-69 | resolves exactly when the reference's own flag is a team and, for a `Ref`, the import succeeds; the result is the propagated copy; a failed import is reported before the `Inherit` check |
| `Structures.PicksAreDistinctMembers` | src/core/structure.rs:24-27 | picking without replacement gives `n` distinct members of the pool |
| `Structures.ChosenPositions` | src/core/structure.rs:24-27 | `n` distinct positions, each inside the list |
| `Structures.CreateRandomSubstructure` | src/core/structure.rs:30-34 | keeps the tags; the name is the Debug-quoted original name followed by " Random Substructure" |
| `Structures.SubstructureOfAll` | src/core/structure.rs:21-22 | when `n` reaches the length, every entry is kept, in order |
| `Structures.SubstructureOfSome` | src/core/structure.rs:23-27 | otherwise exactly `n` entries, taken from `n` distinct positions of the original list |
| `StructureKeys.VariantName` | src/core/structure_key.rs:92-143 | every variant the enum lists has a label; the four variants without an arm have none |
| `StructureKeys.ObjectAndNestLabels` | src/core/structure_key.rs:94-98 | an `Object` is labelled with its asset path, a `Nest` with the bare referenced name |
| `StructureKeys.LeafLabelsAreConstant` | src/core/structure_key.rs:99-121 | every light, fog and audio key has a label, and two such keys share a label exactly when they are the same variant |
| `StructureKeys.PrefixedLabelNamesReference` | src/core/structure_key.rs:100-141 | every other referencing variant's label is its fixed prefix followed by the Debug-quoted referenced name |
| `StructureKeys.ExtractTags` | src/core/structure_key.rs:167-177 | a `Raw` reference gives the embedded tags; a `Ref` gives the imported tags, or exactly `["Error"]` when the import fails |
| `StructureKeys.GetTags` | src/core/structure_key.rs:145-165 | variants without a reference give `None`; the others give the extracted tags, or `None` exactly when they are empty |
| `StructureKeys.GetTagsNeverEmpty` | src/core/structure_key.rs:160-164 | `get_tags` never returns an empty tag list |
| `StructureKeys.FailedImportTagsError` | src/core/structure_key.rs:170-175 | a failed import of a named reference tags the key with `["Error"]` |
| `Colliders.CreateCollider` | src/spawning/helpers.rs:56-81 | `None` exactly for `ColliderType::None`; otherwise a collider of that shape |
| `CommandQueue.Commands.constructor` | src/event_system/spawnables/structure.rs:27-31 | an empty queue, with ids starting at 0 |
| `CommandQueue.Commands.Spawn` | src/event_system/spawnables/structure.rs:27-31 | reserves the next id, appends its spawn, and keeps every spawned id below the next one |
| `CommandQueue.Commands.Push` | src/event_system/spawnables/structure.rs:34-36 | appends one non-spawn command and reserves no id |
| `CommandQueue.Parenting` | src/event_system/spawnables/structure.rs:34-36 | one `add_child` command when there is a parent, none otherwise |
| `CommandQueue.Tagging` | src/event_system/spawnables/structure.rs:44-46 | one tag insertion when the tags are non-empty, none otherwise |
| `CommandQueue.CountsAppend` | src/event_system/spawnables/structure.rs:60-72 | dispatch and spawn counts add up over consecutive command runs |
| `CommandQueue.CountAllDispatches` | src/event_system/spawnables/structure.rs:60-72 | a run of dispatches counts one dispatch per command and no spawn |
| `SpawnableStructure.Requests` | src/event_system/spawnables/structure.rs:60-72 | one request per entry |
| `SpawnableStructure.RequestsPerEntry` | src/event_system/spawnables/structure.rs:60-72 | request `i` dispatches entry `i`'s key under the given parent; a `Rand` entry gets its local transform, every other entry the composed transform |
| `SpawnableStructure.RandIgnoresParentTransform` | src/event_system/spawnables/structure.rs:63-65 | a `Rand` entry's request is the same whatever the parent transform |
| `SpawnableStructure.RequestsAppend` | src/event_system/spawnables/structure.rs:60-72 | the requests of consecutive entry runs concatenate in entry order |
| `SpawnableStructure.SpawnStructureData` | src/event_system/spawnables/structure.rs:53-75 | appends exactly the per-entry requests, spawns nothing and returns `Ok(parent)` |
| `SpawnableStructure.SpawnStructure` | src/event_system/spawnables/structure.rs:20-51 | the container is spawned and parented before the import; a failed import leaves it and returns an error; on success tags go on the container only when non-empty, and entries are dispatched under it with an identity base |
| `StructureSpawning.NameStack.constructor` | src/spawning/structure_spawning.rs:22 | an empty name stack |
| `StructureSpawning.Guard` | src/spawning/structure_spawning.rs:32-38 | a name already on the stack is a cycle; otherwise a stack of 100 or more is too deep; otherwise the guard passes |
| `StructureSpawning.Adopt` | src/spawning/structure_spawning.rs:81-91 | a returned data entity is adopted by the container and returned; any error is reported as an import failure of the name |
| `StructureSpawning.SpawnStructureByNameAsWritten` | src/spawning/structure_spawning.rs:17-92 | the guard errors before anything is spawned; after the push an import failure returns with the name still on the stack; otherwise the stack returns to its entry contents |
| `StructureSpawning.SpawnStructureByName` | src/spawning/structure_spawning.rs:17-92 | the same expansion with the stack restored on every path after the push |
| `StructureSpawning.RetryAfterFailedImportAsWritten` | src/spawning/structure_spawning.rs:74-76 | as written, retrying a name whose import failed on the same stack reports a cycle |
| `StructureSpawning.RetryAfterFailedImport` | src/spawning/structure_spawning.rs:32-79 | with the stack restored, the retry fails with the same import error and the stack is empty again |
| `StructureSpawning.ReflectedLocal` | src/spawning/structure_spawning.rs:420-428 | the mirrored translation lies at the opposite signed distance from the plane; rotation and scale are kept |
| `StructureSpawning.ExpandEntry` | src/spawning/structure_spawning.rs:117-473 | only `Nest`, `ProbabilitySpawn`, `Choose`, `ChooseSome` and `Reflection` are decided here; an error comes only from child reflection or a failed resolution |
| `StructureSpawning.NestDecision` | src/spawning/structure_spawning.rs:124-141 | a nested reference is resolved and expanded once at the combined transform |
| `StructureSpawning.ProbabilityDecision` | src/spawning/structure_spawning.rs:145-166 | the reference is expanded exactly when the draw is below the probability; otherwise a "Probabalistically Rejected" placeholder is spawned and nothing is resolved |
| `StructureSpawning.ChooseDecision` | src/spawning/structure_spawning.rs:167-204 | `Choose` expands a one-entry random substructure and `ChooseSome` a `count`-entry one |
| `StructureSpawning.ReflectionDecision` | src/spawning/structure_spawning.rs:413-473 | child reflection is refused before resolution; otherwise the structure is expanded at the combined transform and at the mirrored one |
| `StructureManagement.StructurePathLayout` | src/management/structure_management.rs:20-25 | a relative name is looked up as `<cwd>/assets/structures/<name>.arch` |
| `StructureManagement.AbsoluteNameEscapes` | src/management/structure_management.rs:23-25 | an absolute name replaces the base directory in the path |
| `StructureManagement.ImportFromFiles` | src/management/structure_management.rs:12-46 | succeeds exactly when the name's file parses, with the parsed structure |
| `StructureManagement.StructureCache.constructor` | src/management/structure_management.rs:8-10 | an empty cache that has consulted no file |
| `StructureManagement.StructureCache.Import` | src/management/structure_management.rs:12-46 | always returns what the file gives; a hit consults no file; a miss consults the name's path once; a successful parse is cached under the name; a missing or unparsable file caches nothing |
| `StructureManagement.ImportTwice` | src/management/structure_management.rs:15-17 | after a successful import, importing the same name again returns the same structure, and the two imports consult at most one file between them |
| `GenerationPipeline.DebounceClosedForm` | src/event_system/event_listeners.rs:1099-1111 | the debounce counter is the current ready streak modulo the threshold, and it fires exactly on multiples of the threshold |
| `GenerationPipeline.AdvanceNeedsEightReadyTicks` | src/event_system/event_listeners.rs:1091-1111 | CollisionResolution is requested only after eight consecutive ready ticks |
| `GenerationPipeline.AdvanceAfterEightReadyTicks` | src/event_system/event_listeners.rs:1099-1107 | eight ready ticks after a reset do request CollisionResolution |
| `GenerationPipeline.PathResolveEverySixty` | src/event_system/event_listeners.rs:1172-1183 | in PathResolve the timer fires on every 60th tick and at no other |
| `GenerationPipeline.StableRunIsCappedStreak` | src/event_system/event_listeners.rs:1069-1089 | `no_pending_stable_frames` is the number of trailing ticks without pending work, capped at 255 |
| `GenerationPipeline.PassesAreConsecutive` | src/event_system/event_listeners.rs:1544-1556 | repeated pass advances visit every pass up to the highest index exactly once, in order, then stop |
| `GenerationPipeline.Pipeline.constructor` | src/event_system/event_listeners.rs:1266-1294 | every resource at its default: Generating, counters at zero, pass 0 |
| `GenerationPipeline.Pipeline.GenerationStateDriver` | src/event_system/event_listeners.rs:1041-1152 | in Generating, activity is seen when the idle count drops; pending work zeroes both stability counters and holds; otherwise the stable count grows and the eighth ready tick requests CollisionResolution and resets; CollisionResolution leaves after one tick; NavMeshBuilding leaves once no task runs |
| `GenerationPipeline.Pipeline.AdvanceFromPathResolve` | src/event_system/event_listeners.rs:1164-1184 | only in PathResolve: the timer counts, and at 60 it requests Generating when resolved path spawns are buffered and Completed otherwise, then resets |
| `GenerationPipeline.Pipeline.ResetPathResolvePhase` | src/event_system/event_listeners.rs:1159-1161 | zeroes the path-resolve timer and nothing else |
| `GenerationPipeline.Pipeline.ResetGeneratingPhase` | src/event_system/event_listeners.rs:1187-1200 | zeroes the counters, clears `seen_activity`, sets `last_idle_frames` to 255 |
| `GenerationPipeline.Pipeline.TickGeneratingCounter` | src/event_system/event_listeners.rs:1204-1213 | saturating increment of the Generating frame count, only in Generating |
| `GenerationPipeline.Pipeline.TickSpawnActivity` | src/event_system/event_listeners.rs:1216-1218 | saturating increment of the idle count |
| `GenerationPipeline.Pipeline.MarkSpawnActivity` | src/event_system/event_listeners.rs:2217 | a listener that processed events zeroes the idle count |
| `GenerationPipeline.Pipeline.AdvancePassOrFinish` | src/event_system/event_listeners.rs:1544-1556 | below the highest pass, the pass increases by exactly one and Generating is requested; otherwise nothing changes |
| `DeferredQueues.HighestIndex` | src/event_system/event_listeners.rs:509-510 | the highest index is at least the old one, covers every event, and is the old one or some event's index |
| `DeferredQueues.DrainPartitions` | src/event_system/event_listeners.rs:529-561 | the items of the current pass and the others together are exactly the queue |
| `DeferredQueues.RestAppend` | src/event_system/event_listeners.rs:529-561 | both halves of the partition keep queue order: they split a concatenation into the concatenation of the parts |
| `DeferredQueues.ExpandItem` | src/event_system/event_listeners.rs:544-556 | expanding one item appends exactly its requests and spawns nothing |
| `DeferredQueues.ExpandNext` | src/event_system/event_listeners.rs:529-560 | expanding the next current-pass item extends the expansion of the items before it |
| `DeferredQueues.RestOfOtherPasses` | src/event_system/event_listeners.rs:529-561 | a queue without items of the current pass is left as it is |
| `DeferredQueues.InPassQueue.constructor` | src/event_system/event_listeners.rs:500-501 | an empty queue |
| `DeferredQueues.InPassQueue.InPassSpawnListener` | src/event_system/event_listeners.rs:504-517 | appends every event in arrival order and raises the highest pass index to cover them |
| `DeferredQueues.InPassQueue.ProcessPendingInPass` | src/event_system/event_listeners.rs:520-563 | expands exactly the current pass's items, in queue order; keeps the others in their order; resets the idle count when any item is expanded |
| `DeferredQueues.RaisedForPaths` | src/event_system/event_listeners.rs:1353-1358 | path-to-all and plain path events raise the highest pass index to the next pass, saturating |
| `DeferredQueues.HolderLabelsExact` | src/event_system/event_listeners.rs:1321-1351 | exactly the events storing under a label no tagged entity carries get a holder, in event order |
| `DeferredQueues.HolderLabelsCount` | src/event_system/event_listeners.rs:1321-1351 | one holder per event storing under a label no tagged entity carries |
| `DeferredQueues.HolderLabelsRequested` | src/event_system/event_listeners.rs:1321-1351 | the holders are exactly the (label, parent) pairs such events request |
| `DeferredQueues.CreateHolder` | src/event_system/event_listeners.rs:1325-1331 | one holder is a fresh entity, named, tagged with its label and parented when it has a parent |
| `DeferredQueues.CreateHolders` | src/event_system/event_listeners.rs:1321-1351 | one fresh, tagged, named and parented holder per such event |
| `DeferredQueues.PathEventBuffer.constructor` | src/event_system/event_listeners.rs:1297-1302 | three empty buffers |
| `DeferredQueues.PathEventBuffer.BufferPathEvents` | src/event_system/event_listeners.rs:1309-1364 | every event is buffered in arrival order; holders are created; the pass index is raised; any event resets the idle count |
| `DeferredQueues.PathEventBuffer.FlushPathEventsOnEnter` | src/event_system/event_listeners.rs:1367-1377 | sends the three buffers in their order and leaves them empty |
| `DeferredQueues.ResolvedPathSpawns.constructor` | src/event_system/event_listeners.rs:35-37 | an empty buffer |
| `DeferredQueues.ResolvedPathSpawns.Buffer` | src/event_system/event_listeners.rs:475 | a resolved path spawn is appended |
| `DeferredQueues.ResolvedPathSpawns.FlushOnEnterGenerating` | src/event_system/event_listeners.rs:224-237 | sends every buffered path spawn in order and leaves the buffer empty |
| `Hierarchy.IsDescendant` | src/event_system/event_listeners.rs:2750-2759 | true exactly when the ancestor lies on the child's parent chain |
| `Hierarchy.NotOwnDescendant` | src/event_system/event_listeners.rs:2750-2759 | in an acyclic hierarchy no entity lies below itself |
| `Hierarchy.CountDescendants` | src/event_system/event_listeners.rs:2597-2602 | the number of entities strictly below the container |
| `Hierarchy.CollectSubtree` | src/event_system/event_listeners.rs:1431-1438 | the root together with every entity below it |
| `SubtreeProgressors.StripRunFacts` | src/event_system/event_listeners.rs:1582-1590 | the stable count is the run of unchanged ticks, capped at 255, and the last counts are the last observation |
| `SubtreeProgressors.UnchangedSuffix` | src/event_system/event_listeners.rs:1582-1590 | the run of unchanged ticks is at least `k` exactly when each of the last `k` ticks saw the counts of the tick before it |
| `SubtreeProgressors.StripIffThreeUnchangedTicks` | src/event_system/event_listeners.rs:1582-1592 | colliders are stripped on a tick exactly when it and the two before it saw unchanged subtree and collider counts |
| `SubtreeProgressors.GenerationOnlyColliders.EnqueueGenerationOnlyColliders` | src/event_system/event_listeners.rs:1559-1568 | every tagged root neither pending nor stripped becomes pending with fresh counters; the others are untouched |
| `SubtreeProgressors.GenerationOnlyColliders.StripGenerationOnlyCollidersProgressor` | src/event_system/event_listeners.rs:1571-1615 | every pending root takes one step; the roots that fire lose every collider of their subtree, become stripped and stop pending; the others keep their new counters |
| `SubtreeProgressors.StripDoneAll` | src/event_system/event_listeners.rs:1571-1615 | once every pending root has been stepped, the fired roots, the kept counters and the stripped colliders are exactly those the step function gives |
| `SubtreeProgressors.StrippedByAdd` | src/event_system/event_listeners.rs:1594-1613 | stripping one more root removes its whole subtree in addition |
| `SubtreeProgressors.SelectiveRunFacts` | src/event_system/event_listeners.rs:2604-2666 | a run keeps the replacement, tags and count, and remembers the last descendant count |
| `SubtreeProgressors.SelectiveFiresOnlyWhenStable` | src/event_system/event_listeners.rs:2604-2672 | a replacement fires only after the same non-zero descendant count on three ticks and the same non-zero candidate count on the last two |
| `SubtreeProgressors.SelectiveFiresWhenStable` | src/event_system/event_listeners.rs:2604-2672 | it does fire once the same non-zero counts have held on four consecutive ticks |
| `SubtreeProgressors.ChosenTargets` | src/event_system/event_listeners.rs:2692-2695 | `min(n, candidates)` targets, all candidates |
| `SubtreeProgressors.ChosenTargetsDistinct` | src/event_system/event_listeners.rs:2692-2695 | distinct candidates give distinct targets |
| `SubtreeProgressors.ReplacementsOf` | src/event_system/event_listeners.rs:2701-2743 | only chosen targets with a transform are replaced |
| `SubtreeProgressors.ReplacementsOfAll` | src/event_system/event_listeners.rs:2701-2743 | when every target has a transform, there is one replacement per target, in the chosen order |
| `SubtreeProgressors.ReplacesMinDistinct` | src/event_system/event_listeners.rs:2681-2746 | once fired, a resolvable replacement replaces `min(replace_count, candidates)` distinct candidates |
| `SubtreeProgressors.CollectCandidates` | src/event_system/event_listeners.rs:2637-2644 | the tagged entities below the container carrying a wanted tag, in query order |
| `SubtreeProgressors.SelectiveReplacements.SelectiveReplacementProgressor` | src/event_system/event_listeners.rs:2590-2748 | every pending container takes one step; a firing one produces its replacements, or none when resolution fails, and stops pending either way |
| `SubtreeProgressors.StepContainer` | src/event_system/event_listeners.rs:2596-2672 | one container's step, counting candidates only when the descendant count is stable |
| `PriorityRules.AffectorPartition` | src/event_system/event_listeners.rs:1446-1457 | every queued collider loses its flag; exactly those with no priority or one at least the threshold become affectors; nothing else is touched |
| `PriorityRules.AffectorRemovals` | src/event_system/event_listeners.rs:1446-1457 | a collider loses its queued flag exactly when it is queued |
| `PriorityRules.AffectorInserts` | src/event_system/event_listeners.rs:1446-1457 | a collider becomes a navmesh affector exactly when it is queued with no priority or one at least the threshold |
| `PriorityRules.AffectorOnlyFlags` | src/event_system/event_listeners.rs:1446-1457 | the pass issues no command other than inserting the affector marker and removing the queued flag |
| `PriorityRules.DefaultThresholdIsOne` | src/event_system/event_listeners.rs:1384-1386 | without the resource, priority 1 or more affects the navmesh and 0 or less does not |
| `PriorityRules.ActivateNavmeshAffectors` | src/event_system/event_listeners.rs:1441-1458 | queues exactly those commands, in query order |
| `PriorityRules.Loser` | src/event_system/event_listeners.rs:2775-2785 | a pair loses a collider exactly when both have priorities and they differ; the loser has the strictly lower one |
| `PriorityRules.DespawnedExactly` | src/event_system/event_listeners.rs:2769-2827 | no entity is despawned twice, and the despawned entities are exactly the losers of the pairs |
| `PriorityRules.DespawnedDistinct` | src/event_system/event_listeners.rs:2769-2827 | the despawn order never names an entity twice |
| `PriorityRules.DespawnedLosers` | src/event_system/event_listeners.rs:2769-2827 | an entity is despawned exactly when it loses one of the pairs |
| `PriorityRules.HighestPrioritySurvives` | src/event_system/event_listeners.rs:2784-2785 | a collider whose priority is at least every other is never despawned |
| `PriorityRules.DespawnedGrows` | src/event_system/event_listeners.rs:2769-2827 | the despawn order of a run of pairs extends that of any prefix |
| `PriorityRules.ConsiderPair` | src/event_system/event_listeners.rs:2773-2796 | one pair queues a despawn of its loser only when the loser was not despawned before, and the despawned set grows to match |
| `PriorityRules.ConsiderContacts` | src/event_system/event_listeners.rs:2770-2797 | the contact pairs queue exactly their despawn order |
| `PriorityRules.ConsiderCollisions` | src/event_system/event_listeners.rs:2800-2827 | the `Started` collision pairs continue that order without repeating a contact loser |
| `PriorityRules.ColliderPriorityDespawn` | src/event_system/event_listeners.rs:2762-2828 | the contact pairs and then the `Started` collision pairs, sharing one set, queue one despawn per loser |
| `RepeatListeners.LoopedPositions` | src/spawning/transformation.rs:10-32 | one position per copy |
| `RepeatListeners.LoopChildProgression` | src/event_system/event_listeners.rs:2180-2209 | the first copy is unrotated with unit scale; each further copy adds one child rotation and one scale step |
| `RepeatListeners.LoopCommandsCounts` | src/event_system/event_listeners.rs:2163-2215 | one loop event spawns one container and sends `count` nest requests |
| `RepeatListeners.LoopAllCounts` | src/event_system/event_listeners.rs:2154-2218 | a run of loop events spawns one container per event and sends as many requests as their counts add up to |
| `RepeatListeners.LoopRequestsUnderContainer` | src/event_system/event_listeners.rs:2211-2214 | every request nests the event's reference under its container |
| `RepeatListeners.LoopRequests` | src/event_system/event_listeners.rs:2200-2215 | one nest request per copy |
| `RepeatListeners.QueueLoopCopies` | src/event_system/event_listeners.rs:2200-2215 | the copy loop appends exactly the requests of one event and spawns nothing |
| `RepeatListeners.LoopOne` | src/event_system/event_listeners.rs:2163-2215 | one event spawns its container, the next id, then queues its requests |
| `RepeatListeners.LoopSpawnListener` | src/event_system/event_listeners.rs:2154-2218 | queues exactly the containers and requests of the events, in order, and resets the idle count when any event was read |
| `RepeatListeners.NestingAllCounts` | src/event_system/event_listeners.rs:2220-2246 | nesting loops spawn nothing and send as many requests as their counts add up to |
| `RepeatListeners.NestingSteps` | src/event_system/event_listeners.rs:2228-2235 | the first copy is at the base, and each copy is the previous one followed by one step |
| `RepeatListeners.NestingRequests` | src/event_system/event_listeners.rs:2231-2244 | one nest request per copy |
| `RepeatListeners.QueueNestingCopies` | src/event_system/event_listeners.rs:2231-2244 | the copy loop appends exactly the requests of one event and spawns nothing |
| `RepeatListeners.NestingLoopSpawnListener` | src/event_system/event_listeners.rs:2220-2246 | queues exactly the copies of every event, event by event, spawning nothing, and resets the idle count when any event was read |
| `ReflectionListener.MirroredTwice` | src/event_system/event_listeners.rs:2504-2508 | mirroring a transform twice gives it back |
| `ReflectionListener.MirroredChildTwice` | src/event_system/event_listeners.rs:2454-2467 | mirroring a child twice gives it back, wherever the container is |
| `ReflectionListener.ReflectedDataShape` | src/event_system/event_listeners.rs:2451-2470 | the composite has two entries per entry: entry `2i` is entry `i`, and entry `2i+1` has the same key and the mirror image |
| `ReflectionListener.BuildReflectedData` | src/event_system/event_listeners.rs:2451-2470 | the loop builds exactly that composite |
| `ReflectionListener.PlainReflectionMirrors` | src/event_system/event_listeners.rs:2504-2520 | the two requests of a plain reflection differ only in translation, and each is the other's mirror image |
| `ReflectionListener.ReflectionCommandsCounts` | src/event_system/event_listeners.rs:2418-2522 | a container is spawned unless a child reflection fails to import; a plain reflection sends two requests; a child reflection sends two per entry |
| `ReflectionListener.ReflectPlain` | src/event_system/event_listeners.rs:2493-2520 | a plain reflection spawns its container, the next id, and queues the original and mirrored requests |
| `ReflectionListener.ReflectChildren` | src/event_system/event_listeners.rs:2425-2483 | a child reflection spawns its container, the next id, tags it when the structure has tags, and queues the requests of the composite under it |
| `ReflectionListener.ReflectOne` | src/event_system/event_listeners.rs:2418-2522 | one event queues exactly its commands |
| `ReflectionListener.ReflectionSpawnListener` | src/event_system/event_listeners.rs:2418-2522 | queues exactly the commands of every event in turn |
| `Exclusivity.FarFrom` | src/spawning/transformation.rs:173-176 | the surviving candidates are candidates, in order, beyond the radius of the accepted point |
| `Exclusivity.SelectExclusive` | src/spawning/transformation.rs:164-184 | the pop-and-filter loop computes the greedy selection |
| `Exclusivity.FilterByExclusivity` | src/spawning/transformation.rs:159-185 | the selection with the squared-radius test |
| `Exclusivity.ExclusiveIsAccepted` | src/spawning/transformation.rs:169-182 | the loop accepts exactly what a left-to-right scan accepts |
| `Exclusivity.ScanIsAccepted` | src/spawning/transformation.rs:169-182 | scanning more candidates continues the accepted list of a prefix |
| `Exclusivity.ScanSkipsNear` | src/spawning/transformation.rs:173-176 | dropping candidates near an already accepted point changes nothing |
| `Exclusivity.AcceptedBound` | src/spawning/transformation.rs:169-180 | at most `n` points, and no more than there are candidates |
| `Exclusivity.AcceptedFromCandidates` | src/spawning/transformation.rs:170-171 | every accepted point is a candidate's point |
| `Exclusivity.AcceptedSeparated` | src/spawning/transformation.rs:167-176 | every accepted point is beyond the radius of every point accepted before it |
| `Exclusivity.AcceptedPrefix` | src/spawning/transformation.rs:170-171 | accepted points keep the input order |
| `Exclusivity.AcceptedOrCovered` | src/spawning/transformation.rs:173-176 | each candidate is accepted next, or skipped because `n` were accepted or because it lies within the radius of an earlier point |
| `Exclusivity.FirstAccepted` | src/spawning/transformation.rs:170-171 | the first candidate is always accepted when `n >= 1` |
| `Exclusivity.ShortOnlyWhenExhausted` | src/spawning/transformation.rs:169 | fewer than `n` accepted means every candidate was accepted or covered |
| `Float32.Add` | src/spawning/transformation.rs:137 | finite operands add exactly; a NaN operand gives NaN |
| `Float32.Mul` | src/spawning/transformation.rs:137 | finite operands multiply exactly |
| `Float32.Div` | src/spawning/transformation.rs:134-135 | a finite value over a non-zero divisor is the quotient; over zero it is NaN exactly when the value is 0, and infinite otherwise; NaN stays NaN |
| `Float32.SqNotNegative` | src/spawning/transformation.rs:137 | a square is never negative, an infinite square is positive, and a square is NaN exactly when its operand is |
| `NoiseScatter.HalfTrunc` | src/spawning/transformation.rs:114-117 | integer `/ 2` truncating toward zero |
| `NoiseScatter.TruncToInt` | src/spawning/transformation.rs:114-117 | `as i32` truncates toward zero |
| `NoiseScatter.Checks` | src/spawning/transformation.rs:102-108 | no panic exactly when the effective cells fit the budget of 2097152 and both effective dimensions are even; the budget panic takes precedence |
| `NoiseScatter.ScanGrid` | src/spawning/transformation.rs:127-145 | the nested loops collect exactly the grid's candidates, column by column |
| `NoiseScatter.GridMembership` | src/spawning/transformation.rs:129-143 | a candidate comes from a grid cell inside the footprint, and every such cell gives one |
| `NoiseScatter.SortDescendingCorrect` | src/spawning/transformation.rs:147 | sorted candidates are in descending noise order and are a permutation of the input |
| `NoiseScatter.InsertPermutes` | src/spawning/transformation.rs:147 | inserting a candidate adds exactly that candidate |
| `NoiseScatter.InsertKeepsOrder` | src/spawning/transformation.rs:147 | inserting into a descending list keeps it descending |
| `NoiseScatter.GenerateNoiseSpawnPoints2D` | src/spawning/transformation.rs:90-157 | returns the sampler's points, or the assertion it fails |
| `NoiseScatter.NoiseSpawnPointsFor` | src/spawning/transformation.rs:34-88 | only two-dimensional sample sizes are sampled; a square size `n` stands for `n` by `n` |
| `NoiseScatter.EvenBounds` | src/spawning/transformation.rs:114-125 | for an even size, the range runs from `size/2·t` to `3·size/2·t` and is centred on `size·t` |
| `NoiseScatter.AsWrittenFootprint` | src/spawning/transformation.rs:131-139 | the footprint test as written compares sample coordinates with a centre in grid units |
| `NoiseScatter.CentredFootprintIsEllipse` | src/spawning/transformation.rs:134-139 | the corrected test keeps exactly the cells of the ellipse inscribed in the grid |
| `NoiseScatter.UnscaleSample` | src/spawning/transformation.rs:131-132 | scaling a sample back by the modifier recovers its grid coordinate |
| `NoiseScatter.FootprintsAgreeAtUnitResolution` | src/spawning/transformation.rs:131-156 | at modifier 1 both readings agree, footprint and offsets alike |
| `NoiseScatter.CentreKept` | src/spawning/transformation.rs:134-139 | the corrected footprint keeps the centre cell |
| `NoiseScatter.CentredFootprintSymmetric` | src/spawning/transformation.rs:134-139 | the corrected footprint is symmetric about an exact centre |
| `NoiseScatter.CentreCellRejectedAsWritten` | src/spawning/transformation.rs:134-139 | a 4 by 4 sample at modifier 2 passes the checks, yet the test as written rejects its centre cell |
| `NoiseScatter.OffsetWithinHalf` | src/spawning/transformation.rs:149-156 | for even positive sizes and a modifier of at least 1, the offset of any grid cell lies in [-1/2, 1/2] for the corrected reading, and for the reading as written at modifier 1 |
| `NoiseScatter.FootprintOffsetWithinHalf` | src/spawning/transformation.rs:131-156 | for even positive sizes and a modifier of at least 1, a cell the footprint test keeps, as written or corrected, has its offset in [-1/2, 1/2] on both axes |
| `NoiseScatter.NoiseSpawnOffsetsWithinHalf` | src/spawning/transformation.rs:102-156 | for even positive sizes and a modifier of at least 1, every offset the sampler returns is finite and lies in [-1/2, 1/2] on both axes, with z = 0 |
| `NoiseScatter.AcceptedCells` | src/spawning/transformation.rs:127-149 | every accepted point is the sample point of a cell in the footprint |
| `NoiseScatter.HighestFirst` | src/spawning/transformation.rs:147-149 | the first accepted point has the highest noise value |
| `NoiseScatter.NoiseSpawnPointsProperties` | src/spawning/transformation.rs:147-156 | succeeds exactly when the checks pass; then at most `count` offsets, one per accepted point, in order, and the accepted points are pairwise beyond the radius |
| `Helpers.ReflectPoint` | src/spawning/helpers.rs:11-20 | the reflection lies at the opposite signed distance from the plane (unit normal) |
| `Helpers.ReflectOnPlane` | src/spawning/helpers.rs:16-19 | a point on the plane is its own reflection |
| `Helpers.ReflectTwice` | src/spawning/helpers.rs:16-19 | reflecting twice with a unit normal gives the point back |
| `Helpers.LinearJitterBounds` | src/spawning/helpers.rs:28-30 | each linear draw lies in [-spread/2, spread/2) |
| `Helpers.LinearDraws` | src/spawning/helpers.rs:28-30 | seven draws, each `u·spread - spread/2` of the next uniform value |
| `Helpers.JiggleDraws` | src/spawning/helpers.rs:27-35 | linear draws always succeed; Gaussian draws fail exactly on a non-positive deviation |
| `Helpers.LinearJiggleShape` | src/spawning/helpers.rs:37-52 | translation axis `i` is scaled by draw `i`, rotation axis `i` by draw `3+i`, scale by `2^(s·draw6)` |
| `Helpers.GaussianJiggleFails` | src/spawning/helpers.rs:31-32 | Gaussian jitter fails exactly when the deviation is not positive |
| `Helpers.ZeroScaleDrawIsUnitScale` | src/spawning/helpers.rs:48-52 | a zero seventh draw gives scale 1 on every axis |
| `PathBlend.Windows` | src/materials/path_blend.rs:42-48 | one segment per consecutive pair, `(a.x, a.z, b.x, b.z)` |
| `PathBlend.Stored` | src/materials/path_blend.rs:44 | at most 256 segments are stored |
| `PathBlend.Layout` | src/materials/path_blend.rs:43-54 | the table has 256 slots |
| `PathBlend.PresenceBits` | src/materials/path_blend.rs:170-173 | the presence mask is at most 7 |
| `PathBlend.PathBlendParams.Default` | src/materials/path_blend.rs:86-105 | a zeroed table, the default shading, and all flags zero |
| `PathBlend.PathBlendParams.SetSegmentsFromPoints` | src/materials/path_blend.rs:39-57 | writes the windows, zeroes the rest, stores the count and clears the presence bits; falloff, invert and shading are kept |
| `PathBlend.PathBlendParams.ClearSegments` | src/materials/path_blend.rs:59-62 | zeroes every slot, stores a count of 0 and clears the presence bits; falloff, invert and shading are kept |
| `PathBlend.PathBlendParams.SetSegmentsFromPolylines` | src/materials/path_blend.rs:66-83 | writes every polyline's windows in order up to 256, zeroes the rest, stores the count and clears the presence bits |
| `PathBlend.PathBlendParams.SetFalloffMode` | src/materials/path_blend.rs:161-163 | only `flags.x` changes |
| `PathBlend.PathBlendParams.SetInvert` | src/materials/path_blend.rs:164-166 | only `flags.y` changes, to 1 or 0 |
| `PathBlend.PathBlendParams.SetNearPresence` | src/materials/path_blend.rs:169-175 | `flags.w` becomes the presence mask; x, y and z are kept |
| `PathBlend.PreparePathBlendParams` | src/materials/path_blend.rs:188-189 | segments first, presence bits second: both the count and the bits end up in the flags |
| `PathBlend.SegmentCount` | src/materials/path_blend.rs:39-50 | the count is `min(len-1, 256)` when there are at least 2 points, and 0 otherwise |
| `PathBlend.LayoutSlots` | src/materials/path_blend.rs:45-54 | slot `i` joins points `i` and `i+1`, and every slot from the count on is zero |
| `PathBlend.ShortPolylineSkipped` | src/materials/path_blend.rs:69 | a polyline of fewer than 2 points contributes nothing |
| `PathBlend.PolylinesNotBridged` | src/materials/path_blend.rs:64-78 | two polylines give their windows one after the other, without the bridging segment |
| `PathBlend.SinglePolyline` | src/materials/path_blend.rs:66-83 | a single polyline is laid out as the points setter lays it out |
| `PathBlend.PresenceBitsDecode` | src/materials/path_blend.rs:167-173 | the mask's three bits read back the three flags |
| `PathBlend.PresenceSurvivesInOrder` | src/materials/path_blend.rs:188-189 | storing the count and then the bits keeps both; the reverse order would clear the bits |
| `TextureFiles.Split` | src/management/material_autoloader.rs:110 | at least one part, none containing the separator |
| `TextureFiles.SplitJoin` | src/management/material_autoloader.rs:110 | joining the parts gives the text back |
| `TextureFiles.JoinSplit` | src/management/material_autoloader.rs:110 | splitting joined separator-free parts gives the parts back |
| `TextureFiles.SplitPrefix` | src/management/material_autoloader.rs:110 | a separator-free prefix joins the first part |
| `TextureFiles.FirstIndex` | src/management/material_autoloader.rs:111 | the first position of the part, or none exactly when it is absent |
| `TextureFiles.MaterialName` | src/management/material_autoloader.rs:110-112 | the segment after the first `materials` segment, else segment 1, else "" |
| `TextureFiles.FindType` | src/management/material_autoloader.rs:114-121 | the first type whose `_` + name occurs in the path, or none when none occurs |
| `TextureFiles.TextureType` | src/management/material_autoloader.rs:109-122 | a known type or "unknown" |
| `TextureFiles.TextureTypeFirstMatch` | src/management/material_autoloader.rs:114-122 | "unknown" exactly when no `_` + type occurs; otherwise the first type in the list that occurs |
| `TextureFiles.Slot` | src/management/material_autoloader.rs:73-78 | albedo 0, ao 1, normal 2, both metallic-roughness spellings 3; no slot otherwise |
| `TextureFiles.TextureSet.Put` | src/management/material_autoloader.rs:74-77 | fills one slot and leaves the other three |
| `TextureFiles.GroupKeys` | src/management/material_autoloader.rs:63-80 | the grouped materials are exactly the names of files of a known kind; unknown files are skipped |
| `TextureFiles.GroupSlots` | src/management/material_autoloader.rs:71-79 | each slot holds the last file classified into it, and is empty when none is |
| `TextureFiles.AddTextureSlot` | src/management/material_autoloader.rs:66-79 | one file changes exactly the slot it is classified into |
| `TextureFiles.GroupTextures` | src/management/material_autoloader.rs:61-80 | the loop computes the grouping |
| `TextureFiles.CacheMaterials` | src/management/material_autoloader.rs:82-103 | one new material and one cache entry per material name, with distinct handles; earlier materials are kept |
| `TextureFiles.MaterialStore.Add` | src/management/material_autoloader.rs:88-98 | adding a material appends it and returns its position as the handle |
| `TextureFiles.PreloadMaterials` | src/management/material_autoloader.rs:54-104 | the cache holds exactly one fresh material per grouped material name, with distinct handles; earlier materials are kept |
| `MaterialCaching.MaterialCache.Lookup` | src/serialization/caching.rs:29-31 | present exactly for cached names, with their handle |
| `MaterialCaching.MaterialCache.New` | src/serialization/caching.rs:19-23 | a new cache answers nothing for every name |
| `MaterialCaching.MaterialCache.Insert` | src/serialization/caching.rs:25-27 | the name now gives the handle, replacing any earlier one; every other name is unchanged |
| `MaterialCaching.MaterialCache.Get` | src/serialization/caching.rs:29-31 | answers the lookup |

## Left out

- Rendering, assets and UI are engine calls: the mesh, scene, light, fog and
  atmosphere listeners, the state overlay (event_listeners.rs:1221-1264),
  and the shader and plugin parts of path_blend.rs.
- `path_to_tag_spawn_listener` and `path_to_all_tags_spawn_listener` are not
  modelled, since they depend on navmesh path finding and float geometry.
  Only the buffers they fill (`ResolvedPathSpawns.Buffer`) are modelled.
- `path_spawn_listener`, `noise_spawn_listener`, `rand_dist_dir` and
  `selective_replacement_spawn_listener` are left out. Their spline
  sampling, FBM noise and event construction are float or engine work.
  The progressor starts from the pending state that last listener
  creates.
- `RepeatListeners.LoopedPositions`: the quaternion rotation is the
  parameter `rotate`, and degree-to-radian conversion is inside it.
- `RepeatListeners.NestingLoopSpawnListener`: the matrix product and the
  `Transform`/`EulerTransform` conversions are the `compose` parameter.
  Round-off in those conversions is not modelled. Copy 0 is queued as
  `EulerTransform::from(Transform::from(base))`, and the model takes that
  round trip to be the identity, so copy 0 is `base` itself.
- The libnoise FBM generator is an input field from grid cell to value.
  The Gaussian draws of `jiggle_transform` are an input stream, and
  `2^x` is a parameter.
- f32 rounding is not modelled. Coordinates are reals; only NaN and the
  infinities that a zero divisor produces in the noise sampler are.
- `DebugFormat.DebugQuote`: only the ASCII control characters, the quote
  and the backslash are escaped. Rust's `{:?}` for `str` also writes
  `\u{..}` for non-printable non-ASCII characters (U+0085, U+00AD, U+200B,
  U+FEFF) and for grapheme-extending characters (U+0301), which the model
  copies as they are. Names using them get a different label from the
  source's.
- `StructureSpawning.Guard`: the cycle and depth guard is modelled as the
  source applies it, in `spawn_structure_by_name` only. The `Nest` arm of
  `spawn_structure_by_data` (structure_spawning.rs:124-141) resolves the
  reference and recurses without pushing or checking the name stack, so a
  structure nesting a `Ref` to its own name recurses without end instead
  of reporting `CycleDetected`. The model expands a `Nest` entry by one
  level (`StructureSpawning.NestDecision`) and does not model that
  unbounded recursion.
- `NoiseScatter.NoiseSpawnOffsetsWithinHalf`: the bound is stated for even
  positive sizes and a modifier of at least 1. With an odd size (e.g. 3 at
  modifier 2) the grid's radius exceeds half the centre coordinate, and
  with a modifier below 1 the truncated modifier is 0 and the offsets
  divide by zero.
- `NoiseScatter.TruncToInt`: saturation of `as i32` at the integer bounds
  is not modelled.
- `PriorityRules.ColliderPriorityDespawn`: the queued `despawn_recursive`
  is a command; what it removes from the world is not modelled. Names and
  log lines are left out.
- `SubtreeProgressors.SelectiveReplacements.SelectiveReplacementProgressor`:
  each replacement is modelled as its placement and the entries it
  dispatches. The individual spawn, despawn and parenting commands are
  not modelled.
- The entity hierarchy is a parent map rather than Bevy's `Children`
  lists. A child's position among its siblings is not modelled.
- `StructureSpawning.SpawnStructureByName` does not model the commands
  `spawn_structure_by_data` issues. It is taken as a given function of the
  structure, the transform and the container. Only the per-entry decisions
  of the data expansion are modelled (`ExpandEntry`). The lights, audio,
  objects, loops and selective replacement are engine events.
- The older state systems `advance_to_collision_resolution`,
  `collision_resolution_waiter` and `navmesh_build_monitor`
  (event_listeners.rs:1464-1541) and the dispatcher in
  `src/systems/events.rs` are not the live driver and are left out.
- The `Mutex`/`lazy_static` wrapper of the structure cache is a plain map.
  File access and RON parsing are a function from path to outcome, and
  error messages are reduced to their kind and name.
- The audio listeners, Rapier collider construction in `collider.rs` and
  contact-event plumbing are physics and audio engine code.
- The `tests/` crate and `tests/build.rs` contain no assertions about the
  core.
- The `debug` feature's logging is left out.

## Findings

| source | as written | input that shows it | evidently intended | confidence | as-written member | corrected member |
|---|---|---|---|---|---|---|
| src/spawning/structure_spawning.rs:74-76 | an import failure returns before `struct_stack.pop()`, so the name stays on the stack | a stack `[]` and a name whose file is missing: the call fails and leaves `[name]`; a retry on the same stack reports `CycleDetected` | the stack comes back to its entry contents on every path after the push | not executed; the only caller shown passes a fresh stack | `StructureSpawning.SpawnStructureByNameAsWritten`, `StructureSpawning.RetryAfterFailedImportAsWritten` | `StructureSpawning.SpawnStructureByName`, `StructureSpawning.RetryAfterFailedImport` |
| src/spawning/transformation.rs:131-139 | the footprint test compares sample coordinates (`x / rm`) with a centre and radii in grid units | sample size 4 by 4 with modifier 2: the checks pass, and the centre cell (8, 8) has sample coordinate 4, so `nx = -1`, `ny = -1` and the cell is rejected | cells are kept inside the ellipse inscribed in the grid, centre included | not executed; at modifier 1 the two readings agree | `NoiseScatter.CentreCellRejectedAsWritten`, `NoiseScatter.AsWrittenFootprint` | `NoiseScatter.CentredFootprintIsEllipse`, `NoiseScatter.CentreKept`, `NoiseScatter.CentredFootprintSymmetric` |
