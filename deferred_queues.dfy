/** The deferred queues of the generation pipeline (event_system/event_listeners.rs):
  * `PendingInPass`, which holds `InPass` items until their pass runs,
  * `PendingPathEvents`, which holds the path events authored during
  * Generating until PathResolve, and `ResolvedPathSpawns`, which holds the
  * path spawns resolved during PathResolve until the next Generating. */
module DeferredQueues {
  import opened Common
  import opened Geometry
  import opened Structures
  import opened TagList
  import opened CommandQueue
  import opened SpawnableStructure
  import opened GenerationPipeline

  // ---------------------------------------------------------------------------
  // PendingInPass

  datatype InPassSpawnEvent = InPassSpawnEvent(index: u8, reference: StructureReference,
                                               transform: EulerTransform, parent: Option<Entity>)

  /** The highest pass index after raising `h` by every event's index in turn. */
  function HighestIndex(h: u8, events: seq<InPassSpawnEvent>): (r: u8)
    ensures r >= h && forall i :: 0 <= i < |events| ==> events[i].index <= r
    ensures r == h || exists i :: 0 <= i < |events| && events[i].index == r
  {
    if |events| == 0 then h
    else
      var r0 := HighestIndex(h, events[..|events| - 1]);
      assert forall i :: 0 <= i < |events| - 1 ==> events[..|events| - 1][i] == events[i];
      if events[|events| - 1].index > r0 then events[|events| - 1].index else r0
  }

  /** The items of pass `cur`, in queue order. */
  function Matching(items: seq<InPassSpawnEvent>, cur: u8): seq<InPassSpawnEvent>
  {
    if |items| == 0 then []
    else Matching(items[..|items| - 1], cur) +
         (if items[|items| - 1].index == cur then [items[|items| - 1]] else [])
  }

  /** The items of every other pass, in queue order. */
  function Rest(items: seq<InPassSpawnEvent>, cur: u8): seq<InPassSpawnEvent>
  {
    if |items| == 0 then []
    else Rest(items[..|items| - 1], cur) +
         (if items[|items| - 1].index != cur then [items[|items| - 1]] else [])
  }

  /** One more item extends exactly one of the two parts. */
  lemma DrainStep(items: seq<InPassSpawnEvent>, i: nat, cur: u8)
    requires i < |items|
    ensures items[..i + 1][..i] == items[..i]
    ensures Matching(items[..i + 1], cur) ==
      Matching(items[..i], cur) + (if items[i].index == cur then [items[i]] else [])
    ensures Rest(items[..i + 1], cur) ==
      Rest(items[..i], cur) + (if items[i].index != cur then [items[i]] else [])
  {
    assert items[..i + 1][..i] == items[..i];
  }

  /** Draining splits the queue: the current pass's items and the others,
    * together exactly the queue. */
  lemma DrainPartitions(items: seq<InPassSpawnEvent>, cur: u8)
    ensures forall x :: x in Matching(items, cur) ==> x.index == cur
    ensures forall x :: x in Rest(items, cur) ==> x.index != cur
    ensures multiset(Matching(items, cur)) + multiset(Rest(items, cur)) == multiset(items)
  {
    DrainSides(items, cur);
    DrainKeepsAll(items, cur);
  }

  lemma {:induction false} DrainSides(items: seq<InPassSpawnEvent>, cur: u8)
    ensures forall x :: x in Matching(items, cur) ==> x.index == cur
    ensures forall x :: x in Rest(items, cur) ==> x.index != cur
    decreases |items|
  {
    if |items| > 0 {
      DrainSides(items[..|items| - 1], cur);
    }
  }

  lemma {:induction false} DrainKeepsAll(items: seq<InPassSpawnEvent>, cur: u8)
    ensures multiset(Matching(items, cur)) + multiset(Rest(items, cur)) == multiset(items)
    decreases |items|
  {
    if |items| > 0 {
      var init, x := items[..|items| - 1], items[|items| - 1];
      DrainKeepsAll(init, cur);
      DrainLast(items, cur);
      SplitOneMore(Matching(init, cur), Rest(init, cur), init, x, x.index == cur);
    }
  }

  /** The last item goes to one part, the others are drained as before. */
  lemma DrainLast(items: seq<InPassSpawnEvent>, cur: u8)
    requires |items| > 0
    ensures var init, x := items[..|items| - 1], items[|items| - 1];
      items == init + [x] &&
      Matching(items, cur) == Matching(init, cur) + (if x.index == cur then [x] else []) &&
      Rest(items, cur) == Rest(init, cur) + (if x.index == cur then [] else [x])
  {
  }

  /** Sending one more element to one side of a split keeps every element. */
  lemma SplitOneMore<T>(m: seq<T>, r: seq<T>, init: seq<T>, x: T, left: bool)
    requires multiset(m) + multiset(r) == multiset(init)
    ensures multiset(m + (if left then [x] else [])) + multiset(r + (if left then [] else [x])) == multiset(init + [x])
  {
  }

  /** Filtering a concatenation filters each part in turn: order is kept. */
  lemma {:induction false} RestAppend(a: seq<InPassSpawnEvent>, b: seq<InPassSpawnEvent>, cur: u8)
    ensures Rest(a + b, cur) == Rest(a, cur) + Rest(b, cur)
    ensures Matching(a + b, cur) == Matching(a, cur) + Matching(b, cur)
    decreases |b|
  {
    if |b| == 0 {
      assert a + b == a;
    } else {
      var b' := b[..|b| - 1];
      assert (a + b)[..|a + b| - 1] == a + b';
      RestAppend(a, b', cur);
    }
  }

  /** A queue without items of pass `cur` is left as it is. */
  lemma {:induction false} RestOfOtherPasses(items: seq<InPassSpawnEvent>, cur: u8)
    requires forall i :: 0 <= i < |items| ==> items[i].index != cur
    ensures Rest(items, cur) == items && Matching(items, cur) == []
    decreases |items|
  {
    if |items| > 0 {
      RestOfOtherPasses(items[..|items| - 1], cur);
    }
  }

  /** The requests one item's expansion dispatches: the resolved structure's
    * entries under the item's parent and transform, or nothing when the
    * reference cannot be resolved. */
  function ItemRequests(ev: InPassSpawnEvent, importer: Importer, compose: Compose): seq<Command>
  {
    match TryFrom(ev.reference, importer)
    case Ok(s) => Requests(s.data, ev.transform, ev.parent, compose)
    case Err(_) => []
  }

  function Expansion(items: seq<InPassSpawnEvent>, importer: Importer, compose: Compose): seq<Command>
  {
    if |items| == 0 then []
    else Expansion(items[..|items| - 1], importer, compose) + ItemRequests(items[|items| - 1], importer, compose)
  }

  lemma ExpansionStep(m: seq<InPassSpawnEvent>, ev: InPassSpawnEvent, importer: Importer, compose: Compose)
    ensures Expansion(m + [ev], importer, compose) == Expansion(m, importer, compose) + ItemRequests(ev, importer, compose)
  {
    assert (m + [ev])[..|m + [ev]| - 1] == m;
  }

  /** The expansion of one item of the current pass. */
  method ExpandItem(commands: Commands, ev: InPassSpawnEvent, importer: Importer, compose: Compose)
    requires commands.Valid()
    modifies commands
    ensures commands.Valid() && commands.nextEntity == old(commands.nextEntity)
    ensures commands.queue == old(commands.queue) + ItemRequests(ev, importer, compose)
  {
    var resolved := TryFrom(ev.reference, importer);
    if resolved.Ok? {
      var _ := SpawnStructureData(commands, resolved.value, ev.transform, ev.parent, compose);
    } else {
      assert ItemRequests(ev, importer, compose) == [];
      assert commands.queue == commands.queue + [];
    }
  }

  /** Expanding item `i` of the current pass extends the expansion of the items before it. */
  method ExpandNext(commands: Commands, items: seq<InPassSpawnEvent>, i: nat, cur: u8,
                    importer: Importer, compose: Compose, ghost base: seq<Command>)
    requires commands.Valid() && i < |items| && items[i].index == cur
    requires commands.queue == base + Expansion(Matching(items[..i], cur), importer, compose)
    modifies commands
    ensures commands.Valid() && commands.nextEntity == old(commands.nextEntity)
    ensures commands.queue == base + Expansion(Matching(items[..i + 1], cur), importer, compose)
  {
    var m := Matching(items[..i], cur);
    DrainStep(items, i, cur);
    ExpansionStep(m, items[i], importer, compose);
    ExpandItem(commands, items[i], importer, compose);
    assert commands.queue == base + (Expansion(m, importer, compose) + ItemRequests(items[i], importer, compose));
  }

  class InPassQueue {
    var pending: seq<InPassSpawnEvent>

    constructor ()
      ensures pending == []
    {
      pending := [];
    }

    /** `in_pass_spawn_listener`: every event is queued in arrival order, and
      * the highest pass index is raised to cover it. */
    method InPassSpawnListener(events: seq<InPassSpawnEvent>, p: Pipeline)
      modifies this, p`highestPass
      ensures pending == old(pending) + events
      ensures p.highestPass == HighestIndex(old(p.highestPass), events)
    {
      for i := 0 to |events|
        invariant pending == old(pending) + events[..i]
        invariant p.highestPass == HighestIndex(old(p.highestPass), events[..i])
      {
        assert events[..i + 1][..i] == events[..i];
        if events[i].index > p.highestPass {
          p.highestPass := events[i].index;
        }
        pending := pending + [events[i]];
      }
      assert events[..|events|] == events;
    }

    /** `process_pending_inpass`: the items of the current pass are expanded
      * in queue order, the others stay queued in their order, and expanding
      * any item counts as spawn activity. */
    method ProcessPendingInPass(commands: Commands, p: Pipeline, importer: Importer, compose: Compose)
      requires commands.Valid()
      modifies this, commands, p`idleFrames
      ensures commands.Valid() && commands.nextEntity == old(commands.nextEntity)
      ensures pending == Rest(old(pending), p.currentPass)
      ensures commands.queue == old(commands.queue) + Expansion(Matching(old(pending), p.currentPass), importer, compose)
      ensures p.idleFrames == if |Matching(old(pending), p.currentPass)| == 0 then old(p.idleFrames) else 0
    {
      if pending == [] {
        return;
      }
      var items := pending;
      var cur := p.currentPass;
      var rest: seq<InPassSpawnEvent> := [];
      var anySpawned := false;
      for i := 0 to |items|
        invariant commands.Valid() && commands.nextEntity == old(commands.nextEntity)
        invariant rest == Rest(items[..i], cur)
        invariant anySpawned <==> |Matching(items[..i], cur)| > 0
        invariant commands.queue == old(commands.queue) + Expansion(Matching(items[..i], cur), importer, compose)
        invariant p.idleFrames == old(p.idleFrames)
      {
        DrainStep(items, i, cur);
        if items[i].index == cur {
          anySpawned := true;
          ExpandNext(commands, items, i, cur, importer, compose, old(commands.queue));
        } else {
          assert Matching(items[..i], cur) + [] == Matching(items[..i], cur);
          rest := rest + [items[i]];
        }
      }
      assert items[..|items|] == items;
      pending := rest;
      if anySpawned {
        p.idleFrames := 0;
      }
    }
  }

  // ---------------------------------------------------------------------------
  // PendingPathEvents

  datatype PathToTagSpawnEvent = PathToTagSpawnEvent(reference: StructureReference, tag: string,
                                                     storeAs: Option<string>, parent: Option<Entity>)
  datatype PathToAllTagsSpawnEvent = PathToAllTagsSpawnEvent(reference: StructureReference, tag: string,
                                                             storeAs: Option<string>, parent: Option<Entity>)
  datatype PathSpawnEvent = PathSpawnEvent(reference: StructureReference, points: seq<Vec3>,
                                           count: nat, parent: Option<Entity>)

  /** The pass a path event authored in pass `cur` is resolved in: the next
    * one, so the highest index is raised to `cur + 1` (saturating). */
  function RaisedForPaths(highest: u8, cur: Option<u8>, events: nat): (r: u8)
    ensures events == 0 || cur.None? ==> r == highest
    ensures events > 0 && cur.Some? ==> r == Max(highest, SatIncU8(cur.value))
  {
    if events > 0 && cur.Some? && highest < SatIncU8(cur.value) then SatIncU8(cur.value) else highest
  }

  /** Where a path event may store its polyline: its `store_as` label and parent. */
  type StoreTarget = (Option<string>, Option<Entity>)

  function ToTagTargets(events: seq<PathToTagSpawnEvent>): (r: seq<StoreTarget>)
    ensures |r| == |events| && forall i :: 0 <= i < |events| ==> r[i] == (events[i].storeAs, events[i].parent)
  {
    seq(|events|, i requires 0 <= i < |events| => (events[i].storeAs, events[i].parent))
  }

  function ToAllTargets(events: seq<PathToAllTagsSpawnEvent>): (r: seq<StoreTarget>)
    ensures |r| == |events| && forall i :: 0 <= i < |events| ==> r[i] == (events[i].storeAs, events[i].parent)
  {
    seq(|events|, i requires 0 <= i < |events| => (events[i].storeAs, events[i].parent))
  }

  /** The holders a batch of path events creates: one per event that stores
    * its polyline under a label no tagged entity carried when the system
    * ran (holders queued in the same run are not yet visible, so two events
    * with the same new label create two holders). */
  function HolderLabels(targets: seq<StoreTarget>, existing: set<string>): seq<(string, Option<Entity>)>
  {
    if |targets| == 0 then []
    else
      var t := targets[|targets| - 1];
      HolderLabels(targets[..|targets| - 1], existing) +
      (if t.0.Some? && t.0.value !in existing then [(t.0.value, t.1)] else [])
  }

  /** The positions of the events storing under a label no tagged entity carries. */
  function NewLabelEvents(targets: seq<StoreTarget>, existing: set<string>): set<int>
  {
    set i | 0 <= i < |targets| && targets[i].0.Some? && targets[i].0.value !in existing
  }

  /** Whether some event stores under the new label `h.0` with parent `h.1`. */
  ghost predicate Requested(targets: seq<StoreTarget>, existing: set<string>, h: (string, Option<Entity>))
  {
    exists i :: 0 <= i < |targets| && targets[i] == (Some(h.0), h.1) && h.0 !in existing
  }

  /** Exactly the events with a new label get a holder, in event order. */
  lemma HolderLabelsExact(targets: seq<StoreTarget>, existing: set<string>)
    ensures var hs := HolderLabels(targets, existing);
      |hs| == |set i | 0 <= i < |targets| && targets[i].0.Some? && targets[i].0.value !in existing| &&
      forall h :: h in hs <==> exists i :: 0 <= i < |targets| && targets[i] == (Some(h.0), h.1) && h.0 !in existing
  {
    HolderLabelsCount(targets, existing);
    HolderLabelsRequested(targets, existing);
  }

  /** One holder per event with a new label. */
  lemma {:induction false} HolderLabelsCount(targets: seq<StoreTarget>, existing: set<string>)
    ensures |HolderLabels(targets, existing)| == |NewLabelEvents(targets, existing)|
    decreases |targets|
  {
    if |targets| > 0 {
      var n := |targets| - 1;
      var init := targets[..n];
      HolderLabelsCount(init, existing);
      var before := NewLabelEvents(init, existing);
      var after := NewLabelEvents(targets, existing);
      assert forall i :: 0 <= i < n ==> init[i] == targets[i];
      if targets[n].0.Some? && targets[n].0.value !in existing {
        assert after == before + {n};
      } else {
        assert after == before;
      }
    }
  }

  /** The holders are exactly the requested (label, parent) pairs. */
  lemma {:induction false} HolderLabelsRequested(targets: seq<StoreTarget>, existing: set<string>)
    ensures forall h :: h in HolderLabels(targets, existing) <==> Requested(targets, existing, h)
    decreases |targets|
  {
    if |targets| > 0 {
      var n := |targets| - 1;
      var init := targets[..n];
      HolderLabelsRequested(init, existing);
      var t := targets[n];
      assert HolderLabels(targets, existing) ==
        HolderLabels(init, existing) + (if t.0.Some? && t.0.value !in existing then [(t.0.value, t.1)] else []);
      forall h ensures Requested(targets, existing, h) <==>
        Requested(init, existing, h) || (t == (Some(h.0), h.1) && h.0 !in existing) {
        RequestedStep(targets, init, existing, h);
      }
    }
  }

  /** A pair is requested by the events exactly when the earlier events or
    * the last one request it. */
  lemma RequestedStep(targets: seq<StoreTarget>, init: seq<StoreTarget>, existing: set<string>,
                      h: (string, Option<Entity>))
    requires |targets| > 0 && init == targets[..|targets| - 1]
    ensures Requested(targets, existing, h) <==>
      Requested(init, existing, h) || (targets[|targets| - 1] == (Some(h.0), h.1) && h.0 !in existing)
  {
    if Requested(targets, existing, h) {
      var i :| 0 <= i < |targets| && targets[i] == (Some(h.0), h.1) && h.0 !in existing;
      if i < |init| {
        assert init[i] == targets[i];
      }
    }
    if Requested(init, existing, h) {
      var i :| 0 <= i < |init| && init[i] == (Some(h.0), h.1) && h.0 !in existing;
      assert init[i] == targets[i];
    }
  }

  /** The commands that create one `PathPolylineList` holder. */
  function HolderCommands(e: Entity, holder: (string, Option<Entity>)): seq<Command>
  {
    [SpawnEntity(e, "PathPolylineList: " + holder.0, Identity), InsertTags(e, Tags([holder.0]))] + Parenting(holder.1, e)
  }

  /** The commands creating holders with consecutive fresh ids from `e`. */
  function HolderQueue(e: Entity, hs: seq<(string, Option<Entity>)>): seq<Command>
  {
    if |hs| == 0 then []
    else HolderQueue(e, hs[..|hs| - 1]) + HolderCommands(e + |hs| - 1, hs[|hs| - 1])
  }

  lemma {:induction false} HolderQueueAppend(e: Entity, a: seq<(string, Option<Entity>)>, b: seq<(string, Option<Entity>)>)
    ensures HolderQueue(e, a + b) == HolderQueue(e, a) + HolderQueue(e + |a|, b)
    decreases |b|
  {
    if |b| == 0 {
      assert a + b == a;
    } else {
      var b', h := b[..|b| - 1], b[|b| - 1];
      HolderQueueAppend(e, a, b');
      SplitLast(a, b);
      HolderQueueAppendLast(e, a, b', h);
    }
  }

  lemma HolderQueueAppendLast(e: Entity, a: seq<(string, Option<Entity>)>, b: seq<(string, Option<Entity>)>,
                              h: (string, Option<Entity>))
    requires HolderQueue(e, a + b) == HolderQueue(e, a) + HolderQueue(e + |a|, b)
    ensures HolderQueue(e, a + b + [h]) == HolderQueue(e, a) + HolderQueue(e + |a|, b + [h])
  {
    var k := e + |a| + |b|;
    HolderQueueLastAt(e, a + b, h, k);
    HolderQueueLastAt(e + |a|, b, h, k);
    AppendAssoc(HolderQueue(e, a), HolderQueue(e + |a|, b), HolderCommands(k, h));
  }

  lemma HolderQueueLastAt(e: Entity, hs: seq<(string, Option<Entity>)>, h: (string, Option<Entity>), k: Entity)
    requires k == e + |hs|
    ensures HolderQueue(e, hs + [h]) == HolderQueue(e, hs) + HolderCommands(k, h)
  {
    HolderQueueLast(e, hs, h);
  }

  lemma HolderQueueLast(e: Entity, hs: seq<(string, Option<Entity>)>, h: (string, Option<Entity>))
    ensures HolderQueue(e, hs + [h]) == HolderQueue(e, hs) + HolderCommands(e + |hs|, h)
  {
    assert (hs + [h])[..|hs|] == hs;
  }

  /** Creates one holder: a fresh entity named after the label, tagged
    * with it, and parented when the event has a parent. */
  method CreateHolder(commands: Commands, h: (string, Option<Entity>))
    requires commands.Valid()
    modifies commands
    ensures commands.Valid() && commands.nextEntity == old(commands.nextEntity) + 1
    ensures commands.queue == old(commands.queue) + HolderCommands(old(commands.nextEntity), h)
  {
    var e := commands.Spawn("PathPolylineList: " + h.0, Identity);
    commands.Push(InsertTags(e, Tags([h.0])));
    if h.1.Some? {
      commands.Push(AddChild(h.1.value, e));
    }
  }

  /** The holder, if any, of event `i`, after those of the events before it. */
  method CreateNextHolder(commands: Commands, targets: seq<StoreTarget>, i: nat, existing: set<string>,
                          ghost e0: Entity, ghost base: seq<Command>)
    requires commands.Valid() && i < |targets|
    requires commands.nextEntity == e0 + |HolderLabels(targets[..i], existing)|
    requires commands.queue == base + HolderQueue(e0, HolderLabels(targets[..i], existing))
    modifies commands
    ensures commands.Valid()
    ensures commands.nextEntity == e0 + |HolderLabels(targets[..i + 1], existing)|
    ensures commands.queue == base + HolderQueue(e0, HolderLabels(targets[..i + 1], existing))
  {
    assert targets[..i + 1][..i] == targets[..i];
    var (storeAs, parent) := targets[i];
    ghost var hs := HolderLabels(targets[..i], existing);
    if storeAs.Some? && storeAs.value !in existing {
      var h := (storeAs.value, parent);
      assert HolderLabels(targets[..i + 1], existing) == hs + [h];
      HolderQueueLastAt(e0, hs, h, commands.nextEntity);
      CreateHolder(commands, h);
      AppendAssoc(base, HolderQueue(e0, hs), HolderCommands(old(commands.nextEntity), h));
    } else {
      assert HolderLabels(targets[..i + 1], existing) == hs + [];
      assert hs + [] == hs;
    }
  }

  /** The holder creation of `buffer_path_events`, event by event. */
  method CreateHolders(commands: Commands, targets: seq<StoreTarget>, existing: set<string>)
    requires commands.Valid()
    modifies commands
    ensures commands.Valid()
    ensures commands.nextEntity == old(commands.nextEntity) + |HolderLabels(targets, existing)|
    ensures commands.queue == old(commands.queue) + HolderQueue(old(commands.nextEntity), HolderLabels(targets, existing))
  {
    for i := 0 to |targets|
      invariant commands.Valid()
      invariant commands.nextEntity == old(commands.nextEntity) + |HolderLabels(targets[..i], existing)|
      invariant commands.queue == old(commands.queue) + HolderQueue(old(commands.nextEntity), HolderLabels(targets[..i], existing))
    {
      CreateNextHolder(commands, targets, i, existing, old(commands.nextEntity), old(commands.queue));
    }
    assert targets[..|targets|] == targets;
  }

  /** The holders of the path-to-tag events, then those of the path-to-all events. */
  method CreateHoldersOfBoth(commands: Commands, first: seq<StoreTarget>, second: seq<StoreTarget>, existing: set<string>)
    requires commands.Valid()
    modifies commands
    ensures commands.Valid()
    ensures var holders := HolderLabels(first, existing) + HolderLabels(second, existing);
      commands.nextEntity == old(commands.nextEntity) + |holders| &&
      commands.queue == old(commands.queue) + HolderQueue(old(commands.nextEntity), holders)
  {
    ghost var e0 := commands.nextEntity;
    ghost var hs1 := HolderLabels(first, existing);
    ghost var hs2 := HolderLabels(second, existing);
    CreateHolders(commands, first, existing);
    CreateHolders(commands, second, existing);
    HolderQueueAppend(e0, hs1, hs2);
    AppendAssoc(old(commands.queue), HolderQueue(e0, hs1), HolderQueue(e0 + |hs1|, hs2));
  }

  class PathEventBuffer {
    var toTag: seq<PathToTagSpawnEvent>
    var toAll: seq<PathToAllTagsSpawnEvent>
    var plain: seq<PathSpawnEvent>

    constructor ()
      ensures toTag == [] && toAll == [] && plain == []
    {
      toTag := [];
      toAll := [];
      plain := [];
    }

    /** `buffer_path_events`: every event of the three kinds is buffered in
      * arrival order, a holder is created for each event storing under a
      * label not yet present, path-to-all and plain path events raise the
      * highest pass index to the next pass, and any buffered event counts as
      * spawn activity. */
    method BufferPathEvents(commands: Commands, p: Pipeline, existingLabels: set<string>, currentPass: Option<u8>,
                            toTagEvents: seq<PathToTagSpawnEvent>, toAllEvents: seq<PathToAllTagsSpawnEvent>,
                            plainEvents: seq<PathSpawnEvent>)
      requires commands.Valid()
      modifies this, commands, p`highestPass, p`idleFrames
      ensures commands.Valid()
      ensures toTag == old(toTag) + toTagEvents && toAll == old(toAll) + toAllEvents && plain == old(plain) + plainEvents
      ensures var holders := HolderLabels(ToTagTargets(toTagEvents), existingLabels) +
                             HolderLabels(ToAllTargets(toAllEvents), existingLabels);
        commands.nextEntity == old(commands.nextEntity) + |holders| &&
        commands.queue == old(commands.queue) + HolderQueue(old(commands.nextEntity), holders)
      ensures p.highestPass == RaisedForPaths(old(p.highestPass), currentPass, |toAllEvents| + |plainEvents|)
      ensures p.idleFrames == if |toTagEvents| + |toAllEvents| + |plainEvents| > 0 then 0 else old(p.idleFrames)
    {
      CreateHoldersOfBoth(commands, ToTagTargets(toTagEvents), ToAllTargets(toAllEvents), existingLabels);
      toTag := toTag + toTagEvents;
      toAll := toAll + toAllEvents;
      plain := plain + plainEvents;
      if |toAllEvents| + |plainEvents| > 0 && currentPass.Some? && p.highestPass < SatIncU8(currentPass.value) {
        p.highestPass := SatIncU8(currentPass.value);
      }
      if |toTagEvents| + |toAllEvents| + |plainEvents| > 0 {
        p.idleFrames := 0;
      }
    }

    /** `flush_path_events_on_enter`, run on entering PathResolve: the three
      * buffers are sent, each in its buffered order, and left empty. */
    method FlushPathEventsOnEnter()
      returns (sentToTag: seq<PathToTagSpawnEvent>, sentToAll: seq<PathToAllTagsSpawnEvent>, sentPlain: seq<PathSpawnEvent>)
      modifies this
      ensures sentToTag == old(toTag) && sentToAll == old(toAll) && sentPlain == old(plain)
      ensures toTag == [] && toAll == [] && plain == []
    {
      sentToTag, sentToAll, sentPlain := toTag, toAll, plain;
      toTag, toAll, plain := [], [], [];
    }
  }

  // ---------------------------------------------------------------------------
  // ResolvedPathSpawns

  class ResolvedPathSpawns {
    var events: seq<PathSpawnEvent>

    constructor ()
      ensures events == []
    {
      events := [];
    }

    /** A path spawn resolved during PathResolve is kept for the next Generating. */
    method Buffer(ev: PathSpawnEvent)
      modifies this
      ensures events == old(events) + [ev]
    {
      events := events + [ev];
    }

    /** `flush_resolved_paths_on_enter_generating`: every buffered path spawn
      * is sent, in buffered order, and the buffer is left empty. */
    method FlushOnEnterGenerating() returns (sent: seq<PathSpawnEvent>)
      modifies this
      ensures sent == old(events) && events == []
    {
      if events == [] {
        return [];
      }
      sent := events;
      events := [];
    }
  }
}
