/** The generation pipeline's state machine (event_system/event_listeners.rs):
  * the five `GenerationState`s, the counter resources that gate them, the
  * live driver, the path-resolve advance, the enter hooks, the per-tick
  * incrementers and the pass advance. A transition is requested through
  * `next` (Bevy's `NextState`), which the engine applies between frames. */
module GenerationPipeline {
  import opened Common

  datatype GenerationState = Generating | CollisionResolution | NavMeshBuilding | PathResolve | Completed

  const MinGeneratingFrames: u16 := 15
  const RequiredStableFrames: u8 := 3
  const RequiredIdleFrames: u8 := 3
  const RequiredFrames: u8 := 8
  const MinCollisionFrames: u16 := 1
  const MaxCollisionFrames: u16 := 60
  const PathResolveFrames: u16 := 60

  /** What the driver's queries see on one tick: the entities still marked
    * `GenerationOnlyColliderPending` and `SelectiveReplacementPending`, the
    * pass indices of the queued `InPass` items, and the navmesh generation
    * tasks still running (`None` when that resource is absent). */
  datatype Observation = Observation(genOnlyPending: nat, selectivePending: nat,
                                     inPassIndices: seq<u8>, activeTasks: Option<nat>)

  /** Pending work that holds the Generating phase. */
  predicate AnyPending(obs: Observation, currentPass: u8)
  {
    obs.genOnlyPending > 0 || obs.selectivePending > 0 || currentPass in obs.inPassIndices
  }

  /** The readiness test of a Generating tick without pending work. */
  predicate Ready(seenActivity: bool, framesInGenerating: u16, stableFrames: u8, idleFrames: u8)
  {
    seenActivity && framesInGenerating >= MinGeneratingFrames &&
    stableFrames >= RequiredStableFrames && idleFrames >= RequiredIdleFrames
  }

  // ---------------------------------------------------------------------------
  // Counters over runs of ticks

  /** A debounce counter: a tick that is not ready resets it, a ready tick
    * counts, and reaching `threshold` fires and resets it. */
  function DebounceStep(count: nat, ready: bool, threshold: nat): (nat, bool)
  {
    if !ready then (0, false)
    else if count + 1 >= threshold then (0, true)
    else (count + 1, false)
  }

  /** The counter and whether the last tick fired, from a zero counter. */
  function DebounceRun(readys: seq<bool>, threshold: nat): (nat, bool)
  {
    if |readys| == 0 then (0, false)
    else DebounceStep(DebounceRun(readys[..|readys| - 1], threshold).0, readys[|readys| - 1], threshold)
  }

  /** The number of consecutive ready ticks at the end of the run. */
  function Streak(readys: seq<bool>): nat
  {
    if |readys| == 0 || !readys[|readys| - 1] then 0 else Streak(readys[..|readys| - 1]) + 1
  }

  /** The counter holds the current streak modulo the threshold, and a tick
    * fires exactly when it completes a multiple of the threshold. */
  lemma {:induction false} DebounceClosedForm(readys: seq<bool>, threshold: nat)
    requires threshold >= 1
    ensures DebounceRun(readys, threshold) ==
      (Streak(readys) % threshold, Streak(readys) > 0 && Streak(readys) % threshold == 0)
    decreases |readys|
  {
    if |readys| > 0 {
      var init := readys[..|readys| - 1];
      DebounceClosedForm(init, threshold);
      if readys[|readys| - 1] {
        assert Streak(readys) == Streak(init) + 1;
        ModSucc(Streak(init), threshold);
      }
    }
  }

  /** The remainder of a successor. */
  lemma ModSucc(s: nat, t: nat)
    requires t >= 1
    ensures s % t + 1 >= t ==> (s + 1) % t == 0
    ensures s % t + 1 < t ==> (s + 1) % t == s % t + 1
  {
    var q := s / t;
    if s % t + 1 >= t {
      ModUnique(s + 1, q + 1, 0, t);
    } else {
      ModUnique(s + 1, q, s % t + 1, t);
    }
  }

  /** A remainder is determined by any quotient-remainder decomposition. */
  lemma ModUnique(a: nat, q: int, r: int, t: nat)
    requires t >= 1 && 0 <= r < t && a == q * t + r
    ensures a % t == r
  {
    var k := q - a / t;
    assert k * t == a % t - r;
  }

  /** A streak of `k` means the last `k` ticks were ready. */
  lemma {:induction false} StreakSuffix(readys: seq<bool>, k: nat)
    requires k <= Streak(readys)
    ensures k <= |readys| && forall i :: |readys| - k <= i < |readys| ==> readys[i]
    decreases |readys|
  {
    if k > 0 {
      var init := readys[..|readys| - 1];
      StreakSuffix(init, k - 1);
      forall i | |readys| - k <= i < |readys| ensures readys[i] {
        if i < |readys| - 1 {
          assert readys[i] == init[i];
        }
      }
    }
  }

  /** Ticks that are all ready after a non-ready one (or the start) make a streak. */
  lemma {:induction false} StreakOfReadySuffix(readys: seq<bool>, k: nat)
    requires k <= |readys| && forall i :: |readys| - k <= i < |readys| ==> readys[i]
    requires k == |readys| || !readys[|readys| - k - 1]
    ensures Streak(readys) == k
    decreases |readys|
  {
    if k > 0 {
      var init := readys[..|readys| - 1];
      assert forall i :: |init| - (k - 1) <= i < |init| ==> init[i] == readys[i];
      StreakOfReadySuffix(init, k - 1);
    } else if |readys| > 0 {
      assert !readys[|readys| - 1];
    }
  }

  /** The Generating debounce fires only after `RequiredFrames` consecutive
    * ready ticks ... */
  lemma AdvanceNeedsEightReadyTicks(readys: seq<bool>)
    requires DebounceRun(readys, RequiredFrames as nat).1
    ensures |readys| >= RequiredFrames as nat
    ensures forall i :: |readys| - RequiredFrames as nat <= i < |readys| ==> readys[i]
  {
    DebounceClosedForm(readys, RequiredFrames as nat);
    StreakSuffix(readys, RequiredFrames as nat);
  }

  /** ... and does fire on the eighth ready tick after a reset. */
  lemma AdvanceAfterEightReadyTicks(readys: seq<bool>)
    requires |readys| >= RequiredFrames as nat
    requires forall i :: |readys| - RequiredFrames as nat <= i < |readys| ==> readys[i]
    requires |readys| == RequiredFrames as nat || !readys[|readys| - RequiredFrames as nat - 1]
    ensures DebounceRun(readys, RequiredFrames as nat).1
  {
    StreakOfReadySuffix(readys, RequiredFrames as nat);
    DebounceClosedForm(readys, RequiredFrames as nat);
  }

  /** The path-resolve timer moves on every 60th tick in PathResolve and at no other. */
  lemma PathResolveEverySixty(ticks: nat)
    ensures DebounceRun(seq(ticks, _ => true), PathResolveFrames as nat) ==
      (ticks % PathResolveFrames as nat, ticks > 0 && ticks % PathResolveFrames as nat == 0)
  {
    AllReadyStreak(ticks);
    DebounceClosedForm(seq(ticks, _ => true), PathResolveFrames as nat);
  }

  lemma {:induction false} AllReadyStreak(ticks: nat)
    ensures Streak(seq(ticks, _ => true)) == ticks
    decreases ticks
  {
    if ticks > 0 {
      assert seq(ticks, _ => true)[..ticks - 1] == seq(ticks - 1, _ => true);
      AllReadyStreak(ticks - 1);
    }
  }

  /** `no_pending_stable_frames`: reset by pending work, otherwise a saturating count. */
  function StableStep(count: u8, pending: bool): u8
  {
    if pending then 0 else SatIncU8(count)
  }

  function StableRun(pendings: seq<bool>): u8
  {
    if |pendings| == 0 then 0 else StableStep(StableRun(pendings[..|pendings| - 1]), pendings[|pendings| - 1])
  }

  function Negate(bs: seq<bool>): (r: seq<bool>)
    ensures |r| == |bs| && forall i :: 0 <= i < |bs| ==> r[i] == !bs[i]
  {
    seq(|bs|, i requires 0 <= i < |bs| => !bs[i])
  }

  /** The stable-frame count is the number of trailing ticks without pending
    * work, capped at 255. */
  lemma {:induction false} StableRunIsCappedStreak(pendings: seq<bool>)
    ensures StableRun(pendings) as int == Min(Streak(Negate(pendings)), 0xFF)
    decreases |pendings|
  {
    if |pendings| > 0 {
      var init := pendings[..|pendings| - 1];
      StableRunIsCappedStreak(init);
      assert Negate(pendings)[..|pendings| - 1] == Negate(init);
    }
  }

  // ---------------------------------------------------------------------------
  // The resources and the systems that update them

  class Pipeline {
    var state: GenerationState
    var next: Option<GenerationState>
    var noPendingStableFrames: u8
    var framesInGenerating: u16
    var idleFrames: u8
    var spawnDoneFrames: u8
    var seenActivity: bool
    var lastIdleFrames: u8
    var collisionFrames: u16
    var pathResolveFrames: u16
    var currentPass: u8
    var highestPass: u8

    /** The debounce counters stay below their thresholds, since reaching one resets it. */
    ghost predicate Valid()
      reads this
    {
      spawnDoneFrames < RequiredFrames && pathResolveFrames < PathResolveFrames
    }

    /** Every resource at its default: Generating, pass 0, counters zero. */
    constructor ()
      ensures Valid() && state == Generating && next == None
      ensures noPendingStableFrames == 0 && framesInGenerating == 0 && idleFrames == 0
      ensures spawnDoneFrames == 0 && !seenActivity && lastIdleFrames == 0
      ensures collisionFrames == 0 && pathResolveFrames == 0 && currentPass == 0 && highestPass == 0
    {
      state := Generating;
      next := None;
      noPendingStableFrames := 0;
      framesInGenerating := 0;
      idleFrames := 0;
      spawnDoneFrames := 0;
      seenActivity := false;
      lastIdleFrames := 0;
      collisionFrames := 0;
      pathResolveFrames := 0;
      currentPass := 0;
      highestPass := 0;
    }

    /** `generation_state_driver`. In Generating: activity is seen when the
      * idle count is observed to drop; pending work resets both stability
      * counters and holds; otherwise the stable count grows and the
      * debounce counts ready ticks, requesting CollisionResolution on the
      * eighth. CollisionResolution leaves after one tick; NavMeshBuilding
      * leaves once no generation task runs; the last two states do nothing. */
    method GenerationStateDriver(obs: Observation)
      requires Valid()
      modifies this
      ensures Valid()
      ensures state == old(state) && framesInGenerating == old(framesInGenerating)
      ensures idleFrames == old(idleFrames) && pathResolveFrames == old(pathResolveFrames)
      ensures currentPass == old(currentPass) && highestPass == old(highestPass)
      ensures old(state) == Generating ==>
        var pending := AnyPending(obs, old(currentPass));
        var seen := old(seenActivity) || old(idleFrames) < old(lastIdleFrames);
        var stable := StableStep(old(noPendingStableFrames), pending);
        var ready := !pending && Ready(seen, old(framesInGenerating), stable, old(idleFrames));
        var (count, fire) := DebounceStep(old(spawnDoneFrames) as nat, ready, RequiredFrames as nat);
        seenActivity == seen && lastIdleFrames == old(idleFrames) &&
        noPendingStableFrames == stable && spawnDoneFrames as nat == count &&
        next == (if fire then Some(CollisionResolution) else old(next)) &&
        collisionFrames == old(collisionFrames)
      ensures old(state) == CollisionResolution ==>
        next == Some(NavMeshBuilding) && collisionFrames == 0 &&
        noPendingStableFrames == old(noPendingStableFrames) && spawnDoneFrames == old(spawnDoneFrames) &&
        seenActivity == old(seenActivity) && lastIdleFrames == old(lastIdleFrames)
      ensures old(state) == NavMeshBuilding ==>
        next == (if obs.activeTasks.None? || obs.activeTasks.value == 0 then Some(PathResolve) else old(next)) &&
        collisionFrames == old(collisionFrames) &&
        noPendingStableFrames == old(noPendingStableFrames) && spawnDoneFrames == old(spawnDoneFrames) &&
        seenActivity == old(seenActivity) && lastIdleFrames == old(lastIdleFrames)
      ensures old(state) == PathResolve || old(state) == Completed ==>
        next == old(next) && collisionFrames == old(collisionFrames) &&
        noPendingStableFrames == old(noPendingStableFrames) && spawnDoneFrames == old(spawnDoneFrames) &&
        seenActivity == old(seenActivity) && lastIdleFrames == old(lastIdleFrames)
    {
      match state {
        case Generating =>
          if idleFrames < lastIdleFrames {
            seenActivity := true;
          }
          lastIdleFrames := idleFrames;
          var anyInPassCurrent := currentPass in obs.inPassIndices;
          var anyPending := obs.genOnlyPending > 0 || obs.selectivePending > 0 || anyInPassCurrent;
          if anyPending {
            noPendingStableFrames := 0;
            spawnDoneFrames := 0;
            return;
          } else {
            noPendingStableFrames := SatIncU8(noPendingStableFrames);
          }
          var ready := seenActivity && framesInGenerating >= MinGeneratingFrames &&
                       noPendingStableFrames >= RequiredStableFrames && idleFrames >= RequiredIdleFrames;
          if ready {
            spawnDoneFrames := SatIncU8(spawnDoneFrames);
            if spawnDoneFrames >= RequiredFrames {
              next := Some(CollisionResolution);
              spawnDoneFrames := 0;
            }
          } else {
            spawnDoneFrames := 0;
          }
        case CollisionResolution =>
          collisionFrames := SatIncU16(collisionFrames);
          if collisionFrames >= MinCollisionFrames || collisionFrames > MaxCollisionFrames {
            next := Some(NavMeshBuilding);
            collisionFrames := 0;
          }
        case NavMeshBuilding =>
          var done := match obs.activeTasks { case Some(tasks) => tasks == 0 case None => true };
          if done {
            next := Some(PathResolve);
          }
        case PathResolve =>
        case Completed =>
      }
    }

    /** `advance_from_path_resolve`: in PathResolve the timer counts ticks;
      * on the 60th it requests Generating when resolved path spawns are
      * buffered and Completed otherwise, and restarts. */
    method AdvanceFromPathResolve(resolvedPathSpawns: nat)
      requires Valid()
      modifies this
      ensures Valid()
      ensures old(state) != PathResolve ==> pathResolveFrames == old(pathResolveFrames) && next == old(next)
      ensures old(state) == PathResolve ==>
        var (count, fire) := DebounceStep(old(pathResolveFrames) as nat, true, PathResolveFrames as nat);
        pathResolveFrames as nat == count &&
        next == (if !fire then old(next) else if resolvedPathSpawns > 0 then Some(Generating) else Some(Completed))
      ensures state == old(state) && noPendingStableFrames == old(noPendingStableFrames)
      ensures framesInGenerating == old(framesInGenerating) && idleFrames == old(idleFrames)
      ensures spawnDoneFrames == old(spawnDoneFrames) && seenActivity == old(seenActivity)
      ensures lastIdleFrames == old(lastIdleFrames) && collisionFrames == old(collisionFrames)
      ensures currentPass == old(currentPass) && highestPass == old(highestPass)
    {
      if state != PathResolve {
        return;
      }
      pathResolveFrames := SatIncU16(pathResolveFrames);
      if pathResolveFrames >= PathResolveFrames {
        if resolvedPathSpawns > 0 {
          next := Some(Generating);
        } else {
          next := Some(Completed);
        }
        pathResolveFrames := 0;
      }
    }

    /** `reset_path_resolve_phase`, run on entering PathResolve. */
    method ResetPathResolvePhase()
      modifies this
      ensures old(spawnDoneFrames) < RequiredFrames ==> Valid()
      ensures pathResolveFrames == 0
      ensures state == old(state) && next == old(next) && noPendingStableFrames == old(noPendingStableFrames)
      ensures framesInGenerating == old(framesInGenerating) && idleFrames == old(idleFrames)
      ensures spawnDoneFrames == old(spawnDoneFrames) && seenActivity == old(seenActivity)
      ensures lastIdleFrames == old(lastIdleFrames) && collisionFrames == old(collisionFrames)
      ensures currentPass == old(currentPass) && highestPass == old(highestPass)
    {
      pathResolveFrames := 0;
    }

    /** `reset_generating_phase`, run on entering Generating: the counters are
      * zeroed, no activity has been seen, and the last idle count is set to
      * 255 so that the first reset to 0 reads as a drop. */
    method ResetGeneratingPhase()
      modifies this
      ensures old(pathResolveFrames) < PathResolveFrames ==> Valid()
      ensures noPendingStableFrames == 0 && framesInGenerating == 0 && idleFrames == 0
      ensures spawnDoneFrames == 0 && !seenActivity && lastIdleFrames == 0xFF
      ensures state == old(state) && next == old(next) && collisionFrames == old(collisionFrames)
      ensures pathResolveFrames == old(pathResolveFrames)
      ensures currentPass == old(currentPass) && highestPass == old(highestPass)
    {
      noPendingStableFrames := 0;
      framesInGenerating := 0;
      idleFrames := 0;
      spawnDoneFrames := 0;
      seenActivity := false;
      lastIdleFrames := 0xFF;
    }

    /** `tick_generating_counter`: counts ticks spent in Generating. */
    method TickGeneratingCounter()
      modifies this
      ensures framesInGenerating == if old(state) == Generating then SatIncU16(old(framesInGenerating)) else old(framesInGenerating)
      ensures state == old(state) && next == old(next) && noPendingStableFrames == old(noPendingStableFrames)
      ensures idleFrames == old(idleFrames) && spawnDoneFrames == old(spawnDoneFrames)
      ensures seenActivity == old(seenActivity) && lastIdleFrames == old(lastIdleFrames)
      ensures collisionFrames == old(collisionFrames) && pathResolveFrames == old(pathResolveFrames)
      ensures currentPass == old(currentPass) && highestPass == old(highestPass)
    {
      if state == Generating {
        framesInGenerating := SatIncU16(framesInGenerating);
      }
    }

    /** `tick_spawn_activity`: every tick is idle until a spawn listener
      * resets the count. */
    method TickSpawnActivity()
      modifies this
      ensures idleFrames == SatIncU8(old(idleFrames))
      ensures state == old(state) && next == old(next) && noPendingStableFrames == old(noPendingStableFrames)
      ensures framesInGenerating == old(framesInGenerating) && spawnDoneFrames == old(spawnDoneFrames)
      ensures seenActivity == old(seenActivity) && lastIdleFrames == old(lastIdleFrames)
      ensures collisionFrames == old(collisionFrames) && pathResolveFrames == old(pathResolveFrames)
      ensures currentPass == old(currentPass) && highestPass == old(highestPass)
    {
      idleFrames := SatIncU8(idleFrames);
    }

    /** A spawn listener that processed events resets the idle count. */
    method MarkSpawnActivity()
      modifies this
      ensures idleFrames == 0
      ensures state == old(state) && next == old(next) && noPendingStableFrames == old(noPendingStableFrames)
      ensures framesInGenerating == old(framesInGenerating) && spawnDoneFrames == old(spawnDoneFrames)
      ensures seenActivity == old(seenActivity) && lastIdleFrames == old(lastIdleFrames)
      ensures collisionFrames == old(collisionFrames) && pathResolveFrames == old(pathResolveFrames)
      ensures currentPass == old(currentPass) && highestPass == old(highestPass)
    {
      idleFrames := 0;
    }

    /** `advance_pass_or_finish`, run on entering Completed: the next pass
      * starts while one remains, otherwise nothing changes. */
    method AdvancePassOrFinish()
      modifies this
      ensures old(currentPass) < old(highestPass) ==>
        currentPass == old(currentPass) + 1 && next == Some(Generating)
      ensures old(currentPass) >= old(highestPass) ==>
        currentPass == old(currentPass) && next == old(next)
      ensures currentPass <= Max(old(currentPass), highestPass)
      ensures state == old(state) && highestPass == old(highestPass)
      ensures noPendingStableFrames == old(noPendingStableFrames) && framesInGenerating == old(framesInGenerating)
      ensures idleFrames == old(idleFrames) && spawnDoneFrames == old(spawnDoneFrames)
      ensures seenActivity == old(seenActivity) && lastIdleFrames == old(lastIdleFrames)
      ensures collisionFrames == old(collisionFrames) && pathResolveFrames == old(pathResolveFrames)
    {
      if currentPass < highestPass {
        currentPass := SatIncU8(currentPass);
        next := Some(Generating);
      }
    }
  }

  /** Starting from pass `c` with highest index `h`, the pass advance
    * visits every pass up to `h` exactly once and then stops. */
  function PassesVisited(c: u8, h: u8): (passes: seq<u8>)
    decreases h as int - c as int
  {
    if c < h then [c + 1] + PassesVisited(c + 1, h) else []
  }

  lemma {:induction false} PassesAreConsecutive(c: u8, h: u8)
    ensures |PassesVisited(c, h)| == if c < h then (h - c) as nat else 0
    ensures forall i :: 0 <= i < |PassesVisited(c, h)| ==> PassesVisited(c, h)[i] as int == c as int + i + 1
    decreases h as int - c as int
  {
    if c < h {
      PassesAreConsecutive(c + 1, h);
    }
  }
}
