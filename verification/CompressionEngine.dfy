/** The code of the mutators: loops over the active steps of a store that read a
    record, decide, and write it back.  Each is shown to do what the function of
    the same name in `Compression` says. */
module CompressionEngine {
  import opened Wrappers
  import opened Records
  import opened Reals
  import opened Decay
  import opened Compression
  import opened Render
  import Mutators = CompressionRuns
  import SweetSpot
  import Truncation

  /** What is left of a loop over `ids` when the first `n` have their new record. */
  ghost predicate Halfway(ids: seq<int>, n: nat, before: Refs, now: Refs, goal: Refs) {
    && now.Keys == before.Keys
    && goal.Keys == before.Keys
    && (forall j | 0 <= j < n <= |ids| && ids[j] in before :: now[ids[j]] == goal[ids[j]])
    && (forall j | n <= j < |ids| && ids[j] in before :: now[ids[j]] == before[ids[j]])
  }

  /** Either way the record of `ids[n]` is the goal's afterwards. */
  lemma Advance(ids: seq<int>, n: nat, before: Refs, now: Refs, goal: Refs)
    requires Ascending(ids) && n < |ids| && Halfway(ids, n, before, now, goal) && ids[n] in before
    ensures Halfway(ids, n + 1, before, now[ids[n] := goal[ids[n]]], goal)
  {
  }

  lemma Pass(ids: seq<int>, n: nat, before: Refs, now: Refs, goal: Refs)
    requires n < |ids| && Halfway(ids, n, before, now, goal)
    requires ids[n] in before ==> goal[ids[n]] == before[ids[n]]
    ensures Halfway(ids, n + 1, before, now, goal)
  {
  }

  lemma Arrived(ids: seq<int>, before: Refs, now: Refs, goal: Refs)
    requires Halfway(ids, |ids|, before, now, goal)
    requires forall id | id in before && id !in ids :: now[id] == goal[id]
    ensures now == goal
  {
    forall id | id in before ensures now[id] == goal[id] {
      if id in ids {
        var j :| 0 <= j < |ids| && ids[j] == id;
      }
    }
  }

  class Store {
    var steps: Steps
    var refs: Refs
    var l1: map<int, string>
    var l2: map<int, seq<string>>
    var l3: map<int, string>

    constructor ()
      ensures steps == map[] && refs == map[] && l1 == map[] && l2 == map[] && l3 == map[]
    {
      steps, refs, l1, l2, l3 := map[], map[], map[], map[], map[];
    }

    function TextsNow(): Texts
      reads this
    {
      Texts(steps, l1, l2, l3, Marker, Truncation.TAGS)
    }

    method AllActiveStepIDs() returns (ids: seq<int>)
      ensures ids == ActiveIds(refs) && Ascending(ids)
      ensures forall id :: id in ids <==> id in refs
    {
      ids := SortedIds(refs.Keys);
      SortedIdsAscend(refs.Keys);
    }

    method SumTokensOf(from: int, to: int) returns (total: nat)
      ensures total == SumTokens(Tokens(steps), from, to)
    {
      total := 0;
      var id := from;
      while id <= to
        invariant total + SumTokens(Tokens(steps), id, to) == SumTokens(Tokens(steps), from, to)
        decreases if id <= to then to + 1 - id else 0
      {
        total := total + if id in steps then steps[id].tokenCount else 0;
        id := id + 1;
      }
    }

    method TotalActiveTokens() returns (total: nat)
      ensures total == TotalTokens(steps, ActiveIds(refs))
    {
      var ids := AllActiveStepIDs();
      total := 0;
      for i := 0 to |ids|
        invariant total == TotalTokens(steps, ids[..i])
      {
        assert ids[..i + 1][..i] == ids[..i];
        if ids[i] in steps {
          total := total + steps[ids[i]].tokenCount;
        }
      }
      assert ids[..|ids|] == ids;
    }
  }

  /** The result of a batch compression. */
  datatype CompressResult = CompressResult(stepsCompressed: nat, newLevels: map<int, int>, shadowedStepIds: seq<int>,
                                           shadowedRange: (int, int))

  /** The steps among `ids` whose level differs, in order. */
  function ChangedIds(ids: seq<int>, before: Refs, after: Refs): seq<int> {
    if ids == [] then []
    else
      var rest, id := ChangedIds(ids[..|ids| - 1], before, after), ids[|ids| - 1];
      if id in before && id in after && after[id].level != before[id].level then rest + [id] else rest
  }

  lemma {:induction false} ChangedIdsAre(ids: seq<int>, before: Refs, after: Refs)
    requires Ascending(ids)
    ensures var changed := ChangedIds(ids, before, after);
            && Ascending(changed)
            && (forall id :: id in changed <==>
                             id in ids && id in before && id in after && after[id].level != before[id].level)
  {
    if ids != [] {
      var rest, id := ChangedIds(ids[..|ids| - 1], before, after), ids[|ids| - 1];
      ChangedIdsAre(ids[..|ids| - 1], before, after);
      assert forall x :: x in ids <==> x in ids[..|ids| - 1] || x == id;
      AscendingAppended(rest, id);
    }
  }

  lemma AscendingAppended(list: seq<int>, x: int)
    requires Ascending(list) && forall y | y in list :: y < x
    ensures Ascending(list + [x])
  {
    forall i, j | 0 <= i < j <= |list| ensures (list + [x])[i] < (list + [x])[j] {
      assert list[i] in list;
    }
  }

  function LevelsOf(ids: seq<int>, refs: Refs): map<int, int> {
    map id | id in ids && id in refs :: refs[id].level
  }

  /** The result names exactly the steps whose level changed, with their new
      levels, in ascending order, and the first and last of them. */
  ghost predicate Reports(result: CompressResult, before: Refs, after: Refs) {
    var ids := result.shadowedStepIds;
    && Ascending(ids)
    && (forall id :: id in ids <==> id in before && id in after && after[id].level != before[id].level)
    && result.stepsCompressed == |ids|
    && result.newLevels == LevelsOf(ids, after)
    && result.shadowedRange == if ids == [] then (0, 0) else (ids[0], ids[|ids| - 1])
  }

  lemma ChangedNext(ids: seq<int>, n: nat, before: Refs, after: Refs)
    requires n < |ids| && ids[n] in before && ids[n] in after
    ensures var changed, id := ChangedIds(ids[..n], before, after), ids[n];
            if after[id].level != before[id].level
            then ChangedIds(ids[..n + 1], before, after) == changed + [id]
                 && LevelsOf(changed + [id], after) == LevelsOf(changed, after)[id := after[id].level]
            else ChangedIds(ids[..n + 1], before, after) == changed
  {
    assert ids[..n + 1][..n] == ids[..n];
  }

  /** The batch compression when the first `n` of `ids` are done. */
  ghost predicate CompressedTo(ids: seq<int>, n: nat, before: Refs, now: Refs, goal: Refs, shadowed: seq<int>,
                               newLevels: map<int, int>)
  {
    n <= |ids| && Halfway(ids, n, before, now, goal)
    && shadowed == ChangedIds(ids[..n], before, goal) && newLevels == LevelsOf(shadowed, goal)
  }

  lemma CompressedToNext(ids: seq<int>, n: nat, before: Refs, now: Refs, goal: Refs, shadowed: seq<int>,
                         newLevels: map<int, int>)
    requires Ascending(ids) && n < |ids| && ids[n] in before && CompressedTo(ids, n, before, now, goal, shadowed, newLevels)
    ensures var id := ids[n];
            && now[id] == before[id]
            && if goal[id].level != before[id].level
               then CompressedTo(ids, n + 1, before, now[id := goal[id]], goal, shadowed + [id], newLevels[id := goal[id].level])
               else CompressedTo(ids, n + 1, before, now[id := goal[id]], goal, shadowed, newLevels)
  {
    Advance(ids, n, before, now, goal);
    ChangedNext(ids, n, before, goal);
  }

  lemma DecayGoal(steps: Steps, refs: Refs, current: int, group: int, cfg: Config, id: int)
    requires NonNegative(cfg.decay) && id in refs
    ensures Compression.PerStepDecay(steps, refs, current, group, cfg)[id] ==
            Decayed(steps, current, group, cfg, id, refs[id])
  {
  }

  lemma CompressGoal(steps: Steps, refs: Refs, current: int, group: int, cfg: Config, id: int)
    requires NonNegative(cfg.decay) && id in refs
    ensures BatchCompression(steps, refs, current, group, cfg)[id] ==
            Compressed(steps, current, group, cfg, id, refs[id])
  {
  }

  lemma WarmGoal(refs: Refs, tailKeepSteps: nat, i: nat)
    requires i < |ActiveIds(refs)| && ActiveIds(refs)[i] in refs && Ascending(ActiveIds(refs))
    ensures var ids := ActiveIds(refs); var ref := refs[ids[i]];
            WarmedUp(refs, tailKeepSteps)[ids[i]] ==
            if i < |ids| - tailKeepSteps && ref.level < 1 then ref.(level := 1) else ref
  {
    var ids := ActiveIds(refs);
    InFront(ids, i, if |ids| < tailKeepSteps then 0 else |ids| - tailKeepSteps);
  }

  lemma ReorganizeGoal(steps: Steps, refs: Refs, current: int, aggressive: bool, cfg: Config, id: int)
    requires id in refs
    ensures MechanicalReorganization(steps, refs, current, aggressive, cfg)[id] ==
            Reorganized(steps, |ActiveIds(refs)|, TailFirst(refs, current, cfg), IgnoresTail(steps, refs, aggressive, cfg),
                        cfg, id, refs[id])
  {
  }

  /** What an expansion returns: a text, and the level it is of. */
  datatype Expansion = Expansion(stepId: int, level: int, content: string)

  function Positive(cited: seq<int>): set<int> {
    set id | id in cited && id > 0
  }

  class HybridManager {
    const store: Store
    const cfg: Config
    const group: int
    const warmupRatio: real
    const budget: SweetSpot.SweetSpotBudget
    var currentStep: int
    var warmupPending: bool
    var idleCount: int
    var driftHint: bool

    constructor (store: Store, cfg: Config, group: int, sweetSpotTokens: int, decayRate: real, warmupRatio: real)
      ensures this.store == store && this.cfg == cfg && this.group == group && currentStep == 0 && !warmupPending
      ensures idleCount == 0 && !driftHint
      ensures this.warmupRatio == if warmupRatio <= 0.0 then 0.8 else warmupRatio
      ensures fresh(budget) && budget.Valid() && budget.Value() == SweetSpot.Initial(sweetSpotTokens)
    {
      this.store, this.cfg, this.group, currentStep, warmupPending := store, cfg, group, 0, false;
      this.warmupRatio := if warmupRatio <= 0.0 then 0.8 else warmupRatio;
      idleCount, driftHint := 0, false;
      budget := new SweetSpot.SweetSpotBudget(sweetSpotTokens, decayRate);
    }

    function Now(): Mutators.State
      reads this, store
    {
      Mutators.State(store.steps, store.refs, currentStep, map[])
    }

    method PerStepDecay(current: int)
      requires NonNegative(cfg.decay)
      modifies store`refs
      ensures store.refs ==
              var before := old(store.refs);
              if budget.sweetSpotTokens > 0 && TotalTokens(store.steps, ActiveIds(before)) < budget.sweetSpotTokens then before
              else Compression.PerStepDecay(store.steps, before, current, group, cfg)
    {
      if budget.sweetSpotTokens > 0 {
        var total := store.TotalActiveTokens();
        if total < budget.sweetSpotTokens {
          return;
        }
      }
      var ids := store.AllActiveStepIDs();
      ghost var before, goal := store.refs, Compression.PerStepDecay(store.steps, store.refs, current, group, cfg);
      for i := 0 to |ids|
        invariant Halfway(ids, i, before, store.refs, goal)
      {
        DecayGoal(store.steps, before, current, group, cfg, ids[i]);
        Advance(ids, i, before, store.refs, goal);
        DecayOne(ids[i], current);
      }
      Arrived(ids, before, store.refs, goal);
    }

    /** One round of the loop of a per-step decay. */
    method DecayOne(id: int, current: int)
      requires NonNegative(cfg.decay) && id in store.refs
      modifies store`refs
      ensures store.refs ==
              old(store.refs)[id := Decayed(store.steps, current, group, cfg, id, old(store.refs)[id])]
    {
      var ref := store.refs[id];
      if id == current || ref.level >= 3 || ref.lockL0 {
        return;
      }
      var lastRef := if ref.lastRefAtStep.Some? then ref.lastRefAtStep.value else current - 1;
      var rawDecay := store.SumTokensOf(lastRef + 1, current);
      var target := TargetLevel(ComputeDecay(ref, rawDecay, false, group, cfg.decay), KindOf(store.steps, id),
                                cfg.thresholds);
      var maxLvl := MaxLevelForType(KindOf(store.steps, id));
      if target > maxLvl {
        target := maxLvl;
      }
      if target > ref.level {
        store.refs := store.refs[id := ref.(level := target)];
      }
    }

    /** Whether the warm-up is to be started. */
    method MaybeWarmup() returns (starts: bool)
      modifies this`warmupPending
      ensures starts <==> !old(warmupPending) &&
                          WarmupStarts(TotalTokens(store.steps, ActiveIds(store.refs)), budget.sweetSpotTokens, warmupRatio)
      ensures warmupPending == (old(warmupPending) || starts)
    {
      if budget.sweetSpotTokens <= 0 {
        return false;
      }
      if warmupPending {
        return false;
      }
      var total := store.TotalActiveTokens();
      var ratio := Over(total as real, budget.sweetSpotTokens as real);
      if ratio < warmupRatio {
        return false;
      }
      warmupPending := true;
      return true;
    }

    /** The next step is stored, the others decay under the budget in force, a warm-up
        may be started for what is there then, a hint is set if the drift check found
        the step to drift, and the tolerance decays. */
    method Ingest(step: StepRecord, drifts: bool) returns (warms: bool)
      requires NonNegative(cfg.decay)
      modifies this`currentStep, this`warmupPending, this`idleCount, this`driftHint, store`steps, store`refs, budget
      ensures Now() == Mutators.Ingested(old(Now()), step, old(budget.sweetSpotTokens), group, cfg)
      ensures warms <==> !old(warmupPending) && WarmupStarts(TotalTokens(store.steps, ActiveIds(store.refs)),
                                                             old(budget.sweetSpotTokens), warmupRatio)
      ensures warmupPending == (old(warmupPending) || warms)
      ensures idleCount == 0 && driftHint == (old(driftHint) || drifts)
      ensures budget.Value() == SweetSpot.Decayed(old(budget.Value()), budget.sweetSpotOriginal, budget.decayRate)
    {
      currentStep := currentStep + 1;
      var sid := currentStep;
      store.steps := store.steps[sid := step.(stepId := sid)];
      store.refs := store.refs[sid := NewRef(sid, group)];
      idleCount := 0;
      PerStepDecay(sid);
      warms := MaybeWarmup();
      if drifts {
        driftHint := true;
      }
      budget.DecayTolerance();
    }

    /** One round of the loop of a batch compression. */
    method CompressOne(id: int) returns (raised: bool, target: int)
      requires NonNegative(cfg.decay) && id in store.refs
      modifies store`refs
      ensures var after := Compressed(store.steps, currentStep, group, cfg, id, old(store.refs)[id]);
              && store.refs == old(store.refs)[id := after]
              && (raised <==> after.level != old(store.refs)[id].level)
              && (raised ==> target == after.level)
    {
      var ref := store.refs[id];
      var maxLvl := MaxLevelForType(KindOf(store.steps, id));
      if ref.level >= maxLvl || ref.lockL0 {
        return false, 0;
      }
      target := BatchTarget(ref, id, maxLvl);
      raised := target > ref.level;
      if raised {
        store.refs := store.refs[id := ref.(level := target)];
      }
    }

    /** The loop; `goal` is what it is to arrive at. */
    method CompressAll(ids: seq<int>, ghost goal: Refs) returns (count: nat, newLevels: map<int, int>,
                       shadowed: seq<int>)
      requires NonNegative(cfg.decay) && Ascending(ids) && forall id | id in ids :: id in store.refs
      requires goal == BatchCompression(store.steps, store.refs, currentStep, group, cfg)
      modifies store`refs
      ensures CompressedTo(ids, |ids|, old(store.refs), store.refs, goal, shadowed, newLevels) && count == |shadowed|
    {
      count, newLevels, shadowed := 0, map[], [];
      ghost var before := store.refs;
      for i := 0 to |ids|
        invariant CompressedTo(ids, i, before, store.refs, goal, shadowed, newLevels) && count == |shadowed|
      {
        CompressGoal(store.steps, before, currentStep, group, cfg, ids[i]);
        CompressedToNext(ids, i, before, store.refs, goal, shadowed, newLevels);
        var raised, target := CompressOne(ids[i]);
        if raised {
          count := count + 1;
          newLevels := newLevels[ids[i] := target];
          shadowed := shadowed + [ids[i]];
        }
      }
    }

    method ResultOf(count: nat, newLevels: map<int, int>, shadowed: seq<int>, ghost ids: seq<int>, ghost before: Refs,
                    ghost after: Refs)
      returns (result: CompressResult)
      requires Ascending(ids) && before.Keys == after.Keys && forall id :: id in ids <==> id in before
      requires shadowed == ChangedIds(ids, before, after) && count == |shadowed|
               && newLevels == LevelsOf(shadowed, after)
      ensures Reports(result, before, after)
    {
      ChangedIdsAre(ids, before, after);
      var range := (0, 0);
      if |shadowed| > 0 {
        range := (shadowed[0], shadowed[|shadowed| - 1]);
      }
      result := CompressResult(count, newLevels, shadowed, range);
    }

    method TriggerCompression() returns (result: CompressResult)
      requires NonNegative(cfg.decay)
      modifies store`refs
      ensures store.refs == BatchCompression(store.steps, old(store.refs), currentStep, group, cfg)
      ensures Reports(result, old(store.refs), store.refs)
    {
      var ids := store.AllActiveStepIDs();
      ghost var before, goal := store.refs, BatchCompression(store.steps, store.refs, currentStep, group, cfg);
      var count, newLevels, shadowed := CompressAll(ids, goal);
      assert ids[..|ids|] == ids;
      Arrived(ids, before, store.refs, goal);
      result := ResultOf(count, newLevels, shadowed, ids, before, store.refs);
    }

    method BatchTarget(ref: RefRecord, id: int, maxLvl: int) returns (target: int)
      requires NonNegative(cfg.decay) && maxLvl == MaxLevelForType(KindOf(store.steps, id))
      ensures target == DecayedTarget(ref, SumTokens(Tokens(store.steps), 0, currentStep), KindOf(store.steps, id), group,
                                      cfg.decay, cfg.thresholds)
    {
      var rawDecay := store.SumTokensOf(0, currentStep);
      target := TargetLevel(ComputeDecay(ref, rawDecay, false, group, cfg.decay), KindOf(store.steps, id),
                            cfg.thresholds);
      if target > maxLvl {
        target := maxLvl;
      }
    }

    /** The decisions, each a step and the level it is to have at least. */
    method MechanicalDecisions(aggressive: bool) returns (decisions: seq<(int, int)>)
      ensures decisions == DecisionsOf(ActiveIds(store.refs), store.refs,
                                       MechanicalReorganization(store.steps, store.refs, currentStep, aggressive, cfg))
    {
      var ids := store.AllActiveStepIDs();
      var retainSteps := RetainTailSteps(|ids|, cfg);
      var overflow := false;
      if cfg.overflowCapTokens > 0 {
        var total := store.TotalActiveTokens();
        overflow := total > cfg.overflowCapTokens;
      }
      var ignoreTail := aggressive || overflow;
      ghost var goal := MechanicalReorganization(store.steps, store.refs, currentStep, aggressive, cfg);
      forall j | 0 <= j < |ids|
        ensures goal[ids[j]] == Reorganized(store.steps, |ids|, currentStep - retainSteps + 1, ignoreTail, cfg, ids[j],
                                            store.refs[ids[j]])
      {
        ReorganizeGoal(store.steps, store.refs, currentStep, aggressive, cfg, ids[j]);
      }
      decisions := DecideAll(ids, retainSteps, ignoreTail, goal);
    }

    /** The loop; `goal` is what the decisions are to lead to. */
    method DecideAll(ids: seq<int>, retainSteps: int, ignoreTail: bool, ghost goal: Refs)
      returns (decisions: seq<(int, int)>)
      requires forall j | 0 <= j < |ids| :: ids[j] in store.refs && ids[j] in goal
      requires forall j | 0 <= j < |ids| ::
                 goal[ids[j]] == Reorganized(store.steps, |ids|, currentStep - retainSteps + 1, ignoreTail, cfg, ids[j],
                                             store.refs[ids[j]])
      ensures decisions == DecisionsOf(ids, store.refs, goal)
    {
      decisions := [];
      for i := 0 to |ids|
        invariant decisions == DecisionsOf(ids[..i], store.refs, goal)
      {
        DecisionsNext(ids, i, store.refs, goal);
        var target := DecideOne(ids[i], |ids|, retainSteps, ignoreTail);
        if target.Some? {
          decisions := decisions + [(ids[i], target.value)];
        }
      }
      assert ids[..|ids|] == ids;
    }

    /** One round of the loop: the level the step is to have, if it is to rise. */
    method DecideOne(id: int, active: nat, retainSteps: int, ignoreTail: bool) returns (decision: Option<int>)
      requires id in store.refs
      ensures var ref := store.refs[id];
              var after := Reorganized(store.steps, active, currentStep - retainSteps + 1, ignoreTail, cfg, id, ref);
              decision == if after.level != ref.level then Some(after.level) else None
    {
      var ref := store.refs[id];
      if id !in store.steps {
        return None;
      }
      var step := store.steps[id];
      var maxLvl := MaxLevelForType(step.kind);
      if ref.level >= maxLvl || ref.lockL0 {
        return None;
      }
      if !ignoreTail && id > currentStep - retainSteps {
        return None;
      }
      var rawDecay := step.tokenCount * active;
      var target := TargetLevel(ComputeDecay(ref, rawDecay, false, ref.taskGroupId, ZERO), step.kind,
                                cfg.thresholds);
      if target > maxLvl {
        target := maxLvl;
      }
      if target <= ref.level {
        return None;
      }
      return Some(target);
    }

    method ApplyStepDecisions(decisions: seq<(int, int)>) returns (count: nat)
      modifies store`refs
      ensures store.refs == Applied(old(store.refs), decisions)
      ensures count == Hits(old(store.refs), decisions)
    {
      count := 0;
      for i := 0 to |decisions|
        invariant store.refs == Applied(old(store.refs), decisions[..i]) && store.refs.Keys == old(store.refs).Keys
        invariant count == Hits(old(store.refs), decisions[..i])
      {
        assert decisions[..i + 1][..i] == decisions[..i];
        var (id, target) := decisions[i];
        if id !in store.refs {
          continue;
        }
        var ref := store.refs[id];
        if target == -1 {
          ref := ref.(level := 4);
        } else if target > ref.level {
          ref := ref.(level := target);
        }
        store.refs := store.refs[id := ref];
        count := count + 1;
      }
      assert decisions[..|decisions|] == decisions;
    }

    /** The number reported is that of the steps whose level changed. */
    method MechanicalReorganize(aggressive: bool) returns (adjusted: nat)
      modifies store`refs
      ensures store.refs == MechanicalReorganization(store.steps, old(store.refs), currentStep, aggressive, cfg)
      ensures adjusted == |ChangedIds(ActiveIds(old(store.refs)), old(store.refs), store.refs)|
    {
      ghost var before := store.refs;
      ghost var goal := MechanicalReorganization(store.steps, before, currentStep, aggressive, cfg);
      var decisions := MechanicalDecisions(aggressive);
      SortedIdsAscend(before.Keys);
      MechanicalRaises(store.steps, before, currentStep, aggressive, cfg);
      DecisionsApplied(ActiveIds(before), before, goal);
      DecisionsHit(ActiveIds(before), before, goal);
      adjusted := ApplyStepDecisions(decisions);
    }

    /** The warm-up goroutine, run without interruption. */
    method WarmupCompress()
      modifies store`refs, this`warmupPending
      ensures store.refs == WarmedUp(old(store.refs), cfg.tailKeepSteps) && !warmupPending
    {
      WarmBeforeTail();
      warmupPending := false;
    }

    method WarmBeforeTail()
      modifies store`refs
      ensures store.refs == WarmedUp(old(store.refs), cfg.tailKeepSteps)
    {
      var ids := store.AllActiveStepIDs();
      if |ids| <= cfg.tailKeepSteps {
        assert store.refs == WarmedUp(store.refs, cfg.tailKeepSteps);
        return;
      }
      var tailStart := |ids| - cfg.tailKeepSteps;
      ghost var before, goal := store.refs, WarmedUp(store.refs, cfg.tailKeepSteps);
      for i := 0 to tailStart
        invariant Halfway(ids, i, before, store.refs, goal)
      {
        WarmGoal(before, cfg.tailKeepSteps, i);
        Advance(ids, i, before, store.refs, goal);
        WarmOne(ids[i]);
      }
      forall j | tailStart <= j < |ids| ensures goal[ids[j]] == before[ids[j]] {
        WarmGoal(before, cfg.tailKeepSteps, j);
      }
      Arrived(ids, before, store.refs, goal);
    }

    /** One round of the warm-up loop. */
    method WarmOne(id: int)
      requires id in store.refs
      modifies store`refs
      ensures store.refs == var ref := old(store.refs)[id];
              old(store.refs)[id := if ref.level < 1 then ref.(level := 1) else ref]
    {
      var ref := store.refs[id];
      if ref.level >= 1 {
        return;
      }
      store.refs := store.refs[id := ref.(level := 1)];
    }

    /** `cited` are the numbers found in the output, in order. */
    method ProcessCitations(cited: seq<int>)
      modifies store`refs
      ensures store.refs == CitedRefs(old(store.refs), cited, currentStep, group, cfg)
    {
      for i := 0 to |cited|
        invariant store.refs == CitedRefs(old(store.refs), cited[..i], currentStep, group, cfg)
      {
        assert cited[..i + 1][..i] == cited[..i];
        CiteOne(cited[i]);
      }
      assert cited[..|cited|] == cited;
    }

    /** One round of the loop over the citations. */
    method CiteOne(id: int)
      modifies store`refs
      ensures store.refs == CitedOne(old(store.refs), id, currentStep, group, cfg)
    {
      if id <= 0 || id !in store.refs {
        return;
      }
      var ref := store.refs[id];
      ref := ref.(refCount := ref.refCount + 1, lastRefAtStep := Some(currentStep), strength := ref.strength + 0.1);
      store.refs := store.refs[id := ApplyRecallBoost(ref, group, cfg.decay)];
    }

    /** The citations also tell the sliding window how many steps were cited. */
    method ProcessCitationsWithTolerance(cited: seq<int>)
      requires budget.Valid()
      modifies store`refs, budget, budget.recentRefCounts
      ensures budget.Valid()
      ensures store.refs == CitedRefs(old(store.refs), cited, currentStep, group, cfg)
      ensures forall id :: id in Positive(cited) <==> id in cited && id > 0
      ensures budget.Value() == SweetSpot.Step(old(budget.Value()),
                                               SweetSpot.CitationsOp(|Positive(cited)|, |ActiveIds(store.refs)|),
                                               budget.sweetSpotOriginal, budget.decayRate)
    {
      var uniqueRefs := {};
      for i := 0 to |cited|
        invariant uniqueRefs == Positive(cited[..i])
        invariant store.refs == CitedRefs(old(store.refs), cited[..i], currentStep, group, cfg)
        invariant budget.Value() == old(budget.Value()) && budget.Valid()
      {
        assert cited[..i + 1] == cited[..i] + [cited[i]] && cited[..i + 1][..i] == cited[..i];
        CiteOne(cited[i]);
        if cited[i] > 0 {
          uniqueRefs := uniqueRefs + {cited[i]};
        }
      }
      assert cited[..|cited|] == cited;
      if budget.sweetSpotOriginal > 0 {
        var ids := store.AllActiveStepIDs();
        budget.UpdateSlidingWindow(|uniqueRefs|, |ids|);
      }
    }

    /** The record of the step is cited; what is returned is the text that the step is
        rendered with at level 0 or 1, and it fails for a step that was not ingested. */
    method Expand(stepId: int, full: bool) returns (r: Option<Expansion>)
      requires NonNegative(cfg.decay)
      modifies store`refs
      ensures Now() == Mutators.Step(old(Now()), Mutators.ExpandOp(stepId), group, cfg)
      ensures r.Some? <==> FromStore(store.TextsNow(), stepId, if full then 0 else 1).Some?
      ensures r.Some? ==>
                && r.value.stepId == stepId && r.value.level == (if !full && stepId in store.l1 then 1 else 0)
                && FromStore(store.TextsNow(), stepId, if full then 0 else 1) == Some(r.value.content)
    {
      if stepId in store.refs {
        var ref := store.refs[stepId];
        ref := ref.(refCount := ref.refCount + 1);
        ref := ref.(strength := ref.strength + 0.1);
        ref := ref.(lastRefAtStep := Some(currentStep));
        store.refs := store.refs[stepId := ref];
      }
      if !full && stepId in store.l1 {
        return Some(Expansion(stepId, 1, store.l1[stepId]));
      }
      if stepId !in store.steps {
        return None;
      }
      return Some(Expansion(stepId, 0, store.steps[stepId].content));
    }

    method MarkTransient(stepId: int, round: int) returns (ok: bool)
      requires NonNegative(cfg.decay)
      modifies store`steps
      ensures ok == (stepId in old(store.steps))
      ensures Now() == Mutators.Step(old(Now()), Mutators.MarkTransientOp(stepId, round), group, cfg)
    {
      if stepId !in store.steps {
        return false;
      }
      var step := store.steps[stepId];
      step := step.(transient := true);
      step := step.(transientRound := round);
      store.steps := store.steps[stepId := step];
      return true;
    }

    method IsStale(id: int, currentRound: int) returns (stale: bool)
      ensures stale == Stale(store.steps, id, currentRound)
    {
      if id !in store.steps || !store.steps[id].transient {
        return false;
      }
      return currentRound - store.steps[id].transientRound >= 1;
    }

    method ClearStaleTransients(currentRound: int) returns (count: nat)
      modifies store`refs
      ensures store.refs == ClearedTransients(store.steps, old(store.refs), currentRound)
      ensures |store.refs| + count == |old(store.refs)|
    {
      count := 0;
      var ids := store.AllActiveStepIDs();
      ghost var before, goal := store.refs, ClearedTransients(store.steps, store.refs, currentRound);
      PartlyAll(before, goal);
      for i := 0 to |ids|
        invariant store.refs == Partly(before, Elements(ids[..i]), goal)
        invariant |store.refs| + count == |before|
      {
        ElementsNext(ids, i);
        PartlyNext(before, Elements(ids[..i]), goal, ids[i]);
        ClearGoal(store.steps, before, currentRound, ids[i]);
        var stale := IsStale(ids[i], currentRound);
        if !stale {
          continue;
        }
        RemovedOne(store.refs, ids[i]);
        store.refs := store.refs - {ids[i]};
        count := count + 1;
      }
      AllElements(ids, before.Keys);
    }
  }

  lemma ClearGoal(steps: Steps, refs: Refs, round: int, id: int)
    requires id in refs
    ensures id in ClearedTransients(steps, refs, round) <==> !Stale(steps, id, round)
  {
  }

  // ------------------------------------------------- lists of level decisions

  /** One decision for each step whose level the goal changes, in order. */
  function DecisionsOf(ids: seq<int>, refs: Refs, goal: Refs): seq<(int, int)> {
    if ids == [] then []
    else
      var rest, id := DecisionsOf(ids[..|ids| - 1], refs, goal), ids[|ids| - 1];
      if id in refs && id in goal && goal[id].level != refs[id].level then rest + [(id, goal[id].level)] else rest
  }

  lemma DecisionsNext(ids: seq<int>, n: nat, refs: Refs, goal: Refs)
    requires n < |ids| && ids[n] in refs && ids[n] in goal
    ensures var rest, id := DecisionsOf(ids[..n], refs, goal), ids[n];
            DecisionsOf(ids[..n + 1], refs, goal) ==
            if goal[id].level != refs[id].level then rest + [(id, goal[id].level)] else rest
  {
    assert ids[..n + 1][..n] == ids[..n];
  }

  function Decide(ref: RefRecord, target: int): RefRecord {
    if target == -1 then ref.(level := 4) else Raised(ref, target)
  }

  function Applied(refs: Refs, decisions: seq<(int, int)>): Refs {
    if decisions == [] then refs
    else
      var before, d := Applied(refs, decisions[..|decisions| - 1]), decisions[|decisions| - 1];
      if d.0 in before then before[d.0 := Decide(before[d.0], d.1)] else before
  }

  /** What one decision does: -1 discards, and any other level is reached from below,
      if the step is active. */
  lemma DecisionIs(refs: Refs, id: int, target: int)
    ensures Applied(refs, [(id, target)]) ==
            if id !in refs then refs
            else if target == -1 then refs[id := refs[id].(level := 4)]
            else if refs[id].level < target then refs[id := refs[id].(level := target)]
            else refs
  {
    assert [(id, target)][..0] == [] && Applied(refs, []) == refs;
  }

  /** Decisions are taken one after the other. */
  lemma DecisionsFollow(refs: Refs, decisions: seq<(int, int)>, d: (int, int))
    ensures Applied(refs, decisions + [d]) == Applied(Applied(refs, decisions), [d])
    ensures Hits(refs, decisions + [d]) == Hits(refs, decisions) + if d.0 in refs then 1 else 0
  {
    assert (decisions + [d])[..|decisions|] == decisions && [d][..0] == [];
    assert Applied(Applied(refs, decisions), []) == Applied(refs, decisions);
  }

  /** The decisions that name an active step. */
  function Hits(refs: Refs, decisions: seq<(int, int)>): nat {
    if decisions == [] then 0
    else Hits(refs, decisions[..|decisions| - 1]) + if decisions[|decisions| - 1].0 in refs then 1 else 0
  }

  /** The goal differs from the records in raised levels only. */
  predicate RaisesOnly(refs: Refs, goal: Refs) {
    goal.Keys == refs.Keys
    && forall id | id in refs :: goal[id] == refs[id] || (goal[id] == refs[id].(level := goal[id].level)
                                                          && goal[id].level > refs[id].level && goal[id].level >= 0)
  }

  lemma MechanicalRaises(steps: Steps, refs: Refs, current: int, aggressive: bool, cfg: Config)
    ensures RaisesOnly(refs, MechanicalReorganization(steps, refs, current, aggressive, cfg))
  {
  }

  lemma {:induction false} DecisionsHit(ids: seq<int>, refs: Refs, goal: Refs)
    ensures var decisions := DecisionsOf(ids, refs, goal);
            Hits(refs, decisions) == |decisions| == |ChangedIds(ids, refs, goal)|
  {
    if ids != [] {
      DecisionsHit(ids[..|ids| - 1], refs, goal);
      var rest, decisions := DecisionsOf(ids[..|ids| - 1], refs, goal), DecisionsOf(ids, refs, goal);
      assert decisions != rest ==> decisions[..|decisions| - 1] == rest;
    }
  }

  lemma ApplyNext(refs: Refs, decisions: seq<(int, int)>, id: int, target: int)
    ensures var before := Applied(refs, decisions);
            Applied(refs, decisions + [(id, target)]) ==
            if id in before then before[id := Decide(before[id], target)] else before
  {
    assert (decisions + [(id, target)])[..|decisions|] == decisions;
  }

  /** The records when the decisions for the first `n` of `ids` are applied. */
  ghost predicate DecidedHalfway(ids: seq<int>, n: nat, refs: Refs, goal: Refs) {
    n <= |ids| && Halfway(ids, n, refs, Applied(refs, DecisionsOf(ids[..n], refs, goal)), goal)
  }

  lemma DecidedNext(ids: seq<int>, n: nat, next: nat, refs: Refs, goal: Refs)
    requires RaisesOnly(refs, goal) && Ascending(ids) && n < |ids| && ids[n] in refs && next == n + 1
    requires DecidedHalfway(ids, n, refs, goal)
    ensures DecidedHalfway(ids, next, refs, goal)
  {
    var decisions, id := DecisionsOf(ids[..n], refs, goal), ids[n];
    var now := Applied(refs, decisions);
    DecisionsNext(ids, n, refs, goal);
    if goal[id].level != refs[id].level {
      ApplyNext(refs, decisions, id, goal[id].level);
      assert Decide(now[id], goal[id].level) == goal[id];
      Advance(ids, n, refs, now, goal);
    } else {
      Pass(ids, n, refs, now, goal);
    }
  }

  lemma {:induction false} DecisionsHalfway(ids: seq<int>, n: nat, refs: Refs, goal: Refs)
    requires RaisesOnly(refs, goal) && Ascending(ids) && n <= |ids| && forall id | id in ids :: id in refs
    ensures DecidedHalfway(ids, n, refs, goal)
  {
    if n > 0 {
      DecisionsHalfway(ids, n - 1, refs, goal);
      assert ids[n - 1] in ids;
      DecidedNext(ids, n - 1, n, refs, goal);
    }
  }

  lemma DecisionsApplied(ids: seq<int>, refs: Refs, goal: Refs)
    requires RaisesOnly(refs, goal) && Ascending(ids) && forall id :: id in ids <==> id in refs
    ensures Applied(refs, DecisionsOf(ids, refs, goal)) == goal
  {
    DecisionsHalfway(ids, |ids|, refs, goal);
    assert ids[..|ids|] == ids;
    Arrived(ids, refs, Applied(refs, DecisionsOf(ids, refs, goal)), goal);
  }

  // --------------------------------------------------------- loops that remove

  function Elements(list: seq<int>): set<int> {
    set x | x in list
  }

  lemma ElementsNext(list: seq<int>, n: nat)
    requires n < |list|
    ensures Elements(list[..n + 1]) == Elements(list[..n]) + {list[n]}
    ensures Ascending(list) ==> list[n] !in Elements(list[..n])
  {
    assert list[..n + 1] == list[..n] + [list[n]];
  }

  lemma AllElements(list: seq<int>, all: set<int>)
    requires forall x :: x in list <==> x in all
    ensures Elements(list[..|list|]) == all
  {
    assert list[..|list|] == list;
    forall x ensures x in Elements(list) <==> x in all {
      assert x in list <==> x in all;
    }
  }

  /** The records when those of `done` that are not in the goal are removed. */
  function Partly(refs: Refs, done: set<int>, goal: Refs): Refs {
    map id | id in refs && (id in done ==> id in goal) :: refs[id]
  }

  lemma PartlyNext(refs: Refs, done: set<int>, goal: Refs, id: int)
    requires id in refs && id !in done
    ensures id in Partly(refs, done, goal)
    ensures Partly(refs, done + {id}, goal) ==
            if id in goal then Partly(refs, done, goal) else Partly(refs, done, goal) - {id}
  {
  }

  lemma PartlyAll(refs: Refs, goal: Refs)
    requires goal.Keys <= refs.Keys && forall id | id in goal :: goal[id] == refs[id]
    ensures Partly(refs, refs.Keys, goal) == goal && Partly(refs, {}, goal) == refs
  {
    var all := Partly(refs, refs.Keys, goal);
    forall id | id in refs ensures id in all <==> id in goal {
    }
    assert all.Keys == goal.Keys;
    forall id | id in goal ensures all[id] == goal[id] {
      assert id in all.Keys;
    }
  }

  lemma RemovedOne(refs: Refs, id: int)
    requires id in refs
    ensures |refs - {id}| + 1 == |refs|
  {
    assert refs.Keys == (refs - {id}).Keys + {id};
  }

  lemma CleanupGoal(steps: Steps, refs: Refs, id: int)
    requires id in refs
    ensures id in L4Cleanup(steps, refs) <==> !CleanedUp(steps, id, refs[id])
  {
  }

  /** One more step is dropped when its record goes or changes. */
  lemma DroppedNext(cache: Cache, before: Refs, now: Refs, next: Refs, id: int)
    requires id in before && id in now && now[id] == before[id] && next - {id} == now - {id}
    requires id !in next || next[id] != before[id]
    ensures Dropped(cache, before, next) == Dropped(cache, before, now) - {id}
  {
    forall other | other != id ensures (other in next <==> other in now) && (other in now ==> next[other] == now[other]) {
      assert other in next <==> other in next - {id};
      assert other in now <==> other in now - {id};
      assert other in now ==> (next - {id})[other] == (now - {id})[other];
    }
  }

  lemma DroppedRound(cache: Cache, before: Refs, now: Refs, id: int, ref: RefRecord)
    requires id in before && id in now && now[id] == before[id]
    ensures Dropped(cache, before, now[id := ref]) ==
            if ref != before[id] then Dropped(cache, before, now) - {id} else Dropped(cache, before, now)
  {
    if ref != before[id] {
      DroppedNext(cache, before, now, now[id := ref], id);
    } else {
      assert now[id := ref] == now;
    }
  }

  /** The clean-up when the first `n` of `ids` are done. */
  ghost predicate CleanedTo(ids: seq<int>, n: nat, before: Refs, now: Refs, goal: Refs, cache: Cache, items: Cache) {
    n <= |ids| && now == Partly(before, Elements(ids[..n]), goal) && items == Dropped(cache, before, now)
  }

  lemma CleanedToNext(ids: seq<int>, n: nat, before: Refs, now: Refs, goal: Refs, cache: Cache, items: Cache)
    requires Ascending(ids) && n < |ids| && ids[n] in before && CleanedTo(ids, n, before, now, goal, cache, items)
    ensures var id := ids[n];
            && id in now && now[id] == before[id]
            && if id in goal then CleanedTo(ids, n + 1, before, now, goal, cache, items)
               else CleanedTo(ids, n + 1, before, now - {id}, goal, cache, items - {id})
  {
    ElementsNext(ids, n);
    PartlyNext(before, Elements(ids[..n]), goal, ids[n]);
    DroppedNext(cache, before, now, now - {ids[n]}, ids[n]);
  }

  lemma EmergencyGoal(steps: Steps, refs: Refs, cfg: Config, i: nat)
    requires i < |ActiveIds(refs)| && ActiveIds(refs)[i] in refs && Ascending(ActiveIds(refs))
    ensures var ids := ActiveIds(refs);
            Compression.EmergencyIntrospection(steps, refs, cfg)[ids[i]] ==
            if i < |ids| - cfg.tailKeepSteps then Urged(steps, ids[i], refs[ids[i]]) else refs[ids[i]]
  {
    var ids := ActiveIds(refs);
    InFront(ids, i, if |ids| < cfg.tailKeepSteps then 0 else |ids| - cfg.tailKeepSteps);
  }

  class Introspector {
    const store: Store
    const tailKeepSteps: nat
    const renderCache: RenderedCache

    constructor (store: Store, tailKeepSteps: nat, renderCache: RenderedCache)
      ensures this.store == store && this.tailKeepSteps == tailKeepSteps && this.renderCache == renderCache
    {
      this.store, this.tailKeepSteps, this.renderCache := store, tailKeepSteps, renderCache;
    }

    /** One round of the clean-up. */
    method CleanUpOne(id: int)
      requires id in store.refs
      modifies store`refs, renderCache
      ensures var discard := CleanedUp(store.steps, id, old(store.refs)[id]);
              && store.refs == (if discard then old(store.refs) - {id} else old(store.refs))
              && renderCache.items == if discard then old(renderCache.items) - {id} else old(renderCache.items)
    {
      var ref := store.refs[id];
      if ref.level >= 3 && ref.refCount == 0 && id in store.steps {
        var step := store.steps[id];
        if step.kind == Reasoning || step.kind == Plan || step.kind == Failed || ref.pendingL4 {
          store.refs := store.refs - {id};
          renderCache.Invalidate(id);
        }
      }
    }

    method ExecuteL4Cleanup()
      modifies store`refs, renderCache
      ensures store.refs == L4Cleanup(store.steps, old(store.refs))
      ensures renderCache.items == Dropped(old(renderCache.items), old(store.refs), store.refs)
    {
      var ids := store.AllActiveStepIDs();
      ghost var before, goal, cache := store.refs, L4Cleanup(store.steps, store.refs), renderCache.items;
      PartlyAll(before, goal);
      for i := 0 to |ids|
        invariant CleanedTo(ids, i, before, store.refs, goal, cache, renderCache.items)
      {
        CleanupGoal(store.steps, before, ids[i]);
        CleanedToNext(ids, i, before, store.refs, goal, cache, renderCache.items);
        CleanUpOne(ids[i]);
      }
      AllElements(ids, before.Keys);
    }

    /** One round of the loop, for a step in front of the tail. */
    method UrgeOne(id: int)
      requires id in store.refs
      modifies store`refs, renderCache
      ensures var ref := old(store.refs)[id]; var after := Urged(store.steps, id, ref);
              && store.refs == old(store.refs)[id := after]
              && renderCache.items == if after != ref then old(renderCache.items) - {id} else old(renderCache.items)
    {
      var ref := store.refs[id];
      if id !in store.steps {
        return;
      }
      var newLevel := ref.level + 1;
      var maxLvl := MaxLevelForType(store.steps[id].kind);
      if newLevel > maxLvl {
        newLevel := maxLvl;
      }
      if newLevel > 3 {
        newLevel := 3;
      }
      if newLevel > ref.level {
        store.refs := store.refs[id := ref.(level := newLevel)];
        renderCache.Invalidate(id);
      }
    }

    method EmergencyIntrospection(cfg: Config)
      requires cfg.tailKeepSteps == tailKeepSteps
      modifies store`refs, renderCache
      ensures store.refs == Compression.EmergencyIntrospection(store.steps, old(store.refs), cfg)
      ensures renderCache.items == Dropped(old(renderCache.items), old(store.refs), store.refs)
    {
      var ids := store.AllActiveStepIDs();
      var tailStart := |ids| - tailKeepSteps;
      if tailStart < 0 {
        tailStart := 0;
      }
      ghost var before, goal := store.refs, Compression.EmergencyIntrospection(store.steps, store.refs, cfg);
      for i := 0 to |ids|
        invariant Halfway(ids, i, before, store.refs, goal)
        invariant renderCache.items == Dropped(old(renderCache.items), before, store.refs)
      {
        EmergencyGoal(store.steps, before, cfg, i);
        if i >= tailStart {
          Pass(ids, i, before, store.refs, goal);
          continue;
        }
        Advance(ids, i, before, store.refs, goal);
        DroppedRound(old(renderCache.items), before, store.refs, ids[i], goal[ids[i]]);
        UrgeOne(ids[i]);
      }
      Arrived(ids, before, store.refs, goal);
    }

    /** The steps of each task group, in order. */
    method GroupSteps() returns (groups: map<int, seq<int>>)
      ensures Grouped(groups, store.refs, store.refs.Keys)
    {
      var ids := store.AllActiveStepIDs();
      groups := map[];
      for i := 0 to |ids|
        invariant Grouped(groups, store.refs, Elements(ids[..i]))
      {
        ElementsNext(ids, i);
        GroupedNext(groups, store.refs, Elements(ids[..i]), ids[i]);
        var group := store.refs[ids[i]].taskGroupId;
        groups := groups[group := (if group in groups then groups[group] else []) + [ids[i]]];
      }
      AllElements(ids, store.refs.Keys);
    }

    method Eligible(stepIds: seq<int>) returns (eligible: bool)
      requires forall j | 0 <= j < |stepIds| :: stepIds[j] in store.refs
      ensures eligible <==> forall j | 0 <= j < |stepIds| :: Settled(store.refs[stepIds[j]])
    {
      for i := 0 to |stepIds|
        invariant forall j | 0 <= j < i :: Settled(store.refs[stepIds[j]])
      {
        var ref := store.refs[stepIds[i]];
        if ref.level < 3 || ref.refCount > 0 {
          return false;
        }
      }
      return true;
    }

    method RemoveAll(stepIds: seq<int>)
      modifies store`refs
      ensures store.refs == Minus(old(store.refs), stepIds)
    {
      assert store.refs == Minus(store.refs, stepIds[..0]);
      for i := 0 to |stepIds|
        invariant store.refs == Minus(old(store.refs), stepIds[..i])
      {
        assert stepIds[..i + 1] == stepIds[..i] + [stepIds[i]];
        store.refs := store.refs - {stepIds[i]};
      }
      assert stepIds[..|stepIds|] == stepIds;
    }

    /** The groups are taken in any order, as a Go map gives them. */
    method ArchiveTaskGroups()
      modifies store`refs
      ensures store.refs == Compression.ArchiveTaskGroups(old(store.refs))
    {
      var groups := GroupSteps();
      ghost var before := store.refs;
      var left := groups.Keys;
      AllGroups(groups, before);
      while left != {}
        invariant left <= groups.Keys
        invariant store.refs == ArchivedBut(before, left)
      {
        SomeId(left);
        var group :| group in left;
        GroupStillThere(groups, before, left, group);
        var eligible := Eligible(groups[group]);
        EligibleIsArchived(groups, before, left, group);
        left := left - {group};
        GroupDone(groups, before, left, group, eligible);
        if eligible {
          RemoveAll(groups[group]);
        }
      }
      assert store.refs == Compression.ArchiveTaskGroups(before);
    }

    /** Without the checkpoint file: clean-up, archiving, and a cache that forgets
        everything. */
    method GlobalIntrospection()
      modifies store`refs, renderCache
      ensures store.refs == Compression.ArchiveTaskGroups(L4Cleanup(store.steps, old(store.refs)))
      ensures renderCache.items == map[]
    {
      ExecuteL4Cleanup();
      ArchiveTaskGroups();
      renderCache.InvalidateAll();
    }
  }

  function Minus(refs: Refs, ids: seq<int>): Refs {
    map id | id in refs && id !in ids :: refs[id]
  }

  lemma ConsolidateGoal(steps: Steps, refs: Refs, id: int)
    requires id in refs
    ensures IdleConsolidation(steps, refs)[id] == Consolidated(steps, id, refs[id])
  {
  }

  class IdleConsolidator {
    const store: Store

    constructor (store: Store)
      ensures this.store == store
    {
      this.store := store;
    }

    method ConsolidateOne(id: int)
      requires id in store.refs
      modifies store`refs
      ensures store.refs == old(store.refs)[id := Consolidated(store.steps, id, old(store.refs)[id])]
    {
      var ref := store.refs[id];
      if ref.refCount > 0 {
        ref := ref.(strength := ref.strength + 0.05);
        store.refs := store.refs[id := ref];
      }
      if id !in store.steps {
        return;
      }
      var step := store.steps[id];
      if step.kind == Reasoning || step.kind == Plan || step.kind == Failed {
        if ref.level >= 3 && ref.refCount == 0 {
          store.refs := store.refs[id := ref.(pendingL4 := true)];
        }
      }
    }

    method Consolidate()
      modifies store`refs
      ensures store.refs == IdleConsolidation(store.steps, old(store.refs))
    {
      var ids := store.AllActiveStepIDs();
      ghost var before, goal := store.refs, IdleConsolidation(store.steps, store.refs);
      for i := 0 to |ids|
        invariant Halfway(ids, i, before, store.refs, goal)
      {
        ConsolidateGoal(store.steps, before, ids[i]);
        Advance(ids, i, before, store.refs, goal);
        ConsolidateOne(ids[i]);
      }
      Arrived(ids, before, store.refs, goal);
    }

    method ExecutePendingL4()
      modifies store`refs
      ensures store.refs == PendingDiscarded(old(store.refs))
    {
      var ids := store.AllActiveStepIDs();
      ghost var before, goal := store.refs, PendingDiscarded(store.refs);
      PartlyAll(before, goal);
      for i := 0 to |ids|
        invariant store.refs == Partly(before, Elements(ids[..i]), goal)
      {
        ElementsNext(ids, i);
        PartlyNext(before, Elements(ids[..i]), goal, ids[i]);
        if store.refs[ids[i]].pendingL4 {
          store.refs := store.refs - {ids[i]};
        }
      }
      AllElements(ids, before.Keys);
    }
  }

  /** A text split at its line feeds. */
  function Lines(text: string): (lines: seq<string>)
    ensures |lines| > 0
  {
    if text == "" then [""]
    else
      var rest := Lines(text[1..]);
      if text[0] == '\n' then [""] + rest else [[text[0]] + rest[0]] + rest[1..]
  }

  /** Joining the lines gives the text back, so that what is stored as facts is
      rendered as it was written. */
  lemma {:induction false} LinesJoined(text: string)
    ensures Joined(Lines(text)) == text
  {
    if text != "" {
      LinesJoined(text[1..]);
      var rest := Lines(text[1..]);
      assert Joined(rest) == if |rest| == 1 then rest[0] else rest[0] + ['\n'] + Joined(rest[1..]);
      if text[0] == '\n' {
        assert ([""] + rest)[1..] == rest;
        assert "" + ['\n'] + text[1..] == text;
      } else {
        assert ([[text[0]] + rest[0]] + rest[1..])[1..] == rest[1..];
      }
    }
  }

  lemma TargetsNext(ids: seq<int>, n: nat, steps: Steps, refs: Refs, cfg: Config, targets: map<int, int>)
    requires n < |ids| && targets == TargetsOf(ids[..n], steps, refs, cfg)
    ensures var target := EngineTarget(steps, refs, ids[n], cfg);
            TargetsOf(ids[..n + 1], steps, refs, cfg) == if target.Some? then targets[ids[n] := target.value] else targets
  {
    assert forall id :: id in ids[..n + 1] <==> id in ids[..n] || id == ids[n];
  }

  function TargetsOf(ids: seq<int>, steps: Steps, refs: Refs, cfg: Config): map<int, int> {
    map id | id in ids && EngineTarget(steps, refs, id, cfg).Some? :: EngineTarget(steps, refs, id, cfg).value
  }

  /** The writes of the texts that a compression consists of; there is none for level 4,
      which has no text. */
  function Compressing(texts: Texts, id: int, targetLevel: int, compressed: string, mask: string): Texts {
    if targetLevel == 1 then Written(texts, id, WriteL1(compressed))
    else if targetLevel == 2 then Written(texts, id, WriteL2(Lines(compressed)))
    else if targetLevel == 3 then Written(Written(texts, id, WriteL2(Lines(compressed))), id, WriteL3(mask))
    else texts
  }

  /** No line feed is left in a line. */
  lemma {:induction false} LinesAreLines(text: string)
    ensures forall i, j | 0 <= i < |Lines(text)| && 0 <= j < |Lines(text)[i]| :: Lines(text)[i][j] != '\n'
  {
    if text != "" {
      LinesAreLines(text[1..]);
    }
  }

  /** The texts that a compression writes for its step: a text for level 1, the lines of
      it as facts for level 2, both these and the mask for level 3, and none else; the
      other steps keep theirs. */
  lemma CompressingWrites(texts: Texts, id: int, targetLevel: int, compressed: string, mask: string)
    ensures var after := Compressing(texts, id, targetLevel, compressed, mask);
            && after.steps == texts.steps && after.mark == texts.mark && after.tags == texts.tags
            && after.l1 == (if targetLevel == 1 then texts.l1[id := compressed] else texts.l1)
            && after.l3 == (if targetLevel == 3 then texts.l3[id := mask] else texts.l3)
            && (targetLevel !in {2, 3} ==> after.l2 == texts.l2)
            && (targetLevel in {2, 3} ==>
                  id in after.l2 && after.l2 == texts.l2[id := after.l2[id]] && Joined(after.l2[id]) == compressed &&
                  forall i, j | 0 <= i < |after.l2[id]| && 0 <= j < |after.l2[id][i]| :: after.l2[id][i][j] != '\n')
  {
    LinesAreLines(compressed);
    LinesJoined(compressed);
  }

  /** The engine that has a model compress the texts of the steps. */
  class Engine {
    const store: Store
    const cfg: Config

    constructor (store: Store, cfg: Config)
      ensures this.store == store && this.cfg == cfg
    {
      this.store, this.cfg := store, cfg;
    }

    /** The level a step is to be compressed to, if it is worth a call. */
    method Candidate(id: int, active: nat) returns (target: Option<int>)
      requires id in store.refs && active == |ActiveIds(store.refs)|
      ensures target == EngineTarget(store.steps, store.refs, id, cfg)
    {
      var ref := store.refs[id];
      if id !in store.steps {
        return None;
      }
      var step := store.steps[id];
      var maxLvl := MaxLevelForType(step.kind);
      if ref.level >= maxLvl || ref.lockL0 {
        return None;
      }
      var level := TargetLevel(ComputeDecay(ref, step.tokenCount * active, false, ref.taskGroupId, ZERO), step.kind,
                               cfg.thresholds);
      if level > maxLvl {
        level := maxLvl;
      }
      if level <= ref.level {
        return None;
      }
      if step.tokenCount / 2 < 2000 {
        return None;
      }
      return Some(level);
    }

    method Candidates() returns (targets: map<int, int>)
      ensures targets == TargetsOf(ActiveIds(store.refs), store.steps, store.refs, cfg)
    {
      var ids := store.AllActiveStepIDs();
      targets := map[];
      for i := 0 to |ids|
        invariant targets == TargetsOf(ids[..i], store.steps, store.refs, cfg)
      {
        TargetsNext(ids, i, store.steps, store.refs, cfg, targets);
        var target := Candidate(ids[i], |ids|);
        if target.Some? {
          targets := targets[ids[i] := target.value];
        }
      }
      assert ids[..|ids|] == ids;
    }

    /** What was compressed is what the step is rendered with afterwards, at the level
        that its record then has; `compressed` and the mask in its first line are what
        the model gave, if nothing else happened meanwhile.  At level 4 it is not
        rendered at all. */
    method CompressStepInBatch(stepId: int, targetLevel: int, compressed: string, mask: string) returns (ok: bool)
      modifies store`refs, store`l1, store`l2, store`l3
      ensures ok <==> stepId in old(store.refs) && stepId in store.steps
      ensures !ok ==> store.refs == old(store.refs) && store.TextsNow() == old(store.TextsNow())
      ensures ok ==> store.refs == old(store.refs)[stepId := old(store.refs)[stepId].(level := targetLevel)]
      ensures ok && targetLevel > 3 ==> Fresh(store.TextsNow(), stepId, targetLevel) == None
      ensures ok && 1 <= targetLevel <= 3 ==>
                Fresh(store.TextsNow(), stepId, targetLevel) ==
                Some(RenderBlock(Marker, stepId, targetLevel, if targetLevel == 3 then mask else compressed,
                                 store.steps[stepId].kind))
      ensures ok ==> store.TextsNow() == Compressing(old(store.TextsNow()), stepId, targetLevel, compressed, mask)
    {
      if stepId !in store.refs {
        return false;
      }
      var ref := store.refs[stepId];
      if stepId !in store.steps {
        return false;
      }
      LinesJoined(compressed);
      if targetLevel == 1 {
        store.l1 := store.l1[stepId := compressed];
      } else if targetLevel == 2 {
        store.l2 := store.l2[stepId := Lines(compressed)];
      } else if targetLevel == 3 {
        store.l2 := store.l2[stepId := Lines(compressed)];
        store.l3 := store.l3[stepId := mask];
      }
      store.refs := store.refs[stepId := ref.(level := targetLevel)];
      return true;
    }
  }

  lemma InFront(ids: seq<int>, i: nat, n: nat)
    requires Ascending(ids) && i < |ids| && n <= |ids|
    ensures ids[i] in ids[..n] <==> i < n
  {
    if i < n {
      assert ids[..n][i] == ids[i];
    }
  }

  /** The lists hold the steps of `ids`, each in the list of its group. */
  ghost predicate Grouped(groups: map<int, seq<int>>, refs: Refs, ids: set<int>) {
    && (forall id | id in ids && id in refs :: refs[id].taskGroupId in groups && id in groups[refs[id].taskGroupId])
    && (forall group, j | group in groups && 0 <= j < |groups[group]| :: OfGroup(refs, groups[group][j], group))
  }

  predicate OfGroup(refs: Refs, id: int, group: int) {
    id in refs && refs[id].taskGroupId == group
  }

  lemma GroupedNext(groups: map<int, seq<int>>, refs: Refs, ids: set<int>, id: int)
    requires Grouped(groups, refs, ids) && id in refs
    ensures var group := refs[id].taskGroupId;
            Grouped(groups[group := (if group in groups then groups[group] else []) + [id]], refs, ids + {id})
  {
    var group := refs[id].taskGroupId;
    var more := groups[group := (if group in groups then groups[group] else []) + [id]];
    assert id in more[group];
    forall g, j | g in more && 0 <= j < |more[g]| ensures OfGroup(refs, more[g][j], g) {
      if g != group || j < |more[g]| - 1 {
        assert OfGroup(refs, groups[g][j], g);
      }
    }
  }

  /** The records once every task group outside `left` has been dealt with. */
  function ArchivedBut(refs: Refs, left: set<int>): Refs {
    map id | id in refs && (refs[id].taskGroupId in left || !Archived(refs, refs[id].taskGroupId)) :: refs[id]
  }

  lemma AllGroups(groups: map<int, seq<int>>, refs: Refs)
    requires Grouped(groups, refs, refs.Keys)
    ensures ArchivedBut(refs, groups.Keys) == refs
  {
    forall id | id in refs ensures refs[id].taskGroupId in groups.Keys {
    }
    assert ArchivedBut(refs, groups.Keys).Keys == refs.Keys;
  }

  lemma GroupStillThere(groups: map<int, seq<int>>, refs: Refs, left: set<int>, group: int)
    requires Grouped(groups, refs, refs.Keys) && group in left && left <= groups.Keys
    ensures forall j | 0 <= j < |groups[group]| :: groups[group][j] in ArchivedBut(refs, left)
  {
    forall j | 0 <= j < |groups[group]| ensures groups[group][j] in ArchivedBut(refs, left) {
      assert OfGroup(refs, groups[group][j], group);
    }
  }

  lemma EligibleIsArchived(groups: map<int, seq<int>>, refs: Refs, left: set<int>, group: int)
    requires Grouped(groups, refs, refs.Keys) && group in left && left <= groups.Keys
    requires forall j | 0 <= j < |groups[group]| :: groups[group][j] in ArchivedBut(refs, left)
    ensures (forall j | 0 <= j < |groups[group]| :: Settled(ArchivedBut(refs, left)[groups[group][j]])) <==>
            Archived(refs, group)
  {
    if Archived(refs, group) {
      forall j | 0 <= j < |groups[group]| ensures Settled(ArchivedBut(refs, left)[groups[group][j]]) {
        assert OfGroup(refs, groups[group][j], group);
      }
    } else {
      var id :| id in refs && refs[id].taskGroupId == group && !Settled(refs[id]);
      assert id in groups[group];
      var j :| 0 <= j < |groups[group]| && groups[group][j] == id;
    }
  }

  lemma GroupDone(groups: map<int, seq<int>>, refs: Refs, left: set<int>, group: int, archived: bool)
    requires Grouped(groups, refs, refs.Keys) && group in groups && group !in left
    requires archived <==> Archived(refs, group)
    ensures var now := ArchivedBut(refs, left + {group});
            ArchivedBut(refs, left) == if archived then Minus(now, groups[group]) else now
  {
    var now := ArchivedBut(refs, left + {group});
    if archived {
      forall id | id in refs ensures id in groups[group] <==> refs[id].taskGroupId == group {
        if id in groups[group] {
          var j :| 0 <= j < |groups[group]| && groups[group][j] == id;
          assert OfGroup(refs, groups[group][j], group);
        }
      }
    }
  }
}
