/** What the passes over the records ask for, exactly: which level a record is at
    afterwards, told from the tokens, the thresholds and the record before. */
module Levels {
  import opened Wrappers
  import opened Records
  import opened Reals
  import opened Decay
  import opened Compression
  import opened CompressionRuns

  // -------------------------------------------------------------- the pressure

  predicate AllSet(cfg: DecayConfig) {
    && NonNegative(cfg) && cfg == Filled(cfg)
  }

  /** The pressure in one formula, for a configuration without zeros, which stand for
      defaults. */
  lemma PressureIs(ref: RefRecord, raw: nat, fileActive: bool, group: int, cfg: DecayConfig)
    requires AllSet(cfg)
    ensures var g, h, distance := cfg.group, cfg.heat, group - ref.taskGroupId;
            var references := Over(1.0, 1.0 + Times(ref.refCount as real, cfg.refModWeight));
            var file := if fileActive then cfg.fileModWeight else 1.0;
            var share := Over(ref.strength, cfg.strengthDivisor);
            var strength := if share < 0.1 then 0.1 else share;
            var ageing := if g.enabled && distance > 0
                          then 1.0 + Over(Times(g.distanceW, distance as real),
                                          1.0 + Times(g.crossRefW, ref.crossGroupRefs as real))
                          else 1.0;
            var heat := if !h.enabled || ref.heat == 0 then 1.0
                        else if ref.heat >= h.sigZoneMin then h.sigMod
                        else if ref.heat < h.unsettledMin then h.decayMod
                        else 1.0;
            var tokens := Times(cfg.rawDecayBase, raw as real);
            ComputeDecay(ref, raw, fileActive, group, cfg) ==
            Times(Times(Over(Times(Times(tokens, references), file), strength), ageing), heat)
  {
    GroupFactor(ref.taskGroupId, group, ref.crossGroupRefs, cfg.group);
  }

  lemma GroupFactor(refGroup: int, group: int, crossRefs: nat, g: GroupModConfig)
    requires g == FilledGroup(g) && g.crossRefW >= 0.0
    ensures var distance := group - refGroup;
            CrossGroupMod(refGroup, group, crossRefs, g) ==
            if g.enabled && distance > 0
            then 1.0 + Over(Times(g.distanceW, distance as real), 1.0 + Times(g.crossRefW, crossRefs as real))
            else 1.0
  {
    if g.enabled && group < refGroup {
      TimesOne(g.distanceW);
      OverIs(0.0, 1.0 + Times(g.crossRefW, crossRefs as real), 0.0);
    }
  }

  // ------------------------------------------------------------- the thresholds

  /** The pressure reaches the threshold of the level or of a higher one that the type
      allows. */
  predicate Reached(pressure: real, kind: StepType, level: int, t: ThresholdConfig) {
    exists l | level <= l <= MaxLevelForType(kind) :: pressure >= Threshold(kind, l, t) as real
  }

  lemma ReachedIff(pressure: real, kind: StepType, level: int, t: ThresholdConfig)
    requires level >= 1
    ensures TargetLevel(pressure, kind, t) >= level <==> Reached(pressure, kind, level, t)
  {
    TargetIsHighestReached(pressure, kind, t);
    TargetWithinCap(pressure, kind, t);
    var l := TargetLevel(pressure, kind, t);
    if l >= level {
      assert level <= l <= MaxLevelForType(kind) && pressure >= Threshold(kind, l, t) as real;
    }
  }

  /** The user's own words are shortened at most, results hidden, and the rest can be
      discarded. */
  lemma CapsAre(name: string)
    ensures MaxLevelForType(User) == 2 && MaxLevelForType(Tool) == 3 && MaxLevelForType(Other(name)) == 3
    ensures forall kind | kind in {Reasoning, Plan, Failed} :: MaxLevelForType(kind) == 4
    ensures forall kind :: Discardable(kind) <==> MaxLevelForType(kind) == 4
  {
  }

  // ------------------------------------------------------------------ the tokens

  /** The numbers of the stored steps of a range. */
  function Stored(steps: Steps, first: int, last: int): set<int> {
    set id | id in steps && first <= id <= last
  }

  function StoredTokens(steps: Steps, first: int, last: int): nat {
    TotalTokens(steps, SortedIds(Stored(steps, first, last)))
  }

  lemma {:induction false} TotalFirst(steps: Steps, id: int, ids: seq<int>)
    ensures TotalTokens(steps, [id] + ids) == TotalTokens(steps, ids) + if id in steps then steps[id].tokenCount else 0
  {
    if ids == [] {
      assert [id][..0] == [];
    } else {
      TotalFirst(steps, id, ids[..|ids| - 1]);
      assert ([id] + ids)[..|ids|] == [id] + ids[..|ids| - 1];
    }
  }

  lemma StoredFirst(steps: Steps, first: int, last: int, next: int)
    requires first <= last && next == first + 1
    ensures StoredTokens(steps, first, last) ==
            StoredTokens(steps, next, last) + if first in steps then steps[first].tokenCount else 0
  {
    var all, rest := Stored(steps, first, last), Stored(steps, next, last);
    if first in steps {
      assert first in all;
      assert all - {first} == rest && Least(all) == first;
      TotalFirst(steps, first, SortedIds(rest));
    } else {
      assert all == rest;
    }
  }

  /** The tokens of a range are those of the stored steps in it, each once. */
  lemma {:induction false} SumIsStored(steps: Steps, first: int, last: int)
    ensures SumTokens(Tokens(steps), first, last) == StoredTokens(steps, first, last)
    decreases last - first
  {
    if first <= last {
      SumIsStored(steps, first + 1, last);
      StoredFirst(steps, first, last, first + 1);
    } else {
      assert Stored(steps, first, last) == {};
    }
  }

  // ------------------------------------------------- which pass a step of a run makes

  /** A step of a run makes the pass that it is named for over the records, and nothing
      else. */
  lemma PassesAre(s: State, group: int, cfg: Config, aggressive: bool)
    requires NonNegative(cfg.decay)
    ensures Step(s, CompressOp, group, cfg) == s.(refs := BatchCompression(s.steps, s.refs, s.current, group, cfg))
    ensures Step(s, ReorganizeOp(aggressive), group, cfg) ==
            s.(refs := MechanicalReorganization(s.steps, s.refs, s.current, aggressive, cfg))
    ensures Step(s, EmergencyOp, group, cfg) == s.(refs := EmergencyIntrospection(s.steps, s.refs, cfg))
  {
  }

  lemma IdlePassesAre(s: State, group: int, cfg: Config, cited: seq<int>)
    requires NonNegative(cfg.decay)
    ensures Step(s, ConsolidateOp, group, cfg) == s.(refs := IdleConsolidation(s.steps, s.refs))
    ensures Step(s, DiscardPendingOp, group, cfg) == s.(refs := PendingDiscarded(s.refs))
    ensures Step(s, CiteOp(cited), group, cfg) == s.(refs := CitedRefs(s.refs, cited, s.current, group, cfg))
  {
  }

  lemma RemovingPassesAre(s: State, group: int, cfg: Config, round: int)
    requires NonNegative(cfg.decay)
    ensures Step(s, CleanupOp, group, cfg) == s.(refs := L4Cleanup(s.steps, s.refs))
    ensures Step(s, ArchiveOp, group, cfg) == s.(refs := ArchiveTaskGroups(s.refs))
    ensures Step(s, ClearTransientsOp(round), group, cfg) == s.(refs := ClearedTransients(s.steps, s.refs, round))
  {
  }

  /** A writer of the engine that found nothing to pick is done; one that shares its
      record with the store holds what the store has. */
  lemma WritersAre(s: State, writer: nat, id: int, group: int, cfg: Config)
    requires NonNegative(cfg.decay)
    ensures var chosen := Step(s, ChooseOp(writer, id), group, cfg);
            && chosen == s.(late := chosen.late)
            && (writer in chosen.late <==> EngineTarget(s.steps, s.refs, id, cfg).Some?)
            && (writer in chosen.late ==>
                  chosen.late[writer] == Chosen(id, EngineTarget(s.steps, s.refs, id, cfg).value))
            && (forall w | w != writer :: (w in chosen.late <==> w in s.late) && (w in s.late ==> chosen.late[w] == s.late[w]))
    ensures writer in s.late && s.late[writer].Held? && s.late[writer].ref.stepId in s.refs ==>
              var shared := Step(s, ShareOp(writer), group, cfg);
              && shared == s.(late := shared.late) && shared.late.Keys == s.late.Keys
              && shared.late[writer] == Held(s.refs[s.late[writer].ref.stepId], s.late[writer].target)
  {
  }

  // -------------------------------------------------------- batch compression

  /** Batch compression takes a record to a level or beyond exactly if it was there
      already, or it is not locked, below the cap of its type, and the pressure of all
      tokens stored reaches the threshold of a level from that one up to the cap. */
  lemma CompressedIff(steps: Steps, refs: Refs, current: int, group: int, cfg: Config, id: int, level: int)
    requires NonNegative(cfg.decay) && id in refs && level >= 1
    ensures var before, after := refs[id], BatchCompression(steps, refs, current, group, cfg)[id];
            var kind, pressure := KindOf(steps, id), ComputeDecay(before, StoredTokens(steps, 0, current), false, group,
                                                                  cfg.decay);
            && after == before.(level := after.level)
            && (after.level >= level <==>
                  before.level >= level ||
                  (!before.lockL0 && before.level < MaxLevelForType(kind) && Reached(pressure, kind, level, cfg.thresholds)))
  {
    SumIsStored(steps, 0, current);
    var pressure := ComputeDecay(refs[id], StoredTokens(steps, 0, current), false, group, cfg.decay);
    TargetWithinCap(pressure, KindOf(steps, id), cfg.thresholds);
    ReachedIff(pressure, KindOf(steps, id), level, cfg.thresholds);
  }

  /** So what rises has reached the threshold of the level it is then at. */
  lemma RisenReached(steps: Steps, refs: Refs, current: int, group: int, cfg: Config, id: int)
    requires NonNegative(cfg.decay) && id in refs && refs[id].level >= 0
    ensures var before, after := refs[id], BatchCompression(steps, refs, current, group, cfg)[id];
            after.level > before.level ==>
              ComputeDecay(before, StoredTokens(steps, 0, current), false, group, cfg.decay) >=
              Threshold(KindOf(steps, id), after.level, cfg.thresholds) as real
  {
    SumIsStored(steps, 0, current);
    var pressure := ComputeDecay(refs[id], StoredTokens(steps, 0, current), false, group, cfg.decay);
    TargetWithinCap(pressure, KindOf(steps, id), cfg.thresholds);
    TargetIsHighestReached(pressure, KindOf(steps, id), cfg.thresholds);
  }

  // ------------------------------------------------------------ per-step decay

  /** The tokens that came after the last citation of a record, or with `current` if
      there was none. */
  function TokensSince(steps: Steps, ref: RefRecord, current: int): nat {
    StoredTokens(steps, if ref.lastRefAtStep.Some? then ref.lastRefAtStep.value + 1 else current, current)
  }

  /** The same of per-step decay, which leaves the newest step, the locked ones and those
      at level 3 alone, and counts the tokens since the last citation. */
  lemma DecayedIff(steps: Steps, refs: Refs, current: int, group: int, cfg: Config, id: int, level: int)
    requires NonNegative(cfg.decay) && id in refs && level >= 1
    ensures var before, after := refs[id], PerStepDecay(steps, refs, current, group, cfg)[id];
            var kind, pressure := KindOf(steps, id), ComputeDecay(before, TokensSince(steps, before, current), false, group,
                                                                  cfg.decay);
            && after == before.(level := after.level)
            && (after.level >= level <==>
                  before.level >= level ||
                  (id != current && !before.lockL0 && before.level < 3 && Reached(pressure, kind, level, cfg.thresholds)))
  {
    var ref := refs[id];
    SumIsStored(steps, if ref.lastRefAtStep.Some? then ref.lastRefAtStep.value + 1 else current, current);
    var pressure := ComputeDecay(ref, TokensSince(steps, ref, current), false, group, cfg.decay);
    TargetWithinCap(pressure, KindOf(steps, id), cfg.thresholds);
    ReachedIff(pressure, KindOf(steps, id), level, cfg.thresholds);
  }

  /** An ingestion lets the others decay exactly if no budget is set, or the tokens of
      the active steps have come up to it; either way the new step is at level 0. */
  lemma IngestionIs(s: State, step: StepRecord, sweetSpotTokens: int, group: int, cfg: Config)
    requires NonNegative(cfg.decay) && s.current + 1 !in s.refs && s.current + 1 !in s.steps
    ensures var after, id := Ingested(s, step, sweetSpotTokens, group, cfg), s.current + 1;
            var refs := s.refs[id := RefRecord(id, 0, 0, None, 1.0, group, 0, 0, false, false)];
            && after.current == id && after.late == s.late && after.steps == s.steps[id := step.(stepId := id)]
            && after.refs.Keys == refs.Keys && after.refs[id] == refs[id]
            && after.refs == if sweetSpotTokens <= 0 || TotalTokens(after.steps, SortedIds(refs.Keys)) >= sweetSpotTokens
                             then PerStepDecay(after.steps, refs, id, group, cfg)
                             else refs
  {
  }

  // ------------------------------------------------- mechanical reorganisation

  /** How many of the newest numbers a reorganisation leaves alone. */
  function Retained(active: nat, cfg: Config): int {
    if cfg.retainTokens > 0 then cfg.retainTokens
    else
      var ratio := if cfg.retainRatio <= 0.0 then 0.16 else cfg.retainRatio;
      var share := (active as real * ratio).Floor;
      if share > 1 then share else 1
  }

  /** It passes over that: when told to, or with too many tokens among the active
      steps. */
  predicate PassesOver(steps: Steps, refs: Refs, aggressive: bool, cfg: Config) {
    aggressive || 0 < cfg.overflowCapTokens < TotalTokens(steps, SortedIds(refs.Keys))
  }

  /** What a reorganisation weighs: tokens over the references' discount and the
      strength. */
  function Weight(raw: nat, ref: RefRecord): real {
    Over(Times(raw as real, Over(1.0, 1.0 + Times(ref.refCount as real, 0.2))),
         if ref.strength < 0.1 then 0.1 else ref.strength)
  }

  lemma WeightIs(raw: nat, ref: RefRecord)
    ensures ComputeDecay(ref, raw, false, ref.taskGroupId, ZERO) == Weight(raw, ref)
  {
    var t := Trace(ref, raw, false, ref.taskGroupId, ZERO);
    assert t.rawBase == 1.0 && t.fileMod == 1.0 && t.groupMod == 1.0 && t.heatMod == 1.0;
    OverIs(ref.strength, 1.0, ref.strength);
    TimesOne(ref.strength);
    TimesOne(raw as real);
    TimesOne(Times(raw as real, t.refMod));
    TimesOne(Over(Times(raw as real, t.refMod), t.strength));
  }

  /** What the tables ask for at that weight. */
  lemma WeighedTarget(raw: nat, ref: RefRecord, kind: StepType, t: ThresholdConfig)
    ensures DecayedTarget(ref, raw, kind, ref.taskGroupId, ZERO, t) == TargetLevel(Weight(raw, ref), kind, t)
  {
    WeightIs(raw, ref);
    TargetWithinCap(Weight(raw, ref), kind, t);
  }

  lemma ReorganizedOne(steps: Steps, active: nat, first: int, ignoreTail: bool, cfg: Config, id: int, ref: RefRecord,
                       level: int)
    requires level >= 1
    ensures var after := Reorganized(steps, active, first, ignoreTail, cfg, id, ref);
            && after == ref.(level := after.level)
            && (after.level >= level <==>
                  ref.level >= level ||
                  (&& id in steps && !ref.lockL0 && ref.level < MaxLevelForType(steps[id].kind)
                   && (ignoreTail || id < first)
                   && Reached(Weight(steps[id].tokenCount * active, ref), steps[id].kind, level, cfg.thresholds)))
  {
    if id in steps {
      WeighedTarget(steps[id].tokenCount * active, ref, steps[id].kind, cfg.thresholds);
      ReachedIff(Weight(steps[id].tokenCount * active, ref), steps[id].kind, level, cfg.thresholds);
    }
  }

  lemma RetainedIs(steps: Steps, refs: Refs, current: int, aggressive: bool, cfg: Config)
    ensures |ActiveIds(refs)| == |refs|
    ensures TailFirst(refs, current, cfg) == current - Retained(|refs|, cfg) + 1
    ensures IgnoresTail(steps, refs, aggressive, cfg) <==> PassesOver(steps, refs, aggressive, cfg)
  {
    SortedIdsAscend(refs.Keys);
    RetainsAsMany(|refs|, cfg);
  }

  lemma RetainsAsMany(active: nat, cfg: Config)
    ensures RetainTailSteps(active, cfg) == Retained(active, cfg)
  {
  }

  /** The same of a mechanical reorganisation: for stored steps, of which the newest
      numbers are left alone unless they are passed over. */
  lemma ReorganizedIff(steps: Steps, refs: Refs, current: int, aggressive: bool, cfg: Config, id: int, level: int)
    requires id in refs && level >= 1
    ensures var before, after := refs[id], MechanicalReorganization(steps, refs, current, aggressive, cfg)[id];
            && after == before.(level := after.level)
            && (after.level >= level <==>
                  before.level >= level ||
                  (&& id in steps && !before.lockL0 && before.level < MaxLevelForType(steps[id].kind)
                   && (PassesOver(steps, refs, aggressive, cfg) || id <= current - Retained(|refs|, cfg))
                   && Reached(Weight(steps[id].tokenCount * |refs|, before), steps[id].kind, level, cfg.thresholds)))
  {
    RetainedIs(steps, refs, current, aggressive, cfg);
    ReorganizedOne(steps, |refs|, TailFirst(refs, current, cfg), IgnoresTail(steps, refs, aggressive, cfg), cfg, id,
                   refs[id], level);
  }

  // -------------------------------------------------- in front of the tail

  /** The active steps with higher numbers. */
  function Later(refs: Refs, id: int): set<int> {
    set x | x in refs && x > id
  }

  lemma {:induction false} LaterCount(ids: seq<int>, p: nat)
    requires Ascending(ids) && p <= |ids|
    ensures |set i | p <= i < |ids| :: ids[i]| == |ids| - p
    decreases |ids| - p
  {
    var all := set i | p <= i < |ids| :: ids[i];
    if p < |ids| {
      LaterCount(ids, p + 1);
      var rest := set i | p + 1 <= i < |ids| :: ids[i];
      assert all == rest + {ids[p]};
    } else {
      assert all == {};
    }
  }

  /** A step is in front of the tail exactly if at least as many active steps as are
      kept come after it. */
  lemma BeforeTailIff(refs: Refs, tailKeepSteps: nat, id: int)
    ensures id in BeforeTail(ActiveIds(refs), tailKeepSteps) <==> id in refs && |Later(refs, id)| >= tailKeepSteps
  {
    var ids := ActiveIds(refs);
    SortedIdsAscend(refs.Keys);
    if id in refs {
      var p :| 0 <= p < |ids| && ids[p] == id;
      LaterCount(ids, p + 1);
      LaterAre(refs, ids, p);
      if p < |ids| - tailKeepSteps {
        assert BeforeTail(ids, tailKeepSteps)[p] == id;
      }
    }
  }

  lemma LaterAre(refs: Refs, ids: seq<int>, p: nat)
    requires Ascending(ids) && p < |ids| && forall x :: x in ids <==> x in refs
    ensures Later(refs, ids[p]) == set i | p + 1 <= i < |ids| :: ids[i]
  {
    forall x | x in Later(refs, ids[p]) ensures exists i :: p + 1 <= i < |ids| && ids[i] == x {
      var i :| 0 <= i < |ids| && ids[i] == x;
      assert i > p;
    }
    forall i | p + 1 <= i < |ids| ensures ids[i] in Later(refs, ids[p]) {
      assert ids[i] in ids;
    }
  }

  predicate InFront(refs: Refs, id: int, tailKeepSteps: nat) {
    id in refs && |Later(refs, id)| >= tailKeepSteps
  }

  /** Emergency introspection takes the stored steps in front of the tail one level up,
      to 3 and to the cap of their type at most. */
  lemma UrgedIs(steps: Steps, refs: Refs, cfg: Config, id: int)
    requires id in refs
    ensures var before, after := refs[id], EmergencyIntrospection(steps, refs, cfg)[id];
            after == if InFront(refs, id, cfg.tailKeepSteps) && id in steps && before.level < 3
                        && before.level < MaxLevelForType(steps[id].kind)
                     then before.(level := before.level + 1) else before
  {
    BeforeTailIff(refs, cfg.tailKeepSteps, id);
  }

  /** The warm-up takes those at level 0 to level 1. */
  lemma WarmedIs(refs: Refs, tailKeepSteps: nat, id: int)
    requires id in refs && refs[id].level >= 0
    ensures WarmedUp(refs, tailKeepSteps)[id] ==
            if InFront(refs, id, tailKeepSteps) && refs[id].level == 0 then refs[id].(level := 1) else refs[id]
  {
    BeforeTailIff(refs, tailKeepSteps, id);
  }

  /** It is started from a share of the budget on. */
  lemma WarmupIff(total: nat, sweetSpotTokens: int, ratio: real)
    ensures WarmupStarts(total, sweetSpotTokens, ratio) <==>
            sweetSpotTokens > 0 && total as real >= Times(ratio, sweetSpotTokens as real)
  {
    if sweetSpotTokens > 0 {
      OverTimes(total as real, sweetSpotTokens as real);
      TimesOrder(ratio, Over(total as real, sweetSpotTokens as real), sweetSpotTokens as real);
    }
  }

  // ------------------------------------------------------------- the removals

  predicate Masked(ref: RefRecord) {
    ref.level >= 3 && ref.refCount == 0
  }

  /** Global introspection keeps a step exactly if it is not masked and uncited, or else
      its type cannot be discarded and it was not marked for it, and its task group has
      another one left that is not masked and uncited. */
  lemma KeptByIntrospectionIff(steps: Steps, refs: Refs, id: int)
    requires id in refs && forall x | x in refs :: x in steps
    ensures var left := ArchiveTaskGroups(L4Cleanup(steps, refs));
            (id in left <==>
               || !Masked(refs[id])
               || (&& steps[id].kind !in {Reasoning, Plan, Failed} && !refs[id].pendingL4
                   && exists x :: x in refs && refs[x].taskGroupId == refs[id].taskGroupId && !Masked(refs[x])))
            && (id in left ==> left[id] == refs[id])
  {
    var cleaned := L4Cleanup(steps, refs);
    if x :| x in refs && refs[x].taskGroupId == refs[id].taskGroupId && !Masked(refs[x]) {
      assert x in cleaned && !Settled(cleaned[x]);
    }
  }

  /** The two steps of it, each on its own. */
  lemma RemovedIff(steps: Steps, refs: Refs, id: int)
    requires id in refs
    ensures id !in L4Cleanup(steps, refs) <==>
            Masked(refs[id]) && id in steps && (steps[id].kind in {Reasoning, Plan, Failed} || refs[id].pendingL4)
    ensures id !in ArchiveTaskGroups(refs) <==>
            forall x | x in refs && refs[x].taskGroupId == refs[id].taskGroupId :: Masked(refs[x])
    ensures id in L4Cleanup(steps, refs) ==> L4Cleanup(steps, refs)[id] == refs[id]
    ensures id in ArchiveTaskGroups(refs) ==> ArchiveTaskGroups(refs)[id] == refs[id]
  {
  }

  /** Idle consolidation strengthens what was cited, and marks what is masked, uncited
      and of a type that can be discarded; what is marked is what the idle path discards
      later, and transient steps go after the round that they were marked in. */
  lemma IdleIs(steps: Steps, refs: Refs, round: int, id: int)
    requires id in refs
    ensures var before, after := refs[id], IdleConsolidation(steps, refs)[id];
            after == before.(strength := before.strength + (if before.refCount > 0 then 0.05 else 0.0),
                             pendingL4 := before.pendingL4 ||
                                          (Masked(before) && id in steps && steps[id].kind in {Reasoning, Plan, Failed}))
    ensures id in PendingDiscarded(refs) <==> !refs[id].pendingL4
    ensures id in ClearedTransients(steps, refs, round) <==>
            !(id in steps && steps[id].transient && steps[id].transientRound < round)
    ensures id in PendingDiscarded(refs) ==> PendingDiscarded(refs)[id] == refs[id]
    ensures id in ClearedTransients(steps, refs, round) ==> ClearedTransients(steps, refs, round)[id] == refs[id]
  {
  }

  /** A step that was marked transient in one round goes with the clearing of the next or
      a later one, and not with an earlier; nothing else changes when it is marked. */
  lemma MarkedThenCleared(s: State, id: int, round: int, later: int, group: int, cfg: Config)
    requires NonNegative(cfg.decay) && id in s.steps && id in s.refs
    ensures var marked := Step(s, MarkTransientOp(id, round), group, cfg);
            && id in marked.refs && marked == s.(steps := marked.steps) && marked.steps.Keys == s.steps.Keys
            && (forall x | x in s.steps && x != id :: marked.steps[x] == s.steps[x])
            && marked.steps[id].content == s.steps[id].content && marked.steps[id].kind == s.steps[id].kind
            && marked.steps[id].tokenCount == s.steps[id].tokenCount
            && (id in Step(marked, ClearTransientsOp(later), group, cfg).refs <==> later <= round)
  {
  }

  // ------------------------------------------------------------- the citations

  function HeatAfter(heat: int, boost: int, n: nat): int {
    if heat + n * boost > 100 then 100 else heat + n * boost
  }

  /** What the citations of one output do to a record: `n` of them name it. */
  predicate CitedTimes(before: RefRecord, after: RefRecord, n: nat, current: int, group: int, cfg: DecayConfig) {
    && after == before.(refCount := before.refCount + n, strength := before.strength + 0.1 * n as real,
                        lastRefAtStep := if n == 0 then before.lastRefAtStep else Some(current),
                        heat := after.heat, crossGroupRefs := after.crossGroupRefs)
    && after.crossGroupRefs == before.crossGroupRefs + (if cfg.heat.enabled && before.taskGroupId != group then n else 0)
    && after.heat == if !cfg.heat.enabled then before.heat
                     else HeatAfter(before.heat, FilledHeat(cfg.heat).recallBoost, n)
  }

  lemma CitedNext(before: RefRecord, ref: RefRecord, n: nat, next: nat, current: int, group: int, cfg: DecayConfig)
    requires CitedTimes(before, ref, n, current, group, cfg) && next == n + 1
    requires before.heat <= 100 && FilledHeat(cfg.heat).recallBoost >= 0
    ensures CitedTimes(before, Cited(ref, current, group, cfg), next, current, group, cfg)
  {
    assert next * FilledHeat(cfg.heat).recallBoost == n * FilledHeat(cfg.heat).recallBoost + FilledHeat(cfg.heat).recallBoost;
  }

  /** Each citation counts for the step it names, with its reference, its strength and
      its heat, and for no other step. */
  lemma {:induction false} CitationsCount(refs: Refs, cited: seq<int>, current: int, group: int, cfg: Config, id: int)
    requires id in refs && refs[id].heat <= 100 && FilledHeat(cfg.decay.heat).recallBoost >= 0
    ensures var after := CitedRefs(refs, cited, current, group, cfg);
            && after.Keys == refs.Keys
            && CitedTimes(refs[id], after[id], if id > 0 then multiset(cited)[id] else 0, current, group, cfg.decay)
  {
    if cited == [] {
      assert CitedTimes(refs[id], refs[id], 0, current, group, cfg.decay);
    } else {
      var before, x := cited[..|cited| - 1], cited[|cited| - 1];
      CitationsCount(refs, before, current, group, cfg, id);
      assert cited == before + [x];
      if x == id && id > 0 {
        CitedNext(refs[id], CitedRefs(refs, before, current, group, cfg)[id], multiset(before)[id], multiset(cited)[id],
                  current, group, cfg.decay);
      }
    }
  }

  /** An expansion is one reference more, without heat. */
  lemma ExpansionIs(ref: RefRecord, current: int)
    ensures Expanded(ref, current) ==
            ref.(refCount := ref.refCount + 1, strength := ref.strength + 0.1, lastRefAtStep := Some(current))
  {
  }

  // ---------------------------------------------------------------- the engine

  /** The engine picks a stored step of 4000 tokens or more, neither locked nor at its
      cap, exactly if its weight reaches a level above its own, and for the highest
      such level. */
  lemma EnginePicksIff(steps: Steps, refs: Refs, id: int, cfg: Config)
    requires id in refs && id in steps && refs[id].level >= 0
    ensures var ref, kind, target := refs[id], steps[id].kind, EngineTarget(steps, refs, id, cfg);
            var weight := Weight(steps[id].tokenCount * |refs|, ref);
            && (target.Some? <==> !ref.lockL0 && ref.level < MaxLevelForType(kind) && steps[id].tokenCount >= 4000
                                  && Reached(weight, kind, ref.level + 1, cfg.thresholds))
            && (target.Some? ==> && ref.level < target.value <= MaxLevelForType(kind)
                                 && weight >= Threshold(kind, target.value, cfg.thresholds) as real
                                 && !Reached(weight, kind, target.value + 1, cfg.thresholds))
  {
    var ref, kind, weight := refs[id], steps[id].kind, Weight(steps[id].tokenCount * |refs|, refs[id]);
    SortedIdsAscend(refs.Keys);
    WeighedTarget(steps[id].tokenCount * |refs|, ref, kind, cfg.thresholds);
    HighestReached(weight, kind, ref.level, cfg.thresholds);
  }

  lemma HighestReached(weight: real, kind: StepType, level: int, t: ThresholdConfig)
    requires level >= 0
    ensures var target := TargetLevel(weight, kind, t);
            && (target > level <==> Reached(weight, kind, level + 1, t))
            && (target > level ==> && target <= MaxLevelForType(kind) && weight >= Threshold(kind, target, t) as real
                                   && !Reached(weight, kind, target + 1, t))
  {
    TargetWithinCap(weight, kind, t);
    TargetIsHighestReached(weight, kind, t);
    ReachedIff(weight, kind, level + 1, t);
    ReachedIff(weight, kind, TargetLevel(weight, kind, t) + 1, t);
  }
}
