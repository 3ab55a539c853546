/** What each mutator of the compression engine does to the reference records, as
    functions on values. */
module Compression {
  import opened Wrappers
  import opened Records
  import opened Reals
  import opened Decay

  datatype Config = Config(decay: DecayConfig, thresholds: ThresholdConfig, tailKeepSteps: nat, retainRatio: real,
                           retainTokens: int, overflowCapTokens: int)

  type Steps = map<int, StepRecord>
  type Refs = map<int, RefRecord>

  // --------------------------------------------------------- reading the store

  lemma SomeId(ids: set<int>)
    ensures ids == {} || exists m :: m in ids
  {
    if forall m :: m !in ids {
      assert ids == {};
    }
  }

  lemma {:induction false} LeastExists(ids: set<int>, m: int)
    requires m in ids
    ensures exists least :: least in ids && forall x | x in ids :: least <= x
  {
    if n :| n in ids && n < m {
      LeastExists(ids - {m}, n);
      var least :| least in ids - {m} && forall x | x in ids - {m} :: least <= x;
      assert forall x | x in ids :: x == m || x in ids - {m};
      assert least in ids && forall x | x in ids :: least <= x;
    }
  }

  function Least(ids: set<int>): (least: int)
    requires ids != {}
    ensures least in ids && forall x | x in ids :: least <= x
  {
    SomeId(ids);
    assert exists least :: least in ids && forall x | x in ids :: least <= x by {
      var m :| m in ids;
      LeastExists(ids, m);
    }
    var least :| least in ids && forall x | x in ids :: least <= x;
    least
  }

  /** The identifiers in ascending order. */
  function SortedIds(ids: set<int>): seq<int> {
    if ids == {} then [] else [Least(ids)] + SortedIds(ids - {Least(ids)})
  }

  predicate Ascending(list: seq<int>) {
    forall i, j | 0 <= i < j < |list| :: list[i] < list[j]
  }

  lemma {:induction false} SortedIdsAscend(ids: set<int>)
    ensures var sorted := SortedIds(ids);
            (forall x :: x in sorted <==> x in ids) && Ascending(sorted) && |sorted| == |ids|
  {
    if ids != {} {
      SortedIdsAscend(ids - {Least(ids)});
      AscendingPushed(Least(ids), SortedIds(ids - {Least(ids)}));
    }
  }

  lemma AscendingPushed(x: int, list: seq<int>)
    requires Ascending(list) && forall y | y in list :: x < y
    ensures Ascending([x] + list)
  {
    forall i, j | 0 <= i < j < |list| + 1 ensures ([x] + list)[i] < ([x] + list)[j] {
      assert list[j - 1] in list;
    }
  }

  function ActiveIds(refs: Refs): seq<int> {
    SortedIds(refs.Keys)
  }

  function KindOf(steps: Steps, id: int): StepType {
    if id in steps then steps[id].kind else Reasoning
  }

  function Tokens(steps: Steps): map<int, nat> {
    map id | id in steps :: steps[id].tokenCount
  }

  /** The tokens of the given steps, the ones without a step left out. */
  function TotalTokens(steps: Steps, ids: seq<int>): nat {
    if ids == [] then 0
    else
      var last := ids[|ids| - 1];
      TotalTokens(steps, ids[..|ids| - 1]) + if last in steps then steps[last].tokenCount else 0
  }

  /** The active steps in front of the tail. */
  function BeforeTail(ids: seq<int>, tailKeepSteps: nat): seq<int> {
    ids[..if |ids| < tailKeepSteps then 0 else |ids| - tailKeepSteps]
  }

  // ------------------------------------------------------- raising one record

  function Capped(target: int, cap: int): int {
    if target > cap then cap else target
  }

  function Raised(ref: RefRecord, target: int): RefRecord {
    if target > ref.level then ref.(level := target) else ref
  }

  function DecayedTarget(ref: RefRecord, rawDecay: nat, kind: StepType, group: int, cfg: DecayConfig,
                         t: ThresholdConfig)
    : int
    requires NonNegative(cfg)
  {
    Capped(TargetLevel(ComputeDecay(ref, rawDecay, false, group, cfg), kind, t), MaxLevelForType(kind))
  }

  /** Per-step decay, when `current` has just been ingested. */
  function Decayed(steps: Steps, current: int, group: int, cfg: Config, id: int, ref: RefRecord): RefRecord
    requires NonNegative(cfg.decay)
  {
    if id == current || ref.level >= 3 || ref.lockL0 then ref
    else
      Raised(ref, DecayedTarget(ref, RawDecay(ref, Tokens(steps), current), KindOf(steps, id), group, cfg.decay,
                                cfg.thresholds))
  }

  /** Batch compression. */
  function Compressed(steps: Steps, current: int, group: int, cfg: Config, id: int, ref: RefRecord): RefRecord
    requires NonNegative(cfg.decay)
  {
    if ref.level >= MaxLevelForType(KindOf(steps, id)) || ref.lockL0 then ref
    else
      Raised(ref, DecayedTarget(ref, SumTokens(Tokens(steps), 0, current), KindOf(steps, id), group, cfg.decay,
                                cfg.thresholds))
  }

  function RetainTailSteps(active: nat, cfg: Config): int {
    if cfg.retainTokens > 0 then cfg.retainTokens
    else
      var ratio := if cfg.retainRatio <= 0.0 then 0.16 else cfg.retainRatio;
      var n := (active as real * ratio).Floor;
      if n < 1 then 1 else n
  }

  /** Mechanical reorganisation; `first` is the first step of the retained tail. */
  function Reorganized(steps: Steps, active: nat, first: int, ignoreTail: bool, cfg: Config, id: int, ref: RefRecord)
    : RefRecord
  {
    if id !in steps || ref.level >= MaxLevelForType(steps[id].kind) || ref.lockL0 || (!ignoreTail && id >= first) then ref
    else
      Raised(ref, DecayedTarget(ref, steps[id].tokenCount * active, steps[id].kind, ref.taskGroupId, ZERO,
                                cfg.thresholds))
  }

  /** Emergency introspection, for a step in front of the tail. */
  function Urged(steps: Steps, id: int, ref: RefRecord): RefRecord {
    if id !in steps then ref
    else Raised(ref, Capped(Capped(ref.level + 1, MaxLevelForType(steps[id].kind)), 3))
  }

  function Expanded(ref: RefRecord, current: int): RefRecord {
    ref.(refCount := ref.refCount + 1, strength := ref.strength + 0.1, lastRefAtStep := Some(current))
  }

  predicate Discardable(kind: StepType) {
    kind == Reasoning || kind == Plan || kind == Failed
  }

  /** What idle consolidation does to a record. */
  function Consolidated(steps: Steps, id: int, ref: RefRecord): RefRecord {
    var stronger := if ref.refCount > 0 then ref.(strength := ref.strength + 0.05) else ref;
    if id in steps && Discardable(steps[id].kind) && ref.level >= 3 && ref.refCount == 0 then stronger.(pendingL4 := true)
    else stronger
  }

  // ------------------------------------------------------ removing one record

  predicate CleanedUp(steps: Steps, id: int, ref: RefRecord) {
    ref.level >= 3 && ref.refCount == 0 && id in steps && (Discardable(steps[id].kind) || ref.pendingL4)
  }

  predicate Settled(ref: RefRecord) {
    ref.level >= 3 && ref.refCount == 0
  }

  /** A task group is archived when all of its steps are masked and uncited. */
  predicate Archived(refs: Refs, group: int) {
    forall id | id in refs && refs[id].taskGroupId == group :: Settled(refs[id])
  }

  predicate Stale(steps: Steps, id: int, round: int) {
    id in steps && steps[id].transient && round - steps[id].transientRound >= 1
  }

  // ---------------------------------------------------------- whole mutators

  function PerStepDecay(steps: Steps, refs: Refs, current: int, group: int, cfg: Config): Refs
    requires NonNegative(cfg.decay)
  {
    map id | id in refs :: Decayed(steps, current, group, cfg, id, refs[id])
  }

  function BatchCompression(steps: Steps, refs: Refs, current: int, group: int, cfg: Config): Refs
    requires NonNegative(cfg.decay)
  {
    map id | id in refs :: Compressed(steps, current, group, cfg, id, refs[id])
  }

  /** Whether the retained tail is passed over. */
  predicate IgnoresTail(steps: Steps, refs: Refs, aggressive: bool, cfg: Config) {
    aggressive || (cfg.overflowCapTokens > 0 && TotalTokens(steps, ActiveIds(refs)) > cfg.overflowCapTokens)
  }

  function TailFirst(refs: Refs, current: int, cfg: Config): int {
    current - RetainTailSteps(|ActiveIds(refs)|, cfg) + 1
  }

  function MechanicalReorganization(steps: Steps, refs: Refs, current: int, aggressive: bool, cfg: Config): Refs {
    map id | id in refs ::
      Reorganized(steps, |ActiveIds(refs)|, TailFirst(refs, current, cfg), IgnoresTail(steps, refs, aggressive, cfg), cfg,
                  id, refs[id])
  }

  function EmergencyIntrospection(steps: Steps, refs: Refs, cfg: Config): Refs {
    map id | id in refs ::
      if id in BeforeTail(ActiveIds(refs), cfg.tailKeepSteps) then Urged(steps, id, refs[id]) else refs[id]
  }

  function L4Cleanup(steps: Steps, refs: Refs): Refs {
    map id | id in refs && !CleanedUp(steps, id, refs[id]) :: refs[id]
  }

  function ArchiveTaskGroups(refs: Refs): Refs {
    map id | id in refs && !Archived(refs, refs[id].taskGroupId) :: refs[id]
  }

  function IdleConsolidation(steps: Steps, refs: Refs): Refs {
    map id | id in refs :: Consolidated(steps, id, refs[id])
  }

  function PendingDiscarded(refs: Refs): Refs {
    map id | id in refs && !refs[id].pendingL4 :: refs[id]
  }

  function ClearedTransients(steps: Steps, refs: Refs, round: int): Refs {
    map id | id in refs && !Stale(steps, id, round) :: refs[id]
  }

  function CitedOne(refs: Refs, id: int, current: int, group: int, cfg: Config): Refs {
    if id <= 0 || id !in refs then refs else refs[id := Cited(refs[id], current, group, cfg.decay)]
  }

  /** The citations found in one output, in order and with repetitions; those that
      name no active step are passed over. */
  function CitedRefs(refs: Refs, cited: seq<int>, current: int, group: int, cfg: Config): Refs {
    if cited == [] then refs
    else CitedOne(CitedRefs(refs, cited[..|cited| - 1], current, group, cfg), cited[|cited| - 1], current, group, cfg)
  }

  /** A warm-up is started when the tokens come near the budget in force. */
  predicate WarmupStarts(total: nat, sweetSpotTokens: int, ratio: real) {
    sweetSpotTokens > 0 && Over(total as real, sweetSpotTokens as real) >= ratio
  }

  /** The warm-up, if nothing comes between its reads and writes. */
  function WarmedUp(refs: Refs, tailKeepSteps: nat): Refs {
    map id | id in refs ::
      if id in BeforeTail(ActiveIds(refs), tailKeepSteps) && refs[id].level < 1 then refs[id].(level := 1) else refs[id]
  }

  function NewRef(id: int, group: int): RefRecord {
    RefRecord(id, 0, 0, None, 1.0, group, 0, 0, false, false)
  }

  /** What the model-driven engine picks a step for: the level it is to be compressed
      to, if it is worth a call. */
  function EngineTarget(steps: Steps, refs: Refs, id: int, cfg: Config): Option<int> {
    if id !in refs || id !in steps then None
    else
      var ref, step := refs[id], steps[id];
      var target := DecayedTarget(ref, step.tokenCount * |ActiveIds(refs)|, step.kind, ref.taskGroupId, ZERO, cfg.thresholds);
      if ref.level >= MaxLevelForType(step.kind) || ref.lockL0 || target <= ref.level || step.tokenCount / 2 < 2000 then None
      else Some(target)
  }

  // --------------------------------------------------- levels rise and stay put

  /** The target does not depend on the level that the record is at. */
  lemma TargetIgnoresLevel(ref: RefRecord, level: int, rawDecay: nat, kind: StepType, group: int, cfg: DecayConfig,
                           t: ThresholdConfig)
    requires NonNegative(cfg)
    ensures DecayedTarget(ref.(level := level), rawDecay, kind, group, cfg, t)
         == DecayedTarget(ref, rawDecay, kind, group, cfg, t)
  {
    assert Trace(ref.(level := level), rawDecay, false, group, cfg) == Trace(ref, rawDecay, false, group, cfg);
  }

  lemma CompressedTwice(steps: Steps, current: int, group: int, cfg: Config, id: int, ref: RefRecord)
    requires NonNegative(cfg.decay)
    ensures var once := Compressed(steps, current, group, cfg, id, ref);
            Compressed(steps, current, group, cfg, id, once) == once
  {
    var once, kind := Compressed(steps, current, group, cfg, id, ref), KindOf(steps, id);
    TargetIgnoresLevel(ref, once.level, SumTokens(Tokens(steps), 0, current), kind, group, cfg.decay, cfg.thresholds);
  }

  /** A second batch compression with nothing in between changes nothing. */
  lemma CompressionFixpoint(steps: Steps, refs: Refs, current: int, group: int, cfg: Config)
    requires NonNegative(cfg.decay)
    ensures var once := BatchCompression(steps, refs, current, group, cfg);
            BatchCompression(steps, once, current, group, cfg) == once
  {
    var once := BatchCompression(steps, refs, current, group, cfg);
    forall id | id in refs ensures Compressed(steps, current, group, cfg, id, once[id]) == once[id] {
      CompressedTwice(steps, current, group, cfg, id, refs[id]);
    }
  }

  /** It raises levels, within the caps, and changes nothing else; locked steps and
      steps at their cap are left alone. */
  lemma CompressionRaises(steps: Steps, refs: Refs, current: int, group: int, cfg: Config, id: int)
    requires NonNegative(cfg.decay) && id in refs
    ensures var before, after := refs[id], BatchCompression(steps, refs, current, group, cfg)[id];
            && after == before.(level := after.level)
            && after.level >= before.level
            && (after.level > before.level ==> after.level <= MaxLevelForType(KindOf(steps, id)))
            && (before.lockL0 ==> after == before)
            && after.level >= (if before.lockL0 then before.level
                               else TargetLevel(ComputeDecay(before, SumTokens(Tokens(steps), 0, current), false, group,
                                                             cfg.decay), KindOf(steps, id), cfg.thresholds))
  {
    TargetWithinCap(ComputeDecay(refs[id], SumTokens(Tokens(steps), 0, current), false, group, cfg.decay),
                    KindOf(steps, id), cfg.thresholds);
  }

  lemma ReorganizedTwice(steps: Steps, active: nat, first: int, ignoreTail: bool, cfg: Config, id: int, ref: RefRecord)
    ensures var once := Reorganized(steps, active, first, ignoreTail, cfg, id, ref);
            Reorganized(steps, active, first, ignoreTail, cfg, id, once) == once
  {
    if id in steps {
      var once := Reorganized(steps, active, first, ignoreTail, cfg, id, ref);
      TargetIgnoresLevel(ref, once.level, steps[id].tokenCount * active, steps[id].kind, ref.taskGroupId, ZERO,
                         cfg.thresholds);
    }
  }

  /** A second mechanical reorganisation changes nothing either, */
  lemma ReorganizationIdempotent(steps: Steps, refs: Refs, current: int, aggressive: bool, cfg: Config)
    ensures var once := MechanicalReorganization(steps, refs, current, aggressive, cfg);
            MechanicalReorganization(steps, once, current, aggressive, cfg) == once
  {
    var once := MechanicalReorganization(steps, refs, current, aggressive, cfg);
    assert once.Keys == refs.Keys;
    var active, first := |ActiveIds(refs)|, TailFirst(refs, current, cfg);
    var ignoreTail := IgnoresTail(steps, refs, aggressive, cfg);
    forall id | id in refs ensures Reorganized(steps, active, first, ignoreTail, cfg, id, once[id]) == once[id] {
      ReorganizedTwice(steps, active, first, ignoreTail, cfg, id, refs[id]);
    }
  }

  /** and one that respects the tail leaves the steps with the newest numbers as they
      are, the number `current` being one of them, whether it is active or not. */
  lemma ReorganizationKeepsTail(steps: Steps, refs: Refs, current: int, aggressive: bool, cfg: Config, id: int)
    requires id in refs && !IgnoresTail(steps, refs, aggressive, cfg)
    requires id > current - RetainTailSteps(|ActiveIds(refs)|, cfg)
    ensures MechanicalReorganization(steps, refs, current, aggressive, cfg)[id] == refs[id]
    ensures current > current - RetainTailSteps(|ActiveIds(refs)|, cfg)
  {
  }

  // ------------------------------------------------------------ sound records

  /** A record in its place: of an ingested step, at a level the step's type
      allows, and marked for discarding only if the type can be discarded. */
  predicate Sound(steps: Steps, id: int, ref: RefRecord) {
    && ref.stepId == id
    && id in steps
    && 0 <= ref.level <= MaxLevelForType(steps[id].kind)
    && (ref.pendingL4 ==> Discardable(steps[id].kind))
  }

  predicate RefsSound(steps: Steps, refs: Refs) {
    forall id | id in refs :: Sound(steps, id, refs[id])
  }

  /** Whether any record's level is lower after a step than before. */
  predicate Falls(before: Refs, after: Refs) {
    exists id | id in before && id in after :: after[id].level < before[id].level
  }
}
