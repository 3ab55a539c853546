/** Runs of the mutators of the reference records, with writers that read a record,
    do something else for a while, and write it back late. */
module CompressionRuns {
  import opened Wrappers
  import opened Records
  import opened Decay
  import opened CitationWeights
  import opened Compression

  // -------------------------------------------------------------------- runs

  /** A writer that is not done: it has picked a step and a level, and later read the
      step's record, which it will write with that level. */
  datatype Late = Chosen(id: int, target: int) | Held(ref: RefRecord, target: int)

  datatype State = State(steps: Steps, refs: Refs, current: int, late: map<nat, Late>)

  datatype Op =
      // with the budget in force, as perStepDecay reads it
    | IngestOp(step: StepRecord, sweetSpotTokens: int)
    | CompressOp
    | ReorganizeOp(aggressive: bool)
    | EmergencyOp
    | CleanupOp
    | ArchiveOp
    | ConsolidateOp
    | DiscardPendingOp
    | CiteOp(cited: seq<int>)
    | ExpandOp(id: int)
    | LockOp(id: int, locked: bool)
    | MarkTransientOp(id: int, round: int)
    | ClearTransientsOp(round: int)
      // one round of the warm-up loop reads, and writes with LateWriteOp
    | WarmReadOp(writer: nat, id: int)
      // the engine picks a step, reads it, waits for the model, and writes likewise
    | ChooseOp(writer: nat, id: int)
    | EngineReadOp(writer: nat)
    | LateWriteOp(writer: nat)
      // in a store that hands out its own records, the one a writer holds may have
      // been changed by another mutator meanwhile
    | ShareOp(writer: nat)

  function Initial(): State {
    State(map[], map[], 0, map[])
  }

  function Ingested(s: State, step: StepRecord, sweetSpotTokens: int, group: int, cfg: Config): State
    requires NonNegative(cfg.decay)
  {
    var id := s.current + 1;
    var steps := s.steps[id := step.(stepId := id)];
    var refs := s.refs[id := NewRef(id, group)];
    var suppressed := sweetSpotTokens > 0 && TotalTokens(steps, ActiveIds(refs)) < sweetSpotTokens;
    s.(steps := steps, refs := if suppressed then refs else PerStepDecay(steps, refs, id, group, cfg), current := id)
  }

  /** The warm-up goes on only with a record at level 0. */
  function WarmRead(s: State, writer: nat, id: int): State {
    if id in s.refs && s.refs[id].level < 1 then s.(late := s.late[writer := Held(s.refs[id], 1)])
    else s.(late := s.late - {writer})
  }

  function Choose(s: State, writer: nat, id: int, cfg: Config): State {
    var target := EngineTarget(s.steps, s.refs, id, cfg);
    s.(late := if target.Some? then s.late[writer := Chosen(id, target.value)] else s.late - {writer})
  }

  /** The engine reads the record again, without looking at its level. */
  function EngineRead(s: State, writer: nat): State {
    if writer !in s.late || s.late[writer].Held? then s
    else
      var id := s.late[writer].id;
      s.(late := if id in s.refs && id in s.steps then s.late[writer := Held(s.refs[id], s.late[writer].target)]
                 else s.late - {writer})
  }

  function LateWrite(s: State, writer: nat): State {
    if writer !in s.late || s.late[writer].Chosen? then s
    else
      var Held(ref, target) := s.late[writer];
      s.(refs := s.refs[ref.stepId := ref.(level := target)], late := s.late - {writer})
  }

  function Share(s: State, writer: nat): State {
    if writer !in s.late || s.late[writer].Chosen? || s.late[writer].ref.stepId !in s.refs then s
    else s.(late := s.late[writer := s.late[writer].(ref := s.refs[s.late[writer].ref.stepId])])
  }

  function Step(s: State, op: Op, group: int, cfg: Config): State
    requires NonNegative(cfg.decay)
  {
    match op
    case IngestOp(step, sweetSpotTokens) => Ingested(s, step, sweetSpotTokens, group, cfg)
    case CompressOp => s.(refs := BatchCompression(s.steps, s.refs, s.current, group, cfg))
    case ReorganizeOp(aggressive) => s.(refs := MechanicalReorganization(s.steps, s.refs, s.current, aggressive, cfg))
    case EmergencyOp => s.(refs := EmergencyIntrospection(s.steps, s.refs, cfg))
    case CleanupOp => s.(refs := L4Cleanup(s.steps, s.refs))
    case ArchiveOp => s.(refs := ArchiveTaskGroups(s.refs))
    case ConsolidateOp => s.(refs := IdleConsolidation(s.steps, s.refs))
    case DiscardPendingOp => s.(refs := PendingDiscarded(s.refs))
    case CiteOp(cited) => s.(refs := CitedRefs(s.refs, cited, s.current, group, cfg))
    case ExpandOp(id) => if id in s.refs then s.(refs := s.refs[id := Expanded(s.refs[id], s.current)]) else s
    case LockOp(id, locked) => if id in s.refs then s.(refs := s.refs[id := s.refs[id].(lockL0 := locked)]) else s
    case MarkTransientOp(id, round) =>
      if id in s.steps then s.(steps := s.steps[id := s.steps[id].(transient := true, transientRound := round)]) else s
    case ClearTransientsOp(round) => s.(refs := ClearedTransients(s.steps, s.refs, round))
    case WarmReadOp(writer, id) => WarmRead(s, writer, id)
    case ChooseOp(writer, id) => Choose(s, writer, id, cfg)
    case EngineReadOp(writer) => EngineRead(s, writer)
    case LateWriteOp(writer) => LateWrite(s, writer)
    case ShareOp(writer) => Share(s, writer)
  }

  function Run(ops: seq<Op>, group: int, cfg: Config): State
    requires NonNegative(cfg.decay)
  {
    if ops == [] then Initial() else Step(Run(ops[..|ops| - 1], group, cfg), ops[|ops| - 1], group, cfg)
  }

  lemma RunNext(ops: seq<Op>, op: Op, group: int, cfg: Config)
    requires NonNegative(cfg.decay)
    ensures Run(ops + [op], group, cfg) == Step(Run(ops, group, cfg), op, group, cfg)
  {
    assert (ops + [op])[..|ops|] == ops;
  }

  // ------------------------------------------------------------ the invariant

  /** A user step that is not transient is active. */
  predicate UsersActive(steps: Steps, refs: Refs) {
    forall id | id in steps && steps[id].kind == User && !steps[id].transient :: id in refs
  }

  predicate StepsNumbered(steps: Steps, current: int) {
    forall id | id in steps :: 1 <= id <= current && steps[id].stepId == id
  }

  predicate LateSound(steps: Steps, late: Late) {
    match late
    case Chosen(id, target) => id in steps && 0 <= target <= MaxLevelForType(steps[id].kind)
    case Held(ref, target) => Sound(steps, ref.stepId, ref) && 0 <= target <= MaxLevelForType(steps[ref.stepId].kind)
  }

  predicate WritersSound(steps: Steps, late: map<nat, Late>) {
    forall writer | writer in late :: LateSound(steps, late[writer])
  }

  predicate Valid(s: State) {
    && s.current >= 0
    && RefsSound(s.steps, s.refs)
    && UsersActive(s.steps, s.refs)
    && StepsNumbered(s.steps, s.current)
    && WritersSound(s.steps, s.late)
  }

  lemma DecayedSound(steps: Steps, current: int, group: int, cfg: Config, id: int, ref: RefRecord)
    requires NonNegative(cfg.decay) && Sound(steps, id, ref)
    ensures Sound(steps, id, Decayed(steps, current, group, cfg, id, ref))
    ensures Sound(steps, id, Compressed(steps, current, group, cfg, id, ref))
  {
  }

  lemma ReorganizedSound(steps: Steps, active: nat, first: int, ignoreTail: bool, cfg: Config, id: int, ref: RefRecord)
    requires Sound(steps, id, ref)
    ensures Sound(steps, id, Reorganized(steps, active, first, ignoreTail, cfg, id, ref))
  {
  }

  lemma UrgedSound(steps: Steps, id: int, ref: RefRecord)
    requires Sound(steps, id, ref)
    ensures Sound(steps, id, Urged(steps, id, ref))
  {
  }

  lemma {:induction false} CitedRefsSound(steps: Steps, refs: Refs, cited: seq<int>, current: int, group: int,
                                          cfg: Config)
    requires RefsSound(steps, refs)
    ensures RefsSound(steps, CitedRefs(refs, cited, current, group, cfg))
    ensures CitedRefs(refs, cited, current, group, cfg).Keys == refs.Keys
  {
    if cited != [] {
      CitedRefsSound(steps, refs, cited[..|cited| - 1], current, group, cfg);
    }
  }

  lemma IngestedSound(s: State, step: StepRecord, sweetSpotTokens: int, group: int, cfg: Config)
    requires NonNegative(cfg.decay) && Valid(s)
    ensures var next := Ingested(s, step, sweetSpotTokens, group, cfg);
            RefsSound(next.steps, next.refs) && next.refs.Keys == s.refs.Keys + {s.current + 1}
  {
    var id := s.current + 1;
    var steps, refs := s.steps[id := step.(stepId := id)], s.refs[id := NewRef(id, group)];
    forall i | i in refs
      ensures Sound(steps, i, refs[i]) && Sound(steps, i, Decayed(steps, id, group, cfg, i, refs[i]))
    {
      assert i != id ==> Sound(s.steps, i, s.refs[i]);
      DecayedSound(steps, id, group, cfg, i, refs[i]);
    }
  }

  lemma IngestedValid(s: State, step: StepRecord, sweetSpotTokens: int, group: int, cfg: Config)
    requires NonNegative(cfg.decay) && Valid(s)
    ensures Valid(Ingested(s, step, sweetSpotTokens, group, cfg))
  {
    IngestedSound(s, step, sweetSpotTokens, group, cfg);
    var next := Ingested(s, step, sweetSpotTokens, group, cfg);
    forall w | w in s.late ensures LateSound(next.steps, s.late[w]) {
      assert LateSound(s.steps, s.late[w]);
    }
  }

  /** A mutator that leaves every step its record, in its place, keeps the state valid. */
  lemma SameKeysValid(s: State, refs: Refs)
    requires Valid(s) && refs.Keys == s.refs.Keys && RefsSound(s.steps, refs)
    ensures Valid(s.(refs := refs))
  {
  }

  /** A user step is never a candidate for removal: its level is too low. */
  lemma UsersStay(s: State, id: int, round: int)
    requires Valid(s) && id in s.steps && s.steps[id].kind == User && !s.steps[id].transient
    ensures id in s.refs && s.refs[id].level <= 2
    ensures !CleanedUp(s.steps, id, s.refs[id])
    ensures !Archived(s.refs, s.refs[id].taskGroupId)
    ensures !s.refs[id].pendingL4
    ensures !Stale(s.steps, id, round)
  {
    assert Sound(s.steps, id, s.refs[id]);
    assert !Settled(s.refs[id]);
  }

  lemma RemovalValid(s: State, refs: Refs)
    requires Valid(s) && refs.Keys <= s.refs.Keys && forall id | id in refs :: refs[id] == s.refs[id]
    requires forall id | id in s.steps && s.steps[id].kind == User && !s.steps[id].transient :: id in refs
    ensures Valid(s.(refs := refs))
  {
    forall id | id in refs ensures Sound(s.steps, id, refs[id]) {
      assert Sound(s.steps, id, s.refs[id]);
    }
  }

  lemma RaisingValid(s: State, op: Op, group: int, cfg: Config)
    requires NonNegative(cfg.decay) && Valid(s)
    requires op.CompressOp? || op.ReorganizeOp? || op.EmergencyOp? || op.ConsolidateOp? || op.CiteOp?
    ensures Valid(Step(s, op, group, cfg))
  {
    var refs := Step(s, op, group, cfg).refs;
    if op.CiteOp? {
      CitedRefsSound(s.steps, s.refs, op.cited, s.current, group, cfg);
    } else {
      forall id | id in refs ensures Sound(s.steps, id, refs[id]) {
        var ref := s.refs[id];
        assert Sound(s.steps, id, ref);
        DecayedSound(s.steps, s.current, group, cfg, id, ref);
        UrgedSound(s.steps, id, ref);
        if op.ReorganizeOp? {
          ReorganizedSound(s.steps, |ActiveIds(s.refs)|, TailFirst(s.refs, s.current, cfg),
                           IgnoresTail(s.steps, s.refs, op.aggressive, cfg), cfg, id, ref);
        }
      }
    }
    SameKeysValid(s, refs);
  }

  lemma RemovingValid(s: State, op: Op, group: int, cfg: Config)
    requires NonNegative(cfg.decay) && Valid(s)
    requires op.CleanupOp? || op.ArchiveOp? || op.DiscardPendingOp? || op.ClearTransientsOp?
    ensures Valid(Step(s, op, group, cfg))
  {
    var refs := Step(s, op, group, cfg).refs;
    forall id | id in s.steps && s.steps[id].kind == User && !s.steps[id].transient ensures id in refs {
      UsersStay(s, id, if op.ClearTransientsOp? then op.round else 0);
    }
    RemovalValid(s, refs);
  }

  lemma OneRecordValid(s: State, op: Op, group: int, cfg: Config)
    requires NonNegative(cfg.decay) && Valid(s)
    requires op.ExpandOp? || op.LockOp?
    ensures Valid(Step(s, op, group, cfg))
  {
    var next := Step(s, op, group, cfg);
    forall id | id in next.refs ensures Sound(next.steps, id, next.refs[id]) {
      assert id in s.refs ==> Sound(s.steps, id, s.refs[id]);
    }
  }

  lemma LaterValid(s: State, late: map<nat, Late>, writer: nat)
    requires Valid(s)
    requires forall w | w in late && w != writer :: w in s.late && late[w] == s.late[w]
    requires writer in late ==> LateSound(s.steps, late[writer])
    ensures Valid(s.(late := late))
  {
    forall w | w in late ensures LateSound(s.steps, late[w]) {
      assert w != writer ==> LateSound(s.steps, s.late[w]);
    }
  }

  lemma WarmReadValid(s: State, writer: nat, id: int)
    requires Valid(s)
    ensures Valid(WarmRead(s, writer, id))
  {
    assert id in s.refs ==> Sound(s.steps, id, s.refs[id]);
    LaterValid(s, WarmRead(s, writer, id).late, writer);
  }

  lemma ChooseValid(s: State, writer: nat, id: int, cfg: Config)
    requires Valid(s)
    ensures Valid(Choose(s, writer, id, cfg))
  {
    assert id in s.refs ==> Sound(s.steps, id, s.refs[id]);
    LaterValid(s, Choose(s, writer, id, cfg).late, writer);
  }

  lemma EngineReadValid(s: State, writer: nat)
    requires Valid(s)
    ensures Valid(EngineRead(s, writer)) && Valid(Share(s, writer))
  {
    if writer in s.late {
      var late := s.late[writer];
      assert LateSound(s.steps, late);
      var id := if late.Chosen? then late.id else late.ref.stepId;
      assert id in s.refs ==> Sound(s.steps, id, s.refs[id]);
    }
    LaterValid(s, EngineRead(s, writer).late, writer);
    LaterValid(s, Share(s, writer).late, writer);
  }

  lemma LateWriteValid(s: State, writer: nat)
    requires Valid(s)
    ensures Valid(LateWrite(s, writer))
  {
    if writer in s.late && s.late[writer].Held? {
      assert LateSound(s.steps, s.late[writer]);
      var next := LateWrite(s, writer);
      forall id | id in next.refs ensures Sound(s.steps, id, next.refs[id]) {
        assert id in s.refs ==> Sound(s.steps, id, s.refs[id]);
      }
      forall w | w in next.late ensures LateSound(s.steps, next.late[w]) {
        assert LateSound(s.steps, s.late[w]);
      }
    }
  }

  lemma MarkedValid(s: State, id: int, round: int, group: int, cfg: Config)
    requires NonNegative(cfg.decay) && Valid(s)
    ensures Valid(Step(s, MarkTransientOp(id, round), group, cfg))
  {
    var next := Step(s, MarkTransientOp(id, round), group, cfg);
    forall i | i in next.refs ensures Sound(next.steps, i, next.refs[i]) {
      assert Sound(s.steps, i, s.refs[i]);
    }
    forall w | w in s.late ensures LateSound(next.steps, s.late[w]) {
      assert LateSound(s.steps, s.late[w]);
    }
  }

  lemma StepValid(s: State, op: Op, group: int, cfg: Config)
    requires NonNegative(cfg.decay) && Valid(s)
    ensures Valid(Step(s, op, group, cfg))
  {
    match op
    case IngestOp(step, sweetSpotTokens) => IngestedValid(s, step, sweetSpotTokens, group, cfg);
    case MarkTransientOp(id, round) => MarkedValid(s, id, round, group, cfg);
    case CompressOp | ReorganizeOp(_) | EmergencyOp | ConsolidateOp | CiteOp(_) => RaisingValid(s, op, group, cfg);
    case CleanupOp | ArchiveOp | DiscardPendingOp | ClearTransientsOp(_) => RemovingValid(s, op, group, cfg);
    case ExpandOp(_) | LockOp(_, _) => OneRecordValid(s, op, group, cfg);
    case LateWriteOp(writer) => LateWriteValid(s, writer);
    case WarmReadOp(writer, id) => WarmReadValid(s, writer, id);
    case ChooseOp(writer, id) => ChooseValid(s, writer, id, cfg);
    case EngineReadOp(writer) => EngineReadValid(s, writer);
    case ShareOp(writer) => EngineReadValid(s, writer);
  }

  lemma {:induction false} RunValid(ops: seq<Op>, group: int, cfg: Config)
    requires NonNegative(cfg.decay)
    ensures Valid(Run(ops, group, cfg))
  {
    if ops != [] {
      RunValid(ops[..|ops| - 1], group, cfg);
      StepValid(Run(ops[..|ops| - 1], group, cfg), ops[|ops| - 1], group, cfg);
    }
  }

  // ------------------------------------------------------------- main results

  /** Over every run, whatever is written late, no step is above the level its type
      allows, */
  lemma LevelsWithinCaps(ops: seq<Op>, group: int, cfg: Config, id: int)
    requires NonNegative(cfg.decay)
    ensures var s := Run(ops, group, cfg);
            id in s.refs ==> id in s.steps && 0 <= s.refs[id].level <= MaxLevelForType(s.steps[id].kind)
  {
    RunValid(ops, group, cfg);
    var s := Run(ops, group, cfg);
    assert id in s.refs ==> Sound(s.steps, id, s.refs[id]);
  }

  /** and a user step that is not transient is active and at level 2 at most. */
  lemma UserStepsStay(ops: seq<Op>, group: int, cfg: Config, id: int)
    requires NonNegative(cfg.decay)
    ensures var s := Run(ops, group, cfg);
            id in s.steps && s.steps[id].kind == User && !s.steps[id].transient ==> id in s.refs && s.refs[id].level <= 2
  {
    RunValid(ops, group, cfg);
    var s := Run(ops, group, cfg);
    if id in s.steps && s.steps[id].kind == User && !s.steps[id].transient {
      UsersStay(s, id, 0);
    }
  }

  // ------------------------------------------------------- writing a record late

  /** Whether any record has fewer references after a step than before. */
  predicate Forgets(before: Refs, after: Refs) {
    exists id | id in before && id in after :: after[id].refCount < before[id].refCount
  }

  /** Whether a record comes back. */
  predicate Revives(s: State, after: Refs) {
    exists id | id in after && id !in s.refs :: id <= s.current
  }

  lemma {:induction false} CitedKeepLevels(refs: Refs, cited: seq<int>, current: int, group: int, cfg: Config)
    ensures var after := CitedRefs(refs, cited, current, group, cfg);
            after.Keys == refs.Keys && forall id | id in refs :: after[id].level == refs[id].level
  {
    if cited != [] {
      CitedKeepLevels(refs, cited[..|cited| - 1], current, group, cfg);
    }
  }

  predicate OnlyRaises(before: Refs, after: Refs) {
    forall id | id in after :: id in before && after[id].level >= before[id].level
  }

  lemma ManyOnlyRaise(s: State, op: Op, group: int, cfg: Config)
    requires NonNegative(cfg.decay)
    requires op.CompressOp? || op.ReorganizeOp? || op.EmergencyOp? || op.ConsolidateOp? || op.CiteOp?
    ensures OnlyRaises(s.refs, Step(s, op, group, cfg).refs)
  {
    if op.CiteOp? {
      CitedKeepLevels(s.refs, op.cited, s.current, group, cfg);
    }
  }

  lemma OthersOnlyRaise(s: State, op: Op, group: int, cfg: Config)
    requires NonNegative(cfg.decay) && !op.LateWriteOp? && !op.IngestOp?
    requires !(op.CompressOp? || op.ReorganizeOp? || op.EmergencyOp? || op.ConsolidateOp? || op.CiteOp?)
    ensures OnlyRaises(s.refs, Step(s, op, group, cfg).refs)
  {
  }

  /** No mutator but a late write ever lowers a level or brings a removed record
      back. */
  lemma LevelsNeverFall(s: State, op: Op, group: int, cfg: Config)
    requires NonNegative(cfg.decay) && Valid(s) && !op.LateWriteOp?
    ensures !Falls(s.refs, Step(s, op, group, cfg).refs)
    ensures !Revives(s, Step(s, op, group, cfg).refs)
  {
    if op.IngestOp? {
      IngestKeeps(s, op.step, op.sweetSpotTokens, group, cfg);
    } else if op.CompressOp? || op.ReorganizeOp? || op.EmergencyOp? || op.ConsolidateOp? || op.CiteOp? {
      ManyOnlyRaise(s, op, group, cfg);
    } else {
      OthersOnlyRaise(s, op, group, cfg);
    }
  }

  lemma IngestKeeps(s: State, step: StepRecord, sweetSpotTokens: int, group: int, cfg: Config)
    requires NonNegative(cfg.decay) && Valid(s)
    ensures var after := Ingested(s, step, sweetSpotTokens, group, cfg).refs;
            && after.Keys == s.refs.Keys + {s.current + 1}
            && forall id | id in s.refs :: after[id].level >= s.refs[id].level
  {
    forall id | id in s.refs ensures id != s.current + 1 {
      assert Sound(s.steps, id, s.refs[id]);
    }
  }

  /** A late write, of the warm-up or of the engine, lowers a level exactly if the
      record is above the level written, brings it back exactly if it was removed,
      and forgets citations exactly if there were some since it was read. */
  lemma LateWriteIff(s: State, writer: nat, group: int, cfg: Config)
    requires NonNegative(cfg.decay) && Valid(s) && writer in s.late && s.late[writer].Held?
    ensures var Held(ref, target) := s.late[writer]; var after := Step(s, LateWriteOp(writer), group, cfg).refs;
            && (Falls(s.refs, after) <==> ref.stepId in s.refs && s.refs[ref.stepId].level > target)
            && (Revives(s, after) <==> ref.stepId !in s.refs)
            && (Forgets(s.refs, after) <==> ref.stepId in s.refs && s.refs[ref.stepId].refCount > ref.refCount)
  {
    var Held(ref, target) := s.late[writer];
    var after := Step(s, LateWriteOp(writer), group, cfg).refs;
    var id := ref.stepId;
    assert LateSound(s.steps, s.late[writer]);
    assert after[id] == ref.(level := target) && id <= s.current;
    if id in s.refs && s.refs[id].level > target {
      assert after[id].level < s.refs[id].level;
    }
    if id in s.refs && s.refs[id].refCount > ref.refCount {
      assert after[id].refCount < s.refs[id].refCount;
    }
  }

  /** Rounds of the warm-up that are not interrupted. */
  function WarmRounds(s: State, ids: seq<int>): State {
    if ids == [] then s else LateWrite(WarmRead(WarmRounds(s, ids[..|ids| - 1]), 0, ids[|ids| - 1]), 0)
  }

  lemma {:induction false} WarmRoundsRefs(s: State, ids: seq<int>)
    requires RefsSound(s.steps, s.refs) && s.late == map[]
    ensures var after := WarmRounds(s, ids);
            && after.late == map[] && after.steps == s.steps && after.current == s.current
            && after.refs.Keys == s.refs.Keys
            && forall id | id in s.refs ::
                 after.refs[id] == if id in ids && s.refs[id].level < 1 then s.refs[id].(level := 1) else s.refs[id]
  {
    if ids != [] {
      var before, id := ids[..|ids| - 1], ids[|ids| - 1];
      WarmRoundsRefs(s, before);
      assert forall x :: x in ids <==> x in before || x == id;
      assert id in s.refs ==> Sound(s.steps, id, s.refs[id]);
    }
  }

  /** They add up to the warm-up as one step. */
  lemma WarmRoundsAreWarmUp(s: State, tailKeepSteps: nat)
    requires Valid(s) && s.late == map[]
    ensures WarmRounds(s, BeforeTail(ActiveIds(s.refs), tailKeepSteps)) == s.(refs := WarmedUp(s.refs, tailKeepSteps))
  {
    var ids := BeforeTail(ActiveIds(s.refs), tailKeepSteps);
    WarmRoundsRefs(s, ids);
    WarmedUpIs(s.refs, tailKeepSteps, WarmRounds(s, ids).refs);
  }

  lemma WarmedUpIs(refs: Refs, tailKeepSteps: nat, after: Refs)
    requires after.Keys == refs.Keys
    requires var ids := BeforeTail(ActiveIds(refs), tailKeepSteps);
             forall id | id in refs ::
               after[id] == if id in ids && refs[id].level < 1 then refs[id].(level := 1) else refs[id]
    ensures after == WarmedUp(refs, tailKeepSteps)
  {
  }

  // ------------------------------------------------------------------- history

  /** A record of the one task group there is, with heat in its range, and as it was
      ingested if it was never cited or expanded. */
  predicate Historied(ref: RefRecord, group: int, cfg: Config) {
    && ref.taskGroupId == group && ref.crossGroupRefs == 0
    && (FilledHeat(cfg.decay.heat).recallBoost >= 0 ==> 0 <= ref.heat <= 100)
    && (ref.lastRefAtStep.None? ==> AsIngested(ref))
  }

  predicate RefsHistoried(refs: Refs, group: int, cfg: Config) {
    forall id | id in refs :: Historied(refs[id], group, cfg)
  }

  predicate WritersHistoried(late: map<nat, Late>, group: int, cfg: Config) {
    forall w | w in late && late[w].Held? :: Historied(late[w].ref, group, cfg)
  }

  lemma {:induction false} CitedHistoried(refs: Refs, cited: seq<int>, current: int, group: int, cfg: Config)
    requires RefsHistoried(refs, group, cfg)
    ensures RefsHistoried(CitedRefs(refs, cited, current, group, cfg), group, cfg)
  {
    if cited != [] {
      CitedHistoried(refs, cited[..|cited| - 1], current, group, cfg);
    }
  }

  lemma MutatorHistoried(s: State, op: Op, group: int, cfg: Config)
    requires NonNegative(cfg.decay) && RefsHistoried(s.refs, group, cfg) && !op.LateWriteOp?
    ensures RefsHistoried(Step(s, op, group, cfg).refs, group, cfg)
  {
    if op.CiteOp? {
      CitedHistoried(s.refs, op.cited, s.current, group, cfg);
    } else if op.IngestOp? {
      IngestHistoried(s, op.step, op.sweetSpotTokens, group, cfg);
    }
  }

  lemma IngestHistoried(s: State, step: StepRecord, sweetSpotTokens: int, group: int, cfg: Config)
    requires NonNegative(cfg.decay) && RefsHistoried(s.refs, group, cfg)
    ensures RefsHistoried(Ingested(s, step, sweetSpotTokens, group, cfg).refs, group, cfg)
  {
    var refs := s.refs[s.current + 1 := NewRef(s.current + 1, group)];
    assert RefsHistoried(refs, group, cfg);
  }

  lemma StepHistoried(s: State, op: Op, group: int, cfg: Config)
    requires NonNegative(cfg.decay) && RefsHistoried(s.refs, group, cfg) && WritersHistoried(s.late, group, cfg)
    ensures var next := Step(s, op, group, cfg);
            RefsHistoried(next.refs, group, cfg) && WritersHistoried(next.late, group, cfg)
  {
    if !op.LateWriteOp? {
      MutatorHistoried(s, op, group, cfg);
    }
  }

  lemma {:induction false} RunHistoried(ops: seq<Op>, group: int, cfg: Config)
    requires NonNegative(cfg.decay)
    ensures RefsHistoried(Run(ops, group, cfg).refs, group, cfg)
            && WritersHistoried(Run(ops, group, cfg).late, group, cfg)
  {
    if ops != [] {
      RunHistoried(ops[..|ops| - 1], group, cfg);
      StepHistoried(Run(ops[..|ops| - 1], group, cfg), ops[|ops| - 1], group, cfg);
    }
  }

  /** Over every run a step that was never cited or expanded has no references and no
      heat, and its first citation can raise every later pass but the next one,
      and that one too unless the configuration allows the first heat. */
  lemma FirstCitationInRuns(ops: seq<Op>, group: int, cfg: Config, id: int, pass: int)
    requires NonNegative(cfg.decay) && id in Run(ops, group, cfg).refs
    requires Run(ops, group, cfg).refs[id].lastRefAtStep.None? && pass > Run(ops, group, cfg).current
    ensures var s := Run(ops, group, cfg);
            && AsIngested(s.refs[id]) && s.refs[id].taskGroupId == group
            && (NeverRaisesPass(s.refs[id], s.current, group, pass, cfg.decay) <==>
                  pass == s.current + 1 && FirstHeatAllowed(0, 1.0, cfg.decay))
  {
    RunHistoried(ops, group, cfg);
    var s := Run(ops, group, cfg);
    assert Historied(s.refs[id], group, cfg);
    FirstCitationIff(s.refs[id], s.current, pass, cfg.decay);
  }

  // ------------------------------------------------------------------ locking

  /** Per-step decay, batch compression and mechanical reorganisation leave a
      locked record as it is. */
  lemma LockHolds(s: State, op: Op, group: int, cfg: Config, id: int)
    requires NonNegative(cfg.decay) && Valid(s) && id in s.refs && s.refs[id].lockL0
    requires op.IngestOp? || op.CompressOp? || op.ReorganizeOp?
    ensures id in Step(s, op, group, cfg).refs && Step(s, op, group, cfg).refs[id] == s.refs[id]
  {
    assert Sound(s.steps, id, s.refs[id]);
  }

  /** Emergency introspection does not look at the lock: a locked step at level 0 is
      raised exactly when it is in front of the tail. */
  lemma EmergencyPassesLock(s: State, cfg: Config, id: int)
    requires Valid(s) && id in s.refs && s.refs[id].lockL0 && s.refs[id].level == 0
    ensures EmergencyIntrospection(s.steps, s.refs, cfg)[id].level > 0 <==>
            id in BeforeTail(ActiveIds(s.refs), cfg.tailKeepSteps)
  {
    assert Sound(s.steps, id, s.refs[id]);
  }

  // ------------------------------------------------------------ what is removed

  /** Global introspection removes only uncited masked steps; it takes whole task
      groups, and single steps only of the types that can be discarded. */
  lemma GlobalRemoval(s: State, id: int)
    requires Valid(s) && id in s.refs
    ensures var cleaned := L4Cleanup(s.steps, s.refs); var left := ArchiveTaskGroups(cleaned);
            id !in left ==> && Settled(s.refs[id])
                            && (Discardable(s.steps[id].kind) ||
                                forall other | other in cleaned && cleaned[other].taskGroupId == s.refs[id].taskGroupId ::
                                  other !in left)
  {
    assert Sound(s.steps, id, s.refs[id]);
  }

  /** A step that was marked for discarding while idle is discarded even if it is
      cited in between; global introspection would have kept it. */
  lemma CitedAfterMarking(s: State, id: int, group: int, cfg: Config)
    requires Valid(s) && id in s.refs && s.refs[id].pendingL4
    ensures var refs := CitedRefs(s.refs, [id], s.current, group, cfg);
            id !in PendingDiscarded(refs) && id in L4Cleanup(s.steps, refs) && id in ArchiveTaskGroups(refs)
  {
    assert Sound(s.steps, id, s.refs[id]);
    assert [id][..0] == [] && CitedRefs(s.refs, [], s.current, group, cfg) == s.refs;
    var refs := CitedRefs(s.refs, [id], s.current, group, cfg);
    assert refs == s.refs[id := Cited(s.refs[id], s.current, group, cfg.decay)];
    assert refs[id].taskGroupId == s.refs[id].taskGroupId && !Settled(refs[id]);
  }
}
