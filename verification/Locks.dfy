/** What a lock on the original text of a step is worth: exactly which steps of a run
    raise, remove or unlock a locked step. */
module Locks {
  import opened Wrappers
  import opened Records
  import opened Decay
  import opened Compression
  import opened Truncation
  import Render
  import opened WindowFit
  import opened ContextBuild
  import opened ContextRuns
  import SharedRecords
  import Mutators = CompressionRuns

  // ------------------------------------- what holds over every run, cap or no cap

  /** A record in its place, at a natural level, and marked for discarding only above
      level 0. */
  predicate Stands(steps: Steps, id: int, ref: RefRecord) {
    id in steps && ref.stepId == id && ref.level >= 0 && (ref.pendingL4 ==> ref.level >= 1)
  }

  predicate RefsStand(steps: Steps, refs: Refs) {
    forall id | id in refs :: Stands(steps, id, refs[id])
  }

  /** What is written late is above level 0. */
  predicate LateStands(steps: Steps, late: Mutators.Late) {
    && late.target >= 1
    && (if late.Chosen? then late.id else late.ref.stepId) in steps
  }

  predicate WritersStand(steps: Steps, late: map<nat, Mutators.Late>) {
    forall w | w in late :: LateStands(steps, late[w])
  }

  predicate Standing(s: Mutators.State) {
    && s.current >= 0 && Mutators.StepsNumbered(s.steps, s.current)
    && RefsStand(s.steps, s.refs) && WritersStand(s.steps, s.late)
  }

  lemma {:induction false} CitedStand(steps: Steps, refs: Refs, cited: seq<int>, current: int, group: int, cfg: Config)
    requires RefsStand(steps, refs)
    ensures RefsStand(steps, CitedRefs(refs, cited, current, group, cfg))
  {
    if cited != [] {
      CitedStand(steps, refs, cited[..|cited| - 1], current, group, cfg);
    }
  }

  lemma IngestStands(s: Mutators.State, step: StepRecord, sweetSpotTokens: int, group: int, cfg: Config)
    requires NonNegative(cfg.decay) && Standing(s)
    ensures Standing(Mutators.Ingested(s, step, sweetSpotTokens, group, cfg))
  {
    var id := s.current + 1;
    var steps, refs := s.steps[id := step.(stepId := id)], s.refs[id := NewRef(id, group)];
    assert RefsStand(steps, refs);
    DecayStands(steps, refs, id, group, cfg);
  }

  lemma DecayStands(steps: Steps, refs: Refs, current: int, group: int, cfg: Config)
    requires NonNegative(cfg.decay) && RefsStand(steps, refs)
    ensures RefsStand(steps, PerStepDecay(steps, refs, current, group, cfg))
  {
  }

  lemma ReorganizationStands(steps: Steps, refs: Refs, current: int, aggressive: bool, cfg: Config)
    requires RefsStand(steps, refs)
    ensures RefsStand(steps, MechanicalReorganization(steps, refs, current, aggressive, cfg))
  {
  }

  lemma RaisingStands(s: Mutators.State, op: Mutators.Op, group: int, cfg: Config)
    requires NonNegative(cfg.decay) && Standing(s)
    requires op.CompressOp? || op.ReorganizeOp? || op.EmergencyOp? || op.ConsolidateOp? || op.CiteOp?
    ensures Standing(Mutators.Step(s, op, group, cfg))
  {
    if op.CiteOp? {
      CitedStand(s.steps, s.refs, op.cited, s.current, group, cfg);
    } else if op.ReorganizeOp? {
      ReorganizationStands(s.steps, s.refs, s.current, op.aggressive, cfg);
    }
  }

  lemma OtherStands(s: Mutators.State, op: Mutators.Op, group: int, cfg: Config)
    requires NonNegative(cfg.decay) && Standing(s)
    requires op.CleanupOp? || op.ArchiveOp? || op.DiscardPendingOp? || op.ClearTransientsOp? || op.ExpandOp? || op.LockOp?
             || op.MarkTransientOp?
    ensures Standing(Mutators.Step(s, op, group, cfg))
  {
  }

  lemma WriterStands(s: Mutators.State, op: Mutators.Op, group: int, cfg: Config)
    requires NonNegative(cfg.decay) && Standing(s)
    requires op.WarmReadOp? || op.ChooseOp?
    ensures Standing(Mutators.Step(s, op, group, cfg))
  {
    assert op.id in s.refs ==> Stands(s.steps, op.id, s.refs[op.id]);
  }

  lemma LateWriteStands(s: Mutators.State, op: Mutators.Op, group: int, cfg: Config)
    requires NonNegative(cfg.decay) && Standing(s)
    requires op.EngineReadOp? || op.LateWriteOp? || op.ShareOp?
    ensures Standing(Mutators.Step(s, op, group, cfg))
  {
    if op.writer in s.late {
      assert LateStands(s.steps, s.late[op.writer]);
    }
  }

  lemma MutatorStands(s: Mutators.State, op: Mutators.Op, group: int, cfg: Config)
    requires NonNegative(cfg.decay) && Standing(s)
    ensures Standing(Mutators.Step(s, op, group, cfg))
  {
    if op.IngestOp? {
      IngestStands(s, op.step, op.sweetSpotTokens, group, cfg);
    } else if op.CompressOp? || op.ReorganizeOp? || op.EmergencyOp? || op.ConsolidateOp? || op.CiteOp? {
      RaisingStands(s, op, group, cfg);
    } else if op.WarmReadOp? || op.ChooseOp? {
      WriterStands(s, op, group, cfg);
    } else if op.EngineReadOp? || op.LateWriteOp? || op.ShareOp? {
      LateWriteStands(s, op, group, cfg);
    } else {
      OtherStands(s, op, group, cfg);
    }
  }

  lemma RefsForStand(u: Setup, s: State)
    requires Standing(s.mem)
    ensures RefsStand(s.mem.steps, RefsFor(u, s)) && RefsFor(u, s).Keys == s.mem.refs.Keys
  {
    ReorganizationStands(s.mem.steps, s.mem.refs, s.mem.current, false, u.cfg);
  }

  /** The fit sets levels above 0. */
  lemma SetAboveZero(u: Setup, s: State, front: seq<Render.Block>, back: seq<Render.Block>, window: int, i: int)
    requires Standing(s.mem) && Elsewhere(front) && Elsewhere(back)
    requires Sets(RefsFor(u, s), BlocksFor(u, s, front, back), Through(u, s, front, back, window), i)
    ensures BlocksFor(u, s, front, back)[i].level >= 0
  {
    var refs := RefsFor(u, s);
    RefsForStand(u, s);
    var p := GoneThroughShows(u, s, front, back, window, i);
    assert ActiveIds(refs)[p] in refs && Stands(s.mem.steps, ActiveIds(refs)[p], refs[ActiveIds(refs)[p]]);
  }

  lemma BuildStands(u: Setup, s: State, front: seq<Render.Block>, back: seq<Render.Block>, window: int)
    requires Standing(s.mem) && Elsewhere(front) && Elsewhere(back)
    ensures RefsStand(s.mem.steps, Build(u, s, front, back, window).refs)
  {
    RefsForStand(u, s);
    if u.sharing {
      var refs, all, k := RefsFor(u, s), BlocksFor(u, s, front, back), Through(u, s, front, back, window);
      BlocksShow(u, s, front, back);
      FitRefsKeys(refs, all, k);
      forall id | id in refs ensures Stands(s.mem.steps, id, FitRefs(refs, all, k)[id]) {
        FitRefsCases(refs, all, k, id);
        if i :| Sets(refs, all, k, i) && all[i].stepId == id &&
                FitRefs(refs, all, k)[id] == refs[id].(level := all[i].level + 1) {
          SetAboveZero(u, s, front, back, window, i);
        }
      }
    }
  }

  lemma StepStands(u: Setup, s: State, op: Op)
    requires NonNegative(u.cfg.decay) && Standing(s.mem) && OutsideOp(op)
    ensures Standing(Step(u, s, op).mem)
  {
    match op
    case MutateOp(op) => MutatorStands(s.mem, op, u.group, u.cfg);
    case BuildOp(front, back, window) => BuildStands(u, s, front, back, window);
    case WriteOp(id, write) =>
    case InvalidateOp(id) =>
    case InvalidateAllOp =>
  }

  lemma {:induction false} RunStands(u: Setup, ops: seq<Op>)
    requires NonNegative(u.cfg.decay) && Outside(ops)
    ensures Standing(Run(u, ops).mem)
  {
    if ops != [] {
      RunStands(u, ops[..|ops| - 1]);
      StepStands(u, Run(u, ops[..|ops| - 1]), ops[|ops| - 1]);
    }
  }

  // ------------------------------------------------------- what passes the lock

  /** Active at level 0, and locked there. */
  predicate LockedDown(refs: Refs, id: int) {
    id in refs && refs[id].lockL0 && refs[id].level == 0
  }

  /** The writer is to write the record of the step. */
  predicate Holds(s: Mutators.State, writer: nat, id: int) {
    writer in s.late && s.late[writer].Held? && s.late[writer].ref.stepId == id
  }

  /** The build's fit goes through the block of the step. */
  ghost predicate FitPasses(u: Setup, s: State, front: seq<Render.Block>, back: seq<Render.Block>, window: int, id: int) {
    exists i, p :: GoesThrough(u, s, front, back, window, i, p) && ActiveIds(RefsFor(u, s))[p] == id
  }

  /** The steps of a run that do not look at the lock: emergency introspection for a
      step in front of the tail, the late write of a record of the step, by the warm-up
      or the engine, and a build in a store that hands out its own records. */
  ghost predicate PassesLock(u: Setup, s: State, op: Op, id: int) {
    match op
    case MutateOp(op) =>
      (op.EmergencyOp? && id in BeforeTail(ActiveIds(s.mem.refs), u.cfg.tailKeepSteps)) ||
      (op.LateWriteOp? && Holds(s.mem, op.writer, id))
    case BuildOp(front, back, window) => u.sharing && FitPasses(u, s, front, back, window, id)
    case _ => false
  }

  predicate Drops(s: State, op: Op, id: int) {
    op.MutateOp? && op.op.ClearTransientsOp? && Stale(s.mem.steps, id, op.op.round)
  }

  predicate Unlocks(op: Op, id: int) {
    op == MutateOp(Mutators.LockOp(id, false))
  }

  /** What one step can make of a locked step at level 0. */
  ghost predicate Outcome(u: Setup, s: State, op: Op, id: int, after: Refs) {
    && (id in after && after[id].level > 0 <==> PassesLock(u, s, op, id))
    && (id !in after <==> Drops(s, op, id))
    && (id in after && !after[id].lockL0 ==> Unlocks(op, id) || PassesLock(u, s, op, id))
    && (Unlocks(op, id) ==> id in after && !after[id].lockL0)
  }

  lemma {:induction false} CitedKeepLocks(refs: Refs, cited: seq<int>, current: int, group: int, cfg: Config)
    ensures var after := CitedRefs(refs, cited, current, group, cfg);
            && after.Keys == refs.Keys
            && forall id | id in refs :: after[id].level == refs[id].level && after[id].lockL0 == refs[id].lockL0
  {
    if cited != [] {
      CitedKeepLocks(refs, cited[..|cited| - 1], current, group, cfg);
    }
  }

  lemma ManyPassIff(u: Setup, s: State, op: Mutators.Op, id: int)
    requires NonNegative(u.cfg.decay) && Standing(s.mem) && LockedDown(s.mem.refs, id)
    requires op.IngestOp? || op.CompressOp? || op.ReorganizeOp? || op.EmergencyOp? || op.ConsolidateOp? || op.CiteOp?
    ensures Outcome(u, s, MutateOp(op), id, Mutators.Step(s.mem, op, u.group, u.cfg).refs)
  {
    assert Stands(s.mem.steps, id, s.mem.refs[id]);
    if op.CiteOp? {
      CitedKeepLocks(s.mem.refs, op.cited, s.mem.current, u.group, u.cfg);
    }
  }

  lemma RemovalPassIff(u: Setup, s: State, op: Mutators.Op, id: int)
    requires NonNegative(u.cfg.decay) && Standing(s.mem) && LockedDown(s.mem.refs, id)
    requires op.CleanupOp? || op.ArchiveOp? || op.DiscardPendingOp? || op.ClearTransientsOp?
    ensures Outcome(u, s, MutateOp(op), id, Mutators.Step(s.mem, op, u.group, u.cfg).refs)
  {
    assert Stands(s.mem.steps, id, s.mem.refs[id]);
    assert !Settled(s.mem.refs[id]);
  }

  lemma OnePassesIff(u: Setup, s: State, op: Mutators.Op, id: int)
    requires NonNegative(u.cfg.decay) && Standing(s.mem) && LockedDown(s.mem.refs, id)
    requires op.ExpandOp? || op.LockOp? || op.MarkTransientOp? || op.WarmReadOp? || op.ChooseOp? || op.EngineReadOp?
             || op.ShareOp?
    ensures Outcome(u, s, MutateOp(op), id, Mutators.Step(s.mem, op, u.group, u.cfg).refs)
  {
  }

  lemma LateWritePassesIff(u: Setup, s: State, op: Mutators.Op, id: int)
    requires NonNegative(u.cfg.decay) && Standing(s.mem) && LockedDown(s.mem.refs, id) && op.LateWriteOp?
    ensures Outcome(u, s, MutateOp(op), id, Mutators.Step(s.mem, op, u.group, u.cfg).refs)
  {
    if op.writer in s.mem.late {
      assert LateStands(s.mem.steps, s.mem.late[op.writer]);
    }
  }

  lemma LockedForBuild(u: Setup, s: State, id: int)
    requires LockedDown(s.mem.refs, id)
    ensures id in RefsFor(u, s) && RefsFor(u, s)[id] == s.mem.refs[id]
  {
  }

  lemma FitPassesRaises(u: Setup, s: State, front: seq<Render.Block>, back: seq<Render.Block>, window: int, id: int,
                        i: int, p: int)
    requires Elsewhere(front) && Elsewhere(back) && LockedDown(s.mem.refs, id) && u.sharing
    requires GoesThrough(u, s, front, back, window, i, p) && ActiveIds(RefsFor(u, s))[p] == id
    ensures var after := Build(u, s, front, back, window).refs;
            id in after && after[id] == s.mem.refs[id].(level := 1)
  {
    LockedForBuild(u, s, id);
    BlocksShow(u, s, front, back);
    FitRefsAt(RefsFor(u, s), BlocksFor(u, s, front, back), Through(u, s, front, back, window), i);
  }

  lemma FitLeavesLocked(u: Setup, s: State, front: seq<Render.Block>, back: seq<Render.Block>, window: int, id: int)
    requires Elsewhere(front) && Elsewhere(back) && LockedDown(s.mem.refs, id)
    requires !(u.sharing && FitPasses(u, s, front, back, window, id))
    ensures var after := Build(u, s, front, back, window).refs; id in after && after[id] == s.mem.refs[id]
  {
    LockedForBuild(u, s, id);
    if u.sharing {
      var refs, all, k := RefsFor(u, s), BlocksFor(u, s, front, back), Through(u, s, front, back, window);
      BlocksShow(u, s, front, back);
      FitRefsCases(refs, all, k, id);
      if i :| Sets(refs, all, k, i) && all[i].stepId == id {
        var p := GoneThroughShows(u, s, front, back, window, i);
        assert false;
      }
    }
  }

  lemma BuildPassesIff(u: Setup, s: State, op: Op, id: int)
    requires NonNegative(u.cfg.decay) && op.BuildOp? && OutsideOp(op) && LockedDown(s.mem.refs, id)
    ensures Outcome(u, s, op, id, Build(u, s, op.front, op.back, op.window).refs)
  {
    if u.sharing && FitPasses(u, s, op.front, op.back, op.window, id) {
      var i, p :| GoesThrough(u, s, op.front, op.back, op.window, i, p) && ActiveIds(RefsFor(u, s))[p] == id;
      FitPassesRaises(u, s, op.front, op.back, op.window, id, i, p);
    } else {
      FitLeavesLocked(u, s, op.front, op.back, op.window, id);
    }
  }

  /** One step raises a locked step from level 0 exactly if it is one of those that do
      not look at the lock, and removes it exactly if it clears it as transient; */
  lemma LockPassedIff(u: Setup, s: State, op: Op, id: int)
    requires NonNegative(u.cfg.decay) && Standing(s.mem) && OutsideOp(op) && LockedDown(s.mem.refs, id)
    ensures Outcome(u, s, op, id, Step(u, s, op).mem.refs)
  {
    match op
    case BuildOp(_, _, _) => BuildPassesIff(u, s, op, id);
    case WriteOp(_, _) =>
    case InvalidateOp(_) =>
    case InvalidateAllOp =>
    case MutateOp(op) =>
      if op.CleanupOp? || op.ArchiveOp? || op.DiscardPendingOp? || op.ClearTransientsOp? {
        RemovalPassIff(u, s, op, id);
      } else if op.IngestOp? || op.CompressOp? || op.ReorganizeOp? || op.EmergencyOp? || op.ConsolidateOp? || op.CiteOp? {
        ManyPassIff(u, s, op, id);
      } else if op.LateWriteOp? {
        LateWritePassesIff(u, s, op, id);
      } else {
        OnePassesIff(u, s, op, id);
      }
  }

  ghost predicate Undoes(u: Setup, s: State, op: Op, id: int) {
    PassesLock(u, s, op, id) || Drops(s, op, id) || Unlocks(op, id)
  }

  /** The step is locked and at level 0 all the way through `more`. */
  ghost predicate KeptDown(u: Setup, ops: seq<Op>, more: seq<Op>, id: int)
    requires NonNegative(u.cfg.decay)
  {
    LockedDown(Run(u, ops + more).mem.refs, id) && (more != [] ==> KeptDown(u, ops, more[..|more| - 1], id))
  }

  ghost predicate NothingUndoes(u: Setup, ops: seq<Op>, more: seq<Op>, id: int)
    requires NonNegative(u.cfg.decay)
  {
    more != [] ==>
      var before := more[..|more| - 1];
      NothingUndoes(u, ops, before, id) && !Undoes(u, Run(u, ops + before), more[|more| - 1], id)
  }

  lemma KeptDownNext(u: Setup, s: State, op: Op, id: int)
    requires NonNegative(u.cfg.decay) && Standing(s.mem) && OutsideOp(op) && LockedDown(s.mem.refs, id)
    ensures LockedDown(Step(u, s, op).mem.refs, id) <==> !Undoes(u, s, op, id)
  {
    LockPassedIff(u, s, op, id);
    StepStands(u, s, op);
    assert id in Step(u, s, op).mem.refs ==> Stands(Step(u, s, op).mem.steps, id, Step(u, s, op).mem.refs[id]);
  }

  lemma OneMore(ops: seq<Op>, before: seq<Op>, op: Op)
    requires Outside(ops + (before + [op]))
    ensures ops + (before + [op]) == ops + before + [op]
    ensures Outside(ops + before) && OutsideOp(op)
  {
    var all := ops + (before + [op]);
    assert all == ops + before + [op];
    assert all[|all| - 1] == op;
    forall i | 0 <= i < |ops + before| ensures OutsideOp((ops + before)[i]) {
      assert all[i] == (ops + before)[i];
    }
  }

  /** so from any point of any run a locked step stays at level 0 and locked exactly if
      nothing raises, clears or unlocks it. */
  lemma {:induction false} LockKeptIff(u: Setup, ops: seq<Op>, more: seq<Op>, id: int)
    requires NonNegative(u.cfg.decay) && Outside(ops + more) && LockedDown(Run(u, ops).mem.refs, id)
    ensures KeptDown(u, ops, more, id) <==> NothingUndoes(u, ops, more, id)
  {
    if more == [] {
      assert ops + more == ops;
    } else {
      var before, op := more[..|more| - 1], more[|more| - 1];
      assert more == before + [op];
      OneMore(ops, before, op);
      LockKeptIff(u, ops, before, id);
      RunNext(u, ops + before, op);
      if KeptDown(u, ops, before, id) {
        RunStands(u, ops + before);
        KeptDownNext(u, Run(u, ops + before), op, id);
      }
    }
  }

  // -------------------------------------------------------------- runs that pass it

  lemma TwoMutations(u: Setup, ops: seq<Op>, a: Mutators.Op, b: Mutators.Op)
    requires NonNegative(u.cfg.decay)
    ensures Run(u, ops + [MutateOp(a), MutateOp(b)]).mem ==
            Mutators.Step(Mutators.Step(Run(u, ops).mem, a, u.group, u.cfg), b, u.group, u.cfg)
  {
    RunNext(u, ops, MutateOp(a));
    RunNext(u, ops + [MutateOp(a)], MutateOp(b));
    assert ops + [MutateOp(a)] + [MutateOp(b)] == ops + [MutateOp(a), MutateOp(b)];
  }

  /** A step is ingested and locked. */
  function Locking(step: StepRecord): seq<Op> {
    [MutateOp(Mutators.IngestOp(step, 0)), MutateOp(Mutators.LockOp(1, true))]
  }

  lemma LockingRun(u: Setup, step: StepRecord)
    requires NonNegative(u.cfg.decay)
    ensures var mem := Run(u, Locking(step)).mem;
            mem == Mutators.State(map[1 := step.(stepId := 1)], map[1 := NewRef(1, u.group).(lockL0 := true)], 1, map[])
  {
    TwoMutations(u, [], Mutators.IngestOp(step, 0), Mutators.LockOp(1, true));
    assert [] + Locking(step) == Locking(step);
    var refs: Refs := map[1 := NewRef(1, u.group)];
    assert PerStepDecay(map[1 := step.(stepId := 1)], refs, 1, u.group, u.cfg) == refs;
  }

  /** After that, under any configuration, the warm-up raises the step to level 1, */
  lemma WarmUpPassesLock(u: Setup, step: StepRecord)
    requires NonNegative(u.cfg.decay)
    ensures var later := [MutateOp(Mutators.WarmReadOp(0, 1)), MutateOp(Mutators.LateWriteOp(0))];
            LockedDown(Run(u, Locking(step)).mem.refs, 1) &&
            Run(u, Locking(step) + later).mem.refs == map[1 := NewRef(1, u.group).(lockL0 := true, level := 1)]
  {
    LockingRun(u, step);
    TwoMutations(u, Locking(step), Mutators.WarmReadOp(0, 1), Mutators.LateWriteOp(0));
    WarmRound(Run(u, Locking(step)).mem, 0, 1, u.group, u.cfg);
  }

  lemma WarmRound(s: Mutators.State, writer: nat, id: int, group: int, cfg: Config)
    requires NonNegative(cfg.decay) && id in s.refs && s.refs[id].level == 0 && s.refs[id].stepId == id
    ensures Mutators.Step(Mutators.Step(s, Mutators.WarmReadOp(writer, id), group, cfg), Mutators.LateWriteOp(writer), group,
                          cfg).refs == s.refs[id := s.refs[id].(level := 1)]
  {
  }

  /** the engine raises one that was locked after it was chosen to the level it was
      chosen for, */
  lemma EnginePassesLock(u: Setup, ops: seq<Op>, writer: nat, id: int)
    requires NonNegative(u.cfg.decay)
    requires var mem := Run(u, ops).mem; EngineTarget(mem.steps, mem.refs, id, u.cfg).Some?
    requires Outside(ops)
    ensures var mem := Run(u, ops).mem;
            var chosen := [MutateOp(Mutators.ChooseOp(writer, id)), MutateOp(Mutators.LockOp(id, true))];
            var written := [MutateOp(Mutators.EngineReadOp(writer)), MutateOp(Mutators.LateWriteOp(writer))];
            var target := EngineTarget(mem.steps, mem.refs, id, u.cfg).value;
            && target > mem.refs[id].level
            && Run(u, ops + chosen + written).mem.refs == mem.refs[id := mem.refs[id].(lockL0 := true, level := target)]
  {
    var chosen := [MutateOp(Mutators.ChooseOp(writer, id)), MutateOp(Mutators.LockOp(id, true))];
    RunStands(u, ops);
    TwoMutations(u, ops, Mutators.ChooseOp(writer, id), Mutators.LockOp(id, true));
    TwoMutations(u, ops + chosen, Mutators.EngineReadOp(writer), Mutators.LateWriteOp(writer));
    var mem := Run(u, ops).mem;
    assert Stands(mem.steps, id, mem.refs[id]);
    ChosenThenLocked(mem, writer, id, u.group, u.cfg);
    ReadThenWritten(Run(u, ops + chosen).mem, writer, id, EngineTarget(mem.steps, mem.refs, id, u.cfg).value, u.group, u.cfg);
  }

  lemma ChosenThenLocked(s: Mutators.State, writer: nat, id: int, group: int, cfg: Config)
    requires NonNegative(cfg.decay) && EngineTarget(s.steps, s.refs, id, cfg).Some?
    ensures var target := EngineTarget(s.steps, s.refs, id, cfg).value;
            && target > s.refs[id].level
            && Mutators.Step(Mutators.Step(s, Mutators.ChooseOp(writer, id), group, cfg), Mutators.LockOp(id, true), group,
                             cfg) ==
               s.(refs := s.refs[id := s.refs[id].(lockL0 := true)], late := s.late[writer := Mutators.Chosen(id, target)])
  {
  }

  lemma ReadThenWritten(s: Mutators.State, writer: nat, id: int, target: int, group: int, cfg: Config)
    requires NonNegative(cfg.decay) && id in s.refs && id in s.steps && s.refs[id].stepId == id
    requires writer in s.late && s.late[writer] == Mutators.Chosen(id, target)
    ensures Mutators.Step(Mutators.Step(s, Mutators.EngineReadOp(writer), group, cfg), Mutators.LateWriteOp(writer), group,
                          cfg).refs == s.refs[id := s.refs[id].(level := target)]
  {
  }

  lemma AllGoneThrough(u: Setup, s: State, front: seq<Render.Block>, back: seq<Render.Block>, window: int)
    requires Elsewhere(front) && Elsewhere(back) && window < Total(front) + Total(back)
    ensures Through(u, s, front, back, window) == |BlocksFor(u, s, front, back)|
  {
    var refs := RefsFor(u, s);
    var ids := ActiveIds(refs);
    var (after, blocks) := HistoryThrough(s.cache, TextsOf(u, s), refs, ids, u.cfg.tailKeepSteps, |ids|);
    SharedRecords.FullWindow(after, TextsOf(u, s), refs.Keys, front, Present(blocks), back, window);
  }

  /** The one block of the history, whether it is the tail's or not. */
  lemma LockedBlock(u: Setup, s: State, front: seq<Render.Block>, back: seq<Render.Block>, window: int)
    requires LockedDown(s.mem.refs, 1) && s.mem.refs.Keys == {1}
    requires 1 in s.mem.steps && !s.mem.steps[1].transient
    requires Elsewhere(front) && Elsewhere(back) && window < Total(front) + Total(back)
    ensures GoesThrough(u, s, front, back, window, |front|, 0) && ActiveIds(RefsFor(u, s))[0] == 1
  {
    OnlyActive(u, s);
    OnlyBlock(s.cache, TextsOf(u, s), RefsFor(u, s), u.cfg.tailKeepSteps);
    BlockBehind(u, s, front, back);
    AllGoneThrough(u, s, front, back, window);
  }

  lemma OnlyActive(u: Setup, s: State)
    requires LockedDown(s.mem.refs, 1) && s.mem.refs.Keys == {1}
    ensures var ids := ActiveIds(RefsFor(u, s)); |ids| == 1 && ids[0] == 1
    ensures 1 in RefsFor(u, s) && RefsFor(u, s)[1].level == 0
  {
    LockedForBuild(u, s, 1);
    assert RefsFor(u, s).Keys == s.mem.refs.Keys;
    SharedRecords.FirstInFront(RefsFor(u, s), 0);
  }

  lemma BlockBehind(u: Setup, s: State, front: seq<Render.Block>, back: seq<Render.Block>)
    ensures var ids := ActiveIds(RefsFor(u, s));
            var history := Present(HistoryThrough(s.cache, TextsOf(u, s), RefsFor(u, s), ids, u.cfg.tailKeepSteps, |ids|).1);
            var all := BlocksFor(u, s, front, back);
            |history| > 0 ==> |all| > |front| && all[|front|] == history[0]
  {
  }

  lemma OnlyBlock(cache: Render.Cache, texts: Render.Texts, refs: Refs, tail: nat)
    requires 1 in texts.steps && !texts.steps[1].transient && 1 in refs && refs[1].level == 0
    requires |ActiveIds(refs)| == 1 && ActiveIds(refs)[0] == 1
    ensures var history := Present(HistoryThrough(cache, texts, refs, ActiveIds(refs), tail, 1).1);
            |history| > 0 && history[0].stepId == 1 && history[0].level == 0
  {
    var ids := ActiveIds(refs);
    var blocks := HistoryThrough(cache, texts, refs, ids, tail, 1).1;
    HistoryThroughShape(cache, texts, refs, ids, tail, 1);
    assert HistoryShape(texts, refs, ids, tail, 0, blocks[0]);
    SharedRecords.PresentFirst(blocks);
  }

  /** and, in a store that hands out its own records, so does a build for a window
      that the blocks around the history fill already. */
  lemma BuildPassesLock(u: Setup, step: StepRecord, front: seq<Render.Block>, back: seq<Render.Block>, window: int)
    requires NonNegative(u.cfg.decay) && u.sharing && !step.transient
    requires Elsewhere(front) && Elsewhere(back) && window < Total(front) + Total(back)
    ensures LockedDown(Run(u, Locking(step)).mem.refs, 1)
    ensures var refs := Run(u, Locking(step) + [BuildOp(front, back, window)]).mem.refs;
            1 in refs && refs[1] == NewRef(1, u.group).(lockL0 := true, level := 1)
  {
    LockingRun(u, step);
    RunNext(u, Locking(step), BuildOp(front, back, window));
    LockedBlock(u, Run(u, Locking(step)), front, back, window);
    FitPassesRaises(u, Run(u, Locking(step)), front, back, window, 1, |front|, 0);
  }
}
