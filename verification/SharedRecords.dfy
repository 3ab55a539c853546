/** How a user step is lost in a store that hands out its own records: runs of any
    number of steps, at the default coefficients and thresholds. */
module SharedRecords {
  import opened Wrappers
  import opened Records
  import opened Reals
  import opened Decay
  import opened Compression
  import Render
  import opened WindowFit
  import opened ContextBuild
  import opened ContextRuns
  import Mutators = CompressionRuns

  /** A record that only its level was changed of. */
  predicate Uncited(ref: RefRecord, id: int, group: int) {
    ref == NewRef(id, group).(level := ref.level)
  }

  predicate AllUncited(refs: Refs, group: int) {
    forall id | id in refs :: Uncited(refs[id], id, group)
  }

  /** A user step, followed by long outputs of a tool. */
  predicate Longs(steps: Steps, n: nat) {
    && (forall id | id in steps :: 1 <= id <= n + 1)
    && (forall id | 1 <= id <= n + 1 :: id in steps)
    && (forall id | 2 <= id <= n + 1 :: steps[id].kind == Tool && steps[id].tokenCount == 200000)
    && steps[1].kind == User && !steps[1].transient
  }

  predicate Begun(s: Mutators.State, n: nat, group: int) {
    && s.current == n + 1 && Longs(s.steps, n)
    && s.refs.Keys == s.steps.Keys && AllUncited(s.refs, group)
    && s.refs[1].level == if n == 0 then 0 else 2
  }

  predicate Defaulted(cfg: Config) {
    cfg.decay == DEFAULTS && cfg.thresholds == DEFAULT_THRESHOLDS
  }

  lemma UncitedPressure(ref: RefRecord, id: int, group: int, raw: nat)
    requires Uncited(ref, id, group)
    ensures ComputeDecay(ref, raw, false, group, DEFAULTS) == raw as real
  {
    var r := raw as real;
    OverIs(1.0, 1.0, 1.0);
    TimesOne(r);
    TimesOne(1.0);
    OverIs(r, 1.0, r);
  }

  lemma {:induction false} TokensAtLeast(tokens: map<int, nat>, first: int, last: int)
    requires first <= last && last in tokens
    ensures SumTokens(tokens, first, last) >= tokens[last]
    decreases last - first
  {
    if first < last {
      TokensAtLeast(tokens, first + 1, last);
    } else {
      assert SumTokens(tokens, last + 1, last) == 0;
    }
  }

  /** What the pass of the next long output does to an uncited record. */
  lemma PassOfLong(steps: Steps, n: nat, group: int, cfg: Config, id: int, ref: RefRecord)
    requires Defaulted(cfg) && Longs(steps, n) && n >= 1 && Uncited(ref, id, group)
    ensures var after := Decayed(steps, n + 1, group, cfg, id, ref);
            Uncited(after, id, group) && (id == 1 && ref.level <= 2 ==> after.level == 2)
  {
    TokensAtLeast(Compression.Tokens(steps), n + 1, n + 1);
    UncitedPressure(ref, id, group, RawDecay(ref, Compression.Tokens(steps), n + 1));
  }

  /** Every step is active and uncited, the user step up to the level. */
  predicate UpTo(steps: Steps, n: nat, refs: Refs, group: int, level: int) {
    Longs(steps, n) && refs.Keys == steps.Keys && AllUncited(refs, group) && refs[1].level <= level
  }

  lemma PassOfAll(steps: Steps, n: nat, current: int, refs: Refs, group: int, cfg: Config)
    requires Defaulted(cfg) && n >= 1 && current == n + 1 && UpTo(steps, n, refs, group, 2)
    ensures var after := PerStepDecay(steps, refs, current, group, cfg);
            UpTo(steps, n, after, group, 2) && after[1].level == 2
  {
    var after := PerStepDecay(steps, refs, current, group, cfg);
    forall id | id in refs ensures Uncited(after[id], id, group) && (id == 1 && refs[id].level <= 2 ==> after[id].level == 2) {
      PassOfLong(steps, n, group, cfg, id, refs[id]);
    }
  }

  lemma NewUncited(refs: Refs, id: int, group: int)
    requires AllUncited(refs, group)
    ensures AllUncited(refs[id := NewRef(id, group)], group)
  {
  }

  lemma MoreLongs(steps: Steps, n: nat, id: int, a: StepRecord)
    requires Longs(steps, n) && id == n + 2 && a.kind == Tool && a.tokenCount == 200000
    ensures Longs(steps[id := a.(stepId := id)], n + 1)
  {
  }

  /** What an ingestion without a budget does to the steps and the records. */
  function PassedSteps(s: Mutators.State, step: StepRecord): Steps {
    s.steps[s.current + 1 := step.(stepId := s.current + 1)]
  }

  function WithRecord(s: Mutators.State, group: int): Refs {
    s.refs[s.current + 1 := NewRef(s.current + 1, group)]
  }

  function Passed(s: Mutators.State, step: StepRecord, group: int, cfg: Config): Mutators.State
    requires NonNegative(cfg.decay)
  {
    Mutators.State(PassedSteps(s, step),
                   PerStepDecay(PassedSteps(s, step), WithRecord(s, group), s.current + 1, group, cfg), s.current + 1, s.late)
  }

  lemma BegunWith(s: Mutators.State, n: nat, group: int, steps: Steps, refs: Refs)
    requires s.current == n + 1 && s.steps == steps && s.refs == refs && Longs(steps, n)
    requires refs.Keys == steps.Keys && AllUncited(refs, group) && refs[1].level == if n == 0 then 0 else 2
    ensures Begun(s, n, group)
  {
  }

  lemma PassedLongs(s: Mutators.State, n: nat, next: nat, group: int, a: StepRecord)
    requires Begun(s, n, group) && next == n + 1 && a.kind == Tool && a.tokenCount == 200000
    ensures Longs(PassedSteps(s, a), next) && PassedSteps(s, a).Keys == s.steps.Keys + {s.current + 1}
  {
    MoreLongs(s.steps, n, s.current + 1, a);
  }

  lemma WithNew(s: Mutators.State, n: nat, next: nat, group: int, a: StepRecord)
    requires Begun(s, n, group) && a.kind == Tool && a.tokenCount == 200000 && next == n + 1
    ensures UpTo(PassedSteps(s, a), next, WithRecord(s, group), group, 2)
  {
    NewUncited(s.refs, s.current + 1, group);
    PassedLongs(s, n, next, group, a);
    assert WithRecord(s, group).Keys == s.steps.Keys + {s.current + 1};
  }

  lemma NextLong(s: Mutators.State, n: nat, next: nat, group: int, cfg: Config, a: StepRecord)
    requires Defaulted(cfg) && Begun(s, n, group) && next == n + 1 && a.kind == Tool && a.tokenCount == 200000
    ensures Begun(Passed(s, a, group, cfg), next, group)
  {
    WithNew(s, n, next, group, a);
    PassOfAll(PassedSteps(s, a), next, s.current + 1, WithRecord(s, group), group, cfg);
    BegunWith(Passed(s, a, group, cfg), next, group, PassedSteps(s, a), Passed(s, a, group, cfg).refs);
  }

  lemma FirstLong(group: int, cfg: Config, user: StepRecord)
    requires Defaulted(cfg) && user.kind == User && !user.transient
    ensures Begun(Passed(Mutators.Initial(), user, group, cfg), 0, group)
  {
    var steps: Steps := map[1 := user.(stepId := 1)];
    var refs: Refs := map[1 := NewRef(1, group)];
    assert PerStepDecay(steps, refs, 1, group, cfg) == refs;
    assert Passed(Mutators.Initial(), user, group, cfg) == Mutators.State(steps, refs, 1, map[]);
  }

  /** The run that ingests a user step and then `n` long outputs. */
  function LongRun(user: StepRecord, tool: StepRecord, n: nat): seq<Op> {
    seq(n + 1, i => MutateOp(Mutators.IngestOp(if i == 0 then user else tool, 0)))
  }

  lemma LongRunIs(user: StepRecord, tool: StepRecord, n: nat)
    ensures n == 0 ==> LongRun(user, tool, n) == [MutateOp(Mutators.IngestOp(user, 0))]
    ensures n > 0 ==> LongRun(user, tool, n) == LongRun(user, tool, n - 1) + [MutateOp(Mutators.IngestOp(tool, 0))]
  {
  }

  lemma IngestStep(u: Setup, ops: seq<Op>, step: StepRecord)
    requires NonNegative(u.cfg.decay)
    ensures Run(u, ops + [MutateOp(Mutators.IngestOp(step, 0))]).mem ==
            Passed(Run(u, ops).mem, step, u.group, u.cfg)
  {
    RunNext(u, ops, MutateOp(Mutators.IngestOp(step, 0)));
  }

  predicate BegunAfter(u: Setup, ops: seq<Op>, n: nat)
    requires NonNegative(u.cfg.decay)
  {
    Begun(Run(u, ops).mem, n, u.group)
  }

  lemma BegunNext(u: Setup, ops: seq<Op>, tool: StepRecord, n: nat, next: nat)
    requires Defaulted(u.cfg) && BegunAfter(u, ops, n) && next == n + 1 && tool.kind == Tool
             && tool.tokenCount == 200000
    ensures BegunAfter(u, ops + [MutateOp(Mutators.IngestOp(tool, 0))], next)
  {
    IngestStep(u, ops, tool);
    NextLong(Run(u, ops).mem, n, next, u.group, u.cfg, tool);
  }

  lemma BegunFirst(u: Setup, user: StepRecord)
    requires Defaulted(u.cfg) && user.kind == User && !user.transient
    ensures BegunAfter(u, [MutateOp(Mutators.IngestOp(user, 0))], 0)
  {
    FirstLong(u.group, u.cfg, user);
    IngestStep(u, [], user);
    assert [] + [MutateOp(Mutators.IngestOp(user, 0))] == [MutateOp(Mutators.IngestOp(user, 0))];
  }

  lemma {:induction false} LongRunBegun(u: Setup, user: StepRecord, tool: StepRecord, n: nat)
    requires Defaulted(u.cfg) && user.kind == User && !user.transient && tool.kind == Tool && tool.tokenCount == 200000
    ensures BegunAfter(u, LongRun(user, tool, n), n)
    decreases n
  {
    LongRunIs(user, tool, n);
    if n == 0 {
      BegunFirst(u, user);
    } else {
      LongRunBegun(u, user, tool, n - 1);
      BegunNext(u, LongRun(user, tool, n - 1), tool, n - 1, n);
    }
  }

  // ------------------------------------------------------------------ the build

  lemma {:induction false} RangeSize(ids: set<int>, n: nat)
    requires forall id :: id in ids <==> 1 <= id <= n
    ensures |ids| == n
  {
    if n == 0 {
      SomeId(ids);
    } else {
      RangeSize(ids - {n}, n - 1);
    }
  }

  /** With or without the pressure for a reorganisation. */
  lemma RefsForBegun(u: Setup, s: State, n: nat)
    requires Defaulted(u.cfg) && Begun(s.mem, n, u.group) && n >= 1
    ensures RefsFor(u, s).Keys == s.mem.refs.Keys && AllUncited(RefsFor(u, s), u.group) && RefsFor(u, s)[1].level == 2
  {
    var refs := RefsFor(u, s);
    forall id | id in refs ensures Uncited(refs[id], id, u.group) {
      assert Uncited(s.mem.refs[id], id, u.group);
    }
  }

  lemma FirstInFront(refs: Refs, n: nat)
    requires forall id :: id in refs <==> 1 <= id <= n + 1
    ensures var ids := ActiveIds(refs); |ids| == n + 1 && ids[0] == 1 && Ascending(ids)
  {
    SortedIdsAscend(refs.Keys);
    RangeSize(refs.Keys, n + 1);
    var ids := ActiveIds(refs);
    assert ids[0] in ids && 1 in ids;
    var j :| 0 <= j < |ids| && ids[j] == 1;
  }

  lemma {:induction false} PresentFirst(blocks: seq<Option<Render.Block>>)
    requires |blocks| > 0 && blocks[0].Some?
    ensures |Present(blocks)| > 0 && Present(blocks)[0] == blocks[0].value
  {
    if |blocks| == 1 {
      assert Present(blocks[..0]) == [];
    } else {
      PresentFirst(blocks[..|blocks| - 1]);
    }
  }

  /** The first block of the history shows the user step at the level stored. */
  lemma UserShown(u: Setup, s: State, n: nat, front: seq<Render.Block>, back: seq<Render.Block>)
    requires Defaulted(u.cfg) && Begun(s.mem, n, u.group) && n >= 1 && u.cfg.tailKeepSteps <= n
    ensures var refs, all := RefsFor(u, s), BlocksFor(u, s, front, back);
            && |all| > |front| && all[|front|].stepId == 1 && all[|front|].level == 2
            && ShowsStep(refs, ActiveIds(refs), u.cfg.tailKeepSteps, 0, all[|front|]) && !InTail(u, s, 0)
            && ActiveIds(refs)[0] == 1
  {
    var refs, texts, tail := RefsFor(u, s), TextsOf(u, s), u.cfg.tailKeepSteps;
    RefsForBegun(u, s, n);
    FirstInFront(refs, n);
    var ids := ActiveIds(refs);
    var blocks := HistoryThrough(s.cache, texts, refs, ids, tail, |ids|).1;
    HistoryThroughShape(s.cache, texts, refs, ids, tail, |ids|);
    assert HistoryShape(texts, refs, ids, tail, 0, blocks[0]);
    PresentFirst(blocks);
    assert BlocksFor(u, s, front, back) == front + Present(blocks) + back;
  }

  lemma {:induction false} TotalSum(a: seq<Render.Block>, b: seq<Render.Block>)
    ensures Total(a + b) == Total(a) + Total(b)
  {
    if b == [] {
      assert a + b == a;
    } else {
      TotalSum(a, b[..|b| - 1]);
      assert (a + b)[..|a + b| - 1] == a + b[..|b| - 1];
    }
  }

  lemma TotalAround(front: seq<Render.Block>, mid: seq<Render.Block>, back: seq<Render.Block>)
    ensures Total(front + mid + back) >= Total(front) + Total(back)
  {
    TotalSum(front + mid, back);
    TotalSum(front, mid);
  }

  lemma FitKeepsOthers(cache: Render.Cache, texts: Render.Texts, active: set<int>, all: seq<Render.Block>, window: int)
    ensures var fit := FitThrough(cache, texts, active, all, window, 0);
            forall j | 0 <= j < |all| && !Raisable(all[j]) :: fit.blocks[j] == all[j]
  {
    var fit := FitThrough(cache, texts, active, all, window, 0);
    FitThroughShape(cache, texts, active, all, window, 0);
    forall j | 0 <= j < |all| && !Raisable(all[j]) ensures fit.blocks[j] == all[j] {
      assert j < fit.through ==> SqueezedOrSame(texts.tags, all[j], fit.blocks[j]);
    }
  }

  lemma AroundKept(front: seq<Render.Block>, mid: seq<Render.Block>, back: seq<Render.Block>, blocks: seq<Render.Block>)
    requires Elsewhere(front) && Elsewhere(back) && |blocks| == |front| + |mid| + |back|
    requires var all := front + mid + back; forall j | 0 <= j < |all| && !Raisable(all[j]) :: blocks[j] == all[j]
    ensures blocks == front + blocks[|front|..|front| + |mid|] + back
  {
    var all := front + mid + back;
    forall j | 0 <= j < |front| ensures blocks[j] == front[j] {
      assert all[j] == front[j];
    }
    forall j | 0 <= j < |back| ensures blocks[|front| + |mid| + j] == back[j] {
      assert all[|front| + |mid| + j] == back[j];
    }
  }

  /** A window that the blocks around the history fill already makes the fit go
      through all blocks. */
  lemma FullWindow(cache: Render.Cache, texts: Render.Texts, active: set<int>, front: seq<Render.Block>,
                   mid: seq<Render.Block>, back: seq<Render.Block>, window: int)
    requires Elsewhere(front) && Elsewhere(back) && window < Total(front) + Total(back)
    ensures FitThrough(cache, texts, active, front + mid + back, window, 0).through == |front + mid + back|
  {
    var all, fit := front + mid + back, FitThrough(cache, texts, active, front + mid + back, window, 0);
    FitThroughShape(cache, texts, active, all, window, 0);
    FitKeepsOthers(cache, texts, active, all, window);
    AroundKept(front, mid, back, fit.blocks);
    TotalAround(front, fit.blocks[|front|..|front| + |mid|], back);
  }

  lemma {:induction false} FitKeepsUncited(refs: Refs, blocks: seq<Render.Block>, n: nat, group: int)
    requires n <= |blocks| && AllUncited(refs, group)
    ensures AllUncited(FitRefs(refs, blocks, n), group)
  {
    if n > 0 {
      FitKeepsUncited(refs, blocks, n - 1, group);
    }
  }

  /** The build squeezes the user step past its cap. */
  lemma BuildMasksUser(u: Setup, s: State, n: nat, front: seq<Render.Block>, back: seq<Render.Block>, window: int)
    requires Defaulted(u.cfg) && Mutators.Valid(s.mem) && Begun(s.mem, n, u.group)
    requires n >= 1 && u.cfg.tailKeepSteps <= n && u.sharing
    requires Elsewhere(front) && Elsewhere(back) && window < Total(front) + Total(back)
    ensures PassesCap(u, s, front, back, window)
    ensures var refs := Build(u, s, front, back, window).refs;
            refs.Keys == s.mem.refs.Keys && AllUncited(refs, u.group) && refs[1].level == 3
  {
    var refs, texts, all := RefsFor(u, s), TextsOf(u, s), BlocksFor(u, s, front, back);
    var ids, k := ActiveIds(refs), Through(u, s, front, back, window);
    RefsForBegun(u, s, n);
    UserShown(u, s, n, front, back);
    var (after, history) := HistoryThrough(s.cache, texts, refs, ids, u.cfg.tailKeepSteps, |ids|);
    FullWindow(after, texts, refs.Keys, front, Present(history), back, window);
    BlocksShow(u, s, front, back);
    assert GoesThrough(u, s, front, back, window, |front|, 0);
    FitRefsAt(refs, all, k, |front|);
    FitKeepsUncited(refs, all, k, u.group);
  }

  // ---------------------------------------------------------- and what comes of it

  lemma AllMasked(steps: Steps, n: nat, refs: Refs, group: int, cfg: Config)
    requires Defaulted(cfg) && Longs(steps, n) && n >= 1 && refs.Keys == steps.Keys && AllUncited(refs, group)
    requires refs[1].level == 3
    ensures Archived(BatchCompression(steps, refs, n + 1, group, cfg), group)
    ensures forall id | id in refs :: BatchCompression(steps, refs, n + 1, group, cfg)[id].taskGroupId == group
  {
    var after := BatchCompression(steps, refs, n + 1, group, cfg);
    TokensAtLeast(Compression.Tokens(steps), 0, n + 1);
    forall id | id in refs ensures Settled(after[id]) && after[id].taskGroupId == group {
      UncitedPressure(refs[id], id, group, SumTokens(Compression.Tokens(steps), 0, n + 1));
    }
  }

  /** Batch compression masks the other steps, and archiving removes them all. */
  lemma MaskedAndArchived(steps: Steps, n: nat, refs: Refs, group: int, cfg: Config)
    requires Defaulted(cfg) && Longs(steps, n) && n >= 1 && refs.Keys == steps.Keys && AllUncited(refs, group)
    requires refs[1].level == 3
    ensures var masked := BatchCompression(steps, refs, n + 1, group, cfg);
            Archived(masked, group) && ArchiveTaskGroups(masked) == map[]
  {
    AllMasked(steps, n, refs, group, cfg);
    GroupArchived(BatchCompression(steps, refs, n + 1, group, cfg), group);
  }

  /** What the three steps do to the records, one after the other. */
  lemma BuiltCompressedArchived(u: Setup, s: State, front: seq<Render.Block>, back: seq<Render.Block>, window: int)
    requires NonNegative(u.cfg.decay)
    ensures var built := Step(u, s, BuildOp(front, back, window));
            var last := Step(u, Step(u, built, MutateOp(Mutators.CompressOp)), MutateOp(Mutators.ArchiveOp)).mem;
            var refs := Build(u, s, front, back, window).refs;
            last == s.mem.(refs := ArchiveTaskGroups(BatchCompression(s.mem.steps, refs, s.mem.current, u.group, u.cfg)))
  {
  }

  lemma GroupArchived(refs: Refs, group: int)
    requires Archived(refs, group) && forall id | id in refs :: refs[id].taskGroupId == group
    ensures ArchiveTaskGroups(refs) == map[]
  {
    forall id | id in refs ensures id !in ArchiveTaskGroups(refs) {
    }
    assert ArchiveTaskGroups(refs).Keys <= refs.Keys;
  }

  /** In a store that hands out its own records, at the default coefficients and
      thresholds, whatever the tail and the pressure for a reorganisation: after a
      user step and enough long outputs, a build for a window that is filled already
      squeezes the user step past its cap, and once the other steps are masked too,
      by batch compression, the archiving of the task group removes it. */
  lemma UserLost(u: Setup, user: StepRecord, tool: StepRecord, n: nat, front: seq<Render.Block>,
                 back: seq<Render.Block>,
                 window: int)
    requires Defaulted(u.cfg) && u.sharing && n >= 1 && u.cfg.tailKeepSteps <= n
    requires user.kind == User && !user.transient && tool.kind == Tool && tool.tokenCount == 200000
    requires Elsewhere(front) && Elsewhere(back) && window < Total(front) + Total(back)
    ensures var ops := LongRun(user, tool, n);
            var later := [BuildOp(front, back, window), MutateOp(Mutators.CompressOp), MutateOp(Mutators.ArchiveOp)];
            var s := Run(u, ops + later).mem;
            && Lawful(u, ops) && PassesCap(u, Run(u, ops), front, back, window)
            && 1 in s.steps && s.steps[1].kind == User && !s.steps[1].transient && 1 !in s.refs
  {
    var ops := LongRun(user, tool, n);
    LongRunBegun(u, user, tool, n);
    MutationsLawful(u, ops);
    RunValidIff(u, ops);
    LostFrom(u, Run(u, ops), n, front, back, window);
    RunLeaves(u, ops, front, back, window);
  }

  lemma RunLeaves(u: Setup, ops: seq<Op>, front: seq<Render.Block>, back: seq<Render.Block>, window: int)
    requires NonNegative(u.cfg.decay)
    ensures var later := [BuildOp(front, back, window), MutateOp(Mutators.CompressOp), MutateOp(Mutators.ArchiveOp)];
            var s := Run(u, ops); var refs := Build(u, s, front, back, window).refs;
            Run(u, ops + later).mem ==
            s.mem.(refs := ArchiveTaskGroups(BatchCompression(s.mem.steps, refs, s.mem.current, u.group, u.cfg)))
  {
    RunThreeMore(u, ops, BuildOp(front, back, window), MutateOp(Mutators.CompressOp), MutateOp(Mutators.ArchiveOp));
    BuiltCompressedArchived(u, Run(u, ops), front, back, window);
  }

  lemma LostFrom(u: Setup, s: State, n: nat, front: seq<Render.Block>, back: seq<Render.Block>, window: int)
    requires Defaulted(u.cfg) && Mutators.Valid(s.mem) && Begun(s.mem, n, u.group)
    requires n >= 1 && u.cfg.tailKeepSteps <= n && u.sharing
    requires Elsewhere(front) && Elsewhere(back) && window < Total(front) + Total(back)
    ensures PassesCap(u, s, front, back, window)
    ensures var refs := Build(u, s, front, back, window).refs;
            ArchiveTaskGroups(BatchCompression(s.mem.steps, refs, s.mem.current, u.group, u.cfg)) == map[]
    ensures 1 in s.mem.steps && s.mem.steps[1].kind == User && !s.mem.steps[1].transient
  {
    BuildMasksUser(u, s, n, front, back, window);
    MaskedAndArchived(s.mem.steps, n, Build(u, s, front, back, window).refs, u.group, u.cfg);
  }

  /** Runs of mutators alone are lawful. */
  lemma {:induction false} MutationsLawful(u: Setup, ops: seq<Op>)
    requires NonNegative(u.cfg.decay) && forall i | 0 <= i < |ops| :: ops[i].MutateOp?
    ensures Lawful(u, ops)
  {
    if ops != [] {
      MutationsLawful(u, ops[..|ops| - 1]);
    }
  }

  lemma RunThreeMore(u: Setup, ops: seq<Op>, a: Op, b: Op, c: Op)
    requires NonNegative(u.cfg.decay)
    ensures Run(u, ops + [a, b, c]) == Step(u, Step(u, Step(u, Run(u, ops), a), b), c)
  {
    RunNext(u, ops, a);
    RunNext(u, ops + [a], b);
    RunNext(u, ops + [a] + [b], c);
    assert ops + [a] + [b] + [c] == ops + [a, b, c];
  }
}
