/** Runs of everything at once: the mutators of the records, writes of the steps'
    texts, the cache, and the building of contexts, in a store that hands out
    copies of its records or the records themselves. */
module ContextRuns {
  import opened Wrappers
  import opened Records
  import opened Decay
  import opened Compression
  import opened Truncation
  import opened Render
  import opened WindowFit
  import opened ContextBuild
  import Mutators = CompressionRuns

  /** What stays the same over a run; `sharing` tells a store that hands out its own
      records, as the JSONL store does. */
  datatype Setup = Setup(group: int, cfg: Config, sharing: bool, windowTokens: int, threshold: real,
                         mark: (int, StepType, int) -> string, tags: seq<string>)

  datatype State = State(mem: Mutators.State, l1: map<int, string>, l2: map<int, seq<string>>, l3: map<int, string>,
                         cache: Cache)

  datatype Op =
    | MutateOp(op: Mutators.Op)
      // a text of its own for one of the levels 1 to 3 of a step
    | WriteOp(id: int, write: Write)
    | InvalidateOp(id: int)
    | InvalidateAllOp
      // `front` and `back` are the blocks around the history
    | BuildOp(front: seq<Block>, back: seq<Block>, window: int)

  function Initial(): State {
    State.State(Mutators.Initial(), map[], map[], map[], map[])
  }

  function TextsOf(u: Setup, s: State): Texts {
    Texts(s.mem.steps, s.l1, s.l2, s.l3, u.mark, u.tags)
  }

  /** The records that the next context is built from. */
  function RefsFor(u: Setup, s: State): Refs {
    BuildRefs(s.mem.steps, s.mem.refs, s.mem.current, u.cfg, u.windowTokens, u.threshold)
  }

  function Build(u: Setup, s: State, front: seq<Block>, back: seq<Block>, window: int): Built {
    BuiltThrough(s.cache, TextsOf(u, s), RefsFor(u, s), u.cfg.tailKeepSteps, u.sharing, front, back, window)
  }

  /** The engine writes texts of ingested steps only. */
  predicate Writes(s: State, op: Op) {
    op.WriteOp? && !op.write.WriteStep? && op.id in s.mem.steps
  }

  function WithTexts(s: State, texts: Texts): State {
    s.(l1 := texts.l1, l2 := texts.l2, l3 := texts.l3)
  }

  function Step(u: Setup, s: State, op: Op): State
    requires NonNegative(u.cfg.decay)
  {
    match op
    case MutateOp(op) =>
      var mem := Mutators.Step(s.mem, op, u.group, u.cfg);
      s.(mem := mem,
         cache := if op.CleanupOp? || op.EmergencyOp? then Dropped(s.cache, s.mem.refs, mem.refs) else s.cache)
    case WriteOp(id, write) => if Writes(s, op) then WithTexts(s, Written(TextsOf(u, s), id, write)) else s
    case InvalidateOp(id) => s.(cache := s.cache - {id})
    case InvalidateAllOp => s.(cache := map[])
    case BuildOp(front, back, window) =>
      var built := Build(u, s, front, back, window);
      s.(mem := s.mem.(refs := built.refs), cache := built.cache)
  }

  function Run(u: Setup, ops: seq<Op>): State
    requires NonNegative(u.cfg.decay)
  {
    if ops == [] then Initial() else Step(u, Run(u, ops[..|ops| - 1]), ops[|ops| - 1])
  }

  lemma RunNext(u: Setup, ops: seq<Op>, op: Op)
    requires NonNegative(u.cfg.decay)
    ensures Run(u, ops + [op]) == Step(u, Run(u, ops), op)
  {
    assert (ops + [op])[..|ops|] == ops;
  }

  /** What each step of a run does to the cache: a clean-up and an emergency drop what
      they change, an invalidation drops a step or all, a build leaves what it rendered
      on the way, and the rest leaves it alone. */
  lemma CacheAfter(u: Setup, s: State, op: Op)
    requires NonNegative(u.cfg.decay)
    ensures var next := Step(u, s, op);
            match op
            case MutateOp(mutation) =>
              && next == s.(mem := Mutators.Step(s.mem, mutation, u.group, u.cfg), cache := next.cache)
              && next.cache == if mutation.CleanupOp? || mutation.EmergencyOp?
                               then Dropped(s.cache, s.mem.refs, next.mem.refs) else s.cache
            case WriteOp(id, write) =>
              next.cache == s.cache && next.mem == s.mem &&
              TextsOf(u, next) == if id in s.mem.steps && !write.WriteStep? then Written(TextsOf(u, s), id, write)
                                  else TextsOf(u, s)
            case InvalidateOp(id) =>
              && next == s.(cache := next.cache) && id !in next.cache
              && forall x | x != id :: (x in next.cache <==> x in s.cache) && (x in s.cache ==> next.cache[x] == s.cache[x])
            case InvalidateAllOp => next == s.(cache := map[])
            case BuildOp(front, back, window) =>
              var built := Build(u, s, front, back, window);
              next == s.(mem := s.mem.(refs := built.refs), cache := built.cache)
  {
  }

  // ------------------------------------------------------ every build is fresh

  predicate TextsKnown(texts: Texts) {
    texts.l1.Keys <= texts.steps.Keys && texts.l2.Keys <= texts.steps.Keys && texts.l3.Keys <= texts.steps.Keys
  }

  predicate CacheKnown(cache: Cache, texts: Texts) {
    cache.Keys <= texts.steps.Keys && Renderable(cache)
  }

  /** Only ingested steps have texts, and only they are cached, at the levels that
      there are. */
  predicate Known(u: Setup, s: State) {
    && s.mem.current >= 0
    && Mutators.StepsNumbered(s.mem.steps, s.mem.current)
    && TextsKnown(TextsOf(u, s)) && CacheKnown(s.cache, TextsOf(u, s))
  }

  lemma RenderedKnown(cache: Cache, texts: Texts, id: int, level: int)
    requires TextsKnown(texts) && CacheKnown(cache, texts)
    ensures CacheKnown(Rendered(cache, texts, id, level).0, texts)
  {
    assert Fresh(texts, id, level).Some? ==> id in texts.steps;
  }

  lemma {:induction false} HistoryKnown(cache: Cache, texts: Texts, refs: Refs, ids: seq<int>, tailKeepSteps: nat,
                                        n: nat)
    requires TextsKnown(texts) && CacheKnown(cache, texts) && n <= |ids|
    ensures CacheKnown(HistoryThrough(cache, texts, refs, ids, tailKeepSteps, n).0, texts)
  {
    if n > 0 {
      HistoryKnown(cache, texts, refs, ids, tailKeepSteps, n - 1);
      var before := HistoryThrough(cache, texts, refs, ids, tailKeepSteps, n - 1).0;
      if ids[n - 1] in refs {
        RenderedKnown(before, texts, ids[n - 1], refs[ids[n - 1]].level);
      }
    }
  }

  lemma {:induction false} FitKnown(cache: Cache, texts: Texts, active: set<int>, blocks: seq<Block>, window: int,
                                    i: nat)
    requires TextsKnown(texts) && CacheKnown(cache, texts) && i <= |blocks|
    ensures CacheKnown(FitThrough(cache, texts, active, blocks, window, i).cache, texts)
    decreases |blocks| - i
  {
    if i < |blocks| && Total(blocks) > window {
      RenderedKnown(cache, texts, blocks[i].stepId, blocks[i].level + 1);
      var (after, block) := RaisedThrough(cache, texts, active, blocks[i]);
      FitKnown(after, texts, active, blocks[i := block], window, i + 1);
    }
  }

  lemma BuildKnown(u: Setup, s: State, front: seq<Block>, back: seq<Block>, window: int)
    requires Known(u, s)
    ensures CacheKnown(Build(u, s, front, back, window).cache, TextsOf(u, s))
  {
    var texts, refs := TextsOf(u, s), RefsFor(u, s);
    HistoryKnown(s.cache, texts, refs, ActiveIds(refs), u.cfg.tailKeepSteps, |ActiveIds(refs)|);
    var (after, all) := Assembled(s.cache, texts, refs, u.cfg.tailKeepSteps, front, back);
    FitKnown(after, texts, refs.Keys, all, window, 0);
  }

  /** A mutator of the records ingests the next step or leaves every step its content
      and type. */
  lemma MutatorSteps(s: Mutators.State, op: Mutators.Op, group: int, cfg: Config)
    requires NonNegative(cfg.decay) && s.current >= 0 && Mutators.StepsNumbered(s.steps, s.current)
    ensures var next := Mutators.Step(s, op, group, cfg);
            && Mutators.StepsNumbered(next.steps, next.current) && next.current >= 0
            && s.steps.Keys <= next.steps.Keys
            && forall id | id in s.steps ::
                 next.steps[id].content == s.steps[id].content && next.steps[id].kind == s.steps[id].kind
  {
  }

  lemma WriteKnown(u: Setup, s: State, id: int, write: Write)
    requires NonNegative(u.cfg.decay) && Known(u, s)
    ensures Known(u, Step(u, s, Op.WriteOp(id, write)))
  {
  }

  lemma MutateKnown(u: Setup, s: State, op: Mutators.Op)
    requires NonNegative(u.cfg.decay) && Known(u, s)
    ensures Known(u, Step(u, s, MutateOp(op)))
  {
    MutatorSteps(s.mem, op, u.group, u.cfg);
  }

  lemma StepKnown(u: Setup, s: State, op: Op)
    requires NonNegative(u.cfg.decay) && Known(u, s)
    ensures Known(u, Step(u, s, op))
  {
    match op
    case MutateOp(op) => MutateKnown(u, s, op);
    case BuildOp(front, back, window) => BuildKnown(u, s, front, back, window);
    case WriteOp(id, write) => WriteKnown(u, s, id, write);
    case InvalidateOp(id) =>
    case InvalidateAllOp =>
  }

  /** What is rendered of a known step does not change when steps are ingested or
      marked transient. */
  lemma SameStepsCoherent(cache: Cache, before: Texts, steps: Steps)
    requires Coherent(cache, before) && CacheKnown(cache, before) && before.steps.Keys <= steps.Keys
    requires forall id | id in before.steps ::
               steps[id].content == before.steps[id].content && steps[id].kind == before.steps[id].kind
    ensures Coherent(cache, before.(steps := steps))
  {
    var after := before.(steps := steps);
    forall id | id in cache ensures EntryFresh(after, id, cache[id]) {
      assert EntryFresh(before, id, cache[id]);
      assert FromStore(after, id, cache[id].level) == FromStore(before, id, cache[id].level);
    }
  }

  /** A write that the cache should have noticed: it changes the text that the step
      is cached with. */
  predicate Noticed(u: Setup, s: State, op: Op) {
    Writes(s, op) && !Unnoticed(Render.State(TextsOf(u, s), s.cache), Render.WriteOp(op.id, op.write))
  }

  lemma MutateCoherent(u: Setup, s: State, op: Mutators.Op)
    requires NonNegative(u.cfg.decay) && Known(u, s) && Coherent(s.cache, TextsOf(u, s))
    ensures var next := Step(u, s, MutateOp(op)); Coherent(next.cache, TextsOf(u, next))
  {
    var next := Step(u, s, MutateOp(op));
    MutatorSteps(s.mem, op, u.group, u.cfg);
    SameStepsCoherent(s.cache, TextsOf(u, s), next.mem.steps);
    FewerCoherent(s.cache, TextsOf(u, next), next.cache);
  }

  lemma WriteCoherentIff(u: Setup, s: State, op: Op)
    requires NonNegative(u.cfg.decay) && Coherent(s.cache, TextsOf(u, s)) && Writes(s, op)
    ensures var next := Step(u, s, op); Coherent(next.cache, TextsOf(u, next)) <==> !Noticed(u, s, op)
  {
    Render.StepCoherentIff(Render.State(TextsOf(u, s), s.cache), Render.WriteOp(op.id, op.write));
    assert TextsOf(u, Step(u, s, op)) == Written(TextsOf(u, s), op.id, op.write);
  }

  /** One step keeps a coherent cache coherent exactly if it is no such write. */
  lemma StepCoherentIff(u: Setup, s: State, op: Op)
    requires NonNegative(u.cfg.decay) && Known(u, s) && Coherent(s.cache, TextsOf(u, s))
    ensures Coherent(Step(u, s, op).cache, TextsOf(u, Step(u, s, op))) <==> !Noticed(u, s, op)
  {
    match op
    case MutateOp(op) => MutateCoherent(u, s, op);
    case WriteOp(id, write) =>
      if Writes(s, op) {
        WriteCoherentIff(u, s, op);
      }
    case InvalidateOp(id) => FewerCoherent(s.cache, TextsOf(u, s), s.cache - {id});
    case InvalidateAllOp =>
    case BuildOp(front, back, window) =>
      BuiltFresh(s.cache, TextsOf(u, s), RefsFor(u, s), u.cfg.tailKeepSteps, u.sharing, front, back, window);
  }

  /** No write in the run is one that the cache should have noticed. */
  predicate Disciplined(u: Setup, ops: seq<Op>)
    requires NonNegative(u.cfg.decay)
  {
    ops != [] ==>
      var before := ops[..|ops| - 1];
      Disciplined(u, before) && !Noticed(u, Run(u, before), ops[|ops| - 1])
  }

  lemma {:induction false} RunKnown(u: Setup, ops: seq<Op>)
    requires NonNegative(u.cfg.decay)
    ensures Known(u, Run(u, ops))
  {
    if ops != [] {
      RunKnown(u, ops[..|ops| - 1]);
      StepKnown(u, Run(u, ops[..|ops| - 1]), ops[|ops| - 1]);
    }
  }

  lemma {:induction false} RunCoherent(u: Setup, ops: seq<Op>)
    requires NonNegative(u.cfg.decay) && Disciplined(u, ops)
    ensures Coherent(Run(u, ops).cache, TextsOf(u, Run(u, ops)))
  {
    if ops != [] {
      RunCoherent(u, ops[..|ops| - 1]);
      RunKnown(u, ops[..|ops| - 1]);
      StepCoherentIff(u, Run(u, ops[..|ops| - 1]), ops[|ops| - 1]);
    }
  }

  /** After every such run of mutators, writes and builds, whatever the earlier
      builds have rendered and cached on the way, the context built next is the one
      rendered from the store, */
  lemma BuildsAreFresh(u: Setup, ops: seq<Op>, front: seq<Block>, back: seq<Block>, window: int)
    requires NonNegative(u.cfg.decay) && Disciplined(u, ops)
    ensures var s := Run(u, ops);
            Build(u, s, front, back, window).blocks ==
            Context(TextsOf(u, s), RefsFor(u, s), u.cfg.tailKeepSteps, front, back, window)
  {
    RunCoherent(u, ops);
    var s := Run(u, ops);
    BuiltFresh(s.cache, TextsOf(u, s), RefsFor(u, s), u.cfg.tailKeepSteps, u.sharing, front, back, window);
  }

  /** and the first write that the cache should have noticed leaves one that shows. */
  lemma FirstNoticedWriteShows(u: Setup, ops: seq<Op>, op: Op)
    requires NonNegative(u.cfg.decay) && Disciplined(u, ops) && Noticed(u, Run(u, ops), op)
    ensures var s := Run(u, ops + [op]); exists id, level :: Shows(s.cache, TextsOf(u, s), id, level)
  {
    RunKnown(u, ops);
    RunCoherent(u, ops);
    RunNext(u, ops, op);
    StepCoherentIff(u, Run(u, ops), op);
    IncoherentShows(Run(u, ops + [op]).cache, TextsOf(u, Run(u, ops + [op])));
  }

  // --------------------------------------------- user steps, with builds among the steps

  function BlocksFor(u: Setup, s: State, front: seq<Block>, back: seq<Block>): seq<Block> {
    Assembled(s.cache, TextsOf(u, s), RefsFor(u, s), u.cfg.tailKeepSteps, front, back).1
  }

  /** How many blocks the fit of the build goes through. */
  function Through(u: Setup, s: State, front: seq<Block>, back: seq<Block>, window: int): (k: nat)
    ensures k <= |BlocksFor(u, s, front, back)|
  {
    var (after, all) := Assembled(s.cache, TextsOf(u, s), RefsFor(u, s), u.cfg.tailKeepSteps, front, back);
    FitThrough(after, TextsOf(u, s), RefsFor(u, s).Keys, all, window, 0).through
  }

  /** The fit goes through the `i`-th block, which shows the `p`-th active step. */
  predicate GoesThrough(u: Setup, s: State, front: seq<Block>, back: seq<Block>, window: int, i: int, p: int) {
    var refs, all := RefsFor(u, s), BlocksFor(u, s, front, back);
    Sets(refs, all, Through(u, s, front, back, window), i) &&
    ShowsStep(refs, ActiveIds(refs), u.cfg.tailKeepSteps, p, all[i])
  }

  /** The `p`-th active step is in the tail, where it is shown at level 0. */
  predicate InTail(u: Setup, s: State, p: int) {
    p >= |ActiveIds(RefsFor(u, s))| - u.cfg.tailKeepSteps
  }

  /** The build would squeeze a user step past its cap: one in front of the tail that
      is stored at level 2, and that the fit goes through. */
  ghost predicate PassesCap(u: Setup, s: State, front: seq<Block>, back: seq<Block>, window: int) {
    var refs := RefsFor(u, s);
    exists i, p :: GoesThrough(u, s, front, back, window, i, p) && !InTail(u, s, p) &&
                   KindOf(s.mem.steps, ActiveIds(refs)[p]) == User && refs[ActiveIds(refs)[p]].level == 2
  }

  predicate OutsideOp(op: Op) {
    op.BuildOp? ==> Elsewhere(op.front) && Elsewhere(op.back)
  }

  /** What is built around the history carries numbers that are no step's. */
  predicate Outside(ops: seq<Op>) {
    forall i | 0 <= i < |ops| :: OutsideOp(ops[i])
  }

  lemma RefsForSound(u: Setup, s: State)
    requires NonNegative(u.cfg.decay) && Mutators.Valid(s.mem)
    ensures RefsSound(s.mem.steps, RefsFor(u, s)) && RefsFor(u, s).Keys == s.mem.refs.Keys
    ensures Mutators.Valid(s.mem.(refs := RefsFor(u, s)))
  {
    Mutators.RaisingValid(s.mem, Mutators.ReorganizeOp(false), u.group, u.cfg);
  }

  lemma ShownLevel(u: Setup, s: State, block: Block, p: int)
    requires NonNegative(u.cfg.decay) && Mutators.Valid(s.mem)
    requires ShowsStep(RefsFor(u, s), ActiveIds(RefsFor(u, s)), u.cfg.tailKeepSteps, p, block)
    ensures 0 <= block.level && (block.stepId in RefsFor(u, s) ==>
            block.level <= MaxLevelForType(KindOf(s.mem.steps, block.stepId)))
  {
    RefsForSound(u, s);
    assert block.stepId in RefsFor(u, s) ==> Sound(s.mem.steps, block.stepId, RefsFor(u, s)[block.stepId]);
  }

  /** What can be raised among the blocks of a build shows an active step, each step
      once. */
  lemma BlocksShow(u: Setup, s: State, front: seq<Block>, back: seq<Block>)
    requires Elsewhere(front) && Elsewhere(back)
    ensures var refs, all := RefsFor(u, s), BlocksFor(u, s, front, back);
            && OneEach(all)
            && (forall i | 0 <= i < |all| && Raisable(all[i]) ::
                  ShowsSome(refs, ActiveIds(refs), u.cfg.tailKeepSteps, |ActiveIds(refs)|, all[i]))
  {
    AssembledShape(s.cache, TextsOf(u, s), RefsFor(u, s), u.cfg.tailKeepSteps, front, back);
  }

  lemma BlocksNatural(u: Setup, s: State, front: seq<Block>, back: seq<Block>)
    requires NonNegative(u.cfg.decay) && Mutators.Valid(s.mem) && Elsewhere(front) && Elsewhere(back)
    ensures LevelsNatural(BlocksFor(u, s, front, back))
  {
    var refs, all := RefsFor(u, s), BlocksFor(u, s, front, back);
    BlocksShow(u, s, front, back);
    forall i | 0 <= i < |all| && Raisable(all[i]) ensures all[i].level >= 0 {
      assert ShowsSome(refs, ActiveIds(refs), u.cfg.tailKeepSteps, |ActiveIds(refs)|, all[i]);
      var p :| 0 <= p < |ActiveIds(refs)| && ShowsStep(refs, ActiveIds(refs), u.cfg.tailKeepSteps, p, all[i]);
      ShownLevel(u, s, all[i], p);
    }
  }

  /** Each block that the fit goes through shows an active step. */
  lemma GoneThroughShows(u: Setup, s: State, front: seq<Block>, back: seq<Block>, window: int, i: int) returns (p: int)
    requires Elsewhere(front) && Elsewhere(back)
    requires Sets(RefsFor(u, s), BlocksFor(u, s, front, back), Through(u, s, front, back, window), i)
    ensures GoesThrough(u, s, front, back, window, i, p)
  {
    var refs, all := RefsFor(u, s), BlocksFor(u, s, front, back);
    BlocksShow(u, s, front, back);
    assert ShowsSome(refs, ActiveIds(refs), u.cfg.tailKeepSteps, |ActiveIds(refs)|, all[i]);
    p :| 0 <= p < |ActiveIds(refs)| && ShowsStep(refs, ActiveIds(refs), u.cfg.tailKeepSteps, p, all[i]);
  }

  /** A block at its cap is that of a user step in front of the tail. */
  lemma AtCap(u: Setup, s: State, front: seq<Block>, back: seq<Block>, window: int, i: int, p: int)
    requires NonNegative(u.cfg.decay) && Mutators.Valid(s.mem) && GoesThrough(u, s, front, back, window, i, p)
    ensures var refs, all := RefsFor(u, s), BlocksFor(u, s, front, back); var id := ActiveIds(refs)[p];
            all[i].level + 1 > MaxLevelForType(KindOf(s.mem.steps, id)) <==>
            !InTail(u, s, p) && KindOf(s.mem.steps, id) == User && refs[id].level == 2
  {
    var refs := RefsFor(u, s);
    RefsForSound(u, s);
    assert Sound(s.mem.steps, ActiveIds(refs)[p], refs[ActiveIds(refs)[p]]);
  }

  lemma PassesCapIff(u: Setup, s: State, front: seq<Block>, back: seq<Block>, window: int)
    requires NonNegative(u.cfg.decay) && Mutators.Valid(s.mem) && Elsewhere(front) && Elsewhere(back)
    ensures WithinCaps(s.mem.steps, RefsFor(u, s), BlocksFor(u, s, front, back), Through(u, s, front, back, window)) <==>
            !PassesCap(u, s, front, back, window)
  {
    var refs, all, k := RefsFor(u, s), BlocksFor(u, s, front, back), Through(u, s, front, back, window);
    if PassesCap(u, s, front, back, window) {
      var i, p :| GoesThrough(u, s, front, back, window, i, p) && !InTail(u, s, p) &&
                  KindOf(s.mem.steps, ActiveIds(refs)[p]) == User && refs[ActiveIds(refs)[p]].level == 2;
      AtCap(u, s, front, back, window, i, p);
    } else if !WithinCaps(s.mem.steps, refs, all, k) {
      var i :| 0 <= i < |all| && Sets(refs, all, k, i) &&
               all[i].level + 1 > MaxLevelForType(KindOf(s.mem.steps, all[i].stepId));
      var p := GoneThroughShows(u, s, front, back, window, i);
      AtCap(u, s, front, back, window, i, p);
    }
  }

  /** A build keeps the state valid in a store that hands out copies, and in one
      that hands out its own records exactly if it squeezes no user step past its
      cap. */
  lemma BuildValidIff(u: Setup, s: State, front: seq<Block>, back: seq<Block>, window: int)
    requires NonNegative(u.cfg.decay) && Mutators.Valid(s.mem) && Elsewhere(front) && Elsewhere(back)
    ensures Mutators.Valid(Step(u, s, BuildOp(front, back, window)).mem) <==>
            !(u.sharing && PassesCap(u, s, front, back, window))
  {
    RefsForSound(u, s);
    if u.sharing {
      var refs, all, k := RefsFor(u, s), BlocksFor(u, s, front, back), Through(u, s, front, back, window);
      FitValidIff(u, s, front, back, window);
      FitRefsKeys(refs, all, k);
    }
  }

  lemma FitValidIff(u: Setup, s: State, front: seq<Block>, back: seq<Block>, window: int)
    requires NonNegative(u.cfg.decay) && Mutators.Valid(s.mem) && Elsewhere(front) && Elsewhere(back)
    ensures var all, k := BlocksFor(u, s, front, back), Through(u, s, front, back, window);
            RefsSound(s.mem.steps, FitRefs(RefsFor(u, s), all, k)) <==> !PassesCap(u, s, front, back, window)
  {
    RefsForSound(u, s);
    BlocksShow(u, s, front, back);
    BlocksNatural(u, s, front, back);
    PassesCapIff(u, s, front, back, window);
    FitRefsSoundIff(s.mem.steps, RefsFor(u, s), BlocksFor(u, s, front, back), Through(u, s, front, back, window));
  }

  /** A step of the run that breaks no cap. */
  ghost predicate LawfulOp(u: Setup, s: State, op: Op) {
    op.BuildOp? && u.sharing ==> !PassesCap(u, s, op.front, op.back, op.window)
  }

  lemma StepValidIff(u: Setup, s: State, op: Op)
    requires NonNegative(u.cfg.decay) && Mutators.Valid(s.mem) && OutsideOp(op)
    ensures Mutators.Valid(Step(u, s, op).mem) <==> LawfulOp(u, s, op)
  {
    match op
    case MutateOp(op) => Mutators.StepValid(s.mem, op, u.group, u.cfg);
    case BuildOp(front, back, window) => BuildValidIff(u, s, front, back, window);
    case WriteOp(id, write) =>
    case InvalidateOp(id) =>
    case InvalidateAllOp =>
  }

  /** No build in the run squeezes a user step past its cap and keeps that. */
  ghost predicate Lawful(u: Setup, ops: seq<Op>)
    requires NonNegative(u.cfg.decay)
  {
    ops != [] ==>
      var before := ops[..|ops| - 1];
      Lawful(u, before) && LawfulOp(u, Run(u, before), ops[|ops| - 1])
  }

  ghost predicate ValidThroughout(u: Setup, ops: seq<Op>)
    requires NonNegative(u.cfg.decay)
  {
    Mutators.Valid(Run(u, ops).mem) && (ops != [] ==> ValidThroughout(u, ops[..|ops| - 1]))
  }

  /** The records are valid at every point of a run exactly if no build in it does. */
  lemma {:induction false} RunValidIff(u: Setup, ops: seq<Op>)
    requires NonNegative(u.cfg.decay) && Outside(ops)
    ensures ValidThroughout(u, ops) <==> Lawful(u, ops)
  {
    if ops != [] {
      var before := ops[..|ops| - 1];
      RunValidIff(u, before);
      if Lawful(u, before) {
        StepValidIff(u, Run(u, before), ops[|ops| - 1]);
      }
    }
  }

  /** In a store that hands out copies every run is such. */
  lemma {:induction false} CopiesAreLawful(u: Setup, ops: seq<Op>)
    requires NonNegative(u.cfg.decay) && !u.sharing
    ensures Lawful(u, ops)
  {
    if ops != [] {
      CopiesAreLawful(u, ops[..|ops| - 1]);
    }
  }

  /** Over every such run a user step that is not transient stays active at level 2
      at most, and is in the context built next exactly once, */
  lemma UserInEveryBuild(u: Setup, ops: seq<Op>, front: seq<Block>, back: seq<Block>, window: int, id: int)
    requires NonNegative(u.cfg.decay) && Outside(ops) && Lawful(u, ops) && Elsewhere(front) && Elsewhere(back)
    requires var step := Run(u, ops).mem.steps; id in step && step[id].kind == User && !step[id].transient
    ensures var s := Run(u, ops);
            && id in s.mem.refs && s.mem.refs[id].level <= 2
            && Count(Build(u, s, front, back, window).blocks, id) == 1
  {
    RunValidIff(u, ops);
    var s := Run(u, ops);
    RefsForSound(u, s);
    assert Sound(s.mem.steps, id, s.mem.refs[id]) && Sound(s.mem.steps, id, RefsFor(u, s)[id]);
    CountInRuns(u, ops, front, back, window, id);
  }

  /** and every step's level is within the cap of its type. */
  lemma LevelsWithinCaps(u: Setup, ops: seq<Op>, id: int)
    requires NonNegative(u.cfg.decay) && Outside(ops) && Lawful(u, ops)
    ensures var s := Run(u, ops).mem;
            id in s.refs ==> id in s.steps && 0 <= s.refs[id].level <= MaxLevelForType(s.steps[id].kind)
  {
    RunValidIff(u, ops);
    var s := Run(u, ops).mem;
    assert id in s.refs ==> Sound(s.steps, id, s.refs[id]);
  }

  /** After any run, whatever is cached, a step has exactly one block in the context
      built next if it is shown, and none otherwise. */
  lemma CountInRuns(u: Setup, ops: seq<Op>, front: seq<Block>, back: seq<Block>, window: int, id: int)
    requires NonNegative(u.cfg.decay) && Elsewhere(front) && Elsewhere(back) && id > 0
    ensures var s := Run(u, ops);
            Count(Build(u, s, front, back, window).blocks, id) ==
            if Shown(TextsOf(u, s), RefsFor(u, s), u.cfg.tailKeepSteps, id) then 1 else 0
  {
    RunKnown(u, ops);
    var s := Run(u, ops);
    BuiltCount(s.cache, TextsOf(u, s), RefsFor(u, s), u.cfg.tailKeepSteps, u.sharing, front, back, window, id);
  }

  /** So an active step that is not transient is missing exactly if it is at level 4 in
      front of the tail, where only reasoning, plans and failures can be. */
  lemma MissingIff(u: Setup, ops: seq<Op>, front: seq<Block>, back: seq<Block>, window: int, id: int)
    requires NonNegative(u.cfg.decay) && Outside(ops) && Lawful(u, ops) && Elsewhere(front) && Elsewhere(back)
    requires var mem := Run(u, ops).mem; id in mem.refs && id in mem.steps && !mem.steps[id].transient
    ensures var s, refs := Run(u, ops), RefsFor(u, Run(u, ops));
            && id in refs
            && (Count(Build(u, s, front, back, window).blocks, id) == 0 <==>
                  refs[id].level == 4 && id in BeforeTail(ActiveIds(refs), u.cfg.tailKeepSteps))
            && (refs[id].level == 4 ==> Discardable(s.mem.steps[id].kind))
  {
    RunValidIff(u, ops);
    var s := Run(u, ops);
    RefsForSound(u, s);
    assert Sound(s.mem.steps, id, RefsFor(u, s)[id]);
    CountInRuns(u, ops, front, back, window, id);
  }

  /** In a store that hands out its own records a build lowers a level exactly if the
      fit goes through a step of the tail that is stored above level 1. */
  lemma BuildLowersIff(u: Setup, s: State, front: seq<Block>, back: seq<Block>, window: int)
    requires NonNegative(u.cfg.decay) && Mutators.Valid(s.mem) && Elsewhere(front) && Elsewhere(back) && u.sharing
    ensures var refs := RefsFor(u, s);
            Falls(refs, Build(u, s, front, back, window).refs) <==>
            exists i, p :: GoesThrough(u, s, front, back, window, i, p) && InTail(u, s, p) &&
                           refs[ActiveIds(refs)[p]].level > 1
  {
    var refs, all, k := RefsFor(u, s), BlocksFor(u, s, front, back), Through(u, s, front, back, window);
    BlocksShow(u, s, front, back);
    FitRefsLowersIff(refs, all, k);
    if i :| Sets(refs, all, k, i) && refs[all[i].stepId].level > all[i].level + 1 {
      var p := GoneThroughShows(u, s, front, back, window, i);
    }
  }

  // ------------------------------------------- what a fit goes through, in closed form

  /** Without the cache or the fit: the window is too small for what is built, also
      with any number of the blocks in front of the `i`-th raised. */
  predicate Overflows(u: Setup, s: State, front: seq<Block>, back: seq<Block>, window: int, i: int) {
    var texts, refs := TextsOf(u, s), RefsFor(u, s);
    var all := Unfitted(texts, refs, u.cfg.tailKeepSteps, front, back);
    0 <= i < |all| && forall m | 0 <= m <= i :: Total(Mixed(AllRaised(texts, refs.Keys, all), all, m)) > window
  }

  /** Through a coherent cache the fit goes through a block exactly if that is so. */
  lemma ThroughIff(u: Setup, s: State, front: seq<Block>, back: seq<Block>, window: int, i: int)
    requires Coherent(s.cache, TextsOf(u, s)) && i >= 0
    ensures BlocksFor(u, s, front, back) == Unfitted(TextsOf(u, s), RefsFor(u, s), u.cfg.tailKeepSteps, front, back)
    ensures i < Through(u, s, front, back, window) <==> Overflows(u, s, front, back, window, i)
  {
    var texts, refs, tail := TextsOf(u, s), RefsFor(u, s), u.cfg.tailKeepSteps;
    var (after, all) := Assembled(s.cache, texts, refs, tail, front, back);
    AssembledFresh(s.cache, texts, refs, tail, front, back);
    var raised := AllRaised(texts, refs.Keys, all);
    var totals := Totals(raised, all);
    assert Mixed(raised, all, 0) == all;
    FitThroughMixed(after, texts, refs.Keys, raised, all, totals, window, 0);
    NeededIsLeast(totals, window, 0);
    var k := Through(u, s, front, back, window);
    assert k == Needed(totals, window, 0);
    assert forall m | 0 <= m <= |all| :: totals[m] == Total(Mixed(raised, all, m));
  }

  /** It is a user step in front of the tail, at level 2, that is squeezed. */
  ghost predicate SqueezesUser(u: Setup, s: State, front: seq<Block>, back: seq<Block>, window: int) {
    var refs := RefsFor(u, s);
    var all := Unfitted(TextsOf(u, s), refs, u.cfg.tailKeepSteps, front, back);
    exists i, p :: && Overflows(u, s, front, back, window, i) && Raisable(all[i])
                   && ShowsStep(refs, ActiveIds(refs), u.cfg.tailKeepSteps, p, all[i]) && !InTail(u, s, p)
                   && KindOf(s.mem.steps, all[i].stepId) == User && refs[all[i].stepId].level == 2
  }

  lemma PassesCapFromStore(u: Setup, s: State, front: seq<Block>, back: seq<Block>, window: int)
    requires Coherent(s.cache, TextsOf(u, s))
    ensures PassesCap(u, s, front, back, window) <==> SqueezesUser(u, s, front, back, window)
  {
    var refs := RefsFor(u, s);
    var all := Unfitted(TextsOf(u, s), refs, u.cfg.tailKeepSteps, front, back);
    if PassesCap(u, s, front, back, window) {
      var i, p :| GoesThrough(u, s, front, back, window, i, p) && !InTail(u, s, p) &&
                  KindOf(s.mem.steps, ActiveIds(refs)[p]) == User && refs[ActiveIds(refs)[p]].level == 2;
      ThroughIff(u, s, front, back, window, i);
    } else if SqueezesUser(u, s, front, back, window) {
      var i, p :| && Overflows(u, s, front, back, window, i) && Raisable(all[i])
                  && ShowsStep(refs, ActiveIds(refs), u.cfg.tailKeepSteps, p, all[i]) && !InTail(u, s, p)
                  && KindOf(s.mem.steps, all[i].stepId) == User && refs[all[i].stepId].level == 2;
      ThroughIff(u, s, front, back, window, i);
      assert GoesThrough(u, s, front, back, window, i, p);
    }
  }

  /** No build in the run squeezes a user step, as can be told from the store. */
  ghost predicate Roomy(u: Setup, ops: seq<Op>)
    requires NonNegative(u.cfg.decay)
  {
    ops != [] ==>
      var before, op := ops[..|ops| - 1], ops[|ops| - 1];
      && Roomy(u, before)
      && (op.BuildOp? && u.sharing ==> !SqueezesUser(u, Run(u, before), op.front, op.back, op.window))
  }

  /** So for a run without a noticed write that condition can be told before each
      build, from the store and the window alone. */
  lemma RunValidFromStore(u: Setup, ops: seq<Op>)
    requires NonNegative(u.cfg.decay) && Outside(ops) && Disciplined(u, ops)
    ensures ValidThroughout(u, ops) <==> Roomy(u, ops)
  {
    RunValidIff(u, ops);
    LawfulIsRoomy(u, ops);
  }

  lemma {:induction false} LawfulIsRoomy(u: Setup, ops: seq<Op>)
    requires NonNegative(u.cfg.decay) && Disciplined(u, ops)
    ensures Lawful(u, ops) <==> Roomy(u, ops)
  {
    if ops != [] {
      var before, op := ops[..|ops| - 1], ops[|ops| - 1];
      LawfulIsRoomy(u, before);
      RunCoherent(u, before);
      if op.BuildOp? {
        PassesCapFromStore(u, Run(u, before), op.front, op.back, op.window);
      }
    }
  }
}
