/** When there is a compaction, and what of it can be read in the session afterwards,
    told from the messages and the counters alone. */
module SummaryRuns {
  import opened Wrappers
  import opened Decimals
  import opened SummaryCompaction

  // -------------------------------------------------------- when there is one

  /** A message between the head and the tail that is no user's: with what follows it
      it does not fit into the tail. */
  predicate Foldable(cfg: Config, session: seq<Message>, i: int) {
    Head(session) <= i < |session| && session[i].role != User && Tokens(session[i..]) > cfg.tailTokens
  }

  lemma {:induction false} OthersIff(msgs: seq<Message>)
    ensures Others(msgs) != [] <==> exists i :: 0 <= i < |msgs| && msgs[i].role != User
  {
    if msgs != [] {
      var rest := msgs[1..];
      OthersIff(rest);
      if i :| 0 <= i < |msgs| && msgs[i].role != User {
        assert i > 0 ==> rest[i - 1] == msgs[i];
      }
      if j :| 0 <= j < |rest| && rest[j].role != User {
        assert msgs[j + 1] == rest[j];
      }
    }
  }

  lemma FoldedIff(cfg: Config, session: seq<Message>)
    requires cfg.tailTokens >= 0
    ensures Folded(cfg, session) != [] <==> exists i :: Foldable(cfg, session, i)
  {
    var h, n := Head(session), Split(cfg, session);
    OthersIff(session[h..n]);
    forall i | h <= i <= |session| ensures i < n <==> Tokens(session[i..]) > cfg.tailTokens {
      TailIsLongest(session, h, cfg.tailTokens, i);
    }
    if i :| Foldable(cfg, session, i) {
      assert session[h..n][i - h] == session[i];
    } else if Folded(cfg, session) != [] {
      var j :| 0 <= j < |session[h..n]| && session[h..n][j].role != User;
      assert Foldable(cfg, session, h + j);
    }
  }

  /** A call compacts exactly if there is something to fold, more messages than are
      always kept, enough tokens to fold unless it is forced, and no archive that
      fails. */
  lemma CompactsIff(cfg: Config, s: State, force: bool, world: World)
    requires cfg.tailTokens >= 0
    ensures Effective(cfg, s, CompactOp(force, world)) <==>
            && |s.session| > cfg.minRecentKeep
            && (exists i :: Foldable(cfg, s.session, i))
            && (force || Tokens(Folded(cfg, s.session)) >= cfg.minFoldTokens)
            && (cfg.archiveDir == "" || world.archived.Success?)
  {
    FoldedIff(cfg, s.session);
  }

  function Share(cfg: Config, ratio: real): int {
    (cfg.windowTokens as real * ratio).Floor
  }

  /** A usage check below the share for compaction notices once from the soft share
      on, and clears otherwise; from it on it calls, with force from the third share
      on, unless the manager is stuck. */
  lemma ChecksAre(cfg: Config, s: State, promptTokens: int, world: World)
    ensures var after := Step(cfg, s, MaybeOp(promptTokens, world));
            if cfg.windowTokens <= 0 || promptTokens <= 0 then after == s
            else if promptTokens >= Share(cfg, cfg.compactRatio) then
              if s.stuck then after == s
              else after == Step(cfg, s, CompactOp(promptTokens >= Share(cfg, cfg.forceRatio), world))
            else if promptTokens >= Share(cfg, cfg.softRatio) && !s.noticed then after == s.(noticed := true)
            else after == s.(consecutive := 0, stuck := false)
  {
  }

  /** What is not configured is 50, 80 and 90 percent, a tail of 16384 tokens, folds of
      400 tokens or more, and two messages. */
  lemma UnconfiguredIs(cfg: Config)
    requires cfg.softRatio <= 0.0 && cfg.compactRatio <= 0.0 && cfg.forceRatio <= 0.0
    requires cfg.tailTokens <= 0 && cfg.minFoldTokens <= 0 && cfg.minRecentKeep <= 0
    ensures Filled(cfg) == Config(cfg.windowTokens, 0.5, 0.8, 0.9, 16384, 400, 2, cfg.archiveDir, cfg.persists)
  {
  }

  /** The tokens of messages are a token for every four bytes of each, and one for a
      shorter message. */
  lemma TokensAre(m: Message, msgs: seq<Message>)
    ensures Tokens([]) == 0
    ensures Tokens([m] + msgs) == (if |m.content| < 8 then 1 else |m.content| / 4) + Tokens(msgs)
  {
    assert ([m] + msgs)[1..] == msgs;
  }

  // --------------------------------------------------------- what it leaves

  /** The text in place of a fold of `n` messages: the summary, or what says that there
      is none. */
  predicate StandsFor(text: string, n: nat, world: World) {
    match world.summarized
    case Success(summary) => text == summary
    case Failure(error) =>
      text == "[compacted " + Decimal(n) + " messages mechanically; summary unavailable: " + error + "]"
  }

  /** A user message that holds the text between the tags. */
  predicate Tags(m: Message, text: string) {
    && m.role == User
    && m.content == "<compaction-summary>" + "\n" +
                    "Summary of earlier conversation (older messages were compacted to save context):\n" + text +
                    "\n" + "</compaction-summary>"
  }

  lemma SlicesOf(a: seq<Message>, b: seq<Message>, m: Message, c: seq<Message>)
    ensures var all, h, n := a + (b + [m] + c), |a|, |a| + |b|;
            |all| == n + 1 + |c| && all[..h] == a && all[h..n] == b && all[n] == m && all[n + 1..] == c
  {
  }

  lemma CompactedSlices(cfg: Config, msgs: seq<Message>, summary: Message)
    ensures var after, h, n := Compacted(cfg, msgs, summary), Head(msgs), Split(cfg, msgs);
            var users := Users(msgs[h..n]);
            && |after| == h + |users| + 1 + (|msgs| - n)
            && after[..h] == msgs[..h]
            && after[h..h + |users|] == users
            && after[h + |users|] == summary
            && after[h + |users| + 1..] == msgs[n..]
  {
    var a, b, c := msgs[..Head(msgs)], Users(Region(cfg, msgs)), msgs[Split(cfg, msgs)..];
    assert Compacted(cfg, msgs, summary) == a + (b + [summary] + c);
    SlicesOf(a, b, summary, c);
  }

  lemma EffectiveRewrites(cfg: Config, s: State, op: Op)
    requires Effective(cfg, s, op)
    ensures var after, fold := Step(cfg, s, op), Folded(cfg, s.session);
            && after.session == Compacted(cfg, s.session, SummaryMessage(fold, op.world))
            && after.archive == (if cfg.archiveDir == "" then s.archive else s.archive + fold)
            && after.compactCount == s.compactCount + 1 && after.consecutive == s.consecutive + 1
            && (after.stuck <==> s.stuck || s.consecutive >= 1) && after.noticed == s.noticed
  {
  }

  /** A compaction leaves the head, the user messages behind it, one message that tags
      the summary, and the tail; what it folds is archived, if there is an archive. */
  lemma CompactionLeaves(cfg: Config, s: State, op: Op) returns (text: string)
    requires Effective(cfg, s, op)
    ensures var after, h, n := Step(cfg, s, op), Head(s.session), Split(cfg, s.session);
            var users, fold := Users(s.session[h..n]), Others(s.session[h..n]);
            && |after.session| == h + |users| + 1 + (|s.session| - n)
            && after.session[..h] == s.session[..h]
            && after.session[h..h + |users|] == users
            && Tags(after.session[h + |users|], text) && StandsFor(text, |fold|, op.world)
            && after.session[h + |users| + 1..] == s.session[n..]
            && after.archive == (if cfg.archiveDir == "" then s.archive else s.archive + fold)
            && after.compactCount == s.compactCount + 1 && after.consecutive == s.consecutive + 1
            && (after.stuck <==> s.stuck || s.consecutive >= 1) && after.noticed == s.noticed
  {
    var world, fold := op.world, Folded(cfg, s.session);
    var n := |fold|;
    text := if world.summarized.Success? then world.summarized.value else Marker(n, world.summarized.error);
    MarkerIs(n, if world.summarized.Success? then "" else world.summarized.error);
    TagsAre(text);
    CompactedSlices(cfg, s.session, SummaryMessage(fold, world));
    EffectiveRewrites(cfg, s, op);
  }

  lemma MarkerIs(n: nat, error: string)
    ensures Marker(n, error) ==
            "[compacted " + Decimal(n) + " messages mechanically; summary unavailable: " + error + "]"
  {
  }

  lemma TagsAre(text: string)
    ensures Tags(Message(User, Tagged(text)), text)
  {
  }

  lemma {:induction false} UsersHave(msgs: seq<Message>, m: Message)
    requires m.role == User
    ensures m in Users(msgs) <==> m in msgs
  {
    if msgs != [] {
      UsersHave(msgs[1..], m);
      assert m in msgs <==> m == msgs[0] || m in msgs[1..];
    }
  }

  /** No step loses a user message. */
  lemma UserStays(cfg: Config, s: State, op: Op, m: Message)
    requires m.role == User && m in s.session
    ensures m in Step(cfg, s, op).session
  {
    if op.CompactOp? || op.MaybeOp? {
      StepSameOrRewritten(cfg, s, op);
      CompactedHas(cfg, s.session, SummaryMessage(Folded(cfg, s.session), op.world), m);
    }
  }

  lemma CompactedHas(cfg: Config, msgs: seq<Message>, summary: Message, m: Message)
    requires m.role == User && m in msgs
    ensures m in Compacted(cfg, msgs, summary)
  {
    var h, n := Head(msgs), Split(cfg, msgs);
    UsersHave(msgs[h..n], m);
    assert msgs == msgs[..h] + msgs[h..n] + msgs[n..];
  }

  /** Over every run: what a compaction of it put in place of a fold, the summary or
      what says that there is none, is in the session inside its tags from then on. */
  lemma {:induction false} SummariesStay(cfg: Config, ops: seq<Op>, k: nat) returns (m: Message, text: string)
    requires k < |ops| && Effective(cfg, Run(cfg, ops[..k]), ops[k])
    ensures m in Run(cfg, ops).session && Tags(m, text)
    ensures StandsFor(text, |Folded(cfg, Run(cfg, ops[..k]).session)|, ops[k].world)
    decreases |ops|
  {
    var before, op := ops[..|ops| - 1], ops[|ops| - 1];
    if k == |ops| - 1 {
      var s := Run(cfg, before);
      text := CompactionLeaves(cfg, s, op);
      m := Step(cfg, s, op).session[Head(s.session) + |Users(Region(cfg, s.session))|];
    } else {
      assert before[..k] == ops[..k];
      m, text := SummariesStay(cfg, before, k);
      UserStays(cfg, Run(cfg, before), op, m);
    }
  }
}
