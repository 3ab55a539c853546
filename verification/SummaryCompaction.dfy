/** Session-level compaction: a message list is rewritten as its protected head,
    the user turns of the folded region, one summary, and the recent tail. */
module SummaryCompaction {
  import opened Wrappers
  import opened Decimals

  /** Roles are names; only two of them are told apart from the rest. */
  datatype Role = System | User | Named(name: string)

  /** The content is a sequence of bytes. */
  datatype Message = Message(role: Role, content: string)

  /** `persists` tells whether there is a file that the counters are saved to. */

  datatype Config = Config(windowTokens: int, softRatio: real, compactRatio: real, forceRatio: real, tailTokens: int,
                           minFoldTokens: int, minRecentKeep: int, archiveDir: string, persists: bool)

  function Filled(cfg: Config): Config {
    cfg.(softRatio := if cfg.softRatio <= 0.0 then 0.5 else cfg.softRatio,
         compactRatio := if cfg.compactRatio <= 0.0 then 0.8 else cfg.compactRatio,
         forceRatio := if cfg.forceRatio <= 0.0 then 0.9 else cfg.forceRatio,
         tailTokens := if cfg.tailTokens <= 0 then 16384 else cfg.tailTokens,
         minFoldTokens := if cfg.minFoldTokens <= 0 then 400 else cfg.minFoldTokens,
         minRecentKeep := if cfg.minRecentKeep <= 0 then 2 else cfg.minRecentKeep)
  }

  datatype Error = NoSession | NoSummarizer | ArchiveFailed(text: string)

  /** What the archive and the summarizer would answer to one compaction. */
  datatype World = World(archived: Result<string, string>, summarized: Result<string, string>)

  // -------------------------------------------------------- reading a session

  /** Four bytes to a token, and one token at least. */
  function Estimate(content: string): (tokens: nat)
    ensures tokens >= 1
    ensures |content| < 4 * tokens + 4 && (|content| >= 4 ==> 4 * tokens <= |content|)
  {
    var n := |content| / 4;
    if n < 1 then 1 else n
  }

  function Tokens(msgs: seq<Message>): nat {
    if msgs == [] then 0 else Estimate(msgs[0].content) + Tokens(msgs[1..])
  }

  /** The number of system messages at the front. */
  function Head(msgs: seq<Message>): (n: nat)
    ensures n <= |msgs|
    ensures forall i | 0 <= i < n :: msgs[i].role == System
    ensures n < |msgs| ==> msgs[n].role != System
  {
    if msgs == [] || msgs[0].role != System then 0 else 1 + Head(msgs[1..])
  }

  /** The start of the longest suffix within the budget that begins at `from` or
      later. */
  function TailStart(msgs: seq<Message>, from: nat, budget: int): (n: nat)
    requires from <= |msgs|
    ensures from <= n <= |msgs|
    decreases |msgs| - from
  {
    if from == |msgs| || Tokens(msgs[from..]) <= budget then from else TailStart(msgs, from + 1, budget)
  }

  function Split(cfg: Config, msgs: seq<Message>): (n: nat)
    ensures Head(msgs) <= n <= |msgs|
  {
    TailStart(msgs, Head(msgs), cfg.tailTokens)
  }

  /** The messages of a user, or the other ones, in order. */
  function Turns(msgs: seq<Message>, user: bool): seq<Message> {
    if msgs == [] then []
    else if (msgs[0].role == User) == user then [msgs[0]] + Turns(msgs[1..], user)
    else Turns(msgs[1..], user)
  }

  function Users(msgs: seq<Message>): seq<Message> {
    Turns(msgs, true)
  }

  function Others(msgs: seq<Message>): seq<Message> {
    Turns(msgs, false)
  }

  lemma {:induction false} TokensSplit(msgs: seq<Message>, n: nat)
    requires n <= |msgs|
    ensures Tokens(msgs) == Tokens(msgs[..n]) + Tokens(msgs[n..])
  {
    if n > 0 {
      TokensSplit(msgs[1..], n - 1);
      assert msgs[..n][1..] == msgs[1..][..n - 1] && msgs[1..][n - 1..] == msgs[n..];
    } else {
      assert msgs[n..] == msgs;
    }
  }

  lemma SuffixTokens(msgs: seq<Message>, i: nat, j: nat)
    requires i <= j <= |msgs|
    ensures Tokens(msgs[i..]) >= Tokens(msgs[j..])
  {
    TokensSplit(msgs[i..], j - i);
    assert msgs[i..][j - i..] == msgs[j..];
  }

  /** The tail is the longest suffix behind the head within the budget, whatever
      the minimum number of recent messages is. */
  lemma {:induction false} TailIsLongest(msgs: seq<Message>, from: nat, budget: int, i: nat)
    requires from <= |msgs| && from <= i <= |msgs|
    ensures i < TailStart(msgs, from, budget) ==> Tokens(msgs[i..]) > budget
    ensures i >= TailStart(msgs, from, budget) && budget >= 0 ==> Tokens(msgs[i..]) <= budget
    decreases |msgs| - from
  {
    if from == |msgs| || Tokens(msgs[from..]) <= budget {
      SuffixTokens(msgs, from, i);
    } else if i > from {
      TailIsLongest(msgs, from + 1, budget, i);
    } else {
    }
  }

  lemma TailStartIs(msgs: seq<Message>, from: nat, budget: int, n: nat)
    requires from <= n <= |msgs| && budget >= 0
    requires Tokens(msgs[n..]) <= budget
    requires n > from ==> Tokens(msgs[n - 1..]) > budget
    ensures TailStart(msgs, from, budget) == n
  {
    TailIsLongest(msgs, from, budget, n);
    if n > from {
      TailIsLongest(msgs, from, budget, n - 1);
    }
  }

  lemma {:induction false} TurnsOfSum(a: seq<Message>, b: seq<Message>, user: bool)
    ensures Turns(a + b, user) == Turns(a, user) + Turns(b, user)
  {
    var all := a + b;
    if a == [] {
      assert all == b;
    } else {
      var first := if (a[0].role == User) == user then [a[0]] else [];
      TurnsOfSum(a[1..], b, user);
      assert all[1..] == a[1..] + b;
      assert Turns(all, user) == first + Turns(all[1..], user);
      assert Turns(a, user) == first + Turns(a[1..], user);
    }
  }

  lemma TurnsOfNext(a: seq<Message>, m: Message, user: bool)
    ensures Turns(a + [m], user) == Turns(a, user) + if (m.role == User) == user then [m] else []
  {
    TurnsOfSum(a, [m], user);
    assert [m][1..] == [];
  }

  lemma {:induction false} PartsPartition(msgs: seq<Message>)
    ensures multiset(msgs) == multiset(Users(msgs)) + multiset(Others(msgs))
  {
    if msgs != [] {
      PartsPartition(msgs[1..]);
      assert msgs == [msgs[0]] + msgs[1..];
    }
  }

  lemma {:induction false} TurnsOfKind(msgs: seq<Message>, user: bool)
    requires forall i | 0 <= i < |msgs| :: (msgs[i].role == User) == user
    ensures Turns(msgs, user) == msgs && Turns(msgs, !user) == []
  {
    if msgs != [] {
      TurnsOfKind(msgs[1..], user);
    }
  }

  lemma {:induction false} TurnsAre(msgs: seq<Message>, user: bool)
    ensures forall m | m in Turns(msgs, user) :: (m.role == User) == user
  {
    if msgs != [] {
      TurnsAre(msgs[1..], user);
    }
  }

  lemma UsersAreUsers(msgs: seq<Message>)
    ensures forall i | 0 <= i < |Users(msgs)| :: Users(msgs)[i].role == User
  {
    TurnsAre(msgs, true);
  }

  lemma {:induction false} HeadIs(msgs: seq<Message>, n: nat)
    requires n <= |msgs|
    requires forall i | 0 <= i < n :: msgs[i].role == System
    requires n < |msgs| ==> msgs[n].role != System
    ensures Head(msgs) == n
  {
    if n > 0 {
      HeadIs(msgs[1..], n - 1);
    }
  }

  // ----------------------------------------------------------- one compaction

  /** The counters as they were saved last; zero if they never were. */
  datatype Saved = Saved(compactCount: nat, consecutive: nat, stuck: bool)

  const UNSAVED := Saved(0, 0, false)

  datatype State = State(session: seq<Message>, archive: seq<Message>, compactCount: nat, consecutive: nat, stuck: bool,
                         noticed: bool, saved: Saved)

  const SUMMARY_TAG_OPEN := "<compaction-summary>"
  const SUMMARY_TAG_CLOSE := "</compaction-summary>"
  const SUMMARY_PREFIX := "Summary of earlier conversation (older messages were compacted to save context):\n"

  /** The marker that stands in for a summary that there is not. */
  function Marker(n: nat, error: string): string {
    "[compacted " + Decimal(n) + " messages mechanically; summary unavailable: " + error + "]"
  }

  function Tagged(summary: string): string {
    SUMMARY_TAG_OPEN + "\n" + SUMMARY_PREFIX + summary + "\n" + SUMMARY_TAG_CLOSE
  }

  /** The message that stands for a fold. */
  function SummaryMessage(fold: seq<Message>, world: World): Message {
    Message(User, Tagged(if world.summarized.Success? then world.summarized.value else Marker(|fold|, world.summarized.error)))
  }

  function Region(cfg: Config, msgs: seq<Message>): seq<Message> {
    msgs[Head(msgs)..Split(cfg, msgs)]
  }

  function Folded(cfg: Config, msgs: seq<Message>): seq<Message> {
    Others(Region(cfg, msgs))
  }

  function Compacted(cfg: Config, msgs: seq<Message>, summary: Message): seq<Message> {
    msgs[..Head(msgs)] + (Users(Region(cfg, msgs)) + [summary] + msgs[Split(cfg, msgs)..])
  }

  predicate WorthFolding(cfg: Config, msgs: seq<Message>, force: bool) {
    && |msgs| >= cfg.minRecentKeep + 1
    && Folded(cfg, msgs) != []
    && (force || Tokens(Folded(cfg, msgs)) >= cfg.minFoldTokens)
  }

  /** The counters after a compaction, saved at once if they are saved at all. */
  function Counted(cfg: Config, s: State): State {
    var next := s.(compactCount := s.compactCount + 1, consecutive := s.consecutive + 1,
                   stuck := s.stuck || s.consecutive + 1 >= 2);
    if cfg.persists then next.(saved := Saved(next.compactCount, next.consecutive, next.stuck)) else next
  }

  function Rewritten(cfg: Config, s: State, summary: Message): State {
    var archive := if cfg.archiveDir == "" then s.archive else s.archive + Folded(cfg, s.session);
    Counted(cfg, s.(session := Compacted(cfg, s.session, summary), archive := archive))
  }

  /** A new manager for the same session. */
  function Restarted(cfg: Config, s: State): State {
    var saved := if cfg.persists then s.saved else UNSAVED;
    s.(compactCount := saved.compactCount, consecutive := saved.consecutive, stuck := saved.stuck, noticed := false)
  }

  function AfterCompact(cfg: Config, s: State, force: bool, world: World): (State, Option<Error>) {
    if !WorthFolding(cfg, s.session, force) then (s, None)
    else if cfg.archiveDir != "" && world.archived.Failure? then (s, Some(ArchiveFailed(world.archived.error)))
    else (Rewritten(cfg, s, SummaryMessage(Folded(cfg, s.session), world)), None)
  }

  function Threshold(cfg: Config, ratio: real): int {
    (cfg.windowTokens as real * ratio).Floor
  }

  /** A usage that has the compaction counters cleared. */
  predicate Clears(cfg: Config, s: State, promptTokens: int) {
    && cfg.windowTokens > 0
    && 0 < promptTokens < Threshold(cfg, cfg.compactRatio)
    && (promptTokens < Threshold(cfg, cfg.softRatio) || s.noticed)
  }

  function AfterMaybe(cfg: Config, s: State, promptTokens: int, world: World): (State, Option<Error>) {
    if cfg.windowTokens <= 0 || promptTokens <= 0 then (s, None)
    else if Clears(cfg, s, promptTokens) then (s.(consecutive := 0, stuck := false), None)
    else if promptTokens < Threshold(cfg, cfg.compactRatio) then (s.(noticed := true), None)
    else if s.stuck then (s, None)
    else AfterCompact(cfg, s, promptTokens >= Threshold(cfg, cfg.forceRatio), world)
  }

  /** The usage check where a part is missing: it notices, clears and stays stuck as
      ever, and fails where it would compact. */
  function AfterMaybeWithout(cfg: Config, s: State, promptTokens: int, missing: Error): (State, Option<Error>) {
    if cfg.windowTokens <= 0 || promptTokens <= 0 then (s, None)
    else if Clears(cfg, s, promptTokens) then (s.(consecutive := 0, stuck := false), None)
    else if promptTokens < Threshold(cfg, cfg.compactRatio) then (s.(noticed := true), None)
    else if s.stuck then (s, None)
    else (s, Some(missing))
  }

  /** What a compaction leaves between the head and the tail is user messages. */
  lemma AssembledShape(head: seq<Message>, kept: seq<Message>, tail: seq<Message>, budget: int)
    requires forall i | 0 <= i < |head| :: head[i].role == System
    requires kept != [] && forall i | 0 <= i < |kept| :: kept[i].role == User
    requires 0 <= Tokens(tail) <= budget
    ensures var all := head + (kept + tail);
            Head(all) == |head| && TailStart(all, |head|, budget) <= |head| + |kept|
  {
    var all := head + (kept + tail);
    assert all[|head|] == kept[0];
    HeadIs(all, |head|);
    assert all[|head| + |kept|..] == tail;
    TailIsLongest(all, |head|, budget, |head| + |kept|);
  }

  lemma CompactedShape(cfg: Config, msgs: seq<Message>, summary: Message)
    requires summary.role == User && cfg.tailTokens >= 0
    ensures var after := Compacted(cfg, msgs, summary);
            && Head(after) == Head(msgs) < |after|
            && Split(cfg, after) <= Head(msgs) + |Users(Region(cfg, msgs))| + 1
  {
    var h, n := Head(msgs), Split(cfg, msgs);
    TailIsLongest(msgs, h, cfg.tailTokens, n);
    UsersAreUsers(Region(cfg, msgs));
    AssembledShape(msgs[..h], Users(Region(cfg, msgs)) + [summary], msgs[n..], cfg.tailTokens);
  }

  lemma AssembledRegion(head: seq<Message>, kept: seq<Message>, tail: seq<Message>, n: nat)
    requires |head| <= n <= |head| + |kept|
    ensures (head + (kept + tail))[|head|..n] == kept[..n - |head|]
  {
  }

  lemma AssembledFold(head: seq<Message>, kept: seq<Message>, tail: seq<Message>, n: nat)
    requires |head| <= n <= |head| + |kept|
    requires forall i | 0 <= i < |kept| :: kept[i].role == User
    ensures Others((head + (kept + tail))[|head|..n]) == []
  {
    AssembledRegion(head, kept, tail, n);
    TurnsOfKind(kept[..n - |head|], true);
  }

  lemma RefoldEmpty(cfg: Config, msgs: seq<Message>, summary: Message)
    requires summary.role == User && cfg.tailTokens >= 0
    ensures Folded(cfg, Compacted(cfg, msgs, summary)) == []
  {
    CompactedShape(cfg, msgs, summary);
    UsersAreUsers(Region(cfg, msgs));
    AssembledFold(msgs[..Head(msgs)], Users(Region(cfg, msgs)) + [summary], msgs[Split(cfg, msgs)..],
                  Split(cfg, Compacted(cfg, msgs, summary)));
  }

  /** A second compaction with the same force flag, whatever the summarizer and
      the archive say, changes nothing. */
  lemma CompactIdempotent(cfg: Config, s: State, force: bool, world: World, again: World)
    requires cfg.tailTokens >= 0 && AfterCompact(cfg, s, force, world).1.None?
    ensures var after := AfterCompact(cfg, s, force, world).0;
            AfterCompact(cfg, after, force, again) == (after, None)
  {
    if WorthFolding(cfg, s.session, force) {
      RefoldEmpty(cfg, s.session, SummaryMessage(Folded(cfg, s.session), world));
    }
  }

  // -------------------------------------------------------------------- runs

  datatype Op =
    | AppendOp(message: Message)
    | CompactOp(force: bool, world: World)
    | MaybeOp(promptTokens: int, world: World)
    | RestartOp

  function Step(cfg: Config, s: State, op: Op): State {
    match op
    case AppendOp(message) => s.(session := s.session + [message])
    case CompactOp(force, world) => AfterCompact(cfg, s, force, world).0
    case MaybeOp(promptTokens, world) => AfterMaybe(cfg, s, promptTokens, world).0
    case RestartOp => Restarted(cfg, s)
  }

  const EMPTY := State([], [], 0, 0, false, false, UNSAVED)

  function Run(cfg: Config, ops: seq<Op>): State {
    if ops == [] then EMPTY else Step(cfg, Run(cfg, ops[..|ops| - 1]), ops[|ops| - 1])
  }

  function WithAppended(given: seq<Message>, op: Op): seq<Message> {
    if op.AppendOp? then given + [op.message] else given
  }

  /** The messages that a run appends. */
  function Appended(ops: seq<Op>): seq<Message> {
    if ops == [] then [] else WithAppended(Appended(ops[..|ops| - 1]), ops[|ops| - 1])
  }

  /** The step made a compaction. */
  predicate Effective(cfg: Config, s: State, op: Op) {
    (op.CompactOp? || op.MaybeOp?) && Step(cfg, s, op).compactCount > s.compactCount
  }

  function WithSummary(made: seq<Message>, cfg: Config, s: State, op: Op): seq<Message> {
    if Effective(cfg, s, op) then made + [SummaryMessage(Folded(cfg, s.session), op.world)] else made
  }

  /** The summaries that a run puts into the session. */
  function Summaries(cfg: Config, ops: seq<Op>): seq<Message> {
    if ops == [] then []
    else
      var before := ops[..|ops| - 1];
      WithSummary(Summaries(cfg, before), cfg, Run(cfg, before), ops[|ops| - 1])
  }

  /** `at` says where the elements of `a` are in `b`, in order. */
  ghost predicate Picks<T(!new)>(a: seq<T>, b: seq<T>, at: seq<int>) {
    && |at| == |a|
    && (forall i | 0 <= i < |at| :: 0 <= at[i] < |b| && b[at[i]] == a[i])
    && (forall i, j | 0 <= i < j < |at| :: at[i] < at[j])
  }

  ghost predicate Subsequence<T(!new)>(a: seq<T>, b: seq<T>) {
    exists at :: Picks(a, b, at)
  }

  lemma SubsequenceGrows(a: seq<Message>, b: seq<Message>, n: nat, x: Message)
    requires Subsequence(a, b) && n <= |b|
    ensures Subsequence(a, b[..n] + [x] + b[n..])
  {
    var at :| Picks(a, b, at);
    var moved := seq(|at|, i requires 0 <= i < |at| => if at[i] < n then at[i] else at[i] + 1);
    assert Picks(a, b[..n] + [x] + b[n..], moved);
  }

  lemma SubsequenceInserted(a: seq<Message>, p: seq<Message>, q: seq<Message>, x: Message)
    requires Subsequence(a, p + q)
    ensures Subsequence(a, p + [x] + q)
  {
    var b, n := p + q, |p|;
    SubsequenceGrows(a, b, n, x);
    assert b[..n] + [x] + b[n..] == p + [x] + q;
  }

  lemma SummaryCounted(p: seq<Message>, q: seq<Message>, given: multiset<Message>, made: seq<Message>, x: Message)
    requires multiset(p + q) == given + multiset(made)
    ensures multiset(p + [x] + q) == given + multiset(made + [x])
  {
    assert multiset(p + q) == multiset(p) + multiset(q);
    assert multiset(p + [x] + q) == multiset(p) + multiset{x} + multiset(q);
    assert multiset(made + [x]) == multiset(made) + multiset{x};
    AddedAlike(multiset(p), multiset(q), given, multiset(made), multiset{x});
  }

  lemma AddedAlike(p: multiset<Message>, q: multiset<Message>, given: multiset<Message>, made: multiset<Message>,
                   x: multiset<Message>)
    requires p + q == given + made
    ensures p + x + q == given + (made + x)
  {
    assert p + x + q == (p + q) + x;
  }

  lemma SubsequenceEnds(a: seq<Message>, b: seq<Message>, x: Message)
    requires Subsequence(a, b)
    ensures Subsequence(a + [x], b + [x])
  {
    var at :| Picks(a, b, at);
    assert Picks(a + [x], b + [x], at + [|b|]);
  }

  /** What is known of a session that was reached by appending the messages
      `given` and making the summaries `made`. */
  ghost predicate UserTurns(session: seq<Message>, given: seq<Message>, made: seq<Message>) {
    && Subsequence(Users(given), Users(session))
    && multiset(Users(session)) == multiset(Users(given)) + multiset(made)
  }

  ghost predicate OtherTurns(session: seq<Message>, archive: seq<Message>, given: seq<Message>) {
    && Others(given) == session[..Head(session)] + archive + Others(session[Head(session)..])
    && (archive != [] ==> Head(session) < |session|)
  }

  ghost predicate Accounted(s: State, given: seq<Message>, made: seq<Message>) {
    UserTurns(s.session, given, made) && OtherTurns(s.session, s.archive, given)
  }

  lemma AppendUserTurns(session: seq<Message>, given: seq<Message>, made: seq<Message>, m: Message)
    requires UserTurns(session, given, made)
    ensures UserTurns(session + [m], given + [m], made)
  {
    TurnsOfNext(given, m, true);
    TurnsOfNext(session, m, true);
    if m.role == User {
      SubsequenceEnds(Users(given), Users(session), m);
    } else {
      assert Users(given + [m]) == Users(given) && Users(session + [m]) == Users(session);
    }
  }

  lemma HeadGrows(session: seq<Message>, m: Message)
    ensures Head(session + [m]) == if Head(session) == |session|
            && m.role == System then |session| + 1 else Head(session)
  {
    HeadIs(session + [m], if Head(session) == |session| && m.role == System then |session| + 1 else Head(session));
  }

  lemma RestGrows(session: seq<Message>, h: nat, m: Message)
    requires h <= |session|
    ensures (session + [m])[..h] == session[..h]
    ensures Others((session + [m])[h..]) == Others(session[h..]) + if m.role == User then [] else [m]
  {
    assert (session + [m])[h..] == session[h..] + [m];
    TurnsOfNext(session[h..], m, false);
  }

  lemma AppendOtherTurns(session: seq<Message>, archive: seq<Message>, given: seq<Message>, m: Message)
    requires OtherTurns(session, archive, given)
    ensures OtherTurns(session + [m], archive, given + [m])
  {
    var h, longer := Head(session), session + [m];
    TurnsOfNext(given, m, false);
    HeadGrows(session, m);
    if h == |session| && m.role == System {
      assert longer[..h + 1] == session[..h] + [m] && longer[h + 1..] == [] && session[h..] == [];
    } else {
      RestGrows(session, h, m);
    }
  }

  lemma AppendAccounted(s: State, given: seq<Message>, made: seq<Message>, m: Message)
    requires Accounted(s, given, made)
    ensures Accounted(s.(session := s.session + [m]), given + [m], made)
  {
    AppendUserTurns(s.session, given, made, m);
    AppendOtherTurns(s.session, s.archive, given, m);
  }

  /** The parts of a session, cut at the head and at the tail. */
  lemma SessionParts(cfg: Config, msgs: seq<Message>)
    ensures var tail := msgs[Split(cfg, msgs)..];
            && Users(msgs) == Users(Region(cfg, msgs)) + Users(tail)
            && Others(msgs[Head(msgs)..]) == Folded(cfg, msgs) + Others(tail)
  {
    var h, n := Head(msgs), Split(cfg, msgs);
    CutTwice(msgs, h, n);
    TurnsOfParts(msgs[..h], msgs[h..n], msgs[n..]);
  }

  lemma CutTwice(msgs: seq<Message>, h: nat, n: nat)
    requires h <= n <= |msgs|
    ensures msgs == msgs[..h] + (msgs[h..n] + msgs[n..])
    ensures msgs[h..] == msgs[h..n] + msgs[n..]
  {
  }

  lemma TurnsOfParts(head: seq<Message>, region: seq<Message>, tail: seq<Message>)
    requires forall i | 0 <= i < |head| :: head[i].role == System
    ensures Users(head + (region + tail)) == Users(region) + Users(tail)
    ensures Others(region + tail) == Others(region) + Others(tail)
  {
    TurnsOfSum(head, region + tail, true);
    TurnsOfSum(region, tail, true);
    TurnsOfSum(region, tail, false);
    TurnsOfKind(head, false);
  }

  /** The turns of a list put together from a head, user turns and a tail. */
  lemma Assembled(head: seq<Message>, kept: seq<Message>, tail: seq<Message>)
    requires forall i | 0 <= i < |head| :: head[i].role == System
    requires forall i | 0 <= i < |kept| :: kept[i].role == User
    ensures Users(head + (kept + tail)) == kept + Users(tail)
    ensures Others(kept + tail) == Others(tail)
  {
    TurnsOfParts(head, kept, tail);
    TurnsOfKind(kept, true);
  }

  lemma AssembledAt(head: seq<Message>, rest: seq<Message>)
    ensures (head + rest)[..|head|] == head && (head + rest)[|head|..] == rest
  {
  }

  lemma CompactedParts(cfg: Config, msgs: seq<Message>, summary: Message)
    requires summary.role == User && cfg.tailTokens >= 0
    ensures var after, tail := Compacted(cfg, msgs, summary), msgs[Split(cfg, msgs)..];
            && Users(after) == Users(Region(cfg, msgs)) + [summary] + Users(tail)
            && Head(after) == Head(msgs) < |after|
            && after[..Head(after)] == msgs[..Head(msgs)]
            && Others(after[Head(after)..]) == Others(tail)
  {
    var h, tail, kept := Head(msgs), msgs[Split(cfg, msgs)..], Users(Region(cfg, msgs)) + [summary];
    CompactedShape(cfg, msgs, summary);
    UsersAreUsers(Region(cfg, msgs));
    Assembled(msgs[..h], kept, tail);
    AssembledAt(msgs[..h], kept + tail);
  }

  lemma CompactUserTurns(cfg: Config, msgs: seq<Message>, given: seq<Message>, made: seq<Message>, summary: Message)
    requires UserTurns(msgs, given, made) && summary.role == User && cfg.tailTokens >= 0
    ensures UserTurns(Compacted(cfg, msgs, summary), given, made + [summary])
  {
    var kept, tail := Users(Region(cfg, msgs)), Users(msgs[Split(cfg, msgs)..]);
    SessionParts(cfg, msgs);
    CompactedParts(cfg, msgs, summary);
    SubsequenceInserted(Users(given), kept, tail, summary);
    SummaryCounted(kept, tail, multiset(Users(given)), made, summary);
  }

  lemma CompactOtherTurns(cfg: Config, msgs: seq<Message>, archive: seq<Message>, given: seq<Message>, summary: Message)
    requires OtherTurns(msgs, archive, given) && summary.role == User && cfg.tailTokens >= 0
    ensures OtherTurns(Compacted(cfg, msgs, summary), archive + Folded(cfg, msgs), given)
  {
    SessionParts(cfg, msgs);
    CompactedParts(cfg, msgs, summary);
    ArchiveGrows(msgs[..Head(msgs)], archive, Folded(cfg, msgs), Others(msgs[Split(cfg, msgs)..]));
  }

  lemma ArchiveGrows(head: seq<Message>, archive: seq<Message>, folded: seq<Message>, tail: seq<Message>)
    ensures head + archive + (folded + tail) == head + (archive + folded) + tail
  {
  }

  lemma RewrittenAccounted(cfg: Config, s: State, given: seq<Message>, made: seq<Message>, summary: Message)
    requires Accounted(s, given, made) && cfg.archiveDir != "" && cfg.tailTokens >= 0 && summary.role == User
    ensures Accounted(Rewritten(cfg, s, summary), given, made + [summary])
  {
    CompactUserTurns(cfg, s.session, given, made, summary);
    CompactOtherTurns(cfg, s.session, s.archive, given, summary);
  }

  /** A state that differs from `s` by nothing or by one rewritten session. */
  predicate SameOrRewritten(cfg: Config, s: State, after: State, summary: Message) {
    if after.compactCount == s.compactCount then after.session == s.session && after.archive == s.archive
    else
      var to := Rewritten(cfg, s, summary);
      after.session == to.session && after.archive == to.archive && after.compactCount == to.compactCount
  }

  lemma SameOrRewrittenAccounted(cfg: Config, s: State, after: State, given: seq<Message>, made: seq<Message>,
                                 summary: Message)
    requires Accounted(s, given, made) && cfg.archiveDir != "" && cfg.tailTokens >= 0 && summary.role == User
    requires SameOrRewritten(cfg, s, after, summary)
    ensures Accounted(after, given, if after.compactCount > s.compactCount then made + [summary] else made)
  {
    if after.compactCount != s.compactCount {
      RewrittenAccounted(cfg, s, given, made, summary);
    }
  }

  lemma StepSameOrRewritten(cfg: Config, s: State, op: Op)
    requires op.CompactOp? || op.MaybeOp?
    ensures SameOrRewritten(cfg, s, Step(cfg, s, op), SummaryMessage(Folded(cfg, s.session), op.world))
    ensures Step(cfg, s, op).compactCount >= s.compactCount
  {
  }

  lemma StepAccounted(cfg: Config, s: State, given: seq<Message>, made: seq<Message>, op: Op)
    requires Accounted(s, given, made) && cfg.archiveDir != "" && cfg.tailTokens >= 0
    ensures Accounted(Step(cfg, s, op), WithAppended(given, op), WithSummary(made, cfg, s, op))
  {
    match op
    case AppendOp(m) => AppendAccounted(s, given, made, m);
    case RestartOp =>
    case _ =>
      StepSameOrRewritten(cfg, s, op);
      var summary := SummaryMessage(Folded(cfg, s.session), op.world);
      SameOrRewrittenAccounted(cfg, s, Step(cfg, s, op), given, made, summary);
  }

  lemma {:induction false} RunAccounted(cfg: Config, ops: seq<Op>)
    requires cfg.archiveDir != "" && cfg.tailTokens >= 0
    ensures Accounted(Run(cfg, ops), Appended(ops), Summaries(cfg, ops))
  {
    if ops == [] {
      assert Picks<Message>([], [], []);
    } else {
      var before := ops[..|ops| - 1];
      RunAccounted(cfg, before);
      StepAccounted(cfg, Run(cfg, before), Appended(before), Summaries(cfg, before), ops[|ops| - 1]);
    }
  }

  predicate NoRestarts(ops: seq<Op>) {
    forall i | 0 <= i < |ops| :: !ops[i].RestartOp?
  }

  /** What is saved counts every compaction, and is behind the counters only where
      they were cleared since. */
  predicate SavedAhead(cfg: Config, s: State) {
    && (s.stuck <==> s.consecutive >= 2)
    && (cfg.persists ==> && s.saved.compactCount == s.compactCount && s.saved.consecutive >= s.consecutive
                         && (s.saved.stuck <==> s.saved.consecutive >= 2))
  }

  lemma StepSavedAhead(cfg: Config, s: State, op: Op)
    requires SavedAhead(cfg, s)
    ensures SavedAhead(cfg, Step(cfg, s, op))
    ensures cfg.persists || !op.RestartOp? ==>
              Step(cfg, s, op).compactCount == s.compactCount + if Effective(cfg, s, op) then 1 else 0
  {
  }

  lemma {:induction false} RunSavedAhead(cfg: Config, ops: seq<Op>)
    ensures SavedAhead(cfg, Run(cfg, ops))
  {
    if ops != [] {
      RunSavedAhead(cfg, ops[..|ops| - 1]);
      StepSavedAhead(cfg, Run(cfg, ops[..|ops| - 1]), ops[|ops| - 1]);
    }
  }

  lemma {:induction false} RunCounts(cfg: Config, ops: seq<Op>)
    requires cfg.persists || NoRestarts(ops)
    ensures |Summaries(cfg, ops)| == Run(cfg, ops).compactCount
  {
    if ops != [] {
      RunCounts(cfg, ops[..|ops| - 1]);
      RunSavedAhead(cfg, ops[..|ops| - 1]);
      StepSavedAhead(cfg, Run(cfg, ops[..|ops| - 1]), ops[|ops| - 1]);
    }
  }

  lemma Reconciled(session: seq<Message>, archive: seq<Message>, given: seq<Message>, made: seq<Message>)
    requires UserTurns(session, given, made) && OtherTurns(session, archive, given)
    ensures multiset(session) + multiset(archive) == multiset(given) + multiset(made)
  {
    var front, back := session[..Head(session)], session[Head(session)..];
    assert session == front + back;
    TurnsOfSum(front, back, false);
    TurnsOfKind(front, false);
    PartsPartition(session);
    PartsPartition(given);
    MultisetOfSum(front, archive);
    MultisetOfSum(front + archive, Others(back));
    MultisetOfSum(front, Others(back));
    PartsReconciled(multiset(Users(session)), multiset(Users(given)), multiset(made), multiset(front), multiset(archive),
                    multiset(Others(back)));
  }

  lemma MultisetOfSum(a: seq<Message>, b: seq<Message>)
    ensures multiset(a + b) == multiset(a) + multiset(b)
  {
  }

  lemma PartsReconciled(users: multiset<Message>, given: multiset<Message>, made: multiset<Message>,
                        front: multiset<Message>, archive: multiset<Message>, back: multiset<Message>)
    requires users == given + made
    ensures users + (front + back) + archive == given + (front + archive + back) + made
  {
  }

  /** Nothing is lost, over every run with an archive.  Every user turn is in the
      session, verbatim and in order; the other messages, in the order they
      were appended, are the head of the session, the archive, and the rest of
      the session; and the session and the archive together are what was
      appended and one summary for each compaction, which a manager that saves its
      counters goes on counting over restarts. */
  lemma NothingLost(cfg: Config, ops: seq<Op>)
    requires cfg.archiveDir != "" && cfg.tailTokens >= 0
    ensures var s, given, made := Run(cfg, ops), Appended(ops), Summaries(cfg, ops);
            && Subsequence(Users(given), Users(s.session))
            && Others(given) == s.session[..Head(s.session)] + s.archive + Others(s.session[Head(s.session)..])
            && multiset(s.session) + multiset(s.archive) == multiset(given) + multiset(made)
            && (cfg.persists || NoRestarts(ops) ==> |made| == s.compactCount)
  {
    RunAccounted(cfg, ops);
    if cfg.persists || NoRestarts(ops) {
      RunCounts(cfg, ops);
    }
    Reconciled(Run(cfg, ops).session, Run(cfg, ops).archive, Appended(ops), Summaries(cfg, ops));
  }

  // ----------------------------------------------------------- the stuck flag

  /** The number of compactions that usage checks make in a run from `s`. */
  function AutoCompactions(cfg: Config, s: State, ops: seq<Op>): nat
    decreases |ops|
  {
    if ops == [] then 0
    else (if ops[0].MaybeOp? && Effective(cfg, s, ops[0]) then 1 else 0)
         + AutoCompactions(cfg, Step(cfg, s, ops[0]), ops[1..])
  }

  predicate NeverClears(cfg: Config, s: State, ops: seq<Op>)
    decreases |ops|
  {
    ops != [] ==>
      && !(ops[0].MaybeOp? && Clears(cfg, s, ops[0].promptTokens))
      && NeverClears(cfg, Step(cfg, s, ops[0]), ops[1..])
  }

  /** In every run the flag is set exactly from two compactions in a row on. */
  lemma RunStuckAtTwo(cfg: Config, ops: seq<Op>)
    ensures Run(cfg, ops).stuck <==> Run(cfg, ops).consecutive >= 2
  {
    RunSavedAhead(cfg, ops);
  }

  /** From any reachable state, until the usage falls below the threshold again,
      usage checks make at most two compactions, fewer if some were made before;
      restarts buy no more if the counters are saved. */
  lemma {:induction false} AtMostTwoCompactions(cfg: Config, s: State, ops: seq<Op>)
    requires SavedAhead(cfg, s) && NeverClears(cfg, s, ops) && (cfg.persists || NoRestarts(ops))
    ensures AutoCompactions(cfg, s, ops) <= if s.consecutive >= 2 then 0 else 2 - s.consecutive
    decreases |ops|
  {
    if ops != [] {
      StepSavedAhead(cfg, s, ops[0]);
      AtMostTwoCompactions(cfg, Step(cfg, s, ops[0]), ops[1..]);
    }
  }

  // ------------------------------------------------------ the flag after a restart

  /** The last compaction of the run was the second in a row, or a later one, whatever
      was cleared since. */
  predicate EndedInRow(cfg: Config, ops: seq<Op>) {
    ops != [] &&
    var before, op := ops[..|ops| - 1], ops[|ops| - 1];
    if Effective(cfg, Run(cfg, before), op) then Run(cfg, before).consecutive + 1 >= 2 else EndedInRow(cfg, before)
  }

  lemma {:induction false} SavedInRow(cfg: Config, ops: seq<Op>)
    requires cfg.persists
    ensures Run(cfg, ops).saved.stuck <==> EndedInRow(cfg, ops)
  {
    if ops != [] {
      var before, op := ops[..|ops| - 1], ops[|ops| - 1];
      SavedInRow(cfg, before);
      RunSavedAhead(cfg, before);
      SavedByCompactions(cfg, Run(cfg, before), op);
    }
  }

  lemma SavedByCompactions(cfg: Config, s: State, op: Op)
    requires SavedAhead(cfg, s) && cfg.persists
    ensures Step(cfg, s, op).saved.stuck <==>
            if Effective(cfg, s, op) then s.consecutive + 1 >= 2 else s.saved.stuck
  {
  }

  /** A clearing is not saved.  After every run a manager that starts again is stuck
      exactly if the counters are saved and the last compaction was at least the
      second in a row, although usage may have fallen since. */
  lemma RestartedStuckIff(cfg: Config, ops: seq<Op>)
    ensures Restarted(cfg, Run(cfg, ops)).stuck <==> cfg.persists && EndedInRow(cfg, ops)
  {
    if cfg.persists {
      SavedInRow(cfg, ops);
    }
  }

  /** So a restart sets the flag again exactly if it was cleared, once or more often,
      since such a compaction. */
  lemma RestartUndoesClearingIff(cfg: Config, ops: seq<Op>)
    ensures !Run(cfg, ops).stuck && Run(cfg, ops + [RestartOp]).stuck <==>
            cfg.persists && EndedInRow(cfg, ops) && Run(cfg, ops).consecutive < 2
  {
    RunNext(cfg, ops, RestartOp);
    RestartedStuckIff(cfg, ops);
    RunStuckAtTwo(cfg, ops);
  }

  lemma RunNext(cfg: Config, ops: seq<Op>, op: Op)
    ensures Run(cfg, ops + [op]) == Step(cfg, Run(cfg, ops), op)
  {
    assert (ops + [op])[..|ops|] == ops;
  }

  /** A message of which one fits into the tail, and two do not. */
  predicate FillsTail(cfg: Config, m: Message) {
    m.role.Named? && Estimate(m.content) <= cfg.tailTokens < 2 * Estimate(m.content)
  }

  predicate AllUsers(msgs: seq<Message>) {
    msgs != [] && forall i | 0 <= i < |msgs| :: msgs[i].role == User
  }

  lemma CutBehindFirst(cfg: Config, front: seq<Message>, m: Message)
    requires AllUsers(front) && FillsTail(cfg, m)
    ensures var msgs := front + [m, m]; Head(msgs) == 0 && Split(cfg, msgs) == |front| + 1
  {
    var msgs, n := front + [m, m], |front| + 1;
    assert msgs[0] == front[0];
    HeadIs(msgs, 0);
    assert msgs[n..] == [m] && msgs[n - 1..] == [m, m] && [m, m][1..] == [m];
    assert Tokens([m]) == Estimate(m.content) && Tokens([m, m]) == 2 * Estimate(m.content);
    TailStartIs(msgs, 0, cfg.tailTokens, n);
  }

  lemma TurnsWithLast(front: seq<Message>, m: Message)
    requires AllUsers(front) && m.role.Named?
    ensures Users(front + [m]) == front && Others(front + [m]) == [m]
  {
    TurnsOfNext(front, m, true);
    TurnsOfNext(front, m, false);
    TurnsOfKind(front, true);
  }

  /** Of two such messages behind user turns the first is folded. */
  lemma FoldsFirst(cfg: Config, front: seq<Message>, m: Message, summary: Message)
    requires AllUsers(front) && FillsTail(cfg, m)
    ensures var msgs := front + [m, m];
            Folded(cfg, msgs) == [m] && Compacted(cfg, msgs, summary) == front + [summary] + [m]
  {
    var msgs := front + [m, m];
    CutBehindFirst(cfg, front, m);
    assert Region(cfg, msgs) == front + [m] && msgs[|front| + 1..] == [m];
    TurnsWithLast(front, m);
    assert msgs[..0] == [];
  }

  /** The states of the run below, but for what is archived. */
  predicate At(s: State, session: seq<Message>, compactions: nat, saved: nat) {
    && s.session == session && !s.noticed
    && s.consecutive == compactions && (s.stuck <==> compactions >= 2)
    && s.saved.consecutive == saved && (s.saved.stuck <==> saved >= 2)
  }

  lemma AppendedAt(cfg: Config, s: State, session: seq<Message>, n: nat, saved: nat, m: Message)
    requires At(s, session, n, saved)
    ensures At(Step(cfg, s, AppendOp(m)), session + [m], n, saved)
  {
  }

  lemma CompactedAt(cfg: Config, s: State, front: seq<Message>, m: Message, n: nat, saved: nat, next: nat, world: World)
    requires cfg.persists && cfg.minRecentKeep <= 2 && AllUsers(front) && FillsTail(cfg, m) && world.archived.Success?
    requires At(s, front + [m, m], n, saved) && next == n + 1
    ensures At(Step(cfg, s, CompactOp(true, world)), front + [SummaryMessage([m], world)] + [m], next, next)
    ensures AllUsers(front + [SummaryMessage([m], world)])
  {
    FoldsFirst(cfg, front, m, SummaryMessage([m], world));
  }

  lemma BeginAt(cfg: Config, u: Message, m: Message)
    ensures At(Run(cfg, [AppendOp(u), AppendOp(m)]), [u] + [m], 0, 0)
  {
    RunNext(cfg, [], AppendOp(u));
    RunNext(cfg, [AppendOp(u)], AppendOp(m));
    assert [] + [AppendOp(u)] == [AppendOp(u)] && [AppendOp(u)] + [AppendOp(m)] == [AppendOp(u), AppendOp(m)];
  }

  /** Another such message and a forced compaction. */
  function Round(m: Message, world: World): seq<Op> {
    [AppendOp(m), CompactOp(true, world)]
  }

  lemma RoundAt(cfg: Config, ops: seq<Op>, front: seq<Message>, m: Message, n: nat, saved: nat, next: nat, world: World)
    requires cfg.persists && cfg.minRecentKeep <= 2 && AllUsers(front) && FillsTail(cfg, m) && world.archived.Success?
    requires At(Run(cfg, ops), front + [m], n, saved) && next == n + 1
    ensures At(Run(cfg, ops + Round(m, world)), front + [SummaryMessage([m], world)] + [m], next, next)
    ensures AllUsers(front + [SummaryMessage([m], world)])
  {
    var s := Run(cfg, ops);
    AppendedAt(cfg, s, front + [m], n, saved, m);
    assert front + [m] + [m] == front + [m, m];
    CompactedAt(cfg, Step(cfg, s, AppendOp(m)), front, m, n, saved, next, world);
    RunNext(cfg, ops, AppendOp(m));
    RunNext(cfg, ops + [AppendOp(m)], CompactOp(true, world));
    assert ops + [AppendOp(m)] + [CompactOp(true, world)] == ops + Round(m, world);
  }

  /** Two forced compactions in a row, a usage that is low again, and a restart: the
      flag is set, cleared, and set again.  The default limits are among these. */
  lemma ClearingForgotten(cfg: Config, u: Message, m: Message, promptTokens: int, world: World)
    requires cfg.persists && cfg.minRecentKeep <= 2 && FillsTail(cfg, m) && u.role == User && world.archived.Success?
    requires cfg.windowTokens > 0
    requires 0 < promptTokens < Threshold(cfg, cfg.softRatio) && promptTokens < Threshold(cfg, cfg.compactRatio)
    ensures var compacted := [AppendOp(u), AppendOp(m)] + Round(m, world) + Round(m, world);
            var cleared := compacted + [MaybeOp(promptTokens, world)];
            Run(cfg, compacted).stuck && !Run(cfg, cleared).stuck && Run(cfg, cleared + [RestartOp]).stuck
  {
    var begun := [AppendOp(u), AppendOp(m)];
    var compacted := begun + Round(m, world) + Round(m, world);
    var cleared := compacted + [MaybeOp(promptTokens, world)];
    BeginAt(cfg, u, m);
    RoundAt(cfg, begun, [u], m, 0, 0, 1, world);
    RoundAt(cfg, begun + Round(m, world), [u] + [SummaryMessage([m], world)], m, 1, 1, 2, world);
    RunNext(cfg, compacted, MaybeOp(promptTokens, world));
    RunNext(cfg, cleared, RestartOp);
  }

  // --------------------------------------------------------------- the class

  lemma Reassociated(a: seq<Message>, b: seq<Message>, m: Message, c: seq<Message>)
    ensures a + b + [m] + c == a + (b + [m] + c)
  {
  }

  class SummaryManager {
    const cfg: Config
    const hasSession: bool
    const hasSummarizer: bool
    var session: seq<Message>
    var archive: seq<Message>
    var consecutiveCompacts: nat
    var compactStuck: bool
    var softNoticed: bool
    var compactCount: nat
    /** What is in the file of the saved counters. */
    var saved: Saved

    /** `session`, `archive` and `saved` are what an earlier manager left. */
    constructor (cfg: Config, hasSession: bool, hasSummarizer: bool, session: seq<Message>, archive: seq<Message>,
                 saved: Saved)
      ensures this.cfg == Filled(cfg) && this.hasSession == hasSession && this.hasSummarizer == hasSummarizer
      ensures Valid()
      ensures forall before: State | before.session == session && before.archive == archive && before.saved == saved ::
                Value() == Restarted(Filled(cfg), before)
    {
      this.cfg, this.hasSession, this.hasSummarizer := Filled(cfg), hasSession, hasSummarizer;
      this.session, this.archive, this.saved := session, archive, saved;
      consecutiveCompacts, compactStuck, softNoticed, compactCount := 0, false, false, 0;
      if cfg.persists {
        consecutiveCompacts, compactStuck, compactCount := saved.consecutive, saved.stuck, saved.compactCount;
      }
    }

    function Value(): State
      reads this
    {
      State(session, archive, compactCount, consecutiveCompacts, compactStuck, softNoticed, saved)
    }

    predicate Valid() {
      cfg.tailTokens > 0 && cfg.minRecentKeep > 0 && cfg.minFoldTokens > 0
    }

    method PlanCompaction(msgs: seq<Message>) returns (head: nat, start: nat)
      requires Valid()
      ensures head == Head(msgs) && start == Split(cfg, msgs)
    {
      head := 0;
      while head < |msgs| && msgs[head].role == System
        invariant head <= |msgs| && forall i | 0 <= i < head :: msgs[i].role == System
      {
        head := head + 1;
      }
      HeadIs(msgs, head);
      var tailStart := |msgs| - cfg.minRecentKeep;
      if tailStart < head {
        tailStart := head;
      }
      var tailTokens := 0;
      var i := |msgs| - 1;
      while i >= head
        invariant head - 1 <= i < |msgs|
        invariant tailTokens == Tokens(msgs[i + 1..]) <= cfg.tailTokens
        invariant if i == |msgs| - 1 then head <= tailStart && (head == |msgs| ==> tailStart == head) else tailStart == i + 1
      {
        tailTokens := tailTokens + Estimate(msgs[i].content);
        assert msgs[i..][1..] == msgs[i + 1..];
        if tailTokens > cfg.tailTokens {
          tailStart := i + 1;
          break;
        }
        tailStart := i;
        i := i - 1;
      }
      if tailStart < head {
        tailStart := head;
      }
      start := tailStart;
      TailStartIs(msgs, head, cfg.tailTokens, start);
    }

    method PartitionFold(region: seq<Message>) returns (kept: seq<Message>, fold: seq<Message>)
      ensures kept == Users(region) && fold == Others(region)
    {
      kept, fold := [], [];
      for i := 0 to |region|
        invariant kept == Users(region[..i]) && fold == Others(region[..i])
      {
        var m := region[i];
        TurnsOfNext(region[..i], m, true);
        TurnsOfNext(region[..i], m, false);
        assert region[..i + 1] == region[..i] + [m];
        if m.role == User {
          kept := kept + [m];
        } else {
          fold := fold + [m];
        }
      }
      assert region[..|region|] == region;
    }

    method FoldEconomics(fold: seq<Message>) returns (worth: bool)
      ensures worth == (Tokens(fold) >= cfg.minFoldTokens)
    {
      var total := 0;
      for i := 0 to |fold|
        invariant total == Tokens(fold[..i])
      {
        TokensSplit(fold[..i + 1], i);
        assert fold[..i + 1][..i] == fold[..i] && fold[..i + 1][i..] == [fold[i]];
        total := total + Estimate(fold[i].content);
      }
      assert fold[..|fold|] == fold;
      worth := total >= cfg.minFoldTokens;
    }

    method Append(m: Message)
      modifies this
      ensures Value() == Step(cfg, old(Value()), AppendOp(m))
    {
      session := session + [m];
    }

    method Compact(force: bool, world: World) returns (error: Option<Error>)
      requires Valid()
      modifies this
      ensures !hasSession ==> error == Some(NoSession) && Value() == old(Value())
      ensures hasSession && !hasSummarizer ==> error == Some(NoSummarizer) && Value() == old(Value())
      ensures hasSession && hasSummarizer ==> (Value(), error) == AfterCompact(cfg, old(Value()), force, world)
    {
      if !hasSession {
        return Some(NoSession);
      }
      if !hasSummarizer {
        return Some(NoSummarizer);
      }
      var msgs := session;
      if |msgs| < cfg.minRecentKeep + 1 {
        return None;
      }
      var head, start := PlanCompaction(msgs);
      if start <= head {
        return None;
      }
      var kept, fold := PartitionFold(msgs[head..start]);
      if |fold| == 0 {
        return None;
      }
      if !force {
        var worth := FoldEconomics(fold);
        if !worth {
          return None;
        }
      }
      error := RewriteSession(msgs, head, start, kept, fold, world);
    }

    /** The second half of a compaction, which archives the fold, puts one summary
        in its place and counts. */
    method RewriteSession(msgs: seq<Message>, head: nat, start: nat, kept: seq<Message>, fold: seq<Message>,
                          world: World)
      returns (error: Option<Error>)
      requires msgs == session && head == Head(msgs) && start == Split(cfg, msgs)
      requires kept == Users(msgs[head..start]) && fold == Others(msgs[head..start])
      modifies this
      ensures cfg.archiveDir != "" && world.archived.Failure? ==>
                error == Some(ArchiveFailed(world.archived.error)) && Value() == old(Value())
      ensures cfg.archiveDir == "" || world.archived.Success? ==>
                error.None? && Value() == Rewritten(cfg, old(Value()), SummaryMessage(fold, world))
    {
      if cfg.archiveDir != "" {
        if world.archived.Failure? {
          return Some(ArchiveFailed(world.archived.error));
        }
        archive := archive + fold;
      }
      var text := if world.summarized.Success? then world.summarized.value else Marker(|fold|, world.summarized.error);
      var summary := Message(User, Tagged(text));
      session := msgs[..head] + kept + [summary] + msgs[start..];
      Reassociated(msgs[..head], kept, summary, msgs[start..]);
      CountCompaction();
      return None;
    }

    method CountCompaction()
      modifies this`compactCount, this`consecutiveCompacts, this`compactStuck, this`saved
      ensures Value() == Counted(cfg, old(Value()))
    {
      compactCount := compactCount + 1;
      consecutiveCompacts := consecutiveCompacts + 1;
      if consecutiveCompacts >= 2 {
        compactStuck := true;
      }
      if cfg.persists {
        saved := Saved(compactCount, consecutiveCompacts, compactStuck);
      }
    }

    method MaybeCompact(promptTokens: int, world: World) returns (error: Option<Error>)
      requires Valid()
      modifies this
      ensures hasSession && hasSummarizer ==> (Value(), error) == AfterMaybe(cfg, old(Value()), promptTokens, world)
      ensures !hasSession ==> (Value(), error) == AfterMaybeWithout(cfg, old(Value()), promptTokens, NoSession)
      ensures hasSession && !hasSummarizer ==>
                (Value(), error) == AfterMaybeWithout(cfg, old(Value()), promptTokens, NoSummarizer)
    {
      if cfg.windowTokens <= 0 || promptTokens <= 0 {
        return None;
      }
      var high, soft := Threshold(cfg, cfg.compactRatio), Threshold(cfg, cfg.softRatio);
      if promptTokens >= soft && promptTokens < high && !softNoticed {
        softNoticed := true;
        return None;
      }
      if promptTokens < high {
        consecutiveCompacts := 0;
        compactStuck := false;
        return None;
      }
      if compactStuck {
        return None;
      }
      var force := promptTokens >= Threshold(cfg, cfg.forceRatio);
      error := Compact(force, world);
    }
  }
}
