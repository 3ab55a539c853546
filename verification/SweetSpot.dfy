/** The self-adjusting token budget: a configured number of tokens times a
    tolerance that cached tokens and citations raise and that decays again. */
module SweetSpot {
  import opened Reals

  /** Go's conversion of a float to an integer drops the fraction. */
  function Truncated(x: real): int {
    if x >= 0.0 then x.Floor else -(-x).Floor
  }

  const WINDOW: nat := 10

  datatype State = State(tokens: int, tolerance: real, counts: seq<int>, index: nat)

  function Initial(original: int): State {
    State(original, 1.0, seq(WINDOW, _ => 0), 0)
  }

  // ------------------------------------------------------------- operations

  function Budget(original: int, tolerance: real): int {
    Truncated(Times(original as real, tolerance))
  }

  function DecayedTolerance(tolerance: real, rate: real): real {
    if tolerance > 1.05 then Times(tolerance, rate)
    else if tolerance > 1.0 then 1.0
    else tolerance
  }

  function Decayed(s: State, original: int, rate: real): State {
    if s.tolerance > 1.0 then
      var tolerance := DecayedTolerance(s.tolerance, rate);
      s.(tolerance := tolerance, tokens := if s.tolerance > 1.05 then Budget(original, tolerance) else original)
    else s
  }

  function BudgetUpdated(s: State, original: int, cachedTokens: int, totalTokens: nat): State {
    var cap := Budget(original, 1.5);
    var effective := if cachedTokens + totalTokens > cap then cap else cachedTokens + totalTokens;
    if cachedTokens <= 0 || effective <= s.tokens then s
    else s.(tokens := effective, tolerance := if original > 0 then Over(effective as real, original as real) else s.tolerance)
  }

  function Clamped(tolerance: real): real {
    if tolerance < 1.0 then 1.0 else if tolerance > 1.5 then 1.5 else tolerance
  }

  function WithTolerance(s: State, original: int, tolerance: real): State {
    s.(tolerance := tolerance, tokens := Budget(original, tolerance))
  }

  function Adjusted(s: State, original: int, factor: real): State {
    WithTolerance(s, original, Clamped(Times(s.tolerance, factor)))
  }

  /** The counts from the first positive one on. */
  function Counting(counts: seq<int>): seq<int> {
    if counts == [] || counts[0] > 0 then counts else Counting(counts[1..])
  }

  function Sum(counts: seq<int>): int {
    if counts == [] then 0 else Sum(counts[..|counts| - 1]) + counts[|counts| - 1]
  }

  function Average(counts: seq<int>): real {
    var from := Counting(counts);
    if from == [] then 0.0 else Over(Sum(from) as real, |from| as real)
  }

  /** The factor for a reference rate, 1.0 in the stable zone. */
  function Factor(refRate: real): real {
    if refRate >= 0.30 then 1.15 else if refRate >= 0.15 then 1.08 else if refRate < 0.05 then 0.95 else 1.0
  }

  function Recorded(s: State, uniqueRefs: int): State
    requires |s.counts| == WINDOW && s.index < WINDOW
  {
    s.(counts := s.counts[s.index := uniqueRefs], index := (s.index + 1) % WINDOW)
  }

  /** `active` is the number of active steps, 0 also if the store fails. */
  function WindowUpdated(s: State, original: int, uniqueRefs: int, active: nat): State
    requires |s.counts| == WINDOW && s.index < WINDOW
  {
    var next := Recorded(s, uniqueRefs);
    if active == 0 then next
    else
      var factor := Factor(Over(Average(next.counts), active as real));
      if factor == 1.0 then next else Adjusted(next, original, factor)
  }

  // ------------------------------------------------------------------- runs

  datatype Op = DecayOp | BudgetOp(cachedTokens: int, totalTokens: nat) | CitationsOp(uniqueRefs: nat, active: nat)

  function Step(s: State, op: Op, original: int, rate: real): (r: State)
    requires |s.counts| == WINDOW && s.index < WINDOW
    ensures |r.counts| == WINDOW && r.index < WINDOW
  {
    match op
    case DecayOp => Decayed(s, original, rate)
    case BudgetOp(cachedTokens, totalTokens) => BudgetUpdated(s, original, cachedTokens, totalTokens)
    case CitationsOp(uniqueRefs, active) =>
      if original > 0 then WindowUpdated(s, original, uniqueRefs, active) else s
  }

  function Run(ops: seq<Op>, original: int, rate: real): (r: State)
    ensures |r.counts| == WINDOW && r.index < WINDOW
  {
    if ops == [] then Initial(original) else Step(Run(ops[..|ops| - 1], original, rate), ops[|ops| - 1], original, rate)
  }

  /** The budget follows from the tolerance, which is in its range. */
  predicate Follows(s: State, original: int) {
    1.0 <= s.tolerance <= 1.5 && s.tokens == Budget(original, s.tolerance)
  }

  /** The tolerance is between 1.0 and 1.5; the budget is the original one times
      the tolerance, rounded down, and so between the original and 1.5 of it. */
  predicate InRange(s: State, original: int) {
    && 1.0 <= s.tolerance <= 1.5
    && s.tokens == Times(original as real, s.tolerance).Floor
    && original <= s.tokens
    && s.tokens as real <= 1.5 * original as real
  }

  lemma FloorBounds(original: int, x: real)
    requires original > 0 && original as real <= x <= 1.5 * original as real
    ensures original <= x.Floor == Truncated(x) && x.Floor as real <= 1.5 * original as real
  {
  }

  lemma BudgetInRange(original: int, tolerance: real)
    requires original > 0 && 1.0 <= tolerance <= 1.5
    ensures Budget(original, tolerance) == Times(original as real, tolerance).Floor
    ensures original <= Budget(original, tolerance) && Budget(original, tolerance) as real <= 1.5 * original as real
  {
    TimesOrder(1.0, tolerance, original as real);
    TimesOrder(tolerance, 1.5, original as real);
    TimesOne(original as real);
    assert Times(original as real, 1.5) == 1.5 * original as real;
    FloorBounds(original, Times(original as real, tolerance));
  }

  lemma BudgetOfOne(original: int)
    ensures Budget(original, 1.0) == original
  {
    TimesOne(original as real);
  }

  /** A raised budget is the original one times the new tolerance again. */
  lemma BudgetOfQuotient(original: int, tokens: int)
    requires original > 0 && original <= tokens && tokens as real <= 1.5 * original as real
    ensures 1.0 <= Over(tokens as real, original as real) <= 1.5
    ensures Budget(original, Over(tokens as real, original as real)) == tokens
  {
    var o, q := original as real, Over(tokens as real, original as real);
    OverTimes(tokens as real, o);
    TimesCommutes(q, o);
    TimesOrder(1.0, q, o);
    TimesOrder(q, 1.5, o);
    TimesOne(o);
    assert Times(1.5, o) == 1.5 * o;
  }

  lemma DecayedInRange(tolerance: real, rate: real)
    requires 1.0 <= tolerance <= 1.5 && 20.0 / 21.0 <= rate <= 1.0
    ensures 1.0 <= DecayedTolerance(tolerance, rate) <= 1.5
  {
    if tolerance > 1.05 {
      assert 1.05 * (20.0 / 21.0) == 1.0;
      TimesMonotone(1.05, tolerance, 20.0 / 21.0, rate);
      TimesMonotone(tolerance, tolerance, rate, 1.0);
      TimesOne(tolerance);
      assert Times(1.05, 20.0 / 21.0) == 1.05 * (20.0 / 21.0);
    }
  }

  lemma UpdatedFollows(s: State, original: int, cachedTokens: int, totalTokens: nat)
    requires original > 0 && Follows(s, original)
    ensures Follows(BudgetUpdated(s, original, cachedTokens, totalTokens), original)
  {
    var next := BudgetUpdated(s, original, cachedTokens, totalTokens);
    if next.tokens > s.tokens {
      BudgetInRange(original, s.tolerance);
      BudgetInRange(original, 1.5);
      BudgetOfQuotient(original, next.tokens);
    }
  }

  lemma StepFollows(s: State, op: Op, original: int, rate: real)
    requires |s.counts| == WINDOW && s.index < WINDOW
    requires original > 0 && 20.0 / 21.0 <= rate <= 1.0 && Follows(s, original)
    ensures Follows(Step(s, op, original, rate), original)
  {
    match op
    case DecayOp =>
      DecayedInRange(s.tolerance, rate);
      BudgetOfOne(original);
    case BudgetOp(cachedTokens, totalTokens) =>
      UpdatedFollows(s, original, cachedTokens, totalTokens);
    case CitationsOp(uniqueRefs, active) =>
  }

  lemma {:induction false} RunFollows(ops: seq<Op>, original: int, rate: real)
    requires original > 0 && 20.0 / 21.0 <= rate <= 1.0
    ensures Follows(Run(ops, original, rate), original)
  {
    if ops == [] {
      BudgetOfOne(original);
    } else {
      RunFollows(ops[..|ops| - 1], original, rate);
      StepFollows(Run(ops[..|ops| - 1], original, rate), ops[|ops| - 1], original, rate);
    }
  }

  lemma FollowsInRange(s: State, original: int)
    requires original > 0 && Follows(s, original)
    ensures InRange(s, original)
  {
    BudgetInRange(original, s.tolerance);
  }

  /** In every run the budget and the tolerance are in range. */
  lemma RunInRange(ops: seq<Op>, original: int, rate: real)
    requires original > 0 && 20.0 / 21.0 <= rate <= 1.0
    ensures InRange(Run(ops, original, rate), original)
  {
    RunFollows(ops, original, rate);
    FollowsInRange(Run(ops, original, rate), original);
  }

  /** Without a configured budget nothing ever changes. */
  lemma {:induction false} RunUnset(ops: seq<Op>, original: int, rate: real)
    requires original <= 0
    ensures Run(ops, original, rate) == Initial(original)
  {
    if ops != [] {
      RunUnset(ops[..|ops| - 1], original, rate);
      var cap := Times(original as real, 1.5);
      assert cap == original as real * 1.5;
      assert Truncated(cap) <= original;
    }
  }

  // ------------------------------------------------------------ rates too high or low

  /** One report of cached tokens on a fresh manager, and one decay. */
  lemma ReportedAndDecayed(original: int, cached: int, rate: real)
    requires original > 0 && original < cached && cached as real <= 1.5 * original as real
    requires Over(cached as real, original as real) > 1.05
    ensures Run([BudgetOp(cached, 0), DecayOp], original, rate).tolerance ==
            Times(Over(cached as real, original as real), rate)
  {
    var first, ops := [BudgetOp(cached, 0)], [BudgetOp(cached, 0), DecayOp];
    assert first[..0] == [] && ops[..1] == first;
    assert Budget(original, 1.5) >= cached;
    assert Run(first, original, rate) == BudgetUpdated(Initial(original), original, cached, 0);
    assert Run(ops, original, rate) == Decayed(Run(first, original, rate), original, rate);
  }

  /** A rate above 1 takes the highest tolerance out of range, */
  lemma HighRateLeavesRange(rate: real)
    requires rate > 1.0
    ensures !InRange(Run([BudgetOp(3, 0), DecayOp], 2, rate), 2)
  {
    OverIs(3.0, 2.0, 1.5);
    ReportedAndDecayed(2, 3, rate);
    assert Times(1.5, rate) > 1.5;
  }

  /** and one below 20/21 takes a tolerance just above 1.05 below 1.0. */
  lemma LowRateLeavesRange(rate: real) returns (original: int, cached: int)
    requires 0.0 < rate < 20.0 / 21.0
    ensures original > 0 && !InRange(Run([BudgetOp(cached, 0), DecayOp], original, rate), original)
  {
    var gap := 20.0 - 21.0 * rate;
    var m := Over(1.0, gap).Floor + 1;
    OverPositive(1.0, gap);
    OverTimes(1.0, gap);
    TimesOrder(m as real, Over(1.0, gap), gap);
    assert Times(m as real, gap) == 20.0 * m as real - 21.0 * Times(m as real, rate);
    original, cached := 20 * m, 21 * m + 1;
    var o, t := original as real, Over(cached as real, original as real);
    OverTimes(cached as real, o);
    TimesOrder(t, 1.05, o);
    assert Times(1.05, o) == 1.05 * o;
    ReportedAndDecayed(original, cached, rate);
    assert Times(cached as real, rate) == 21.0 * Times(m as real, rate) + rate;
    assert Times(Times(t, rate), o) == Times(cached as real, rate) by {
      TimesSwaps(t, rate, o);
    }
    TimesOrder(1.0, Times(t, rate), o);
    TimesOne(o);
  }

  /** Every run for every positive budget is in range. */
  ghost predicate RunsInRange(rate: real) {
    forall ops, original | original > 0 :: InRange(Run(ops, original, rate), original)
  }

  /** That holds of exactly the rates from 20/21 to 1; the configuration takes every
      positive rate. */
  lemma RunsInRangeIff(rate: real)
    requires rate > 0.0
    ensures RunsInRange(rate) <==> 20.0 / 21.0 <= rate <= 1.0
  {
    if 20.0 / 21.0 <= rate <= 1.0 {
      forall ops, original | original > 0 ensures InRange(Run(ops, original, rate), original) {
        RunInRange(ops, original, rate);
      }
    } else if rate > 1.0 {
      HighRateLeavesRange(rate);
    } else {
      var original, cached := LowRateLeavesRange(rate);
    }
  }

  // ----------------------------------------------------------- back to normal

  function DecayTimes(tolerance: real, rate: real, n: nat): real
    decreases n
  {
    if n == 0 then tolerance else DecayTimes(DecayedTolerance(tolerance, rate), rate, n - 1)
  }

  lemma {:induction false} DecayTimesMonotone(a: real, b: real, n: nat)
    requires 1.0 <= a <= b
    ensures 1.0 <= DecayTimes(a, 0.98, n) <= DecayTimes(b, 0.98, n)
    decreases n
  {
    if n > 0 {
      DecayTimesMonotone(DecayedTolerance(a, 0.98), DecayedTolerance(b, 0.98), n - 1);
    }
  }

  lemma {:induction false} DecayTimesSplit(tolerance: real, rate: real, m: nat, n: nat)
    ensures DecayTimes(tolerance, rate, m + n) == DecayTimes(DecayTimes(tolerance, rate, m), rate, n)
    decreases m
  {
    if m > 0 {
      DecayTimesSplit(DecayedTolerance(tolerance, rate), rate, m - 1, n);
    }
  }

  /** Six decays from a tolerance that stays above the threshold. */
  lemma SixDecays(t: real)
    requires t > 1.05 / (0.98 * 0.98 * 0.98 * 0.98 * 0.98)
    ensures DecayTimes(t, 0.98, 6) == t * 0.98 * 0.98 * 0.98 * 0.98 * 0.98 * 0.98
  {
    var a := t * 0.98;
    var b := a * 0.98;
    var c := b * 0.98;
    var d := c * 0.98;
    var e := d * 0.98;
    assert e > 1.05 && d > 1.05 && c > 1.05 && b > 1.05 && a > 1.05;
    assert DecayTimes(e, 0.98, 1) == DecayTimes(e * 0.98, 0.98, 0);
    assert DecayTimes(d, 0.98, 2) == DecayTimes(e, 0.98, 1);
    assert DecayTimes(c, 0.98, 3) == DecayTimes(d, 0.98, 2);
    assert DecayTimes(b, 0.98, 4) == DecayTimes(c, 0.98, 3);
    assert DecayTimes(a, 0.98, 5) == DecayTimes(b, 0.98, 4);
  }

  /** From the highest tolerance it takes nineteen decays at the default rate to
      come back to exactly 1.0, */
  lemma NineteenFromTop()
    ensures DecayTimes(1.5, 0.98, 18) > 1.0
    ensures DecayTimes(1.5, 0.98, 19) == 1.0
  {
    var six := 1.5 * 0.98 * 0.98 * 0.98 * 0.98 * 0.98 * 0.98;
    var twelve := six * 0.98 * 0.98 * 0.98 * 0.98 * 0.98 * 0.98;
    var eighteen := twelve * 0.98 * 0.98 * 0.98 * 0.98 * 0.98 * 0.98;
    SixDecays(1.5);
    SixDecays(six);
    SixDecays(twelve);
    assert 1.0 < eighteen <= 1.05;
    DecayTimesSplit(1.5, 0.98, 6, 6);
    DecayTimesSplit(1.5, 0.98, 12, 6);
    DecayTimesSplit(1.5, 0.98, 18, 1);
    assert DecayTimes(eighteen, 0.98, 1) == DecayTimes(1.0, 0.98, 0);
  }

  /** and never more from anywhere in the range. */
  lemma NineteenSuffice(tolerance: real)
    requires 1.0 <= tolerance <= 1.5
    ensures DecayTimes(tolerance, 0.98, 19) == 1.0
  {
    NineteenFromTop();
    DecayTimesMonotone(tolerance, 1.5, 19);
  }

  function Decays(s: State, original: int, rate: real, n: nat): State
    decreases n
  {
    if n == 0 then s else Decays(Decayed(s, original, rate), original, rate, n - 1)
  }

  lemma {:induction false} DecaysTolerance(s: State, original: int, rate: real, n: nat)
    ensures Decays(s, original, rate, n).tolerance == DecayTimes(s.tolerance, rate, n)
    decreases n
  {
    if n > 0 {
      DecaysTolerance(Decayed(s, original, rate), original, rate, n - 1);
    }
  }

  lemma {:induction false} DecaysFollow(s: State, original: int, n: nat)
    requires original > 0 && Follows(s, original)
    ensures Follows(Decays(s, original, 0.98, n), original)
    decreases n
  {
    if n > 0 {
      DecayedInRange(s.tolerance, 0.98);
      BudgetOfOne(original);
      DecaysFollow(Decayed(s, original, 0.98), original, n - 1);
    }
  }

  /** So nineteen decay calls in a row, after any run, restore the configured
      budget. */
  lemma BudgetComesBack(ops: seq<Op>, original: int)
    requires original > 0
    ensures var s := Decays(Run(ops, original, 0.98), original, 0.98, 19);
            s.tolerance == 1.0 && s.tokens == original
  {
    var s := Run(ops, original, 0.98);
    RunFollows(ops, original, 0.98);
    NineteenSuffice(s.tolerance);
    DecaysTolerance(s, original, 0.98, 19);
    DecaysFollow(s, original, 19);
    BudgetOfOne(original);
  }

  // ------------------------------------------------------ the circular buffer

  /** The reference counts that a run records. */
  function Counts(ops: seq<Op>): seq<int> {
    if ops == [] then []
    else
      var before, op := Counts(ops[..|ops| - 1]), ops[|ops| - 1];
      if op.CitationsOp? then before + [op.uniqueRefs] else before
  }

  /** The window holds the last ten counts, each in its place, and is zero where
      nothing was recorded yet. */
  ghost predicate HoldsLatest(counts: seq<int>, index: nat, recorded: seq<int>) {
    && |counts| == WINDOW
    && index == |recorded| % WINDOW
    && (forall i | 0 <= i < |recorded| && |recorded| - WINDOW <= i :: counts[i % WINDOW] == recorded[i])
    && (forall j | |recorded| <= j < WINDOW :: counts[j] == 0)
  }

  lemma {:induction false} WindowHoldsLatest(ops: seq<Op>, original: int, rate: real)
    requires original > 0
    ensures HoldsLatest(Run(ops, original, rate).counts, Run(ops, original, rate).index, Counts(ops))
  {
    if ops != [] {
      var before, op := ops[..|ops| - 1], ops[|ops| - 1];
      WindowHoldsLatest(before, original, rate);
      if op.CitationsOp? {
        var s := Run(before, original, rate);
        RecordHoldsLatest(s.counts, s.index, Counts(before), op.uniqueRefs);
      }
    }
  }

  lemma RecordHoldsLatest(counts: seq<int>, index: nat, recorded: seq<int>, x: int)
    requires HoldsLatest(counts, index, recorded)
    ensures HoldsLatest(counts[index := x], (index + 1) % WINDOW, recorded + [x])
  {
    var after, more := counts[index := x], recorded + [x];
    forall i | 0 <= i < |more| && |more| - WINDOW <= i ensures after[i % WINDOW] == more[i] {
      if i < |recorded| {
        OtherPlace(i, |recorded|);
      }
    }
  }

  lemma OtherPlace(i: nat, n: nat)
    requires i < n < i + 10
    ensures i % 10 != n % 10
  {
  }

  // ------------------------------------------------- which way the citations move it

  /** All ten counts. */
  function TotalCount(counts: seq<int>): int
    requires |counts| == 10
  {
    counts[0] + counts[1] + counts[2] + counts[3] + counts[4] + counts[5] + counts[6] + counts[7] + counts[8] + counts[9]
  }

  predicate Natural(counts: seq<int>) {
    forall i | 0 <= i < |counts| :: counts[i] >= 0
  }

  /** `k` is the first place with a positive count, or behind the last. */
  predicate FirstPositive(counts: seq<int>, k: nat) {
    k <= |counts| && (forall i | 0 <= i < k :: counts[i] == 0) && (k < |counts| ==> counts[k] > 0)
  }

  lemma {:induction false} CountingFrom(counts: seq<int>, k: nat)
    requires FirstPositive(counts, k)
    ensures Counting(counts) == counts[k..]
  {
    if k > 0 {
      CountingFrom(counts[1..], k - 1);
      assert counts[1..][k - 1..] == counts[k..];
    } else {
      assert counts[0..] == counts;
    }
  }

  lemma {:induction false} SumOfParts(a: seq<int>, b: seq<int>)
    ensures Sum(a + b) == Sum(a) + Sum(b)
  {
    if b == [] {
      assert a + b == a;
    } else {
      SumOfParts(a, b[..|b| - 1]);
      assert (a + b)[..|a + b| - 1] == a + b[..|b| - 1];
    }
  }

  lemma {:induction false} SumOfZeros(counts: seq<int>)
    requires forall i | 0 <= i < |counts| :: counts[i] == 0
    ensures Sum(counts) == 0
  {
    if counts != [] {
      SumOfZeros(counts[..|counts| - 1]);
    }
  }

  lemma SumNext(counts: seq<int>, n: nat)
    requires n < |counts|
    ensures Sum(counts[..n + 1]) == Sum(counts[..n]) + counts[n]
  {
    assert counts[..n + 1][..n] == counts[..n];
  }

  lemma SumIsTotal(counts: seq<int>)
    requires |counts| == 10
    ensures Sum(counts) == TotalCount(counts)
  {
    assert counts[..0] == [] && counts[..10] == counts;
    SumNext(counts, 0);
    SumNext(counts, 1);
    SumNext(counts, 2);
    SumNext(counts, 3);
    SumNext(counts, 4);
    SumNext(counts, 5);
    SumNext(counts, 6);
    SumNext(counts, 7);
    SumNext(counts, 8);
    SumNext(counts, 9);
  }

  lemma SumFrom(counts: seq<int>, k: nat)
    requires |counts| == 10 && FirstPositive(counts, k)
    ensures Sum(Counting(counts)) == TotalCount(counts) && |Counting(counts)| == 10 - k
  {
    CountingFrom(counts, k);
    assert counts == counts[..k] + counts[k..];
    SumOfParts(counts[..k], counts[k..]);
    SumOfZeros(counts[..k]);
    SumIsTotal(counts);
  }

  lemma OverTwice(a: real, b: real, c: real, x: real)
    requires b > 0.0 && c > 0.0
    ensures Over(Over(a, b), c) >= x <==> a >= Times(x, Times(b, c))
  {
    var q := Over(Over(a, b), c);
    OverTimes(Over(a, b), c);
    OverTimes(a, b);
    TimesSwaps(q, c, b);
    TimesAssociates(q, b, c);
    TimesOrder(x, q, Times(b, c));
  }

  /** The share of citations among `places` counts of `active` steps is at least `x`. */
  predicate AtLeast(total: int, places: nat, active: nat, x: real) {
    total as real >= Times(x, Times(places as real, active as real))
  }

  lemma RateAtLeast(counts: seq<int>, k: nat, active: nat, x: real)
    requires |counts| == 10 && FirstPositive(counts, k) && k < 10 && active > 0
    ensures Over(Average(counts), active as real) >= x <==> AtLeast(TotalCount(counts), 10 - k, active, x)
  {
    SumFrom(counts, k);
    OverTwice(TotalCount(counts) as real, (10 - k) as real, active as real, x);
  }

  /** What a count of citations makes of the tolerance: from 30 citations on for a
      hundred active steps, on average since the first place with any, it grows by 15
      percent, from 15 on by 8, up to 1.5; below 5, or without any, it falls by 5
      percent, down to 1.0; in between nothing changes.  The budget goes with it. */
  lemma CitationsAdjust(s: State, original: int, uniqueRefs: nat, active: nat, rate: real, k: nat)
    requires |s.counts| == 10 && s.index < 10 && Natural(s.counts) && original > 0 && active > 0
    requires 1.0 <= s.tolerance <= 1.5 && FirstPositive(s.counts[s.index := uniqueRefs], k)
    ensures var after, counts := Step(s, CitationsOp(uniqueRefs, active), original, rate), s.counts[s.index := uniqueRefs];
            var total, places, t := TotalCount(counts), 10 - k, s.tolerance;
            && after.counts == counts && after.index == (s.index + 1) % 10
            && if k == 10 || !AtLeast(total, places, active, 0.05) then
                 after.tolerance == (if Times(t, 0.95) < 1.0 then 1.0 else Times(t, 0.95)) &&
                 after.tokens == Times(original as real, after.tolerance).Floor
               else if AtLeast(total, places, active, 0.30) then
                 after.tolerance == (if Times(t, 1.15) > 1.5 then 1.5 else Times(t, 1.15)) &&
                 after.tokens == Times(original as real, after.tolerance).Floor
               else if AtLeast(total, places, active, 0.15) then
                 after.tolerance == (if Times(t, 1.08) > 1.5 then 1.5 else Times(t, 1.08)) &&
                 after.tokens == Times(original as real, after.tolerance).Floor
               else after.tolerance == t && after.tokens == s.tokens
  {
    var after, counts := Step(s, CitationsOp(uniqueRefs, active), original, rate), s.counts[s.index := uniqueRefs];
    SharesOrdered(TotalCount(counts), 10 - k, active);
    if k == 10 {
      CountingFrom(counts, k);
      assert Times(0.0, active as real) == 0.0;
      OverIs(0.0, active as real, 0.0);
    } else {
      RateAtLeast(counts, k, active, 0.30);
      RateAtLeast(counts, k, active, 0.15);
      RateAtLeast(counts, k, active, 0.05);
    }
    BudgetInRange(original, after.tolerance) by {
      TimesOrder(1.0, 1.15, s.tolerance);
    }
  }

  lemma SharesOrdered(total: int, places: nat, active: nat)
    ensures AtLeast(total, places, active, 0.30) ==> AtLeast(total, places, active, 0.15)
    ensures AtLeast(total, places, active, 0.15) ==> AtLeast(total, places, active, 0.05)
  {
    var n := Times(places as real, active as real);
    TimesMonotone(0.05, 0.15, n, n);
    TimesMonotone(0.15, 0.30, n, n);
  }

  /** Reported cached tokens raise the budget to them and the tokens in the context,
      up to 1.5 times the original one, and the tolerance to the same share; they never
      lower it. */
  lemma ReportRaises(s: State, original: int, cachedTokens: int, totalTokens: nat, rate: real)
    requires |s.counts| == 10 && s.index < 10 && original > 0
    ensures var after := Step(s, BudgetOp(cachedTokens, totalTokens), original, rate);
            var wanted, most := cachedTokens + totalTokens, (1.5 * original as real).Floor;
            var raised := if wanted < most then wanted else most;
            && after.counts == s.counts && after.index == s.index
            && (if cachedTokens > 0 && raised > s.tokens
                then after.tokens == raised && Times(after.tolerance, original as real) == raised as real
                else after.tokens == s.tokens && after.tolerance == s.tolerance)
  {
    assert Times(original as real, 1.5) == 1.5 * original as real;
    var most := (1.5 * original as real).Floor;
    OverTimes(most as real, original as real);
    OverTimes((cachedTokens + totalTokens) as real, original as real);
  }

  /** In every run the counts are natural numbers. */
  lemma {:induction false} RunNatural(ops: seq<Op>, original: int, rate: real)
    ensures Natural(Run(ops, original, rate).counts)
  {
    if ops != [] {
      RunNatural(ops[..|ops| - 1], original, rate);
    }
  }

  /** The loop that averages, at its `i`-th place: `count` places count so far. */
  predicate Averaging(all: seq<int>, i: nat, sum: int, count: nat) {
    && count <= i <= |all|
    && (count == 0 ==> sum == 0 && Counting(all) == Counting(all[i..]))
    && (count > 0 ==> Counting(all) == all[i - count..] && sum == Sum(all[i - count..i]))
  }

  lemma AveragingNext(all: seq<int>, i: nat, sum: int, count: nat)
    requires i < |all| && Averaging(all, i, sum, count)
    ensures if all[i] > 0 || count > 0 then Averaging(all, i + 1, sum + all[i], count + 1)
            else Averaging(all, i + 1, sum, count)
  {
    if all[i] > 0 || count > 0 {
      SumGrows(all, i - count, i);
      CountingAt(all, i);
    } else {
      CountingPast(all, i);
    }
  }

  lemma SumGrows(all: seq<int>, from: nat, i: nat)
    requires from <= i < |all|
    ensures Sum(all[from..i + 1]) == Sum(all[from..i]) + all[i]
    ensures Sum(all[i..i]) == 0
  {
    var more := all[from..i + 1];
    assert more[..|more| - 1] == all[from..i] && more[|more| - 1] == all[i];
  }

  lemma CountingAt(all: seq<int>, i: nat)
    requires i < |all|
    ensures all[i] > 0 ==> Counting(all[i..]) == all[i..]
  {
  }

  lemma CountingPast(all: seq<int>, i: nat)
    requires i < |all| && all[i] <= 0
    ensures Counting(all[i..]) == Counting(all[i + 1..])
  {
    assert all[i..][1..] == all[i + 1..];
  }

  // -------------------------------------------------------------- the class

  class SweetSpotBudget {
    const sweetSpotOriginal: int
    const decayRate: real
    var sweetSpotTokens: int
    var sweetSpotTolerance: real
    const recentRefCounts: array<int>
    var recentRefIdx: nat

    constructor (original: int, decayRate: real)
      ensures Valid() && Value() == Initial(original) && fresh(recentRefCounts)
      ensures sweetSpotOriginal == original && this.decayRate == if decayRate <= 0.0 then 0.98 else decayRate
    {
      sweetSpotOriginal, sweetSpotTokens, sweetSpotTolerance := original, original, 1.0;
      this.decayRate := if decayRate <= 0.0 then 0.98 else decayRate;
      recentRefIdx := 0;
      recentRefCounts := new int[WINDOW](_ => 0);
      new;
      assert recentRefCounts[..] == seq(WINDOW, _ => 0);
    }

    predicate Valid()
      reads this
    {
      recentRefCounts.Length == WINDOW && recentRefIdx < WINDOW
    }

    function Value(): State
      reads this, recentRefCounts
    {
      State(sweetSpotTokens, sweetSpotTolerance, recentRefCounts[..], recentRefIdx)
    }

    method DecayTolerance()
      modifies this
      ensures Value() == Decayed(old(Value()), sweetSpotOriginal, decayRate) && recentRefIdx == old(recentRefIdx)
    {
      if sweetSpotTolerance > 1.05 {
        sweetSpotTolerance := Times(sweetSpotTolerance, decayRate);
        sweetSpotTokens := Budget(sweetSpotOriginal, sweetSpotTolerance);
      } else if sweetSpotTolerance > 1.0 {
        sweetSpotTolerance := 1.0;
        sweetSpotTokens := sweetSpotOriginal;
      }
    }

    /** `totalTokens` is the estimate of the tokens in the context. */
    method UpdateCacheBudget(cachedTokens: int, totalTokens: nat)
      modifies this
      ensures Value() == BudgetUpdated(old(Value()), sweetSpotOriginal, cachedTokens, totalTokens)
    {
      if cachedTokens <= 0 {
        return;
      }
      var effective := cachedTokens + totalTokens;
      var cap := Budget(sweetSpotOriginal, 1.5);
      if effective > cap {
        effective := cap;
      }
      if effective > sweetSpotTokens {
        sweetSpotTokens := effective;
        if sweetSpotOriginal > 0 {
          sweetSpotTolerance := Over(effective as real, sweetSpotOriginal as real);
        }
      }
    }

    method ClampTolerance(tolerance: real) returns (newTol: real)
      ensures newTol == Clamped(tolerance)
    {
      newTol := tolerance;
      if newTol < 1.0 {
        newTol := 1.0;
      }
      if newTol > 1.5 {
        newTol := 1.5;
      }
    }

    method AdjustTolerance(factor: real)
      modifies this`sweetSpotTolerance, this`sweetSpotTokens
      ensures Value() == Adjusted(old(Value()), sweetSpotOriginal, factor)
    {
      var newTol := ClampTolerance(Times(sweetSpotTolerance, factor));
      SetTolerance(newTol);
    }

    method SetTolerance(tolerance: real)
      modifies this`sweetSpotTolerance, this`sweetSpotTokens
      ensures Value() == WithTolerance(old(Value()), sweetSpotOriginal, tolerance)
    {
      sweetSpotTolerance := tolerance;
      sweetSpotTokens := Budget(sweetSpotOriginal, tolerance);
    }

    method AverageRecentRefs() returns (average: real)
      ensures average == Average(recentRefCounts[..])
    {
      var sum, count := 0, 0;
      ghost var all := recentRefCounts[..];
      for i := 0 to recentRefCounts.Length
        invariant Averaging(all, i, sum, count)
      {
        AveragingNext(all, i, sum, count);
        var v := recentRefCounts[i];
        if v > 0 || count > 0 {
          sum := sum + v;
          count := count + 1;
        }
      }
      if count == 0 {
        return 0.0;
      }
      assert all[|all| - count..|all|] == all[|all| - count..];
      return Over(sum as real, count as real);
    }

    /** `active` is the number of active steps, 0 if the store could not tell. */
    method UpdateSlidingWindow(uniqueRefs: int, active: nat)
      requires Valid()
      modifies this, recentRefCounts
      ensures Valid()
      ensures Value() == WindowUpdated(old(Value()), sweetSpotOriginal, uniqueRefs, active)
    {
      recentRefCounts[recentRefIdx] := uniqueRefs;
      recentRefIdx := (recentRefIdx + 1) % recentRefCounts.Length;
      var avgRefs := AverageRecentRefs();
      if active == 0 {
        return;
      }
      var refRate := Over(avgRefs, active as real);
      if refRate >= 0.30 {
        AdjustTolerance(1.15);
      } else if refRate >= 0.15 {
        AdjustTolerance(1.08);
      } else if refRate < 0.05 {
        AdjustTolerance(0.95);
      }
    }
  }
}
