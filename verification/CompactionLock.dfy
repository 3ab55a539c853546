/** The compression lock: any number of callers, one transaction in flight, and
    markers in a log that tell a later process what was cut short. */
module CompactionLock {
  import opened Wrappers

  datatype Marker = Begin(id: string) | End(id: string)

  /** Where a caller of `TriggerCompression` is.  A marker is written in two
      steps, since reading the identity and appending take different locks. */
  datatype Phase = Outside | Acquired | BeginRead(id: string) | Working | EndRead(id: string) | Ended

  /** `lost` is a history: the transactions a crash cut off between their markers. */
  datatype State = State(callers: seq<Phase>, run: Option<string>, log: seq<Marker>, lost: seq<string>)

  datatype Action =
      // with the identity that the caller would draw
    | Call(caller: nat, id: string)
    | ReadId(caller: nat)
    | WriteMarker(caller: nat)
    | Release(caller: nat)
      // the process dies and a new one is started on the same log
    | Crash

  function Initial(callers: nat): State {
    State(seq(callers, _ => Outside), None, [], [])
  }

  predicate Enabled(s: State, a: Action) {
    match a
    case Call(i, _) => i < |s.callers| && s.callers[i] == Outside
    case ReadId(i) => i < |s.callers| && (s.callers[i] == Acquired || s.callers[i] == Working)
    case WriteMarker(i) => i < |s.callers| && (s.callers[i].BeginRead? || s.callers[i].EndRead?)
    case Release(i) => i < |s.callers| && s.callers[i] == Ended
    case Crash => true
  }

  function CurrentId(run: Option<string>): string {
    if run.Some? then run.value else ""
  }

  /** A call that finds a transaction in flight gets the busy error. */
  predicate Busy(s: State, a: Action) {
    a.Call? && s.run.Some?
  }

  function At(s: State, i: nat, phase: Phase): State
    requires i < |s.callers|
  {
    s.(callers := s.callers[i := phase])
  }

  function Next(s: State, a: Action): State
    requires Enabled(s, a)
  {
    match a
    case Call(i, id) => if s.run.Some? then s else At(s, i, Acquired).(run := Some(id))
    case ReadId(i) =>
      var id := CurrentId(s.run);
      At(s, i, if s.callers[i] == Acquired then BeginRead(id) else EndRead(id))
    case WriteMarker(i) =>
      if s.callers[i].BeginRead? then At(s, i, Working).(log := s.log + [Begin(s.callers[i].id)])
      else At(s, i, Ended).(log := s.log + [End(s.callers[i].id)])
    case Release(i) => At(s, i, Outside).(run := None)
    case Crash =>
      State(seq(|s.callers|, _ => Outside), None, s.log, if Open(s) then s.lost + [CurrentId(s.run)] else s.lost)
  }

  ghost predicate IsRun(states: seq<State>, actions: seq<Action>) {
    && |states| == |actions| + 1
    && (exists callers :: states[0] == Initial(callers))
    && forall i | 0 <= i < |actions| :: Enabled(states[i], actions[i]) && states[i + 1] == Next(states[i], actions[i])
  }

  // ------------------------------------------------------------ the invariant

  /** Some caller is between its two markers. */
  predicate Open(s: State) {
    exists i | 0 <= i < |s.callers| :: s.callers[i] == Working || s.callers[i].EndRead?
  }

  predicate Exclusive(s: State) {
    forall i, j | 0 <= i < j < |s.callers| :: s.callers[i] == Outside || s.callers[j] == Outside
  }

  predicate InFlight(s: State) {
    exists i | 0 <= i < |s.callers| :: s.callers[i] != Outside
  }

  predicate IdsRead(s: State) {
    forall i | 0 <= i < |s.callers| && (s.callers[i].BeginRead? || s.callers[i].EndRead?) :: s.run == Some(s.callers[i].id)
  }

  /** Only the holder of the lock is past acquiring it, and it knows its identity. */
  predicate Locked(s: State) {
    Exclusive(s) && (s.run.Some? <==> InFlight(s)) && IdsRead(s)
  }

  /** The log is made of pairs with equal identities and of the unpaired begin
      markers of `lost`, in order. */
  predicate Paired(log: seq<Marker>, lost: seq<string>)
    decreases |log|
  {
    var n, m := |log|, |lost|;
    || (n == 0 && m == 0)
    || (n >= 2 && log[n - 1].End? && log[n - 2] == Begin(log[n - 1].id) && Paired(log[..n - 2], lost))
    || (n >= 1 && m >= 1 && log[n - 1] == Begin(lost[m - 1]) && Paired(log[..n - 1], lost[..m - 1]))
  }

  /** What has been cut short, and what is under way, at this point. */
  function Unfinished(s: State): seq<string> {
    if Open(s) then s.lost + [CurrentId(s.run)] else s.lost
  }

  lemma StepLocked(s: State, a: Action)
    requires Enabled(s, a) && Locked(s)
    ensures Locked(Next(s, a))
  {
    var next := Next(s, a);
    match a
    case Call(i, _) =>
      if s.run.None? {
        assert next.callers[i] == Acquired;
      }
    case ReadId(i) => assert next.callers[i] != Outside;
    case WriteMarker(i) => assert next.callers[i] != Outside;
    case Release(i) =>
    case Crash =>
  }

  lemma OthersOutside(s: State, i: nat)
    requires Exclusive(s) && i < |s.callers| && s.callers[i] != Outside
    ensures forall j | 0 <= j < |s.callers| && j != i :: s.callers[j] == Outside
    ensures Open(s) <==> s.callers[i] == Working || s.callers[i].EndRead?
  {
  }

  lemma PairedBegin(log: seq<Marker>, lost: seq<string>, id: string)
    requires Paired(log, lost)
    ensures Paired(log + [Begin(id)], lost + [id])
  {
    var more, all := log + [Begin(id)], lost + [id];
    assert more[..|more| - 1] == log && all[..|all| - 1] == lost;
  }

  lemma PairedEnd(log: seq<Marker>, lost: seq<string>, id: string)
    requires Paired(log, lost + [id])
    requires log != [] && log[|log| - 1] == Begin(id)
    ensures Paired(log + [End(id)], lost)
  {
    var more, all := log + [End(id)], lost + [id];
    assert all[..|all| - 1] == lost;
    assert more[..|more| - 2] == log[..|log| - 1];
  }

  /** While a transaction is between its markers, the log ends in its begin. */
  predicate EndsOpen(s: State) {
    Open(s) ==> s.log != [] && s.log[|s.log| - 1] == Begin(CurrentId(s.run))
  }

  lemma WriteUnfinished(s: State, i: nat)
    requires Enabled(s, WriteMarker(i)) && Locked(s)
    ensures var next, id := Next(s, WriteMarker(i)), s.callers[i].id;
            if s.callers[i].BeginRead? then
              Unfinished(s) == s.lost && Unfinished(next) == s.lost + [id] && next.log == s.log + [Begin(id)] && EndsOpen(next)
            else
              Unfinished(s) == s.lost + [id] && Unfinished(next) == s.lost && next.log == s.log + [End(id)] && EndsOpen(next)
              && Open(s) && s.run == Some(id)
  {
    OthersOutside(s, i);
    OthersOutside(Next(s, WriteMarker(i)), i);
  }

  lemma WritePaired(s: State, i: nat)
    requires Enabled(s, WriteMarker(i)) && Locked(s) && Paired(s.log, Unfinished(s)) && EndsOpen(s)
    ensures PairedOpen(Next(s, WriteMarker(i)))
  {
    WriteUnfinished(s, i);
    if s.callers[i].BeginRead? {
      PairedBegin(s.log, s.lost, s.callers[i].id);
    } else {
      PairedEnd(s.log, s.lost, s.callers[i].id);
    }
  }

  /** The log is paired, and open where a transaction is. */
  predicate PairedOpen(s: State) {
    Paired(s.log, Unfinished(s)) && EndsOpen(s)
  }

  /** A step that leaves the log, the lock and what is open alone. */
  lemma SamePaired(s: State, next: State)
    requires PairedOpen(s) && next.log == s.log && next.lost == s.lost
    requires Open(next) <==> Open(s)
    requires Open(s) ==> next.run == s.run
    ensures PairedOpen(next)
  {
  }

  lemma CallPaired(s: State, a: Action)
    requires Enabled(s, a) && a.Call? && Locked(s) && PairedOpen(s)
    ensures PairedOpen(Next(s, a))
  {
    var next := Next(s, a);
    StepLocked(s, a);
    if s.run.None? {
      assert !InFlight(s);
      OthersOutside(next, a.caller);
      SamePaired(s, next);
    }
  }

  lemma ReadPaired(s: State, i: nat)
    requires Enabled(s, ReadId(i)) && Locked(s) && PairedOpen(s)
    ensures PairedOpen(Next(s, ReadId(i)))
  {
    StepLocked(s, ReadId(i));
    OthersOutside(s, i);
    OthersOutside(Next(s, ReadId(i)), i);
    SamePaired(s, Next(s, ReadId(i)));
  }

  lemma ReleasePaired(s: State, i: nat)
    requires Enabled(s, Release(i)) && Locked(s) && PairedOpen(s)
    ensures PairedOpen(Next(s, Release(i)))
  {
    OthersOutside(s, i);
    SamePaired(s, Next(s, Release(i)));
  }

  lemma CrashPaired(s: State)
    requires PairedOpen(s)
    ensures PairedOpen(Next(s, Crash))
  {
    assert Next(s, Crash).lost == Unfinished(s);
  }

  lemma StepPaired(s: State, a: Action)
    requires Enabled(s, a) && Locked(s) && PairedOpen(s)
    ensures PairedOpen(Next(s, a))
  {
    match a
    case Call(_, _) => CallPaired(s, a);
    case ReadId(i) => ReadPaired(s, i);
    case WriteMarker(i) => WritePaired(s, i);
    case Release(i) => ReleasePaired(s, i);
    case Crash => CrashPaired(s);
  }

  lemma {:induction false} RunInvariant(states: seq<State>, actions: seq<Action>, n: nat)
    requires IsRun(states, actions) && n < |states|
    ensures Locked(states[n]) && Paired(states[n].log, Unfinished(states[n])) && EndsOpen(states[n])
  {
    if n > 0 {
      RunInvariant(states, actions, n - 1);
      assert Enabled(states[n - 1], actions[n - 1]) && states[n - 1 + 1] == Next(states[n - 1], actions[n - 1]);
      StepLocked(states[n - 1], actions[n - 1]);
      StepPaired(states[n - 1], actions[n - 1]);
    }
  }

  // ------------------------------------------------------------- main results

  /** In every run a caller that finds nobody past acquiring gets the lock, with the
      identity it drew. */
  lemma FreeLockIsTaken(states: seq<State>, actions: seq<Action>, n: nat)
    requires IsRun(states, actions) && n < |actions| && actions[n].Call?
    requires forall i | 0 <= i < |states[n].callers| :: states[n].callers[i] == Outside
    ensures var i := actions[n].caller;
            && states[n + 1].callers == states[n].callers[i := Acquired] && states[n + 1].run == Some(actions[n].id)
            && states[n + 1].log == states[n].log
  {
    RunInvariant(states, actions, n);
    assert Enabled(states[n], actions[n]) && states[n + 1] == Next(states[n], actions[n]);
  }

  /** A transaction of its own, from the call to the release. */
  function Transaction(s: State, i: nat, id: string): State
    requires i < |s.callers| && s.callers[i] == Outside && s.run.None?
  {
    var begun := Next(Next(Next(s, Call(i, id)), ReadId(i)), WriteMarker(i));
    Next(Next(Next(begun, ReadId(i)), WriteMarker(i)), Release(i))
  }

  /** It leaves a start and an end with its identity, and a free lock. */
  lemma TransactionLogs(s: State, i: nat, id: string)
    requires i < |s.callers| && s.callers[i] == Outside && s.run.None?
    ensures Transaction(s, i, id) == s.(log := s.log + [Begin(id), End(id)])
  {
    assert s.log + [Begin(id)] + [End(id)] == s.log + [Begin(id), End(id)];
    assert s.callers[i := Outside] == s.callers;
  }

  /** At most one caller is between acquiring and releasing, at any point. */
  lemma MutualExclusion(states: seq<State>, actions: seq<Action>, n: nat, i: nat, j: nat)
    requires IsRun(states, actions) && n < |states| && i < j < |states[n].callers|
    ensures states[n].callers[i] == Outside || states[n].callers[j] == Outside
  {
    RunInvariant(states, actions, n);
  }

  /** A call is turned away exactly while another one is in flight. */
  lemma BusyIffInFlight(states: seq<State>, actions: seq<Action>, n: nat)
    requires IsRun(states, actions) && n < |actions| && actions[n].Call?
    ensures Busy(states[n], actions[n]) <==>
            exists i | 0 <= i < |states[n].callers| :: i != actions[n].caller && states[n].callers[i] != Outside
    ensures Busy(states[n], actions[n]) ==> states[n + 1] == states[n]
  {
    RunInvariant(states, actions, n);
    assert Enabled(states[n], actions[n]) && states[n + 1] == Next(states[n], actions[n]);
  }

  /** Nothing but pairs of a begin and an end with equal identities. */
  predicate Alternating(log: seq<Marker>) {
    var n := |log|;
    n == 0 || (n >= 2 && log[n - 1].End? && log[n - 2] == Begin(log[n - 1].id) && Alternating(log[..n - 2]))
  }

  lemma {:induction false} PairedAlternates(log: seq<Marker>)
    requires Paired(log, [])
    ensures Alternating(log)
    decreases |log|
  {
    if log != [] {
      PairedAlternates(log[..|log| - 2]);
    }
  }

  predicate NeverCrashes(actions: seq<Action>) {
    forall i | 0 <= i < |actions| :: actions[i] != Crash
  }

  lemma {:induction false} NothingLost(states: seq<State>, actions: seq<Action>, n: nat)
    requires IsRun(states, actions) && n < |states| && NeverCrashes(actions)
    ensures states[n].lost == []
  {
    if n > 0 {
      NothingLost(states, actions, n - 1);
      assert Enabled(states[n - 1], actions[n - 1]) && states[n - 1 + 1] == Next(states[n - 1], actions[n - 1]);
    }
  }

  /** As long as nothing crashes the log alternates, with one begin more, that of
      the transaction in flight, while a caller is between its two markers. */
  lemma LogAlternates(states: seq<State>, actions: seq<Action>, n: nat)
    requires IsRun(states, actions) && n < |states| && NeverCrashes(actions)
    ensures var s, m := states[n], |states[n].log|;
            if Open(s) then m > 0 && Alternating(s.log[..m - 1]) && s.log[m - 1] == Begin(CurrentId(s.run))
            else Alternating(s.log)
  {
    RunInvariant(states, actions, n);
    NothingLost(states, actions, n);
    var s, m := states[n], |states[n].log|;
    if Open(s) {
      LastUnpaired(s.log, CurrentId(s.run));
    } else {
      PairedAlternates(s.log);
    }
  }

  lemma LastUnpaired(log: seq<Marker>, id: string)
    requires Paired(log, [] + [id]) && log != [] && log[|log| - 1] == Begin(id)
    ensures Alternating(log[..|log| - 1])
  {
    assert ([] + [id])[..0] == [];
    PairedAlternates(log[..|log| - 1]);
  }

  // ------------------------------------------------------- reading the log back

  function RemoveFirst(ids: seq<string>, id: string): seq<string> {
    if ids == [] then [] else if ids[0] == id then ids[1..] else [ids[0]] + RemoveFirst(ids[1..], id)
  }

  /** What the scan at startup makes of a log. */
  function Orphans(log: seq<Marker>): seq<string> {
    if log == [] then []
    else
      var before, last := Orphans(log[..|log| - 1]), log[|log| - 1];
      if last.Begin? then before + [last.id] else RemoveFirst(before, last.id)
  }

  predicate BeginsDistinct(log: seq<Marker>) {
    forall i, j | 0 <= i < j < |log| && log[i].Begin? && log[j].Begin? :: log[i].id != log[j].id
  }

  lemma {:induction false} RemoveLast(ids: seq<string>, id: string)
    requires id !in ids
    ensures RemoveFirst(ids + [id], id) == ids
  {
    if ids != [] {
      RemoveLast(ids[1..], id);
      assert (ids + [id])[1..] == ids[1..] + [id];
    }
  }

  lemma {:induction false} NeverBegan(log: seq<Marker>, lost: seq<string>, id: string)
    requires Paired(log, lost) && Begin(id) !in log
    ensures id !in lost
    decreases |log|
  {
    var n, m := |log|, |lost|;
    if n >= 2 && log[n - 1].End? && log[n - 2] == Begin(log[n - 1].id) && Paired(log[..n - 2], lost) {
      NeverBegan(log[..n - 2], lost, id);
    } else if n > 0 {
      NeverBegan(log[..n - 1], lost[..m - 1], id);
      assert lost == lost[..m - 1] + [lost[m - 1]];
    }
  }

  lemma OrphansOfPair(log: seq<Marker>, lost: seq<string>, id: string)
    requires Orphans(log) == lost && id !in lost
    ensures Orphans(log + [Begin(id), End(id)]) == lost
  {
    var one, two := log + [Begin(id)], log + [Begin(id), End(id)];
    assert one[..|one| - 1] == log && two[..|two| - 1] == one;
    RemoveLast(lost, id);
  }

  lemma {:induction false} PairedOrphans(log: seq<Marker>, lost: seq<string>)
    requires Paired(log, lost) && BeginsDistinct(log)
    ensures Orphans(log) == lost
    decreases |log|
  {
    var n, m := |log|, |lost|;
    if n >= 2 && log[n - 1].End? && log[n - 2] == Begin(log[n - 1].id) && Paired(log[..n - 2], lost) {
      var id := log[n - 1].id;
      PairedOrphans(log[..n - 2], lost);
      NeverBegan(log[..n - 2], lost, id);
      OrphansOfPair(log[..n - 2], lost, id);
      assert log == log[..n - 2] + [Begin(id), End(id)];
    } else if n > 0 {
      PairedOrphans(log[..n - 1], lost[..m - 1]);
      assert Orphans(log) == Orphans(log[..n - 1]) + [log[n - 1].id];
      assert lost == lost[..m - 1] + [lost[m - 1]];
    }
  }

  /** If no two transactions drew the same identity, the scan of the log finds
      exactly those that a crash cut off, in order, and one under way. */
  lemma ScanFindsUnfinished(states: seq<State>, actions: seq<Action>, n: nat)
    requires IsRun(states, actions) && n < |states| && BeginsDistinct(states[n].log)
    ensures Orphans(states[n].log) == Unfinished(states[n])
  {
    RunInvariant(states, actions, n);
    PairedOrphans(states[n].log, Unfinished(states[n]));
  }

  // ----------------------------------------------------------------- the code

  class Lock {
    var compactionRun: Option<string>
    var log: seq<Marker>

    constructor (log: seq<Marker>)
      ensures compactionRun == None && this.log == log
    {
      compactionRun, this.log := None, log;
    }

    method TryAcquire(newId: string) returns (ok: bool)
      modifies this`compactionRun
      ensures ok == old(compactionRun).None?
      ensures compactionRun == if ok then Some(newId) else old(compactionRun)
      ensures forall s: State, i: nat | s.run == old(compactionRun) && Enabled(s, Call(i, newId)) ::
                Next(s, Call(i, newId)).run == compactionRun && Busy(s, Call(i, newId)) == !ok
    {
      if compactionRun.Some? {
        return false;
      }
      compactionRun := Some(newId);
      return true;
    }

    method ReleaseLock()
      modifies this`compactionRun
      ensures compactionRun == None
      ensures forall s: State, i: nat | Enabled(s, Release(i)) :: Next(s, Release(i)).run == compactionRun
    {
      compactionRun := None;
    }

    method RecordMarker(begin: bool)
      modifies this`log
      ensures log == old(log) + [if begin then Begin(CurrentId(compactionRun)) else End(CurrentId(compactionRun))]
      ensures forall s: State, i: nat | s.run == compactionRun && s.log == old(log) && Enabled(s, ReadId(i)) &&
                            s.callers[i] == (if begin then Acquired else Working) ::
                Enabled(Next(s, ReadId(i)), WriteMarker(i)) && Next(Next(s, ReadId(i)), WriteMarker(i)).log == log
    {
      var id := CurrentId(compactionRun);
      log := log + [if begin then Begin(id) else End(id)];
    }

    /** One call on its own: taken, bracketed by its markers and released, in the
        order the deferred calls run. */
    method Bracket(newId: string) returns (busy: bool)
      modifies this
      ensures busy == old(compactionRun).Some?
      ensures busy ==> compactionRun == old(compactionRun) && log == old(log)
      ensures !busy ==> compactionRun == None && log == old(log) + [Begin(newId), End(newId)]
    {
      var ok := TryAcquire(newId);
      if !ok {
        return true;
      }
      RecordMarker(true);
      RecordMarker(false);
      ReleaseLock();
      return false;
    }

    method OrphanCompactions() returns (ids: seq<string>)
      ensures ids == Orphans(log)
    {
      ids := [];
      for k := 0 to |log|
        invariant ids == Orphans(log[..k])
      {
        assert log[..k + 1][..k] == log[..k];
        if log[k].Begin? {
          ids := ids + [log[k].id];
        } else {
          ids := Unlisted(ids, log[k].id);
        }
      }
      assert log[..|log|] == log;
    }
  }

  lemma RemoveFirstAt(ids: seq<string>, id: string, i: nat)
    requires i <= |ids| && forall j | 0 <= j < i :: ids[j] != id
    ensures i == |ids| ==> RemoveFirst(ids, id) == ids
    ensures i < |ids| && ids[i] == id ==> RemoveFirst(ids, id) == ids[..i] + ids[i + 1..]
  {
    if i > 0 {
      RemoveFirstAt(ids[1..], id, i - 1);
    }
  }

  method Unlisted(ids: seq<string>, id: string) returns (rest: seq<string>)
    ensures rest == RemoveFirst(ids, id)
  {
    for i := 0 to |ids|
      invariant forall j | 0 <= j < i :: ids[j] != id
    {
      if ids[i] == id {
        RemoveFirstAt(ids, id, i);
        return ids[..i] + ids[i + 1..];
      }
    }
    RemoveFirstAt(ids, id, |ids|);
    return ids;
  }
}
