/** Asynchronous ingestion: callers put steps into a bounded channel, one worker
    hands them on in batches, and stopping drains what was accepted.  Every
    interleaving of the callers, the worker, the ticker and `Stop` is a run of
    the transition system below; the class gives the code of each part. */
module IngestPipeline {
  import opened Wrappers
  import opened Records

  const CHANNEL_SIZE: nat := 100
  const ERROR_SIZE: nat := 10

  // --------------------------------------------------------- states and steps

  datatype Worker =
    | NotStarted
    | Waiting(batch: seq<StepRecord>)
      // between two steps of the flush loop; the rest of the batch is to go
    | Flushing(rest: seq<StepRecord>, exiting: bool)
    | Exited

  /** How far the one call of `Stop` has come. */
  datatype Stopping = NotCalled | Marked | ChannelClosed | WorkerAwaited | Returned

  /** `accepted` and `handed` are histories: what went into the channel, and the
      steps `Ingest` was called with. */
  datatype State = State(batchSize: nat, running: bool, channel: seq<StepRecord>, closed: bool, worker: Worker,
                         stopping: Stopping, cancelled: bool, errors: seq<string>, accepted: seq<StepRecord>,
                         handed: seq<StepRecord>)

  datatype Action =
    | Start
      // a full channel drops the step
    | Submit(step: StepRecord)
      // takes effect when there is room; giving up has no effect
    | SubmitSync(step: StepRecord)
    | Receive
    | Tick
      // one round of the flush loop, with what `Ingest` answers
    | IngestNext(error: Option<string>)
    | FlushDone
    | CancelSeen
    | ReadError
    | StopMark
    | StopClose
    | StopAwait
    | StopCancel

  function Initial(batchSize: nat): State {
    State(if batchSize > 0 then batchSize else 10, false, [], false, NotStarted, NotCalled, false, [], [], [])
  }

  /** Nothing is sent on a closed channel (that would panic), `Start` is called
      once, and everything else is enabled whenever the code could do it. */
  predicate Enabled(s: State, a: Action) {
    match a
    case Start => s.worker.NotStarted?
    case Submit(_) => !s.closed
    case SubmitSync(_) => !s.closed && |s.channel| < CHANNEL_SIZE
    case Receive => s.worker.Waiting? && (s.channel != [] || s.closed)
    case Tick => s.worker.Waiting?
    case IngestNext(_) => s.worker.Flushing? && s.worker.rest != []
    case FlushDone => s.worker.Flushing? && s.worker.rest == []
    case CancelSeen => s.worker.Waiting? && s.cancelled
    case ReadError => s.errors != []
    case StopMark => s.running
    case StopClose => s.stopping == Marked
    case StopAwait => s.stopping == ChannelClosed && s.worker.Exited?
    case StopCancel => s.stopping == WorkerAwaited
  }

  function Accept(s: State, step: StepRecord): State {
    s.(channel := s.channel + [step], accepted := s.accepted + [step])
  }

  function Received(s: State): State
    requires s.worker.Waiting?
  {
    if s.channel == [] then s.(worker := Flushing(s.worker.batch, true))
    else
      var batch := s.worker.batch + [s.channel[0]];
      s.(channel := s.channel[1..],
         worker := if |batch| >= s.batchSize then Flushing(batch, false) else Waiting(batch))
  }

  function Reported(errors: seq<string>, error: Option<string>): seq<string> {
    if error.Some? && |errors| < ERROR_SIZE then errors + [error.value] else errors
  }

  function Next(s: State, a: Action): State
    requires Enabled(s, a)
  {
    match a
    case Start => s.(running := true, worker := Waiting([]))
    case Submit(step) => if |s.channel| < CHANNEL_SIZE then Accept(s, step) else s
    case SubmitSync(step) => Accept(s, step)
    case Receive => Received(s)
    case Tick => if s.worker.batch == [] then s else s.(worker := Flushing(s.worker.batch, false))
    case IngestNext(error) =>
      s.(handed := s.handed + [s.worker.rest[0]], errors := Reported(s.errors, error),
         worker := Flushing(s.worker.rest[1..], s.worker.exiting))
    case FlushDone => s.(worker := if s.worker.exiting then Exited else Waiting([]))
    case CancelSeen => s.(worker := Flushing(s.worker.batch, true))
    case ReadError => s.(errors := s.errors[1..])
    case StopMark => s.(running := false, stopping := Marked)
    case StopClose => s.(closed := true, stopping := ChannelClosed)
    case StopAwait => s.(stopping := WorkerAwaited)
    case StopCancel => s.(cancelled := true, stopping := Returned)
  }

  /** A run, as its actions and the states before, between and after them. */
  ghost predicate IsRun(states: seq<State>, actions: seq<Action>) {
    && |states| == |actions| + 1
    && (exists batchSize :: states[0] == Initial(batchSize))
    && forall i | 0 <= i < |actions| :: Enabled(states[i], actions[i]) && states[i + 1] == Next(states[i], actions[i])
  }

  // ------------------------------------------------------------ the invariant

  /** What the worker has received and not yet handed over. */
  function InHand(worker: Worker): seq<StepRecord> {
    match worker
    case Waiting(batch) => batch
    case Flushing(rest, _) => rest
    case _ => []
  }

  predicate Conserved(s: State) {
    s.accepted == s.handed + InHand(s.worker) + s.channel
  }

  predicate Bounded(s: State) {
    && s.batchSize > 0
    && |s.channel| <= CHANNEL_SIZE
    && |s.errors| <= ERROR_SIZE
    && |InHand(s.worker)| <= s.batchSize
    && (s.worker.Waiting? ==> |s.worker.batch| < s.batchSize)
  }

  /** The order of the parts of stopping, and of the worker's exit among them. */
  predicate Ordered(s: State) {
    && (s.closed <==> s.stopping in {ChannelClosed, WorkerAwaited, Returned})
    && (s.cancelled <==> s.stopping == Returned)
    && (s.worker.Exited? || (s.worker.Flushing? && s.worker.exiting) ==> s.closed && s.channel == [])
    && (s.stopping in {WorkerAwaited, Returned} ==> s.worker.Exited?)
    && (s.running ==> s.stopping == NotCalled)
    && (s.worker.NotStarted? ==> s.stopping == NotCalled && !s.running)
  }

  /** The head of one list moves to the end of the other. */
  lemma HeadMoves(a: seq<StepRecord>, b: seq<StepRecord>)
    requires b != []
    ensures a + b == (a + [b[0]]) + b[1..]
  {
  }

  lemma StepConserved(s: State, a: Action)
    requires Enabled(s, a) && Conserved(s)
    ensures Conserved(Next(s, a))
  {
    match a
    case Receive =>
      if s.channel != [] {
        HeadMoves(s.handed + s.worker.batch, s.channel);
        assert s.handed + (s.worker.batch + [s.channel[0]]) == (s.handed + s.worker.batch) + [s.channel[0]];
      }
    case IngestNext(_) =>
      HeadMoves(s.handed, s.worker.rest);
    case _ =>
  }

  lemma StepOrdered(s: State, a: Action)
    requires Enabled(s, a) && Bounded(s) && Ordered(s)
    ensures Bounded(Next(s, a)) && Ordered(Next(s, a))
  {
  }

  lemma {:induction false} RunInvariant(states: seq<State>, actions: seq<Action>, n: nat)
    requires IsRun(states, actions) && n < |states|
    ensures Conserved(states[n]) && Bounded(states[n]) && Ordered(states[n])
  {
    if n > 0 {
      RunInvariant(states, actions, n - 1);
      assert Enabled(states[n - 1], actions[n - 1]) && states[n - 1 + 1] == Next(states[n - 1], actions[n - 1]);
      StepConserved(states[n - 1], actions[n - 1]);
      StepOrdered(states[n - 1], actions[n - 1]);
    }
  }

  // ------------------------------------------------------------- main results

  /** At every point of every run, what was accepted is what was handed over, then
      what the worker holds, then what is in the channel. */
  lemma NothingLostOrReordered(states: seq<State>, actions: seq<Action>, n: nat)
    requires IsRun(states, actions) && n < |states|
    ensures states[n].accepted == states[n].handed + InHand(states[n].worker) + states[n].channel
  {
    RunInvariant(states, actions, n);
  }

  /** When `Stop` returns, every accepted step has been handed over, once and in
      the order of acceptance. */
  lemma StopDeliversAll(states: seq<State>, actions: seq<Action>, n: nat)
    requires IsRun(states, actions) && n < |states|
    requires states[n].stopping == Returned
    ensures states[n].handed == states[n].accepted && states[n].channel == []
  {
    RunInvariant(states, actions, n);
  }

  // --------------------------------------------------- told from the calls alone

  /** What the first `n` actions of a run put into the pipeline: each step of a call
      that waits, and of one that does not each that finds fewer than 100 in the
      channel. */
  function Taken(states: seq<State>, actions: seq<Action>, n: nat): seq<StepRecord>
    requires n <= |actions| < |states|
  {
    if n == 0 then []
    else
      match actions[n - 1]
      case Submit(step) => Taken(states, actions, n - 1) + if |states[n - 1].channel| < 100 then [step] else []
      case SubmitSync(step) => Taken(states, actions, n - 1) + [step]
      case _ => Taken(states, actions, n - 1)
  }

  lemma {:induction false} AcceptedAreTaken(states: seq<State>, actions: seq<Action>, n: nat)
    requires IsRun(states, actions) && n < |states|
    ensures states[n].accepted == Taken(states, actions, n)
  {
    if n > 0 {
      AcceptedAreTaken(states, actions, n - 1);
      assert Enabled(states[n - 1], actions[n - 1]) && states[n - 1 + 1] == Next(states[n - 1], actions[n - 1]);
    }
  }

  /** At every point of every run these are, in the order of the calls, what was handed
      over, what the worker holds, and what is in the channel; and when `Stop` returns
      exactly these have been handed over. */
  lemma CallsAreDelivered(states: seq<State>, actions: seq<Action>, n: nat)
    requires IsRun(states, actions) && n < |states|
    ensures Taken(states, actions, n) == states[n].handed + InHand(states[n].worker) + states[n].channel
    ensures states[n].stopping == Returned ==> states[n].handed == Taken(states, actions, n)
  {
    AcceptedAreTaken(states, actions, n);
    RunInvariant(states, actions, n);
  }

  /** An error that `Ingest` returns while fewer than 10 wait to be read, and one that is
      read. */
  function FailedNow(s: State, a: Action): seq<string> {
    if a.IngestNext? && a.error.Some? && |s.errors| < 10 then [a.error.value] else []
  }

  function ReadNow(s: State, a: Action): seq<string> {
    if a == ReadError && s.errors != [] then [s.errors[0]] else []
  }

  /** Those of the first `n` actions of a run. */
  function Failures(states: seq<State>, actions: seq<Action>, n: nat): seq<string>
    requires n <= |actions| < |states|
  {
    if n == 0 then [] else Failures(states, actions, n - 1) + FailedNow(states[n - 1], actions[n - 1])
  }

  function ErrorsRead(states: seq<State>, actions: seq<Action>, n: nat): seq<string>
    requires n <= |actions| < |states|
  {
    if n == 0 then [] else ErrorsRead(states, actions, n - 1) + ReadNow(states[n - 1], actions[n - 1])
  }

  lemma ErrorsNext(s: State, a: Action, failed: seq<string>, read: seq<string>)
    requires Enabled(s, a) && failed == read + s.errors
    ensures failed + FailedNow(s, a) == read + ReadNow(s, a) + Next(s, a).errors
  {
  }

  /** They are read once each, in order, or wait. */
  lemma {:induction false} FailuresAreReported(states: seq<State>, actions: seq<Action>, n: nat)
    requires IsRun(states, actions) && n < |states|
    ensures Failures(states, actions, n) == ErrorsRead(states, actions, n) + states[n].errors
  {
    if n > 0 {
      var m := n - 1;
      FailuresAreReported(states, actions, m);
      assert Enabled(states[m], actions[m]) && states[m + 1] == Next(states[m], actions[m]);
      ErrorsNext(states[m], actions[m], Failures(states, actions, m), ErrorsRead(states, actions, m));
    }
  }

  /** The worker begins a flush on a receive exactly if the batch is full with it or
      the channel is closed and empty, and on a tick exactly if it holds anything. */
  lemma FlushBeginsIff(s: State, a: Action)
    requires Enabled(s, a) && (a.Receive? || a.Tick?)
    ensures var batch := InHand(s.worker);
            Next(s, a).worker.Flushing? <==>
            if a.Tick? then batch != [] else s.channel == [] || |batch| + 1 >= s.batchSize
    ensures InHand(Next(s, a).worker) == InHand(s.worker) + if a.Receive? && s.channel != [] then [s.channel[0]] else []
  {
  }

  /** The worker never takes the branch for a cancelled context. */
  lemma CancelNeverSeen(states: seq<State>, actions: seq<Action>, n: nat)
    requires IsRun(states, actions) && n < |states|
    ensures !Enabled(states[n], CancelSeen)
    ensures n < |actions| ==> actions[n] != CancelSeen
  {
    RunInvariant(states, actions, n);
    assert n < |actions| ==> Enabled(states[n], actions[n]);
  }

  // -------------------------------------------- refinement of synchronous calls

  /** The simple system: a step is taken on, and the oldest one not yet ingested
      is ingested. */
  datatype Synchronous = Synchronous(due: seq<StepRecord>, ingested: seq<StepRecord>)

  predicate SynchronousStep(before: Synchronous, after: Synchronous) {
    || after == before
    || (after.ingested == before.ingested && |after.due| == |before.due| + 1 && before.due <= after.due)
    || (before.due != [] && after == Synchronous(before.due[1..], before.ingested + [before.due[0]]))
  }

  function Abstracted(s: State): Synchronous {
    Synchronous(InHand(s.worker) + s.channel, s.handed)
  }

  /** Every step of a run is a step of the simple system, or none at all there:
      batches, ticks and the channel cannot be seen from outside. */
  lemma RefinesSynchronous(states: seq<State>, actions: seq<Action>, n: nat)
    requires IsRun(states, actions) && n < |actions|
    ensures SynchronousStep(Abstracted(states[n]), Abstracted(states[n + 1]))
    ensures Abstracted(states[0]) == Synchronous([], [])
  {
    RunInvariant(states, actions, n);
    RunInvariant(states, actions, n + 1);
    var s, a := states[n], actions[n];
    assert Enabled(s, a) && states[n + 1] == Next(s, a);
    StepRefines(s, a);
  }

  lemma AcceptRefines(s: State, step: StepRecord)
    ensures SynchronousStep(Abstracted(s), Abstracted(Accept(s, step)))
  {
    assert Abstracted(Accept(s, step)).due == Abstracted(s).due + [step];
  }

  lemma ReceiveRefines(s: State)
    requires Enabled(s, Receive)
    ensures Abstracted(Received(s)) == Abstracted(s)
  {
    assert s.channel != [] ==> s.channel == [s.channel[0]] + s.channel[1..];
  }

  lemma IngestRefines(s: State, error: Option<string>)
    requires Enabled(s, IngestNext(error))
    ensures SynchronousStep(Abstracted(s), Abstracted(Next(s, IngestNext(error))))
  {
    var rest := s.worker.rest;
    assert (rest + s.channel)[0] == rest[0] && (rest + s.channel)[1..] == rest[1..] + s.channel;
  }

  lemma StepRefines(s: State, a: Action)
    requires Enabled(s, a) && Ordered(s)
    ensures SynchronousStep(Abstracted(s), Abstracted(Next(s, a)))
  {
    match a
    case Submit(step) => AcceptRefines(s, step);
    case SubmitSync(step) => AcceptRefines(s, step);
    case Receive => ReceiveRefines(s);
    case IngestNext(error) => IngestRefines(s, error);
    case _ =>
  }

  // ----------------------------------------------------------------- draining

  predicate WorkerAction(a: Action) {
    a.Receive? || a.Tick? || a.IngestNext? || a.FlushDone? || a.CancelSeen?
  }

  /** A step the worker takes, other than a tick with nothing to flush. */
  predicate Effective(s: State, a: Action) {
    WorkerAction(a) && !(a.Tick? && s.worker.Waiting? && s.worker.batch == [])
  }

  function Work(s: State): nat {
    4 * |s.channel| +
    match s.worker
    case NotStarted => 3
    case Waiting(batch) => 3 * |batch| + 3
    case Flushing(rest, exiting) => |rest| + if exiting then 1 else 4
    case Exited => 0
  }

  lemma WorkFalls(s: State, a: Action)
    requires Enabled(s, a) && Ordered(s) && s.closed
    ensures Work(Next(s, a)) <= Work(s)
    ensures Effective(s, a) ==> Work(Next(s, a)) < Work(s)
  {
  }

  function EffectiveCount(states: seq<State>, actions: seq<Action>, from: nat): nat
    requires |states| == |actions| + 1 && from <= |actions|
    decreases |actions| - from
  {
    if from == |actions| then 0
    else (if Effective(states[from], actions[from]) then 1 else 0) + EffectiveCount(states, actions, from + 1)
  }

  /** Draining is finite: after the channel is closed the worker takes at most
      `Work` effective steps in the rest of any run, */
  lemma {:induction false} DrainBound(states: seq<State>, actions: seq<Action>, from: nat)
    requires IsRun(states, actions) && from <= |actions| && states[from].closed
    ensures EffectiveCount(states, actions, from) + Work(states[|actions|]) <= Work(states[from])
    decreases |actions| - from
  {
    if from < |actions| {
      RunInvariant(states, actions, from);
      assert Enabled(states[from], actions[from]) && states[from + 1] == Next(states[from], actions[from]);
      WorkFalls(states[from], actions[from]);
      DrainBound(states, actions, from + 1);
    }
  }

  /** and until it has exited one is possible: a receive, the next round of the
      flush, or its end. */
  lemma DrainProgress(states: seq<State>, actions: seq<Action>, n: nat)
    requires IsRun(states, actions) && n < |states| && states[n].closed && !states[n].worker.Exited?
    ensures var s := states[n];
            || (Enabled(s, Receive) && Effective(s, Receive))
            || (forall error :: Enabled(s, IngestNext(error)) && Effective(s, IngestNext(error)))
            || (Enabled(s, FlushDone) && Effective(s, FlushDone))
  {
    RunInvariant(states, actions, n);
  }

  /** Nothing outruns the bounds: a drain is at most so much work. */
  lemma DrainWorkBound(states: seq<State>, actions: seq<Action>, n: nat)
    requires IsRun(states, actions) && n < |states|
    ensures Work(states[n]) <= 4 * CHANNEL_SIZE + 3 * states[n].batchSize + 4
  {
    RunInvariant(states, actions, n);
  }

  // ----------------------------------------------------------------- the code

  /** What `Ingest` answers to a list of steps, in turn. */
  function AllReported(errors: seq<string>, answers: seq<Option<string>>): seq<string> {
    if answers == [] then errors
    else Reported(AllReported(errors, answers[..|answers| - 1]), answers[|answers| - 1])
  }

  function Flushed(s: State, answers: seq<Option<string>>): State
    requires s.worker.Flushing? && |answers| <= |s.worker.rest|
  {
    s.(handed := s.handed + s.worker.rest[..|answers|], errors := AllReported(s.errors, answers),
       worker := Flushing(s.worker.rest[|answers|..], s.worker.exiting))
  }

  /** The rounds of a flush, uninterrupted, add up to handing over the batch. */
  lemma {:induction false} FlushRounds(s: State, answers: seq<Option<string>>, error: Option<string>)
    requires s.worker.Flushing? && |answers| < |s.worker.rest|
    ensures Enabled(Flushed(s, answers), IngestNext(error))
    ensures Next(Flushed(s, answers), IngestNext(error)) == Flushed(s, answers + [error])
  {
    var rest, n := s.worker.rest, |answers|;
    assert rest[n..][0] == rest[n] && rest[n..][1..] == rest[n + 1..] && rest[..n + 1] == rest[..n] + [rest[n]];
    assert (answers + [error])[..n] == answers;
  }

  class Pipeline {
    const batchSize: nat
    var running: bool
    var channel: seq<StepRecord>
    var closed: bool
    var errors: seq<string>
    var cancelled: bool
    var batch: seq<StepRecord>
    var handed: seq<StepRecord>
    ghost var worker: Worker
    ghost var stopping: Stopping
    ghost var accepted: seq<StepRecord>

    constructor (batchSize: nat)
      ensures Value() == Initial(batchSize) && batch == []
      ensures this.batchSize == (if batchSize > 0 then batchSize else 10) && channel == [] && !running && !closed
    {
      this.batchSize := if batchSize > 0 then batchSize else 10;
      running, channel, closed, errors, cancelled, batch, handed := false, [], false, [], false, [], [];
      worker, stopping, accepted := NotStarted, NotCalled, [];
    }

    ghost function Value(): State
      reads this
    {
      State(batchSize, running, channel, closed, worker, stopping, cancelled, errors, accepted, handed)
    }

    /** The worker begins with an empty batch, as the one made by the constructor.  A
        start after a stop is taken too; the worker that it adds, which finds the
        channel closed, is not part of this model. */
    method StartWorker()
      modifies this`running, this`worker
      ensures old(running) ==> Value() == old(Value())
      ensures !old(running) && old(worker).NotStarted? ==> Value() == Next(old(Value()), Start)
      ensures !old(running) && !old(worker).NotStarted? ==> Value() == old(Value()).(running := true)
    {
      if running {
        return;
      }
      running := true;
      worker := if worker.NotStarted? then Waiting([]) else worker;
    }

    method SubmitStep(step: StepRecord)
      requires !closed
      modifies this`channel, this`accepted
      ensures Value() == Next(old(Value()), Submit(step))
      ensures channel == if |old(channel)| < CHANNEL_SIZE then old(channel) + [step] else old(channel)
    {
      if |channel| < CHANNEL_SIZE {
        channel := channel + [step];
        accepted := accepted + [step];
      }
    }

    /** `cancelled` tells that the caller's context was chosen by the select. */
    method SubmitStepSync(step: StepRecord, gaveUp: bool) returns (ok: bool)
      requires !closed && (!gaveUp ==> |channel| < CHANNEL_SIZE)
      modifies this`channel, this`accepted
      ensures ok == !gaveUp
      ensures Value() == if ok then Next(old(Value()), SubmitSync(step)) else old(Value())
      ensures channel == if ok then old(channel) + [step] else old(channel)
    {
      if gaveUp {
        return false;
      }
      channel := channel + [step];
      accepted := accepted + [step];
      return true;
    }

    /** The flush of the worker; `answers` is what `Ingest` returns to each call. */
    method Flush(answers: seq<Option<string>>)
      requires worker.Flushing? && worker.rest == batch && |answers| == |batch|
      modifies this`handed, this`errors, this`worker, this`batch
      ensures Enabled(Flushed(old(Value()), answers), FlushDone)
      ensures Value() == Next(Flushed(old(Value()), answers), FlushDone)
      ensures batch == []
      ensures handed == old(handed) + old(batch)
    {
      ghost var begun := Value();
      assert handed + batch[..0] == handed;
      for i := 0 to |batch|
        invariant batch == old(batch)
        invariant Value() == Flushed(begun, answers[..i])
      {
        FlushRounds(begun, answers[..i], answers[i]);
        assert answers[..i + 1] == answers[..i] + [answers[i]];
        IngestOne(batch[i], answers[i]);
      }
      assert answers[..|batch|] == answers && batch[..|batch|] == batch;
      batch := [];
      worker := if worker.exiting then Exited else Waiting([]);
    }

    /** One round of the flush; a full error channel drops the error. */
    method IngestOne(step: StepRecord, answer: Option<string>)
      requires worker.Flushing? && worker.rest != [] && worker.rest[0] == step
      modifies this`handed, this`errors, this`worker
      ensures Value() == Next(old(Value()), IngestNext(answer))
      ensures handed == old(handed) + [step]
      ensures errors == old(errors) + if answer.Some? && |old(errors)| < ERROR_SIZE then [answer.value] else []
    {
      handed := handed + [step];
      if answer.Some? && |errors| < ERROR_SIZE {
        errors := errors + [answer.value];
      }
      worker := Flushing(worker.rest[1..], worker.exiting);
    }

    /** The select's receive, up to the flush it may call for. */
    method ReceiveStep() returns (flush: bool)
      requires worker == Waiting(batch) && Enabled(Value(), Receive)
      modifies this`channel, this`batch, this`worker
      ensures Value() == Next(old(Value()), Receive)
      ensures if flush then worker.Flushing? && worker.rest == batch else worker == Waiting(batch)
      ensures batch + channel == old(batch) + old(channel)
      ensures flush <==> old(channel) == [] || |batch| >= batchSize
    {
      if |channel| == 0 {
        worker := Flushing(batch, true);
        return true;
      }
      batch := batch + [channel[0]];
      channel := channel[1..];
      flush := |batch| >= batchSize;
      worker := if flush then Flushing(batch, false) else Waiting(batch);
    }

    /** `Stop` up to the wait for the worker, and after it. */
    method StopBegin() returns (stopping: bool)
      requires running ==> this.stopping == NotCalled
      modifies this`running, this`closed, this`stopping
      ensures stopping == old(running)
      ensures Value() == if !stopping then old(Value()) else Next(Next(old(Value()), StopMark), StopClose)
      ensures stopping ==> closed && !running
    {
      if !running {
        return false;
      }
      running := false;
      this.stopping := Marked;
      closed := true;
      this.stopping := ChannelClosed;
      return true;
    }

    method StopEnd()
      requires Enabled(Value(), StopAwait)
      modifies this`cancelled, this`stopping
      ensures Value() == Next(Next(old(Value()), StopAwait), StopCancel)
      ensures cancelled
    {
      stopping := WorkerAwaited;
      cancelled := true;
      stopping := Returned;
    }
  }
}
