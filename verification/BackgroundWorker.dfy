/** The stop protocol of a background worker (pkg/background_worker/background_worker.go).

    Three threads share the atomics `Running` and `Stopped`, the channel `Finished` of capacity one
    and a condition channel: the starter runs `RunInBackground`, the worker is the goroutine it
    starts, and the stopper runs `Stop` once.  Every access to shared state is a step of its own.
    A broadcast wakes a worker that holds the current condition channel and is lost otherwise; the
    timer of a waiting worker may fire at any moment. */
module BackgroundWorker {

  datatype Starter = Idle | StoredRunning | StoredStopped | Launched

  datatype Worker =
    | NotStarted
    | FirstJob | FirstCheck | FirstSend
    | LoopHead | Waiting(signalled: bool) | TimerCheck | Job | LoopCheck(signal: bool)
    | LastSend | Finished

  datatype Stopper = NotCalled | StopStored | StoreStopped | Broadcasting | Receiving | Received | Returned(served: bool)

  datatype State = State(
    running: bool, stopped: bool, tokens: nat,
    starter: Starter, worker: Worker, stopper: Stopper,
    sent: nat,          // sends on Finished made by this run
    jobs: nat,          // jobs started by this run
    late: bool)         // Stop was called after RunInBackground had returned

  datatype Action = StarterStep | WorkerStep | TimerFires | StopperStep

  /** A worker object as `New` makes it, or as a previous run left it. */
  function Initial(tokens: nat, stopped: bool): State {
    State(false, stopped, tokens, Idle, NotStarted, NotCalled, 0, 0, false)
  }

  predicate Enabled(s: State, a: Action) {
    match a
    case StarterStep => s.starter != Launched
    case WorkerStep =>
      (match s.worker
       case NotStarted => false
       case Finished => false
       case Waiting(signalled) => signalled
       case FirstSend => s.tokens < 1
       case LastSend => s.tokens < 1
       case _ => true)
    case TimerFires => s.worker.Waiting?
    case StopperStep => !s.stopper.Returned? && (s.stopper == Receiving ==> s.tokens > 0)
  }

  function Do(s: State, a: Action): State
    requires Enabled(s, a)
  {
    match a
    case StarterStep =>
      (match s.starter
       case Idle => s.(running := true, starter := StoredRunning)
       case StoredRunning => s.(stopped := false, starter := StoredStopped)
       case StoredStopped => s.(starter := Launched, worker := FirstJob, jobs := s.jobs + 1)
       case Launched => s)
    case WorkerStep => WorkerMoves(s)
    case TimerFires => s.(worker := TimerCheck)
    case StopperStep =>
      (match s.stopper
       case NotCalled =>
         var late := s.starter == Launched;
         if s.running then s.(stopper := StoreStopped, late := late) else s.(stopper := Returned(false), late := late)
       case StoreStopped => s.(stopped := true, stopper := StopStored)
       case StopStored => s.(stopper := Broadcasting)        // StopJob
       case Broadcasting =>
         s.(stopper := Receiving, worker := if s.worker.Waiting? then Waiting(true) else s.worker)
       case Receiving => s.(tokens := s.tokens - 1, stopper := Received)
       case Received => s.(running := false, stopper := Returned(true))
       case Returned(_) => s)
  }

  function WorkerMoves(s: State): State
    requires Enabled(s, WorkerStep)
  {
    match s.worker
    case FirstJob => s.(worker := FirstCheck)
    case FirstCheck => s.(worker := if s.stopped then FirstSend else LoopHead)
    case FirstSend => s.(worker := LoopHead, tokens := s.tokens + 1, sent := s.sent + 1)
    case LoopHead => s.(worker := Waiting(false))
    case Waiting(_) => s.(worker := LoopCheck(true))
    case TimerCheck =>
      if s.stopped then s.(worker := LoopCheck(false)) else s.(worker := Job, jobs := s.jobs + 1)
    case Job => s.(worker := LoopCheck(false))
    case LoopCheck(signal) => s.(worker := if s.stopped || signal then LastSend else LoopHead)
    case LastSend => s.(worker := Finished, tokens := s.tokens + 1, sent := s.sent + 1)
    case NotStarted => s
    case Finished => s
  }

  predicate CanExec(s: State, actions: seq<Action>)
    decreases |actions|
  {
    actions == [] || (Enabled(s, actions[0]) && CanExec(Do(s, actions[0]), actions[1..]))
  }

  function Exec(s: State, actions: seq<Action>): State
    requires CanExec(s, actions)
    decreases |actions|
  {
    if actions == [] then s else Exec(Do(s, actions[0]), actions[1..])
  }

  predicate Executing(s: State) {
    s.worker == FirstJob || s.worker == Job
  }

  /** `Stop` has taken a token. */
  predicate Served(s: State) {
    s.stopper == Received || s.stopper == Returned(true)
  }

  predicate Stopping(s: State) {
    s.stopper == StopStored || s.stopper == Broadcasting || s.stopper == Receiving || Served(s)
  }

  /** The stop flag is set for good. */
  predicate Heard(s: State) {
    s.stopped && s.starter == Launched && Stopping(s)
  }

  /** The worker is past its first job and starts another one only after seeing the flag unset. */
  predicate Harmless(s: State) {
    s.worker == Finished || (Heard(s) && !Executing(s) && s.worker != FirstCheck)
  }

  ghost predicate Inv(s: State) {
    && (s.worker == NotStarted <==> s.starter != Launched)
    && (s.running ==> s.starter != Idle)
    && (s.starter == StoredStopped || s.starter == Launched ==> s.stopped ==> Stopping(s))
    && (s.stopper != NotCalled && s.stopper != Returned(false) ==> s.starter != Idle)
    && (s.starter != Idle && s.stopper != Returned(false) && s.stopper != Returned(true) ==> s.running)
    && (s.late ==> s.starter == Launched && s.stopper != NotCalled && s.stopper != Returned(false))
    && (s.late && Stopping(s) ==> s.stopped)
    && s.tokens + (if Served(s) then 1 else 0) == s.sent
    && (s.sent > 0 ==> Harmless(s))
    && (s.worker == FirstSend ==> Heard(s) && s.sent == 0)
    && (s.worker == LastSend ==> s.sent <= 1)
    && (s.worker == Finished ==> 1 <= s.sent <= 2)
    && (s.sent == 2 ==> s.worker == Finished)
    && (s.worker.Waiting? && s.worker.signalled ==> Stopping(s))
    && (s.worker.LoopCheck? && s.worker.signal ==> Stopping(s))
    && (s.worker == LastSend || s.worker == Finished ==> Stopping(s))
    && s.sent <= 2
  }

  lemma StarterKeeps(s: State)
    requires Inv(s) && Enabled(s, StarterStep)
    ensures Inv(Do(s, StarterStep))
  {}

  lemma SendKeeps(s: State)
    requires Inv(s) && Enabled(s, WorkerStep) && (s.worker == FirstSend || s.worker == LastSend)
    ensures Inv(Do(s, WorkerStep))
  {}

  lemma LoopKeeps(s: State)
    requires Inv(s) && Enabled(s, WorkerStep) && (s.worker == LoopHead || s.worker.Waiting? || s.worker.LoopCheck?)
    ensures Inv(Do(s, WorkerStep))
  {}

  lemma JobKeeps(s: State)
    requires Inv(s) && Enabled(s, WorkerStep)
    requires s.worker == FirstJob || s.worker == FirstCheck || s.worker == TimerCheck || s.worker == Job
    ensures Inv(Do(s, WorkerStep))
  {}

  lemma WorkerKeeps(s: State)
    requires Inv(s) && Enabled(s, WorkerStep)
    ensures Inv(Do(s, WorkerStep))
  {
    if s.worker == FirstSend || s.worker == LastSend {
      SendKeeps(s);
    } else if s.worker == LoopHead || s.worker.Waiting? || s.worker.LoopCheck? {
      LoopKeeps(s);
    } else {
      JobKeeps(s);
    }
  }

  lemma StopperKeeps(s: State)
    requires Inv(s) && Enabled(s, StopperStep)
    ensures Inv(Do(s, StopperStep))
  {
    match s.stopper
    case NotCalled =>
    case StoreStopped =>
    case Receiving =>
    case _ =>
  }

  lemma StepKeeps(s: State, a: Action)
    requires Inv(s) && Enabled(s, a)
    ensures Inv(Do(s, a))
  {
    match a
    case StarterStep => StarterKeeps(s);
    case WorkerStep => WorkerKeeps(s);
    case TimerFires =>
    case StopperStep => StopperKeeps(s);
  }

  /** What never changes back. */
  lemma StepIsMonotone(s: State, a: Action)
    requires Inv(s) && Enabled(s, a)
    ensures s.sent > 0 ==> Do(s, a).jobs == s.jobs && Do(s, a).sent > 0
    ensures Heard(s) ==> Heard(Do(s, a))
    ensures Served(s) ==> Served(Do(s, a))
  {}

  lemma {:induction false} ExecKeeps(s: State, actions: seq<Action>)
    requires Inv(s) && CanExec(s, actions)
    ensures Inv(Exec(s, actions))
    ensures s.sent > 0 ==> Exec(s, actions).jobs == s.jobs
    decreases |actions|
  {
    if actions != [] {
      StepKeeps(s, actions[0]);
      StepIsMonotone(s, actions[0]);
      ExecKeeps(Do(s, actions[0]), actions[1..]);
    }
  }

  /** Safety of one run that finds the channel empty: once `Stop` has returned with a token, no job
      is executing, and whatever happens next no job is started. */
  lemma NoJobAfterStop(stopped: bool, before: seq<Action>, after: seq<Action>)
    requires CanExec(Initial(0, stopped), before)
    requires CanExec(Exec(Initial(0, stopped), before), after)
    ensures var s := Exec(Initial(0, stopped), before); var t := Exec(s, after);
            Served(s) ==> !Executing(s) && !Executing(t) && t.jobs == s.jobs
  {
    var s := Exec(Initial(0, stopped), before);
    ExecKeeps(Initial(0, stopped), before);
    if Served(s) { ServedStays(s, after); }
  }

  lemma {:induction false} ServedStays(s: State, actions: seq<Action>)
    requires Inv(s) && Served(s) && CanExec(s, actions)
    ensures var t := Exec(s, actions); Served(t) && !Executing(t) && t.jobs == s.jobs
    decreases |actions|
  {
    if actions != [] {
      StepKeeps(s, actions[0]);
      StepIsMonotone(s, actions[0]);
      ServedStays(Do(s, actions[0]), actions[1..]);
    }
  }

  // ---------------------------------------------------------------- the periodic job

  /** The goroutine starts with a job, and a timer that finds the flag unset starts one. */
  predicate StartsJob(s: State, a: Action) {
    (a == StarterStep && s.starter == StoredStopped) || (a == WorkerStep && s.worker == TimerCheck && !s.stopped)
  }

  function JobStarts(s: State, actions: seq<Action>): nat
    requires CanExec(s, actions)
    decreases |actions|
  {
    if actions == [] then 0
    else (if StartsJob(s, actions[0]) then 1 else 0) + JobStarts(Do(s, actions[0]), actions[1..])
  }

  /** Over every run the jobs are exactly those started by the launch and by timers that found the flag
      unset; what starts a job leads to its execution, and nothing else does. */
  lemma {:induction false} JobsExactly(s: State, actions: seq<Action>)
    requires CanExec(s, actions)
    ensures Exec(s, actions).jobs == s.jobs + JobStarts(s, actions)
    ensures actions != [] ==>
      var t := Do(s, actions[0]);
      if StartsJob(s, actions[0]) then t.worker == if actions[0] == StarterStep then FirstJob else Job
      else Executing(t) ==> t.worker == s.worker
    decreases |actions|
  {
    if actions != [] { JobsExactly(Do(s, actions[0]), actions[1..]); }
  }

  function Timers(actions: seq<Action>): nat {
    if actions == [] then 0 else (if actions[0] == TimerFires then 1 else 0) + Timers(actions[1..])
  }

  /** Nobody has called `Stop`: the flag is unset since the launch, and the worker is in its cycle. */
  predicate Undisturbed(s: State) {
    && s.stopper == NotCalled
    && (s.starter != Launched ==> s.worker == NotStarted)
    && (s.starter == Launched ==>
          !s.stopped && s.worker in {FirstJob, FirstCheck, LoopHead, Waiting(false), TimerCheck, Job, LoopCheck(false)})
    && (s.starter == StoredStopped ==> !s.stopped)
  }

  /** The jobs that the timers so far still owe. */
  function Due(s: State): int {
    s.jobs + if s.worker == NotStarted || s.worker == TimerCheck then 1 else 0
  }

  lemma {:induction false} UndisturbedRuns(s: State, actions: seq<Action>)
    requires Undisturbed(s) && CanExec(s, actions) && StopperStep !in actions
    ensures Undisturbed(Exec(s, actions)) && Exec(s, actions).tokens == s.tokens
    ensures Due(Exec(s, actions)) == Due(s) + Timers(actions)
    decreases |actions|
  {
    if actions != [] {
      assert actions[0] in actions && forall a | a in actions[1..] :: a in actions;
      UndisturbedRuns(Do(s, actions[0]), actions[1..]);
    }
  }

  /** The worker does its work: in every run in which `Stop` is not called, the jobs are the first one and
      one for each timer that fired, the last of which may still be about to start; the worker neither
      ends nor sends anything. */
  lemma PeriodicJobs(tokens: nat, stopped: bool, actions: seq<Action>)
    requires CanExec(Initial(tokens, stopped), actions) && StopperStep !in actions
    ensures var s := Exec(Initial(tokens, stopped), actions);
      && (s.starter != Launched ==> s.jobs == 0)
      && (s.starter == Launched ==> s.jobs == 1 + Timers(actions) - if s.worker == TimerCheck then 1 else 0)
      && s.worker != LastSend && s.worker != Finished && s.tokens == tokens && !Stuck(s)
  {
    var s := Exec(Initial(tokens, stopped), actions);
    UndisturbedRuns(Initial(tokens, stopped), actions);
    NotStartedHasNoJobs(Initial(tokens, stopped), actions);
    assert Enabled(s, StarterStep) || Enabled(s, TimerFires) || Enabled(s, WorkerStep);
  }

  predicate Stuck(s: State) {
    !Enabled(s, StarterStep) && !Enabled(s, WorkerStep) && !Enabled(s, TimerFires)
  }

  lemma {:induction false} NotStartedHasNoJobs(s: State, actions: seq<Action>)
    requires Undisturbed(s) && CanExec(s, actions) && StopperStep !in actions
    requires s.starter != Launched ==> s.jobs == 0
    ensures Exec(s, actions).starter != Launched ==> Exec(s, actions).jobs == 0 && Timers(actions) == 0
    decreases |actions|
  {
    if actions != [] {
      assert actions[0] in actions && forall a | a in actions[1..] :: a in actions;
      LaunchIsFinal(Do(s, actions[0]), actions[1..]);
      if s.starter != Launched { NotStartedHasNoJobs(Do(s, actions[0]), actions[1..]); }
    }
  }

  lemma {:induction false} LaunchIsFinal(s: State, actions: seq<Action>)
    requires CanExec(s, actions)
    ensures s.starter == Launched ==> Exec(s, actions).starter == Launched
    decreases |actions|
  {
    if actions != [] { LaunchIsFinal(Do(s, actions[0]), actions[1..]); }
  }

  /** The broadcast saves `Stop` the time until the next timer: a worker that waits when it comes serves
      `Stop` in a run without a timer. */
  lemma BroadcastIsPrompt(s: State) returns (actions: seq<Action>)
    requires Inv(s) && s.stopper == Broadcasting && s.worker.Waiting?
    ensures TimerFires !in actions && CanExec(s, actions) && Served(Exec(s, actions))
  {
    var s1 := Do(s, StopperStep);
    if s1.tokens > 0 {
      actions := [StopperStep, StopperStep];
      Unroll(s1, actions[1..]);
      Unroll(s, actions);
    } else {
      actions := [StopperStep, WorkerStep, WorkerStep, WorkerStep, StopperStep];
      var s2 := Do(s1, WorkerStep);
      var s3 := Do(s2, WorkerStep);
      var s4 := Do(s3, WorkerStep);
      Unroll(s4, actions[4..]);
      Unroll(s3, actions[3..]);
      Unroll(s2, actions[2..]);
      Unroll(s1, actions[1..]);
      Unroll(s, actions);
    }
  }

  // ---------------------------------------------------------------- termination

  function WorkerLeft(w: Worker): nat {
    match w
    case NotStarted => 12
    case FirstJob => 11
    case FirstCheck => 10
    case FirstSend => 9
    case LoopHead => 8
    case Waiting(_) => 7
    case TimerCheck => 6
    case Job => 6
    case LoopCheck(_) => 5
    case LastSend => 4
    case Finished => 0
  }

  function StopperLeft(p: Stopper): nat {
    match p
    case NotCalled => 6
    case StoreStopped => 5
    case StopStored => 4
    case Broadcasting => 3
    case Receiving => 2
    case Received => 1
    case Returned(_) => 0
  }

  /** How many steps can follow once the flag is set for good. */
  function Left(s: State): nat {
    WorkerLeft(s.worker) + StopperLeft(s.stopper)
  }

  lemma HeardProgresses(s: State, a: Action)
    requires Inv(s) && Heard(s) && Enabled(s, a)
    ensures Left(Do(s, a)) < Left(s)
  {}

  lemma HeardNeverStuck(s: State)
    requires Inv(s) && Heard(s)
    ensures (forall a :: !Enabled(s, a)) ==> s.worker == Finished && s.stopper == Returned(true)
  {
    if s.worker.Waiting? { assert Enabled(s, TimerFires); }
    if s.stopper != Receiving && s.stopper != Returned(true) { assert Enabled(s, StopperStep); }
    if s.stopper == Receiving && s.tokens > 0 { assert Enabled(s, StopperStep); }
    if !s.worker.Waiting? && s.worker != Finished && !(s.tokens > 0) { assert Enabled(s, WorkerStep); }
  }

  /** Liveness: from a state in which the flag is set for good every run is short, and a run that
      cannot go on has ended with both the worker finished and `Stop` returned, whether or not the
      worker saw the broadcast. */
  lemma {:induction false} StopTerminates(s: State, actions: seq<Action>)
    requires Inv(s) && Heard(s) && CanExec(s, actions)
    ensures |actions| <= Left(s)
    ensures var t := Exec(s, actions);
            (forall a :: !Enabled(t, a)) ==> t.worker == Finished && t.stopper == Returned(true)
    decreases |actions|
  {
    if actions == [] {
      HeardNeverStuck(s);
    } else {
      StepKeeps(s, actions[0]);
      StepIsMonotone(s, actions[0]);
      HeardProgresses(s, actions[0]);
      StopTerminates(Do(s, actions[0]), actions[1..]);
    }
  }

  /** While `Stop` waits for a launched worker, a token is there or the worker has yet to send one. */
  lemma WaitingIsFed(stopped: bool, actions: seq<Action>)
    requires CanExec(Initial(0, stopped), actions)
    ensures var s := Exec(Initial(0, stopped), actions);
            s.stopper == Receiving ==> s.tokens > 0 || s.worker != Finished
  {
    ExecKeeps(Initial(0, stopped), actions);
  }

  /** The channel never holds more than its one token, in whatever state the run finds it. */
  lemma {:induction false} ChannelHoldsOne(s: State, actions: seq<Action>)
    requires s.tokens <= 1 && CanExec(s, actions)
    ensures Exec(s, actions).tokens <= 1
    decreases |actions|
  {
    if actions != [] { ChannelHoldsOne(Do(s, actions[0]), actions[1..]); }
  }

  // ---------------------------------------------------------------- when Stop is heard

  /** A `Stop` that finds no run returns at once and changes nothing; one that finds a run goes on to set
      the flag. */
  lemma CalledStop(s: State)
    requires s.stopper == NotCalled
    ensures var t := Do(s, StopperStep);
      && t.stopper == (if s.running then StoreStopped else Returned(false))
      && (t.late <==> s.starter == Launched)
      && (t.running, t.stopped, t.tokens, t.starter, t.worker, t.sent, t.jobs)
         == (s.running, s.stopped, s.tokens, s.starter, s.worker, s.sent, s.jobs)
  {}

  /** Called after `RunInBackground` has returned, `Stop` is not turned away, and as soon as it has stored
      the flag, the flag is set for good. */
  lemma LateStopIsHeard(stopped: bool, actions: seq<Action>)
    requires CanExec(Initial(0, stopped), actions)
    ensures var s := Exec(Initial(0, stopped), actions); s.late ==> s.stopper == StoreStopped || Heard(s)
  {
    ExecKeeps(Initial(0, stopped), actions);
  }

  /** `Stop` called between the two stores of `RunInBackground` can lose its flag and its broadcast:
      it then waits while the worker goes on running jobs. */
  lemma EarlyStopCanBeLost() returns (actions: seq<Action>)
    ensures CanExec(Initial(0, false), actions)
    ensures var s := Exec(Initial(0, false), actions);
            s.stopper == Receiving && s.starter == Launched && !s.stopped && s.tokens == 0 && !Decided(s)
  {
    actions := [StarterStep, StopperStep, StopperStep, StopperStep, StopperStep, StarterStep, StarterStep];
    var s0 := Initial(0, false);
    var s1 := Do(s0, actions[0]);
    var s2 := Do(s1, actions[1]);
    var s3 := Do(s2, actions[2]);
    var s4 := Do(s3, actions[3]);
    var s5 := Do(s4, actions[4]);
    var s6 := Do(s5, actions[5]);
    var s7 := Do(s6, actions[6]);
    Unroll(s6, actions[6..]);
    Unroll(s5, actions[5..]);
    Unroll(s4, actions[4..]);
    Unroll(s3, actions[3..]);
    Unroll(s2, actions[2..]);
    Unroll(s1, actions[1..]);
    Unroll(s0, actions);
  }

  lemma Unroll(s: State, actions: seq<Action>)
    requires actions != [] && Enabled(s, actions[0]) && CanExec(Do(s, actions[0]), actions[1..])
    ensures CanExec(s, actions) && Exec(s, actions) == Exec(Do(s, actions[0]), actions[1..])
  {}

  /** `Stop` is certain to be served. */
  predicate Decided(s: State) {
    s.stopped || s.tokens > 0 || s.worker == LastSend || s.worker == LoopCheck(true)
  }

  /** A `Stop` that waits for a launched worker. */
  predicate AwaitsWorker(s: State) {
    s.starter == Launched && s.stopper == Receiving
  }

  /** `Stop` has been served or is certain to be. */
  predicate Ending(s: State) {
    s.starter == Launched && (Served(s) || (s.stopper == Receiving && Decided(s)))
  }

  lemma EndingProgresses(s: State, a: Action)
    requires Inv(s) && Ending(s) && Enabled(s, a)
    ensures Ending(Do(s, a)) && Left(Do(s, a)) < Left(s)
  {}

  lemma EndingNeverStuck(s: State)
    requires Inv(s) && Ending(s)
    ensures (forall a :: !Enabled(s, a)) ==> s.stopper == Returned(true)
  {
    if s.worker.Waiting? { assert Enabled(s, TimerFires); }
    if s.stopper == Received || (s.stopper == Receiving && s.tokens > 0) { assert Enabled(s, StopperStep); }
    if s.stopper == Receiving && s.tokens == 0 && !s.worker.Waiting? { assert Enabled(s, WorkerStep); }
  }

  lemma {:induction false} EndingIsShort(s: State, actions: seq<Action>)
    requires Inv(s) && Ending(s) && CanExec(s, actions)
    ensures |actions| <= Left(s)
    ensures (forall a :: !Enabled(Exec(s, actions), a)) ==> Exec(s, actions).stopper == Returned(true)
    decreases |actions|
  {
    if actions == [] {
      EndingNeverStuck(s);
    } else {
      StepKeeps(s, actions[0]);
      EndingProgresses(s, actions[0]);
      EndingIsShort(Do(s, actions[0]), actions[1..]);
    }
  }

  lemma UndecidedStep(s: State) returns (a: Action)
    requires Inv(s) && AwaitsWorker(s) && !Decided(s)
    ensures Enabled(s, a) && AwaitsWorker(Do(s, a)) && !Decided(Do(s, a))
  {
    a := if s.worker.Waiting? then TimerFires else WorkerStep;
  }

  /** From an undecided state the worker can go on as long as one likes. */
  lemma {:induction false} UndecidedGoesOn(s: State, n: nat) returns (actions: seq<Action>)
    requires Inv(s) && AwaitsWorker(s) && !Decided(s)
    ensures |actions| == n && CanExec(s, actions)
    ensures AwaitsWorker(Exec(s, actions)) && !Decided(Exec(s, actions))
    decreases n
  {
    actions := [];
    if n > 0 {
      var a := UndecidedStep(s);
      StepKeeps(s, a);
      var rest := UndecidedGoesOn(Do(s, a), n - 1);
      actions := [a] + rest;
      assert actions[1..] == rest;
      Unroll(s, actions);
    }
  }

  /** When a waiting `Stop` is served: exactly from the decided states every run is short, and each of
      these runs that cannot go on has ended with `Stop` served. */
  lemma ServedExactly(s: State)
    requires Inv(s) && AwaitsWorker(s)
    ensures Decided(s) <==> forall actions | CanExec(s, actions) :: |actions| <= Left(s)
    ensures Decided(s) ==> forall actions | CanExec(s, actions) ::
              (forall a :: !Enabled(Exec(s, actions), a)) ==> Exec(s, actions).stopper == Returned(true)
  {
    if Decided(s) {
      forall actions | CanExec(s, actions)
        ensures |actions| <= Left(s)
        ensures (forall a :: !Enabled(Exec(s, actions), a)) ==> Exec(s, actions).stopper == Returned(true) {
        EndingIsShort(s, actions);
      }
    } else {
      var actions := UndecidedGoesOn(s, Left(s) + 1);
    }
  }

  // ---------------------------------------------------------------- the leftover token

  /** When both threads have ended, the tokens left in the channel are those of the sends that `Stop`
      did not take: one if the worker stopped after its first job, which makes it send twice. */
  lemma LeftoverToken(stopped: bool, actions: seq<Action>)
    requires CanExec(Initial(0, stopped), actions)
    ensures var s := Exec(Initial(0, stopped), actions);
            s.worker == Finished && Served(s) ==> s.tokens == s.sent - 1 <= 1
  {
    ExecKeeps(Initial(0, stopped), actions);
  }

  /** The worker object as a finished run leaves it to the next one. */
  function NextRun(s: State): State {
    Initial(s.tokens, s.stopped)
  }

  lemma {:induction false} ExecConcat(s: State, a: seq<Action>, b: seq<Action>)
    requires CanExec(s, a) && CanExec(Exec(s, a), b)
    ensures CanExec(s, a + b) && Exec(s, a + b) == Exec(Exec(s, a), b)
    decreases |a|
  {
    if a == [] {
      assert a + b == b;
    } else {
      assert (a + b)[1..] == a[1..] + b;
      ExecConcat(Do(s, a[0]), a[1..], b);
    }
  }

  lemma StopDuringFirstJob(stopped: bool, tokens: nat) returns (actions: seq<Action>)
    ensures CanExec(Initial(tokens, stopped), actions)
    ensures Exec(Initial(tokens, stopped), actions) == State(true, true, tokens, Launched, FirstJob, Receiving, 0, 1, true)
  {
    actions := [StarterStep, StarterStep, StarterStep, StopperStep, StopperStep, StopperStep, StopperStep];
    var s0 := Initial(tokens, stopped);
    var s1 := Do(s0, actions[0]);
    var s2 := Do(s1, actions[1]);
    var s3 := Do(s2, actions[2]);
    var s4 := Do(s3, actions[3]);
    var s5 := Do(s4, actions[4]);
    var s6 := Do(s5, actions[5]);
    Unroll(s6, actions[6..]);
    Unroll(s5, actions[5..]);
    Unroll(s4, actions[4..]);
    Unroll(s3, actions[3..]);
    Unroll(s2, actions[2..]);
    Unroll(s1, actions[1..]);
    Unroll(s0, actions);
  }

  lemma FirstSendIsTaken(s: State) returns (actions: seq<Action>, t: State)
    requires s == State(true, true, 0, Launched, FirstJob, Receiving, 0, 1, true)
    ensures t == State(false, true, 0, Launched, LoopHead, Returned(true), 1, 1, true)
    ensures CanExec(s, actions) && Exec(s, actions) == t
  {
    actions := [WorkerStep, WorkerStep, WorkerStep, StopperStep, StopperStep];
    var s1 := Do(s, actions[0]);
    var s2 := Do(s1, actions[1]);
    var s3 := Do(s2, actions[2]);
    var s4 := Do(s3, actions[3]);
    t := Do(s4, actions[4]);
    Unroll(s4, actions[4..]);
    Unroll(s3, actions[3..]);
    Unroll(s2, actions[2..]);
    Unroll(s1, actions[1..]);
    Unroll(s, actions);
  }

  lemma SecondSendStays(s: State) returns (actions: seq<Action>, t: State)
    requires s == State(false, true, 0, Launched, LoopHead, Returned(true), 1, 1, true)
    ensures t == State(false, true, 1, Launched, Finished, Returned(true), 2, 1, true)
    ensures CanExec(s, actions) && Exec(s, actions) == t
  {
    actions := [WorkerStep, TimerFires, WorkerStep, WorkerStep, WorkerStep];
    var s1 := Do(s, actions[0]);
    var s2 := Do(s1, actions[1]);
    var s3 := Do(s2, actions[2]);
    var s4 := Do(s3, actions[3]);
    t := Do(s4, actions[4]);
    Unroll(s4, actions[4..]);
    Unroll(s3, actions[3..]);
    Unroll(s2, actions[2..]);
    Unroll(s1, actions[1..]);
    Unroll(s, actions);
  }

  /** A first run, stopped during its first job, that ends in good order and leaves a token. */
  lemma FirstRunLeavesToken() returns (actions: seq<Action>)
    ensures CanExec(Initial(0, false), actions)
    ensures var s := Exec(Initial(0, false), actions);
            s.worker == Finished && s.stopper == Returned(true) && !s.running && NextRun(s) == Initial(1, true)
  {
    var s0 := Initial(0, false);
    var a := StopDuringFirstJob(false, 0);
    var b, t := FirstSendIsTaken(Exec(s0, a));
    var c, u := SecondSendStays(t);
    ExecConcat(s0, a, b);
    ExecConcat(s0, a + b, c);
    actions := a + b + c;
  }

  /** In every run from this state: once `Stop` is served no job executes or starts. */
  ghost predicate Safe(s: State) {
    forall before, after {:trigger CanExec(Exec(s, before), after)} | CanExec(s, before) && CanExec(Exec(s, before), after) ::
      Served(Exec(s, before)) ==>
        !Executing(Exec(s, before)) && !Executing(Exec(Exec(s, before), after))
        && Exec(Exec(s, before), after).jobs == Exec(s, before).jobs
  }

  /** A run is safe exactly when it finds the channel empty. */
  lemma SafeExactly(tokens: nat, stopped: bool)
    ensures Safe(Initial(tokens, stopped)) <==> tokens == 0
  {
    var s := Initial(tokens, stopped);
    if tokens == 0 {
      forall before, after | CanExec(s, before) && CanExec(Exec(s, before), after)
        ensures Served(Exec(s, before)) ==>
          !Executing(Exec(s, before)) && !Executing(Exec(Exec(s, before), after))
          && Exec(Exec(s, before), after).jobs == Exec(s, before).jobs {
        NoJobAfterStop(stopped, before, after);
      }
    } else {
      var a := StopDuringFirstJob(stopped, tokens);
      var t := Exec(s, a);
      assert Enabled(t, StopperStep) && CanExec(Do(t, StopperStep), []);
      Unroll(t, [StopperStep]);
      ExecConcat(s, a, [StopperStep]);
      assert CanExec(Exec(s, a + [StopperStep]), []);
      assert Served(Exec(s, a + [StopperStep])) && Executing(Exec(s, a + [StopperStep]));
    }
  }

  /** After such a first run the next one can have its `Stop` served while a job executes. */
  lemma SecondRunIsUnsafe() returns (actions: seq<Action>)
    ensures CanExec(Initial(0, false), actions)
    ensures !Safe(NextRun(Exec(Initial(0, false), actions)))
  {
    actions := FirstRunLeavesToken();
    SafeExactly(1, true);
  }
}
