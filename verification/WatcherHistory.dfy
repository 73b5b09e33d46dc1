/**
 What the reports of the watcher say about the run that led to them.

 The states a run goes through are kept beside its actions, and each report and each abort is traced back
 to the steps that caused it: what the handler returned, what a worker saw when it loaded the abort flag,
 what the poller saw when it checked the stop flag or offered a task to the queue, what a shutdown read.
 */
module WatcherHistory {
  import opened Watcher

  ghost predicate StepAt(states: seq<State>, run: seq<Action>, i: nat)
    requires |states| == |run| + 1
  {
    i < |run| ==> Enabled(states[i], run[i]) && states[i + 1] == Next(states[i], run[i])
  }

  // The states that a run from a fresh start goes through.
  ghost predicate Trace(states: seq<State>, run: seq<Action>) {
    |states| == |run| + 1 && Init(states[0]) && forall i: nat :: StepAt(states, run, i)
  }

  lemma {:induction false} StatesOf(s: State, run: seq<Action>) returns (states: seq<State>)
    requires CanRun(s, run)
    ensures |states| == |run| + 1 && states[0] == s && states[|run|] == After(s, run)
    ensures forall i: nat :: StepAt(states, run, i)
    decreases |run|
  {
    if run == [] {
      states := [s];
    } else {
      var rest := StatesOf(Next(s, run[0]), run[1..]);
      states := [s] + rest;
      forall i: nat | i < |run| ensures StepAt(states, run, i) {
        assert i > 0 ==> StepAt(rest, run[1..], i - 1);
      }
    }
  }

  // Every run from a fresh start has a trace, so that what holds of traces holds of runs.
  lemma RunHasTrace(s: State, run: seq<Action>) returns (states: seq<State>)
    requires Init(s) && CanRun(s, run)
    ensures Trace(states, run) && states[0] == s && states[|run|] == After(s, run)
  {
    states := StatesOf(s, run);
  }

  /******* Steps of one goroutine *******/

  datatype Actor = ThePoller | TheWorker(w: nat) | TheShutdown(k: nat)

  predicate Takes(a: Action, who: Actor) {
    match a
    case Work(w, _) => who == TheWorker(w)
    case ShutDown(k, _, _) => who == TheShutdown(k)
    case CallShutdown => false
    case _ => who == ThePoller
  }

  // The number of its steps in run[lo..hi].
  function Steps(run: seq<Action>, who: Actor, lo: nat, hi: nat): nat
    requires hi <= |run|
    decreases hi
  {
    if hi <= lo then 0 else Steps(run, who, lo, hi - 1) + if Takes(run[hi - 1], who) then 1 else 0
  }

  lemma {:induction false} StepsSplit(run: seq<Action>, who: Actor, lo: nat, mid: nat, hi: nat)
    requires lo <= mid <= hi <= |run|
    ensures Steps(run, who, lo, hi) == Steps(run, who, lo, mid) + Steps(run, who, mid, hi)
    decreases hi
  {
    if mid < hi {
      StepsSplit(run, who, lo, mid, hi - 1);
    }
  }

  // Action j is the goroutine's step after action i and c steps between.
  predicate Later(run: seq<Action>, who: Actor, i: nat, j: nat, c: nat) {
    i < j < |run| && Takes(run[j], who) && Steps(run, who, i + 1, j) == c
  }

  lemma NextKeepsWorkers(s: State, a: Action)
    requires Enabled(s, a)
    ensures |Next(s, a).workers| == |s.workers| && Next(s, a).handlers == s.handlers
  {
  }

  // One action makes the log at most one report longer.
  lemma NextLog(s: State, a: Action)
    requires Enabled(s, a)
    ensures Next(s, a).log == s.log || (|Next(s, a).log| == |s.log| + 1 && Next(s, a).log[..|s.log|] == s.log)
  {
  }

  lemma {:induction false} SameWorkers(states: seq<State>, run: seq<Action>, n: nat)
    requires Trace(states, run) && n <= |run|
    ensures |states[n].workers| == |states[0].workers| > 0 && states[n].handlers == states[0].handlers
  {
    if n > 0 {
      SameWorkers(states, run, n - 1);
      assert StepAt(states, run, n - 1);
      NextKeepsWorkers(states[n - 1], run[n - 1]);
    }
  }

  // What the goroutine holds by itself: its program counter.
  datatype Local = PollerAt(poller: Poller) | WorkerAt(worker: Worker) | ShutdownAt(shutdown: Shutdown) | Absent

  function LocalOf(s: State, who: Actor): Local {
    match who
    case ThePoller => PollerAt(s.poller)
    case TheWorker(w) => if w < |s.workers| then WorkerAt(s.workers[w]) else Absent
    case TheShutdown(k) => if k < |s.shutdowns| then ShutdownAt(s.shutdowns[k]) else Absent
  }

  lemma NextLeavesOthers(s: State, a: Action, who: Actor)
    requires Enabled(s, a) && !Takes(a, who)
    ensures LocalOf(s, who) != Absent ==> LocalOf(Next(s, a), who) == LocalOf(s, who)
    ensures LocalOf(s, who) == Absent ==> AtStart(LocalOf(Next(s, a), who))
  {
  }

  // A goroutine that has begun moves by its own steps only.
  lemma OthersLeaveIt(states: seq<State>, run: seq<Action>, who: Actor, n: nat)
    requires Trace(states, run) && n < |run| && !Takes(run[n], who)
    ensures LocalOf(states[n], who) != Absent ==> LocalOf(states[n + 1], who) == LocalOf(states[n], who)
    ensures LocalOf(states[n], who) == Absent ==> AtStart(LocalOf(states[n + 1], who))
  {
    assert StepAt(states, run, n);
    NextLeavesOthers(states[n], run[n], who);
  }

  lemma {:induction false} Unmoved(states: seq<State>, run: seq<Action>, who: Actor, i: nat, n: nat)
    requires Trace(states, run) && i <= n <= |run| && Steps(run, who, i, n) == 0 && LocalOf(states[i], who) != Absent
    ensures LocalOf(states[n], who) == LocalOf(states[i], who)
    decreases n
  {
    if i < n {
      Unmoved(states, run, who, i, n - 1);
      OthersLeaveIt(states, run, who, n - 1);
    }
  }

  // Where the goroutine is when it begins.
  predicate AtStart(l: Local) { l == PollerAt(Waiting) || l == WorkerAt(Ready) || l == ShutdownAt(Beginning) || l == Absent }

  // A goroutine that is elsewhere got there by its last step.
  lemma {:induction false} LastStep(states: seq<State>, run: seq<Action>, who: Actor, n: nat) returns (i: nat)
    requires Trace(states, run) && n <= |run| && !AtStart(LocalOf(states[n], who))
    ensures i < n && Takes(run[i], who) && Steps(run, who, i + 1, n) == 0
    ensures LocalOf(states[i + 1], who) == LocalOf(states[n], who)
    decreases n
  {
    if Takes(run[n - 1], who) {
      i := n - 1;
    } else {
      OthersLeaveIt(states, run, who, n - 1);
      i := LastStep(states, run, who, n - 1);
    }
  }

  /******* The log *******/

  lemma {:induction false} LogGrows(states: seq<State>, run: seq<Action>, i: nat, n: nat)
    requires Trace(states, run) && i <= n <= |run|
    ensures states[i].log <= states[n].log
    decreases n
  {
    if i < n {
      LogGrows(states, run, i, n - 1);
      assert StepAt(states, run, n - 1);
      NextLog(states[n - 1], run[n - 1]);
    }
  }

  // Action j adds the report to the log.
  predicate Sends(states: seq<State>, j: nat, r: Report) {
    && j + 1 < |states| && |states[j + 1].log| == |states[j].log| + 1
    && states[j + 1].log[..|states[j].log|] == states[j].log && states[j + 1].log[|states[j].log|] == r
  }

  // A report is sent by one of the actions.
  lemma {:induction false} SentAt(states: seq<State>, run: seq<Action>, r: Report, n: nat) returns (j: nat)
    requires Trace(states, run) && n <= |run| && r in states[n].log
    ensures j < n && Sends(states, j, r)
    decreases n
  {
    if n > 0 {
      assert StepAt(states, run, n - 1);
      NextLog(states[n - 1], run[n - 1]);
      if r in states[n - 1].log {
        j := SentAt(states, run, r, n - 1);
      } else {
        j := n - 1;
      }
    }
  }

  lemma Logged(states: seq<State>, run: seq<Action>, r: Report, j: nat)
    requires Trace(states, run) && j < |run| && Sends(states, j, r)
    ensures r in states[|run|].log
  {
    LogGrows(states, run, j + 1, |run|);
    assert states[j + 1].log[|states[j].log|] == r;
  }

  /******* Workers *******/

  // Worker w loads the abort flag for a task, action i.
  predicate Loads(states: seq<State>, run: seq<Action>, w: nat, t: Task, i: nat)
    requires |states| == |run| + 1
  {
    i < |run| && Takes(run[i], TheWorker(w)) && LocalOf(states[i], TheWorker(w)) == WorkerAt(Busy(Taken, t))
  }

  lemma BusyStep(states: seq<State>, run: seq<Action>, w: nat, n: nat)
    requires Trace(states, run) && n < |run| && Takes(run[n], TheWorker(w))
    ensures
      match LocalOf(states[n], TheWorker(w))
      case WorkerAt(Busy(stage, t)) =>
        LocalOf(states[n + 1], TheWorker(w)) == WorkerAt(StageAfter(states[n].(handlers := states[0].handlers), stage, t, run[n].ok))
      case _ => true
  {
    SameWorkers(states, run, n);
    assert StepAt(states, run, n);
  }

  // What a worker does with a task follows from what it saw when it loaded the flag.
  lemma {:induction false} AfterLoad(states: seq<State>, run: seq<Action>, w: nat, t: Task, i: nat, n: nat)
    requires Trace(states, run) && i < n <= |run| && Loads(states, run, w, t, i)
    ensures
      var c, at := Steps(run, TheWorker(w), i + 1, n), LocalOf(states[n], TheWorker(w));
      var handled := !states[i].abort && t.kind in states[0].handlers;
      && (states[i].abort && c <= 1 ==> at == WorkerAt(Busy(if c == 0 then Aborting else AbortReport, t)))
      && (!states[i].abort && !handled && c <= 1 ==> at == WorkerAt(Busy(if c == 0 then Unsupported else UnsupportedReport, t)))
      && (handled && c <= 2 ==> at == WorkerAt(Busy(if c == 0 then Starting else if c == 1 then Started else Handling, t)))
    decreases n
  {
    if i < n - 1 {
      AfterLoad(states, run, w, t, i, n - 1);
    }
    if Takes(run[n - 1], TheWorker(w)) {
      BusyStep(states, run, w, n - 1);
    } else {
      OthersLeaveIt(states, run, TheWorker(w), n - 1);
    }
  }

  // One step back from a stage that has one predecessor.
  lemma StageBefore(states: seq<State>, run: seq<Action>, w: nat, stage: WorkStage, t: Task, n: nat) returns (i: nat)
    requires Trace(states, run) && n <= |run| && LocalOf(states[n], TheWorker(w)) == WorkerAt(Busy(stage, t)) && !stage.Taken?
    ensures i < n && Takes(run[i], TheWorker(w)) && Steps(run, TheWorker(w), i + 1, n) == 0
    ensures LocalOf(states[i], TheWorker(w)).WorkerAt? && LocalOf(states[i], TheWorker(w)).worker.Busy?
    ensures LocalOf(states[i], TheWorker(w)).worker.task == t
    ensures
      match LocalOf(states[i], TheWorker(w)).worker.stage
      case Taken => stage == if states[i].abort then Aborting
                             else if t.kind in states[0].handlers then Starting else Unsupported
      case Aborting => stage.AbortReport?
      case Unsupported => stage.UnsupportedReport?
      case Starting => stage.Started?
      case Started => stage.Handling?
      case Handling => run[i].Work? && stage == if run[i].ok then Done else Failed
      case Done => stage.Finishing?
      case Failed => stage.Finishing?
      case _ => false
  {
    i := LastStep(states, run, TheWorker(w), n);
    assert StepAt(states, run, i);
    SameWorkers(states, run, i);
  }

  // Steps between, from one step to the next.
  lemma StepsAdd(run: seq<Action>, who: Actor, i: nat, j: nat, n: nat)
    requires i < j < n <= |run| && Takes(run[j], who) && Steps(run, who, j + 1, n) == 0
    ensures Steps(run, who, i + 1, n) == Steps(run, who, i + 1, j) + 1
  {
    StepsSplit(run, who, i + 1, j + 1, n);
  }

  // Worker w has loaded the flag unset for a task of a kind with a handler, action i, and taken two steps.
  predicate MayHandle(states: seq<State>, run: seq<Action>, w: nat, t: Task, i: nat)
    requires |states| == |run| + 1
  {
    && Loads(states, run, w, t, i) && !states[i].abort && t.kind in states[0].handlers
    && Steps(run, TheWorker(w), i + 1, |run|) == 2
  }

  lemma HandledWasLoaded(states: seq<State>, run: seq<Action>, w: nat, t: Task) returns (i: nat)
    requires Trace(states, run) && LocalOf(states[|run|], TheWorker(w)) == WorkerAt(Busy(Handling, t))
    ensures MayHandle(states, run, w, t, i)
  {
    var k := StageBefore(states, run, w, Handling, t, |run|);
    var j := StageBefore(states, run, w, Started, t, k);
    i := StageBefore(states, run, w, Starting, t, j);
    StepsAdd(run, TheWorker(w), i, k, |run|);
    StepsAdd(run, TheWorker(w), i, j, k);
  }

  // A worker handles a task if and only if its kind has a handler and the abort flag was unset when the
  // worker loaded it, two of its steps before.
  lemma HandledExactlyWhen(states: seq<State>, run: seq<Action>, w: nat, t: Task)
    requires Trace(states, run)
    ensures LocalOf(states[|run|], TheWorker(w)) == WorkerAt(Busy(Handling, t)) <==> exists i :: MayHandle(states, run, w, t, i)
  {
    if LocalOf(states[|run|], TheWorker(w)) == WorkerAt(Busy(Handling, t)) {
      var i := HandledWasLoaded(states, run, w, t);
    }
    forall i | MayHandle(states, run, w, t, i) ensures LocalOf(states[|run|], TheWorker(w)) == WorkerAt(Busy(Handling, t)) {
      AfterLoad(states, run, w, t, i, |run|);
    }
  }

  // The handler of a task with id x returns to worker w, without an error if ok, action i.
  predicate HandlerReturns(states: seq<State>, run: seq<Action>, w: nat, x: Id, ok: bool, i: nat)
    requires |states| == |run| + 1
  {
    && i < |run| && run[i] == Work(w, ok) && w < |states[i].workers|
    && states[i].workers[w].Busy? && states[i].workers[w].stage.Handling? && states[i].workers[w].task.id == x
  }

  // Worker w loads the flag for a task with id x, action i, and will not run its handler.
  predicate GivesUpOn(states: seq<State>, run: seq<Action>, w: nat, x: Id, i: nat)
    requires |states| == |run| + 1
  {
    && i < |run| && Takes(run[i], TheWorker(w)) && w < |states[i].workers|
    && states[i].workers[w].Busy? && states[i].workers[w].stage.Taken? && states[i].workers[w].task.id == x
    && (states[i].abort || states[i].workers[w].task.kind !in states[0].handlers)
  }

  lemma ReturnIsReported(states: seq<State>, run: seq<Action>, w: nat, x: Id, ok: bool, i: nat, j: nat)
    requires Trace(states, run) && HandlerReturns(states, run, w, x, ok, i) && Later(run, TheWorker(w), i, j, 0)
    ensures Report(x, ByOwner, ok) in states[|run|].log
  {
    assert StepAt(states, run, i) && StepAt(states, run, j);
    Unmoved(states, run, TheWorker(w), i + 1, j);
    Logged(states, run, Report(x, ByOwner, ok), j);
  }

  lemma GivingUpIsReported(states: seq<State>, run: seq<Action>, w: nat, x: Id, i: nat, j: nat)
    requires Trace(states, run) && GivesUpOn(states, run, w, x, i) && Later(run, TheWorker(w), i, j, 1)
    ensures Report(x, ByOwner, false) in states[|run|].log
  {
    var t := states[i].workers[w].task;
    assert Loads(states, run, w, t, i);
    AfterLoad(states, run, w, t, i, j);
    assert StepAt(states, run, j);
    Logged(states, run, Report(x, ByOwner, false), j);
  }

  // A worker reports a task done if and only if its handler returned without an error: the report is the
  // worker's next step.
  lemma DoneExactlyWhenHandled(states: seq<State>, run: seq<Action>, x: Id)
    requires Trace(states, run)
    ensures Report(x, ByOwner, true) in states[|run|].log <==>
              exists w, i, j :: HandlerReturns(states, run, w, x, true, i) && Later(run, TheWorker(w), i, j, 0)
  {
    var r := Report(x, ByOwner, true);
    if r in states[|run|].log {
      var j := SentAt(states, run, r, |run|);
      assert StepAt(states, run, j);
      var w := run[j].w;
      var i := StageBefore(states, run, w, Done, states[j].workers[w].task, j);
      assert HandlerReturns(states, run, w, x, true, i) && Later(run, TheWorker(w), i, j, 0);
    }
    forall w, i, j | HandlerReturns(states, run, w, x, true, i) && Later(run, TheWorker(w), i, j, 0) ensures r in states[|run|].log {
      ReturnIsReported(states, run, w, x, true, i, j);
    }
  }

  /******* The poller *******/

  // The poller, with a task with id x next, sees the stop flag, action i.
  predicate SeesStop(states: seq<State>, run: seq<Action>, x: Id, i: nat)
    requires |states| == |run| + 1
  {
    && i < |run| && Takes(run[i], ThePoller) && states[i].stopPolling
    && states[i].poller.Iterating? && states[i].poller.rest != [] && states[i].poller.rest[0].id == x
  }

  // The poller offers a task with id x to the queue, which holds four tasks for each worker, action i.
  predicate FindsQueueFull(states: seq<State>, run: seq<Action>, x: Id, i: nat)
    requires |states| == |run| + 1
  {
    && i < |run| && Takes(run[i], ThePoller) && !states[i].closed && |states[i].queue| >= 4 * |states[i].workers|
    && states[i].poller.Disposing? && states[i].poller.stage.Sending? && states[i].poller.task.id == x
  }

  lemma {:induction false} AfterFull(states: seq<State>, run: seq<Action>, x: Id, i: nat, n: nat)
    requires Trace(states, run) && i < n <= |run| && FindsQueueFull(states, run, x, i) && Steps(run, ThePoller, i + 1, n) <= 1
    ensures states[n].poller.Disposing? && states[n].poller.task.id == x
    ensures states[n].poller.stage == if Steps(run, ThePoller, i + 1, n) == 0 then Dropping else Overflowed
    decreases n
  {
    assert StepAt(states, run, n - 1);
    if i < n - 1 {
      AfterFull(states, run, x, i, n - 1);
    }
  }

  lemma RefusalIsReported(states: seq<State>, run: seq<Action>, x: Id, i: nat, j: nat)
    requires Trace(states, run)
    requires (SeesStop(states, run, x, i) && Later(run, ThePoller, i, j, 0)) || (FindsQueueFull(states, run, x, i) && Later(run, ThePoller, i, j, 1))
    ensures Report(x, ByOwner, false) in states[|run|].log
  {
    assert StepAt(states, run, i) && StepAt(states, run, j);
    if SeesStop(states, run, x, i) {
      Unmoved(states, run, ThePoller, i + 1, j);
    } else {
      AfterFull(states, run, x, i, j);
    }
    Logged(states, run, Report(x, ByOwner, false), j);
  }

  function Claims(run: seq<Action>): nat { if run == [] then 0 else (if run[0].Claim? then 1 else 0) + Claims(run[1..]) }

  // Once the stop flag is stored at most one batch is claimed, by a claim that was in flight.
  lemma {:induction false} OneClaimAfterStop(s: State, run: seq<Action>)
    requires s.stopPolling && CanRun(s, run)
    ensures Claims(run) <= if s.poller.Claiming? then 1 else 0
    decreases |run|
  {
    if run != [] {
      StopStays(s, run[0]);
      OneClaimAfterStop(Next(s, run[0]), run[1..]);
    }
  }

  lemma StopStays(s: State, a: Action)
    requires Enabled(s, a) && s.stopPolling
    ensures Next(s, a).stopPolling && (a.Claim? ==> s.poller.Claiming?)
    ensures Next(s, a).poller.Claiming? ==> s.poller.Claiming? && !a.Claim?
  {
  }

  // Why the owner of a task can report it failed.
  ghost predicate FailedBecause(states: seq<State>, run: seq<Action>, x: Id)
    requires |states| == |run| + 1
  {
    || (exists w, i, j :: HandlerReturns(states, run, w, x, false, i) && Later(run, TheWorker(w), i, j, 0))
    || (exists w, i, j :: GivesUpOn(states, run, w, x, i) && Later(run, TheWorker(w), i, j, 1))
    || (exists i, j :: SeesStop(states, run, x, i) && Later(run, ThePoller, i, j, 0))
    || (exists i, j :: FindsQueueFull(states, run, x, i) && Later(run, ThePoller, i, j, 1))
  }

  lemma FailSentByWorker(states: seq<State>, run: seq<Action>, x: Id, j: nat)
    requires Trace(states, run) && j < |run| && run[j].Work? && Sends(states, j, Report(x, ByOwner, false))
    ensures FailedBecause(states, run, x)
  {
    assert StepAt(states, run, j);
    var w := run[j].w;
    var Busy(stage, t) := states[j].workers[w];
    var k := StageBefore(states, run, w, stage, t, j);
    if stage.Failed? {
      assert HandlerReturns(states, run, w, x, false, k) && Later(run, TheWorker(w), k, j, 0);
    } else {
      var i := StageBefore(states, run, w, if stage.AbortReport? then Aborting else Unsupported, t, k);
      StepsAdd(run, TheWorker(w), i, k, j);
      assert GivesUpOn(states, run, w, x, i) && Later(run, TheWorker(w), i, j, 1);
    }
  }

  lemma FailSentByPoller(states: seq<State>, run: seq<Action>, x: Id, j: nat)
    requires Trace(states, run) && j < |run| && Takes(run[j], ThePoller) && Sends(states, j, Report(x, ByOwner, false))
    ensures FailedBecause(states, run, x)
  {
    assert StepAt(states, run, j);
    var k := LastStep(states, run, ThePoller, j);
    assert StepAt(states, run, k);
    if states[j].poller.stage.Refusing? {
      assert SeesStop(states, run, x, k) && Later(run, ThePoller, k, j, 0);
    } else {
      var i := LastStep(states, run, ThePoller, k);
      assert StepAt(states, run, i);
      StepsAdd(run, ThePoller, i, k, j);
      assert FindsQueueFull(states, run, x, i) && Later(run, ThePoller, i, j, 1);
    }
  }

  // The owner of a task reports it failed if and only if its handler returned an error, or its worker saw
  // the abort flag or has no handler for its kind, or the poller saw the stop flag or found the queue full.
  lemma FailedExactlyWhen(states: seq<State>, run: seq<Action>, x: Id)
    requires Trace(states, run)
    ensures Report(x, ByOwner, false) in states[|run|].log <==> FailedBecause(states, run, x)
  {
    var r := Report(x, ByOwner, false);
    if r in states[|run|].log {
      var j := SentAt(states, run, r, |run|);
      assert StepAt(states, run, j);
      if run[j].Work? {
        FailSentByWorker(states, run, x, j);
      } else {
        FailSentByPoller(states, run, x, j);
      }
    }
    if FailedBecause(states, run, x) {
      if w, i, j :| HandlerReturns(states, run, w, x, false, i) && Later(run, TheWorker(w), i, j, 0) {
        ReturnIsReported(states, run, w, x, false, i, j);
      } else if w, i, j :| GivesUpOn(states, run, w, x, i) && Later(run, TheWorker(w), i, j, 1) {
        GivingUpIsReported(states, run, w, x, i, j);
      } else if i, j :| SeesStop(states, run, x, i) && Later(run, ThePoller, i, j, 0) {
        RefusalIsReported(states, run, x, i, j);
      } else {
        var i, j :| FindsQueueFull(states, run, x, i) && Later(run, ThePoller, i, j, 1);
        RefusalIsReported(states, run, x, i, j);
      }
    }
  }

  /******* The queue *******/

  // The task that the queue accepts from the poller at a step, if it does.
  function Accepted(s: State, a: Action, t: State): seq<Task> {
    if Takes(a, ThePoller) && s.poller.Disposing? && s.poller.stage.Sending? && t.poller.Iterating? then [s.poller.task] else []
  }

  // The task that a waiting worker gets at a step, if one does.
  function Got(s: State, a: Action, t: State): seq<Task> {
    if a.Work? && a.w < |s.workers| == |t.workers| && s.workers[a.w].Ready? && t.workers[a.w].Busy? then [t.workers[a.w].task] else []
  }

  lemma WorkerQueue(s: State, w: nat, ok: bool)
    requires WorkerEnabled(s, w)
    ensures var t := WorkerNext(s, w, ok);
            if s.workers[w].Ready? && t.workers[w].Busy? then s.queue == [t.workers[w].task] + t.queue else t.queue == s.queue
  {
  }

  lemma PollerQueue(s: State, a: Action)
    requires PollerEnabled(s, a)
    ensures var t := PollerNext(s, a);
            t.queue == if s.poller.Disposing? && s.poller.stage.Sending? && t.poller.Iterating? then s.queue + [s.poller.task]
                       else s.queue
  {
  }

  lemma QueueStep(s: State, a: Action)
    requires Enabled(s, a)
    ensures s.queue + Accepted(s, a, Next(s, a)) == Got(s, a, Next(s, a)) + Next(s, a).queue
  {
    match a
    case Work(w, ok) => WorkerQueue(s, w, ok);
    case CallShutdown =>
    case ShutDown(k, expired, order) =>
    case _ => PollerQueue(s, a);
  }

  function Sent(states: seq<State>, run: seq<Action>, n: nat): seq<Task>
    requires |states| == |run| + 1 && n <= |run|
  {
    if n == 0 then [] else Sent(states, run, n - 1) + Accepted(states[n - 1], run[n - 1], states[n])
  }

  function Received(states: seq<State>, run: seq<Action>, n: nat): seq<Task>
    requires |states| == |run| + 1 && n <= |run|
  {
    if n == 0 then [] else Received(states, run, n - 1) + Got(states[n - 1], run[n - 1], states[n])
  }

  lemma Regroup(r: seq<Task>, q: seq<Task>, acc: seq<Task>, got: seq<Task>, q': seq<Task>)
    requires q + acc == got + q'
    ensures r + got + q' == r + q + acc
  {
    assert r + got + q' == r + (got + q') == r + (q + acc);
  }

  // The queue is first in, first out: what the workers got and what is still queued, in that order, is
  // what the queue accepted.
  lemma {:induction false} QueueInOrder(states: seq<State>, run: seq<Action>, n: nat)
    requires Trace(states, run) && n <= |run|
    ensures Received(states, run, n) + states[n].queue == Sent(states, run, n)
  {
    if n > 0 {
      var s, a := states[n - 1], run[n - 1];
      QueueInOrder(states, run, n - 1);
      assert StepAt(states, run, n - 1);
      QueueStep(s, a);
      Regroup(Received(states, run, n - 1), s.queue, Accepted(s, a, states[n]), Got(s, a, states[n]), states[n].queue);
    }
  }

  /******* Shutdowns *******/

  function PcOf(s: State, k: nat): Shutdown { if k < |s.shutdowns| then s.shutdowns[k] else Beginning }

  predicate Moves(run: seq<Action>, k: nat, i: nat) { i < |run| && Takes(run[i], TheShutdown(k)) }

  lemma ShutdownStep(states: seq<State>, run: seq<Action>, k: nat, n: nat)
    requires Trace(states, run) && Moves(run, k, n)
    ensures ShutdownEnabled(states[n], k, run[n].order)
    ensures states[n + 1] == ShutdownNext(states[n], k, run[n].expired, run[n].order)
  {
    assert StepAt(states, run, n);
  }

  lemma PcUnmoved(states: seq<State>, run: seq<Action>, k: nat, i: nat, n: nat)
    requires Trace(states, run) && i <= n <= |run| && Steps(run, TheShutdown(k), i, n) == 0 && k < |states[i].shutdowns|
    ensures k < |states[n].shutdowns| && PcOf(states[n], k) == PcOf(states[i], k)
  {
    Unmoved(states, run, TheShutdown(k), i, n);
  }

  lemma PcLast(states: seq<State>, run: seq<Action>, k: nat, n: nat) returns (i: nat)
    requires Trace(states, run) && n <= |run| && !PcOf(states[n], k).Beginning?
    ensures i < n && Moves(run, k, i) && Steps(run, TheShutdown(k), i + 1, n) == 0
    ensures ShutdownEnabled(states[i], k, run[i].order)
    ensures PcOf(states[n], k) == ShutdownPc(states[i], k, run[i].expired, run[i].order)
  {
    i := LastStep(states, run, TheShutdown(k), n);
    ShutdownStep(states, run, k, i);
  }

  // A count decides by what it read at its two steps: the shutdown closes the queue if both maps were
  // empty and tries again otherwise.
  lemma CountDecides(states: seq<State>, run: seq<Action>, k: nat, j: nat) returns (i: nat)
    requires Trace(states, run) && Moves(run, k, j) && PcOf(states[j], k).CountedPending?
    ensures Later(run, TheShutdown(k), i, j, 0) && Moves(run, k, i) && PcOf(states[i], k) == Counting
    ensures if states[i].pending == {} && states[j].running == {} then PcOf(states[j + 1], k).ClosingEmpty?
            else PcOf(states[j + 1], k) == Retrying
  {
    i := PcLast(states, run, k, j);
    ShutdownStep(states, run, k, j);
    EmptySum(states[i].pending, states[j].running);
  }

  lemma EmptySum(a: set<Id>, b: set<Id>)
    ensures |a| + |b| == 0 <==> a == {} && b == {}
  {
  }

  // Shutdown k, having counted something, finds its deadline passed, action i.
  predicate FindsExpired(states: seq<State>, run: seq<Action>, k: nat, i: nat)
    requires |states| == |run| + 1
  {
    Moves(run, k, i) && run[i].expired && PcOf(states[i], k) == Retrying
  }

  lemma {:induction false} AbortStays(states: seq<State>, run: seq<Action>, i: nat, n: nat)
    requires Trace(states, run) && i <= n <= |run| && states[i].abort
    ensures states[n].abort
    decreases n
  {
    if i < n {
      AbortStays(states, run, i, n - 1);
      assert StepAt(states, run, n - 1);
    }
  }

  lemma {:induction false} AbortedBy(states: seq<State>, run: seq<Action>, n: nat) returns (k: nat, i: nat, j: nat)
    requires Trace(states, run) && n <= |run| && states[n].abort
    ensures FindsExpired(states, run, k, i) && Later(run, TheShutdown(k), i, j, 0)
    decreases n
  {
    if n > 0 {
      assert StepAt(states, run, n - 1);
      if states[n - 1].abort {
        k, i, j := AbortedBy(states, run, n - 1);
      } else {
        k, j := run[n - 1].k, n - 1;
        i := PcLast(states, run, k, j);
      }
    }
  }

  // Tasks are aborted if and only if the deadline of a shutdown passed while it was still counting work:
  // the flag is set by its next step.
  lemma AbortExactlyWhenExpired(states: seq<State>, run: seq<Action>)
    requires Trace(states, run)
    ensures states[|run|].abort <==> exists k: nat, i: nat, j: nat :: FindsExpired(states, run, k, i) && Later(run, TheShutdown(k), i, j, 0)
  {
    if states[|run|].abort {
      var k, i, j := AbortedBy(states, run, |run|);
    }
    forall k: nat, i: nat, j: nat | FindsExpired(states, run, k, i) && Later(run, TheShutdown(k), i, j, 0) ensures states[|run|].abort {
      ShutdownStep(states, run, k, i);
      PcUnmoved(states, run, k, i + 1, j);
      ShutdownStep(states, run, k, j);
      AbortStays(states, run, j + 1, |run|);
    }
  }

  // Shutdown k reads the two maps for the tasks that it will fail, actions i and j.
  predicate Snapshots(states: seq<State>, run: seq<Action>, k: nat, i: nat, j: nat)
    requires |states| == |run| + 1
  {
    Moves(run, k, i) && PcOf(states[i], k) == SnapshotPending && Later(run, TheShutdown(k), i, j, 0)
  }

  predicate PastSnapshot(pc: Shutdown) {
    pc.Failing? || pc.UntrackPending? || pc.UntrackRunning? || pc.ClosingAborted? || pc == Returned(true)
  }

  function Todo(pc: Shutdown): seq<Id> {
    if pc.Failing? || pc.UntrackPending? || pc.UntrackRunning? then pc.todo else []
  }

  predicate SentBy(log: seq<Report>, k: nat, x: Id) { Report(x, ByShutdown(k), false) in log }

  // One action, as far as shutdown k and its reports are concerned.
  lemma OwnReportStep(s: State, k: nat, expired: bool, order: seq<Id>, x: Id)
    requires ShutdownEnabled(s, k, order)
    ensures SentBy(ShutdownNext(s, k, expired, order).log, k, x) <==>
              SentBy(s.log, k, x) || (s.shutdowns[k].Failing? && s.shutdowns[k].todo != [] && s.shutdowns[k].todo[0] == x)
  {
  }

  lemma OtherReportStep(s: State, a: Action, k: nat, x: Id)
    requires Enabled(s, a) && !Takes(a, TheShutdown(k))
    ensures SentBy(Next(s, a).log, k, x) <==> SentBy(s.log, k, x)
    ensures PcOf(Next(s, a), k) == PcOf(s, k)
  {
  }

  lemma ReportStep(s: State, a: Action, k: nat, x: Id)
    requires Enabled(s, a)
    ensures
      var pc := PcOf(s, k);
      SentBy(Next(s, a).log, k, x) <==>
        SentBy(s.log, k, x) || (Takes(a, TheShutdown(k)) && pc.Failing? && pc.todo != [] && pc.todo[0] == x)
    ensures !Takes(a, TheShutdown(k)) ==> PcOf(Next(s, a), k) == PcOf(s, k)
  {
    if Takes(a, TheShutdown(k)) {
      OwnReportStep(s, k, a.expired, a.order, x);
    } else {
      OtherReportStep(s, a, k, x);
    }
  }

  lemma {:induction false} NothingSentBefore(states: seq<State>, run: seq<Action>, k: nat, n: nat, x: Id)
    requires Trace(states, run) && n <= |run| && !PastSnapshot(PcOf(states[n], k))
    ensures !SentBy(states[n].log, k, x)
    decreases n
  {
    if n > 0 {
      assert StepAt(states, run, n - 1);
      ReportStep(states[n - 1], run[n - 1], k, x);
      NothingSentBefore(states, run, k, n - 1, x);
    }
  }

  // What has been failed and what is still to be failed is what the maps held.
  lemma {:induction false} AfterSnapshot(states: seq<State>, run: seq<Action>, k: nat, i: nat, j: nat, n: nat, x: Id)
    requires Trace(states, run) && Snapshots(states, run, k, i, j) && j < n <= |run|
    ensures PastSnapshot(PcOf(states[n], k))
    ensures SentBy(states[n].log, k, x) || x in Todo(PcOf(states[n], k)) <==> x in states[i].pending + states[j].running
    decreases n
  {
    ReportStepAt(states, run, k, n - 1, x);
    if n - 1 == j {
      ShutdownStep(states, run, k, i);
      PcUnmoved(states, run, k, i + 1, j);
      ShutdownStep(states, run, k, j);
      NothingSentBefore(states, run, k, j, x);
      SameElements(run[j].order, states[i].pending + states[j].running, x);
    } else {
      AfterSnapshot(states, run, k, i, j, n - 1, x);
      if Moves(run, k, n - 1) {
        ShutdownStep(states, run, k, n - 1);
      }
    }
  }

  lemma ReportStepAt(states: seq<State>, run: seq<Action>, k: nat, n: nat, x: Id)
    requires Trace(states, run) && n < |run|
    ensures
      var pc := PcOf(states[n], k);
      SentBy(states[n + 1].log, k, x) <==>
        SentBy(states[n].log, k, x) || (Moves(run, k, n) && pc.Failing? && pc.todo != [] && pc.todo[0] == x)
    ensures !Moves(run, k, n) ==> PcOf(states[n + 1], k) == PcOf(states[n], k)
  {
    assert StepAt(states, run, n);
    ReportStep(states[n], run[n], k, x);
  }

  lemma SameElements(order: seq<Id>, ids: set<Id>, x: Id)
    requires multiset(order) == multiset(ids)
    ensures x in order <==> x in ids
  {
    assert x in order <==> x in multiset(order);
  }

  lemma {:induction false} HadSnapshot(states: seq<State>, run: seq<Action>, k: nat, n: nat) returns (i: nat, j: nat)
    requires Trace(states, run) && n <= |run| && PastSnapshot(PcOf(states[n], k))
    ensures j < n && Snapshots(states, run, k, i, j)
    decreases n
  {
    var m := PcLast(states, run, k, n);
    if PastSnapshot(PcOf(states[m], k)) {
      i, j := HadSnapshot(states, run, k, m);
    } else {
      j := m;
      i := PcLast(states, run, k, m);
    }
  }

  // A shutdown that gave up has reported failed exactly the tasks that the two maps held when it read them.
  lemma GivingUpFailsSnapshot(states: seq<State>, run: seq<Action>, k: nat) returns (i: nat, j: nat)
    requires Trace(states, run) && PcOf(states[|run|], k) == Returned(true)
    ensures Snapshots(states, run, k, i, j)
    ensures forall x :: SentBy(states[|run|].log, k, x) <==> x in states[i].pending || x in states[j].running
  {
    i, j := HadSnapshot(states, run, k, |run|);
    forall x ensures SentBy(states[|run|].log, k, x) <==> x in states[i].pending || x in states[j].running {
      AfterSnapshot(states, run, k, i, j, |run|, x);
    }
  }

  // A shutdown that did not give up has reported nothing.
  lemma GracefulFailsNothing(states: seq<State>, run: seq<Action>, k: nat, x: Id)
    requires Trace(states, run) && PcOf(states[|run|], k) == Returned(false)
    ensures !SentBy(states[|run|].log, k, x)
  {
    NothingSentBefore(states, run, k, |run|, x);
  }

  // Flags are never cleared; a shutdown stores the stop flag first and closes the queue last.
  lemma StopStep(s: State, a: Action, k: nat)
    requires Enabled(s, a)
    ensures s.stopPolling ==> Next(s, a).stopPolling
    ensures PcOf(s, k).Beginning? && !PcOf(Next(s, a), k).Beginning? ==> Next(s, a).stopPolling
  {
  }

  lemma CloseStep(s: State, a: Action, k: nat)
    requires Enabled(s, a)
    ensures s.closed ==> Next(s, a).closed
    ensures !PcOf(s, k).Returned? && PcOf(Next(s, a), k).Returned? ==> Next(s, a).closed
  {
  }

  // A shutdown that has returned has stopped the polling and closed the queue.
  lemma {:induction false} ReturnedClosed(states: seq<State>, run: seq<Action>, k: nat, n: nat)
    requires Trace(states, run) && n <= |run|
    ensures !PcOf(states[n], k).Beginning? ==> states[n].stopPolling
    ensures PcOf(states[n], k).Returned? ==> states[n].closed
    decreases n
  {
    if n > 0 {
      ReturnedClosed(states, run, k, n - 1);
      assert StepAt(states, run, n - 1);
      StopStep(states[n - 1], run[n - 1], k);
      CloseStep(states[n - 1], run[n - 1], k);
    }
  }
}
