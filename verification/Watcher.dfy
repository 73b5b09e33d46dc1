/**
 The watcher task runtime of cmd/rterm-core/main.go as a state machine.

 One poller claims tasks and offers them to a bounded queue, N workers drain the queue, and any
 number of shutdown calls decide "nothing in flight" from two maps that are locked separately.
 Every lock section, channel operation, atomic load or store and report request is one atomic step;
 steps of different goroutines interleave freely.  A run is a list of actions.
 */
module Watcher {

  // Task ids and task types are only ever compared.
  type Id = nat
  type Kind = nat
  datatype Task = Task(id: Id, kind: Kind)

  // What pollOnce is about to do with the task in its hand.
  datatype PollStage =
    | Refusing     // saw the stop flag set, about to fail the task
    | Tracking     // past the stop check, about to lock pending
    | Sending      // tracked, about to offer the task to the queue
    | Dropping     // queue was full, about to untrack
    | Overflowed   // untracked, about to fail the task

  // Program counter of runWatcherRuntime / pollOnce.
  datatype Poller =
    | Waiting                                               // in the select of the poll loop
    | Claiming                                              // saw the stop flag unset, claim in flight
    | Iterating(rest: seq<Task>)                            // at the top of the loop over claimed tasks
    | Disposing(stage: PollStage, task: Task, rest: seq<Task>)
    | Stopped

  // What executeTask is about to do with its task.
  datatype WorkStage =
    | Taken               // load the abort flag
    | Aborting            // untrack pending
    | AbortReport
    | Unsupported         // no handler: untrack pending
    | UnsupportedReport
    | Starting            // track running
    | Started             // untrack pending
    | Handling            // run the handler
    | Done                // report done
    | Failed              // report failed
    | Finishing           // reported: untrack running

  // Program counter of workerLoop / executeTask.
  datatype Worker = Ready | Busy(stage: WorkStage, task: Task) | Exited

  // Program counter of one gracefulShutdown call.
  datatype Shutdown =
    | Beginning                             // about to store the stop flag
    | Counting                              // about to lock pending
    | CountedPending(n: nat, quiet: bool)   // about to lock running
    | Retrying                              // count was not zero
    | ClosingEmpty(quiet: bool)             // count was zero
    | TimedOut                              // about to store the abort flag
    | Cancelling
    | SnapshotPending
    | SnapshotRunning(ids: set<Id>)
    | Failing(todo: seq<Id>)
    | UntrackPending(id: Id, todo: seq<Id>)
    | UntrackRunning(id: Id, todo: seq<Id>)
    | ClosingAborted
    | Returned(gaveUp: bool)

  datatype Reporter = ByOwner | ByShutdown(k: nat)
  datatype Report = Report(id: Id, sender: Reporter, done: bool)

  datatype State = State(
    handlers: set<Kind>,
    workers: seq<Worker>,
    queue: seq<Task>,
    closed: bool,
    panicked: bool,
    pending: set<Id>,
    running: set<Id>,
    stopSignal: bool,
    stopPolling: bool,
    abort: bool,
    poller: Poller,
    shutdowns: seq<Shutdown>,
    claimed: seq<Task>,
    log: seq<Report>)

  datatype Action =
    | Tick                        // the ticker fires, or the poller takes its next step
    | StopSeen                    // the poll loop sees the closed stop channel
    | Claim(batch: seq<Task>)
    | ClaimFails
    | Work(w: nat, ok: bool)      // ok is what the handler returns, when it returns
    | CallShutdown
    | ShutDown(k: nat, expired: bool, order: seq<Id>)

  ghost predicate Init(s: State) {
    && |s.workers| > 0
    && (forall i :: 0 <= i < |s.workers| ==> s.workers[i] == Ready)
    && s.queue == [] && !s.closed && !s.panicked
    && s.pending == {} && s.running == {}
    && !s.stopSignal && !s.stopPolling && !s.abort
    && s.poller == Waiting && s.shutdowns == [] && s.claimed == [] && s.log == []
  }

  function Capacity(s: State): nat { 4 * |s.workers| }

  // How many tasks of the list carry the id: in all of it, and from position i on.
  function Count(tasks: seq<Task>, x: Id): nat { CountFrom(tasks, 0, x) }

  function CountFrom(tasks: seq<Task>, i: nat, x: Id): nat
    decreases |tasks| - i
  {
    if i >= |tasks| then 0 else (if tasks[i].id == x then 1 else 0) + CountFrom(tasks, i + 1, x)
  }

  ghost predicate Distinct(tasks: seq<Task>) { forall x: Id :: Count(tasks, x) <= 1 }

  // The poller has loaded the stop flag unset and has not yet disposed of the task in its hand.
  predicate PastCheck(p: Poller) { p.Disposing? && (p.stage.Tracking? || p.stage.Sending?) }

  /******* Steps *******/

  ghost predicate PollerEnabled(s: State, a: Action) {
    match a
    case Tick => !s.poller.Claiming? && !s.poller.Stopped?
    case StopSeen => s.poller.Waiting? && s.stopSignal
    case Claim(batch) => s.poller.Claiming? && Distinct(s.claimed + batch)   // claimed ids are fresh
    case ClaimFails => s.poller.Claiming?
    case _ => false
  }

  function PollerPc(s: State, a: Action): Poller {
    match s.poller
    case Waiting => if a.StopSeen? || s.stopPolling then Stopped else Claiming
    case Claiming => if a.Claim? then Iterating(a.batch) else Waiting
    case Iterating(rest) =>
      if rest == [] then Waiting
      else Disposing(if s.stopPolling then Refusing else Tracking, rest[0], rest[1..])
    case Disposing(stage, task, rest) =>
      if stage.Tracking? then Disposing(Sending, task, rest)
      else if stage.Dropping? then Disposing(Overflowed, task, rest)
      else if stage.Sending? && s.closed then s.poller
      else if stage.Sending? && |s.queue| >= Capacity(s) then Disposing(Dropping, task, rest)
      else Iterating(rest)
    case Stopped => Stopped
  }

  function PollerNext(s: State, a: Action): State {
    var disposing := s.poller.Disposing?;
    s.(poller := PollerPc(s, a),
       stopPolling := s.stopPolling || a.StopSeen?,
       claimed := if a.Claim? then s.claimed + a.batch else s.claimed,
       pending := if disposing && s.poller.stage.Tracking? then s.pending + {s.poller.task.id}
                  else if disposing && s.poller.stage.Dropping? then s.pending - {s.poller.task.id}
                  else s.pending,
       queue := if disposing && s.poller.stage.Sending? && !s.closed && |s.queue| < Capacity(s)
                then s.queue + [s.poller.task] else s.queue,
       // a send on a closed channel
       panicked := s.panicked || (disposing && s.poller.stage.Sending? && s.closed),
       log := if disposing && (s.poller.stage.Refusing? || s.poller.stage.Overflowed?)
              then s.log + [Report(s.poller.task.id, ByOwner, false)] else s.log)
  }

  predicate WorkerEnabled(s: State, w: nat) {
    && w < |s.workers|
    && !s.workers[w].Exited?
    && (s.workers[w].Ready? ==> s.queue != [] || s.closed)
  }

  function StageAfter(s: State, stage: WorkStage, task: Task, ok: bool): Worker {
    match stage
    case Taken =>
      Busy(if s.abort then Aborting else if task.kind in s.handlers then Starting else Unsupported, task)
    case Aborting => Busy(AbortReport, task)
    case AbortReport => Ready
    case Unsupported => Busy(UnsupportedReport, task)
    case UnsupportedReport => Ready
    case Starting => Busy(Started, task)
    case Started => Busy(Handling, task)
    case Handling => Busy(if ok then Done else Failed, task)
    case Done => Busy(Finishing, task)
    case Failed => Busy(Finishing, task)
    case Finishing => Ready
  }

  function WorkerNext(s: State, w: nat, ok: bool): State
    requires WorkerEnabled(s, w)
  {
    match s.workers[w]
    case Ready =>
      if s.queue == [] then s.(workers := s.workers[w := Exited])
      else s.(queue := s.queue[1..], workers := s.workers[w := Busy(Taken, s.queue[0])])
    case Exited => s
    case Busy(stage, task) =>
      s.(workers := s.workers[w := StageAfter(s, stage, task, ok)],
         pending := if stage.Aborting? || stage.Unsupported? || stage.Started?
                    then s.pending - {task.id} else s.pending,
         running := if stage.Starting? then s.running + {task.id}
                    else if stage.Finishing? then s.running - {task.id} else s.running,
         log := if stage.AbortReport? || stage.UnsupportedReport? || stage.Done? || stage.Failed?
                then s.log + [Report(task.id, ByOwner, stage.Done?)] else s.log)
  }

  ghost predicate ShutdownEnabled(s: State, k: nat, order: seq<Id>) {
    && k < |s.shutdowns|
    && !s.shutdowns[k].Returned?
    // The snapshot is a Go map: its ids come out once each, in any order.
    && (s.shutdowns[k].SnapshotRunning? ==>
          multiset(order) == multiset(s.shutdowns[k].ids + s.running))
  }

  ghost function ShutdownPc(s: State, k: nat, expired: bool, order: seq<Id>): Shutdown
    requires ShutdownEnabled(s, k, order)
  {
    match s.shutdowns[k]
    case Beginning => Counting
    case Counting => CountedPending(|s.pending|, !PastCheck(s.poller))
    case CountedPending(n, quiet) => if n + |s.running| == 0 then ClosingEmpty(quiet) else Retrying
    case Retrying => if expired then TimedOut else Counting
    case ClosingEmpty(_) => Returned(false)
    case TimedOut => Cancelling
    case Cancelling => SnapshotPending
    case SnapshotPending => SnapshotRunning(s.pending)
    case SnapshotRunning(_) => Failing(order)
    case Failing(todo) => if todo == [] then ClosingAborted else UntrackPending(todo[0], todo[1..])
    case UntrackPending(id, todo) => UntrackRunning(id, todo)
    case UntrackRunning(id, todo) => Failing(todo)
    case ClosingAborted => Returned(true)
    case Returned(_) => s.shutdowns[k]
  }

  ghost function ShutdownNext(s: State, k: nat, expired: bool, order: seq<Id>): State
    requires ShutdownEnabled(s, k, order)
  {
    var pc := s.shutdowns[k];
    s.(shutdowns := s.shutdowns[k := ShutdownPc(s, k, expired, order)],
       stopPolling := s.stopPolling || pc.Beginning?,
       abort := s.abort || pc.TimedOut?,
       closed := s.closed || pc.ClosingEmpty? || pc.ClosingAborted?,
       pending := if pc.UntrackPending? then s.pending - {pc.id} else s.pending,
       running := if pc.UntrackRunning? then s.running - {pc.id} else s.running,
       log := if pc.Failing? && pc.todo != []
              then s.log + [Report(pc.todo[0], ByShutdown(k), false)] else s.log)
  }

  ghost predicate Enabled(s: State, a: Action) {
    && !s.panicked
    && match a
       case Work(w, _) => WorkerEnabled(s, w)
       case CallShutdown => true
       case ShutDown(k, _, order) => ShutdownEnabled(s, k, order)
       case _ => PollerEnabled(s, a)
  }

  ghost function Next(s: State, a: Action): State
    requires Enabled(s, a)
  {
    match a
    case Work(w, ok) => WorkerNext(s, w, ok)
    case CallShutdown => s.(stopSignal := true, shutdowns := s.shutdowns + [Beginning])
    case ShutDown(k, expired, order) => ShutdownNext(s, k, expired, order)
    case _ => PollerNext(s, a)
  }

  // The actions can be taken one after the other from s.
  ghost predicate CanRun(s: State, run: seq<Action>)
    decreases |run|
  {
    run == [] || (Enabled(s, run[0]) && CanRun(Next(s, run[0]), run[1..]))
  }

  ghost function After(s: State, run: seq<Action>): State
    requires CanRun(s, run)
    decreases |run|
  {
    if run == [] then s else After(Next(s, run[0]), run[1..])
  }

  ghost predicate Reachable(s: State) {
    exists s0, run :: Init(s0) && CanRun(s0, run) && After(s0, run) == s
  }

  /******* Where the claimed tasks are *******/

  // Occurrences of x in what the poller holds and has not reported.
  function InHand(p: Poller, x: Id): nat {
    match p
    case Waiting | Claiming | Stopped => 0
    case Iterating(rest) => Count(rest, x)
    case Disposing(_, task, rest) => (if task.id == x then 1 else 0) + Count(rest, x)
  }

  // Classes of tasks a worker can hold.
  datatype Part =
    | Quiet       // not reported, not in running
    | Active      // not reported, in running
    | Closing     // reported, still in running
    | InPending   // in pending
    | InFlight    // in pending or running

  predicate StageIn(stage: WorkStage, part: Part) {
    match part
    case Quiet => !(stage.Started? || stage.Handling? || stage.Done? || stage.Failed? || stage.Finishing?)
    case Active => stage.Started? || stage.Handling? || stage.Done? || stage.Failed?
    case Closing => stage.Finishing?
    case InPending => stage.Taken? || stage.Unsupported? || stage.Starting? || stage.Started?
    case InFlight => !(stage.Aborting? || stage.AbortReport? || stage.UnsupportedReport?)
  }

  function Holds(w: Worker, part: Part, x: Id): nat {
    if w.Busy? && StageIn(w.stage, part) && w.task.id == x then 1 else 0
  }

  // Occurrences of x among the tasks of that class held by the workers (by the first n workers).
  function Held(ws: seq<Worker>, part: Part, x: Id): nat { HeldBy(ws, |ws|, part, x) }

  function HeldBy(ws: seq<Worker>, n: nat, part: Part, x: Id): nat
    requires n <= |ws|
  {
    if n == 0 then 0 else HeldBy(ws, n - 1, part, x) + Holds(ws[n - 1], part, x)
  }

  lemma {:induction false} HeldUpdate(ws: seq<Worker>, n: nat, i: nat, w: Worker, part: Part, x: Id)
    requires n <= |ws| && i < |ws|
    ensures HeldBy(ws[i := w], n, part, x)
            == HeldBy(ws, n, part, x) + if i < n then Holds(w, part, x) - Holds(ws[i], part, x) else 0
  {
    if n > 0 {
      HeldUpdate(ws, n - 1, i, w, part, x);
    }
  }

  lemma {:induction false} HeldIncludes(ws: seq<Worker>, n: nat, i: nat, part: Part, x: Id)
    requires i < n <= |ws|
    ensures Holds(ws[i], part, x) <= HeldBy(ws, n, part, x)
  {
    if i < n - 1 {
      HeldIncludes(ws, n - 1, i, part, x);
    }
  }

  lemma {:induction false} HeldBounds(ws: seq<Worker>, n: nat, x: Id)
    requires n <= |ws|
    ensures HeldBy(ws, n, InPending, x) <= HeldBy(ws, n, Quiet, x) + HeldBy(ws, n, Active, x)
    ensures HeldBy(ws, n, InPending, x) <= HeldBy(ws, n, InFlight, x)
    ensures HeldBy(ws, n, Active, x) + HeldBy(ws, n, Closing, x) <= HeldBy(ws, n, InFlight, x)
  {
    if n > 0 {
      HeldBounds(ws, n - 1, x);
    }
  }

  lemma {:induction false} HeldNothing(ws: seq<Worker>, n: nat, part: Part, x: Id)
    requires n <= |ws| && forall i :: 0 <= i < n ==> Holds(ws[i], part, x) == 0
    ensures HeldBy(ws, n, part, x) == 0
  {
    if n > 0 {
      HeldNothing(ws, n - 1, part, x);
    }
  }

  // Reports about x sent by the goroutine that owned the task.
  function Owned(log: seq<Report>, x: Id): nat { OwnedIn(log, |log|, x) }

  function OwnedIn(log: seq<Report>, n: nat, x: Id): nat
    requires n <= |log|
  {
    if n == 0 then 0
    else OwnedIn(log, n - 1, x) + if log[n - 1].sender.ByOwner? && log[n - 1].id == x then 1 else 0
  }

  lemma {:induction false} OwnedPrefix(log: seq<Report>, r: Report, n: nat, x: Id)
    requires n <= |log|
    ensures OwnedIn(log + [r], n, x) == OwnedIn(log, n, x)
  {
    if n > 0 {
      OwnedPrefix(log, r, n - 1, x);
    }
  }

  lemma OwnedAppend(log: seq<Report>, r: Report, x: Id)
    ensures Owned(log + [r], x) == Owned(log, x) + if r.sender.ByOwner? && r.id == x then 1 else 0
  {
    OwnedPrefix(log, r, |log|, x);
  }

  lemma {:induction false} CountShift(a: seq<Task>, b: seq<Task>, i: nat, x: Id)
    ensures CountFrom(a + b, |a| + i, x) == CountFrom(b, i, x)
    decreases |b| - i
  {
    if i < |b| {
      CountShift(a, b, i + 1, x);
    }
  }

  lemma {:induction false} CountSplit(a: seq<Task>, b: seq<Task>, i: nat, x: Id)
    requires i <= |a|
    ensures CountFrom(a + b, i, x) == CountFrom(a, i, x) + Count(b, x)
    decreases |a| - i
  {
    if i < |a| {
      CountSplit(a, b, i + 1, x);
    } else {
      CountShift(a, b, 0, x);
    }
  }

  lemma CountPush(tasks: seq<Task>, t: Task, x: Id)
    ensures Count(tasks + [t], x) == Count(tasks, x) + if t.id == x then 1 else 0
  {
    CountSplit(tasks, [t], 0, x);
    assert CountFrom([t], 1, x) == 0;
  }

  lemma CountTail(tasks: seq<Task>, x: Id)
    requires tasks != []
    ensures Count(tasks, x) == (if tasks[0].id == x then 1 else 0) + Count(tasks[1..], x)
  {
    assert tasks == [tasks[0]] + tasks[1..];
    CountSplit([tasks[0]], tasks[1..], 0, x);
    assert CountFrom([tasks[0]], 1, x) == 0;
  }

  // x occurs as often among the claimed tasks as in the poller's hand, the queue, the workers and
  // the reports together; a task still in running after its report has been reported.
  ghost predicate ConservedAt(s: State, x: Id) {
    && Count(s.claimed, x) <= 1
    && Count(s.claimed, x) == InHand(s.poller, x) + Count(s.queue, x)
                              + Held(s.workers, Quiet, x) + Held(s.workers, Active, x) + Owned(s.log, x)
    && Held(s.workers, Closing, x) <= Owned(s.log, x)
  }

  function PollerPending(p: Poller, x: Id): nat {
    if p.Disposing? && (p.stage.Sending? || p.stage.Dropping?) && p.task.id == x then 1 else 0
  }

  // The two maps hold x exactly when it is in flight.
  ghost predicate TrackedAt(s: State, x: Id) {
    && (if x in s.pending then 1 else 0)
       == Count(s.queue, x) + PollerPending(s.poller, x) + Held(s.workers, InPending, x)
    && (if x in s.running then 1 else 0) == Held(s.workers, Active, x) + Held(s.workers, Closing, x)
  }

  ghost predicate TaskOk(s: State, x: Id) {
    ConservedAt(s, x) && (!s.abort ==> TrackedAt(s, x))
  }

  ghost predicate TasksOk(s: State) { forall x: Id :: TaskOk(s, x) }

  // In state Aborting the abort flag has been seen set, and it is never cleared.
  ghost predicate AbortSeen(s: State) {
    forall w :: 0 <= w < |s.workers| && s.workers[w].Busy? && s.workers[w].stage.Aborting? ==> s.abort
  }

  // A shutdown on its timeout path.
  predicate GaveUp(pc: Shutdown) {
    match pc
    case Beginning | Counting | CountedPending(_, _) | Retrying | ClosingEmpty(_) => false
    case Returned(gaveUp) => gaveUp
    case _ => true
  }

  // A zero read by a shutdown stays true while it goes on to close the queue.
  ghost predicate ZeroIsStable(s: State, pc: Shutdown) {
    && (pc.CountedPending? && pc.n == 0 && pc.quiet ==> s.pending == {} && !PastCheck(s.poller))
    && (pc.ClosingEmpty? && pc.quiet ==> s.pending == {} && s.running == {} && !PastCheck(s.poller))
  }

  ghost predicate ShutdownOk(s: State, pc: Shutdown) {
    && (!pc.Beginning? ==> s.stopPolling)
    && (GaveUp(pc) && !pc.TimedOut? ==> s.abort)
    && (!s.abort ==> ZeroIsStable(s, pc))
  }

  ghost predicate ShutdownsOk(s: State) {
    forall k :: 0 <= k < |s.shutdowns| ==> ShutdownOk(s, s.shutdowns[k])
  }

  ghost predicate BasicOk(s: State) {
    && |s.workers| > 0
    && |s.queue| <= Capacity(s)
    && (s.closed ==> s.stopPolling)
    && AbortSeen(s)
  }

  ghost predicate Inv(s: State) { BasicOk(s) && TasksOk(s) && ShutdownsOk(s) }

  lemma InitInv(s: State)
    requires Init(s)
    ensures Inv(s)
  {
    forall x: Id ensures TaskOk(s, x) {
      forall part: Part { HeldNothing(s.workers, |s.workers|, part, x); }
    }
  }

  /******* Every step keeps the invariant *******/

  lemma PollerDisposes(s: State, x: Id)
    requires ConservedAt(s, x) && s.poller.Disposing?
    ensures ConservedAt(PollerNext(s, Tick), x)
  {
    OwnedAppend(s.log, Report(s.poller.task.id, ByOwner, false), x);
    CountPush(s.queue, s.poller.task, x);
  }

  lemma PollerConserves(s: State, a: Action, x: Id)
    requires ConservedAt(s, x) && PollerEnabled(s, a) && !s.poller.Disposing?
    ensures ConservedAt(PollerNext(s, a), x)
  {
    if a.Claim? {
      CountSplit(s.claimed, a.batch, 0, x);
      assert Count(s.claimed + a.batch, x) <= 1;
    } else if s.poller.Iterating? && s.poller.rest != [] {
      CountTail(s.poller.rest, x);
    }
  }

  lemma PollerTracks(s: State, a: Action, x: Id)
    requires ConservedAt(s, x) && TrackedAt(s, x) && PollerEnabled(s, a)
    ensures TrackedAt(PollerNext(s, a), x)
  {
    if s.poller.Disposing? {
      HeldBounds(s.workers, |s.workers|, x);
      CountPush(s.queue, s.poller.task, x);
    }
  }

  lemma PollerTasks(s: State, a: Action)
    requires TasksOk(s) && PollerEnabled(s, a)
    ensures TasksOk(PollerNext(s, a))
  {
    var s' := PollerNext(s, a);
    forall x: Id ensures TaskOk(s', x) {
      assert TaskOk(s, x);
      if s.poller.Disposing? {
        PollerDisposes(s, x);
      } else {
        PollerConserves(s, a, x);
      }
      if !s.abort {
        PollerTracks(s, a, x);
      }
    }
  }

  // What a poller or worker step may do to the data the shutdowns read: once polling has stopped and
  // the poller is not past its check, nothing enters pending, and with pending empty nothing enters
  // running.
  ghost predicate Calm(s: State, t: State) {
    && t.shutdowns == s.shutdowns && t.abort == s.abort
    && (s.stopPolling ==> t.stopPolling)
    && (s.stopPolling && !PastCheck(s.poller) ==> !PastCheck(t.poller) && t.pending <= s.pending)
    && (s.pending == {} && !s.abort ==> t.running <= s.running)
  }

  lemma CalmKeepsShutdowns(s: State, t: State)
    requires ShutdownsOk(s) && Calm(s, t)
    ensures ShutdownsOk(t)
  {
    forall k | 0 <= k < |t.shutdowns| ensures ShutdownOk(t, t.shutdowns[k]) {
      assert ShutdownOk(s, s.shutdowns[k]);
    }
  }

  lemma PollerKeepsInv(s: State, a: Action)
    requires Inv(s) && PollerEnabled(s, a)
    ensures Inv(PollerNext(s, a))
  {
    PollerTasks(s, a);
    CalmKeepsShutdowns(s, PollerNext(s, a));
  }

  // The report a stage sends, counted for x.
  function ReportsNow(stage: WorkStage, task: Task, x: Id): nat {
    if (stage.AbortReport? || stage.UnsupportedReport? || stage.Done? || stage.Failed?) && task.id == x then 1 else 0
  }

  // A stage hands its task to the next class, to the reports, or out of the maps.
  lemma StageMoves(s: State, stage: WorkStage, task: Task, ok: bool, x: Id)
    ensures var pc, next := Busy(stage, task), StageAfter(s, stage, task, ok);
            && Holds(next, Quiet, x) + Holds(next, Active, x) + ReportsNow(stage, task, x)
               == Holds(pc, Quiet, x) + Holds(pc, Active, x)
            && Holds(next, Closing, x) <= Holds(pc, Closing, x) + ReportsNow(stage, task, x)
  {
  }

  lemma StageMaps(s: State, stage: WorkStage, task: Task, ok: bool, x: Id)
    requires !s.abort && !stage.Aborting?
    ensures var pc, next := Busy(stage, task), StageAfter(s, stage, task, ok);
            && Holds(next, InPending, x) + (if (stage.Unsupported? || stage.Started?) && task.id == x then 1 else 0)
               == Holds(pc, InPending, x)
            && Holds(next, Active, x) + Holds(next, Closing, x)
               + (if stage.Finishing? && task.id == x then 1 else 0)
               == Holds(pc, Active, x) + Holds(pc, Closing, x)
                  + (if stage.Starting? && task.id == x then 1 else 0)
  {
  }

  // A worker that receives from the queue, or leaves because the queue is closed.
  lemma WorkerReceives(s: State, w: nat, ok: bool, x: Id)
    requires TaskOk(s, x) && WorkerEnabled(s, w) && s.workers[w].Ready?
    ensures TaskOk(WorkerNext(s, w, ok), x)
  {
    var pc := if s.queue == [] then Exited else Busy(Taken, s.queue[0]);
    HeldUpdate(s.workers, |s.workers|, w, pc, Quiet, x);
    HeldUpdate(s.workers, |s.workers|, w, pc, Active, x);
    HeldUpdate(s.workers, |s.workers|, w, pc, Closing, x);
    HeldUpdate(s.workers, |s.workers|, w, pc, InPending, x);
    if s.queue != [] {
      CountTail(s.queue, x);
    }
  }

  // A busy worker moves its task from one class to the next.
  lemma WorkerConserves(s: State, w: nat, ok: bool, x: Id)
    requires ConservedAt(s, x) && WorkerEnabled(s, w) && s.workers[w].Busy?
    ensures ConservedAt(WorkerNext(s, w, ok), x)
  {
    var Busy(stage, task) := s.workers[w];
    var pc := StageAfter(s, stage, task, ok);
    HeldUpdate(s.workers, |s.workers|, w, pc, Quiet, x);
    HeldUpdate(s.workers, |s.workers|, w, pc, Active, x);
    HeldUpdate(s.workers, |s.workers|, w, pc, Closing, x);
    StageMoves(s, stage, task, ok, x);
    OwnedAppend(s.log, Report(task.id, ByOwner, stage.Done?), x);
    assert Owned(WorkerNext(s, w, ok).log, x) == Owned(s.log, x) + ReportsNow(stage, task, x);
  }

  lemma WorkerTracksPending(s: State, w: nat, ok: bool, x: Id)
    requires TrackedAt(s, x) && !s.abort && AbortSeen(s) && WorkerEnabled(s, w) && s.workers[w].Busy?
    ensures (if x in WorkerNext(s, w, ok).pending then 1 else 0)
            == Count(s.queue, x) + PollerPending(s.poller, x) + Held(WorkerNext(s, w, ok).workers, InPending, x)
  {
    var Busy(stage, task) := s.workers[w];
    HeldUpdate(s.workers, |s.workers|, w, StageAfter(s, stage, task, ok), InPending, x);
    HeldIncludes(s.workers, |s.workers|, w, InPending, x);
    StageMaps(s, stage, task, ok, x);
  }

  lemma WorkerTracksRunning(s: State, w: nat, ok: bool, x: Id)
    requires ConservedAt(s, x) && TrackedAt(s, x)
    requires !s.abort && AbortSeen(s) && WorkerEnabled(s, w) && s.workers[w].Busy?
    ensures (if x in WorkerNext(s, w, ok).running then 1 else 0)
            == Held(WorkerNext(s, w, ok).workers, Active, x) + Held(WorkerNext(s, w, ok).workers, Closing, x)
  {
    var Busy(stage, task) := s.workers[w];
    var pc := StageAfter(s, stage, task, ok);
    HeldUpdate(s.workers, |s.workers|, w, pc, Active, x);
    HeldUpdate(s.workers, |s.workers|, w, pc, Closing, x);
    HeldIncludes(s.workers, |s.workers|, w, Quiet, x);
    HeldIncludes(s.workers, |s.workers|, w, Closing, x);
    StageMaps(s, stage, task, ok, x);
  }

  lemma WorkerTasks(s: State, w: nat, ok: bool)
    requires TasksOk(s) && AbortSeen(s) && WorkerEnabled(s, w)
    ensures TasksOk(WorkerNext(s, w, ok))
  {
    var s' := WorkerNext(s, w, ok);
    forall x: Id ensures TaskOk(s', x) {
      assert TaskOk(s, x);
      if s.workers[w].Ready? {
        WorkerReceives(s, w, ok, x);
      } else {
        WorkerConserves(s, w, ok, x);
        if !s.abort {
          WorkerTracksPending(s, w, ok, x);
          WorkerTracksRunning(s, w, ok, x);
        }
      }
    }
  }

  // A worker that is about to enter running is still in pending.
  lemma StartingIsPending(s: State, w: nat)
    requires TasksOk(s) && !s.abort && w < |s.workers| && s.workers[w].Busy? && s.workers[w].stage.Starting?
    ensures s.pending != {}
  {
    var x := s.workers[w].task.id;
    assert TaskOk(s, x);
    HeldIncludes(s.workers, |s.workers|, w, InPending, x);
    assert x in s.pending;
  }

  lemma WorkerKeepsInv(s: State, w: nat, ok: bool)
    requires Inv(s) && WorkerEnabled(s, w)
    ensures Inv(WorkerNext(s, w, ok))
  {
    WorkerTasks(s, w, ok);
    if s.workers[w].Busy? && s.workers[w].stage.Starting? && !s.abort {
      StartingIsPending(s, w);
    }
    CalmKeepsShutdowns(s, WorkerNext(s, w, ok));
  }

  lemma ShutdownTasks(s: State, k: nat, expired: bool, order: seq<Id>)
    requires TasksOk(s) && ShutdownEnabled(s, k, order) && ShutdownOk(s, s.shutdowns[k])
    ensures TasksOk(ShutdownNext(s, k, expired, order))
  {
    var s' := ShutdownNext(s, k, expired, order);
    forall x: Id ensures TaskOk(s', x) {
      assert TaskOk(s, x);
      if s.shutdowns[k].Failing? && s.shutdowns[k].todo != [] {
        OwnedAppend(s.log, Report(s.shutdowns[k].todo[0], ByShutdown(k), false), x);
      }
    }
  }

  lemma ShutdownKeepsInv(s: State, k: nat, expired: bool, order: seq<Id>)
    requires Inv(s) && ShutdownEnabled(s, k, order)
    ensures Inv(ShutdownNext(s, k, expired, order))
  {
    var s' := ShutdownNext(s, k, expired, order);
    assert ShutdownOk(s, s.shutdowns[k]);
    ShutdownTasks(s, k, expired, order);
    forall j | 0 <= j < |s'.shutdowns| ensures ShutdownOk(s', s'.shutdowns[j]) {
      assert ShutdownOk(s, s.shutdowns[j]);
    }
  }

  lemma CallKeepsInv(s: State)
    requires Inv(s)
    ensures Inv(s.(stopSignal := true, shutdowns := s.shutdowns + [Beginning]))
  {
    var s' := s.(stopSignal := true, shutdowns := s.shutdowns + [Beginning]);
    forall x: Id ensures TaskOk(s', x) { assert TaskOk(s, x); }
    forall k | 0 <= k < |s'.shutdowns| ensures ShutdownOk(s', s'.shutdowns[k]) {
      if k < |s.shutdowns| {
        assert ShutdownOk(s, s.shutdowns[k]);
      }
    }
  }

  lemma NextKeepsInv(s: State, a: Action)
    requires Inv(s) && Enabled(s, a)
    ensures Inv(Next(s, a))
  {
    match a
    case Work(w, ok) => WorkerKeepsInv(s, w, ok);
    case CallShutdown => CallKeepsInv(s);
    case ShutDown(k, expired, order) => ShutdownKeepsInv(s, k, expired, order);
    case _ => PollerKeepsInv(s, a);
  }

  lemma {:induction false} RunKeepsInv(s: State, run: seq<Action>)
    requires Inv(s) && CanRun(s, run)
    ensures Inv(After(s, run))
    decreases |run|
  {
    if run != [] {
      NextKeepsInv(s, run[0]);
      RunKeepsInv(Next(s, run[0]), run[1..]);
    }
  }

  lemma ReachableInv(s: State)
    requires Reachable(s)
    ensures Inv(s)
  {
    var s0, run :| Init(s0) && CanRun(s0, run) && After(s0, run) == s;
    InitInv(s0);
    RunKeepsInv(s0, run);
  }

  /******* A zero count, and closing the queue *******/

  // A worker with nothing in the maps: it waits, has left, or is sending the fail report of a task
  // that has no handler.
  predicate Idle(w: Worker) { w.Busy? ==> w.stage.UnsupportedReport? || w.stage.AbortReport? }

  lemma {:induction false} CountSees(tasks: seq<Task>, j: nat, i: nat, x: Id)
    requires j <= i < |tasks| && tasks[i].id == x
    ensures CountFrom(tasks, j, x) > 0
    decreases i - j
  {
    if j < i {
      CountSees(tasks, j + 1, i, x);
    }
  }

  lemma QueuedIsPending(s: State, i: nat)
    requires TasksOk(s) && !s.abort && i < |s.queue|
    ensures s.queue[i].id in s.pending
  {
    assert TaskOk(s, s.queue[i].id);
    CountSees(s.queue, 0, i, s.queue[i].id);
  }

  lemma BusyIsTracked(s: State, w: nat)
    requires TasksOk(s) && AbortSeen(s) && !s.abort && w < |s.workers| && !Idle(s.workers[w])
    ensures s.workers[w].task.id in s.pending + s.running
  {
    var x := s.workers[w].task.id;
    assert TaskOk(s, x);
    HeldIncludes(s.workers, |s.workers|, w, InPending, x);
    HeldIncludes(s.workers, |s.workers|, w, Active, x);
    HeldIncludes(s.workers, |s.workers|, w, Closing, x);
  }

  // With polling stopped, empty maps mean that nothing is queued and no handler runs.
  lemma EmptyMapsMeanIdle(s: State)
    requires Inv(s) && !s.abort && s.pending == {} && s.running == {}
    ensures s.queue == []
    ensures forall w :: 0 <= w < |s.workers| ==> Idle(s.workers[w])
  {
    if s.queue != [] {
      QueuedIsPending(s, 0);
    }
    forall w | 0 <= w < |s.workers| ensures Idle(s.workers[w]) {
      if !Idle(s.workers[w]) {
        BusyIsTracked(s, w);
      }
    }
  }

  // inflightCount locks pending first and running second.  If the poller was not past its stop check
  // when pending was read, then a sum of zero means that, at the later moment when running is read,
  // the queue is empty and no handler is running, whatever the workers did in between.
  lemma ZeroCountMeansIdle(s: State, k: nat)
    requires Reachable(s) && !s.abort && k < |s.shutdowns|
    requires s.shutdowns[k].CountedPending? && s.shutdowns[k].quiet
    requires s.shutdowns[k].n + |s.running| == 0
    ensures s.queue == [] && !PastCheck(s.poller)
    ensures forall w :: 0 <= w < |s.workers| ==> Idle(s.workers[w])
  {
    ReachableInv(s);
    assert ShutdownOk(s, s.shutdowns[k]);
    EmptyMapsMeanIdle(s);
  }

  // The same holds when the graceful path closes the queue.
  lemma GracefulCloseFindsNothing(s: State, k: nat)
    requires Reachable(s) && !s.abort && k < |s.shutdowns| && s.shutdowns[k] == ClosingEmpty(true)
    ensures s.queue == [] && !PastCheck(s.poller)
    ensures forall w :: 0 <= w < |s.workers| ==> Idle(s.workers[w])
  {
    ReachableInv(s);
    assert ShutdownOk(s, s.shutdowns[k]);
    EmptyMapsMeanIdle(s);
  }

  // With the queue closed and the poller not past its check, no run sends on the closed queue.
  lemma {:induction false} NoPanic(s: State, run: seq<Action>)
    requires s.closed && s.stopPolling && !PastCheck(s.poller) && !s.panicked
    requires CanRun(s, run)
    ensures !After(s, run).panicked
    decreases |run|
  {
    if run != [] {
      NoPanic(Next(s, run[0]), run[1..]);
    }
  }

  // Closing the queue is safe exactly when the poller is not past its stop check: otherwise its send
  // hits the closed channel and the process panics.
  lemma PanicExactlyWhenPastCheck(s: State)
    requires Reachable(s) && s.closed && !s.panicked
    ensures (exists run :: CanRun(s, run) && After(s, run).panicked) <==> PastCheck(s.poller)
  {
    ReachableInv(s);
    if PastCheck(s.poller) {
      if s.poller.stage.Sending? {
        ExtendRun(s, [], Tick);
        assert After(s, [] + [Tick]).panicked;
      } else {
        ExtendRun(s, [], Tick);
        ExtendRun(s, [] + [Tick], Tick);
        assert After(s, [] + [Tick] + [Tick]).panicked;
      }
    } else {
      forall run | CanRun(s, run) ensures !After(s, run).panicked { NoPanic(s, run); }
    }
  }

  lemma ExtendRun(s0: State, run: seq<Action>, a: Action)
    requires CanRun(s0, run) && Enabled(After(s0, run), a)
    ensures CanRun(s0, run + [a]) && After(s0, run + [a]) == Next(After(s0, run), a)
    decreases |run|
  {
    if run == [] {
      assert run + [a] == [a];
      assert CanRun(Next(s0, a), [a][1..]);
    } else {
      ExtendRun(Next(s0, run[0]), run[1..], a);
      assert (run + [a])[1..] == run[1..] + [a];
    }
  }

  lemma ReachableNext(s: State, a: Action)
    requires Reachable(s) && Enabled(s, a)
    ensures Reachable(Next(s, a))
  {
    var s0, run :| Init(s0) && CanRun(s0, run) && After(s0, run) == s;
    ExtendRun(s0, run, a);
  }

  lemma OneTaskIsDistinct(task: Task)
    ensures Distinct([task])
  {
    forall x: Id ensures Count([task], x) <= 1 {
      CountPush([], task, x);
      assert [] + [task] == [task];
    }
  }

  // A poller past its check, in a state reached by three steps.
  lemma TaskInHand() returns (s: State)
    ensures Reachable(s) && !s.abort && !s.closed && !s.panicked && s.shutdowns == [] && PastCheck(s.poller)
    ensures s.pending == {} && s.running == {}
  {
    var task := Task(7, 0);
    var s0 := State({0}, [Ready], [], false, false, {}, {}, false, false, false, Waiting, [], [], []);
    assert CanRun(s0, []) && After(s0, []) == s0;
    assert Reachable(s0);
    ReachableNext(s0, Tick);
    var s1 := Next(s0, Tick);
    assert s1.claimed + [task] == [task];
    OneTaskIsDistinct(task);
    ReachableNext(s1, Claim([task]));
    var s2 := Next(s1, Claim([task]));
    ReachableNext(s2, Tick);
    s := Next(s2, Tick);
  }

  // Its shutdown has stored the stop flag and is about to count.
  lemma ShutdownCounting() returns (s: State)
    ensures Reachable(s) && !s.abort && !s.closed && !s.panicked && s.shutdowns == [Counting] && PastCheck(s.poller)
    ensures s.pending == {} && s.running == {}
  {
    s := TaskInHand();
    ReachableNext(s, CallShutdown);
    s := Next(s, CallShutdown);
    ReachableNext(s, ShutDown(0, false, []));
    s := Next(s, ShutDown(0, false, []));
  }

  // The hypothesis is needed: a shutdown can count zero and close the queue while the poller, past its
  // check, still holds a task.
  lemma ZeroCountWithTaskInHand() returns (s: State)
    ensures Reachable(s) && !s.abort && s.closed && s.pending == {} && s.running == {} && PastCheck(s.poller)
  {
    s := ShutdownCounting();
    var step := ShutDown(0, false, []);
    ReachableNext(s, step);
    s := Next(s, step);
    ReachableNext(s, step);
    s := Next(s, step);
    ReachableNext(s, step);
    s := Next(s, step);
  }

  /******* Reports *******/

  // A task that was claimed and is no longer held by anyone has been reported by its owner exactly once.
  lemma OneOwnerReport(s: State, x: Id)
    requires Reachable(s) && Count(s.claimed, x) > 0
    requires InHand(s.poller, x) == 0 && Count(s.queue, x) == 0
    requires forall w :: 0 <= w < |s.workers| && s.workers[w].Busy? && s.workers[w].task.id == x
                         ==> s.workers[w].stage.Finishing?
    ensures Owned(s.log, x) == 1
  {
    ReachableInv(s);
    assert TaskOk(s, x);
    HeldNothing(s.workers, |s.workers|, Quiet, x);
    HeldNothing(s.workers, |s.workers|, Active, x);
  }

  // Reports about x by shutdown k, by anyone, and by shutdowns 0 .. m - 1, among the first n.
  function SentIn(log: seq<Report>, n: nat, k: nat, x: Id): nat
    requires n <= |log|
  {
    if n == 0 then 0
    else SentIn(log, n - 1, k, x) + if log[n - 1].sender == ByShutdown(k) && log[n - 1].id == x then 1 else 0
  }

  function ReportsIn(log: seq<Report>, n: nat, x: Id): nat
    requires n <= |log|
  {
    if n == 0 then 0 else ReportsIn(log, n - 1, x) + if log[n - 1].id == x then 1 else 0
  }

  function SentBelow(log: seq<Report>, n: nat, m: nat, x: Id): nat
    requires n <= |log|
  {
    if m == 0 then 0 else SentBelow(log, n, m - 1, x) + SentIn(log, n, m - 1, x)
  }

  lemma {:induction false} SentBelowStep(log: seq<Report>, n: nat, m: nat, x: Id)
    requires n < |log|
    ensures SentBelow(log, n + 1, m, x) == SentBelow(log, n, m, x)
            + if log[n].sender.ByShutdown? && log[n].sender.k < m && log[n].id == x then 1 else 0
  {
    if m > 0 {
      SentBelowStep(log, n, m - 1, x);
    }
  }

  lemma {:induction false} SentBelowNothing(log: seq<Report>, m: nat, x: Id)
    ensures SentBelow(log, 0, m, x) == 0
  {
    if m > 0 {
      SentBelowNothing(log, m - 1, x);
    }
  }

  lemma {:induction false} ReportsSplit(log: seq<Report>, n: nat, m: nat, x: Id)
    requires n <= |log|
    requires forall i :: 0 <= i < |log| && log[i].sender.ByShutdown? ==> log[i].sender.k < m
    ensures ReportsIn(log, n, x) == OwnedIn(log, n, x) + SentBelow(log, n, m, x)
  {
    if n == 0 {
      SentBelowNothing(log, m, x);
    } else {
      ReportsSplit(log, n - 1, m, x);
      SentBelowStep(log, n - 1, m, x);
    }
  }

  lemma {:induction false} SentAppend(log: seq<Report>, r: Report, n: nat, k: nat, x: Id)
    requires n <= |log|
    ensures SentIn(log + [r], n, k, x) == SentIn(log, n, k, x)
  {
    if n > 0 {
      SentAppend(log, r, n - 1, k, x);
    }
  }

  function Todo(pc: Shutdown): seq<Id> {
    if pc.Failing? || pc.UntrackPending? || pc.UntrackRunning? then pc.todo else []
  }

  predicate HasSnapshot(pc: Shutdown) {
    pc.Failing? || pc.UntrackPending? || pc.UntrackRunning? || pc.ClosingAborted? || pc == Returned(true)
  }

  // Shutdown k has at most one report about x, sent or still to send, and none unless it gave up.
  ghost predicate SentOk(s: State, k: nat, x: Id) {
    SentIn(s.log, |s.log|, k, x) + (if k < |s.shutdowns| then multiset(Todo(s.shutdowns[k]))[x] else 0)
    <= if k < |s.shutdowns| && HasSnapshot(s.shutdowns[k]) then 1 else 0
  }

  ghost predicate LogOk(s: State) {
    && (forall k: nat, x: Id :: SentOk(s, k, x))
    && (forall i :: 0 <= i < |s.log| && s.log[i].sender.ByShutdown? ==> s.log[i].sender.k < |s.shutdowns|)
  }

  lemma SentAfterReport(s: State, t: State, r: Report, k: nat, x: Id)
    requires t.log == s.log + [r]
    ensures SentIn(t.log, |t.log|, k, x)
            == SentIn(s.log, |s.log|, k, x) + if r.sender == ByShutdown(k) && r.id == x then 1 else 0
  {
    SentAppend(s.log, r, |s.log|, k, x);
  }

  // An owner's step leaves the shutdowns' reports alone.
  lemma OwnerKeepsLog(s: State, t: State)
    requires LogOk(s) && t.shutdowns == s.shutdowns
    requires t.log == s.log || exists id, done :: t.log == s.log + [Report(id, ByOwner, done)]
    ensures LogOk(t)
  {
    forall k: nat, x: Id ensures SentOk(t, k, x) {
      assert SentOk(s, k, x);
      if t.log != s.log {
        var id, done :| t.log == s.log + [Report(id, ByOwner, done)];
        SentAfterReport(s, t, Report(id, ByOwner, done), k, x);
      }
    }
  }

  lemma OtherSent(s: State, k: nat, expired: bool, order: seq<Id>, j: nat, x: Id)
    requires ShutdownEnabled(s, k, order) && SentOk(s, j, x) && j != k
    ensures SentOk(ShutdownNext(s, k, expired, order), j, x)
  {
    var pc := s.shutdowns[k];
    if pc.Failing? && pc.todo != [] {
      SentAfterReport(s, ShutdownNext(s, k, expired, order), Report(pc.todo[0], ByShutdown(k), false), j, x);
    }
  }

  // Sending a report takes its id off the list of what is still to send.
  lemma OwnReportSent(s: State, k: nat, expired: bool, order: seq<Id>, x: Id)
    requires ShutdownEnabled(s, k, order) && SentOk(s, k, x)
    requires s.shutdowns[k].Failing? && s.shutdowns[k].todo != []
    ensures SentOk(ShutdownNext(s, k, expired, order), k, x)
  {
    var todo := s.shutdowns[k].todo;
    SentAfterReport(s, ShutdownNext(s, k, expired, order), Report(todo[0], ByShutdown(k), false), k, x);
    assert todo == [todo[0]] + todo[1..];
    assert multiset(todo)[x] == multiset(todo[1..])[x] + if todo[0] == x then 1 else 0;
  }

  lemma OwnSent(s: State, k: nat, expired: bool, order: seq<Id>, x: Id)
    requires ShutdownEnabled(s, k, order) && SentOk(s, k, x)
    requires s.shutdowns[k].Failing? ==> s.shutdowns[k].todo == []
    ensures SentOk(ShutdownNext(s, k, expired, order), k, x)
  {
    var t := ShutdownNext(s, k, expired, order);
    assert t.log == s.log && t.shutdowns[k] == ShutdownPc(s, k, expired, order);
    if s.shutdowns[k].SnapshotRunning? {
      assert multiset(order)[x] <= 1;
    } else {
      assert Todo(t.shutdowns[k]) == Todo(s.shutdowns[k]);
    }
  }

  lemma ShutdownKeepsLog(s: State, k: nat, expired: bool, order: seq<Id>)
    requires LogOk(s) && ShutdownEnabled(s, k, order)
    ensures LogOk(ShutdownNext(s, k, expired, order))
  {
    forall j: nat, x: Id ensures SentOk(ShutdownNext(s, k, expired, order), j, x) {
      assert SentOk(s, j, x);
      if j == k && s.shutdowns[k].Failing? && s.shutdowns[k].todo != [] {
        OwnReportSent(s, k, expired, order, x);
      } else if j == k {
        OwnSent(s, k, expired, order, x);
      } else {
        OtherSent(s, k, expired, order, j, x);
      }
    }
  }

  lemma CallKeepsLog(s: State)
    requires LogOk(s)
    ensures LogOk(s.(stopSignal := true, shutdowns := s.shutdowns + [Beginning]))
  {
    var t := s.(stopSignal := true, shutdowns := s.shutdowns + [Beginning]);
    forall k: nat, x: Id ensures SentOk(t, k, x) { assert SentOk(s, k, x); }
  }

  lemma {:induction false} RunKeepsLog(s: State, run: seq<Action>)
    requires LogOk(s) && CanRun(s, run)
    ensures LogOk(After(s, run))
    decreases |run|
  {
    if run != [] {
      var t := Next(s, run[0]);
      match run[0] {
        case CallShutdown => CallKeepsLog(s);
        case ShutDown(k, expired, order) => ShutdownKeepsLog(s, k, expired, order);
        case _ => OwnerKeepsLog(s, t);
      }
      RunKeepsLog(t, run[1..]);
    }
  }

  function GaveUps(shutdowns: seq<Shutdown>, n: nat): nat
    requires n <= |shutdowns|
  {
    if n == 0 then 0 else GaveUps(shutdowns, n - 1) + if GaveUp(shutdowns[n - 1]) then 1 else 0
  }

  lemma {:induction false} SentBelowGaveUps(s: State, n: nat, x: Id)
    requires LogOk(s) && n <= |s.shutdowns|
    ensures SentBelow(s.log, |s.log|, n, x) <= GaveUps(s.shutdowns, n)
  {
    if n > 0 {
      SentBelowGaveUps(s, n - 1, x);
      assert SentOk(s, n - 1, x);
    }
  }

  // Over whole runs a task gets at most one report from its owner and one more from each shutdown that
  // timed out; without a timed-out shutdown all its reports are its owner's.
  lemma ReportsBounded(s: State, x: Id)
    requires Reachable(s)
    ensures ReportsIn(s.log, |s.log|, x) <= 1 + GaveUps(s.shutdowns, |s.shutdowns|)
    ensures GaveUps(s.shutdowns, |s.shutdowns|) == 0 ==> ReportsIn(s.log, |s.log|, x) == Owned(s.log, x)
  {
    ReachableInv(s);
    assert TaskOk(s, x);
    var s0, run :| Init(s0) && CanRun(s0, run) && After(s0, run) == s;
    forall k: nat, y: Id ensures SentOk(s0, k, y) {}
    RunKeepsLog(s0, run);
    SentBelowGaveUps(s, |s.shutdowns|, x);
    ReportsSplit(s.log, |s.log|, |s.shutdowns|, x);
  }

  // Workers leave only an empty, closed queue.
  ghost predicate LeftEmpty(s: State) {
    forall w :: 0 <= w < |s.workers| && s.workers[w].Exited? ==> s.closed && s.queue == []
  }

  lemma {:induction false} RunKeepsLeftEmpty(s: State, run: seq<Action>)
    requires LeftEmpty(s) && CanRun(s, run)
    ensures LeftEmpty(After(s, run))
    decreases |run|
  {
    if run != [] {
      RunKeepsLeftEmpty(Next(s, run[0]), run[1..]);
    }
  }

  // At the end of a run, with the poller stopped and all workers gone, every claimed task has a report
  // from its owner and at most one more from each shutdown that timed out: without one, exactly one.
  lemma EndOfRun(s: State, x: Id)
    requires Reachable(s) && s.poller.Stopped? && Count(s.claimed, x) > 0
    requires forall w :: 0 <= w < |s.workers| ==> s.workers[w].Exited?
    ensures Owned(s.log, x) == 1
    ensures 1 <= ReportsIn(s.log, |s.log|, x) <= 1 + GaveUps(s.shutdowns, |s.shutdowns|)
  {
    ReachableInv(s);
    var s0, run :| Init(s0) && CanRun(s0, run) && After(s0, run) == s;
    RunKeepsLeftEmpty(s0, run);
    assert s.workers[0].Exited? && s.queue == [];
    OneOwnerReport(s, x);
    ReportsBounded(s, x);
    OwnedAreReports(s.log, |s.log|, x);
  }

  lemma {:induction false} OwnedAreReports(log: seq<Report>, n: nat, x: Id)
    requires n <= |log|
    ensures OwnedIn(log, n, x) <= ReportsIn(log, n, x)
  {
    if n > 0 {
      OwnedAreReports(log, n - 1, x);
    }
  }

  /******* How much can be in flight *******/

  lemma {:induction false} HeldDomain(ws: seq<Worker>, n: nat) returns (ids: set<Id>)
    requires n <= |ws|
    ensures |ids| <= n
    ensures forall x: Id :: HeldBy(ws, n, InFlight, x) > 0 ==> x in ids
  {
    if n == 0 {
      ids := {};
    } else {
      ids := HeldDomain(ws, n - 1);
      if ws[n - 1].Busy? {
        ids := ids + {ws[n - 1].task.id};
      }
    }
  }

  lemma {:induction false} CountDomain(tasks: seq<Task>, i: nat) returns (ids: set<Id>)
    requires i <= |tasks|
    ensures |ids| <= |tasks| - i
    ensures forall x: Id :: CountFrom(tasks, i, x) > 0 ==> x in ids
    decreases |tasks| - i
  {
    if i == |tasks| {
      ids := {};
    } else {
      ids := CountDomain(tasks, i + 1);
      ids := ids + {tasks[i].id};
    }
  }

  lemma SubsetSize<T>(a: set<T>, b: set<T>)
    requires a <= b
    ensures |a| <= |b|
  {
    assert b == a + (b - a);
  }

  // Until a shutdown aborts, the tasks in the two maps number at most 4N queued, N with the workers
  // and one in the poller's hand.
  lemma InFlightBounded(s: State)
    requires Reachable(s) && !s.abort
    ensures |s.pending + s.running| <= 5 * |s.workers| + 1
  {
    ReachableInv(s);
    var queued := CountDomain(s.queue, 0);
    var held := HeldDomain(s.workers, |s.workers|);
    var hand := if s.poller.Disposing? then {s.poller.task.id} else {};
    forall x | x in s.pending + s.running ensures x in queued + held + hand {
      assert TaskOk(s, x);
      HeldBounds(s.workers, |s.workers|, x);
    }
    SubsetSize(s.pending + s.running, queued + held + hand);
  }

  /******* Draining *******/

  // Steps a worker still has to take before it is back at the queue.
  function Remaining(w: Worker): nat {
    match w
    case Ready => 1
    case Exited => 0
    case Busy(stage, _) =>
      match stage
      case Taken => 7
      case Starting => 6
      case Started => 5
      case Handling => 4
      case Done | Failed | Aborting | Unsupported => 3
      case AbortReport | UnsupportedReport | Finishing => 2
  }

  function WorkLeft(ws: seq<Worker>, n: nat): nat
    requires n <= |ws|
  {
    if n == 0 then 0 else WorkLeft(ws, n - 1) + Remaining(ws[n - 1])
  }

  lemma {:induction false} WorkUpdate(ws: seq<Worker>, n: nat, i: nat, w: Worker)
    requires n <= |ws| && i < |ws|
    ensures WorkLeft(ws[i := w], n) == WorkLeft(ws, n) + if i < n then Remaining(w) - Remaining(ws[i]) else 0
  {
    if n > 0 {
      WorkUpdate(ws, n - 1, i, w);
    }
  }

  function Effort(s: State): nat { WorkLeft(s.workers, |s.workers|) + 7 * |s.queue| }

  lemma StageAdvances(s: State, stage: WorkStage, task: Task, ok: bool)
    ensures Remaining(StageAfter(s, stage, task, ok)) < Remaining(Busy(stage, task))
  {
  }

  lemma WorkerStepAdvances(s: State, w: nat, ok: bool)
    requires WorkerEnabled(s, w)
    ensures Effort(WorkerNext(s, w, ok)) < Effort(s)
  {
    var pc := WorkerNext(s, w, ok).workers[w];
    WorkUpdate(s.workers, |s.workers|, w, pc);
    if s.workers[w].Busy? {
      StageAdvances(s, s.workers[w].stage, s.workers[w].task, ok);
    }
  }

  function WorkerSteps(run: seq<Action>): nat {
    if run == [] then 0 else (if run[0].Work? then 1 else 0) + WorkerSteps(run[1..])
  }

  // Once the queue is closed the workers finish: a run contains at most Effort(s) worker steps, whatever
  // else happens (a handler step stands for the handler returning), and a run in which no worker can
  // step any more has seen them all exit.
  lemma {:induction false} ClosedQueueDrains(s: State, run: seq<Action>)
    requires s.closed && CanRun(s, run)
    ensures WorkerSteps(run) + Effort(After(s, run)) <= Effort(s)
    ensures (forall w: nat :: !WorkerEnabled(After(s, run), w)) ==>
              forall w :: 0 <= w < |After(s, run).workers| ==> After(s, run).workers[w].Exited?
    decreases |run|
  {
    if run != [] {
      var t := Next(s, run[0]);
      if run[0].Work? {
        WorkerStepAdvances(s, run[0].w, run[0].ok);
      } else {
        assert t.workers == s.workers && t.queue == s.queue;
      }
      ClosedQueueDrains(t, run[1..]);
    } else {
      assert forall w: nat :: w < |s.workers| ==> s.workers[w].Exited? || WorkerEnabled(s, w);
    }
  }

  /******* When a zero count can be trusted *******/

  // How many steps of shutdown k a run has.
  function StepsOf(run: seq<Action>, k: nat): nat {
    if run == [] then 0 else (if run[0].ShutDown? && run[0].k == k then 1 else 0) + StepsOf(run[1..], k)
  }

  // Shutdown k is about to close the queue because it counted zero, but there is work left.
  ghost predicate Misled(s: State, k: nat) {
    && k < |s.shutdowns| && s.shutdowns[k].ClosingEmpty? && !s.abort
    && (s.queue != [] || exists w :: 0 <= w < |s.workers| && !Idle(s.workers[w]))
  }

  // Shutdown k, having read pending, can be misled by its next step, whatever happens before it.
  ghost predicate CanMislead(s: State, k: nat) {
    exists run :: CanRun(s, run) && StepsOf(run, k) == 1 && Misled(After(s, run), k)
  }

  lemma MisleadLater(s: State, k: nat, a: Action)
    requires Enabled(s, a) && !(a.ShutDown? && a.k == k) && CanMislead(Next(s, a), k)
    ensures CanMislead(s, k)
  {
    var rest :| CanRun(Next(s, a), rest) && StepsOf(rest, k) == 1 && Misled(After(Next(s, a), rest), k);
    var run := [a] + rest;
    assert run[0] == a && run[1..] == rest;
    assert CanRun(s, run) && StepsOf(run, k) == 1 && After(s, run) == After(Next(s, a), rest);
  }

  // With a task queued after pending was read empty, and nothing running, the count is zero.
  lemma QueuedMisleads(s: State, k: nat)
    requires !s.abort && !s.panicked && k < |s.shutdowns| && s.shutdowns[k].CountedPending? && s.shutdowns[k].n == 0
    requires s.running == {} && s.queue != []
    ensures CanMislead(s, k)
  {
    var a := ShutDown(k, false, []);
    var run := [a];
    assert run[1..] == [] && CanRun(Next(s, a), []);
    assert CanRun(s, run) && StepsOf(run[1..], k) == 0 && StepsOf(run, k) == 1;
    assert After(s, run) == After(Next(s, a), []) == Next(s, a);
    assert Misled(After(s, run), k);
  }

  // The poller is past its check and has not tracked its task yet.
  ghost predicate InHandOnly(s: State, k: nat) {
    && Inv(s) && !s.abort && !s.closed && !s.panicked && s.pending == {} && PastCheck(s.poller)
    && k < |s.shutdowns| && s.shutdowns[k].CountedPending? && s.shutdowns[k].n == 0
  }

  // Then it can track and send its task before running is read.
  lemma SendMisleads(s: State, k: nat)
    requires InHandOnly(s, k) && s.running == {}
    ensures CanMislead(s, k)
  {
    EmptyMapsMeanIdle(s);
    assert TaskOk(s, s.poller.task.id);
    assert s.poller.stage.Tracking?;
    var s1 := Next(s, Tick);
    var s2 := Next(s1, Tick);
    assert s2.queue == [s.poller.task];
    QueuedMisleads(s2, k);
    MisleadLater(s1, k, Tick);
    MisleadLater(s, k, Tick);
  }

  lemma BusyNotPending(s: State, w: nat)
    requires Inv(s) && !s.abort && s.pending == {} && w < |s.workers| && !Idle(s.workers[w])
    ensures WorkerEnabled(s, w) && !StageIn(s.workers[w].stage, InPending) && !s.workers[w].stage.Aborting?
  {
    var x := s.workers[w].task.id;
    assert TaskOk(s, x);
    HeldIncludes(s.workers, |s.workers|, w, InPending, x);
  }

  lemma IdleMeansNotRunning(s: State)
    requires Inv(s) && !s.abort && forall w :: 0 <= w < |s.workers| ==> Idle(s.workers[w])
    ensures s.running == {}
  {
    forall x: Id ensures x !in s.running {
      assert TaskOk(s, x);
      HeldNothing(s.workers, |s.workers|, Active, x);
      HeldNothing(s.workers, |s.workers|, Closing, x);
    }
  }

  // Whatever was running when pending was read can finish first.
  lemma {:induction false} DrainMisleads(s: State, k: nat)
    requires InHandOnly(s, k)
    ensures CanMislead(s, k)
    decreases Effort(s)
  {
    if w: nat :| w < |s.workers| && !Idle(s.workers[w]) {
      BusyNotPending(s, w);
      WorkerStepAdvances(s, w, true);
      WorkerKeepsInv(s, w, true);
      DrainMisleads(WorkerNext(s, w, true), k);
      MisleadLater(s, k, Work(w, true));
    } else {
      IdleMeansNotRunning(s);
      SendMisleads(s, k);
    }
  }

  lemma {:induction false} OthersLeave(s: State, run: seq<Action>, k: nat)
    requires CanRun(s, run) && StepsOf(run, k) == 0 && k < |s.shutdowns|
    ensures k < |After(s, run).shutdowns| && After(s, run).shutdowns[k] == s.shutdowns[k]
    decreases |run|
  {
    if run != [] {
      OthersLeave(Next(s, run[0]), run[1..], k);
    }
  }

  // A shutdown that read pending with the poller not past its check remembers so.
  lemma {:induction false} QuietStays(s: State, run: seq<Action>, k: nat)
    requires CanRun(s, run) && StepsOf(run, k) == 1 && k < |s.shutdowns|
    requires s.shutdowns[k].CountedPending? && s.shutdowns[k].quiet
    ensures k < |After(s, run).shutdowns|
    ensures After(s, run).shutdowns[k] == ClosingEmpty(true) || After(s, run).shutdowns[k] == Retrying
    decreases |run|
  {
    if run[0].ShutDown? && run[0].k == k {
      OthersLeave(Next(s, run[0]), run[1..], k);
    } else {
      QuietStays(Next(s, run[0]), run[1..], k);
    }
  }

  lemma {:induction false} ReachableAfter(s: State, run: seq<Action>)
    requires Reachable(s) && CanRun(s, run)
    ensures Reachable(After(s, run))
    decreases |run|
  {
    if run != [] {
      ReachableNext(s, run[0]);
      ReachableAfter(Next(s, run[0]), run[1..]);
    }
  }

  // A zero count can be wrong if and only if the poller was past its stop check at the moment pending was
  // read empty; where it is when running is read or the queue is closed does not matter.
  lemma MisledExactlyWhenPastCheck(s: State, k: nat)
    requires Reachable(s) && !s.abort && !s.closed && !s.panicked
    requires k < |s.shutdowns| && s.shutdowns[k] == Counting && s.pending == {}
    ensures CanMislead(Next(s, ShutDown(k, false, [])), k) <==> PastCheck(s.poller)
  {
    var s1 := Next(s, ShutDown(k, false, []));
    ReachableNext(s, ShutDown(k, false, []));
    ReachableInv(s1);
    if PastCheck(s.poller) {
      DrainMisleads(s1, k);
    } else {
      forall run | CanRun(s1, run) && StepsOf(run, k) == 1 ensures !Misled(After(s1, run), k) {
        QuietStays(s1, run, k);
        ReachableAfter(s1, run);
        if After(s1, run).shutdowns[k].ClosingEmpty? && !After(s1, run).abort {
          GracefulCloseFindsNothing(After(s1, run), k);
        }
      }
    }
  }

  // Such a state: the graceful path closes the queue on a queued task, with the poller done with it.
  lemma CloseOnQueuedTask() returns (s: State)
    ensures Reachable(s) && !s.abort && !s.closed && s.shutdowns == [ClosingEmpty(false)] && s.queue != [] && !PastCheck(s.poller)
    ensures Enabled(s, ShutDown(0, false, [])) && Next(s, ShutDown(0, false, [])).closed && Next(s, ShutDown(0, false, [])).queue != []
  {
    s := ShutdownCounting();
    ReachableInv(s);
    assert TaskOk(s, s.poller.task.id);
    EmptyMapsMeanIdle(s);
    s := TrackAndSend(s);
    ReachableNext(s, ShutDown(0, false, []));
    s := Next(s, ShutDown(0, false, []));
  }

  lemma TrackAndSend(s: State) returns (t: State)
    requires Reachable(s) && !s.abort && !s.closed && !s.panicked && s.shutdowns == [Counting] && s.queue == []
    requires s.pending == {} && s.running == {} && |s.workers| > 0 && s.poller.Disposing? && s.poller.stage.Tracking?
    ensures Reachable(t) && !t.abort && !t.closed && !t.panicked && t.shutdowns == [CountedPending(0, false)]
    ensures t.running == {} && t.queue != [] && !PastCheck(t.poller)
  {
    ReachableNext(s, ShutDown(0, false, []));
    t := Next(s, ShutDown(0, false, []));
    ReachableNext(t, Tick);
    t := Next(t, Tick);
    ReachableNext(t, Tick);
    t := Next(t, Tick);
  }
}
