/**
 Reference counting of MCP processes in core/plugins/mcp_runtime_control.go, one step per section of
 code under the runtime's mutex.

 Any number of Start, Stop, Sweep and Invoke calls run at once.  The process table maps a server to its
 current process object; a call that acquired an object keeps a reference to it until it releases it,
 whatever the table says meanwhile.
 */
module McpRefCount {

  type Id = nat
  type Obj = nat
  type Call = nat

  // Where a call stands between two locked sections.
  datatype Pc =
    | Idle                               // not started, or returned
    | Starting(id: Id, invoke: bool)     // in Start, before its first section
    | Spawning(id: Id, invoke: bool)     // Start found no process and is spawning one
    | Acquiring(id: Id)                  // Invoke believes that the process runs
    | Holding(id: Id, obj: Obj)          // Invoke is using the process
    | Stopping(id: Id)                   // in Stop, before its section
    | Killing(id: Id, obj: Obj)          // Stop took the process out of the table

  datatype State = State(
    table: map<Id, Obj>,
    inUse: map<Obj, int>,                // every object ever inserted
    pcs: map<Call, Pc>,
    removed: set<Obj>,                   // taken out of the table by Stop
    killed: set<Obj>,
    orphans: set<Obj>                    // replaced in the table by another Start
  )

  datatype Step =
    | CallStart(id: Id)
    | CallStop(id: Id)
    | CallInvoke(id: Id, onDemand: bool)
    | StartSection
    | SpawnFails
    | InsertSection(obj: Obj)
    | StopSection
    | Kill
    | AcquireSection
    | ReleaseSection

  predicate Enabled(s: State, c: Call, step: Step) {
    c in s.pcs
    && match step
       case CallStart(_) => s.pcs[c].Idle?
       case CallStop(_) => s.pcs[c].Idle?
       case CallInvoke(_, _) => s.pcs[c].Idle?
       case StartSection => s.pcs[c].Starting?
       case SpawnFails => s.pcs[c].Spawning?
       case InsertSection(obj) => s.pcs[c].Spawning? && obj !in s.inUse
       case StopSection => s.pcs[c].Stopping?
       case Kill => s.pcs[c].Killing?
       case AcquireSection => s.pcs[c].Acquiring?
       case ReleaseSection => s.pcs[c].Holding? && s.pcs[c].obj in s.inUse
  }

  function Entered(id: Id, invoke: bool): Pc { if invoke then Acquiring(id) else Idle }

  predicate Busy(s: State, id: Id) { id in s.table && s.table[id] in s.inUse && s.inUse[s.table[id]] > 0 }

  function NextPc(s: State, c: Call, step: Step): Pc
    requires Enabled(s, c, step)
  {
    var pc := s.pcs[c];
    match step
    case CallStart(id) => Starting(id, false)
    case CallStop(id) => Stopping(id)
    case CallInvoke(id, onDemand) =>
      if id in s.table then Acquiring(id) else if onDemand then Starting(id, true) else Idle
    case StartSection => if pc.id in s.table then Entered(pc.id, pc.invoke) else Spawning(pc.id, pc.invoke)
    case SpawnFails => Idle
    case InsertSection(_) => Entered(pc.id, pc.invoke)
    case StopSection => if Busy(s, pc.id) || pc.id !in s.table then Idle else Killing(pc.id, s.table[pc.id])
    case Kill => Idle
    case AcquireSection => if pc.id in s.table then Holding(pc.id, s.table[pc.id]) else Idle
    case ReleaseSection => Idle
  }

  // Stop takes the process out of the table.
  predicate Removes(s: State, c: Call, step: Step)
    requires Enabled(s, c, step)
  {
    step.StopSection? && s.pcs[c].id in s.table && !Busy(s, s.pcs[c].id)
  }

  predicate Replaces(s: State, c: Call, step: Step)
    requires Enabled(s, c, step)
  {
    step.InsertSection? && s.pcs[c].id in s.table
  }

  function NextTable(s: State, c: Call, step: Step): map<Id, Obj>
    requires Enabled(s, c, step)
  {
    if step.InsertSection? then s.table[s.pcs[c].id := step.obj]
    else if Removes(s, c, step) then s.table - {s.pcs[c].id}
    else s.table
  }

  function NextInUse(s: State, c: Call, step: Step): map<Obj, int>
    requires Enabled(s, c, step)
  {
    if step.InsertSection? then s.inUse[step.obj := 0]
    else if step.AcquireSection? && s.pcs[c].id in s.table && s.table[s.pcs[c].id] in s.inUse then
      s.inUse[s.table[s.pcs[c].id] := s.inUse[s.table[s.pcs[c].id]] + 1]
    else if step.ReleaseSection? && s.inUse[s.pcs[c].obj] > 0 then
      s.inUse[s.pcs[c].obj := s.inUse[s.pcs[c].obj] - 1]
    else s.inUse
  }

  function Next(s: State, c: Call, step: Step): State
    requires Enabled(s, c, step)
  {
    State(
      NextTable(s, c, step),
      NextInUse(s, c, step),
      s.pcs[c := NextPc(s, c, step)],
      if Removes(s, c, step) then s.removed + {s.table[s.pcs[c].id]} else s.removed,
      if step.Kill? then s.killed + {s.pcs[c].obj} else s.killed,
      if Replaces(s, c, step) then s.orphans + {s.table[s.pcs[c].id]} else s.orphans)
  }

  predicate Initial(s: State) {
    && s.table == map[] && s.inUse == map[] && s.removed == {} && s.killed == {} && s.orphans == {}
    && forall c :: c in s.pcs ==> s.pcs[c] == Idle
  }

  /******* Invariant *******/

  // The calls that hold an object.
  function Holders(pcs: map<Call, Pc>, o: Obj): set<Call> {
    set c | c in pcs && pcs[c].Holding? && pcs[c].obj == o
  }

  // An object counts its holders, and is in exactly one place: the table, removed or orphaned.
  ghost predicate ObjOk(s: State, o: Obj)
    requires o in s.inUse
  {
    && s.inUse[o] == |Holders(s.pcs, o)|
    && (o in s.table.Values || o in s.removed || o in s.orphans)
    && !(o in s.table.Values && o in s.removed) && !(o in s.table.Values && o in s.orphans)
    && !(o in s.removed && o in s.orphans)
    && (o in s.removed ==> s.inUse[o] == 0)
  }

  ghost predicate ObjsOk(s: State) { forall o :: o in s.inUse ==> ObjOk(s, o) }

  ghost predicate CallOk(s: State, pc: Pc) {
    && (pc.Holding? ==> pc.obj in s.inUse)
    && (pc.Killing? ==> pc.obj in s.removed)
  }

  ghost predicate CallsOk(s: State) { forall c :: c in s.pcs ==> CallOk(s, s.pcs[c]) }

  ghost predicate Placed(s: State) {
    && s.table.Values <= s.inUse.Keys && s.removed <= s.inUse.Keys && s.orphans <= s.inUse.Keys
    && s.killed <= s.removed
    && forall i, j :: i in s.table && j in s.table && s.table[i] == s.table[j] ==> i == j
  }

  ghost predicate Inv(s: State) { ObjsOk(s) && CallsOk(s) && Placed(s) }

  lemma InitialInv(s: State)
    requires Initial(s)
    ensures Inv(s)
  {
  }

  lemma HoldersGain(pcs: map<Call, Pc>, c: Call, pc: Pc, o: Obj)
    requires c in pcs && !(pcs[c].Holding? && pcs[c].obj == o) && pc.Holding? && pc.obj == o
    ensures |Holders(pcs[c := pc], o)| == |Holders(pcs, o)| + 1
  {
    assert Holders(pcs[c := pc], o) == Holders(pcs, o) + {c};
  }

  lemma HoldersLose(pcs: map<Call, Pc>, c: Call, pc: Pc, o: Obj)
    requires c in pcs && pcs[c].Holding? && pcs[c].obj == o && !(pc.Holding? && pc.obj == o)
    ensures |Holders(pcs[c := pc], o)| == |Holders(pcs, o)| - 1
  {
    assert Holders(pcs[c := pc], o) == Holders(pcs, o) - {c};
  }

  lemma HoldersSame(pcs: map<Call, Pc>, c: Call, pc: Pc, o: Obj)
    requires c in pcs && (pcs[c].Holding? && pcs[c].obj == o <==> pc.Holding? && pc.obj == o)
    ensures Holders(pcs[c := pc], o) == Holders(pcs, o)
  {
  }

  lemma NoHolders(s: State, o: Obj)
    requires CallsOk(s) && o !in s.inUse
    ensures Holders(s.pcs, o) == {}
  {
    forall c | c in s.pcs ensures c !in Holders(s.pcs, o) {
      assert CallOk(s, s.pcs[c]);
    }
  }

  lemma NextPlaced(s: State, c: Call, step: Step)
    requires Inv(s) && Enabled(s, c, step)
    ensures Placed(Next(s, c, step))
  {
    assert CallOk(s, s.pcs[c]);
  }

  lemma NextCallsOk(s: State, c: Call, step: Step)
    requires Inv(s) && Enabled(s, c, step)
    ensures CallsOk(Next(s, c, step))
  {
    var s' := Next(s, c, step);
    forall d | d in s'.pcs ensures CallOk(s', s'.pcs[d]) {
      assert CallOk(s, s.pcs[d]);
    }
  }

  lemma NextObjOk(s: State, c: Call, step: Step, o: Obj)
    requires Inv(s) && Enabled(s, c, step) && o in Next(s, c, step).inUse
    ensures ObjOk(Next(s, c, step), o)
  {
    assert CallOk(s, s.pcs[c]);
    if o in s.inUse { assert ObjOk(s, o); } else { NoHolders(s, o); }
    var pc := NextPc(s, c, step);
    var before, after := s.pcs[c].Holding? && s.pcs[c].obj == o, pc.Holding? && pc.obj == o;
    if before == after {
      HoldersSame(s.pcs, c, pc, o);
    } else if after {
      HoldersGain(s.pcs, c, pc, o);
    } else {
      HoldersLose(s.pcs, c, pc, o);
    }
    NextWhere(s, c, step, o);
  }

  // The objects in the table change only where a Stop removes or a Start inserts one.
  lemma NextWhere(s: State, c: Call, step: Step, o: Obj)
    requires Placed(s) && Enabled(s, c, step)
    ensures
      var gone := (Removes(s, c, step) || Replaces(s, c, step)) && o == s.table[s.pcs[c].id];
      o in Next(s, c, step).table.Values <==> (o in s.table.Values && !gone) || (step.InsertSection? && o == step.obj)
  {
    var t, t' := s.table, Next(s, c, step).table;
    if o in t.Values {
      var i :| i in t && t[i] == o;
      assert (i in t' && t'[i] == o) || Removes(s, c, step) || Replaces(s, c, step);
    }
    if o in t'.Values {
      var i :| i in t' && t'[i] == o;
    }
    if step.InsertSection? {
      assert s.pcs[c].id in t' && t'[s.pcs[c].id] == step.obj;
    }
  }

  lemma NextInv(s: State, c: Call, step: Step)
    requires Inv(s) && Enabled(s, c, step)
    ensures Inv(Next(s, c, step))
  {
    NextPlaced(s, c, step);
    NextCallsOk(s, c, step);
    forall o | o in Next(s, c, step).inUse ensures ObjOk(Next(s, c, step), o) {
      NextObjOk(s, c, step, o);
    }
  }

  /******* Runs *******/

  datatype Event = Event(call: Call, step: Step)

  predicate CanRun(s: State, run: seq<Event>)
    decreases |run|
  {
    run == [] || (Enabled(s, run[0].call, run[0].step) && CanRun(Next(s, run[0].call, run[0].step), run[1..]))
  }

  function After(s: State, run: seq<Event>): State
    requires CanRun(s, run)
    decreases |run|
  {
    if run == [] then s else After(Next(s, run[0].call, run[0].step), run[1..])
  }

  lemma {:induction false} RunKeepsInv(s: State, run: seq<Event>)
    requires Inv(s) && CanRun(s, run)
    ensures Inv(After(s, run))
    decreases |run|
  {
    if run != [] {
      NextInv(s, run[0].call, run[0].step);
      RunKeepsInv(Next(s, run[0].call, run[0].step), run[1..]);
    }
  }

  ghost predicate Reachable(s: State) {
    exists s0, run :: Initial(s0) && CanRun(s0, run) && After(s0, run) == s
  }

  lemma ReachableInv(s: State)
    requires Reachable(s)
    ensures Inv(s)
  {
    var s0, run :| Initial(s0) && CanRun(s0, run) && After(s0, run) == s;
    InitialInv(s0);
    RunKeepsInv(s0, run);
  }

  // Every object's counter is the number of calls that hold it, so the guard in releaseProcess never
  // skips a decrement.
  lemma CounterCountsHolders(s: State)
    requires Reachable(s)
    ensures forall o :: o in s.inUse ==> s.inUse[o] == |Holders(s.pcs, o)|
    ensures forall c :: c in s.pcs && s.pcs[c].Holding? ==> s.pcs[c].obj in s.inUse && s.inUse[s.pcs[c].obj] > 0
  {
    ReachableInv(s);
    forall o | o in s.inUse ensures s.inUse[o] == |Holders(s.pcs, o)| { assert ObjOk(s, o); }
    forall c | c in s.pcs && s.pcs[c].Holding? ensures s.pcs[c].obj in s.inUse && s.inUse[s.pcs[c].obj] > 0 {
      assert CallOk(s, s.pcs[c]) && ObjOk(s, s.pcs[c].obj) && c in Holders(s.pcs, s.pcs[c].obj);
    }
  }

  // Stop kills only processes that no call holds.
  lemma KilledUnheld(s: State, c: Call)
    requires Reachable(s) && c in s.pcs
    ensures s.pcs[c].Killing? ==> Holders(s.pcs, s.pcs[c].obj) == {}
    ensures s.pcs[c].Holding? ==> s.pcs[c].obj !in s.removed && s.pcs[c].obj !in s.killed
  {
    ReachableInv(s);
    CounterCountsHolders(s);
    assert CallOk(s, s.pcs[c]);
    if s.pcs[c].Killing? || s.pcs[c].Holding? {
      assert ObjOk(s, s.pcs[c].obj);
    }
  }

  // A Stop takes the process of its server out of the table if and only if no call holds it, and goes on
  // to kill that process.
  lemma StopRemovesExactlyWhenUnheld(s: State, c: Call, id: Id)
    requires Reachable(s) && c in s.pcs && s.pcs[c] == Stopping(id) && id in s.table
    ensures
      var s' := Next(s, c, StopSection);
      && (id !in s'.table <==> Holders(s.pcs, s.table[id]) == {})
      && (id !in s'.table ==> s'.pcs[c] == Killing(id, s.table[id])) && (id in s'.table ==> s'.pcs[c] == Idle)
      && forall j :: j != id ==> (j in s'.table <==> j in s.table) && (j in s.table ==> s'.table[j] == s.table[j])
  {
    ReachableInv(s);
    assert s.table[id] in s.table.Values;
    assert ObjOk(s, s.table[id]);
  }

  // What a Stop took out of the table is killed, or its call is about to kill it.
  ghost predicate KillFollows(s: State) {
    forall o :: o in s.removed ==> o in s.killed || exists c :: c in s.pcs && s.pcs[c].Killing? && s.pcs[c].obj == o
  }

  lemma KillFollowsStep(s: State, e: Event)
    requires KillFollows(s) && Enabled(s, e.call, e.step)
    ensures KillFollows(Next(s, e.call, e.step))
  {
    var s' := Next(s, e.call, e.step);
    forall o | o in s'.removed ensures o in s'.killed || exists c :: c in s'.pcs && s'.pcs[c].Killing? && s'.pcs[c].obj == o {
      if o in s.removed && o !in s.killed {
        var c :| c in s.pcs && s.pcs[c].Killing? && s.pcs[c].obj == o;
        assert c in s'.pcs && (s'.pcs[c] == s.pcs[c] || o in s'.killed);
      } else if o !in s.removed {
        assert e.call in s'.pcs && s'.pcs[e.call] == Killing(s.pcs[e.call].id, o);
      }
    }
  }

  lemma {:induction false} RemovedIsKilled(s: State, run: seq<Event>)
    requires KillFollows(s) && CanRun(s, run)
    ensures KillFollows(After(s, run))
    decreases |run|
  {
    if run != [] {
      KillFollowsStep(s, run[0]);
      RemovedIsKilled(Next(s, run[0].call, run[0].step), run[1..]);
    }
  }

  // An invocation that may start its server comes to hold a process of it by itself; one that may not
  // returns without one.
  lemma OnDemandInvocationHolds(s: State, c: Call, id: Id, o: Obj)
    requires c in s.pcs && s.pcs[c].Idle? && id !in s.table && o !in s.inUse
    ensures
      var run := [Event(c, CallInvoke(id, true))] + [Event(c, StartSection)] + [Event(c, InsertSection(o))] + [Event(c, AcquireSection)];
      && CanRun(s, run) && c in After(s, run).pcs && After(s, run).pcs[c] == Holding(id, o)
      && id in After(s, run).table && After(s, run).table[id] == o
    ensures Next(s, c, CallInvoke(id, false)).pcs[c] == Idle && Next(s, c, CallInvoke(id, false)).table == s.table
  {
    var a, b, d, e := Event(c, CallInvoke(id, true)), Event(c, StartSection), Event(c, InsertSection(o)), Event(c, AcquireSection);
    assert CanRun(s, []);
    RunAppend(s, [], a);
    assert [] + [a] == [a];
    RunAppend(s, [a], b);
    RunAppend(s, [a] + [b], d);
    RunAppend(s, [a] + [b] + [d], e);
  }

  // Once Stop has taken a process out of the table, no call acquires it for the rest of the run.
  lemma {:induction false} RemovedForGood(s: State, run: seq<Event>, o: Obj)
    requires Reachable(s) && CanRun(s, run) && o in s.removed
    ensures
      var s' := After(s, run);
      o in s'.removed && o !in s'.table.Values && Holders(s'.pcs, o) == {}
    decreases |run|
  {
    if run == [] {
      ReachableInv(s);
      assert ObjOk(s, o);
    } else {
      ReachableNext(s, run[0]);
      RemovedForGood(Next(s, run[0].call, run[0].step), run[1..], o);
    }
  }

  lemma ReachableNext(s: State, e: Event)
    requires Reachable(s) && Enabled(s, e.call, e.step)
    ensures Reachable(Next(s, e.call, e.step))
  {
    var s0, run :| Initial(s0) && CanRun(s0, run) && After(s0, run) == s;
    RunAppend(s0, run, e);
    assert CanRun(s0, run + [e]) && After(s0, run + [e]) == Next(s, e.call, e.step);
  }

  lemma {:induction false} RunAppend(s: State, run: seq<Event>, e: Event)
    requires CanRun(s, run) && Enabled(After(s, run), e.call, e.step)
    ensures CanRun(s, run + [e]) && After(s, run + [e]) == Next(After(s, run), e.call, e.step)
    decreases |run|
  {
    if run == [] {
      assert run + [e] == [e] && [e][1..] == [];
      assert CanRun(Next(s, e.call, e.step), []);
    } else {
      assert (run + [e])[1..] == run[1..] + [e] && (run + [e])[0] == run[0];
      RunAppend(Next(s, run[0].call, run[0].step), run[1..], e);
    }
  }

  /******* Lost processes *******/

  // Every process ever started is in the table, was taken out by a Stop, or was replaced by a Start.
  lemma EveryProcessAccounted(s: State, o: Obj)
    requires Reachable(s) && o in s.inUse
    ensures o in s.table.Values || o in s.removed || o in s.orphans
    ensures o in s.orphans ==> o !in s.table.Values && o !in s.killed
  {
    ReachableInv(s);
    assert ObjOk(s, o);
  }

  // Every started process can still be found: it is in the table or was taken out by a Stop.
  ghost predicate NoneLost(s: State) { forall o :: o in s.inUse ==> o in s.table.Values || o in s.removed }

  lemma NoneLostMeansNoOrphans(s: State)
    requires Inv(s)
    ensures NoneLost(s) <==> s.orphans == {}
  {
    if NoneLost(s) {
      forall o ensures o !in s.orphans {
        assert o in s.inUse ==> ObjOk(s, o);
      }
    } else {
      var o :| o in s.inUse && !(o in s.table.Values || o in s.removed);
      assert ObjOk(s, o);
    }
  }

  // A step of a call that is already in progress.
  predicate Continues(step: Step) { !step.CallStart? && !step.CallStop? && !step.CallInvoke? }

  ghost predicate InProgress(run: seq<Event>) { forall i :: 0 <= i < |run| ==> Continues(run[i].step) }

  // The calls in progress can go on in such a way that a process is lost.
  ghost predicate CanLose(s: State) {
    exists run :: CanRun(s, run) && InProgress(run) && !NoneLost(After(s, run))
  }

  predicate StartsServer(pc: Pc, id: Id) { (pc.Starting? || pc.Spawning?) && pc.id == id }

  ghost predicate BeingStopped(s: State, id: Id) { exists e :: e in s.pcs && s.pcs[e] == Stopping(id) }

  // The call is spawning a process for the server, or will, because there is none or one about to go.
  ghost predicate CanSpawn(s: State, c: Call, id: Id) {
    && c in s.pcs && StartsServer(s.pcs[c], id)
    && (s.pcs[c].Starting? ==> id !in s.table || BeingStopped(s, id))
  }

  ghost predicate LateSpawn(s: State, c: Call) { c in s.pcs && s.pcs[c].Spawning? && s.pcs[c].id in s.table }

  ghost predicate Overlap(s: State, c: Call, d: Call, id: Id) { c != d && CanSpawn(s, c, id) && CanSpawn(s, d, id) }

  // Some call is spawning for a server that has a process, or two calls can both spawn for one server.
  ghost predicate AtRisk(s: State) {
    (exists c :: LateSpawn(s, c)) || (exists c, d, id :: Overlap(s, c, d, id))
  }

  /******* Without overlapping starts nothing is lost *******/

  lemma SafeNotLate(s: State, c: Call, step: Step, d: Call)
    requires !AtRisk(s) && Enabled(s, c, step) && Continues(step)
    ensures !LateSpawn(Next(s, c, step), d)
  {
    assert !LateSpawn(s, c) && !LateSpawn(s, d);
    if step.InsertSection? && d != c && d in s.pcs && s.pcs[d].Spawning? && s.pcs[d].id == s.pcs[c].id {
      assert Overlap(s, c, d, s.pcs[c].id);
    }
  }

  // A call that can spawn after a step could do so before it.
  lemma SpawnedBefore(s: State, c: Call, step: Step, d: Call, id: Id)
    requires !AtRisk(s) && Enabled(s, c, step) && Continues(step) && CanSpawn(Next(s, c, step), d, id)
    ensures CanSpawn(s, d, id)
  {
    var s' := Next(s, c, step);
    assert !LateSpawn(s, c);
    if BeingStopped(s', id) {
      var e :| e in s'.pcs && s'.pcs[e] == Stopping(id);
      assert s.pcs[e] == Stopping(id);
    }
    if step.StopSection? && s.pcs[c].id == id {
      assert s.pcs[c] == Stopping(id);
    }
  }

  lemma SafeStep(s: State, c: Call, step: Step)
    requires Inv(s) && !AtRisk(s) && Enabled(s, c, step) && Continues(step)
    ensures !AtRisk(Next(s, c, step)) && Next(s, c, step).orphans == s.orphans
  {
    var s' := Next(s, c, step);
    assert !LateSpawn(s, c);
    forall d ensures !LateSpawn(s', d) {
      SafeNotLate(s, c, step, d);
    }
    forall x, y, id ensures !Overlap(s', x, y, id) {
      if Overlap(s', x, y, id) {
        SpawnedBefore(s, c, step, x, id);
        SpawnedBefore(s, c, step, y, id);
      }
      assert !Overlap(s, x, y, id);
    }
  }

  lemma {:induction false} SafeRun(s: State, run: seq<Event>)
    requires Inv(s) && !AtRisk(s) && s.orphans == {} && CanRun(s, run) && InProgress(run)
    ensures NoneLost(After(s, run))
    decreases |run|
  {
    if run == [] {
      NoneLostMeansNoOrphans(s);
    } else {
      assert Continues(run[0].step) && forall i :: 0 <= i < |run[1..]| ==> run[1..][i] == run[i + 1];
      SafeStep(s, run[0].call, run[0].step);
      NextInv(s, run[0].call, run[0].step);
      SafeRun(Next(s, run[0].call, run[0].step), run[1..]);
    }
  }

  /******* Overlapping starts can lose one *******/

  lemma LosesAfter(s: State, c: Call, step: Step)
    requires Enabled(s, c, step) && Continues(step) && CanLose(Next(s, c, step))
    ensures CanLose(s)
  {
    var s1 := Next(s, c, step);
    var rest :| CanRun(s1, rest) && InProgress(rest) && !NoneLost(After(s1, rest));
    var run := [Event(c, step)] + rest;
    assert run[0] == Event(c, step) && run[1..] == rest;
    assert CanRun(s, run) && After(s, run) == After(s1, rest);
  }

  lemma {:induction false} FreshObj(objs: set<Obj>) returns (o: Obj)
    ensures forall x :: x in objs ==> x < o
  {
    if objs == {} {
      o := 0;
    } else {
      var y :| y in objs;
      var p := FreshObj(objs - {y});
      o := if p <= y then y + 1 else p;
      forall x | x in objs ensures x < o {
        assert x == y || x in objs - {y};
      }
    }
  }

  lemma LateLoses(s: State, c: Call)
    requires Inv(s) && LateSpawn(s, c)
    ensures CanLose(s)
  {
    var o := FreshObj(s.inUse.Keys);
    assert o !in s.inUse;
    var s1 := Next(s, c, InsertSection(o));
    NextInv(s, c, InsertSection(o));
    assert s.table[s.pcs[c].id] in s1.orphans;
    NoneLostMeansNoOrphans(s1);
    assert CanRun(s1, []) && InProgress([]) && After(s1, []) == s1;
    LosesAfter(s, c, InsertSection(o));
  }

  // With no process in the table, two calls that start the server both come to spawn.
  lemma {:induction false} BothLose(s: State, c: Call, d: Call, id: Id)
    requires Inv(s) && c != d && c in s.pcs && d in s.pcs && id !in s.table
    requires StartsServer(s.pcs[c], id) && StartsServer(s.pcs[d], id)
    ensures CanLose(s)
    decreases (if s.pcs[c].Starting? then 1 else 0) + (if s.pcs[d].Starting? then 1 else 0)
  {
    var x := if s.pcs[c].Starting? then c else d;
    if s.pcs[x].Starting? {
      NextInv(s, x, StartSection);
      BothLose(Next(s, x, StartSection), c, d, id);
      LosesAfter(s, x, StartSection);
    } else {
      var o := FreshObj(s.inUse.Keys);
      NextInv(s, c, InsertSection(o));
      LateLoses(Next(s, c, InsertSection(o)), d);
      LosesAfter(s, c, InsertSection(o));
    }
  }

  // A Stop in progress removes the process once its holders have released it.
  lemma {:induction false} StopThenBothLose(s: State, c: Call, d: Call, e: Call, id: Id)
    requires Inv(s) && c != d && c in s.pcs && d in s.pcs && e in s.pcs && id in s.table
    requires s.pcs[c].Starting? && s.pcs[c].id == id && s.pcs[d].Starting? && s.pcs[d].id == id && s.pcs[e] == Stopping(id)
    ensures CanLose(s)
    decreases |Holders(s.pcs, s.table[id])|
  {
    var o := s.table[id];
    assert o in s.inUse && ObjOk(s, o);
    if Busy(s, id) {
      assert Holders(s.pcs, o) != {};
      var h :| h in Holders(s.pcs, o);
      NextInv(s, h, ReleaseSection);
      HoldersLose(s.pcs, h, Idle, o);
      StopThenBothLose(Next(s, h, ReleaseSection), c, d, e, id);
      LosesAfter(s, h, ReleaseSection);
    } else {
      NextInv(s, e, StopSection);
      BothLose(Next(s, e, StopSection), c, d, id);
      LosesAfter(s, e, StopSection);
    }
  }

  lemma OverlapLoses(s: State, c: Call, d: Call, id: Id)
    requires Inv(s) && Overlap(s, c, d, id)
    ensures CanLose(s)
  {
    if id !in s.table {
      BothLose(s, c, d, id);
    } else if s.pcs[c].Spawning? {
      LateLoses(s, c);
    } else if s.pcs[d].Spawning? {
      LateLoses(s, d);
    } else {
      var e :| e in s.pcs && s.pcs[e] == Stopping(id);
      StopThenBothLose(s, c, d, e, id);
    }
  }

  // The calls in progress can lose a process if and only if one of them is spawning for a server that
  // has a process already or two of them can still both spawn for the same server.
  lemma LosesExactlyWhenOverlapping(s: State)
    requires Reachable(s) && NoneLost(s)
    ensures CanLose(s) <==> AtRisk(s)
  {
    ReachableInv(s);
    NoneLostMeansNoOrphans(s);
    if AtRisk(s) {
      if c :| LateSpawn(s, c) {
        LateLoses(s, c);
      } else {
        var c, d, id :| Overlap(s, c, d, id);
        OverlapLoses(s, c, d, id);
      }
    } else {
      forall run | CanRun(s, run) && InProgress(run) ensures NoneLost(After(s, run)) {
        SafeRun(s, run);
      }
    }
  }

  /******* A discipline for callers *******/

  // No other call is starting the server.
  ghost predicate Alone(s: State, id: Id) { forall c :: c in s.pcs ==> !StartsServer(s.pcs[c], id) }

  // Calls that may start a server are made only while no other call is starting it.
  ghost predicate Serial(s: State, run: seq<Event>)
    requires CanRun(s, run)
    decreases |run|
  {
    run == [] ||
    (&& (run[0].step.CallStart? || (run[0].step.CallInvoke? && run[0].step.onDemand) ==> Alone(s, run[0].step.id))
     && Serial(Next(s, run[0].call, run[0].step), run[1..]))
  }

  ghost predicate OneStarter(s: State) {
    && (forall c :: !LateSpawn(s, c))
    && (forall c, d, id :: c in s.pcs && d in s.pcs && StartsServer(s.pcs[c], id) && StartsServer(s.pcs[d], id) ==> c == d)
  }

  lemma SerialStep(s: State, c: Call, step: Step)
    requires OneStarter(s) && Enabled(s, c, step)
    requires step.CallStart? || (step.CallInvoke? && step.onDemand) ==> Alone(s, step.id)
    ensures OneStarter(Next(s, c, step)) && Next(s, c, step).orphans == s.orphans
  {
    var s' := Next(s, c, step);
    assert !LateSpawn(s, c);
    forall d ensures !LateSpawn(s', d) {
      assert !LateSpawn(s, d);
      if step.InsertSection? && d in s.pcs && StartsServer(s.pcs[d], s.pcs[c].id) {
        assert StartsServer(s.pcs[c], s.pcs[c].id);
      }
    }
    forall x, y, id | x in s'.pcs && y in s'.pcs && StartsServer(s'.pcs[x], id) && StartsServer(s'.pcs[y], id) ensures x == y {
      assert x != c ==> s'.pcs[x] == s.pcs[x];
      assert y != c ==> s'.pcs[y] == s.pcs[y];
    }
  }

  // If calls that may start a server are never made while another one is starting it, no run loses a
  // process.
  lemma SerialRunLosesNothing(s: State, run: seq<Event>)
    requires Initial(s) && CanRun(s, run) && Serial(s, run)
    ensures NoneLost(After(s, run))
  {
    InitialInv(s);
    SerialRunGoesOn(s, run);
  }

  lemma {:induction false} SerialRunGoesOn(s: State, run: seq<Event>)
    requires Inv(s) && OneStarter(s) && s.orphans == {} && CanRun(s, run) && Serial(s, run)
    ensures NoneLost(After(s, run))
    decreases |run|
  {
    if run == [] {
      NoneLostMeansNoOrphans(s);
    } else {
      SerialStep(s, run[0].call, run[0].step);
      NextInv(s, run[0].call, run[0].step);
      SerialRunGoesOn(Next(s, run[0].call, run[0].step), run[1..]);
    }
  }

  // Two Starts of one server may both find no process and both begin to spawn one.
  lemma BothSpawn(a: Call, b: Call, id: Id)
    requires a != b
    ensures
      var s0 := State(map[], map[], map[a := Idle, b := Idle], {}, {}, {});
      var run := [Event(a, CallStart(id)), Event(b, CallStart(id)), Event(a, StartSection), Event(b, StartSection)];
      && Initial(s0) && CanRun(s0, run)
      && After(s0, run) == State(map[], map[], map[a := Spawning(id, false), b := Spawning(id, false)], {}, {}, {})
  {
    var s0 := State(map[], map[], map[a := Idle, b := Idle], {}, {}, {});
    var e1, e2 := Event(a, CallStart(id)), Event(b, CallStart(id));
    var e3, e4 := Event(a, StartSection), Event(b, StartSection);
    assert CanRun(s0, []);
    RunAppend(s0, [], e1);
    RunAppend(s0, [] + [e1], e2);
    RunAppend(s0, [] + [e1] + [e2], e3);
    RunAppend(s0, [] + [e1] + [e2] + [e3], e4);
    assert [] + [e1] + [e2] + [e3] + [e4] == [e1, e2, e3, e4];
  }

  // Then both insert theirs, and the first is lost.
  lemma ConcurrentStartsLoseOne(a: Call, b: Call, id: Id, p: Obj, q: Obj)
    requires a != b && p != q
    ensures
      var s0 := State(map[], map[], map[a := Idle, b := Idle], {}, {}, {});
      var run := [Event(a, CallStart(id)), Event(b, CallStart(id)), Event(a, StartSection), Event(b, StartSection)]
                 + [Event(a, InsertSection(p))] + [Event(b, InsertSection(q))];
      && Initial(s0) && CanRun(s0, run)
      && After(s0, run).table == map[id := q] && After(s0, run).orphans == {p} && p !in After(s0, run).killed
  {
    var s0 := State(map[], map[], map[a := Idle, b := Idle], {}, {}, {});
    var run := [Event(a, CallStart(id)), Event(b, CallStart(id)), Event(a, StartSection), Event(b, StartSection)];
    BothSpawn(a, b, id);
    RunAppend(s0, run, Event(a, InsertSection(p)));
    RunAppend(s0, run + [Event(a, InsertSection(p))], Event(b, InsertSection(q)));
  }
}
