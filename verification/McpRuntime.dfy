/**
 The MCP server lifecycle of core/plugins/mcp_runtime_control.go and core/plugins/mcp_registry.go, one
 operation at a time, for servers that run a process.

 The code keeps a server's situation in four places: the registry's state, its active flag, its enabled
 flag and the runtime's process table.  The methods of MCPRuntime update them one by one as the code
 does and are proved against a model in which a server is simply off or on with a number of calls in
 progress; Valid says that the four places never disagree.
 */
module McpRuntime {
  import opened Common

  type Id = nat
  const NO_ID: Id := 0

  type Time = int
  const ZERO_TIME: Time := 0

  datatype ProcessState = Stopped | Starting | Active | Idle | StoppedAuto
  datatype Entry = Entry(state: ProcessState, lastUsed: Time, active: bool, enabled: bool)

  datatype Error = InvalidSpec | NotFound | Registered | Disabled | SpawnFailed | ServerBusy | ExplicitStartRequired
  datatype Outcome = Ok | Err(error: Error)

  /******* The model *******/

  datatype Mode = Off(auto: bool) | On(inUse: nat)
  datatype Server = Server(mode: Mode, enabled: bool, lastUsed: Time)
  type View = map<Id, Server>

  ghost predicate WellFormed(v: View) {
    forall id :: id in v && v[id].mode.On? ==> v[id].enabled
  }

  function Register(v: View, id: Id): (View, Outcome) {
    if id == NO_ID then (v, Err(InvalidSpec))
    else if id in v then (v, Err(Registered))
    else (v[id := Server(Off(false), true, ZERO_TIME)], Ok)
  }

  function Start(v: View, id: Id, spawned: bool, now: Time): (View, Outcome) {
    if id == NO_ID then (v, Err(InvalidSpec))
    else if id !in v then (v, Err(NotFound))
    else if !v[id].enabled then (v, Err(Disabled))
    else if v[id].mode.On? then (v[id := v[id].(lastUsed := now)], Ok)
    else if spawned then (v[id := v[id].(mode := On(0), lastUsed := now)], Ok)
    else (v[id := v[id].(mode := Off(false))], Err(SpawnFailed))
  }

  function Stop(v: View, id: Id, auto: bool, now: Time): (View, Outcome) {
    if id == NO_ID then (v, Err(InvalidSpec))
    else if id !in v then (v, Err(NotFound))
    else match v[id].mode
         case On(n) =>
           if n > 0 then (v, Err(ServerBusy)) else (v[id := v[id].(mode := Off(auto), lastUsed := now)], Ok)
         case Off(_) => (v[id := v[id].(mode := Off(auto))], Ok)
  }

  function SetEnabled(v: View, id: Id, enabled: bool, now: Time): (View, Outcome) {
    if id == NO_ID then (v, Err(InvalidSpec))
    else if id !in v then (v, Err(NotFound))
    else if enabled then (v[id := v[id].(enabled := true)], Ok)
    else if v[id].mode.On? && v[id].mode.inUse > 0 then (v, Err(ServerBusy))
    else (v[id := Server(Off(false), false, if v[id].mode.On? then now else v[id].lastUsed)], Ok)
  }

  function Restart(v: View, id: Id, spawned: bool, stopAt: Time, now: Time): (View, Outcome) {
    if id == NO_ID then (v, Err(InvalidSpec))
    else if id !in v then (v, Err(NotFound))
    else if !v[id].enabled then (v, Err(Disabled))
    else if v[id].mode.On? && v[id].mode.inUse > 0 then (v, Err(ServerBusy))
    else Start(Stop(v, id, false, stopAt).0, id, spawned, now)
  }

  // An invocation up to the point where it holds the process.
  function BeginInvoke(v: View, id: Id, onDemand: bool, spawned: bool, now: Time): (View, Outcome) {
    if id == NO_ID then (v, Err(InvalidSpec))
    else if id !in v then (v, Err(NotFound))
    else if !v[id].enabled then (v, Err(Disabled))
    else if v[id].mode.On? then (v[id := v[id].(mode := On(v[id].mode.inUse + 1), lastUsed := now)], Ok)
    else if !onDemand then (v, Err(ExplicitStartRequired))
    else if !spawned then (v[id := v[id].(mode := Off(false))], Err(SpawnFailed))
    else (v[id := v[id].(mode := On(1), lastUsed := now)], Ok)
  }

  // The end of an invocation that holds the process.
  function EndInvoke(v: View, id: Id, now: Time): View
    requires id in v && v[id].mode.On? && v[id].mode.inUse > 0
  {
    var n := v[id].mode.inUse - 1;
    v[id := v[id].(mode := On(n), lastUsed := if n == 0 then now else v[id].lastUsed)]
  }

  predicate Expired(s: Server, ttl: Time, now: Time) {
    s.mode == On(0) && s.lastUsed != ZERO_TIME && now - s.lastUsed >= ttl
  }

  // The sweep stops exactly the idle servers that have been used and not for at least the TTL.
  function Sweep(v: View, ttl: Time, now: Time, clock: Id -> Time): View {
    if ttl <= 0 then v
    else map id | id in v :: if Expired(v[id], ttl, now) then v[id].(mode := Off(true), lastUsed := clock(id)) else v[id]
  }

  /******* The four places *******/

  function StateOf(m: Mode): ProcessState {
    match m
    case Off(auto) => if auto then StoppedAuto else Stopped
    case On(n) => if n > 0 then Active else Idle
  }

  function EntryOf(s: Server): Entry { Entry(StateOf(s.mode), s.lastUsed, s.mode.On?, s.enabled) }

  function ProcessOf(s: Server): Option<nat> { if s.mode.On? then Some(s.mode.inUse) else None }

  // Entry and process table say the same about a server.
  predicate Agree(e: Entry, p: Option<nat>) {
    && (p.Some? <==> e.active) && (p.Some? <==> e.state in {Idle, Active})
    && (e.state == Active <==> p.Some? && p.value > 0)
    && e.state != Starting && (e.active ==> e.enabled)
  }

  function ServerOf(e: Entry, p: Option<nat>): Server {
    Server(if p.Some? then On(p.value) else Off(e.state == StoppedAuto), e.enabled, e.lastUsed)
  }

  // The model and the four places determine each other.
  lemma ViewRoundTrip(e: Entry, p: Option<nat>, s: Server)
    ensures Agree(e, p) ==> EntryOf(ServerOf(e, p)) == e && ProcessOf(ServerOf(e, p)) == p
    ensures ServerOf(EntryOf(s), ProcessOf(s)) == s
    ensures (s.mode.On? ==> s.enabled) ==> Agree(EntryOf(s), ProcessOf(s))
  {
  }

  function ViewOf(servers: map<Id, Entry>, process: map<Id, nat>): View {
    map id | id in servers :: ServerOf(servers[id], Get(process, id))
  }

  ghost predicate Consistent(servers: map<Id, Entry>, process: map<Id, nat>) {
    && process.Keys <= servers.Keys && NO_ID !in servers
    && forall id :: id in servers ==> Agree(servers[id], Get(process, id))
  }

  ghost predicate OnlyChanges(ss: map<Id, Entry>, ps: map<Id, nat>, ss': map<Id, Entry>, ps': map<Id, nat>, id: Id) {
    forall j :: j != id ==> Get(ss', j) == Get(ss, j) && Get(ps', j) == Get(ps, j)
  }

  lemma StaysConsistent(ss: map<Id, Entry>, ps: map<Id, nat>, ss': map<Id, Entry>, ps': map<Id, nat>, id: Id)
    requires Consistent(ss, ps) && id != NO_ID && id in ss' && Agree(ss'[id], Get(ps', id))
    requires OnlyChanges(ss, ps, ss', ps', id)
    ensures Consistent(ss', ps')
  {
    forall j | j in ss' ensures j != NO_ID && Agree(ss'[j], Get(ps', j)) {
      assert j != id ==> Get(ss', j) == Get(ss, j);
    }
    forall j | j in ps' ensures j in ss' {
      assert j != id ==> Get(ps', j) == Get(ps, j) && Get(ss', j) == Get(ss, j);
    }
  }

  lemma ViewChanges(ss: map<Id, Entry>, ps: map<Id, nat>, ss': map<Id, Entry>, ps': map<Id, nat>, id: Id)
    requires id in ss' && OnlyChanges(ss, ps, ss', ps', id)
    ensures ViewOf(ss', ps') == ViewOf(ss, ps)[id := ServerOf(ss'[id], Get(ps', id))]
  {
    var v, v' := ViewOf(ss, ps), ViewOf(ss', ps');
    forall j ensures j in v' <==> j == id || j in v {
      assert j != id ==> Get(ss', j) == Get(ss, j);
    }
    forall j | j in v' && j != id ensures v'[j] == v[j] {
      assert Get(ss', j) == Get(ss, j);
    }
  }

  // A change to one server.
  lemma ViewUpdate(ss: map<Id, Entry>, ps: map<Id, nat>, ss': map<Id, Entry>, ps': map<Id, nat>, id: Id)
    requires Consistent(ss, ps) && id != NO_ID && id in ss' && Agree(ss'[id], Get(ps', id))
    requires OnlyChanges(ss, ps, ss', ps', id)
    ensures Consistent(ss', ps')
    ensures ViewOf(ss', ps') == ViewOf(ss, ps)[id := ServerOf(ss'[id], Get(ps', id))]
  {
    StaysConsistent(ss, ps, ss', ps', id);
    ViewChanges(ss, ps, ss', ps', id);
  }

  predicate LooksExpired(e: Entry, ttl: Time, now: Time) {
    e.state == Idle && e.lastUsed != ZERO_TIME && now - e.lastUsed >= ttl
  }

  // The registry's entry is enough to tell an expired server.
  lemma ListedExpired(servers: map<Id, Entry>, process: map<Id, nat>, id: Id, ttl: Time, now: Time)
    requires Consistent(servers, process) && id in servers
    ensures Expired(ViewOf(servers, process)[id], ttl, now) <==> LooksExpired(servers[id], ttl, now)
  {
    assert Agree(servers[id], Get(process, id));
  }

  lemma WriteTwice(v: View, id: Id, a: Server, b: Server)
    ensures v[id := a][id := b] == v[id := b]
  {
  }

  class MCPRuntime {
    var servers: map<Id, Entry>
    var process: map<Id, nat>
    const idleTTL: Time

    ghost predicate Valid()
      reads this
    {
      Consistent(servers, process)
    }

    ghost function V(): View
      reads this
    {
      ViewOf(servers, process)
    }

    constructor (idleTTL: Time)
      ensures Valid() && V() == map[] && this.idleTTL == idleTTL
    {
      servers, process := map[], map[];
      this.idleTTL := idleTTL;
    }

    method RegisterServer(id: Id) returns (r: Outcome)
      requires Valid()
      modifies this
      ensures Valid() && Register(old(V()), id) == (V(), r)
    {
      if id == NO_ID {
        return Err(InvalidSpec);
      }
      if id in servers {
        return Err(Registered);
      }
      servers := servers[id := Entry(Stopped, ZERO_TIME, false, true)];
      ViewUpdate(old(servers), old(process), servers, process, id);
      r := Ok;
    }

    method SetState(id: Id, state: ProcessState) returns (r: Outcome)
      modifies this`servers
      ensures r == if id in old(servers) then Ok else Err(NotFound)
      ensures servers == if r.Ok? then old(servers)[id := old(servers)[id].(state := state)] else old(servers)
    {
      if id !in servers {
        return Err(NotFound);
      }
      servers := servers[id := servers[id].(state := state)];
      r := Ok;
    }

    method SetActive(id: Id, active: bool) returns (r: Outcome)
      modifies this`servers
      ensures r == if id in old(servers) then Ok else Err(NotFound)
      ensures servers == if r.Ok? then old(servers)[id := old(servers)[id].(active := active)] else old(servers)
    {
      if id !in servers {
        return Err(NotFound);
      }
      servers := servers[id := servers[id].(active := active)];
      r := Ok;
    }

    method Touch(id: Id, at: Time) returns (r: Outcome)
      modifies this`servers
      ensures r == if id in old(servers) then Ok else Err(NotFound)
      ensures servers == if r.Ok? then old(servers)[id := old(servers)[id].(lastUsed := at)] else old(servers)
    {
      if id !in servers {
        return Err(NotFound);
      }
      servers := servers[id := servers[id].(lastUsed := at)];
      r := Ok;
    }

    method StartServer(id: Id, spawned: bool, now: Time) returns (r: Outcome)
      requires Valid()
      modifies this
      ensures Valid() && Start(old(V()), id, spawned, now) == (V(), r)
    {
      if id == NO_ID {
        return Err(InvalidSpec);
      }
      if id !in servers {
        return Err(NotFound);
      }
      if !servers[id].enabled {
        return Err(Disabled);
      }
      if id in process {
        if process[id] > 0 {
          var _ := SetState(id, Active);
        } else {
          var _ := SetState(id, Idle);
        }
        var _ := SetActive(id, true);
        var _ := Touch(id, now);
        ViewUpdate(old(servers), old(process), servers, process, id);
        return Ok;
      }
      var _ := SetState(id, Starting);
      var _ := SetActive(id, true);
      if !spawned {
        var _ := SetState(id, Stopped);
        var _ := SetActive(id, false);
        ViewUpdate(old(servers), old(process), servers, process, id);
        return Err(SpawnFailed);
      }
      process := process[id := 0];
      var _ := SetState(id, Idle);
      var _ := SetActive(id, true);
      var _ := Touch(id, now);
      ViewUpdate(old(servers), old(process), servers, process, id);
      r := Ok;
    }

    method StopServer(id: Id, auto: bool, now: Time) returns (r: Outcome)
      requires Valid()
      modifies this
      ensures Valid() && Stop(old(V()), id, auto, now) == (V(), r)
    {
      if id == NO_ID {
        return Err(InvalidSpec);
      }
      var running := Get(process, id);
      if running.Some? && running.value > 0 {
        return Err(ServerBusy);
      }
      process := process - {id};
      var state := if auto then StoppedAuto else Stopped;
      if running.None? {
        assert process == old(process);
        r := SetState(id, state);
        if r.Err? {
          return;
        }
        r := SetActive(id, false);
        ViewUpdate(old(servers), old(process), servers, process, id);
        return;
      }
      r := SetState(id, state);
      if r.Ok? {
        r := SetActive(id, false);
      }
      if r.Ok? {
        r := Touch(id, now);
      }
      ViewUpdate(old(servers), old(process), servers, process, id);
    }

    method SetServerEnabled(id: Id, enabled: bool, now: Time) returns (r: Outcome)
      requires Valid()
      modifies this
      ensures Valid() && SetEnabled(old(V()), id, enabled, now) == (V(), r)
    {
      if id == NO_ID {
        return Err(InvalidSpec);
      }
      if !enabled {
        r := StopServer(id, false, now);
        if r.Err? && r.error != NotFound {
          return;
        }
      }
      ghost var v := V();
      r := WriteEnabled(id, enabled);
      if !enabled && r.Ok? {
        WriteTwice(old(V()), id, v[id], v[id].(enabled := false));
      }
    }

    // The registry half of SetEnabled; a server is off when it is disabled.
    method WriteEnabled(id: Id, enabled: bool) returns (r: Outcome)
      requires Valid() && id != NO_ID && (!enabled && id in V() ==> V()[id].mode.Off?)
      modifies this`servers
      ensures Valid() && r == if id in old(V()) then Ok else Err(NotFound)
      ensures V() == if r.Ok? then old(V())[id := old(V())[id].(enabled := enabled)] else old(V())
    {
      if id !in servers {
        return Err(NotFound);
      }
      assert V()[id] == ServerOf(servers[id], Get(process, id));
      servers := servers[id := servers[id].(enabled := enabled)];
      if !enabled {
        var _ := SetActive(id, false);
      }
      ViewUpdate(old(servers), process, servers, process, id);
      r := Ok;
    }

    method RestartServer(id: Id, spawned: bool, stopAt: Time, now: Time) returns (r: Outcome)
      requires Valid()
      modifies this
      ensures Valid() && Restart(old(V()), id, spawned, stopAt, now) == (V(), r)
    {
      if id == NO_ID {
        return Err(InvalidSpec);
      }
      if id !in servers {
        return Err(NotFound);
      }
      if !servers[id].enabled {
        return Err(Disabled);
      }
      r := StopServer(id, false, stopAt);
      if r.Err? && r.error != NotFound {
        return;
      }
      r := StartServer(id, spawned, now);
    }

    // Invoke up to acquireProcess.
    method BeginInvocation(id: Id, onDemand: bool, spawned: bool, startAt: Time, now: Time) returns (r: Outcome)
      requires Valid()
      modifies this
      ensures Valid() && BeginInvoke(old(V()), id, onDemand, spawned, now) == (V(), r)
    {
      if id == NO_ID {
        return Err(InvalidSpec);
      }
      if id !in servers {
        return Err(NotFound);
      }
      if !servers[id].enabled {
        return Err(Disabled);
      }
      if id !in process {
        if !onDemand {
          return Err(ExplicitStartRequired);
        }
        r := StartServer(id, spawned, startAt);
        if r.Err? {
          return;
        }
      }
      ghost var v := V();
      r := Acquire(id, now);
      if old(V())[id].mode.Off? {
        WriteTwice(old(V()), id, v[id], V()[id]);
      }
    }

    // The last steps of BeginInvocation: the server runs, so its process is always found.
    method Acquire(id: Id, now: Time) returns (r: Outcome)
      requires Valid() && id in V() && V()[id].mode.On?
      modifies this
      ensures Valid() && r == Ok
      ensures V() == old(V())[id := old(V())[id].(mode := On(old(V())[id].mode.inUse + 1), lastUsed := now)]
    {
      assert V()[id] == ServerOf(servers[id], Get(process, id));
      r := SetState(id, Active);
      r := Touch(id, now);
      if id !in process {
        assert false;
        return Err(ExplicitStartRequired);
      }
      process := process[id := process[id] + 1];
      ViewUpdate(old(servers), old(process), servers, process, id);
    }

    // releaseProcess, for a call that holds the process.
    method EndInvocation(id: Id, now: Time)
      requires Valid() && id in V() && V()[id].mode.On? && V()[id].mode.inUse > 0
      modifies this
      ensures Valid() && V() == EndInvoke(old(V()), id, now)
    {
      if process[id] > 0 {
        process := process[id := process[id] - 1];
      }
      if process[id] == 0 {
        var _ := SetState(id, Idle);
        var _ := Touch(id, now);
      }
      ViewUpdate(old(servers), old(process), servers, process, id);
    }

    // One turn of the sweep, for the listed entry of a server.
    method SweepOne(id: Id, e: Entry, now: Time, clock: Time)
      requires Valid()
      modifies this
      ensures Valid() && V() == if LooksExpired(e, idleTTL, now) then Stop(old(V()), id, true, clock).0 else old(V())
    {
      if e.state != Idle || e.lastUsed == ZERO_TIME {
        return;
      }
      if now - e.lastUsed < idleTTL {
        return;
      }
      var _ := StopServer(id, true, clock);
    }

    method SweepIdle(order: seq<Id>, now: Time, clock: Id -> Time)
      requires Valid() && Lists(order, servers.Keys)
      modifies this
      ensures Valid() && V() == Sweep(old(V()), idleTTL, now, clock)
    {
      if idleTTL <= 0 {
        return;
      }
      var listed := servers;
      ghost var v0 := V();
      for i := 0 to |order|
        invariant Valid() && V() == SweepUpTo(v0, idleTTL, now, clock, order, i)
      {
        ListedExpired(old(servers), old(process), order[i], idleTTL, now);
        SweepTurn(v0, idleTTL, now, clock, order, i);
        SweepOne(order[i], listed[order[i]], now, clock(order[i]));
      }
      SweptAll(v0, idleTTL, now, clock, order);
    }
  }

  function Swept(s: Server, ttl: Time, now: Time, clock: Time): Server {
    if Expired(s, ttl, now) then s.(mode := Off(true), lastUsed := clock) else s
  }

  function SweepUpTo(v: View, ttl: Time, now: Time, clock: Id -> Time, order: seq<Id>, n: nat): (w: View)
    requires n <= |order| && forall i :: 0 <= i < |order| ==> order[i] in v
  {
    if n == 0 then v
    else SweepUpTo(v, ttl, now, clock, order, n - 1)[order[n - 1] := Swept(v[order[n - 1]], ttl, now, clock(order[n - 1]))]
  }

  lemma {:induction false} SweepUnvisited(v: View, ttl: Time, now: Time, clock: Id -> Time, order: seq<Id>, n: nat)
    requires n <= |order| && Lists(order, v.Keys)
    ensures
      var w := SweepUpTo(v, ttl, now, clock, order, n);
      && w.Keys == v.Keys
      && (forall i :: 0 <= i < n ==> w[order[i]] == Swept(v[order[i]], ttl, now, clock(order[i])))
      && (forall i :: n <= i < |order| ==> w[order[i]] == v[order[i]])
  {
    if n > 0 {
      SweepUnvisited(v, ttl, now, clock, order, n - 1);
    }
  }

  lemma SweepTurn(v: View, ttl: Time, now: Time, clock: Id -> Time, order: seq<Id>, n: nat)
    requires n < |order| && Lists(order, v.Keys) && NO_ID !in v
    ensures
      var w, id := SweepUpTo(v, ttl, now, clock, order, n), order[n];
      SweepUpTo(v, ttl, now, clock, order, n + 1) ==
        if Expired(v[id], ttl, now) then Stop(w, id, true, clock(id)).0 else w
  {
    SweepUnvisited(v, ttl, now, clock, order, n);
  }

  lemma SweptAll(v: View, ttl: Time, now: Time, clock: Id -> Time, order: seq<Id>)
    requires Lists(order, v.Keys) && ttl > 0
    ensures SweepUpTo(v, ttl, now, clock, order, |order|) == Sweep(v, ttl, now, clock)
  {
    SweepUnvisited(v, ttl, now, clock, order, |order|);
    forall id | id in v ensures SweepUpTo(v, ttl, now, clock, order, |order|)[id] == Sweep(v, ttl, now, clock)[id] {
      var i :| 0 <= i < |order| && order[i] == id;
    }
  }

  /******* Runs *******/

  type Call = nat

  // The servers and the invocations in progress, each with its server.
  datatype System = System(view: View, calls: map<Call, Id>)

  datatype Op =
    | OpRegister(id: Id)
    | OpStart(id: Id, spawned: bool, now: Time)
    | OpStop(id: Id, auto: bool, now: Time)
    | OpSetEnabled(id: Id, enabled: bool, now: Time)
    | OpRestart(id: Id, spawned: bool, stopAt: Time, now: Time)
    | OpBegin(call: Call, id: Id, onDemand: bool, spawned: bool, now: Time)
    | OpEnd(call: Call, now: Time)
    | OpSweep(ttl: Time, now: Time, clock: Id -> Time)

  predicate Holds(s: System, call: Call) {
    && call in s.calls && s.calls[call] in s.view
    && s.view[s.calls[call]].mode.On? && s.view[s.calls[call]].mode.inUse > 0
  }

  // A call number is used once at a time, and an invocation ends after it has begun.
  predicate Enabled(s: System, op: Op) {
    (op.OpBegin? ==> op.call !in s.calls) && (op.OpEnd? ==> Holds(s, op.call))
  }

  function NextView(s: System, op: Op): (View, Outcome)
    requires Enabled(s, op)
  {
    match op
    case OpRegister(id) => Register(s.view, id)
    case OpStart(id, spawned, now) => Start(s.view, id, spawned, now)
    case OpStop(id, auto, now) => Stop(s.view, id, auto, now)
    case OpSetEnabled(id, enabled, now) => SetEnabled(s.view, id, enabled, now)
    case OpRestart(id, spawned, stopAt, now) => Restart(s.view, id, spawned, stopAt, now)
    case OpBegin(_, id, onDemand, spawned, now) => BeginInvoke(s.view, id, onDemand, spawned, now)
    case OpEnd(call, now) => (EndInvoke(s.view, s.calls[call], now), Ok)
    case OpSweep(ttl, now, clock) => (Sweep(s.view, ttl, now, clock), Ok)
  }

  function Next(s: System, op: Op): System
    requires Enabled(s, op)
  {
    var r := NextView(s, op);
    System(r.0,
           if op.OpBegin? && r.1.Ok? then s.calls[op.call := op.id]
           else if op.OpEnd? then s.calls - {op.call}
           else s.calls)
  }

  function CallsTo(calls: map<Call, Id>, id: Id): set<Call> { set c | c in calls && calls[c] == id }

  function InUse(v: View, id: Id): nat { if id in v && v[id].mode.On? then v[id].mode.inUse else 0 }

  ghost predicate Counted(s: System, id: Id) { InUse(s.view, id) == |CallsTo(s.calls, id)| }

  ghost predicate Inv(s: System) {
    WellFormed(s.view) && NO_ID !in s.view && forall id :: Counted(s, id)
  }

  lemma NextWellFormed(s: System, op: Op)
    requires Inv(s) && Enabled(s, op)
    ensures WellFormed(Next(s, op).view) && NO_ID !in Next(s, op).view
  {
  }

  // Apart from the beginning and end of invocations no operation changes a count.
  lemma NextInUse(s: System, op: Op, id: Id)
    requires Enabled(s, op)
    ensures InUse(Next(s, op).view, id) == InUse(s.view, id) +
              (if op.OpBegin? && NextView(s, op).1.Ok? && op.id == id then 1 else 0) -
              (if op.OpEnd? && s.calls[op.call] == id then 1 else 0)
  {
  }

  lemma NextCalls(s: System, op: Op, id: Id)
    requires Enabled(s, op)
    ensures |CallsTo(Next(s, op).calls, id)| == |CallsTo(s.calls, id)| +
              (if op.OpBegin? && NextView(s, op).1.Ok? && op.id == id then 1 else 0) -
              (if op.OpEnd? && s.calls[op.call] == id then 1 else 0)
  {
    if op.OpBegin? && NextView(s, op).1.Ok? {
      CallsGain(s.calls, op.call, op.id, id);
    } else if op.OpEnd? {
      CallsLose(s.calls, op.call, id);
    }
  }

  lemma CallsGain(calls: map<Call, Id>, c: Call, to: Id, id: Id)
    requires c !in calls
    ensures |CallsTo(calls[c := to], id)| == |CallsTo(calls, id)| + if to == id then 1 else 0
  {
    assert CallsTo(calls[c := to], id) == CallsTo(calls, id) + if to == id then {c} else {};
  }

  lemma CallsLose(calls: map<Call, Id>, c: Call, id: Id)
    requires c in calls
    ensures |CallsTo(calls - {c}, id)| == |CallsTo(calls, id)| - if calls[c] == id then 1 else 0
  {
    assert CallsTo(calls - {c}, id) == CallsTo(calls, id) - {c};
  }

  lemma NextInv(s: System, op: Op)
    requires Inv(s) && Enabled(s, op)
    ensures Inv(Next(s, op))
  {
    NextWellFormed(s, op);
    forall id ensures Counted(Next(s, op), id) {
      assert Counted(s, id);
      NextInUse(s, op, id);
      NextCalls(s, op, id);
    }
  }

  predicate CanRun(s: System, run: seq<Op>)
    decreases |run|
  {
    run == [] || (Enabled(s, run[0]) && CanRun(Next(s, run[0]), run[1..]))
  }

  function After(s: System, run: seq<Op>): System
    requires CanRun(s, run)
    decreases |run|
  {
    if run == [] then s else After(Next(s, run[0]), run[1..])
  }

  lemma {:induction false} RunKeepsInv(s: System, run: seq<Op>)
    requires Inv(s) && CanRun(s, run)
    ensures Inv(After(s, run))
    decreases |run|
  {
    if run != [] {
      NextInv(s, run[0]);
      RunKeepsInv(Next(s, run[0]), run[1..]);
    }
  }

  // In every state of every run from no servers: a server is Active exactly while invocations of it are
  // in progress, has a process exactly when Idle or Active, exactly when its active flag is set, and
  // only if it is enabled.
  lemma RunAgrees(run: seq<Op>, id: Id)
    requires CanRun(System(map[], map[]), run) && id in After(System(map[], map[]), run).view
    ensures
      var s := After(System(map[], map[]), run);
      var e, p := EntryOf(s.view[id]), ProcessOf(s.view[id]);
      && Agree(e, p)
      && (e.state == Active <==> CallsTo(s.calls, id) != {})
      && (p.Some? ==> p.value == |CallsTo(s.calls, id)|)
  {
    var s0, s := System(map[], map[]), After(System(map[], map[]), run);
    forall i ensures Counted(s0, i) { assert CallsTo(s0.calls, i) == {}; }
    RunKeepsInv(s0, run);
    assert Counted(s, id);
    ViewRoundTrip(EntryOf(s.view[id]), ProcessOf(s.view[id]), s.view[id]);
  }

  // Nothing but its own calls' ends frees a server: while one is in progress the server cannot be
  // stopped, disabled, restarted or swept.
  lemma BusyStaysOn(s: System, op: Op, c: Call)
    requires Inv(s) && Enabled(s, op) && c in s.calls && !(op.OpEnd? && op.call == c)
    ensures
      var s' := Next(s, op);
      c in s'.calls && s'.calls[c] in s'.view && EntryOf(s'.view[s'.calls[c]]).state == Active
  {
    NextInv(s, op);
    var s' := Next(s, op);
    assert c in CallsTo(s'.calls, s'.calls[c]);
    assert Counted(s', s'.calls[c]);
  }

  /******* What turns a server on and off *******/

  // No invocation of the server is in progress.
  predicate Unused(s: System, id: Id) { CallsTo(s.calls, id) == {} }

  predicate Running(s: System, id: Id) { id in s.view && s.view[id].mode.On? }

  lemma UnusedMeans(s: System, id: Id)
    requires Inv(s) && Running(s, id)
    ensures Unused(s, id) <==> s.view[id].mode.inUse == 0
    ensures forall c :: c in CallsTo(s.calls, id) ==> (CallsTo(s.calls, id) == {c} <==> s.view[id].mode.inUse == 1)
  {
    assert Counted(s, id);
    var calls := CallsTo(s.calls, id);
    forall c | c in calls && |calls| == 1 ensures calls == {c} {
      assert |calls - {c}| == 0;
    }
  }

  // The operation asks for the server to run and its process can be spawned.
  predicate Spawns(op: Op, id: Id) {
    match op
    case OpStart(i, spawned, _) => i == id && spawned
    case OpRestart(i, spawned, _, _) => i == id && spawned
    case OpBegin(_, i, onDemand, spawned, _) => i == id && onDemand && spawned
    case _ => false
  }

  // A server that is off is turned on if and only if it is enabled and a start, a restart or an
  // invocation that may start it spawns its process; it then has that invocation's call alone.
  lemma TurnedOnExactlyWhen(s: System, op: Op, id: Id)
    requires Inv(s) && Enabled(s, op) && id in s.view && !Running(s, id)
    ensures Running(Next(s, op), id) <==> s.view[id].enabled && Spawns(op, id)
    ensures Running(Next(s, op), id) ==> NextView(s, op).1 == Ok && Next(s, op).view[id].mode.inUse == if op.OpBegin? then 1 else 0
  {
  }

  // The sweep finds the server unused for too long.
  predicate Sweeps(s: System, op: Op, id: Id)
    requires id in s.view
  {
    op.OpSweep? && op.ttl > 0 && s.view[id].lastUsed != ZERO_TIME && op.now - s.view[id].lastUsed >= op.ttl
  }

  // The operation asks for the server to stop.
  predicate Halts(s: System, op: Op, id: Id)
    requires id in s.view
  {
    match op
    case OpStop(i, _, _) => i == id
    case OpSetEnabled(i, enabled, _) => i == id && !enabled
    case OpRestart(i, spawned, _, _) => i == id && !spawned
    case OpSweep(_, _, _) => Sweeps(s, op, id)
    case _ => false
  }

  // A server that is on is turned off if and only if no invocation of it is in progress and a stop, a
  // disable, a failing restart or the sweep asks for it; it is stopped automatically by the sweep, or by a
  // stop that says so.
  lemma TurnedOffExactlyWhen(s: System, op: Op, id: Id)
    requires Inv(s) && Enabled(s, op) && Running(s, id)
    ensures id in Next(s, op).view
    ensures !Running(Next(s, op), id) <==> Unused(s, id) && Halts(s, op, id)
    ensures !Running(Next(s, op), id) ==>
              (EntryOf(Next(s, op).view[id]).state == StoppedAuto <==> op.OpSweep? || (op.OpStop? && op.auto))
  {
    UnusedMeans(s, id);
  }

  // How a server that is and stays off was stopped last: a stop or a disable that is not refused, or a
  // start that fails, says so anew.
  lemma OffStateMoves(s: System, op: Op, id: Id)
    requires Inv(s) && Enabled(s, op) && id in s.view && !Running(s, id) && !Running(Next(s, op), id)
    ensures id in Next(s, op).view
    ensures EntryOf(Next(s, op).view[id]).state ==
              if op.OpStop? && op.id == id then (if op.auto then StoppedAuto else Stopped)
              else if op.OpSetEnabled? && op.id == id && !op.enabled then Stopped
              else if NeedsEnabled(op) && op.id == id && s.view[id].enabled && (op.OpBegin? ==> op.onDemand) then Stopped
              else EntryOf(s.view[id]).state
  {
  }

  // Only registration adds a server, off, enabled and never used, and only SetEnabled changes the flag.
  lemma RegisteredAndEnabled(s: System, op: Op, id: Id)
    requires Inv(s) && Enabled(s, op)
    ensures id in Next(s, op).view <==> id in s.view || (op == OpRegister(id) && id != NO_ID)
    ensures id !in s.view && id in Next(s, op).view ==>
              EntryOf(Next(s, op).view[id]) == Entry(Stopped, ZERO_TIME, false, true)
    ensures id in s.view ==>
              Next(s, op).view[id].enabled ==
                if op.OpSetEnabled? && op.id == id && (op.enabled || Unused(s, id)) then op.enabled else s.view[id].enabled
  {
    if Running(s, id) {
      UnusedMeans(s, id);
    } else {
      assert Counted(s, id);
    }
  }

  /******* Outcomes *******/

  predicate NeedsEnabled(op: Op) { op.OpStart? || op.OpRestart? || op.OpBegin? }

  function Subject(s: System, op: Op): Option<Id> {
    match op
    case OpEnd(_, _) => None
    case OpSweep(_, _, _) => None
    case OpRegister(id) => Some(id)
    case OpStart(id, _, _) => Some(id)
    case OpStop(id, _, _) => Some(id)
    case OpSetEnabled(id, _, _) => Some(id)
    case OpRestart(id, _, _, _) => Some(id)
    case OpBegin(_, id, _, _, _) => Some(id)
  }

  // Why an operation on a server is refused, in the order in which the reasons are looked for.
  lemma RefusedExactlyWhen(s: System, op: Op)
    requires Inv(s) && Enabled(s, op) && Subject(s, op).Some?
    ensures
      var id, r := Subject(s, op).value, NextView(s, op).1;
      && (r == Err(InvalidSpec) <==> id == NO_ID)
      && (r == Err(Registered) <==> op.OpRegister? && id in s.view)
      && (r == Err(NotFound) <==> !op.OpRegister? && id != NO_ID && id !in s.view)
      && (r == Err(Disabled) <==> NeedsEnabled(op) && id in s.view && !s.view[id].enabled)
      && (r == Err(ServerBusy) <==>
            (op.OpStop? || (op.OpSetEnabled? && !op.enabled) || (op.OpRestart? && id in s.view && s.view[id].enabled)) && !Unused(s, id))
      && (r == Err(ExplicitStartRequired) <==>
            op.OpBegin? && !op.onDemand && id in s.view && s.view[id].enabled && !Running(s, id))
      && (r == Err(SpawnFailed) <==>
            NeedsEnabled(op) && !op.spawned && id in s.view && s.view[id].enabled && (op.OpBegin? ==> op.onDemand)
            && (if op.OpRestart? then Unused(s, id) else !Running(s, id)))
  {
    var id := Subject(s, op).value;
    assert Counted(s, id);
    if Running(s, id) {
      UnusedMeans(s, id);
    }
  }

  // A refused operation changes nothing, except that a server whose process cannot be spawned is off.
  lemma RefusedChangesNothing(s: System, op: Op)
    requires Inv(s) && Enabled(s, op) && NextView(s, op).1.Err?
    ensures NextView(s, op).1 != Err(SpawnFailed) ==> Next(s, op) == s
    ensures NextView(s, op).1 == Err(SpawnFailed) ==>
              var id := Subject(s, op).value;
              id in s.view && Next(s, op).calls == s.calls
              && Next(s, op).view.Keys == s.view.Keys && EntryOf(Next(s, op).view[id]).state == Stopped
              && forall j :: j in s.view && j != id ==> Next(s, op).view[j] == s.view[j]
  {
  }

  // An operation on one server leaves the others alone; a sweep leaves alone what is in use.
  lemma OtherServersSame(s: System, op: Op, id: Id)
    requires Inv(s) && Enabled(s, op) && id in s.view && !op.OpSweep?
    requires if op.OpEnd? then s.calls[op.call] != id else Subject(s, op) != Some(id)
    ensures id in Next(s, op).view && Next(s, op).view[id] == s.view[id]
  {
  }

  /******* Last use *******/

  // The operation uses the server at time t: a start, the beginning of a call, the end of the last one,
  // or a stop of a running server.
  predicate Uses(s: System, op: Op, id: Id, t: Time)
    requires Enabled(s, op) && id in s.view
  {
    match op
    case OpRegister(_) => false
    case OpStart(i, spawned, now) => i == id && t == now && s.view[id].enabled && (Running(s, id) || spawned)
    case OpBegin(_, i, onDemand, spawned, now) =>
      i == id && t == now && s.view[id].enabled && (Running(s, id) || (onDemand && spawned))
    case OpEnd(call, now) => CallsTo(s.calls, id) == {call} && t == now
    case OpStop(i, _, now) => i == id && t == now && Running(s, id) && Unused(s, id)
    case OpSetEnabled(i, enabled, now) => i == id && !enabled && t == now && Running(s, id) && Unused(s, id)
    case OpRestart(i, spawned, stopAt, now) =>
      i == id && s.view[id].enabled && Unused(s, id) && if spawned then t == now else Running(s, id) && t == stopAt
    case OpSweep(_, _, clock) => Running(s, id) && Unused(s, id) && Sweeps(s, op, id) && t == clock(id)
  }

  lemma LastUsedStep(s: System, op: Op, id: Id)
    requires Inv(s) && Enabled(s, op) && id in s.view
    ensures id in Next(s, op).view
    ensures var t := Next(s, op).view[id].lastUsed;
            Uses(s, op, id, t) || (t == s.view[id].lastUsed && forall t' :: !Uses(s, op, id, t'))
  {
    assert Counted(s, id);
    if Running(s, id) {
      UnusedMeans(s, id);
    }
    if op.OpEnd? && s.calls[op.call] == id {
      assert op.call in CallsTo(s.calls, id);
    } else if op.OpEnd? {
      assert op.call !in CallsTo(s.calls, id);
    }
  }

  // The last operation of a run that uses the server uses it at time t.
  ghost predicate LastUse(s: System, run: seq<Op>, id: Id, t: Time)
    requires CanRun(s, run) && id in s.view && Inv(s)
    decreases |run|
  {
    run != [] &&
    (LastUsedStep(s, run[0], id);
     NextInv(s, run[0]);
     LastUse(Next(s, run[0]), run[1..], id, t)
     || (Uses(s, run[0], id, t) && forall t' :: !LastUse(Next(s, run[0]), run[1..], id, t')))
  }

  // In every run the registry's last use is the time of the last operation that used the server.
  lemma {:induction false} LastUsedIsLastUse(s: System, run: seq<Op>, id: Id)
    requires Inv(s) && CanRun(s, run) && id in s.view
    ensures id in After(s, run).view
    ensures var t := After(s, run).view[id].lastUsed;
            LastUse(s, run, id, t) || (t == s.view[id].lastUsed && forall t' :: !LastUse(s, run, id, t'))
    decreases |run|
  {
    if run != [] {
      LastUsedStep(s, run[0], id);
      NextInv(s, run[0]);
      var s' := Next(s, run[0]);
      LastUsedIsLastUse(s', run[1..], id);
      var t := After(s, run).view[id].lastUsed;
      if LastUse(s', run[1..], id, t) {
        assert LastUse(s, run, id, t);
      } else if Uses(s, run[0], id, t) {
        assert LastUse(s, run, id, t);
      } else {
        forall t' ensures !LastUse(s, run, id, t') {
          assert !Uses(s, run[0], id, t') && !LastUse(s', run[1..], id, t');
        }
      }
    }
  }

  // In every run a server that was off and is on was started by some operation of the run.
  lemma {:induction false} OnlySpawnsTurnOn(s: System, run: seq<Op>, id: Id)
    requires Inv(s) && CanRun(s, run) && id in s.view && !Running(s, id) && Running(After(s, run), id)
    ensures exists i :: 0 <= i < |run| && Spawns(run[i], id)
    decreases |run|
  {
    TurnedOnExactlyWhen(s, run[0], id);
    if Running(Next(s, run[0]), id) {
      assert Spawns(run[0], id);
    } else {
      LastUsedStep(s, run[0], id);
      NextInv(s, run[0]);
      OnlySpawnsTurnOn(Next(s, run[0]), run[1..], id);
      var i :| 0 <= i < |run[1..]| && Spawns(run[1..][i], id);
      assert Spawns(run[i + 1], id);
    }
  }
}
