/**
 The staged batch rename of core/app/fs_mutation.go.

 RenameFS plans the batch, checks its targets, moves every source to a temporary name, rolling back when
 a move fails, and then moves everything on to its target.  Moves and removals may fail at any time,
 unless the file system is said to be reliable.
 */
module BatchRename {
  import opened Common
  import opened RenameModel
  import opened RenameNesting

  /******* Planning *******/

  // One requested rename; NoName stands for a name that normalizeFSName refuses.
  datatype NewName = NoName | NewName(name: Name)
  datatype Entry = Entry(path: Path, nextName: NewName)
  datatype Planned = Planned(source: Path, target: Path)

  datatype Error = EmptyBatch | OutsideWorkspace | NotFound | DuplicateSource | InvalidName | TargetExists | MoveError

  // A request that the planning loop accepts on its own, on a tree without links, where a path inside
  // the workspace resolves to itself.
  predicate EntryOk(t: Tree, root: Path, e: Entry) {
    && root <= e.path && e.path in t && e.nextName.NewName?
    && root <= Parent(e.path) + [e.nextName.name]
  }

  function Plan(e: Entry): Planned
    requires e.nextName.NewName?
  {
    Planned(e.path, Parent(e.path) + [e.nextName.name])
  }

  ghost predicate BatchOk(t: Tree, root: Path, entries: seq<Entry>) {
    && entries != []
    && (forall i :: 0 <= i < |entries| ==> EntryOk(t, root, entries[i]))
    && (forall i, j :: 0 <= i < j < |entries| ==>
          entries[i].path != entries[j].path && Plan(entries[i]).target != Plan(entries[j]).target)
  }

  datatype PlanResult = PlanOk(plan: seq<Planned>) | PlanError(error: Error)

  ghost predicate EntriesOk(t: Tree, root: Path, entries: seq<Entry>, plan: seq<Planned>) {
    && |plan| <= |entries|
    && forall k :: 0 <= k < |plan| ==> EntryOk(t, root, entries[k]) && plan[k] == Plan(entries[k])
  }

  // The sources and targets of a plan.
  function SourceSet(plan: seq<Planned>): set<Path> {
    if plan == [] then {} else SourceSet(plan[..|plan| - 1]) + {plan[|plan| - 1].source}
  }

  function TargetSet(plan: seq<Planned>): set<Path> {
    if plan == [] then {} else TargetSet(plan[..|plan| - 1]) + {plan[|plan| - 1].target}
  }

  lemma {:induction false} InSets(plan: seq<Planned>, k: nat)
    requires k < |plan|
    ensures plan[k].source in SourceSet(plan) && plan[k].target in TargetSet(plan)
    decreases |plan|
  {
    if k < |plan| - 1 {
      InSets(plan[..|plan| - 1], k);
    }
  }

  lemma {:induction false} SourceAt(plan: seq<Planned>, p: Path) returns (k: nat)
    requires p in SourceSet(plan)
    ensures k < |plan| && plan[k].source == p
    decreases |plan|
  {
    if p == plan[|plan| - 1].source {
      k := |plan| - 1;
    } else {
      k := SourceAt(plan[..|plan| - 1], p);
    }
  }

  lemma {:induction false} TargetAt(plan: seq<Planned>, p: Path) returns (k: nat)
    requires p in TargetSet(plan)
    ensures k < |plan| && plan[k].target == p
    decreases |plan|
  {
    if p == plan[|plan| - 1].target {
      k := |plan| - 1;
    } else {
      k := TargetAt(plan[..|plan| - 1], p);
    }
  }

  ghost predicate NoRepeat(plan: seq<Planned>) {
    forall k, l :: 0 <= k < l < |plan| ==> plan[k].source != plan[l].source && plan[k].target != plan[l].target
  }

  // The requests planned so far are acceptable and none repeats.
  ghost predicate PlannedUpTo(t: Tree, root: Path, entries: seq<Entry>, n: nat, plan: seq<Planned>, sources: set<Path>, targets: set<Path>) {
    && |plan| == n && EntriesOk(t, root, entries, plan) && NoRepeat(plan)
    && sources == SourceSet(plan) && targets == TargetSet(plan)
  }

  lemma PlanOneMore(t: Tree, root: Path, entries: seq<Entry>, n: nat, plan: seq<Planned>, sources: set<Path>, targets: set<Path>)
    requires n < |entries| && PlannedUpTo(t, root, entries, n, plan, sources, targets) && EntryOk(t, root, entries[n])
    requires entries[n].path !in sources && Plan(entries[n]).target !in targets
    ensures
      var next := Plan(entries[n]);
      PlannedUpTo(t, root, entries, n + 1, plan + [next], sources + {next.source}, targets + {next.target})
  {
    var next := Plan(entries[n]);
    assert (plan + [next])[..n] == plan;
    NoRepeatPush(plan, next);
    EntriesOkPush(t, root, entries, plan);
  }

  lemma EntriesOkPush(t: Tree, root: Path, entries: seq<Entry>, plan: seq<Planned>)
    requires EntriesOk(t, root, entries, plan) && |plan| < |entries| && EntryOk(t, root, entries[|plan|])
    ensures EntriesOk(t, root, entries, plan + [Plan(entries[|plan|])])
  {
  }

  lemma NoRepeatPush(plan: seq<Planned>, next: Planned)
    requires NoRepeat(plan) && next.source !in SourceSet(plan) && next.target !in TargetSet(plan)
    ensures NoRepeat(plan + [next])
  {
    forall k | 0 <= k < |plan| ensures plan[k].source != next.source && plan[k].target != next.target {
      InSets(plan, k);
    }
  }

  lemma PlannedAll(t: Tree, root: Path, entries: seq<Entry>, plan: seq<Planned>)
    requires entries != [] && |plan| == |entries| && EntriesOk(t, root, entries, plan) && NoRepeat(plan)
    ensures BatchOk(t, root, entries)
  {
    forall i, j | 0 <= i < j < |entries|
      ensures entries[i].path != entries[j].path && Plan(entries[i]).target != Plan(entries[j]).target
    {
      assert plan[i].source != plan[j].source && plan[i].target != plan[j].target;
    }
  }

  // A repeated source or target refuses the batch.
  lemma Repeated(t: Tree, root: Path, entries: seq<Entry>, n: nat, plan: seq<Planned>)
    requires n < |entries| && |plan| == n && EntriesOk(t, root, entries, plan) && entries[n].nextName.NewName?
    requires entries[n].path in SourceSet(plan) || Plan(entries[n]).target in TargetSet(plan)
    ensures !BatchOk(t, root, entries)
  {
    if entries[n].path in SourceSet(plan) {
      var k := SourceAt(plan, entries[n].path);
      assert entries[k].path == entries[n].path;
    } else {
      var k := TargetAt(plan, Plan(entries[n]).target);
      assert Plan(entries[k]).target == Plan(entries[n]).target;
    }
  }

  lemma NotOk(t: Tree, root: Path, entries: seq<Entry>, n: nat)
    requires n < |entries| && !EntryOk(t, root, entries[n])
    ensures !BatchOk(t, root, entries)
  {
  }

  // What is wrong with the i-th request, all before it being acceptable.
  ghost predicate Blames(t: Tree, root: Path, entries: seq<Entry>, i: nat, error: Error)
    requires i < |entries| && forall k :: 0 <= k < i ==> entries[k].nextName.NewName?
  {
    var e := entries[i];
    match error
    case OutsideWorkspace => !(root <= e.path) || (e.nextName.NewName? && !(root <= Plan(e).target))
    case NotFound => root <= e.path && e.path !in t
    case DuplicateSource => e.path in t && exists k :: 0 <= k < i && entries[k].path == e.path
    case InvalidName => e.path in t && e.nextName.NoName?
    case TargetExists => EntryOk(t, root, e) && exists k :: 0 <= k < i && Plan(entries[k]).target == Plan(e).target
    case _ => false
  }

  // The error is that of the first request that is not acceptable.
  ghost predicate FirstBlamed(t: Tree, root: Path, entries: seq<Entry>, i: nat, error: Error) {
    && i < |entries| && (forall k :: 0 <= k < i ==> EntryOk(t, root, entries[k]))
    && (forall k, l :: 0 <= k < l < i ==>
          entries[k].path != entries[l].path && Plan(entries[k]).target != Plan(entries[l]).target)
    && Blames(t, root, entries, i, error)
  }

  ghost predicate PlanFails(t: Tree, root: Path, entries: seq<Entry>, error: Error) {
    if entries == [] then error == EmptyBatch else exists i: nat :: FirstBlamed(t, root, entries, i, error)
  }

  // A batch is acceptable if and only if no error can be given for it.
  lemma PlanFailsExactly(t: Tree, root: Path, entries: seq<Entry>)
    ensures BatchOk(t, root, entries) <==> forall error :: !PlanFails(t, root, entries, error)
  {
    if BatchOk(t, root, entries) {
      forall error, i: nat ensures !FirstBlamed(t, root, entries, i, error) {
        assert i < |entries| ==> EntryOk(t, root, entries[i]);
      }
    } else {
      var error := SomeError(t, root, entries, 0);
    }
  }

  // The first n requests are acceptable together.
  ghost predicate GoodPrefix(t: Tree, root: Path, entries: seq<Entry>, n: nat) {
    && n <= |entries| && (forall k :: 0 <= k < n ==> EntryOk(t, root, entries[k]))
    && forall k, l :: 0 <= k < l < n ==>
         entries[k].path != entries[l].path && Plan(entries[k]).target != Plan(entries[l]).target
  }

  // A request that cannot join them has an error.
  lemma ErrorOf(t: Tree, root: Path, entries: seq<Entry>, n: nat) returns (error: Error)
    requires GoodPrefix(t, root, entries, n) && n < |entries| && !GoodPrefix(t, root, entries, n + 1)
    ensures Blames(t, root, entries, n, error)
  {
    var e := entries[n];
    if !(root <= e.path) {
      error := OutsideWorkspace;
    } else if e.path !in t {
      error := NotFound;
    } else if exists k :: 0 <= k < n && entries[k].path == e.path {
      error := DuplicateSource;
    } else if e.nextName.NoName? {
      error := InvalidName;
    } else if !(root <= Plan(e).target) {
      error := OutsideWorkspace;
    } else {
      error := TargetExists;
    }
  }

  lemma {:induction false} SomeError(t: Tree, root: Path, entries: seq<Entry>, n: nat) returns (error: Error)
    requires GoodPrefix(t, root, entries, n) && !BatchOk(t, root, entries)
    ensures PlanFails(t, root, entries, error)
    decreases |entries| - n
  {
    if entries == [] {
      error := EmptyBatch;
    } else if n < |entries| && GoodPrefix(t, root, entries, n + 1) {
      error := SomeError(t, root, entries, n + 1);
    } else if n < |entries| {
      error := ErrorOf(t, root, entries, n);
      assert FirstBlamed(t, root, entries, n, error);
    }
  }

  lemma Blamed(t: Tree, root: Path, entries: seq<Entry>, n: nat, plan: seq<Planned>, error: Error)
    requires n < |entries| && |plan| == n && EntriesOk(t, root, entries, plan) && NoRepeat(plan)
    requires Blames(t, root, entries, n, error)
    ensures PlanFails(t, root, entries, error)
  {
    forall k, l | 0 <= k < l < n
      ensures entries[k].path != entries[l].path && Plan(entries[k]).target != Plan(entries[l]).target
    {
      assert plan[k].source != plan[l].source && plan[k].target != plan[l].target;
    }
    assert FirstBlamed(t, root, entries, n, error);
  }

  lemma BlamedTwice(t: Tree, root: Path, entries: seq<Entry>, n: nat, plan: seq<Planned>)
    requires n < |entries| && |plan| == n && EntriesOk(t, root, entries, plan) && NoRepeat(plan) && entries[n].path in t
    ensures entries[n].path in SourceSet(plan) ==> PlanFails(t, root, entries, DuplicateSource)
    ensures EntryOk(t, root, entries[n]) && Plan(entries[n]).target in TargetSet(plan) ==> PlanFails(t, root, entries, TargetExists)
  {
    if entries[n].path in SourceSet(plan) {
      var k := SourceAt(plan, entries[n].path);
      assert entries[k].path == entries[n].path;
      Blamed(t, root, entries, n, plan, DuplicateSource);
    }
    if EntryOk(t, root, entries[n]) && Plan(entries[n]).target in TargetSet(plan) {
      var k := TargetAt(plan, Plan(entries[n]).target);
      assert Plan(entries[k]).target == Plan(entries[n]).target;
      Blamed(t, root, entries, n, plan, TargetExists);
    }
  }

  // The planning loop of RenameFS: it accepts exactly the batches of existing, distinct sources inside
  // the workspace with valid, distinct targets inside it.
  method MakePlan(t: Tree, root: Path, entries: seq<Entry>) returns (r: PlanResult)
    ensures r.PlanOk? <==> BatchOk(t, root, entries)
    ensures r.PlanOk? ==> |r.plan| == |entries| && forall i :: 0 <= i < |entries| ==> r.plan[i] == Plan(entries[i])
    ensures r.PlanError? ==> PlanFails(t, root, entries, r.error)
  {
    if entries == [] {
      return PlanError(EmptyBatch);
    }
    var plan: seq<Planned> := [];
    var sources: set<Path>, targets: set<Path> := {}, {};
    for i := 0 to |entries|
      invariant PlannedUpTo(t, root, entries, i, plan, sources, targets)
    {
      var e := entries[i];
      var source := ResolveSource(t, root, e);
      if source.ResolveError? {
        NotOk(t, root, entries, i);
        Blamed(t, root, entries, i, plan, source.error);
        return PlanError(source.error);
      }
      if e.path in sources {
        if e.nextName.NewName? {
          Repeated(t, root, entries, i, plan);
        } else {
          NotOk(t, root, entries, i);
        }
        BlamedTwice(t, root, entries, i, plan);
        return PlanError(DuplicateSource);
      }
      var target := ResolveTarget(t, root, e);
      if target.ResolveError? {
        NotOk(t, root, entries, i);
        Blamed(t, root, entries, i, plan, target.error);
        return PlanError(target.error);
      }
      if target.path in targets {
        Repeated(t, root, entries, i, plan);
        BlamedTwice(t, root, entries, i, plan);
        return PlanError(TargetExists);
      }
      PlanOneMore(t, root, entries, i, plan, sources, targets);
      plan := plan + [Planned(source.path, target.path)];
      targets := targets + {target.path};
      sources := sources + {source.path};
    }
    PlannedAll(t, root, entries, plan);
    r := PlanOk(plan);
  }

  datatype ResolveResult = ResolveOk(path: Path) | ResolveError(error: Error)

  method ResolveSource(t: Tree, root: Path, e: Entry) returns (r: ResolveResult)
    ensures r.ResolveOk? <==> root <= e.path && e.path in t
    ensures r.ResolveOk? ==> r.path == e.path
    ensures r.ResolveError? ==> r.error == if root <= e.path then NotFound else OutsideWorkspace
  {
    if !(root <= e.path) {
      return ResolveError(OutsideWorkspace);
    }
    if e.path !in t {
      return ResolveError(NotFound);
    }
    return ResolveOk(e.path);
  }

  method ResolveTarget(t: Tree, root: Path, e: Entry) returns (r: ResolveResult)
    requires root <= e.path && e.path in t
    ensures r.ResolveOk? <==> EntryOk(t, root, e)
    ensures r.ResolveOk? ==> r.path == Plan(e).target
    ensures r.ResolveError? ==> r.error == if e.nextName.NoName? then InvalidName else OutsideWorkspace
  {
    if e.nextName.NoName? {
      return ResolveError(InvalidName);
    }
    var target := Parent(e.path) + [e.nextName.name];
    if !(root <= target) {
      return ResolveError(OutsideWorkspace);
    }
    return ResolveOk(target);
  }

  // A target that exists may be replaced only by overwriting, unless it is itself moved away.
  ghost predicate TargetsFree(t: Tree, plan: seq<Planned>, overwrite: bool) {
    forall i :: 0 <= i < |plan| && plan[i].source != plan[i].target && plan[i].target in t ==>
                  overwrite || exists j :: 0 <= j < |plan| && plan[j].source == plan[i].target
  }

  // Without overwriting, a plan is refused if and only if some target is a path of the tree that is not
  // itself a source of the plan: what it would destroy.
  lemma TargetsFreeExactly(t: Tree, plan: seq<Planned>)
    ensures TargetsFree(t, plan, true)
    ensures TargetsFree(t, plan, false) <==>
              forall p :: p in t && (exists i :: 0 <= i < |plan| && plan[i].target == p) ==>
                            exists j :: 0 <= j < |plan| && plan[j].source == p
  {
    if TargetsFree(t, plan, false) {
      forall p, i | p in t && 0 <= i < |plan| && plan[i].target == p ensures exists j :: 0 <= j < |plan| && plan[j].source == p {
        if plan[i].source == plan[i].target {
          assert plan[i].source == p;
        }
      }
    }
  }

  method CheckTargets(t: Tree, plan: seq<Planned>, overwrite: bool) returns (ok: bool)
    ensures ok <==> TargetsFree(t, plan, overwrite)
  {
    var sources := set k | 0 <= k < |plan| :: plan[k].source;
    for i := 0 to |plan|
      invariant forall k :: 0 <= k < i && plan[k].source != plan[k].target && plan[k].target in t ==>
                              overwrite || exists j :: 0 <= j < |plan| && plan[j].source == plan[k].target
    {
      var e := plan[i];
      if e.source != e.target && e.target in t && e.target !in sources && !overwrite {
        return false;
      }
    }
    ok := true;
  }

  // The i-th entry of the plan with its generated name.
  function ItemAt(plan: seq<Planned>, names: seq<Name>, i: nat): Item
    requires i < |plan| == |names|
  {
    Item(plan[i].source, Parent(plan[i].source) + [names[i]], plan[i].target)
  }

  // The entries of the plan that move.
  function Items(plan: seq<Planned>, names: seq<Name>, n: nat): seq<Item>
    requires n <= |plan| == |names|
  {
    if n == 0 then []
    else if plan[n - 1].source == plan[n - 1].target then Items(plan, names, n - 1)
    else Items(plan, names, n - 1) + [ItemAt(plan, names, n - 1)]
  }

  ghost predicate DistinctPlan(t: Tree, plan: seq<Planned>) {
    && (forall i :: 0 <= i < |plan| ==> plan[i].source in t)
    && (forall i, j :: 0 <= i < j < |plan| ==> plan[i].source != plan[j].source && plan[i].target != plan[j].target)
  }

  ghost predicate SiblingPlan(plan: seq<Planned>) {
    forall i :: 0 <= i < |plan| ==> plan[i].target != [] && Parent(plan[i].target) == Parent(plan[i].source)
  }

  // The generated names are new: no path of the tree and no target contains one.
  ghost predicate NewNames(t: Tree, plan: seq<Planned>, names: seq<Name>) {
    && |names| == |plan|
    && (forall i, j :: 0 <= i < j < |names| ==> names[i] != names[j])
    && (forall i, q :: 0 <= i < |names| && q in t ==> names[i] !in q)
    && (forall i, j :: 0 <= i < |names| && 0 <= j < |plan| ==> names[i] !in plan[j].target)
  }

  ghost predicate Hypotheses(t: Tree, plan: seq<Planned>, names: seq<Name>) {
    DistinctPlan(t, plan) && SiblingPlan(plan) && NewNames(t, plan, names)
  }

  // Each item is an entry of the plan that moves.
  ghost predicate FromPlan(item: Item, plan: seq<Planned>, names: seq<Name>, n: nat)
    requires n <= |plan| == |names|
  {
    exists i :: 0 <= i < n && item == ItemAt(plan, names, i) && plan[i].source != plan[i].target
  }

  lemma {:induction false} ItemsFromPlan(plan: seq<Planned>, names: seq<Name>, n: nat)
    requires n <= |plan| == |names|
    ensures forall k :: 0 <= k < |Items(plan, names, n)| ==> FromPlan(Items(plan, names, n)[k], plan, names, n)
  {
    if n > 0 {
      ItemsFromPlan(plan, names, n - 1);
      forall k | 0 <= k < |Items(plan, names, n)| ensures FromPlan(Items(plan, names, n)[k], plan, names, n) {
        if k < |Items(plan, names, n - 1)| {
          assert FromPlan(Items(plan, names, n - 1)[k], plan, names, n - 1);
        }
      }
    }
  }

  // Every moving entry of the plan is an item.
  lemma {:induction false} ItemOfPlan(plan: seq<Planned>, names: seq<Name>, n: nat, i: nat) returns (k: nat)
    requires i < n <= |plan| == |names| && plan[i].source != plan[i].target
    ensures k < |Items(plan, names, n)|
    ensures Items(plan, names, n)[k] == ItemAt(plan, names, i)
  {
    if i == n - 1 {
      k := |Items(plan, names, n - 1)|;
    } else {
      k := ItemOfPlan(plan, names, n - 1, i);
    }
  }

  // A new entry beside those of a batch.
  ghost predicate Fits(t: Tree, a: Item, b: Item) {
    && Different(a, b) && Different(b, a)
    && a.temp != [] && b.temp != [] && Tag(a) !in b.target && Tag(b) !in a.target
  }

  ghost predicate FitsAlone(t: Tree, item: Item) {
    && item.source in t && Beside(item) && Tag(item) !in item.target
    && forall q :: q in t ==> Tag(item) !in q
  }

  ghost predicate FitsAll(t: Tree, items: seq<Item>, item: Item) {
    FitsAlone(t, item) && forall k :: 0 <= k < |items| ==> Fits(t, items[k], item)
  }

  lemma BatchAppend(t: Tree, items: seq<Item>, item: Item)
    requires Batch(t, items) && FitsAll(t, items, item)
    ensures Batch(t, items + [item])
  {
    var more := items + [item];
    forall i: nat | i < |more| ensures ItemOk(t, more, i) {
      if i < |items| {
        assert ItemOk(t, items, i) && Fits(t, items[i], item);
      }
    }
    forall i, j | 0 <= i < |more| && 0 <= j < |more| && i != j ensures Different(more[i], more[j]) {
      if i < |items| && j < |items| {
        assert Different(items[i], items[j]);
      } else {
        assert Fits(t, items[if i < |items| then i else j], item);
      }
    }
  }

  lemma PlanFits(t: Tree, plan: seq<Planned>, names: seq<Name>, i: nat, j: nat)
    requires Hypotheses(t, plan, names) && i < j < |plan|
    ensures Fits(t, ItemAt(plan, names, i), ItemAt(plan, names, j))
  {
  }

  lemma PlanFitsAlone(t: Tree, plan: seq<Planned>, names: seq<Name>, i: nat)
    requires Hypotheses(t, plan, names) && i < |plan| && plan[i].source != plan[i].target
    ensures FitsAlone(t, ItemAt(plan, names, i))
  {
    var item := ItemAt(plan, names, i);
    assert item.temp[..|item.temp| - 1] == Parent(plan[i].source);
  }

  lemma {:induction false} ItemsAreBatch(t: Tree, plan: seq<Planned>, names: seq<Name>, n: nat)
    requires Hypotheses(t, plan, names) && n <= |plan|
    ensures Batch(t, Items(plan, names, n))
  {
    if n > 0 {
      ItemsAreBatch(t, plan, names, n - 1);
      if plan[n - 1].source != plan[n - 1].target {
        NextFits(t, plan, names, n - 1);
        BatchAppend(t, Items(plan, names, n - 1), ItemAt(plan, names, n - 1));
      }
    }
  }

  lemma NextFits(t: Tree, plan: seq<Planned>, names: seq<Name>, n: nat)
    requires Hypotheses(t, plan, names) && n < |plan| && plan[n].source != plan[n].target
    ensures FitsAll(t, Items(plan, names, n), ItemAt(plan, names, n))
  {
    var items := Items(plan, names, n);
    PlanFitsAlone(t, plan, names, n);
    ItemsFromPlan(plan, names, n);
    forall k | 0 <= k < |items| ensures Fits(t, items[k], ItemAt(plan, names, n)) {
      assert FromPlan(items[k], plan, names, n);
      var i :| 0 <= i < n && items[k] == ItemAt(plan, names, i);
      PlanFits(t, plan, names, i, n);
    }
  }

  lemma {:induction false} ItemsPrefix(plan: seq<Planned>, names: seq<Name>, i: nat, n: nat)
    requires i <= n <= |plan| == |names|
    ensures Items(plan, names, i) <= Items(plan, names, n)
    ensures i < n && plan[i].source != plan[i].target ==>
              |Items(plan, names, i)| < |Items(plan, names, n)|
              && Items(plan, names, n)[|Items(plan, names, i)|] == ItemAt(plan, names, i)
    decreases n
  {
    if i < n {
      ItemsPrefix(plan, names, i, n - 1);
    }
  }

  /******* Runs *******/

  // The first entries of a batch are a batch.
  lemma BatchPrefix(t0: Tree, items: seq<Item>, k: nat)
    requires Batch(t0, items) && k <= |items|
    ensures Batch(t0, items[..k])
  {
    var few := items[..k];
    forall i: nat | i < |few| ensures ItemOk(t0, few, i) {
      assert ItemOk(t0, items, i);
    }
    forall i, j | 0 <= i < |few| && 0 <= j < |few| && i != j ensures Different(few[i], few[j]) {
      assert Different(items[i], items[j]);
    }
  }

  lemma MovablePrefix(items: seq<Item>, k: nat)
    requires Movable(items) && k <= |items|
    ensures Movable(items[..k])
  {
    var few := items[..k];
    forall i, j | 0 <= i < |few| && 0 <= j < |few| && i != j
      ensures !Above(few[i].source, few[j].source) && !Above(few[i].target, few[j].source)
    {
      assert !Above(items[i].source, items[j].source) && !Above(items[i].target, items[j].source);
    }
  }

  lemma StageRunPush(t0: Tree, items: seq<Item>, st: seq<Tree>, t': Tree)
    requires StageRun(t0, items, st) && |st| <= |items| && StageMove(st[|st| - 1], items[|st| - 1], t')
    ensures StageRun(t0, items, st + [t'])
  {
    var more := st + [t'];
    forall k: nat | k + 1 < |more| ensures StageMoveAt(items, more, k) {
      assert k + 1 < |st| ==> StageMoveAt(items, st, k);
    }
  }

  lemma StageRunPrefix(t0: Tree, items: seq<Item>, st: seq<Tree>)
    requires StageRun(t0, items, st)
    ensures StageRun(t0, items[..|st| - 1], st)
  {
    var few := items[..|st| - 1];
    forall k: nat | k + 1 < |st| ensures StageMoveAt(few, st, k) {
      assert StageMoveAt(items, st, k);
    }
  }

  lemma CommitRunPush(t0: Tree, items: seq<Item>, overwrite: bool, st: seq<Tree>, ct: seq<Tree>, t': Tree)
    requires CommitRun(t0, items, overwrite, st, ct) && |ct| <= |items| && CommitMove(ct[|ct| - 1], items[|ct| - 1], overwrite, t')
    ensures CommitRun(t0, items, overwrite, st, ct + [t'])
  {
    var more := ct + [t'];
    forall k: nat | k + 1 < |more| ensures CommitMoveAt(items, overwrite, more, k) {
      assert k + 1 < |ct| ==> CommitMoveAt(items, overwrite, ct, k);
    }
  }

  lemma {:induction false} StagedClosed(t0: Tree, items: seq<Item>, st: seq<Tree>, k: nat)
    requires Batch(t0, items) && Closed(t0) && StageRun(t0, items, st) && k < |st|
    ensures Closed(st[k])
  {
    if k > 0 {
      StagedClosed(t0, items, st, k - 1);
      assert StageMoveAt(items, st, k - 1);
      TempIs(t0, items, k - 1);
      StageMoveClosed(st[k - 1], items[k - 1], st[k]);
    }
  }

  lemma StageMoveClosed(t: Tree, item: Item, t': Tree)
    requires Closed(t) && Beside(item) && StageMove(t, item, t')
    ensures Closed(t')
  {
    ClosedMoved(t, item.source, item.temp);
  }

  // The next temporary place is free, and its directory is there.
  lemma StageNext(t0: Tree, items: seq<Item>, st: seq<Tree>, k: nat)
    requires Batch(t0, items) && Closed(t0) && StageRun(t0, items, st) && k < |items| && k < |st|
    ensures Bare(st[k], items[k].temp) && (items[k].source in st[k] ==> Parent(items[k].temp) in st[k])
  {
    var t, item := st[k], items[k];
    StagedClosed(t0, items, st, k);
    TempIs(t0, items, k);
    TagUnused(t0, items, st, k, k);
    TempHasTag(items, t0, k, k);
    forall q | q in t ensures !(item.temp <= q) {
      Tagged(item.temp, q, Tag(item));
    }
    assert Parent(item.source) <= item.source;
  }

  // Staging an entry leaves q where it is.
  predicate Spares(item: Item, q: Path) { Apart(item.source, q) && Apart(item.temp, q) }

  lemma {:induction false} StaysThere(t0: Tree, items: seq<Item>, st: seq<Tree>, k: nat, q: Path)
    requires q in t0 && StageRun(t0, items, st) && k < |st| && forall m: nat :: m < k ==> Spares(items[m], q)
    ensures q in st[k]
  {
    if k > 0 {
      StaysThere(t0, items, st, k - 1, q);
      assert Spares(items[k - 1], q) && StageMoveAt(items, st, k - 1);
      MovedGet(st[k - 1], items[k - 1].source, items[k - 1].temp, q);
    }
  }

  // With a movable batch every source is still there when its turn comes.
  lemma MovableSource(t0: Tree, items: seq<Item>, st: seq<Tree>, k: nat)
    requires Batch(t0, items) && Movable(items) && StageRun(t0, items, st) && k < |items| && k < |st|
    ensures items[k].source in st[k] && Apart(items[k].source, items[k].temp)
  {
    forall m: nat | m < k ensures Spares(items[m], items[k].source) {
      MovableApart(t0, items, m, k);
      MovableTempApart(t0, items, m, k);
    }
    TempIs(t0, items, k);
    StaysThere(t0, items, st, k, items[k].source);
    MovableTempApart(t0, items, k, k);
  }

  // Undoing a staging move to a free name.
  lemma Undo(t: Tree, item: Item, t': Tree)
    requires StageMove(t, item, t') && Bare(t, item.temp) && Closed(t) && Beside(item)
    ensures item.temp in t' && item.source !in t' && Bare(t', item.source) && Apart(item.temp, item.source)
    ensures Parent(item.source) in t' && Moved(t', item.temp, item.source) == t
  {
    MovedHas(t, item.source, item.temp);
    MovedBack(t, item.source, item.temp);
    StageMoveClosed(t, item, t');
    assert Parent(item.temp) <= item.temp && item.source <= item.source;
  }

  ghost predicate ReadyUpTo(t0: Tree, items: seq<Item>, n: nat) { n <= |items| && Ready(t0, items[..n]) }

  ghost predicate AllReady(t0: Tree, items: seq<Item>) { forall n: nat :: n <= |items| ==> ReadyUpTo(t0, items, n) }

  lemma MovableAllReady(t0: Tree, items: seq<Item>)
    requires Batch(t0, items) && Movable(items)
    ensures AllReady(t0, items) && Ready(t0, items)
  {
    forall n: nat | n <= |items| ensures ReadyUpTo(t0, items, n) {
      BatchPrefix(t0, items, n);
      MovablePrefix(items, n);
      MovableReady(t0, items[..n]);
    }
    MovableReady(t0, items);
  }

  // With a movable batch the staged tree has every entry at its temporary place.
  lemma {:induction false} StagedShows(t0: Tree, items: seq<Item>, st: seq<Tree>, k: nat)
    requires AllReady(t0, items) && StageRun(t0, items, st) && k < |st|
    ensures Shows(st[k], t0, items[..k], Temps(items[..k]), [])
  {
    if k == 0 {
      ShowsInitial(t0, []);
      assert Sources([]) == Temps([]) == [] && items[..0] == [];
    } else {
      StagedShows(t0, items, st, k - 1);
      assert StageMoveAt(items, st, k - 1) && ReadyUpTo(t0, items, k);
      assert items[..k] == items[..k - 1] + [items[k - 1]];
      StageStep(st[k - 1], t0, items[..k - 1], items[k - 1]);
    }
  }

  // A movable batch all of whose targets may be replaced.
  ghost predicate Sure(t0: Tree, items: seq<Item>, overwrite: bool) {
    AllReady(t0, items) && MayReplaceAll(t0, items, overwrite)
  }

  lemma AllReadyIsReady(t0: Tree, items: seq<Item>)
    requires AllReady(t0, items)
    ensures Ready(t0, items)
  {
    assert ReadyUpTo(t0, items, |items|) && items[..|items|] == items;
  }

  lemma StagedAllShows(t0: Tree, items: seq<Item>, st: seq<Tree>)
    requires AllReady(t0, items) && StageRun(t0, items, st) && |st| == |items| + 1
    ensures Shows(st[|items|], t0, items, Committed(items, 0), [])
  {
    StagedShows(t0, items, st, |items|);
    assert items[..|items|] == items;
    CommitStart(st[|items|], t0, items);
  }

  lemma CommitShows(t0: Tree, items: seq<Item>, overwrite: bool, st: seq<Tree>, ct: seq<Tree>, k: nat)
    requires Sure(t0, items, overwrite) && CommitRun(t0, items, overwrite, st, ct) && k < |ct|
    ensures Shows(ct[k], t0, items, Committed(items, k), [])
  {
    StagedAllShows(t0, items, st);
    for i := 0 to k
      invariant Shows(ct[i], t0, items, Committed(items, i), [])
    {
      CommitShowsNext(t0, items, overwrite, st, ct, i);
    }
  }

  lemma CommitShowsNext(t0: Tree, items: seq<Item>, overwrite: bool, st: seq<Tree>, ct: seq<Tree>, k: nat)
    requires Sure(t0, items, overwrite) && CommitRun(t0, items, overwrite, st, ct) && k + 1 < |ct|
    requires Shows(ct[k], t0, items, Committed(items, k), [])
    ensures Shows(ct[k + 1], t0, items, Committed(items, k + 1), [])
  {
    AllReadyIsReady(t0, items);
    assert CommitMoveAt(items, overwrite, ct, k);
    CommitMoveShows(t0, items, overwrite, k, ct[k], ct[k + 1]);
  }

  lemma CommitMoveShows(t0: Tree, items: seq<Item>, overwrite: bool, k: nat, t: Tree, t': Tree)
    requires Ready(t0, items) && MayReplaceAll(t0, items, overwrite) && k < |items| && Shows(t, t0, items, Committed(items, k), [])
    requires CommitMove(t, items[k], overwrite, t')
    ensures Shows(t', t0, items, Committed(items, k + 1), [])
  {
    CommitGoes(t0, items, overwrite, k, t);
  }

  // With a movable batch the next commit finds its entry and its target free.
  lemma CommitGoes(t0: Tree, items: seq<Item>, overwrite: bool, k: nat, t: Tree)
    requires Ready(t0, items) && MayReplaceAll(t0, items, overwrite) && k < |items| && Shows(t, t0, items, Committed(items, k), [])
    ensures
      var base := CommitBase(t, items[k], overwrite);
      && Apart(items[k].temp, items[k].target) && items[k].temp in base && Bare(base, items[k].target)
      && Shows(Moved(base, items[k].temp, items[k].target), t0, items, Committed(items, k + 1), [])
  {
    assert MayReplace(t0, items, k, overwrite);
    var gone := if overwrite then [items[k].target] else [];
    if overwrite {
      RemoveTarget(t, t0, items, k);
    }
    CommitNext(CommitBase(t, items[k], overwrite), t0, items, k, gone);
    CommittedApart(items, k);
    PlaceFilled(t, t0, items, Committed(items, k), k);
  }

  // A complete run of an accepted batch ends in the simultaneous rename if the batch is movable and, on a
  // tree with distinct contents, only if it is: with equal contents a lost entry may not show.
  lemma RenamedExactlyWhenMovable(t0: Tree, items: seq<Item>, overwrite: bool, st: seq<Tree>, ct: seq<Tree>)
    requires Batch(t0, items) && CommitRun(t0, items, overwrite, st, ct) && |ct| == |items| + 1
    requires MayReplaceAll(t0, items, overwrite)
    ensures Movable(items) ==> RenamedTo(ct[|items|], t0, items)
    ensures Injective(t0) && RenamedTo(ct[|items|], t0, items) ==> Movable(items)
  {
    if Movable(items) {
      MovableAllReady(t0, items);
      CommitShows(t0, items, overwrite, st, ct, |items|);
      CommitEnd(ct[|items|], t0, items);
    } else if Injective(t0) {
      NotMovableNotRenamed(t0, items, overwrite, st, ct);
    }
  }

  /******* The file system *******/

  class FileSystem {
    var tree: Tree
    // No call fails without a reason, and none of the moves back.
    const reliable: bool
    const restores: bool

    constructor (tree: Tree, reliable: bool, restores: bool)
      ensures this.tree == tree && this.reliable == reliable && this.restores == restores
    {
      this.tree, this.reliable, this.restores := tree, reliable, restores;
    }

    // Renaming succeeds or changes nothing.  It needs the source, the directory of the new name and
    // that neither path is inside the other; replacing something may be refused.  back tells the moves
    // of a rollback.
    method Move(a: Path, b: Path, back: bool) returns (ok: bool)
      modifies this`tree
      ensures ok ==> a in old(tree) && Apart(a, b) && tree == Moved(old(tree), a, b)
      ensures !ok ==> tree == old(tree)
      ensures (reliable || (back && restores)) && a in old(tree) && Apart(a, b) && Parent(b) in old(tree) && Bare(old(tree), b) ==> ok
    {
      var works: bool := *;
      var free := forall q :: q in tree ==> !(b <= q);
      ok := a in tree && Apart(a, b) && Parent(b) in tree && (works || ((reliable || (back && restores)) && free));
      if ok {
        tree := Moved(tree, a, b);
      }
    }

    // Removing a subtree may fail halfway; what is outside the subtree stays.
    method Remove(r: Path) returns (ok: bool)
      modifies this`tree
      ensures ok ==> tree == Removed(old(tree), r)
      ensures forall q :: !(r <= q) ==> Get(tree, q) == Get(old(tree), q)
      ensures reliable ==> ok
    {
      var works: bool := *;
      ok := works || reliable;
      var left: set<Path> := *;
      tree := map p | p in tree && (!(r <= p) || (!ok && p in left)) :: tree[p];
    }
  }

  /******* Rollback *******/

  // Rolls the staged moves back, last first.  If no move back fails the tree is the initial one.  With a
  // movable batch neither Lstat check ever skips an entry, and in any case each entry is whole, at its
  // source or at its temporary name.
  method Rollback(fs: FileSystem, staged: seq<Item>, ghost t0: Tree, ghost st: seq<Tree>)
    returns (ghost places: seq<Path>, ghost restored: bool)
    requires Batch(t0, staged) && Closed(t0) && StageRun(t0, staged, st) && |st| == |staged| + 1 && fs.tree == st[|staged|]
    modifies fs`tree
    ensures restored ==> fs.tree == t0
    ensures fs.reliable || fs.restores ==> restored
    ensures Movable(staged) ==> Staging(staged, places) && Shows(fs.tree, t0, staged, places, [])
    ensures Movable(staged) ==> (restored <==> places == Sources(staged))
  {
    places, restored := Temps(staged), true;
    if Movable(staged) {
      MovableAllReady(t0, staged);
      StagedShows(t0, staged, st, |staged|);
      assert staged[..|staged|] == staged;
    }
    for i := |staged| downto 0
      invariant |places| == |staged| && (restored ==> fs.tree == st[i])
      invariant fs.reliable || fs.restores ==> restored
      invariant Movable(staged) ==> RollingBack(fs.tree, t0, staged, places, i, restored)
    {
      var e := staged[i];
      UndoLast(t0, staged, st, i);
      if Movable(staged) {
        UndoMovable(fs.tree, t0, staged, places, i, restored);
      }
      if e.temp !in fs.tree {
        restored := false;
        continue;
      }
      if e.source in fs.tree {
        restored := false;
        continue;
      }
      var ok := fs.Move(e.temp, e.source, true);
      if ok {
        places := places[i := e.source];
      } else {
        restored := false;
      }
    }
    if Movable(staged) && restored {
      assert places == Sources(staged);
    }
  }

  // Entries from i on have had their turn.
  ghost predicate RollingBack(t: Tree, t0: Tree, staged: seq<Item>, places: seq<Path>, i: nat, restored: bool) {
    && Staging(staged, places) && Shows(t, t0, staged, places, []) && i <= |staged|
    && (forall k :: 0 <= k < i ==> places[k] == staged[k].temp)
    && (restored <==> forall k :: i <= k < |staged| ==> places[k] == staged[k].source)
  }

  lemma UndoLast(t0: Tree, staged: seq<Item>, st: seq<Tree>, i: nat)
    requires Batch(t0, staged) && Closed(t0) && StageRun(t0, staged, st) && |st| == |staged| + 1 && i < |staged|
    ensures
      var t, e := st[i + 1], staged[i];
      && e.temp in t && e.source !in t && Bare(t, e.source) && Apart(e.temp, e.source) && Parent(e.source) in t
      && Moved(t, e.temp, e.source) == st[i]
  {
    assert StageMoveAt(staged, st, i);
    StageNext(t0, staged, st, i);
    StagedClosed(t0, staged, st, i);
    TempIs(t0, staged, i);
    Undo(st[i], staged[i], st[i + 1]);
  }

  lemma UndoMovable(t: Tree, t0: Tree, staged: seq<Item>, places: seq<Path>, i: nat, restored: bool)
    requires Batch(t0, staged) && Movable(staged) && i < |staged| && RollingBack(t, t0, staged, places, i + 1, restored)
    ensures staged[i].temp in t && staged[i].source !in t
    ensures RollingBack(Moved(t, staged[i].temp, staged[i].source), t0, staged, places[i := staged[i].source], i, restored)
    ensures RollingBack(t, t0, staged, places, i, false)
  {
    MovableReady(t0, staged);
    UndoReady(t, t0, staged, places, i);
    assert places[i := staged[i].source][i] == staged[i].source;
    assert staged[i].source != staged[i].temp by {
      MovableTempApart(t0, staged, i, i);
    }
  }

  lemma UndoReady(t: Tree, t0: Tree, staged: seq<Item>, places: seq<Path>, i: nat)
    requires Ready(t0, staged) && Staging(staged, places) && Shows(t, t0, staged, places, []) && i < |staged| && places[i] == staged[i].temp
    ensures staged[i].temp in t && staged[i].source !in t
    ensures Shows(Moved(t, staged[i].temp, staged[i].source), t0, staged, places[i := staged[i].source], [])
  {
    StagingApart(staged, places);
    PlaceFilled(t, t0, staged, places, i);
    SourceFree(t, t0, staged, places, i);
    UndoStep(t, t0, staged, places, i);
    assert staged[i].source <= staged[i].source;
  }

  /******* Staging *******/

  // What a failed staging leaves.
  ghost predicate Undone(t: Tree, t0: Tree, staged: seq<Item>, places: seq<Path>, restored: bool) {
    (restored ==> t == t0) && (Movable(staged) ==> Staging(staged, places) && Shows(t, t0, staged, places, []))
  }

  // What holds before a staging move.
  lemma BeforeMove(t0: Tree, items: seq<Item>, st: seq<Tree>, staged: seq<Item>)
    requires Batch(t0, items) && Closed(t0) && StageRun(t0, items, st) && |st| == |staged| + 1
    requires staged <= items && |staged| < |items|
    ensures Batch(t0, staged) && StageRun(t0, staged, st)
    ensures
      var t, item := st[|staged|], items[|staged|];
      && Bare(t, item.temp) && (item.source in t ==> Parent(item.temp) in t)
      && (Movable(items) ==> item.source in t && Apart(item.source, item.temp))
  {
    assert staged == items[..|staged|];
    BatchPrefix(t0, items, |staged|);
    StageRunPrefix(t0, items, st);
    StageNext(t0, items, st, |staged|);
    if Movable(items) {
      MovableSource(t0, items, st, |staged|);
    }
  }

  // One turn of the staging loop for an entry that moves.
  method StageOne(fs: FileSystem, e: Item, staged: seq<Item>, ghost items: seq<Item>, ghost t0: Tree, ghost st: seq<Tree>)
    returns (ok: bool, ghost places: seq<Path>, ghost restored: bool)
    requires Batch(t0, items) && Closed(t0) && StageRun(t0, items, st) && |st| == |staged| + 1 && fs.tree == st[|staged|]
    requires staged <= items && |staged| < |items| && items[|staged|] == e
    modifies fs`tree
    ensures ok ==> StageRun(t0, items, st + [fs.tree])
    ensures !ok ==> Undone(fs.tree, t0, staged, places, restored)
    ensures fs.reliable && Movable(items) ==> ok
    ensures (fs.reliable || fs.restores) && !ok ==> restored
  {
    places, restored := [], false;
    BeforeMove(t0, items, st, staged);
    ok := fs.Move(e.source, e.temp, false);
    if !ok {
      places, restored := Rollback(fs, staged, t0, st);
      return;
    }
    StageRunPush(t0, items, st, fs.tree);
  }

  lemma NextItem(plan: seq<Planned>, names: seq<Name>, i: nat, next: Item)
    requires |names| == |plan| && i < |plan| && plan[i].source != plan[i].target
    requires next == Item(plan[i].source, Parent(plan[i].source) + [names[i]], plan[i].target)
    ensures
      var staged, items := Items(plan, names, i), Items(plan, names, |plan|);
      && Items(plan, names, i + 1) == staged + [next] && staged + [next] <= items
      && |staged| < |items| && items[|staged|] == next
  {
    ItemsPrefix(plan, names, i + 1, |plan|);
  }

  // The staging loop: all moving entries end at their temporary names, or the failure is rolled back.
  method Stage(fs: FileSystem, plan: seq<Planned>, names: seq<Name>, ghost items: seq<Item>)
    returns (staged: seq<Item>, ok: bool, ghost st: seq<Tree>, ghost places: seq<Path>, ghost restored: bool)
    requires |names| == |plan| && items == Items(plan, names, |plan|) && Batch(fs.tree, items) && Closed(fs.tree)
    modifies fs`tree
    ensures staged <= items && (ok ==> staged == items)
    ensures ok ==> StageRun(old(fs.tree), items, st) && |st| == |items| + 1 && fs.tree == st[|items|]
    ensures !ok ==> |staged| < |items| && Undone(fs.tree, old(fs.tree), staged, places, restored)
    ensures fs.reliable && Movable(items) ==> ok
    ensures (fs.reliable || fs.restores) && !ok ==> restored
  {
    ghost var t0 := fs.tree;
    staged, places, restored := [], [], false;
    st := [t0];
    for i := 0 to |plan|
      invariant staged == Items(plan, names, i) && staged <= items
      invariant StageRun(t0, items, st) && |st| == |staged| + 1 && fs.tree == st[|staged|]
    {
      var e := plan[i];
      if e.source == e.target {
        ItemsPrefix(plan, names, i + 1, |plan|);
        continue;
      }
      var temp := Parent(e.source) + [names[i]];
      var next := Item(e.source, temp, e.target);
      NextItem(plan, names, i, next);
      ok, places, restored := StageOne(fs, next, staged, items, t0, st);
      if !ok {
        return;
      }
      st := st + [fs.tree];
      staged := staged + [next];
    }
    ok := true;
  }

  /******* Commit *******/

  // What a failed commit leaves: with a movable batch only the target it stopped at is damaged.
  ghost predicate Halted(t: Tree, t0: Tree, items: seq<Item>, overwrite: bool, k: nat) {
    k < |items| && (Sure(t0, items, overwrite) ==> StoppedAt(t, t0, items, k))
  }

  // One turn of the commit loop.
  method CommitOne(fs: FileSystem, items: seq<Item>, k: nat, overwrite: bool, ghost t0: Tree) returns (ok: bool)
    requires k < |items| && Beside(items[k]) && Closed(fs.tree)
    modifies fs`tree
    ensures ok ==> CommitMove(old(fs.tree), items[k], overwrite, fs.tree) && Closed(fs.tree)
    ensures !ok ==> forall q :: !(items[k].target <= q) ==> Get(fs.tree, q) == Get(old(fs.tree), q)
    ensures
      var base := CommitBase(old(fs.tree), items[k], overwrite);
      fs.reliable && items[k].temp in base && Apart(items[k].temp, items[k].target) && Bare(base, items[k].target) ==> ok
  {
    var e := items[k];
    if overwrite {
      var removed := fs.Remove(e.target);
      if !removed {
        return false;
      }
      ClosedRemoved(old(fs.tree), e.target);
    }
    ghost var base := fs.tree;
    assert base == CommitBase(old(fs.tree), e, overwrite);
    assert Parent(e.temp) <= e.temp;
    ok := fs.Move(e.temp, e.target, false);
    if ok {
      assert e.temp != e.target by {
        assert e.temp <= e.temp;
      }
      ClosedMoved(base, e.temp, e.target);
    }
  }

  // The commit loop.
  method Commit(fs: FileSystem, items: seq<Item>, overwrite: bool, ghost t0: Tree, ghost st: seq<Tree>)
    returns (ok: bool, ghost k: nat, ghost ct: seq<Tree>)
    requires Batch(t0, items) && Closed(t0) && StageRun(t0, items, st) && |st| == |items| + 1 && fs.tree == st[|items|]
    modifies fs`tree
    ensures ok ==> CommitRun(t0, items, overwrite, st, ct) && |ct| == |items| + 1 && fs.tree == ct[|items|]
    ensures !ok ==> Halted(fs.tree, t0, items, overwrite, k)
    ensures fs.reliable && Sure(t0, items, overwrite) ==> ok
  {
    k, ct := 0, [fs.tree];
    StagedClosed(t0, items, st, |items|);
    for i := 0 to |items|
      invariant CommitRun(t0, items, overwrite, st, ct) && |ct| == i + 1 && fs.tree == ct[i] && Closed(fs.tree)
    {
      k := i;
      TempIs(t0, items, i);
      if Sure(t0, items, overwrite) {
        AllReadyIsReady(t0, items);
        CommitShows(t0, items, overwrite, st, ct, i);
        CommitGoes(t0, items, overwrite, i, ct[i]);
      }
      ok := CommitOne(fs, items, i, overwrite, t0);
      if !ok {
        if Sure(t0, items, overwrite) {
          ShowsStopped(ct[i], fs.tree, t0, items, i);
        }
        return;
      }
      CommitRunPush(t0, items, overwrite, st, ct, fs.tree);
      ct := ct + [fs.tree];
    }
    ok := true;
  }

  /******* RenameFS *******/

  ghost predicate Accepted(t: Tree, root: Path, entries: seq<Entry>, overwrite: bool) {
    BatchOk(t, root, entries) && TargetsFree(t, PlanOf(entries), overwrite)
  }

  function PlanOf(entries: seq<Entry>): seq<Planned>
    requires forall i :: 0 <= i < |entries| ==> entries[i].nextName.NewName?
  {
    seq(|entries|, i requires 0 <= i < |entries| => Plan(entries[i]))
  }

  // An entry that keeps its name cannot own another entry's target, so every existing target is the
  // source of an entry that moves away, or is overwritten.
  lemma TargetMayBeReplaced(t: Tree, plan: seq<Planned>, names: seq<Name>, overwrite: bool, k: nat)
    requires Closed(t) && DistinctPlan(t, plan) && |names| == |plan| && TargetsFree(t, plan, overwrite)
    requires k < |Items(plan, names, |plan|)|
    ensures MayReplace(t, Items(plan, names, |plan|), k, overwrite)
  {
    var items := Items(plan, names, |plan|);
    ItemsFromPlan(plan, names, |plan|);
    assert FromPlan(items[k], plan, names, |plan|);
    var i :| 0 <= i < |plan| && items[k] == ItemAt(plan, names, i) && plan[i].source != plan[i].target;
    if !overwrite && plan[i].target in t {
      var l := VacatingItem(t, plan, names, i);
      assert items[l].source == items[k].target;
    }
  }

  lemma VacatingItem(t: Tree, plan: seq<Planned>, names: seq<Name>, i: nat) returns (l: nat)
    requires DistinctPlan(t, plan) && |names| == |plan| && TargetsFree(t, plan, false)
    requires i < |plan| && plan[i].source != plan[i].target && plan[i].target in t
    ensures l < |Items(plan, names, |plan|)| && Items(plan, names, |plan|)[l].source == plan[i].target
  {
    var j :| 0 <= j < |plan| && plan[j].source == plan[i].target;
    l := ItemOfPlan(plan, names, |plan|, j);
  }

  lemma TargetsMayBeReplaced(t: Tree, plan: seq<Planned>, names: seq<Name>, overwrite: bool)
    requires Closed(t) && DistinctPlan(t, plan) && |names| == |plan| && TargetsFree(t, plan, overwrite)
    ensures MayReplaceAll(t, Items(plan, names, |plan|), overwrite)
  {
    var items := Items(plan, names, |plan|);
    forall k | 0 <= k < |items| ensures MayReplace(t, items, k, overwrite) {
      TargetMayBeReplaced(t, plan, names, overwrite, k);
    }
  }

  datatype Result = Renamed(paths: seq<Path>) | Failed(error: Error)

  // How far a call got: refused by a check, stopped by a failing move while staging and rolled back,
  // stopped while committing the k-th moving entry, or finished.
  datatype Outcome = Refused | RolledBack(n: nat, places: seq<Path>, restored: bool) | Stopped(k: nat) | Finished

  ghost predicate Explains(outcome: Outcome, t: Tree, t0: Tree, items: seq<Item>) {
    match outcome
    case Refused => t == t0
    case RolledBack(n, places, restored) =>
      && n < |items| && (restored ==> t == t0)
      && (Movable(items) ==> Staging(items[..n], places) && Shows(t, t0, items[..n], places, []))
    case Stopped(k) => k < |items| && (Movable(items) ==> StoppedAt(t, t0, items, k))
    case Finished =>
      (Movable(items) ==> RenamedTo(t, t0, items)) && (Injective(t0) && RenamedTo(t, t0, items) ==> Movable(items))
  }

  // The two phases, on an accepted plan.
  method Execute(fs: FileSystem, plan: seq<Planned>, overwrite: bool, names: seq<Name>, ghost items: seq<Item>)
    returns (r: Result, ghost outcome: Outcome)
    requires |names| == |plan| && items == Items(plan, names, |plan|) && Batch(fs.tree, items) && Closed(fs.tree)
    requires MayReplaceAll(fs.tree, items, overwrite)
    modifies fs`tree
    ensures !outcome.Refused? && Explains(outcome, fs.tree, old(fs.tree), items)
    ensures fs.reliable && Movable(items) ==> outcome.Finished?
    ensures (fs.reliable || fs.restores) && outcome.RolledBack? ==> fs.tree == old(fs.tree)
    ensures r.Renamed? <==> outcome.Finished?
    ensures outcome.RolledBack? || outcome.Stopped? ==> r == Failed(MoveError)
    ensures r.Renamed? ==> |r.paths| == |plan| && forall i :: 0 <= i < |plan| ==> r.paths[i] == plan[i].target
  {
    ghost var t0 := fs.tree;
    if Movable(items) {
      MovableAllReady(t0, items);
    }
    var staged, ok, st, places, restored := Stage(fs, plan, names, items);
    if !ok {
      outcome := RolledBack(|staged|, places, restored);
      assert staged == items[..|staged|];
      if Movable(items) {
        MovablePrefix(items, |staged|);
      }
      return Failed(MoveError), outcome;
    }
    var done, k, ct := Commit(fs, staged, overwrite, t0, st);
    if !done {
      return Failed(MoveError), Stopped(k);
    }
    RenamedExactlyWhenMovable(t0, items, overwrite, st, ct);
    var paths := ResultPaths(plan);
    r, outcome := Renamed(paths), Finished;
  }

  method ResultPaths(plan: seq<Planned>) returns (paths: seq<Path>)
    ensures |paths| == |plan| && forall i :: 0 <= i < |plan| ==> paths[i] == plan[i].target
  {
    paths := [];
    for i := 0 to |plan|
      invariant |paths| == i && forall j :: 0 <= j < i ==> paths[j] == plan[j].target
    {
      paths := paths + [plan[i].target];
    }
  }

  // The moving entries of a batch of requests.
  function ItemsOf(entries: seq<Entry>, names: seq<Name>): seq<Item>
    requires (forall i :: 0 <= i < |entries| ==> entries[i].nextName.NewName?) && |names| == |entries|
  {
    Items(PlanOf(entries), names, |entries|)
  }

  // The rename reports success exactly when it finished.  A refused one leaves the tree as it was, and so
  // does one that fails while staging, for every batch, unless a move back fails too.  A finished rename of
  // a movable batch is the simultaneous one, of any other it is not if contents are distinct; on a
  // reliable file system every accepted movable batch is finished.
  method RenameFS(fs: FileSystem, root: Path, entries: seq<Entry>, overwrite: bool, names: seq<Name>)
    returns (r: Result, ghost outcome: Outcome)
    requires Closed(fs.tree) && |names| == |entries|
    requires BatchOk(fs.tree, root, entries) ==> NewNames(fs.tree, PlanOf(entries), names)
    modifies fs`tree
    ensures outcome.Refused? <==> !old(Accepted(fs.tree, root, entries, overwrite))
    ensures outcome.Refused? ==> fs.tree == old(fs.tree)
    ensures !outcome.Refused? ==>
              BatchOk(old(fs.tree), root, entries) && Explains(outcome, fs.tree, old(fs.tree), ItemsOf(entries, names))
    ensures (fs.reliable || fs.restores) && outcome.RolledBack? ==> fs.tree == old(fs.tree)
    ensures !outcome.Refused? && fs.reliable && Movable(ItemsOf(entries, names)) ==> outcome.Finished?
    ensures !outcome.Refused? && fs.reliable && Injective(old(fs.tree)) ==>
              ((r.Renamed? && RenamedTo(fs.tree, old(fs.tree), ItemsOf(entries, names))) <==> Movable(ItemsOf(entries, names)))
    ensures r.Renamed? <==> outcome.Finished?
    ensures outcome.Refused? ==>
              r.Failed? && if BatchOk(old(fs.tree), root, entries) then r.error == TargetExists
                           else PlanFails(old(fs.tree), root, entries, r.error)
    ensures outcome.RolledBack? || outcome.Stopped? ==> r == Failed(MoveError)
    ensures r.Renamed? ==> |r.paths| == |entries| && forall i :: 0 <= i < |entries| ==> r.paths[i] == PlanOf(entries)[i].target
  {
    var p := MakePlan(fs.tree, root, entries);
    if p.PlanError? {
      return Failed(p.error), Refused;
    }
    var plan := p.plan;
    assert plan == PlanOf(entries);
    var free := CheckTargets(fs.tree, plan, overwrite);
    if !free {
      return Failed(TargetExists), Refused;
    }
    ghost var items := Items(plan, names, |plan|);
    PlanIsGood(fs.tree, root, entries);
    ItemsAreBatch(fs.tree, plan, names, |plan|);
    TargetsMayBeReplaced(fs.tree, plan, names, overwrite);
    r, outcome := Execute(fs, plan, overwrite, names, items);
  }

  lemma PlanIsGood(t: Tree, root: Path, entries: seq<Entry>)
    requires BatchOk(t, root, entries)
    ensures DistinctPlan(t, PlanOf(entries)) && SiblingPlan(PlanOf(entries))
  {
    var plan := PlanOf(entries);
    forall i | 0 <= i < |plan| ensures plan[i].target != [] && Parent(plan[i].target) == Parent(plan[i].source) {
      var dir := Parent(entries[i].path);
      assert (dir + [entries[i].nextName.name])[..|dir|] == dir;
    }
  }

  /******* A batch that succeeds and loses an entry *******/

  // d/x -> d/y, then a -> d with overwrite.
  function NestedTree(a: Name, d: Name, x: Name, c: seq<Content>): Tree
    requires |c| == 4
  {
    map[[] := c[0], [a] := c[1], [d] := c[2], [d, x] := c[3]]
  }

  function NestedEntries(a: Name, d: Name, x: Name, y: Name): seq<Entry> {
    [Entry([d, x], NewName(y)), Entry([a], NewName(d))]
  }

  function NestedItems(a: Name, d: Name, x: Name, y: Name, tx: Name, ta: Name): seq<Item> {
    [Item([d, x], [d, tx], [d, y]), Item([a], [ta], [d])]
  }

  lemma NestedPlan(a: Name, d: Name, x: Name, y: Name, tx: Name, ta: Name)
    requires a != d && x != y
    ensures PlanOf(NestedEntries(a, d, x, y)) == [Planned([d, x], [d, y]), Planned([a], [d])]
    ensures ItemsOf(NestedEntries(a, d, x, y), [tx, ta]) == NestedItems(a, d, x, y, tx, ta)
  {
    var plan := PlanOf(NestedEntries(a, d, x, y));
    assert Parent([d, x]) == [d] && Parent([a]) == [] && [] + [d] == [d] && [d] + [y] == [d, y];
    assert plan == [Planned([d, x], [d, y]), Planned([a], [d])];
    var names := [tx, ta];
    assert [d] + [tx] == [d, tx] && [] + [ta] == [ta];
    assert [a] != [d] && [d, x] != [d, y] by {
      assert [a][0] != [d][0] && [d, x][1] != [d, y][1];
    }
    assert Items(plan, names, 0) == [];
    assert Items(plan, names, 1) == [Item([d, x], [d, tx], [d, y])];
    assert Items(plan, names, 2) == Items(plan, names, 1) + [ItemAt(plan, names, 1)];
  }

  lemma NestedAccepted(a: Name, d: Name, x: Name, y: Name, c: seq<Content>)
    requires a != d && x != y && |c| == 4
    ensures Accepted(NestedTree(a, d, x, c), [], NestedEntries(a, d, x, y), true)
  {
    var entries := NestedEntries(a, d, x, y);
    NestedPlan(a, d, x, y, 0, 0);
    var plan := PlanOf(entries);
    assert Plan(entries[0]) == plan[0] && Plan(entries[1]) == plan[1];
    assert |[d, x]| != |[a]| && |[d, y]| != |[d]|;
  }

  // Moves that leave a path q where it is.
  lemma DoStage(t: Tree, item: Item, q: Path) returns (t': Tree)
    requires item.source in t && Apart(item.source, item.temp) && q in t && Apart(item.source, q) && Apart(item.temp, q)
    ensures StageMove(t, item, t') && item.temp in t' && q in t'
  {
    t' := Moved(t, item.source, item.temp);
    MovedHas(t, item.source, item.temp);
    MovedGet(t, item.source, item.temp, q);
  }

  lemma DoCommit(t: Tree, item: Item, q: Path) returns (t': Tree)
    requires item.temp in t && Apart(item.temp, item.target) && q in t && Apart(item.temp, q) && Apart(item.target, q)
    ensures CommitMove(t, item, true, t') && q in t'
  {
    t' := Moved(Removed(t, item.target), item.temp, item.target);
    MovedGet(Removed(t, item.target), item.temp, item.target, q);
  }

  // The trees of the run.
  lemma NestedRun(a: Name, d: Name, x: Name, y: Name, tx: Name, ta: Name, c: seq<Content>) returns (st: seq<Tree>, ct: seq<Tree>)
    requires |c| == 4 && a != d && x != y && tx !in [a, d, x, y] && ta !in [a, d, x, y] && tx != ta
    ensures CommitRun(NestedTree(a, d, x, c), NestedItems(a, d, x, y, tx, ta), true, st, ct) && |ct| == 3
  {
    var t0, items := NestedTree(a, d, x, c), NestedItems(a, d, x, y, tx, ta);
    NestedApart(a, d, x, y, tx, ta);
    NestedStart(a, d, x, c);
    st, ct := RunBoth(t0, items[0], items[1]);
    assert items == [items[0], items[1]];
  }

  lemma NestedStart(a: Name, d: Name, x: Name, c: seq<Content>)
    requires |c| == 4
    ensures [a] in NestedTree(a, d, x, c) && [d, x] in NestedTree(a, d, x, c)
  {
  }

  // Two entries that do not disturb each other until the second replaces its target.
  lemma RunBoth(t0: Tree, e: Item, f: Item) returns (st: seq<Tree>, ct: seq<Tree>)
    requires e.source in t0 && f.source in t0 && Apart(e.source, e.temp) && Apart(e.source, f.source) && Apart(e.temp, f.source)
    requires Apart(f.source, f.temp) && Apart(f.source, e.temp) && Apart(f.temp, e.temp)
    requires Apart(e.temp, e.target) && Apart(e.temp, f.temp) && Apart(e.target, f.temp) && Apart(f.temp, f.target)
    ensures CommitRun(t0, [e, f], true, st, ct) && |ct| == 3
  {
    st := StageBoth(t0, e, f);
    ct := CommitBoth(t0, e, f, st);
  }

  lemma StageBoth(t0: Tree, e: Item, f: Item) returns (st: seq<Tree>)
    requires e.source in t0 && f.source in t0 && Apart(e.source, e.temp) && Apart(e.source, f.source) && Apart(e.temp, f.source)
    requires Apart(f.source, f.temp) && Apart(f.source, e.temp) && Apart(f.temp, e.temp)
    ensures StageRun(t0, [e, f], st) && |st| == 3 && e.temp in st[2] && f.temp in st[2]
  {
    var s1 := DoStage(t0, e, f.source);
    var s2 := DoStage(s1, f, e.temp);
    StageRunPush(t0, [e, f], [t0], s1);
    StageRunPush(t0, [e, f], [t0] + [s1], s2);
    st := [t0] + [s1] + [s2];
  }

  lemma CommitBoth(t0: Tree, e: Item, f: Item, st: seq<Tree>) returns (ct: seq<Tree>)
    requires StageRun(t0, [e, f], st) && |st| == 3 && e.temp in st[2] && f.temp in st[2]
    requires Apart(e.temp, e.target) && Apart(e.temp, f.temp) && Apart(e.target, f.temp) && Apart(f.temp, f.target)
    ensures CommitRun(t0, [e, f], true, st, ct) && |ct| == 3
  {
    var c1 := DoCommit(st[2], e, f.temp);
    var c2 := DoLastCommit(c1, f);
    CommitRunPush(t0, [e, f], true, st, [st[2]], c1);
    CommitRunPush(t0, [e, f], true, st, [st[2]] + [c1], c2);
    ct := [st[2]] + [c1] + [c2];
  }

  lemma DoLastCommit(t: Tree, item: Item) returns (t': Tree)
    requires item.temp in t && Apart(item.temp, item.target)
    ensures CommitMove(t, item, true, t')
  {
    t' := Moved(Removed(t, item.target), item.temp, item.target);
  }

  lemma NestedApart(a: Name, d: Name, x: Name, y: Name, tx: Name, ta: Name)
    requires a != d && x != y && tx !in [a, d, x, y] && ta !in [a, d, x, y] && tx != ta
    ensures Apart([d, x], [d, tx]) && Apart([a], [ta]) && Apart([d, tx], [d, y]) && Apart([ta], [d]) && Apart([d, tx], [a])
    ensures Apart([d, x], [a]) && Apart([ta], [d, tx]) && Apart([a], [d, tx]) && Apart([d, tx], [ta]) && Apart([d, y], [ta])
  {
    ApartAt([d, x], [d, tx], 1);
    ApartAt([a], [ta], 0);
    ApartAt([d, tx], [d, y], 1);
    ApartAt([ta], [d], 0);
    ApartAt([d, tx], [a], 0);
    ApartAt([d, x], [a], 0);
    ApartAt([ta], [d, tx], 0);
    ApartAt([ta], [d, y], 0);
  }

  lemma ApartAt(p: Path, q: Path, i: nat)
    requires i < |p| && i < |q| && p[i] != q[i]
    ensures Apart(p, q)
  {
  }

  // The batch is accepted, every step of its run succeeds, and the content of d/x is gone.
  lemma NestedOverwriteLoses(a: Name, d: Name, x: Name, y: Name, tx: Name, ta: Name, c: seq<Content>)
    returns (st: seq<Tree>, ct: seq<Tree>)
    requires |c| == 4 && (forall i, j :: 0 <= i < j < 4 ==> c[i] != c[j])
    requires a != d && x != y && tx !in [a, d, x, y] && ta !in [a, d, x, y] && tx != ta
    ensures Accepted(NestedTree(a, d, x, c), [], NestedEntries(a, d, x, y), true)
    ensures CommitRun(NestedTree(a, d, x, c), ItemsOf(NestedEntries(a, d, x, y), [tx, ta]), true, st, ct) && |ct| == 3
    ensures Nowhere(ct[2], c[3])
  {
    var t0, items := NestedTree(a, d, x, c), NestedItems(a, d, x, y, tx, ta);
    NestedAccepted(a, d, x, y, c);
    NestedPlan(a, d, x, y, tx, ta);
    st, ct := NestedRun(a, d, x, y, tx, ta, c);
    NestedBatch(a, d, x, y, tx, ta, c);
    assert items[0].source == [d, x] && items[1].target == [d] && Above([d], [d, x]);
    assert Alone(t0, items, 0);
    NestedApart(a, d, x, y, tx, ta);
    ArrivedIsLost(t0, items, st, ct, 1, 0, 2);
  }

  lemma NestedBatch(a: Name, d: Name, x: Name, y: Name, tx: Name, ta: Name, c: seq<Content>)
    requires |c| == 4 && a != d && x != y && tx !in [a, d, x, y] && ta !in [a, d, x, y] && tx != ta
    ensures Batch(NestedTree(a, d, x, c), NestedItems(a, d, x, y, tx, ta))
  {
    var t0, plan, names := NestedTree(a, d, x, c), PlanOf(NestedEntries(a, d, x, y)), [tx, ta];
    NestedPlan(a, d, x, y, tx, ta);
    NestedAccepted(a, d, x, y, c);
    PlanIsGood(t0, [], NestedEntries(a, d, x, y));
    NestedNames(a, d, x, y, tx, ta, c);
    ItemsAreBatch(t0, plan, names, 2);
  }

  lemma NestedNames(a: Name, d: Name, x: Name, y: Name, tx: Name, ta: Name, c: seq<Content>)
    requires |c| == 4 && tx !in [a, d, x, y] && ta !in [a, d, x, y] && tx != ta
    ensures NewNames(NestedTree(a, d, x, c), [Planned([d, x], [d, y]), Planned([a], [d])], [tx, ta])
  {
    assert a in [a, d, x, y] && d in [a, d, x, y] && x in [a, d, x, y] && y in [a, d, x, y];
  }
}
