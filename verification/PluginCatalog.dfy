/**
 The installed-plugin lifecycle of core/app/plugin_catalog_runtime.go and core/app/plugin_catalog_store.go.

 Every operation changes up to three stores one after the other: the install roots on disk, the tool
 registry and the saved catalog.  Any step may fail, and the code then undoes the earlier ones.  The
 methods of Runtime follow the code step by step and are proved against the relation Step; the lemmas
 after them prove what every run of steps keeps.
 */
module PluginCatalog {
  import opened Common

  type Id = nat
  type Name = nat
  const NO_NAME: Name := 0

  // A plugin's final install root, or a directory with a generated name.
  datatype RootPath = Final(id: Id) | Temp(n: nat)
  datatype Root = Dir(content: nat) | NotDir

  datatype Status = Ready | Disabled | Errored
  datatype Record = Record(id: Id, version: nat, tools: seq<Name>, enabled: bool, status: Status, root: RootPath)

  // A registered tool belongs to the program or runs a plugin's process at some version.
  datatype Definition = Builtin | PluginTool(id: Id, version: nat)

  type Catalog = map<Id, Record>
  type Registry = map<Name, Definition>
  type Roots = map<RootPath, Root>

  datatype State = State(catalog: Catalog, registry: Registry, roots: Roots)

  predicate ValidTools(tools: seq<Name>) {
    && tools != [] && NO_NAME !in tools
    && forall i, j :: 0 <= i < j < |tools| ==> tools[i] != tools[j]
  }

  ghost predicate ValidCatalog(c: Catalog) {
    forall id :: id in c ==> c[id].id == id && c[id].root == Final(id) && ValidTools(c[id].tools)
  }

  /******* Effects on the registry *******/

  function Definitions(rec: Record): Registry {
    map n | n in rec.tools :: PluginTool(rec.id, rec.version)
  }

  function DefinitionsUpTo(rec: Record, i: nat): Registry
    requires i <= |rec.tools|
  {
    if i == 0 then map[] else DefinitionsUpTo(rec, i - 1)[rec.tools[i - 1] := PluginTool(rec.id, rec.version)]
  }

  lemma {:induction false} DefinitionsUpToGet(rec: Record, i: nat)
    requires i <= |rec.tools|
    ensures forall n :: n in DefinitionsUpTo(rec, i) <==> n in rec.tools[..i]
    ensures forall n :: n in DefinitionsUpTo(rec, i) ==> DefinitionsUpTo(rec, i)[n] == PluginTool(rec.id, rec.version)
  {
    if i > 0 {
      DefinitionsUpToGet(rec, i - 1);
      assert rec.tools[..i] == rec.tools[..i - 1] + [rec.tools[i - 1]];
    }
  }

  lemma DefinitionsComplete(rec: Record)
    ensures DefinitionsUpTo(rec, |rec.tools|) == Definitions(rec)
  {
    DefinitionsUpToGet(rec, |rec.tools|);
    assert rec.tools[..|rec.tools|] == rec.tools;
  }

  lemma NextNameFree(reg: Registry, rec: Record, i: nat)
    requires ValidTools(rec.tools) && NoConflict(reg, rec) && i < |rec.tools|
    ensures rec.tools[i] != NO_NAME && rec.tools[i] !in reg + DefinitionsUpTo(rec, i)
    ensures (reg + DefinitionsUpTo(rec, i))[rec.tools[i] := PluginTool(rec.id, rec.version)] == reg + DefinitionsUpTo(rec, i + 1)
  {
    DefinitionsUpToGet(rec, i);
    assert rec.tools[i] in rec.tools && rec.tools[i] !in rec.tools[..i];
  }

  function Registered(reg: Registry, rec: Record): Registry { reg + Definitions(rec) }

  function Unregistered(reg: Registry, rec: Record): Registry { map n | n in reg && n !in rec.tools :: reg[n] }

  predicate NoConflict(reg: Registry, rec: Record) { forall n :: n in rec.tools ==> n !in reg }

  /******* Operations *******/

  // What a fetched plugin source declares.
  datatype Manifest = Manifest(id: Id, version: nat, tools: seq<Name>, content: nat)

  datatype Op =
    | Install(manifest: Manifest)
    | Enable(id: Id)
    | Disable(id: Id)
    | Update(id: Id, manifest: Manifest)
    | Delete(id: Id)

  function Prepared(m: Manifest, root: RootPath): Record {
    Record(m.id, m.version, m.tools, false, Disabled, root)
  }

  function EnabledRecord(rec: Record): Record { rec.(enabled := true, status := Ready) }
  function DisabledRecord(rec: Record): Record { rec.(enabled := false, status := Disabled) }

  // The record that an update stores.
  function UpdatedRecord(existing: Record, m: Manifest): Record {
    var next := Prepared(m, Final(m.id));
    if existing.enabled then EnabledRecord(next) else DisabledRecord(next)
  }

  // When an operation succeeds, unless some call fails.
  predicate Accepts(s: State, op: Op) {
    match op
    case Install(m) => ValidTools(m.tools) && m.id !in s.catalog && NoConflict(s.registry, Prepared(m, Final(m.id)))
    case Enable(id) => id in s.catalog && NoConflict(s.registry, s.catalog[id])
    case Disable(id) => id in s.catalog
    case Update(id, m) =>
      && id in s.catalog && ValidTools(m.tools) && m.id == id && (Final(id) in s.roots ==> s.roots[Final(id)].Dir?)
      && (s.catalog[id].enabled ==>
            NoConflict(Unregistered(s.registry, s.catalog[id]), Prepared(m, Final(m.id))))
    case Delete(id) => id in s.catalog
  }

  function NewCatalog(s: State, op: Op): Catalog
    requires Accepts(s, op)
  {
    match op
    case Install(m) => s.catalog[m.id := EnabledRecord(Prepared(m, Final(m.id)))]
    case Enable(id) => s.catalog[id := EnabledRecord(s.catalog[id])]
    case Disable(id) => s.catalog[id := DisabledRecord(s.catalog[id])]
    case Update(id, m) => s.catalog[id := UpdatedRecord(s.catalog[id], m)]
    case Delete(id) => s.catalog - {id}
  }

  function NewRegistry(s: State, op: Op): Registry
    requires Accepts(s, op)
  {
    match op
    case Install(m) => Registered(s.registry, Prepared(m, Final(m.id)))
    case Enable(id) => Registered(s.registry, s.catalog[id])
    case Disable(id) => Unregistered(s.registry, s.catalog[id])
    case Update(id, m) =>
      if s.catalog[id].enabled
      then Registered(Unregistered(s.registry, s.catalog[id]), Prepared(m, Final(m.id)))
      else s.registry
    case Delete(id) => Unregistered(s.registry, s.catalog[id])
  }

  // The registry a failed operation leaves behind.  Tools of an enabled plugin are registered again,
  // names that a disable or delete took from a disabled one are not given back.
  function FailedRegistry(s: State, op: Op, late: bool): Registry {
    if (op.Disable? || op.Delete? || (op.Update? && late)) && op.id in s.catalog then
      var rec := s.catalog[op.id];
      if rec.enabled then Registered(Unregistered(s.registry, rec), rec)
      else if op.Update? then s.registry
      else Unregistered(s.registry, rec)
    else s.registry
  }

  function Target(op: Op): Id { if op.Install? then op.manifest.id else op.id }

  // What the operation does to the final install root of its plugin.
  ghost predicate RootDone(s: State, op: Op, roots: Roots) {
    match op
    case Install(m) => Get(roots, Final(m.id)) == Some(Dir(m.content))
    case Update(id, m) => Get(roots, Final(id)) == Some(Dir(m.content))
    case Delete(id) => Get(roots, Final(id)) == None
    case Enable(_) => roots == s.roots
    case Disable(_) => roots == s.roots
  }

  ghost predicate SameRoot(r: Roots, r': Roots, id: Id) { Get(r, Final(id)) == Get(r', Final(id)) }

  ghost predicate OtherRootsSame(r: Roots, r': Roots, id: Id) {
    forall j :: j != id ==> SameRoot(r, r', j)
  }

  // How a call ended: done, or failed, an update before or after it had exchanged the tools.
  datatype Outcome = Done | Failed(late: bool)

  // restores says that no call that puts an install root back fails.
  ghost predicate Step(s: State, op: Op, outcome: Outcome, restores: bool, s': State) {
    && OtherRootsSame(s.roots, s'.roots, Target(op))
    && match outcome
       case Done =>
         && Accepts(s, op) && RootDone(s, op, s'.roots)
         && s'.catalog == NewCatalog(s, op) && s'.registry == NewRegistry(s, op)
       case Failed(late) =>
         && s'.catalog == s.catalog && s'.registry == FailedRegistry(s, op, late)
         && (restores && Target(op) in s.catalog ==> SameRoot(s.roots, s'.roots, Target(op)))
  }

  /******* What success means, field by field *******/

  // The catalog has exactly this record for the id, and the others as before.
  ghost predicate Stores(c: Catalog, c': Catalog, id: Id, version: nat, tools: seq<Name>, enabled: bool) {
    && c'.Keys == c.Keys + {id} && (forall j :: j in c && j != id ==> c'[j] == c[j])
    && c'[id].id == id && c'[id].version == version && c'[id].tools == tools && c'[id].root == Final(id)
    && c'[id].enabled == enabled && c'[id].status == if enabled then Ready else Disabled
  }

  // The registry maps the names to the plugin at the version; the names dropped are gone unless they are
  // among them, and were gone before the names were added.
  ghost predicate Exchanges(reg: Registry, reg': Registry, dropped: seq<Name>, added: seq<Name>, id: Id, version: nat) {
    && (forall n :: n in added ==> n !in reg || n in dropped)
    && forall n :: Get(reg', n) == if n in added then Some(PluginTool(id, version)) else if n in dropped then None else Get(reg, n)
  }

  // What a successful operation has done, stated of the stores alone.
  ghost predicate Achieves(s: State, op: Op, s': State) {
    match op
    case Install(m) =>
      && m.id !in s.catalog && ValidTools(m.tools)
      && Stores(s.catalog, s'.catalog, m.id, m.version, m.tools, true)
      && Exchanges(s.registry, s'.registry, [], m.tools, m.id, m.version)
    case Enable(id) =>
      && id in s.catalog && Stores(s.catalog, s'.catalog, id, s.catalog[id].version, s.catalog[id].tools, true)
      && Exchanges(s.registry, s'.registry, [], s.catalog[id].tools, id, s.catalog[id].version)
    case Disable(id) =>
      && id in s.catalog && Stores(s.catalog, s'.catalog, id, s.catalog[id].version, s.catalog[id].tools, false)
      && Exchanges(s.registry, s'.registry, s.catalog[id].tools, [], id, 0)
    case Update(id, m) =>
      && id in s.catalog && m.id == id && ValidTools(m.tools)
      && Stores(s.catalog, s'.catalog, id, m.version, m.tools, s.catalog[id].enabled)
      && (if s.catalog[id].enabled then Exchanges(s.registry, s'.registry, s.catalog[id].tools, m.tools, id, m.version)
          else s'.registry == s.registry)
    case Delete(id) =>
      && id in s.catalog && s'.catalog.Keys == s.catalog.Keys - {id}
      && (forall j :: j in s'.catalog ==> s'.catalog[j] == s.catalog[j])
      && Exchanges(s.registry, s'.registry, s.catalog[id].tools, [], id, 0)
  }

  lemma DoneAchieves(s: State, op: Op, restores: bool, s': State)
    requires (op.Install? || ValidCatalog(s.catalog)) && Step(s, op, Done, restores, s')
    ensures Achieves(s, op, s')
  {
    match op
    case Install(m) =>
      AddsNames(s.registry, Prepared(m, Final(m.id)));
    case Enable(id) => AddsNames(s.registry, s.catalog[id]);
    case Disable(id) =>
    case Update(id, m) =>
      if s.catalog[id].enabled {
        AddsNames(Unregistered(s.registry, s.catalog[id]), Prepared(m, Final(m.id)));
      }
    case Delete(id) =>
  }

  lemma AddsNames(reg: Registry, rec: Record)
    requires NoConflict(reg, rec)
    ensures Exchanges(reg, Registered(reg, rec), [], rec.tools, rec.id, rec.version)
  {
  }

  /******* The runtime *******/

  class Runtime {
    var catalog: Catalog
    var registry: Registry
    var roots: Roots
    // No call fails without a reason, and none of those that put an install root back.
    const reliable: bool
    const restores: bool

    constructor (catalog: Catalog, registry: Registry, roots: Roots, reliable: bool, restores: bool)
      ensures S() == State(catalog, registry, roots) && this.reliable == reliable && this.restores == restores
    {
      this.catalog, this.registry, this.roots, this.reliable, this.restores := catalog, registry, roots, reliable, restores;
    }

    // Whether a call fails only for a reason; back tells those that put an install root back.
    predicate Sure(back: bool) { reliable || (back && restores) }

    ghost function S(): State
      reads this
    {
      State(catalog, registry, roots)
    }

    // Removing a directory tree may fail halfway, but touches nothing else.
    method RemoveAll(p: RootPath, back: bool) returns (ok: bool)
      modifies this`roots
      ensures ok ==> roots == old(roots) - {p}
      ensures forall q :: q != p ==> Get(roots, q) == Get(old(roots), q)
      ensures Sure(back) ==> ok
    {
      ok := *;
      ok := ok || Sure(back);
      var damaged: bool := *;
      if ok {
        roots := roots - {p};
      } else if p in roots && damaged {
        roots := roots[p := Dir(0)];
      }
    }

    method Rename(a: RootPath, b: RootPath, back: bool) returns (ok: bool)
      requires a != b
      modifies this`roots
      ensures ok ==> a in old(roots) && b !in old(roots) && roots == (old(roots) - {a})[b := old(roots)[a]]
      ensures !ok ==> roots == old(roots)
      ensures Sure(back) && a in old(roots) && b !in old(roots) ==> ok
    {
      ok := *;
      ok := (ok || Sure(back)) && a in roots && b !in roots;
      if ok {
        roots := (roots - {a})[b := roots[a]];
      }
    }

    // The store saves the next state before taking it over.
    method Create(rec: Record) returns (ok: bool)
      modifies this`catalog
      ensures ok ==> rec.id !in old(catalog) && catalog == old(catalog)[rec.id := rec]
      ensures !ok ==> catalog == old(catalog)
      ensures reliable && rec.id !in old(catalog) ==> ok
    {
      if rec.id in catalog {
        return false;
      }
      var next := catalog[rec.id := rec];
      ok := *;
      ok := ok || reliable;
      if ok {
        catalog := next;
      }
    }

    method Replace(rec: Record) returns (ok: bool)
      modifies this`catalog
      ensures ok ==> rec.id in old(catalog) && catalog == old(catalog)[rec.id := rec]
      ensures !ok ==> catalog == old(catalog)
      ensures reliable && rec.id in old(catalog) ==> ok
    {
      if rec.id !in catalog {
        return false;
      }
      var next := catalog[rec.id := rec];
      ok := *;
      ok := ok || reliable;
      if ok {
        catalog := next;
      }
    }

    method Erase(id: Id) returns (ok: bool)
      modifies this`catalog
      ensures ok ==> id in old(catalog) && catalog == old(catalog) - {id}
      ensures !ok ==> catalog == old(catalog)
      ensures reliable && id in old(catalog) ==> ok
    {
      if id !in catalog {
        return false;
      }
      var next := catalog - {id};
      ok := *;
      ok := ok || reliable;
      if ok {
        catalog := next;
      }
    }

    // registerInstalledPlugin checks every name before it registers any.
    method Register(rec: Record) returns (ok: bool)
      requires ValidTools(rec.tools)
      modifies this`registry
      ensures ok <==> NoConflict(old(registry), rec)
      ensures registry == if ok then Registered(old(registry), rec) else old(registry)
    {
      for i := 0 to |rec.tools|
        invariant forall k :: 0 <= k < i ==> rec.tools[k] !in registry
      {
        if rec.tools[i] in registry {
          return false;
        }
      }
      ok := RegisterAll(rec);
    }

    // The second loop: with every name free and distinct, no registration is refused.
    method RegisterAll(rec: Record) returns (ok: bool)
      requires ValidTools(rec.tools) && NoConflict(registry, rec)
      modifies this`registry
      ensures ok && registry == Registered(old(registry), rec)
    {
      for i := 0 to |rec.tools|
        invariant registry == old(registry) + DefinitionsUpTo(rec, i)
      {
        NextNameFree(old(registry), rec, i);
        if rec.tools[i] == NO_NAME || rec.tools[i] in registry {
          assert false;
          return false;
        }
        registry := registry[rec.tools[i] := PluginTool(rec.id, rec.version)];
      }
      DefinitionsComplete(rec);
      ok := true;
    }

    method Unregister(rec: Record)
      modifies this`registry
      ensures registry == Unregistered(old(registry), rec)
    {
      for i := 0 to |rec.tools|
        invariant registry == map n | n in old(registry) && n !in rec.tools[..i] :: old(registry)[n]
      {
        assert rec.tools[..i + 1] == rec.tools[..i] + [rec.tools[i]];
        registry := registry - {rec.tools[i]};
      }
      assert rec.tools[..|rec.tools|] == rec.tools;
    }

    // Fetches a source and copies it to a new staging directory.
    method Prepare(m: Manifest, existing: Option<Id>, temp: nat) returns (ok: bool, rec: Record)
      requires Temp(temp) !in roots
      modifies this`roots
      ensures ok ==> ValidTools(m.tools) && roots == old(roots)[Temp(temp) := Dir(m.content)]
      ensures ok ==> if existing.Some? then m.id == existing.value else m.id !in catalog
      ensures rec == Prepared(m, Temp(temp))
      ensures forall j :: SameRoot(old(roots), roots, j)
      ensures reliable && ValidTools(m.tools) && (if existing.Some? then m.id == existing.value else m.id !in catalog) ==> ok
    {
      rec := Prepared(m, Temp(temp));
      ok := *;
      ok := ok || reliable;
      if !ok || !ValidTools(m.tools) {
        return false, rec;
      }
      if existing.Some? && m.id != existing.value {
        return false, rec;
      }
      if existing.None? && m.id in catalog {
        return false, rec;
      }
      ok := *;
      ok := ok || reliable;
      roots := roots[Temp(temp) := Dir(m.content)];
      if !ok {
        var _ := RemoveAll(Temp(temp), false);
      }
    }

    method Promote(staged: Record) returns (ok: bool, rec: Record)
      requires staged.root.Temp? && staged.root in roots
      modifies this`roots
      ensures rec == staged.(root := Final(staged.id))
      ensures ok ==> Get(roots, Final(staged.id)) == Get(old(roots), staged.root)
      ensures OtherRootsSame(old(roots), roots, staged.id)
      ensures reliable ==> ok
    {
      rec := staged.(root := Final(staged.id));
      ok := RemoveAll(Final(staged.id), false);
      assert Get(roots, staged.root) == Get(old(roots), staged.root);
      assert OtherRootsSame(old(roots), roots, staged.id);
      if ok {
        ok := Rename(staged.root, Final(staged.id), false);
      }
    }

    method InstallPlugin(m: Manifest, temp: nat) returns (ok: bool, ghost outcome: Outcome)
      requires Temp(temp) !in roots
      modifies this
      ensures ok <==> outcome.Done?
      ensures Step(old(S()), Install(m), outcome, restores, S())
      ensures reliable ==> (ok <==> Accepts(old(S()), Install(m)))
      ensures ok ==> Achieves(old(S()), Install(m), S())
    {
      var rec;
      ok, rec := Prepare(m, None, temp);
      outcome := Failed(false);
      if !ok {
        return;
      }
      ghost var staged := roots;
      ok, rec := Promote(rec);
      RootsAgain(old(roots), staged, roots, m.id);
      if !ok {
        return;
      }
      ok := Register(rec);
      if ok {
        ok := Create(EnabledRecord(rec));
        if ok {
          DoneAchieves(old(S()), Install(m), restores, S());
          return true, Done;
        }
        UnregisterUndoes(old(registry), rec);
        Unregister(rec);
      }
      ghost var promoted := roots;
      var _ := RemoveAll(Final(m.id), false);
      RootsAgain(old(roots), promoted, roots, m.id);
    }

    // Moves the existing root aside, if there is one, and the staged root into its place.
    method SwapRoot(staged: Record, temp: nat)
      returns (ok: bool, backup: Option<RootPath>, next: Record)
      requires staged.root.Temp? && staged.root in roots && Temp(temp) !in roots
      modifies this`roots
      ensures next == staged.(root := Final(staged.id))
      ensures ok ==> Get(roots, Final(staged.id)) == Get(old(roots), staged.root)
      ensures ok ==> if Final(staged.id) in old(roots)
                     then old(roots)[Final(staged.id)].Dir? && backup == Some(Temp(temp))
                          && Get(roots, Temp(temp)) == Get(old(roots), Final(staged.id))
                     else backup == None
      ensures OtherRootsSame(old(roots), roots, staged.id)
      ensures !ok && restores ==> SameRoot(old(roots), roots, staged.id)
      ensures reliable && (Final(staged.id) in old(roots) ==> old(roots)[Final(staged.id)].Dir?) ==> ok
    {
      var final := Final(staged.id);
      next, backup := staged.(root := final), None;
      var readable: bool := *;
      if !readable && !reliable {
        return false, backup, next;
      }
      if final in roots {
        if roots[final].NotDir? {
          return false, backup, next;
        }
        var made: bool := *;
        if !made && !reliable {
          return false, backup, next;
        }
        ok := Rename(final, Temp(temp), false);
        if !ok {
          return;
        }
        backup := Some(Temp(temp));
      }
      ok := Rename(staged.root, final, false);
      if !ok && backup.Some? {
        var _ := Rename(backup.value, final, true);
      }
    }

    method RestoreRoot(next: Record, backup: Option<RootPath>) returns (ok: bool)
      requires next.root == Final(next.id) && (backup.Some? ==> backup.value.Temp? && backup.value in roots)
      modifies this`roots
      ensures restores ==> ok
      ensures ok ==> Get(roots, Final(next.id)) == if backup.Some? then Get(old(roots), backup.value) else None
      ensures OtherRootsSame(old(roots), roots, next.id)
    {
      ok := RemoveAll(next.root, true);
      ghost var removed := roots;
      assert OtherRootsSame(old(roots), roots, next.id);
      if !ok || backup.None? {
        return;
      }
      assert Get(roots, backup.value) == Get(old(roots), backup.value);
      ok := Rename(backup.value, Final(next.id), true);
      RootsAgain(old(roots), removed, roots, next.id);
    }

    method UpdateInstalledPlugin(id: Id, m: Manifest, temp: nat, aside: nat) returns (ok: bool, ghost outcome: Outcome)
      requires ValidCatalog(catalog) && Temp(temp) !in roots && Temp(aside) !in roots && temp != aside
      modifies this
      ensures ok <==> outcome.Done?
      ensures Step(old(S()), Update(id, m), outcome, restores, S())
      ensures reliable ==> (ok <==> Accepts(old(S()), Update(id, m)))
      ensures ok ==> Achieves(old(S()), Update(id, m), S())
    {
      outcome := Failed(false);
      if id !in catalog {
        return false, outcome;
      }
      var existing := catalog[id];
      var next;
      ok, next := Prepare(m, Some(id), temp);
      assert OtherRootsSame(old(roots), roots, id);
      assert SameRoot(old(roots), roots, id);
      if !ok {
        return;
      }
      ghost var staged := roots;
      var backup;
      ghost var swapped;
      ok, backup, next := SwapRoot(next, aside);
      RootsAgain(old(roots), staged, roots, id);
      if !ok {
        swapped := roots;
        var _ := DropStaging(Temp(temp));
        RootsAgain(old(roots), swapped, roots, id);
        assert SameRoot(swapped, roots, id);
        return false, outcome;
      }
      swapped := roots;
      assert backup.Some? ==> Get(roots, backup.value) == Get(old(roots), Final(id));
      ok := ExchangeTools(existing, next);
      if ok {
        next := if existing.enabled then EnabledRecord(next) else DisabledRecord(next);
        ok := Replace(next);
        if ok {
          if backup.Some? {
            assert roots == swapped;
            var _ := DropStaging(backup.value);
            RootsAgain(old(roots), swapped, roots, id);
            assert SameRoot(swapped, roots, id);
          }
          DoneAchieves(old(S()), Update(id, m), restores, S());
          return true, Done;
        }
        if next.enabled {
          UnregisterUndoes(Unregistered(old(registry), existing), next);
          Unregister(next);
        }
      }
      var _ := RestoreRoot(next, backup);
      RootsAgain(old(roots), swapped, roots, id);
      if existing.enabled {
        var again := Register(existing);
        assert again;
      }
      swapped := roots;
      var _ := DropStaging(Temp(temp));
      RootsAgain(old(roots), swapped, roots, id);
      assert SameRoot(swapped, roots, id);
      return false, Failed(true);
    }

    // RemoveAll of a generated directory, whose result is ignored.
    method DropStaging(p: RootPath) returns (ok: bool)
      requires p.Temp?
      modifies this`roots
      ensures forall j :: SameRoot(old(roots), roots, j)
    {
      ok := RemoveAll(p, false);
    }

    // The registry half of an update: tools change only when the plugin is enabled.
    method ExchangeTools(existing: Record, next: Record) returns (ok: bool)
      requires ValidTools(next.tools)
      modifies this`registry
      ensures ok <==> (existing.enabled ==> NoConflict(Unregistered(old(registry), existing), next))
      ensures registry == if !existing.enabled then old(registry)
                          else if ok then Registered(Unregistered(old(registry), existing), next)
                          else Unregistered(old(registry), existing)
    {
      ok := true;
      if existing.enabled {
        Unregister(existing);
        ok := Register(next);
      }
    }

    method SetPluginEnabled(id: Id, enabled: bool) returns (ok: bool, ghost outcome: Outcome)
      requires ValidCatalog(catalog)
      modifies this`catalog, this`registry
      ensures ok <==> outcome.Done?
      ensures Step(old(S()), if enabled then Enable(id) else Disable(id), outcome, restores, S())
      ensures reliable ==> (ok <==> Accepts(old(S()), if enabled then Enable(id) else Disable(id)))
      ensures ok ==> Achieves(old(S()), if enabled then Enable(id) else Disable(id), S())
    {
      outcome := Failed(false);
      if id !in catalog {
        return false, outcome;
      }
      var rec := catalog[id];
      if enabled {
        ok := Register(rec);
        if !ok {
          return;
        }
        ok := Replace(EnabledRecord(rec));
        if !ok {
          UnregisterUndoes(old(registry), rec);
          Unregister(rec);
          return;
        }
        DoneAchieves(old(S()), if enabled then Enable(id) else Disable(id), restores, S());
        return true, Done;
      }
      Unregister(rec);
      ok := Replace(DisabledRecord(rec));
      if ok {
        DoneAchieves(old(S()), if enabled then Enable(id) else Disable(id), restores, S());
        return true, Done;
      }
      if rec.enabled {
        var again := Register(rec);
        assert again;
      }
    }

    // Moves an install root aside before the catalog forgets the plugin.
    method StageRemoval(rec: Record, aside: nat) returns (ok: bool, removal: Option<RootPath>)
      requires rec.root == Final(rec.id) && Temp(aside) !in roots
      modifies this`roots
      ensures !ok ==> roots == old(roots)
      ensures ok ==> Get(roots, rec.root) == None
      ensures ok ==> if rec.root in old(roots)
                     then removal == Some(Temp(aside)) && Get(roots, Temp(aside)) == Get(old(roots), rec.root)
                     else removal == None
      ensures OtherRootsSame(old(roots), roots, rec.id)
      ensures reliable ==> ok
    {
      removal := None;
      var readable: bool := *;
      if !readable && !reliable {
        return false, None;
      }
      if rec.root !in roots {
        return true, None;
      }
      ok := Rename(rec.root, Temp(aside), false);
      if ok {
        removal := Some(Temp(aside));
      }
    }

    // The existence check never refuses: the root was moved away before.
    method RestoreStaged(rec: Record, removal: Option<RootPath>) returns (ok: bool)
      requires rec.root == Final(rec.id) && rec.root !in roots
      requires removal.Some? ==> removal.value.Temp? && removal.value in roots
      modifies this`roots
      ensures restores ==> ok
      ensures ok ==> Get(roots, rec.root) == if removal.Some? then Get(old(roots), removal.value) else None
      ensures OtherRootsSame(old(roots), roots, rec.id)
    {
      if removal.None? {
        return true;
      }
      if rec.root in roots {
        assert false;
        return false;
      }
      ok := Rename(removal.value, rec.root, true);
    }

    method DeleteInstalledPlugin(id: Id, aside: nat) returns (ok: bool, ghost outcome: Outcome)
      requires ValidCatalog(catalog) && Temp(aside) !in roots
      modifies this
      ensures ok <==> outcome.Done?
      ensures Step(old(S()), Delete(id), outcome, restores, S())
      ensures reliable ==> (ok <==> Accepts(old(S()), Delete(id)))
      ensures ok ==> Achieves(old(S()), Delete(id), S())
    {
      outcome := Failed(false);
      if id !in catalog {
        return false, outcome;
      }
      var rec := catalog[id];
      Unregister(rec);
      var removal;
      ok, removal := StageRemoval(rec, aside);
      ghost var staged := roots;
      if ok {
        ok := Erase(id);
        if ok {
          if removal.Some? {
            assert roots == staged;
            var _ := DropStaging(removal.value);
            RootsAgain(old(roots), staged, roots, id);
            assert SameRoot(staged, roots, id);
          }
          DoneAchieves(old(S()), Delete(id), restores, S());
          return true, Done;
        }
        var _ := RestoreStaged(rec, removal);
        RootsAgain(old(roots), staged, roots, id);
      }
      if rec.enabled {
        var again := Register(rec);
        assert again;
      }
    }

    // Registers the enabled plugins of a snapshot at start; one that conflicts is stored disabled.
    // When saving fails at one record, the earlier ones are done and the later ones untouched.
    method SyncInstalledPlugins(order: seq<Id>) returns (ok: bool, ghost stopped: nat)
      requires ValidCatalog(catalog) && Lists(order, catalog.Keys)
      modifies this`catalog, this`registry
      ensures ok ==> Synced(old(catalog), old(registry), order, |order|) == (catalog, registry)
      ensures !ok ==> stopped < |order| && catalog == Synced(old(catalog), old(registry), order, stopped).0
      ensures !ok ==> registry == Synced(old(catalog), old(registry), order, stopped + 1).1
      ensures reliable ==> ok
    {
      stopped := 0;
      var snapshot := catalog;
      for i := 0 to |order|
        invariant Synced(snapshot, old(registry), order, i) == (catalog, registry)
        invariant catalog.Keys == snapshot.Keys
      {
        stopped := i;
        var rec := snapshot[order[i]];
        if !rec.enabled {
          continue;
        }
        var registered := Register(rec);
        if !registered {
          ok := Replace(rec.(enabled := false, status := Errored));
          if !ok {
            return;
          }
          continue;
        }
        ok := Replace(rec.(status := Ready));
        if !ok {
          return;
        }
      }
      ok := true;
    }
  }

  // Catalog and registry after the first n records of the snapshot.
  function Synced(c: Catalog, reg: Registry, order: seq<Id>, n: nat): (Catalog, Registry)
    requires n <= |order| && forall i :: 0 <= i < |order| ==> order[i] in c
  {
    if n == 0 then (c, reg) else SyncOne(Synced(c, reg, order, n - 1), c[order[n - 1]])
  }

  function SyncOne(before: (Catalog, Registry), rec: Record): (Catalog, Registry) {
    if !rec.enabled then before
    else if NoConflict(before.1, rec)
    then (before.0[rec.id := rec.(status := Ready)], Registered(before.1, rec))
    else (before.0[rec.id := rec.(enabled := false, status := Errored)], before.1)
  }

  lemma RootsAgain(r: Roots, mid: Roots, r': Roots, id: Id)
    requires OtherRootsSame(r, mid, id) && OtherRootsSame(mid, r', id)
    ensures OtherRootsSame(r, r', id)
  {
    forall j | j != id ensures SameRoot(r, r', j) {
      assert SameRoot(r, mid, j) && SameRoot(mid, r', j);
    }
  }

  lemma UnregisterUndoes(reg: Registry, rec: Record)
    requires NoConflict(reg, rec)
    ensures Unregistered(Registered(reg, rec), rec) == reg
  {
  }

  /******* What every step keeps *******/

  ghost predicate Owns(reg: Registry, rec: Record) {
    forall n :: n in rec.tools ==> Get(reg, n) == Some(PluginTool(rec.id, rec.version))
  }

  ghost predicate Justified(s: State, builtins: set<Name>, n: Name)
    requires n in s.registry
  {
    match s.registry[n]
    case Builtin => n in builtins
    case PluginTool(id, v) =>
      id in s.catalog && s.catalog[id].enabled && s.catalog[id].version == v && n in s.catalog[id].tools
  }

  ghost predicate BuiltinsIn(reg: Registry, builtins: set<Name>) {
    forall n :: n in builtins ==> Get(reg, n) == Some(Builtin)
  }

  ghost predicate AllJustified(s: State, builtins: set<Name>) {
    forall n :: n in s.registry ==> Justified(s, builtins, n)
  }

  ghost predicate EnabledOwn(s: State) {
    forall id :: id in s.catalog && s.catalog[id].enabled ==> Owns(s.registry, s.catalog[id])
  }

  // The registry holds the program's own tools and exactly the tools of the enabled records, each
  // running the plugin, at the version, that the catalog names.
  ghost predicate Inv(s: State, builtins: set<Name>) {
    ValidCatalog(s.catalog) && BuiltinsIn(s.registry, builtins) && AllJustified(s, builtins) && EnabledOwn(s)
  }

  // Disabling or deleting a record that is already disabled takes its tool names from the registry; that
  // is harmless exactly when nobody has registered them.
  predicate Safe(s: State, op: Op) {
    (op.Disable? || op.Delete?) && op.id in s.catalog && !s.catalog[op.id].enabled ==>
      NoConflict(s.registry, s.catalog[op.id])
  }

  lemma ReRegister(s: State, builtins: set<Name>, id: Id)
    requires Inv(s, builtins) && id in s.catalog && s.catalog[id].enabled
    ensures Registered(Unregistered(s.registry, s.catalog[id]), s.catalog[id]) == s.registry
  {
    var rec := s.catalog[id];
    assert Owns(s.registry, rec);
    assert forall n :: n in rec.tools ==> Get(s.registry, n) == Some(PluginTool(id, rec.version));
  }

  lemma UnregisterNothing(reg: Registry, rec: Record)
    requires NoConflict(reg, rec)
    ensures Unregistered(reg, rec) == reg
  {
  }

  // A failed operation leaves every record, its tools and, when no call that puts a root back fails, its
  // root.
  lemma FailedStepChangesNothing(s: State, op: Op, outcome: Outcome, restores: bool, s': State, builtins: set<Name>)
    requires Inv(s, builtins) && Step(s, op, outcome, restores, s') && outcome.Failed? && Safe(s, op)
    ensures s'.catalog == s.catalog && s'.registry == s.registry
    ensures restores ==> forall id :: id in s.catalog ==> SameRoot(s.roots, s'.roots, id)
  {
    if !op.Install? && op.id in s.catalog {
      if s.catalog[op.id].enabled {
        ReRegister(s, builtins, op.id);
      } else if op.Disable? || op.Delete? {
        UnregisterNothing(s.registry, s.catalog[op.id]);
      }
    }
  }

  // Adding an enabled record whose tools are free.
  lemma AddEnabled(s: State, rec: Record, s': State, builtins: set<Name>)
    requires Inv(s, builtins) && rec.enabled && ValidTools(rec.tools) && rec.root == Final(rec.id)
    requires NoConflict(s.registry, rec) && (rec.id in s.catalog ==> !s.catalog[rec.id].enabled)
    requires s'.catalog == s.catalog[rec.id := rec] && s'.registry == Registered(s.registry, rec)
    ensures Inv(s', builtins)
  {
    assert BuiltinsIn(s'.registry, builtins) by {
      forall n | n in builtins ensures Get(s'.registry, n) == Some(Builtin) { assert Get(s.registry, n) == Some(Builtin); }
    }
    forall n | n in s'.registry ensures Justified(s', builtins, n) {
      if n in s.registry { assert Justified(s, builtins, n); }
    }
    forall id | id in s'.catalog && s'.catalog[id].enabled ensures Owns(s'.registry, s'.catalog[id]) {
      if id != rec.id {
        assert Owns(s.registry, s.catalog[id]);
        forall n | n in s.catalog[id].tools ensures Get(s'.registry, n) == Some(PluginTool(id, s.catalog[id].version)) {
          assert Get(s.registry, n) == Some(PluginTool(id, s.catalog[id].version));
        }
      }
    }
  }

  // Taking away a record's tools when they are its own, with the record disabled or gone afterwards.
  lemma TakeTools(s: State, id: Id, s': State, builtins: set<Name>)
    requires Inv(s, builtins) && id in s.catalog && (s.catalog[id].enabled || NoConflict(s.registry, s.catalog[id]))
    requires ValidCatalog(s'.catalog) && s'.registry == Unregistered(s.registry, s.catalog[id])
    requires forall j :: j != id ==> Get(s'.catalog, j) == Get(s.catalog, j)
    requires id in s'.catalog ==> !s'.catalog[id].enabled
    ensures Inv(s', builtins)
  {
    var rec := s.catalog[id];
    assert rec.enabled ==> Owns(s.registry, rec);
    assert forall n :: n in rec.tools && n in s.registry ==> s.registry[n] == PluginTool(id, rec.version);
    forall n | n in builtins ensures Get(s'.registry, n) == Some(Builtin) { assert Get(s.registry, n) == Some(Builtin); }
    forall n | n in s'.registry ensures Justified(s', builtins, n) {
      assert Justified(s, builtins, n);
      if s.registry[n].PluginTool? {
        assert s.registry[n].id != id;
        assert Get(s'.catalog, s.registry[n].id) == Get(s.catalog, s.registry[n].id);
      }
    }
    forall j | j in s'.catalog && s'.catalog[j].enabled ensures Owns(s'.registry, s'.catalog[j]) {
      assert Get(s'.catalog, j) == Get(s.catalog, j);
      assert Owns(s.registry, s.catalog[j]);
      forall n | n in s.catalog[j].tools ensures Get(s'.registry, n) == Some(PluginTool(j, s.catalog[j].version)) {
        assert Get(s.registry, n) == Some(PluginTool(j, s.catalog[j].version));
      }
    }
  }

  lemma DoneStepKeepsInv(s: State, op: Op, restores: bool, s': State, builtins: set<Name>)
    requires Inv(s, builtins) && Step(s, op, Done, restores, s') && Safe(s, op)
    ensures Inv(s', builtins)
  {
    match op {
      case Install(m) => AddEnabled(s, EnabledRecord(Prepared(m, Final(m.id))), s', builtins);
      case Enable(id) => EnableKeepsInv(s, id, restores, s', builtins);
      case Disable(id) => TakeTools(s, id, s', builtins);
      case Update(id, m) => UpdateKeepsInv(s, id, m, restores, s', builtins);
      case Delete(id) => TakeTools(s, id, s', builtins);
    }
  }

  lemma UpdateKeepsInv(s: State, id: Id, m: Manifest, restores: bool, s': State, builtins: set<Name>)
    requires Inv(s, builtins) && Step(s, Update(id, m), Done, restores, s')
    ensures Inv(s', builtins)
  {
    var next := UpdatedRecord(s.catalog[id], m);
    if s.catalog[id].enabled {
      var bare := State(s.catalog - {id}, Unregistered(s.registry, s.catalog[id]), s.roots);
      TakeTools(s, id, bare, builtins);
      AddEnabled(bare, next, s', builtins);
    } else {
      ReplaceDisabled(s, next, s', builtins);
    }
  }

  // A plugin that is enabled already cannot be enabled again: its own tools are in the way.
  lemma EnableKeepsInv(s: State, id: Id, restores: bool, s': State, builtins: set<Name>)
    requires Inv(s, builtins) && Step(s, Enable(id), Done, restores, s')
    ensures !s.catalog[id].enabled && Inv(s', builtins)
  {
    var rec := s.catalog[id];
    assert rec.tools[0] in rec.tools;
    assert rec.tools[0] !in s.registry;
    assert rec.enabled ==> Owns(s.registry, rec);
    AddEnabled(s, EnabledRecord(rec), s', builtins);
  }

  lemma ReplaceDisabled(s: State, rec: Record, s': State, builtins: set<Name>)
    requires Inv(s, builtins) && (rec.id in s.catalog ==> !s.catalog[rec.id].enabled) && !rec.enabled
    requires ValidTools(rec.tools) && rec.root == Final(rec.id)
    requires s'.catalog == s.catalog[rec.id := rec] && s'.registry == s.registry
    ensures Inv(s', builtins)
  {
    forall n | n in s'.registry ensures Justified(s', builtins, n) {
      assert Justified(s, builtins, n);
    }
    forall id | id in s'.catalog && s'.catalog[id].enabled ensures Owns(s'.registry, s'.catalog[id]) {
      assert Owns(s.registry, s.catalog[id]);
    }
  }

  lemma StepKeepsInv(s: State, op: Op, outcome: Outcome, restores: bool, s': State, builtins: set<Name>)
    requires Inv(s, builtins) && Step(s, op, outcome, restores, s') && Safe(s, op)
    ensures Inv(s', builtins)
  {
    if outcome.Done? {
      DoneStepKeepsInv(s, op, restores, s', builtins);
    } else {
      FailedStepChangesNothing(s, op, outcome, restores, s', builtins);
      assert forall n :: n in s.registry ==> Justified(s, builtins, n) == Justified(s', builtins, n);
    }
  }

  lemma UnsafeStepBreaks(s: State, op: Op, outcome: Outcome, restores: bool, s': State, builtins: set<Name>)
    requires Inv(s, builtins) && Step(s, op, outcome, restores, s') && !Safe(s, op)
    ensures !Inv(s', builtins)
  {
    var rec := s.catalog[op.id];
    var n :| n in rec.tools && n in s.registry;
    assert s'.registry == Unregistered(s.registry, rec) && n !in s'.registry;
    assert Justified(s, builtins, n);
    if s.registry[n].Builtin? {
      assert !BuiltinsIn(s'.registry, builtins) by {
        assert Get(s'.registry, n) != Some(Builtin);
      }
    } else {
      var other := s.registry[n].id;
      assert other != op.id && s'.catalog[other] == s.catalog[other];
      assert !Owns(s'.registry, s'.catalog[other]) by {
        assert Get(s'.registry, n) == None;
      }
    }
  }

  // The invariant survives a step, done or failed, if and only if the step is safe.
  lemma InvExactlyWhenSafe(s: State, op: Op, outcome: Outcome, restores: bool, s': State, builtins: set<Name>)
    requires Inv(s, builtins) && Step(s, op, outcome, restores, s')
    ensures Inv(s', builtins) <==> Safe(s, op)
  {
    if Safe(s, op) {
      StepKeepsInv(s, op, outcome, restores, s', builtins);
    } else {
      UnsafeStepBreaks(s, op, outcome, restores, s', builtins);
    }
  }

  /******* Runs *******/

  datatype Event = Event(op: Op, outcome: Outcome)

  ghost predicate Run(states: seq<State>, events: seq<Event>, restores: bool) {
    && |states| == |events| + 1
    && forall i :: 0 <= i < |events| ==> Step(states[i], events[i].op, events[i].outcome, restores, states[i + 1])
  }

  // Every run of safe operations, failing or not, keeps the invariant.
  lemma {:induction false} RunKeepsInv(states: seq<State>, events: seq<Event>, restores: bool, builtins: set<Name>, i: nat)
    requires Run(states, events, restores) && Inv(states[0], builtins) && i <= |events|
    requires forall k :: 0 <= k < i ==> Safe(states[k], events[k].op)
    ensures Inv(states[i], builtins)
  {
    if i > 0 {
      RunKeepsInv(states, events, restores, builtins, i - 1);
      StepKeepsInv(states[i - 1], events[i - 1].op, events[i - 1].outcome, restores, states[i], builtins);
    }
  }

  // A plugin is ready exactly when it is enabled.
  ghost predicate StatusFollows(c: Catalog) { forall id :: id in c ==> (c[id].enabled <==> c[id].status == Ready) }

  // It stays so in every run, whatever fails.
  lemma {:induction false} RunKeepsStatus(states: seq<State>, events: seq<Event>, restores: bool, i: nat)
    requires Run(states, events, restores) && StatusFollows(states[0].catalog) && i <= |events|
    ensures StatusFollows(states[i].catalog)
  {
    if i > 0 {
      RunKeepsStatus(states, events, restores, i - 1);
      assert Step(states[i - 1], events[i - 1].op, events[i - 1].outcome, restores, states[i]);
    }
  }

  ghost predicate Foreign(tools: seq<Name>, c: Catalog, id: Id, builtins: set<Name>) {
    forall n :: n in tools ==> n !in builtins && forall j :: j in c && j != id ==> n !in c[j].tools
  }

  // No tool name occurs in two installed plugins or in a plugin and the program.
  ghost predicate Disjoint(c: Catalog, builtins: set<Name>) {
    forall id :: id in c ==> Foreign(c[id].tools, c, id, builtins)
  }

  // An installed or updated plugin brings only names of its own.
  ghost predicate OwnNames(s: State, op: Op, builtins: set<Name>) {
    op.Install? || op.Update? ==> Foreign(op.manifest.tools, s.catalog, Target(op), builtins)
  }

  lemma DisjointIsSafe(s: State, op: Op, builtins: set<Name>)
    requires Inv(s, builtins) && Disjoint(s.catalog, builtins)
    ensures Safe(s, op)
  {
    if (op.Disable? || op.Delete?) && op.id in s.catalog && !s.catalog[op.id].enabled {
      assert Foreign(s.catalog[op.id].tools, s.catalog, op.id, builtins);
      forall n | n in s.catalog[op.id].tools ensures n !in s.registry {
        assert n in s.registry ==> Justified(s, builtins, n);
      }
    }
  }

  lemma StepKeepsDisjoint(s: State, op: Op, outcome: Outcome, restores: bool, s': State, builtins: set<Name>)
    requires Step(s, op, outcome, restores, s') && Disjoint(s.catalog, builtins) && OwnNames(s, op, builtins)
    ensures Disjoint(s'.catalog, builtins)
  {
    forall id | id in s'.catalog ensures Foreign(s'.catalog[id].tools, s'.catalog, id, builtins) {
      if id in s.catalog {
        assert Foreign(s.catalog[id].tools, s.catalog, id, builtins);
      }
    }
  }

  // With names of their own, plugins can always be disabled and deleted, enabled unless they are, updated
  // unless something else stands at their install root, and installed unless their id is taken.
  lemma DisjointIsAccepted(s: State, op: Op, builtins: set<Name>)
    requires Inv(s, builtins) && Disjoint(s.catalog, builtins) && OwnNames(s, op, builtins)
    requires op.Install? || op.Update? ==> ValidTools(op.manifest.tools)
    ensures Accepts(s, op) <==>
              match op
              case Install(m) => m.id !in s.catalog
              case Enable(id) => id in s.catalog && !s.catalog[id].enabled
              case Disable(id) => id in s.catalog
              case Update(id, m) => id in s.catalog && m.id == id && Get(s.roots, Final(id)) != Some(NotDir)
              case Delete(id) => id in s.catalog
  {
    forall n | n in s.registry ensures Justified(s, builtins, n) {
    }
    if op.Enable? && op.id in s.catalog {
      var rec := s.catalog[op.id];
      assert Foreign(rec.tools, s.catalog, op.id, builtins);
      assert rec.tools[0] in rec.tools;
      assert rec.enabled ==> Get(s.registry, rec.tools[0]) != None;
      forall n | n in rec.tools && n in s.registry ensures rec.enabled { assert Justified(s, builtins, n); }
    } else if op.Update? && op.id in s.catalog {
      UpdateOwnNames(s, op.id, op.manifest, builtins);
    }
  }

  lemma UpdateOwnNames(s: State, id: Id, m: Manifest, builtins: set<Name>)
    requires Inv(s, builtins) && id in s.catalog && Foreign(m.tools, s.catalog, id, builtins)
    ensures NoConflict(Unregistered(s.registry, s.catalog[id]), Prepared(m, Final(m.id)))
  {
    forall n | n in m.tools ensures n !in Unregistered(s.registry, s.catalog[id]) {
      if n in s.registry {
        assert Justified(s, builtins, n);
      }
    }
  }

  // With names of their own, plugins can be installed, enabled, disabled, updated and deleted in any
  // order, with failures anywhere, and the registry always matches the catalog.
  lemma {:induction false} DisjointRunKeepsInv(states: seq<State>, events: seq<Event>, restores: bool, builtins: set<Name>, i: nat)
    requires Run(states, events, restores) && Inv(states[0], builtins) && Disjoint(states[0].catalog, builtins) && i <= |events|
    requires forall k :: 0 <= k < i ==> OwnNames(states[k], events[k].op, builtins)
    ensures Inv(states[i], builtins) && Disjoint(states[i].catalog, builtins)
  {
    if i > 0 {
      DisjointRunKeepsInv(states, events, restores, builtins, i - 1);
      DisjointIsSafe(states[i - 1], events[i - 1].op, builtins);
      StepKeepsInv(states[i - 1], events[i - 1].op, events[i - 1].outcome, restores, states[i], builtins);
      StepKeepsDisjoint(states[i - 1], events[i - 1].op, events[i - 1].outcome, restores, states[i], builtins);
    }
  }

  // Without that the registry can lose an enabled plugin's tool: install a, disable it, install b with
  // the same tool, delete a.  Every operation succeeds, and b is enabled without its tool.
  function Sharing(id: Id, tool: Name): Manifest { Manifest(id, 1, [tool], 0) }

  function SharingRecord(id: Id, tool: Name): Record { EnabledRecord(Prepared(Sharing(id, tool), Final(id))) }

  // The four events, and the states they lead through.
  function SharingEvents(a: Id, b: Id, tool: Name): seq<Event> {
    [Event(Install(Sharing(a, tool)), Done), Event(Disable(a), Done), Event(Install(Sharing(b, tool)), Done), Event(Delete(a), Done)]
  }

  function SharingStates(a: Id, b: Id, tool: Name): seq<State> {
    var ra, rb := SharingRecord(a, tool), SharingRecord(b, tool);
    [State(map[], map[], map[]),
     State(map[a := ra], map[tool := PluginTool(a, 1)], map[Final(a) := Dir(0)]),
     State(map[a := DisabledRecord(ra)], map[], map[Final(a) := Dir(0)]),
     State(map[a := DisabledRecord(ra), b := rb], map[tool := PluginTool(b, 1)], map[Final(a) := Dir(0), Final(b) := Dir(0)]),
     State(map[b := rb], map[], map[Final(b) := Dir(0)])]
  }

  lemma SharingStep(a: Id, b: Id, tool: Name, restores: bool, i: nat)
    requires a != b && tool != NO_NAME && i < 4
    ensures
      var states, events := SharingStates(a, b, tool), SharingEvents(a, b, tool);
      Step(states[i], events[i].op, events[i].outcome, restores, states[i + 1])
  {
    var states, events := SharingStates(a, b, tool), SharingEvents(a, b, tool);
    assert tool in [tool] && ValidTools([tool]);
    var s, op, s' := states[i], events[i].op, states[i + 1];
    assert Accepts(s, op);
    assert s'.catalog == NewCatalog(s, op);
    assert s'.registry == NewRegistry(s, op);
    assert RootDone(s, op, s'.roots);
    assert OtherRootsSame(s.roots, s'.roots, Target(op));
  }

  lemma SharedNameIsLost(a: Id, b: Id, tool: Name, restores: bool)
    requires a != b && tool != NO_NAME
    ensures Run(SharingStates(a, b, tool), SharingEvents(a, b, tool), restores)
    ensures Inv(SharingStates(a, b, tool)[0], {}) && !Inv(SharingStates(a, b, tool)[4], {})
    ensures
      var last := SharingStates(a, b, tool)[4];
      b in last.catalog && last.catalog[b].enabled && tool in last.catalog[b].tools && tool !in last.registry
  {
    var states, events := SharingStates(a, b, tool), SharingEvents(a, b, tool);
    forall i | 0 <= i < |events| ensures Step(states[i], events[i].op, events[i].outcome, restores, states[i + 1]) {
      SharingStep(a, b, tool, restores, i);
    }
    var last := states[4];
    assert tool in last.catalog[b].tools && Get(last.registry, tool) == None;
    assert !Owns(last.registry, last.catalog[b]);
  }

  /******* Start *******/

  function Programs(builtins: set<Name>): Registry { map n | n in builtins :: Builtin }

  // The records of the snapshot that the loop has visited.
  function Visited(c: Catalog, order: seq<Id>, n: nat): Catalog
    requires n <= |order|
  {
    map id | id in order[..n] && id in c :: c[id]
  }

  lemma {:induction false} SyncedKeys(c: Catalog, reg: Registry, order: seq<Id>, n: nat)
    requires ValidCatalog(c) && Lists(order, c.Keys) && n <= |order|
    ensures Synced(c, reg, order, n).0.Keys == c.Keys
    ensures forall k :: n <= k < |order| ==> Synced(c, reg, order, n).0[order[k]] == c[order[k]]
  {
    if n > 0 {
      SyncedKeys(c, reg, order, n - 1);
    }
  }

  lemma VisitOne(c: Catalog, c': Catalog, order: seq<Id>, n: nat)
    requires n < |order| && order[n] !in order[..n] && order[n] in c'
    requires forall id :: id != order[n] ==> Get(c', id) == Get(c, id)
    ensures Visited(c', order, n + 1) == Visited(c, order, n)[order[n] := c'[order[n]]]
  {
    assert order[..n + 1] == order[..n] + [order[n]];
    assert forall id :: id in order[..n] ==> Get(c', id) == Get(c, id);
  }

  lemma SyncOneKeepsInv(c: Catalog, reg: Registry, rec: Record, builtins: set<Name>, order: seq<Id>, n: nat)
    requires n < |order| && order[n] !in order[..n] && order[n] == rec.id && rec.id in c && c[rec.id] == rec
    requires ValidTools(rec.tools) && rec.root == Final(rec.id)
    requires Inv(State(Visited(c, order, n), reg, map[]), builtins)
    ensures
      var r := SyncOne((c, reg), rec);
      Inv(State(Visited(r.0, order, n + 1), r.1, map[]), builtins)
  {
    var r := SyncOne((c, reg), rec);
    VisitOne(c, r.0, order, n);
    var s, s' := State(Visited(c, order, n), reg, map[]), State(Visited(r.0, order, n + 1), r.1, map[]);
    if rec.enabled && NoConflict(reg, rec) {
      AddEnabled(s, rec.(status := Ready), s', builtins);
    } else {
      ReplaceDisabled(s, r.0[rec.id], s', builtins);
    }
  }

  // The record about to be visited is still as the snapshot has it.
  lemma NextVisit(c: Catalog, reg: Registry, order: seq<Id>, n: nat)
    requires ValidCatalog(c) && Lists(order, c.Keys) && n < |order|
    ensures order[n] !in order[..n] && order[n] in c && order[n] in Synced(c, reg, order, n).0
    ensures Synced(c, reg, order, n).0[order[n]] == c[order[n]]
    ensures c[order[n]].id == order[n] && c[order[n]].root == Final(order[n]) && ValidTools(c[order[n]].tools)
    ensures Synced(c, reg, order, n + 1) == SyncOne(Synced(c, reg, order, n), c[order[n]])
  {
    SyncedKeys(c, reg, order, n);
  }

  // At every turn the registry matches the records visited so far.
  lemma {:induction false} SyncedInv(c: Catalog, builtins: set<Name>, order: seq<Id>, n: nat)
    requires ValidCatalog(c) && Lists(order, c.Keys) && n <= |order|
    ensures
      var r := Synced(c, Programs(builtins), order, n);
      Inv(State(Visited(r.0, order, n), r.1, map[]), builtins)
  {
    if n > 0 {
      SyncedInv(c, builtins, order, n - 1);
      NextVisit(c, Programs(builtins), order, n - 1);
      var before := Synced(c, Programs(builtins), order, n - 1);
      SyncOneKeepsInv(before.0, before.1, c[order[n - 1]], builtins, order, n - 1);
    }
  }

  // A start that reports no error establishes the invariant.
  lemma SyncEstablishesInv(c: Catalog, builtins: set<Name>, order: seq<Id>)
    requires ValidCatalog(c) && Lists(order, c.Keys)
    ensures
      var r := Synced(c, Programs(builtins), order, |order|);
      Inv(State(r.0, r.1, map[]), builtins)
  {
    SyncedInv(c, builtins, order, |order|);
    SyncedKeys(c, Programs(builtins), order, |order|);
    VisitedAll(Synced(c, Programs(builtins), order, |order|).0, order);
  }

  lemma VisitedAll(c: Catalog, order: seq<Id>)
    requires Lists(order, c.Keys)
    ensures Visited(c, order, |order|) == c
  {
    assert order[..|order|] == order;
  }

  // A visited record does not change again.
  lemma {:induction false} SyncedSettled(c: Catalog, reg: Registry, order: seq<Id>, k: nat, n: nat)
    requires ValidCatalog(c) && Lists(order, c.Keys) && k < n <= |order|
    ensures order[k] in Synced(c, reg, order, n).0 && order[k] in Synced(c, reg, order, k + 1).0
    ensures Synced(c, reg, order, n).0[order[k]] == Synced(c, reg, order, k + 1).0[order[k]]
  {
    SyncedKeys(c, reg, order, n);
    SyncedKeys(c, reg, order, k + 1);
    if n > k + 1 {
      SyncedSettled(c, reg, order, k, n - 1);
      assert order[n - 1] != order[k];
    }
  }

  lemma SyncedTools(c: Catalog, reg: Registry, order: seq<Id>, k: nat)
    requires ValidCatalog(c) && Lists(order, c.Keys) && k < |order|
    ensures order[k] in Synced(c, reg, order, k + 1).0
    ensures Synced(c, reg, order, k + 1).0[order[k]].enabled <==>
              c[order[k]].enabled && NoConflict(Synced(c, reg, order, k).1, c[order[k]])
    ensures Started(c[order[k]], Synced(c, reg, order, k + 1).0[order[k]])
  {
    SyncedKeys(c, reg, order, k);
  }

  // A start changes enabled flag and status alone: ready if the plugin stays enabled, failed if not.
  ghost predicate Started(rec: Record, rec': Record) {
    && rec'.id == rec.id && rec'.version == rec.version && rec'.tools == rec.tools && rec'.root == rec.root
    && rec'.status == if rec'.enabled then Ready else if rec.enabled then Errored else rec.status
  }

  // The names a plugin of the snapshot finds taken.
  ghost predicate Taken(c: Catalog, final: Catalog, builtins: set<Name>, order: seq<Id>, k: nat, n: Name)
    requires k <= |order| && Lists(order, c.Keys) && final.Keys == c.Keys
  {
    n in builtins || exists j :: 0 <= j < k && final[order[j]].enabled && n in c[order[j]].tools
  }

  lemma TakenIsRegistered(c: Catalog, builtins: set<Name>, order: seq<Id>, k: nat, n: Name)
    requires ValidCatalog(c) && Lists(order, c.Keys) && k <= |order|
    ensures Synced(c, Programs(builtins), order, |order|).0.Keys == c.Keys
    ensures Taken(c, Synced(c, Programs(builtins), order, |order|).0, builtins, order, k, n) <==>
              n in Synced(c, Programs(builtins), order, k).1
  {
    var reg := Programs(builtins);
    var before, final := Synced(c, reg, order, k), Synced(c, reg, order, |order|).0;
    SyncedKeys(c, reg, order, |order|);
    SyncedKeys(c, reg, order, k);
    SyncedInv(c, builtins, order, k);
    var s := State(Visited(before.0, order, k), before.1, map[]);
    forall j | 0 <= j < k ensures final[order[j]] == before.0[order[j]] && before.0[order[j]].tools == c[order[j]].tools {
      SyncedSettled(c, reg, order, j, |order|);
      SyncedSettled(c, reg, order, j, k);
      SyncedTools(c, reg, order, j);
    }
    if n in before.1 {
      assert Justified(s, builtins, n);
      if before.1[n].PluginTool? {
        var j :| 0 <= j < k && order[..k][j] == before.1[n].id;
        assert final[order[j]].enabled && n in c[order[j]].tools;
      }
    } else if exists j :: 0 <= j < k && final[order[j]].enabled {
      VisitedOwn(s, before.0, order, k, builtins, n);
    }
  }

  lemma VisitedOwn(s: State, c: Catalog, order: seq<Id>, k: nat, builtins: set<Name>, n: Name)
    requires k <= |order| && s.catalog == Visited(c, order, k) && Inv(s, builtins) && n !in s.registry
    ensures forall j :: 0 <= j < k && order[j] in c && c[order[j]].enabled ==> n !in c[order[j]].tools
  {
    forall j | 0 <= j < k && order[j] in c && c[order[j]].enabled ensures n !in c[order[j]].tools {
      assert order[..k][j] == order[j];
      assert Owns(s.registry, s.catalog[order[j]]);
      assert n in c[order[j]].tools ==> Get(s.registry, n) != None;
    }
  }

  // Which plugins a start keeps enabled: those enabled before whose names are neither the program's nor
  // those of an earlier plugin that stays enabled.
  lemma SyncKeepsEnabled(c: Catalog, builtins: set<Name>, order: seq<Id>, k: nat)
    requires ValidCatalog(c) && Lists(order, c.Keys) && k < |order|
    ensures
      var final := Synced(c, Programs(builtins), order, |order|).0;
      && final.Keys == c.Keys && Started(c[order[k]], final[order[k]])
      && (final[order[k]].enabled <==>
            c[order[k]].enabled && forall n :: n in c[order[k]].tools ==> !Taken(c, final, builtins, order, k, n))
  {
    var reg := Programs(builtins);
    SyncedKeys(c, reg, order, |order|);
    SyncedSettled(c, reg, order, k, |order|);
    SyncedTools(c, reg, order, k);
    forall n ensures Taken(c, Synced(c, reg, order, |order|).0, builtins, order, k, n) <==> n in Synced(c, reg, order, k).1 {
      TakenIsRegistered(c, builtins, order, k, n);
    }
  }
}
