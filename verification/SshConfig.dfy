/**
 The SSH config import of core/connections/ssh_config_import.go: expansion of Include lines and
 resolution of a host alias.

 A file is the list of its parsed lines; an Include line carries, for each of its patterns, the paths it
 stands for.  Texts are trimmed and abstract; glob matching and port parsing are parameters.
 */
module SshConfig {
  import opened Common

  type Path = nat
  type Text = nat
  const BLANK: Text := 0

  datatype Pattern = Pattern(negated: bool, glob: Text)

  datatype Selector =
    | Global
    | Host(patterns: seq<Pattern>)
    | Match(supported: bool, all: bool, hosts: seq<Pattern>, originalHosts: seq<Pattern>)

  datatype Key = Hostname | User | Port | IdentityFile | OtherKey

  datatype Entry = SelectorEntry(selector: Selector) | SettingEntry(key: Key, value: Text)

  /******* Expansion of includes *******/

  datatype Included = IncludeError | Paths(paths: seq<Path>)
  datatype Line = EntryLine(entry: Entry) | IncludeLine(groups: seq<Included>)

  type Files = map<Path, seq<Line>>

  // A line of a file includes a path.
  ghost predicate LineIncludes(line: Line, q: Path) {
    line.IncludeLine? && exists g :: 0 <= g < |line.groups| && line.groups[g].Paths? && q in line.groups[g].paths
  }

  ghost predicate Includes(files: Files, p: Path, q: Path) {
    p in files && exists i :: 0 <= i < |files[p]| && LineIncludes(files[p][i], q)
  }

  // A finite set of paths closed under inclusion.
  ghost predicate Universe(files: Files, all: set<Path>) {
    forall p, q :: p in all && Includes(files, p, q) ==> q in all
  }

  // Where an entry came from.
  datatype Origin = Origin(path: Path, line: nat)

  predicate IsEntry(files: Files, o: Origin) {
    o.path in files && o.line < |files[o.path]| && files[o.path][o.line].EntryLine?
  }

  // No origin occurs twice, and the lines of a file come in order.
  ghost predicate InOrder(s: seq<Origin>) {
    forall i, j :: 0 <= i < j < |s| && s[i].path == s[j].path ==> s[i].line < s[j].line
  }

  lemma InOrderAppend(s: seq<Origin>, t: seq<Origin>)
    requires InOrder(s) && InOrder(t) && forall x, y :: x in s && y in t && x.path == y.path ==> x.line < y.line
    ensures InOrder(s + t)
  {
    var r := s + t;
    forall i, j | 0 <= i < j < |r| && r[i].path == r[j].path ensures r[i].line < r[j].line {
      if i < |s| <= j {
        assert r[i] in s && r[j] in t;
      }
    }
  }

  // Every entry is the entry at its origin.
  ghost predicate Traced(files: Files, entries: seq<Entry>, origins: seq<Origin>) {
    && |entries| == |origins|
    && forall k :: 0 <= k < |origins| ==>
         IsEntry(files, origins[k]) && files[origins[k].path][origins[k].line].entry == entries[k]
  }

  // The newly seen paths have all their includes seen.
  ghost predicate Closed(files: Files, before: set<Path>, after: set<Path>) {
    forall p, q :: p in after && p !in before && Includes(files, p, q) ==> q in after
  }

  // What a call of the loader has done: it marked paths as seen, with everything they include, and
  // returned exactly the entry lines of the newly seen files, each once.
  ghost predicate Loaded(files: Files, entries: seq<Entry>, origins: seq<Origin>, before: set<Path>, after: set<Path>) {
    && before <= after && Closed(files, before, after)
    && Traced(files, entries, origins) && InOrder(origins)
    && forall o :: o in origins <==> IsEntry(files, o) && o.path in after && o.path !in before
  }

  // The same in the middle of a file, before its n-th line.
  ghost predicate Reading(files: Files, entries: seq<Entry>, origins: seq<Origin>, before: set<Path>, after: set<Path>, path: Path, n: nat) {
    && path !in before && before + {path} <= after && Closed(files, before + {path}, after)
    && Traced(files, entries, origins) && InOrder(origins)
    && forall o :: o in origins <==>
         IsEntry(files, o) && o.path in after && o.path !in before && (o.path == path ==> o.line < n)
  }

  // The includes of the first n lines are seen.
  ghost predicate IncludesSeen(lines: seq<Line>, n: nat, seen: set<Path>)
    requires n <= |lines|
  {
    forall i, q :: 0 <= i < n && LineIncludes(lines[i], q) ==> q in seen
  }

  lemma LoadedNothing(files: Files, seen: set<Path>)
    ensures Loaded(files, [], [], seen, seen)
  {
  }

  lemma LoadedUnreadable(files: Files, seen: set<Path>, path: Path)
    requires path !in files
    ensures Loaded(files, [], [], seen, seen + {path})
  {
  }

  lemma ReadNothing(files: Files, before: set<Path>, path: Path)
    requires path !in before
    ensures Reading(files, [], [], before, before + {path}, path, 0)
  {
  }

  lemma LoadedThen(files: Files, e: seq<Entry>, o: seq<Origin>, e': seq<Entry>, o': seq<Origin>, a: set<Path>, b: set<Path>, c: set<Path>)
    requires Loaded(files, e, o, a, b) && Loaded(files, e', o', b, c)
    ensures Loaded(files, e + e', o + o', a, c)
  {
    InOrderAppend(o, o');
  }

  lemma ReadEntry(files: Files, e: seq<Entry>, o: seq<Origin>, before: set<Path>, after: set<Path>, path: Path, n: nat)
    requires Reading(files, e, o, before, after, path, n) && path in files && n < |files[path]| && files[path][n].EntryLine?
    ensures Reading(files, e + [files[path][n].entry], o + [Origin(path, n)], before, after, path, n + 1)
  {
    InOrderAppend(o, [Origin(path, n)]);
  }

  lemma ReadInclude(files: Files, e: seq<Entry>, o: seq<Origin>, e': seq<Entry>, o': seq<Origin>,
                    before: set<Path>, after: set<Path>, after': set<Path>, path: Path, n: nat)
    requires Reading(files, e, o, before, after, path, n) && path in files && n < |files[path]| && files[path][n].IncludeLine?
    requires Loaded(files, e', o', after, after')
    ensures Reading(files, e + e', o + o', before, after', path, n + 1)
  {
    InOrderAppend(o, o');
  }

  // What one line contributes.
  ghost predicate LineLoaded(files: Files, e: seq<Entry>, o: seq<Origin>, before: set<Path>, after: set<Path>, path: Path, n: nat)
    requires path in files && n < |files[path]|
  {
    && (forall q :: LineIncludes(files[path][n], q) ==> q in after)
    && if files[path][n].EntryLine? then e == [files[path][n].entry] && o == [Origin(path, n)] && after == before
       else Loaded(files, e, o, before, after)
  }

  lemma ReadLine(files: Files, e: seq<Entry>, o: seq<Origin>, e': seq<Entry>, o': seq<Origin>,
                 before: set<Path>, after: set<Path>, after': set<Path>, path: Path, n: nat)
    requires Reading(files, e, o, before, after, path, n) && path in files && n < |files[path]|
    requires LineLoaded(files, e', o', after, after', path, n) && IncludesSeen(files[path], n, after)
    ensures Reading(files, e + e', o + o', before, after', path, n + 1)
    ensures IncludesSeen(files[path], n + 1, after')
  {
    if files[path][n].EntryLine? {
      ReadEntry(files, e, o, before, after, path, n);
    } else {
      ReadInclude(files, e, o, e', o', before, after, after', path, n);
    }
  }

  lemma ReadAll(files: Files, e: seq<Entry>, o: seq<Origin>, before: set<Path>, after: set<Path>, path: Path)
    requires path in files && Reading(files, e, o, before, after, path, |files[path]|)
    requires IncludesSeen(files[path], |files[path]|, after)
    ensures Loaded(files, e, o, before, after)
  {
  }

  lemma Fewer(all: set<Path>, a: set<Path>, b: set<Path>)
    requires a <= b <= all
    ensures |all - b| <= |all - a| && (a != b ==> |all - b| < |all - a|)
  {
    assert all - a == (all - b) + (b - a);
    if a != b {
      var x :| x in b && x !in a;
      assert x in b - a;
    }
  }

  // Every path marked as seen was read once.
  ghost predicate ReadOnce(readings: seq<Path>, seen: set<Path>) {
    && (forall p :: p in readings <==> p in seen)
    && (forall i, j :: 0 <= i < j < |readings| ==> readings[i] != readings[j])
  }

  /******* The expansion itself: each include is replaced, in place, by what is not yet seen *******/

  ghost function Expand(files: Files, all: set<Path>, path: Path, seen: set<Path>): (r: (seq<Origin>, set<Path>))
    requires Universe(files, all) && path in all && seen <= all
    ensures seen <= r.1 <= all
    decreases |all - seen|, 0, 0
  {
    if path in seen then ([], seen)
    else
      Fewer(all, seen, seen + {path});
      if path !in files then ([], seen + {path})
      else ExpandLines(files, all, path, |files[path]|, seen + {path})
  }

  ghost function ExpandLines(files: Files, all: set<Path>, path: Path, n: nat, seen: set<Path>): (r: (seq<Origin>, set<Path>))
    requires Universe(files, all) && path in all && seen <= all && path in files && n <= |files[path]|
    ensures seen <= r.1 <= all
    decreases |all - seen|, 3, n
  {
    if n == 0 then ([], seen)
    else
      var before := ExpandLines(files, all, path, n - 1, seen);
      Fewer(all, seen, before.1);
      var line := ExpandLine(files, all, path, n - 1, before.1);
      (before.0 + line.0, line.1)
  }

  ghost function ExpandLine(files: Files, all: set<Path>, path: Path, i: nat, seen: set<Path>): (r: (seq<Origin>, set<Path>))
    requires Universe(files, all) && path in all && seen <= all && path in files && i < |files[path]|
    ensures seen <= r.1 <= all
    decreases |all - seen|, 3, 0
  {
    match files[path][i]
    case EntryLine(_) => ([Origin(path, i)], seen)
    case IncludeLine(groups) =>
      IncludedInUniverse(files, all, path, i);
      ExpandGroups(files, all, groups, |groups|, seen)
  }

  ghost function ExpandGroups(files: Files, all: set<Path>, groups: seq<Included>, n: nat, seen: set<Path>): (r: (seq<Origin>, set<Path>))
    requires Universe(files, all) && seen <= all && n <= |groups| && forall q :: LineIncludes(IncludeLine(groups), q) ==> q in all
    ensures seen <= r.1 <= all
    decreases |all - seen|, 2, n
  {
    if n == 0 then ([], seen)
    else
      var before := ExpandGroups(files, all, groups, n - 1, seen);
      if groups[n - 1].IncludeError? then before
      else
        Fewer(all, seen, before.1);
        assert forall q :: q in groups[n - 1].paths ==> LineIncludes(IncludeLine(groups), q);
        var included := ExpandPaths(files, all, groups[n - 1].paths, |groups[n - 1].paths|, before.1);
        (before.0 + included.0, included.1)
  }

  ghost function ExpandPaths(files: Files, all: set<Path>, paths: seq<Path>, n: nat, seen: set<Path>): (r: (seq<Origin>, set<Path>))
    requires Universe(files, all) && seen <= all && n <= |paths| && forall q :: q in paths ==> q in all
    ensures seen <= r.1 <= all
    decreases |all - seen|, 1, n
  {
    if n == 0 then ([], seen)
    else
      var before := ExpandPaths(files, all, paths, n - 1, seen);
      Fewer(all, seen, before.1);
      var included := Expand(files, all, paths[n - 1], before.1);
      (before.0 + included.0, included.1)
  }

  /******* The order of the entries *******/

  // A line of a file and, if it is an Include line, one of the paths of one of its patterns.
  datatype Site = Site(line: nat, group: nat, index: nat)

  // The include lines that lead to an entry, from the file where loading starts, and the entry's own line.
  type Trail = seq<Site>

  ghost predicate Leads(files: Files, path: Path, trail: Trail, o: Origin)
    decreases |trail|
  {
    && trail != [] && path in files && trail[0].line < |files[path]|
    && match files[path][trail[0].line]
       case EntryLine(_) => trail == [Site(trail[0].line, 0, 0)] && o == Origin(path, trail[0].line)
       case IncludeLine(groups) =>
         && trail[0].group < |groups| && groups[trail[0].group].Paths?
         && trail[0].index < |groups[trail[0].group].paths|
         && Leads(files, groups[trail[0].group].paths[trail[0].index], trail[1..], o)
  }

  predicate SiteBefore(a: Site, b: Site) {
    a.line < b.line || (a.line == b.line && (a.group < b.group || (a.group == b.group && a.index < b.index)))
  }

  // The order of a reader who follows each include where it stands.
  predicate Precedes(a: Trail, b: Trail) {
    a != [] && b != [] && (SiteBefore(a[0], b[0]) || (a[0] == b[0] && Precedes(a[1..], b[1..])))
  }

  ghost predicate Ordered(trails: seq<Trail>) { forall i, j :: 0 <= i < j < |trails| ==> Precedes(trails[i], trails[j]) }

  ghost predicate AllLead(files: Files, path: Path, origins: seq<Origin>, trails: seq<Trail>) {
    |trails| == |origins| && forall k :: 0 <= k < |origins| ==> Leads(files, path, trails[k], origins[k])
  }

  // The entries come in the order of their trails.
  ghost predicate InPlace(files: Files, path: Path, origins: seq<Origin>, trails: seq<Trail>) {
    AllLead(files, path, origins, trails) && Ordered(trails)
  }

  // Every trail begins at this line, in this group, at this path of it; or before a bound.
  ghost predicate BeginAt(trails: seq<Trail>, line: nat, group: nat, index: nat) {
    forall k :: 0 <= k < |trails| ==> trails[k] != [] && trails[k][0] == Site(line, group, index)
  }

  ghost predicate BeginBefore(trails: seq<Trail>, bound: Site) {
    forall k :: 0 <= k < |trails| ==> trails[k] != [] && SiteBefore(trails[k][0], bound)
  }

  ghost predicate BeginFrom(trails: seq<Trail>, bound: Site) {
    forall k :: 0 <= k < |trails| ==> trails[k] != [] && !SiteBefore(trails[k][0], bound)
  }

  lemma InPlaceAppend(files: Files, path: Path, o: seq<Origin>, t: seq<Trail>, o': seq<Origin>, t': seq<Trail>, bound: Site)
    requires InPlace(files, path, o, t) && InPlace(files, path, o', t') && BeginBefore(t, bound) && BeginFrom(t', bound)
    ensures InPlace(files, path, o + o', t + t')
  {
    var r := t + t';
    forall i, j | 0 <= i < j < |r| ensures Precedes(r[i], r[j]) {
      if i < |t| <= j {
        assert r[i] == t[i] && r[j] == t'[j - |t|];
      } else if j < |t| {
        assert r[i] == t[i] && r[j] == t[j];
      } else {
        assert r[i] == t'[i - |t|] && r[j] == t'[j - |t|];
      }
    }
    forall k | 0 <= k < |r| ensures Leads(files, path, r[k], (o + o')[k]) {
      if k >= |t| {
        assert Leads(files, path, t'[k - |t|], o'[k - |t|]);
      }
    }
  }

  // The trails of an included file, seen from the file that includes it.
  function Under(site: Site, trails: seq<Trail>): seq<Trail> { seq(|trails|, k requires 0 <= k < |trails| => [site] + trails[k]) }

  lemma InPlaceUnder(files: Files, path: Path, site: Site, o: seq<Origin>, t: seq<Trail>)
    requires path in files && site.line < |files[path]| && files[path][site.line].IncludeLine?
    requires
      var groups := files[path][site.line].groups;
      && site.group < |groups| && groups[site.group].Paths? && site.index < |groups[site.group].paths|
      && InPlace(files, groups[site.group].paths[site.index], o, t)
    ensures InPlace(files, path, o, Under(site, t)) && BeginAt(Under(site, t), site.line, site.group, site.index)
  {
    var u := Under(site, t);
    forall k | 0 <= k < |o| ensures Leads(files, path, u[k], o[k]) {
      assert u[k][1..] == t[k];
    }
    forall i, j | 0 <= i < j < |u| ensures Precedes(u[i], u[j]) {
      assert u[i][1..] == t[i] && u[j][1..] == t[j];
    }
  }

  // Each include is replaced where it stands: the entries of a file and of what it includes come in the
  // order of their trails, whatever has been seen before.
  lemma ExpandInPlace(files: Files, all: set<Path>, path: Path, seen: set<Path>) returns (trails: seq<Trail>)
    requires Universe(files, all) && path in all && seen <= all
    ensures InPlace(files, path, Expand(files, all, path, seen).0, trails)
    decreases |all - seen|, 0, 0
  {
    trails := [];
    if path !in seen && path in files {
      Fewer(all, seen, seen + {path});
      trails := LinesInPlace(files, all, path, |files[path]|, seen + {path});
    }
  }

  lemma LinesInPlace(files: Files, all: set<Path>, path: Path, n: nat, seen: set<Path>) returns (trails: seq<Trail>)
    requires Universe(files, all) && path in all && seen <= all && path in files && n <= |files[path]|
    ensures InPlace(files, path, ExpandLines(files, all, path, n, seen).0, trails) && BeginBefore(trails, Site(n, 0, 0))
    decreases |all - seen|, 3, n
  {
    trails := [];
    if n > 0 {
      var before := ExpandLines(files, all, path, n - 1, seen);
      Fewer(all, seen, before.1);
      var first := LinesInPlace(files, all, path, n - 1, seen);
      var last := LineInPlace(files, all, path, n - 1, before.1);
      InPlaceAppend(files, path, before.0, first, ExpandLine(files, all, path, n - 1, before.1).0, last, Site(n - 1, 0, 0));
      trails := first + last;
    }
  }

  lemma LineInPlace(files: Files, all: set<Path>, path: Path, i: nat, seen: set<Path>) returns (trails: seq<Trail>)
    requires Universe(files, all) && path in all && seen <= all && path in files && i < |files[path]|
    ensures InPlace(files, path, ExpandLine(files, all, path, i, seen).0, trails)
    ensures BeginFrom(trails, Site(i, 0, 0)) && BeginBefore(trails, Site(i + 1, 0, 0))
    decreases |all - seen|, 3, 0
  {
    match files[path][i]
    case EntryLine(_) => trails := [[Site(i, 0, 0)]];
    case IncludeLine(groups) =>
      IncludedInUniverse(files, all, path, i);
      trails := GroupsInPlace(files, all, path, i, |groups|, seen);
  }

  lemma GroupsInPlace(files: Files, all: set<Path>, path: Path, i: nat, n: nat, seen: set<Path>) returns (trails: seq<Trail>)
    requires Universe(files, all) && seen <= all && path in files && i < |files[path]| && files[path][i].IncludeLine?
    requires n <= |files[path][i].groups| && forall q :: LineIncludes(IncludeLine(files[path][i].groups), q) ==> q in all
    ensures InPlace(files, path, ExpandGroups(files, all, files[path][i].groups, n, seen).0, trails)
    ensures BeginFrom(trails, Site(i, 0, 0)) && BeginBefore(trails, Site(i, n, 0))
    decreases |all - seen|, 2, n
  {
    trails := [];
    if n > 0 {
      var groups := files[path][i].groups;
      var before := ExpandGroups(files, all, groups, n - 1, seen);
      var first := GroupsInPlace(files, all, path, i, n - 1, seen);
      if groups[n - 1].IncludeError? {
        trails := first;
      } else {
        Fewer(all, seen, before.1);
        assert forall q :: q in groups[n - 1].paths ==> LineIncludes(IncludeLine(groups), q);
        var m := |groups[n - 1].paths|;
        var last := PathsInPlace(files, all, path, i, n - 1, m, before.1);
        InPlaceAppend(files, path, before.0, first, ExpandPaths(files, all, groups[n - 1].paths, m, before.1).0, last, Site(i, n - 1, 0));
        trails := first + last;
      }
    }
  }

  lemma PathsInPlace(files: Files, all: set<Path>, path: Path, i: nat, g: nat, n: nat, seen: set<Path>) returns (trails: seq<Trail>)
    requires Universe(files, all) && seen <= all && path in files && i < |files[path]| && files[path][i].IncludeLine?
    requires g < |files[path][i].groups| && files[path][i].groups[g].Paths?
    requires n <= |files[path][i].groups[g].paths| && forall q :: q in files[path][i].groups[g].paths ==> q in all
    ensures InPlace(files, path, ExpandPaths(files, all, files[path][i].groups[g].paths, n, seen).0, trails)
    ensures BeginFrom(trails, Site(i, g, 0)) && BeginBefore(trails, Site(i, g, n)) && BeginBefore(trails, Site(i, g + 1, 0))
    decreases |all - seen|, 1, n
  {
    trails := [];
    if n > 0 {
      var paths := files[path][i].groups[g].paths;
      var before := ExpandPaths(files, all, paths, n - 1, seen);
      Fewer(all, seen, before.1);
      var first := PathsInPlace(files, all, path, i, g, n - 1, seen);
      var inner := ExpandInPlace(files, all, paths[n - 1], before.1);
      var site := Site(i, g, n - 1);
      InPlaceUnder(files, path, site, Expand(files, all, paths[n - 1], before.1).0, inner);
      InPlaceAppend(files, path, before.0, first, Expand(files, all, paths[n - 1], before.1).0, Under(site, inner), site);
      trails := first + Under(site, inner);
    }
  }

  class Loader {
    const files: Files
    var seen: set<Path>
    // The paths handed to the operating system for reading.
    ghost var readings: seq<Path>

    constructor (files: Files)
      ensures this.files == files && seen == {} && readings == []
    {
      this.files, seen, readings := files, {}, [];
    }

    // Reads a file and, in place, the files it includes.  A path that was seen before contributes
    // nothing; an unreadable one is an error.
    method Load(path: Path, ghost all: set<Path>) returns (ok: bool, entries: seq<Entry>, ghost origins: seq<Origin>)
      requires Universe(files, all) && path in all && seen <= all && ReadOnce(readings, seen)
      modifies this
      ensures (origins, seen) == Expand(files, all, path, old(seen)) && ReadOnce(readings, seen)
      ensures path in seen && Loaded(files, entries, origins, old(seen), seen)
      ensures ok <==> path in old(seen) || path in files
      ensures !ok ==> entries == []
      decreases |all - seen|, 0
    {
      ghost var before := seen;
      if path in seen {
        LoadedNothing(files, seen);
        return true, [], [];
      }
      seen := seen + {path};
      readings := readings + [path];
      Fewer(all, before, seen);
      if path !in files {
        LoadedUnreadable(files, before, path);
        return false, [], [];
      }
      entries, origins := LoadLines(path, before, all);
      ok := true;
    }

    method LoadLines(path: Path, ghost before: set<Path>, ghost all: set<Path>) returns (entries: seq<Entry>, ghost origins: seq<Origin>)
      requires Universe(files, all) && path in all && path in files && path !in before
      requires seen == before + {path} && seen <= all && ReadOnce(readings, seen)
      modifies this
      ensures seen <= all && (origins, seen) == ExpandLines(files, all, path, |files[path]|, before + {path})
      ensures ReadOnce(readings, seen) && path in seen && Loaded(files, entries, origins, before, seen)
      decreases |all - seen|, 4
    {
      entries, origins := [], [];
      ReadNothing(files, before, path);
      for i := 0 to |files[path]|
        invariant before + {path} <= seen <= all && |all - seen| <= |all - (before + {path})| && ReadOnce(readings, seen)
        invariant ExpandLines(files, all, path, i, before + {path}) == (origins, seen)
        invariant Reading(files, entries, origins, before, seen, path, i)
        invariant IncludesSeen(files[path], i, seen)
      {
        ghost var start := seen;
        var more;
        ghost var from;
        more, from := LoadLine(path, i, all);
        Fewer(all, start, seen);
        ReadLine(files, entries, origins, more, from, before, start, seen, path, i);
        entries, origins := entries + more, origins + from;
      }
      ReadAll(files, entries, origins, before, seen, path);
    }

    method LoadLine(path: Path, i: nat, ghost all: set<Path>) returns (entries: seq<Entry>, ghost origins: seq<Origin>)
      requires Universe(files, all) && path in all && path in files && i < |files[path]| && seen <= all && ReadOnce(readings, seen)
      modifies this
      ensures old(seen) <= seen <= all && ReadOnce(readings, seen)
      ensures (origins, seen) == ExpandLine(files, all, path, i, old(seen))
      ensures LineLoaded(files, entries, origins, old(seen), seen, path, i)
      decreases |all - seen|, 3
    {
      if files[path][i].EntryLine? {
        return [files[path][i].entry], [Origin(path, i)];
      }
      IncludedInUniverse(files, all, path, i);
      entries, origins := LoadGroups(files[path][i].groups, all);
    }

    // The patterns of one Include line; one that cannot be expanded is skipped.
    method LoadGroups(groups: seq<Included>, ghost all: set<Path>) returns (entries: seq<Entry>, ghost origins: seq<Origin>)
      requires Universe(files, all) && seen <= all && ReadOnce(readings, seen)
      requires forall q :: LineIncludes(IncludeLine(groups), q) ==> q in all
      modifies this
      ensures (origins, seen) == ExpandGroups(files, all, groups, |groups|, old(seen)) && ReadOnce(readings, seen)
      ensures Loaded(files, entries, origins, old(seen), seen)
      ensures forall q :: LineIncludes(IncludeLine(groups), q) ==> q in seen
      decreases |all - seen|, 2
    {
      entries, origins := [], [];
      LoadedNothing(files, seen);
      for g := 0 to |groups|
        invariant old(seen) <= seen <= all && Loaded(files, entries, origins, old(seen), seen) && ReadOnce(readings, seen)
        invariant (origins, seen) == ExpandGroups(files, all, groups, g, old(seen))
        invariant forall h, q :: 0 <= h < g && groups[h].Paths? && q in groups[h].paths ==> q in seen
      {
        if groups[g].IncludeError? {
          continue;
        }
        ghost var start := seen;
        assert forall q :: q in groups[g].paths ==> LineIncludes(IncludeLine(groups), q);
        Fewer(all, old(seen), seen);
        var more;
        ghost var from;
        more, from := LoadPaths(groups[g].paths, all);
        LoadedThen(files, entries, origins, more, from, old(seen), start, seen);
        entries, origins := entries + more, origins + from;
      }
    }

    // The files of one pattern; an unreadable one is skipped.
    method LoadPaths(paths: seq<Path>, ghost all: set<Path>) returns (entries: seq<Entry>, ghost origins: seq<Origin>)
      requires Universe(files, all) && seen <= all && ReadOnce(readings, seen) && forall q :: q in paths ==> q in all
      modifies this
      ensures (origins, seen) == ExpandPaths(files, all, paths, |paths|, old(seen)) && ReadOnce(readings, seen)
      ensures Loaded(files, entries, origins, old(seen), seen)
      ensures forall q :: q in paths ==> q in seen
      decreases |all - seen|, 1
    {
      entries, origins := [], [];
      LoadedNothing(files, seen);
      for k := 0 to |paths|
        invariant old(seen) <= seen <= all && Loaded(files, entries, origins, old(seen), seen) && ReadOnce(readings, seen)
        invariant (origins, seen) == ExpandPaths(files, all, paths, k, old(seen))
        invariant forall i :: 0 <= i < k ==> paths[i] in seen
      {
        ghost var start := seen;
        Fewer(all, old(seen), seen);
        var ok, more;
        ghost var from;
        ok, more, from := Load(paths[k], all);
        LoadedThen(files, entries, origins, more, from, old(seen), start, seen);
        if !ok {
          assert entries + more == entries;
          origins := origins + from;
          continue;
        }
        entries, origins := entries + more, origins + from;
      }
    }

    // The whole import, from a fresh loader: whatever cycles there are, it ends, reads exactly the paths
    // reachable by includes, each once, and returns every entry line of every readable one exactly once, in
    // the order of the includes that lead to it.
    method LoadConfig(path: Path, ghost all: set<Path>) returns (ok: bool, entries: seq<Entry>, ghost origins: seq<Origin>)
      requires Universe(files, all) && path in all && seen == {} && readings == []
      modifies this
      ensures ReadOnce(readings, seen) && forall p :: p in seen <==> Reaches(files, path, p)
      ensures ok <==> path in files
      ensures Traced(files, entries, origins) && InOrder(origins)
      ensures forall o :: o in origins <==> IsEntry(files, o) && Reaches(files, path, o.path)
      ensures exists trails :: InPlace(files, path, origins, trails)
    {
      ghost var reachable := set p | p in all && Reaches(files, path, p);
      ReachableUniverse(files, all, path);
      ok, entries, origins := Load(path, reachable);
      ghost var trails := ExpandInPlace(files, reachable, path, {});
      forall p ensures p in seen <==> Reaches(files, path, p) {
        if Reaches(files, path, p) {
          ReachedIsSeen(files, seen, path, p);
        }
      }
    }
  }

  // A chain of includes leads from one path to another.
  ghost predicate Chain(files: Files, chain: seq<Path>) {
    chain != [] && forall i :: 0 <= i < |chain| - 1 ==> Includes(files, chain[i], chain[i + 1])
  }

  ghost predicate Reaches(files: Files, start: Path, p: Path) {
    exists chain :: Chain(files, chain) && chain[0] == start && chain[|chain| - 1] == p
  }

  lemma ReachesNext(files: Files, start: Path, p: Path, q: Path)
    requires Reaches(files, start, p) && Includes(files, p, q)
    ensures Reaches(files, start, q)
  {
    var chain :| Chain(files, chain) && chain[0] == start && chain[|chain| - 1] == p;
    var longer := chain + [q];
    assert Chain(files, longer) && longer[0] == start && longer[|longer| - 1] == q;
  }

  lemma ReachableUniverse(files: Files, all: set<Path>, start: Path)
    requires Universe(files, all) && start in all
    ensures
      var reachable := set p | p in all && Reaches(files, start, p);
      Universe(files, reachable) && start in reachable
  {
    assert Chain(files, [start]) && [start][0] == start;
    var reachable := set p | p in all && Reaches(files, start, p);
    forall p, q | p in reachable && Includes(files, p, q) ensures q in reachable {
      ReachesNext(files, start, p, q);
    }
  }

  lemma {:induction false} ChainIsSeen(files: Files, seen: set<Path>, chain: seq<Path>, n: nat)
    requires Closed(files, {}, seen) && Chain(files, chain) && chain[0] in seen && n < |chain|
    ensures chain[n] in seen
  {
    if n > 0 {
      ChainIsSeen(files, seen, chain, n - 1);
      assert Includes(files, chain[n - 1], chain[n - 1 + 1]);
    }
  }

  lemma ReachedIsSeen(files: Files, seen: set<Path>, start: Path, p: Path)
    requires Closed(files, {}, seen) && start in seen && Reaches(files, start, p)
    ensures p in seen
  {
    var chain :| Chain(files, chain) && chain[0] == start && chain[|chain| - 1] == p;
    ChainIsSeen(files, seen, chain, |chain| - 1);
  }

  lemma IncludedInUniverse(files: Files, all: set<Path>, path: Path, i: nat)
    requires Universe(files, all) && path in all && path in files && i < |files[path]| && files[path][i].IncludeLine?
    ensures forall q :: LineIncludes(IncludeLine(files[path][i].groups), q) ==> q in all
  {
    forall q | LineIncludes(IncludeLine(files[path][i].groups), q) ensures q in all {
      assert IncludeLine(files[path][i].groups) == files[path][i];
      assert Includes(files, path, q);
    }
  }

  /******* Selectors *******/

  type Glob = (Text, Text) -> bool

  ghost predicate SomeMatches(glob: Glob, ps: seq<Pattern>, negated: bool, host: Text) {
    exists p :: p in ps && p.glob != BLANK && p.negated == negated && glob(p.glob, host)
  }

  // A host matches when some positive pattern and no negated one matches.
  ghost predicate PatternsMatch(glob: Glob, ps: seq<Pattern>, host: Text) {
    host != BLANK && SomeMatches(glob, ps, false, host) && !SomeMatches(glob, ps, true, host)
  }

  method MatchesPatterns(glob: Glob, ps: seq<Pattern>, host: Text) returns (r: bool)
    ensures r <==> PatternsMatch(glob, ps, host)
  {
    if host == BLANK {
      return false;
    }
    r := false;
    for i := 0 to |ps|
      invariant r <==> SomeMatches(glob, ps[..i], false, host)
      invariant !SomeMatches(glob, ps[..i], true, host)
    {
      assert ps[..i + 1] == ps[..i] + [ps[i]];
      assert forall b :: SomeMatches(glob, ps[..i + 1], b, host) <==>
        SomeMatches(glob, ps[..i], b, host) || (ps[i].glob != BLANK && ps[i].negated == b && glob(ps[i].glob, host));
      if ps[i].glob == BLANK || !glob(ps[i].glob, host) {
        continue;
      }
      if ps[i].negated {
        assert ps[i] in ps;
        return false;
      }
      r := true;
    }
    assert ps[..|ps|] == ps;
  }

  // The order and repetition of patterns do not matter.
  lemma PatternOrderIrrelevant(glob: Glob, ps: seq<Pattern>, qs: seq<Pattern>, host: Text)
    requires forall p :: p in ps <==> p in qs
    ensures PatternsMatch(glob, ps, host) == PatternsMatch(glob, qs, host)
  {
  }

  ghost predicate MatchApplies(glob: Glob, hosts: seq<Pattern>, originalHosts: seq<Pattern>, alias: Text, host: Text) {
    && (hosts != [] ==> PatternsMatch(glob, hosts, if host == BLANK then alias else host))
    && (originalHosts != [] ==> PatternsMatch(glob, originalHosts, alias))
    && (hosts != [] || originalHosts != [])
  }

  ghost predicate Applies(glob: Glob, s: Selector, alias: Text, host: Text) {
    match s
    case Global => true
    case Host(patterns) => PatternsMatch(glob, patterns, alias)
    case Match(supported, all, hosts, originalHosts) => supported && (all || MatchApplies(glob, hosts, originalHosts, alias, host))
  }

  method SelectorApplies(glob: Glob, s: Selector, alias: Text, host: Text) returns (r: bool)
    ensures r <==> Applies(glob, s, alias, host)
  {
    match s
    case Global => return true;
    case Host(patterns) => r := MatchesPatterns(glob, patterns, alias);
    case Match(supported, all, hosts, originalHosts) =>
      if !supported {
        return false;
      }
      if all {
        return true;
      }
      if hosts != [] {
        r := MatchesPatterns(glob, hosts, if host == BLANK then alias else host);
        if !r {
          return false;
        }
      }
      if originalHosts != [] {
        r := MatchesPatterns(glob, originalHosts, alias);
        if !r {
          return false;
        }
      }
      return hosts != [] || originalHosts != [];
  }

  /******* Resolution of an alias *******/

  // The nearest selector before the i-th entry.
  function SelectorAt(entries: seq<Entry>, i: nat): Selector
    requires i <= |entries|
  {
    if i == 0 then Global
    else if entries[i - 1].SelectorEntry? then entries[i - 1].selector
    else SelectorAt(entries, i - 1)
  }

  // It is the last selector line before the entry, or the global one if there is none.
  lemma {:induction false} NearestSelector(entries: seq<Entry>, i: nat, k: nat)
    requires k <= i <= |entries| && (forall l :: k <= l < i ==> entries[l].SettingEntry?)
    requires k == 0 || entries[k - 1].SelectorEntry?
    ensures SelectorAt(entries, i) == if k == 0 then Global else entries[k - 1].selector
    decreases i
  {
    if k < i {
      NearestSelector(entries, i - 1, k);
    }
  }

  // Host lines and originalhost conditions look at the alias alone, host conditions at the resolved host
  // once there is one; a condition list that is empty, or a Match that is not supported, never applies.
  lemma SelectorsLookAt(glob: Glob, s: Selector, alias: Text, alias': Text, host: Text, host': Text)
    ensures s.Global? ==> Applies(glob, s, alias, host)
    ensures s.Host? || (s.Match? && s.hosts == []) ==> (Applies(glob, s, alias, host) <==> Applies(glob, s, alias, host'))
    ensures s.Match? && s.originalHosts == [] && host != BLANK ==> (Applies(glob, s, alias, host) <==> Applies(glob, s, alias', host))
    ensures s.Match? && s.supported && s.all ==> Applies(glob, s, alias, host)
    ensures s.Match? && (!s.supported || (!s.all && s.hosts == [] && s.originalHosts == [])) ==> !Applies(glob, s, alias, host)
    ensures s.Match? && s.supported && !s.all && s.hosts != [] && s.originalHosts != [] ==>
              (Applies(glob, s, alias, host) <==>
                 Applies(glob, s.(hosts := []), alias, host) && Applies(glob, s.(originalHosts := []), alias, host))
    ensures s.Match? && s == Match(true, false, s.hosts, []) && s.hosts != [] ==>
              (Applies(glob, s, alias, host) <==> Applies(glob, Host(s.hosts), if host == BLANK then alias else host, BLANK))
    ensures s.Match? && s == Match(true, false, [], s.originalHosts) && s.originalHosts != [] ==>
              (Applies(glob, s, alias, host) <==> Applies(glob, Host(s.originalHosts), alias, BLANK))
  {
  }

  // The host name resolved from the entries before the i-th.
  ghost function HostAt(glob: Glob, entries: seq<Entry>, alias: Text, i: nat): Text
    requires i <= |entries|
  {
    if i == 0 then BLANK
    else
      var h := HostAt(glob, entries, alias, i - 1);
      if h == BLANK && entries[i - 1].SettingEntry? && entries[i - 1].key == Hostname && Applies(glob, SelectorAt(entries, i - 1), alias, h)
      then entries[i - 1].value else h
  }

  // The i-th entry is a setting of the key under a selector that applies.
  ghost predicate Counts(glob: Glob, entries: seq<Entry>, alias: Text, key: Key, i: nat) {
    && i < |entries| && entries[i].SettingEntry? && entries[i].key == key
    && Applies(glob, SelectorAt(entries, i), alias, HostAt(glob, entries, alias, i))
  }

  // The first non-empty value of a key among the first n entries.
  ghost predicate FirstValue(glob: Glob, entries: seq<Entry>, alias: Text, key: Key, n: nat, v: Text)
    requires n <= |entries|
  {
    if v == BLANK then forall i: nat :: i < n && Counts(glob, entries, alias, key, i) ==> entries[i].value == BLANK
    else exists k: nat :: k < n && Counts(glob, entries, alias, key, k) && entries[k].value == v
           && forall i: nat :: i < k && Counts(glob, entries, alias, key, i) ==> entries[i].value == BLANK
  }

  lemma FirstValueNext(glob: Glob, entries: seq<Entry>, alias: Text, key: Key, n: nat, v: Text)
    requires n < |entries| && FirstValue(glob, entries, alias, key, n, v)
    ensures FirstValue(glob, entries, alias, key, n + 1, if v == BLANK && Counts(glob, entries, alias, key, n) then entries[n].value else v)
  {
    if v != BLANK {
      var k: nat :| k < n && Counts(glob, entries, alias, key, k) && entries[k].value == v
                    && forall i: nat :: i < k && Counts(glob, entries, alias, key, i) ==> entries[i].value == BLANK;
      assert k < n + 1;
    }
  }

  // The host name is itself the first non-empty value, so a Match on the host sees it once it is set.
  lemma {:induction false} HostIsFirst(glob: Glob, entries: seq<Entry>, alias: Text, n: nat)
    requires n <= |entries|
    ensures FirstValue(glob, entries, alias, Hostname, n, HostAt(glob, entries, alias, n))
  {
    if n > 0 {
      HostIsFirst(glob, entries, alias, n - 1);
      FirstValueNext(glob, entries, alias, Hostname, n - 1, HostAt(glob, entries, alias, n - 1));
    }
  }

  datatype ParsedPort = BadPort | GoodPort(port: int)

  // A port is a number from 0 to 65535.
  function CheckPort(parse: Text -> Option<int>, v: Text): (r: ParsedPort)
    ensures r.GoodPort? <==> parse(v).Some? && 0 <= parse(v).value < 0x1_0000
    ensures r.GoodPort? ==> Some(r.port) == parse(v)
  {
    if parse(v).None? || parse(v).value < 0 || parse(v).value > 65535 then BadPort else GoodPort(parse(v).value)
  }

  // A port setting that decides: anything but a valid zero.
  ghost predicate Decides(glob: Glob, parse: Text -> Option<int>, entries: seq<Entry>, alias: Text, i: nat) {
    Counts(glob, entries, alias, Port, i) && CheckPort(parse, entries[i].value) != GoodPort(0)
  }

  // The outcome of the first port setting that decides among the first n entries, zero if there is none.
  ghost predicate FirstPort(glob: Glob, parse: Text -> Option<int>, entries: seq<Entry>, alias: Text, n: nat, p: ParsedPort)
    requires n <= |entries|
  {
    if p == GoodPort(0) then forall i: nat :: i < n ==> !Decides(glob, parse, entries, alias, i)
    else exists k: nat :: k < n && Decides(glob, parse, entries, alias, k) && CheckPort(parse, entries[k].value) == p
           && forall i: nat :: i < k ==> !Decides(glob, parse, entries, alias, i)
  }

  lemma FirstPortNext(glob: Glob, parse: Text -> Option<int>, entries: seq<Entry>, alias: Text, n: nat, p: ParsedPort)
    requires n < |entries| && FirstPort(glob, parse, entries, alias, n, p)
    ensures FirstPort(glob, parse, entries, alias, n + 1,
              if p == GoodPort(0) && Counts(glob, entries, alias, Port, n) then CheckPort(parse, entries[n].value) else p)
  {
    if p != GoodPort(0) {
      var k: nat :| k < n && Decides(glob, parse, entries, alias, k) && CheckPort(parse, entries[k].value) == p
                    && forall i: nat :: i < k ==> !Decides(glob, parse, entries, alias, i);
      assert k < n + 1;
    }
  }

  datatype Candidate = Candidate(alias: Text, host: Text, user: Text, port: int, identityFile: Text)
  datatype Resolution = Resolved(candidate: Candidate) | InvalidPort | UnsupportedHostname

  // What the loop has found after n entries.
  ghost predicate Found(glob: Glob, parse: Text -> Option<int>, entries: seq<Entry>, n: nat, c: Candidate)
    requires n <= |entries|
  {
    && c.host == HostAt(glob, entries, c.alias, n)
    && FirstValue(glob, entries, c.alias, User, n, c.user)
    && FirstValue(glob, entries, c.alias, IdentityFile, n, c.identityFile)
    && FirstPort(glob, parse, entries, c.alias, n, GoodPort(c.port))
  }

  function WithSetting(parse: Text -> Option<int>, c: Candidate, key: Key, value: Text): Candidate {
    match key
    case Hostname => if c.host == BLANK then c.(host := value) else c
    case User => if c.user == BLANK then c.(user := value) else c
    case IdentityFile => if c.identityFile == BLANK then c.(identityFile := value) else c
    case Port => if c.port == 0 && CheckPort(parse, value).GoodPort? then c.(port := CheckPort(parse, value).port) else c
    case OtherKey => c
  }

  lemma FoundNext(glob: Glob, parse: Text -> Option<int>, entries: seq<Entry>, n: nat, c: Candidate)
    requires n < |entries| && Found(glob, parse, entries, n, c)
    requires
      var e := entries[n];
      e.SettingEntry? && e.key == Port && c.port == 0 && Applies(glob, SelectorAt(entries, n), c.alias, c.host) ==>
        CheckPort(parse, e.value).GoodPort?
    ensures
      var e := entries[n];
      var applies := e.SettingEntry? && Applies(glob, SelectorAt(entries, n), c.alias, c.host);
      Found(glob, parse, entries, n + 1, if applies then WithSetting(parse, c, e.key, e.value) else c)
  {
    FirstValueNext(glob, entries, c.alias, User, n, c.user);
    FirstValueNext(glob, entries, c.alias, IdentityFile, n, c.identityFile);
    FirstPortNext(glob, parse, entries, c.alias, n, GoodPort(c.port));
  }

  // An alias resolves, for each key, to the first non-empty value under a selector that applies, the
  // host name defaulting to the alias; a port setting that decides and is not a port refuses it.
  method ResolveCandidate(glob: Glob, parse: Text -> Option<int>, unsupported: Text -> bool, entries: seq<Entry>, alias: Text)
    returns (r: Resolution)
    ensures r.InvalidPort? <==> FirstPort(glob, parse, entries, alias, |entries|, BadPort)
    ensures !r.InvalidPort? ==>
              exists h :: FirstValue(glob, entries, alias, Hostname, |entries|, h) &&
                var host := if h == BLANK then alias else h;
                if unsupported(host) then r.UnsupportedHostname? else r.Resolved? && r.candidate.host == host
    ensures r.Resolved? ==> r.candidate.alias == alias
                            && FirstValue(glob, entries, alias, User, |entries|, r.candidate.user)
                            && FirstValue(glob, entries, alias, IdentityFile, |entries|, r.candidate.identityFile)
                            && FirstPort(glob, parse, entries, alias, |entries|, GoodPort(r.candidate.port))
  {
    var c := Candidate(alias, BLANK, BLANK, 0, BLANK);
    var selector := Global;
    for n := 0 to |entries|
      invariant c.alias == alias && selector == SelectorAt(entries, n) && Found(glob, parse, entries, n, c)
    {
      match entries[n]
      case SelectorEntry(s) =>
        FoundNext(glob, parse, entries, n, c);
        selector := s;
      case SettingEntry(key, value) =>
        var applies := SelectorApplies(glob, selector, alias, c.host);
        if applies && key == Port && c.port == 0 && CheckPort(parse, value).BadPort? {
          FirstPortNext(glob, parse, entries, alias, n, GoodPort(0));
          BadPortStays(glob, parse, entries, alias, n + 1);
          return InvalidPort;
        }
        FoundNext(glob, parse, entries, n, c);
        if applies {
          c := WithSetting(parse, c, key, value);
        }
    }
    HostIsFirst(glob, entries, alias, |entries|);
    PortUnique(glob, parse, entries, alias, |entries|, c.port);
    assert FirstValue(glob, entries, alias, Hostname, |entries|, c.host);
    if c.host == BLANK {
      c := c.(host := alias);
    }
    if unsupported(c.host) {
      return UnsupportedHostname;
    }
    return Resolved(c);
  }

  lemma BadPortStays(glob: Glob, parse: Text -> Option<int>, entries: seq<Entry>, alias: Text, n: nat)
    requires n <= |entries| && FirstPort(glob, parse, entries, alias, n, BadPort)
    ensures FirstPort(glob, parse, entries, alias, |entries|, BadPort)
  {
    var k: nat :| k < n && Decides(glob, parse, entries, alias, k) && CheckPort(parse, entries[k].value) == BadPort
                  && forall i: nat :: i < k ==> !Decides(glob, parse, entries, alias, i);
    assert k < |entries|;
  }

  lemma PortUnique(glob: Glob, parse: Text -> Option<int>, entries: seq<Entry>, alias: Text, n: nat, port: int)
    requires n <= |entries| && FirstPort(glob, parse, entries, alias, n, GoodPort(port))
    ensures !FirstPort(glob, parse, entries, alias, n, BadPort)
  {
  }
}
