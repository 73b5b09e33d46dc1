/**
 The policy evaluator of core/policy and the overlay merge of core/agent/types.go.

 A pipeline of five stages decides whether a tool call is allowed; each stage may stop it.  The overlays
 of the prompt profile, the role and the work mode are merged into one profile first.  Path cleaning,
 glob and regular-expression matching and case folding are parameters.
 */
module Policy {
  import opened Common

  type Name = nat

  // Unset is the empty string, Other any string that is not one of the four declared tiers.
  datatype Tier = Unset | Safe | Moderate | Dangerous | Destructive | Other(name: nat)

  predicate Known(t: Tier) { t.Safe? || t.Moderate? || t.Dangerous? || t.Destructive? }

  function Rank(t: Tier): nat {
    match t
    case Moderate => 1
    case Dangerous => 2
    case Destructive => 3
    case _ => 0
  }

  function MaxTier(current: Tier, next: Tier): Tier { if Rank(next) > Rank(current) then next else current }

  function Escalate(t: Tier): Tier {
    match t
    case Safe => Moderate
    case Moderate => Dangerous
    case _ => Destructive
  }

  // What the standard library computes.
  datatype Library = Library(
    clean: string -> string,
    base: string -> string,
    glob: (string, string) -> bool,
    regex: (string, string) -> bool,
    containsFold: (string, string) -> bool)

  /******* Configuration and context *******/

  datatype Scope = Global | Workspace | Repo | OtherScope
  datatype MatcherType = Exact | Glob | Regex | StructuredMatch | OtherMatcher
  datatype Subject = Tool | Command | Path | OtherSubject
  datatype IgnoreMode = Deny | MetadataOnly | Redact

  datatype Structured = Structured(toolNames: seq<string>, widgets: seq<string>, tokens: seq<string>)

  datatype TrustedRule = TrustedRule(
    id: Name, enabled: bool, scope: Scope, scopeRef: string, subject: Subject,
    matcherType: MatcherType, matcher: string, structured: Option<Structured>)

  datatype IgnoreRule = IgnoreRule(
    id: Name, enabled: bool, scope: Scope, scopeRef: string, matcherType: MatcherType, pattern: string, mode: IgnoreMode)

  datatype Config = Config(
    allowedRoots: seq<string>, defaultCapabilities: seq<string>,
    trustedRules: seq<TrustedRule>, ignoreRules: seq<IgnoreRule>)

  datatype Profile = Profile(
    additions: seq<string>, removals: seq<string>, escalateBy: int, minimumTier: Tier, disableTrusted: bool)

  datatype Context = Context(
    toolName: string, summary: string, workspace: string, repoRoot: string,
    paths: seq<string>, widgets: seq<string>, required: seq<string>,
    tier: Tier, mutating: bool, requiresRoots: bool, checksIgnore: bool, hasApproval: bool, profile: Profile)

  /******* Matching *******/

  predicate ScopeMatches(lib: Library, scope: Scope, ref: string, ctx: Context) {
    match scope
    case Global => true
    case Workspace => ref != "" && ref == ctx.workspace
    case Repo => ref != "" && lib.clean(ref) == lib.clean(ctx.repoRoot)
    case OtherScope => false
  }

  predicate MatchString(lib: Library, t: MatcherType, matcher: string, value: string) {
    match t
    case Exact => matcher == value
    case Glob => lib.glob(matcher, value)
    case Regex => lib.regex(matcher, value)
    case _ => false
  }

  predicate MatchStructured(lib: Library, m: Structured, ctx: Context) {
    && (m.toolNames != [] ==> ctx.toolName in m.toolNames)
    && (m.widgets != [] ==> exists i :: 0 <= i < |ctx.widgets| && ctx.widgets[i] in m.widgets)
    && (forall i :: 0 <= i < |m.tokens| ==> lib.containsFold(ctx.summary, m.tokens[i]))
  }

  predicate TrustedApplies(lib: Library, r: TrustedRule, ctx: Context) {
    && r.enabled && ScopeMatches(lib, r.scope, r.scopeRef, ctx)
    && if r.matcherType == StructuredMatch then r.structured.Some? && MatchStructured(lib, r.structured.value, ctx)
       else match r.subject
            case Tool => MatchString(lib, r.matcherType, r.matcher, ctx.toolName)
            case Command => MatchString(lib, r.matcherType, r.matcher, ctx.summary)
            case Path => exists i :: 0 <= i < |ctx.paths| && MatchString(lib, r.matcherType, r.matcher, ctx.paths[i])
            case OtherSubject => false
  }

  predicate IgnoreApplies(lib: Library, r: IgnoreRule, ctx: Context) {
    && r.enabled && ScopeMatches(lib, r.scope, r.scopeRef, ctx)
    && exists i :: 0 <= i < |ctx.paths| &&
         (MatchString(lib, r.matcherType, r.pattern, lib.base(ctx.paths[i])) || MatchString(lib, r.matcherType, r.pattern, ctx.paths[i]))
  }

  method MatchesStructured(lib: Library, m: Option<Structured>, ctx: Context) returns (r: bool)
    ensures r <==> m.Some? && MatchStructured(lib, m.value, ctx)
  {
    if m.None? {
      return false;
    }
    var matcher := m.value;
    if |matcher.toolNames| > 0 && ctx.toolName !in matcher.toolNames {
      return false;
    }
    if |matcher.widgets| > 0 {
      var matched := false;
      for i := 0 to |ctx.widgets|
        invariant matched <==> exists k :: 0 <= k < i && ctx.widgets[k] in matcher.widgets
      {
        if ctx.widgets[i] in matcher.widgets {
          matched := true;
          break;
        }
      }
      if !matched {
        return false;
      }
    }
    for i := 0 to |matcher.tokens|
      invariant forall k :: 0 <= k < i ==> lib.containsFold(ctx.summary, matcher.tokens[k])
    {
      if !lib.containsFold(ctx.summary, matcher.tokens[i]) {
        return false;
      }
    }
    return true;
  }

  method TrustedRuleApplies(lib: Library, r: TrustedRule, ctx: Context) returns (applies: bool)
    ensures applies <==> TrustedApplies(lib, r, ctx)
  {
    if !r.enabled || !ScopeMatches(lib, r.scope, r.scopeRef, ctx) {
      return false;
    }
    if r.matcherType == StructuredMatch {
      applies := MatchesStructured(lib, r.structured, ctx);
      return;
    }
    match r.subject
    case Tool => return MatchString(lib, r.matcherType, r.matcher, ctx.toolName);
    case Command => return MatchString(lib, r.matcherType, r.matcher, ctx.summary);
    case Path =>
      for i := 0 to |ctx.paths|
        invariant forall k :: 0 <= k < i ==> !MatchString(lib, r.matcherType, r.matcher, ctx.paths[k])
      {
        if MatchString(lib, r.matcherType, r.matcher, ctx.paths[i]) {
          return true;
        }
      }
      return false;
    case OtherSubject => return false;
  }

  method IgnoreRuleApplies(lib: Library, r: IgnoreRule, ctx: Context) returns (applies: bool)
    ensures applies <==> IgnoreApplies(lib, r, ctx)
  {
    if !r.enabled || !ScopeMatches(lib, r.scope, r.scopeRef, ctx) {
      return false;
    }
    for i := 0 to |ctx.paths|
      invariant forall k :: 0 <= k < i ==> !MatchString(lib, r.matcherType, r.pattern, lib.base(ctx.paths[k]))
                                           && !MatchString(lib, r.matcherType, r.pattern, ctx.paths[k])
    {
      if MatchString(lib, r.matcherType, r.pattern, lib.base(ctx.paths[i])) || MatchString(lib, r.matcherType, r.pattern, ctx.paths[i]) {
        return true;
      }
    }
    return false;
  }

  /******* What rules look at *******/

  // A scope tells the two contexts apart.
  predicate SameScope(lib: Library, scope: Scope, c: Context, d: Context) {
    match scope
    case Workspace => c.workspace == d.workspace
    case Repo => lib.clean(c.repoRoot) == lib.clean(d.repoRoot)
    case _ => true
  }

  predicate SameSubject(r: TrustedRule, c: Context, d: Context) {
    if r.matcherType == StructuredMatch then c.toolName == d.toolName && c.widgets == d.widgets && c.summary == d.summary
    else match r.subject
         case Tool => c.toolName == d.toolName
         case Command => c.summary == d.summary
         case Path => c.paths == d.paths
         case OtherSubject => true
  }

  // A rule looks at nothing but what its scope and its subject name.
  lemma RulesLookOnlyAt(lib: Library, t: TrustedRule, r: IgnoreRule, c: Context, d: Context)
    ensures SameScope(lib, t.scope, c, d) && SameSubject(t, c, d) ==> (TrustedApplies(lib, t, c) <==> TrustedApplies(lib, t, d))
    ensures SameScope(lib, r.scope, c, d) && c.paths == d.paths ==> (IgnoreApplies(lib, r, c) <==> IgnoreApplies(lib, r, d))
  {
  }

  // In force: enabled and global, or for this workspace or this repository.
  predicate InForce(lib: Library, enabled: bool, scope: Scope, ref: string, ctx: Context) {
    enabled && (scope == Global || (ref != "" && ((scope == Workspace && ref == ctx.workspace)
                                                  || (scope == Repo && lib.clean(ref) == lib.clean(ctx.repoRoot)))))
  }

  // An exact rule that is in force applies exactly to the tool, the command or the paths it names, and a
  // rule that is not in force to nothing.
  lemma ExactRuleApplies(lib: Library, r: TrustedRule, ctx: Context)
    ensures !InForce(lib, r.enabled, r.scope, r.scopeRef, ctx) ==> !TrustedApplies(lib, r, ctx)
    ensures InForce(lib, r.enabled, r.scope, r.scopeRef, ctx) && r.matcherType == Exact ==>
              (TrustedApplies(lib, r, ctx) <==>
                 match r.subject
                 case Tool => ctx.toolName == r.matcher
                 case Command => ctx.summary == r.matcher
                 case Path => r.matcher in ctx.paths
                 case OtherSubject => false)
  {
  }

  lemma ExactIgnoreApplies(lib: Library, r: IgnoreRule, ctx: Context)
    ensures !InForce(lib, r.enabled, r.scope, r.scopeRef, ctx) ==> !IgnoreApplies(lib, r, ctx)
    ensures InForce(lib, r.enabled, r.scope, r.scopeRef, ctx) && r.matcherType == Exact ==>
              (IgnoreApplies(lib, r, ctx) <==>
                 r.pattern in ctx.paths || exists i :: 0 <= i < |ctx.paths| && lib.base(ctx.paths[i]) == r.pattern)
  {
  }

  // A structured matcher asks for one of its tools, one of its widgets and all of its tokens, each only if
  // it names any.
  lemma StructuredParts(lib: Library, m: Structured, ctx: Context, tool: string, widget: string, token: string)
    ensures MatchStructured(lib, m, ctx) <==>
              MatchStructured(lib, Structured(m.toolNames, [], []), ctx) && MatchStructured(lib, Structured([], m.widgets, []), ctx)
              && forall i :: 0 <= i < |m.tokens| ==> MatchStructured(lib, Structured([], [], [m.tokens[i]]), ctx)
    ensures MatchStructured(lib, Structured([], [], []), ctx)
    ensures MatchStructured(lib, Structured([tool], [], []), ctx) <==> ctx.toolName == tool
    ensures MatchStructured(lib, Structured([], [widget], []), ctx) <==> widget in ctx.widgets
    ensures MatchStructured(lib, Structured([], [], [token]), ctx) <==> lib.containsFold(ctx.summary, token)
  {
    assert Structured([], [], [token]).tokens[0] == token;
    forall i | 0 <= i < |m.tokens|
      ensures MatchStructured(lib, Structured([], [], [m.tokens[i]]), ctx) <==> lib.containsFold(ctx.summary, m.tokens[i])
    {
      assert [m.tokens[i]][0] == m.tokens[i];
    }
  }

  /******* Effective tier and capabilities *******/

  function Escalated(t: Tier, n: nat): Tier { if n == 0 then t else Escalate(Escalated(t, n - 1)) }

  function BaseTier(base: Tier, minimum: Tier, mutating: bool): Tier {
    if mutating && minimum != Unset then MaxTier(base, minimum) else base
  }

  function EffectiveTier(base: Tier, p: Profile, mutating: bool): Tier {
    Escalated(BaseTier(base, p.minimumTier, mutating), if p.escalateBy < 0 then 0 else p.escalateBy)
  }

  method EffectiveApprovalTier(base: Tier, p: Profile, mutating: bool) returns (tier: Tier)
    ensures tier == EffectiveTier(base, p, mutating)
  {
    tier := base;
    if mutating && p.minimumTier != Unset {
      tier := MaxTier(tier, p.minimumTier);
    }
    var i := 0;
    while i < p.escalateBy
      invariant 0 <= i <= if p.escalateBy < 0 then 0 else p.escalateBy
      invariant tier == Escalated(BaseTier(base, p.minimumTier, mutating), i)
      decreases p.escalateBy - i
    {
      tier := Escalate(tier);
      i := i + 1;
    }
  }

  function Min(a: int, b: int): int { if a < b then a else b }
  function Max(a: int, b: int): int { if a < b then b else a }

  lemma {:induction false} EscalatedRank(t: Tier, n: nat)
    requires Known(t)
    ensures Known(Escalated(t, n)) && Rank(Escalated(t, n)) == Min(3, Rank(t) + n)
  {
    if n > 0 {
      EscalatedRank(t, n - 1);
    }
  }

  // The effective tier in closed form, for the declared base tiers.
  lemma EffectiveTierRank(base: Tier, p: Profile, mutating: bool)
    requires Known(base)
    ensures Known(EffectiveTier(base, p, mutating))
    ensures Rank(EffectiveTier(base, p, mutating)) ==
              Min(3, Max(Rank(base), if mutating then Rank(p.minimumTier) else 0) + Max(0, p.escalateBy))
  {
    EscalatedRank(BaseTier(base, p.minimumTier, mutating), if p.escalateBy < 0 then 0 else p.escalateBy);
  }

  predicate Effective(cfg: Config, p: Profile, c: string) {
    (c in cfg.defaultCapabilities || c in p.additions) && c !in p.removals
  }

  // Adds what is not there yet.
  method AddNew(have: seq<string>, more: seq<string>) returns (r: seq<string>)
    ensures forall c :: c in r <==> c in have || c in more
    ensures (forall i, j :: 0 <= i < j < |have| ==> have[i] != have[j]) ==> forall i, j :: 0 <= i < j < |r| ==> r[i] != r[j]
  {
    r := have;
    for k := 0 to |more|
      invariant forall c :: c in r <==> c in have || c in more[..k]
      invariant (forall i, j :: 0 <= i < j < |have| ==> have[i] != have[j]) ==> forall i, j :: 0 <= i < j < |r| ==> r[i] != r[j]
    {
      assert more[..k + 1] == more[..k] + [more[k]];
      if more[k] in r {
        continue;
      }
      r := r + [more[k]];
    }
    assert more[..|more|] == more;
  }

  // effectiveCapabilities, without duplicates.
  method EffectiveCapabilities(cfg: Config, p: Profile) returns (r: seq<string>)
    ensures forall c :: c in r <==> Effective(cfg, p, c)
    ensures forall i, j :: 0 <= i < j < |r| ==> r[i] != r[j]
  {
    var all := AddNew([], cfg.defaultCapabilities);
    all := AddNew(all, p.additions);
    if p.removals == [] {
      return all;
    }
    r := [];
    for k := 0 to |all|
      invariant forall c :: c in r <==> c in all[..k] && c !in p.removals
      invariant forall i, j :: 0 <= i < j < |r| ==> r[i] != r[j]
    {
      assert all[..k + 1] == all[..k] + [all[k]];
      if all[k] in p.removals {
        continue;
      }
      r := r + [all[k]];
    }
    assert all[..|all|] == all;
  }

  /******* Roots *******/

  predicate Inside(path: string, root: string) { path == root || root + "/" <= path }

  predicate UsableRoot(lib: Library, root: string) { lib.clean(root) != "." && lib.clean(root) != "" }

  ghost predicate PathAllowed(lib: Library, roots: seq<string>, path: string) {
    exists i :: 0 <= i < |roots| && UsableRoot(lib, roots[i]) && Inside(lib.clean(path), lib.clean(lib.clean(roots[i])))
  }

  method NormalizeRoots(lib: Library, roots: seq<string>) returns (r: seq<string>)
    ensures forall s :: s in r <==> exists i :: 0 <= i < |roots| && UsableRoot(lib, roots[i]) && lib.clean(roots[i]) == s
  {
    r := [];
    for k := 0 to |roots|
      invariant forall s :: s in r <==> exists i :: 0 <= i < k && UsableRoot(lib, roots[i]) && lib.clean(roots[i]) == s
    {
      var root := lib.clean(roots[k]);
      if root == "." || root == "" {
        continue;
      }
      // slices.Compact drops a root equal to the one before it.
      if r == [] || r[|r| - 1] != root {
        r := r + [root];
      }
    }
  }

  method CheckPath(lib: Library, path: string, roots: seq<string>) returns (ok: bool)
    ensures ok <==> exists s :: s in roots && Inside(lib.clean(path), lib.clean(s))
  {
    for k := 0 to |roots|
      invariant forall i :: 0 <= i < k ==> !Inside(lib.clean(path), lib.clean(roots[i]))
    {
      if Inside(lib.clean(path), lib.clean(roots[k])) {
        return true;
      }
    }
    return false;
  }

  /******* What the prefix test means *******/

  // The components of a cleaned absolute path.
  predicate ValidComponents(p: seq<string>) { forall i :: 0 <= i < |p| ==> p[i] != "" && '/' !in p[i] }

  function Joined(p: seq<string>): string { if p == [] then "" else "/" + p[0] + Joined(p[1..]) }

  // The cleaned absolute path of a list of components.
  function Render(p: seq<string>): string { if p == [] then "/" else Joined(p) }

  // A path ends after a component or goes on with a separator.
  lemma JoinedHead(p: seq<string>)
    ensures p == [] <==> Joined(p) == ""
    ensures p != [] ==> Joined(p)[0] == '/'
  {
    if p != [] {
      assert ("/" + p[0] + Joined(p[1..]))[0] == '/';
    }
  }

  // Components followed by the end or a separator can be told apart.
  lemma ComponentsEqual(a: string, s: string, b: string, t: string)
    requires '/' !in a && '/' !in b && a + s <= b + t
    requires s != "" && s[0] == '/' && (t != "" ==> t[0] == '/')
    ensures a == b && s <= t
  {
    var x, y := a + s, b + t;
    assert x == y[..|x|];
    assert x[|a|] == '/' && y[|a|] == '/' && (t != "" ==> y[|b|] == '/');
    assert forall i :: 0 <= i < |a| ==> x[i] == a[i] && a[i] in a;
    assert forall i :: 0 <= i < |b| ==> y[i] == b[i] && b[i] in b;
    assert |a| == |b|;
    assert a == x[..|a|] && b == y[..|a|];
    assert s == x[|a|..] && t == y[|a|..];
  }

  // One component at a time.
  lemma SeparatedStep(a: string, s: string, b: string, t: string)
    requires '/' !in a && '/' !in b && s != "" && s[0] == '/' && (t != "" ==> t[0] == '/')
    ensures "/" + (a + s) <= "/" + (b + t) <==> a == b && s <= t
  {
    SamePrefix("/", a + s, b + t);
    if a + s <= b + t {
      ComponentsEqual(a, s, b, t);
    }
    if a == b {
      SamePrefix(a, s, t);
    }
  }

  lemma JoinedBelowStep(r: seq<string>, p: seq<string>)
    requires ValidComponents(r) && ValidComponents(p) && r != [] && p != []
    ensures Joined(r) + "/" <= Joined(p) <==> r[0] == p[0] && Joined(r[1..]) + "/" <= Joined(p[1..])
  {
    TextBelowStep(r[0], Joined(r[1..]), p[0], Joined(p[1..]), Joined(r), Joined(p)) by {
      JoinedHead(r[1..]);
      JoinedHead(p[1..]);
    }
  }

  lemma TextBelowStep(a: string, s: string, b: string, t: string, x: string, y: string)
    requires '/' !in a && '/' !in b && (s != "" ==> s[0] == '/') && (t != "" ==> t[0] == '/')
    requires x == "/" + a + s && y == "/" + b + t
    ensures x + "/" <= y <==> a == b && s + "/" <= t
  {
    assert x + "/" == "/" + (a + (s + "/"));
    assert y == "/" + (b + t);
    SeparatedStep(a, s + "/", b, t);
  }

  // A joined path with a separator added is a prefix of another exactly when its components are a
  // proper prefix of the other's.
  lemma {:induction false} JoinedBelow(r: seq<string>, p: seq<string>)
    requires ValidComponents(r) && ValidComponents(p)
    ensures Joined(r) + "/" <= Joined(p) <==> r <= p && r != p
    decreases |r|
  {
    JoinedHead(p);
    if r == [] {
      assert Joined(r) + "/" == "/";
      assert p != [] ==> "/" <= Joined(p);
    } else if p != [] {
      JoinedBelowStep(r, p);
      JoinedBelow(r[1..], p[1..]);
      ComponentsPrefix(r, p);
    }
  }

  lemma SamePrefix(a: string, s: string, t: string)
    ensures a + s <= a + t <==> s <= t
  {
    if a + s <= a + t {
      assert s == (a + s)[|a|..] && t == (a + t)[|a|..];
    }
  }

  lemma ComponentsPrefix(r: seq<string>, p: seq<string>)
    requires r != [] && p != []
    ensures r <= p <==> r[0] == p[0] && r[1..] <= p[1..]
    ensures r == p <==> r[0] == p[0] && r[1..] == p[1..]
  {
    assert r == [r[0]] + r[1..] && p == [p[0]] + p[1..];
  }

  lemma {:induction false} JoinedInjective(r: seq<string>, p: seq<string>)
    requires ValidComponents(r) && ValidComponents(p) && Joined(r) == Joined(p)
    ensures r == p
    decreases |r|
  {
    JoinedHead(r);
    JoinedHead(p);
    if r != [] {
      var s, t := Joined(r[1..]), Joined(p[1..]);
      JoinedHead(r[1..]);
      JoinedHead(p[1..]);
      assert Joined(r) == "/" + (r[0] + s) && Joined(p) == "/" + (p[0] + t);
      SamePrefix("/", r[0] + s, p[0] + t);
      SamePrefix("/", p[0] + t, r[0] + s);
      assert r[0] + s == p[0] + t;
      assert r[0] + (s + "/") == (r[0] + s) + "/" && p[0] + (t + "/") == (p[0] + t) + "/";
      ComponentsEqual(r[0], s + "/", p[0], t + "/");
      assert s == (s + "/")[..|s|] && t == (t + "/")[..|t|];
      JoinedInjective(r[1..], p[1..]);
      ComponentsPrefix(r, p);
    }
  }

  // The string test on cleaned absolute paths is containment of paths, except for the root "/", whose
  // rendering already ends in a separator: it admits only itself.
  lemma InsideIsContainment(p: seq<string>, r: seq<string>)
    requires ValidComponents(p) && ValidComponents(r)
    ensures Inside(Render(p), Render(r)) <==> if r == [] then p == [] else r <= p
  {
    JoinedHead(p);
    JoinedHead(r);
    if r == [] && p != [] {
      SlashAlone(p);
    } else if r != [] {
      JoinedBelow(r, p);
      if p == [] {
        ShortRoot(r);
      } else if Joined(r) == Joined(p) {
        JoinedInjective(r, p);
      }
    }
  }

  lemma SlashAlone(p: seq<string>)
    requires ValidComponents(p) && p != []
    ensures Render(p) != "/" && !("//" <= Render(p)) && "/" + "/" == "//"
  {
    var s := Render(p);
    assert s == "/" + (p[0] + Joined(p[1..]));
    assert s[1] == p[0][0] && p[0][0] in p[0];
  }

  lemma ShortRoot(r: seq<string>)
    requires ValidComponents(r) && r != []
    ensures Render(r) != "/" && !(Render(r) + "/" <= "/")
  {
    assert |Render(r)| >= 2 by {
      assert Render(r) == "/" + (r[0] + Joined(r[1..]));
    }
  }

  // Everything below a root is admitted.
  ghost predicate AdmitsBelow(r: seq<string>) {
    forall p :: ValidComponents(p) && r <= p ==> Inside(Render(p), Render(r))
  }

  // A root admits everything below it if and only if it is not "/".
  lemma AdmitsBelowExactlyWhenNotSlash(r: seq<string>)
    requires ValidComponents(r)
    ensures AdmitsBelow(r) <==> r != []
  {
    if r == [] {
      InsideIsContainment(["a"], r);
      assert ValidComponents(["a"]) && r <= ["a"];
    } else {
      forall p | ValidComponents(p) && r <= p ensures Inside(Render(p), Render(r)) {
        InsideIsContainment(p, r);
      }
    }
  }

  // The roots and the path in components, as the library cleans them.
  ghost predicate Cleans(lib: Library, s: string, p: seq<string>) {
    ValidComponents(p) && lib.clean(s) == Render(p) && lib.clean(Render(p)) == Render(p)
  }

  // The decision about a path, in components: it is below an allowed root other than "/", or it is "/"
  // and "/" is allowed.
  lemma PathAllowedMeans(lib: Library, roots: seq<string>, rs: seq<seq<string>>, path: string, p: seq<string>)
    requires |rs| == |roots| && (forall i :: 0 <= i < |roots| ==> Cleans(lib, roots[i], rs[i])) && Cleans(lib, path, p)
    ensures PathAllowed(lib, roots, path) <==> exists i :: 0 <= i < |rs| && if rs[i] == [] then p == [] else rs[i] <= p
  {
    forall i | 0 <= i < |roots|
      ensures UsableRoot(lib, roots[i]) && Inside(lib.clean(path), lib.clean(lib.clean(roots[i]))) <==>
                if rs[i] == [] then p == [] else rs[i] <= p
    {
      assert Cleans(lib, roots[i], rs[i]);
      InsideIsContainment(p, rs[i]);
      JoinedHead(rs[i]);
      assert Render(rs[i])[0] == '/';
    }
  }

  /******* The decision in closed form *******/

  ghost predicate CapabilitiesHeld(cfg: Config, ctx: Context) {
    forall i :: 0 <= i < |ctx.required| ==> Effective(cfg, ctx.profile, ctx.required[i])
  }

  ghost predicate RootsOk(lib: Library, cfg: Config, ctx: Context) {
    ctx.requiresRoots ==> forall i :: 0 <= i < |ctx.paths| ==> PathAllowed(lib, cfg.allowedRoots, ctx.paths[i])
  }

  // The first ignore rule that applies.
  predicate FirstIgnore(lib: Library, cfg: Config, ctx: Context, i: nat) {
    && i < |cfg.ignoreRules| && IgnoreApplies(lib, cfg.ignoreRules[i], ctx)
    && forall k :: 0 <= k < i ==> !IgnoreApplies(lib, cfg.ignoreRules[k], ctx)
  }

  ghost predicate Ignored(lib: Library, cfg: Config, ctx: Context) {
    ctx.checksIgnore && exists i: nat :: FirstIgnore(lib, cfg, ctx, i) && cfg.ignoreRules[i].mode == Deny
  }

  predicate FirstTrusted(lib: Library, cfg: Config, ctx: Context, i: nat) {
    && i < |cfg.trustedRules| && TrustedApplies(lib, cfg.trustedRules[i], ctx)
    && forall k :: 0 <= k < i ==> !TrustedApplies(lib, cfg.trustedRules[k], ctx)
  }

  ghost predicate Trusted(lib: Library, cfg: Config, ctx: Context) {
    exists i :: 0 <= i < |cfg.trustedRules| && TrustedApplies(lib, cfg.trustedRules[i], ctx)
  }

  ghost predicate TierOk(lib: Library, cfg: Config, ctx: Context) {
    var tier := EffectiveTier(ctx.tier, ctx.profile, ctx.mutating);
    tier != Destructive && (tier == Dangerous ==> Trusted(lib, cfg, ctx) && !ctx.profile.disableTrusted)
  }

  ghost predicate Allows(lib: Library, cfg: Config, ctx: Context) {
    && CapabilitiesHeld(cfg, ctx)
    && (ctx.hasApproval || (RootsOk(lib, cfg, ctx) && !Ignored(lib, cfg, ctx) && TierOk(lib, cfg, ctx)))
  }

  /******* The pipeline *******/

  datatype Reason = NoReason | CapabilityDenied | RootConfirmation | IgnoreConfirmation | ApprovalRequired

  datatype Decision = Decision(
    allowed: bool, requiresConfirmation: bool, autoApproved: bool, reason: Reason,
    missing: seq<string>, capabilities: seq<string>, tier: Tier, roots: seq<string>,
    trustedRule: Option<Name>, ignoreRule: Option<Name>, ignoreMode: Option<IgnoreMode>)

  class Pipeline {
    const lib: Library
    const cfg: Config
    const ctx: Context
    var decision: Decision

    ghost predicate Prepared()
      reads this
    {
      && (forall c :: c in decision.capabilities <==> Effective(cfg, ctx.profile, c))
      && (forall s :: s in decision.roots <==>
            exists i :: 0 <= i < |cfg.allowedRoots| && UsableRoot(lib, cfg.allowedRoots[i]) && lib.clean(cfg.allowedRoots[i]) == s)
      && decision.tier == EffectiveTier(ctx.tier, ctx.profile, ctx.mutating)
    }

    // A stage changes the decision but not what newPipeline computed.
    twostate predicate KeepsPrepared()
      reads this
    {
      decision.capabilities == old(decision.capabilities) && decision.roots == old(decision.roots) && decision.tier == old(decision.tier)
    }

    constructor (lib: Library, cfg: Config, ctx: Context)
      ensures this.lib == lib && this.cfg == cfg && this.ctx == ctx
      ensures Prepared() && decision.allowed && !decision.requiresConfirmation && !decision.autoApproved
      ensures decision.reason == NoReason && decision.missing == []
    {
      var roots := NormalizeRoots(lib, cfg.allowedRoots);
      var capabilities := EffectiveCapabilities(cfg, ctx.profile);
      var tier := EffectiveApprovalTier(ctx.tier, ctx.profile, ctx.mutating);
      this.lib, this.cfg, this.ctx := lib, cfg, ctx;
      decision := Decision(true, false, false, NoReason, [], capabilities, tier, roots, None, None, None);
    }

    method CapabilityStage() returns (stop: bool)
      requires Prepared() && decision.missing == []
      modifies this
      ensures KeepsPrepared() && stop == !CapabilitiesHeld(cfg, ctx)
      ensures forall c :: c in decision.missing <==> c in ctx.required && !Effective(cfg, ctx.profile, c)
      ensures !stop ==> decision == old(decision)
      ensures stop ==> decision == old(decision).(allowed := false, reason := CapabilityDenied, missing := decision.missing)
    {
      var missing: seq<string> := [];
      for i := 0 to |ctx.required|
        invariant forall c :: c in missing <==> c in ctx.required[..i] && !Effective(cfg, ctx.profile, c)
        invariant decision == old(decision).(missing := missing)
      {
        assert ctx.required[..i + 1] == ctx.required[..i] + [ctx.required[i]];
        if ctx.required[i] !in decision.capabilities {
          missing := missing + [ctx.required[i]];
          decision := decision.(missing := missing);
        }
      }
      assert ctx.required[..|ctx.required|] == ctx.required;
      if |missing| == 0 {
        return false;
      }
      assert missing[0] in missing;
      decision := decision.(allowed := false, reason := CapabilityDenied);
      return true;
    }

    method AllowedRootsStage() returns (stop: bool)
      requires Prepared()
      modifies this
      ensures stop == (!ctx.hasApproval && !RootsOk(lib, cfg, ctx))
      ensures decision == if stop then old(decision).(allowed := false, requiresConfirmation := true, reason := RootConfirmation)
                          else old(decision)
    {
      if !ctx.requiresRoots || |ctx.paths| == 0 {
        return false;
      }
      for i := 0 to |ctx.paths|
        invariant decision == old(decision)
        invariant ctx.hasApproval || forall k :: 0 <= k < i ==> PathAllowed(lib, cfg.allowedRoots, ctx.paths[k])
      {
        var allowed := CheckPath(lib, ctx.paths[i], decision.roots);
        assert allowed <==> PathAllowed(lib, cfg.allowedRoots, ctx.paths[i]);
        if allowed || ctx.hasApproval {
          continue;
        }
        decision := decision.(allowed := false, requiresConfirmation := true, reason := RootConfirmation);
        return true;
      }
      return false;
    }

    method IgnoreRulesStage() returns (stop: bool)
      modifies this
      ensures stop == (!ctx.hasApproval && Ignored(lib, cfg, ctx))
      ensures decision ==
                var noted := old(decision).(ignoreRule := decision.ignoreRule, ignoreMode := decision.ignoreMode);
                if stop then noted.(allowed := false, requiresConfirmation := true, reason := IgnoreConfirmation) else noted
      ensures forall i: nat :: ctx.checksIgnore && FirstIgnore(lib, cfg, ctx, i) ==>
                decision.ignoreRule == Some(cfg.ignoreRules[i].id) && decision.ignoreMode == Some(cfg.ignoreRules[i].mode)
      ensures !ctx.checksIgnore || (forall i: nat :: !FirstIgnore(lib, cfg, ctx, i)) ==> decision == old(decision)
    {
      if !ctx.checksIgnore {
        return false;
      }
      for i := 0 to |cfg.ignoreRules|
        invariant decision == old(decision)
        invariant forall k :: 0 <= k < i ==> !IgnoreApplies(lib, cfg.ignoreRules[k], ctx)
      {
        var rule := cfg.ignoreRules[i];
        var applies := IgnoreRuleApplies(lib, rule, ctx);
        if !applies {
          continue;
        }
        assert FirstIgnore(lib, cfg, ctx, i);
        assert forall k: nat :: FirstIgnore(lib, cfg, ctx, k) ==> k == i;
        decision := decision.(ignoreRule := Some(rule.id), ignoreMode := Some(rule.mode));
        if rule.mode == Deny && !ctx.hasApproval {
          decision := decision.(allowed := false, requiresConfirmation := true, reason := IgnoreConfirmation);
          return true;
        }
        return false;
      }
      return false;
    }

    method TrustedRulesStage() returns (stop: bool)
      requires !decision.autoApproved
      modifies this
      ensures KeepsPrepared() && !stop
      ensures decision.autoApproved == (Trusted(lib, cfg, ctx) && !ctx.profile.disableTrusted && decision.tier != Destructive)
      ensures decision == old(decision).(trustedRule := decision.trustedRule, autoApproved := decision.autoApproved)
      ensures forall i: nat :: FirstTrusted(lib, cfg, ctx, i) ==> decision.trustedRule == Some(cfg.trustedRules[i].id)
      ensures !Trusted(lib, cfg, ctx) ==> decision.trustedRule == old(decision.trustedRule)
    {
      for i := 0 to |cfg.trustedRules|
        invariant decision == old(decision)
        invariant forall k :: 0 <= k < i ==> !TrustedApplies(lib, cfg.trustedRules[k], ctx)
      {
        var rule := cfg.trustedRules[i];
        var applies := TrustedRuleApplies(lib, rule, ctx);
        if !applies {
          continue;
        }
        assert forall k: nat :: FirstTrusted(lib, cfg, ctx, k) ==> k == i;
        decision := decision.(trustedRule := Some(rule.id));
        if !ctx.profile.disableTrusted && decision.tier != Destructive {
          decision := decision.(autoApproved := true);
        }
        return false;
      }
      return false;
    }

    method ApprovalStage() returns (stop: bool)
      modifies this
      ensures KeepsPrepared()
      ensures stop == (decision.tier in {Dangerous, Destructive} && !ctx.hasApproval && !decision.autoApproved)
      ensures decision == if stop then old(decision).(allowed := false, requiresConfirmation := true, reason := ApprovalRequired)
                          else old(decision)
    {
      match decision.tier
      case Dangerous | Destructive =>
        if ctx.hasApproval || decision.autoApproved {
          return false;
        }
        decision := decision.(allowed := false, requiresConfirmation := true, reason := ApprovalRequired);
        return true;
      case _ => return false;
    }

    // The five stages in order, until one stops.
    method Run()
      requires Prepared() && decision.allowed && !decision.autoApproved && decision.missing == []
      requires decision.reason == NoReason && !decision.requiresConfirmation
      modifies this
      ensures decision.allowed <==> Allows(lib, cfg, ctx)
      ensures decision.requiresConfirmation <==> CapabilitiesHeld(cfg, ctx) && !Allows(lib, cfg, ctx)
      ensures decision.reason == Why(lib, cfg, ctx)
      ensures forall c :: c in decision.missing <==> c in ctx.required && !Effective(cfg, ctx.profile, c)
    {
      var stop := CapabilityStage();
      if stop {
        return;
      }
      stop := AllowedRootsStage();
      if stop {
        return;
      }
      stop := IgnoreRulesStage();
      if stop {
        return;
      }
      stop := TrustedRulesStage();
      if stop {
        return;
      }
      stop := ApprovalStage();
    }
  }

  // The reason is that of the first stage that objects.
  ghost function Why(lib: Library, cfg: Config, ctx: Context): Reason {
    if !CapabilitiesHeld(cfg, ctx) then CapabilityDenied
    else if ctx.hasApproval then NoReason
    else if !RootsOk(lib, cfg, ctx) then RootConfirmation
    else if Ignored(lib, cfg, ctx) then IgnoreConfirmation
    else if !TierOk(lib, cfg, ctx) then ApprovalRequired
    else NoReason
  }

  method Evaluate(lib: Library, cfg: Config, ctx: Context) returns (d: Decision)
    ensures d.allowed <==> Allows(lib, cfg, ctx)
    ensures d.requiresConfirmation <==> CapabilitiesHeld(cfg, ctx) && !Allows(lib, cfg, ctx)
    ensures d.reason == Why(lib, cfg, ctx)
    ensures forall c :: c in d.missing <==> c in ctx.required && !Effective(cfg, ctx.profile, c)
  {
    var p := new Pipeline(lib, cfg, ctx);
    p.Run();
    d := p.decision;
  }

  /******* Rules that do not apply *******/

  function WithRule<T>(rules: seq<T>, k: nat, r: T): seq<T>
    requires k <= |rules|
  {
    rules[..k] + [r] + rules[k..]
  }

  // A rule that does not apply, a disabled one in particular, changes no decision wherever it stands.
  lemma IdleTrustedRule(lib: Library, cfg: Config, ctx: Context, k: nat, r: TrustedRule)
    requires k <= |cfg.trustedRules| && !TrustedApplies(lib, r, ctx)
    ensures
      var cfg' := cfg.(trustedRules := WithRule(cfg.trustedRules, k, r));
      (Allows(lib, cfg', ctx) <==> Allows(lib, cfg, ctx)) && Why(lib, cfg', ctx) == Why(lib, cfg, ctx)
  {
    var cfg' := cfg.(trustedRules := WithRule(cfg.trustedRules, k, r));
    SameTrust(lib, cfg, cfg', ctx, k, r);
    SameButTrust(lib, cfg, cfg', ctx);
  }

  lemma SameTrust(lib: Library, cfg: Config, cfg': Config, ctx: Context, k: nat, r: TrustedRule)
    requires k <= |cfg.trustedRules| && !TrustedApplies(lib, r, ctx)
    requires cfg'.trustedRules == WithRule(cfg.trustedRules, k, r)
    ensures Trusted(lib, cfg', ctx) <==> Trusted(lib, cfg, ctx)
  {
    if Trusted(lib, cfg, ctx) {
      var i :| 0 <= i < |cfg.trustedRules| && TrustedApplies(lib, cfg.trustedRules[i], ctx);
      assert cfg'.trustedRules[if i < k then i else i + 1] == cfg.trustedRules[i];
    }
    if Trusted(lib, cfg', ctx) {
      var i :| 0 <= i < |cfg'.trustedRules| && TrustedApplies(lib, cfg'.trustedRules[i], ctx);
      assert cfg'.trustedRules[i] == if i < k then cfg.trustedRules[i] else if i == k then r else cfg.trustedRules[i - 1];
    }
  }

  lemma SameButTrust(lib: Library, cfg: Config, cfg': Config, ctx: Context)
    requires cfg' == cfg.(trustedRules := cfg'.trustedRules)
    ensures CapabilitiesHeld(cfg', ctx) <==> CapabilitiesHeld(cfg, ctx)
    ensures RootsOk(lib, cfg', ctx) <==> RootsOk(lib, cfg, ctx)
    ensures Ignored(lib, cfg', ctx) <==> Ignored(lib, cfg, ctx)
  {
    assert forall c :: Effective(cfg', ctx.profile, c) <==> Effective(cfg, ctx.profile, c);
    assert forall i: nat :: FirstIgnore(lib, cfg', ctx, i) <==> FirstIgnore(lib, cfg, ctx, i);
  }

  lemma IdleIgnoreRule(lib: Library, cfg: Config, ctx: Context, k: nat, r: IgnoreRule)
    requires k <= |cfg.ignoreRules| && !IgnoreApplies(lib, r, ctx)
    ensures
      var cfg' := cfg.(ignoreRules := WithRule(cfg.ignoreRules, k, r));
      (Allows(lib, cfg', ctx) <==> Allows(lib, cfg, ctx)) && Why(lib, cfg', ctx) == Why(lib, cfg, ctx)
  {
    var cfg' := cfg.(ignoreRules := WithRule(cfg.ignoreRules, k, r));
    assert forall c :: Effective(cfg', ctx.profile, c) <==> Effective(cfg, ctx.profile, c);
    assert Trusted(lib, cfg', ctx) <==> Trusted(lib, cfg, ctx);
    SameIgnored(lib, cfg, cfg', ctx, k, r);
  }

  lemma SameIgnored(lib: Library, cfg: Config, cfg': Config, ctx: Context, k: nat, r: IgnoreRule)
    requires k <= |cfg.ignoreRules| && !IgnoreApplies(lib, r, ctx)
    requires cfg'.ignoreRules == WithRule(cfg.ignoreRules, k, r)
    ensures Ignored(lib, cfg', ctx) <==> Ignored(lib, cfg, ctx)
  {
    forall i: nat | i < |cfg.ignoreRules|
      ensures FirstIgnore(lib, cfg, ctx, i) <==> FirstIgnore(lib, cfg', ctx, if i < k then i else i + 1)
      ensures cfg'.ignoreRules[if i < k then i else i + 1] == cfg.ignoreRules[i]
    {
      FirstShifts(lib, cfg, cfg', ctx, k, r, i);
    }
    if Ignored(lib, cfg', ctx) {
      var j: nat :| FirstIgnore(lib, cfg', ctx, j) && cfg'.ignoreRules[j].mode == Deny;
      assert j != k;
      var i: nat := if j < k then j else j - 1;
      assert FirstIgnore(lib, cfg, ctx, i);
    }
  }

  lemma FirstShifts(lib: Library, cfg: Config, cfg': Config, ctx: Context, k: nat, r: IgnoreRule, i: nat)
    requires k <= |cfg.ignoreRules| && !IgnoreApplies(lib, r, ctx) && i < |cfg.ignoreRules|
    requires cfg'.ignoreRules == WithRule(cfg.ignoreRules, k, r)
    ensures FirstIgnore(lib, cfg, ctx, i) <==> FirstIgnore(lib, cfg', ctx, if i < k then i else i + 1)
    ensures cfg'.ignoreRules[if i < k then i else i + 1] == cfg.ignoreRules[i]
  {
    var rs, rs' := cfg.ignoreRules, cfg'.ignoreRules;
    assert forall l :: 0 <= l < |rs| ==> rs'[if l < k then l else l + 1] == rs[l];
    assert forall l :: 0 <= l < |rs'| ==> rs'[l] == if l < k then rs[l] else if l == k then r else rs[l - 1];
  }

  // With a rule that applies put first, the call is ignored exactly if that rule denies.
  lemma FirstIgnoreRuleDecides(lib: Library, cfg: Config, ctx: Context, r: IgnoreRule)
    requires IgnoreApplies(lib, r, ctx) && ctx.checksIgnore
    ensures Ignored(lib, cfg.(ignoreRules := WithRule(cfg.ignoreRules, 0, r)), ctx) <==> r.mode == Deny
  {
    var cfg' := cfg.(ignoreRules := WithRule(cfg.ignoreRules, 0, r));
    assert cfg'.ignoreRules[0] == r;
    assert FirstIgnore(lib, cfg', ctx, 0);
    assert forall i: nat :: FirstIgnore(lib, cfg', ctx, i) ==> i == 0;
  }

  /******* Overlays *******/

  datatype Posture = NoPosture | Balanced | OtherPosture(name: nat)

  datatype Overlay = Overlay(
    additions: seq<string>, removals: seq<string>, minimumTier: Tier, escalateBy: int, disableTrusted: bool, posture: Posture)

  ghost predicate Adds(os: seq<Overlay>, n: nat, c: string)
    requires n <= |os|
  {
    exists i :: 0 <= i < n && c in os[i].additions
  }

  ghost predicate Drops(os: seq<Overlay>, n: nat, c: string)
    requires n <= |os|
  {
    exists i :: 0 <= i < n && c in os[i].removals
  }

  // The merged tier is the highest; it is never the safe or an undeclared one.
  ghost predicate HighestTier(os: seq<Overlay>, n: nat, t: Tier)
    requires n <= |os|
  {
    && (forall i :: 0 <= i < n ==> Rank(os[i].minimumTier) <= Rank(t))
    && (t == Unset || (Rank(t) > 0 && exists i :: 0 <= i < n && os[i].minimumTier == t))
  }

  ghost predicate HighestEscalation(os: seq<Overlay>, n: nat, e: int)
    requires n <= |os|
  {
    && e >= 0 && (forall i :: 0 <= i < n ==> os[i].escalateBy <= e)
    && (e == 0 || exists i :: 0 <= i < n && os[i].escalateBy == e)
  }

  ghost predicate Disables(os: seq<Overlay>, n: nat)
    requires n <= |os|
  {
    exists i :: 0 <= i < n && os[i].disableTrusted
  }

  // The last posture given.
  function LastPosture(os: seq<Overlay>, n: nat): Posture
    requires n <= |os|
  {
    if n == 0 then NoPosture
    else if os[n - 1].posture != NoPosture then os[n - 1].posture
    else LastPosture(os, n - 1)
  }

  lemma {:induction false} LastPostureMeans(os: seq<Overlay>, n: nat, k: nat)
    requires k <= n <= |os| && (forall i :: k <= i < n ==> os[i].posture == NoPosture)
    requires k == 0 || os[k - 1].posture != NoPosture
    ensures LastPosture(os, n) == if k == 0 then NoPosture else os[k - 1].posture
    decreases n
  {
    if k < n {
      LastPostureMeans(os, n - 1, k);
    }
  }

  ghost predicate MergedUpTo(os: seq<Overlay>, n: nat, m: Overlay)
    requires n <= |os|
  {
    && (forall c :: c in m.additions <==> Adds(os, n, c))
    && (forall c :: c in m.removals <==> Drops(os, n, c))
    && HighestTier(os, n, m.minimumTier) && HighestEscalation(os, n, m.escalateBy)
    && (m.disableTrusted <==> Disables(os, n))
  }

  ghost predicate Merged(os: seq<Overlay>, m: Overlay) { MergedUpTo(os, |os|, m) }

  method MergeOverlays(os: seq<Overlay>) returns (m: Overlay)
    ensures Merged(os, m)
    ensures m.posture == if LastPosture(os, |os|) == NoPosture then Balanced else LastPosture(os, |os|)
  {
    m := Overlay([], [], Unset, 0, false, NoPosture);
    for n := 0 to |os|
      invariant MergedUpTo(os, n, m) && m.posture == LastPosture(os, n)
    {
      var o := os[n];
      ghost var before := m;
      m := m.(additions := m.additions + o.additions, removals := m.removals + o.removals);
      if o.minimumTier != Unset {
        m := m.(minimumTier := MaxTier(m.minimumTier, o.minimumTier));
      }
      if o.escalateBy > m.escalateBy {
        m := m.(escalateBy := o.escalateBy);
      }
      if o.disableTrusted {
        m := m.(disableTrusted := true);
      }
      if o.posture != NoPosture {
        m := m.(posture := o.posture);
      }
      MergeOne(os, n, before, m);
    }
    if m.posture == NoPosture {
      m := m.(posture := Balanced);
    }
  }

  lemma MergeOne(os: seq<Overlay>, n: nat, m: Overlay, m': Overlay)
    requires n < |os| && MergedUpTo(os, n, m)
    requires
      var o := os[n];
      && m'.additions == m.additions + o.additions && m'.removals == m.removals + o.removals
      && m'.minimumTier == MaxTier(m.minimumTier, o.minimumTier)
      && m'.escalateBy == Max(m.escalateBy, o.escalateBy)
      && m'.disableTrusted == (m.disableTrusted || o.disableTrusted)
    ensures MergedUpTo(os, n + 1, m')
  {
    forall c ensures c in m'.additions <==> Adds(os, n + 1, c) {
      assert Adds(os, n + 1, c) <==> Adds(os, n, c) || c in os[n].additions;
    }
    forall c ensures c in m'.removals <==> Drops(os, n + 1, c) {
      assert Drops(os, n + 1, c) <==> Drops(os, n, c) || c in os[n].removals;
    }
    MergeTier(os, n, m.minimumTier);
    MergeEscalation(os, n, m.escalateBy);
    assert Disables(os, n + 1) <==> Disables(os, n) || os[n].disableTrusted;
  }

  lemma MergeTier(os: seq<Overlay>, n: nat, t: Tier)
    requires n < |os| && HighestTier(os, n, t)
    ensures HighestTier(os, n + 1, MaxTier(t, os[n].minimumTier))
  {
    if t != Unset {
      var i :| 0 <= i < n && os[i].minimumTier == t;
    }
    assert os[n].minimumTier == os[n].minimumTier;
  }

  lemma MergeEscalation(os: seq<Overlay>, n: nat, e: int)
    requires n < |os| && HighestEscalation(os, n, e)
    ensures HighestEscalation(os, n + 1, Max(e, os[n].escalateBy))
  {
    if e != 0 {
      var i :| 0 <= i < n && os[i].escalateBy == e;
    }
  }

  /******* Monotonicity *******/

  function ProfileOf(m: Overlay): Profile { Profile(m.additions, m.removals, m.escalateBy, m.minimumTier, m.disableTrusted) }

  // At least as strict in every respect.
  ghost predicate Stricter(p: Profile, q: Profile) {
    && (forall c :: c in p.additions ==> c in q.additions)
    && (forall c :: c in q.removals ==> c in p.removals)
    && p.escalateBy >= q.escalateBy && Rank(p.minimumTier) >= Rank(q.minimumTier)
    && (q.disableTrusted ==> p.disableTrusted)
  }

  function Inserted(os: seq<Overlay>, k: nat, o: Overlay): seq<Overlay>
    requires k <= |os|
  {
    os[..k] + [o] + os[k..]
  }

  // Every overlay of the one list is in the other.
  ghost predicate Within(os: seq<Overlay>, os': seq<Overlay>) { forall i :: 0 <= i < |os| ==> os[i] in os' }

  lemma InsertedWithin(os: seq<Overlay>, k: nat, o: Overlay)
    requires k <= |os|
    ensures Within(os, Inserted(os, k, o)) && forall x :: x in Inserted(os, k, o) ==> x == o || x in os
  {
    var os' := Inserted(os, k, o);
    forall i | 0 <= i < |os| ensures os[i] in os' {
      assert os'[if i < k then i else i + 1] == os[i];
    }
  }

  // One more overlay without additions, anywhere in the list, makes the merged profile stricter.
  lemma InsertedIsStricter(os: seq<Overlay>, k: nat, o: Overlay, m: Overlay, m': Overlay)
    requires k <= |os| && o.additions == [] && Merged(os, m) && Merged(Inserted(os, k, o), m')
    ensures Stricter(ProfileOf(m'), ProfileOf(m))
  {
    var os' := Inserted(os, k, o);
    InsertedWithin(os, k, o);
    forall c | c in m'.additions ensures c in m.additions {
      NoNewAdditions(os, os', o, c);
    }
    forall c | c in m.removals ensures c in m'.removals {
      RemovalsKept(os, os', c);
    }
    InsertedTiers(os, os', m, m');
  }

  lemma NoNewAdditions(os: seq<Overlay>, os': seq<Overlay>, o: Overlay, c: string)
    requires o.additions == [] && (forall x :: x in os' ==> x == o || x in os) && Adds(os', |os'|, c)
    ensures Adds(os, |os|, c)
  {
    var i :| 0 <= i < |os'| && c in os'[i].additions;
    assert os'[i] in os' && os'[i] != o;
    var j :| 0 <= j < |os| && os[j] == os'[i];
    assert c in os[j].additions;
  }

  lemma RemovalsKept(os: seq<Overlay>, os': seq<Overlay>, c: string)
    requires Within(os, os') && Drops(os, |os|, c)
    ensures Drops(os', |os'|, c)
  {
    var i :| 0 <= i < |os| && c in os[i].removals;
    var j :| 0 <= j < |os'| && os'[j] == os[i];
    assert c in os'[j].removals;
  }

  lemma InsertedTiers(os: seq<Overlay>, os': seq<Overlay>, m: Overlay, m': Overlay)
    requires Merged(os, m) && Merged(os', m') && Within(os, os')
    ensures m'.escalateBy >= m.escalateBy && Rank(m'.minimumTier) >= Rank(m.minimumTier)
    ensures m.disableTrusted ==> m'.disableTrusted
  {
    if m.escalateBy != 0 {
      var i :| 0 <= i < |os| && os[i].escalateBy == m.escalateBy;
      var j :| 0 <= j < |os'| && os'[j] == os[i];
    }
    if m.minimumTier != Unset {
      var i :| 0 <= i < |os| && os[i].minimumTier == m.minimumTier;
      var j :| 0 <= j < |os'| && os'[j] == os[i];
    }
    if m.disableTrusted {
      var i :| 0 <= i < |os| && os[i].disableTrusted;
      var j :| 0 <= j < |os'| && os'[j] == os[i];
    }
  }

  lemma StricterTier(base: Tier, p: Profile, q: Profile, mutating: bool)
    requires Known(base) && Stricter(p, q)
    ensures Known(EffectiveTier(base, p, mutating)) && Known(EffectiveTier(base, q, mutating))
    ensures Rank(EffectiveTier(base, p, mutating)) >= Rank(EffectiveTier(base, q, mutating))
  {
    EffectiveTierRank(base, p, mutating);
    EffectiveTierRank(base, q, mutating);
  }

  // Rules do not look at the profile.
  lemma SameRules(lib: Library, cfg: Config, ctx: Context, p: Profile)
    ensures RootsOk(lib, cfg, ctx.(profile := p)) == RootsOk(lib, cfg, ctx)
    ensures Ignored(lib, cfg, ctx.(profile := p)) == Ignored(lib, cfg, ctx)
    ensures Trusted(lib, cfg, ctx.(profile := p)) == Trusted(lib, cfg, ctx)
  {
    var ctx' := ctx.(profile := p);
    assert forall i :: 0 <= i < |cfg.ignoreRules| ==> IgnoreApplies(lib, cfg.ignoreRules[i], ctx') == IgnoreApplies(lib, cfg.ignoreRules[i], ctx);
    assert forall i :: 0 <= i < |cfg.trustedRules| ==> TrustedApplies(lib, cfg.trustedRules[i], ctx') == TrustedApplies(lib, cfg.trustedRules[i], ctx);
    assert forall i: nat :: FirstIgnore(lib, cfg, ctx', i) == FirstIgnore(lib, cfg, ctx, i);
  }

  lemma StricterAllows(lib: Library, cfg: Config, ctx: Context, p: Profile)
    requires Known(ctx.tier) && Stricter(p, ctx.profile) && Allows(lib, cfg, ctx.(profile := p))
    ensures Allows(lib, cfg, ctx)
  {
    var ctx' := ctx.(profile := p);
    SameRules(lib, cfg, ctx, p);
    StricterTier(ctx.tier, p, ctx.profile, ctx.mutating);
    forall i | 0 <= i < |ctx.required| ensures Effective(cfg, ctx.profile, ctx.required[i]) {
      assert Effective(cfg, p, ctx'.required[i]);
    }
  }

  // Inserting an overlay that adds no capability never turns a denied call into an allowed one.
  lemma OverlayNeverLoosens(lib: Library, cfg: Config, ctx: Context, os: seq<Overlay>, k: nat, o: Overlay, m: Overlay, m': Overlay)
    requires k <= |os| && o.additions == [] && Merged(os, m) && Merged(Inserted(os, k, o), m') && Known(ctx.tier)
    requires Allows(lib, cfg, ctx.(profile := ProfileOf(m')))
    ensures Allows(lib, cfg, ctx.(profile := ProfileOf(m)))
  {
    InsertedIsStricter(os, k, o, m, m');
    StricterAllows(lib, cfg, ctx.(profile := ProfileOf(m)), ProfileOf(m'));
  }

  // An overlay without additions turns a denied call into an allowed one.
  ghost predicate LoosenedBy(lib: Library, cfg: Config, ctx: Context, os: seq<Overlay>, k: nat, o: Overlay, m: Overlay, m': Overlay) {
    && k <= |os| && o.additions == [] && Merged(os, m) && Merged(Inserted(os, k, o), m')
    && !Allows(lib, cfg, ctx.(profile := ProfileOf(m))) && Allows(lib, cfg, ctx.(profile := ProfileOf(m')))
  }

  ghost predicate CanLoosen(lib: Library, base: Tier) {
    exists cfg: Config, ctx: Context, os: seq<Overlay>, k: nat, o: Overlay, m: Overlay, m': Overlay :: ctx.tier == base && LoosenedBy(lib, cfg, ctx, os, k, o, m, m')
  }

  const ESCALATE_ONE: Overlay := Overlay([], [], Unset, 1, false, NoPosture)
  const AT_LEAST_MODERATE: Overlay := Overlay([], [], Moderate, 0, false, NoPosture)
  const BOTH: Overlay := Overlay([], [], Moderate, 1, false, NoPosture)

  lemma ExampleMerges()
    ensures Merged([ESCALATE_ONE], ESCALATE_ONE) && Merged(Inserted([ESCALATE_ONE], 0, AT_LEAST_MODERATE), BOTH)
  {
    var one, two := [ESCALATE_ONE], Inserted([ESCALATE_ONE], 0, AT_LEAST_MODERATE);
    assert one[0] == ESCALATE_ONE;
    assert two == [AT_LEAST_MODERATE, ESCALATE_ONE] && two[0] == AT_LEAST_MODERATE && two[1] == ESCALATE_ONE;
  }

  // A mutating call of an automatically approved tool.
  lemma ExampleDecisions(lib: Library, base: Tier, cfg: Config, ctx: Context)
    requires !Known(base)
    requires cfg == Config([], [], [TrustedRule(0, true, Global, "", Tool, Exact, "tool", None)], [])
    requires ctx == Context("tool", "", "", "", [], [], [], base, true, false, false, false, ProfileOf(ESCALATE_ONE))
    ensures !Allows(lib, cfg, ctx) && Allows(lib, cfg, ctx.(profile := ProfileOf(BOTH)))
  {
    assert Escalated(base, 1) == Escalate(Escalated(base, 0)) == Destructive;
    assert Escalated(Moderate, 1) == Escalate(Escalated(Moderate, 0)) == Dangerous;
    assert TrustedApplies(lib, cfg.trustedRules[0], ctx.(profile := ProfileOf(BOTH)));
  }

  // An undeclared tier escalates straight to destructive, but not once a minimum tier replaces it.
  lemma UndeclaredTierLoosens(lib: Library, base: Tier)
    requires !Known(base)
    ensures CanLoosen(lib, base)
  {
    var cfg := Config([], [], [TrustedRule(0, true, Global, "", Tool, Exact, "tool", None)], []);
    var ctx := Context("tool", "", "", "", [], [], [], base, true, false, false, false, ProfileOf(ESCALATE_ONE));
    ExampleMerges();
    ExampleDecisions(lib, base, cfg, ctx);
    assert LoosenedBy(lib, cfg, ctx, [ESCALATE_ONE], 0, AT_LEAST_MODERATE, ESCALATE_ONE, BOTH);
  }

  // Overlays never loosen a call with a given base tier if and only if the tier is a declared one.
  lemma LoosensExactlyWhenUndeclared(lib: Library, base: Tier)
    ensures CanLoosen(lib, base) <==> !Known(base)
  {
    if Known(base) {
      forall cfg: Config, ctx: Context, os: seq<Overlay>, k: nat, o: Overlay, m: Overlay, m': Overlay | ctx.tier == base ensures !LoosenedBy(lib, cfg, ctx, os, k, o, m, m') {
        NotLoosened(lib, cfg, ctx, os, k, o, m, m');
      }
    } else {
      UndeclaredTierLoosens(lib, base);
    }
  }

  lemma NotLoosened(lib: Library, cfg: Config, ctx: Context, os: seq<Overlay>, k: nat, o: Overlay, m: Overlay, m': Overlay)
    requires Known(ctx.tier)
    ensures !LoosenedBy(lib, cfg, ctx, os, k, o, m, m')
  {
    if k <= |os| && o.additions == [] && Merged(os, m) && Merged(Inserted(os, k, o), m')
       && Allows(lib, cfg, ctx.(profile := ProfileOf(m')))
    {
      OverlayNeverLoosens(lib, cfg, ctx, os, k, o, m, m');
    }
  }
}
