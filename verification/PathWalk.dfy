/**
 The workspace path walk of core/app/fs_navigation.go over a file system with symbolic links.

 The file system is a map from cleaned absolute paths (sequences of names) to nodes and does not
 change during a walk.  Eval is full symbolic-link canonicalisation with a bound on the number of
 links followed; Canon abstracts from the bound.  The two walk methods are proved against Canon.
 */
module PathWalk {

  type Name = nat          // path components are only ever compared
  type Path = seq<Name>    // absolute and cleaned; [] is the root directory

  // A component of a link target or of a requested path: ".", ".." or a name.
  datatype Comp = Dot | Up | Down(name: Name)

  datatype Node = Dir | File | Link(absolute: bool, target: seq<Comp>)
  type FS = map<Path, Node>

  const EVAL_LINKS := 255      // links followed by filepath.EvalSymlinks
  const KERNEL_LINKS := 40     // links followed by the kernel for the parent of an lstat

  predicate IsDir(fs: FS, p: Path) { p == [] || (p in fs && fs[p].Dir?) }

  function Parent(p: Path): Path { if p == [] then [] else p[..|p| - 1] }

  function Names(p: Path): seq<Comp> { seq(|p|, i requires 0 <= i < |p| => Down(p[i])) }

  /******* Canonicalisation *******/

  datatype Outcome = Ok(path: Path) | NotExist | Fail

  function Eval(fs: FS, dest: Path, todo: seq<Comp>, links: nat): Outcome
    decreases links, |todo|
  {
    if todo == [] then Ok(dest)
    else
      match todo[0]
      case Dot => Eval(fs, dest, todo[1..], links)
      case Up => Eval(fs, Parent(dest), todo[1..], links)
      case Down(name) =>
        var p := dest + [name];
        if p !in fs then NotExist
        else match fs[p]
          case Dir => Eval(fs, p, todo[1..], links)
          case File => if |todo| == 1 then Ok(p) else Fail
          case Link(absolute, target) =>
            if links == 0 then Fail
            else Eval(fs, if absolute then [] else dest, target + todo[1..], links - 1)
  }

  // c is the canonical form of p: what p resolves to when links are followed without bound.
  ghost predicate Canon(fs: FS, p: Path, c: Path) {
    exists links: nat :: Eval(fs, [], Names(p), links) == Ok(c)
  }

  // Giving Eval more links changes nothing but a failure.
  lemma {:induction false} MoreLinks(fs: FS, dest: Path, todo: seq<Comp>, links: nat, more: nat)
    requires links <= more
    ensures Eval(fs, dest, todo, links) != Fail ==> Eval(fs, dest, todo, more) == Eval(fs, dest, todo, links)
    decreases links, |todo|
  {
    if todo != [] {
      match todo[0]
      case Dot => MoreLinks(fs, dest, todo[1..], links, more);
      case Up => MoreLinks(fs, Parent(dest), todo[1..], links, more);
      case Down(name) =>
        var p := dest + [name];
        if p in fs {
          match fs[p]
          case Dir => MoreLinks(fs, p, todo[1..], links, more);
          case File =>
          case Link(absolute, target) =>
            if links > 0 {
              MoreLinks(fs, if absolute then [] else dest, target + todo[1..], links - 1, more - 1);
            }
        }
    }
  }

  lemma CanonUnique(fs: FS, p: Path, c: Path, links: nat)
    requires Canon(fs, p, c)
    ensures Eval(fs, [], Names(p), links) == Ok(c) || Eval(fs, [], Names(p), links) == Fail
  {
    var n: nat :| Eval(fs, [], Names(p), n) == Ok(c);
    if links <= n {
      MoreLinks(fs, [], Names(p), links, n);
    } else {
      MoreLinks(fs, [], Names(p), n, links);
    }
  }

  // One component that is no link.
  lemma EvalPlain(fs: FS, dest: Path, c: Comp, rest: seq<Comp>, links: nat)
    requires c.Down? ==> dest + [c.name] in fs && fs[dest + [c.name]].Dir?
    ensures Eval(fs, dest, [c] + rest, links) ==
              Eval(fs, match c case Dot => dest case Up => Parent(dest) case Down(name) => dest + [name], rest, links)
  {
    assert ([c] + rest)[0] == c && ([c] + rest)[1..] == rest;
  }

  // One component that is a link.
  lemma EvalLink(fs: FS, dest: Path, name: Name, rest: seq<Comp>, links: nat)
    requires dest + [name] in fs && fs[dest + [name]].Link? && links > 0
    ensures
      var link := fs[dest + [name]];
      Eval(fs, dest, [Down(name)] + rest, links) == Eval(fs, if link.absolute then [] else dest, link.target + rest, links - 1)
  {
    assert ([Down(name)] + rest)[0] == Down(name) && ([Down(name)] + rest)[1..] == rest;
  }

  // The first component of a resolution that succeeds in a directory exists and is no file.
  lemma EvalHead(fs: FS, dest: Path, a: seq<Comp>, links: nat, r: Path)
    requires a != [] && a[0].Down? && Eval(fs, dest, a, links) == Ok(r) && IsDir(fs, r)
    ensures dest + [a[0].name] in fs && !fs[dest + [a[0].name]].File?
    ensures fs[dest + [a[0].name]].Link? ==> links > 0
  {
  }

  lemma {:induction false} EvalThen(fs: FS, dest: Path, a: seq<Comp>, b: seq<Comp>, m: nat, n: nat, r: Path)
    requires Eval(fs, dest, a, m) == Ok(r) && IsDir(fs, r) && Eval(fs, r, b, n) != Fail
    ensures Eval(fs, dest, a + b, m + n) == Eval(fs, r, b, n)
    decreases m, |a|, 2
  {
    if a == [] {
      assert a + b == b;
      MoreLinks(fs, dest, b, n, m + n);
    } else if a[0].Down? {
      EvalHead(fs, dest, a, m, r);
      EvalThenDown(fs, dest, a, b, m, n, r);
    } else {
      EvalThenPlain(fs, dest, a, b, m, n, r);
    }
  }

  lemma {:induction false} EvalThenPlain(fs: FS, dest: Path, a: seq<Comp>, b: seq<Comp>, m: nat, n: nat, r: Path)
    requires Eval(fs, dest, a, m) == Ok(r) && IsDir(fs, r) && Eval(fs, r, b, n) != Fail
    requires a != [] && (a[0].Down? ==> dest + [a[0].name] in fs && fs[dest + [a[0].name]].Dir?)
    ensures Eval(fs, dest, a + b, m + n) == Eval(fs, r, b, n)
    decreases m, |a|, 0
  {
    var next := match a[0] case Dot => dest case Up => Parent(dest) case Down(name) => dest + [name];
    assert a == [a[0]] + a[1..] && a + b == [a[0]] + (a[1..] + b);
    EvalPlain(fs, dest, a[0], a[1..], m);
    EvalPlain(fs, dest, a[0], a[1..] + b, m + n);
    EvalThen(fs, next, a[1..], b, m, n, r);
  }

  lemma {:induction false} EvalThenDown(fs: FS, dest: Path, a: seq<Comp>, b: seq<Comp>, m: nat, n: nat, r: Path)
    requires Eval(fs, dest, a, m) == Ok(r) && IsDir(fs, r) && Eval(fs, r, b, n) != Fail
    requires a != [] && a[0].Down? && dest + [a[0].name] in fs && !fs[dest + [a[0].name]].File?
    requires fs[dest + [a[0].name]].Link? ==> m > 0
    ensures Eval(fs, dest, a + b, m + n) == Eval(fs, r, b, n)
    decreases m, |a|, 1
  {
    var node := fs[dest + [a[0].name]];
    if node.Dir? {
      EvalThenPlain(fs, dest, a, b, m, n, r);
    } else {
      var next := if node.absolute then [] else dest;
      assert a == [a[0]] + a[1..] && a + b == [a[0]] + (a[1..] + b);
      assert node.target + (a[1..] + b) == node.target + a[1..] + b;
      EvalLink(fs, dest, a[0].name, a[1..], m);
      EvalLink(fs, dest, a[0].name, a[1..] + b, m + n);
      EvalThen(fs, next, node.target + a[1..], b, m - 1, n, r);
    }
  }

  // Resolving a + b is resolving a and then b from where a led.
  lemma EvalAppend(fs: FS, dest: Path, a: seq<Comp>, b: seq<Comp>, m: nat, n: nat)
    requires Eval(fs, dest, a, m).Ok? && IsDir(fs, Eval(fs, dest, a, m).path)
    requires Eval(fs, Eval(fs, dest, a, m).path, b, n) != Fail
    ensures Eval(fs, dest, a + b, m + n) == Eval(fs, Eval(fs, dest, a, m).path, b, n)
  {
    EvalThen(fs, dest, a, b, m, n, Eval(fs, dest, a, m).path);
  }

  lemma {:induction false} MissingStays(fs: FS, dest: Path, a: seq<Comp>, b: seq<Comp>, m: nat)
    requires Eval(fs, dest, a, m) == NotExist
    ensures Eval(fs, dest, a + b, m) == NotExist
    decreases m, |a|
  {
    assert (a + b)[1..] == a[1..] + b;
    match a[0]
    case Dot => MissingStays(fs, dest, a[1..], b, m);
    case Up => MissingStays(fs, Parent(dest), a[1..], b, m);
    case Down(name) =>
      var p := dest + [name];
      if p in fs {
        match fs[p]
        case Dir => MissingStays(fs, p, a[1..], b, m);
        case Link(absolute, target) =>
          assert target + a[1..] + b == target + (a[1..] + b);
          MissingStays(fs, if absolute then [] else dest, target + a[1..], b, m - 1);
      }
  }

  // Every prefix of d is a directory, so no link is met on the way to it.
  ghost predicate DirPath(fs: FS, d: Path) { forall k :: 0 <= k <= |d| ==> IsDir(fs, d[..k]) }

  lemma DirPathParent(fs: FS, d: Path)
    requires DirPath(fs, d)
    ensures DirPath(fs, Parent(d))
  {
    if d != [] {
      forall k | 0 <= k <= |d| - 1 ensures IsDir(fs, Parent(d)[..k]) { assert Parent(d)[..k] == d[..k]; }
    }
  }

  lemma DirPathChild(fs: FS, d: Path, name: Name)
    requires DirPath(fs, d) && IsDir(fs, d + [name])
    ensures DirPath(fs, d + [name])
  {
    forall k | 0 <= k <= |d| + 1 ensures IsDir(fs, (d + [name])[..k]) {
      if k <= |d| {
        assert (d + [name])[..k] == d[..k];
      } else {
        assert (d + [name])[..k] == d + [name];
      }
    }
  }

  // A path no part of which is a link: all its proper prefixes are directories and it exists.
  ghost predicate Real(fs: FS, c: Path) {
    DirPath(fs, c) || (c != [] && DirPath(fs, Parent(c)) && c in fs && fs[c].File?)
  }

  lemma {:induction false} EvalIsReal(fs: FS, dest: Path, todo: seq<Comp>, m: nat)
    requires DirPath(fs, dest) && Eval(fs, dest, todo, m).Ok?
    ensures Real(fs, Eval(fs, dest, todo, m).path)
    decreases m, |todo|
  {
    if todo != [] {
      match todo[0]
      case Dot => EvalIsReal(fs, dest, todo[1..], m);
      case Up =>
        DirPathParent(fs, dest);
        EvalIsReal(fs, Parent(dest), todo[1..], m);
      case Down(name) =>
        var p := dest + [name];
        match fs[p]
        case Dir =>
          DirPathChild(fs, dest, name);
          EvalIsReal(fs, p, todo[1..], m);
        case File =>
          assert Parent(p) == dest;
        case Link(absolute, target) =>
          EvalIsReal(fs, if absolute then [] else dest, target + todo[1..], m - 1);
    }
  }

  // A file cannot be walked through.
  lemma {:induction false} FileBlocks(fs: FS, dest: Path, a: seq<Comp>, b: seq<Comp>, m: nat)
    requires DirPath(fs, dest) && b != []
    requires Eval(fs, dest, a, m).Ok? && !IsDir(fs, Eval(fs, dest, a, m).path)
    ensures Eval(fs, dest, a + b, m) == Fail
    decreases m, |a|
  {
    assert dest[..|dest|] == dest;
    if a != [] {
      assert (a + b)[1..] == a[1..] + b;
      match a[0]
      case Dot => FileBlocks(fs, dest, a[1..], b, m);
      case Up =>
        DirPathParent(fs, dest);
        FileBlocks(fs, Parent(dest), a[1..], b, m);
      case Down(name) =>
        var p := dest + [name];
        match fs[p]
        case Dir =>
          DirPathChild(fs, dest, name);
          FileBlocks(fs, p, a[1..], b, m);
        case File =>
        case Link(absolute, target) =>
          assert target + a[1..] + b == target + (a[1..] + b);
          FileBlocks(fs, if absolute then [] else dest, target + a[1..], b, m - 1);
    }
  }

  lemma {:induction false} RealSteps(fs: FS, c: Path, i: nat)
    requires Real(fs, c) && i <= |c|
    ensures Eval(fs, c[..i], Names(c)[i..], 0) == Ok(c)
    decreases |c| - i
  {
    if i < |c| {
      RealSteps(fs, c, i + 1);
      assert c[..i] + [c[i]] == c[..i + 1];
      assert Names(c)[i..][1..] == Names(c)[i + 1..];
      if i + 1 < |c| || DirPath(fs, c) {
        assert IsDir(fs, c[..i + 1]) by {
          if !DirPath(fs, c) {
            assert c[..i + 1] == Parent(c)[..i + 1];
          }
        }
      } else {
        assert c[..i + 1] == c;
      }
    } else {
      assert c[..i] == c;
    }
  }

  // The canonical form of a path is its own canonical form.
  lemma CanonIsFixed(fs: FS, p: Path, c: Path)
    requires Canon(fs, p, c)
    ensures Real(fs, c) && Canon(fs, c, c)
  {
    var n: nat :| Eval(fs, [], Names(p), n) == Ok(c);
    EvalIsReal(fs, [], Names(p), n);
    RealSteps(fs, c, 0);
    assert c[..0] == [] && Names(c)[0..] == Names(c);
    assert Eval(fs, [], Names(c), 0) == Ok(c);
  }

  lemma NamesAppend(a: Path, b: Path)
    ensures Names(a + b) == Names(a) + Names(b)
  {
  }

  // One more component below a directory that is not a link: the canonical form grows by it.
  lemma CanonChild(fs: FS, p: Path, c: Path, name: Name)
    requires Canon(fs, p, c) && IsDir(fs, c) && c + [name] in fs && !fs[c + [name]].Link?
    ensures Canon(fs, p + [name], c + [name])
  {
    var n: nat :| Eval(fs, [], Names(p), n) == Ok(c);
    NamesAppend(p, [name]);
    assert Names([name]) == [Down(name)];
    assert Eval(fs, c, [Down(name)], 0) == Ok(c + [name]);
    EvalAppend(fs, [], Names(p), [Down(name)], n, 0);
  }

  // Replacing a directory prefix by another spelling of the same directory keeps the canonical form.
  lemma CanonSwap(fs: FS, p: Path, q: Path, c: Path, rest: Path, d: Path)
    requires Canon(fs, p, c) && Canon(fs, q, c) && IsDir(fs, c)
    requires Canon(fs, p + rest, d)
    ensures Canon(fs, q + rest, d)
  {
    var m: nat :| Eval(fs, [], Names(p), m) == Ok(c);
    var n: nat :| Eval(fs, [], Names(q), n) == Ok(c);
    var k: nat :| Eval(fs, [], Names(p + rest), k) == Ok(d);
    NamesAppend(p, rest);
    NamesAppend(q, rest);
    EvalSplit(fs, [], Names(p), Names(rest), k, m);
    EvalAppend(fs, [], Names(q), Names(rest), n, k);
  }

  // If a + b resolves then, once a is known to lead to a directory, b resolves from there.
  lemma {:induction false} EvalSplit(fs: FS, dest: Path, a: seq<Comp>, b: seq<Comp>, k: nat, m: nat)
    requires Eval(fs, dest, a + b, k).Ok? && Eval(fs, dest, a, m).Ok? && IsDir(fs, Eval(fs, dest, a, m).path)
    ensures Eval(fs, Eval(fs, dest, a, m).path, b, k) == Eval(fs, dest, a + b, k)
    decreases k, |a|
  {
    if a == [] {
      assert a + b == b;
    } else {
      assert (a + b)[1..] == a[1..] + b;
      match a[0]
      case Dot => EvalSplit(fs, dest, a[1..], b, k, m);
      case Up => EvalSplit(fs, Parent(dest), a[1..], b, k, m);
      case Down(name) =>
        var p := dest + [name];
        match fs[p]
        case Dir => EvalSplit(fs, p, a[1..], b, k, m);
        case File =>
        case Link(absolute, target) =>
          assert target + a[1..] + b == target + (a[1..] + b);
          var next := if absolute then [] else dest;
          EvalSplit(fs, next, target + a[1..], b, k - 1, m - 1);
          MoreLinks(fs, Eval(fs, dest, a, m).path, b, k - 1, k);
    }
  }

  /******* The library calls of the walk *******/

  function EvalSymlinks(fs: FS, p: Path): Outcome { Eval(fs, [], Names(p), EVAL_LINKS) }

  datatype Stat = Found(node: Node) | Missing | StatError

  // os.Lstat: the parent is resolved by the kernel, the last component is not followed.
  function Lstat(fs: FS, p: Path): Stat {
    if p == [] then Found(Dir)
    else match Eval(fs, [], Names(Parent(p)), KERNEL_LINKS)
      case NotExist => Missing
      case Fail => StatError
      case Ok(d) =>
        if !IsDir(fs, d) then StatError
        else if d + [p[|p| - 1]] in fs then Found(fs[d + [p[|p| - 1]]])
        else Missing
  }

  // What an lstat below a path with a known canonical form says about the file system.
  lemma LstatBelow(fs: FS, p: Path, c: Path, name: Name)
    requires Canon(fs, p, c)
    ensures Lstat(fs, p + [name]).Found? ==>
              IsDir(fs, c) && c + [name] in fs && fs[c + [name]] == Lstat(fs, p + [name]).node
    ensures Lstat(fs, p + [name]).Missing? ==> IsDir(fs, c) && c + [name] !in fs
  {
    assert Parent(p + [name]) == p;
    CanonUnique(fs, p, c, KERNEL_LINKS);
  }

  // fsPathWithinRoot on cleaned absolute paths.
  predicate Within(p: Path, root: Path) { root <= p }

  /******* What the walks promise *******/

  // p does not exist: the directory c of its longest existing prefix does, and loc is where p would be.
  ghost predicate MissingAt(fs: FS, p: Path, k: nat, c: Path, loc: Path) {
    k < |p| && Canon(fs, p[..k], c) && IsDir(fs, c) && c + [p[k]] !in fs && loc == c + p[k..]
  }

  // loc is the place that p denotes, whether or not it exists.
  ghost predicate Locates(fs: FS, p: Path, loc: Path) {
    Canon(fs, p, loc) || exists k: nat, c: Path :: MissingAt(fs, p, k, c, loc)
  }

  lemma MissingHasNoCanon(fs: FS, p: Path, k: nat, c: Path, loc: Path, d: Path)
    requires MissingAt(fs, p, k, c, loc)
    ensures !Canon(fs, p, d)
  {
    var n: nat :| Eval(fs, [], Names(p[..k]), n) == Ok(c);
    assert p[..k] + p[k..] == p;
    NamesAppend(p[..k], p[k..]);
    assert Eval(fs, c, Names(p[k..]), 0) == NotExist;
    EvalAppend(fs, [], Names(p[..k]), Names(p[k..]), n, 0);
    if Canon(fs, p, d) {
      CanonUnique(fs, p, d, n);
    }
  }

  // A path denotes at most one place.
  lemma LocatesUnique(fs: FS, p: Path, loc1: Path, loc2: Path)
    requires Locates(fs, p, loc1) && Locates(fs, p, loc2)
    ensures loc1 == loc2
  {
    if Canon(fs, p, loc1) && Canon(fs, p, loc2) {
      var n: nat :| Eval(fs, [], Names(p), n) == Ok(loc1);
      CanonUnique(fs, p, loc2, n);
    } else if Canon(fs, p, loc1) {
      var k: nat, c: Path :| MissingAt(fs, p, k, c, loc2);
      MissingHasNoCanon(fs, p, k, c, loc2, loc1);
    } else {
      var k: nat, c: Path :| MissingAt(fs, p, k, c, loc1);
      if Canon(fs, p, loc2) {
        MissingHasNoCanon(fs, p, k, c, loc1, loc2);
      } else {
        var j: nat, d: Path :| MissingAt(fs, p, j, d, loc2);
        MissingUnique(fs, p, k, c, j, d);
      }
    }
  }

  lemma MissingUnique(fs: FS, p: Path, k: nat, c: Path, j: nat, d: Path)
    requires k < |p| && j < |p|
    requires MissingAt(fs, p, k, c, c + p[k..]) && MissingAt(fs, p, j, d, d + p[j..])
    ensures k == j && c == d
  {
    if k < j {
      assert p[..j][..k] == p[..k];
      MissingHasNoCanon(fs, p[..j], k, c, c + p[..j][k..], d);
    } else if j < k {
      assert p[..k][..j] == p[..j];
      MissingHasNoCanon(fs, p[..k], j, d, d + p[..k][j..], c);
    } else {
      var n: nat :| Eval(fs, [], Names(p[..k]), n) == Ok(c);
      CanonUnique(fs, p[..k], d, n);
    }
  }

  datatype Result =
    | Resolved(path: Path)
    | OutsideWorkspace
    | NotFound
    | NotDirectory
    | OtherError

  // Both paths denote one place, and it lies within the canonical root.
  ghost predicate SamePlace(fs: FS, target: Path, path: Path, rootCanonical: Path) {
    exists loc :: Locates(fs, target, loc) && Locates(fs, path, loc) && Within(loc, rootCanonical)
  }

  // Some leading part of the target resolves outside the canonical root.
  ghost predicate Leaves(fs: FS, root: Path, target: Path, rootCanonical: Path) {
    exists k: nat, c: Path :: |root| <= k <= |target| && Canon(fs, target[..k], c) && !Within(c, rootCanonical)
  }

  // The leading part of length k does not resolve outside the canonical root.
  ghost predicate PrefixWithin(fs: FS, target: Path, rootCanonical: Path, k: nat) {
    k <= |target| ==> forall c :: Canon(fs, target[..k], c) ==> Within(c, rootCanonical)
  }

  // No leading part of the target up to length i resolves outside the canonical root.
  ghost predicate StaysWithin(fs: FS, root: Path, target: Path, rootCanonical: Path, i: nat) {
    forall k: nat :: |root| <= k <= i ==> PrefixWithin(fs, target, rootCanonical, k)
  }

  lemma StaysNeverLeaves(fs: FS, root: Path, target: Path, rootCanonical: Path)
    requires StaysWithin(fs, root, target, rootCanonical, |target|)
    ensures !Leaves(fs, root, target, rootCanonical)
  {
    forall k: nat | |root| <= k <= |target| ensures forall c :: Canon(fs, target[..k], c) ==> Within(c, rootCanonical) {
      assert PrefixWithin(fs, target, rootCanonical, k);
    }
  }

  lemma StaysStep(fs: FS, root: Path, target: Path, rootCanonical: Path, i: nat, canonical: Path)
    requires i <= |target| && Canon(fs, target[..i], canonical) && Within(canonical, rootCanonical)
    requires i == |root| || (i > 0 && StaysWithin(fs, root, target, rootCanonical, i - 1))
    ensures StaysWithin(fs, root, target, rootCanonical, i)
  {
    forall c | Canon(fs, target[..i], c) ensures Within(c, rootCanonical) {
      LocatesUnique(fs, target[..i], c, canonical);
    }
  }

  lemma StaysMissing(fs: FS, root: Path, target: Path, rootCanonical: Path, i: nat, c: Path, loc: Path)
    requires MissingAt(fs, target, i, c, loc) && StaysWithin(fs, root, target, rootCanonical, i)
    ensures StaysWithin(fs, root, target, rootCanonical, |target|)
  {
    forall k: nat | i < k <= |target| ensures PrefixWithin(fs, target, rootCanonical, k) {
      assert target[..k][..i] == target[..i];
      forall d: Path ensures !Canon(fs, target[..k], d) {
        MissingHasNoCanon(fs, target[..k], i, c, c + target[..k][i..], d);
      }
    }
  }

  lemma PrefixMissing(fs: FS, p: Path, k: nat, c: Path)
    requires k <= |p| && EvalSymlinks(fs, p[..k]) == NotExist
    ensures !Canon(fs, p, c)
  {
    assert p[..k] + p[k..] == p;
    NamesAppend(p[..k], p[k..]);
    MissingStays(fs, [], Names(p[..k]), Names(p[k..]), EVAL_LINKS);
    if Canon(fs, p, c) {
      CanonUnique(fs, p, c, EVAL_LINKS);
    }
  }

  lemma PrefixIsFile(fs: FS, p: Path, k: nat, f: Path, c: Path)
    requires k < |p| && Canon(fs, p[..k], f) && !IsDir(fs, f)
    ensures !Canon(fs, p, c)
  {
    assert p[..k] + p[k..] == p;
    NamesAppend(p[..k], p[k..]);
    var n: nat :| Eval(fs, [], Names(p[..k]), n) == Ok(f);
    if Canon(fs, p, c) {
      var m: nat :| Eval(fs, [], Names(p), m) == Ok(c);
      MoreLinks(fs, [], Names(p), m, m + n);
      MoreLinks(fs, [], Names(p[..k]), n, m + n);
      FileBlocks(fs, [], Names(p[..k]), Names(p[k..]), m + n);
    }
  }

  predicate IsLink(fs: FS, p: Path) { Lstat(fs, p).Found? && Lstat(fs, p).node.Link? }

  // Some component of the target between the root and i is a link, as spelled.
  predicate MetLink(fs: FS, root: Path, target: Path, i: nat)
    requires i <= |target|
  {
    |root| < i && (IsLink(fs, target[..i]) || MetLink(fs, root, target, i - 1))
  }

  // The walk is at component i: both spellings lead to the canonical path, inside the root.
  ghost predicate WalkAt(fs: FS, root: Path, target: Path, rootCanonical: Path,
                         i: nat, lexical: Path, canonical: Path, throughLink: bool)
  {
    && i <= |target|
    && Canon(fs, target[..i], canonical) && Canon(fs, lexical, canonical)
    && (if throughLink then lexical == canonical else lexical == target[..i])
    && (throughLink <==> MetLink(fs, root, target, i))
    && Within(canonical, rootCanonical)
  }

  // The walk reaches component i, spelled lexical up to there.  See WalkAtUnique.
  ghost predicate Reaches(fs: FS, root: Path, target: Path, rootCanonical: Path, i: nat, lexical: Path) {
    && |root| <= i < |target| && StaysWithin(fs, root, target, rootCanonical, i)
    && exists canonical: Path, throughLink: bool :: WalkAt(fs, root, target, rootCanonical, i, lexical, canonical, throughLink)
  }

  // The lstat at a component that the walk reaches fails, or the resolution of the link found there.  The
  // last component is inspected, and only followed if followLast.
  ghost predicate CallFails(fs: FS, root: Path, target: Path, rootCanonical: Path, followLast: bool) {
    exists i: nat, lexical: Path :: Reaches(fs, root, target, rootCanonical, i, lexical)
                                    && FailsAt(fs, lexical + [target[i]], followLast || i < |target| - 1)
  }

  predicate FailsAt(fs: FS, next: Path, follow: bool) {
    Lstat(fs, next).StatError? || (follow && IsLink(fs, next) && EvalSymlinks(fs, next).Fail?)
  }

  // The walk reaches a link that leads nowhere.
  ghost predicate Dangles(fs: FS, root: Path, target: Path, rootCanonical: Path, followLast: bool) {
    exists i: nat, lexical: Path :: Reaches(fs, root, target, rootCanonical, i, lexical)
                                    && DanglesAt(fs, lexical + [target[i]], followLast || i < |target| - 1)
  }

  predicate DanglesAt(fs: FS, next: Path, follow: bool) { follow && IsLink(fs, next) && EvalSymlinks(fs, next).NotExist? }

  // Some proper leading part of the target exists and is not a directory.
  ghost predicate ThroughFile(fs: FS, target: Path) {
    exists k: nat, f: Path :: k < |target| && Canon(fs, target[..k], f) && !IsDir(fs, f)
  }

  // The target does not exist, though the directory of its longest existing leading part does.
  ghost predicate IsMissing(fs: FS, target: Path) {
    exists k: nat, c: Path, loc: Path :: MissingAt(fs, target, k, c, loc)
  }

  lemma WalkFails(fs: FS, root: Path, target: Path, rootCanonical: Path, followLast: bool,
                  i: nat, lexical: Path, canonical: Path, throughLink: bool)
    requires |root| <= i < |target| && StaysWithin(fs, root, target, rootCanonical, i)
    requires WalkAt(fs, root, target, rootCanonical, i, lexical, canonical, throughLink)
    requires FailsAt(fs, lexical + [target[i]], followLast || i < |target| - 1)
    ensures CallFails(fs, root, target, rootCanonical, followLast)
  {
    assert Reaches(fs, root, target, rootCanonical, i, lexical);
  }

  lemma WalkDangles(fs: FS, root: Path, target: Path, rootCanonical: Path, followLast: bool,
                    i: nat, lexical: Path, canonical: Path, throughLink: bool)
    requires |root| <= i < |target| && StaysWithin(fs, root, target, rootCanonical, i)
    requires WalkAt(fs, root, target, rootCanonical, i, lexical, canonical, throughLink)
    requires DanglesAt(fs, lexical + [target[i]], followLast || i < |target| - 1)
    ensures Dangles(fs, root, target, rootCanonical, followLast)
    ensures forall c :: !Canon(fs, target, c)
  {
    assert Reaches(fs, root, target, rootCanonical, i, lexical);
    forall c ensures !Canon(fs, target, c) {
      WalkDangling(fs, root, target, rootCanonical, i, lexical, canonical, throughLink, c);
    }
  }

  // A component is reached in one state only.
  lemma WalkAtUnique(fs: FS, root: Path, target: Path, rootCanonical: Path, i: nat,
                     lexical1: Path, canonical1: Path, throughLink1: bool,
                     lexical2: Path, canonical2: Path, throughLink2: bool)
    requires WalkAt(fs, root, target, rootCanonical, i, lexical1, canonical1, throughLink1)
    requires WalkAt(fs, root, target, rootCanonical, i, lexical2, canonical2, throughLink2)
    ensures lexical1 == lexical2 && canonical1 == canonical2 && throughLink1 == throughLink2
  {
    LocatesUnique(fs, target[..i], canonical1, canonical2);
  }

  lemma WalkStart(fs: FS, root: Path, target: Path, rootCanonical: Path)
    requires EvalSymlinks(fs, root) == Ok(rootCanonical) && root <= target
    ensures StaysWithin(fs, root, target, rootCanonical, |root|)
    ensures WalkAt(fs, root, target, rootCanonical, |root|, root, rootCanonical, false)
    ensures root == target ==> SamePlace(fs, target, target, rootCanonical) && SpelledAs(fs, root, target, target)
                               && !Leaves(fs, root, target, rootCanonical)
  {
    assert Canon(fs, root, rootCanonical);
    assert target[..|root|] == root;
    StaysStep(fs, root, target, rootCanonical, |root|, rootCanonical);
    if root == target {
      StaysNeverLeaves(fs, root, target, rootCanonical);
      assert Locates(fs, target, rootCanonical);
    }
  }

  lemma MeetsLink(fs: FS, root: Path, target: Path, i: nat, lexical: Path)
    requires |root| <= i < |target| && (lexical == target[..i] || MetLink(fs, root, target, i))
    ensures MetLink(fs, root, target, i + 1) <==> IsLink(fs, lexical + [target[i]]) || MetLink(fs, root, target, i)
  {
    assert target[..i] + [target[i]] == target[..i + 1];
  }

  lemma WalkPlain(fs: FS, root: Path, target: Path, rootCanonical: Path,
                  i: nat, lexical: Path, canonical: Path, throughLink: bool)
    requires WalkAt(fs, root, target, rootCanonical, i, lexical, canonical, throughLink) && |root| <= i < |target|
    requires Lstat(fs, lexical + [target[i]]).Found? && !Lstat(fs, lexical + [target[i]]).node.Link?
    ensures WalkAt(fs, root, target, rootCanonical, i + 1,
                   lexical + [target[i]], canonical + [target[i]], throughLink)
  {
    MeetsLink(fs, root, target, i, lexical);
    PlainStep(fs, target, i, lexical, canonical);
  }

  lemma PlainStep(fs: FS, target: Path, i: nat, lexical: Path, canonical: Path)
    requires i < |target| && Canon(fs, target[..i], canonical) && Canon(fs, lexical, canonical)
    requires Lstat(fs, lexical + [target[i]]).Found? && !Lstat(fs, lexical + [target[i]]).node.Link?
    ensures Canon(fs, target[..i + 1], canonical + [target[i]]) && Canon(fs, lexical + [target[i]], canonical + [target[i]])
    ensures lexical == target[..i] ==> lexical + [target[i]] == target[..i + 1]
  {
    PlainChild(fs, lexical, lexical, canonical, target[i]);
    PlainChild(fs, lexical, target[..i], canonical, target[i]);
    assert target[..i] + [target[i]] == target[..i + 1];
  }

  // An entry that is no link, seen under one spelling of its directory, is there under the other.
  lemma PlainChild(fs: FS, lexical: Path, p: Path, c: Path, name: Name)
    requires Canon(fs, lexical, c) && Canon(fs, p, c)
    requires Lstat(fs, lexical + [name]).Found? && !Lstat(fs, lexical + [name]).node.Link?
    ensures Canon(fs, p + [name], c + [name])
  {
    LstatBelow(fs, lexical, c, name);
    CanonChild(fs, p, c, name);
  }

  // Following a link met at component i: the requested path and the walk go to the same place.
  lemma WalkLink(fs: FS, root: Path, target: Path, rootCanonical: Path,
                 i: nat, lexical: Path, canonical: Path, throughLink: bool, resolved: Path)
    requires WalkAt(fs, root, target, rootCanonical, i, lexical, canonical, throughLink) && |root| <= i < |target|
    requires IsLink(fs, lexical + [target[i]])
    requires EvalSymlinks(fs, lexical + [target[i]]) == Ok(resolved)
    ensures if Within(resolved, rootCanonical)
            then WalkAt(fs, root, target, rootCanonical, i + 1, resolved, resolved, true)
            else Leaves(fs, root, target, rootCanonical)
  {
    MeetsLink(fs, root, target, i, lexical);
    assert target[..i] + [target[i]] == target[..i + 1];
    LinkLeads(fs, lexical, target[..i], canonical, target[i], resolved);
  }

  // A link, seen under one spelling of its directory, leads to the same place under the other.
  lemma LinkLeads(fs: FS, lexical: Path, p: Path, c: Path, name: Name, resolved: Path)
    requires Canon(fs, lexical, c) && Canon(fs, p, c)
    requires Lstat(fs, lexical + [name]).Found? && EvalSymlinks(fs, lexical + [name]) == Ok(resolved)
    ensures Canon(fs, p + [name], resolved) && Canon(fs, resolved, resolved)
  {
    LstatBelow(fs, lexical, c, name);
    assert Canon(fs, lexical + [name], resolved);
    CanonSwap(fs, lexical, p, c, [name], resolved);
    CanonIsFixed(fs, p + [name], resolved);
  }

  lemma WalkDangling(fs: FS, root: Path, target: Path, rootCanonical: Path,
                     i: nat, lexical: Path, canonical: Path, throughLink: bool, c: Path)
    requires WalkAt(fs, root, target, rootCanonical, i, lexical, canonical, throughLink) && i < |target|
    requires Lstat(fs, lexical + [target[i]]).Found?
    requires EvalSymlinks(fs, lexical + [target[i]]) == NotExist
    ensures !Canon(fs, target, c)
  {
    LstatBelow(fs, lexical, canonical, target[i]);
    DanglingPrefix(fs, target, i, lexical, canonical, c);
  }

  lemma DanglingPrefix(fs: FS, target: Path, i: nat, lexical: Path, canonical: Path, c: Path)
    requires i < |target| && Canon(fs, target[..i], canonical) && Canon(fs, lexical, canonical) && IsDir(fs, canonical)
    requires EvalSymlinks(fs, lexical + [target[i]]) == NotExist
    ensures !Canon(fs, target, c)
  {
    var q := lexical + target[i..];
    assert q[..|lexical| + 1] == lexical + [target[i]];
    PrefixMissing(fs, q, |lexical| + 1, c);
    if Canon(fs, target, c) {
      assert target[..i] + target[i..] == target;
      CanonSwap(fs, target[..i], lexical, canonical, target[i..], c);
    }
  }

  lemma WalkThroughFile(fs: FS, root: Path, target: Path, rootCanonical: Path,
                        i: nat, lexical: Path, canonical: Path, throughLink: bool)
    requires WalkAt(fs, root, target, rootCanonical, i, lexical, canonical, throughLink) && |root| <= i < |target| - 1
    requires Lstat(fs, lexical + [target[i]]) == Found(File)
    ensures ThroughFile(fs, target) && forall c :: !Canon(fs, target, c)
  {
    WalkPlain(fs, root, target, rootCanonical, i, lexical, canonical, throughLink);
    LstatBelow(fs, lexical, canonical, target[i]);
    FileInTheWay(fs, target, i + 1, canonical + [target[i]]);
  }

  lemma FileInTheWay(fs: FS, target: Path, k: nat, f: Path)
    requires k < |target| && Canon(fs, target[..k], f) && !IsDir(fs, f)
    ensures ThroughFile(fs, target) && forall c :: !Canon(fs, target, c)
  {
    forall c ensures !Canon(fs, target, c) {
      PrefixIsFile(fs, target, k, f, c);
    }
  }

  lemma WalkMissing(fs: FS, root: Path, target: Path, rootCanonical: Path,
                    i: nat, lexical: Path, canonical: Path, throughLink: bool)
    requires WalkAt(fs, root, target, rootCanonical, i, lexical, canonical, throughLink) && i < |target|
    requires Lstat(fs, lexical + [target[i]]).Missing?
    requires StaysWithin(fs, root, target, rootCanonical, i)
    ensures var path := if throughLink then canonical + [target[i]] + target[i + 1..] else target;
            SamePlace(fs, target, path, rootCanonical) && SpelledAs(fs, root, target, path)
    ensures !Leaves(fs, root, target, rootCanonical)
  {
    var loc := canonical + target[i..];
    assert canonical + [target[i]] + target[i + 1..] == loc;
    MissingTail(fs, root, target, rootCanonical, i, lexical, canonical, throughLink);
    MissingSamePlace(fs, target, i, canonical, loc, rootCanonical);
    MissingNeverLeaves(fs, root, target, rootCanonical, i, canonical, loc);
    if throughLink {
      LinkStaysMet(fs, root, target, i, |target|);
      assert Locates(fs, target, loc);
    } else {
      assert IsLink(fs, lexical + [target[i]]) == false;
      MissingMeetsNoLink(fs, root, target, i, canonical, loc, |target|);
    }
  }

  // The path returned is the target as requested if no component of it is a link, else its place.
  ghost predicate SpelledAs(fs: FS, root: Path, target: Path, path: Path) {
    if MetLink(fs, root, target, |target|) then Locates(fs, target, path) else path == target
  }

  lemma {:induction false} LinkStaysMet(fs: FS, root: Path, target: Path, i: nat, k: nat)
    requires i <= k <= |target| && MetLink(fs, root, target, i)
    ensures MetLink(fs, root, target, k)
    decreases k
  {
    if i < k {
      LinkStaysMet(fs, root, target, i, k - 1);
    }
  }

  // Nothing below a missing component is a link.
  lemma {:induction false} MissingMeetsNoLink(fs: FS, root: Path, target: Path, i: nat, canonical: Path, loc: Path, k: nat)
    requires i <= k <= |target| && MissingAt(fs, target, i, canonical, loc) && !MetLink(fs, root, target, i)
    requires !IsLink(fs, target[..i] + [target[i]])
    ensures !MetLink(fs, root, target, k)
    decreases k
  {
    if i < k {
      MissingMeetsNoLink(fs, root, target, i, canonical, loc, k - 1);
      NothingBelowMissing(fs, target, i, canonical, loc, k);
    }
  }

  lemma NothingBelowMissing(fs: FS, target: Path, i: nat, canonical: Path, loc: Path, k: nat)
    requires i < k <= |target| && MissingAt(fs, target, i, canonical, loc) && !IsLink(fs, target[..i] + [target[i]])
    ensures !IsLink(fs, target[..k])
  {
    var p := target[..k];
    if k == i + 1 {
      assert p == target[..i] + [target[i]];
    } else {
      var q := Parent(p);
      assert q[..i] == target[..i];
      match Eval(fs, [], Names(q), KERNEL_LINKS)
      case Ok(d) => MissingHasNoCanon(fs, q, i, canonical, canonical + q[i..], d);
      case _ =>
    }
  }

  lemma MissingSamePlace(fs: FS, target: Path, i: nat, canonical: Path, loc: Path, rootCanonical: Path)
    requires MissingAt(fs, target, i, canonical, loc) && MissingAt(fs, loc, |canonical|, canonical, loc)
    requires Within(canonical, rootCanonical)
    ensures SamePlace(fs, target, loc, rootCanonical) && SamePlace(fs, target, target, rootCanonical)
  {
    assert Locates(fs, target, loc) && Locates(fs, loc, loc);
  }

  lemma MissingNeverLeaves(fs: FS, root: Path, target: Path, rootCanonical: Path, i: nat, canonical: Path, loc: Path)
    requires MissingAt(fs, target, i, canonical, loc) && StaysWithin(fs, root, target, rootCanonical, i)
    ensures !Leaves(fs, root, target, rootCanonical)
  {
    StaysMissing(fs, root, target, rootCanonical, i, canonical, loc);
    StaysNeverLeaves(fs, root, target, rootCanonical);
  }

  lemma MissingTail(fs: FS, root: Path, target: Path, rootCanonical: Path,
                    i: nat, lexical: Path, canonical: Path, throughLink: bool)
    requires WalkAt(fs, root, target, rootCanonical, i, lexical, canonical, throughLink) && i < |target|
    requires Lstat(fs, lexical + [target[i]]).Missing?
    ensures MissingAt(fs, target, i, canonical, canonical + target[i..])
    ensures MissingAt(fs, canonical + target[i..], |canonical|, canonical, canonical + target[i..])
  {
    LstatBelow(fs, lexical, canonical, target[i]);
    CanonIsFixed(fs, lexical, canonical);
    var loc := canonical + target[i..];
    assert loc[..|canonical|] == canonical && loc[|canonical|..] == target[i..];
  }

  lemma WalkDone(fs: FS, root: Path, target: Path, rootCanonical: Path,
                 lexical: Path, canonical: Path, throughLink: bool)
    requires WalkAt(fs, root, target, rootCanonical, |target|, lexical, canonical, throughLink)
    requires StaysWithin(fs, root, target, rootCanonical, |target|)
    ensures var path := if throughLink then canonical else target;
            SamePlace(fs, target, path, rootCanonical) && SpelledAs(fs, root, target, path)
    ensures !Leaves(fs, root, target, rootCanonical)
  {
    StaysNeverLeaves(fs, root, target, rootCanonical);
    assert target[..|target|] == target;
    assert Locates(fs, target, canonical) && Locates(fs, lexical, canonical);
  }

  // What an answer says about the target.
  ghost predicate Answers(fs: FS, root: Path, target: Path, rootCanonical: Path, r: Result) {
    match r
    case Resolved(path) =>
      root <= target && SamePlace(fs, target, path, rootCanonical) && SpelledAs(fs, root, target, path)
      && !Leaves(fs, root, target, rootCanonical)
    case OutsideWorkspace => !(root <= target) || Leaves(fs, root, target, rootCanonical)
    case NotFound => Dangles(fs, root, target, rootCanonical, true) && forall c :: !Canon(fs, target, c)
    case NotDirectory => ThroughFile(fs, target) && forall c :: !Canon(fs, target, c)
    case OtherError => CallFails(fs, root, target, rootCanonical, true)
  }

  /**
   resolveFSPathWithinWorkspace.  A returned path denotes the same place as the target, and that place
   lies within the canonical root, also when the walk stops at a missing tail, and no leading part of
   the target resolves outside it.  The walk reports OutsideWorkspace only for a target that is not
   spelled below the root or that does pass outside it, NotFound only when it meets a link that leads
   nowhere, NotDirectory only for a target below a file, and any other error only when a call on the way
   fails.
   */
  method ResolveWithin(fs: FS, root: Path, rootCanonical: Path, target: Path) returns (r: Result)
    requires EvalSymlinks(fs, root) == Ok(rootCanonical)
    ensures Answers(fs, root, target, rootCanonical, r)
  {
    if !(root <= target) {
      return OutsideWorkspace;
    }
    WalkStart(fs, root, target, rootCanonical);
    if root == target {
      return Resolved(target);
    }
    var lexical, canonical, throughLink := root, rootCanonical, false;
    var i := |root|;
    while i < |target|
      invariant |root| <= i <= |target|
      invariant StaysWithin(fs, root, target, rootCanonical, i)
      invariant WalkAt(fs, root, target, rootCanonical, i, lexical, canonical, throughLink)
    {
      var next, nextCanonical := lexical + [target[i]], canonical + [target[i]];
      var stat := Lstat(fs, next);
      if stat.StatError? {
        WalkFails(fs, root, target, rootCanonical, true, i, lexical, canonical, throughLink);
        return OtherError;
      } else if stat.Missing? {
        var candidate := nextCanonical + target[i + 1..];
        WalkMissing(fs, root, target, rootCanonical, i, lexical, canonical, throughLink);
        if !Within(candidate, rootCanonical) {
          return OutsideWorkspace;
        }
        return Resolved(if throughLink then candidate else target);
      } else if !stat.node.Link? {
        if i < |target| - 1 && !stat.node.Dir? {
          WalkThroughFile(fs, root, target, rootCanonical, i, lexical, canonical, throughLink);
          return NotDirectory;
        }
        WalkPlain(fs, root, target, rootCanonical, i, lexical, canonical, throughLink);
        lexical, canonical := next, nextCanonical;
      } else {
        var resolved := EvalSymlinks(fs, next);
        if resolved.NotExist? {
          WalkDangles(fs, root, target, rootCanonical, true, i, lexical, canonical, throughLink);
          return NotFound;
        } else if resolved.Fail? {
          WalkFails(fs, root, target, rootCanonical, true, i, lexical, canonical, throughLink);
          return OtherError;
        }
        WalkLink(fs, root, target, rootCanonical, i, lexical, canonical, throughLink, resolved.path);
        if !Within(resolved.path, rootCanonical) {
          return OutsideWorkspace;
        }
        lexical, canonical, throughLink := resolved.path, resolved.path, true;
      }
      i := i + 1;
      StaysStep(fs, root, target, rootCanonical, i, canonical);
    }
    if !Within(canonical, rootCanonical) {
      return OutsideWorkspace;
    }
    WalkDone(fs, root, target, rootCanonical, lexical, canonical, throughLink);
    r := Resolved(if throughLink then canonical else target);
  }

  // A target that exists, or that is missing from a directory that does, is answered with a path, unless
  // it passes outside, a call fails or a link on the way leads nowhere.
  lemma PlaceIsAnswered(fs: FS, root: Path, target: Path, rootCanonical: Path, r: Result)
    requires Answers(fs, root, target, rootCanonical, r) && root <= target
    requires (exists c :: Canon(fs, target, c)) || IsMissing(fs, target)
    requires !Leaves(fs, root, target, rootCanonical) && !CallFails(fs, root, target, rootCanonical, true)
    requires IsMissing(fs, target) ==> !Dangles(fs, root, target, rootCanonical, true)
    ensures r.Resolved?
  {
    if r.NotDirectory? {
      var k: nat, c: Path, loc: Path :| MissingAt(fs, target, k, c, loc);
      MissingNotThroughFile(fs, target, k, c, loc);
    }
  }

  lemma MissingNotThroughFile(fs: FS, target: Path, k: nat, c: Path, loc: Path)
    requires MissingAt(fs, target, k, c, loc)
    ensures !ThroughFile(fs, target)
  {
    forall j: nat, f: Path | j < |target| && Canon(fs, target[..j], f) ensures IsDir(fs, f) {
      if j <= k {
        FileAtPrefix(fs, target, j, f, k, c);
      } else {
        assert target[..j][..k] == target[..k];
        MissingHasNoCanon(fs, target[..j], k, c, c + target[..j][k..], f);
      }
    }
  }

  lemma FileAtPrefix(fs: FS, target: Path, j: nat, f: Path, k: nat, c: Path)
    requires j <= k < |target| && Canon(fs, target[..j], f) && Canon(fs, target[..k], c) && IsDir(fs, c)
    ensures IsDir(fs, f)
  {
    if j < k && !IsDir(fs, f) {
      assert target[..k][..j] == target[..j];
      PrefixIsFile(fs, target[..k], j, f, c);
    } else if j == k {
      LocatesUnique(fs, target[..k], f, c);
    }
  }

  lemma RealPrefixExists(fs: FS, c: Path, n: nat)
    requires Real(fs, c) && 0 < n <= |c|
    ensures c[..n] in fs
  {
    if DirPath(fs, c) {
      assert IsDir(fs, c[..n]);
    } else if n < |c| {
      assert Parent(c)[..n] == c[..n];
      assert IsDir(fs, Parent(c)[..n]);
    } else {
      assert c[..n] == c;
    }
  }

  // Nothing is missing on the way to a canonical path.
  lemma RealIsNotMissing(fs: FS, p: Path, k: nat, d: Path, c: Path)
    requires Real(fs, c)
    ensures !MissingAt(fs, p, k, d, c)
  {
    if MissingAt(fs, p, k, d, c) {
      assert c[..|d| + 1] == d + [p[k]];
      RealPrefixExists(fs, c, |d| + 1);
    }
  }

  // For a target that exists, SamePlace says that target and returned path have one canonical form.
  lemma SamePlaceCanon(fs: FS, target: Path, path: Path, rootCanonical: Path, c: Path)
    requires SamePlace(fs, target, path, rootCanonical) && Canon(fs, target, c)
    ensures Within(c, rootCanonical) && Canon(fs, path, c)
  {
    var loc :| Locates(fs, target, loc) && Locates(fs, path, loc) && Within(loc, rootCanonical);
    LocatesUnique(fs, target, loc, c);
    CanonIsFixed(fs, target, c);
    if !Canon(fs, path, c) {
      var k: nat, d: Path :| MissingAt(fs, path, k, d, c);
      RealIsNotMissing(fs, path, k, d, c);
    }
  }

  // Both directory entries have the same parent directory, inside the root, and the same name there.
  ghost predicate SameEntry(fs: FS, target: Path, path: Path, rootCanonical: Path) {
    && target != [] && path != []
    && path[|path| - 1] == target[|target| - 1]
    && exists d :: && Canon(fs, Parent(target), d) && Canon(fs, Parent(path), d) && Within(d, rootCanonical)
                   && IsDir(fs, d) && d + [target[|target| - 1]] in fs
  }

  // The entry is spelled as requested if no component before it is a link, else below its canonical parent.
  ghost predicate EntrySpelledAs(fs: FS, root: Path, target: Path, path: Path)
    requires target != []
  {
    if MetLink(fs, root, target, |target| - 1) then Canon(fs, Parent(target), Parent(path)) else path == target
  }

  lemma EntryFound(fs: FS, root: Path, target: Path, rootCanonical: Path,
                   i: nat, lexical: Path, canonical: Path, throughLink: bool)
    requires WalkAt(fs, root, target, rootCanonical, i, lexical, canonical, throughLink) && i == |target| - 1
    requires Lstat(fs, lexical + [target[i]]).Found?
    ensures SameEntry(fs, target, lexical + [target[i]], rootCanonical)
    ensures EntrySpelledAs(fs, root, target, lexical + [target[i]])
  {
    LstatBelow(fs, lexical, canonical, target[i]);
    assert Parent(target) == target[..i] && Parent(lexical + [target[i]]) == lexical;
    assert target[..i] + [target[i]] == target;
  }

  // An entry of a directory is answered with a path, unless the walk to it passes outside, a call fails or
  // a link on the way leads nowhere.
  lemma EntryIsAnswered(fs: FS, root: Path, target: Path, rootCanonical: Path, r: Result, d: Path)
    requires EntryAnswers(fs, root, target, rootCanonical, r) && root < target
    requires Canon(fs, Parent(target), d) && IsDir(fs, d) && d + [target[|target| - 1]] in fs
    requires !Leaves(fs, root, target, rootCanonical) && !CallFails(fs, root, target, rootCanonical, false)
    requires !Dangles(fs, root, target, rootCanonical, false)
    ensures r.Resolved?
  {
    if r.NotFound? {
      var k: nat, c: Path, loc: Path :| MissingAt(fs, target, k, c, loc);
      if k < |target| - 1 {
        assert Parent(target)[..k] == target[..k];
        MissingHasNoCanon(fs, Parent(target), k, c, c + Parent(target)[k..], d);
      } else {
        LocatesUnique(fs, Parent(target), c, d);
      }
    } else if r.NotDirectory? {
      var k: nat, f: Path :| k < |target| && Canon(fs, target[..k], f) && !IsDir(fs, f);
      FileAtPrefix(fs, target, k, f, |target| - 1, d);
    }
  }

  // What an answer says about the directory entry that the target names.
  ghost predicate EntryAnswers(fs: FS, root: Path, target: Path, rootCanonical: Path, r: Result) {
    match r
    case Resolved(path) =>
      root <= target
      && if root == target then path == target
         else SameEntry(fs, target, path, rootCanonical) && EntrySpelledAs(fs, root, target, path)
    case OutsideWorkspace => !(root <= target) || Leaves(fs, root, target, rootCanonical)
    case NotFound =>
      (IsMissing(fs, target) || Dangles(fs, root, target, rootCanonical, false)) && forall c :: !Canon(fs, target, c)
    case NotDirectory => ThroughFile(fs, target) && forall c :: !Canon(fs, target, c)
    case OtherError => CallFails(fs, root, target, rootCanonical, false)
  }

  /**
   resolveFSEntryPath: the last component is not followed.  The returned path names the same entry of
   the same directory as the target, and that directory lies within the canonical root.
   */
  method ResolveEntry(fs: FS, root: Path, rootCanonical: Path, target: Path) returns (r: Result)
    requires EvalSymlinks(fs, root) == Ok(rootCanonical)
    ensures EntryAnswers(fs, root, target, rootCanonical, r)
  {
    if !(root <= target) {
      return OutsideWorkspace;
    }
    WalkStart(fs, root, target, rootCanonical);
    if root == target {
      return Resolved(target);
    }
    var lexical, canonical, throughLink := root, rootCanonical, false;
    var i := |root|;
    while i < |target| - 1
      invariant |root| <= i <= |target| - 1
      invariant StaysWithin(fs, root, target, rootCanonical, i)
      invariant WalkAt(fs, root, target, rootCanonical, i, lexical, canonical, throughLink)
    {
      var next := lexical + [target[i]];
      var stat := Lstat(fs, next);
      if stat.StatError? {
        WalkFails(fs, root, target, rootCanonical, false, i, lexical, canonical, throughLink);
        return OtherError;
      } else if stat.Missing? {
        EntryMissing(fs, root, target, rootCanonical, i, lexical, canonical, throughLink);
        return NotFound;
      } else if !stat.node.Link? {
        if !stat.node.Dir? {
          WalkThroughFile(fs, root, target, rootCanonical, i, lexical, canonical, throughLink);
          return NotDirectory;
        }
        WalkPlain(fs, root, target, rootCanonical, i, lexical, canonical, throughLink);
        lexical, canonical := next, canonical + [target[i]];
      } else {
        var resolved := EvalSymlinks(fs, next);
        if resolved.NotExist? {
          WalkDangles(fs, root, target, rootCanonical, false, i, lexical, canonical, throughLink);
          return NotFound;
        } else if resolved.Fail? {
          WalkFails(fs, root, target, rootCanonical, false, i, lexical, canonical, throughLink);
          return OtherError;
        }
        WalkLink(fs, root, target, rootCanonical, i, lexical, canonical, throughLink, resolved.path);
        if !Within(resolved.path, rootCanonical) {
          return OutsideWorkspace;
        }
        lexical, canonical, throughLink := resolved.path, resolved.path, true;
      }
      i := i + 1;
      StaysStep(fs, root, target, rootCanonical, i, canonical);
    }
    // the final component
    var entry := lexical + [target[i]];
    var stat := Lstat(fs, entry);
    if stat.StatError? {
      WalkFails(fs, root, target, rootCanonical, false, i, lexical, canonical, throughLink);
      return OtherError;
    } else if stat.Missing? {
      EntryMissing(fs, root, target, rootCanonical, i, lexical, canonical, throughLink);
      return NotFound;
    }
    EntryFound(fs, root, target, rootCanonical, i, lexical, canonical, throughLink);
    if !stat.node.Link? && throughLink && !Within(entry, rootCanonical) {
      return OutsideWorkspace;
    }
    r := Resolved(entry);
  }

  lemma EntryMissing(fs: FS, root: Path, target: Path, rootCanonical: Path,
                     i: nat, lexical: Path, canonical: Path, throughLink: bool)
    requires WalkAt(fs, root, target, rootCanonical, i, lexical, canonical, throughLink) && i < |target|
    requires Lstat(fs, lexical + [target[i]]).Missing?
    ensures IsMissing(fs, target) && forall c :: !Canon(fs, target, c)
  {
    LstatBelow(fs, lexical, canonical, target[i]);
    var loc := canonical + target[i..];
    assert MissingAt(fs, target, i, canonical, loc);
    forall c ensures !Canon(fs, target, c) {
      MissingHasNoCanon(fs, target, i, canonical, loc, c);
    }
  }

  /******* Requests *******/

  // A requested path after TrimSpace.
  datatype Request = Blank | AbsolutePath(comps: seq<Comp>) | RelativePath(comps: seq<Comp>)

  // filepath.Clean of comps appended to an absolute cleaned path.
  function Clean(base: Path, comps: seq<Comp>): Path
    decreases |comps|
  {
    if comps == [] then base
    else Clean(match comps[0]
               case Dot => base
               case Up => Parent(base)
               case Down(name) => base + [name], comps[1..])
  }

  function TargetOf(root: Path, request: Request): Path {
    match request
    case Blank => root
    case AbsolutePath(comps) => Clean([], comps)
    case RelativePath(comps) => Clean(root, comps)
  }

  // Cleaning a list of plain names appends them.
  lemma {:induction false} CleanNames(base: Path, p: Path)
    ensures Clean(base, Names(p)) == base + p
    decreases |p|
  {
    if p == [] {
      assert base + p == base;
    } else {
      assert Names(p)[1..] == Names(p[1..]);
      CleanNames(base + [p[0]], p[1..]);
      assert base + [p[0]] + p[1..] == base + p;
    }
  }

  ghost predicate NoLinks(fs: FS) { forall p :: p in fs ==> !fs[p].Link? }

  // Cleaning is lexical: it finds what the components denote when no link is in the way.
  lemma {:induction false} CleanIsEval(fs: FS, base: Path, comps: seq<Comp>, links: nat)
    requires NoLinks(fs) && Eval(fs, base, comps, links).Ok?
    ensures Eval(fs, base, comps, links).path == Clean(base, comps)
    decreases |comps|
  {
    if comps != [] {
      var next := match comps[0] case Dot => base case Up => Parent(base) case Down(name) => base + [name];
      if comps[0].Down? && next in fs && fs[next].File? {
        assert comps[1..] == [];
      } else {
        CleanIsEval(fs, next, comps[1..], links);
      }
    }
  }

  // A relative request starts at the root of the workspace, an absolute one at that of the file system.
  lemma RequestMeans(fs: FS, root: Path, comps: seq<Comp>, links: nat)
    requires NoLinks(fs)
    ensures Eval(fs, root, comps, links).Ok? ==> Eval(fs, root, comps, links).path == TargetOf(root, RelativePath(comps))
    ensures Eval(fs, [], comps, links).Ok? ==> Eval(fs, [], comps, links).path == TargetOf(root, AbsolutePath(comps))
    ensures TargetOf(root, Blank) == root
  {
    if Eval(fs, root, comps, links).Ok? {
      CleanIsEval(fs, root, comps, links);
    }
    if Eval(fs, [], comps, links).Ok? {
      CleanIsEval(fs, [], comps, links);
    }
  }

  /**
   resolveFSPathInRoot: however the request is spelled, with "." and ".." in it, an answer denotes the
   place of the cleaned request and lies within the canonical form of the root; a refusal says what is
   wrong with the cleaned request.
   */
  method ResolveInRoot(fs: FS, root: Path, request: Request) returns (r: Result)
    ensures r.Resolved? ==> EvalSymlinks(fs, root).Ok?
    ensures r.OtherError? <== !EvalSymlinks(fs, root).Ok?
    ensures EvalSymlinks(fs, root).Ok? ==>
              Answers(fs, root, TargetOf(root, request), EvalSymlinks(fs, root).path, r)
  {
    var canonical := EvalSymlinks(fs, root);
    if !canonical.Ok? {
      return OtherError;
    }
    r := ResolveWithin(fs, root, canonical.path, TargetOf(root, request));
  }
}
