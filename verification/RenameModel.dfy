/**
 Trees, and what a batch of renames does to them.

 A tree is a map from absolute paths to contents.  The staged rename of core/app/fs_mutation.go first
 moves every source of a batch to a temporary name beside it and only then to its target, so that swaps
 and cycles work.  The proof follows where each entry of the batch currently is: Shows describes a tree
 as the initial tree with every entry moved to its current place.
 */
module RenameModel {
  import opened Common

  type Name = nat
  type Path = seq<Name>
  type Content = nat
  type Tree = map<Path, Content>

  // Neither path is the other or an ancestor of it.
  predicate Apart(p: Path, q: Path) { !(p <= q) && !(q <= p) }

  function Parent(p: Path): Path { if p == [] then [] else p[..|p| - 1] }

  // A tree contains the ancestors of what it contains.
  ghost predicate Closed(t: Tree) { forall p, q :: q in t && p <= q ==> p in t }

  /******* Moving and removing a subtree *******/

  lemma Rebased(a: Path, b: Path, p: Path)
    requires a <= p
    ensures b <= b + p[|a|..] && a + (b + p[|a|..])[|b|..] == p
  {
    assert (b + p[|a|..])[|b|..] == p[|a|..];
  }

  function Moved(t: Tree, a: Path, b: Path): Tree {
    var moved := set p | p in t && a <= p :: b + p[|a|..];
    assert forall q :: q in moved ==> b <= q && a + q[|b|..] in t by {
      forall p | p in t && a <= p ensures b <= b + p[|a|..] && a + (b + p[|a|..])[|b|..] == p {
        Rebased(a, b, p);
      }
    }
    (map p | p in t && !(a <= p) && !(b <= p) :: t[p]) + (map q | q in moved :: t[a + q[|b|..]])
  }

  function Removed(t: Tree, r: Path): Tree { map p | p in t && !(r <= p) :: t[p] }

  lemma MovedGet(t: Tree, a: Path, b: Path, q: Path)
    requires Apart(a, b)
    ensures Get(Moved(t, a, b), q) ==
              if b <= q then Get(t, a + q[|b|..]) else if a <= q then None else Get(t, q)
  {
    if b <= q {
      Rebased(b, a, q);
      if q in Moved(t, a, b) {
        var p :| p in t && a <= p && q == b + p[|a|..];
        Rebased(a, b, p);
      }
    } else if a <= q {
      forall p | p in t && a <= p ensures q != b + p[|a|..] {
        Rebased(a, b, p);
      }
    }
  }

  lemma RemovedGet(t: Tree, r: Path, q: Path)
    ensures Get(Removed(t, r), q) == if r <= q then None else Get(t, q)
  {
  }

  /******* Where the entries of a batch are *******/

  datatype Item = Item(source: Path, temp: Path, target: Path)

  // The first of the places, from the i-th on, that q lies in; |places| if there is none.
  function Find(places: seq<Path>, i: nat, q: Path): (r: nat)
    requires i <= |places|
    ensures i <= r <= |places|
    ensures r < |places| ==> places[r] <= q
    decreases |places| - i
  {
    if i == |places| || places[i] <= q then i else Find(places, i + 1, q)
  }

  ghost predicate PairwiseApart(places: seq<Path>) {
    forall i, j :: 0 <= i < j < |places| ==> Apart(places[i], places[j])
  }

  lemma {:induction false} FindUnique(places: seq<Path>, i: nat, k: nat, q: Path)
    requires PairwiseApart(places) && i <= k < |places| && places[k] <= q
    ensures Find(places, i, q) == k
    decreases k - i
  {
    if i < k {
      assert Apart(places[i], places[k]);
      FindUnique(places, i + 1, k, q);
    }
  }

  lemma {:induction false} FindNone(places: seq<Path>, i: nat, q: Path)
    requires i <= |places| && forall k :: i <= k < |places| ==> !(places[k] <= q)
    ensures Find(places, i, q) == |places|
    decreases |places| - i
  {
    if i < |places| {
      FindNone(places, i + 1, q);
    }
  }

  function Sources(items: seq<Item>): seq<Path> { seq(|items|, i requires 0 <= i < |items| => items[i].source) }
  function Temps(items: seq<Item>): seq<Path> { seq(|items|, i requires 0 <= i < |items| => items[i].temp) }
  function Targets(items: seq<Item>): seq<Path> { seq(|items|, i requires 0 <= i < |items| => items[i].target) }

  // The content at q when the i-th entry of the batch has been moved from its source to places[i] and
  // the subtrees in gone have been removed.
  function Expected(t0: Tree, items: seq<Item>, places: seq<Path>, gone: seq<Path>, q: Path): Option<Content>
    requires |places| == |items|
  {
    var i := Find(places, 0, q);
    if i < |places| then Get(t0, items[i].source + q[|places[i]|..])
    else if Find(Sources(items), 0, q) < |items| || Find(gone, 0, q) < |gone| then None
    else Get(t0, q)
  }

  ghost predicate Shows(t: Tree, t0: Tree, items: seq<Item>, places: seq<Path>, gone: seq<Path>)
    requires |places| == |items|
  {
    forall q :: Get(t, q) == Expected(t0, items, places, gone, q)
  }

  // Nothing of the initial tree shows through at a once its entry has left it.
  ghost predicate Vacated(t0: Tree, items: seq<Item>, a: Path) {
    (exists j :: 0 <= j < |items| && items[j].source == a) || forall q :: q in t0 ==> !(a <= q)
  }

  lemma SourceFound(items: seq<Item>, j: nat, q: Path)
    requires j < |items| && items[j].source <= q
    ensures Find(Sources(items), 0, q) < |items|
  {
    if Find(Sources(items), 0, q) == |items| {
      FindComplete(Sources(items), 0, j, q);
    }
  }

  lemma {:induction false} FindComplete(places: seq<Path>, i: nat, k: nat, q: Path)
    requires i <= k < |places| && places[k] <= q
    ensures Find(places, i, q) <= k
    decreases k - i
  {
    if i < k {
      FindComplete(places, i + 1, k, q);
    }
  }

  // Moving the i-th entry on to b.
  lemma MoveStep(t: Tree, t0: Tree, items: seq<Item>, places: seq<Path>, gone: seq<Path>, i: nat, b: Path)
    requires |places| == |items| && i < |items|
    requires Shows(t, t0, items, places, gone) && PairwiseApart(places) && PairwiseApart(places[i := b])
    requires Apart(places[i], b) && Vacated(t0, items, places[i])
    ensures Shows(Moved(t, places[i], b), t0, items, places[i := b], gone)
  {
    var a := places[i];
    forall q ensures Get(Moved(t, a, b), q) == Expected(t0, items, places[i := b], gone, q) {
      MovedGet(t, a, b, q);
      if b <= q {
        FindUnique(places[i := b], 0, i, q);
        var p := a + q[|b|..];
        assert p[|a|..] == q[|b|..];
        FindUnique(places, 0, i, p);
        assert Get(t, p) == Expected(t0, items, places, gone, p);
      } else if a <= q {
        MoveLeaves(t0, items, places, gone, i, b, q);
      } else {
        FindSame(places, 0, i, b, q);
        assert Get(t, q) == Expected(t0, items, places, gone, q);
      }
    }
  }

  lemma {:induction false} FindSame(places: seq<Path>, j: nat, i: nat, b: Path, q: Path)
    requires i < |places| && j <= |places| && !(places[i] <= q) && !(b <= q)
    ensures Find(places[i := b], j, q) == Find(places, j, q)
    decreases |places| - j
  {
    if j < |places| {
      FindSame(places, j + 1, i, b, q);
    }
  }

  lemma MoveLeaves(t0: Tree, items: seq<Item>, places: seq<Path>, gone: seq<Path>, i: nat, b: Path, q: Path)
    requires |places| == |items| && i < |items|
    requires PairwiseApart(places) && Vacated(t0, items, places[i]) && places[i] <= q && !(b <= q)
    ensures Expected(t0, items, places[i := b], gone, q) == None
  {
    var next := places[i := b];
    forall k | 0 <= k < |next| ensures !(next[k] <= q) {
      if k != i {
        assert Apart(places[k], places[i]);
      }
    }
    FindNone(next, 0, q);
    if exists j :: 0 <= j < |items| && items[j].source == places[i] {
      var j :| 0 <= j < |items| && items[j].source == places[i];
      SourceFound(items, j, q);
    }
  }

  lemma RemoveStep(t: Tree, t0: Tree, items: seq<Item>, places: seq<Path>, gone: seq<Path>, r: Path)
    requires |places| == |items| && Shows(t, t0, items, places, gone)
    requires forall k :: 0 <= k < |places| ==> Apart(places[k], r)
    ensures Shows(Removed(t, r), t0, items, places, gone + [r])
  {
    forall q ensures Get(Removed(t, r), q) == Expected(t0, items, places, gone + [r], q) {
      RemovedGet(t, r, q);
      assert Get(t, q) == Expected(t0, items, places, gone, q);
      if r <= q {
        forall k | 0 <= k < |places| ensures !(places[k] <= q) { assert Apart(places[k], r); }
        FindNone(places, 0, q);
        FindComplete(gone + [r], 0, |gone|, q);
      } else {
        FindAppend(gone, 0, r, q);
      }
    }
  }

  lemma {:induction false} FindAppend(places: seq<Path>, i: nat, r: Path, q: Path)
    requires i <= |places| && !(r <= q)
    ensures Find(places + [r], i, q) < |places| + 1 <==> Find(places, i, q) < |places|
    decreases |places| - i
  {
    if i < |places| {
      FindAppend(places, i + 1, r, q);
    }
  }

  // Counting one more entry, still at its source, changes nothing.
  lemma AddItem(t: Tree, t0: Tree, items: seq<Item>, places: seq<Path>, item: Item)
    requires |places| == |items| && Shows(t, t0, items, places, [])
    requires forall k :: 0 <= k < |items| ==> Apart(places[k], item.source) && Apart(items[k].source, item.source)
    ensures Shows(t, t0, items + [item], places + [item.source], [])
  {
    forall q ensures Get(t, q) == Expected(t0, items + [item], places + [item.source], [], q) {
      assert Get(t, q) == Expected(t0, items, places, [], q);
      if item.source <= q {
        AddItemBelow(t0, items, places, item, q);
      } else {
        AddItemElsewhere(t0, items, places, item, q);
      }
    }
  }

  lemma AddItemBelow(t0: Tree, items: seq<Item>, places: seq<Path>, item: Item, q: Path)
    requires |places| == |items| && item.source <= q
    requires forall k :: 0 <= k < |items| ==> Apart(places[k], item.source) && Apart(items[k].source, item.source)
    ensures Expected(t0, items + [item], places + [item.source], [], q) == Expected(t0, items, places, [], q) == Get(t0, q)
  {
    var sources := Sources(items);
    forall k | 0 <= k < |items| ensures !(places[k] <= q) && !(sources[k] <= q) {
      assert Apart(places[k], item.source) && Apart(items[k].source, item.source);
    }
    FindNone(places, 0, q);
    FindNone(sources, 0, q);
    FindLast(places, 0, item.source, q);
    assert item.source + q[|item.source|..] == q;
  }

  lemma AddItemElsewhere(t0: Tree, items: seq<Item>, places: seq<Path>, item: Item, q: Path)
    requires |places| == |items| && !(item.source <= q)
    ensures Expected(t0, items + [item], places + [item.source], [], q) == Expected(t0, items, places, [], q)
  {
    assert Sources(items + [item]) == Sources(items) + [item.source];
    FindAppend(Sources(items), 0, item.source, q);
    FindAppend(places, 0, item.source, q);
    FindEarlier(places, 0, item.source, q);
  }

  lemma {:induction false} FindLast(places: seq<Path>, i: nat, r: Path, q: Path)
    requires i <= |places| && r <= q && Find(places, i, q) == |places|
    ensures Find(places + [r], i, q) == |places|
    decreases |places| - i
  {
    if i < |places| {
      FindLast(places, i + 1, r, q);
    }
  }

  lemma {:induction false} FindEarlier(places: seq<Path>, i: nat, r: Path, q: Path)
    requires i <= |places|
    ensures Find(places, i, q) < |places| ==> Find(places + [r], i, q) == Find(places, i, q)
    decreases |places| - i
  {
    if i < |places| {
      FindEarlier(places, i + 1, r, q);
    }
  }

  // With every entry at its source the tree is the initial one.
  lemma {:induction false} ShowsInitial(t0: Tree, items: seq<Item>)
    requires PairwiseApart(Sources(items))
    ensures Shows(t0, t0, items, Sources(items), [])
  {
    forall q ensures Get(t0, q) == Expected(t0, items, Sources(items), [], q) {
      var i := Find(Sources(items), 0, q);
      if i < |items| {
        assert items[i].source + q[|items[i].source|..] == q;
      }
    }
  }

  /******* The batch *******/

  // The paths of the batch do not nest: any two of them are the same or apart, sources are distinct,
  // targets are distinct, and every entry moves.  Temporary names are apart from everything.
  ghost predicate Separate(items: seq<Item>) {
    && (forall i, j :: 0 <= i < |items| && 0 <= j < |items| && i != j ==>
          && Apart(items[i].source, items[j].source) && Apart(items[i].target, items[j].target)
          && Apart(items[i].temp, items[j].temp))
    && (forall i, j :: 0 <= i < |items| && 0 <= j < |items| ==>
          && Apart(items[i].temp, items[j].source) && Apart(items[i].temp, items[j].target)
          && (items[i].source == items[j].target || Apart(items[i].source, items[j].target)))
    && (forall i :: 0 <= i < |items| ==> Apart(items[i].source, items[i].target))
  }

  ghost predicate FreshTemps(t0: Tree, items: seq<Item>) {
    forall i, q :: 0 <= i < |items| && q in t0 ==> !(items[i].temp <= q)
  }

  ghost predicate Present(t0: Tree, items: seq<Item>) {
    forall i :: 0 <= i < |items| ==> items[i].source in t0
  }

  // The entries are at their temporary names or back at their sources.
  ghost predicate Staging(items: seq<Item>, places: seq<Path>) {
    && |places| == |items|
    && forall i :: 0 <= i < |items| ==> places[i] == items[i].source || places[i] == items[i].temp
  }

  // The first k entries are at their targets, the others at their temporary names.
  function Committed(items: seq<Item>, k: nat): seq<Path>
    requires k <= |items|
  {
    seq(|items|, i requires 0 <= i < |items| => if i < k then items[i].target else items[i].temp)
  }

  lemma StagingApart(items: seq<Item>, places: seq<Path>)
    requires Separate(items) && Staging(items, places)
    ensures PairwiseApart(places)
  {
  }

  lemma CommittedApart(items: seq<Item>, k: nat)
    requires Separate(items) && k <= |items|
    ensures PairwiseApart(Committed(items, k))
  {
  }

  // The simultaneous rename: what is below a target afterwards is what was below its source before,
  // nothing is left below a source that is not a target, and everything else stays.
  function Simultaneous(t0: Tree, items: seq<Item>, q: Path): Option<Content> {
    var i := Find(Targets(items), 0, q);
    if i < |items| then Get(t0, items[i].source + q[|items[i].target|..])
    else if Find(Sources(items), 0, q) < |items| then None
    else Get(t0, q)
  }

  ghost predicate RenamedTo(t: Tree, t0: Tree, items: seq<Item>) {
    forall q :: Get(t, q) == Simultaneous(t0, items, q)
  }

  // Removing overwritten targets before moving entries there is part of the simultaneous rename.
  lemma CommittedIsSimultaneous(t: Tree, t0: Tree, items: seq<Item>, gone: seq<Path>)
    requires Separate(items) && Shows(t, t0, items, Committed(items, |items|), gone)
    requires forall i :: 0 <= i < |gone| ==> gone[i] in Targets(items)
    ensures RenamedTo(t, t0, items)
  {
    assert Committed(items, |items|) == Targets(items);
    forall q ensures Get(t, q) == Simultaneous(t0, items, q) {
      assert Get(t, q) == Expected(t0, items, Targets(items), gone, q);
      var g := Find(gone, 0, q);
      if g < |gone| {
        var k :| 0 <= k < |items| && Targets(items)[k] == gone[g];
        FindComplete(Targets(items), 0, k, q);
      }
    }
  }

  // Nothing is below a source whose entry is at its temporary name.
  lemma SourceFree(t: Tree, t0: Tree, items: seq<Item>, places: seq<Path>, i: nat)
    requires Separate(items) && Staging(items, places) && Shows(t, t0, items, places, [])
    requires i < |items| && places[i] == items[i].temp
    ensures forall q :: q in t ==> !(items[i].source <= q)
  {
    forall q | q in t ensures !(items[i].source <= q) {
      assert Get(t, q) == Expected(t0, items, places, [], q);
      if items[i].source <= q {
        forall k | 0 <= k < |places| ensures !(places[k] <= q) {
          assert Apart(places[k], items[i].source);
        }
        FindNone(places, 0, q);
        SourceFound(items, i, q);
      }
    }
  }

  lemma PlaceFilled(t: Tree, t0: Tree, items: seq<Item>, places: seq<Path>, i: nat)
    requires |places| == |items| && PairwiseApart(places) && Shows(t, t0, items, places, []) && Present(t0, items)
    requires i < |items|
    ensures places[i] in t
  {
    FindUnique(places, 0, i, places[i]);
    assert Get(t, places[i]) == Expected(t0, items, places, [], places[i]);
    assert items[i].source + places[i][|places[i]|..] == items[i].source;
  }

  // Undoing one staged move.
  lemma UndoStep(t: Tree, t0: Tree, items: seq<Item>, places: seq<Path>, i: nat)
    requires Separate(items) && FreshTemps(t0, items) && Staging(items, places) && Shows(t, t0, items, places, [])
    requires i < |items| && places[i] == items[i].temp
    ensures Shows(Moved(t, items[i].temp, items[i].source), t0, items, places[i := items[i].source], [])
  {
    StagingApart(items, places);
    StagingApart(items, places[i := items[i].source]);
    MoveStep(t, t0, items, places, [], i, items[i].source);
  }

  lemma StageStep(t: Tree, t0: Tree, items: seq<Item>, item: Item)
    requires Separate(items + [item]) && Shows(t, t0, items, Temps(items), [])
    ensures Shows(Moved(t, item.source, item.temp), t0, items + [item], Temps(items + [item]), [])
  {
    var more, there := items + [item], Temps(items) + [item.source];
    forall k | 0 <= k < |items| ensures Apart(Temps(items)[k], item.source) && Apart(items[k].source, item.source) {
      assert Apart(more[k].temp, more[|items|].source) && Apart(more[k].source, more[|items|].source);
    }
    AddItem(t, t0, items, Temps(items), item);
    assert more[|items|] == item;
    StagingApart(more, there);
    StagingApart(more, Temps(more));
    assert there[|items| := item.temp] == Temps(more);
    MoveStep(t, t0, more, there, [], |items|, item.temp);
  }

  ghost predicate Ready(t0: Tree, items: seq<Item>) {
    Separate(items) && FreshTemps(t0, items) && Present(t0, items)
  }

  // A target that already holds its entry need not be counted as removed.
  lemma GoneCovered(t: Tree, t0: Tree, items: seq<Item>, places: seq<Path>, k: nat)
    requires |places| == |items| && k < |items| && Shows(t, t0, items, places, [places[k]])
    ensures Shows(t, t0, items, places, [])
  {
    forall q ensures Get(t, q) == Expected(t0, items, places, [], q) {
      assert Get(t, q) == Expected(t0, items, places, [places[k]], q);
      if places[k] <= q {
        FindComplete(places, 0, k, q);
      }
    }
  }

  lemma CommitStep(t: Tree, t0: Tree, items: seq<Item>, k: nat, gone: seq<Path>)
    requires Separate(items) && FreshTemps(t0, items) && k < |items|
    requires gone == [] || gone == [items[k].target]
    requires Shows(t, t0, items, Committed(items, k), gone)
    ensures Shows(Moved(t, items[k].temp, items[k].target), t0, items, Committed(items, k + 1), [])
  {
    var places, b := Committed(items, k), items[k].target;
    CommittedApart(items, k);
    CommittedApart(items, k + 1);
    assert places[k := b] == Committed(items, k + 1);
    MoveStep(t, t0, items, places, gone, k, b);
    if gone != [] {
      GoneCovered(Moved(t, items[k].temp, b), t0, items, Committed(items, k + 1), k);
    }
  }

  lemma TargetApart(items: seq<Item>, k: nat)
    requires Separate(items) && k < |items|
    ensures forall i :: 0 <= i < |items| ==> Apart(Committed(items, k)[i], items[k].target)
  {
  }

  // The target of an entry is free when it was vacated by another entry, was empty, or has been removed.
  lemma TargetIsFree(t: Tree, t0: Tree, items: seq<Item>, k: nat, gone: seq<Path>)
    requires Separate(items) && k < |items| && Shows(t, t0, items, Committed(items, k), gone)
    requires items[k].target in gone || Vacated(t0, items, items[k].target)
    ensures forall q :: q in t ==> !(items[k].target <= q)
  {
    var places, b := Committed(items, k), items[k].target;
    TargetApart(items, k);
    forall q | q in t ensures !(b <= q) {
      assert Get(t, q) == Expected(t0, items, places, gone, q);
      if b <= q {
        FindNone(places, 0, q);
        if b in gone {
          var g :| 0 <= g < |gone| && gone[g] == b;
          FindComplete(gone, 0, g, q);
        } else if exists j :: 0 <= j < |items| && items[j].source == b {
          var j :| 0 <= j < |items| && items[j].source == b;
          SourceFound(items, j, q);
        }
      }
    }
  }

  // The first k entries are at their targets, the others whole at their temporary names, and nothing
  // but the k-th target is damaged.
  ghost predicate StoppedAt(t: Tree, t0: Tree, items: seq<Item>, k: nat)
    requires k < |items|
  {
    forall q :: !(items[k].target <= q) ==> Get(t, q) == Expected(t0, items, Committed(items, k), [], q)
  }

  lemma ShowsStopped(t: Tree, u: Tree, t0: Tree, items: seq<Item>, k: nat)
    requires k < |items| && Shows(t, t0, items, Committed(items, k), [])
    requires forall q :: !(items[k].target <= q) ==> Get(u, q) == Get(t, q)
    ensures StoppedAt(u, t0, items, k)
  {
    forall q | !(items[k].target <= q) ensures Get(u, q) == Expected(t0, items, Committed(items, k), [], q) {
      assert Get(t, q) == Expected(t0, items, Committed(items, k), [], q);
    }
  }

  lemma RemoveTarget(t: Tree, t0: Tree, items: seq<Item>, k: nat)
    requires Ready(t0, items) && k < |items| && Shows(t, t0, items, Committed(items, k), [])
    ensures Shows(Removed(t, items[k].target), t0, items, Committed(items, k), [items[k].target])
  {
    TargetApart(items, k);
    RemoveStep(t, t0, items, Committed(items, k), [], items[k].target);
    assert [] + [items[k].target] == [items[k].target];
  }

  lemma CommitNext(t: Tree, t0: Tree, items: seq<Item>, k: nat, gone: seq<Path>)
    requires Ready(t0, items) && k < |items| && Shows(t, t0, items, Committed(items, k), gone)
    requires gone == [items[k].target] || (gone == [] && Vacated(t0, items, items[k].target))
    ensures Apart(items[k].temp, items[k].target) && forall q :: q in t ==> !(items[k].target <= q)
    ensures Shows(Moved(t, items[k].temp, items[k].target), t0, items, Committed(items, k + 1), [])
  {
    TargetIsFree(t, t0, items, k, gone);
    CommitStep(t, t0, items, k, gone);
  }

  ghost predicate MayReplace(t0: Tree, items: seq<Item>, i: nat, overwrite: bool)
    requires i < |items|
  {
    overwrite || Vacated(t0, items, items[i].target)
  }

  ghost predicate MayReplaceAll(t0: Tree, items: seq<Item>, overwrite: bool) {
    forall i :: 0 <= i < |items| ==> MayReplace(t0, items, i, overwrite)
  }

  lemma CommitStart(t: Tree, t0: Tree, items: seq<Item>)
    requires Shows(t, t0, items, Temps(items), [])
    ensures Shows(t, t0, items, Committed(items, 0), [])
  {
    assert Committed(items, 0) == Temps(items);
  }

  lemma CommitEnd(t: Tree, t0: Tree, items: seq<Item>)
    requires Ready(t0, items) && Shows(t, t0, items, Committed(items, |items|), [])
    ensures RenamedTo(t, t0, items)
  {
    CommittedIsSimultaneous(t, t0, items, []);
  }

  /******* A batch *******/

  // The name of an entry's temporary place.
  function Tag(item: Item): Name
    requires item.temp != []
  {
    item.temp[|item.temp| - 1]
  }

  // Temporary place and target are beside the source.
  predicate Beside(item: Item) {
    && item.temp != [] && Parent(item.temp) == Parent(item.source)
    && item.target != [] && Parent(item.target) == Parent(item.source) && item.source != item.target
  }

  // Temporary names occur nowhere else.
  ghost predicate NewTag(t0: Tree, items: seq<Item>, i: nat)
    requires i < |items| && items[i].temp != []
  {
    && (forall q :: q in t0 ==> Tag(items[i]) !in q)
    && (forall j :: 0 <= j < |items| ==> Tag(items[i]) !in items[j].target)
  }

  ghost predicate ItemOk(t0: Tree, items: seq<Item>, i: nat) {
    i < |items| && items[i].source in t0 && Beside(items[i]) && NewTag(t0, items, i)
  }

  predicate Different(a: Item, b: Item) {
    && a.source != b.source && a.target != b.target
    && a.temp != [] && b.temp != [] && Tag(a) != Tag(b)
  }

  // The moving entries of an accepted plan.
  ghost predicate Batch(t0: Tree, items: seq<Item>) {
    && (forall i: nat :: i < |items| ==> ItemOk(t0, items, i))
    && (forall i, j {:trigger Different(items[i], items[j])} ::
          0 <= i < |items| && 0 <= j < |items| && i != j ==> Different(items[i], items[j]))
  }

  predicate Above(p: Path, q: Path) { p <= q && p != q }

  // No source is the root of the file system, and no source or target is a proper ancestor of another
  // entry's source.
  ghost predicate Movable(items: seq<Item>) {
    && (forall i :: 0 <= i < |items| ==> items[i].source != [])
    && (forall i, j {:trigger Above(items[i].source, items[j].source)} ::
          0 <= i < |items| && 0 <= j < |items| && i != j ==> !Above(items[i].source, items[j].source))
    && (forall i, j {:trigger Above(items[i].target, items[j].source)} ::
          0 <= i < |items| && 0 <= j < |items| && i != j ==> !Above(items[i].target, items[j].source))
  }

  // The prefixes of a path that are not the path itself are prefixes of its parent.
  lemma AboveParent(p: Path, q: Path)
    requires q != []
    ensures Above(p, q) <==> p <= Parent(q)
  {
    if p <= Parent(q) {
      assert p == Parent(q)[..|p|] == q[..|p|];
    }
  }

  lemma SplitLast(p: Path)
    requires p != []
    ensures p == Parent(p) + [p[|p| - 1]]
  {
  }

  lemma TempHasTag(items: seq<Item>, t0: Tree, i: nat, j: nat)
    requires Batch(t0, items) && i < |items| && j < |items|
    ensures items[i].temp != [] && Tag(items[i]) in items[i].temp && Tag(items[i]) !in items[j].source && Tag(items[i]) !in items[j].target
    ensures i != j ==> Tag(items[i]) !in items[j].temp
  {
    assert ItemOk(t0, items, i) && ItemOk(t0, items, j);
    assert i != j ==> Different(items[i], items[j]);
    SplitLast(items[i].temp);
    SplitLast(items[j].temp);
    assert forall x :: x in Parent(items[j].source) ==> x in items[j].source;
  }

  lemma SiblingsApart(p: Path, q: Path)
    requires p != [] && q != [] && Parent(p) == Parent(q) && p != q
    ensures Apart(p, q)
  {
    SplitLast(p);
    SplitLast(q);
    if |p| == |q| {
      assert p <= q ==> p == q;
      assert q <= p ==> p == q;
    }
  }

  // A path whose parent is apart from nothing above q: two paths beside each other's sources.
  lemma BesideApart(p: Path, s: Path, q: Path, u: Path)
    requires p != [] && q != [] && s != [] && u != [] && Parent(p) == Parent(s) && Parent(q) == Parent(u)
    requires p != q && !Above(p, u) && !Above(q, s)
    ensures Apart(p, q)
  {
    AboveParent(p, u);
    AboveParent(p, q);
    AboveParent(q, s);
    AboveParent(q, p);
  }

  lemma MovableApart(t0: Tree, items: seq<Item>, i: nat, j: nat)
    requires Batch(t0, items) && Movable(items) && i < |items| && j < |items| && i != j
    ensures Apart(items[i].source, items[j].source) && Apart(items[i].target, items[j].target)
    ensures items[i].source == items[j].target || Apart(items[i].source, items[j].target)
  {
    var a, b := items[i], items[j];
    assert ItemOk(t0, items, i) && ItemOk(t0, items, j) && Different(a, b);
    assert !Above(a.source, b.source) && !Above(b.source, a.source) && !Above(a.target, b.source) && !Above(b.target, a.source);
    BesideApart(a.target, a.source, b.target, b.source);
    if a.source != b.target {
      BesideApart(a.source, a.source, b.target, b.source);
    }
  }

  lemma MovableTempApart(t0: Tree, items: seq<Item>, i: nat, j: nat)
    requires Batch(t0, items) && Movable(items) && i < |items| && j < |items|
    ensures Apart(items[i].temp, items[j].source) && Apart(items[i].temp, items[j].target)
    ensures i != j ==> Apart(items[i].temp, items[j].temp)
  {
    var a, b := items[i], items[j];
    assert ItemOk(t0, items, i) && ItemOk(t0, items, j);
    TempHasTag(items, t0, i, j);
    TempHasTag(items, t0, j, i);
    assert i != j ==> !Above(b.source, a.source) && !Above(b.target, a.source);
    Tagged(a.temp, b.source, Tag(a));
    Tagged(a.temp, b.target, Tag(a));
    if i != j {
      Tagged(a.temp, b.temp, Tag(a));
      Tagged(b.temp, a.temp, Tag(b));
    }
    AboveParent(b.source, a.temp);
    AboveParent(b.source, a.source);
    AboveParent(b.target, a.temp);
    AboveParent(b.target, a.source);
  }

  // A path with a name that another lacks is no prefix of it.
  lemma Tagged(p: Path, q: Path, x: Name)
    requires x in p && x !in q
    ensures !(p <= q)
  {
    var i :| 0 <= i < |p| && p[i] == x;
    assert i < |q| ==> q[i] in q;
  }

  lemma MovableReady(t0: Tree, items: seq<Item>)
    requires Batch(t0, items) && Movable(items)
    ensures Ready(t0, items)
  {
    forall i, j | 0 <= i < |items| && 0 <= j < |items| && i != j ensures
      && Apart(items[i].source, items[j].source) && Apart(items[i].target, items[j].target) && Apart(items[i].temp, items[j].temp)
    {
      MovableApart(t0, items, i, j);
      MovableTempApart(t0, items, i, j);
    }
    forall i, j | 0 <= i < |items| && 0 <= j < |items| ensures
      && Apart(items[i].temp, items[j].source) && Apart(items[i].temp, items[j].target)
      && (items[i].source == items[j].target || Apart(items[i].source, items[j].target))
    {
      MovableTempApart(t0, items, i, j);
      if i != j {
        MovableApart(t0, items, i, j);
      } else {
        assert ItemOk(t0, items, i);
        SiblingsApart(items[i].source, items[i].target);
      }
    }
    forall i | 0 <= i < |items| ensures Apart(items[i].source, items[i].target) {
      assert ItemOk(t0, items, i);
      SiblingsApart(items[i].source, items[i].target);
    }
    forall i | 0 <= i < |items| ensures items[i].source in t0 {
      assert ItemOk(t0, items, i);
    }
    forall i, q | 0 <= i < |items| && q in t0 ensures !(items[i].temp <= q) {
      TempHasTag(items, t0, i, i);
      assert ItemOk(t0, items, i);
      Tagged(items[i].temp, q, Tag(items[i]));
    }
  }

  /******* The trees of a run *******/

  // A successful staging move.
  ghost predicate StageMove(t: Tree, item: Item, t': Tree) {
    item.source in t && Apart(item.source, item.temp) && t' == Moved(t, item.source, item.temp)
  }

  ghost predicate StageMoveAt(items: seq<Item>, st: seq<Tree>, k: nat)
    requires k < |items| && k + 1 < |st|
  {
    StageMove(st[k], items[k], st[k + 1])
  }

  // st are the trees of successful staging moves of the first entries.
  ghost predicate StageRun(t0: Tree, items: seq<Item>, st: seq<Tree>) {
    && 0 < |st| <= |items| + 1 && st[0] == t0
    && forall k: nat :: k + 1 < |st| ==> StageMoveAt(items, st, k)
  }

  // The tree in which an entry is moved to its target.
  function CommitBase(t: Tree, item: Item, overwrite: bool): Tree { if overwrite then Removed(t, item.target) else t }

  // A successful commit.
  ghost predicate CommitMove(t: Tree, item: Item, overwrite: bool, t': Tree) {
    var base := CommitBase(t, item, overwrite);
    item.temp in base && Apart(item.temp, item.target) && t' == Moved(base, item.temp, item.target)
  }

  ghost predicate CommitMoveAt(items: seq<Item>, overwrite: bool, ct: seq<Tree>, k: nat)
    requires k < |items| && k + 1 < |ct|
  {
    CommitMove(ct[k], items[k], overwrite, ct[k + 1])
  }

  // All entries staged, the first ones committed.
  ghost predicate CommitRun(t0: Tree, items: seq<Item>, overwrite: bool, st: seq<Tree>, ct: seq<Tree>) {
    && StageRun(t0, items, st) && |st| == |items| + 1
    && 0 < |ct| <= |items| + 1 && ct[0] == st[|items|]
    && forall k: nat :: k + 1 < |ct| ==> CommitMoveAt(items, overwrite, ct, k)
  }

  // What is at a path after a move was somewhere before it.
  lemma MovedFrom(t: Tree, a: Path, b: Path, q: Path) returns (p: Path)
    requires Apart(a, b) && q in Moved(t, a, b)
    ensures p in t && Moved(t, a, b)[q] == t[p]
    ensures if b <= q then p == a + q[|b|..] && q == b + q[|b|..] else p == q && !(a <= q)
  {
    MovedGet(t, a, b, q);
    p := if b <= q then a + q[|b|..] else q;
  }

  // Moving back undoes a move to a free name.
  lemma MovedBack(t: Tree, a: Path, b: Path)
    requires Apart(a, b) && forall q :: q in t ==> !(b <= q)
    ensures Moved(Moved(t, a, b), b, a) == t
  {
    forall q ensures Get(Moved(Moved(t, a, b), b, a), q) == Get(t, q) {
      MovedBackGet(t, a, b, q);
    }
    SameGets(Moved(Moved(t, a, b), b, a), t);
  }

  lemma MovedBackGet(t: Tree, a: Path, b: Path, q: Path)
    requires Apart(a, b) && !(b <= q && q in t)
    ensures Get(Moved(Moved(t, a, b), b, a), q) == Get(t, q)
  {
    var p := if a <= q then b + q[|a|..] else q;
    MovedGet(Moved(t, a, b), b, a, q);
    MovedGet(t, a, b, p);
    if a <= q {
      assert p[|b|..] == q[|a|..] && a + q[|a|..] == q;
    }
  }

  lemma SameGets(t: Tree, u: Tree)
    requires forall q :: Get(t, q) == Get(u, q)
    ensures t == u
  {
    forall q ensures (q in t) == (q in u) && (q in t ==> t[q] == u[q]) {
      assert Get(t, q) == Get(u, q);
    }
  }

  lemma MovedHas(t: Tree, a: Path, b: Path)
    requires Apart(a, b) && a in t
    ensures b in Moved(t, a, b) && forall q :: q in Moved(t, a, b) ==> !(a <= q)
  {
    MovedGet(t, a, b, b);
    assert a + b[|b|..] == a;
    forall q ensures a <= q ==> q !in Moved(t, a, b) {
      MovedGet(t, a, b, q);
    }
  }

  // Moving to a sibling keeps a tree closed.
  lemma ClosedMoved(t: Tree, a: Path, b: Path)
    requires Closed(t) && a != [] && b != [] && Parent(a) == Parent(b) && a != b && a in t
    ensures Apart(a, b) && Closed(Moved(t, a, b)) && Parent(b) in t
  {
    SiblingsApart(a, b);
    var u := Moved(t, a, b);
    assert Parent(a) <= a;
    forall p, q | q in u && p <= q ensures p in u {
      var from := MovedFrom(t, a, b, q);
      MovedGet(t, a, b, p);
      if b <= p {
        assert a + p[|b|..] <= from;
      } else if b <= q {
        AboveParent(p, b);
        AboveParent(p, a);
      }
    }
  }

  lemma ClosedRemoved(t: Tree, r: Path)
    requires Closed(t)
    ensures Closed(Removed(t, r))
  {
  }

  /******* What a simultaneous rename conserves *******/

  // Where a path goes.
  function Dest(items: seq<Item>, p: Path): Path {
    var i := Find(Sources(items), 0, p);
    if i < |items| then items[i].target + p[|items[i].source|..] else p
  }

  // Only content below a target that no entry vacates is replaced.
  ghost predicate Kept(items: seq<Item>, p: Path) {
    Find(Sources(items), 0, p) < |items| || Find(Targets(items), 0, p) == |items|
  }

  lemma DestGet(t: Tree, t0: Tree, items: seq<Item>, p: Path)
    requires Separate(items) && RenamedTo(t, t0, items) && Kept(items, p)
    ensures Get(t, Dest(items, p)) == Get(t0, p)
  {
    var i, q := Find(Sources(items), 0, p), Dest(items, p);
    assert Get(t, q) == Simultaneous(t0, items, q);
    if i < |items| {
      var rest := p[|items[i].source|..];
      assert Targets(items)[i] <= q;
      FindUnique(Targets(items), 0, i, q);
      assert q[|items[i].target|..] == rest && items[i].source + rest == p;
    }
  }

  lemma DestInjective(items: seq<Item>, p: Path, q: Path)
    requires Separate(items) && Kept(items, p) && Kept(items, q) && Dest(items, p) == Dest(items, q)
    ensures p == q
  {
    OriginOfDest(items, p);
    OriginOfDest(items, q);
  }

  // Where the content of a path comes from.
  function Origin(items: seq<Item>, q: Path): Path {
    var i := Find(Targets(items), 0, q);
    if i < |items| then items[i].source + q[|items[i].target|..] else q
  }

  lemma OriginOfDest(items: seq<Item>, p: Path)
    requires Separate(items) && Kept(items, p)
    ensures Origin(items, Dest(items, p)) == p
  {
    var i, q := Find(Sources(items), 0, p), Dest(items, p);
    if i < |items| {
      var rest := p[|items[i].source|..];
      assert Targets(items)[i] <= q;
      FindUnique(Targets(items), 0, i, q);
      assert q[|items[i].target|..] == rest && items[i].source + rest == p;
    }
  }

  lemma OriginKept(t: Tree, t0: Tree, items: seq<Item>, q: Path)
    requires Separate(items) && RenamedTo(t, t0, items) && q in t
    ensures Kept(items, Origin(items, q)) && Dest(items, Origin(items, q)) == q
    ensures Get(t0, Origin(items, q)) == Get(t, q)
  {
    var i, p := Find(Targets(items), 0, q), Origin(items, q);
    assert Get(t, q) == Simultaneous(t0, items, q);
    if i < |items| {
      var rest := q[|items[i].target|..];
      assert Sources(items)[i] <= p;
      FindUnique(Sources(items), 0, i, p);
      assert p[|items[i].source|..] == rest && items[i].target + rest == q;
    }
  }

  // A rename is one-to-one between what it keeps of the old tree and the new tree, and moves content
  // unchanged: nothing is duplicated, nothing is made up, and only overwritten targets are lost.
  lemma RenameConserves(t: Tree, t0: Tree, items: seq<Item>)
    requires Separate(items) && RenamedTo(t, t0, items)
    ensures forall p :: p in t0 && Kept(items, p) ==> Get(t, Dest(items, p)) == Some(t0[p])
    ensures forall p, q :: Kept(items, p) && Kept(items, q) && Dest(items, p) == Dest(items, q) ==> p == q
    ensures forall q :: q in t ==> Origin(items, q) in t0 && Kept(items, Origin(items, q)) && Dest(items, Origin(items, q)) == q
  {
    forall p | p in t0 && Kept(items, p) ensures Get(t, Dest(items, p)) == Some(t0[p]) {
      DestGet(t, t0, items, p);
    }
    forall p, q | Kept(items, p) && Kept(items, q) && Dest(items, p) == Dest(items, q) ensures p == q {
      DestInjective(items, p, q);
    }
    forall q | q in t ensures Origin(items, q) in t0 && Kept(items, Origin(items, q)) && Dest(items, Origin(items, q)) == q {
      OriginKept(t, t0, items, q);
    }
  }

  function Inverse(items: seq<Item>): seq<Item> {
    seq(|items|, i requires 0 <= i < |items| => Item(items[i].target, items[i].temp, items[i].source))
  }

  // Without overwriting, renaming back undoes the rename, for swaps and cycles too.
  lemma InverseUndoes(u: Tree, t: Tree, t0: Tree, items: seq<Item>)
    requires Separate(items) && RenamedTo(t, t0, items) && RenamedTo(u, t, Inverse(items))
    requires forall i :: 0 <= i < |items| ==> Vacated(t0, items, items[i].target)
    ensures u == t0
  {
    assert Targets(Inverse(items)) == Sources(items) && Sources(Inverse(items)) == Targets(items);
    forall p ensures Get(u, p) == Get(t0, p) {
      assert Get(u, p) == Simultaneous(t, Inverse(items), p);
      if Find(Sources(items), 0, p) < |items| || Find(Targets(items), 0, p) == |items| {
        DestGet(t, t0, items, p);
      } else {
        var i := Find(Targets(items), 0, p);
        assert Vacated(t0, items, items[i].target);
        if exists j :: 0 <= j < |items| && items[j].source == items[i].target {
          var j :| 0 <= j < |items| && items[j].source == items[i].target;
          FindComplete(Sources(items), 0, j, p);
        }
      }
    }
    forall p ensures (p in u) == (p in t0) && (p in u ==> u[p] == t0[p]) {
      assert Get(u, p) == Get(t0, p);
    }
  }
}
