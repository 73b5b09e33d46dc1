/**
 Exactly which batches the staged rename realises.

 When a source or target of a batch is a proper ancestor of another source, a run of the staged rename
 either stops with an error or loses an entry.  The proof follows the temporary names, which mark the
 paths that were moved, and one entry's content, which is nowhere else when contents are distinct.
 */
module RenameNesting {
  import opened Common
  import opened RenameModel

  // No two paths of the tree hold the same content.
  ghost predicate Injective(t: Tree) { forall p, q :: p in t && q in t && t[p] == t[q] ==> p == q }

  /******* One move *******/

  // Two prefixes of a path are comparable.
  lemma Comparable(a: Path, b: Path, p: Path)
    requires a <= p && b <= p
    ensures a <= b || b <= a
  {
    if |a| <= |b| {
      assert a == p[..|a|] && b[..|a|] == p[..|a|];
    } else {
      assert b == p[..|b|] && a[..|b|] == p[..|b|];
    }
  }

  // Nothing is below r.
  ghost predicate Bare(t: Tree, r: Path) { forall q :: q in t ==> !(r <= q) }

  // The name x occurs in no path.
  ghost predicate Unused(t: Tree, x: Name) { forall q :: q in t ==> x !in q }

  // Every path with the name x is below r.
  ghost predicate Marked(t: Tree, x: Name, r: Path) { forall q :: q in t && x in q ==> r <= q }

  // Every path with the name x has the name y.
  ghost predicate Follows(t: Tree, x: Name, y: Name) { forall q :: q in t && x in q ==> y in q }

  lemma MoveBare(t: Tree, a: Path, b: Path, r: Path)
    requires Apart(a, b) && Apart(b, r) && Bare(t, r)
    ensures Bare(Moved(t, a, b), r)
  {
    forall q | q in Moved(t, a, b) ensures !(r <= q) {
      var p := MovedFrom(t, a, b, q);
      if b <= q && r <= q {
        Comparable(b, r, q);
      }
    }
  }

  lemma MoveUnused(t: Tree, a: Path, b: Path, x: Name)
    requires Apart(a, b) && Unused(t, x) && x !in b
    ensures Unused(Moved(t, a, b), x)
  {
    forall q | q in Moved(t, a, b) ensures x !in q {
      var p := MovedFrom(t, a, b, q);
      assert x !in p;
    }
  }

  lemma MoveMarks(t: Tree, a: Path, b: Path, x: Name)
    requires Apart(a, b) && Unused(t, x)
    ensures Marked(Moved(t, a, b), x, b)
  {
    forall q | q in Moved(t, a, b) && x in q ensures b <= q {
      var p := MovedFrom(t, a, b, q);
    }
  }

  lemma MoveMarked(t: Tree, a: Path, b: Path, x: Name, r: Path)
    requires Apart(a, b) && x !in b && Marked(t, x, r) && (r <= b || Apart(a, r))
    ensures Marked(Moved(t, a, b), x, r)
  {
    forall q | q in Moved(t, a, b) && x in q ensures r <= q {
      var p := MovedFrom(t, a, b, q);
      if b <= q && r <= p {
        Comparable(a, r, p);
      }
    }
  }

  lemma MoveStartsFollowing(t: Tree, a: Path, b: Path, x: Name, y: Name)
    requires Apart(a, b) && Marked(t, x, a) && y in b
    ensures Follows(Moved(t, a, b), x, y)
  {
    forall q | q in Moved(t, a, b) && x in q ensures y in q {
      var p := MovedFrom(t, a, b, q);
    }
  }

  lemma MoveFollows(t: Tree, a: Path, b: Path, x: Name, y: Name)
    requires Apart(a, b) && Follows(t, x, y) && x !in b && y !in a
    ensures Follows(Moved(t, a, b), x, y)
  {
    forall q | q in Moved(t, a, b) && x in q ensures y in q {
      var p := MovedFrom(t, a, b, q);
      assert x in p;
    }
  }

  // The content v is at r or nowhere.
  ghost predicate OnlyAt(t: Tree, v: Content, r: Path) { forall q :: q in t && t[q] == v ==> q == r }

  ghost predicate Nowhere(t: Tree, v: Content) { forall q :: q in t ==> t[q] != v }

  lemma MoveElsewhere(t: Tree, a: Path, b: Path, v: Content, r: Path)
    requires Apart(a, b) && OnlyAt(t, v, r) && !(a <= r)
    ensures OnlyAt(Moved(t, a, b), v, r)
  {
    forall q | q in Moved(t, a, b) && Moved(t, a, b)[q] == v ensures q == r {
      var p := MovedFrom(t, a, b, q);
      assert p == r;
    }
  }

  lemma MoveThere(t: Tree, a: Path, b: Path, v: Content)
    requires Apart(a, b) && OnlyAt(t, v, a)
    ensures OnlyAt(Moved(t, a, b), v, b)
  {
    forall q | q in Moved(t, a, b) && Moved(t, a, b)[q] == v ensures q == b {
      var p := MovedFrom(t, a, b, q);
      assert p == a;
    }
  }

  lemma MoveNowhere(t: Tree, a: Path, b: Path, v: Content)
    requires Apart(a, b) && Nowhere(t, v)
    ensures Nowhere(Moved(t, a, b), v)
  {
    forall q | q in Moved(t, a, b) ensures Moved(t, a, b)[q] != v {
      var p := MovedFrom(t, a, b, q);
    }
  }

  /******* A source above another source *******/

  // What a path above an entry's source is to the places beside it.
  lemma AboveBeside(r: Path, item: Item)
    requires Beside(item)
    ensures Above(r, item.source) ==> r <= item.temp && r <= item.target
    ensures item.source != [] && !(r <= item.source) ==> !Above(r, item.temp) && !Above(r, item.target)
  {
    AboveParent(r, item.temp);
    AboveParent(r, item.target);
    if item.source != [] {
      AboveParent(r, item.source);
    }
  }

  lemma TempIs(t0: Tree, items: seq<Item>, i: nat)
    requires Batch(t0, items) && i < |items|
    ensures Beside(items[i]) && items[i].source in t0 && NewTag(t0, items, i)
  {
    assert ItemOk(t0, items, i);
  }

  // A temporary name occurs nowhere before it is used.
  lemma {:induction false} TagUnused(t0: Tree, items: seq<Item>, st: seq<Tree>, k: nat, j: nat)
    requires Batch(t0, items) && StageRun(t0, items, st) && k < |st| && k <= j < |items|
    ensures items[j].temp != [] && Unused(st[k], Tag(items[j]))
  {
    TempIs(t0, items, j);
    if k > 0 {
      TagUnused(t0, items, st, k - 1, j);
      TempHasTag(items, t0, j, k - 1);
      assert StageMoveAt(items, st, k - 1);
      MoveUnused(st[k - 1], items[k - 1].source, items[k - 1].temp, Tag(items[j]));
    }
  }

  lemma StageMoveBares(t: Tree, item: Item, t': Tree)
    requires StageMove(t, item, t')
    ensures Bare(t', item.source)
  {
    MovedHas(t, item.source, item.temp);
  }

  lemma StageMoveKeepsBare(t0: Tree, items: seq<Item>, i: nat, m: nat, t: Tree, t': Tree)
    requires Batch(t0, items) && i < |items| && m < |items| && StageMove(t, items[m], t') && Bare(t, items[i].source)
    ensures Bare(t', items[i].source)
  {
    StagedTempApart(t0, items, i, m);
    MoveBare(t, items[m].source, items[m].temp, items[i].source);
  }

  // A source stays empty once it has been staged.
  lemma {:induction false} StagedBare(t0: Tree, items: seq<Item>, st: seq<Tree>, i: nat, k: nat)
    requires Batch(t0, items) && StageRun(t0, items, st) && i < k < |st|
    ensures Bare(st[k], items[i].source)
    decreases k
  {
    assert StageMoveAt(items, st, k - 1);
    if k == i + 1 {
      StageMoveBares(st[k - 1], items[i], st[k]);
    } else {
      StagedBare(t0, items, st, i, k - 1);
      StageMoveKeepsBare(t0, items, i, k - 1, st[k - 1], st[k]);
    }
  }

  // The temporary place of an entry whose source is not below r is apart from r.
  lemma StagedTempApart(t0: Tree, items: seq<Item>, i: nat, m: nat)
    requires Batch(t0, items) && i < |items| && m < |items| && !(items[i].source <= items[m].source) && items[m].source != []
    ensures Apart(items[m].temp, items[i].source)
  {
    TempIs(t0, items, m);
    TempHasTag(items, t0, m, i);
    AboveBeside(items[i].source, items[m]);
    Tagged(items[m].temp, items[i].source, Tag(items[m]));
  }

  // A source that is staged is not below one staged before it.
  lemma LaterSourceNotBelow(t0: Tree, items: seq<Item>, st: seq<Tree>, m: nat, i: nat)
    requires Batch(t0, items) && StageRun(t0, items, st) && m < i && i + 1 < |st|
    ensures !(items[m].source <= items[i].source)
  {
    StagedBare(t0, items, st, m, i);
    assert StageMoveAt(items, st, i);
  }

  // What carries the temporary name of an entry below a source stays below that source until it is
  // staged itself.
  lemma {:induction false} MarkedBelow(t0: Tree, items: seq<Item>, st: seq<Tree>, i: nat, j: nat, k: nat)
    requires Batch(t0, items) && StageRun(t0, items, st) && j < k <= i && i + 1 < |st| && Above(items[i].source, items[j].source)
    ensures items[j].temp != [] && Marked(st[k], Tag(items[j]), items[i].source)
    decreases k
  {
    var item, r := items[k - 1], items[i].source;
    TempHasTag(items, t0, j, k - 1);
    TempIs(t0, items, k - 1);
    AboveBeside(r, item);
    if k == j + 1 {
      TagUnused(t0, items, st, j, j);
      assert StageMoveAt(items, st, j);
      MoveMarks(st[k - 1], item.source, item.temp, Tag(items[j]));
    } else {
      MarkedBelow(t0, items, st, i, j, k - 1);
      LaterSourceNotBelow(t0, items, st, k - 1, i);
      assert StageMoveAt(items, st, k - 1);
      MoveMarked(st[k - 1], item.source, item.temp, Tag(items[j]), r);
    }
  }

  // From then on it carries that source's temporary name too.
  lemma {:induction false} StagedFollows(t0: Tree, items: seq<Item>, st: seq<Tree>, i: nat, j: nat, k: nat)
    requires Batch(t0, items) && StageRun(t0, items, st) && j < i < k < |st| && Above(items[i].source, items[j].source)
    ensures items[i].temp != [] && items[j].temp != [] && Follows(st[k], Tag(items[j]), Tag(items[i]))
    decreases k
  {
    var item := items[k - 1];
    TempHasTag(items, t0, j, k - 1);
    TempHasTag(items, t0, i, k - 1);
    if k == i + 1 {
      MarkedBelow(t0, items, st, i, j, i);
      assert StageMoveAt(items, st, i);
      MoveStartsFollowing(st[k - 1], item.source, item.temp, Tag(items[j]), Tag(items[i]));
    } else {
      StagedFollows(t0, items, st, i, j, k - 1);
      assert StageMoveAt(items, st, k - 1);
      MoveFollows(st[k - 1], item.source, item.temp, Tag(items[j]), Tag(items[i]));
    }
  }

  lemma {:induction false} CommitFollows(t0: Tree, items: seq<Item>, overwrite: bool, st: seq<Tree>, ct: seq<Tree>, i: nat, j: nat, k: nat)
    requires Batch(t0, items) && CommitRun(t0, items, overwrite, st, ct) && k <= j < i < |items| && k < |ct|
    requires Above(items[i].source, items[j].source)
    ensures items[i].temp != [] && items[j].temp != [] && Follows(ct[k], Tag(items[j]), Tag(items[i]))
  {
    if k == 0 {
      StagedFollows(t0, items, st, i, j, |items|);
    } else {
      CommitFollows(t0, items, overwrite, st, ct, i, j, k - 1);
      var item := items[k - 1];
      TempHasTag(items, t0, j, k - 1);
      TempHasTag(items, t0, i, k - 1);
      assert CommitMoveAt(items, overwrite, ct, k - 1);
      MoveFollows(CommitBase(ct[k - 1], item, overwrite), item.temp, item.target, Tag(items[j]), Tag(items[i]));
    }
  }

  // So a batch with a source above another source never runs to its end.
  lemma NestedSourcesStop(t0: Tree, items: seq<Item>, overwrite: bool, st: seq<Tree>, ct: seq<Tree>, i: nat, j: nat)
    requires Batch(t0, items) && CommitRun(t0, items, overwrite, st, ct)
    requires i < |items| && j < |items| && i != j && Above(items[i].source, items[j].source)
    ensures |ct| <= |items|
  {
    if i < j {
      LaterSourceNotBelow(t0, items, st, i, j);
    } else if j < |ct| {
      CommitFollows(t0, items, overwrite, st, ct, i, j, j);
      TempHasTag(items, t0, i, j);
      TempHasTag(items, t0, j, j);
      assert j + 1 < |ct| ==> CommitMoveAt(items, overwrite, ct, j);
    }
  }

  /******* A target above another source *******/

  ghost predicate SourcesApart(items: seq<Item>) {
    forall i, j {:trigger Above(items[i].source, items[j].source)} ::
      0 <= i < |items| && 0 <= j < |items| && i != j ==> !Above(items[i].source, items[j].source)
  }

  // Another source is apart from an entry's temporary place and not above its source.
  lemma SourceVsTemp(t0: Tree, items: seq<Item>, m: nat, j: nat)
    requires Batch(t0, items) && SourcesApart(items) && m < |items| && j < |items| && m != j && items[j].source != []
    ensures Apart(items[m].source, items[j].temp) && !(items[m].source <= items[j].source)
  {
    TempIs(t0, items, j);
    TempHasTag(items, t0, j, m);
    assert Different(items[m], items[j]) && !Above(items[m].source, items[j].source);
    AboveBeside(items[m].source, items[j]);
    Tagged(items[j].temp, items[m].source, Tag(items[j]));
  }

  lemma TempVsTemp(t0: Tree, items: seq<Item>, m: nat, j: nat)
    requires Batch(t0, items) && m < |items| && j < |items| && m != j
    ensures Apart(items[m].temp, items[j].temp) && !(items[m].temp <= items[j].target)
  {
    TempHasTag(items, t0, j, m);
    TempHasTag(items, t0, m, j);
    Tagged(items[j].temp, items[m].temp, Tag(items[j]));
    Tagged(items[m].temp, items[j].temp, Tag(items[m]));
    Tagged(items[m].temp, items[j].target, Tag(items[m]));
  }

  // With sources apart, what carries an entry's temporary name is below its temporary place.
  lemma {:induction false} StagedMark(t0: Tree, items: seq<Item>, st: seq<Tree>, j: nat, k: nat)
    requires Batch(t0, items) && SourcesApart(items) && StageRun(t0, items, st) && j < k < |st| && items[j].source != []
    ensures items[j].temp != [] && Marked(st[k], Tag(items[j]), items[j].temp)
    decreases k
  {
    var item := items[k - 1];
    TempHasTag(items, t0, j, k - 1);
    if k == j + 1 {
      TagUnused(t0, items, st, j, j);
      assert StageMoveAt(items, st, j);
      MoveMarks(st[k - 1], item.source, item.temp, Tag(items[j]));
    } else {
      StagedMark(t0, items, st, j, k - 1);
      SourceVsTemp(t0, items, k - 1, j);
      assert StageMoveAt(items, st, k - 1);
      MoveMarked(st[k - 1], item.source, item.temp, Tag(items[j]), items[j].temp);
    }
  }

  lemma {:induction false} CommitMark(t0: Tree, items: seq<Item>, overwrite: bool, st: seq<Tree>, ct: seq<Tree>, j: nat, k: nat)
    requires Batch(t0, items) && SourcesApart(items) && CommitRun(t0, items, overwrite, st, ct) && k <= j < |items| && k < |ct|
    requires items[j].source != []
    ensures items[j].temp != [] && Marked(ct[k], Tag(items[j]), items[j].temp)
  {
    if k == 0 {
      StagedMark(t0, items, st, j, |items|);
    } else {
      CommitMark(t0, items, overwrite, st, ct, j, k - 1);
      var item := items[k - 1];
      TempHasTag(items, t0, j, k - 1);
      TempVsTemp(t0, items, k - 1, j);
      assert CommitMoveAt(items, overwrite, ct, k - 1);
      MoveMarked(CommitBase(ct[k - 1], item, overwrite), item.temp, item.target, Tag(items[j]), items[j].temp);
    }
  }

  lemma RemovedUnused(t: Tree, d: Path, r: Path, x: Name)
    requires Marked(t, x, r) && d <= r
    ensures Unused(Removed(t, d), x)
  {
  }

  // Replacing a target above a staged entry removes the entry.
  lemma {:induction false} ReplacedIsUnused(t0: Tree, items: seq<Item>, st: seq<Tree>, ct: seq<Tree>, i: nat, j: nat, k: nat)
    requires Batch(t0, items) && SourcesApart(items) && CommitRun(t0, items, true, st, ct) && i < k <= j < |items| && k < |ct|
    requires items[j].source != [] && Above(items[i].target, items[j].source)
    ensures items[j].temp != [] && Unused(ct[k], Tag(items[j]))
    decreases k
  {
    var item, t := items[k - 1], ct[k - 1];
    TempHasTag(items, t0, j, k - 1);
    if k == i + 1 {
      CommitMark(t0, items, true, st, ct, j, i);
      TempIs(t0, items, j);
      AboveBeside(item.target, items[j]);
      RemovedUnused(t, item.target, items[j].temp, Tag(items[j]));
    } else {
      ReplacedIsUnused(t0, items, st, ct, i, j, k - 1);
    }
    assert CommitMoveAt(items, true, ct, k - 1);
    MoveUnused(Removed(t, item.target), item.temp, item.target, Tag(items[j]));
  }

  // So a target above the source of a later entry stops the run.
  lemma EarlierTargetStops(t0: Tree, items: seq<Item>, st: seq<Tree>, ct: seq<Tree>, i: nat, j: nat)
    requires Batch(t0, items) && SourcesApart(items) && CommitRun(t0, items, true, st, ct) && i < j < |items|
    requires items[j].source != [] && Above(items[i].target, items[j].source)
    ensures |ct| <= |items|
  {
    if j < |ct| {
      ReplacedIsUnused(t0, items, st, ct, i, j, j);
      TempHasTag(items, t0, j, j);
      assert j + 1 < |ct| ==> CommitMoveAt(items, true, ct, j);
    }
  }

  /******* A target above the source of an earlier entry *******/

  // The content of an entry's source is at no other path.
  ghost predicate Alone(t0: Tree, items: seq<Item>, j: nat) {
    j < |items| && items[j].source in t0 && OnlyAt(t0, t0[items[j].source], items[j].source)
  }

  lemma {:induction false} NotYetStaged(t0: Tree, items: seq<Item>, st: seq<Tree>, j: nat, k: nat)
    requires Batch(t0, items) && SourcesApart(items) && Alone(t0, items, j) && StageRun(t0, items, st) && k <= j < |items| && k < |st|
    requires items[j].source != []
    ensures OnlyAt(st[k], t0[items[j].source], items[j].source)
  {
    if k > 0 {
      NotYetStaged(t0, items, st, j, k - 1);
      SourceVsTemp(t0, items, k - 1, j);
      assert StageMoveAt(items, st, k - 1);
      MoveElsewhere(st[k - 1], items[k - 1].source, items[k - 1].temp, t0[items[j].source], items[j].source);
    }
  }

  lemma {:induction false} StagedWhere(t0: Tree, items: seq<Item>, st: seq<Tree>, j: nat, k: nat)
    requires Batch(t0, items) && SourcesApart(items) && Alone(t0, items, j) && StageRun(t0, items, st) && j < k < |st|
    requires items[j].source != []
    ensures OnlyAt(st[k], t0[items[j].source], items[j].temp)
    decreases k
  {
    var item, v := items[k - 1], t0[items[j].source];
    if k == j + 1 {
      NotYetStaged(t0, items, st, j, j);
      assert StageMoveAt(items, st, j);
      MoveThere(st[k - 1], item.source, item.temp, v);
    } else {
      StagedWhere(t0, items, st, j, k - 1);
      SourceVsTemp(t0, items, k - 1, j);
      assert StageMoveAt(items, st, k - 1);
      MoveElsewhere(st[k - 1], item.source, item.temp, v, items[j].temp);
    }
  }

  lemma {:induction false} NotYetCommitted(t0: Tree, items: seq<Item>, overwrite: bool, st: seq<Tree>, ct: seq<Tree>, j: nat, k: nat)
    requires Batch(t0, items) && SourcesApart(items) && Alone(t0, items, j) && CommitRun(t0, items, overwrite, st, ct) && k <= j && k < |ct|
    requires items[j].source != []
    ensures OnlyAt(ct[k], t0[items[j].source], items[j].temp)
  {
    if k == 0 {
      StagedWhere(t0, items, st, j, |items|);
    } else {
      NotYetCommitted(t0, items, overwrite, st, ct, j, k - 1);
      var item := items[k - 1];
      TempVsTemp(t0, items, k - 1, j);
      assert CommitMoveAt(items, overwrite, ct, k - 1);
      MoveElsewhere(CommitBase(ct[k - 1], item, overwrite), item.temp, item.target, t0[items[j].source], items[j].temp);
    }
  }

  lemma {:induction false} CommittedWhere(t0: Tree, items: seq<Item>, overwrite: bool, st: seq<Tree>, ct: seq<Tree>, j: nat, k: nat)
    requires Batch(t0, items) && SourcesApart(items) && Alone(t0, items, j) && CommitRun(t0, items, overwrite, st, ct) && j < k < |ct|
    requires items[j].source != []
    ensures OnlyAt(ct[k], t0[items[j].source], items[j].target)
    decreases k
  {
    var item, v := items[k - 1], t0[items[j].source];
    if k == j + 1 {
      NotYetCommitted(t0, items, overwrite, st, ct, j, j);
      assert CommitMoveAt(items, overwrite, ct, j);
      MoveThere(CommitBase(ct[k - 1], item, overwrite), item.temp, item.target, v);
    } else {
      CommittedWhere(t0, items, overwrite, st, ct, j, k - 1);
      TempVsTemp(t0, items, k - 1, j);
      assert CommitMoveAt(items, overwrite, ct, k - 1);
      MoveElsewhere(CommitBase(ct[k - 1], item, overwrite), item.temp, item.target, v, items[j].target);
    }
  }

  lemma RemovedNowhere(t: Tree, d: Path, v: Content, r: Path)
    requires OnlyAt(t, v, r) && d <= r
    ensures Nowhere(Removed(t, d), v)
  {
  }

  // Replacing a target above an entry that has arrived loses the entry.
  lemma {:induction false} ArrivedIsLost(t0: Tree, items: seq<Item>, st: seq<Tree>, ct: seq<Tree>, i: nat, j: nat, k: nat)
    requires Batch(t0, items) && SourcesApart(items) && Alone(t0, items, j) && CommitRun(t0, items, true, st, ct) && j < i < k < |ct|
    requires items[j].source != [] && Above(items[i].target, items[j].source)
    ensures Nowhere(ct[k], t0[items[j].source])
    decreases k
  {
    var item, t := items[k - 1], ct[k - 1];
    if k == i + 1 {
      CommittedWhere(t0, items, true, st, ct, j, i);
      TempIs(t0, items, j);
      AboveBeside(item.target, items[j]);
      RemovedNowhere(t, item.target, t0[items[j].source], items[j].target);
    } else {
      ArrivedIsLost(t0, items, st, ct, i, j, k - 1);
    }
    assert CommitMoveAt(items, true, ct, k - 1);
    MoveNowhere(Removed(t, item.target), item.temp, item.target, t0[items[j].source]);
  }

  // The simultaneous rename would have it at its target.
  lemma LaterTargetLoses(t0: Tree, items: seq<Item>, st: seq<Tree>, ct: seq<Tree>, i: nat, j: nat)
    requires Batch(t0, items) && SourcesApart(items) && Injective(t0) && CommitRun(t0, items, true, st, ct) && |ct| == |items| + 1
    requires j < i < |items| && items[j].source != [] && Above(items[i].target, items[j].source)
    ensures !RenamedTo(ct[|items|], t0, items)
  {
    var q := items[j].target;
    TempIs(t0, items, j);
    assert Alone(t0, items, j);
    ArrivedIsLost(t0, items, st, ct, i, j, |items|);
    FirstTarget(t0, items, st, ct, j);
    assert items[j].source + q[|q|..] == items[j].source;
    assert Simultaneous(t0, items, q) == Get(t0, items[j].source);
    assert Get(ct[|items|], q) != Get(t0, items[j].source);
  }

  // In a complete run an entry's target is below no earlier target.
  lemma FirstTarget(t0: Tree, items: seq<Item>, st: seq<Tree>, ct: seq<Tree>, j: nat)
    requires Batch(t0, items) && SourcesApart(items) && CommitRun(t0, items, true, st, ct) && |ct| == |items| + 1
    requires j < |items| && items[j].source != []
    ensures Find(Targets(items), 0, items[j].target) == j
  {
    var q := items[j].target;
    FindComplete(Targets(items), 0, j, q);
    var k := Find(Targets(items), 0, q);
    if k < j {
      TempIs(t0, items, j);
      assert Different(items[k], items[j]);
      AboveParent(items[k].target, q);
      AboveParent(items[k].target, items[j].source);
      EarlierTargetStops(t0, items, st, ct, k, j);
    }
  }

  /******* The exact condition *******/

  // A complete run of an accepted batch that is not movable does not end in the simultaneous rename.
  lemma NotMovableNotRenamed(t0: Tree, items: seq<Item>, overwrite: bool, st: seq<Tree>, ct: seq<Tree>)
    requires Batch(t0, items) && Injective(t0) && CommitRun(t0, items, overwrite, st, ct) && |ct| == |items| + 1
    requires MayReplaceAll(t0, items, overwrite) && !Movable(items)
    ensures !RenamedTo(ct[|items|], t0, items)
  {
    forall i: nat | i < |items| ensures items[i].source != [] {
      assert StageMoveAt(items, st, i);
    }
    forall i, j | 0 <= i < |items| && 0 <= j < |items| && i != j ensures !Above(items[i].source, items[j].source) {
      if Above(items[i].source, items[j].source) {
        NestedSourcesStop(t0, items, overwrite, st, ct, i, j);
      }
    }
    var i, j :| 0 <= i < |items| && 0 <= j < |items| && i != j && Above(items[i].target, items[j].source);
    OnlyByOverwriting(t0, items, overwrite, i, j);
    if i < j {
      EarlierTargetStops(t0, items, st, ct, i, j);
    } else {
      LaterTargetLoses(t0, items, st, ct, i, j);
    }
  }

  // A target above a source exists, and no other source is there, so it is accepted only to be replaced.
  lemma OnlyByOverwriting(t0: Tree, items: seq<Item>, overwrite: bool, i: nat, j: nat)
    requires Batch(t0, items) && SourcesApart(items) && MayReplaceAll(t0, items, overwrite)
    requires i < |items| && j < |items| && i != j && Above(items[i].target, items[j].source)
    ensures overwrite
  {
    assert MayReplace(t0, items, i, overwrite);
    TempIs(t0, items, j);
  }
}
