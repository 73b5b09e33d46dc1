/**
 Trimming of white space, as strings.TrimSpace does it.
 */
module Text {

  // The code points with the Unicode property White_Space.
  predicate IsSpace(c: char) {
    || c == ' ' || ('\t' <= c <= '\r') || c == '\U{0085}' || c == '\U{00A0}' || c == '\U{1680}'
    || ('\U{2000}' <= c <= '\U{200A}') || c == '\U{2028}' || c == '\U{2029}' || c == '\U{202F}'
    || c == '\U{205F}' || c == '\U{3000}'
  }

  function TrimLeft(s: string): (r: string)
    ensures |r| <= |s|
    ensures r == [] || !IsSpace(r[0])
  {
    if s == [] || !IsSpace(s[0]) then s else TrimLeft(s[1..])
  }

  function TrimRight(s: string): (r: string)
    ensures |r| <= |s| && r == s[..|r|]
    ensures r == [] || !IsSpace(r[|r| - 1])
  {
    if s == [] || !IsSpace(s[|s| - 1]) then s else TrimRight(s[..|s| - 1])
  }

  // A trimmed text neither begins nor ends with white space.
  function Trim(s: string): (r: string)
    ensures |r| <= |s|
    ensures r == [] || (!IsSpace(r[0]) && !IsSpace(r[|r| - 1]))
  {
    TrimRight(TrimLeft(s))
  }

  lemma {:induction false} TrimLeftBlank(s: string)
    ensures TrimLeft(s) == [] <==> forall i :: 0 <= i < |s| ==> IsSpace(s[i])
  {
    if s != [] && IsSpace(s[0]) {
      TrimLeftBlank(s[1..]);
      assert forall i :: 0 < i < |s| ==> s[i] == s[1..][i - 1];
    }
  }

  lemma {:induction false} TrimRightBlank(s: string)
    requires s != [] && !IsSpace(s[0])
    ensures TrimRight(s) != []
  {
    if IsSpace(s[|s| - 1]) {
      TrimRightBlank(s[..|s| - 1]);
    }
  }

  // Only blank texts trim to nothing.
  lemma TrimBlank(s: string)
    ensures Trim(s) == [] <==> forall i :: 0 <= i < |s| ==> IsSpace(s[i])
  {
    TrimLeftBlank(s);
    if TrimLeft(s) != [] {
      TrimRightBlank(TrimLeft(s));
    }
  }

  predicate Blank(s: string) { forall i :: 0 <= i < |s| ==> IsSpace(s[i]) }

  ghost predicate Splits(s: string, a: string, r: string, b: string) {
    && s == a + r + b && Blank(a) && Blank(b)
    && (r == [] || (!IsSpace(r[0]) && !IsSpace(r[|r| - 1])))
  }

  // r is s with the white space cut off at both ends.
  ghost predicate Cuts(s: string, r: string) { exists a, b :: Splits(s, a, r, b) }

  lemma {:induction false} TrimLeftSplits(s: string) returns (a: string)
    ensures s == a + TrimLeft(s) && Blank(a)
  {
    if s == [] || !IsSpace(s[0]) {
      a := [];
    } else {
      var rest := TrimLeftSplits(s[1..]);
      a := [s[0]] + rest;
      assert s == [s[0]] + (rest + TrimLeft(s)) == a + TrimLeft(s);
    }
  }

  lemma {:induction false} TrimRightSplits(s: string) returns (b: string)
    ensures s == TrimRight(s) + b && Blank(b)
  {
    if s == [] || !IsSpace(s[|s| - 1]) {
      b := [];
    } else {
      var rest := TrimRightSplits(s[..|s| - 1]);
      b := rest + [s[|s| - 1]];
      assert s == (TrimRight(s) + rest) + [s[|s| - 1]] == TrimRight(s) + b;
    }
  }

  lemma {:induction false} BlankPrefixTrimmed(a: string, t: string)
    requires Blank(a)
    ensures TrimLeft(a + t) == TrimLeft(t)
  {
    if a == [] {
      assert a + t == t;
    } else {
      assert (a + t)[1..] == a[1..] + t;
      BlankPrefixTrimmed(a[1..], t);
    }
  }

  lemma {:induction false} BlankSuffixTrimmed(t: string, b: string)
    requires Blank(b)
    ensures TrimRight(t + b) == TrimRight(t)
  {
    if b == [] {
      assert t + b == t;
    } else {
      assert (t + b)[..|t + b| - 1] == t + b[..|b| - 1];
      BlankSuffixTrimmed(t, b[..|b| - 1]);
    }
  }

  // Trimming cuts the white space off at both ends, and nothing else is such a cut.
  lemma TrimCuts(s: string, r: string)
    ensures Cuts(s, r) <==> r == Trim(s)
  {
    var a := TrimLeftSplits(s);
    var b := TrimRightSplits(TrimLeft(s));
    assert s == a + Trim(s) + b;
    assert Splits(s, a, Trim(s), b);
    if Cuts(s, r) {
      var c, d :| Splits(s, c, r, d);
      CutIsTrim(c, r, d);
    }
  }

  lemma CutIsTrim(a: string, r: string, b: string)
    requires Splits(a + r + b, a, r, b)
    ensures Trim(a + r + b) == r
  {
    assert a + r + b == a + (r + b);
    BlankPrefixTrimmed(a, r + b);
    if r == [] {
      assert r + b == b;
      TrimLeftBlank(b);
    } else {
      assert (r + b)[0] == r[0];
      BlankSuffixTrimmed(r, b);
    }
  }
}
