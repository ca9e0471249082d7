/** Text in code-point order, the order in which sorted() lists strings and SQL compares them. */
module Texts {
  import opened Basics

  /** a sorts before b. */
  predicate Below(a: string, b: string) {
    if b == "" then false
    else if a == "" then true
    else if a[0] == b[0] then Below(a[1..], b[1..])
    else a[0] < b[0]
  }

  /** Exactly one of a < b, a == b, b < a. */
  lemma {:induction false} Trichotomy(a: string, b: string)
    ensures Below(a, b) ==> a != b && !Below(b, a)
    ensures Below(a, b) || a == b || Below(b, a)
    decreases |a|
  {
    if a != "" && b != "" && a[0] == b[0] {
      Trichotomy(a[1..], b[1..]);
      assert a == [a[0]] + a[1..] && b == [b[0]] + b[1..];
    }
  }

  lemma {:induction false} Transitive(a: string, b: string, c: string)
    requires Below(a, b) && Below(b, c)
    ensures Below(a, c)
    decreases |a|
  {
    if a != "" && a[0] == b[0] && b[0] == c[0] {
      Transitive(a[1..], b[1..], c[1..]);
    }
  }

  /** What precedes a common prefix decides nothing. */
  lemma {:induction false} AfterPrefix(p: string, a: string, b: string)
    ensures Below(p + a, p + b) == Below(a, b)
    decreases |p|
  {
    if p == "" {
      assert p + a == a && p + b == b;
    } else {
      assert (p + a)[1..] == p[1..] + a && (p + b)[1..] == p[1..] + b;
      AfterPrefix(p[1..], a, b);
    }
  }

  predicate IsLeastText(s: set<string>, x: string) {
    x in s && forall y <- s :: y == x || Below(x, y)
  }

  lemma HasText(s: set<string>)
    ensures s == {} || exists x :: x in s
  {
    if forall x :: x !in s {
      assert s == {};
    }
  }

  lemma {:induction false} HasLeastText(s: set<string>)
    requires s != {}
    ensures exists x :: IsLeastText(s, x)
    decreases s
  {
    HasText(s);
    var x :| x in s;
    var rest := s - {x};
    var least := x;
    if rest != {} {
      HasLeastText(rest);
      var y :| IsLeastText(rest, y);
      least := if Below(x, y) then x else y;
      Trichotomy(x, y);
      forall z | z in s
        ensures z == least || Below(least, z)
      {
        if z != x && z != y && Below(x, y) { Transitive(x, y, z); }
      }
    } else {
      assert forall z <- s :: z == x || z in rest;
    }
    assert IsLeastText(s, least);
  }

  /** Strictly ascending. */
  ghost predicate Ascending(texts: seq<string>) {
    forall i, j :: 0 <= i < j < |texts| ==> Below(texts[i], texts[j])
  }

  /** The elements of s, each once, in order. */
  ghost predicate Sorts(texts: seq<string>, s: set<string>) {
    Ascending(texts) && (forall x :: x in texts <==> x in s)
  }

  /** The listing so far precedes what remains. */
  ghost predicate SortsSoFar(texts: seq<string>, rest: set<string>, s: set<string>) {
    && Ascending(texts) && rest <= s
    && (forall i, y :: 0 <= i < |texts| && y in rest ==> Below(texts[i], y))
    && (forall x :: x in s <==> x in rest || x in texts)
  }

  lemma NextText(texts: seq<string>, rest: set<string>, s: set<string>, x: string)
    requires SortsSoFar(texts, rest, s) && IsLeastText(rest, x)
    ensures SortsSoFar(texts + [x], rest - {x}, s)
  {
    var texts' := texts + [x];
    forall y
      ensures y in s <==> y in rest - {x} || y in texts'
    {
    }
  }

  /** sorted(s). */
  method Sorted(s: set<string>) returns (texts: seq<string>)
    ensures Sorts(texts, s)
  {
    texts := [];
    var rest := s;
    while rest != {}
      invariant SortsSoFar(texts, rest, s)
      decreases rest
    {
      HasLeastText(rest);
      var x :| IsLeastText(rest, x);
      NextText(texts, rest, s, x);
      texts, rest := texts + [x], rest - {x};
    }
  }

  lemma EmptySorts(a: seq<string>, s: set<string>)
    requires Sorts(a, s)
    ensures a == [] <==> s == {}
  {
    if a != [] {
      assert a[0] in a;
    } else {
      assert forall x :: x !in s;
    }
  }

  /** There is only one such listing. */
  lemma {:induction false} SortsUnique(a: seq<string>, b: seq<string>, s: set<string>)
    requires Sorts(a, s) && Sorts(b, s)
    ensures a == b
    decreases |a|
  {
    if a == [] {
      EmptySorts(a, s);
      EmptySorts(b, s);
    } else {
      assert a[0] in a && a[0] in b;
      var i :| 0 <= i < |b| && b[i] == a[0];
      assert b[0] in b && b[0] in a;
      var j :| 0 <= j < |a| && a[j] == b[0];
      Trichotomy(a[0], b[0]);
      assert i == 0;
      TailSorts(a, s);
      TailSorts(b, s);
      SortsUnique(a[1..], b[1..], s - {a[0]});
      assert a == [a[0]] + a[1..] && b == [b[0]] + b[1..];
    }
  }

  lemma TailSorts(a: seq<string>, s: set<string>)
    requires Sorts(a, s) && a != []
    ensures Sorts(a[1..], s - {a[0]})
  {
    forall x
      ensures x in a[1..] <==> x in s - {a[0]}
    {
      if x in a[1..] {
        var i :| 0 <= i < |a[1..]| && a[1..][i] == x;
        assert a[i + 1] == x && Below(a[0], a[i + 1]);
        Trichotomy(a[0], x);
      }
      if x in s - {a[0]} {
        var i :| 0 <= i < |a| && a[i] == x;
        assert a[1..][i - 1] == x;
      }
    }
  }

  function Join(separator: string, texts: seq<string>): string {
    if texts == [] then "" else if |texts| == 1 then texts[0]
    else Join(separator, texts[..|texts| - 1]) + separator + texts[|texts| - 1]
  }
}
