/** Optional values and error returns shared by every module. */
module Basics {

  datatype Option<+T> = None | Some(value: T)

  /** The outcome of a call that may raise: a value, or the error that left the caller. */
  datatype Result<+T, +E> = Ok(value: T) | Err(error: E)

  predicate IsSpace(c: char) {
    c == ' ' || '\t' <= c <= '\r' || '\U{1c}' <= c <= '\U{1f}'
  }

  /** What `not text.strip()` asks. */
  predicate Blank(text: string) {
    forall i :: 0 <= i < |text| ==> IsSpace(text[i])
  }

  lemma HasMember(s: set<int>)
    ensures s == {} || exists x :: x in s
  {
    if forall x :: x !in s {
      assert s == {};
    }
  }

  predicate IsLeast(s: set<int>, n: int) {
    n in s && forall m <- s :: n <= m
  }

  /** A non-empty set of numbers has a smallest one. */
  lemma {:induction false} HasLeast(s: set<int>)
    requires s != {}
    ensures exists n :: IsLeast(s, n)
    decreases s
  {
    HasMember(s);
    var x :| x in s;
    var rest := s - {x};
    var n := x;
    if rest != {} {
      HasLeast(rest);
      var y :| IsLeast(rest, y);
      n := if x < y then x else y;
    }
    forall m | m in s
      ensures n <= m
    {
      assert m == x || m in rest;
    }
    assert IsLeast(s, n);
  }
}
