/** Failure types and time units shared by every module. */
module Basics {
  datatype Option<+T> = None | Some(value: T) {
    function GetOr(default: T): T {
      if Some? then value else default
    }
  }

  datatype Result<+T, +E> = Ok(value: T) | Err(error: E)

  // Times and durations are whole nanoseconds, as in Go's time package.
  const SECOND: int := 1_000_000_000
  const MINUTE: int := 60 * SECOND

  /** Mapping a finite set through a function cannot enlarge it. */
  lemma {:induction false} ImageNoLarger<A, B>(s: set<A>, f: A -> B)
    ensures |set x | x in s :: f(x)| <= |s|
  {
    if s == {} {
      assert (set x | x in s :: f(x)) == {};
    } else {
      var a :| a in s;
      var rest := s - {a};
      ImageNoLarger(rest, f);
      assert (set x | x in s :: f(x)) == (set x | x in rest :: f(x)) + {f(a)};
    }
  }

  /** A subset has no more elements. */
  lemma {:induction false} SubsetNoLarger<A>(s: set<A>, t: set<A>)
    requires s <= t
    ensures |s| <= |t|
  {
    if s != {} {
      var a :| a in s;
      SubsetNoLarger(s - {a}, t - {a});
    }
  }

  /** A set mapped one-to-one into another is no larger. */
  lemma {:induction false} InjectiveNoLarger<A, B>(s: set<A>, f: A -> B, t: set<B>)
    requires forall x :: x in s ==> f(x) in t
    requires forall x, y :: x in s && y in s && f(x) == f(y) ==> x == y
    ensures |s| <= |t|
  {
    if s != {} {
      var a :| a in s;
      InjectiveNoLarger(s - {a}, f, t - {f(a)});
    }
  }

  /** A set covered by the image of another is no larger. */
  lemma CoveredNoLarger<A, B>(t: set<B>, s: set<A>, f: A -> B)
    requires forall y :: y in t ==> exists x :: x in s && f(x) == y
    ensures |t| <= |s|
  {
    ImageNoLarger(s, f);
    SubsetNoLarger(t, set x | x in s :: f(x));
  }
}
