/** Small value helpers shared by every module: an optional value, the
    absolute value of a real and an order-preserving filter on sequences. */
module Common {

  datatype Option<+T> = None | Some(value: T)

  function Abs(x: real): (r: real)
    ensures r >= 0.0
    ensures r == x || r == -x
  {
    if x < 0.0 then -x else x
  }

  /** The elements of `s` that satisfy `f`, in their original order
      (a SQL `WHERE`, a JavaScript `filter`). */
  function Filter<T(!new)>(s: seq<T>, f: T -> bool): (r: seq<T>)
    ensures |r| <= |s|
    ensures forall x :: x in r <==> x in s && f(x)
  {
    if s == [] then [] else (if f(s[0]) then [s[0]] else []) + Filter(s[1..], f)
  }

  lemma {:induction false} FilterAppend<T(!new)>(a: seq<T>, b: seq<T>, f: T -> bool)
    ensures Filter(a + b, f) == Filter(a, f) + Filter(b, f)
  {
    if a == [] {
      assert a + b == b;
    } else {
      assert (a + b)[1..] == a[1..] + b;
      FilterAppend(a[1..], b, f);
    }
  }

  /** The conjunction of two conditions. */
  function And<T>(f: T -> bool, g: T -> bool): T -> bool
  {
    x => f(x) && g(x)
  }

  /** Filtering twice is filtering once by the conjunction. */
  lemma {:induction false} FilterFilter<T(!new)>(s: seq<T>, f: T -> bool, g: T -> bool)
    ensures Filter(Filter(s, f), g) == Filter(s, And(f, g))
  {
    if s != [] {
      FilterFilter(s[1..], f, g);
      FilterAppend(if f(s[0]) then [s[0]] else [], Filter(s[1..], f), g);
    }
  }

  /** Two predicates that agree on the elements give the same filter. */
  lemma {:induction false} FilterExt<T(!new)>(s: seq<T>, f: T -> bool, g: T -> bool)
    requires forall x :: x in s ==> f(x) == g(x)
    ensures Filter(s, f) == Filter(s, g)
  {
    if s != [] {
      FilterExt(s[1..], f, g);
    }
  }

  /** A predicate that holds of every element removes nothing. */
  lemma {:induction false} FilterKeepsAll<T(!new)>(s: seq<T>, f: T -> bool)
    requires forall x :: x in s ==> f(x)
    ensures Filter(s, f) == s
  {
    if s != [] {
      FilterKeepsAll(s[1..], f);
    }
  }

  /** A predicate that holds of no element removes everything. */
  lemma {:induction false} FilterKeepsNone<T(!new)>(s: seq<T>, f: T -> bool)
    requires forall x :: x in s ==> !f(x)
    ensures Filter(s, f) == []
  {
    if s != [] {
      FilterKeepsNone(s[1..], f);
    }
  }

  /** Filtering removes something exactly when some element fails the test. */
  lemma {:induction false} FilterShorter<T(!new)>(s: seq<T>, f: T -> bool)
    ensures |Filter(s, f)| < |s| <==> exists x :: x in s && !f(x)
  {
    if s != [] {
      FilterShorter(s[1..], f);
      assert forall x :: x in s <==> x == s[0] || x in s[1..];
    }
  }

  /** Filtering keeps every occurrence of an accepted element and drops
      every occurrence of a rejected one. */
  lemma {:induction false} FilterCount<T(!new)>(s: seq<T>, f: T -> bool, x: T)
    ensures multiset(Filter(s, f))[x] == if f(x) then multiset(s)[x] else 0
  {
    if s != [] {
      FilterCount(s[1..], f, x);
      assert s == [s[0]] + s[1..];
      assert multiset(s) == multiset([s[0]]) + multiset(s[1..]);
      var head := if f(s[0]) then [s[0]] else [];
      assert multiset(head + Filter(s[1..], f)) == multiset(head) + multiset(Filter(s[1..], f));
    }
  }

  /** A prefix one element longer is the prefix and that element. */
  lemma PrefixSnoc<T>(s: seq<T>, i: nat)
    requires i < |s|
    ensures s[..i + 1] == s[..i] + [s[i]]
  {
  }

  /** Concatenation is associative. */
  lemma ConcatAssoc<T>(a: seq<T>, b: seq<T>, c: seq<T>)
    ensures a + (b + c) == (a + b) + c
  {
  }
}
