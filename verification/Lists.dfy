/** Lists that the window manager keeps: MRU order, taskbar buttons, Alt-Tab rows. */
module Lists {

  datatype Option<+T> = None | Some(value: T)

  ghost predicate Distinct<T>(s: seq<T>) {
    forall i, j :: 0 <= i < j < |s| ==> s[i] != s[j]
  }

  lemma DistinctAppend<T>(a: seq<T>, b: seq<T>)
    requires Distinct(a) && Distinct(b) && forall x | x in a :: x !in b
    ensures Distinct(a + b)
  {
    forall i, j | 0 <= i < j < |a + b|
      ensures (a + b)[i] != (a + b)[j]
    {
      if i < |a| <= j {
        assert a[i] in a && b[j - |a|] in b;
      }
    }
  }

  /** The position of the first `x`, or the length of the list. */
  function IndexOf<T(==)>(s: seq<T>, x: T): (i: nat)
    ensures i <= |s|
    ensures i < |s| ==> s[i] == x
    ensures x !in s[..i]
    ensures x in s <==> i < |s|
  {
    if s == [] then 0
    else if s[0] == x then 0
    else
      var i := IndexOf(s[1..], x) + 1;
      assert s[..i] == [s[0]] + s[1..][..i - 1];
      i
  }

  /** The list without the first occurrence of `x`. */
  function Remove<T(==)>(s: seq<T>, x: T): (r: seq<T>)
    ensures x !in s ==> r == s
    ensures x in s ==> |r| == |s| - 1
    ensures forall y | y in r :: y in s
    ensures forall y | y in s && y != x :: y in r
  {
    if s == [] then []
    else if s[0] == x then s[1..]
    else [s[0]] + Remove(s[1..], x)
  }

  lemma {:induction false} RemoveDistinct<T>(s: seq<T>, x: T)
    requires Distinct(s)
    ensures Distinct(Remove(s, x)) && x !in Remove(s, x)
  {
    if s != [] && s[0] != x {
      RemoveDistinct(s[1..], x);
      assert s[0] !in s[1..];
    }
  }

  lemma {:induction false} RemoveCount<T>(s: seq<T>, x: T)
    ensures multiset(Remove(s, x)) == multiset(s) - multiset{x}
  {
    if s != [] {
      assert s == [s[0]] + s[1..];
      if s[0] != x {
        RemoveCount(s[1..], x);
      }
    }
  }

  /** Erasing the first occurrence by its position. */
  lemma {:induction false} RemoveAt<T>(s: seq<T>, i: nat)
    requires i < |s| && s[i] !in s[..i]
    ensures IndexOf(s, s[i]) == i && Remove(s, s[i]) == s[..i] + s[i + 1..]
  {
    if i > 0 {
      var b := s[1..];
      assert s[..i] == [s[0]] + b[..i - 1];
      RemoveAt(b, i - 1);
    }
  }

  /** Moving an element to the front is how the MRU list is relinked. */
  lemma ToFront<T>(s: seq<T>, x: T)
    requires Distinct(s) && x in s
    ensures var r := [x] + Remove(s, x);
      Distinct(r) && |r| == |s| && multiset(r) == multiset(s)
    ensures forall y | y in [x] + Remove(s, x) :: y in s
    ensures forall y | y in s :: y in [x] + Remove(s, x)
  {
    RemoveDistinct(s, x);
    RemoveCount(s, x);
  }

  /** The elements of `s` that satisfy `p`, in order. */
  function Filter<T>(s: seq<T>, p: T -> bool): (r: seq<T>)
    ensures forall x | x in r :: x in s && p(x)
    ensures forall x | x in s && p(x) :: x in r
  {
    if s == [] then []
    else if p(s[0]) then [s[0]] + Filter(s[1..], p)
    else Filter(s[1..], p)
  }

  lemma {:induction false} FilterDistinct<T>(s: seq<T>, p: T -> bool)
    requires Distinct(s)
    ensures Distinct(Filter(s, p))
  {
    if s != [] {
      FilterDistinct(s[1..], p);
    }
  }

  lemma {:induction false} FilterAppend<T>(a: seq<T>, b: seq<T>, p: T -> bool)
    ensures Filter(a + b, p) == Filter(a, p) + Filter(b, p)
  {
    if a == [] {
      assert a + b == b;
    } else {
      assert (a + b)[1..] == a[1..] + b;
      FilterAppend(a[1..], b, p);
    }
  }

  lemma FilterCons<T>(x: T, s: seq<T>, p: T -> bool)
    ensures Filter([x] + s, p) == if p(x) then [x] + Filter(s, p) else Filter(s, p)
  {
    assert ([x] + s)[1..] == s;
  }

  lemma {:induction false} FilterAll<T>(a: seq<T>, p: T -> bool)
    requires forall x | x in a :: p(x)
    ensures Filter(a, p) == a
  {
    if a != [] {
      FilterAll(a[1..], p);
    }
  }

  lemma {:induction false} FilterSame<T>(a: seq<T>, p: T -> bool, q: T -> bool)
    requires forall x | x in a :: p(x) == q(x)
    ensures Filter(a, p) == Filter(a, q)
  {
    if a != [] {
      assert a[0] in a;
      assert forall x | x in a[1..] :: x in a;
      FilterSame(a[1..], p, q);
    }
  }

  /** Removing an element and filtering commute. */
  lemma {:induction false} FilterRemove<T>(a: seq<T>, x: T, p: T -> bool)
    requires p(x)
    ensures Filter(Remove(a, x), p) == Remove(Filter(a, p), x)
  {
    if a != [] && a[0] != x {
      FilterRemove(a[1..], x, p);
      FilterCons(a[0], Remove(a[1..], x), p);
    }
  }

  /** Moving an element that the filter drops, or the first one it keeps, to the front
      changes nothing. */
  lemma {:induction false} FilterRelinked<T>(a: seq<T>, x: T, p: T -> bool)
    requires x in a
    requires !p(x) || (Filter(a, p) != [] && Filter(a, p)[0] == x)
    ensures Filter([x] + Remove(a, x), p) == Filter(a, p)
  {
    var b := a[1..];
    if a[0] == x {
      assert Remove(a, x) == b;
      assert [x] + b == a;
    } else {
      FilterCons(x, Remove(a, x), p);
      FilterCons(x, Remove(b, x), p);
      FilterCons(a[0], Remove(b, x), p);
      FilterRelinked(b, x, p);
    }
  }
}
