/** Sequences standing for the tail queues of the source. */
module Lists {

  ghost predicate NoDup<T>(s: seq<T>) {
    forall i, j | 0 <= i < j < |s| :: s[i] != s[j]
  }

  ghost function Elems<T>(s: seq<T>): set<T> {
    set x | x in s
  }

  lemma EmptyList<T>()
    ensures NoDup<T>([]) && Elems<T>([]) == {}
  {
  }

  // VTAILQ_INSERT_TAIL
  lemma Snoc<T>(s: seq<T>, x: T)
    ensures Elems(s + [x]) == Elems(s) + {x}
    ensures NoDup(s) && x !in Elems(s) ==> NoDup(s + [x])
  {
  }

  lemma Suffix<T>(s: seq<T>, k: nat)
    requires k < |s|
    ensures s[k] in Elems(s) && Elems(s[k + 1..]) <= Elems(s)
    ensures NoDup(s) ==> NoDup(s[k + 1..]) && s[k] !in Elems(s[k + 1..])
  {
  }

  // VTAILQ_REMOVE
  function Remove<T(==)>(s: seq<T>, x: T): (r: seq<T>)
    ensures forall y | y in r :: y in s
  {
    if s == [] then [] else if s[0] == x then s[1..] else [s[0]] + Remove(s[1..], x)
  }

  lemma {:induction false} RemoveAt<T>(s: seq<T>, i: nat)
    requires i < |s| && NoDup(s)
    ensures Remove(s, s[i]) == s[..i] + s[i + 1..]
  {
    if i > 0 {
      RemoveAt(s[1..], i - 1);
      assert s[1..][i - 1] == s[i];
    }
  }

  lemma {:induction false} RemoveMiddle<T>(a: seq<T>, x: T, b: seq<T>)
    requires x !in a
    ensures Remove(a + [x] + b, x) == a + b
  {
    if a == [] {
      assert a + [x] + b == [x] + b;
    } else {
      assert (a + [x] + b)[1..] == a[1..] + [x] + b;
      RemoveMiddle(a[1..], x, b);
      assert [a[0]] + (a[1..] + b) == a + b;
    }
  }

  lemma RemoveLeaves<T>(s: seq<T>, x: T)
    requires NoDup(s) && x in Elems(s)
    ensures |Remove(s, x)| == |s| - 1 && NoDup(Remove(s, x))
    ensures Elems(Remove(s, x)) == Elems(s) - {x}
  {
    var i :| 0 <= i < |s| && s[i] == x;
    RemoveAt(s, i);
    var r := s[..i] + s[i + 1..];
    forall y | y in s && y != x ensures y in r {
      var j :| 0 <= j < |s| && s[j] == y;
      assert y == if j < i then r[j] else r[j - 1];
    }
  }

  // The elements of s that are in e, in order.
  function Filter<T(==)>(s: seq<T>, e: set<T>): seq<T> {
    if s == [] then [] else (if s[0] in e then [s[0]] else []) + Filter(s[1..], e)
  }

  lemma {:induction false} FilterMembers<T>(s: seq<T>, e: set<T>)
    ensures forall x | x in Filter(s, e) :: x in s && x in e
    ensures forall x | x in s && x in e :: x in Filter(s, e)
  {
    if s != [] {
      FilterMembers(s[1..], e);
    }
  }

  lemma Associate<T>(a: seq<T>, b: seq<T>, c: seq<T>)
    ensures a + (b + c) == (a + b) + c
  {
  }

  lemma {:induction false} FilterAppend<T>(s: seq<T>, t: seq<T>, e: set<T>)
    ensures Filter(s + t, e) == Filter(s, e) + Filter(t, e)
  {
    if s == [] {
      assert s + t == t;
    } else {
      assert (s + t)[0] == s[0] && (s + t)[1..] == s[1..] + t;
      FilterAppend(s[1..], t, e);
      Associate(if s[0] in e then [s[0]] else [], Filter(s[1..], e), Filter(t, e));
    }
  }

  lemma FilterNext<T>(s: seq<T>, e: set<T>, k: nat)
    requires k < |s|
    ensures Filter(s[..k + 1], e) == Filter(s[..k], e) + if s[k] in e then [s[k]] else []
  {
    assert s[..k + 1] == s[..k] + [s[k]];
    FilterAppend(s[..k], [s[k]], e);
  }

  lemma {:induction false} FilterNoDup<T>(s: seq<T>, e: set<T>)
    requires NoDup(s)
    ensures NoDup(Filter(s, e))
  {
    if s != [] {
      FilterNoDup(s[1..], e);
      FilterMembers(s[1..], e);
      assert s[0] !in s[1..];
    }
  }

  // Moving an element that the filter skips makes no difference.
  lemma {:induction false} FilterRequeue<T>(s: seq<T>, x: T, e: set<T>)
    requires x !in e
    ensures Filter(Remove(s, x) + [x], e) == Filter(s, e)
  {
    FilterAppend(Remove(s, x), [x], e);
    FilterRemove(s, x, e);
    assert Filter([x], e) == [];
  }

  lemma {:induction false} FilterRemove<T>(s: seq<T>, x: T, e: set<T>)
    requires x !in e
    ensures Filter(Remove(s, x), e) == Filter(s, e)
  {
    if s != [] && s[0] != x {
      FilterRemove(s[1..], x, e);
      assert ([s[0]] + Remove(s[1..], x))[1..] == Remove(s[1..], x);
    }
  }

  // Moving the first chosen element to the tail rotates what the filter chooses.
  lemma {:induction false} FilterRotate<T>(s: seq<T>, e: set<T>)
    requires Filter(s, e) != []
    ensures var x := Filter(s, e)[0];
      x in s && x in e && Filter(Remove(s, x) + [x], e) == Filter(s, e)[1..] + [x]
  {
    var x := Filter(s, e)[0];
    FilterMembers(s, e);
    FilterAppend(Remove(s, x), [x], e);
    FilterRemoveFirst(s, e);
    assert Filter([x], e) == [x] + Filter([], e);
  }

  lemma {:induction false} FilterRemoveFirst<T>(s: seq<T>, e: set<T>)
    requires Filter(s, e) != []
    ensures Filter(Remove(s, Filter(s, e)[0]), e) == Filter(s, e)[1..]
  {
    if s[0] !in e {
      FilterRemoveFirst(s[1..], e);
      var x := Filter(s, e)[0];
      FilterMembers(s[1..], e);
      assert ([s[0]] + Remove(s[1..], x))[1..] == Remove(s[1..], x);
    }
  }
}
