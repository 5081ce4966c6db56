/** Sorting as the scripts' `sorted` does it: by a given order, leaving equal elements as they come. */
module StableSort {

  function Insert<T>(x: T, s: seq<T>, less: (T, T) -> bool): seq<T> {
    if s == [] || !less(s[0], x) then [x] + s else [s[0]] + Insert(x, s[1..], less)
  }

  /** Stable, since a later element is inserted first and an equal one goes before it. */
  function Sort<T>(s: seq<T>, less: (T, T) -> bool): seq<T> {
    if s == [] then [] else Insert(s[0], Sort(s[1..], less), less)
  }

  lemma {:induction false} InsertPermutes<T>(x: T, s: seq<T>, less: (T, T) -> bool)
    ensures multiset(Insert(x, s, less)) == multiset{x} + multiset(s)
  {
    if s != [] && less(s[0], x) {
      assert s == [s[0]] + s[1..];
      InsertPermutes(x, s[1..], less);
    }
  }

  lemma {:induction false} SortPermutes<T>(s: seq<T>, less: (T, T) -> bool)
    ensures multiset(Sort(s, less)) == multiset(s)
  {
    if s != [] {
      assert s == [s[0]] + s[1..];
      SortPermutes(s[1..], less);
      InsertPermutes(s[0], Sort(s[1..], less), less);
    }
  }

  lemma SortMembers<T>(s: seq<T>, less: (T, T) -> bool)
    ensures |Sort(s, less)| == |s|
    ensures forall x :: x in Sort(s, less) <==> x in s
  {
    SortPermutes(s, less);
    assert |multiset(Sort(s, less))| == |multiset(s)|;
    forall x ensures x in Sort(s, less) <==> x in s {
      assert x in Sort(s, less) <==> x in multiset(Sort(s, less));
    }
  }

  // ---------- in order ----------

  ghost predicate InOrder<T>(s: seq<T>, less: (T, T) -> bool) {
    forall i, j | 0 <= i < j < |s| :: !less(s[j], s[i])
  }

  /** A strict weak order. */
  ghost predicate WeakOrder<T(!new)>(less: (T, T) -> bool) {
    && (forall a, b :: less(a, b) ==> !less(b, a))
    && (forall a, b, c :: !less(b, a) && !less(c, b) ==> !less(c, a))
  }

  lemma InsertMembers<T>(x: T, s: seq<T>, less: (T, T) -> bool)
    ensures forall y :: y in Insert(x, s, less) <==> y == x || y in s
  {
    InsertPermutes(x, s, less);
    forall y ensures y in Insert(x, s, less) <==> y == x || y in s {
      assert y in Insert(x, s, less) <==> y in multiset(Insert(x, s, less));
    }
  }

  lemma {:induction false} InsertInOrder<T(!new)>(x: T, s: seq<T>, less: (T, T) -> bool)
    requires WeakOrder(less) && InOrder(s, less)
    ensures InOrder(Insert(x, s, less), less)
  {
    if s != [] && less(s[0], x) {
      InsertInOrder(x, s[1..], less);
      InsertMembers(x, s[1..], less);
      var tail := Insert(x, s[1..], less);
      forall j | 0 <= j < |tail| ensures !less(tail[j], s[0]) {
        assert tail[j] in tail;
      }
    } else if s != [] {
      forall j | 0 <= j < |s| ensures !less(s[j], x) {
        assert j > 0 ==> !less(s[j], s[0]);
      }
    }
  }

  lemma {:induction false} SortInOrder<T(!new)>(s: seq<T>, less: (T, T) -> bool)
    requires WeakOrder(less)
    ensures InOrder(Sort(s, less), less)
  {
    if s != [] {
      SortInOrder(s[1..], less);
      InsertInOrder(s[0], Sort(s[1..], less), less);
    }
  }

  // ---------- the sorted sequence is unique ----------

  /** Elements that neither precedes are the same. */
  ghost predicate Separates<T>(s: seq<T>, less: (T, T) -> bool) {
    forall x, y | x in s && y in s && !less(x, y) && !less(y, x) :: x == y
  }

  lemma FirstIsLeast<T(!new)>(s: seq<T>, x: T, less: (T, T) -> bool)
    requires WeakOrder(less) && InOrder(s, less) && x in multiset(s)
    ensures s != [] && !less(x, s[0])
  {
    var i :| 0 <= i < |s| && s[i] == x;
  }

  lemma SameFirst<T(!new)>(a: seq<T>, b: seq<T>, less: (T, T) -> bool)
    requires WeakOrder(less) && InOrder(a, less) && InOrder(b, less) && Separates(a, less)
    requires multiset(a) == multiset(b) && a != []
    ensures b != [] && a[0] == b[0]
  {
    assert a[0] in multiset(a);
    FirstIsLeast(b, a[0], less);
    assert b[0] in multiset(b);
    FirstIsLeast(a, b[0], less);
    assert a[0] in a && b[0] in a;
  }

  lemma SameRest<T>(a: seq<T>, b: seq<T>)
    requires multiset(a) == multiset(b) && a != [] && b != [] && a[0] == b[0]
    ensures multiset(a[1..]) == multiset(b[1..])
  {
    assert a == [a[0]] + a[1..];
    assert b == [a[0]] + b[1..];
    assert multiset(a[1..]) == multiset(a) - multiset{a[0]};
    assert multiset(b[1..]) == multiset(b) - multiset{a[0]};
  }

  /** A sequence in order is determined by its elements, when the order separates them. */
  lemma {:induction false} InOrderUnique<T(!new)>(a: seq<T>, b: seq<T>, less: (T, T) -> bool)
    requires WeakOrder(less) && InOrder(a, less) && InOrder(b, less) && Separates(a, less)
    requires multiset(a) == multiset(b)
    ensures a == b
  {
    if a == [] {
      assert |multiset(b)| == 0;
    } else {
      SameFirst(a, b, less);
      SameRest(a, b);
      assert Separates(a[1..], less) by {
        assert forall x | x in a[1..] :: x in a;
      }
      InOrderUnique(a[1..], b[1..], less);
    }
  }

  lemma SortUnique<T(!new)>(a: seq<T>, b: seq<T>, less: (T, T) -> bool)
    requires WeakOrder(less) && Separates(a, less) && multiset(a) == multiset(b)
    ensures Sort(a, less) == Sort(b, less)
  {
    SortInOrder(a, less);
    SortInOrder(b, less);
    SortPermutes(a, less);
    SortPermutes(b, less);
    SortMembers(a, less);
    InOrderUnique(Sort(a, less), Sort(b, less), less);
  }
}
