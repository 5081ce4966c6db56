/** The lexicographic order on strings by code point. */
module StringOrder {

  predicate Less(a: string, b: string) {
    if b == "" then false
    else if a == "" then true
    else if a[0] != b[0] then a[0] < b[0]
    else Less(a[1..], b[1..])
  }

  /** The first `k` characters agree, and then `a` ends or has the smaller character. */
  ghost predicate DiffersAt(a: string, b: string, k: nat) {
    && k <= |a| && k < |b| && a[..k] == b[..k]
    && (k == |a| || a[k] < b[k])
  }

  lemma DiffersLonger(a: string, b: string, k: nat)
    requires a != "" && b != "" && a[0] == b[0] && k > 0
    ensures DiffersAt(a, b, k) <==> DiffersAt(a[1..], b[1..], k - 1)
  {
    if k <= |a| && k <= |b| {
      assert a[..k] == [a[0]] + a[1..][..k - 1] && b[..k] == [b[0]] + b[1..][..k - 1];
      assert a[1..][..k - 1] == a[..k][1..] && b[1..][..k - 1] == b[..k][1..];
    }
  }

  lemma DiffersFirst(a: string, b: string, k: nat)
    ensures a != "" && b != "" && a[0] != b[0] && DiffersAt(a, b, k) ==> k == 0
  {
    if 0 < k <= |a| && k <= |b| {
      assert a[..k][0] == a[0] && b[..k][0] == b[0];
    }
  }

  /** Where two strings first differ decides. */
  lemma {:induction false} LessMeaning(a: string, b: string)
    ensures Less(a, b) <==> exists k: nat :: DiffersAt(a, b, k)
  {
    if a == "" || b == "" || a[0] != b[0] {
      forall k: nat ensures a != "" && b != "" && DiffersAt(a, b, k) ==> k == 0 {
        DiffersFirst(a, b, k);
      }
      assert Less(a, b) <==> DiffersAt(a, b, 0);
    } else {
      LessMeaning(a[1..], b[1..]);
      assert !DiffersAt(a, b, 0);
      if k: nat :| DiffersAt(a[1..], b[1..], k) {
        DiffersLonger(a, b, k + 1);
      }
      if k: nat :| DiffersAt(a, b, k) {
        DiffersLonger(a, b, k);
      }
    }
  }

  lemma {:induction false} LessTotal(a: string, b: string)
    ensures !(Less(a, b) && Less(b, a))
    ensures a != b <==> Less(a, b) || Less(b, a)
  {
    if a != "" && b != "" && a[0] == b[0] {
      LessTotal(a[1..], b[1..]);
      assert a == [a[0]] + a[1..];
      assert b == [b[0]] + b[1..];
    }
  }

  lemma {:induction false} LessTransitive(a: string, b: string, c: string)
    requires Less(a, b) && Less(b, c)
    ensures Less(a, c)
  {
    if a != "" && a[0] == b[0] == c[0] {
      LessTransitive(a[1..], b[1..], c[1..]);
    }
  }

  lemma NotLessTransitive(a: string, b: string, c: string)
    ensures !Less(b, a) && !Less(c, b) ==> !Less(c, a)
  {
    LessTotal(a, b);
    LessTotal(b, c);
    LessTotal(a, c);
    if Less(a, b) && Less(b, c) {
      LessTransitive(a, b, c);
    }
  }

  /** Two strings with a common prefix compare as their rests do. */
  lemma {:induction false} LessPrefix(p: string, a: string, b: string)
    ensures Less(p + a, p + b) <==> Less(a, b)
  {
    if p == "" {
      assert p + a == a && p + b == b;
    } else {
      assert (p + a)[1..] == p[1..] + a;
      assert (p + b)[1..] == p[1..] + b;
      LessPrefix(p[1..], a, b);
    }
  }

  ghost predicate Sorted(s: seq<string>) {
    forall i, j | 0 <= i < j < |s| :: Less(s[i], s[j])
  }

  /** The least element of a nonempty set. */
  method Least(names: set<string>) returns (least: string)
    requires names != {}
    ensures least in names && forall n | n in names && n != least :: Less(least, n)
  {
    least :| least in names;
    var todo := names - {least};
    while todo != {}
      invariant todo <= names && least in names && least !in todo
      invariant forall n | n in names - todo && n != least :: Less(least, n)
      decreases todo
    {
      var n :| n in todo;
      todo := todo - {n};
      LessTotal(n, least);
      if Less(n, least) {
        forall m | m in names - todo && m != n ensures Less(n, m) {
          if m != least {
            LessTransitive(n, least, m);
          }
        }
        least := n;
      }
    }
  }

  /** The elements of a set in increasing order. */
  method SortSet(names: set<string>) returns (list: seq<string>)
    ensures Sorted(list)
    ensures forall n :: n in list <==> n in names
  {
    list := [];
    var todo := names;
    while todo != {}
      invariant todo <= names && Sorted(list)
      invariant forall n :: n in list <==> n in names - todo
      invariant forall n, m | n in list && m in todo :: Less(n, m)
      decreases todo
    {
      var n := Least(todo);
      list := list + [n];
      todo := todo - {n};
    }
  }
}
