/**
 Merging imported items into a list by an index that is built once and never refreshed. An item either
 targets a slot of the old list or is appended; a slot ends up with the last item that targets it.
 */
module MergeModel {
  import opened BackupModel

  // ---------- the index ----------

  /** Each key with the last position it occurs at, as repeated `QHash::insert` leaves it. */
  function Index(keys: seq<string>): (m: map<string, nat>)
    ensures forall k :: k in m <==> k in keys
    ensures forall k | k in m :: m[k] < |keys| && keys[m[k]] == k
    ensures forall k, j | k in m && m[k] < j < |keys| :: keys[j] != k
  {
    if keys == [] then map[]
    else
      var n := |keys| - 1;
      var front := Index(keys[..n]);
      assert keys == keys[..n] + [keys[n]];
      front[keys[n] := n]
  }

  lemma IndexStep(keys: seq<string>, i: nat)
    requires i < |keys|
    ensures Index(keys[..i + 1]) == Index(keys[..i])[keys[i] := i]
  {
    assert keys[..i + 1][..i] == keys[..i];
  }

  /** With distinct keys the index names the one position of each. */
  lemma IndexOfDistinct(keys: seq<string>, j: nat)
    requires j < |keys| && forall a, b | 0 <= a < b < |keys| :: keys[a] != keys[b]
    ensures keys[j] in Index(keys) && Index(keys)[keys[j]] == j
  {
  }

  // ---------- the merge ----------

  /** The items that target no slot, in order. */
  function Unmatched<T>(items: seq<T>, t: T -> Option<nat>): (r: seq<T>)
    ensures |r| <= |items|
    ensures forall x | x in r :: x in items && t(x).None?
    ensures forall x | x in items && t(x).None? :: x in r
  {
    if items == [] then []
    else
      var n := |items| - 1;
      var front := Unmatched(items[..n], t);
      assert items == items[..n] + [items[n]];
      if t(items[n]).None? then front + [items[n]] else front
  }

  /** The last item that targets slot `j`. */
  function LastHit<T>(items: seq<T>, t: T -> Option<nat>, j: nat): (r: Option<T>)
    ensures r.Some? ==> r.value in items && t(r.value) == Some(j)
    ensures r.None? <==> forall x | x in items :: t(x) != Some(j)
  {
    if items == [] then None
    else
      var n := |items| - 1;
      assert items == items[..n] + [items[n]];
      if t(items[n]) == Some(j) then Some(items[n]) else LastHit(items[..n], t, j)
  }

  function Slots<T>(current: seq<T>, items: seq<T>, t: T -> Option<nat>): (r: seq<T>)
    ensures |r| == |current|
  {
    seq(|current|, j requires 0 <= j < |current| =>
      var hit := LastHit(items, t, j); if hit.Some? then hit.value else current[j])
  }

  function Merge<T>(current: seq<T>, items: seq<T>, t: T -> Option<nat>): seq<T> {
    Slots(current, items, t) + Unmatched(items, t)
  }

  /** `LastHit` is the item at the last index that targets the slot. */
  lemma {:induction false} LastHitAt<T>(items: seq<T>, t: T -> Option<nat>, j: nat, i: nat)
    requires i < |items| && t(items[i]) == Some(j)
    requires forall k | i < k < |items| :: t(items[k]) != Some(j)
    ensures LastHit(items, t, j) == Some(items[i])
  {
    if i < |items| - 1 {
      LastHitAt(items[..|items| - 1], t, j, i);
    }
  }

  /** One turn of a merge loop. */
  lemma MergeStep<T>(current: seq<T>, items: seq<T>, t: T -> Option<nat>, i: nat)
    requires i < |items|
    requires t(items[i]).Some? ==> t(items[i]).value < |current|
    ensures var before := Merge(current, items[..i], t);
      Merge(current, items[..i + 1], t) ==
        if t(items[i]).Some? then before[t(items[i]).value := items[i]] else before + [items[i]]
  {
    assert items[..i + 1][..i] == items[..i];
    var before, after := Slots(current, items[..i], t), Slots(current, items[..i + 1], t);
    if t(items[i]).Some? {
      assert after == before[t(items[i]).value := items[i]];
    } else {
      assert after == before;
    }
  }

  // ---------- distinct ids ----------

  ghost predicate Distinct<T>(items: seq<T>, id: T -> string) {
    forall i, j | 0 <= i < j < |items| :: id(items[i]) != id(items[j])
  }

  /** An item whose id is already in the list targets the slot holding it. */
  ghost predicate TargetsById<T>(current: seq<T>, items: seq<T>, t: T -> Option<nat>, id: T -> string) {
    forall x, j | x in items && 0 <= j < |current| && id(current[j]) == id(x) :: t(x) == Some(j)
  }

  lemma DistinctItems<T>(items: seq<T>, id: T -> string, x: T, y: T)
    requires Distinct(items, id) && x in items && y in items && id(x) == id(y)
    ensures x == y
  {
    var i :| 0 <= i < |items| && items[i] == x;
    var j :| 0 <= j < |items| && items[j] == y;
  }

  lemma {:induction false} UnmatchedDistinct<T>(items: seq<T>, t: T -> Option<nat>, id: T -> string)
    requires Distinct(items, id)
    ensures Distinct(Unmatched(items, t), id)
  {
    if items != [] {
      var n := |items| - 1;
      UnmatchedDistinct(items[..n], t, id);
      forall x | x in Unmatched(items[..n], t) ensures id(x) != id(items[n]) {
        var i :| 0 <= i < n && items[..n][i] == x;
      }
    }
  }

  /** Slots keep distinct ids: two hits are different items, and an untouched slot's id was not imported. */
  lemma SlotsDistinct<T>(current: seq<T>, items: seq<T>, t: T -> Option<nat>, id: T -> string)
    requires Distinct(current, id) && Distinct(items, id) && TargetsById(current, items, t, id)
    ensures Distinct(Slots(current, items, t), id)
  {
    var r := Slots(current, items, t);
    forall i, j | 0 <= i < j < |r| ensures id(r[i]) != id(r[j]) {
      if id(r[i]) == id(r[j]) {
        var hit, other := LastHit(items, t, i), LastHit(items, t, j);
        if hit.Some? && other.Some? {
          DistinctItems(items, id, hit.value, other.value);
        }
      }
    }
  }

  lemma MergeDistinct<T>(current: seq<T>, items: seq<T>, t: T -> Option<nat>, id: T -> string)
    requires Distinct(current, id) && Distinct(items, id) && TargetsById(current, items, t, id)
    ensures Distinct(Merge(current, items, t), id)
  {
    var slots, tail := Slots(current, items, t), Unmatched(items, t);
    SlotsDistinct(current, items, t, id);
    UnmatchedDistinct(items, t, id);
    forall i, j | 0 <= i < |slots| && 0 <= j < |tail| ensures id(slots[i]) != id(tail[j]) {
      assert tail[j] in tail;
      var hit := LastHit(items, t, i);
      if id(slots[i]) == id(tail[j]) && hit.Some? {
        DistinctItems(items, id, hit.value, tail[j]);
      }
    }
    var r := Merge(current, items, t);
    forall i, j | 0 <= i < j < |r| ensures id(r[i]) != id(r[j]) {
      if i >= |slots| {
        assert id(tail[i - |slots|]) != id(tail[j - |slots|]);
      } else if j >= |slots| {
        assert id(slots[i]) != id(tail[j - |slots|]);
      } else {
        assert id(slots[i]) != id(slots[j]);
      }
    }
  }

  /** An item targets the slot with its id, if there is one, and no other. */
  ghost predicate ExactlyById<T>(current: seq<T>, items: seq<T>, t: T -> Option<nat>, id: T -> string) {
    && TargetsById(current, items, t, id)
    && forall x | x in items && t(x).Some? :: t(x).value < |current| && id(current[t(x).value]) == id(x)
  }

  /** No two items share an id that the list does not have. */
  ghost predicate NewIdsDiffer<T>(current: seq<T>, items: seq<T>, id: T -> string) {
    forall i, j | 0 <= i < j < |items| && id(items[i]) == id(items[j]) ::
      exists k :: 0 <= k < |current| && id(current[k]) == id(items[i])
  }

  /** The same by targets. */
  ghost predicate UnmatchedDiffer<T>(items: seq<T>, t: T -> Option<nat>, id: T -> string) {
    forall i, j | 0 <= i < j < |items| && t(items[i]).None? && t(items[j]).None? :: id(items[i]) != id(items[j])
  }

  lemma {:induction false} UnmatchedExactly<T>(items: seq<T>, t: T -> Option<nat>, id: T -> string)
    ensures Distinct(Unmatched(items, t), id) <==> UnmatchedDiffer(items, t, id)
  {
    if items != [] {
      var n := |items| - 1;
      var init, last, front := items[..n], items[n], Unmatched(items[..n], t);
      UnmatchedExactly(init, t, id);
      assert items == init + [last];
      if t(last).None? {
        LastUnmatched(init, last, front, t, id);
        assert Unmatched(items, t) == front + [last];
      }
    }
  }

  lemma LastUnmatched<T>(init: seq<T>, last: T, front: seq<T>, t: T -> Option<nat>, id: T -> string)
    requires front == Unmatched(init, t) && t(last).None?
    requires Distinct(front, id) <==> UnmatchedDiffer(init, t, id)
    ensures Distinct(front + [last], id) <==> UnmatchedDiffer(init + [last], t, id)
  {
    var r, items := front + [last], init + [last];
    if Distinct(r, id) {
      forall i, j | 0 <= i < j < |items| && t(items[i]).None? && t(items[j]).None?
        ensures id(items[i]) != id(items[j]) {
        assert forall a, b | 0 <= a < b < |front| :: r[a] == front[a] && r[b] == front[b];
        assert init[i] in front;
        var k :| 0 <= k < |front| && front[k] == init[i];
        assert r[k] == init[i] && r[|front|] == last;
        assert j < |init| ==> UnmatchedDiffer(init, t, id) && items[j] == init[j];
      }
    }
    if UnmatchedDiffer(items, t, id) {
      forall i, j | 0 <= i < j < |init| && t(init[i]).None? && t(init[j]).None? ensures id(init[i]) != id(init[j]) {
        assert items[i] == init[i] && items[j] == init[j];
      }
      forall k | 0 <= k < |front| ensures id(front[k]) != id(last) {
        assert front[k] in front;
        var i :| 0 <= i < |init| && init[i] == front[k];
        assert items[i] == init[i] && items[|init|] == last;
      }
    }
  }

  lemma SlotIds<T>(current: seq<T>, items: seq<T>, t: T -> Option<nat>, id: T -> string)
    requires ExactlyById(current, items, t, id)
    ensures forall j | 0 <= j < |current| :: id(Slots(current, items, t)[j]) == id(current[j])
  {
    forall j | 0 <= j < |current| ensures id(Slots(current, items, t)[j]) == id(current[j]) {
      var hit := LastHit(items, t, j);
      assert hit.Some? ==> hit.value in items && t(hit.value) == Some(j);
    }
  }

  lemma AppendDistinctExactly<T>(a: seq<T>, b: seq<T>, id: T -> string)
    requires Distinct(a, id) && forall i, j | 0 <= i < |a| && 0 <= j < |b| :: id(a[i]) != id(b[j])
    ensures Distinct(a + b, id) <==> Distinct(b, id)
  {
    if Distinct(a + b, id) {
      forall i, j | 0 <= i < j < |b| ensures id(b[i]) != id(b[j]) {
        assert (a + b)[|a| + i] == b[i] && (a + b)[|a| + j] == b[j];
      }
    }
  }

  lemma NewByTarget<T>(current: seq<T>, items: seq<T>, t: T -> Option<nat>, id: T -> string)
    requires ExactlyById(current, items, t, id)
    ensures NewIdsDiffer(current, items, id) <==> UnmatchedDiffer(items, t, id)
  {
    forall x | x in items
      ensures t(x).Some? <==> exists k :: 0 <= k < |current| && id(current[k]) == id(x)
    {
      if t(x).Some? {
        assert id(current[t(x).value]) == id(x);
      }
    }
    assert forall i | 0 <= i < |items| :: items[i] in items;
  }

  /** The merged ids are distinct if and only if no two items share an id that is new. */
  lemma MergeDistinctExactly<T>(current: seq<T>, items: seq<T>, t: T -> Option<nat>, id: T -> string)
    requires Distinct(current, id) && ExactlyById(current, items, t, id)
    ensures Distinct(Merge(current, items, t), id) <==> NewIdsDiffer(current, items, id)
  {
    var slots, tail := Slots(current, items, t), Unmatched(items, t);
    SlotIds(current, items, t, id);
    assert Distinct(slots, id);
    forall i, j | 0 <= i < |slots| && 0 <= j < |tail| ensures id(slots[i]) != id(tail[j]) {
      assert tail[j] in tail;
    }
    AppendDistinctExactly(slots, tail, id);
    UnmatchedExactly(items, t, id);
    NewByTarget(current, items, t, id);
  }

  // ---------- what becomes of an imported item ----------

  /** Some later item targets the same slot. */
  ghost predicate Overwritten<T>(items: seq<T>, t: T -> Option<nat>, i: nat)
    requires i < |items|
  {
    t(items[i]).Some? && exists k :: i < k < |items| && t(items[k]) == t(items[i])
  }

  /** An imported item is in the result exactly when no later one targets its slot. */
  lemma ItemSurvives<T>(current: seq<T>, items: seq<T>, t: T -> Option<nat>, id: T -> string, i: nat)
    requires Distinct(current, id) && Distinct(items, id) && TargetsById(current, items, t, id)
    requires i < |items| && (t(items[i]).Some? ==> t(items[i]).value < |current|)
    ensures items[i] in Merge(current, items, t) <==> !Overwritten(items, t, i)
  {
    var r, x := Merge(current, items, t), items[i];
    if t(x).None? {
      assert x in Unmatched(items, t);
    } else {
      var j := t(x).value;
      if !Overwritten(items, t, i) {
        LastHitAt(items, t, j, i);
        assert r[j] == x;
      } else {
        var k :| i < k < |items| && t(items[k]) == Some(j);
        var last := LastIndex(items, t, j, k);
        LastHitAt(items, t, j, last);
        assert id(items[i]) != id(items[last]);
        if x in r {
          HitsItsTarget(current, items, t, id, x);
        }
      }
    }
  }

  /** A slot that no item targets keeps its old item; the others hold an item that targets them; the rest follows. */
  lemma SlotMeaning<T>(current: seq<T>, items: seq<T>, t: T -> Option<nat>, j: nat)
    requires j < |current|
    ensures var r := Merge(current, items, t);
      && |r| == |current| + |Unmatched(items, t)| && r[|current|..] == Unmatched(items, t)
      && ((forall x | x in items :: t(x) != Some(j)) ==> r[j] == current[j])
      && ((exists x :: x in items && t(x) == Some(j)) ==> r[j] in items && t(r[j]) == Some(j))
  {
    var hit := LastHit(items, t, j);
  }

  lemma HitsItsTarget<T>(current: seq<T>, items: seq<T>, t: T -> Option<nat>, id: T -> string, x: T)
    requires TargetsById(current, items, t, id) && x in items && x in Merge(current, items, t)
    requires t(x).Some? && t(x).value < |current|
    ensures LastHit(items, t, t(x).value) == Some(x)
  {
    var r := Merge(current, items, t);
    var m :| 0 <= m < |r| && r[m] == x;
    var u := Unmatched(items, t);
    forall q | 0 <= q < |u| ensures u[q] != x {
      assert u[q] in u;
    }
    assert m < |current|;
    var hit := LastHit(items, t, m);
  }

  lemma {:induction false} LastIndex<T>(items: seq<T>, t: T -> Option<nat>, j: nat, k: nat) returns (last: nat)
    requires k < |items| && t(items[k]) == Some(j)
    ensures k <= last < |items| && t(items[last]) == Some(j)
    ensures forall m | last < m < |items| :: t(items[m]) != Some(j)
    decreases |items| - k
  {
    if m :| k < m < |items| && t(items[m]) == Some(j) {
      last := LastIndex(items, t, j, m);
    } else {
      last := k;
    }
  }

  lemma {:induction false} AllMatched<T>(items: seq<T>, t: T -> Option<nat>)
    requires forall x | x in items :: t(x).Some?
    ensures Unmatched(items, t) == []
  {
    if items != [] {
      AllMatched(items[..|items| - 1], t);
    }
  }

  /** Merging the same items into a list that already holds them all, at their targets, changes nothing. */
  lemma MergeAgain<T>(list: seq<T>, items: seq<T>, t: T -> Option<nat>)
    requires forall x | x in items :: t(x).Some? && t(x).value < |list| && list[t(x).value] == x
    ensures Merge(list, items, t) == list
  {
    AllMatched(items, t);
    assert Slots(list, items, t) == list;
  }

  /** Item `i` goes where a later item already is. */
  ghost predicate Yields<T>(list: seq<T>, items: seq<T>, t: T -> Option<nat>, i: nat)
    requires i < |items|
  {
    && t(items[i]).Some? && t(items[i]).value < |list|
    && exists m :: i < m < |items| && list[t(items[i]).value] == items[m]
  }

  lemma AllMatchedBack<T>(items: seq<T>, t: T -> Option<nat>)
    requires Unmatched(items, t) == []
    ensures forall x | x in items :: t(x).Some?
  {
  }

  /** If merging changes nothing, an item that is not in the list yields to a later one that is. */
  lemma SettledYields<T>(list: seq<T>, items: seq<T>, t: T -> Option<nat>, i: nat)
    requires forall x | x in items && t(x).Some? :: t(x).value < |list|
    requires Merge(list, items, t) == list && i < |items| && items[i] !in list
    ensures Yields(list, items, t, i)
  {
    assert |Slots(list, items, t)| + |Unmatched(items, t)| == |list|;
    AllMatchedBack(items, t);
    assert items[i] in items;
    var k := t(items[i]).value;
    var last := LastIndex(items, t, k, i);
    LastHitAt(items, t, k, last);
    assert Slots(list, items, t)[k] == items[last];
    assert Merge(list, items, t)[k] == items[last];
  }

  /** A slot is hit last by what it already holds, if every item that is not in the list yields. */
  lemma SlotSettled<T>(list: seq<T>, items: seq<T>, t: T -> Option<nat>, id: T -> string, j: nat, l: nat)
    requires Distinct(list, id) && TargetsById(list, items, t, id)
    requires forall i | 0 <= i < |items| && items[i] !in list :: Yields(list, items, t, i)
    requires j < |list| && l < |items| && t(items[l]) == Some(j)
    ensures items[l] == list[j] || exists k :: l < k < |items| && t(items[k]) == Some(j)
  {
    if items[l] in list {
      var p :| 0 <= p < |list| && list[p] == items[l];
      assert items[l] in items;
      assert t(items[l]) == Some(p);
    } else {
      assert Yields(list, items, t, l);
      var m :| l < m < |items| && list[j] == items[m];
      assert items[m] in items && id(list[j]) == id(items[m]);
      assert t(items[m]) == Some(j);
    }
  }

  lemma YieldsSettled<T>(list: seq<T>, items: seq<T>, t: T -> Option<nat>, id: T -> string)
    requires Distinct(list, id) && TargetsById(list, items, t, id)
    requires forall i | 0 <= i < |items| && items[i] !in list :: Yields(list, items, t, i)
    ensures Merge(list, items, t) == list
  {
    forall x | x in items ensures t(x).Some? {
      var i :| 0 <= i < |items| && items[i] == x;
      if x in list {
        var p :| 0 <= p < |list| && list[p] == x;
      } else {
        assert Yields(list, items, t, i);
      }
    }
    AllMatched(items, t);
    forall j | 0 <= j < |list| ensures Slots(list, items, t)[j] == list[j] {
      var hit := LastHit(items, t, j);
      if hit.Some? {
        var k :| 0 <= k < |items| && items[k] == hit.value;
        var last := LastIndex(items, t, j, k);
        LastHitAt(items, t, j, last);
        SlotSettled(list, items, t, id, j, last);
      }
    }
    assert Slots(list, items, t) == list;
  }

  /** Merging changes nothing if and only if every item that is not in the list goes where a later item already is. */
  lemma MergeSettles<T>(list: seq<T>, items: seq<T>, t: T -> Option<nat>, id: T -> string)
    requires Distinct(list, id) && TargetsById(list, items, t, id)
    requires forall x | x in items && t(x).Some? :: t(x).value < |list|
    ensures Merge(list, items, t) == list <==>
      forall i | 0 <= i < |items| && items[i] !in list :: Yields(list, items, t, i)
  {
    if Merge(list, items, t) == list {
      forall i | 0 <= i < |items| && items[i] !in list ensures Yields(list, items, t, i) {
        SettledYields(list, items, t, i);
      }
    }
    if forall i | 0 <= i < |items| && items[i] !in list :: Yields(list, items, t, i) {
      YieldsSettled(list, items, t, id);
    }
  }
}
