/** Which names a merge of routing or DNS profiles gives, and when two of them are the same. */
module ImportNames {
  import opened BackupModel
  import opened MergeModel
  import opened UniqueNames
  import opened BackupImporter

  // ---------- the names of the appended profiles ----------

  /** The names known when item `i` is appended. */
  function Known(u: seq<NamedProfile>, used: set<string>, i: nat): set<string>
    requires i <= |u|
  {
    used + Names(Renamed(u[..i], used))
  }

  lemma RenamedFront(u: seq<NamedProfile>, used: set<string>)
    requires u != []
    ensures var n := |u| - 1;
      && Renamed(u, used)[..n] == Renamed(u[..n], used)
      && Renamed(u, used)[n] == u[n].(name := UniqueName(u[n].name, Known(u, used, n)))
  {
    var n := |u| - 1;
    assert u == u[..n] + [u[n]];
    RenamedStep(u[..n], u[n], used);
  }

  lemma KnownPrefix(u: seq<NamedProfile>, used: set<string>, n: nat, i: nat)
    requires i <= n <= |u|
    ensures u[..n][..i] == u[..i] && Known(u[..n], used, i) == Known(u, used, i)
  {
    assert u[..n][..i] == u[..i];
  }

  lemma PrefixOfPrefix(r: seq<NamedProfile>, front: seq<NamedProfile>, i: nat)
    requires i < |front| < |r| && r[..|front|] == front
    ensures r[i] == front[i] && r[..i] == front[..i]
  {
    assert r[..|front|][..i] == r[..i];
  }

  lemma {:induction false} RenamedAt(u: seq<NamedProfile>, used: set<string>, i: nat)
    requires i < |u|
    ensures Renamed(u, used)[..i] == Renamed(u[..i], used)
    ensures Renamed(u, used)[i] == u[i].(name := UniqueName(u[i].name, Known(u, used, i)))
  {
    var n := |u| - 1;
    RenamedFront(u, used);
    if i < n {
      RenamedAt(u[..n], used, i);
      KnownPrefix(u, used, n, i);
      PrefixOfPrefix(Renamed(u, used), Renamed(u[..n], used), i);
    }
  }

  /** Item `i` finds its own name taken, and this is the first numbered candidate that is free. */
  ghost predicate Lands(u: seq<NamedProfile>, used: set<string>, i: nat, name: string) {
    i < |u| && u[i].name in Known(u, used, i) && name == UniqueName(u[i].name, Known(u, used, i))
  }

  ghost predicate NameOfSome(u: seq<NamedProfile>, name: string) {
    exists x | x in u :: x.name == name
  }

  lemma GivenIsOwnOrLanded(u: seq<NamedProfile>, used: set<string>, name: string)
    requires name in Names(Renamed(u, used))
    ensures name !in used && (NameOfSome(u, name) || exists i: nat :: Lands(u, used, i, name))
  {
    var r := Renamed(u, used);
    RenamedAreFresh(u, used);
    var p :| p in r && p.name == name;
    var i: nat :| i < |r| && r[i] == p;
    RenamedAt(u, used, i);
    if u[i].name in Known(u, used, i) {
      assert Lands(u, used, i, name);
    } else {
      assert u[i] in u;
    }
  }

  lemma OwnNameGiven(u: seq<NamedProfile>, used: set<string>, i: nat)
    requires i < |u| && u[i].name !in used
    ensures u[i].name in Names(Renamed(u, used))
  {
    var r := Renamed(u, used);
    RenamedAt(u, used, i);
    if u[i].name in Known(u, used, i) {
      var p :| p in r[..i] && p.name == u[i].name;
      assert p in r;
    } else {
      assert r[i] in r;
    }
  }

  lemma LandedNameGiven(u: seq<NamedProfile>, used: set<string>, i: nat, name: string)
    requires Lands(u, used, i, name)
    ensures name in Names(Renamed(u, used))
  {
    RenamedAt(u, used, i);
    assert Renamed(u, used)[i] in Renamed(u, used);
  }

  /**
   A name is given to an appended profile exactly when it is not in use and is some import's own, or the candidate
   at which an import with a taken name ends.
   */
  lemma GivenNames(u: seq<NamedProfile>, used: set<string>, name: string)
    ensures name in Names(Renamed(u, used)) <==>
      name !in used && (NameOfSome(u, name) || exists i: nat :: Lands(u, used, i, name))
  {
    if name in Names(Renamed(u, used)) {
      GivenIsOwnOrLanded(u, used, name);
    } else if name !in used && NameOfSome(u, name) {
      var x :| x in u && x.name == name;
      var i: nat :| i < |u| && u[i] == x;
      OwnNameGiven(u, used, i);
    } else if i: nat :| Lands(u, used, i, name) {
      LandedNameGiven(u, used, i, name);
    }
  }

  /** A numbered candidate of some import's name. */
  ghost predicate Numbered(u: seq<NamedProfile>, name: string) {
    exists x, k: nat | x in u && k >= 2 :: name == Candidate(x.name, k)
  }

  /** Any other name is given exactly when it is new and some import's own. */
  lemma PlainNames(u: seq<NamedProfile>, used: set<string>, name: string)
    requires !Numbered(u, name)
    ensures name in Names(Renamed(u, used)) <==> name !in used && NameOfSome(u, name)
  {
    GivenNames(u, used, name);
    forall i: nat ensures !Lands(u, used, i, name) {
      if i < |u| && u[i].name in Known(u, used, i) {
        var k := FirstFree(u[i].name, Known(u, used, i), 2);
        assert u[i] in u && UniqueName(u[i].name, Known(u, used, i)) == Candidate(u[i].name, k);
      }
    }
  }

  // ---------- when all names are distinct ----------

  /** This slot of the old list was replaced by an import with its id. */
  ghost predicate Replaced(current: seq<NamedProfile>, imported: seq<NamedProfile>, i: nat) {
    i < |current| && LastHit(Custom(imported), NamedTarget(current), i).Some?
  }

  /** The old list with the replacements in it. */
  function Slotted(current: seq<NamedProfile>, imported: seq<NamedProfile>): (r: seq<NamedProfile>)
    ensures |r| == |current|
  {
    Slots(current, Custom(imported), NamedTarget(current))
  }

  /** The imports that are appended, under the names they bring. */
  function Added(current: seq<NamedProfile>, imported: seq<NamedProfile>): seq<NamedProfile> {
    Unmatched(Custom(imported), NamedTarget(current))
  }

  lemma UntouchedSlot(current: seq<NamedProfile>, imported: seq<NamedProfile>, i: nat)
    requires i < |current| && !Replaced(current, imported, i)
    ensures Slotted(current, imported)[i] == current[i] && current[i].name in Names(current)
  {
    assert current[i] in current;
  }

  lemma DistinctParts(slots: seq<NamedProfile>, tail: seq<NamedProfile>)
    requires Distinct(tail, NameOf())
    ensures Distinct(slots + tail, NameOf()) <==>
      Distinct(slots, NameOf()) && forall i | 0 <= i < |slots| :: slots[i].name !in Names(tail)
  {
    var r := slots + tail;
    if Distinct(r, NameOf()) {
      forall i, j | 0 <= i < j < |slots| ensures NameOf()(slots[i]) != NameOf()(slots[j]) {
        assert r[i] == slots[i] && r[j] == slots[j];
      }
      forall i, j | 0 <= i < |slots| && 0 <= j < |tail| ensures slots[i].name != tail[j].name {
        assert r[i] == slots[i] && r[|slots| + j] == tail[j];
        assert NameOf()(r[i]) != NameOf()(r[|slots| + j]);
      }
    }
    if Distinct(slots, NameOf()) && forall i | 0 <= i < |slots| :: slots[i].name !in Names(tail) {
      forall i, j | 0 <= i < |slots| && 0 <= j < |tail| ensures slots[i].name != tail[j].name {
        assert tail[j] in tail && tail[j].name in Names(tail);
      }
      AppendDistinct(slots, tail);
    }
  }

  lemma AppendDistinct(a: seq<NamedProfile>, b: seq<NamedProfile>)
    requires Distinct(a, NameOf()) && Distinct(b, NameOf())
    requires forall i, j | 0 <= i < |a| && 0 <= j < |b| :: a[i].name != b[j].name
    ensures Distinct(a + b, NameOf())
  {
  }

  lemma FreshDistinct(items: seq<NamedProfile>, tail: seq<NamedProfile>, used: set<string>)
    requires Fresh(items, tail, used)
    ensures Distinct(tail, NameOf())
  {
  }

  /** This slot's name is given again to an appended profile. */
  ghost predicate GivenAgain(current: seq<NamedProfile>, imported: seq<NamedProfile>, i: nat)
    requires i < |current|
  {
    var name, u := Slotted(current, imported)[i].name, Added(current, imported);
    && name !in Names(current)
    && (NameOfSome(u, name) || exists k: nat :: Lands(u, Names(current), k, name))
  }

  /**
   For every import: the merged names are distinct if and only if those of the old list with its replacements are,
   and no replacement brings a new name that an appended import has as its own or ends at.
   */
  lemma NamedNamesDistinct(current: seq<NamedProfile>, imported: seq<NamedProfile>)
    ensures Distinct(MergedNamed(current, imported), NameOf()) <==>
      && Distinct(Slotted(current, imported), NameOf())
      && forall i: nat | Replaced(current, imported, i) :: !GivenAgain(current, imported, i)
  {
    var slots, u, used := Slotted(current, imported), Added(current, imported), Names(current);
    var tail := Renamed(u, used);
    RenamedAreFresh(u, used);
    FreshDistinct(u, tail, used);
    DistinctParts(slots, tail);
    forall i: nat | i < |current| ensures slots[i].name in Names(tail) <==> GivenAgain(current, imported, i) {
      GivenNames(u, used, slots[i].name);
    }
    forall i: nat | i < |current| && !Replaced(current, imported, i) ensures !GivenAgain(current, imported, i) {
      UntouchedSlot(current, imported, i);
    }
  }

  /** No replacement is called like a numbered candidate of an appended import. */
  ghost predicate NothingNumbered(current: seq<NamedProfile>, imported: seq<NamedProfile>) {
    forall i: nat | Replaced(current, imported, i) ::
      !Numbered(Added(current, imported), Slotted(current, imported)[i].name)
  }

  /**
   Then what the two lists call their profiles decides alone: the names are distinct if and only if those of the old
   list with its replacements are, and a replacement shares its name with an appended import only if it is an old one.
   */
  lemma PlainNamesDistinct(current: seq<NamedProfile>, imported: seq<NamedProfile>)
    requires NothingNumbered(current, imported)
    ensures Distinct(MergedNamed(current, imported), NameOf()) <==>
      && Distinct(Slotted(current, imported), NameOf())
      && forall i: nat, x | Replaced(current, imported, i) && x in Added(current, imported)
                            && Slotted(current, imported)[i].name == x.name :: x.name in Names(current)
  {
    var slots, u, used := Slotted(current, imported), Added(current, imported), Names(current);
    NamedNamesDistinct(current, imported);
    forall i: nat | Replaced(current, imported, i)
      ensures GivenAgain(current, imported, i) <==> slots[i].name !in used && NameOfSome(u, slots[i].name)
    {
      GivenNames(u, used, slots[i].name);
      PlainNames(u, used, slots[i].name);
    }
  }

  /** When nothing is matched by id, the old list stays in front and only its own names matter. */
  lemma NothingReplaced(current: seq<NamedProfile>, imported: seq<NamedProfile>)
    requires forall i: nat :: !Replaced(current, imported, i)
    ensures current <= MergedNamed(current, imported)
    ensures Distinct(MergedNamed(current, imported), NameOf()) <==> Distinct(current, NameOf())
  {
    forall i: nat | i < |current| ensures Slotted(current, imported)[i] == current[i] {
      UntouchedSlot(current, imported, i);
    }
    assert Slotted(current, imported) == current;
    NamedNamesDistinct(current, imported);
  }

  lemma TailNames(current: seq<NamedProfile>, imported: seq<NamedProfile>)
    ensures var r, n := MergedNamed(current, imported), |current|;
      && n <= |r| && (forall j | n <= j < |r| :: r[j].name !in Names(current))
      && (forall i, j | n <= i < j < |r| :: r[i].name != r[j].name)
  {
    RenamedAreFresh(Added(current, imported), Names(current));
    FreshTail(Slotted(current, imported), Renamed(Added(current, imported), Names(current)),
              Added(current, imported), Names(current));
  }

  lemma FreshTail(slots: seq<NamedProfile>, tail: seq<NamedProfile>, items: seq<NamedProfile>, used: set<string>)
    requires Fresh(items, tail, used)
    ensures var r, n := slots + tail, |slots|;
      && (forall j | n <= j < |r| :: r[j].name !in used)
      && (forall i, j | n <= i < j < |r| :: r[i].name != r[j].name)
  {
    var r, n := slots + tail, |slots|;
    forall j | n <= j < |r| ensures r[j] == tail[j - n] {
    }
  }

  /** Two profiles of the merged list share a name only if one of them replaced a profile by id. */
  lemma NamesRepeatByReplacement(current: seq<NamedProfile>, imported: seq<NamedProfile>, i: nat, j: nat)
    requires Distinct(current, NameOf()) && i < j < |MergedNamed(current, imported)|
    ensures MergedNamed(current, imported)[i].name == MergedNamed(current, imported)[j].name ==>
      Replaced(current, imported, i) || Replaced(current, imported, j)
  {
    TailNames(current, imported);
    if i < |current| && !Replaced(current, imported, i) {
      UntouchedSlot(current, imported, i);
    }
    if j < |current| && !Replaced(current, imported, j) {
      UntouchedSlot(current, imported, j);
      assert NameOf()(current[i]) != NameOf()(current[j]);
    }
  }

  // ---------- two ways to get the same name twice ----------

  lemma TargetsOfOthers(current: seq<NamedProfile>, items: seq<NamedProfile>, k: nat)
    requires current != [] && k < |items| && items[k].id != current[0].id
    requires ExactlyById(current, items, NamedTarget(current), NamedId())
    ensures NamedTarget(current)(items[k]) != Some(0)
  {
    assert items[k] in items;
  }

  lemma FirstReplaced(current: seq<NamedProfile>, imported: seq<NamedProfile>)
    requires current != [] && Distinct(current, NamedId())
    requires imported != [] && imported[0].id == current[0].id && forall p | p in imported :: !p.isBuiltIn
    requires forall i | 1 <= i < |imported| :: imported[i].id != current[0].id
    ensures Replaced(current, imported, 0) && Slotted(current, imported)[0] == imported[0]
  {
    var t := NamedTarget(current);
    AllCustom(imported);
    NamedById(current, imported);
    assert imported[0] in imported && t(imported[0]) == Some(0);
    forall k | 0 < k < |imported| ensures t(imported[k]) != Some(0) {
      TargetsOfOthers(current, imported, k);
    }
    LastHitAt(imported, t, 0, 0);
  }

  lemma {:induction false} AllCustom(imported: seq<NamedProfile>)
    requires forall p | p in imported :: !p.isBuiltIn
    ensures Custom(imported) == imported
  {
    if imported != [] {
      var n := |imported| - 1;
      AllCustom(imported[..n]);
      CustomStep(imported, n);
      assert imported[..n + 1] == imported;
      assert imported[n] in imported;
    }
  }

  /** An import by id can take the name of another profile. */
  lemma NameShared(a: NamedProfile, b: NamedProfile)
    requires a.id != b.id && a.name != b.name && !a.isBuiltIn
    ensures !Distinct(MergedNamed([a, b], [a.(name := b.name)]), NameOf())
  {
    var current, x := [a, b], a.(name := b.name);
    FirstReplaced(current, [x]);
    AllCustom([x]);
    assert x.id != b.id;
    assert LastHit([x], NamedTarget(current), 1).None?;
    var slots := Slotted(current, [x]);
    assert slots[1] == b;
    assert NameOf()(slots[0]) == NameOf()(slots[1]);
    NamedNamesDistinct(current, [x]);
  }

  lemma TwoAdded(a: NamedProfile, x: NamedProfile, b: NamedProfile, c: NamedProfile)
    requires x.id == a.id && b.id != a.id && c.id != a.id && !x.isBuiltIn && !b.isBuiltIn && !c.isBuiltIn
    ensures Added([a], [x, b, c]) == [b, c]
  {
    var items, t := [x, b, c], NamedTarget([a]);
    AllCustom(items);
    IndexOfDistinct(Ids([a], NamedId()), 0);
    assert Ids([a], NamedId())[0] == a.id;
    assert t(x) == Some(0) && t(b).None? && t(c).None?;
    assert items[..2] == [x, b] && [x, b][..1] == [x] && [x][..0] == [];
    assert Unmatched([x], t) == [];
    assert Unmatched([x, b], t) == [b];
  }

  lemma SecondLands(b: NamedProfile, c: NamedProfile, used: set<string>)
    requires b.name == c.name && b.name !in used && Candidate(b.name, 2) !in used && Candidate(b.name, 2) != b.name
    ensures Lands([b, c], used, 1, Candidate(b.name, 2))
  {
    var u := [b, c];
    assert u[..1] == [b] && [b][..0] == [];
    assert Renamed([b], used) == [b];
    assert b in [b];
    assert Known(u, used, 1) == used + {b.name};
  }

  /**
   A replacement named like a numbered candidate can meet the number that the merge gives to an appended import,
   although nobody else brings that name.
   */
  lemma NumberMet(a: NamedProfile, b: NamedProfile, c: NamedProfile)
    requires a.id != b.id && a.id != c.id && !a.isBuiltIn && !b.isBuiltIn && !c.isBuiltIn
    requires b.name == c.name && a.name != b.name
    requires Candidate(b.name, 2) != a.name && Candidate(b.name, 2) != b.name
    ensures !Distinct(MergedNamed([a], [a.(name := Candidate(b.name, 2)), b, c]), NameOf())
  {
    var x := a.(name := Candidate(b.name, 2));
    FirstReplaced([a], [x, b, c]);
    TwoAdded(a, x, b, c);
    SecondLands(b, c, Names([a]));
    assert GivenAgain([a], [x, b, c], 0);
    NamedNamesDistinct([a], [x, b, c]);
  }
}
