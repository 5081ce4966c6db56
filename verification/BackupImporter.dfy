/** Importing the categories of a checked backup into the stores. */
module BackupImporter {
  import opened Text
  import opened BackupModel
  import opened MergeModel
  import opened UniqueNames

  datatype ImportMode = Replace | MergeMode | Skip

  datatype Profile = Profile(id: string, body: string)

  datatype Subscription = Subscription(id: string, url: string, body: string)

  /** A routing or DNS profile. */
  datatype NamedProfile = NamedProfile(id: string, name: string, isBuiltIn: bool, body: string)

  /** A store file; a missing or unreadable one loads as the empty list. */
  datatype Store<T> = Missing | Unreadable | Holds(items: seq<T>)

  function Load<T>(s: Store<T>): seq<T> {
    if s.Holds? then s.items else []
  }

  function Ids<T>(items: seq<T>, id: T -> string): (r: seq<string>)
    ensures |r| == |items| && forall i | 0 <= i < |items| :: r[i] == id(items[i])
  {
    seq(|items|, i requires 0 <= i < |items| => id(items[i]))
  }

  // ---------- profiles ----------

  function ProfileId(): Profile -> string {
    (p: Profile) => p.id
  }

  function ProfileTarget(current: seq<Profile>): Profile -> Option<nat> {
    var index := Index(Ids(current, ProfileId()));
    (p: Profile) => if p.id in index then Some(index[p.id]) else None
  }

  function MergedProfiles(current: seq<Profile>, imported: seq<Profile>): seq<Profile> {
    Merge(current, imported, ProfileTarget(current))
  }

  lemma ProfileTargetsById(current: seq<Profile>, imported: seq<Profile>)
    requires Distinct(current, ProfileId())
    ensures TargetsById(current, imported, ProfileTarget(current), ProfileId())
    ensures forall p :: ProfileTarget(current)(p).Some? ==>
      var j := ProfileTarget(current)(p).value; j < |current| && current[j].id == p.id
  {
    var ids := Ids(current, ProfileId());
    forall x, j | x in imported && 0 <= j < |current| && current[j].id == x.id
      ensures ProfileTarget(current)(x) == Some(j)
    {
      IndexOfDistinct(ids, j);
    }
  }

  /**
   The merged ids are distinct if and only if no two imports with an id that is new share it; imports that repeat an
   id of the store are harmless.
   */
  lemma ProfileIdsDistinct(current: seq<Profile>, imported: seq<Profile>)
    requires Distinct(current, ProfileId())
    ensures Distinct(MergedProfiles(current, imported), ProfileId()) <==> NewIdsDiffer(current, imported, ProfileId())
  {
    ProfileTargetsById(current, imported);
    MergeDistinctExactly(current, imported, ProfileTarget(current), ProfileId());
  }

  /** With distinct ids on both sides the merged ids are distinct, and every imported profile is in the result. */
  lemma ProfilesStayDistinct(current: seq<Profile>, imported: seq<Profile>)
    requires Distinct(current, ProfileId()) && Distinct(imported, ProfileId())
    ensures Distinct(MergedProfiles(current, imported), ProfileId())
    ensures forall p | p in imported :: p in MergedProfiles(current, imported)
  {
    var t := ProfileTarget(current);
    ProfileTargetsById(current, imported);
    MergeDistinct(current, imported, t, ProfileId());
    forall p | p in imported ensures p in MergedProfiles(current, imported) {
      var i :| 0 <= i < |imported| && imported[i] == p;
      assert !Overwritten(imported, t, i);
      ItemSurvives(current, imported, t, ProfileId(), i);
    }
  }

  /** Importing the same profiles a second time changes nothing. */
  lemma ProfileMergeIdempotent(current: seq<Profile>, imported: seq<Profile>)
    requires Distinct(current, ProfileId()) && Distinct(imported, ProfileId())
    ensures var once := MergedProfiles(current, imported); MergedProfiles(once, imported) == once
  {
    var once := MergedProfiles(current, imported);
    ProfilesStayDistinct(current, imported);
    ProfileTargetsById(once, imported);
    forall p | p in imported
      ensures ProfileTarget(once)(p).Some? && ProfileTarget(once)(p).value < |once|
      && once[ProfileTarget(once)(p).value] == p
    {
      var j :| 0 <= j < |once| && once[j] == p;
      assert once[j].id == p.id;
    }
    MergeAgain(once, imported, ProfileTarget(once));
  }

  /** The merge loop with its counters. */
  method MergeProfiles(saved: seq<Profile>, imported: seq<Profile>)
    returns (current: seq<Profile>, added: nat, updated: nat)
    ensures current == MergedProfiles(saved, imported)
    ensures added + updated == |imported|
    ensures |current| == |saved| + added
  {
    var indexById: map<string, nat> := map[];
    ghost var ids := Ids(saved, ProfileId());
    for i := 0 to |saved|
      invariant indexById == Index(ids[..i])
    {
      IndexStep(ids, i);
      indexById := indexById[saved[i].id := i];
    }
    assert ids[..|saved|] == ids;

    ghost var t := ProfileTarget(saved);
    current, added, updated := saved, 0, 0;
    assert Merge(saved, imported[..0], t) == saved;
    for i := 0 to |imported|
      invariant current == Merge(saved, imported[..i], t)
      invariant added + updated == i && |current| == |saved| + added
    {
      MergeStep(saved, imported, t, i);
      if imported[i].id in indexById {
        current := current[indexById[imported[i].id] := imported[i]];
        updated := updated + 1;
      } else {
        current := current + [imported[i]];
        added := added + 1;
      }
    }
    assert imported[..|imported|] == imported;
  }

  /** Merging into an empty list is taking the import. */
  lemma {:induction false} ProfilesIntoNothing(imported: seq<Profile>)
    ensures MergedProfiles([], imported) == imported
  {
    NothingMatched(imported, ProfileTarget([]));
  }

  lemma {:induction false} NothingMatched<T>(items: seq<T>, t: T -> Option<nat>)
    requires forall x :: t(x).None?
    ensures Unmatched(items, t) == items
  {
    if items != [] {
      var n := |items| - 1;
      NothingMatched(items[..n], t);
      assert items == items[..n] + [items[n]];
    }
  }

  /** A profile whose id is not imported stays where it is; one whose id is imported is replaced where it is. */
  lemma ProfileSlots(current: seq<Profile>, imported: seq<Profile>, j: nat)
    requires Distinct(current, ProfileId()) && j < |current|
    ensures var r := MergedProfiles(current, imported);
      && |r| >= |current| && r[j].id == current[j].id
      && ((forall x | x in imported :: x.id != current[j].id) ==> r[j] == current[j])
      && ((exists x :: x in imported && x.id == current[j].id) ==> r[j] in imported)
  {
    var t := ProfileTarget(current);
    ProfileTargetsById(current, imported);
    SlotMeaning(current, imported, t, j);
    forall x | x in imported ensures t(x) == Some(j) <==> x.id == current[j].id {
    }
  }

  // ---------- subscriptions ----------

  function SubscriptionId(): Subscription -> string {
    (s: Subscription) => s.id
  }

  function UrlKey(s: Subscription): string {
    Lower(Trim(s.url))
  }

  /** The slot with the same id, else the slot with the same address. */
  function SubscriptionTarget(current: seq<Subscription>): Subscription -> Option<nat> {
    var byId := Index(Ids(current, SubscriptionId()));
    var byUrl := Index(Ids(current, UrlKey));
    (s: Subscription) =>
      if s.id in byId then Some(byId[s.id])
      else if UrlKey(s) != "" && UrlKey(s) in byUrl then Some(byUrl[UrlKey(s)])
      else None
  }

  function MergedSubscriptions(current: seq<Subscription>, imported: seq<Subscription>): seq<Subscription> {
    Merge(current, imported, SubscriptionTarget(current))
  }

  lemma SubscriptionTargetsById(current: seq<Subscription>, imported: seq<Subscription>)
    requires Distinct(current, SubscriptionId())
    ensures TargetsById(current, imported, SubscriptionTarget(current), SubscriptionId())
    ensures forall s :: SubscriptionTarget(current)(s).Some? ==> SubscriptionTarget(current)(s).value < |current|
  {
    var ids := Ids(current, SubscriptionId());
    forall x, j | x in imported && 0 <= j < |current| && current[j].id == x.id
      ensures SubscriptionTarget(current)(x) == Some(j)
    {
      IndexOfDistinct(ids, j);
    }
  }

  /**
   Matching by address can move an imported id into a slot of another id; the ids stay distinct all the same,
   and an imported subscription is lost exactly when a later one targets the same slot.
   */
  lemma SubscriptionsStayDistinct(current: seq<Subscription>, imported: seq<Subscription>)
    requires Distinct(current, SubscriptionId()) && Distinct(imported, SubscriptionId())
    ensures Distinct(MergedSubscriptions(current, imported), SubscriptionId())
    ensures forall i | 0 <= i < |imported| ::
      imported[i] in MergedSubscriptions(current, imported) <==> !Overwritten(imported, SubscriptionTarget(current), i)
  {
    var t := SubscriptionTarget(current);
    SubscriptionTargetsById(current, imported);
    MergeDistinct(current, imported, t, SubscriptionId());
    forall i | 0 <= i < |imported|
      ensures imported[i] in MergedSubscriptions(current, imported) <==> !Overwritten(imported, t, i)
    {
      ItemSurvives(current, imported, t, SubscriptionId(), i);
    }
  }

  /** Two addresses are the same if they differ in case and in white space at the ends only; blank ones are not. */
  predicate SameAddress(a: Subscription, b: Subscription) {
    EqualsIgnoreCase(Trim(a.url), Trim(b.url)) && !Blank(a.url)
  }

  lemma BlankKey(s: Subscription)
    ensures UrlKey(s) == "" <==> Blank(s.url)
  {
  }

  /**
   An import with a new id goes to a slot with the same address, the last one, if there is any, and is appended
   otherwise; a blank address is nobody's.
   */
  lemma SlotByAddress(current: seq<Subscription>, s: Subscription)
    requires forall j | 0 <= j < |current| :: current[j].id != s.id
    ensures match SubscriptionTarget(current)(s)
      case Some(k) => k < |current| && SameAddress(s, current[k])
                      && forall j | k < j < |current| :: !SameAddress(s, current[j])
      case None => forall j | 0 <= j < |current| :: !SameAddress(s, current[j])
  {
    var ids, urls := Ids(current, SubscriptionId()), Ids(current, UrlKey);
    assert s.id !in ids;
    BlankKey(s);
    forall j | 0 <= j < |current| ensures SameAddress(s, current[j]) <==> UrlKey(s) != "" && urls[j] == UrlKey(s) {
    }
  }

  /**
   Importing the same subscriptions a second time changes nothing if and only if every one that the first import
   lost has an address that now leads to a slot holding a later one. Without a loss it therefore changes nothing.
   */
  lemma SubscriptionMergeIdempotent(current: seq<Subscription>, imported: seq<Subscription>)
    requires Distinct(current, SubscriptionId()) && Distinct(imported, SubscriptionId())
    ensures var once := MergedSubscriptions(current, imported);
      MergedSubscriptions(once, imported) == once <==>
        forall i | 0 <= i < |imported| && Overwritten(imported, SubscriptionTarget(current), i) ::
          Yields(once, imported, SubscriptionTarget(once), i)
  {
    var once := MergedSubscriptions(current, imported);
    SubscriptionsStayDistinct(current, imported);
    SubscriptionTargetsById(once, imported);
    MergeSettles(once, imported, SubscriptionTarget(once), SubscriptionId());
  }

  /** The first of two imports lands where the second does, and is lost; importing both again appends it. */
  lemma LostAndBack(x: Subscription, a: Subscription, b: Subscription)
    requires a.id != b.id && b.id == x.id && UrlKey(a) == UrlKey(x) != "" && UrlKey(b) != UrlKey(a)
    ensures var once := MergedSubscriptions([x], [a, b]);
      once == [b] && a in MergedSubscriptions(once, [a, b])
  {
    var imported := [a, b];
    var t, t' := SubscriptionTarget([x]), SubscriptionTarget([b]);
    SubscriptionTargetsById([x], imported);
    IndexOfDistinct(Ids([x], UrlKey), 0);
    assert imported[0] == a && imported[1] == b;
    assert t(a) == Some(0) && t(b) == Some(0);
    LastHitAt(imported, t, 0, 1);
    AllMatched(imported, t);
    assert MergedSubscriptions([x], imported) == [b];
    assert a.id !in Ids([b], SubscriptionId()) && UrlKey(a) !in Ids([b], UrlKey);
    assert t'(a).None?;
    assert a in Unmatched(imported, t');
  }

  /** Such a loss happens with distinct ids on both sides, and a second import then changes the list again. */
  lemma SubscriptionLost() returns (current: seq<Subscription>, imported: seq<Subscription>)
    ensures Distinct(current, SubscriptionId()) && Distinct(imported, SubscriptionId())
    ensures |imported| > 0 && imported[0] !in MergedSubscriptions(current, imported)
    ensures var once := MergedSubscriptions(current, imported); MergedSubscriptions(once, imported) != once
  {
    var a, b, x := Subscription("a", "u", ""), Subscription("x", "v", ""), Subscription("x", "u", "");
    UrlKeysDiffer();
    assert "a" != "x" && "u" != "v";
    LostAndBack(x, a, b);
    current, imported := [x], [a, b];
  }

  lemma UrlKeysDiffer()
    ensures Lower(Trim("u")) == "u" && Lower(Trim("v")) == "v"
  {
    TrimFixed("u");
    TrimFixed("v");
  }

  /** Both indexes are built once, before any import. */
  method IndexSubscriptions(saved: seq<Subscription>) returns (byId: map<string, nat>, byUrl: map<string, nat>)
    ensures byId == Index(Ids(saved, SubscriptionId())) && byUrl == Index(Ids(saved, UrlKey))
  {
    byId, byUrl := map[], map[];
    ghost var ids, urls := Ids(saved, SubscriptionId()), Ids(saved, UrlKey);
    for i := 0 to |saved|
      invariant byId == Index(ids[..i]) && byUrl == Index(urls[..i])
    {
      IndexStep(ids, i);
      IndexStep(urls, i);
      byId := byId[saved[i].id := i];
      byUrl := byUrl[UrlKey(saved[i]) := i];
    }
    assert ids[..|saved|] == ids && urls[..|saved|] == urls;
  }

  lemma SlotOf(saved: seq<Subscription>, byId: map<string, nat>, byUrl: map<string, nat>, s: Subscription)
    requires byId == Index(Ids(saved, SubscriptionId())) && byUrl == Index(Ids(saved, UrlKey))
    ensures s.id in byId ==> SubscriptionTarget(saved)(s) == Some(byId[s.id]) && byId[s.id] < |saved|
    ensures s.id !in byId && UrlKey(s) != "" && UrlKey(s) in byUrl ==>
      SubscriptionTarget(saved)(s) == Some(byUrl[UrlKey(s)]) && byUrl[UrlKey(s)] < |saved|
    ensures s.id !in byId && !(UrlKey(s) != "" && UrlKey(s) in byUrl) ==> SubscriptionTarget(saved)(s) == None
  {
  }

  method MergeSubscriptions(saved: seq<Subscription>, imported: seq<Subscription>) returns (current: seq<Subscription>)
    ensures current == MergedSubscriptions(saved, imported)
  {
    var byId, byUrl := IndexSubscriptions(saved);
    ghost var t := SubscriptionTarget(saved);
    current := saved;
    assert Merge(saved, imported[..0], t) == saved;
    for i := 0 to |imported|
      invariant current == Merge(saved, imported[..i], t)
    {
      var subscription := imported[i];
      SlotOf(saved, byId, byUrl, subscription);
      MergeStep(saved, imported, t, i);
      if subscription.id in byId {
        current := current[byId[subscription.id] := subscription];
      } else {
        var normalizedUrl := UrlKey(subscription);
        if normalizedUrl != "" && normalizedUrl in byUrl {
          current := current[byUrl[normalizedUrl] := subscription];
        } else {
          current := current + [subscription];
        }
      }
    }
    assert imported[..|imported|] == imported;
  }

  // ---------- routing and DNS profiles ----------

  function NamedId(): NamedProfile -> string {
    (p: NamedProfile) => p.id
  }

  function NamedTarget(current: seq<NamedProfile>): NamedProfile -> Option<nat> {
    var index := Index(Ids(current, NamedId()));
    (p: NamedProfile) => if p.id in index then Some(index[p.id]) else None
  }

  function NameOf(): NamedProfile -> string {
    (p: NamedProfile) => p.name
  }

  function Names(items: seq<NamedProfile>): set<string> {
    set p | p in items :: p.name
  }

  /** Built-in profiles of the backup are passed over. */
  function Custom(items: seq<NamedProfile>): (r: seq<NamedProfile>)
    ensures forall p :: p in r <==> p in items && !p.isBuiltIn
  {
    if items == [] then []
    else
      var n := |items| - 1;
      assert items == items[..n] + [items[n]];
      if items[n].isBuiltIn then Custom(items[..n]) else Custom(items[..n]) + [items[n]]
  }

  /** New profiles are renamed one after the other, each away from all names known so far. */
  function Renamed(items: seq<NamedProfile>, used: set<string>): (r: seq<NamedProfile>)
    ensures |r| == |items|
  {
    if items == [] then []
    else
      var n := |items| - 1;
      var front := Renamed(items[..n], used);
      front + [items[n].(name := UniqueName(items[n].name, used + Names(front)))]
  }

  /** The profiles appended once `items` were met, `t` giving their targets. */
  function Appended(current: seq<NamedProfile>, items: seq<NamedProfile>, t: NamedProfile -> Option<nat>)
    : seq<NamedProfile>
  {
    Renamed(Unmatched(items, t), Names(current))
  }

  function MergedItems(current: seq<NamedProfile>, items: seq<NamedProfile>, t: NamedProfile -> Option<nat>)
    : seq<NamedProfile>
  {
    Slots(current, items, t) + Appended(current, items, t)
  }

  function MergedNamed(current: seq<NamedProfile>, imported: seq<NamedProfile>): seq<NamedProfile> {
    MergedItems(current, Custom(imported), NamedTarget(current))
  }

  /** Renamed items keep everything but the name, avoid the used names and each other, and keep a free name. */
  ghost predicate Fresh(items: seq<NamedProfile>, r: seq<NamedProfile>, used: set<string>) {
    && |r| == |items|
    && (forall i | 0 <= i < |r| :: r[i] == items[i].(name := r[i].name) && r[i].name !in used)
    && (forall i, j | 0 <= i < j < |r| :: r[i].name != r[j].name)
    && (forall i | 0 <= i < |r| && items[i].name !in used + Names(r[..i]) :: r[i] == items[i])
  }

  lemma FreshStep(items: seq<NamedProfile>, r: seq<NamedProfile>, init: seq<NamedProfile>, front: seq<NamedProfile>,
                  p: NamedProfile, used: set<string>)
    requires Fresh(init, front, used) && items == init + [p]
    requires r == front + [p.(name := UniqueName(p.name, used + Names(front)))]
    ensures Fresh(items, r, used)
  {
    var x := r[|front|];
    forall i | 0 <= i < |front| ensures r[i].name != x.name && r[..i] == front[..i] {
      assert front[i] in front;
      assert front[i].name in Names(front);
    }
    assert r[..|front|] == front;
  }

  lemma RenamedStep(init: seq<NamedProfile>, p: NamedProfile, used: set<string>)
    ensures var front := Renamed(init, used);
      Renamed(init + [p], used) == front + [p.(name := UniqueName(p.name, used + Names(front)))]
  {
    assert (init + [p])[..|init|] == init;
  }

  /**
   Every appended profile keeps its id and content and has a name different from all initial names and from
   every other appended one; it keeps its own name when that is free.
   */
  lemma {:induction false} RenamedAreFresh(items: seq<NamedProfile>, used: set<string>)
    ensures Fresh(items, Renamed(items, used), used)
  {
    if items == [] {
      assert Renamed(items, used) == [];
    } else {
      var init, p := items[..|items| - 1], items[|items| - 1];
      RenamedAreFresh(init, used);
      assert items == init + [p];
      RenamedStep(init, p, used);
      FreshStep(items, Renamed(items, used), init, Renamed(init, used), p, used);
    }
  }

  lemma NamedById(current: seq<NamedProfile>, items: seq<NamedProfile>)
    requires Distinct(current, NamedId())
    ensures ExactlyById(current, items, NamedTarget(current), NamedId())
  {
    var ids := Ids(current, NamedId());
    forall x, j | x in items && 0 <= j < |current| && current[j].id == x.id
      ensures NamedTarget(current)(x) == Some(j)
    {
      IndexOfDistinct(ids, j);
    }
  }

  lemma MergedIds(current: seq<NamedProfile>, items: seq<NamedProfile>, t: NamedProfile -> Option<nat>)
    ensures Distinct(MergedItems(current, items, t), NamedId()) <==> Distinct(Merge(current, items, t), NamedId())
  {
    RenamedAreFresh(Unmatched(items, t), Names(current));
    SameIds(Merge(current, items, t), MergedItems(current, items, t));
  }

  /**
   The merged ids are distinct if and only if no two non-built-in imports with an id that is new share it; imports
   that repeat an id of the store are harmless.
   */
  lemma NamedIdsDistinct(current: seq<NamedProfile>, imported: seq<NamedProfile>)
    requires Distinct(current, NamedId())
    ensures Distinct(MergedNamed(current, imported), NamedId()) <==> NewIdsDiffer(current, Custom(imported), NamedId())
  {
    var items, t := Custom(imported), NamedTarget(current);
    NamedById(current, items);
    MergeDistinctExactly(current, items, t, NamedId());
    MergedIds(current, items, t);
  }

  lemma SameIds(a: seq<NamedProfile>, b: seq<NamedProfile>)
    requires |a| == |b| && forall i | 0 <= i < |a| :: a[i].id == b[i].id
    ensures Distinct(a, NamedId()) <==> Distinct(b, NamedId())
  {
    assert forall i | 0 <= i < |a| :: NamedId()(a[i]) == NamedId()(b[i]);
  }

  lemma HitStep(current: seq<NamedProfile>, items: seq<NamedProfile>, t: NamedProfile -> Option<nat>, p: NamedProfile)
    requires t(p).Some? && t(p).value < |current|
    ensures MergedItems(current, items + [p], t) == MergedItems(current, items, t)[t(p).value := p]
    ensures Appended(current, items + [p], t) == Appended(current, items, t)
  {
    assert (items + [p])[..|items|] == items;
    assert Slots(current, items + [p], t) == Slots(current, items, t)[t(p).value := p];
  }

  lemma AppendStep(current: seq<NamedProfile>, items: seq<NamedProfile>, t: NamedProfile -> Option<nat>,
                   p: NamedProfile)
    requires t(p).None?
    ensures var tail := Appended(current, items, t);
      var copy := p.(name := UniqueName(p.name, Names(current) + Names(tail)));
      && MergedItems(current, items + [p], t) == MergedItems(current, items, t) + [copy]
      && Appended(current, items + [p], t) == tail + [copy]
  {
    var u := Unmatched(items, t);
    assert (items + [p])[..|items|] == items;
    assert Slots(current, items + [p], t) == Slots(current, items, t);
    assert (u + [p])[..|u|] == u;
  }

  lemma CustomStep(imported: seq<NamedProfile>, i: nat)
    requires i < |imported|
    ensures Custom(imported[..i + 1]) == Custom(imported[..i]) + (if imported[i].isBuiltIn then [] else [imported[i]])
  {
    assert imported[..i + 1][..i] == imported[..i];
  }

  lemma NamesStep(items: seq<NamedProfile>, p: NamedProfile)
    ensures Names(items + [p]) == Names(items) + {p.name}
  {
  }

  /** One turn of the loop for a profile that is not built in. */
  method MergeOne(byId: map<string, nat>, ghost saved: seq<NamedProfile>, ghost items: seq<NamedProfile>,
                  ghost t: NamedProfile -> Option<nat>, current: seq<NamedProfile>, names: set<string>,
                  profile: NamedProfile)
    returns (current': seq<NamedProfile>, names': set<string>)
    requires t(profile) == if profile.id in byId then Some(byId[profile.id]) else None
    requires profile.id in byId ==> byId[profile.id] < |saved|
    requires current == MergedItems(saved, items, t) && names == Names(saved) + Names(Appended(saved, items, t))
    ensures current' == MergedItems(saved, items + [profile], t)
    ensures names' == Names(saved) + Names(Appended(saved, items + [profile], t))
  {
    if profile.id in byId {
      HitStep(saved, items, t, profile);
      return current[byId[profile.id] := profile], names;
    }
    AppendStep(saved, items, t, profile);
    var copy := profile;
    if copy.name in names {
      var name, _ := FindUniqueName(copy.name, names);
      copy := copy.(name := name);
    }
    NamesStep(Appended(saved, items, t), copy);
    current', names' := current + [copy], names + {copy.name};
  }

  method MergeNamed(saved: seq<NamedProfile>, imported: seq<NamedProfile>) returns (current: seq<NamedProfile>)
    ensures current == MergedNamed(saved, imported)
  {
    var byId, names := IndexNamed(saved);
    ghost var t := NamedTarget(saved);
    current := saved;
    for i := 0 to |imported|
      invariant current == MergedItems(saved, Custom(imported[..i]), t)
      invariant names == Names(saved) + Names(Appended(saved, Custom(imported[..i]), t))
    {
      CustomStep(imported, i);
      if imported[i].isBuiltIn {
        assert Custom(imported[..i + 1]) == Custom(imported[..i]);
        continue;
      }
      current, names := MergeOne(byId, saved, Custom(imported[..i]), t, current, names, imported[i]);
    }
    assert imported[..|imported|] == imported;
  }

  method IndexNamed(saved: seq<NamedProfile>) returns (byId: map<string, nat>, names: set<string>)
    ensures byId == Index(Ids(saved, NamedId())) && names == Names(saved)
  {
    byId, names := map[], {};
    ghost var ids := Ids(saved, NamedId());
    for i := 0 to |saved|
      invariant byId == Index(ids[..i]) && names == Names(saved[..i])
    {
      IndexStep(ids, i);
      byId := byId[saved[i].id := i];
      names := names + {saved[i].name};
      assert saved[..i + 1] == saved[..i] + [saved[i]];
    }
    assert ids[..|saved|] == ids && saved[..|saved|] == saved;
  }

  // ---------- replacing routing and DNS profiles ----------

  function HasId(items: seq<NamedProfile>, id: string): bool {
    exists i | 0 <= i < |items| :: items[i].id == id
  }

  /** The imported list, then each built-in profile whose id is not there yet. */
  function WithBuiltIns(items: seq<NamedProfile>, builtIns: seq<NamedProfile>): (r: seq<NamedProfile>)
    ensures |r| >= |items| && r[..|items|] == items
    ensures forall b | b in builtIns :: HasId(r, b.id)
    ensures forall p | p in r[|items|..] :: p in builtIns && !HasId(items, p.id)
  {
    if builtIns == [] then items
    else
      var n := |builtIns| - 1;
      assert builtIns == builtIns[..n] + [builtIns[n]];
      var front := WithBuiltIns(items, builtIns[..n]);
      if HasId(front, builtIns[n].id) then front
      else
        var r := front + [builtIns[n]];
        assert r[|front|].id == builtIns[n].id;
        assert forall b | b in builtIns[..n] :: HasId(r, b.id) by {
          forall b | b in builtIns[..n] ensures HasId(r, b.id) {
            var i :| 0 <= i < |front| && front[i].id == b.id;
            assert r[i].id == b.id;
          }
        }
        assert forall i | 0 <= i < |items| :: items[i] == front[..|items|][i];
        assert r[|items|..] == front[|items|..] + [builtIns[n]];
        r
  }

  method ReplaceNamed(imported: seq<NamedProfile>, builtIns: seq<NamedProfile>) returns (merged: seq<NamedProfile>)
    ensures merged == WithBuiltIns(imported, builtIns)
  {
    merged := imported;
    for k := 0 to |builtIns|
      invariant merged == WithBuiltIns(imported, builtIns[..k])
    {
      assert builtIns[..k + 1][..k] == builtIns[..k];
      var found := false;
      for i := 0 to |merged|
        invariant !found && forall j | 0 <= j < i :: merged[j].id != builtIns[k].id
      {
        if merged[i].id == builtIns[k].id {
          found := true;
          break;
        }
      }
      if !found {
        merged := merged + [builtIns[k]];
      }
    }
    assert builtIns[..|builtIns|] == builtIns;
  }
}
