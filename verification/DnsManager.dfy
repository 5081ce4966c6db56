/** The DNS profile list and its active profile. */
module DnsManager {
  import opened Text

  datatype Mode = System | SecureRemote | ChinaDirectGlobalRemote | Custom

  /** `body` stands for the servers, hosts and flags; times are opaque numbers. */
  datatype DnsProfile = DnsProfile(
    id: string, name: string, mode: Mode, isBuiltIn: bool, body: string, createdAt: int, updatedAt: int)

  const SYSTEM_ID := "builtin-dns-system"

  /** The fallback of `profileById`, and the built-in profiles; `body` and times are fixed by the program. */
  ghost predicate BuiltInsOk(builtIns: seq<DnsProfile>) {
    && Distinct(builtIns)
    && |builtIns| > 0 && builtIns[0].id == SYSTEM_ID
    && forall b | b in builtIns :: b.isBuiltIn && b.id != ""
  }

  // ---------- lists of profiles ----------

  ghost predicate Distinct(s: seq<DnsProfile>) {
    forall i, j | 0 <= i < j < |s| :: s[i].id != s[j].id
  }

  predicate HasId(s: seq<DnsProfile>, id: string) {
    exists i | 0 <= i < |s| :: s[i].id == id
  }

  /** The first position with this id, or the length. */
  function Find(s: seq<DnsProfile>, id: string): (k: nat)
    ensures k <= |s|
    ensures k < |s| <==> HasId(s, id)
    ensures k < |s| ==> s[k].id == id
    ensures forall i | 0 <= i < k :: s[i].id != id
  {
    if s == [] then 0
    else if s[0].id == id then 0
    else
      var k := Find(s[1..], id);
      assert forall i | 1 <= i < |s| :: s[i] == s[1..][i - 1];
      k + 1
  }

  lemma FindUnique(s: seq<DnsProfile>, id: string, k: nat)
    requires k < |s| && s[k].id == id && forall i | 0 <= i < k :: s[i].id != id
    ensures Find(s, id) == k
  {
    var f := Find(s, id);
    assert HasId(s, id);
  }

  function Without(s: seq<DnsProfile>, k: nat): (r: seq<DnsProfile>)
    requires k < |s|
    ensures |r| == |s| - 1
    ensures forall i | 0 <= i < k :: r[i] == s[i]
    ensures forall i | k < i < |s| :: r[i - 1] == s[i]
  {
    s[..k] + s[k + 1..]
  }

  // ---------- the state and its operations ----------

  /** `selected` is the id kept in the settings file, which stores it trimmed. */
  datatype State = State(profiles: seq<DnsProfile>, active: string, selected: string)

  /** The store file; a missing or unreadable one loads as the empty list. */
  datatype StoreFile = Missing | Unreadable | Stored(profiles: seq<DnsProfile>)

  function Loaded(file: StoreFile): seq<DnsProfile> {
    if file.Stored? then file.profiles else []
  }

  function EnsureOne(s: seq<DnsProfile>, b: DnsProfile): (r: seq<DnsProfile>)
    ensures |r| == if HasId(s, b.id) then |s| else |s| + 1
  {
    var k := Find(s, b.id);
    if k < |s| then
      s[k := s[k].(isBuiltIn := true, mode := b.mode, name := if Blank(s[k].name) then b.name else s[k].name)]
    else s + [b]
  }

  function EnsureBuiltIns(s: seq<DnsProfile>, builtIns: seq<DnsProfile>): seq<DnsProfile> {
    if builtIns == [] then s
    else
      var n := |builtIns| - 1;
      EnsureOne(EnsureBuiltIns(s, builtIns[..n]), builtIns[n])
  }

  /** `profileById(id).id == id`: present, or asking for the fallback's own id. */
  predicate Names(s: seq<DnsProfile>, id: string) {
    HasId(s, id) || id == SYSTEM_ID
  }

  function LoadStep(stored: seq<DnsProfile>, selected: string, builtIns: seq<DnsProfile>): State {
    var profiles := EnsureBuiltIns(stored, builtIns);
    var active := if selected == "" || !Names(profiles, selected) then SYSTEM_ID else selected;
    State(profiles, active, Trim(active))
  }

  function SetActiveStep(s: State, id: string): (State, bool) {
    if id == "" || !Names(s.profiles, id) then (s, false)
    else (s.(active := id, selected := Trim(id)), true)
  }

  function UpsertStep(s: State, p: DnsProfile, uuid: string, now: int): (State, bool) {
    var k := Find(s.profiles, p.id);
    if k < |s.profiles| then
      if s.profiles[k].isBuiltIn then (s, false)
      else (s.(profiles := s.profiles[k := p.(updatedAt := now)]), true)
    else
      var copy := p.(id := if p.id == "" then uuid else p.id, isBuiltIn := false, mode := Custom,
                     createdAt := now, updatedAt := now);
      (s.(profiles := s.profiles + [copy]), true)
  }

  function RemoveStep(s: State, id: string): (State, bool) {
    var k := Find(s.profiles, id);
    if k == |s.profiles| || s.profiles[k].isBuiltIn then (s, false)
    else
      var t := s.(profiles := Without(s.profiles, k));
      (if s.active == id then SetActiveStep(t, SYSTEM_ID).0 else t, true)
  }

  function DuplicateStep(s: State, id: string, fallback: DnsProfile, uuid: string, now: int): (State, bool) {
    if !Names(s.profiles, id) then (s, false)
    else
      var k := Find(s.profiles, id);
      var source := if k < |s.profiles| then s.profiles[k] else fallback;
      var copy := source.(id := uuid, name := source.name + " (copy)", isBuiltIn := false, mode := Custom,
                          createdAt := now, updatedAt := now);
      (s.(profiles := s.profiles + [copy]), true)
  }

  datatype Op =
    | Upsert(profile: DnsProfile, uuid: string, now: int)
    | Remove(id: string)
    | Duplicate(source: string, uuid: string, now: int)
    | SetActive(active: string)

  function Step(s: State, op: Op, fallback: DnsProfile): State {
    match op
    case Upsert(p, uuid, now) => UpsertStep(s, p, uuid, now).0
    case Remove(id) => RemoveStep(s, id).0
    case Duplicate(id, uuid, now) => DuplicateStep(s, id, fallback, uuid, now).0
    case SetActive(id) => SetActiveStep(s, id).0
  }

  function Run(s: State, ops: seq<Op>, fallback: DnsProfile): State
    decreases |ops|
  {
    if ops == [] then s else Run(Step(s, ops[0], fallback), ops[1..], fallback)
  }

  // ---------- loading ----------

  lemma EnsureOneDistinct(s: seq<DnsProfile>, b: DnsProfile)
    requires Distinct(s)
    ensures Distinct(EnsureOne(s, b))
    ensures HasId(EnsureOne(s, b), b.id)
    ensures forall id | HasId(s, id) :: HasId(EnsureOne(s, b), id)
  {
    var r := EnsureOne(s, b);
    assert forall i | 0 <= i < |s| :: r[i].id == s[i].id;
    assert r[Find(s, b.id)].id == b.id;
    forall id | HasId(s, id) ensures HasId(r, id) {
      assert r[Find(s, id)].id == id;
    }
  }

  /** A profile as `ensureBuiltIns` leaves it for one built-in. */
  ghost predicate Fixed(p: DnsProfile, b: DnsProfile) {
    p.id == b.id ==> p.isBuiltIn && p.mode == b.mode && (!Blank(p.name) || p.name == b.name)
  }

  lemma EnsureOneFixes(s: seq<DnsProfile>, b: DnsProfile, c: DnsProfile)
    requires Distinct(s) && b.isBuiltIn
    requires c == b || (c.id != b.id && forall p | p in s :: Fixed(p, c))
    ensures forall p | p in EnsureOne(s, b) :: Fixed(p, c)
  {
    var r, k := EnsureOne(s, b), Find(s, b.id);
    forall p | p in r ensures Fixed(p, c) {
      var i :| 0 <= i < |r| && r[i] == p;
      if i < |s| && i != k {
        assert p in s;
      }
    }
  }

  lemma {:induction false} EnsureBuiltInsWorks(s: seq<DnsProfile>, builtIns: seq<DnsProfile>)
    requires Distinct(s) && Distinct(builtIns) && forall b | b in builtIns :: b.isBuiltIn
    ensures Distinct(EnsureBuiltIns(s, builtIns))
    ensures forall b | b in builtIns :: HasId(EnsureBuiltIns(s, builtIns), b.id)
    ensures forall b, p | b in builtIns && p in EnsureBuiltIns(s, builtIns) :: Fixed(p, b)
    ensures CustomsKept(s, EnsureBuiltIns(s, builtIns), builtIns)
  {
    if builtIns != [] {
      var n := |builtIns| - 1;
      var front, last := builtIns[..n], builtIns[n];
      assert builtIns == front + [last];
      EnsureBuiltInsWorks(s, front);
      var t := EnsureBuiltIns(s, front);
      EnsureOneDistinct(t, last);
      forall b | b in builtIns ensures forall p | p in EnsureOne(t, last) :: Fixed(p, b) {
        if b != last {
          var i :| 0 <= i < n && builtIns[i] == b;
        }
        EnsureOneFixes(t, last, b);
      }
      CustomsStep(s, t, front, last);
    }
  }

  /** The same content and times, and the same name unless that was blank. */
  predicate SameContent(p: DnsProfile, q: DnsProfile) {
    && q.body == p.body && q.createdAt == p.createdAt && q.updatedAt == p.updatedAt
    && (!Blank(p.name) ==> q.name == p.name)
  }

  /** Every profile of `s` that is not a built-in stays where it is, unchanged, and only built-ins come after. */
  ghost predicate CustomsKept(s: seq<DnsProfile>, t: seq<DnsProfile>, builtIns: seq<DnsProfile>) {
    && |s| <= |t|
    && (forall i | 0 <= i < |s| :: t[i].id == s[i].id && (!HasId(builtIns, s[i].id) ==> t[i] == s[i]))
    && (forall i | 0 <= i < |s| :: SameContent(s[i], t[i]))
    && (forall i | |s| <= i < |t| :: t[i] in builtIns)
  }

  lemma HasIdAppend(front: seq<DnsProfile>, last: DnsProfile, id: string)
    ensures HasId(front + [last], id) <==> HasId(front, id) || last.id == id
  {
    var all := front + [last];
    if HasId(front, id) {
      assert all[Find(front, id)].id == id;
    }
    if last.id == id {
      assert all[|front|].id == id;
    }
    if HasId(all, id) && last.id != id {
      assert front[Find(all, id)].id == id;
    }
  }

  lemma CustomsStep(s: seq<DnsProfile>, t: seq<DnsProfile>, front: seq<DnsProfile>, last: DnsProfile)
    requires CustomsKept(s, t, front) && Distinct(t) && Distinct(front + [last]) && last.isBuiltIn
    ensures CustomsKept(s, EnsureOne(t, last), front + [last])
  {
    var r, k := EnsureOne(t, last), Find(t, last.id);
    forall i | 0 <= i < |s| ensures !HasId(front + [last], s[i].id) ==> r[i] == s[i] {
      HasIdAppend(front, last, s[i].id);
    }
    forall i | |s| <= i < |r| ensures r[i] in front + [last] {
      if i < |t| {
        assert t[i] in front;
        var j :| 0 <= j < |front| && front[j] == t[i];
        assert (front + [last])[j].id != (front + [last])[|front|].id;
      }
    }
  }

  lemma {:induction false} EnsureNothingLeft(s: seq<DnsProfile>, builtIns: seq<DnsProfile>)
    requires forall b | b in builtIns :: HasId(s, b.id) && forall p | p in s :: Fixed(p, b)
    ensures EnsureBuiltIns(s, builtIns) == s
  {
    if builtIns != [] {
      var n := |builtIns| - 1;
      EnsureNothingLeft(s, builtIns[..n]);
      var k := Find(s, builtIns[n].id);
      assert s[k] in s && builtIns[n] in builtIns;
      assert s[k := s[k]] == s;
    }
  }

  /** A second pass of `ensureBuiltIns` changes nothing. */
  lemma EnsureBuiltInsIdempotent(s: seq<DnsProfile>, builtIns: seq<DnsProfile>)
    requires Distinct(s) && BuiltInsOk(builtIns)
    ensures EnsureBuiltIns(EnsureBuiltIns(s, builtIns), builtIns) == EnsureBuiltIns(s, builtIns)
  {
    EnsureBuiltInsWorks(s, builtIns);
    EnsureNothingLeft(EnsureBuiltIns(s, builtIns), builtIns);
  }

  // ---------- every run ----------

  ghost predicate Inv(s: State, builtIns: seq<DnsProfile>) {
    && Distinct(s.profiles)
    && (forall b | b in builtIns :: HasId(s.profiles, b.id))
    && (forall b, p | b in builtIns && p in s.profiles :: Fixed(p, b))
    && s.active != "" && HasId(s.profiles, s.active)
    && s.selected == Trim(s.active)
  }

  lemma SystemPresent(s: State, builtIns: seq<DnsProfile>)
    requires BuiltInsOk(builtIns) && Inv(s, builtIns)
    ensures HasId(s.profiles, SYSTEM_ID)
  {
    assert builtIns[0] in builtIns;
  }

  lemma LoadInv(stored: seq<DnsProfile>, selected: string, builtIns: seq<DnsProfile>)
    requires Distinct(stored) && BuiltInsOk(builtIns)
    ensures Inv(LoadStep(stored, selected, builtIns), builtIns)
  {
    EnsureBuiltInsWorks(stored, builtIns);
    assert builtIns[0] in builtIns;
  }

  /** Fresh ids: no profile has the id a call is about to create. */
  ghost predicate FreshId(s: State, op: Op) {
    match op
    case Upsert(_, uuid, _) => uuid != "" && !HasId(s.profiles, uuid)
    case Duplicate(_, uuid, _) => uuid != "" && !HasId(s.profiles, uuid)
    case _ => true
  }

  ghost predicate FreshRun(s: State, ops: seq<Op>, fallback: DnsProfile)
    decreases |ops|
  {
    ops != [] ==> FreshId(s, ops[0]) && FreshRun(Step(s, ops[0], fallback), ops[1..], fallback)
  }

  /** Nothing but a non-built-in profile is ever removed or rewritten. */
  ghost predicate KeepsBuiltIns(s: seq<DnsProfile>, t: seq<DnsProfile>, builtIns: seq<DnsProfile>) {
    forall b, p | b in builtIns && p in s && p.id == b.id :: p in t
  }

  lemma AppendInv(s: State, p: DnsProfile, builtIns: seq<DnsProfile>)
    requires Inv(s, builtIns) && !HasId(s.profiles, p.id)
    ensures Inv(s.(profiles := s.profiles + [p]), builtIns)
    ensures KeepsBuiltIns(s.profiles, s.profiles + [p], builtIns)
  {
    var r := s.profiles + [p];
    forall id | HasId(s.profiles, id) ensures HasId(r, id) {
      assert r[Find(s.profiles, id)].id == id;
    }
  }

  lemma ReplaceInv(s: State, k: nat, p: DnsProfile, builtIns: seq<DnsProfile>)
    requires Inv(s, builtIns) && k < |s.profiles| && p.id == s.profiles[k].id && !s.profiles[k].isBuiltIn
    ensures Inv(s.(profiles := s.profiles[k := p]), builtIns)
    ensures KeepsBuiltIns(s.profiles, s.profiles[k := p], builtIns)
  {
    var r := s.profiles[k := p];
    forall id | HasId(s.profiles, id) ensures HasId(r, id) {
      assert r[Find(s.profiles, id)].id == id;
    }
    assert s.profiles[k] in s.profiles;
    forall b, q | b in builtIns && q in r ensures Fixed(q, b) {
      var i :| 0 <= i < |r| && r[i] == q;
      assert Fixed(s.profiles[k], b);
      if i != k {
        assert q in s.profiles;
      }
    }
    forall b, q | b in builtIns && q in s.profiles && q.id == b.id ensures q in r {
      var i :| 0 <= i < |r| && s.profiles[i] == q;
      assert Fixed(q, b);
      assert r[i] == q;
    }
  }

  /** Removing position `k` of a list with distinct ids takes away that profile and nothing else. */
  lemma WithoutMeaning(s: seq<DnsProfile>, k: nat)
    requires Distinct(s) && k < |s|
    ensures Distinct(Without(s, k))
    ensures forall p :: p in Without(s, k) <==> p in s && p != s[k]
  {
    var r := Without(s, k);
    assert forall i | 0 <= i < |r| :: r[i] == s[if i < k then i else i + 1];
    forall p | p in s && p != s[k] ensures p in r {
      var i :| 0 <= i < |s| && s[i] == p;
      assert r[if i < k then i else i - 1] == p;
    }
  }

  lemma HasIdIn(s: seq<DnsProfile>, t: seq<DnsProfile>, id: string)
    requires HasId(s, id) && (forall p | p in s && p.id == id :: p in t)
    ensures HasId(t, id)
  {
    var p := s[Find(s, id)];
    assert p in s;
    var i :| 0 <= i < |t| && t[i] == p;
  }

  /** A list without one profile that is not a built-in still has everything the built-ins need. */
  lemma WithoutCustom(s: State, k: nat, builtIns: seq<DnsProfile>)
    requires Inv(s, builtIns) && k < |s.profiles| && !s.profiles[k].isBuiltIn
    ensures var r := Without(s.profiles, k);
      && Distinct(r) && KeepsBuiltIns(s.profiles, r, builtIns)
      && (forall b | b in builtIns :: HasId(r, b.id))
      && (forall b, p | b in builtIns && p in r :: Fixed(p, b))
  {
    var r := Without(s.profiles, k);
    WithoutMeaning(s.profiles, k);
    assert s.profiles[k] in s.profiles;
    forall b | b in builtIns ensures HasId(r, b.id) && forall p | p in s.profiles && p.id == b.id :: p in r {
      assert Fixed(s.profiles[k], b);
      HasIdIn(s.profiles, r, b.id);
    }
  }

  lemma RemoveInv(s: State, id: string, builtIns: seq<DnsProfile>)
    requires BuiltInsOk(builtIns) && Inv(s, builtIns)
    ensures Inv(RemoveStep(s, id).0, builtIns)
    ensures KeepsBuiltIns(s.profiles, RemoveStep(s, id).0.profiles, builtIns)
  {
    var k := Find(s.profiles, id);
    if k < |s.profiles| && !s.profiles[k].isBuiltIn {
      WithoutCustom(s, k, builtIns);
      assert builtIns[0] in builtIns;
      if s.active != id {
        WithoutMeaning(s.profiles, k);
        HasIdIn(s.profiles, Without(s.profiles, k), s.active);
      }
    }
  }

  lemma UpsertInv(s: State, p: DnsProfile, uuid: string, now: int, builtIns: seq<DnsProfile>)
    requires Inv(s, builtIns) && uuid != "" && !HasId(s.profiles, uuid)
    ensures Inv(UpsertStep(s, p, uuid, now).0, builtIns)
    ensures KeepsBuiltIns(s.profiles, UpsertStep(s, p, uuid, now).0.profiles, builtIns)
  {
    var k := Find(s.profiles, p.id);
    if k < |s.profiles| {
      if !s.profiles[k].isBuiltIn {
        ReplaceInv(s, k, p.(updatedAt := now), builtIns);
      }
    } else {
      AppendInv(s, p.(id := if p.id == "" then uuid else p.id, isBuiltIn := false, mode := Custom,
                      createdAt := now, updatedAt := now), builtIns);
    }
  }

  lemma DuplicateInv(s: State, id: string, uuid: string, now: int, builtIns: seq<DnsProfile>)
    requires BuiltInsOk(builtIns) && Inv(s, builtIns) && uuid != "" && !HasId(s.profiles, uuid)
    ensures Inv(DuplicateStep(s, id, builtIns[0], uuid, now).0, builtIns)
    ensures KeepsBuiltIns(s.profiles, DuplicateStep(s, id, builtIns[0], uuid, now).0.profiles, builtIns)
  {
    SystemPresent(s, builtIns);
    if Names(s.profiles, id) {
      var source := s.profiles[Find(s.profiles, id)];
      AppendInv(s, source.(id := uuid, name := source.name + " (copy)", isBuiltIn := false, mode := Custom,
                           createdAt := now, updatedAt := now), builtIns);
    }
  }

  lemma StepInv(s: State, op: Op, builtIns: seq<DnsProfile>)
    requires BuiltInsOk(builtIns) && Inv(s, builtIns) && FreshId(s, op)
    ensures Inv(Step(s, op, builtIns[0]), builtIns)
    ensures KeepsBuiltIns(s.profiles, Step(s, op, builtIns[0]).profiles, builtIns)
  {
    match op
    case Upsert(p, uuid, now) => UpsertInv(s, p, uuid, now, builtIns);
    case Remove(id) => RemoveInv(s, id, builtIns);
    case Duplicate(id, uuid, now) => DuplicateInv(s, id, uuid, now, builtIns);
    case SetActive(id) => SystemPresent(s, builtIns);
  }

  /**
   From a store with distinct ids, every run of upserts, removals, duplications and activations keeps the ids
   distinct, every built-in profile exactly as loaded, and the active id naming an existing profile.
   */
  lemma RunsAreSafe(stored: seq<DnsProfile>, selected: string, ops: seq<Op>, builtIns: seq<DnsProfile>)
    requires Distinct(stored) && BuiltInsOk(builtIns)
    requires FreshRun(LoadStep(stored, selected, builtIns), ops, builtIns[0])
    ensures var s := LoadStep(stored, selected, builtIns);
      var t := Run(s, ops, builtIns[0]);
      && Distinct(t.profiles)
      && HasId(t.profiles, t.active)
      && (forall b | b in builtIns :: HasId(s.profiles, b.id))
      && (forall b, p | b in builtIns && p in s.profiles && p.id == b.id :: p in t.profiles)
  {
    LoadInv(stored, selected, builtIns);
    RunInv(LoadStep(stored, selected, builtIns), ops, builtIns);
  }

  lemma {:induction false} RunInv(s: State, ops: seq<Op>, builtIns: seq<DnsProfile>)
    requires BuiltInsOk(builtIns) && Inv(s, builtIns) && FreshRun(s, ops, builtIns[0])
    ensures Inv(Run(s, ops, builtIns[0]), builtIns)
    ensures KeepsBuiltIns(s.profiles, Run(s, ops, builtIns[0]).profiles, builtIns)
    decreases |ops|
  {
    if ops != [] {
      StepInv(s, ops[0], builtIns);
      RunInv(Step(s, ops[0], builtIns[0]), ops[1..], builtIns);
    }
  }

  /**
   Saving and loading again keeps the profiles, and keeps the active one exactly when its id has no white space
   at either end: the settings hold the trimmed id.
   */
  lemma Reload(s: State, builtIns: seq<DnsProfile>)
    requires BuiltInsOk(builtIns) && Inv(s, builtIns)
    ensures var t := LoadStep(s.profiles, s.selected, builtIns);
      && t.profiles == s.profiles && (t.active == s.active <==> Trim(s.active) == s.active)
      && (t == s <==> t.active == s.active)
  {
    EnsureNothingLeft(s.profiles, builtIns);
    SystemTrimmed();
  }

  /**
   A first run leaves a file that loads back: the profiles always, and the whole state unless the id needs trimming.
   */
  lemma FirstRun(selected: string, builtIns: seq<DnsProfile>)
    requires BuiltInsOk(builtIns)
    ensures var s := LoadStep(Loaded(Missing), selected, builtIns);
      var t := LoadStep(Loaded(Stored(s.profiles)), s.selected, builtIns);
      t.profiles == s.profiles && (t == s <==> Trim(s.active) == s.active)
  {
    LoadInv([], selected, builtIns);
    Reload(LoadStep([], selected, builtIns), builtIns);
  }

  lemma SystemTrimmed()
    ensures Trim(SYSTEM_ID) == SYSTEM_ID
  {
    TrimFixed(SYSTEM_ID);
  }

  // ---------- what each operation does ----------

  ghost predicate OthersKept(s: seq<DnsProfile>, t: seq<DnsProfile>, id: string) {
    forall q: DnsProfile | q.id != id :: q in s <==> q in t
  }

  predicate IsBuiltInId(s: seq<DnsProfile>, id: string) {
    HasId(s, id) && s[Find(s, id)].isBuiltIn
  }

  lemma ReplacedOthers(s: seq<DnsProfile>, k: nat, p: DnsProfile)
    requires Distinct(s) && k < |s| && p.id == s[k].id
    ensures OthersKept(s, s[k := p], p.id) && p in s[k := p]
  {
    var r := s[k := p];
    assert r[k] == p;
    forall q: DnsProfile | q.id != p.id ensures q in s <==> q in r {
      if q in s {
        var i :| 0 <= i < |s| && s[i] == q;
        assert r[i] == q;
      }
      if q in r {
        var i :| 0 <= i < |r| && r[i] == q;
        assert s[i] == q;
      }
    }
  }

  /**
   An upsert is refused exactly for a built-in id. Otherwise the profile is stored under its own id or, if it had
   none, a new one, with its name and content; every other profile and the active id stay.
   */
  lemma UpsertVerdict(s: State, p: DnsProfile, uuid: string, now: int)
    requires Distinct(s.profiles)
    ensures var (t, ok) := UpsertStep(s, p, uuid, now);
      var id := if p.id == "" && !HasId(s.profiles, "") then uuid else p.id;
      && (ok <==> !IsBuiltInId(s.profiles, p.id)) && (!ok ==> t == s)
      && t.active == s.active && t.selected == s.selected
      && (ok ==> OthersKept(s.profiles, t.profiles, id)
                 && exists q | q in t.profiles ::
                    q.id == id && q.name == p.name && q.body == p.body && q.updatedAt == now)
  {
    var k := Find(s.profiles, p.id);
    if k < |s.profiles| {
      var q := p.(updatedAt := now);
      ReplacedOthers(s.profiles, k, q);
      assert q.id == p.id && q.name == p.name && q.body == p.body && q.updatedAt == now;
    } else {
      var q := p.(id := if p.id == "" then uuid else p.id, isBuiltIn := false, mode := Custom,
                  createdAt := now, updatedAt := now);
      assert q in s.profiles + [q];
    }
  }

  /**
   What an upsert stores: over a profile with that id exactly the given one with a new time; otherwise a custom
   profile that is no built-in, created now.
   */
  lemma UpsertStores(s: State, p: DnsProfile, uuid: string, now: int)
    requires Distinct(s.profiles) && !IsBuiltInId(s.profiles, p.id)
    ensures var t := UpsertStep(s, p, uuid, now).0.profiles;
      if HasId(s.profiles, p.id) then |t| == |s.profiles| && p.(updatedAt := now) in t
      else
        var q := t[|t| - 1];
        && t == s.profiles + [q] && !q.isBuiltIn && q.mode == Custom && q.createdAt == q.updatedAt == now
        && q.id == (if p.id == "" then uuid else p.id) && q.name == p.name && q.body == p.body
  {
    if HasId(s.profiles, p.id) {
      ReplacedOthers(s.profiles, Find(s.profiles, p.id), p.(updatedAt := now));
    }
  }

  /** An activation is refused exactly for an empty or unknown id; otherwise only the active and selected ids change. */
  lemma SetActiveVerdict(s: State, id: string)
    ensures var (t, ok) := SetActiveStep(s, id);
      && (ok <==> id != "" && (HasId(s.profiles, id) || id == "builtin-dns-system"))
      && (!ok ==> t == s) && (ok ==> t.active == id && t.selected == Trim(id)) && t.profiles == s.profiles
  {
  }

  /** A load activates the selected profile if it is there, and the system one otherwise. */
  lemma LoadVerdict(stored: seq<DnsProfile>, selected: string, builtIns: seq<DnsProfile>)
    requires Distinct(stored) && BuiltInsOk(builtIns)
    ensures var s := LoadStep(stored, selected, builtIns);
      && (selected != "" && HasId(s.profiles, selected) ==> s.active == selected)
      && (selected == "" || !HasId(s.profiles, selected) ==> s.active == "builtin-dns-system")
      && s.selected == Trim(s.active) && CustomsKept(stored, s.profiles, builtIns)
  {
    EnsureBuiltInsWorks(stored, builtIns);
  }

  /**
   A removal is refused exactly for an unknown or built-in id. Otherwise that profile and nothing else goes, and
   the active profile changes, to the system one, exactly if it was the removed one.
   */
  lemma RemoveVerdict(s: State, id: string)
    requires Distinct(s.profiles)
    ensures var (t, ok) := RemoveStep(s, id);
      && (ok <==> HasId(s.profiles, id) && !IsBuiltInId(s.profiles, id)) && (!ok ==> t == s)
      && (ok ==> !HasId(t.profiles, id) && OthersKept(s.profiles, t.profiles, id)
                 && t.active == (if s.active == id then SYSTEM_ID else s.active)
                 && t.selected == (if s.active == id then Trim(SYSTEM_ID) else s.selected))
  {
    var k := Find(s.profiles, id);
    if k < |s.profiles| && !s.profiles[k].isBuiltIn {
      var r := Without(s.profiles, k);
      WithoutMeaning(s.profiles, k);
      forall i | 0 <= i < |r| ensures r[i].id != id {
        assert r[i] in r;
        var j :| 0 <= j < |s.profiles| && s.profiles[j] == r[i];
      }
    }
  }

  /**
   A duplication is refused exactly for an id that names nothing. Otherwise one profile is appended: the source
   under the new id, marked as a copy and as custom; a stored source is copied with its content.
   */
  lemma DuplicateVerdict(s: State, id: string, fallback: DnsProfile, uuid: string, now: int)
    ensures var (t, ok) := DuplicateStep(s, id, fallback, uuid, now);
      && (ok <==> Names(s.profiles, id)) && (!ok ==> t == s)
      && t.active == s.active && t.selected == s.selected
      && (ok ==> |t.profiles| == |s.profiles| + 1 && t.profiles[..|s.profiles|] == s.profiles
                 && t.profiles[|s.profiles|].id == uuid && !t.profiles[|s.profiles|].isBuiltIn
                 && t.profiles[|s.profiles|].mode == Custom && t.profiles[|s.profiles|].updatedAt == now)
      && (HasId(s.profiles, id) ==>
            var source, copy := s.profiles[Find(s.profiles, id)], t.profiles[|s.profiles|];
            copy.body == source.body && copy.name == source.name + " (copy)" && copy.createdAt == now)
  {
  }

  // ---------- the manager as an object ----------

  class DnsManager {
    var profiles: seq<DnsProfile>
    var activeId: string
    var selectedId: string
    var file: StoreFile

    /** A manager before its first load. */
    constructor (file: StoreFile, selectedId: string)
      ensures Contents() == State([], "", selectedId) && this.file == file
    {
      this.profiles, this.activeId, this.selectedId, this.file := [], "", selectedId, file;
    }

    ghost function Contents(): State
      reads this
    {
      State(profiles, activeId, selectedId)
    }

    method ProfileById(id: string, fallback: DnsProfile) returns (p: DnsProfile)
      requires fallback.id == SYSTEM_ID
      ensures p == if HasId(profiles, id) then profiles[Find(profiles, id)] else fallback
      ensures p.id == id <==> Names(profiles, id)
    {
      for i := 0 to |profiles|
        invariant forall j | 0 <= j < i :: profiles[j].id != id
      {
        if profiles[i].id == id {
          FindUnique(profiles, id, i);
          return profiles[i];
        }
      }
      p := fallback;
    }

    method EnsureOneBuiltIn(b: DnsProfile)
      modifies `profiles
      ensures profiles == EnsureOne(old(profiles), b)
    {
      for i := 0 to |profiles|
        invariant profiles == old(profiles)
        invariant forall j | 0 <= j < i :: profiles[j].id != b.id
      {
        if profiles[i].id == b.id {
          FindUnique(profiles, b.id, i);
          var p := profiles[i].(isBuiltIn := true, mode := b.mode);
          if Blank(p.name) {
            p := p.(name := b.name);
          }
          profiles := profiles[i := p];
          return;
        }
      }
      profiles := profiles + [b];
    }

    method EnsureAllBuiltIns(builtIns: seq<DnsProfile>)
      modifies `profiles
      ensures profiles == EnsureBuiltIns(old(profiles), builtIns)
    {
      for i := 0 to |builtIns|
        invariant profiles == EnsureBuiltIns(old(profiles), builtIns[..i])
      {
        assert builtIns[..i + 1][..i] == builtIns[..i];
        EnsureOneBuiltIn(builtIns[i]);
      }
      assert builtIns[..|builtIns|] == builtIns;
    }

    method ResolveActiveProfile(fallback: DnsProfile)
      requires fallback.id == SYSTEM_ID
      modifies `activeId, `selectedId
      ensures activeId == (if old(selectedId) == "" || !Names(profiles, old(selectedId))
                           then SYSTEM_ID else old(selectedId))
      ensures selectedId == Trim(activeId)
    {
      var selected := selectedId;
      var p := ProfileById(selected, fallback);
      if selected == "" || p.id != selected {
        selected := SYSTEM_ID;
      }
      activeId := selected;
      selectedId := Trim(activeId);
    }

    /** Saving replaces the store file; a save that fails leaves it alone. */
    method Save(writes: bool) returns (ok: bool)
      modifies `file
      ensures ok == writes && file == if writes then Stored(profiles) else old(file)
    {
      if writes {
        file := Stored(profiles);
      }
      ok := writes;
    }

    /** Only a first run, without a store file, saves what it loaded. */
    method Load(builtIns: seq<DnsProfile>, writes: bool)
      requires BuiltInsOk(builtIns)
      modifies this
      ensures Contents() == LoadStep(Loaded(old(file)), old(selectedId), builtIns)
      ensures file == if old(file).Missing? && writes then Stored(profiles) else old(file)
    {
      profiles := Loaded(file);
      EnsureAllBuiltIns(builtIns);
      ResolveActiveProfile(builtIns[0]);
      if file.Missing? {
        var _ := Save(writes);
      }
    }

    method SetActiveProfileId(id: string, fallback: DnsProfile) returns (ok: bool)
      requires fallback.id == SYSTEM_ID
      modifies `profiles, `activeId, `selectedId
      ensures (Contents(), ok) == SetActiveStep(old(Contents()), id)
    {
      var p := ProfileById(id, fallback);
      if id == "" || p.id != id {
        return false;
      }
      activeId, selectedId := id, Trim(id);
      ok := true;
    }

    method UpsertProfile(p: DnsProfile, uuid: string, now: int) returns (ok: bool)
      modifies `profiles, `activeId, `selectedId
      ensures (Contents(), ok) == UpsertStep(old(Contents()), p, uuid, now)
    {
      for i := 0 to |profiles|
        invariant Contents() == old(Contents())
        invariant forall j | 0 <= j < i :: profiles[j].id != p.id
      {
        if profiles[i].id == p.id {
          FindUnique(profiles, p.id, i);
          if profiles[i].isBuiltIn {
            return false;
          }
          profiles := profiles[i := p.(updatedAt := now)];
          return true;
        }
      }
      var copy := p;
      if copy.id == "" {
        copy := copy.(id := uuid);
      }
      copy := copy.(isBuiltIn := false, mode := Custom, createdAt := now, updatedAt := now);
      profiles := profiles + [copy];
      ok := true;
    }

    method RemoveProfile(id: string, fallback: DnsProfile) returns (ok: bool)
      requires fallback.id == SYSTEM_ID
      modifies `profiles, `activeId, `selectedId
      ensures (Contents(), ok) == RemoveStep(old(Contents()), id)
    {
      for i := 0 to |profiles|
        invariant Contents() == old(Contents())
        invariant forall j | 0 <= j < i :: profiles[j].id != id
      {
        if profiles[i].id == id {
          FindUnique(profiles, id, i);
          if profiles[i].isBuiltIn {
            return false;
          }
          profiles := Without(profiles, i);
          if activeId == id {
            var _ := SetActiveProfileId(SYSTEM_ID, fallback);
          }
          return true;
        }
      }
      ok := false;
    }

    method DuplicateProfile(id: string, fallback: DnsProfile, uuid: string, now: int) returns (ok: bool)
      requires fallback.id == SYSTEM_ID
      modifies `profiles, `activeId, `selectedId
      ensures (Contents(), ok) == DuplicateStep(old(Contents()), id, fallback, uuid, now)
    {
      var source := ProfileById(id, fallback);
      if source.id != id {
        return false;
      }
      var copy := source.(id := uuid, name := source.name + " (copy)", isBuiltIn := false, mode := Custom,
                          createdAt := now, updatedAt := now);
      profiles := profiles + [copy];
      ok := true;
    }
  }
}
