/** The WiX fragments printed for a staging directory: the directory tree and the components. */
module WixComponents {
  import StringOrder
  import StableSort
  import Text

  /** The parts of a path relative to the staging directory. */
  type Path = seq<string>

  const ROOT := "INSTALLFOLDER"

  // ---------- identifiers ----------

  predicate IsIdChar(c: char) {
    'a' <= c <= 'z' || 'A' <= c <= 'Z' || '0' <= c <= '9' || c == '_'
  }

  function SanitizeId(s: string): (id: string)
    ensures id != "" && !('0' <= id[0] <= '9')
    ensures forall i | 0 <= i < |id| :: IsIdChar(id[i])
  {
    var token := seq(|s|, i requires 0 <= i < |s| => if IsIdChar(s[i]) then s[i] else '_');
    if token == "" || '0' <= token[0] <= '9' then "f_" + token else token
  }

  function Parent(parts: Path): Path {
    if parts == [] then [] else parts[..|parts| - 1]
  }

  function Name(parts: Path): string
    requires parts != []
  {
    parts[|parts| - 1]
  }

  function Joined(parts: Path): string
    requires parts != []
  {
    if |parts| == 1 then SanitizeId(parts[0]) else Joined(Parent(parts)) + "_" + SanitizeId(Name(parts))
  }

  function DirectoryIdFor(parts: Path): string {
    if parts == [] then ROOT else "dir_" + Joined(parts)
  }

  /**
   A directory's identifier is longer than its parent's, unless that is the root; no other directory has the root's.
   */
  lemma IdGrows(parts: Path)
    requires parts != []
    ensures DirectoryIdFor(parts) != ROOT
    ensures DirectoryIdFor(Parent(parts)) != ROOT ==> |DirectoryIdFor(Parent(parts))| < |DirectoryIdFor(parts)|
  {
    assert DirectoryIdFor(parts)[0] == 'd';
  }

  // ---------- the children of an identifier ----------

  datatype Child = Child(id: string, name: string)

  function ChildrenOf(dirs: seq<Path>, parent: string): (r: seq<Child>)
    ensures |r| <= |dirs|
  {
    if dirs == [] then []
    else
      (if dirs[0] != [] && DirectoryIdFor(Parent(dirs[0])) == parent
       then [Child(DirectoryIdFor(dirs[0]), Name(dirs[0]))] else [])
      + ChildrenOf(dirs[1..], parent)
  }

  predicate IsChild(k: Path, parent: string, c: Child) {
    k != [] && DirectoryIdFor(Parent(k)) == parent && c == Child(DirectoryIdFor(k), Name(k))
  }

  lemma {:induction false} ChildrenMeaning(dirs: seq<Path>, parent: string, c: Child)
    ensures c in ChildrenOf(dirs, parent) <==> exists k | k in dirs :: IsChild(k, parent, c)
  {
    if dirs != [] {
      ChildrenMeaning(dirs[1..], parent, c);
      assert dirs == [dirs[0]] + dirs[1..];
      assert c in ChildrenOf(dirs, parent) <==> IsChild(dirs[0], parent, c) || c in ChildrenOf(dirs[1..], parent);
    }
  }

  function ByName(): (Child, Child) -> bool {
    (a: Child, b: Child) => StringOrder.Less(a.name, b.name)
  }

  function Sort(cs: seq<Child>): seq<Child> {
    StableSort.Sort(cs, ByName())
  }

  lemma SortMembers(cs: seq<Child>)
    ensures |Sort(cs)| == |cs|
    ensures forall c :: c in Sort(cs) <==> c in cs
  {
    StableSort.SortMembers(cs, ByName());
  }

  // ---------- the walk ----------

  function Bound(dirs: seq<Path>): (n: nat)
    ensures forall k | k in dirs :: |DirectoryIdFor(k)| < n
  {
    if dirs == [] then 0
    else
      var n, m := Bound(dirs[1..]), |DirectoryIdFor(dirs[0])| + 1;
      if n < m then m else n
  }

  /** Falls from every identifier to those of its children, whether or not identifiers collide. */
  function Rank(dirs: seq<Path>, id: string): nat {
    if id == ROOT then Bound(dirs) + 1 else if |id| <= Bound(dirs) then Bound(dirs) - |id| else 0
  }

  lemma RankFalls(dirs: seq<Path>, parent: string, c: Child)
    requires c in ChildrenOf(dirs, parent)
    ensures Rank(dirs, c.id) < Rank(dirs, parent)
  {
    ChildrenMeaning(dirs, parent, c);
    var k :| k in dirs && IsChild(k, parent, c);
    IdGrows(k);
  }

  datatype Line = Open(indent: nat, id: string, name: string) | Close(indent: nat)

  function Walk(dirs: seq<Path>, parent: string, indent: nat): seq<Line>
    decreases Rank(dirs, parent), |dirs| + 1
  {
    var cs := ChildrenOf(dirs, parent);
    SortMembers(cs);
    WalkAll(dirs, parent, Sort(cs), indent)
  }

  function WalkAll(dirs: seq<Path>, parent: string, cs: seq<Child>, indent: nat): seq<Line>
    requires forall c | c in cs :: c in ChildrenOf(dirs, parent)
    decreases Rank(dirs, parent), |cs|
  {
    if cs == [] then []
    else
      RankFalls(dirs, parent, cs[0]);
      [Open(indent, cs[0].id, cs[0].name)] + Walk(dirs, cs[0].id, indent + 2) + [Close(indent)]
      + WalkAll(dirs, parent, cs[1..], indent)
  }

  // ---------- the printed elements nest ----------

  /** The identifiers of the open elements, outermost first, and the indentation inside them. */
  datatype Nesting = Broken | Inside(open: seq<string>, indent: nat)

  function Top(open: seq<string>): string {
    if open == [] then ROOT else open[|open| - 1]
  }

  /**
   A reader of the printed lines. An opening line is indented by its depth and names a directory whose parent's
   identifier is the innermost open one; a closing line is indented like the line it closes.
   */
  function Replay(dirs: seq<Path>, lines: seq<Line>, s: Nesting): Nesting {
    if lines == [] || s.Broken? then s else Replay(dirs, lines[1..], Reader(dirs, lines[0], s))
  }

  function Reader(dirs: seq<Path>, line: Line, s: Nesting): Nesting
    requires s.Inside?
  {
    match line
    case Open(indent, id, name) =>
      if indent == s.indent && Child(id, name) in ChildrenOf(dirs, Top(s.open))
      then Inside(s.open + [id], indent + 2) else Broken
    case Close(indent) =>
      if s.open != [] && indent + 2 == s.indent then Inside(s.open[..|s.open| - 1], indent) else Broken
  }

  /** Whatever is printed after these lines is read as if they were not there. */
  ghost predicate Nests(dirs: seq<Path>, lines: seq<Line>, s: Nesting) {
    forall more: seq<Line> :: Replay(dirs, lines + more, s) == Replay(dirs, more, s)
  }

  lemma ReadOpen(dirs: seq<Path>, c: Child, more: seq<Line>, s: Nesting)
    requires s.Inside? && c in ChildrenOf(dirs, Top(s.open))
    ensures Replay(dirs, [Open(s.indent, c.id, c.name)] + more, s)
      == Replay(dirs, more, Inside(s.open + [c.id], s.indent + 2))
  {
    assert ([Open(s.indent, c.id, c.name)] + more)[1..] == more;
  }

  lemma ReadClose(dirs: seq<Path>, c: Child, more: seq<Line>, s: Nesting)
    requires s.Inside?
    ensures Replay(dirs, [Close(s.indent)] + more, Inside(s.open + [c.id], s.indent + 2)) == Replay(dirs, more, s)
  {
    assert ([Close(s.indent)] + more)[1..] == more;
    assert (s.open + [c.id])[..|s.open|] == s.open;
  }

  lemma Brackets(start: seq<Line>, inner: seq<Line>, end: seq<Line>, rest: seq<Line>, more: seq<Line>)
    ensures start + inner + end + rest + more == start + (inner + (end + (rest + more)))
  {
  }

  lemma ElementReads(dirs: seq<Path>, c: Child, inner: seq<Line>, rest: seq<Line>, s: Nesting, more: seq<Line>)
    requires s.Inside? && c in ChildrenOf(dirs, Top(s.open))
    requires Nests(dirs, inner, Inside(s.open + [c.id], s.indent + 2)) && Nests(dirs, rest, s)
    ensures Replay(dirs, [Open(s.indent, c.id, c.name)] + (inner + ([Close(s.indent)] + (rest + more))), s)
      == Replay(dirs, more, s)
  {
    ReadOpen(dirs, c, inner + ([Close(s.indent)] + (rest + more)), s);
    ReadClose(dirs, c, rest + more, s);
  }

  lemma ElementNests(dirs: seq<Path>, c: Child, inner: seq<Line>, rest: seq<Line>, s: Nesting)
    requires s.Inside? && c in ChildrenOf(dirs, Top(s.open))
    requires Nests(dirs, inner, Inside(s.open + [c.id], s.indent + 2)) && Nests(dirs, rest, s)
    ensures Nests(dirs, [Open(s.indent, c.id, c.name)] + inner + [Close(s.indent)] + rest, s)
  {
    var start, end := [Open(s.indent, c.id, c.name)], [Close(s.indent)];
    forall more: seq<Line> ensures Replay(dirs, start + inner + end + rest + more, s) == Replay(dirs, more, s) {
      Brackets(start, inner, end, rest, more);
      ElementReads(dirs, c, inner, rest, s, more);
    }
  }

  function Element(dirs: seq<Path>, c: Child, indent: nat): seq<Line> {
    [Open(indent, c.id, c.name)] + Walk(dirs, c.id, indent + 2) + [Close(indent)]
  }

  lemma Regroup(l: seq<Line>, a: seq<Line>, b: seq<Line>, c: seq<Line>)
    ensures l + (a + b + c) == l + a + b + c
    ensures l + (a + c) == l + a + c
  {
  }

  lemma WalkStep(dirs: seq<Path>, parent: string, cs: seq<Child>, indent: nat)
    requires cs != [] && forall c | c in cs :: c in ChildrenOf(dirs, parent)
    ensures cs[0] in ChildrenOf(dirs, parent) && Rank(dirs, cs[0].id) < Rank(dirs, parent)
    ensures WalkAll(dirs, parent, cs, indent)
      == Element(dirs, cs[0], indent) + WalkAll(dirs, parent, cs[1..], indent)
  {
    RankFalls(dirs, parent, cs[0]);
  }

  lemma FirstNests(dirs: seq<Path>, parent: string, cs: seq<Child>, s: Nesting)
    requires s.Inside? && parent == Top(s.open) && cs != [] && forall c | c in cs :: c in ChildrenOf(dirs, parent)
    requires Nests(dirs, Walk(dirs, cs[0].id, s.indent + 2), Inside(s.open + [cs[0].id], s.indent + 2))
    requires Nests(dirs, WalkAll(dirs, parent, cs[1..], s.indent), s)
    ensures Nests(dirs, WalkAll(dirs, parent, cs, s.indent), s)
  {
    WalkStep(dirs, parent, cs, s.indent);
    ElementNests(dirs, cs[0], Walk(dirs, cs[0].id, s.indent + 2), WalkAll(dirs, parent, cs[1..], s.indent), s);
  }

  /** The printed elements are properly nested, whether or not identifiers collide. */
  lemma {:induction false} WalkNests(dirs: seq<Path>, s: Nesting)
    requires s.Inside?
    ensures Nests(dirs, Walk(dirs, Top(s.open), s.indent), s)
    decreases Rank(dirs, Top(s.open)), |dirs| + 1
  {
    var cs := ChildrenOf(dirs, Top(s.open));
    SortMembers(cs);
    WalkAllNests(dirs, Top(s.open), Sort(cs), s);
  }

  lemma {:induction false} WalkAllNests(dirs: seq<Path>, parent: string, cs: seq<Child>, s: Nesting)
    requires s.Inside? && parent == Top(s.open) && forall c | c in cs :: c in ChildrenOf(dirs, parent)
    ensures Nests(dirs, WalkAll(dirs, parent, cs, s.indent), s)
    decreases Rank(dirs, parent), |cs|
  {
    if cs == [] {
      assert forall more: seq<Line> :: [] + more == more;
    } else {
      RankFalls(dirs, parent, cs[0]);
      WalkNests(dirs, Inside(s.open + [cs[0].id], s.indent + 2));
      WalkAllNests(dirs, parent, cs[1..], s);
      FirstNests(dirs, parent, cs, s);
    }
  }

  /** Read from the root, the printed lines are accepted and leave nothing open. */
  lemma PrintedNests(dirs: seq<Path>)
    ensures Replay(dirs, Walk(dirs, ROOT, 6), Inside([], 6)) == Inside([], 6)
  {
    var lines: seq<Line> := Walk(dirs, ROOT, 6);
    WalkNests(dirs, Inside([], 6));
    assert lines + [] == lines;
  }

  // ---------- how often an identifier is declared ----------

  function Declared(lines: seq<Line>, id: string): nat {
    if lines == [] then 0
    else (if lines[0].Open? && lines[0].id == id then 1 else 0) + Declared(lines[1..], id)
  }

  lemma {:induction false} DeclaredAppend(a: seq<Line>, b: seq<Line>, id: string)
    ensures Declared(a + b, id) == Declared(a, id) + Declared(b, id)
  {
    if a == [] {
      assert a + b == b;
    } else {
      assert (a + b)[1..] == a[1..] + b;
      DeclaredAppend(a[1..], b, id);
    }
  }

  lemma ElementDeclares(c: Child, indent: nat, inner: seq<Line>, rest: seq<Line>, id: string)
    ensures Declared([Open(indent, c.id, c.name)] + inner + [Close(indent)] + rest, id)
      == (if c.id == id then 1 else 0) + Declared(inner, id) + Declared(rest, id)
  {
    var start, end := [Open(indent, c.id, c.name)], [Close(indent)];
    DeclaredAppend(start + inner + end, rest, id);
    DeclaredAppend(start + inner, end, id);
    DeclaredAppend(start, inner, id);
    assert start[1..] == [] && end[1..] == [];
  }

  /** How often a walk from `from` comes to `id`, counting the start. */
  function Visits(dirs: seq<Path>, from: string, id: string): nat
    decreases Rank(dirs, from), |dirs| + 1
  {
    (if from == id then 1 else 0) + VisitsAll(dirs, from, ChildrenOf(dirs, from), id)
  }

  function VisitsAll(dirs: seq<Path>, parent: string, cs: seq<Child>, id: string): nat
    requires forall c | c in cs :: c in ChildrenOf(dirs, parent)
    decreases Rank(dirs, parent), |cs|
  {
    if cs == [] then 0
    else
      RankFalls(dirs, parent, cs[0]);
      Visits(dirs, cs[0].id, id) + VisitsAll(dirs, parent, cs[1..], id)
  }

  lemma {:induction false} VisitsInsert(dirs: seq<Path>, parent: string, c: Child, s: seq<Child>, id: string)
    requires c in ChildrenOf(dirs, parent) && forall x | x in s :: x in ChildrenOf(dirs, parent)
    requires forall x | x in StableSort.Insert(c, s, ByName()) :: x in ChildrenOf(dirs, parent)
    ensures VisitsAll(dirs, parent, StableSort.Insert(c, s, ByName()), id)
      == Visits(dirs, c.id, id) + VisitsAll(dirs, parent, s, id)
  {
    if s == [] || !ByName()(s[0], c) {
      assert ([c] + s)[1..] == s;
    } else {
      var r := StableSort.Insert(c, s, ByName());
      assert r[0] == s[0] && r[1..] == StableSort.Insert(c, s[1..], ByName());
      assert forall x | x in r[1..] :: x in r;
      VisitsInsert(dirs, parent, c, s[1..], id);
    }
  }

  lemma {:induction false} VisitsSort(dirs: seq<Path>, parent: string, cs: seq<Child>, id: string)
    requires forall x | x in cs :: x in ChildrenOf(dirs, parent)
    ensures forall x | x in Sort(cs) :: x in ChildrenOf(dirs, parent)
    ensures VisitsAll(dirs, parent, Sort(cs), id) == VisitsAll(dirs, parent, cs, id)
  {
    SortMembers(cs);
    if cs != [] {
      VisitsSort(dirs, parent, cs[1..], id);
      VisitsInsert(dirs, parent, cs[0], Sort(cs[1..]), id);
    }
  }

  lemma {:induction false} WalkDeclares(dirs: seq<Path>, parent: string, indent: nat, id: string)
    ensures Declared(Walk(dirs, parent, indent), id) + (if parent == id then 1 else 0) == Visits(dirs, parent, id)
    decreases Rank(dirs, parent), |dirs| + 1
  {
    var cs := ChildrenOf(dirs, parent);
    SortMembers(cs);
    WalkAllDeclares(dirs, parent, Sort(cs), indent, id);
    VisitsSort(dirs, parent, cs, id);
  }

  lemma {:induction false} WalkAllDeclares(dirs: seq<Path>, parent: string, cs: seq<Child>, indent: nat, id: string)
    requires forall c | c in cs :: c in ChildrenOf(dirs, parent)
    ensures Declared(WalkAll(dirs, parent, cs, indent), id) == VisitsAll(dirs, parent, cs, id)
    decreases Rank(dirs, parent), |cs|
  {
    if cs != [] {
      RankFalls(dirs, parent, cs[0]);
      WalkDeclares(dirs, cs[0].id, indent + 2, id);
      WalkAllDeclares(dirs, parent, cs[1..], indent, id);
      ElementDeclares(cs[0], indent, Walk(dirs, cs[0].id, indent + 2), WalkAll(dirs, parent, cs[1..], indent), id);
    }
  }

  // ---------- counting by the last step instead of the first ----------

  /** The visits to the parents of the directories in `ks` that have this identifier. */
  function Arrivals(dirs: seq<Path>, ks: seq<Path>, from: string, id: string): nat {
    if ks == [] then 0
    else
      (if ks[0] != [] && DirectoryIdFor(ks[0]) == id then Visits(dirs, from, DirectoryIdFor(Parent(ks[0]))) else 0)
      + Arrivals(dirs, ks[1..], from, id)
  }

  /** The same for walks from some children of `parent`. */
  function ArrivalsBelow(dirs: seq<Path>, ks: seq<Path>, parent: string, cs: seq<Child>, id: string): nat
    requires forall c | c in cs :: c in ChildrenOf(dirs, parent)
  {
    if ks == [] then 0
    else
      (if ks[0] != [] && DirectoryIdFor(ks[0]) == id
       then VisitsAll(dirs, parent, cs, DirectoryIdFor(Parent(ks[0]))) else 0)
      + ArrivalsBelow(dirs, ks[1..], parent, cs, id)
  }

  function Hits(cs: seq<Child>, id: string): nat {
    if cs == [] then 0 else (if cs[0].id == id then 1 else 0) + Hits(cs[1..], id)
  }

  lemma {:induction false} ArrivalsSplit(dirs: seq<Path>, ks: seq<Path>, parent: string, cs: seq<Child>, id: string)
    requires cs != [] && forall c | c in cs :: c in ChildrenOf(dirs, parent)
    ensures ArrivalsBelow(dirs, ks, parent, cs, id)
      == Arrivals(dirs, ks, cs[0].id, id) + ArrivalsBelow(dirs, ks, parent, cs[1..], id)
  {
    if ks != [] {
      ArrivalsSplit(dirs, ks[1..], parent, cs, id);
    }
  }

  lemma {:induction false} NoArrivals(dirs: seq<Path>, ks: seq<Path>, parent: string, id: string)
    ensures ArrivalsBelow(dirs, ks, parent, [], id) == 0
  {
    if ks != [] {
      NoArrivals(dirs, ks[1..], parent, id);
    }
  }

  lemma {:induction false} ArrivalsFrom(dirs: seq<Path>, ks: seq<Path>, from: string, id: string)
    ensures Arrivals(dirs, ks, from, id)
      == Hits(ChildrenOf(ks, from), id) + ArrivalsBelow(dirs, ks, from, ChildrenOf(dirs, from), id)
  {
    if ks != [] {
      ArrivalsFrom(dirs, ks[1..], from, id);
      var rest := ChildrenOf(ks[1..], from);
      if ks[0] != [] && DirectoryIdFor(Parent(ks[0])) == from {
        assert ChildrenOf(ks, from)[1..] == rest;
      } else {
        assert ChildrenOf(ks, from) == rest;
      }
    }
  }

  /** A walk comes to an identifier once for each visit to the parent of a directory that has it. */
  lemma {:induction false} LastStep(dirs: seq<Path>, from: string, id: string)
    ensures Visits(dirs, from, id) == (if from == id then 1 else 0) + Arrivals(dirs, dirs, from, id)
    decreases Rank(dirs, from), |dirs| + 1
  {
    var cs := ChildrenOf(dirs, from);
    LastStepAll(dirs, from, cs, id);
    ArrivalsFrom(dirs, dirs, from, id);
  }

  lemma {:induction false} LastStepAll(dirs: seq<Path>, parent: string, cs: seq<Child>, id: string)
    requires forall c | c in cs :: c in ChildrenOf(dirs, parent)
    ensures VisitsAll(dirs, parent, cs, id) == Hits(cs, id) + ArrivalsBelow(dirs, dirs, parent, cs, id)
    decreases Rank(dirs, parent), |cs|
  {
    if cs == [] {
      NoArrivals(dirs, dirs, parent, id);
    } else {
      RankFalls(dirs, parent, cs[0]);
      LastStep(dirs, cs[0].id, id);
      LastStepAll(dirs, parent, cs[1..], id);
      ArrivalsSplit(dirs, dirs, parent, cs, id);
    }
  }

  // ---------- each directory exactly once ----------

  ghost predicate Closed(dirs: seq<Path>) {
    forall k | k in dirs && k != [] :: Parent(k) in dirs
  }

  ghost predicate NoRepeats(dirs: seq<Path>) {
    forall i, j | 0 <= i < j < |dirs| :: dirs[i] != dirs[j]
  }

  ghost predicate IdsDiffer(dirs: seq<Path>) {
    forall k, l | k in dirs && l in dirs && DirectoryIdFor(k) == DirectoryIdFor(l) :: k == l
  }

  /** The lines printed between the opening and the closing of the root. */
  function Printed(dirs: seq<Path>): seq<Line> {
    Walk(dirs, ROOT, 6)
  }

  /** How often a directory's identifier is declared: as often as those of the parents of all directories sharing it. */
  lemma DeclarationCount(dirs: seq<Path>, k: Path)
    requires k != []
    ensures Declared(Printed(dirs), DirectoryIdFor(k)) == Arrivals(dirs, dirs, ROOT, DirectoryIdFor(k))
    ensures Visits(dirs, ROOT, DirectoryIdFor(k)) == Declared(Printed(dirs), DirectoryIdFor(k))
  {
    IdGrows(k);
    WalkDeclares(dirs, ROOT, 6, DirectoryIdFor(k));
    LastStep(dirs, ROOT, DirectoryIdFor(k));
  }

  lemma {:induction false} ArrivalsAt(dirs: seq<Path>, ks: seq<Path>, i: nat)
    requires i < |ks| && ks[i] != []
    ensures Arrivals(dirs, ks, ROOT, DirectoryIdFor(ks[i])) >= Visits(dirs, ROOT, DirectoryIdFor(Parent(ks[i])))
  {
    if i > 0 {
      ArrivalsAt(dirs, ks[1..], i - 1);
    }
  }

  lemma {:induction false} ArrivalsAtTwo(dirs: seq<Path>, ks: seq<Path>, i: nat, j: nat)
    requires i < j < |ks| && ks[i] != [] && ks[j] != [] && DirectoryIdFor(ks[i]) == DirectoryIdFor(ks[j])
    ensures Arrivals(dirs, ks, ROOT, DirectoryIdFor(ks[i]))
      >= Visits(dirs, ROOT, DirectoryIdFor(Parent(ks[i]))) + Visits(dirs, ROOT, DirectoryIdFor(Parent(ks[j])))
  {
    if i > 0 {
      ArrivalsAtTwo(dirs, ks[1..], i - 1, j - 1);
    } else {
      ArrivalsAt(dirs, ks[1..], j - 1);
    }
  }

  lemma {:induction false} NoneArrive(dirs: seq<Path>, ks: seq<Path>, id: string)
    requires forall k | k in ks && k != [] :: DirectoryIdFor(k) != id
    ensures Arrivals(dirs, ks, ROOT, id) == 0
  {
    if ks != [] {
      NoneArrive(dirs, ks[1..], id);
    }
  }

  lemma {:induction false} OneArrives(dirs: seq<Path>, ks: seq<Path>, i: nat)
    requires i < |ks| && ks[i] != []
    requires forall j | 0 <= j < |ks| && j != i :: DirectoryIdFor(ks[j]) != DirectoryIdFor(ks[i])
    ensures Arrivals(dirs, ks, ROOT, DirectoryIdFor(ks[i])) == Visits(dirs, ROOT, DirectoryIdFor(Parent(ks[i])))
  {
    if i == 0 {
      NoneArrive(dirs, ks[1..], DirectoryIdFor(ks[0]));
    } else {
      OneArrives(dirs, ks[1..], i - 1);
    }
  }

  /** Every directory is reached, with colliding identifiers or without. */
  lemma {:induction false} AllReached(dirs: seq<Path>, k: Path)
    requires Closed(dirs) && k in dirs
    ensures Visits(dirs, ROOT, DirectoryIdFor(k)) >= 1
    decreases |k|
  {
    if k != [] {
      var i :| 0 <= i < |dirs| && dirs[i] == k;
      AllReached(dirs, Parent(k));
      ArrivalsAt(dirs, dirs, i);
      LastStep(dirs, ROOT, DirectoryIdFor(k));
    }
  }

  lemma {:induction false} ReachedOnce(dirs: seq<Path>, k: Path)
    requires Closed(dirs) && NoRepeats(dirs) && IdsDiffer(dirs) && k in dirs
    ensures Visits(dirs, ROOT, DirectoryIdFor(k)) == 1
    decreases |k|
  {
    if k == [] {
      LastStep(dirs, ROOT, ROOT);
      forall l | l in dirs && l != [] ensures DirectoryIdFor(l) != ROOT {
        IdGrows(l);
      }
      NoneArrive(dirs, dirs, ROOT);
    } else {
      var i :| 0 <= i < |dirs| && dirs[i] == k;
      ReachedOnce(dirs, Parent(k));
      forall j | 0 <= j < |dirs| && j != i ensures DirectoryIdFor(dirs[j]) != DirectoryIdFor(k) {
        assert dirs[j] in dirs && dirs[j] != k;
      }
      OneArrives(dirs, dirs, i);
      DeclarationCount(dirs, k);
    }
  }

  lemma CollisionRepeats(dirs: seq<Path>, k: Path, l: Path)
    requires Closed(dirs) && k in dirs && l in dirs && k != l && DirectoryIdFor(k) == DirectoryIdFor(l)
    ensures k != [] && Declared(Printed(dirs), DirectoryIdFor(k)) >= 2
  {
    if k != [] {
      IdGrows(k);
    }
    if l != [] {
      IdGrows(l);
    }
    var i :| 0 <= i < |dirs| && dirs[i] == k;
    var j :| 0 <= j < |dirs| && dirs[j] == l;
    DeclarationCount(dirs, k);
    AllReached(dirs, Parent(k));
    AllReached(dirs, Parent(l));
    if i < j {
      ArrivalsAtTwo(dirs, dirs, i, j);
    } else {
      ArrivalsAtTwo(dirs, dirs, j, i);
    }
  }

  /** Every directory is declared exactly once, if and only if no two directories share an identifier. */
  lemma ExactlyOnce(dirs: seq<Path>)
    requires Closed(dirs) && NoRepeats(dirs)
    ensures IdsDiffer(dirs) <==>
      forall k | k in dirs && k != [] :: Declared(Printed(dirs), DirectoryIdFor(k)) == 1
  {
    if IdsDiffer(dirs) {
      forall k | k in dirs && k != [] ensures Declared(Printed(dirs), DirectoryIdFor(k)) == 1 {
        ReachedOnce(dirs, k);
        DeclarationCount(dirs, k);
      }
    } else {
      var k, l :| k in dirs && l in dirs && DirectoryIdFor(k) == DirectoryIdFor(l) && k != l;
      CollisionRepeats(dirs, k, l);
    }
  }

  /** Two different names can have the same identifier. */
  lemma NamesCollide()
    ensures DirectoryIdFor(["a-b"]) == DirectoryIdFor(["a_b"]) && "a-b" != "a_b"
  {
    assert "a-b"[1] == '-' && "a_b"[1] == '_';
    assert SanitizeId("a-b") == SanitizeId("a_b");
  }

  /** Staging directories holding both are then declared twice. */
  lemma CollisionDeclaresTwice()
    ensures var dirs: seq<Path> := [[], ["a-b"], ["a_b"]];
      Declared(Printed(dirs), DirectoryIdFor(["a_b"])) >= 2
  {
    var dirs: seq<Path> := [[], ["a-b"], ["a_b"]];
    NamesCollide();
    assert dirs[0] == [] && dirs[1] == ["a-b"] && dirs[2] == ["a_b"];
    CollisionRepeats(dirs, ["a_b"], ["a-b"]);
  }

  // ---------- the printed names spell the paths ----------

  lemma ParentAndName(k: Path)
    requires k != []
    ensures k == Parent(k) + [Name(k)]
  {
  }

  /** Reading names down the open elements; None once an element is not the directory that the names spell. */
  datatype Spelling = Misspelled | At(path: Path)

  function Spell(dirs: seq<Path>, lines: seq<Line>, s: Spelling): Spelling {
    if lines == [] || s.Misspelled? then s else Spell(dirs, lines[1..], SpellLine(dirs, lines[0], s.path))
  }

  function SpellLine(dirs: seq<Path>, line: Line, path: Path): Spelling {
    match line
    case Open(_, id, name) =>
      var longer := path + [name];
      if longer in dirs && DirectoryIdFor(longer) == id then At(longer) else Misspelled
    case Close(_) => if path == [] then Misspelled else At(Parent(path))
  }

  ghost predicate Spells(dirs: seq<Path>, lines: seq<Line>, path: Path) {
    forall more: seq<Line> :: Spell(dirs, lines + more, At(path)) == Spell(dirs, more, At(path))
  }

  lemma SpellOpen(dirs: seq<Path>, c: Child, indent: nat, more: seq<Line>, path: Path)
    requires path + [c.name] in dirs && DirectoryIdFor(path + [c.name]) == c.id
    ensures Spell(dirs, [Open(indent, c.id, c.name)] + more, At(path)) == Spell(dirs, more, At(path + [c.name]))
  {
    assert ([Open(indent, c.id, c.name)] + more)[1..] == more;
  }

  lemma SpellClose(dirs: seq<Path>, name: string, indent: nat, more: seq<Line>, path: Path)
    ensures Spell(dirs, [Close(indent)] + more, At(path + [name])) == Spell(dirs, more, At(path))
  {
    assert ([Close(indent)] + more)[1..] == more;
    assert Parent(path + [name]) == path;
  }

  lemma ElementSpelled(dirs: seq<Path>, c: Child, indent: nat, inner: seq<Line>, rest: seq<Line>, path: Path,
                       more: seq<Line>)
    requires path + [c.name] in dirs && DirectoryIdFor(path + [c.name]) == c.id
    requires Spells(dirs, inner, path + [c.name]) && Spells(dirs, rest, path)
    ensures Spell(dirs, [Open(indent, c.id, c.name)] + (inner + ([Close(indent)] + (rest + more))), At(path))
      == Spell(dirs, more, At(path))
  {
    SpellOpen(dirs, c, indent, inner + ([Close(indent)] + (rest + more)), path);
    SpellClose(dirs, c.name, indent, rest + more, path);
  }

  lemma ElementSpells(dirs: seq<Path>, c: Child, indent: nat, inner: seq<Line>, rest: seq<Line>, path: Path)
    requires path + [c.name] in dirs && DirectoryIdFor(path + [c.name]) == c.id
    requires Spells(dirs, inner, path + [c.name]) && Spells(dirs, rest, path)
    ensures Spells(dirs, [Open(indent, c.id, c.name)] + inner + [Close(indent)] + rest, path)
  {
    var start, end := [Open(indent, c.id, c.name)], [Close(indent)];
    forall more: seq<Line>
      ensures Spell(dirs, start + inner + end + rest + more, At(path)) == Spell(dirs, more, At(path))
    {
      Brackets(start, inner, end, rest, more);
      ElementSpelled(dirs, c, indent, inner, rest, path, more);
    }
  }

  /** With different identifiers a child of a directory's identifier is a directory below it. */
  lemma ChildBelow(dirs: seq<Path>, path: Path, c: Child)
    requires Closed(dirs) && IdsDiffer(dirs) && path in dirs && c in ChildrenOf(dirs, DirectoryIdFor(path))
    ensures path + [c.name] in dirs && DirectoryIdFor(path + [c.name]) == c.id
  {
    ChildrenMeaning(dirs, DirectoryIdFor(path), c);
    var k :| k in dirs && IsChild(k, DirectoryIdFor(path), c);
    assert Parent(k) in dirs;
    ParentAndName(k);
  }

  lemma {:induction false} WalkSpells(dirs: seq<Path>, path: Path, indent: nat)
    requires Closed(dirs) && IdsDiffer(dirs) && path in dirs
    ensures Spells(dirs, Walk(dirs, DirectoryIdFor(path), indent), path)
    decreases Rank(dirs, DirectoryIdFor(path)), |dirs| + 1
  {
    var cs := ChildrenOf(dirs, DirectoryIdFor(path));
    SortMembers(cs);
    WalkAllSpells(dirs, path, DirectoryIdFor(path), Sort(cs), indent);
  }

  lemma {:induction false} WalkAllSpells(dirs: seq<Path>, path: Path, parent: string, cs: seq<Child>, indent: nat)
    requires Closed(dirs) && IdsDiffer(dirs) && path in dirs && parent == DirectoryIdFor(path)
    requires forall c | c in cs :: c in ChildrenOf(dirs, parent)
    ensures Spells(dirs, WalkAll(dirs, parent, cs, indent), path)
    decreases Rank(dirs, parent), |cs|
  {
    if cs == [] {
      assert forall more: seq<Line> :: [] + more == more;
    } else {
      RankFalls(dirs, parent, cs[0]);
      ChildBelow(dirs, path, cs[0]);
      WalkSpells(dirs, path + [cs[0].name], indent + 2);
      WalkAllSpells(dirs, path, parent, cs[1..], indent);
      FirstSpells(dirs, path, parent, cs, indent);
    }
  }

  lemma FirstSpells(dirs: seq<Path>, path: Path, parent: string, cs: seq<Child>, indent: nat)
    requires cs != [] && forall c | c in cs :: c in ChildrenOf(dirs, parent)
    requires path + [cs[0].name] in dirs && DirectoryIdFor(path + [cs[0].name]) == cs[0].id
    requires Spells(dirs, Walk(dirs, cs[0].id, indent + 2), path + [cs[0].name])
    requires Spells(dirs, WalkAll(dirs, parent, cs[1..], indent), path)
    ensures Spells(dirs, WalkAll(dirs, parent, cs, indent), path)
  {
    WalkStep(dirs, parent, cs, indent);
    ElementSpells(dirs, cs[0], indent, Walk(dirs, cs[0].id, indent + 2), WalkAll(dirs, parent, cs[1..], indent), path);
  }

  /**
   When no two directories share an identifier, the names of the open elements spell, at every element, the directory
   whose identifier it has.
   */
  lemma PrintedSpells(dirs: seq<Path>)
    requires Closed(dirs) && IdsDiffer(dirs) && [] in dirs
    ensures Spell(dirs, Printed(dirs), At([])) == At([])
  {
    WalkSpells(dirs, [], 6);
    assert Printed(dirs) + [] == Printed(dirs);
  }

  /** The children of one identifier are printed in the order of their names. */
  lemma SiblingsAscend(dirs: seq<Path>, parent: string, i: nat, j: nat)
    requires i < j < |ChildrenOf(dirs, parent)|
    ensures |Sort(ChildrenOf(dirs, parent))| == |ChildrenOf(dirs, parent)|
    ensures var cs := Sort(ChildrenOf(dirs, parent)); !StringOrder.Less(cs[j].name, cs[i].name)
  {
    SortMembers(ChildrenOf(dirs, parent));
    NamesOrdered();
    StableSort.SortInOrder(ChildrenOf(dirs, parent), ByName());
  }

  // ---------- the order of the directories does not matter ----------

  lemma {:induction false} ChildrenAppend(a: seq<Path>, b: seq<Path>, parent: string)
    ensures ChildrenOf(a + b, parent) == ChildrenOf(a, parent) + ChildrenOf(b, parent)
  {
    if a == [] {
      assert a + b == b;
    } else {
      assert (a + b)[1..] == a[1..] + b;
      ChildrenAppend(a[1..], b, parent);
    }
  }

  lemma ChildrenAround(front: seq<Path>, k: Path, back: seq<Path>, parent: string)
    ensures multiset(ChildrenOf(front + [k] + back, parent))
      == multiset(ChildrenOf([k], parent)) + multiset(ChildrenOf(front + back, parent))
  {
    ChildrenAppend(front + [k], back, parent);
    ChildrenAppend(front, [k], parent);
    ChildrenAppend(front, back, parent);
  }

  lemma TakeOut(a: seq<Path>, b: seq<Path>) returns (front: seq<Path>, back: seq<Path>)
    requires multiset(a) == multiset(b) && a != []
    ensures b == front + [a[0]] + back && multiset(front + back) == multiset(a[1..])
  {
    assert a == [a[0]] + a[1..];
    assert a[0] in multiset(b);
    var i :| 0 <= i < |b| && b[i] == a[0];
    front, back := b[..i], b[i + 1..];
    assert b == front + [a[0]] + back;
    assert multiset(front + back) == multiset(b) - multiset{a[0]};
    assert multiset(a[1..]) == multiset(a) - multiset{a[0]};
  }

  lemma {:induction false} ChildrenPermute(a: seq<Path>, b: seq<Path>, parent: string)
    requires multiset(a) == multiset(b)
    ensures multiset(ChildrenOf(a, parent)) == multiset(ChildrenOf(b, parent))
  {
    if a == [] {
      assert |multiset(b)| == 0;
    } else {
      var front, back := TakeOut(a, b);
      ChildrenPermute(a[1..], front + back, parent);
      assert a == [a[0]] + a[1..];
      ChildrenAppend([a[0]], a[1..], parent);
      ChildrenAround(front, a[0], back, parent);
    }
  }

  lemma NamesOrdered()
    ensures StableSort.WeakOrder(ByName())
  {
    forall a: Child, b: Child, c: Child
      ensures ByName()(a, b) ==> !ByName()(b, a)
      ensures !ByName()(b, a) && !ByName()(c, b) ==> !ByName()(c, a)
    {
      StringOrder.LessTotal(a.name, b.name);
      StringOrder.NotLessTransitive(a.name, b.name, c.name);
    }
  }

  /** Children of one identifier that have the same name have the same identifier. */
  lemma SiblingNames(dirs: seq<Path>, parent: string, x: Child, y: Child)
    requires x in ChildrenOf(dirs, parent) && y in ChildrenOf(dirs, parent) && x.name == y.name
    ensures x == y
  {
    ChildrenMeaning(dirs, parent, x);
    ChildrenMeaning(dirs, parent, y);
    var k :| k in dirs && IsChild(k, parent, x);
    var l :| l in dirs && IsChild(l, parent, y);
    ChildId(k);
    ChildId(l);
  }

  lemma ChildId(k: Path)
    requires k != []
    ensures DirectoryIdFor(k) ==
      if DirectoryIdFor(Parent(k)) == ROOT then "dir_" + SanitizeId(Name(k))
      else DirectoryIdFor(Parent(k)) + "_" + SanitizeId(Name(k))
  {
    if |k| == 1 {
      assert Parent(k) == [];
    } else {
      IdGrows(Parent(k));
      assert "dir_" + Joined(k) == "dir_" + Joined(Parent(k)) + "_" + SanitizeId(Name(k));
    }
  }

  lemma SortedAlike(a: seq<Path>, b: seq<Path>, parent: string)
    requires multiset(a) == multiset(b)
    ensures Sort(ChildrenOf(a, parent)) == Sort(ChildrenOf(b, parent))
  {
    var cs := ChildrenOf(a, parent);
    ChildrenPermute(a, b, parent);
    NamesOrdered();
    forall x, y | x in cs && y in cs && !ByName()(x, y) && !ByName()(y, x) ensures x == y {
      StringOrder.LessTotal(x.name, y.name);
      SiblingNames(a, parent, x, y);
    }
    StableSort.SortUnique(cs, ChildrenOf(b, parent), ByName());
  }

  /** The printed lines depend on which directories there are, not on the order they come in. */
  lemma {:induction false} OrderIrrelevant(a: seq<Path>, b: seq<Path>, parent: string, indent: nat)
    requires multiset(a) == multiset(b)
    ensures Walk(a, parent, indent) == Walk(b, parent, indent)
    decreases Rank(a, parent), |a| + 1
  {
    SortedAlike(a, b, parent);
    SortMembers(ChildrenOf(a, parent));
    SortMembers(ChildrenOf(b, parent));
    OrderIrrelevantAll(a, b, parent, Sort(ChildrenOf(a, parent)), indent);
  }

  lemma {:induction false} OrderIrrelevantAll(a: seq<Path>, b: seq<Path>, parent: string, cs: seq<Child>, indent: nat)
    requires multiset(a) == multiset(b)
    requires forall c | c in cs :: c in ChildrenOf(a, parent) && c in ChildrenOf(b, parent)
    ensures WalkAll(a, parent, cs, indent) == WalkAll(b, parent, cs, indent)
    decreases Rank(a, parent), |cs|
  {
    if cs != [] {
      WalkStep(a, parent, cs, indent);
      WalkStep(b, parent, cs, indent);
      OrderIrrelevant(a, b, cs[0].id, indent + 2);
      OrderIrrelevantAll(a, b, parent, cs[1..], indent);
    }
  }

  // ---------- components ----------

  /** The two service elements that only the helper's component has. */
  datatype Service = Install | Control

  datatype Component = Component(id: string, directory: string, guid: string, fileId: string, path: string,
                                 services: seq<Service>)

  function Posix(parts: Path): string {
    if parts == [] then "" else if |parts| == 1 then parts[0] else parts[0] + "/" + Posix(parts[1..])
  }

  /** `uuid5` is the name-based identifier in the URL namespace. */
  function ComponentFor(file: Path, uuid5: string -> string): Component {
    var rel := Posix(file);
    Component("cmp_" + SanitizeId(rel), DirectoryIdFor(Parent(file)), uuid5("zarya-msi:" + rel),
              "file_" + SanitizeId(rel), rel,
              if Text.Lower(rel) == "zarya-helper.exe" then [Install, Control] else [])
  }

  function ComponentsFor(files: seq<Path>, uuid5: string -> string): (r: seq<Component>)
    ensures |r| == |files| && forall i | 0 <= i < |r| :: r[i] == ComponentFor(files[i], uuid5)
  {
    seq(|files|, i requires 0 <= i < |files| => ComponentFor(files[i], uuid5))
  }

  /** A part of a path is not empty and has no slash. */
  predicate IsPart(s: string) {
    s != "" && '/' !in s
  }

  /** The printed path has the file's parts between slashes. */
  lemma {:induction false} PosixReads(file: Path)
    requires file != [] && forall p | p in file :: IsPart(p)
    ensures Text.Split(Posix(file), '/') == file
  {
    assert file[0] in file;
    Text.SplitAround(file[0], '/', if |file| == 1 then "" else Posix(file[1..]));
    if |file| > 1 {
      PosixReads(file[1..]);
    }
  }

  /** Different files have different paths and, as far as the name-based identifiers tell names apart, GUIDs. */
  lemma FilesApart(f: Path, g: Path, uuid5: string -> string)
    requires f != [] && g != [] && f != g && (forall p | p in f :: IsPart(p)) && (forall p | p in g :: IsPart(p))
    ensures var c, d := ComponentFor(f, uuid5), ComponentFor(g, uuid5);
      && c.path != d.path
      && ((forall a, b :: uuid5(a) == uuid5(b) ==> a == b) ==> c.guid != d.guid)
  {
    PosixReads(f);
    PosixReads(g);
    PrefixCancels("zarya-msi:", Posix(f), Posix(g));
  }

  /** Only the helper at the top of the staging directory, in any case, is installed as a service. */
  lemma ServiceOfHelper(file: Path, uuid5: string -> string)
    requires file != [] && forall p | p in file :: IsPart(p)
    ensures ComponentFor(file, uuid5).services ==
      if |file| == 1 && Text.EqualsIgnoreCase(file[0], "zarya-helper.exe") then [Install, Control] else []
  {
    assert file[0] in file;
    NoSlash("zarya-helper.exe");
    assert Text.Lower("zarya-helper.exe") == "zarya-helper.exe";
    if |file| > 1 {
      assert Posix(file)[|file[0]|] == '/';
      assert Text.Lower(Posix(file))[|file[0]|] == '/';
    }
  }

  lemma NoSlash(s: string)
    requires s == "zarya-helper.exe"
    ensures '/' !in s
  {
  }

  // ---------- colliding identifiers ----------

  /** A character that an identifier shows as an underscore. */
  predicate IsMark(c: char) {
    c == '_' || !IsIdChar(c)
  }

  /** Equal but for marks, each standing where the other has one. */
  predicate Alike(a: string, b: string) {
    |a| == |b| && forall i | 0 <= i < |a| :: a[i] == b[i] || (IsMark(a[i]) && IsMark(b[i]))
  }

  /** A name that is empty or starts with a digit gets a letter first. */
  function Prefixed(s: string): string {
    if s == "" || '0' <= s[0] <= '9' then "f_" + s else s
  }

  lemma SanitizedChars(s: string)
    ensures var id, full := SanitizeId(s), Prefixed(s);
      |id| == |full| && forall i | 0 <= i < |id| :: id[i] == if IsMark(full[i]) then '_' else full[i]
  {
  }

  /** Two names have the same identifier exactly when they are alike. */
  lemma SameIdentifier(a: string, b: string)
    ensures SanitizeId(a) == SanitizeId(b) <==> Alike(Prefixed(a), Prefixed(b))
  {
    SanitizedChars(a);
    SanitizedChars(b);
    var x, y := SanitizeId(a), SanitizeId(b);
    if x == y {
      forall i | 0 <= i < |x| ensures var c, d := Prefixed(a)[i], Prefixed(b)[i]; c == d || (IsMark(c) && IsMark(d)) {
        assert x[i] == y[i];
      }
    }
    if Alike(Prefixed(a), Prefixed(b)) {
      assert forall i | 0 <= i < |x| :: x[i] == y[i];
    }
  }

  lemma PrefixCancels(p: string, a: string, b: string)
    ensures p + a == p + b <==> a == b
  {
    assert (p + a)[|p|..] == a && (p + b)[|p|..] == b;
  }

  /** Component identifiers, and file identifiers, are all different exactly when no two paths are alike. */
  lemma ComponentIdsDiffer(files: seq<Path>, uuid5: string -> string)
    ensures var cs := ComponentsFor(files, uuid5);
      var apart := forall i, j | 0 <= i < j < |files| :: !Alike(Prefixed(Posix(files[i])), Prefixed(Posix(files[j])));
      && ((forall i, j | 0 <= i < j < |cs| :: cs[i].id != cs[j].id) <==> apart)
      && ((forall i, j | 0 <= i < j < |cs| :: cs[i].fileId != cs[j].fileId) <==> apart)
  {
    var cs := ComponentsFor(files, uuid5);
    forall i, j | 0 <= i < j < |files|
      ensures cs[i].id == cs[j].id <==> Alike(Prefixed(Posix(files[i])), Prefixed(Posix(files[j])))
      ensures cs[i].fileId == cs[j].fileId <==> Alike(Prefixed(Posix(files[i])), Prefixed(Posix(files[j])))
    {
      SameIdentifier(Posix(files[i]), Posix(files[j]));
      PrefixCancels("cmp_", SanitizeId(Posix(files[i])), SanitizeId(Posix(files[j])));
      PrefixCancels("file_", SanitizeId(Posix(files[i])), SanitizeId(Posix(files[j])));
    }
  }

  /** A file in a directory and a file beside it can get the same identifiers. */
  lemma ComponentsCollide(uuid5: string -> string)
    ensures var c, d := ComponentFor(["a", "b"], uuid5), ComponentFor(["a_b"], uuid5);
      c.id == d.id && c.fileId == d.fileId && c.path != d.path
  {
    assert ["a", "b"][1..] == ["b"];
    assert Posix(["b"]) == "b" && Posix(["a", "b"]) == "a/b" && Posix(["a_b"]) == "a_b";
    assert "a/b"[1] == '/' && "a_b"[1] == '_';
    SameIdentifier("a/b", "a_b");
  }

  // ---------- the order of the components ----------

  predicate PathLess(a: Path, b: Path) {
    if b == [] then false
    else if a == [] then true
    else if a[0] != b[0] then StringOrder.Less(a[0], b[0])
    else PathLess(a[1..], b[1..])
  }

  lemma {:induction false} PathTotal(a: Path, b: Path)
    ensures !(PathLess(a, b) && PathLess(b, a))
    ensures a != b <==> PathLess(a, b) || PathLess(b, a)
  {
    if a != [] && b != [] {
      StringOrder.LessTotal(a[0], b[0]);
      if a[0] == b[0] {
        PathTotal(a[1..], b[1..]);
        assert a == [a[0]] + a[1..];
        assert b == [b[0]] + b[1..];
      }
    }
  }

  lemma {:induction false} PathTransitive(a: Path, b: Path, c: Path)
    requires PathLess(a, b) && PathLess(b, c)
    ensures PathLess(a, c)
  {
    if a != [] {
      StringOrder.LessTotal(a[0], b[0]);
      StringOrder.LessTotal(b[0], c[0]);
      StringOrder.LessTotal(a[0], c[0]);
      if a[0] == b[0] == c[0] {
        PathTransitive(a[1..], b[1..], c[1..]);
      } else if a[0] != b[0] && b[0] != c[0] {
        StringOrder.LessTransitive(a[0], b[0], c[0]);
      }
    }
  }

  /** Paths agree on their first `k` parts, and then `a` ends or has the smaller part. */
  ghost predicate PartsDifferAt(a: Path, b: Path, k: nat) {
    && k <= |a| && k < |b| && a[..k] == b[..k]
    && (k == |a| || (a[k] != b[k] && StringOrder.Less(a[k], b[k])))
  }

  lemma PartsDifferLonger(a: Path, b: Path, k: nat)
    requires a != [] && b != [] && a[0] == b[0] && k > 0
    ensures PartsDifferAt(a, b, k) <==> PartsDifferAt(a[1..], b[1..], k - 1)
  {
    if k <= |a| && k <= |b| {
      assert a[..k] == [a[0]] + a[1..][..k - 1] && b[..k] == [b[0]] + b[1..][..k - 1];
      assert a[1..][..k - 1] == a[..k][1..] && b[1..][..k - 1] == b[..k][1..];
    }
  }

  lemma PartsDifferFirst(a: Path, b: Path, k: nat)
    ensures a != [] && b != [] && a[0] != b[0] && PartsDifferAt(a, b, k) ==> k == 0
  {
    if 0 < k <= |a| && k <= |b| {
      assert a[..k][0] == a[0] && b[..k][0] == b[0];
    }
  }

  /** The first part in which two paths differ decides. */
  lemma {:induction false} PathLessMeaning(a: Path, b: Path)
    ensures PathLess(a, b) <==> exists k: nat :: PartsDifferAt(a, b, k)
  {
    if a == [] || b == [] || a[0] != b[0] {
      forall k: nat ensures a != [] && b != [] && PartsDifferAt(a, b, k) ==> k == 0 {
        PartsDifferFirst(a, b, k);
      }
      assert PathLess(a, b) <==> PartsDifferAt(a, b, 0);
    } else {
      PathLessMeaning(a[1..], b[1..]);
      assert !PartsDifferAt(a, b, 0);
      if k: nat :| PartsDifferAt(a[1..], b[1..], k) {
        PartsDifferLonger(a, b, k + 1);
      }
      if k: nat :| PartsDifferAt(a, b, k) {
        PartsDifferLonger(a, b, k);
      }
    }
  }

  /** The components come in the order of the folded paths. */
  lemma ComponentsAscend(files: seq<Path>, fold: string -> string, i: nat, j: nat)
    requires i < j < |files|
    ensures |Sorted(files, fold)| == |files|
    ensures !PathLess(Folded(Sorted(files, fold)[j], fold), Folded(Sorted(files, fold)[i], fold))
  {
    StableSort.SortMembers(files, ByPath(fold));
    PathsOrdered(fold);
    StableSort.SortInOrder(files, ByPath(fold));
  }

  function Folded(p: Path, fold: string -> string): Path {
    seq(|p|, i requires 0 <= i < |p| => fold(p[i]))
  }

  /** Paths compare by their parts; `fold` is the platform's case folding of file names, if it has one. */
  function ByPath(fold: string -> string): (Path, Path) -> bool {
    (a: Path, b: Path) => PathLess(Folded(a, fold), Folded(b, fold))
  }

  lemma PathsOrdered(fold: string -> string)
    ensures StableSort.WeakOrder(ByPath(fold))
  {
    var less := ByPath(fold);
    forall a: Path, b: Path, c: Path
      ensures less(a, b) ==> !less(b, a)
      ensures !less(b, a) && !less(c, b) ==> !less(c, a)
    {
      var x, y, z := Folded(a, fold), Folded(b, fold), Folded(c, fold);
      PathTotal(x, y);
      PathTotal(y, z);
      PathTotal(x, z);
      if PathLess(x, y) && PathLess(y, z) {
        PathTransitive(x, y, z);
      }
    }
  }

  function Sorted(files: seq<Path>, fold: string -> string): seq<Path> {
    StableSort.Sort(files, ByPath(fold))
  }

  /** The components do not depend on the order in which the files were found, if no two paths differ in case alone. */
  lemma FileOrderIrrelevant(a: seq<Path>, b: seq<Path>, fold: string -> string)
    requires multiset(a) == multiset(b)
    requires forall f, g | f in a && g in a && Folded(f, fold) == Folded(g, fold) :: f == g
    ensures Sorted(a, fold) == Sorted(b, fold)
  {
    PathsOrdered(fold);
    forall f, g | f in a && g in a && !ByPath(fold)(f, g) && !ByPath(fold)(g, f) ensures f == g {
      PathTotal(Folded(f, fold), Folded(g, fold));
    }
    StableSort.SortUnique(a, b, ByPath(fold));
  }

  /** A directory, other than the staging directory, on the way to some file. */
  ghost predicate OnTheWay(files: seq<Path>, k: Path) {
    exists f, n | f in files && 1 <= n < |f| :: k == f[..n]
  }

  ghost predicate Collected(files: seq<Path>, dirs: seq<Path>) {
    NoRepeats(dirs) && forall k :: k in dirs <==> k == [] || OnTheWay(files, k)
  }

  lemma CollectedClosed(files: seq<Path>, dirs: seq<Path>)
    requires Collected(files, dirs)
    ensures Closed(dirs)
  {
    forall k | k in dirs && k != [] ensures Parent(k) in dirs {
      var f, n :| f in files && 1 <= n < |f| && k == f[..n];
      if n > 1 {
        assert Parent(k) == f[..n - 1];
        assert OnTheWay(files, Parent(k));
      }
    }
  }

  /** Every component is placed in the root or in a directory that the other fragment declares. */
  lemma ComponentsPlaced(files: seq<Path>, dirs: seq<Path>, file: Path, uuid5: string -> string)
    requires Collected(files, dirs) && file in files
    ensures var id := ComponentFor(file, uuid5).directory;
      id == ROOT || Declared(Printed(dirs), id) >= 1
  {
    var k := Parent(file);
    if k != [] {
      assert k == file[..|file| - 1];
      assert OnTheWay(files, k);
      CollectedClosed(files, dirs);
      AllReached(dirs, k);
      DeclarationCount(dirs, k);
    }
  }

  /**
   The directory of a component is that of the file itself: the root exactly for a file at the top, and otherwise,
   unless identifiers collide, no directory's but the one the file is in.
   */
  lemma ComponentsWhereFiles(files: seq<Path>, dirs: seq<Path>, file: Path, uuid5: string -> string)
    requires Collected(files, dirs) && file in files && file != []
    ensures var id := ComponentFor(file, uuid5).directory;
      && (id == ROOT <==> |file| == 1)
      && (IdsDiffer(dirs) ==> forall k | k in dirs :: DirectoryIdFor(k) == id <==> file[..|file| - 1] == k)
  {
    var k := file[..|file| - 1];
    if k != [] {
      IdGrows(k);
      assert OnTheWay(files, k);
    }
    assert k in dirs && Parent(file) == k;
  }

  /** And nothing else is declared than the directories on the way to the files. */
  lemma DeclaredAreCollected(dirs: seq<Path>, id: string)
    requires id != ROOT && Declared(Printed(dirs), id) >= 1
    ensures exists k | k in dirs && k != [] :: DirectoryIdFor(k) == id
  {
    WalkDeclares(dirs, ROOT, 6, id);
    LastStep(dirs, ROOT, id);
    if forall k | k in dirs && k != [] :: DirectoryIdFor(k) != id {
      NoneArrive(dirs, dirs, id);
    }
  }

  // ---------- the script ----------

  method CollectDirectories(files: seq<Path>) returns (dirs: seq<Path>, ids: map<Path, string>)
    ensures Collected(files, dirs)
    ensures forall k :: k in ids <==> k in dirs
    ensures forall k | k in ids :: ids[k] == DirectoryIdFor(k)
  {
    ids := map[[] := ROOT];
    for i := 0 to |files|
      invariant forall k :: k in ids <==> k == [] || OnTheWay(files[..i], k)
      invariant forall k | k in ids :: ids[k] == DirectoryIdFor(k)
    {
      ids := AddPrefixes(ids, files[i]);
      forall k ensures OnTheWay(files[..i + 1], k) <==>
        OnTheWay(files[..i], k) || IsPrefix(files[i], k, |files[i]| - 1)
      {
        Extended(files, i, k);
      }
    }
    assert files[..|files|] == files;
    dirs := Enumerate(ids.Keys);
  }

  lemma Extended(files: seq<Path>, i: nat, k: Path)
    requires i < |files|
    ensures OnTheWay(files[..i + 1], k) <==>
      OnTheWay(files[..i], k) || IsPrefix(files[i], k, |files[i]| - 1)
  {
    assert files[..i + 1] == files[..i] + [files[i]];
    if IsPrefix(files[i], k, |files[i]| - 1) {
      assert files[i] in files[..i + 1] && k == files[i][..|k|];
    }
  }

  ghost predicate IsPrefix(file: Path, k: Path, longest: int) {
    1 <= |k| <= longest && |k| <= |file| && k == file[..|k|]
  }

  method AddPrefixes(ids: map<Path, string>, file: Path) returns (r: map<Path, string>)
    requires forall k | k in ids :: ids[k] == DirectoryIdFor(k)
    ensures forall k :: k in r <==> k in ids || IsPrefix(file, k, |file| - 1)
    ensures forall k | k in r :: r[k] == DirectoryIdFor(k)
  {
    r := ids;
    var i := 0;
    while i + 1 < |file|
      invariant 0 <= i && (i < |file| || i == 0)
      invariant forall k :: k in r <==> k in ids || IsPrefix(file, k, i)
      invariant forall k | k in r :: r[k] == DirectoryIdFor(k)
    {
      var key := file[..i + 1];
      forall k ensures IsPrefix(file, k, i + 1) <==> IsPrefix(file, k, i) || k == key {
        if |k| == i + 1 && IsPrefix(file, k, i + 1) {
          assert k == key;
        }
      }
      if key !in r {
        r := r[key := DirectoryIdFor(key)];
      }
      assert forall k :: k in r <==> k in ids || IsPrefix(file, k, i) || k == key;
      i := i + 1;
    }
  }

  /** The keys in some order; the script sorts them, which the printed lines do not show. */
  method Enumerate(keys: set<Path>) returns (dirs: seq<Path>)
    ensures NoRepeats(dirs) && forall k :: k in dirs <==> k in keys
  {
    dirs := [];
    var todo := keys;
    while todo != {}
      invariant todo <= keys && NoRepeats(dirs)
      invariant forall k :: k in dirs <==> k in keys - todo
      decreases todo
    {
      var k :| k in todo;
      forall i | 0 <= i < |dirs| ensures dirs[i] != k {
        assert dirs[i] in dirs;
      }
      dirs := dirs + [k];
      todo := todo - {k};
    }
  }

  /** One component for each file, in the order of the paths. */
  method RenderComponents(files: seq<Path>, fold: string -> string, uuid5: string -> string)
    returns (components: seq<Component>)
    ensures components == ComponentsFor(Sorted(files, fold), uuid5)
    ensures |components| == |files| && forall f | f in files :: ComponentFor(f, uuid5) in components
  {
    var sorted := Sorted(files, fold);
    components := [];
    for i := 0 to |sorted|
      invariant components == ComponentsFor(sorted, uuid5)[..i]
    {
      var rel := Posix(sorted[i]);
      var services: seq<Service> := [];
      if Text.Lower(rel) == "zarya-helper.exe" {
        services := [Install, Control];
      }
      components := components + [Component("cmp_" + SanitizeId(rel), DirectoryIdFor(Parent(sorted[i])),
                                            uuid5("zarya-msi:" + rel), "file_" + SanitizeId(rel), rel, services)];
    }
    StableSort.SortMembers(files, ByPath(fold));
    forall f | f in files ensures ComponentFor(f, uuid5) in components {
      var i :| 0 <= i < |sorted| && sorted[i] == f;
      assert components[i] == ComponentFor(f, uuid5);
    }
  }

  /** Printing these children of `parent` after `now` gives `goal`. */
  ghost predicate Left(dirs: seq<Path>, parent: string, cs: seq<Child>, indent: nat, now: seq<Line>, goal: seq<Line>) {
    (forall c | c in cs :: c in ChildrenOf(dirs, parent)) && now + WalkAll(dirs, parent, cs, indent) == goal
  }

  lemma LoopStart(dirs: seq<Path>, parent: string, cs: seq<Child>, indent: nat, now: seq<Line>)
    requires cs == Sort(ChildrenOf(dirs, parent))
    ensures Left(dirs, parent, cs[0..], indent, now, now + Walk(dirs, parent, indent))
  {
    SortMembers(ChildrenOf(dirs, parent));
    assert cs[0..] == cs;
  }

  lemma LoopEnd(dirs: seq<Path>, parent: string, cs: seq<Child>, indent: nat, now: seq<Line>, goal: seq<Line>)
    requires Left(dirs, parent, cs[|cs|..], indent, now, goal)
    ensures now == goal
  {
  }

  lemma LoopStep(dirs: seq<Path>, parent: string, cs: seq<Child>, indent: nat, now: seq<Line>, goal: seq<Line>)
    requires cs != [] && Left(dirs, parent, cs, indent, now, goal)
    ensures Rank(dirs, cs[0].id) < Rank(dirs, parent)
    ensures Left(dirs, parent, cs[1..], indent, now + Element(dirs, cs[0], indent), goal)
  {
    WalkStep(dirs, parent, cs, indent);
    Regroup(now, Element(dirs, cs[0], indent), [], WalkAll(dirs, parent, cs[1..], indent));
  }

  class DirectoryPrinter {
    var children: map<string, seq<Child>>
    var lines: seq<Line>

    constructor ()
      ensures children == map[] && lines == []
    {
      children, lines := map[], [];
    }

    function Of(parent: string): seq<Child>
      reads this
    {
      if parent in children then children[parent] else []
    }

    ghost predicate Holds(dirs: seq<Path>)
      reads this
    {
      forall parent :: Of(parent) == ChildrenOf(dirs, parent)
    }

    method AddChild(ghost before: seq<Path>, parts: Path)
      requires Holds(before)
      modifies this`children
      ensures Holds(before + [parts])
    {
      if parts != [] {
        var parent := DirectoryIdFor(Parent(parts));
        children := children[parent := Of(parent) + [Child(DirectoryIdFor(parts), Name(parts))]];
      }
      forall parent
        ensures ChildrenOf(before + [parts], parent) == ChildrenOf(before, parent) + ChildrenOf([parts], parent) {
        ChildrenAppend(before, [parts], parent);
      }
    }

    method RenderDirectories(dirs: seq<Path>)
      requires children == map[] && lines == []
      modifies this
      ensures lines == Printed(dirs)
    {
      for i := 0 to |dirs|
        invariant Holds(dirs[..i]) && lines == []
      {
        AddChild(dirs[..i], dirs[i]);
        assert dirs[..i] + [dirs[i]] == dirs[..i + 1];
      }
      assert dirs[..|dirs|] == dirs;
      PrintBelow(dirs, ROOT, 6);
    }

    method PrintBelow(ghost dirs: seq<Path>, parent: string, indent: nat)
      requires Holds(dirs)
      modifies this`lines
      ensures lines == old(lines) + Walk(dirs, parent, indent)
      decreases Rank(dirs, parent), 1
    {
      var cs := Sort(Of(parent));
      ghost var goal := lines + Walk(dirs, parent, indent);
      LoopStart(dirs, parent, cs, indent, lines);
      for i := 0 to |cs|
        invariant Left(dirs, parent, cs[i..], indent, lines, goal)
      {
        PrintNext(dirs, parent, cs, i, indent, goal);
      }
      LoopEnd(dirs, parent, cs, indent, lines, goal);
    }

    /** One turn of the loop. */
    method PrintNext(ghost dirs: seq<Path>, ghost parent: string, cs: seq<Child>, i: nat, indent: nat,
                     ghost goal: seq<Line>)
      requires Holds(dirs) && i < |cs| && Left(dirs, parent, cs[i..], indent, lines, goal)
      modifies this`lines
      ensures Left(dirs, parent, cs[i + 1..], indent, lines, goal)
      decreases Rank(dirs, parent), 0
    {
      LoopStep(dirs, parent, cs[i..], indent, lines, goal);
      assert cs[i..][1..] == cs[i + 1..];
      PrintElement(dirs, cs[i], indent);
    }

    method PrintElement(ghost dirs: seq<Path>, c: Child, indent: nat)
      requires Holds(dirs)
      modifies this`lines
      ensures lines == old(lines) + Element(dirs, c, indent)
      decreases Rank(dirs, c.id), 2
    {
      lines := lines + [Open(indent, c.id, c.name)];
      PrintBelow(dirs, c.id, indent + 2);
      lines := lines + [Close(indent)];
      Regroup(old(lines), [Open(indent, c.id, c.name)], Walk(dirs, c.id, indent + 2), [Close(indent)]);
    }
  }
}
