/** The checksum sidecars of a release directory and its `SHA256SUMS.txt`, as texts. */
module ReleaseChecksums {
  import Text

  // ---------- the string methods of the scripts ----------

  /** `str.isspace`: what `split` and `strip` treat as white space. */
  predicate IsSpace(c: char) {
    Text.IsSpace(c) || 0x1C <= c as int <= 0x1F
  }

  /** The characters `splitlines` breaks at. */
  predicate IsBreak(c: char) {
    var n := c as int;
    10 <= n <= 13 || 0x1C <= n <= 0x1E || n == 0x85 || n == 0x2028 || n == 0x2029
  }

  /** Not empty and free of white space. */
  predicate IsWord(s: string) {
    s != "" && forall i | 0 <= i < |s| :: !IsSpace(s[i])
  }

  predicate BreakFree(s: string) {
    forall i | 0 <= i < |s| :: !IsBreak(s[i])
  }

  function FirstBreak(s: string): (n: nat)
    ensures n <= |s| && BreakFree(s[..n])
    ensures n < |s| ==> IsBreak(s[n])
  {
    if s == "" || IsBreak(s[0]) then 0 else 1 + FirstBreak(s[1..])
  }

  function SplitLines(s: string): seq<string> {
    var n := FirstBreak(s);
    if s == "" then []
    else if n == |s| then [s]
    else if s[n] == '\r' && n + 1 < |s| && s[n + 1] == '\n' then [s[..n]] + SplitLines(s[n + 2..])
    else [s[..n]] + SplitLines(s[n + 1..])
  }

  function WordLength(s: string): (n: nat)
    ensures n <= |s| && forall i | 0 <= i < n :: !IsSpace(s[i])
    ensures n < |s| ==> IsSpace(s[n])
  {
    if s == "" || IsSpace(s[0]) then 0 else 1 + WordLength(s[1..])
  }

  /** `str.split()`. */
  function Words(s: string): seq<string> {
    if s == "" then []
    else if IsSpace(s[0]) then Words(s[1..])
    else [s[..WordLength(s)]] + Words(s[WordLength(s)..])
  }

  function StripLeft(s: string): string {
    if s != "" && IsSpace(s[0]) then StripLeft(s[1..]) else s
  }

  function StripRight(s: string): string {
    if s != "" && IsSpace(s[|s| - 1]) then StripRight(s[..|s| - 1]) else s
  }

  function Strip(s: string): string {
    StripRight(StripLeft(s))
  }

  /** Each line ended by a newline: a nonempty list joined with newlines, and one more at the end. */
  function Joined(lines: seq<string>): string {
    if lines == [] then "" else lines[0] + "\n" + Joined(lines[1..])
  }

  lemma {:induction false} FirstBreakAt(s: string, n: nat)
    requires n <= |s| && (forall i | 0 <= i < n :: !IsBreak(s[i])) && (n < |s| ==> IsBreak(s[n]))
    ensures FirstBreak(s) == n
  {
    if n > 0 {
      FirstBreakAt(s[1..], n - 1);
    }
  }

  /** Splitting undoes joining, for lines without line breaks. */
  lemma {:induction false} JoinRoundTrip(lines: seq<string>)
    requires forall i | 0 <= i < |lines| :: BreakFree(lines[i])
    ensures SplitLines(Joined(lines)) == lines
  {
    if lines != [] {
      var s, n := Joined(lines), |lines[0]|;
      assert s[..n] == lines[0];
      assert s[n] == '\n';
      FirstBreakAt(s, n);
      assert s[n + 1..] == Joined(lines[1..]);
      JoinRoundTrip(lines[1..]);
    }
  }

  lemma WordLengthAt(s: string, n: nat)
    requires n <= |s| && (forall i | 0 <= i < n :: !IsSpace(s[i])) && (n < |s| ==> IsSpace(s[n]))
    ensures WordLength(s) == n
  {
    var m := WordLength(s);
  }

  // ---------- one line of the sums file ----------

  datatype Entry = Entry(name: string, digest: string)

  predicate Clean(e: Entry) {
    IsWord(e.name) && IsWord(e.digest)
  }

  function Line(e: Entry): string {
    e.digest + "  " + e.name
  }

  lemma WordsOfWord(w: string)
    requires IsWord(w)
    ensures Words(w) == [w]
  {
    WordLengthAt(w, |w|);
    assert w[..|w|] == w && w[|w|..] == "";
  }

  lemma WordsOfFirst(w: string, rest: string)
    requires IsWord(w) && rest != "" && IsSpace(rest[0])
    ensures Words(w + rest) == [w] + Words(rest)
  {
    var s := w + rest;
    WordLengthAt(s, |w|);
    assert s[..|w|] == w && s[|w|..] == rest;
  }

  lemma LineWords(e: Entry)
    requires Clean(e)
    ensures Words(Line(e)) == [e.digest, e.name]
    ensures BreakFree(Line(e)) && Line(e) != ""
  {
    var gap := "  " + e.name;
    assert Line(e) == e.digest + gap;
    WordsOfFirst(e.digest, gap);
    assert gap[1..] == " " + e.name && gap[1..][1..] == e.name;
    WordsOfWord(e.name);
  }

  /** The script's suffix test recognises exactly the line of the artifact with that name. */
  lemma LineEndsWith(e: Entry, name: string)
    requires Clean(e) && IsWord(name)
    ensures Text.EndsWith(Line(e), "  " + name) <==> e.name == name
  {
    var s, suffix := Line(e), "  " + name;
    if e.name == name {
      assert s[|s| - |suffix|..] == suffix;
    } else if |suffix| <= |s| {
      var tail := s[|s| - |suffix|..];
      if |name| < |e.name| {
        assert tail[1] == e.name[|e.name| - |name| - 1];
        assert suffix[1] == ' ';
      } else if |name| > |e.name| {
        var i := |suffix| - |e.name| - 1;
        assert tail[i] == s[|e.digest| + 1] == ' ';
        assert suffix[i] == name[i - 2];
      } else {
        assert tail[2..] == e.name;
        assert suffix[2..] == name;
      }
    }
  }

  lemma StripLine(e: Entry)
    requires Clean(e)
    ensures Strip(Line(e) + "\n") == Line(e)
  {
    var s := Line(e) + "\n";
    assert s[0] == e.digest[0];
    assert s[..|s| - 1] == Line(e);
    assert Line(e)[|Line(e)| - 1] == e.name[|e.name| - 1];
    assert StripRight(Line(e)) == Line(e);
  }

  // ---------- the directory ----------

  const SUMS := "SHA256SUMS.txt"
  const SIDECAR := ".sha256"

  function SumsLines(files: map<string, string>): seq<string> {
    if SUMS in files then NonEmpty(SplitLines(files[SUMS])) else []
  }

  function NonEmpty(lines: seq<string>): seq<string> {
    if lines == [] then [] else (if lines[0] != "" then [lines[0]] else []) + NonEmpty(lines[1..])
  }

  function Others(lines: seq<string>, name: string): seq<string> {
    if lines == [] then []
    else (if Text.EndsWith(lines[0], "  " + name) then [] else [lines[0]]) + Others(lines[1..], name)
  }

  function Written(files: map<string, string>, e: Entry): map<string, string> {
    files[e.name + SIDECAR := Line(e) + "\n"][SUMS := Joined(Others(SumsLines(files), e.name) + [Line(e)])]
  }

  /** A sidecar without a word in its first line raises an error instead of giving a digest. */
  datatype Lookup = Found(digest: string) | Absent | Broken

  function FromSidecar(text: string): Lookup {
    var lines := SplitLines(Strip(text));
    if lines == [] || Words(lines[0]) == [] then Broken else Found(Words(lines[0])[0])
  }

  function FromLines(lines: seq<string>, name: string): Lookup {
    if lines == [] then Absent
    else
      var parts := Words(lines[0]);
      if |parts| >= 2 && parts[|parts| - 1] == name then Found(parts[0]) else FromLines(lines[1..], name)
  }

  function FromSums(files: map<string, string>, name: string): Lookup {
    if SUMS in files then FromLines(SplitLines(files[SUMS]), name) else Absent
  }

  function Checksum(files: map<string, string>, name: string): Lookup {
    if name + SIDECAR in files then FromSidecar(files[name + SIDECAR]) else FromSums(files, name)
  }

  // ---------- the sums file is a map from names to digests ----------

  function LinesOf(es: seq<Entry>): (r: seq<string>)
    ensures |r| == |es| && forall i | 0 <= i < |r| :: r[i] == Line(es[i])
  {
    if es == [] then [] else [Line(es[0])] + LinesOf(es[1..])
  }

  ghost predicate AllClean(es: seq<Entry>) {
    forall i | 0 <= i < |es| :: Clean(es[i])
  }

  ghost predicate OnePerName(es: seq<Entry>) {
    forall i, j | 0 <= i < j < |es| :: es[i].name != es[j].name
  }

  /** The sums file lists these entries, one line each, in this order. */
  ghost predicate Lists(files: map<string, string>, es: seq<Entry>) {
    if SUMS in files then files[SUMS] == Joined(LinesOf(es)) else es == []
  }

  function Without(es: seq<Entry>, name: string): seq<Entry> {
    if es == [] then [] else (if es[0].name == name then [] else [es[0]]) + Without(es[1..], name)
  }

  function Put(es: seq<Entry>, e: Entry): seq<Entry> {
    Without(es, e.name) + [e]
  }

  lemma {:induction false} WithoutMeaning(es: seq<Entry>, name: string)
    ensures forall x :: x in Without(es, name) <==> x in es && x.name != name
    ensures OnePerName(es) ==> OnePerName(Without(es, name))
  {
    if es != [] {
      WithoutMeaning(es[1..], name);
      assert es == [es[0]] + es[1..];
      if OnePerName(es) {
        assert forall x | x in es[1..] :: x.name != es[0].name;
      }
    }
  }

  lemma {:induction false} LinesOfClean(es: seq<Entry>)
    requires AllClean(es)
    ensures SplitLines(Joined(LinesOf(es))) == LinesOf(es) == NonEmpty(LinesOf(es))
  {
    forall i | 0 <= i < |es| ensures BreakFree(LinesOf(es)[i]) && LinesOf(es)[i] != "" {
      LineWords(es[i]);
    }
    JoinRoundTrip(LinesOf(es));
    AllNonEmpty(LinesOf(es));
  }

  lemma {:induction false} AllNonEmpty(lines: seq<string>)
    requires forall i | 0 <= i < |lines| :: lines[i] != ""
    ensures NonEmpty(lines) == lines
  {
    if lines != [] {
      AllNonEmpty(lines[1..]);
    }
  }

  lemma {:induction false} OthersOfEntries(es: seq<Entry>, name: string)
    requires AllClean(es) && IsWord(name)
    ensures Others(LinesOf(es), name) == LinesOf(Without(es, name))
  {
    if es != [] {
      LineEndsWith(es[0], name);
      OthersOfEntries(es[1..], name);
      assert LinesOf(es)[1..] == LinesOf(es[1..]);
      LinesOfAppend(if es[0].name == name then [] else [es[0]], Without(es[1..], name));
    }
  }

  lemma {:induction false} LinesOfAppend(a: seq<Entry>, b: seq<Entry>)
    ensures LinesOf(a + b) == LinesOf(a) + LinesOf(b)
  {
    var l, r := LinesOf(a + b), LinesOf(a) + LinesOf(b);
    assert forall i | 0 <= i < |l| :: l[i] == r[i];
  }

  lemma PutMeaning(es: seq<Entry>, e: Entry)
    requires AllClean(es) && OnePerName(es) && Clean(e)
    ensures forall x :: x in Put(es, e) <==> x == e || (x in es && x.name != e.name)
    ensures AllClean(Put(es, e)) && OnePerName(Put(es, e))
  {
    WithoutMeaning(es, e.name);
    var r := Without(es, e.name);
    forall i | 0 <= i < |r| ensures Clean(r[i]) && r[i].name != e.name {
      assert r[i] in r;
    }
  }

  /** Writing an artifact's checksum replaces its line, keeps every other line, and puts the new one last. */
  lemma WritePuts(files: map<string, string>, es: seq<Entry>, e: Entry)
    requires Lists(files, es) && AllClean(es) && Clean(e)
    ensures Lists(Written(files, e), Put(es, e))
  {
    LinesOfClean(es);
    assert SumsLines(files) == LinesOf(es);
    OthersOfEntries(es, e.name);
    LinesOfAppend(Without(es, e.name), [e]);
    assert LinesOf([e]) == [Line(e)];
  }

  lemma {:induction false} AbsentMeaning(es: seq<Entry>, name: string)
    requires AllClean(es)
    ensures FromLines(LinesOf(es), name).Absent? <==> forall i | 0 <= i < |es| :: es[i].name != name
  {
    if es != [] {
      LineWords(es[0]);
      assert LinesOf(es)[1..] == LinesOf(es[1..]);
      AbsentMeaning(es[1..], name);
      assert forall i | 1 <= i < |es| :: es[i] == es[1..][i - 1];
    }
  }

  lemma {:induction false} FoundMeaning(es: seq<Entry>, k: nat)
    requires AllClean(es) && k < |es| && forall i | 0 <= i < k :: es[i].name != es[k].name
    ensures FromLines(LinesOf(es), es[k].name) == Found(es[k].digest)
  {
    LineWords(es[0]);
    assert LinesOf(es)[1..] == LinesOf(es[1..]);
    if k > 0 {
      FoundMeaning(es[1..], k - 1);
    }
  }

  /** Reading the sums file looks the name up among the entries it lists. */
  lemma SumsLookup(files: map<string, string>, es: seq<Entry>, name: string)
    requires Lists(files, es) && AllClean(es) && OnePerName(es)
    ensures FromSums(files, name).Absent? <==> forall x | x in es :: x.name != name
    ensures forall x | x in es && x.name == name :: FromSums(files, name) == Found(x.digest)
  {
    LinesOfClean(es);
    AbsentMeaning(es, name);
    forall x | x in es && x.name == name ensures FromSums(files, name) == Found(x.digest) {
      var k :| 0 <= k < |es| && es[k] == x;
      FoundMeaning(es, k);
    }
  }

  lemma SidecarNames(m: string, n: string)
    ensures m + SIDECAR != SUMS
    ensures m + SIDECAR == n + SIDECAR ==> m == n
  {
    var a, b := m + SIDECAR, n + SIDECAR;
    assert a[|a| - 1] == '6';
    assert SUMS[|SUMS| - 1] == 't';
    assert a[..|a| - |SIDECAR|] == m && b[..|b| - |SIDECAR|] == n;
  }

  lemma SidecarReads(e: Entry)
    requires Clean(e)
    ensures FromSidecar(Line(e) + "\n") == Found(e.digest)
  {
    StripLine(e);
    LineWords(e);
    assert Line(e)[..|Line(e)|] == Line(e);
    FirstBreakAt(Line(e), |Line(e)|);
    assert SplitLines(Line(e)) == [Line(e)];
  }

  // ---------- every sequence of writes ----------

  function Run(files: map<string, string>, writes: seq<Entry>): map<string, string> {
    if writes == [] then files else Written(Run(files, writes[..|writes| - 1]), writes[|writes| - 1])
  }

  function PutAll(es: seq<Entry>, writes: seq<Entry>): seq<Entry> {
    if writes == [] then es else Put(PutAll(es, writes[..|writes| - 1]), writes[|writes| - 1])
  }

  /** The last write for this name. */
  ghost predicate LastFor(writes: seq<Entry>, k: nat) {
    k < |writes| && forall j | k < j < |writes| :: writes[j].name != writes[k].name
  }

  lemma {:induction false} RunLists(files: map<string, string>, es: seq<Entry>, writes: seq<Entry>)
    requires Lists(files, es) && AllClean(es) && OnePerName(es) && AllClean(writes)
    ensures Lists(Run(files, writes), PutAll(es, writes))
    ensures AllClean(PutAll(es, writes)) && OnePerName(PutAll(es, writes))
  {
    if writes != [] {
      var n := |writes| - 1;
      RunLists(files, es, writes[..n]);
      WritePuts(Run(files, writes[..n]), PutAll(es, writes[..n]), writes[n]);
      PutMeaning(PutAll(es, writes[..n]), writes[n]);
    }
  }

  /** An entry whose artifact is not written again stays listed. */
  lemma {:induction false} RunKeeps(es: seq<Entry>, writes: seq<Entry>, e: Entry)
    requires e in es && forall j | 0 <= j < |writes| :: writes[j].name != e.name
    ensures e in PutAll(es, writes)
  {
    if writes != [] {
      var n := |writes| - 1;
      RunKeeps(es, writes[..n], e);
      WithoutMeaning(PutAll(es, writes[..n]), writes[n].name);
    }
  }

  lemma WrittenKeeps(files: map<string, string>, e: Entry, name: string)
    requires e.name != name && name + SIDECAR in files
    ensures name + SIDECAR in Written(files, e) && Written(files, e)[name + SIDECAR] == files[name + SIDECAR]
  {
    SidecarNames(e.name, name);
    SidecarNames(name, name);
  }

  /** The sidecar of an artifact that is not written again stays as it is. */
  lemma {:induction false} RunKeepsSidecar(files: map<string, string>, writes: seq<Entry>, name: string)
    requires name + SIDECAR in files && forall j | 0 <= j < |writes| :: writes[j].name != name
    ensures name + SIDECAR in Run(files, writes) && Run(files, writes)[name + SIDECAR] == files[name + SIDECAR]
  {
    if writes != [] {
      var n := |writes| - 1;
      RunKeepsSidecar(files, writes[..n], name);
      WrittenKeeps(Run(files, writes[..n]), writes[n], name);
    }
  }

  /** The last write for a name leaves its sidecar and its entry in place. */
  lemma {:induction false} LastWriteStays(files: map<string, string>, es: seq<Entry>, writes: seq<Entry>, k: nat)
    requires LastFor(writes, k)
    ensures var r, sidecar := Run(files, writes), writes[k].name + SIDECAR;
      sidecar in r && r[sidecar] == Line(writes[k]) + "\n"
    ensures writes[k] in PutAll(es, writes)
  {
    var n := |writes| - 1;
    SidecarNames(writes[k].name, writes[n].name);
    if k < n {
      LastWriteStays(files, es, writes[..n], k);
      WithoutMeaning(PutAll(es, writes[..n]), writes[n].name);
    }
  }

  /**
   After any writes into a directory whose sums file lists clean entries, the file has exactly one line per
   artifact; the last digest written for a name is what both the sidecar and the sums file give.
   */
  lemma LastDigestWins(files: map<string, string>, es: seq<Entry>, writes: seq<Entry>, k: nat)
    requires Lists(files, es) && AllClean(es) && OnePerName(es) && AllClean(writes) && LastFor(writes, k)
    ensures var r, name := Run(files, writes), writes[k].name;
      && Lists(r, PutAll(es, writes)) && OnePerName(PutAll(es, writes))
      && Checksum(r, name) == Found(writes[k].digest)
      && FromSums(r, name) == Found(writes[k].digest)
  {
    RunLists(files, es, writes);
    LastWriteStays(files, es, writes, k);
    SidecarReads(writes[k]);
    SumsLookup(Run(files, writes), PutAll(es, writes), writes[k].name);
  }

  lemma LastForStep(writes: seq<Entry>, k: nat, x: Entry)
    requires writes != []
    requires var front := writes[..|writes| - 1]; LastFor(front, k) && front[k] == x
    requires x.name != writes[|writes| - 1].name
    ensures LastFor(writes, k) && writes[k] == x
  {
  }

  /** Starting without a sums file, the listed artifacts are exactly the ones written. */
  lemma {:induction false} ListedAreWritten(writes: seq<Entry>, x: Entry)
    requires x in PutAll([], writes)
    ensures exists k: nat :: LastFor(writes, k) && writes[k] == x
  {
    var n := |writes| - 1;
    WithoutMeaning(PutAll([], writes[..n]), writes[n].name);
    if x == writes[n] {
      assert LastFor(writes, n);
    } else {
      ListedAreWritten(writes[..n], x);
      var k: nat :| LastFor(writes[..n], k) && writes[..n][k] == x;
      LastForStep(writes, k, x);
    }
  }

  // ---------- the scripts' loops ----------

  lemma NonEmptyFrom(lines: seq<string>, i: nat)
    requires i < |lines|
    ensures lines[i] == "" ==> NonEmpty(lines[i..]) == NonEmpty(lines[i + 1..])
    ensures lines[i] != "" ==> NonEmpty(lines[i..]) == [lines[i]] + NonEmpty(lines[i + 1..])
  {
    assert lines[i..][1..] == lines[i + 1..];
  }

  lemma OthersFrom(lines: seq<string>, name: string, i: nat)
    requires i < |lines|
    ensures Text.EndsWith(lines[i], "  " + name) ==> Others(lines[i..], name) == Others(lines[i + 1..], name)
    ensures !Text.EndsWith(lines[i], "  " + name) ==>
      Others(lines[i..], name) == [lines[i]] + Others(lines[i + 1..], name)
  {
    assert lines[i..][1..] == lines[i + 1..];
  }

  class OutputDir {
    var files: map<string, string>

    constructor (files: map<string, string>)
      ensures this.files == files
    {
      this.files := files;
    }

    /** `digest` is the SHA-256 of the artifact, computed by the caller. */
    method WriteChecksumSidecars(name: string, digest: string)
      modifies this
      ensures files == Written(old(files), Entry(name, digest))
    {
      var line := digest + "  " + name;
      files := files[name + SIDECAR := line + "\n"];
      SidecarNames(name, name);
      var lines: seq<string> := [];
      if SUMS in files {
        lines := KeepNonEmpty(SplitLines(files[SUMS]));
      }
      lines := DropArtifact(lines, name);
      files := files[SUMS := Joined(lines + [line])];
    }

    static method KeepNonEmpty(lines: seq<string>) returns (kept: seq<string>)
      ensures kept == NonEmpty(lines)
    {
      kept := [];
      for i := 0 to |lines|
        invariant kept + NonEmpty(lines[i..]) == NonEmpty(lines)
      {
        NonEmptyFrom(lines, i);
        if lines[i] != "" {
          kept := kept + [lines[i]];
        }
      }
    }

    static method DropArtifact(lines: seq<string>, name: string) returns (kept: seq<string>)
      ensures kept == Others(lines, name)
    {
      kept := [];
      for i := 0 to |lines|
        invariant kept + Others(lines[i..], name) == Others(lines, name)
      {
        OthersFrom(lines, name, i);
        if !Text.EndsWith(lines[i], "  " + name) {
          kept := kept + [lines[i]];
        }
      }
    }

    method ChecksumForArtifact(name: string) returns (r: Lookup)
      ensures r == Checksum(files, name)
    {
      if name + SIDECAR in files {
        var lines := SplitLines(Strip(files[name + SIDECAR]));
        if lines == [] || Words(lines[0]) == [] {
          return Broken;
        }
        return Found(Words(lines[0])[0]);
      }
      if SUMS in files {
        var lines := SplitLines(files[SUMS]);
        for i := 0 to |lines|
          invariant FromLines(lines, name) == FromLines(lines[i..], name)
        {
          var parts := Words(lines[i]);
          assert lines[i..][1..] == lines[i + 1..];
          if |parts| >= 2 && parts[|parts| - 1] == name {
            return Found(parts[0]);
          }
        }
      }
      r := Absent;
    }
  }
}
