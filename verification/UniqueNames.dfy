/** The numbered names given to imported profiles whose name is taken. */
module UniqueNames {
  import opened Text
  import opened BackupModel

  // ---------- QString::arg ----------

  /** A place marker `%n`, or any other character. */
  datatype Token = Plain(c: char) | Marker(number: nat, raw: string)

  predicate DigitAt(s: string, i: nat) {
    i < |s| && IsDigit(s[i])
  }

  /** The length of the place marker `s` begins with: a percent sign, maybe an L, one or two digits; or 0. */
  function MarkerLength(s: string): (n: nat)
    ensures n <= |s|
    ensures n > 0 ==> s[0] == '%' && forall i | 0 < i < n :: s[i] == 'L' || IsDigit(s[i])
  {
    if s == "" || s[0] != '%' then 0
    else
      var i := if |s| > 1 && s[1] == 'L' then 2 else 1;
      if !DigitAt(s, i) then 0 else if DigitAt(s, i + 1) then i + 2 else i + 1
  }

  function MarkerNumber(s: string): nat
    requires MarkerLength(s) > 0
  {
    var i := if s[1] == 'L' then 2 else 1;
    DigitsValue(s[i..MarkerLength(s)])
  }

  function Tokens(s: string): seq<Token> {
    if s == "" then []
    else if MarkerLength(s) > 0 then [Marker(MarkerNumber(s), s[..MarkerLength(s)])] + Tokens(s[MarkerLength(s)..])
    else [Plain(s[0])] + Tokens(s[1..])
  }

  predicate HasMarker(ts: seq<Token>) {
    exists i | 0 <= i < |ts| :: ts[i].Marker?
  }

  function Lowest(ts: seq<Token>): (n: nat)
    requires HasMarker(ts)
    ensures exists i | 0 <= i < |ts| :: ts[i].Marker? && ts[i].number == n
    ensures forall i | 0 <= i < |ts| && ts[i].Marker? :: n <= ts[i].number
  {
    assert forall i | 1 <= i < |ts| :: ts[1..][i - 1] == ts[i];
    if !HasMarker(ts[1..]) then ts[0].number
    else
      var rest := Lowest(ts[1..]);
      if ts[0].Marker? && ts[0].number < rest then ts[0].number else rest
  }

  /** Every marker numbered `m` is replaced by `text`. */
  function Fill(ts: seq<Token>, m: nat, text: string): string {
    if ts == [] then ""
    else (match ts[0]
          case Plain(c) => [c]
          case Marker(number, raw) => if number == m then text else raw) + Fill(ts[1..], m, text)
  }

  /** `t.arg(n)`: the lowest-numbered markers of `t` are replaced. */
  function Arg(t: string, n: nat): string
    requires HasMarker(Tokens(t))
  {
    Fill(Tokens(t), Lowest(Tokens(t)), Decimal(n))
  }

  // ---------- filling is injective ----------

  function Count(ts: seq<Token>, m: nat): nat {
    if ts == [] then 0 else (if ts[0].Marker? && ts[0].number == m then 1 else 0) + Count(ts[1..], m)
  }

  lemma {:induction false} CountPositive(ts: seq<Token>, m: nat, i: nat)
    requires i < |ts| && ts[i].Marker? && ts[i].number == m
    ensures Count(ts, m) > 0
  {
    if i > 0 {
      CountPositive(ts[1..], m, i - 1);
    }
  }

  lemma {:induction false} FillLength(ts: seq<Token>, m: nat, a: string, b: string)
    ensures |Fill(ts, m, a)| - |Fill(ts, m, b)| == Count(ts, m) * (|a| - |b|)
  {
    if ts != [] {
      FillLength(ts[1..], m, a, b);
      var d, k := |a| - |b|, Count(ts[1..], m);
      assert (1 + k) * d == d + k * d;
    }
  }

  lemma {:induction false} FillSameLength(ts: seq<Token>, m: nat, a: string, b: string)
    requires |a| == |b| && Count(ts, m) > 0 && Fill(ts, m, a) == Fill(ts, m, b)
    ensures a == b
  {
    var head, rest := ts[0], ts[1..];
    if head.Marker? && head.number == m {
      assert Fill(ts, m, a) == a + Fill(rest, m, a);
      assert Fill(ts, m, b) == b + Fill(rest, m, b);
      assert a == Fill(ts, m, a)[..|a|];
    } else {
      var text := if head.Plain? then [head.c] else head.raw;
      assert Fill(ts, m, a) == text + Fill(rest, m, a);
      assert Fill(ts, m, b) == text + Fill(rest, m, b);
      assert Fill(rest, m, a) == Fill(ts, m, a)[|text|..];
      FillSameLength(rest, m, a, b);
    }
  }

  lemma FillInjective(ts: seq<Token>, m: nat, a: string, b: string)
    requires Count(ts, m) > 0 && Fill(ts, m, a) == Fill(ts, m, b)
    ensures a == b
  {
    FillLength(ts, m, a, b);
    if |a| != |b| {
      NonzeroProduct(Count(ts, m), |a| - |b|);
    }
    FillSameLength(ts, m, a, b);
  }

  lemma NonzeroProduct(k: nat, d: int)
    requires k > 0 && d != 0
    ensures k * d != 0
  {
    if d > 0 {
      assert k * d >= d;
    } else {
      assert k * d <= d;
    }
  }

  // ---------- the candidates ----------

  const MARKED_SUFFIX := " (imported %2)"

  lemma {:induction false} SuffixHasMarker(s: string)
    ensures HasMarker(Tokens(s + "%2)"))
  {
    var t := s + "%2)";
    if s == "" {
      assert t == "%2)";
      assert MarkerLength(t) == 2;
      assert Tokens(t)[0].Marker?;
    } else {
      var n := MarkerLength(t);
      if n > 0 {
        assert Tokens(t)[0].Marker?;
      } else {
        SuffixHasMarker(s[1..]);
        assert t[1..] == s[1..] + "%2)";
        var i :| 0 <= i < |Tokens(t[1..])| && Tokens(t[1..])[i].Marker?;
        assert Tokens(t)[i + 1] == Tokens(t[1..])[i];
      }
    }
  }

  lemma TemplateHasMarker(base: string)
    ensures HasMarker(Tokens(base + MARKED_SUFFIX))
  {
    SuffixHasMarker(base + " (imported ");
    assert base + MARKED_SUFFIX == base + " (imported " + "%2)";
  }

  /** `"%1 (imported %2)"` with the base put in first and the number second. */
  function Candidate(base: string, n: nat): string {
    TemplateHasMarker(base);
    Arg(base + MARKED_SUFFIX, n)
  }

  lemma CandidateInjective(base: string, m: nat, n: nat)
    requires Candidate(base, m) == Candidate(base, n)
    ensures m == n
  {
    TemplateHasMarker(base);
    var ts := Tokens(base + MARKED_SUFFIX);
    var lowest := Lowest(ts);
    var i :| 0 <= i < |ts| && ts[i].Marker? && ts[i].number == lowest;
    CountPositive(ts, lowest, i);
    FillInjective(ts, lowest, Decimal(m), Decimal(n));
    DecimalInjective(m, n);
  }

  /** Without a percent sign in the base, the candidate is the base and the number in parentheses. */
  lemma {:induction false} PlainFill(s: string, n: nat, text: string)
    requires '%' !in s
    ensures Tokens(s + "%2)") == seq(|s|, i requires 0 <= i < |s| => Plain(s[i])) + [Marker(2, "%2"), Plain(')')]
    ensures Fill(Tokens(s + "%2)"), 2, text) == s + text + ")"
  {
    var t := s + "%2)";
    if s == "" {
      assert t == "%2)";
      assert t[2..] == ")";
      assert DigitsValue("2") == 2 by {
        assert DigitsValue("") == 0;
        assert "2"[..0] == "";
      }
      assert MarkerLength(t) == 2 && t[1..2] == "2" && t[..2] == "%2";
      assert Tokens(")") == [Plain(')')] + Tokens("");
      assert Tokens(t) == [Marker(2, "%2")] + Tokens(")");
      assert Fill([Plain(')')], 2, text) == ")";
      assert Tokens(t)[1..] == [Plain(')')];
    } else {
      assert t[1..] == s[1..] + "%2)";
      assert MarkerLength(t) == 0;
      PlainFill(s[1..], n, text);
      assert Tokens(t) == [Plain(s[0])] + Tokens(t[1..]);
      assert Tokens(t)[1..] == Tokens(t[1..]);
      assert Fill(Tokens(t), 2, text) == [s[0]] + Fill(Tokens(t[1..]), 2, text);
    }
  }

  lemma PlainCandidate(base: string, n: nat)
    requires '%' !in base
    ensures Candidate(base, n) == base + " (imported " + Decimal(n) + ")"
  {
    TemplateHasMarker(base);
    var s := base + " (imported ";
    assert base + MARKED_SUFFIX == s + "%2)";
    PlainFill(s, n, Decimal(n));
    var ts := Tokens(s + "%2)");
    assert ts[|s|] == Marker(2, "%2");
    assert Lowest(ts) == 2;
  }

  // ---------- the first free candidate ----------

  ghost predicate AllTaken(base: string, used: set<string>, n: nat) {
    forall k | 2 <= k < n :: Candidate(base, k) in used
  }

  function Probed(base: string, n: nat): (s: set<string>)
    ensures forall x :: x in s <==> exists k: nat :: 2 <= k < n && Candidate(base, k) == x
  {
    if n <= 2 then {} else Probed(base, n - 1) + {Candidate(base, n - 1)}
  }

  lemma {:induction false} ProbedSize(base: string, n: nat)
    requires n >= 2
    ensures |Probed(base, n)| == n - 2
  {
    if n > 2 {
      ProbedSize(base, n - 1);
      if Candidate(base, n - 1) in Probed(base, n - 1) {
        var k: nat :| 2 <= k < n - 1 && Candidate(base, k) == Candidate(base, n - 1);
        CandidateInjective(base, k, n - 1);
      }
    }
  }

  /** The candidates are distinct, so at most as many can be taken as there are used names. */
  lemma Pigeonhole(base: string, used: set<string>, n: nat)
    requires n >= 2 && AllTaken(base, used, n)
    ensures n - 2 <= |used|
  {
    ProbedSize(base, n);
    SubsetSize(Probed(base, n), used);
  }

  lemma {:induction false} SubsetSize(a: set<string>, b: set<string>)
    requires a <= b
    ensures |a| <= |b|
  {
    if a != {} {
      var x :| x in a;
      SubsetSize(a - {x}, b - {x});
    }
  }

  function FirstFree(base: string, used: set<string>, n: nat): (k: nat)
    requires n >= 2 && AllTaken(base, used, n)
    ensures n <= k <= |used| + 2
    ensures Candidate(base, k) !in used && AllTaken(base, used, k)
    decreases |used| + 2 - n
  {
    Pigeonhole(base, used, n);
    if Candidate(base, n) !in used then n
    else
      assert AllTaken(base, used, n + 1);
      Pigeonhole(base, used, n + 1);
      FirstFree(base, used, n + 1)
  }

  /** The base itself if it is free, else the first free candidate. */
  function UniqueName(base: string, used: set<string>): (name: string)
    ensures name !in used
  {
    if base !in used then base else Candidate(base, FirstFree(base, used, 2))
  }

  lemma FirstFreeUnique(base: string, used: set<string>, n: nat, k: nat)
    requires 2 <= n <= k && AllTaken(base, used, k) && Candidate(base, k) !in used
    ensures FirstFree(base, used, n) == k
  {
  }

  /** The loop ends within |used| + 1 probes. */
  method FindUniqueName(base: string, used: set<string>) returns (name: string, probes: nat)
    ensures name == UniqueName(base, used)
    ensures probes <= |used| + 1
  {
    probes := 0;
    if base !in used {
      return base, probes;
    }
    var suffix := 2;
    probes := 1;
    while Candidate(base, suffix) in used
      invariant suffix >= 2 && AllTaken(base, used, suffix)
      invariant probes == suffix - 1 && suffix - 2 <= |used|
      decreases |used| + 2 - suffix
    {
      Pigeonhole(base, used, suffix + 1);
      suffix := suffix + 1;
      probes := probes + 1;
    }
    FirstFreeUnique(base, used, 2, suffix);
    name := Candidate(base, suffix);
  }
}
