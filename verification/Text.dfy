/** Strings as the program sees them: trimming, ASCII case folding, substrings and decimal digits. */
module Text {

  /** The white space that `QChar::isSpace` recognises. */
  predicate IsSpace(c: char) {
    var n := c as int;
    || 9 <= n <= 13 || n == 32 || n == 0x85 || n == 0xA0 || n == 0x1680
    || 0x2000 <= n <= 0x200A || n == 0x2028 || n == 0x2029 || n == 0x202F || n == 0x205F || n == 0x3000
  }

  function TrimLeft(s: string): (r: string)
    ensures |r| <= |s|
    ensures r != "" ==> !IsSpace(r[0]) && r[|r| - 1] == s[|s| - 1]
  {
    if s != "" && IsSpace(s[0]) then TrimLeft(s[1..]) else s
  }

  function TrimRight(s: string): (r: string)
    ensures |r| <= |s|
    ensures r != "" ==> !IsSpace(r[|r| - 1]) && r[0] == s[0]
  {
    if s != "" && IsSpace(s[|s| - 1]) then TrimRight(s[..|s| - 1]) else s
  }

  /** `QString::trimmed`. */
  function Trim(s: string): (r: string)
    ensures r != "" ==> !IsSpace(r[0]) && !IsSpace(r[|r| - 1])
  {
    TrimRight(TrimLeft(s))
  }

  predicate AllSpace(s: string) {
    forall i | 0 <= i < |s| :: IsSpace(s[i])
  }

  lemma {:induction false} TrimLeftMeaning(s: string) returns (n: nat)
    ensures n <= |s| && s[n..] == TrimLeft(s) && AllSpace(s[..n])
  {
    if s != "" && IsSpace(s[0]) {
      n := TrimLeftMeaning(s[1..]);
      n := n + 1;
      assert s[..n] == [s[0]] + s[1..][..n - 1];
    } else {
      n := 0;
    }
  }

  lemma {:induction false} TrimRightMeaning(s: string) returns (n: nat)
    ensures n <= |s| && s[..n] == TrimRight(s) && AllSpace(s[n..])
  {
    if s != "" && IsSpace(s[|s| - 1]) {
      n := TrimRightMeaning(s[..|s| - 1]);
      assert s[n..] == s[..|s| - 1][n..] + [s[|s| - 1]];
    } else {
      n := |s|;
    }
  }

  /** Trimming takes away white space at the two ends and nothing else. */
  lemma TrimMeaning(s: string) returns (before: string, after: string)
    ensures s == before + Trim(s) + after && AllSpace(before) && AllSpace(after)
    ensures Trim(s) != "" ==> !IsSpace(Trim(s)[0]) && !IsSpace(Trim(s)[|Trim(s)| - 1])
  {
    var n := TrimLeftMeaning(s);
    var m := TrimRightMeaning(TrimLeft(s));
    before, after := s[..n], TrimLeft(s)[m..];
    assert s == s[..n] + s[n..];
  }

  predicate Blank(s: string) {
    Trim(s) == ""
  }

  lemma TrimFixed(s: string)
    requires s != "" ==> !IsSpace(s[0]) && !IsSpace(s[|s| - 1])
    ensures Trim(s) == s
  {
  }

  function LowerChar(c: char): char {
    if 'A' <= c <= 'Z' then ((c as int) + 32) as char else c
  }

  /** `QString::toLower`, on the letters A to Z. */
  function Lower(s: string): (r: string)
    ensures |r| == |s|
  {
    seq(|s|, i requires 0 <= i < |s| => LowerChar(s[i]))
  }

  /** Lower-casing changes capital letters into their small ones, position by position, and nothing else. */
  lemma LowerMeaning(s: string, i: nat)
    requires i < |s|
    ensures 'A' <= s[i] <= 'Z' ==> 'a' <= Lower(s)[i] <= 'z'
    ensures 'A' <= s[i] <= 'Z' ==> Lower(s)[i] as int - 'a' as int == s[i] as int - 'A' as int
    ensures !('A' <= s[i] <= 'Z') ==> Lower(s)[i] == s[i]
  {
  }

  predicate EqualsIgnoreCase(a: string, b: string) {
    Lower(a) == Lower(b)
  }

  predicate StartsWith(s: string, prefix: string) {
    |prefix| <= |s| && s[..|prefix|] == prefix
  }

  predicate EndsWith(s: string, suffix: string) {
    |suffix| <= |s| && s[|s| - |suffix|..] == suffix
  }

  predicate OccursAt(s: string, part: string, i: nat) {
    i + |part| <= |s| && s[i..i + |part|] == part
  }

  predicate Contains(s: string, part: string) {
    exists i | 0 <= i <= |s| :: OccursAt(s, part, i)
  }

  predicate IsDigit(c: char) {
    '0' <= c <= '9'
  }

  predicate AllDigits(s: string) {
    forall i | 0 <= i < |s| :: IsDigit(s[i])
  }

  function Digit(n: nat): (c: char)
    requires n < 10
    ensures IsDigit(c) && c as int == n + 48
  {
    (n + 48) as char
  }

  /** The decimal rendering of a natural number, as `QString::arg(int)` inserts it. */
  function Decimal(n: nat): (r: string)
    ensures r != "" && AllDigits(r)
  {
    if n < 10 then [Digit(n)] else Decimal(n / 10) + [Digit(n % 10)]
  }

  function DigitsValue(s: string): nat
    requires AllDigits(s)
  {
    if s == "" then 0 else 10 * DigitsValue(s[..|s| - 1]) + (s[|s| - 1] as int - 48)
  }

  lemma {:induction false} DecimalRoundTrip(n: nat)
    ensures DigitsValue(Decimal(n)) == n
  {
    if n >= 10 {
      DecimalRoundTrip(n / 10);
      assert Decimal(n)[..|Decimal(n)| - 1] == Decimal(n / 10);
    }
  }

  lemma DecimalInjective(m: nat, n: nat)
    requires Decimal(m) == Decimal(n)
    ensures m == n
  {
    DecimalRoundTrip(m);
    DecimalRoundTrip(n);
  }

  /** The pieces of `s` between the occurrences of `separator`; always at least one piece. */
  function Split(s: string, separator: char): (parts: seq<string>)
    ensures parts != []
  {
    if s == "" then [""]
    else
      var rest := Split(s[1..], separator);
      if s[0] == separator then [""] + rest else [[s[0]] + rest[0]] + rest[1..]
  }

  /** The parts with the separator between them. */
  function Join(parts: seq<string>, separator: char): string
    requires parts != []
  {
    if |parts| == 1 then parts[0] else parts[0] + [separator] + Join(parts[1..], separator)
  }

  lemma JoinLonger(c: char, parts: seq<string>, separator: char)
    requires parts != []
    ensures Join([[c] + parts[0]] + parts[1..], separator) == [c] + Join(parts, separator)
    ensures Join([""] + parts, separator) == [separator] + Join(parts, separator)
  {
    assert ([[c] + parts[0]] + parts[1..])[1..] == parts[1..];
    assert ([""] + parts)[1..] == parts;
    if |parts| > 1 {
      assert [c] + parts[0] + [separator] + Join(parts[1..], separator)
        == [c] + (parts[0] + [separator] + Join(parts[1..], separator));
    }
  }

  /** The parts of a split are free of the separator and join to the whole. */
  lemma {:induction false} SplitMeaning(s: string, separator: char)
    ensures Join(Split(s, separator), separator) == s
    ensures forall i | 0 <= i < |Split(s, separator)| :: separator !in Split(s, separator)[i]
  {
    if s != "" {
      var rest := Split(s[1..], separator);
      SplitMeaning(s[1..], separator);
      JoinLonger(s[0], rest, separator);
      assert s == [s[0]] + s[1..];
    }
  }

  /** A text without the separator is one part, and one before a separator the first part. */
  lemma {:induction false} SplitAround(a: string, separator: char, rest: string)
    requires separator !in a
    ensures Split(a, separator) == [a]
    ensures Split(a + [separator] + rest, separator) == [a] + Split(rest, separator)
  {
    if a == "" {
      assert (a + [separator] + rest)[1..] == rest;
    } else {
      SplitAround(a[1..], separator, rest);
      assert (a + [separator] + rest)[1..] == a[1..] + [separator] + rest;
      assert [a[0]] + a[1..] == a;
    }
  }

  /** The nonblank parts, trimmed. */
  function NonBlank(parts: seq<string>): (r: seq<string>)
    ensures forall i | 0 <= i < |r| :: r[i] != ""
  {
    if parts == [] then []
    else (if Blank(parts[0]) then [] else [Trim(parts[0])]) + NonBlank(parts[1..])
  }

  lemma NonBlankFrom(parts: seq<string>, i: nat)
    requires i < |parts|
    ensures Blank(parts[i]) ==> NonBlank(parts[i..]) == NonBlank(parts[i + 1..])
    ensures !Blank(parts[i]) ==> NonBlank(parts[i..]) == [Trim(parts[i])] + NonBlank(parts[i + 1..])
  {
    assert parts[i..][1..] == parts[i + 1..];
  }

  /** Blank parts go, neat ones stay as they are, and the order stays. */
  lemma NonBlankMeaning(a: seq<string>, part: string, b: seq<string>)
    ensures NonBlank(a + [part] + b) == NonBlank(a) + (if Blank(part) then [] else [Trim(part)]) + NonBlank(b)
  {
    NonBlankAppend(a + [part], b);
    NonBlankAppend(a, [part]);
    assert [part][1..] == [];
  }

  lemma {:induction false} NonBlankAppend(a: seq<string>, b: seq<string>)
    ensures NonBlank(a + b) == NonBlank(a) + NonBlank(b)
  {
    if a == [] {
      assert a + b == b;
    } else {
      assert (a + b)[1..] == a[1..] + b;
      NonBlankAppend(a[1..], b);
    }
  }

  method KeepNonBlank(parts: seq<string>) returns (list: seq<string>)
    ensures list == NonBlank(parts)
  {
    list := [];
    for i := 0 to |parts|
      invariant list + NonBlank(parts[i..]) == NonBlank(parts)
    {
      NonBlankFrom(parts, i);
      if !Blank(parts[i]) {
        list := list + [Trim(parts[i])];
      }
    }
  }
}
