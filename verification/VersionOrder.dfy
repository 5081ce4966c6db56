/** The order on dotted version texts used to warn about backups from a newer version. */
module VersionOrder {
  import opened Text

  const INT_MAX := 0x7FFF_FFFF

  function LeadingDigits(part: string): (digits: string)
    ensures AllDigits(digits) && |digits| <= |part| && digits == part[..|digits|]
    ensures |digits| < |part| ==> !IsDigit(part[|digits|])
  {
    if part == "" || !IsDigit(part[0]) then "" else [part[0]] + LeadingDigits(part[1..])
  }

  /** `QString::toInt` of a digit string: 0 when it does not fit in 32 bits. */
  function PartValue(part: string): nat {
    var n := DigitsValue(LeadingDigits(part));
    if n <= INT_MAX then n else 0
  }

  method ParseVersionPart(part: string) returns (value: nat)
    ensures value == PartValue(part)
  {
    var digits := "";
    for i := 0 to |part|
      invariant digits == part[..i] && AllDigits(digits)
    {
      if !IsDigit(part[i]) {
        break;
      }
      digits := digits + [part[i]];
    }
    assert digits == LeadingDigits(part) by {
      LeadingDigitsUnique(part, |digits|);
    }
    value := DigitsValue(digits);
    if value > INT_MAX {
      value := 0;
    }
  }

  lemma {:induction false} LeadingDigitsUnique(part: string, n: nat)
    requires n <= |part| && AllDigits(part[..n])
    requires n < |part| ==> !IsDigit(part[n])
    ensures LeadingDigits(part) == part[..n]
  {
    if n > 0 {
      assert IsDigit(part[..n][0]);
      assert part[1..][..n - 1] == part[..n][1..];
      LeadingDigitsUnique(part[1..], n - 1);
    }
  }

  /** Part `i` of a version, zero beyond its last part. */
  function PartAt(parts: seq<string>, i: nat): nat {
    if i < |parts| then PartValue(parts[i]) else 0
  }

  ghost predicate FirstDifference(a: seq<string>, b: seq<string>, k: nat) {
    PartAt(a, k) != PartAt(b, k) && forall j: nat | j < k :: PartAt(a, j) == PartAt(b, j)
  }

  /** At the first part where they differ, `a` is greater. */
  ghost predicate Newer(a: seq<string>, b: seq<string>) {
    exists k: nat :: FirstDifference(a, b, k) && PartAt(a, k) > PartAt(b, k)
  }

  ghost predicate SamePadded(a: seq<string>, b: seq<string>) {
    forall i: nat :: PartAt(a, i) == PartAt(b, i)
  }

  method IsNewerAppVersion(backupVersion: string, currentVersion: string) returns (newer: bool)
    ensures newer <==> Newer(Split(backupVersion, '.'), Split(currentVersion, '.'))
  {
    var backup, current := Split(backupVersion, '.'), Split(currentVersion, '.');
    var count := if |backup| > |current| then |backup| else |current|;
    for i := 0 to count
      invariant forall j: nat | j < i :: PartAt(backup, j) == PartAt(current, j)
    {
      var backupPart, currentPart := 0, 0;
      if i < |backup| {
        backupPart := ParseVersionPart(backup[i]);
      }
      if i < |current| {
        currentPart := ParseVersionPart(current[i]);
      }
      if backupPart > currentPart {
        assert FirstDifference(backup, current, i);
        return true;
      }
      if backupPart < currentPart {
        FirstDifferenceUnique(backup, current, i);
        return false;
      }
    }
    return false;
  }

  lemma FirstDifferenceUnique(a: seq<string>, b: seq<string>, k: nat)
    requires PartAt(a, k) != PartAt(b, k) && forall j: nat | j < k :: PartAt(a, j) == PartAt(b, j)
    ensures forall m: nat | FirstDifference(a, b, m) :: m == k
  {
  }

  /** Versions are equal up to trailing zeros, or one of the two is newer: never both. */
  lemma Trichotomy(a: seq<string>, b: seq<string>)
    ensures !Newer(a, a)
    ensures !(Newer(a, b) && Newer(b, a))
    ensures SamePadded(a, b) <==> !Newer(a, b) && !Newer(b, a)
  {
    if i: nat :| PartAt(a, i) != PartAt(b, i) {
      var k := Least(a, b, i);
      FirstDifferenceUnique(a, b, k);
      assert FirstDifference(a, b, k) && FirstDifference(b, a, k);
    }
  }

  lemma {:induction false} Least(a: seq<string>, b: seq<string>, i: nat) returns (k: nat)
    requires PartAt(a, i) != PartAt(b, i)
    ensures k <= i && FirstDifference(a, b, k)
  {
    if j: nat :| j < i && PartAt(a, j) != PartAt(b, j) {
      k := Least(a, b, j);
    } else {
      k := i;
    }
  }

  lemma Transitive(a: seq<string>, b: seq<string>, c: seq<string>)
    requires Newer(a, b) && Newer(b, c)
    ensures Newer(a, c)
  {
    var k: nat :| FirstDifference(a, b, k) && PartAt(a, k) > PartAt(b, k);
    var m: nat :| FirstDifference(b, c, m) && PartAt(b, m) > PartAt(c, m);
    assert FirstDifference(a, c, if k < m then k else m);
  }

  /** Equal versions compare the same way with every other version. */
  lemma Congruent(a: seq<string>, b: seq<string>, c: seq<string>)
    requires SamePadded(a, b)
    ensures Newer(a, c) <==> Newer(b, c)
    ensures Newer(c, a) <==> Newer(c, b)
  {
    if k: nat :| FirstDifference(a, c, k) && PartAt(a, k) > PartAt(c, k) { assert FirstDifference(b, c, k); }
    if k: nat :| FirstDifference(b, c, k) && PartAt(b, k) > PartAt(c, k) { assert FirstDifference(a, c, k); }
    if k: nat :| FirstDifference(c, a, k) && PartAt(c, k) > PartAt(a, k) { assert FirstDifference(c, b, k); }
    if k: nat :| FirstDifference(c, b, k) && PartAt(c, k) > PartAt(b, k) { assert FirstDifference(c, a, k); }
  }

  // ---------- numbers, not texts ----------

  /** A part that starts with a number counts as that number, whatever follows it. */
  lemma PartReads(n: nat, rest: string)
    requires n <= INT_MAX && (rest != "" ==> !IsDigit(rest[0]))
    ensures PartValue(Decimal(n) + rest) == n
  {
    var part, digits := Decimal(n) + rest, Decimal(n);
    assert part[..|digits|] == digits;
    LeadingDigitsUnique(part, |digits|);
    DecimalRoundTrip(n);
  }

  /** Versions of single numbers compare as the numbers do. */
  lemma NumericOrder(m: nat, n: nat)
    requires m <= INT_MAX && n <= INT_MAX
    ensures Newer([Decimal(m)], [Decimal(n)]) <==> m > n
  {
    PartReads(m, "");
    PartReads(n, "");
    assert Decimal(m) + "" == Decimal(m) && Decimal(n) + "" == Decimal(n);
    var a, b := [Decimal(m)], [Decimal(n)];
    if m > n {
      assert FirstDifference(a, b, 0);
    }
    if m < n {
      assert FirstDifference(a, b, 0);
    }
  }

  /** The first part decides, when it differs, whatever follows. */
  lemma FirstPartDecides(a: seq<string>, b: seq<string>)
    requires a != [] && b != [] && PartValue(a[0]) != PartValue(b[0])
    ensures Newer(a, b) <==> PartValue(a[0]) > PartValue(b[0])
  {
    assert FirstDifference(a, b, 0);
    FirstDifferenceUnique(a, b, 0);
  }
}
