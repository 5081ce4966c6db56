/** The lists and the three reserved bytes of a WireGuard profile. */
module XrayReserved {
  import Text

  type Byte = n: nat | n < 256

  /** The separators of a list: commas and ASCII white space. */
  predicate IsListBreak(c: char) {
    c == ',' || 9 <= c as int <= 13 || c == ' '
  }

  function Cut(s: string): (parts: seq<string>)
    ensures parts != []
  {
    if s == "" then [""]
    else
      var rest := Cut(s[1..]);
      if IsListBreak(s[0]) then [""] + rest else [[s[0]] + rest[0]] + rest[1..]
  }

  function ListItems(s: string): seq<string> {
    Text.NonBlank(Cut(s))
  }

  datatype Parsed = Good(byte: Byte) | Bad

  /** `toInt` and the range test: a sign is allowed, so `-0` is a byte. */
  function ByteOf(item: string): Parsed {
    var signed := item != "" && (item[0] == '+' || item[0] == '-');
    var digits := if signed then item[1..] else item;
    if digits == "" || !Text.AllDigits(digits) then Bad
    else
      var value := Text.DigitsValue(digits);
      if value > 255 || (signed && item[0] == '-' && value > 0) then Bad else Good(value)
  }

  predicate AllBytes(items: seq<string>) {
    forall i | 0 <= i < |items| :: ByteOf(items[i]).Good?
  }

  function Bytes(items: seq<string>): (r: seq<Byte>)
    requires AllBytes(items)
    ensures |r| == |items|
  {
    seq(|items|, i requires 0 <= i < |items| => ByteOf(items[i]).byte)
  }

  predicate IsList(trimmed: string) {
    exists i | 0 <= i < |trimmed| :: trimmed[i] == ',' || trimmed[i] == ' '
  }

  function Padded(s: string): string {
    if |s| % 4 == 0 then s else s + seq(4 - |s| % 4, _ => '=')
  }

  function FromBase64(s: string, decode: string -> seq<Byte>): seq<Byte> {
    if |decode(s)| == 3 then decode(s) else if |decode(Padded(s))| == 3 then decode(Padded(s)) else []
  }

  /** `decode` is the base64 decoder. */
  function ReservedBytes(reserved: string, decode: string -> seq<Byte>): (r: seq<Byte>)
    ensures r == [] || |r| == 3
  {
    var trimmed := Text.Trim(reserved);
    if trimmed == "" then []
    else if IsList(trimmed) then
      if |ListItems(trimmed)| == 3 && AllBytes(ListItems(trimmed)) then Bytes(ListItems(trimmed)) else []
    else FromBase64(trimmed, decode)
  }

  /** Adding one character starts a new piece or extends the last one. */
  lemma {:induction false} CutSnoc(s: string, c: char)
    ensures var parts := Cut(s); var n := |parts| - 1;
      Cut(s + [c]) == if IsListBreak(c) then parts + [""] else parts[..n] + [parts[n] + [c]]
  {
    if s == "" {
      assert [c][1..] == "" && s + [c] == [c] && [c] + "" == [c];
      assert Cut("") == [""];
    } else {
      assert (s + [c])[1..] == s[1..] + [c];
      CutSnoc(s[1..], c);
      CutFirst(s[0], Cut(s[1..]), Cut(s[1..] + [c]), c);
    }
  }

  lemma CutFirst(first: char, rest: seq<string>, longer: seq<string>, c: char)
    requires rest != []
    requires longer == if IsListBreak(c) then rest + [""] else rest[..|rest| - 1] + [rest[|rest| - 1] + [c]]
    ensures var parts := if IsListBreak(first) then [""] + rest else [[first] + rest[0]] + rest[1..];
      var n := |parts| - 1;
      (if IsListBreak(first) then [""] + longer else [[first] + longer[0]] + longer[1..])
        == if IsListBreak(c) then parts + [""] else parts[..n] + [parts[n] + [c]]
  {
    if |rest| == 1 && !IsListBreak(c) && !IsListBreak(first) {
      assert [first] + (rest[0] + [c]) == [first] + rest[0] + [c];
    }
  }

  function Separators(s: string): string {
    if s == "" then "" else (if IsListBreak(s[0]) then [s[0]] else "") + Separators(s[1..])
  }

  /** The pieces with these separators between them. */
  function Glued(parts: seq<string>, separators: string): string
    requires |parts| == |separators| + 1
  {
    if separators == "" then parts[0] else parts[0] + [separators[0]] + Glued(parts[1..], separators[1..])
  }

  lemma GluedLonger(c: char, parts: seq<string>, separators: string)
    requires |parts| == |separators| + 1
    ensures Glued([[c] + parts[0]] + parts[1..], separators) == [c] + Glued(parts, separators)
    ensures Glued([""] + parts, [c] + separators) == [c] + Glued(parts, separators)
  {
    assert ([[c] + parts[0]] + parts[1..])[1..] == parts[1..];
    assert ([""] + parts)[1..] == parts && ([c] + separators)[1..] == separators;
  }

  lemma FirstPiece(c: char, parts: seq<string>)
    requires parts != [] && !IsListBreak(c) && forall i | 0 <= i < |parts| :: NoBreaks(parts[i])
    ensures var longer := [[c] + parts[0]] + parts[1..];
      forall i | 0 <= i < |longer| :: NoBreaks(longer[i])
  {
  }

  /** The pieces are free of separators, and with the separators between them they are the whole list. */
  lemma {:induction false} CutMeaning(s: string)
    ensures |Cut(s)| == |Separators(s)| + 1 && Glued(Cut(s), Separators(s)) == s
    ensures forall i | 0 <= i < |Cut(s)| :: NoBreaks(Cut(s)[i])
  {
    if s != "" {
      CutMeaning(s[1..]);
      assert s == [s[0]] + s[1..];
      GluedLonger(s[0], Cut(s[1..]), Separators(s[1..]));
      if !IsListBreak(s[0]) {
        FirstPiece(s[0], Cut(s[1..]));
        assert "" + Separators(s[1..]) == Separators(s[1..]);
      }
    }
  }

  /** The pieces between separators, empty ones included. */
  method SplitPieces(value: string) returns (parts: seq<string>)
    ensures parts == Cut(value)
  {
    parts := [];
    var piece := "";
    for i := 0 to |value|
      invariant parts + [piece] == Cut(value[..i])
    {
      CutSnoc(value[..i], value[i]);
      assert value[..i + 1] == value[..i] + [value[i]];
      assert (parts + [piece])[..|parts|] == parts;
      if IsListBreak(value[i]) {
        parts, piece := parts + [piece], "";
      } else {
        piece := piece + [value[i]];
      }
    }
    assert value[..|value|] == value;
    parts := parts + [piece];
  }

  method SplitCsvList(value: string) returns (items: seq<string>)
    ensures items == ListItems(value)
  {
    var parts := SplitPieces(value);
    items := Text.KeepNonBlank(parts);
  }

  method ParseByteList(items: seq<string>) returns (bytes: seq<Byte>)
    ensures bytes == if |items| == 3 && AllBytes(items) then Bytes(items) else []
  {
    bytes := [];
    for i := 0 to |items|
      invariant |bytes| == i
      invariant forall j | 0 <= j < i :: ByteOf(items[j]) == Good(bytes[j])
    {
      var value := ByteOf(items[i]);
      if value.Bad? {
        assert !AllBytes(items);
        return [];
      }
      bytes := bytes + [value.byte];
    }
    assert AllBytes(items);
    assert bytes == Bytes(items);
    if |bytes| != 3 {
      bytes := [];
    }
  }

  method ParseReservedBytes(reserved: string, decode: string -> seq<Byte>) returns (bytes: seq<Byte>)
    ensures bytes == ReservedBytes(reserved, decode)
  {
    var trimmed := Text.Trim(reserved);
    if trimmed == "" {
      return [];
    }
    if IsList(trimmed) {
      var items := SplitCsvList(trimmed);
      bytes := ParseByteList(items);
      return;
    }
    bytes := decode(trimmed);
    if |bytes| != 3 {
      bytes := decode(Padded(trimmed));
    }
    if |bytes| != 3 {
      bytes := [];
    }
  }

  // ---------- three decimal bytes are read back ----------

  predicate NoBreaks(s: string) {
    forall i | 0 <= i < |s| :: !IsListBreak(s[i])
  }

  lemma {:induction false} CutAround(a: string, b: string)
    requires NoBreaks(a)
    ensures Cut(a) == [a]
    ensures Cut(a + "," + b) == [a] + Cut(b)
  {
    if a == "" {
      assert a + "," + b == "," + b;
      assert ("," + b)[1..] == b;
    } else {
      CutAround(a[1..], b);
      assert (a + "," + b)[1..] == a[1..] + "," + b;
      assert [a[0]] + a[1..] == a;
    }
  }

  lemma DecimalItem(n: Byte)
    ensures var s := Text.Decimal(n);
      && NoBreaks(s) && s != "" && Text.IsDigit(s[0]) && Text.IsDigit(s[|s| - 1])
      && Text.Trim(s) == s && ByteOf(s) == Good(n)
  {
    var s := Text.Decimal(n);
    assert forall i | 0 <= i < |s| :: Text.IsDigit(s[i]);
    Text.TrimFixed(s);
    Text.DecimalRoundTrip(n);
    assert s[0] != '+' && s[0] != '-';
  }

  function Triplet(a: Byte, b: Byte, c: Byte): string {
    Text.Decimal(a) + "," + (Text.Decimal(b) + "," + Text.Decimal(c))
  }

  lemma CutTriplet(x: string, y: string, z: string, rest: string)
    requires NoBreaks(x) && NoBreaks(y) && NoBreaks(z) && rest == y + "," + z
    ensures Cut(x + "," + rest) == [x, y, z]
  {
    CutAround(x, rest);
    CutAround(y, z);
    CutAround(z, "");
  }

  lemma NonBlankTriplet(x: string, y: string, z: string)
    requires x != "" && y != "" && z != "" && Text.Trim(x) == x && Text.Trim(y) == y && Text.Trim(z) == z
    ensures Text.NonBlank([x, y, z]) == [x, y, z]
  {
    assert [z][1..] == [] && Text.NonBlank([z]) == [z];
    assert [y, z][1..] == [z] && [x, y, z][1..] == [y, z];
  }

  lemma ItemsOfThree(x: string, y: string, z: string)
    requires NoBreaks(x) && NoBreaks(y) && NoBreaks(z)
    requires x != "" && y != "" && z != "" && Text.Trim(x) == x && Text.Trim(y) == y && Text.Trim(z) == z
    ensures ListItems(x + "," + (y + "," + z)) == [x, y, z]
  {
    CutTriplet(x, y, z, y + "," + z);
    NonBlankTriplet(x, y, z);
  }

  lemma TripletItems(a: Byte, b: Byte, c: Byte)
    ensures ListItems(Triplet(a, b, c)) == [Text.Decimal(a), Text.Decimal(b), Text.Decimal(c)]
  {
    DecimalItem(a);
    DecimalItem(b);
    DecimalItem(c);
    ItemsOfThree(Text.Decimal(a), Text.Decimal(b), Text.Decimal(c));
  }

  lemma TripletShape(a: Byte, b: Byte, c: Byte)
    ensures var s := Triplet(a, b, c); s != "" && Text.Trim(s) == s && IsList(s)
  {
    var s, x, z := Triplet(a, b, c), Text.Decimal(a), Text.Decimal(c);
    DecimalItem(a);
    DecimalItem(c);
    assert s[0] == x[0] && s[|s| - 1] == z[|z| - 1];
    assert s[|x|] == ',';
    Text.TrimFixed(s);
  }

  lemma ListRead(s: string, x: string, y: string, z: string, a: Byte, b: Byte, c: Byte, decode: string -> seq<Byte>)
    requires s != "" && Text.Trim(s) == s && IsList(s) && ListItems(s) == [x, y, z]
    requires ByteOf(x) == Good(a) && ByteOf(y) == Good(b) && ByteOf(z) == Good(c)
    ensures ReservedBytes(s, decode) == [a, b, c]
  {
    var items := [x, y, z];
    assert items[0] == x && items[1] == y && items[2] == z;
    assert AllBytes(items);
    assert Bytes(items) == [a, b, c];
  }

  /** Any three bytes written in decimal with commas between them are read back. */
  lemma TripletRoundTrip(a: Byte, b: Byte, c: Byte, decode: string -> seq<Byte>)
    ensures ReservedBytes(Triplet(a, b, c), decode) == [a, b, c]
  {
    DecimalItem(a);
    DecimalItem(b);
    DecimalItem(c);
    TripletShape(a, b, c);
    TripletItems(a, b, c);
    ListRead(Triplet(a, b, c), Text.Decimal(a), Text.Decimal(b), Text.Decimal(c), a, b, c, decode);
  }

  /** A list item is a byte exactly if it is a number up to 255, with a sign if it likes; below zero only if it is 0. */
  lemma ItemMeaning(n: nat)
    ensures ByteOf(Text.Decimal(n)).Good? <==> n <= 255
    ensures n <= 255 ==> ByteOf(Text.Decimal(n)) == Good(n) == ByteOf("+" + Text.Decimal(n))
    ensures ByteOf("-" + Text.Decimal(n)).Good? <==> n == 0
  {
    var s := Text.Decimal(n);
    Text.DecimalRoundTrip(n);
    assert s[0] != '+' && s[0] != '-';
    assert ("+" + s)[1..] == s && ("-" + s)[1..] == s;
  }

  /** What is blank has no reserved bytes; what is no list is decoded, padded at the second try. */
  lemma DecodedReserved(reserved: string, decode: string -> seq<Byte>)
    ensures Text.Blank(reserved) ==> ReservedBytes(reserved, decode) == []
    ensures var s := Text.Trim(reserved);
      s != "" && ',' !in s && ' ' !in s ==>
        && (|decode(s)| == 3 ==> ReservedBytes(reserved, decode) == decode(s))
        && (|decode(s)| != 3 && |decode(Padded(s))| == 3 ==> ReservedBytes(reserved, decode) == decode(Padded(s)))
        && (|decode(s)| != 3 && |decode(Padded(s))| != 3 ==> ReservedBytes(reserved, decode) == [])
  {
  }

  /** A list of any other length, or with an item that is no byte, has none. */
  lemma WrongLists(reserved: string, decode: string -> seq<Byte>)
    requires var s := Text.Trim(reserved); ',' in s || ' ' in s
    ensures ReservedBytes(reserved, decode) != [] <==>
      |ListItems(Text.Trim(reserved))| == 3 && forall i | 0 <= i < 3 :: ByteOf(ListItems(Text.Trim(reserved))[i]).Good?
  {
  }
}
