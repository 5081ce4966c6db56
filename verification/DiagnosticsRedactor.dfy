/** Redaction of the JSON trees that go into a diagnostics bundle. */
module DiagnosticsRedactor {
  import opened Json
  import opened Text

  datatype Mode = Basic | Strict

  /** The pattern-based text redactor is a parameter of everything below. */
  type TextRedactor = (string, Mode) -> string

  const MASK := "<redacted>"
  const MASKED_HOST := "<redacted-host>"
  const MASKED_URL := "<redacted-url>"

  predicate IsSensitive(key: string) {
    var lower := Lower(key);
    || Contains(lower, "uuid") || Contains(lower, "password") || Contains(lower, "publickey")
    || Contains(lower, "shortid") || Contains(lower, "presharedkey") || Contains(lower, "secretkey")
    || Contains(lower, "token") || lower == "url" || Contains(lower, "servername") || lower == "sni"
    || lower == "address" || lower == "host"
  }

  /** Basic mode shows addresses and hosts although their keys are sensitive. */
  predicate Shown(key: string, mode: Mode) {
    EqualsIgnoreCase(key, "port")
    || (mode.Basic? && (EqualsIgnoreCase(key, "address") || EqualsIgnoreCase(key, "host")))
  }

  function MaskFor(key: string): string {
    if Contains(Lower(key), "url") then MASKED_URL
    else if Contains(key, "address") || Contains(key, "server") || key == "sni" then MASKED_HOST
    else MASK
  }

  /** The mask that the string case picks from its key, or none. */
  function StringMask(key: string, mode: Mode): (r: Json)
    ensures r.Null? || r.String?
  {
    var lower := Lower(key);
    if Contains(lower, "token") || Contains(lower, "password") || Contains(lower, "uuid")
       || Contains(lower, "publickey") || Contains(lower, "shortid") || lower == "url" then String(MASK)
    else if mode.Strict? && (lower == "address" || lower == "servername" || lower == "sni" || lower == "host") then
      String(MASKED_HOST)
    else Null
  }

  function RedactValue(v: Json, mode: Mode, key: string, text: TextRedactor): Json
    decreases v, 0
  {
    match v
    case Object(fields) => Object(map k | k in fields :: RedactField(fields[k], mode, k, text))
    case Array(items) => Array(seq(|items|, i requires 0 <= i < |items| => RedactValue(items[i], mode, key, text)))
    case String(s) => var mask := StringMask(key, mode); if mask.String? then mask else String(text(s, mode))
    case _ => v
  }

  /** What one entry of an object becomes. */
  function RedactField(v: Json, mode: Mode, key: string, text: TextRedactor): Json
    decreases v, 1
  {
    if !IsSensitive(key) then RedactValue(v, mode, key, text)
    else if Shown(key, mode) then v
    else String(MaskFor(key))
  }

  function RedactObject(fields: Fields, mode: Mode, text: TextRedactor): Fields {
    map k | k in fields :: RedactField(fields[k], mode, k, text)
  }

  predicate Hidden(key: string, mode: Mode) {
    IsSensitive(key) && !Shown(key, mode)
  }

  /** Under a key that is not sensitive the string case never masks: it always asks the text redactor. */
  lemma StringCaseNeverMasks(key: string, mode: Mode)
    requires !IsSensitive(key)
    ensures StringMask(key, mode).Null?
  {
    if Lower(key) == "servername" {
      assert OccursAt(Lower(key), "servername", 0);
    }
  }

  // ---------- which keys are sensitive ----------

  lemma ContainsPart(before: string, part: string, after: string)
    ensures Contains(before + part + after, part)
  {
    assert OccursAt(before + part + after, part, |before|);
  }

  /** Any key with one of these words in it, in any case, is sensitive. */
  lemma SensitiveWords(key: string, before: string, word: string, after: string)
    requires Lower(key) == before + word + after
    requires word in ["uuid", "password", "publickey", "shortid", "presharedkey", "secretkey", "token", "servername"]
    ensures IsSensitive(key)
  {
    ContainsPart(before, word, after);
  }

  /** So is each of these keys, in any case. */
  lemma SensitiveKeys(key: string)
    requires Lower(key) in ["url", "sni", "address", "host"]
    ensures IsSensitive(key)
  {
  }

  /** A key as short as this is sensitive only if it is one of three. */
  lemma ShortKeys(key: string)
    requires |key| < 4
    ensures IsSensitive(key) <==> Lower(key) == "url" || Lower(key) == "sni"
  {
    assert |Lower(key)| < 4;
  }

  /** Strict mode hides every sensitive key but the port; basic mode shows addresses and hosts as well. */
  lemma HiddenModes(key: string)
    ensures Hidden(key, Strict) <==> IsSensitive(key) && !EqualsIgnoreCase(key, "port")
    ensures Hidden(key, Basic) <==>
      Hidden(key, Strict) && !EqualsIgnoreCase(key, "address") && !EqualsIgnoreCase(key, "host")
  {
  }

  /** A hidden value becomes a mask that depends on its key alone, an address one for an address. */
  lemma HiddenValue(v: Json, mode: Mode, key: string, text: TextRedactor)
    requires Hidden(key, mode)
    ensures RedactField(v, mode, key, text)
      in [String("<redacted>"), String("<redacted-host>"), String("<redacted-url>")]
    ensures RedactField(v, mode, key, text) == RedactField(Null, mode, key, text)
    ensures key == "url" ==> RedactField(v, mode, key, text) == String("<redacted-url>")
    ensures key == "address" || key == "sni" ==> RedactField(v, mode, key, text) == String("<redacted-host>")
    ensures key == "password" || key == "uuid" || key == "token" ==>
      RedactField(v, mode, key, text) == String("<redacted>")
  {
    MaskTable(key);
  }

  lemma MaskTable(key: string)
    ensures key == "url" ==> MaskFor(key) == MASKED_URL
    ensures key == "address" || key == "sni" ==> MaskFor(key) == MASKED_HOST
    ensures key == "password" || key == "uuid" || key == "token" ==> MaskFor(key) == MASK
  {
    assert Lower("url") == "url" && Lower("address") == "address" && Lower("sni") == "sni";
    assert Lower("password") == "password" && Lower("uuid") == "uuid" && Lower("token") == "token";
    assert OccursAt("url", "url", 0) && OccursAt("address", "address", 0);
    NotIn("address", "url", 'l');
    NotIn("sni", "url", 'u');
    NotIn("password", "url", 'u');
    NotIn("uuid", "url", 'l');
    NotIn("token", "url", 'u');
    NotIn("password", "address", 'e');
    NotIn("password", "server", 'v');
  }

  lemma NotIn(s: string, part: string, c: char)
    requires c in part && c !in s
    ensures !Contains(s, part)
  {
    var k :| 0 <= k < |part| && part[k] == c;
    forall i | 0 <= i <= |s| ensures !OccursAt(s, part, i) {
      if i + |part| <= |s| {
        assert s[i..i + |part|][k] == s[i + k];
      }
    }
  }

  /** Under a key that is not sensitive a text goes through the text redactor, and a number or flag stays. */
  lemma VisibleValue(v: Json, mode: Mode, key: string, text: TextRedactor)
    requires !IsSensitive(key)
    ensures v.String? ==> RedactField(v, mode, key, text) == String(text(v.text, mode))
    ensures v.Number? || v.Boolean? || v.Null? ==> RedactField(v, mode, key, text) == v
  {
    StringCaseNeverMasks(key, mode);
  }

  // ---------- non-interference ----------

  /** The tree with every value under a hidden key replaced by null. */
  function Scrub(v: Json, mode: Mode): Json
    decreases v
  {
    match v
    case Object(fields) =>
      Object(map k | k in fields ::
        if Hidden(k, mode) then Null else if IsSensitive(k) then fields[k] else Scrub(fields[k], mode))
    case Array(items) => Array(seq(|items|, i requires 0 <= i < |items| => Scrub(items[i], mode)))
    case _ => v
  }

  function ScrubFields(fields: Fields, mode: Mode): Fields {
    Scrub(Object(fields), mode).fields
  }

  lemma ScrubbedFields(fields: Fields, mode: Mode, text: TextRedactor)
    requires forall k | k in fields && !IsSensitive(k) ::
      RedactValue(Scrub(fields[k], mode), mode, k, text) == RedactValue(fields[k], mode, k, text)
    ensures RedactObject(ScrubFields(fields, mode), mode, text) == RedactObject(fields, mode, text)
  {
    var scrubbed := ScrubFields(fields, mode);
    forall k | k in fields ensures RedactField(scrubbed[k], mode, k, text) == RedactField(fields[k], mode, k, text) {
    }
  }

  /** Redaction factors through the scrubbed tree. */
  lemma {:induction false} RedactScrubbed(v: Json, mode: Mode, key: string, text: TextRedactor)
    ensures RedactValue(Scrub(v, mode), mode, key, text) == RedactValue(v, mode, key, text)
    decreases v
  {
    match v
    case Object(fields) =>
      forall k | k in fields && !IsSensitive(k)
        ensures RedactValue(Scrub(fields[k], mode), mode, k, text) == RedactValue(fields[k], mode, k, text)
      {
        RedactScrubbed(fields[k], mode, k, text);
      }
      ScrubbedFields(fields, mode, text);
      assert Scrub(v, mode) == Object(ScrubFields(fields, mode));
      ObjectRedacted(fields, mode, key, text);
      ObjectRedacted(ScrubFields(fields, mode), mode, key, text);
    case Array(items) =>
      forall i | 0 <= i < |items|
        ensures RedactValue(Scrub(items[i], mode), mode, key, text) == RedactValue(items[i], mode, key, text)
      {
        RedactScrubbed(items[i], mode, key, text);
      }
      assert RedactValue(Scrub(v, mode), mode, key, text).items == RedactValue(v, mode, key, text).items;
    case _ =>
  }

  lemma ObjectRedacted(fields: Fields, mode: Mode, key: string, text: TextRedactor)
    ensures RedactValue(Object(fields), mode, key, text) == Object(RedactObject(fields, mode, text))
  {
  }

  /** Two objects that differ only in values under hidden keys, at any depth, redact to the same object. */
  lemma NonInterference(a: Fields, b: Fields, mode: Mode, text: TextRedactor)
    requires Scrub(Object(a), mode) == Scrub(Object(b), mode)
    ensures RedactObject(a, mode, text) == RedactObject(b, mode, text)
  {
    RedactScrubbed(Object(a), mode, "", text);
    RedactScrubbed(Object(b), mode, "", text);
    assert RedactValue(Object(a), mode, "", text) == Object(RedactObject(a, mode, text));
    assert RedactValue(Object(b), mode, "", text) == Object(RedactObject(b, mode, text));
  }

  // ---------- what the output reveals ----------

  /** Equal up to hidden values and up to what the text redactor makes equal. */
  ghost predicate Alike(v: Json, w: Json, mode: Mode, text: TextRedactor)
    decreases v
  {
    match v
    case Object(fields) =>
      && w.Object? && w.fields.Keys == fields.Keys
      && forall k | k in fields && !Hidden(k, mode) ::
           if IsSensitive(k) then w.fields[k] == fields[k] else Alike(fields[k], w.fields[k], mode, text)
    case Array(items) =>
      w.Array? && |w.items| == |items| && forall i | 0 <= i < |items| :: Alike(items[i], w.items[i], mode, text)
    case String(s) => w.String? && text(s, mode) == text(w.text, mode)
    case _ => v == w
  }

  lemma AlikeFields(a: Fields, b: Fields, mode: Mode, text: TextRedactor)
    requires a.Keys == b.Keys
    requires forall k | k in a :: RedactField(a[k], mode, k, text) == RedactField(b[k], mode, k, text)
    ensures RedactObject(a, mode, text) == RedactObject(b, mode, text)
  {
  }

  lemma SameFields(a: Fields, b: Fields, mode: Mode, text: TextRedactor)
    requires RedactObject(a, mode, text) == RedactObject(b, mode, text)
    ensures a.Keys == b.Keys
    ensures forall k | k in a :: RedactField(a[k], mode, k, text) == RedactField(b[k], mode, k, text)
  {
    var r, t := RedactObject(a, mode, text), RedactObject(b, mode, text);
    assert a.Keys == r.Keys == t.Keys == b.Keys;
    forall k | k in a ensures RedactField(a[k], mode, k, text) == RedactField(b[k], mode, k, text) {
      assert r[k] == t[k];
    }
  }

  /** Entry by entry, given the equivalence for the entries that are redacted recursively. */
  lemma ObjectReveals(a: Fields, b: Fields, mode: Mode, text: TextRedactor)
    requires forall k | k in a && k in b && !IsSensitive(k) ::
      RedactField(a[k], mode, k, text) == RedactField(b[k], mode, k, text) <==> Alike(a[k], b[k], mode, text)
    ensures RedactObject(a, mode, text) == RedactObject(b, mode, text) <==> Alike(Object(a), Object(b), mode, text)
  {
    if RedactObject(a, mode, text) == RedactObject(b, mode, text) {
      SameFields(a, b, mode, text);
    }
    if Alike(Object(a), Object(b), mode, text) {
      AlikeFields(a, b, mode, text);
    }
  }

  lemma ArrayReveals(a: seq<Json>, b: seq<Json>, mode: Mode, key: string, text: TextRedactor)
    requires |a| == |b|
    requires forall i | 0 <= i < |a| ::
      RedactValue(a[i], mode, key, text) == RedactValue(b[i], mode, key, text) <==> Alike(a[i], b[i], mode, text)
    ensures RedactValue(Array(a), mode, key, text) == RedactValue(Array(b), mode, key, text)
       <==> Alike(Array(a), Array(b), mode, text)
  {
    var r, t := RedactValue(Array(a), mode, key, text), RedactValue(Array(b), mode, key, text);
    if r == t {
      forall i | 0 <= i < |a| ensures Alike(a[i], b[i], mode, text) {
        assert r.items[i] == t.items[i];
      }
    }
    if Alike(Array(a), Array(b), mode, text) {
      assert r.items == t.items;
    }
  }

  /** The redacted tree determines its source exactly up to `Alike`: nothing more is hidden, nothing less. */
  lemma {:induction false} RedactionReveals(v: Json, w: Json, mode: Mode, key: string, text: TextRedactor)
    requires !IsSensitive(key)
    ensures RedactValue(v, mode, key, text) == RedactValue(w, mode, key, text) <==> Alike(v, w, mode, text)
    decreases v
  {
    if v.Object? && w.Object? {
      forall k | k in v.fields && k in w.fields && !IsSensitive(k)
        ensures RedactField(v.fields[k], mode, k, text) == RedactField(w.fields[k], mode, k, text)
           <==> Alike(v.fields[k], w.fields[k], mode, text)
      {
        RedactionReveals(v.fields[k], w.fields[k], mode, k, text);
      }
      ObjectReveals(v.fields, w.fields, mode, text);
      assert RedactValue(v, mode, key, text) == Object(RedactObject(v.fields, mode, text));
      assert RedactValue(w, mode, key, text) == Object(RedactObject(w.fields, mode, text));
    } else if v.Array? && w.Array? && |v.items| == |w.items| {
      forall i | 0 <= i < |v.items|
        ensures RedactValue(v.items[i], mode, key, text) == RedactValue(w.items[i], mode, key, text)
           <==> Alike(v.items[i], w.items[i], mode, text)
      {
        RedactionReveals(v.items[i], w.items[i], mode, key, text);
      }
      ArrayReveals(v.items, w.items, mode, key, text);
    } else {
      StringCaseNeverMasks(key, mode);
      if v.Array? && w.Array? {
        assert |RedactValue(v, mode, key, text).items| == |v.items|;
        assert |RedactValue(w, mode, key, text).items| == |w.items|;
      }
    }
  }

  // ---------- idempotence and shape ----------

  ghost predicate TextIdempotent(text: TextRedactor) {
    forall s, mode :: text(text(s, mode), mode) == text(s, mode)
  }

  /** Redacting twice is redacting once, whenever the text redactor has that property. */
  lemma {:induction false} RedactIdempotent(v: Json, mode: Mode, key: string, text: TextRedactor)
    requires TextIdempotent(text)
    ensures RedactValue(RedactValue(v, mode, key, text), mode, key, text) == RedactValue(v, mode, key, text)
    decreases v
  {
    var r := RedactValue(v, mode, key, text);
    match v
    case Object(fields) =>
      forall k | k in fields ensures RedactField(r.fields[k], mode, k, text) == r.fields[k] {
        assert r.fields[k] == RedactField(fields[k], mode, k, text);
        if !IsSensitive(k) {
          RedactIdempotent(fields[k], mode, k, text);
          assert r.fields[k] == RedactValue(fields[k], mode, k, text);
        }
      }
      assert RedactValue(r, mode, key, text).fields == r.fields;
    case Array(items) =>
      forall i | 0 <= i < |items| ensures RedactValue(r.items[i], mode, key, text) == r.items[i] {
        RedactIdempotent(items[i], mode, key, text);
      }
      assert RedactValue(r, mode, key, text).items == r.items;
    case _ =>
  }

  datatype PathStep = Key(key: string) | Item(index: nat)

  datatype Found = Nothing | Here(value: Json)

  function At(v: Json, path: seq<PathStep>): Found
    decreases |path|
  {
    if path == [] then Here(v)
    else match path[0]
      case Key(k) => if v.Object? && k in v.fields then At(v.fields[k], path[1..]) else Nothing
      case Item(i) => if v.Array? && i < |v.items| then At(v.items[i], path[1..]) else Nothing
  }

  predicate AvoidsSensitive(path: seq<PathStep>) {
    forall i | 0 <= i < |path| && path[i].Key? :: !IsSensitive(path[i].key)
  }

  /** Which key a value sits under does not matter, as long as it is not sensitive. */
  lemma {:induction false} KeyIrrelevant(v: Json, mode: Mode, k: string, l: string, text: TextRedactor)
    requires !IsSensitive(k) && !IsSensitive(l)
    ensures RedactValue(v, mode, k, text) == RedactValue(v, mode, l, text)
    decreases v
  {
    StringCaseNeverMasks(k, mode);
    StringCaseNeverMasks(l, mode);
    match v
    case Array(items) =>
      forall i | 0 <= i < |items| ensures RedactValue(items[i], mode, k, text) == RedactValue(items[i], mode, l, text) {
        KeyIrrelevant(items[i], mode, k, l, text);
      }
      assert RedactValue(v, mode, k, text).items == RedactValue(v, mode, l, text).items;
    case _ =>
  }

  /**
   Along every path that avoids sensitive keys the redacted tree has a value exactly where the source has one,
   namely the redaction of it: objects keep their key sets and arrays their lengths.
   */
  lemma {:induction false} ShapeKept(v: Json, mode: Mode, key: string, text: TextRedactor, path: seq<PathStep>)
    requires !IsSensitive(key) && AvoidsSensitive(path)
    ensures var found := At(v, path);
      At(RedactValue(v, mode, key, text), path) ==
        if found.Nothing? then Nothing else Here(RedactValue(found.value, mode, key, text))
    decreases |path|
  {
    if path != [] {
      var rest := path[1..];
      assert AvoidsSensitive(rest) by {
        assert forall i | 0 <= i < |rest| :: rest[i] == path[i + 1];
      }
      match path[0]
      case Key(k) =>
        if v.Object? && k in v.fields {
          ShapeKept(v.fields[k], mode, k, text, rest);
          if At(v.fields[k], rest).Here? {
            KeyIrrelevant(At(v.fields[k], rest).value, mode, k, key, text);
          }
        }
      case Item(i) =>
        if v.Array? && i < |v.items| {
          ShapeKept(v.items[i], mode, key, text, rest);
        }
    }
  }

  // ---------- the report of redacted fields ----------

  /** Every hidden key met on the way down, at any depth. */
  function Tracked(v: Json, mode: Mode): set<string>
    decreases v, 0
  {
    match v
    case Object(fields) => set k, f | k in fields && f in TrackedField(fields[k], mode, k) :: f
    case Array(items) => set i, f | 0 <= i < |items| && f in Tracked(items[i], mode) :: f
    case _ => {}
  }

  function TrackedField(v: Json, mode: Mode, key: string): set<string>
    decreases v, 1
  {
    if Hidden(key, mode) then {key} else if IsSensitive(key) then {} else Tracked(v, mode)
  }

  class Redactor {
    var redactedFields: seq<string>

    constructor ()
      ensures redactedFields == []
    {
      redactedFields := [];
    }

    ghost predicate Valid()
      reads this
    {
      forall i, j | 0 <= i < j < |redactedFields| :: redactedFields[i] != redactedFields[j]
    }

    ghost function Report(): set<string>
      reads this
    {
      set f | f in redactedFields
    }

    method ResetReport()
      modifies this
      ensures redactedFields == [] && Valid()
    {
      redactedFields := [];
    }

    method TrackField(field: string)
      requires Valid()
      modifies this
      ensures Valid() && Report() == old(Report()) + {field}
    {
      if field !in redactedFields {
        redactedFields := redactedFields + [field];
      }
    }

    /** Builds the redacted object entry by entry and reports exactly the hidden keys it met. */
    method RedactJsonObject(fields: Fields, mode: Mode, text: TextRedactor) returns (result: Fields)
      requires Valid()
      modifies this
      ensures result == RedactObject(fields, mode, text)
      ensures Valid() && Report() == old(Report()) + Tracked(Object(fields), mode)
      decreases Object(fields), 1
    {
      result := map[];
      var todo := fields.Keys;
      NothingRedacted(fields, mode, text);
      while todo != {}
        invariant todo <= fields.Keys
        invariant result == RedactObject(fields - todo, mode, text)
        invariant Valid() && Report() == old(Report()) + Tracked(Object(fields - todo), mode)
        decreases todo
      {
        var key :| key in todo;
        RedactStep(fields, todo, key, mode, text);
        TrackedStep(fields, todo, key, mode);
        var value := RedactEntry(fields, key, mode, text);
        result := result[key := value];
        todo := todo - {key};
      }
    }

    method RedactEntry(fields: Fields, key: string, mode: Mode, text: TextRedactor) returns (result: Json)
      requires key in fields && Valid()
      modifies this
      ensures result == RedactField(fields[key], mode, key, text)
      ensures Valid() && Report() == old(Report()) + TrackedField(fields[key], mode, key)
      decreases Object(fields), 0
    {
      if IsSensitive(key) {
        if Shown(key, mode) {
          return fields[key];
        }
        TrackField(key);
        return String(MaskFor(key));
      }
      result := RedactJsonValue(fields[key], mode, key, text);
    }

    method RedactJsonValue(v: Json, mode: Mode, key: string, text: TextRedactor) returns (result: Json)
      requires !IsSensitive(key) && Valid()
      modifies this
      ensures result == RedactValue(v, mode, key, text)
      ensures Valid() && Report() == old(Report()) + Tracked(v, mode)
      decreases v, 2
    {
      match v
      case Object(fields) =>
        var redacted := RedactJsonObject(fields, mode, text);
        result := Object(redacted);
      case Array(items) =>
        var redacted := [];
        for i := 0 to |items|
          invariant redacted == seq(i, j requires 0 <= j < i => RedactValue(items[j], mode, key, text))
          invariant Valid() && Report() == old(Report()) + Tracked(Array(items[..i]), mode)
        {
          var item := RedactJsonValue(items[i], mode, key, text);
          redacted := redacted + [item];
          TrackedItems(items, i, mode);
        }
        assert items[..|items|] == items;
        result := Array(redacted);
      case String(s) =>
        StringCaseNeverMasks(key, mode);
        result := String(text(s, mode));
      case _ => result := v;
    }
  }

  lemma NothingRedacted(fields: Fields, mode: Mode, text: TextRedactor)
    ensures RedactObject(fields - fields.Keys, mode, text) == map[]
    ensures Tracked(Object(fields - fields.Keys), mode) == {}
    ensures fields - {} == fields
  {
    assert fields - fields.Keys == map[];
  }

  lemma RedactStep(fields: Fields, todo: set<string>, key: string, mode: Mode, text: TextRedactor)
    requires todo <= fields.Keys && key in todo
    ensures RedactObject(fields - (todo - {key}), mode, text) ==
      RedactObject(fields - todo, mode, text)[key := RedactField(fields[key], mode, key, text)]
  {
  }

  lemma TrackedStep(fields: Fields, todo: set<string>, key: string, mode: Mode)
    requires todo <= fields.Keys && key in todo
    ensures Tracked(Object(fields - (todo - {key})), mode) ==
      Tracked(Object(fields - todo), mode) + TrackedField(fields[key], mode, key)
  {
    var more, fewer := fields - (todo - {key}), fields - todo;
    assert more == fewer[key := fields[key]];
    forall f | f in Tracked(Object(more), mode)
      ensures f in Tracked(Object(fewer), mode) + TrackedField(fields[key], mode, key)
    {
      var k :| k in more && f in TrackedField(more[k], mode, k);
      if k != key {
        assert k in fewer && fewer[k] == more[k];
      }
    }
    forall f | f in Tracked(Object(fewer), mode) ensures f in Tracked(Object(more), mode) {
      var k :| k in fewer && f in TrackedField(fewer[k], mode, k);
      assert k in more && more[k] == fewer[k];
    }
    assert key in more && more[key] == fields[key];
  }

  lemma TrackedItems(items: seq<Json>, i: nat, mode: Mode)
    requires i < |items|
    ensures Tracked(Array(items[..i + 1]), mode) == Tracked(Array(items[..i]), mode) + Tracked(items[i], mode)
  {
    forall f | f in Tracked(Array(items[..i + 1]), mode)
      ensures f in Tracked(Array(items[..i]), mode) + Tracked(items[i], mode)
    {
      var j :| 0 <= j < i + 1 && f in Tracked(items[..i + 1][j], mode);
      if j < i {
        assert items[..i][j] == items[..i + 1][j];
      }
    }
    forall f | f in Tracked(Array(items[..i]), mode) ensures f in Tracked(Array(items[..i + 1]), mode) {
      var j :| 0 <= j < i && f in Tracked(items[..i][j], mode);
      assert items[..i + 1][j] == items[..i][j];
    }
    assert items[..i + 1][i] == items[i];
  }
}
