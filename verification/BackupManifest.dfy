/** Reading and writing `manifest.json`. */
module BackupManifest {
  import opened Json
  import opened BackupModel

  // ---------- one category entry ----------

  function EntryToJson(e: Entry): Json {
    Object(map["included" := Boolean(e.included), "redacted" := Boolean(e.redacted)]
           + (if e.file != "" then map["file" := String(e.file)] else map[])
           + (if e.count >= 0 then map["count" := Number(e.count)] else map[]))
  }

  function EntryFromJson(fields: Fields): Entry {
    Entry(ToBool(Value(fields, "included")), ToString(Value(fields, "file")),
          if "count" in fields then ToInt(fields["count"]) else -1,
          ToBool(Value(fields, "redacted")))
  }

  /** All negative counts are written alike. */
  function NormalEntry(e: Entry): Entry {
    e.(count := if e.count >= 0 then e.count else -1)
  }

  lemma EntryRoundTrip(e: Entry)
    ensures EntryFromJson(ToObject(EntryToJson(e))) == NormalEntry(e)
  {
  }

  // ---------- the whole manifest ----------

  function CategoriesToJson(categories: map<string, Entry>): Fields {
    map k | k in categories :: EntryToJson(categories[k])
  }

  function StringsToJson(texts: seq<string>): seq<Json> {
    seq(|texts|, i requires 0 <= i < |texts| => String(texts[i]))
  }

  function ChecksumsToJson(checksums: map<string, string>): Fields {
    map k | k in checksums :: String(checksums[k])
  }

  /** `iso` renders whole seconds since the epoch in UTC. */
  function TimeToText(t: Option<int>, iso: int -> string): string {
    if t.Some? then iso(t.value / 1000) else ""
  }

  function TimeFromText(text: string, parse: string -> Option<int>): Option<int> {
    var t := parse(text);
    if t.Some? then Some(t.value * 1000) else None
  }

  function ToJson(m: Manifest, iso: int -> string): Fields {
    map["format" := String(m.format),
        "formatVersion" := Number(m.formatVersion),
        "appName" := String(m.appName),
        "appVersion" := String(m.appVersion),
        "createdAt" := String(TimeToText(m.createdAt, iso)),
        "createdBy" := String(m.createdBy),
        "platform" := String(m.platform),
        "portableMode" := Boolean(m.portableMode),
        "redacted" := Boolean(m.redacted),
        "categories" := Object(CategoriesToJson(m.categories)),
        "warnings" := Array(StringsToJson(m.warnings)),
        "checksums" := Object(ChecksumsToJson(m.checksums))]
    + (if m.redactionMode != "" then map["redactionMode" := String(m.redactionMode)] else map[])
  }

  function CategoriesFromJson(fields: Fields): map<string, Entry> {
    map k | k in fields :: EntryFromJson(ToObject(fields[k]))
  }

  function StringsFromJson(items: seq<Json>): seq<string> {
    seq(|items|, i requires 0 <= i < |items| => ToString(items[i]))
  }

  function ChecksumsFromJson(fields: Fields): map<string, string> {
    map k | k in fields :: ToString(fields[k])
  }

  function FromJson(root: Fields, parse: string -> Option<int>): Manifest {
    Manifest(ToString(Value(root, "format")),
             ToInt(Value(root, "formatVersion")),
             ToString(Value(root, "appName")),
             ToString(Value(root, "appVersion")),
             TimeFromText(ToString(Value(root, "createdAt")), parse),
             ToString(Value(root, "createdBy")),
             ToString(Value(root, "platform")),
             ToBool(Value(root, "portableMode")),
             ToBool(Value(root, "redacted")),
             ToString(Value(root, "redactionMode")),
             CategoriesFromJson(ToObject(Value(root, "categories"))),
             StringsFromJson(ToArray(Value(root, "warnings"))),
             ChecksumsFromJson(ToObject(Value(root, "checksums"))))
  }

  function NormalCategories(categories: map<string, Entry>): map<string, Entry> {
    map k | k in categories :: NormalEntry(categories[k])
  }

  /** What survives a write and a read: whole seconds, and one value for every negative count. */
  function Normal(m: Manifest): Manifest {
    m.(createdAt := if m.createdAt.Some? then Some(m.createdAt.value / 1000 * 1000) else None,
       categories := NormalCategories(m.categories))
  }

  /**
   The date formatter and parser agree on the whole seconds of this one time, and a missing time, which is written
   as the empty text, reads as missing. An ISO formatter fails this outside the years 0 to 9999.
   */
  predicate ClockAgrees(t: Option<int>, iso: int -> string, parse: string -> Option<int>) {
    if t.Some? then parse(iso(t.value / 1000)) == Some(t.value / 1000) else parse("") == None
  }

  /** Each key of the written object reads back as the value stored under it. */
  lemma WrittenHeader(m: Manifest, iso: int -> string)
    ensures var root := ToJson(m, iso);
      && Value(root, "format") == String(m.format)
      && Value(root, "formatVersion") == Number(m.formatVersion)
      && Value(root, "appName") == String(m.appName)
      && Value(root, "appVersion") == String(m.appVersion)
  {
  }

  lemma WrittenOrigin(m: Manifest, iso: int -> string)
    ensures var root := ToJson(m, iso);
      && Value(root, "createdAt") == String(TimeToText(m.createdAt, iso))
      && Value(root, "createdBy") == String(m.createdBy)
      && Value(root, "platform") == String(m.platform)
      && Value(root, "portableMode") == Boolean(m.portableMode)
  {
  }

  lemma WrittenBody(m: Manifest, iso: int -> string)
    ensures var root := ToJson(m, iso);
      && Value(root, "redacted") == Boolean(m.redacted)
      && ToString(Value(root, "redactionMode")) == m.redactionMode
      && Value(root, "categories") == Object(CategoriesToJson(m.categories))
      && Value(root, "warnings") == Array(StringsToJson(m.warnings))
      && Value(root, "checksums") == Object(ChecksumsToJson(m.checksums))
  {
  }

  lemma CategoryReadsBack(categories: map<string, Entry>, k: string)
    requires k in categories
    ensures var back := CategoriesFromJson(CategoriesToJson(categories));
      k in back && back[k] == NormalEntry(categories[k])
  {
    EntryRoundTrip(categories[k]);
    assert CategoriesToJson(categories)[k] == EntryToJson(categories[k]);
  }

  lemma CategoryKeys(categories: map<string, Entry>)
    ensures CategoriesFromJson(CategoriesToJson(categories)).Keys == categories.Keys
  {
    assert CategoriesToJson(categories).Keys == categories.Keys;
  }

  lemma EachReadsBack(categories: map<string, Entry>)
    ensures forall k | k in categories ::
      k in CategoriesFromJson(CategoriesToJson(categories))
      && CategoriesFromJson(CategoriesToJson(categories))[k] == NormalEntry(categories[k])
  {
    forall k | k in categories
      ensures k in CategoriesFromJson(CategoriesToJson(categories))
      ensures CategoriesFromJson(CategoriesToJson(categories))[k] == NormalEntry(categories[k])
    {
      CategoryReadsBack(categories, k);
    }
  }

  lemma NormalUnique(categories: map<string, Entry>, back: map<string, Entry>)
    requires back.Keys == categories.Keys && forall k | k in categories :: back[k] == NormalEntry(categories[k])
    ensures back == NormalCategories(categories)
  {
  }

  lemma CategoriesRoundTrip(categories: map<string, Entry>)
    ensures CategoriesFromJson(CategoriesToJson(categories)) == NormalCategories(categories)
  {
    CategoryKeys(categories);
    EachReadsBack(categories);
    NormalUnique(categories, CategoriesFromJson(CategoriesToJson(categories)));
  }

  lemma ListsRoundTrip(m: Manifest)
    ensures StringsFromJson(StringsToJson(m.warnings)) == m.warnings
    ensures ChecksumsFromJson(ChecksumsToJson(m.checksums)) == m.checksums
  {
  }

  /** The manifest that is read: what was written in normal form, with the time as the clock's texts give it. */
  lemma ReadsBack(m: Manifest, iso: int -> string, parse: string -> Option<int>)
    ensures FromJson(ToJson(m, iso), parse)
      == Normal(m).(createdAt := TimeFromText(TimeToText(m.createdAt, iso), parse))
  {
    WrittenHeader(m, iso);
    WrittenOrigin(m, iso);
    WrittenBody(m, iso);
    CategoriesRoundTrip(m.categories);
    ListsRoundTrip(m);
  }

  /** Reading undoes writing, for every manifest on whose own time the clock agrees, and for no other. */
  lemma RoundTrip(m: Manifest, iso: int -> string, parse: string -> Option<int>)
    ensures FromJson(ToJson(m, iso), parse) == Normal(m) <==> ClockAgrees(m.createdAt, iso, parse)
  {
    ReadsBack(m, iso, parse);
    TimeReadsBack(m.createdAt, iso, parse);
    assert Normal(m).(createdAt := Normal(m).createdAt) == Normal(m);
  }

  lemma TimeReadsBack(t: Option<int>, iso: int -> string, parse: string -> Option<int>)
    ensures TimeFromText(TimeToText(t, iso), parse) == (if t.Some? then Some(t.value / 1000 * 1000) else None)
       <==> ClockAgrees(t, iso, parse)
  {
  }

  lemma NormalIdempotent(m: Manifest)
    ensures Normal(Normal(m)) == Normal(m)
  {
    assert NormalCategories(NormalCategories(m.categories)) == NormalCategories(m.categories);
  }

  /** An object without any field reads as an empty manifest, and an entry without any as one that is not included. */
  lemma NothingReads(parse: string -> Option<int>)
    requires parse("") == None
    ensures FromJson(map[], parse)
      == Manifest("", 0, "", "", None, "", "", false, false, "", map[], [], map[])
    ensures EntryFromJson(map[]) == Entry(false, "", -1, false)
  {
    assert CategoriesFromJson(map[]) == map[] && ChecksumsFromJson(map[]) == map[];
    assert StringsFromJson([]) == [];
  }

  // ---------- the loops ----------

  method WriteCategories(m: Manifest) returns (fields: Fields)
    ensures fields == CategoriesToJson(m.categories)
  {
    fields := map[];
    var todo := m.categories.Keys;
    while todo != {}
      invariant todo <= m.categories.Keys
      invariant fields == map k | k in m.categories && k !in todo :: EntryToJson(m.categories[k])
      decreases todo
    {
      var k :| k in todo;
      fields := fields[k := EntryToJson(m.categories[k])];
      todo := todo - {k};
    }
  }

  method WriteChecksums(m: Manifest) returns (fields: Fields)
    ensures fields == ChecksumsToJson(m.checksums)
  {
    fields := map[];
    var todo := m.checksums.Keys;
    while todo != {}
      invariant todo <= m.checksums.Keys
      invariant fields == map k | k in m.checksums && k !in todo :: String(m.checksums[k])
      decreases todo
    {
      var k :| k in todo;
      fields := fields[k := String(m.checksums[k])];
      todo := todo - {k};
    }
  }

  method WriteWarnings(m: Manifest) returns (items: seq<Json>)
    ensures items == StringsToJson(m.warnings)
  {
    items := [];
    for i := 0 to |m.warnings|
      invariant items == StringsToJson(m.warnings)[..i]
    {
      items := items + [String(m.warnings[i])];
    }
  }

  method Write(m: Manifest, iso: int -> string) returns (root: Fields)
    ensures root == ToJson(m, iso)
  {
    var categories := WriteCategories(m);
    var warnings := WriteWarnings(m);
    var checksums := WriteChecksums(m);
    root := map["format" := String(m.format),
                "formatVersion" := Number(m.formatVersion),
                "appName" := String(m.appName),
                "appVersion" := String(m.appVersion),
                "createdAt" := String(TimeToText(m.createdAt, iso)),
                "createdBy" := String(m.createdBy),
                "platform" := String(m.platform),
                "portableMode" := Boolean(m.portableMode),
                "redacted" := Boolean(m.redacted),
                "categories" := Object(categories),
                "warnings" := Array(warnings),
                "checksums" := Object(checksums)];
    if m.redactionMode != "" {
      root := root + map["redactionMode" := String(m.redactionMode)];
    }
  }

  /** Reading fails only when the file is missing or holds no JSON object. */
  method Read(files: Files, path: string, parse: string -> Option<int>) returns (m: Option<Manifest>)
    ensures m == if path in files && files[path].Doc? && files[path].json.Object?
                 then Some(FromJson(files[path].json.fields, parse)) else None
  {
    if path !in files || !files[path].Doc? || !files[path].json.Object? {
      return None;
    }
    var root := files[path].json.fields;

    var categories: map<string, Entry> := map[];
    var fields := ToObject(Value(root, "categories"));
    var todo := fields.Keys;
    while todo != {}
      invariant todo <= fields.Keys
      invariant categories == map k | k in fields && k !in todo :: EntryFromJson(ToObject(fields[k]))
      decreases todo
    {
      var k :| k in todo;
      categories := categories[k := EntryFromJson(ToObject(fields[k]))];
      todo := todo - {k};
    }
    assert categories == CategoriesFromJson(fields);

    var warnings: seq<string> := [];
    var items := ToArray(Value(root, "warnings"));
    for i := 0 to |items|
      invariant warnings == StringsFromJson(items)[..i]
    {
      warnings := warnings + [ToString(items[i])];
    }
    assert warnings == StringsFromJson(items);

    var checksums: map<string, string> := map[];
    var sums := ToObject(Value(root, "checksums"));
    todo := sums.Keys;
    while todo != {}
      invariant todo <= sums.Keys
      invariant checksums == map k | k in sums && k !in todo :: ToString(sums[k])
      decreases todo
    {
      var k :| k in todo;
      checksums := checksums[k := ToString(sums[k])];
      todo := todo - {k};
    }
    assert checksums == ChecksumsFromJson(sums);

    m := Some(FromJson(root, parse).(categories := categories, warnings := warnings, checksums := checksums));
  }

  /** How many items a JSON file holds, for the manifest's `count`. */
  function CountItems(c: Content): int {
    if !c.Doc? then -1
    else match c.json
      case Array(items) => |items|
      case Object(fields) =>
        if "profiles" in fields then |ToArray(fields["profiles"])|
        else if "items" in fields then |ToArray(fields["items"])|
        else if "custom" in fields then |ToArray(fields["custom"])|
        else -1
      case _ => -1
  }
}
