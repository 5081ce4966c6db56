/** Redaction of the staged profile and subscription files. */
module BackupRedactor {
  import opened Json
  import opened BackupModel

  const MASK := "<redacted>"
  const MASKED_HOST := "<redacted-host>"
  const MASKED_URL := "<redacted-url>"

  const SECRET_KEYS: seq<string> :=
    ["uuid", "uuidPassword", "password", "publicKey", "shortId", "preSharedKey", "obfsPassword"]
  const HOST_KEYS: seq<string> := ["address", "serverName", "sni", "host"]
  const URL_KEYS: seq<string> := ["url"]

  /** Which keys a pass overwrites, and with what. */
  datatype Pass = Pass(keys: seq<string>, mask: string)

  function Passes(c: Category, mode: RedactionMode): seq<Pass> {
    match c
    case Profiles =>
      [Pass(SECRET_KEYS, MASK)] + (if mode.Strict? then [Pass(HOST_KEYS, MASKED_HOST)] else [])
    case Subscriptions => [Pass(URL_KEYS, MASKED_URL)]
    case _ => []
  }

  /** Some pass overwrites this key. */
  predicate Hidden(k: string, passes: seq<Pass>) {
    exists i | 0 <= i < |passes| :: k in passes[i].keys
  }

  function MaskedBy(fields: Fields, pass: Pass): Fields {
    map k | k in fields :: if k in pass.keys then String(pass.mask) else fields[k]
  }

  function Masked(fields: Fields, passes: seq<Pass>): Fields {
    if passes == [] then fields
    else MaskedBy(Masked(fields, passes[..|passes| - 1]), passes[|passes| - 1])
  }

  /** The text a hidden key ends up with: that of the last pass naming it. */
  function MaskOf(k: string, passes: seq<Pass>): string
    requires Hidden(k, passes)
  {
    if k in passes[|passes| - 1].keys then passes[|passes| - 1].mask
    else
      assert Hidden(k, passes[..|passes| - 1]) by {
        var i :| 0 <= i < |passes| && k in passes[i].keys;
        assert passes[..|passes| - 1][i] == passes[i];
      }
      MaskOf(k, passes[..|passes| - 1])
  }

  /** Masking keeps the key set, overwrites exactly the hidden keys and touches nothing else. */
  lemma {:induction false} MaskedMeaning(fields: Fields, passes: seq<Pass>)
    ensures Masked(fields, passes).Keys == fields.Keys
    ensures forall k | k in fields ::
      Masked(fields, passes)[k] == (if Hidden(k, passes) then String(MaskOf(k, passes)) else fields[k])
  {
    if passes != [] {
      var front := passes[..|passes| - 1];
      MaskedMeaning(fields, front);
      forall k | k in fields
        ensures Hidden(k, passes) <==> Hidden(k, front) || k in passes[|passes| - 1].keys
      {
        if Hidden(k, front) {
          var i :| 0 <= i < |front| && k in front[i].keys;
          assert passes[i] == front[i];
        }
        if Hidden(k, passes) {
          var i :| 0 <= i < |passes| && k in passes[i].keys;
          assert i < |front| ==> front[i] == passes[i];
        }
      }
    }
  }

  /** The masked object reveals the keys and the values of the keys that are not hidden, and nothing more. */
  lemma MaskedReveals(a: Fields, b: Fields, passes: seq<Pass>)
    ensures Masked(a, passes) == Masked(b, passes) <==>
      a.Keys == b.Keys && forall k | k in a && !Hidden(k, passes) :: a[k] == b[k]
  {
    MaskedMeaning(a, passes);
    MaskedMeaning(b, passes);
    if Masked(a, passes) == Masked(b, passes) {
      assert a.Keys == Masked(a, passes).Keys == b.Keys;
      forall k | k in a && !Hidden(k, passes) ensures a[k] == b[k] {
        assert a[k] == Masked(a, passes)[k] == Masked(b, passes)[k];
      }
    }
  }

  lemma MaskedIdempotent(fields: Fields, passes: seq<Pass>)
    ensures Masked(Masked(fields, passes), passes) == Masked(fields, passes)
  {
    MaskedMeaning(fields, passes);
    MaskedMeaning(Masked(fields, passes), passes);
  }

  /** The report entries that masking one object adds. */
  function Reported(prefix: string, fields: Fields, passes: seq<Pass>): set<string> {
    set k | k in fields && Hidden(k, passes) :: prefix + k
  }

  predicate NoRepeats(s: seq<string>) {
    forall i, j | 0 <= i < j < |s| :: s[i] != s[j]
  }

  function Elements(s: seq<string>): set<string> {
    set x | x in s
  }

  method Track(report: seq<string>, field: string) returns (r: seq<string>)
    ensures NoRepeats(report) ==> NoRepeats(r)
    ensures Elements(r) == Elements(report) + {field}
  {
    r := report;
    if field !in report {
      r := report + [field];
    }
  }

  method RedactKeys(fields: Fields, pass: Pass, prefix: string, report: seq<string>)
    returns (result: Fields, r: seq<string>)
    ensures result == MaskedBy(fields, pass)
    ensures NoRepeats(report) ==> NoRepeats(r)
    ensures Elements(r) == Elements(report) + set k | k in fields && k in pass.keys :: prefix + k
  {
    result, r := fields, report;
    for i := 0 to |pass.keys|
      invariant result == MaskedBy(fields, Pass(pass.keys[..i], pass.mask))
      invariant NoRepeats(report) ==> NoRepeats(r)
      invariant Elements(r) == Elements(report) + set k | k in fields && k in pass.keys[..i] :: prefix + k
    {
      var key := pass.keys[i];
      assert pass.keys[..i + 1] == pass.keys[..i] + [key];
      if key in result {
        result := result[key := String(pass.mask)];
        r := Track(r, prefix + key);
      }
    }
    assert pass.keys[..|pass.keys|] == pass.keys;
  }

  method RedactObject(fields: Fields, passes: seq<Pass>, prefix: string, report: seq<string>)
    returns (result: Fields, r: seq<string>)
    ensures result == Masked(fields, passes)
    ensures NoRepeats(report) ==> NoRepeats(r)
    ensures Elements(r) == Elements(report) + Reported(prefix, fields, passes)
  {
    result, r := fields, report;
    for i := 0 to |passes|
      invariant result == Masked(fields, passes[..i])
      invariant NoRepeats(report) ==> NoRepeats(r)
      invariant Elements(r) == Elements(report) + Reported(prefix, fields, passes[..i])
    {
      MaskedMeaning(fields, passes[..i]);
      assert passes[..i + 1][..i] == passes[..i];
      ReportedStep(prefix, fields, passes, i);
      result, r := RedactKeys(result, passes[i], prefix, r);
    }
    assert passes[..|passes|] == passes;
  }

  lemma ReportedStep(prefix: string, fields: Fields, passes: seq<Pass>, i: nat)
    requires i < |passes|
    ensures Reported(prefix, fields, passes[..i + 1]) ==
      Reported(prefix, fields, passes[..i]) + set k | k in fields && k in passes[i].keys :: prefix + k
  {
    forall k | k in fields
      ensures Hidden(k, passes[..i + 1]) <==> Hidden(k, passes[..i]) || k in passes[i].keys
    {
      if Hidden(k, passes[..i]) {
        var j :| 0 <= j < i && k in passes[..i][j].keys;
        assert passes[..i + 1][j] == passes[..i][j];
      }
      if k in passes[i].keys {
        assert passes[..i + 1][i] == passes[i];
      }
      if Hidden(k, passes[..i + 1]) {
        var j :| 0 <= j < i + 1 && k in passes[..i + 1][j].keys;
        assert j < i ==> passes[..i][j] == passes[..i + 1][j];
      }
    }
  }

  // ---------- whole files ----------

  /** Only the two lists have passes, and only when the document is an array at its root. */
  function RedactedItems(items: seq<Json>, passes: seq<Pass>): seq<Json> {
    seq(|items|, i requires 0 <= i < |items| => Object(Masked(ToObject(items[i]), passes)))
  }

  predicate Rewrites(c: Category, content: Content, mode: RedactionMode) {
    content.Doc? && content.json.Array? && Passes(c, mode) != []
  }

  function RedactedContent(c: Category, content: Content, mode: RedactionMode): Content {
    if Rewrites(c, content, mode) then
      Doc(Array(RedactedItems(content.json.items, Passes(c, mode))))
    else content
  }

  function ReportPrefix(c: Category): string {
    if c.Profiles? then "profiles." else "subscriptions."
  }

  function ReportedItems(prefix: string, items: seq<Json>, passes: seq<Pass>): set<string> {
    set i, k | 0 <= i < |items| && k in ToObject(items[i]) && Hidden(k, passes) :: prefix + k
  }

  function ReportedContent(c: Category, content: Content, mode: RedactionMode): set<string> {
    if Rewrites(c, content, mode) then
      ReportedItems(ReportPrefix(c), content.json.items, Passes(c, mode))
    else {}
  }

  method RedactItems(items: seq<Json>, passes: seq<Pass>, prefix: string, report: seq<string>)
    returns (output: seq<Json>, r: seq<string>)
    ensures output == RedactedItems(items, passes)
    ensures NoRepeats(report) ==> NoRepeats(r)
    ensures Elements(r) == Elements(report) + ReportedItems(prefix, items, passes)
  {
    output, r := [], report;
    for i := 0 to |items|
      invariant output == RedactedItems(items, passes)[..i]
      invariant NoRepeats(report) ==> NoRepeats(r)
      invariant Elements(r) == Elements(report) + ReportedItems(prefix, items[..i], passes)
    {
      var fields;
      fields, r := RedactObject(ToObject(items[i]), passes, prefix, r);
      output := output + [Object(fields)];
      ReportedItemsStep(prefix, items, passes, i);
    }
    assert output == RedactedItems(items, passes);
    assert items[..|items|] == items;
  }

  /**
   Fails on a missing file, on one that is no JSON document, and when a file that has to change cannot be opened
   for writing again; otherwise rewrites the file. The report grows before the file is opened again.
   */
  method RedactFile(files: Files, path: string, reopens: bool, c: Category, mode: RedactionMode, report: seq<string>)
    returns (ok: bool, result: Files, r: seq<string>)
    ensures ok <==>
      mode.NoRedaction? || (path in files && IsDocument(files[path]) && (Rewrites(c, files[path], mode) ==> reopens))
    ensures !ok || mode.NoRedaction? ==> result == files
    ensures ok && !mode.NoRedaction? ==> result == files[path := RedactedContent(c, files[path], mode)]
    ensures NoRepeats(report) ==> NoRepeats(r)
    ensures mode.NoRedaction? || path !in files || !IsDocument(files[path]) ==> r == report
    ensures !mode.NoRedaction? && path in files && IsDocument(files[path]) ==>
      Elements(r) == Elements(report) + ReportedContent(c, files[path], mode)
  {
    ok, result, r := true, files, report;
    if mode.NoRedaction? {
      return;
    }
    if path !in files || !IsDocument(files[path]) {
      ok := false;
      return;
    }
    var passes := Passes(c, mode);
    if !files[path].json.Array? || passes == [] {
      assert files == files[path := files[path]];
      return;
    }
    var output;
    output, r := RedactItems(files[path].json.items, passes, ReportPrefix(c), report);
    if !reopens {
      ok := false;
      return;
    }
    result := files[path := Doc(Array(output))];
  }

  lemma ReportedItemsStep(prefix: string, items: seq<Json>, passes: seq<Pass>, i: nat)
    requires i < |items|
    ensures ReportedItems(prefix, items[..i + 1], passes) ==
      ReportedItems(prefix, items[..i], passes) + Reported(prefix, ToObject(items[i]), passes)
  {
    var next, prev, here := ReportedItems(prefix, items[..i + 1], passes), ReportedItems(prefix, items[..i], passes),
                            Reported(prefix, ToObject(items[i]), passes);
    forall f | f in next ensures f in prev + here {
      var j, k :| 0 <= j < |items[..i + 1]| && k in ToObject(items[..i + 1][j]) && Hidden(k, passes) && f == prefix + k;
      if j < i {
        assert items[..i][j] == items[..i + 1][j];
      }
    }
    forall f | f in prev ensures f in next {
      var j, k :| 0 <= j < |items[..i]| && k in ToObject(items[..i][j]) && Hidden(k, passes) && f == prefix + k;
      assert items[..i + 1][j] == items[..i][j];
    }
    forall f | f in here ensures f in next {
      var k :| k in ToObject(items[i]) && Hidden(k, passes) && f == prefix + k;
      assert items[..i + 1][i] == items[i];
    }
  }

  // ---------- which keys are hidden, and by what ----------

  lemma Listing()
    ensures SECRET_KEYS == ["uuid", "uuidPassword", "password", "publicKey", "shortId", "preSharedKey", "obfsPassword"]
    ensures HOST_KEYS == ["address", "serverName", "sni", "host"] && URL_KEYS == ["url"]
  {
  }

  lemma HiddenIn(k: string, a: Pass, b: Pass)
    ensures Hidden(k, [a]) <==> k in a.keys
    ensures Hidden(k, [a, b]) <==> k in a.keys || k in b.keys
  {
    if k in a.keys {
      assert k in [a][0].keys && k in [a, b][0].keys;
    }
    if k in b.keys {
      assert k in [a, b][1].keys;
    }
  }

  lemma ProfilePasses(mode: RedactionMode)
    ensures var a, b := Pass(SECRET_KEYS, MASK), Pass(HOST_KEYS, MASKED_HOST);
      Passes(Profiles, mode) == if mode.Strict? then [a, b] else [a]
  {
    var a, b := Pass(SECRET_KEYS, MASK), Pass(HOST_KEYS, MASKED_HOST);
    assert [a] + [b] == [a, b] && [a] + [] == [a];
  }

  /** In a profile the credentials are hidden in every redacted backup, the hosts only in a strict one. */
  lemma ProfileKeysHidden(mode: RedactionMode, k: string)
    ensures Hidden(k, Passes(Profiles, mode)) <==>
      || k in ["uuid", "uuidPassword", "password", "publicKey", "shortId", "preSharedKey", "obfsPassword"]
      || (mode.Strict? && k in ["address", "serverName", "sni", "host"])
  {
    HiddenIn(k, Pass(SECRET_KEYS, MASK), Pass(HOST_KEYS, MASKED_HOST));
    ProfilePasses(mode);
    Listing();
  }

  /** In a subscription exactly the address is hidden; no other list hides anything. */
  lemma OtherKeysHidden(c: Category, mode: RedactionMode, k: string)
    requires !c.Profiles?
    ensures Hidden(k, Passes(c, mode)) <==> c.Subscriptions? && k == "url"
  {
    HiddenIn(k, Pass(URL_KEYS, MASKED_URL), Pass(URL_KEYS, MASKED_URL));
    Listing();
  }

  lemma HostsApart()
    ensures forall k | k in HOST_KEYS :: k !in SECRET_KEYS
  {
    assert forall k | k in HOST_KEYS :: k == "address" || k == "serverName" || k == "sni" || k == "host";
    assert "uuid"[0] == 'u' && "host"[0] == 'h' && "address"[0] == 'a' && "shortId"[0] == 's';
  }

  /** A hidden credential becomes the plain mask, a hidden host and a subscription's address their own. */
  lemma MasksChosen(mode: RedactionMode, k: string)
    ensures k in SECRET_KEYS ==> Hidden(k, Passes(Profiles, mode)) && MaskOf(k, Passes(Profiles, mode)) == "<redacted>"
    ensures mode.Strict? && k in HOST_KEYS ==>
      Hidden(k, Passes(Profiles, mode)) && MaskOf(k, Passes(Profiles, mode)) == "<redacted-host>"
    ensures k == "url" ==>
      Hidden(k, Passes(Subscriptions, mode)) && MaskOf(k, Passes(Subscriptions, mode)) == "<redacted-url>"
  {
    var a, b, u := Pass(SECRET_KEYS, MASK), Pass(HOST_KEYS, MASKED_HOST), Pass(URL_KEYS, MASKED_URL);
    HiddenIn(k, a, b);
    HiddenIn(k, u, u);
    ProfilePasses(mode);
    HostsApart();
    assert [a, b][..1] == [a];
    assert URL_KEYS[0] == "url";
  }

  lemma ItemReported(prefix: string, items: seq<Json>, passes: seq<Pass>, field: string)
    ensures field in ReportedItems(prefix, items, passes) <==>
      exists i, k :: 0 <= i < |items| && k in ToObject(items[i]) && Hidden(k, passes) && field == prefix + k
  {
  }

  /** The report names each hidden field that some record has, under the name of its list. */
  lemma FieldsReported(c: Category, items: seq<Json>, mode: RedactionMode, field: string)
    requires c.Profiles? || c.Subscriptions?
    ensures field in ReportedContent(c, Doc(Array(items)), mode) <==>
      exists i, k :: 0 <= i < |items| && k in ToObject(items[i]) && Hidden(k, Passes(c, mode))
                     && field == (if c.Profiles? then "profiles." else "subscriptions.") + k
  {
    ItemReported(ReportPrefix(c), items, Passes(c, mode), field);
  }

  // ---------- what a redacted file still shows ----------

  /** The objects of a profile or subscription file: its root array, or the list its store keeps under `key`. */
  function Records(content: Content, key: string): seq<Json> {
    if content.Doc? && content.json.Array? then content.json.items
    else if content.Doc? && content.json.Object? then ToArray(Value(content.json.fields, key))
    else []
  }

  /** No record shows the value of a hidden key. */
  ghost predicate ShowsNothingHidden(content: Content, key: string, passes: seq<Pass>) {
    var records := Records(content, key);
    forall i, k | 0 <= i < |records| && k in ToObject(records[i]) && Hidden(k, passes) ::
      ToObject(records[i])[k] == String(MaskOf(k, passes))
  }

  /**
   A redacted list hides what it should exactly when its root is an array, or it had nothing to hide.
   A list kept under a key of a root object, as the profile and subscription stores write it, stays as it is.
   */
  lemma RedactionReachesArrays(c: Category, content: Content, mode: RedactionMode, key: string)
    requires c.Profiles? || c.Subscriptions?
    ensures var passes := Passes(c, mode);
      ShowsNothingHidden(RedactedContent(c, content, mode), key, passes)
      <==> (content.Doc? && content.json.Array?) || ShowsNothingHidden(content, key, passes)
  {
    var passes := Passes(c, mode);
    if content.Doc? && content.json.Array? {
      var items := content.json.items;
      forall i, k | 0 <= i < |items| && k in Masked(ToObject(items[i]), passes) && Hidden(k, passes)
        ensures Masked(ToObject(items[i]), passes)[k] == String(MaskOf(k, passes))
      {
        MaskedMeaning(ToObject(items[i]), passes);
      }
    }
  }

  /** A profile store with one password, in the shape the store writes: an object holding the list. */
  const STORE_SAMPLE := Doc(Object(map["profiles" := Array([Object(map["password" := String("secret")])])]))

  /** Its redaction still shows the password, in every mode. */
  lemma StoreSampleShows(mode: RedactionMode)
    ensures RedactedContent(Profiles, STORE_SAMPLE, mode) == STORE_SAMPLE
    ensures !ShowsNothingHidden(RedactedContent(Profiles, STORE_SAMPLE, mode), "profiles", Passes(Profiles, mode))
  {
    var passes := Passes(Profiles, mode);
    var record := Records(STORE_SAMPLE, "profiles")[0];
    assert SECRET_KEYS[2] == "password" && passes[0].keys == SECRET_KEYS;
    assert Hidden("password", passes);
    PasswordMask(passes);
    assert "password" in ToObject(record);
    assert ToObject(record)["password"] == String("secret");
    assert "secret"[0] != MASK[0];
  }

  lemma PasswordMask(passes: seq<Pass>)
    requires passes == [Pass(SECRET_KEYS, MASK)] || passes == [Pass(SECRET_KEYS, MASK), Pass(HOST_KEYS, MASKED_HOST)]
    requires Hidden("password", passes)
    ensures MaskOf("password", passes) == MASK
  {
    assert "password" in SECRET_KEYS by {
      assert SECRET_KEYS[2] == "password";
    }
    assert "password" !in HOST_KEYS by {
      assert forall k | k in HOST_KEYS :: k == "address" || k == "serverName" || k == "sni" || k == "host";
    }
  }

  /** Redacting a redacted file changes nothing. */
  lemma RedactionIdempotent(c: Category, content: Content, mode: RedactionMode)
    ensures RedactedContent(c, RedactedContent(c, content, mode), mode) == RedactedContent(c, content, mode)
  {
    var passes := Passes(c, mode);
    if content.Doc? && content.json.Array? && passes != [] {
      var items := content.json.items;
      var once := RedactedItems(items, passes);
      forall i | 0 <= i < |items| ensures RedactedItems(once, passes)[i] == once[i] {
        MaskedIdempotent(ToObject(items[i]), passes);
      }
      assert RedactedItems(once, passes) == once;
    }
  }
}
