/** Sealing a staged backup into an archive, and the gate an archive passes before it is imported. */
module BackupArchive {
  import opened Json
  import opened Text
  import opened BackupModel
  import opened BackupExporter
  import BackupManifest
  import BackupRedactor
  import BackupValidator

  datatype Options = Options(outputPath: string, diagnosticBackup: bool, mode: RedactionMode, categories: set<Category>)

  /** The program's own data, and whether the temporary directory and the archiver work. */
  datatype Info = Info(
    appVersion: string,
    now: Option<int>,
    platform: string,
    portable: bool,
    appInfo: Fields,
    paths: Fields,
    tempOk: bool,
    zipOk: bool)

  const DEFAULT_CATEGORIES := {Profiles, Subscriptions, RoutingProfiles, DnsProfiles, AppSettings, GeoDataSettings,
                               RuleSetMetadata, CoreMetadata}

  function EffectiveMode(options: Options): RedactionMode {
    if options.diagnosticBackup then Strict else options.mode
  }

  function EffectiveCategories(options: Options): set<Category> {
    if options.categories == {} then DEFAULT_CATEGORIES else options.categories
  }

  function ModeText(mode: RedactionMode): string {
    if mode.Strict? then "strict" else "basic"
  }

  // ---------- sealing ----------

  /** Entries whose file gets a checksum: included, not a directory, and present. */
  predicate Listed(e: Entry, files: Files) {
    e.included && e.file != "" && !EndsWith(e.file, "/") && e.file in files
  }

  function Sums(entries: map<string, Entry>, files: Files, sha: Content -> string): map<string, string> {
    map f | f in (set k | k in entries && Listed(entries[k], files) :: entries[k].file) ::
      BackupValidator.Checksum(files[f], sha)
  }

  /** The report always names strict redaction unless some file went through the redactor. */
  function ReportDocument(report: seq<string>, touched: bool, mode: RedactionMode): Content {
    Doc(Object(map["mode" := String(ModeText(if touched then mode else Strict)),
                   "redactedFields" := Array(BackupManifest.StringsToJson(report))]))
  }

  function ReportFiles(report: seq<string>, touched: bool, mode: RedactionMode): Files {
    if mode.NoRedaction? then map[] else map[REPORT_PATH := ReportDocument(report, touched, mode)]
  }

  function DiagnosticFiles(env: Env, info: Info): Files {
    (if APP_INFO_PATH in env.writable then map[APP_INFO_PATH := Doc(Object(info.appInfo))] else map[])
    + (if PATHS_PATH in env.writable then map[PATHS_PATH := Doc(Object(info.paths))] else map[])
  }

  /** Everything in the staging directory when the checksums are taken. */
  function Staging(s: Stage, report: seq<string>, mode: RedactionMode, env: Env, info: Info): Files {
    s.files + ReportFiles(report, s.touched, mode) + DiagnosticFiles(env, info)
  }

  function BuildManifest(s: Stage, staging: Files, mode: RedactionMode, info: Info, sha: Content -> string): Manifest {
    Manifest(FORMAT, FORMAT_VERSION, "Zarya", info.appVersion, info.now, "Zarya", info.platform, info.portable,
             !mode.NoRedaction?, if mode.NoRedaction? then "" else ModeText(mode),
             s.entries, [], Sums(s.entries, staging, sha))
  }

  function Seal(s: Stage, report: seq<string>, mode: RedactionMode, env: Env, info: Info,
                sha: Content -> string, iso: int -> string): Files {
    var staging := Staging(s, report, mode, env, info);
    AddManifest(staging, BuildManifest(s, staging, mode, info, sha), iso)
  }

  function AddManifest(staging: Files, m: Manifest, iso: int -> string): Files {
    staging[MANIFEST_PATH := Doc(Object(BackupManifest.ToJson(m, iso)))]
  }

  // ---------- the import gate ----------

  ghost predicate Readable(archive: Files) {
    MANIFEST_PATH in archive && archive[MANIFEST_PATH].Doc? && archive[MANIFEST_PATH].json.Object?
  }

  /** The manifest of an archive as the importer reads it. */
  ghost function ManifestOf(archive: Files, parse: string -> Option<int>): Manifest
    requires Readable(archive)
  {
    BackupManifest.FromJson(archive[MANIFEST_PATH].json.fields, parse)
  }

  ghost predicate SumsHold(m: Manifest, files: Files, sha: Content -> string) {
    forall path | path in m.checksums :: BackupValidator.ChecksumHolds(files, path, m.checksums[path], sha)
  }

  ghost predicate PassesGate(archive: Files, sha: Content -> string, parse: string -> Option<int>) {
    && Readable(archive)
    && BackupValidator.Importable(ManifestOf(archive, parse))
    && SumsHold(ManifestOf(archive, parse), archive, sha)
  }

  /** `extracted` are the files of the archive, or None when it cannot be unpacked. */
  method ExtractAndLoadManifest(extracted: Option<Files>, appVersion: string, sha: Content -> string,
                                parse: string -> Option<int>) returns (manifest: Option<Manifest>)
    ensures manifest.Some? <==> extracted.Some? && PassesGate(extracted.value, sha, parse)
    ensures manifest.Some? ==> manifest.value == ManifestOf(extracted.value, parse)
  {
    if extracted.None? {
      return None;
    }
    var archive := extracted.value;
    manifest := BackupManifest.Read(archive, MANIFEST_PATH, parse);
    if manifest.None? {
      return;
    }
    var validation := BackupValidator.ValidateManifest(manifest.value, appVersion);
    if !validation.valid {
      return None;
    }
    var ok, _ := BackupValidator.VerifyChecksums(manifest.value, archive, sha);
    if !ok {
      return None;
    }
  }

  // ---------- every export passes its own gate ----------

  lemma ArchivePathNotReserved(c: Category)
    ensures ArchivePath(c) != MANIFEST_PATH && ArchivePath(c) != REPORT_PATH
    ensures ArchivePath(c) != APP_INFO_PATH && ArchivePath(c) != PATHS_PATH
  {
    assert |ArchivePath(c)| > 12;
    assert ArchivePath(c)[0] == 'd' || ArchivePath(c)[0] == 'o';
    assert ArchivePath(c)[1] == 'i' ==> ArchivePath(c)[12] == 'l';
  }

  lemma OwnedNotReserved(c: Category, p: string)
    requires Owns(c, p)
    ensures p !in {MANIFEST_PATH, REPORT_PATH, APP_INFO_PATH, PATHS_PATH}
  {
    ArchivePathNotReserved(c);
    if IsDirectory(c) {
      assert p[0] == ArchivePath(c)[0] == 'o';
    }
  }

  /** No checksummed path is the manifest's own. */
  lemma SumsAvoidManifest(order: seq<Category>, env: Env, mode: RedactionMode, files: Files, sha: Content -> string)
    requires StageAll(order, Outcomes(env, mode)).Some?
    ensures MANIFEST_PATH !in Sums(StageAll(order, Outcomes(env, mode)).value.entries, files, sha)
  {
    var o := Outcomes(env, mode);
    var s := StageAll(order, o).value;
    OutcomesDisjoint(env, mode);
    StageMeaning(order, o);
    forall k | k in s.entries ensures s.entries[k].file != MANIFEST_PATH {
      var c :| StagedIn(c, order, o) && k == CategoryKey(c);
      OutcomeOwned(c, env, mode);
      ArchivePathNotReserved(c);
    }
  }

  /** Sums taken from files keep holding after a manifest is added beside them. */
  lemma SumsKeepHolding(entries: map<string, Entry>, files: Files, manifest: Content, sha: Content -> string)
    requires MANIFEST_PATH !in Sums(entries, files, sha)
    ensures var sums := Sums(entries, files, sha);
      forall f | f in sums :: BackupValidator.ChecksumHolds(files[MANIFEST_PATH := manifest], f, sums[f], sha)
  {
  }

  lemma ManifestReadsBack(staging: Files, m: Manifest, iso: int -> string, parse: string -> Option<int>)
    ensures Readable(AddManifest(staging, m, iso))
    ensures var read := ManifestOf(AddManifest(staging, m, iso), parse);
      && read == BackupManifest.Normal(m).(createdAt := read.createdAt)
      && (read == BackupManifest.Normal(m) <==> BackupManifest.ClockAgrees(m.createdAt, iso, parse))
  {
    BackupManifest.ReadsBack(m, iso, parse);
    BackupManifest.RoundTrip(m, iso, parse);
  }

  lemma GateFromManifest(archive: Files, m: Manifest, sha: Content -> string, parse: string -> Option<int>)
    requires Readable(archive) && ManifestOf(archive, parse) == m
    requires BackupValidator.Importable(m) && SumsHold(m, archive, sha)
    ensures PassesGate(archive, sha, parse)
  {
  }

  /**
   Every sealed export passes the gate of its own importer, whatever the clock. The importer reads back exactly the
   manifest that was built, up to whole seconds, if and only if the clock agrees on the time of the export.
   */
  lemma ExportPassesGate(order: seq<Category>, report: seq<string>, mode: RedactionMode, env: Env, info: Info,
                         sha: Content -> string, iso: int -> string, parse: string -> Option<int>)
    requires StageAll(order, Outcomes(env, mode)).Some?
    ensures var s := StageAll(order, Outcomes(env, mode)).value;
      var archive := Seal(s, report, mode, env, info, sha, iso);
      var m := BuildManifest(s, Staging(s, report, mode, env, info), mode, info, sha);
      && PassesGate(archive, sha, parse)
      && (ManifestOf(archive, parse) == BackupManifest.Normal(m) <==> BackupManifest.ClockAgrees(info.now, iso, parse))
  {
    var s := StageAll(order, Outcomes(env, mode)).value;
    var staging := Staging(s, report, mode, env, info);
    var m := BuildManifest(s, staging, mode, info, sha);
    SumsAvoidManifest(order, env, mode, staging, sha);
    SealedPassesGate(s.entries, staging, m, sha, iso, parse);
    ManifestReadsBack(staging, m, iso, parse);
  }

  lemma SealedPassesGate(entries: map<string, Entry>, staging: Files, m: Manifest,
                         sha: Content -> string, iso: int -> string, parse: string -> Option<int>)
    requires BackupValidator.Importable(m) && m.checksums == Sums(entries, staging, sha)
    requires MANIFEST_PATH !in m.checksums
    ensures PassesGate(AddManifest(staging, m, iso), sha, parse)
  {
    var archive := AddManifest(staging, m, iso);
    ManifestReadsBack(staging, m, iso, parse);
    SumsKeepHolding(entries, staging, archive[MANIFEST_PATH], sha);
    GateFromManifest(archive, ManifestOf(archive, parse), sha, parse);
  }

  /** No later write lands on a path that a category owns. */
  lemma StagedNotReserved(order: seq<Category>, env: Env, mode: RedactionMode, p: string)
    requires StageAll(order, Outcomes(env, mode)).Some? && p in StageAll(order, Outcomes(env, mode)).value.files
    ensures p !in {MANIFEST_PATH, REPORT_PATH, APP_INFO_PATH, PATHS_PATH}
  {
    var o := Outcomes(env, mode);
    OutcomesDisjoint(env, mode);
    StageMeaning(order, o);
    assert Contributed(p, order, o);
    var c :| StagedIn(c, order, o) && p in o(c).files;
    OutcomeOwned(c, env, mode);
    OwnedNotReserved(c, p);
  }

  lemma EntryNotReport(order: seq<Category>, env: Env, mode: RedactionMode, k: string)
    requires StageAll(order, Outcomes(env, mode)).Some? && k in StageAll(order, Outcomes(env, mode)).value.entries
    ensures StageAll(order, Outcomes(env, mode)).value.entries[k].file != REPORT_PATH
  {
    var o := Outcomes(env, mode);
    OutcomesDisjoint(env, mode);
    StageMeaning(order, o);
    var c :| StagedIn(c, order, o) && k == CategoryKey(c);
    OutcomeOwned(c, env, mode);
    ArchivePathNotReserved(c);
  }

  lemma LaterWritesMissData(s: Stage, report: seq<string>, mode: RedactionMode, env: Env, info: Info, p: string,
                            manifest: Content)
    requires p in s.files && p !in {MANIFEST_PATH, REPORT_PATH, APP_INFO_PATH, PATHS_PATH}
    ensures var archive := Staging(s, report, mode, env, info)[MANIFEST_PATH := manifest];
      p in archive && archive[p] == s.files[p]
  {
  }

  /** No later write disturbs a staged data file: the archive holds each one as it was staged. */
  lemma DataFilesSurvive(order: seq<Category>, report: seq<string>, mode: RedactionMode, env: Env, info: Info,
                         sha: Content -> string, iso: int -> string, p: string)
    requires StageAll(order, Outcomes(env, mode)).Some? && p in StageAll(order, Outcomes(env, mode)).value.files
    ensures var s := StageAll(order, Outcomes(env, mode)).value;
      var archive := Seal(s, report, mode, env, info, sha, iso);
      p in archive && archive[p] == s.files[p]
  {
    var s := StageAll(order, Outcomes(env, mode)).value;
    StagedNotReserved(order, env, mode, p);
    LaterWritesMissData(s, report, mode, env, info, p, Seal(s, report, mode, env, info, sha, iso)[MANIFEST_PATH]);
  }

  lemma ListStaged(order: seq<Category>, mode: RedactionMode, env: Env, c: Category)
    requires StageAll(order, Outcomes(env, mode)).Some? && c in order
    requires (c.Profiles? || c.Subscriptions?) && !mode.NoRedaction?
    ensures var files := StageAll(order, Outcomes(env, mode)).value.files;
      ArchivePath(c) in files && files[ArchivePath(c)] == BackupRedactor.RedactedContent(c, ListContent(c, env), mode)
  {
    var o := Outcomes(env, mode);
    ListOutcome(c, env, mode);
    StageVerdict(order, o);
    OutcomesDisjoint(env, mode);
    StagedFile(order, o, c, ArchivePath(c));
  }

  /** Which file of the archive a redacted list ends up in, and what it is. */
  lemma ListInArchive(order: seq<Category>, report: seq<string>, mode: RedactionMode, env: Env, info: Info,
                      sha: Content -> string, iso: int -> string, c: Category)
    requires StageAll(order, Outcomes(env, mode)).Some? && c in order
    requires (c.Profiles? || c.Subscriptions?) && !mode.NoRedaction?
    ensures var archive := Seal(StageAll(order, Outcomes(env, mode)).value, report, mode, env, info, sha, iso);
      && ArchivePath(c) in archive
      && archive[ArchivePath(c)] == BackupRedactor.RedactedContent(c, ListContent(c, env), mode)
  {
    ListStaged(order, mode, env, c);
    DataFilesSurvive(order, report, mode, env, info, sha, iso, ArchivePath(c));
  }

  /**
   The profile or subscription list in the archive of a successful redacted export shows nothing that should be
   hidden if and only if its store is missing, is an array at its root, or had nothing to hide.
   */
  lemma ArchiveHides(order: seq<Category>, report: seq<string>, mode: RedactionMode, env: Env, info: Info,
                     sha: Content -> string, iso: int -> string, c: Category, key: string)
    requires StageAll(order, Outcomes(env, mode)).Some? && c in order
    requires (c.Profiles? || c.Subscriptions?) && !mode.NoRedaction?
    ensures var archive := Seal(StageAll(order, Outcomes(env, mode)).value, report, mode, env, info, sha, iso);
      && ArchivePath(c) in archive
      && (BackupRedactor.ShowsNothingHidden(archive[ArchivePath(c)], key, BackupRedactor.Passes(c, mode))
          <==> Hideable(c, env, mode, key))
  {
    ListInArchive(order, report, mode, env, info, sha, iso, c);
    ListHides(c, env, mode, key);
  }

  /** In particular every successful redacted export of the sample store shows its password. */
  lemma SamplePasswordExported(order: seq<Category>, report: seq<string>, mode: RedactionMode, env: Env, info: Info,
                               sha: Content -> string, iso: int -> string)
    requires StageAll(order, Outcomes(env, mode)).Some? && Profiles in order && !mode.NoRedaction?
    requires Profiles in env.stores && env.stores[Profiles] == BackupRedactor.STORE_SAMPLE
    ensures var archive := Seal(StageAll(order, Outcomes(env, mode)).value, report, mode, env, info, sha, iso);
      ArchivePath(Profiles) in archive && archive[ArchivePath(Profiles)] == BackupRedactor.STORE_SAMPLE
  {
    ListInArchive(order, report, mode, env, info, sha, iso, Profiles);
    BackupRedactor.StoreSampleShows(mode);
  }

  lemma SumsIgnoreReport(entries: map<string, Entry>, a: Files, b: Files, sha: Content -> string)
    requires a - {REPORT_PATH} == b - {REPORT_PATH}
    requires forall k | k in entries :: entries[k].file != REPORT_PATH
    ensures Sums(entries, a, sha) == Sums(entries, b, sha)
  {
    forall f | f != REPORT_PATH ensures (f in a <==> f in b) && (f in a ==> a[f] == b[f]) {
      assert f in a <==> f in a - {REPORT_PATH};
      assert f in b <==> f in b - {REPORT_PATH};
      assert f in a ==> (a - {REPORT_PATH})[f] == a[f] && (b - {REPORT_PATH})[f] == b[f];
    }
    forall k | k in entries ensures Listed(entries[k], a) <==> Listed(entries[k], b) {
    }
    assert Sums(entries, a, sha).Keys == Sums(entries, b, sha).Keys;
  }

  /** Outside the redaction report, the archive does not depend on the iteration order of the category set. */
  lemma ArchiveOrderIndependent(order: seq<Category>, other: seq<Category>, report: seq<string>,
                                otherReport: seq<string>,
                                mode: RedactionMode, env: Env, info: Info, sha: Content -> string, iso: int -> string)
    requires forall c :: c in order <==> c in other
    requires StageAll(order, Outcomes(env, mode)).Some?
    ensures StageAll(other, Outcomes(env, mode)).Some?
    ensures Seal(StageAll(order, Outcomes(env, mode)).value, report, mode, env, info, sha, iso) - {REPORT_PATH}
         == Seal(StageAll(other, Outcomes(env, mode)).value, otherReport, mode, env, info, sha, iso) - {REPORT_PATH}
  {
    OrderIndependent(order, other, env, mode);
    var s := StageAll(order, Outcomes(env, mode)).value;
    forall k | k in s.entries ensures s.entries[k].file != REPORT_PATH {
      EntryNotReport(order, env, mode, k);
    }
    SealIgnoresReport(s, report, otherReport, mode, env, info, sha, iso);
  }

  lemma StagingIgnoresReport(s: Stage, report: seq<string>, other: seq<string>,
                               mode: RedactionMode, env: Env, info: Info)
    ensures Staging(s, report, mode, env, info) - {REPORT_PATH} == Staging(s, other, mode, env, info) - {REPORT_PATH}
  {
    MiddleIgnored(s.files, ReportFiles(report, s.touched, mode), ReportFiles(other, s.touched, mode),
                  DiagnosticFiles(env, info), REPORT_PATH);
  }

  lemma MiddleIgnored(a: Files, r: Files, t: Files, d: Files, path: string)
    requires r.Keys <= {path} && t.Keys <= {path}
    ensures a + r + d - {path} == a + t + d - {path}
  {
  }

  lemma SealIgnoresReport(s: Stage, report: seq<string>, other: seq<string>, mode: RedactionMode, env: Env, info: Info,
                          sha: Content -> string, iso: int -> string)
    requires forall k | k in s.entries :: s.entries[k].file != REPORT_PATH
    ensures Seal(s, report, mode, env, info, sha, iso) - {REPORT_PATH}
      == Seal(s, other, mode, env, info, sha, iso) - {REPORT_PATH}
  {
    var a, b := Staging(s, report, mode, env, info), Staging(s, other, mode, env, info);
    StagingIgnoresReport(s, report, other, mode, env, info);
    SumsIgnoreReport(s.entries, a, b, sha);
    assert BuildManifest(s, a, mode, info, sha) == BuildManifest(s, b, mode, info, sha);
    UpdateCommutes(a, b, Seal(s, report, mode, env, info, sha, iso)[MANIFEST_PATH]);
  }

  lemma UpdateCommutes(a: Files, b: Files, manifest: Content)
    requires a - {REPORT_PATH} == b - {REPORT_PATH}
    ensures a[MANIFEST_PATH := manifest] - {REPORT_PATH} == b[MANIFEST_PATH := manifest] - {REPORT_PATH}
  {
    assert |MANIFEST_PATH| != |REPORT_PATH|;
    assert a[MANIFEST_PATH := manifest] - {REPORT_PATH} == (a - {REPORT_PATH})[MANIFEST_PATH := manifest];
    assert b[MANIFEST_PATH := manifest] - {REPORT_PATH} == (b - {REPORT_PATH})[MANIFEST_PATH := manifest];
  }

  // ---------- the exporter's loops ----------

  method StageDirectory(c: Category, files: Files, env: Env) returns (staged: Option<Files>)
    ensures staged == AllFiles(c, files, env)
  {
    var copied: Files := map[];
    var todo := files.Keys;
    while todo != {}
      invariant todo <= files.Keys
      invariant copied == InDirectory(c, files - todo)
      invariant copied.Keys <= env.writable
      decreases todo
    {
      var name :| name in todo;
      var path := ArchivePath(c) + name;
      if path !in env.writable {
        assert path in InDirectory(c, files);
        return None;
      }
      InDirectoryStep(c, files, todo, name);
      copied := copied[path := files[name]];
      todo := todo - {name};
    }
    assert files - {} == files;
    staged := Some(copied);
  }

  lemma InDirectoryStep(c: Category, files: Files, todo: set<string>, name: string)
    requires todo <= files.Keys && name in todo
    ensures InDirectory(c, files - (todo - {name}))
      == InDirectory(c, files - todo)[ArchivePath(c) + name := files[name]]
  {
    var path := ArchivePath(c) + name;
    assert path[|ArchivePath(c)|..] == name;
    forall n: string ensures (ArchivePath(c) + n)[|ArchivePath(c)|..] == n {
    }
    assert InDirectory(c, files - (todo - {name})).Keys == InDirectory(c, files - todo).Keys + {path};
  }

  method StageSettings(env: Env) returns (values: map<string, string>)
    ensures values == map k | k in env.settings && k !in SESSION_KEYS :: env.settings[k]
  {
    values := map[];
    var todo := env.settings.Keys;
    while todo != {}
      invariant todo <= env.settings.Keys
      invariant values == map k | k in env.settings && k !in todo && k !in SESSION_KEYS :: env.settings[k]
      decreases todo
    {
      var k :| k in todo;
      todo := todo - {k};
      if k in SESSION_KEYS {
        continue;
      }
      values := values[k := env.settings[k]];
    }
  }

  /** Writing one file of the staging directory. */
  method WriteFile(path: string, content: Content, env: Env) returns (staged: Option<Files>)
    ensures staged == if path in env.writable then Some(map[path := content]) else None
  {
    if path !in env.writable {
      return None;
    }
    staged := Some(map[path := content]);
  }

  /** A store file is copied; a missing one is staged as an empty array. */
  method CopyOrEmptyArray(c: Category, env: Env) returns (staged: Option<Files>)
    ensures staged == OneFile(c, if c in env.stores then env.stores[c] else Doc(Array([])), env)
  {
    if c !in env.stores {
      staged := WriteFile(ArchivePath(c), Doc(Array([])), env);
    } else {
      staged := WriteFile(ArchivePath(c), env.stores[c], env);
    }
  }

  method StageCategory(c: Category, env: Env) returns (staged: Option<Files>)
    ensures staged == StagedFiles(c, env)
  {
    match c {
      case Profiles => staged := CopyOrEmptyArray(c, env);
      case Subscriptions => staged := CopyOrEmptyArray(c, env);
      case RoutingProfiles => staged := CopyOrEmptyArray(c, env);
      case DnsProfiles => staged := CopyOrEmptyArray(c, env);
      case AppSettings =>
        var values := StageSettings(env);
        staged := WriteFile(ArchivePath(c), Ini(values), env);
      case GeoDataSettings => staged := WriteFile(ArchivePath(c), Doc(Object(env.geoSettings)), env);
      case RuleSetMetadata =>
        if c !in env.stores {
          return None;
        }
        staged := WriteFile(ArchivePath(c), env.stores[c], env);
      case RuleSetFiles => staged := StageDirectory(c, env.ruleSetFiles, env);
      case XrayGeoDataFiles =>
        if GEOIP !in env.geoFiles || GEOSITE !in env.geoFiles {
          return None;
        }
        staged := StageDirectory(c, map n | n in env.geoFiles && n in {GEOIP, GEOSITE} :: env.geoFiles[n], env);
      case CoreMetadata => staged := WriteFile(ArchivePath(c), Doc(Object(env.coreMetadata)), env);
      case LogsRedacted => staged := Some(map[]);
    }
  }

  /** One turn of the export loop; `report` collects the redacted fields across the turns. */
  method ProcessCategory(c: Category, env: Env, mode: RedactionMode, report: seq<string>)
    returns (o: Outcome, r: seq<string>)
    ensures o == CategoryOutcome(c, env, mode)
    ensures o.Staged? ==> BackupRedactor.Elements(r) == BackupRedactor.Elements(report) + o.report
    ensures o.Skipped? ==> r == report
  {
    r := report;
    var staged := StageCategory(c, env);
    if staged.None? {
      o := if c.RuleSetMetadata? && c !in env.stores then Skipped else Failure;
      return;
    }
    var path, entry := ArchivePath(c), CategoryEntry(c, staged.value, mode);
    if c.AppSettings? {
      var values := if path in staged.value && staged.value[path].Ini? then staged.value[path].values else map[];
      var fields := SettingsReport(values, !mode.NoRedaction?);
      if fields != {} {
        r := r + ["settings." + SINGBOX_PATH_KEY];
      }
      o := Staged(map[path := Ini(CleanSettings(values, !mode.NoRedaction?))], entry, fields, false);
    } else if !RedactsFile(c, mode) {
      o := Staged(staged.value, entry, {}, false);
    } else {
      var ok, files;
      ok, files, r := BackupRedactor.RedactFile(staged.value, path, path in env.rewritable, c, mode, r);
      if !ok {
        return Failure, r;
      }
      o := Staged(map[path := files[path]], entry, BackupRedactor.ReportedContent(c, staged.value[path], mode), true);
    }
  }

  method AddChecksums(entries: map<string, Entry>, staging: Files, sha: Content -> string)
    returns (sums: map<string, string>)
    ensures sums == Sums(entries, staging, sha)
  {
    sums := map[];
    var todo := entries.Keys;
    while todo != {}
      invariant todo <= entries.Keys
      invariant sums == Sums(entries - todo, staging, sha)
      decreases todo
    {
      var k :| k in todo;
      var left := todo - {k};
      SumsStep(entries, todo, k, staging, sha);
      if Listed(entries[k], staging) {
        sums := sums[entries[k].file := BackupValidator.Checksum(staging[entries[k].file], sha)];
      }
      todo := left;
    }
    assert entries - {} == entries;
  }

  lemma SumsStep(entries: map<string, Entry>, todo: set<string>, k: string, staging: Files, sha: Content -> string)
    requires todo <= entries.Keys && k in todo
    ensures Sums(entries - (todo - {k}), staging, sha) ==
      if Listed(entries[k], staging)
      then Sums(entries - todo, staging, sha)
           [entries[k].file := BackupValidator.Checksum(staging[entries[k].file], sha)]
      else Sums(entries - todo, staging, sha)
  {
    var more, fewer := entries - (todo - {k}), entries - todo;
    assert more == fewer[k := entries[k]];
    forall f | f in Sums(more, staging, sha)
      ensures f in Sums(fewer, staging, sha) || (Listed(entries[k], staging) && f == entries[k].file)
    {
      var q :| q in more && Listed(more[q], staging) && more[q].file == f;
      if q != k {
        assert q in fewer && fewer[q] == more[q];
      }
    }
    forall f | f in Sums(fewer, staging, sha) ensures f in Sums(more, staging, sha) {
      var q :| q in fewer && Listed(fewer[q], staging) && fewer[q].file == f;
      assert q in more && more[q] == fewer[q];
    }
    if Listed(entries[k], staging) {
      assert k in more && more[k] == entries[k];
      assert entries[k].file in Sums(more, staging, sha);
    }
  }

  /**
   `order` is the order in which the hash set of categories happens to be iterated. The archive is the sealed
   stage of those categories; `report` lists the redacted fields in the order they were met.
   */
  method ExportToArchive(options: Options, order: seq<Category>, env: Env, info: Info,
                         sha: Content -> string, iso: int -> string)
    returns (archive: Option<Files>, report: seq<string>)
    requires forall c :: c in order <==> c in EffectiveCategories(options)
    ensures var mode := EffectiveMode(options);
      var stage := StageAll(order, Outcomes(env, mode));
      && (archive.Some? <==>
            && options.outputPath != "" && info.tempOk && info.zipOk && MANIFEST_PATH in env.writable
            && (!mode.NoRedaction? ==> REPORT_PATH in env.writable) && stage.Some?)
      && (archive.Some? ==> BackupRedactor.Elements(report) == stage.value.report
                            && archive.value == Seal(stage.value, report, mode, env, info, sha, iso))
  {
    archive, report := None, [];
    if options.outputPath == "" || !info.tempOk {
      return;
    }
    var mode := EffectiveMode(options);
    ghost var outcomes := Outcomes(env, mode);
    var stage := EMPTY;
    for i := 0 to |order|
      invariant StageAll(order[..i], outcomes) == Some(stage)
      invariant BackupRedactor.Elements(report) == stage.report
    {
      var o;
      o, report := ProcessCategory(order[i], env, mode, report);
      assert order[..i + 1][..i] == order[..i];
      if o.Failure? {
        StageVerdict(order, outcomes);
        return;
      }
      if o.Staged? {
        stage := AddOutcome(stage, order[i], o);
      }
    }
    assert order[..|order|] == order;
    if !mode.NoRedaction? && REPORT_PATH !in env.writable {
      return;
    }
    var staging := Staging(stage, report, mode, env, info);
    var sums := AddChecksums(stage.entries, staging, sha);
    if MANIFEST_PATH !in env.writable {
      return;
    }
    var root := BackupManifest.Write(BuildManifest(stage, staging, mode, info, sha).(checksums := sums), iso);
    if !info.zipOk {
      return;
    }
    archive := Some(staging[MANIFEST_PATH := Doc(Object(root))]);
  }
}
