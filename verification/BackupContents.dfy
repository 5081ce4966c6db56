/** What a successful export contains, and what its importer sees of it, category by category. */
module BackupContents {
  import opened Json
  import opened Text
  import opened BackupModel
  import opened BackupExporter
  import opened BackupArchive
  import BackupImporter
  import BackupManifest
  import BackupRedactor
  import BackupValidator
  import ImportSession

  /** One export that succeeds: the categories in the order they were met, and everything it depends on. */
  datatype Export = Export(order: seq<Category>, report: seq<string>, mode: RedactionMode, env: Env, info: Info,
                           sha: Content -> string, iso: int -> string)

  ghost predicate Succeeds(x: Export) {
    StageAll(x.order, Outcomes(x.env, x.mode)).Some?
  }

  ghost function StageOf(x: Export): Stage
    requires Succeeds(x)
  {
    StageAll(x.order, Outcomes(x.env, x.mode)).value
  }

  ghost function ArchiveOf(x: Export): Files
    requires Succeeds(x)
  {
    Seal(StageOf(x), x.report, x.mode, x.env, x.info, x.sha, x.iso)
  }

  /** In the archive under this path, with this content. */
  ghost predicate Holds(x: Export, path: string, content: Content)
    requires Succeeds(x)
  {
    path in ArchiveOf(x) && ArchiveOf(x)[path] == content
  }

  lemma NotFailed(x: Export, c: Category)
    requires Succeeds(x) && c in x.order
    ensures !CategoryOutcome(c, x.env, x.mode).Failure?
  {
    StageVerdict(x.order, Outcomes(x.env, x.mode));
  }

  lemma OutcomeHeld(x: Export, c: Category, path: string)
    requires Succeeds(x) && c in x.order && CategoryOutcome(c, x.env, x.mode).Staged?
    requires path in CategoryOutcome(c, x.env, x.mode).files
    ensures Holds(x, path, CategoryOutcome(c, x.env, x.mode).files[path])
  {
    var o := Outcomes(x.env, x.mode);
    OutcomesDisjoint(x.env, x.mode);
    StagedFile(x.order, o, c, path);
    DataFilesSurvive(x.order, x.report, x.mode, x.env, x.info, x.sha, x.iso, path);
  }

  // ---------- the lists ----------

  lemma ListFile(c: Category, env: Env, mode: RedactionMode)
    requires c in {Profiles, Subscriptions, RoutingProfiles, DnsProfiles}
    requires !CategoryOutcome(c, env, mode).Failure?
    ensures var o := CategoryOutcome(c, env, mode);
      var content := if c in env.stores then env.stores[c] else Doc(Array([]));
      && o.Staged?
      && o.files == map[ArchivePath(c) :=
           if mode.NoRedaction? || c.RoutingProfiles? || c.DnsProfiles? then content
           else BackupRedactor.RedactedContent(c, content, mode)]
  {
  }

  /**
   Every list category is in the archive as its store is, or as an empty array without one; profiles and
   subscriptions are redacted when the export is.
   */
  lemma ListsExported(x: Export, c: Category)
    requires Succeeds(x) && c in x.order && c in {Profiles, Subscriptions, RoutingProfiles, DnsProfiles}
    ensures var content := if c in x.env.stores then x.env.stores[c] else Doc(Array([]));
      Holds(x, ArchivePath(c),
            if x.mode.NoRedaction? || c.RoutingProfiles? || c.DnsProfiles? then content
            else BackupRedactor.RedactedContent(c, content, x.mode))
  {
    NotFailed(x, c);
    ListFile(c, x.env, x.mode);
    OutcomeHeld(x, c, ArchivePath(c));
  }

  // ---------- the single files ----------

  /** What the exporter derives or copies for a category with one file that is no list. */
  function SingleContent(c: Category, env: Env): Content
    requires c.GeoDataSettings? || c.CoreMetadata? || (c.RuleSetMetadata? && c in env.stores)
  {
    if c.GeoDataSettings? then Doc(Object(env.geoSettings))
    else if c.CoreMetadata? then Doc(Object(env.coreMetadata))
    else env.stores[c]
  }

  lemma SingleFile(c: Category, env: Env, mode: RedactionMode)
    requires c.GeoDataSettings? || c.CoreMetadata? || (c.RuleSetMetadata? && c in env.stores)
    requires !CategoryOutcome(c, env, mode).Failure?
    ensures var o := CategoryOutcome(c, env, mode);
      o.Staged? && o.files == map[ArchivePath(c) := SingleContent(c, env)]
  {
  }

  /** The two derived objects and, if there is one, the rule-set store are in the archive as they are, in every mode. */
  lemma SingleFilesExported(x: Export, c: Category)
    requires Succeeds(x) && c in x.order
    requires c.GeoDataSettings? || c.CoreMetadata? || (c.RuleSetMetadata? && c in x.env.stores)
    ensures Holds(x, ArchivePath(c), SingleContent(c, x.env))
  {
    NotFailed(x, c);
    SingleFile(c, x.env, x.mode);
    OutcomeHeld(x, c, ArchivePath(c));
  }

  // ---------- the directories ----------

  lemma DirectoryHas(c: Category, files: Files, name: string)
    requires name in files
    ensures ArchivePath(c) + name in InDirectory(c, files)
    ensures InDirectory(c, files)[ArchivePath(c) + name] == files[name]
  {
    assert (ArchivePath(c) + name)[|ArchivePath(c)|..] == name;
  }

  lemma DirectoryFile(c: Category, env: Env, mode: RedactionMode, name: string)
    requires c.RuleSetFiles? || c.XrayGeoDataFiles?
    requires !CategoryOutcome(c, env, mode).Failure?
    requires if c.RuleSetFiles? then name in env.ruleSetFiles else name == GEOIP || name == GEOSITE
    ensures var o := CategoryOutcome(c, env, mode);
      var source := if c.RuleSetFiles? then env.ruleSetFiles else env.geoFiles;
      o.Staged? && name in source && ArchivePath(c) + name in o.files && o.files[ArchivePath(c) + name] == source[name]
  {
    if c.RuleSetFiles? {
      DirectoryHas(c, env.ruleSetFiles, name);
    } else {
      DirectoryHas(c, map n | n in env.geoFiles && n in {GEOIP, GEOSITE} :: env.geoFiles[n], name);
    }
  }

  /** Every rule-set file and both geo files are in the archive with their own contents, in every mode. */
  lemma DirectoriesExported(x: Export, c: Category, name: string)
    requires Succeeds(x) && c in x.order && (c.RuleSetFiles? || c.XrayGeoDataFiles?)
    requires if c.RuleSetFiles? then name in x.env.ruleSetFiles else name == GEOIP || name == GEOSITE
    ensures var source := if c.RuleSetFiles? then x.env.ruleSetFiles else x.env.geoFiles;
      name in source && Holds(x, ArchivePath(c) + name, source[name])
  {
    NotFailed(x, c);
    DirectoryFile(c, x.env, x.mode, name);
    OutcomeHeld(x, c, ArchivePath(c) + name);
  }

  // ---------- the settings ----------

  /** The last part of a path, after its last slash. */
  predicate IsLastPart(path: string, name: string) {
    && |name| <= |path| && path[|path| - |name|..] == name && '/' !in name
    && (|name| < |path| ==> path[|path| - |name| - 1] == '/')
  }

  lemma {:induction false} LastOfSplit(path: string)
    ensures var parts := Split(path, '/'); IsLastPart(path, parts[|parts| - 1])
  {
    if path != "" {
      var rest := Split(path[1..], '/');
      LastOfSplit(path[1..]);
      SplitSingle(path[1..]);
      LastOfLonger(path, rest);
      SplitStep(path);
    }
  }

  lemma SplitStep(path: string)
    requires path != ""
    ensures var rest := Split(path[1..], '/');
      Split(path, '/') == if path[0] == '/' then [""] + rest else [[path[0]] + rest[0]] + rest[1..]
  {
  }

  lemma LastOfLonger(path: string, rest: seq<string>)
    requires path != "" && rest != [] && IsLastPart(path[1..], rest[|rest| - 1])
    requires |rest| == 1 <==> '/' !in path[1..]
    requires |rest| == 1 ==> rest[0] == path[1..]
    ensures var parts := if path[0] == '/' then [""] + rest else [[path[0]] + rest[0]] + rest[1..];
      IsLastPart(path, parts[|parts| - 1])
  {
    assert [path[0]] + path[1..] == path;
  }

  lemma {:induction false} SplitSingle(s: string)
    ensures |Split(s, '/')| == 1 <==> '/' !in s
    ensures |Split(s, '/')| == 1 ==> Split(s, '/')[0] == s
  {
    if s != "" {
      SplitSingle(s[1..]);
      assert s == [s[0]] + s[1..];
    }
  }

  lemma SettingsFile(env: Env, mode: RedactionMode)
    requires !CategoryOutcome(AppSettings, env, mode).Failure?
    ensures var o := CategoryOutcome(AppSettings, env, mode);
      && o.Staged? && o.files.Keys == {ArchivePath(AppSettings)} && o.files[ArchivePath(AppSettings)].Ini?
      && SettingsMean(o.files[ArchivePath(AppSettings)].values, env.settings, !mode.NoRedaction?)
  {
    var kept := map k | k in env.settings && k !in SESSION_KEYS :: env.settings[k];
    CleanMeans(kept, !mode.NoRedaction?, env.settings);
  }

  /** The exported settings: all but the session's and the Xray path, each with its own value or a shortened path. */
  ghost predicate SettingsMean(r: map<string, string>, settings: map<string, string>, redacted: bool) {
    && (forall k :: k in r <==> k in settings && k !in SESSION_KEYS && k != XRAY_PATH_KEY)
    && (forall k | k in r && k != SINGBOX_PATH_KEY :: r[k] == settings[k])
    && (SINGBOX_PATH_KEY in r ==>
          if redacted then IsLastPart(settings[SINGBOX_PATH_KEY], r[SINGBOX_PATH_KEY])
          else r[SINGBOX_PATH_KEY] == settings[SINGBOX_PATH_KEY])
  }

  lemma CleanMeans(kept: map<string, string>, redacted: bool, settings: map<string, string>)
    requires kept == map k | k in settings && k !in SESSION_KEYS :: settings[k]
    ensures SettingsMean(CleanSettings(kept, redacted), settings, redacted)
  {
    if SINGBOX_PATH_KEY in kept {
      LastOfSplit(kept[SINGBOX_PATH_KEY]);
    }
  }

  /** The settings file holds exactly the settings that may leave the machine, with their own values. */
  lemma SettingsExported(x: Export)
    requires Succeeds(x) && AppSettings in x.order
    ensures exists values :: Holds(x, ArchivePath(AppSettings), Ini(values))
                             && SettingsMean(values, x.env.settings, !x.mode.NoRedaction?)
  {
    NotFailed(x, AppSettings);
    SettingsFile(x.env, x.mode);
    var path := ArchivePath(AppSettings);
    OutcomeHeld(x, AppSettings, path);
    assert Holds(x, path, Ini(CategoryOutcome(AppSettings, x.env, x.mode).files[path].values));
  }

  // ---------- the rest of the archive ----------

  lemma ReservedPaths()
    ensures MANIFEST_PATH != REPORT_PATH && MANIFEST_PATH != APP_INFO_PATH && MANIFEST_PATH != PATHS_PATH
    ensures REPORT_PATH != APP_INFO_PATH && REPORT_PATH != PATHS_PATH && APP_INFO_PATH != PATHS_PATH
  {
    assert |MANIFEST_PATH| == 13 && |REPORT_PATH| == 33 && |APP_INFO_PATH| == 25 && |PATHS_PATH| == 22;
  }

  lemma Layers(a: Files, r: Files, d: Files, p: string)
    requires p in d || p in r || p in a
    ensures var all := a + r + d;
      p in all && all[p] == if p in d then d[p] else if p in r then r[p] else a[p]
  {
  }

  lemma DiagnosticsHold(env: Env, info: Info)
    ensures var d := DiagnosticFiles(env, info);
      && (APP_INFO_PATH in env.writable ==> APP_INFO_PATH in d && d[APP_INFO_PATH] == Doc(Object(info.appInfo)))
      && (PATHS_PATH in env.writable ==> PATHS_PATH in d && d[PATHS_PATH] == Doc(Object(info.paths)))
      && REPORT_PATH !in d && d.Keys <= {APP_INFO_PATH, PATHS_PATH}
  {
    ReservedPaths();
  }

  lemma OwnFiles(s: Stage, report: seq<string>, mode: RedactionMode, env: Env, info: Info)
    ensures var r := Staging(s, report, mode, env, info);
      && (!mode.NoRedaction? ==> REPORT_PATH in r && r[REPORT_PATH] == ReportDocument(report, s.touched, mode))
      && (APP_INFO_PATH in env.writable ==> APP_INFO_PATH in r && r[APP_INFO_PATH] == Doc(Object(info.appInfo)))
      && (PATHS_PATH in env.writable ==> PATHS_PATH in r && r[PATHS_PATH] == Doc(Object(info.paths)))
  {
    DiagnosticsHold(env, info);
    var a, r, d := s.files, ReportFiles(report, s.touched, mode), DiagnosticFiles(env, info);
    if !mode.NoRedaction? {
      Layers(a, r, d, REPORT_PATH);
    }
    if APP_INFO_PATH in env.writable {
      Layers(a, r, d, APP_INFO_PATH);
    }
    if PATHS_PATH in env.writable {
      Layers(a, r, d, PATHS_PATH);
    }
  }

  lemma OnlyOwnFiles(s: Stage, report: seq<string>, mode: RedactionMode, env: Env, info: Info, p: string)
    requires p in Staging(s, report, mode, env, info)
    ensures p in s.files || p in {REPORT_PATH, APP_INFO_PATH, PATHS_PATH}
    ensures p == REPORT_PATH && mode.NoRedaction? ==> p in s.files
  {
    DiagnosticsHold(env, info);
  }

  lemma ReportReads(report: seq<string>, touched: bool, mode: RedactionMode)
    ensures var j := ReportDocument(report, touched, mode);
      && j.Doc? && Texts(ToArray(Value(ToObject(j.json), "redactedFields"))) == report
      && ToString(Value(ToObject(j.json), "mode")) == (if touched && mode != Strict then "basic" else "strict")
  {
    assert Texts(BackupManifest.StringsToJson(report)) == report;
  }

  /** Nothing is in the archive but what a category contributes and the four files of the program's own. */
  lemma NothingElse(x: Export, p: string)
    requires Succeeds(x) && p in ArchiveOf(x)
    ensures p in {MANIFEST_PATH, REPORT_PATH, APP_INFO_PATH, PATHS_PATH}
      || exists c :: c in x.order && CategoryOutcome(c, x.env, x.mode).Staged? && Owns(c, p)
    ensures p == REPORT_PATH ==> !x.mode.NoRedaction?
  {
    ReservedPaths();
    if p != MANIFEST_PATH {
      OnlyOwnFiles(StageOf(x), x.report, x.mode, x.env, x.info, p);
      if p in StageOf(x).files {
        StageContributes(x, p);
        StagedNotReserved(x.order, x.env, x.mode, p);
      }
    }
  }

  lemma StageContributes(x: Export, p: string)
    requires Succeeds(x) && p in StageOf(x).files
    ensures exists c :: c in x.order && CategoryOutcome(c, x.env, x.mode).Staged? && Owns(c, p)
  {
    var o := Outcomes(x.env, x.mode);
    OutcomesDisjoint(x.env, x.mode);
    StageMeaning(x.order, o);
    assert Contributed(p, x.order, o);
    var c :| StagedIn(c, x.order, o) && p in o(c).files;
    OutcomeOwned(c, x.env, x.mode);
  }

  /** The three files that are no category's. */
  lemma OwnFilesExported(x: Export)
    requires Succeeds(x)
    ensures !x.mode.NoRedaction? ==> Holds(x, REPORT_PATH, ReportDocument(x.report, StageOf(x).touched, x.mode))
    ensures APP_INFO_PATH in x.env.writable ==> Holds(x, APP_INFO_PATH, Doc(Object(x.info.appInfo)))
    ensures PATHS_PATH in x.env.writable ==> Holds(x, PATHS_PATH, Doc(Object(x.info.paths)))
  {
    ReservedPaths();
    OwnFiles(StageOf(x), x.report, x.mode, x.env, x.info);
  }

  // ---------- the manifest that the importer reads ----------

  ghost function Read(x: Export, parse: string -> Option<int>): Manifest
    requires Succeeds(x)
  {
    if Readable(ArchiveOf(x)) then ManifestOf(ArchiveOf(x), parse) else BuiltManifest(x)
  }

  ghost function BuiltManifest(x: Export): Manifest
    requires Succeeds(x)
  {
    var staging := Staging(StageOf(x), x.report, x.mode, x.env, x.info);
    BuildManifest(StageOf(x), staging, x.mode, x.info, x.sha)
  }

  lemma ReadIsBuilt(x: Export, parse: string -> Option<int>)
    requires Succeeds(x)
    ensures Readable(ArchiveOf(x))
    ensures var m, built := Read(x, parse), BuiltManifest(x);
      m == BackupManifest.Normal(built).(createdAt := m.createdAt)
  {
    var staging := Staging(StageOf(x), x.report, x.mode, x.env, x.info);
    ManifestReadsBack(staging, BuiltManifest(x), x.iso, parse);
  }

  /** The importer reads which program wrote the backup, and whether and how it was redacted. */
  lemma ImporterSeesOrigin(x: Export, parse: string -> Option<int>)
    requires Succeeds(x)
    ensures var m := Read(x, parse);
      && m.format == FORMAT && m.formatVersion == FORMAT_VERSION
      && m.appVersion == x.info.appVersion && m.platform == x.info.platform && m.portableMode == x.info.portable
      && (m.redacted <==> !x.mode.NoRedaction?) && m.warnings == []
      && m.redactionMode == (match x.mode case NoRedaction => "" case Basic => "basic" case Strict => "strict")
  {
    ReadIsBuilt(x, parse);
  }

  ghost predicate Exported(x: Export, c: Category) {
    c in x.order && CategoryOutcome(c, x.env, x.mode).Staged?
  }

  lemma StageEntries(x: Export, c: Category)
    requires Succeeds(x)
    ensures CategoryKey(c) in StageOf(x).entries <==> Exported(x, c)
    ensures Exported(x, c) ==> StageOf(x).entries[CategoryKey(c)] == CategoryOutcome(c, x.env, x.mode).entry
  {
    var o := Outcomes(x.env, x.mode);
    OutcomesDisjoint(x.env, x.mode);
    StageMeaning(x.order, o);
    if CategoryKey(c) in StageOf(x).entries {
      var d :| StagedIn(d, x.order, o) && CategoryKey(c) == CategoryKey(d);
      CategoryKeyInjective(c, d);
    }
    if Exported(x, c) {
      assert StagedIn(c, x.order, o);
    }
  }

  lemma EntrySays(c: Category, env: Env, mode: RedactionMode)
    requires CategoryOutcome(c, env, mode).Staged?
    ensures var e := CategoryOutcome(c, env, mode).entry;
      && e.included && e.file == ArchivePath(c)
      && (e.redacted <==> !mode.NoRedaction? && (c.Profiles? || c.Subscriptions? || c.AppSettings?))
  {
  }

  /** An exported list is counted as it is in its store, whether or not it is redacted. */
  lemma EntryCounts(c: Category, env: Env, mode: RedactionMode)
    requires c in {Profiles, Subscriptions, RoutingProfiles, DnsProfiles}
    requires CategoryOutcome(c, env, mode).Staged?
    ensures CategoryOutcome(c, env, mode).entry.count == BackupManifest.CountItems(ListContent(c, env))
  {
  }

  /** A root array counts its items, a store the items of its list; anything else is not counted. */
  lemma CountMeaning(items: seq<Json>, other: string)
    ensures BackupManifest.CountItems(Doc(Array(items))) == |items|
    ensures BackupManifest.CountItems(Doc(Object(map["profiles" := Array(items)]))) == |items|
    ensures BackupManifest.CountItems(Doc(Object(map["items" := Array(items)]))) == |items|
    ensures BackupManifest.CountItems(Doc(Object(map["custom" := Array(items)]))) == |items|
    ensures BackupManifest.CountItems(Doc(Object(map[]))) == -1 == BackupManifest.CountItems(Bytes(other))
  {
    assert |"profiles"| == 8 && |"items"| == 5 && |"custom"| == 6;
  }

  /** The importer reads an entry for exactly the exported categories, naming the file and whether it was redacted. */
  lemma ImporterSeesCategory(x: Export, parse: string -> Option<int>, c: Category)
    requires Succeeds(x)
    ensures var categories := Read(x, parse).categories;
      && (CategoryKey(c) in categories <==> Exported(x, c))
      && (Exported(x, c) ==>
            var e := categories[CategoryKey(c)];
            && e.included && e.file == ArchivePath(c)
            && (e.redacted <==> !x.mode.NoRedaction? && (c.Profiles? || c.Subscriptions? || c.AppSettings?)))
  {
    ReadIsBuilt(x, parse);
    StageEntries(x, c);
    if Exported(x, c) {
      EntrySays(c, x.env, x.mode);
    }
  }

  /** So an import runs a category exactly when it was exported and the user chose a mode, and in that mode. */
  lemma ImportRunsChosen(x: Export, parse: string -> Option<int>, modes: map<Category, BackupImporter.ImportMode>,
                         c: Category)
    requires Succeeds(x)
    ensures ImportSession.ModeFor(Read(x, parse).categories, modes)(c) ==
      if Exported(x, c) && c in modes then modes[c] else BackupImporter.Skip
  {
    ImporterSeesCategory(x, parse, c);
    ImportSession.ModeMeaning(Read(x, parse).categories, modes, c);
    Slashes(c);
  }

  /** The exporter writes each category where the importer looks for it. */
  lemma PathsAgree(c: Category)
    ensures match ImportSession.ImportPath(c)
      case None => c.LogsRedacted?
      case Some(path) => ArchivePath(c) == if IsDirectory(c) then path + "/" else path
  {
  }

  // ---------- checksums ----------

  /** Every exported file of its own, and nothing else, is recorded with the digest of what the archive holds. */
  lemma ChecksumsRecorded(x: Export, parse: string -> Option<int>, path: string)
    requires Succeeds(x)
    ensures var m := Read(x, parse);
      && (path in m.checksums <==>
            exists c :: Exported(x, c) && !IsDirectory(c) && path == ArchivePath(c) && path in ArchiveOf(x))
      && (path in m.checksums ==> path in ArchiveOf(x) && m.checksums[path] == "sha256:" + x.sha(ArchiveOf(x)[path]))
  {
    ReadIsBuilt(x, parse);
    var staging, entries := Staging(StageOf(x), x.report, x.mode, x.env, x.info), StageOf(x).entries;
    SumsAvoidManifest(x.order, x.env, x.mode, staging, x.sha);
    assert Read(x, parse).checksums == Sums(entries, staging, x.sha);
    if path in Sums(entries, staging, x.sha) {
      RecordedCategory(x, path);
    }
    if c :| Exported(x, c) && !IsDirectory(c) && path == ArchivePath(c) && path in ArchiveOf(x) {
      CategoryRecorded(x, c);
    }
  }

  lemma RecordedCategory(x: Export, path: string)
    requires Succeeds(x)
    requires path in Sums(StageOf(x).entries, Staging(StageOf(x), x.report, x.mode, x.env, x.info), x.sha)
    ensures exists c :: Exported(x, c) && !IsDirectory(c) && path == ArchivePath(c)
  {
    var o, s := Outcomes(x.env, x.mode), StageOf(x);
    var k :| k in s.entries && Listed(s.entries[k], Staging(s, x.report, x.mode, x.env, x.info))
             && s.entries[k].file == path;
    OutcomesDisjoint(x.env, x.mode);
    StageMeaning(x.order, o);
    var c :| StagedIn(c, x.order, o) && k == CategoryKey(c);
    EntrySays(c, x.env, x.mode);
    Slashes(c);
    assert Exported(x, c);
  }

  lemma Slashes(c: Category)
    ensures EndsWith(ArchivePath(c), "/") <==> IsDirectory(c)
    ensures ArchivePath(c) != ""
  {
    assert ArchivePath(c)[|ArchivePath(c)| - 1] == '/' <==> IsDirectory(c);
    assert EndsWith(ArchivePath(c), "/") ==> ArchivePath(c)[|ArchivePath(c)| - 1..][0] == '/';
  }

  lemma CategoryRecorded(x: Export, c: Category)
    requires Succeeds(x) && Exported(x, c) && !IsDirectory(c) && ArchivePath(c) in ArchiveOf(x)
    ensures ArchivePath(c) in Sums(StageOf(x).entries, Staging(StageOf(x), x.report, x.mode, x.env, x.info), x.sha)
  {
    StageEntries(x, c);
    EntrySays(c, x.env, x.mode);
    Slashes(c);
    ArchivePathNotReserved(c);
    var staging := Staging(StageOf(x), x.report, x.mode, x.env, x.info);
    assert ArchivePath(c) in staging;
    assert Listed(StageOf(x).entries[CategoryKey(c)], staging);
  }

  // ---------- an archive that was changed ----------

  lemma GateOfChanged(x: Export, parse: string -> Option<int>, path: string, changed: Files)
    requires Succeeds(x) && path in Read(x, parse).checksums
    requires changed - {path} == ArchiveOf(x) - {path} && path != MANIFEST_PATH
    ensures PassesGate(changed, x.sha, parse) <==>
      BackupValidator.ChecksumHolds(changed, path, Read(x, parse).checksums[path], x.sha)
  {
    var archive, m := ArchiveOf(x), Read(x, parse);
    ReadIsBuilt(x, parse);
    ExportPassesGate(x.order, x.report, x.mode, x.env, x.info, x.sha, x.iso, parse);
    SameButOne(archive, changed, path);
    assert changed[MANIFEST_PATH] == archive[MANIFEST_PATH];
    assert ManifestOf(changed, parse) == m;
    forall p | p in m.checksums && p != path
      ensures BackupValidator.ChecksumHolds(changed, p, m.checksums[p], x.sha)
    {
      assert BackupValidator.ChecksumHolds(archive, p, m.checksums[p], x.sha);
    }
  }

  lemma SameButOne(a: Files, b: Files, path: string)
    requires a - {path} == b - {path}
    ensures forall p | p != path :: (p in a <==> p in b) && (p in a ==> a[p] == b[p])
  {
    forall p | p != path ensures (p in a <==> p in b) && (p in a ==> a[p] == b[p]) {
      assert p in a <==> p in a - {path};
      assert p in b <==> p in b - {path};
      assert p in a ==> (a - {path})[p] == a[p] && (b - {path})[p] == b[p];
    }
  }

  lemma RecordedPath(x: Export, parse: string -> Option<int>, path: string)
    requires Succeeds(x) && path in Read(x, parse).checksums
    ensures path in ArchiveOf(x) && path != MANIFEST_PATH
    ensures Read(x, parse).checksums[path] == "sha256:" + x.sha(ArchiveOf(x)[path])
  {
    ChecksumsRecorded(x, parse, path);
    var c :| Exported(x, c) && !IsDirectory(c) && path == ArchivePath(c) && path in ArchiveOf(x);
    ArchivePathNotReserved(c);
  }

  lemma ReplacedHolds(files: Files, path: string, content: Content, digest: string, sha: Content -> string)
    ensures BackupValidator.ChecksumHolds(files[path := content], path, "sha256:" + digest, sha)
      <==> EqualsIgnoreCase(sha(content), digest)
  {
    BackupValidator.ChecksumMeaning(files[path := content], path, "sha256:" + digest, sha);
    BackupValidator.DigestsDecide(sha(content), digest);
  }

  lemma OneChanged(archive: Files, path: string, content: Content)
    ensures archive[path := content] - {path} == archive - {path}
    ensures archive - {path} - {path} == archive - {path}
  {
  }

  /**
   Replacing a recorded file makes the archive fail its gate if and only if the new content has another digest, up to
   case; removing one always does.
   */
  lemma TamperingShows(x: Export, parse: string -> Option<int>, path: string, content: Content)
    requires Succeeds(x) && path in Read(x, parse).checksums
    ensures path in ArchiveOf(x)
    ensures PassesGate(ArchiveOf(x)[path := content], x.sha, parse) <==>
      EqualsIgnoreCase(x.sha(content), x.sha(ArchiveOf(x)[path]))
    ensures !PassesGate(ArchiveOf(x) - {path}, x.sha, parse)
  {
    RecordedPath(x, parse, path);
    OneChanged(ArchiveOf(x), path, content);
    GateOfChanged(x, parse, path, ArchiveOf(x)[path := content]);
    GateOfChanged(x, parse, path, ArchiveOf(x) - {path});
    ReplacedHolds(ArchiveOf(x), path, content, x.sha(ArchiveOf(x)[path]), x.sha);
  }

  // ---------- what an export is asked for ----------

  /** Without a choice everything is exported but files of other programs and logs; a choice is taken as it is. */
  lemma DefaultCategories(options: Options, c: Category)
    ensures options.categories == {} ==>
      (c in EffectiveCategories(options) <==> !IsDirectory(c) && !c.LogsRedacted?)
    ensures options.categories != {} ==> EffectiveCategories(options) == options.categories
  {
  }

  /** A diagnostic backup is always redacted strictly; any other as chosen. */
  lemma DiagnosticIsStrict(options: Options)
    ensures options.diagnosticBackup ==> EffectiveMode(options) == Strict
    ensures !options.diagnosticBackup ==> EffectiveMode(options) == options.mode
  {
  }
}
