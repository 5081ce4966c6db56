/** Staging the categories of a backup, redacting them, and sealing the archive with checksums and a manifest. */
module BackupExporter {
  import opened Json
  import opened Text
  import opened BackupModel
  import BackupManifest
  import BackupRedactor

  /**
   What the exporter finds on disk: the stores by category, the settings, the two derived JSON objects,
   the files that the rule-set directory lists, the geo files, and which staging paths can be written, and written
   again by the redaction.
   */
  datatype Env = Env(
    stores: map<Category, Content>,
    settings: map<string, string>,
    geoSettings: Fields,
    coreMetadata: Fields,
    ruleSetFiles: Files,
    geoFiles: Files,
    writable: set<string>,
    rewritable: set<string>)

  const MANIFEST_PATH := "manifest.json"
  const REPORT_PATH := "diagnostics/redaction-report.json"
  const APP_INFO_PATH := "diagnostics/app-info.json"
  const PATHS_PATH := "diagnostics/paths.json"

  const GEOIP := "geoip.dat"
  const GEOSITE := "geosite.dat"
  const XRAY_PATH_KEY := "cores/xrayPath"
  const SINGBOX_PATH_KEY := "cores/singBoxPath"
  const SESSION_KEYS := {"runtime/lastShutdownClean", "runtime/tunWasRunning", "runtime/lastRuntimeMode"}

  function FileName(path: string): string {
    var parts := Split(path, '/');
    parts[|parts| - 1]
  }

  // ---------- one category ----------

  /**
   A category is passed over, makes the export fail, or contributes files, an entry and report lines;
   `touched` says its file went through the redactor, which then records the mode in the report.
   */
  datatype Outcome = Skipped | Failure | Staged(files: Files, entry: Entry, report: set<string>, touched: bool)

  function OneFile(c: Category, content: Content, env: Env): Option<Files> {
    if ArchivePath(c) in env.writable then Some(map[ArchivePath(c) := content]) else None
  }

  function InDirectory(c: Category, files: Files): Files {
    map p | p in (set n | n in files :: ArchivePath(c) + n) :: files[p[|ArchivePath(c)|..]]
  }

  function AllFiles(c: Category, files: Files, env: Env): Option<Files> {
    var staged := InDirectory(c, files);
    if staged.Keys <= env.writable then Some(staged) else None
  }

  /** `stageCategory`: the files it leaves, or None where it returns false. */
  function StagedFiles(c: Category, env: Env): Option<Files> {
    match c
    case Profiles | Subscriptions | RoutingProfiles | DnsProfiles =>
      OneFile(c, if c in env.stores then env.stores[c] else Doc(Array([])), env)
    case AppSettings => OneFile(c, Ini(map k | k in env.settings && k !in SESSION_KEYS :: env.settings[k]), env)
    case GeoDataSettings => OneFile(c, Doc(Object(env.geoSettings)), env)
    case RuleSetMetadata => if c in env.stores then OneFile(c, env.stores[c], env) else None
    case RuleSetFiles => AllFiles(c, env.ruleSetFiles, env)
    case XrayGeoDataFiles =>
      if GEOIP in env.geoFiles && GEOSITE in env.geoFiles then
        AllFiles(c, map n | n in env.geoFiles && n in {GEOIP, GEOSITE} :: env.geoFiles[n], env)
      else None
    case CoreMetadata => OneFile(c, Doc(Object(env.coreMetadata)), env)
    case LogsRedacted => Some(map[])
  }

  /** The settings file after the exporter dropped the Xray path and, in a redacted backup, the sing-box directory. */
  function CleanSettings(values: map<string, string>, redacted: bool): map<string, string> {
    var kept := values - {XRAY_PATH_KEY};
    if redacted && SINGBOX_PATH_KEY in kept && kept[SINGBOX_PATH_KEY] != "" then
      kept[SINGBOX_PATH_KEY := FileName(kept[SINGBOX_PATH_KEY])]
    else kept
  }

  function SettingsReport(values: map<string, string>, redacted: bool): set<string> {
    if redacted && SINGBOX_PATH_KEY in values && values[SINGBOX_PATH_KEY] != "" then {"settings." + SINGBOX_PATH_KEY}
    else {}
  }

  function CategoryEntry(c: Category, files: Files, mode: RedactionMode): Entry {
    var path := ArchivePath(c);
    Entry(true, path,
          if !IsDirectory(c) && path in files then BackupManifest.CountItems(files[path]) else -1,
          !mode.NoRedaction? && (c.Profiles? || c.Subscriptions? || c.AppSettings?))
  }

  /** Redaction rewrites the single file of a category. */
  predicate RedactsFile(c: Category, mode: RedactionMode) {
    !mode.NoRedaction? && !IsDirectory(c) && !c.AppSettings?
  }

  function CategoryOutcome(c: Category, env: Env, mode: RedactionMode): Outcome {
    match StagedFiles(c, env)
    case None => if c.RuleSetMetadata? && c !in env.stores then Skipped else Failure
    case Some(files) =>
      var path, entry := ArchivePath(c), CategoryEntry(c, files, mode);
      if c.AppSettings? then
        var values := if path in files && files[path].Ini? then files[path].values else map[];
        Staged(map[path := Ini(CleanSettings(values, !mode.NoRedaction?))], entry,
               SettingsReport(values, !mode.NoRedaction?), false)
      else if !RedactsFile(c, mode) then Staged(files, entry, {}, false)
      else if path !in files || !IsDocument(files[path]) then Failure
      else if BackupRedactor.Rewrites(c, files[path], mode) && path !in env.rewritable then Failure
      else Staged(map[path := BackupRedactor.RedactedContent(c, files[path], mode)], entry,
                  BackupRedactor.ReportedContent(c, files[path], mode), true)
  }

  /** Nothing is staged for the logs, so redacting them fails: they export exactly when nothing is redacted. */
  lemma LogsVerdict(env: Env, mode: RedactionMode)
    ensures CategoryOutcome(LogsRedacted, env, mode).Failure? <==> !mode.NoRedaction?
    ensures !CategoryOutcome(LogsRedacted, env, mode).Skipped?
  {
    assert StagedFiles(LogsRedacted, env) == Some(map[]);
  }

  /** The file of a list category as it is staged, before any redaction. */
  function ListContent(c: Category, env: Env): Content {
    if c in env.stores then env.stores[c] else Doc(Array([]))
  }

  /** A redacted profile or subscription list is staged as one file, unless its step fails. */
  lemma ListOutcome(c: Category, env: Env, mode: RedactionMode)
    requires (c.Profiles? || c.Subscriptions?) && !mode.NoRedaction?
    ensures var o := CategoryOutcome(c, env, mode);
      o.Failure? || (o.Staged? && o.files
        == map[ArchivePath(c) := BackupRedactor.RedactedContent(c, ListContent(c, env), mode)])
  {
  }

  /**
   The staged list shows nothing that should be hidden if and only if the store is missing, is an array at its
   root, or has nothing to hide; `key` is where a store with an object at its root keeps the list.
   */
  lemma ListHides(c: Category, env: Env, mode: RedactionMode, key: string)
    requires c.Profiles? || c.Subscriptions?
    ensures BackupRedactor.ShowsNothingHidden(BackupRedactor.RedactedContent(c, ListContent(c, env), mode), key,
                                              BackupRedactor.Passes(c, mode))
      <==> Hideable(c, env, mode, key)
  {
    BackupRedactor.RedactionReachesArrays(c, ListContent(c, env), mode, key);
  }

  ghost predicate Hideable(c: Category, env: Env, mode: RedactionMode, key: string) {
    || c !in env.stores
    || (env.stores[c].Doc? && env.stores[c].json.Array?)
    || BackupRedactor.ShowsNothingHidden(env.stores[c], key, BackupRedactor.Passes(c, mode))
  }

  // ---------- which paths belong to which category ----------

  ghost predicate Owns(c: Category, path: string) {
    if IsDirectory(c) then StartsWith(path, ArchivePath(c)) else path == ArchivePath(c)
  }

  lemma OwnersDisjoint(c: Category, d: Category, path: string)
    requires Owns(c, path) && Owns(d, path)
    ensures c == d
  {
    assert |path| >= 12;
    assert path[0] == ArchivePath(c)[0] == ArchivePath(d)[0];
    assert path[9] == ArchivePath(c)[9] == ArchivePath(d)[9];
    if !IsDirectory(c) && !IsDirectory(d) {
      ArchivePathInjective(c, d);
    }
  }

  lemma OutcomeOwned(c: Category, env: Env, mode: RedactionMode)
    requires CategoryOutcome(c, env, mode).Staged?
    ensures forall p | p in CategoryOutcome(c, env, mode).files :: Owns(c, p)
    ensures CategoryOutcome(c, env, mode).entry.file == ArchivePath(c)
  {
    forall files: Files, p | p in InDirectory(c, files) ensures StartsWith(p, ArchivePath(c)) {
    }
  }

  /** What every table of outcomes below must satisfy: no path is contributed twice. */
  ghost predicate Disjoint(o: Category -> Outcome) {
    forall c, d, p | o(c).Staged? && o(d).Staged? && p in o(c).files && p in o(d).files :: c == d
  }

  function Outcomes(env: Env, mode: RedactionMode): (o: Category -> Outcome)
    ensures forall c :: o(c) == CategoryOutcome(c, env, mode)
  {
    c => CategoryOutcome(c, env, mode)
  }

  lemma OutcomesDisjoint(env: Env, mode: RedactionMode)
    ensures Disjoint(Outcomes(env, mode))
  {
    var o := Outcomes(env, mode);
    forall c, d, p | o(c).Staged? && o(d).Staged? && p in o(c).files && p in o(d).files
      ensures c == d
    {
      OutcomeOwned(c, env, mode);
      OutcomeOwned(d, env, mode);
      OwnersDisjoint(c, d, p);
    }
  }

  // ---------- all categories ----------

  datatype Stage = Stage(files: Files, entries: map<string, Entry>, report: set<string>, touched: bool)

  const EMPTY := Stage(map[], map[], {}, false)

  function AddOutcome(s: Stage, c: Category, o: Outcome): Stage
    requires o.Staged?
  {
    Stage(s.files + o.files, s.entries[CategoryKey(c) := o.entry], s.report + o.report, s.touched || o.touched)
  }

  /** The staging loop, in the order the category set is iterated. */
  function StageAll(order: seq<Category>, o: Category -> Outcome): Option<Stage> {
    if order == [] then Some(EMPTY)
    else
      var front := StageAll(order[..|order| - 1], o);
      var c := order[|order| - 1];
      if front.None? then None
      else match o(c)
        case Failure => None
        case Skipped => front
        case Staged(_, _, _, _) => Some(AddOutcome(front.value, c, o(c)))
  }

  ghost predicate StagedIn(c: Category, order: seq<Category>, o: Category -> Outcome) {
    c in order && o(c).Staged?
  }

  /** Some staged category contributes this path. */
  ghost predicate Contributed(p: string, order: seq<Category>, o: Category -> Outcome) {
    exists c :: StagedIn(c, order, o) && p in o(c).files
  }

  /** The staged files are exactly the contributions of the categories, whatever the order. */
  ghost predicate FilesMean(s: Stage, order: seq<Category>, o: Category -> Outcome) {
    && (forall p | p in s.files :: Contributed(p, order, o))
    && (forall c, p | StagedIn(c, order, o) && p in o(c).files :: p in s.files && s.files[p] == o(c).files[p])
  }

  ghost predicate EntriesMean(s: Stage, order: seq<Category>, o: Category -> Outcome) {
    && (forall k | k in s.entries :: exists c :: StagedIn(c, order, o) && k == CategoryKey(c))
    && (forall c | StagedIn(c, order, o) :: CategoryKey(c) in s.entries && s.entries[CategoryKey(c)] == o(c).entry)
  }

  ghost predicate ReportMeans(s: Stage, order: seq<Category>, o: Category -> Outcome) {
    && (forall f | f in s.report :: exists c :: StagedIn(c, order, o) && f in o(c).report)
    && (forall c, f | StagedIn(c, order, o) && f in o(c).report :: f in s.report)
    && (s.touched <==> exists c :: StagedIn(c, order, o) && o(c).touched)
  }

  ghost predicate StageMeans(s: Stage, order: seq<Category>, o: Category -> Outcome) {
    FilesMean(s, order, o) && EntriesMean(s, order, o) && ReportMeans(s, order, o)
  }

  lemma StagedInStep(front: seq<Category>, c: Category, o: Category -> Outcome)
    requires o(c).Staged?
    ensures forall d :: StagedIn(d, front + [c], o) <==> d == c || StagedIn(d, front, o)
  {
  }

  lemma ContributedStep(p: string, front: seq<Category>, c: Category, o: Category -> Outcome)
    requires o(c).Staged? && (p in o(c).files || Contributed(p, front, o))
    ensures Contributed(p, front + [c], o)
  {
    if p in o(c).files {
      assert StagedIn(c, front + [c], o);
    } else {
      var d :| StagedIn(d, front, o) && p in o(d).files;
      assert StagedIn(d, front + [c], o);
    }
  }

  lemma ContributionKept(s: Stage, front: seq<Category>, c: Category, d: Category, p: string, o: Category -> Outcome)
    requires Disjoint(o) && FilesMean(s, front, o) && o(c).Staged?
    requires StagedIn(d, front + [c], o) && p in o(d).files
    ensures p in s.files + o(c).files && (s.files + o(c).files)[p] == o(d).files[p]
  {
    if d != c {
      assert StagedIn(d, front, o);
      assert p !in o(c).files;
    }
  }

  lemma FilesStep(s: Stage, front: seq<Category>, c: Category, o: Category -> Outcome)
    requires Disjoint(o) && FilesMean(s, front, o) && o(c).Staged?
    ensures FilesMean(AddOutcome(s, c, o(c)), front + [c], o)
  {
    forall p | p in s.files + o(c).files ensures Contributed(p, front + [c], o) {
      ContributedStep(p, front, c, o);
    }
    forall d, p | StagedIn(d, front + [c], o) && p in o(d).files
      ensures p in s.files + o(c).files && (s.files + o(c).files)[p] == o(d).files[p]
    {
      ContributionKept(s, front, c, d, p, o);
    }
  }

  lemma EntriesStep(s: Stage, front: seq<Category>, c: Category, o: Category -> Outcome)
    requires EntriesMean(s, front, o) && o(c).Staged?
    ensures EntriesMean(AddOutcome(s, c, o(c)), front + [c], o)
  {
    var t := AddOutcome(s, c, o(c));
    StagedInStep(front, c, o);
    forall k | k in t.entries ensures exists d :: StagedIn(d, front + [c], o) && k == CategoryKey(d) {
      if k == CategoryKey(c) {
        assert StagedIn(c, front + [c], o);
      } else {
        var d :| StagedIn(d, front, o) && k == CategoryKey(d);
        assert StagedIn(d, front + [c], o);
      }
    }
    forall d | StagedIn(d, front + [c], o)
      ensures CategoryKey(d) in t.entries && t.entries[CategoryKey(d)] == o(d).entry
    {
      if CategoryKey(d) == CategoryKey(c) {
        CategoryKeyInjective(c, d);
      }
    }
  }

  lemma ReportStep(s: Stage, front: seq<Category>, c: Category, o: Category -> Outcome)
    requires ReportMeans(s, front, o) && o(c).Staged?
    ensures ReportMeans(AddOutcome(s, c, o(c)), front + [c], o)
  {
    StagedInStep(front, c, o);
    assert StagedIn(c, front + [c], o);
  }

  lemma {:induction false} StageVerdict(order: seq<Category>, o: Category -> Outcome)
    ensures StageAll(order, o).Some? <==> forall c | c in order :: !o(c).Failure?
  {
    if order != [] {
      StageVerdict(order[..|order| - 1], o);
      assert order == order[..|order| - 1] + [order[|order| - 1]];
    }
  }

  /** A contributed file is staged as it was contributed. */
  lemma StagedFile(order: seq<Category>, o: Category -> Outcome, c: Category, p: string)
    requires Disjoint(o) && StageAll(order, o).Some?
    requires StagedIn(c, order, o) && p in o(c).files
    ensures p in StageAll(order, o).value.files && StageAll(order, o).value.files[p] == o(c).files[p]
  {
    StageMeaning(order, o);
  }

  /** A redacted export that selects the redacted logs never succeeds. */
  lemma RedactedLogsFail(order: seq<Category>, env: Env, mode: RedactionMode)
    requires LogsRedacted in order && !mode.NoRedaction?
    ensures StageAll(order, Outcomes(env, mode)).None?
  {
    LogsVerdict(env, mode);
    StageVerdict(order, Outcomes(env, mode));
  }

  lemma {:induction false} StageMeaning(order: seq<Category>, o: Category -> Outcome)
    requires Disjoint(o) && StageAll(order, o).Some?
    ensures StageMeans(StageAll(order, o).value, order, o)
  {
    if order != [] {
      var front, c := order[..|order| - 1], order[|order| - 1];
      var s := StageAll(front, o).value;
      assert order == front + [c];
      assert StageAll(order, o).value == if o(c).Staged? then AddOutcome(s, c, o(c)) else s;
      StageMeaning(front, o);
      if o(c).Staged? {
        StagedStep(s, front, c, o);
      } else {
        SkippedStep(s, front, c, o);
      }
    }
  }

  lemma StagedStep(s: Stage, front: seq<Category>, c: Category, o: Category -> Outcome)
    requires Disjoint(o) && StageMeans(s, front, o) && o(c).Staged?
    ensures StageMeans(AddOutcome(s, c, o(c)), front + [c], o)
  {
    FilesStep(s, front, c, o);
    EntriesStep(s, front, c, o);
    ReportStep(s, front, c, o);
  }

  lemma SkippedStep(s: Stage, front: seq<Category>, c: Category, o: Category -> Outcome)
    requires StageMeans(s, front, o) && !o(c).Staged?
    ensures StageMeans(s, front + [c], o)
  {
    SameStaged(s, front, front + [c], o);
  }

  /** The meaning depends only on which categories are staged. */
  lemma SameStaged(s: Stage, order: seq<Category>, other: seq<Category>, o: Category -> Outcome)
    requires StageMeans(s, order, o)
    requires forall c :: StagedIn(c, order, o) <==> StagedIn(c, other, o)
    ensures StageMeans(s, other, o)
  {
    assert FilesMean(s, other, o) by {
      assert forall p | Contributed(p, order, o) :: Contributed(p, other, o);
    }
  }

  /** What the stage means determines it. */
  lemma MeaningUnique(s: Stage, t: Stage, order: seq<Category>, o: Category -> Outcome)
    requires StageMeans(s, order, o) && StageMeans(t, order, o)
    ensures s == t
  {
    assert s.files == t.files;
    assert s.entries == t.entries;
    assert s.report == t.report;
  }

  /** Two iteration orders of one category set give the same verdict, files, entries and report contents. */
  lemma OrderIndependent(order: seq<Category>, other: seq<Category>, env: Env, mode: RedactionMode)
    requires forall c :: c in order <==> c in other
    ensures StageAll(order, Outcomes(env, mode)) == StageAll(other, Outcomes(env, mode))
  {
    OutcomesDisjoint(env, mode);
    SameOrder(order, other, Outcomes(env, mode));
  }

  lemma SameOrder(order: seq<Category>, other: seq<Category>, o: Category -> Outcome)
    requires Disjoint(o) && forall c :: c in order <==> c in other
    ensures StageAll(order, o) == StageAll(other, o)
  {
    StageVerdict(order, o);
    StageVerdict(other, o);
    if StageAll(order, o).Some? {
      StageMeaning(order, o);
      StageMeaning(other, o);
      SameStaged(StageAll(other, o).value, other, order, o);
      MeaningUnique(StageAll(order, o).value, StageAll(other, o).value, order, o);
    }
  }
}
