/** One import into the program's stores: the pre-import backup, then every selected category. */
module ImportSession {
  import opened Json
  import opened Text
  import opened BackupModel
  import opened BackupImporter

  const XRAY_PATH_KEY := "cores/xrayPath"

  const MACHINE_KEYS := {"cores/singBoxPath", "startup/startAtLogin", "startup/lastStartedProfileId",
                         "proxy/macPreferredNetworkService", "runtime/lastShutdownClean", "runtime/tunWasRunning",
                         "runtime/lastRuntimeMode"}

  predicate IsMachineSpecific(key: string) {
    key in MACHINE_KEYS || StartsWith(key, "window/")
  }

  predicate SettingImported(key: string, machineSpecific: bool) {
    key != XRAY_PATH_KEY && (machineSpecific || !IsMachineSpecific(key))
  }

  /** The stores the importer rewrites, and the categories whose importer ran, in the order they did. */
  datatype Stores = Stores(
    profiles: Store<Profile>,
    subscriptions: Store<Subscription>,
    routing: Store<NamedProfile>,
    dns: Store<NamedProfile>,
    settings: map<string, string>,
    ran: seq<Category>)

  /**
   The staged files, the options, and what the disk allows: `saves` are the categories whose store can be written,
   `copies` those whose plain files are imported without error. `geo` is the object in the geo-data file, empty if it
   holds none, or None if the file cannot be opened; `stored` is what the settings keep for a JSON value or a missing
   one. `mode` comes from `ModeFor`.
   */
  datatype Inputs = Inputs(
    backupMade: bool,
    mode: Category -> ImportMode,
    machineSpecific: bool,
    profiles: Store<Profile>,
    subscriptions: Store<Subscription>,
    routing: Store<NamedProfile>,
    dns: Store<NamedProfile>,
    settings: Option<map<string, string>>,
    geo: Option<Fields>,
    stored: Option<Json> -> string,
    routingBuiltIns: seq<NamedProfile>,
    dnsBuiltIns: seq<NamedProfile>,
    saves: set<Category>,
    copies: set<Category>)

  /** The mode a category is imported with: Skip unless the manifest includes it and the user chose a mode. */
  function ModeFor(entries: map<string, Entry>, modes: map<Category, ImportMode>): Category -> ImportMode {
    (c: Category) =>
      if CategoryKey(c) !in entries || !entries[CategoryKey(c)].included || entries[CategoryKey(c)].file == "" then Skip
      else if c !in modes then Skip
      else modes[c]
  }

  /** A category is imported in the chosen mode exactly if the manifest includes it, with a file, and one is chosen. */
  lemma ModeMeaning(entries: map<string, Entry>, modes: map<Category, ImportMode>, c: Category)
    ensures ModeFor(entries, modes)(c) ==
      if CategoryKey(c) in entries && entries[CategoryKey(c)].included && entries[CategoryKey(c)].file != ""
         && c in modes
      then modes[c] else Skip
  {
  }

  /** Where the importer looks for a category in the unpacked archive, if it imports it at all. */
  function ImportPath(c: Category): Option<string> {
    match c
    case Profiles => Some("data/profiles.json")
    case Subscriptions => Some("data/subscriptions.json")
    case RoutingProfiles => Some("data/routing.json")
    case DnsProfiles => Some("data/dns.json")
    case AppSettings => Some("data/settings.ini")
    case GeoDataSettings => Some("data/geodata-settings.json")
    case RuleSetMetadata => Some("data/rulesets.json")
    case RuleSetFiles => Some("optional/rule-set")
    case XrayGeoDataFiles => Some("optional/geo")
    case CoreMetadata => Some("data/core-metadata.json")
    case LogsRedacted => None
  }

  /** Saving replaces the store; a failed save leaves it alone. */
  function Saved<T>(current: Store<T>, items: seq<T>, ok: bool): Store<T> {
    if ok then Holds(items) else current
  }

  function NewProfiles(current: Store<Profile>, i: Inputs): Store<Profile> {
    match i.mode(Profiles)
    case Skip => current
    case Replace => Saved(current, Load(i.profiles), Profiles in i.saves)
    case MergeMode => Saved(current, MergedProfiles(Load(current), Load(i.profiles)), Profiles in i.saves)
  }

  function NewSubscriptions(current: Store<Subscription>, i: Inputs): Store<Subscription> {
    match i.mode(Subscriptions)
    case Skip => current
    case Replace => Saved(current, Load(i.subscriptions), Subscriptions in i.saves)
    case MergeMode =>
      Saved(current, MergedSubscriptions(Load(current), Load(i.subscriptions)), Subscriptions in i.saves)
  }

  function NewNamed(current: Store<NamedProfile>, file: Store<NamedProfile>, mode: ImportMode,
                    builtIns: seq<NamedProfile>, saves: bool): Store<NamedProfile> {
    match mode
    case Skip => current
    case Replace => Saved(current, WithBuiltIns(Load(file), builtIns), saves)
    case MergeMode => Saved(current, MergedNamed(Load(current), Load(file)), saves)
  }

  function SettingFilter(machineSpecific: bool): string -> bool {
    k => SettingImported(k, machineSpecific)
  }

  function Overlay(current: map<string, string>, imported: map<string, string>, allowed: string -> bool)
    : map<string, string>
  {
    current + map k | k in imported && allowed(k) :: imported[k]
  }

  lemma OverlayStep(current: map<string, string>, imported: map<string, string>, todo: set<string>, key: string,
                    allowed: string -> bool)
    requires key in todo && key in imported
    ensures Overlay(current, imported - (todo - {key}), allowed) ==
      if allowed(key) then Overlay(current, imported - todo, allowed)[key := imported[key]]
      else Overlay(current, imported - todo, allowed)
  {
  }

  /** Every key the options let through takes its imported value; every other key keeps its own. */
  function NewSettings(current: map<string, string>, i: Inputs): map<string, string> {
    if i.mode(AppSettings).Skip? || i.settings.None? then current
    else Overlay(current, i.settings.value, SettingFilter(i.machineSpecific))
  }

  // ---------- what each mode does to a store ----------

  /** A skipped category and a save that fails leave a store alone, whatever the backup holds. */
  lemma StoresKept(s: Stores, i: Inputs)
    ensures i.mode(Profiles).Skip? || Profiles !in i.saves ==> NewProfiles(s.profiles, i) == s.profiles
    ensures i.mode(Subscriptions).Skip? || Subscriptions !in i.saves ==>
      NewSubscriptions(s.subscriptions, i) == s.subscriptions
    ensures forall file, mode, builtIns, saves | mode == Skip || !saves ::
      NewNamed(s.routing, file, mode, builtIns, saves) == s.routing
    ensures i.mode(AppSettings).Skip? || i.settings.None? ==> NewSettings(s.settings, i) == s.settings
  {
  }

  /** Replacing leaves the backup's items, whatever the store held: for named profiles with the built-ins added. */
  lemma StoresReplaced(s: Stores, i: Inputs)
    ensures i.mode(Profiles).Replace? && Profiles in i.saves ==>
      Load(NewProfiles(s.profiles, i)) == Load(i.profiles)
    ensures i.mode(Subscriptions).Replace? && Subscriptions in i.saves ==>
      Load(NewSubscriptions(s.subscriptions, i)) == Load(i.subscriptions)
    ensures forall file, builtIns ::
      Load(NewNamed(s.routing, file, Replace, builtIns, true)) == WithBuiltIns(Load(file), builtIns)
  {
  }

  /** Merging into a store that is missing or cannot be read takes the backup's profiles. */
  lemma StoreMergedFromNothing(s: Stores, i: Inputs)
    requires i.mode(Profiles).MergeMode? && Profiles in i.saves && !s.profiles.Holds?
    ensures NewProfiles(s.profiles, i) == Holds(Load(i.profiles))
  {
    ProfilesIntoNothing(Load(i.profiles));
  }

  /** A merge that is saved is the merge of what both sides hold. */
  lemma StoresMerged(s: Stores, i: Inputs)
    ensures i.mode(Profiles).MergeMode? && Profiles in i.saves ==>
      Load(NewProfiles(s.profiles, i)) == MergedProfiles(Load(s.profiles), Load(i.profiles))
    ensures i.mode(Subscriptions).MergeMode? && Subscriptions in i.saves ==>
      Load(NewSubscriptions(s.subscriptions, i)) == MergedSubscriptions(Load(s.subscriptions), Load(i.subscriptions))
    ensures forall file, builtIns ::
      Load(NewNamed(s.routing, file, MergeMode, builtIns, true)) == MergedNamed(Load(s.routing), Load(file))
  {
  }

  /** After a settings import a key has the imported value exactly if it is imported and may be. */
  lemma SettingsMeaning(settings: map<string, string>, i: Inputs, key: string)
    requires !i.mode(AppSettings).Skip? && i.settings.Some?
    ensures var r, imported := NewSettings(settings, i), i.settings.value;
      var taken := key in imported && key != "cores/xrayPath" && (i.machineSpecific || !IsMachineSpecific(key));
      && (taken ==> key in r && r[key] == imported[key])
      && (!taken ==> (key in r <==> key in settings) && (key in r ==> r[key] == settings[key]))
  {
  }

  /** The keys that belong to one machine: the window's, the last session's, the paths and the login item. */
  lemma MachineKeys(name: string)
    ensures IsMachineSpecific("window/" + name)
    ensures forall key | key in ["cores/singBoxPath", "startup/startAtLogin", "startup/lastStartedProfileId",
                                 "proxy/macPreferredNetworkService", "runtime/lastShutdownClean",
                                 "runtime/tunWasRunning", "runtime/lastRuntimeMode"] :: IsMachineSpecific(key)
  {
    assert ("window/" + name)[..7] == "window/";
  }

  // ---------- the geo-data settings ----------

  const GEO_SOURCE := "geodata/selectedSourceId"
  const GEO_CHECK := "geodata/autoCheckOnStartup"
  const GEO_WARN := "geodata/warnIfMissing"
  const GEO_SITE := "geodata/verified/geosite"
  const GEO_IP := "geodata/verified/geoip"

  function GeoValue(geo: Fields, name: string): Option<Json> {
    if name in geo then Some(geo[name]) else None
  }

  /** The three settings that the geo-data importer always writes. */
  function GeoChoices(geo: Fields, stored: Option<Json> -> string): map<string, string> {
    map[GEO_SOURCE := stored(GeoValue(geo, "selectedSourceId"))]
       [GEO_CHECK := stored(GeoValue(geo, "autoCheckOnStartup"))]
       [GEO_WARN := stored(GeoValue(geo, "warnIfMissing"))]
  }

  function GeoSite(m: map<string, string>, geo: Fields, stored: Option<Json> -> string): map<string, string> {
    if "verifiedGeosite" in geo then m[GEO_SITE := stored(GeoValue(geo, "verifiedGeosite"))] else m
  }

  function GeoIp(m: map<string, string>, geo: Fields, stored: Option<Json> -> string): map<string, string> {
    if "verifiedGeoip" in geo then m[GEO_IP := stored(GeoValue(geo, "verifiedGeoip"))] else m
  }

  /** All that it writes; the last two only if the object has them. */
  function GeoSettings(geo: Fields, stored: Option<Json> -> string): map<string, string> {
    GeoIp(GeoSite(GeoChoices(geo, stored), geo, stored), geo, stored)
  }

  /** What the geo-data importer makes of the settings. */
  function NewGeo(settings: map<string, string>, i: Inputs): map<string, string> {
    if i.mode(GeoDataSettings).Skip? || i.geo.None? then settings else settings + GeoSettings(i.geo.value, i.stored)
  }

  /** The settings after an import: both importers write the same store, the geo-data one last. */
  function FinalSettings(settings: map<string, string>, i: Inputs): map<string, string> {
    NewGeo(NewSettings(settings, i), i)
  }

  /** Where the geo-data importer writes, its values stand; everywhere else those of the settings importer do. */
  lemma GeoStands(settings: map<string, string>, i: Inputs, key: string)
    requires !i.mode(GeoDataSettings).Skip? && i.geo.Some?
    ensures var r, geo, rest := FinalSettings(settings, i), GeoSettings(i.geo.value, i.stored),
      NewSettings(settings, i);
      && (key in geo ==> key in r && r[key] == geo[key])
      && (key !in geo ==> (key in r <==> key in rest) && (key in r ==> r[key] == rest[key]))
  {
  }

  /** Each geo-data setting takes the field of its own name. */
  lemma GeoFields(geo: Fields, stored: Option<Json> -> string)
    ensures var r := GeoSettings(geo, stored);
      && r[GEO_SOURCE] == stored(GeoValue(geo, "selectedSourceId"))
      && r[GEO_CHECK] == stored(GeoValue(geo, "autoCheckOnStartup"))
      && r[GEO_WARN] == stored(GeoValue(geo, "warnIfMissing"))
      && (GEO_SITE in r <==> "verifiedGeosite" in geo) && (GEO_IP in r <==> "verifiedGeoip" in geo)
      && (GEO_SITE in r ==> r[GEO_SITE] == stored(Some(geo["verifiedGeosite"])))
      && (GEO_IP in r ==> r[GEO_IP] == stored(Some(geo["verifiedGeoip"])))
  {
    GeoKeysDiffer();
  }

  lemma GeoKeysDiffer()
    ensures |GEO_SOURCE| == 24 && |GEO_CHECK| == 26 && |GEO_WARN| == 21 && |GEO_SITE| == 24 && |GEO_IP| == 22
    ensures GEO_SOURCE[8] == 's' && GEO_SITE[8] == 'v'
  {
  }

  lemma GeoPrefixes()
    ensures StartsWith(GEO_SOURCE, "geodata/") && StartsWith(GEO_CHECK, "geodata/") && StartsWith(GEO_WARN, "geodata/")
    ensures StartsWith(GEO_SITE, "geodata/") && StartsWith(GEO_IP, "geodata/")
  {
    assert GEO_SOURCE[..8] == "geodata/" && GEO_CHECK[..8] == "geodata/" && GEO_WARN[..8] == "geodata/";
    assert GEO_SITE[..8] == "geodata/" && GEO_IP[..8] == "geodata/";
  }

  lemma GeoKeySet(geo: Fields, stored: Option<Json> -> string, key: string)
    requires key in GeoSettings(geo, stored)
    ensures key == GEO_SOURCE || key == GEO_CHECK || key == GEO_WARN || key == GEO_SITE || key == GEO_IP
  {
  }

  /** Only keys below `geodata/` are written, so nothing else depends on the geo-data importer. */
  lemma GeoKeys(geo: Fields, stored: Option<Json> -> string, key: string)
    requires key in GeoSettings(geo, stored)
    ensures StartsWith(key, "geodata/")
  {
    GeoPrefixes();
    GeoKeySet(geo, stored, key);
  }

  lemma UpdateOver(before: map<string, string>, m: map<string, string>, key: string, value: string)
    ensures (before + m)[key := value] == before + m[key := value]
  {
  }

  lemma OverlaysCommute(s: map<string, string>, a: map<string, string>, b: map<string, string>)
    ensures s + a + b == s + b + a <==> forall key | key in a && key in b :: a[key] == b[key]
  {
    if forall key | key in a && key in b :: a[key] == b[key] {
      assert forall key | key in s + a + b :: (s + a + b)[key] == (s + b + a)[key];
    } else {
      var key :| key in a && key in b && a[key] != b[key];
      assert (s + a + b)[key] == b[key] && (s + b + a)[key] == a[key];
    }
  }

  /** The order of the two importers decides exactly where both bring a different value for one key. */
  lemma SettingsOrderMatters(settings: map<string, string>, i: Inputs)
    requires !i.mode(GeoDataSettings).Skip? && i.geo.Some? && !i.mode(AppSettings).Skip? && i.settings.Some?
    ensures FinalSettings(settings, i) == NewSettings(NewGeo(settings, i), i) <==>
      forall key | key in GeoSettings(i.geo.value, i.stored) && key in i.settings.value
                   && SettingImported(key, i.machineSpecific) ::
        GeoSettings(i.geo.value, i.stored)[key] == i.settings.value[key]
  {
    var allowed := SettingFilter(i.machineSpecific);
    var brought := map k | k in i.settings.value && allowed(k) :: i.settings.value[k];
    OverlaysCommute(settings, brought, GeoSettings(i.geo.value, i.stored));
  }

  // ---------- success and order ----------

  predicate Succeeds(c: Category, i: Inputs) {
    if i.mode(c).Skip? then true
    else match c
      case Profiles | Subscriptions | RoutingProfiles | DnsProfiles => c in i.saves
      case AppSettings => i.settings.Some?
      case GeoDataSettings => i.geo.Some?
      case CoreMetadata => true
      case _ => c in i.copies
  }

  function Ran(c: Category, i: Inputs): seq<Category> {
    if i.mode(c).Skip? then [] else [c]
  }

  /** The order in which the importers are tried. */
  const STORE_ORDER: seq<Category> := [Profiles, Subscriptions, RoutingProfiles, DnsProfiles, AppSettings]
  const FILE_ORDER: seq<Category> := [GeoDataSettings, RuleSetMetadata, RuleSetFiles, XrayGeoDataFiles, CoreMetadata]

  /** The selected ones among these categories, in their order. */
  function Selected(cs: seq<Category>, i: Inputs): seq<Category> {
    if cs == [] then [] else Ran(cs[0], i) + Selected(cs[1..], i)
  }

  lemma SelectedFirst(c: Category, rest: seq<Category>, i: Inputs)
    ensures Selected([c] + rest, i) == Ran(c, i) + Selected(rest, i)
  {
    assert ([c] + rest)[1..] == rest;
  }

  lemma SelectedTwo(a: Category, b: Category, i: Inputs)
    ensures Selected([a, b], i) == Ran(a, i) + Ran(b, i)
  {
    assert [a] + [b] == [a, b] && [b] + [] == [b];
    SelectedFirst(a, [b], i);
    SelectedFirst(b, [], i);
  }

  /** Five importers one after the other, after whatever ran before. */
  lemma SelectedFive(ran: seq<Category>, a: Category, b: Category, c: Category, d: Category, e: Category, i: Inputs)
    ensures ran + Ran(a, i) + Ran(b, i) + Ran(c, i) + Ran(d, i) + Ran(e, i) == ran + Selected([a, b, c, d, e], i)
  {
    assert [a] + [b, c, d, e] == [a, b, c, d, e] && [b] + [c, d, e] == [b, c, d, e] && [c] + [d, e] == [c, d, e];
    SelectedFirst(a, [b, c, d, e], i);
    SelectedFirst(b, [c, d, e], i);
    SelectedFirst(c, [d, e], i);
    SelectedTwo(d, e, i);
    Regroup(ran, Ran(a, i), Ran(b, i), Ran(c, i), Ran(d, i), Ran(e, i));
  }

  lemma Regroup(r: seq<Category>, a: seq<Category>, b: seq<Category>, c: seq<Category>,
                d: seq<Category>, e: seq<Category>)
    ensures r + a + b + c + d + e == r + (a + (b + (c + (d + e))))
  {
    assert r + a + b + c + d + e == r + a + b + c + (d + e);
    assert r + a + b + c + (d + e) == r + a + (b + (c + (d + e)));
  }

  lemma {:induction false} SelectedAppend(a: seq<Category>, b: seq<Category>, i: Inputs)
    ensures Selected(a + b, i) == Selected(a, i) + Selected(b, i)
  {
    if a == [] {
      assert a + b == b;
    } else {
      assert (a + b)[1..] == a[1..] + b;
      SelectedAppend(a[1..], b, i);
    }
  }

  lemma RanInOrder(ran: seq<Category>, i: Inputs)
    ensures ran + Selected(STORE_ORDER, i) + Selected(FILE_ORDER, i) == ran + Selected(STORE_ORDER + FILE_ORDER, i)
  {
    SelectedAppend(STORE_ORDER, FILE_ORDER, i);
  }

  lemma {:induction false} SelectedMeaning(cs: seq<Category>, i: Inputs, c: Category)
    ensures c in Selected(cs, i) <==> c in cs && !i.mode(c).Skip?
  {
    if cs != [] {
      SelectedMeaning(cs[1..], i, c);
      assert c in cs <==> c == cs[0] || c in cs[1..];
    }
  }

  lemma AllOrdered(c: Category)
    ensures c in STORE_ORDER + FILE_ORDER <==> !c.LogsRedacted?
  {
    assert STORE_ORDER[0] == Profiles && STORE_ORDER[1] == Subscriptions && STORE_ORDER[2] == RoutingProfiles;
    assert STORE_ORDER[3] == DnsProfiles && STORE_ORDER[4] == AppSettings;
    assert FILE_ORDER[0] == GeoDataSettings && FILE_ORDER[1] == RuleSetMetadata && FILE_ORDER[2] == RuleSetFiles;
    assert FILE_ORDER[3] == XrayGeoDataFiles && FILE_ORDER[4] == CoreMetadata;
  }

  /** Every selected category runs, redacted logs apart, and no other. */
  lemma EverySelectedRuns(i: Inputs, c: Category)
    ensures c in Selected(STORE_ORDER + FILE_ORDER, i) <==> !c.LogsRedacted? && !i.mode(c).Skip?
  {
    SelectedMeaning(STORE_ORDER + FILE_ORDER, i, c);
    AllOrdered(c);
  }

  predicate StoresSucceed(i: Inputs) {
    && Succeeds(Profiles, i) && Succeeds(Subscriptions, i) && Succeeds(RoutingProfiles, i)
    && Succeeds(DnsProfiles, i) && Succeeds(AppSettings, i)
  }

  predicate FilesSucceed(i: Inputs) {
    && Succeeds(GeoDataSettings, i) && Succeeds(RuleSetMetadata, i) && Succeeds(RuleSetFiles, i)
    && Succeeds(XrayGeoDataFiles, i) && Succeeds(CoreMetadata, i)
  }

  ghost predicate AllSucceed(i: Inputs) {
    forall c: Category :: c.LogsRedacted? || Succeeds(c, i)
  }

  lemma EverySucceeds(i: Inputs)
    ensures StoresSucceed(i) && FilesSucceed(i) <==> AllSucceed(i)
  {
  }

  class Importer {
    var stores: Stores

    constructor (stores: Stores)
      ensures this.stores == stores
    {
      this.stores := stores;
    }

    method ImportProfiles(i: Inputs) returns (ok: bool)
      modifies this
      ensures stores == old(stores).(profiles := NewProfiles(old(stores).profiles, i),
                                     ran := old(stores).ran + Ran(Profiles, i))
      ensures ok == Succeeds(Profiles, i)
    {
      var mode := i.mode(Profiles);
      if mode == Skip {
        return true;
      }
      stores := stores.(ran := stores.ran + [Profiles]);
      var items := Load(i.profiles);
      if mode == MergeMode {
        var merged, _, _ := MergeProfiles(Load(stores.profiles), items);
        items := merged;
      }
      ok := Profiles in i.saves;
      stores := stores.(profiles := Saved(stores.profiles, items, ok));
    }

    method ImportSubscriptions(i: Inputs) returns (ok: bool)
      modifies this
      ensures stores == old(stores).(subscriptions := NewSubscriptions(old(stores).subscriptions, i),
                                     ran := old(stores).ran + Ran(Subscriptions, i))
      ensures ok == Succeeds(Subscriptions, i)
    {
      var mode := i.mode(Subscriptions);
      if mode == Skip {
        return true;
      }
      stores := stores.(ran := stores.ran + [Subscriptions]);
      var items := Load(i.subscriptions);
      if mode == MergeMode {
        items := MergeSubscriptions(Load(stores.subscriptions), items);
      }
      ok := Subscriptions in i.saves;
      stores := stores.(subscriptions := Saved(stores.subscriptions, items, ok));
    }

    method ImportNamed(current: Store<NamedProfile>, file: Store<NamedProfile>, mode: ImportMode,
                       builtIns: seq<NamedProfile>, saves: bool)
      returns (result: Store<NamedProfile>)
      ensures result == NewNamed(current, file, mode, builtIns, saves)
    {
      match mode
      case Skip => result := current;
      case Replace =>
        var merged := ReplaceNamed(Load(file), builtIns);
        result := Saved(current, merged, saves);
      case MergeMode =>
        var merged := MergeNamed(Load(current), Load(file));
        result := Saved(current, merged, saves);
    }

    method ImportRouting(i: Inputs) returns (ok: bool)
      modifies this
      ensures stores == old(stores).(routing := NewNamed(old(stores).routing, i.routing, i.mode(RoutingProfiles),
                                                         i.routingBuiltIns, RoutingProfiles in i.saves),
                                     ran := old(stores).ran + Ran(RoutingProfiles, i))
      ensures ok == Succeeds(RoutingProfiles, i)
    {
      var mode, saves := i.mode(RoutingProfiles), RoutingProfiles in i.saves;
      var routing := ImportNamed(stores.routing, i.routing, mode, i.routingBuiltIns, saves);
      stores := stores.(routing := routing, ran := stores.ran + Ran(RoutingProfiles, i));
      ok := mode == Skip || saves;
    }

    method ImportDns(i: Inputs) returns (ok: bool)
      modifies this
      ensures stores == old(stores).(dns := NewNamed(old(stores).dns, i.dns, i.mode(DnsProfiles),
                                                     i.dnsBuiltIns, DnsProfiles in i.saves),
                                     ran := old(stores).ran + Ran(DnsProfiles, i))
      ensures ok == Succeeds(DnsProfiles, i)
    {
      var mode, saves := i.mode(DnsProfiles), DnsProfiles in i.saves;
      var dns := ImportNamed(stores.dns, i.dns, mode, i.dnsBuiltIns, saves);
      stores := stores.(dns := dns, ran := stores.ran + Ran(DnsProfiles, i));
      ok := mode == Skip || saves;
    }

    static method CopySettings(before: map<string, string>, imported: map<string, string>, allowed: string -> bool)
      returns (target: map<string, string>)
      ensures target == Overlay(before, imported, allowed)
    {
      target := before;
      var todo := imported.Keys;
      while todo != {}
        invariant todo <= imported.Keys
        invariant target == Overlay(before, imported - todo, allowed)
        decreases todo
      {
        var key :| key in todo;
        OverlayStep(before, imported, todo, key, allowed);
        todo := todo - {key};
        if !allowed(key) {
          continue;
        }
        target := target[key := imported[key]];
      }
      assert imported - {} == imported;
    }

    method ImportSettings(i: Inputs) returns (ok: bool)
      modifies this
      ensures stores == old(stores).(settings := NewSettings(old(stores).settings, i),
                                     ran := old(stores).ran + Ran(AppSettings, i))
      ensures ok == Succeeds(AppSettings, i)
    {
      if i.mode(AppSettings) == Skip {
        return true;
      }
      stores := stores.(ran := stores.ran + [AppSettings]);
      if i.settings.None? {
        return false;
      }
      var target := CopySettings(stores.settings, i.settings.value, SettingFilter(i.machineSpecific));
      stores := stores.(settings := target);
      ok := true;
    }

    /** Writes the geo-data settings over whatever the settings importer left. */
    method ImportGeoDataSettings(i: Inputs) returns (ok: bool)
      modifies this
      ensures stores == old(stores).(settings := NewGeo(old(stores).settings, i),
                                     ran := old(stores).ran + Ran(GeoDataSettings, i))
      ensures ok == Succeeds(GeoDataSettings, i)
    {
      if i.mode(GeoDataSettings) == Skip {
        return true;
      }
      stores := stores.(ran := stores.ran + [GeoDataSettings]);
      if i.geo.None? {
        return false;
      }
      var target := WriteGeo(stores.settings, i.geo.value, i.stored);
      stores := stores.(settings := target);
      ok := true;
    }

    static method WriteGeo(before: map<string, string>, geo: Fields, stored: Option<Json> -> string)
      returns (target: map<string, string>)
      ensures target == before + GeoSettings(geo, stored)
    {
      target := WriteChoices(before, geo, stored);
      ghost var m := GeoChoices(geo, stored);
      if "verifiedGeosite" in geo {
        UpdateOver(before, m, GEO_SITE, stored(GeoValue(geo, "verifiedGeosite")));
        target := target[GEO_SITE := stored(GeoValue(geo, "verifiedGeosite"))];
      }
      m := GeoSite(m, geo, stored);
      if "verifiedGeoip" in geo {
        UpdateOver(before, m, GEO_IP, stored(GeoValue(geo, "verifiedGeoip")));
        target := target[GEO_IP := stored(GeoValue(geo, "verifiedGeoip"))];
      }
    }

    static method WriteChoices(before: map<string, string>, geo: Fields, stored: Option<Json> -> string)
      returns (target: map<string, string>)
      ensures target == before + GeoChoices(geo, stored)
    {
      var source, check := stored(GeoValue(geo, "selectedSourceId")), stored(GeoValue(geo, "autoCheckOnStartup"));
      var warn := stored(GeoValue(geo, "warnIfMissing"));
      target := before[GEO_SOURCE := source];
      target := target[GEO_CHECK := check];
      target := target[GEO_WARN := warn];
      ghost var m: map<string, string> := map[];
      assert before + m == before;
      UpdateOver(before, m, GEO_SOURCE, source);
      UpdateOver(before, m[GEO_SOURCE := source], GEO_CHECK, check);
      UpdateOver(before, m[GEO_SOURCE := source][GEO_CHECK := check], GEO_WARN, warn);
      assert m[GEO_SOURCE := source] == map[GEO_SOURCE := source];
    }

    /** The importers that copy plain files; their contents are not part of this model. */
    method ImportFiles(c: Category, i: Inputs) returns (ok: bool)
      requires c.RuleSetMetadata? || c.RuleSetFiles? || c.XrayGeoDataFiles? || c.CoreMetadata?
      modifies this
      ensures stores == old(stores).(ran := old(stores).ran + Ran(c, i))
      ensures ok == Succeeds(c, i)
    {
      if i.mode(c) == Skip {
        return true;
      }
      stores := stores.(ran := stores.ran + [c]);
      ok := c == CoreMetadata || c in i.copies;
    }

    /** The five importers with a store of their own run one after the other, whatever each returns. */
    method ImportStores(i: Inputs) returns (ok: bool)
      modifies this
      ensures stores == Stores(NewProfiles(old(stores).profiles, i), NewSubscriptions(old(stores).subscriptions, i),
                               NewNamed(old(stores).routing, i.routing, i.mode(RoutingProfiles),
                                        i.routingBuiltIns, RoutingProfiles in i.saves),
                               NewNamed(old(stores).dns, i.dns, i.mode(DnsProfiles),
                                        i.dnsBuiltIns, DnsProfiles in i.saves),
                               NewSettings(old(stores).settings, i),
                               old(stores).ran + Selected(STORE_ORDER, i))
      ensures ok <==> StoresSucceed(i)
    {
      ok := ImportProfiles(i);
      var done := ImportSubscriptions(i);
      ok := done && ok;
      done := ImportRouting(i);
      ok := done && ok;
      done := ImportDns(i);
      ok := done && ok;
      done := ImportSettings(i);
      ok := done && ok;
      SelectedFive(old(stores).ran, Profiles, Subscriptions, RoutingProfiles, DnsProfiles, AppSettings, i);
    }

    method ImportPlainFiles(i: Inputs) returns (ok: bool)
      modifies this
      ensures stores == old(stores).(settings := NewGeo(old(stores).settings, i),
                                     ran := old(stores).ran + Selected(FILE_ORDER, i))
      ensures ok <==> FilesSucceed(i)
    {
      ok := ImportGeoDataSettings(i);
      var done := ImportFiles(RuleSetMetadata, i);
      ok := done && ok;
      done := ImportFiles(RuleSetFiles, i);
      ok := done && ok;
      done := ImportFiles(XrayGeoDataFiles, i);
      ok := done && ok;
      done := ImportFiles(CoreMetadata, i);
      ok := done && ok;
      SelectedFive(old(stores).ran, GeoDataSettings, RuleSetMetadata, RuleSetFiles, XrayGeoDataFiles, CoreMetadata, i);
    }

    /**
     Without the pre-import backup nothing changes. With it every selected importer runs, in the fixed order and
     whatever the others return. Each store depends on its own category alone, but for the settings, which the
     geo-data importer writes after the settings importer. The import succeeds exactly when all importers do.
     */
    method ImportFromStaging(entries: map<string, Entry>, modes: map<Category, ImportMode>, i: Inputs)
      returns (ok: bool)
      requires i.mode == ModeFor(entries, modes)
      modifies this
      ensures !i.backupMade ==> !ok && stores == old(stores)
      ensures i.backupMade ==>
        && stores == Stores(NewProfiles(old(stores).profiles, i), NewSubscriptions(old(stores).subscriptions, i),
                            NewNamed(old(stores).routing, i.routing, i.mode(RoutingProfiles),
                                     i.routingBuiltIns, RoutingProfiles in i.saves),
                            NewNamed(old(stores).dns, i.dns, i.mode(DnsProfiles),
                                     i.dnsBuiltIns, DnsProfiles in i.saves),
                            FinalSettings(old(stores).settings, i),
                            old(stores).ran + Selected(STORE_ORDER + FILE_ORDER, i))
        && (ok <==> AllSucceed(i))
    {
      if !i.backupMade {
        return false;
      }
      ok := ImportStores(i);
      var done := ImportPlainFiles(i);
      ok := done && ok;
      RanInOrder(old(stores).ran, i);
      EverySucceeds(i);
    }
  }
}
