/** Backup categories, their archive paths, and the file contents a backup is made of. */
module BackupModel {
  import opened Json

  datatype Option<T> = None | Some(value: T)

  datatype Category =
    | Profiles
    | Subscriptions
    | RoutingProfiles
    | DnsProfiles
    | AppSettings
    | GeoDataSettings
    | RuleSetMetadata
    | RuleSetFiles
    | XrayGeoDataFiles
    | CoreMetadata
    | LogsRedacted

  /** A JSON text, a settings file, or anything else; only an array or object is a JSON document. */
  datatype Content = Doc(json: Json) | Ini(values: map<string, string>) | Bytes(data: string)

  type Files = map<string, Content>

  predicate IsDocument(c: Content) {
    c.Doc? && (c.json.Array? || c.json.Object?)
  }

  datatype RedactionMode = NoRedaction | Basic | Strict

  datatype Entry = Entry(included: bool, file: string, count: int, redacted: bool)

  /** `createdAt` is in milliseconds since the epoch; an invalid time is None. */
  datatype Manifest = Manifest(
    format: string,
    formatVersion: int,
    appName: string,
    appVersion: string,
    createdAt: Option<int>,
    createdBy: string,
    platform: string,
    portableMode: bool,
    redacted: bool,
    redactionMode: string,
    categories: map<string, Entry>,
    warnings: seq<string>,
    checksums: map<string, string>)

  const FORMAT := "zarya-backup"
  const FORMAT_VERSION := 1

  function CategoryKey(c: Category): string {
    match c
    case Profiles => "profiles"
    case Subscriptions => "subscriptions"
    case RoutingProfiles => "routing"
    case DnsProfiles => "dns"
    case AppSettings => "settings"
    case GeoDataSettings => "geoDataSettings"
    case RuleSetMetadata => "ruleSets"
    case RuleSetFiles => "ruleSetFiles"
    case XrayGeoDataFiles => "geoData"
    case CoreMetadata => "coreMetadata"
    case LogsRedacted => "logs"
  }

  function ArchivePath(c: Category): string {
    match c
    case Profiles => "data/profiles.json"
    case Subscriptions => "data/subscriptions.json"
    case RoutingProfiles => "data/routing.json"
    case DnsProfiles => "data/dns.json"
    case AppSettings => "data/settings.ini"
    case GeoDataSettings => "data/geodata-settings.json"
    case RuleSetMetadata => "data/rulesets.json"
    case RuleSetFiles => "optional/rule-set/"
    case XrayGeoDataFiles => "optional/geo/"
    case CoreMetadata => "data/core-metadata.json"
    case LogsRedacted => "diagnostics/logs-redacted.txt"
  }

  predicate IsDirectory(c: Category) {
    c.RuleSetFiles? || c.XrayGeoDataFiles?
  }

  lemma CategoryKeyInjective(c: Category, d: Category)
    requires CategoryKey(c) == CategoryKey(d)
    ensures c == d
  {
    assert |CategoryKey(c)| == |CategoryKey(d)|;
    assert CategoryKey(c)[0] == CategoryKey(d)[0];
    assert CategoryKey(c)[|CategoryKey(c)| - 1] == CategoryKey(d)[|CategoryKey(d)| - 1];
  }

  lemma ArchivePathInjective(c: Category, d: Category)
    requires ArchivePath(c) == ArchivePath(d)
    ensures c == d
  {
    assert |ArchivePath(c)| == |ArchivePath(d)|;
    assert ArchivePath(c)[5] == ArchivePath(d)[5];
    assert ArchivePath(c)[9] == ArchivePath(d)[9];
  }
}
