/** The DNS object of the Xray configuration. */
module XrayDns {
  import Text
  import StringOrder
  import DnsManager
  import opened Json

  datatype Kind = PlainIp | DoH | Local | FakeDnsPlaceholder

  datatype Server = Server(
    enabled: bool, kind: Kind, address: string, port: int, domains: seq<string>, expectIPs: seq<string>,
    queryStrategy: string, timeoutMs: int, tag: string, skipFallback: bool)

  datatype Strategy = UseSystemDefault | UseIP | UseIPv4 | UseIPv6

  datatype Profile = Profile(
    enabled: bool, mode: DnsManager.Mode, strategy: Strategy, disableCache: bool, disableFallback: bool,
    disableFallbackIfMatch: bool, hosts: map<string, string>, servers: seq<Server>)

  // ---------- one server ----------

  function EffectiveAddress(s: Server): string {
    var address := Text.Trim(s.address);
    if s.port > 0 && ':' !in address && s.kind == PlainIp then address + ":" + Text.Decimal(s.port) else address
  }

  predicate IsSimple(s: Server) {
    && s.domains == [] && s.expectIPs == [] && Text.Blank(s.tag) && s.timeoutMs <= 0 && !s.skipFallback
    && Text.Blank(s.queryStrategy)
  }

  function ServerLists(s: Server): Fields {
    var f: Fields := map["address" := String(EffectiveAddress(s))];
    WithList(WithList(f, "domains", Text.NonBlank(s.domains)), "expectIPs", Text.NonBlank(s.expectIPs))
  }

  function ServerObject(s: Server): Fields {
    var f := WithPositive(With(ServerLists(s), "tag", Text.Trim(s.tag)), "timeoutMs", s.timeoutMs);
    With(WithFlag(f, "skipFallback", s.skipFallback), "queryStrategy", Text.Trim(s.queryStrategy))
  }

  /** Null for a server without an address. */
  function ServerJson(s: Server): Json {
    if EffectiveAddress(s) == "" then Null
    else if IsSimple(s) then String(EffectiveAddress(s))
    else Object(ServerObject(s))
  }

  /** What a reader takes from an entry of the servers array; a string is an address with no conditions. */
  datatype Entry = Entry(
    address: string, domains: seq<string>, expectIPs: seq<string>, tag: string, timeoutMs: int, skipFallback: bool,
    queryStrategy: string)

  function ReadEntry(j: Json): Entry {
    if j.String? then Entry(j.text, [], [], "", 0, false, "")
    else
      var f := ToObject(j);
      Entry(ToString(Value(f, "address")), Texts(ToArray(Value(f, "domains"))), Texts(ToArray(Value(f, "expectIPs"))),
            ToString(Value(f, "tag")), ToInt(Value(f, "timeoutMs")), ToBool(Value(f, "skipFallback")),
            ToString(Value(f, "queryStrategy")))
  }

  function Wanted(s: Server): Entry {
    Entry(EffectiveAddress(s), Text.NonBlank(s.domains), Text.NonBlank(s.expectIPs), Text.Trim(s.tag),
          if s.timeoutMs > 0 then s.timeoutMs else 0, s.skipFallback, Text.Trim(s.queryStrategy))
  }

  lemma ListsRead(s: Server)
    ensures var f := ServerLists(s);
      && Value(f, "address") == String(EffectiveAddress(s))
      && Texts(ToArray(Value(f, "domains"))) == Text.NonBlank(s.domains)
      && Texts(ToArray(Value(f, "expectIPs"))) == Text.NonBlank(s.expectIPs)
      && "tag" !in f && "timeoutMs" !in f && "skipFallback" !in f && "queryStrategy" !in f
  {
    StringsRead(Text.NonBlank(s.domains));
    StringsRead(Text.NonBlank(s.expectIPs));
    assert "address"[0] == 'a' && "domains"[0] == 'd' && "expectIPs"[0] == 'e' && "timeoutMs"[0] == 't';
    assert Texts([]) == [];
  }

  lemma FieldsRead(f: Fields, tag: string, timeoutMs: int, skipFallback: bool, strategy: string)
    requires "tag" !in f && "timeoutMs" !in f && "skipFallback" !in f && "queryStrategy" !in f
    ensures var g := WithPositive(With(f, "tag", tag), "timeoutMs", timeoutMs);
      var h := With(WithFlag(g, "skipFallback", skipFallback), "queryStrategy", strategy);
      && ToString(Value(h, "tag")) == tag && ToInt(Value(h, "timeoutMs")) == (if timeoutMs > 0 then timeoutMs else 0)
      && ToBool(Value(h, "skipFallback")) == skipFallback && ToString(Value(h, "queryStrategy")) == strategy
      && (forall k | k in ["address", "domains", "expectIPs"] :: Value(h, k) == Value(f, k))
  {
    assert "address"[0] == 'a' && "domains"[0] == 'd' && "expectIPs"[0] == 'e' && "timeoutMs"[0] == 't';
  }

  /** An emitted entry says what the server says, in either of its two forms. */
  lemma EntryReadsBack(s: Server)
    requires EffectiveAddress(s) != ""
    ensures ReadEntry(ServerJson(s)) == Wanted(s)
  {
    if !IsSimple(s) {
      ListsRead(s);
      FieldsRead(ServerLists(s), Text.Trim(s.tag), s.timeoutMs, s.skipFallback, Text.Trim(s.queryStrategy));
      assert ["address", "domains", "expectIPs"][0] == "address";
      assert ["address", "domains", "expectIPs"][1] == "domains";
      assert ["address", "domains", "expectIPs"][2] == "expectIPs";
    }
  }

  /** A plain server's port is lost exactly when its address contains a colon, as every IPv6 address does. */
  lemma PortHonoured(s: Server, port: int)
    requires s.kind == PlainIp && s.port > 0 && port > 0 && port != s.port
    ensures EffectiveAddress(s) == EffectiveAddress(s.(port := port)) <==> ':' in Text.Trim(s.address)
  {
    var a, x, y := Text.Trim(s.address), Text.Decimal(s.port), Text.Decimal(port);
    if ':' !in a && a + ":" + x == a + ":" + y {
      assert (a + ":" + x)[|a| + 1..] == x && (a + ":" + y)[|a| + 1..] == y;
      Text.DecimalInjective(s.port, port);
    }
  }

  /** A server with nothing but an address is a plain text; any condition makes it an object. */
  lemma SimpleForm(s: Server)
    requires EffectiveAddress(s) != ""
    ensures ServerJson(s).String? <==>
      && s.domains == [] && s.expectIPs == [] && Text.Blank(s.tag) && s.timeoutMs <= 0 && !s.skipFallback
      && Text.Blank(s.queryStrategy)
    ensures ServerJson(s).Object? <==> !ServerJson(s).String?
  {
  }

  /** The address of a plain server with a port reads as host and port; every other address is the server's own. */
  lemma HostAndPort(s: Server)
    ensures s.kind == PlainIp && s.port > 0 && ':' !in Text.Trim(s.address) ==>
      Text.Split(EffectiveAddress(s), ':') == [Text.Trim(s.address), Text.Decimal(s.port)]
    ensures s.kind != PlainIp || s.port <= 0 || ':' in Text.Trim(s.address) ==>
      EffectiveAddress(s) == Text.Trim(s.address)
  {
    if s.kind == PlainIp && s.port > 0 && ':' !in Text.Trim(s.address) {
      NoColon(Text.Decimal(s.port));
      Text.SplitAround(Text.Decimal(s.port), ':', "");
      Text.SplitAround(Text.Trim(s.address), ':', Text.Decimal(s.port));
    }
  }

  lemma NoColon(digits: string)
    requires Text.AllDigits(digits)
    ensures ':' !in digits
  {
  }

  // ---------- the servers ----------

  predicate Candidate(s: Server) {
    s.enabled && s.kind != FakeDnsPlaceholder
  }

  predicate Counted(s: Server) {
    Candidate(s) && !Text.Blank(s.address)
  }

  /** No address, but a port that is appended to it. */
  predicate PortOnly(s: Server) {
    s.enabled && s.kind == PlainIp && Text.Blank(s.address) && s.port > 0
  }

  lemma AddressPresent(s: Server)
    ensures Candidate(s) ==> (EffectiveAddress(s) != "" <==> Counted(s) || PortOnly(s))
    ensures EffectiveAddress(s) != "" && Text.Blank(s.address) ==> EffectiveAddress(s) == ":" + Text.Decimal(s.port)
  {
  }

  function Count(servers: seq<Server>, test: Server -> bool): nat {
    if servers == [] then 0 else (if test(servers[0]) then 1 else 0) + Count(servers[1..], test)
  }

  function EnabledServerCount(p: Profile): nat {
    Count(p.servers, s => Counted(s))
  }

  predicate ShouldGenerate(p: Profile) {
    p.enabled && p.mode != DnsManager.System && EnabledServerCount(p) > 0
  }

  /** An object is due for a profile in use that is not the system's and has some server to name. */
  lemma ShouldMeaning(p: Profile)
    ensures ShouldGenerate(p) <==>
      && p.enabled && p.mode != DnsManager.System
      && exists s :: s in p.servers && s.enabled && s.kind != FakeDnsPlaceholder && !Text.Blank(s.address)
  {
    CountZero(p.servers, s => Counted(s));
  }

  predicate Emits(s: Server) {
    Candidate(s) && EffectiveAddress(s) != ""
  }

  function EntryOf(s: Server): seq<Json> {
    if Emits(s) then [ServerJson(s)] else []
  }

  function Entries(servers: seq<Server>): seq<Json> {
    if servers == [] then [] else EntryOf(servers[0]) + Entries(servers[1..])
  }

  function Filtered(servers: seq<Server>): seq<Server> {
    if servers == [] then [] else (if Emits(servers[0]) then [servers[0]] else []) + Filtered(servers[1..])
  }

  /** A server that is off or a placeholder is never emitted; any other with an address always is. */
  lemma EmitsExactly(s: Server)
    ensures !s.enabled || s.kind == FakeDnsPlaceholder ==> !Emits(s)
    ensures s.enabled && s.kind != FakeDnsPlaceholder && !Text.Blank(s.address) ==> Emits(s)
    ensures s.enabled && Text.Blank(s.address) ==> (Emits(s) <==> s.kind == PlainIp && s.port > 0)
  {
  }

  /** The entries are those of the emitting servers, in the same order. */
  lemma {:induction false} EntriesReadBack(servers: seq<Server>)
    ensures |Entries(servers)| == |Filtered(servers)|
    ensures forall i | 0 <= i < |Entries(servers)| :: ReadEntry(Entries(servers)[i]) == Wanted(Filtered(servers)[i])
  {
    if servers != [] {
      EntriesReadBack(servers[1..]);
      if Emits(servers[0]) {
        EntryReadsBack(servers[0]);
      }
    }
  }

  /** There are as many entries as counted servers, and one more for each server that has only a port. */
  lemma {:induction false} EntryCount(servers: seq<Server>, counted: Server -> bool, portOnly: Server -> bool)
    requires forall s :: counted(s) == Counted(s) && portOnly(s) == PortOnly(s)
    ensures |Entries(servers)| == Count(servers, counted) + Count(servers, portOnly)
  {
    if servers != [] {
      AddressPresent(servers[0]);
      EntryCount(servers[1..], counted, portOnly);
    }
  }

  lemma {:induction false} CountZero(servers: seq<Server>, test: Server -> bool)
    ensures Count(servers, test) == 0 <==> forall s | s in servers :: !test(s)
  {
    if servers != [] {
      CountZero(servers[1..], test);
      assert servers == [servers[0]] + servers[1..];
    }
  }

  /** The number of entries is the number the decision was based on, unless some server has a port and no address. */
  lemma CountsAgree(p: Profile)
    ensures |Entries(p.servers)| == EnabledServerCount(p) <==> forall s | s in p.servers :: !PortOnly(s)
    ensures |Entries(p.servers)| >= EnabledServerCount(p)
  {
    var portOnly := (s: Server) => PortOnly(s);
    EntryCount(p.servers, s => Counted(s), portOnly);
    CountZero(p.servers, portOnly);
  }

  // ---------- hosts ----------

  /** This entry gives the host `name` a value, after trimming both. */
  predicate Names(hosts: map<string, string>, key: string, name: string) {
    key in hosts && Text.Trim(key) == name && name != "" && !Text.Blank(hosts[key])
  }

  /** Of the entries that name the same host, the greatest key in the map's order decides. */
  ghost predicate Decides(hosts: map<string, string>, keys: set<string>, key: string, name: string) {
    && key in keys && Names(hosts, key, name)
    && forall k | k in keys && Names(hosts, k, name) && k != key :: StringOrder.Less(k, key)
  }

  ghost predicate HostsMean(hosts: map<string, string>, keys: set<string>, r: Fields) {
    && (forall name :: name in r <==> exists key | key in keys :: Names(hosts, key, name))
    && forall name, key | name in r && Decides(hosts, keys, key, name) :: r[name] == String(Text.Trim(hosts[key]))
  }

  function Inserted(hosts: map<string, string>, r: Fields, key: string): Fields
    requires key in hosts
  {
    var name, value := Text.Trim(key), Text.Trim(hosts[key]);
    if name != "" && value != "" then r[name := String(value)] else r
  }

  lemma HostNames(hosts: map<string, string>, keys: set<string>, r: Fields, key: string, s: Fields)
    requires HostsMean(hosts, keys, r) && key in hosts
    requires s.Keys == r.Keys + (if Names(hosts, key, Text.Trim(key)) then {Text.Trim(key)} else {})
    ensures forall name :: name in s <==> exists k | k in keys + {key} :: Names(hosts, k, name)
  {
    forall name ensures name in s <==> exists k | k in keys + {key} :: Names(hosts, k, name) {
      if name in r {
        var k :| k in keys && Names(hosts, k, name);
        assert k in keys + {key};
      } else if name in s {
        assert key in keys + {key} && Names(hosts, key, name);
      }
    }
  }

  lemma StillDecides(hosts: map<string, string>, keys: set<string>, key: string, k: string, name: string)
    requires key in hosts && forall other | other in keys :: StringOrder.Less(other, key)
    requires Decides(hosts, keys + {key}, k, name)
    ensures if Names(hosts, key, name) then k == key else Decides(hosts, keys, k, name)
  {
    if k != key && Names(hosts, key, name) {
      assert key in keys + {key};
      StringOrder.LessTotal(k, key);
    }
  }

  /** Inserting the entries in increasing key order keeps the meaning. */
  lemma HostStep(hosts: map<string, string>, keys: set<string>, r: Fields, key: string)
    requires HostsMean(hosts, keys, r) && key in hosts && forall k | k in keys :: StringOrder.Less(k, key)
    ensures HostsMean(hosts, keys + {key}, Inserted(hosts, r, key))
  {
    var s := Inserted(hosts, r, key);
    HostNames(hosts, keys, r, key, s);
    forall name, k | name in s && Decides(hosts, keys + {key}, k, name) ensures s[name] == String(Text.Trim(hosts[k])) {
      StillDecides(hosts, keys, key, k, name);
      if !Names(hosts, key, name) {
        assert k in keys && Names(hosts, k, name);
        assert name in r;
      }
    }
  }

  lemma {:induction false} SomeDecides(hosts: map<string, string>, keys: set<string>, key: string, name: string)
    requires key in keys && Names(hosts, key, name)
    ensures exists k :: Decides(hosts, keys, k, name)
    decreases keys
  {
    if k :| k in keys && Names(hosts, k, name) && k != key && !StringOrder.Less(k, key) {
      StringOrder.LessTotal(k, key);
      SomeDecides(hosts, keys - {key}, k, name);
      var d :| Decides(hosts, keys - {key}, d, name);
      if d != k {
        StringOrder.LessTransitive(key, k, d);
      }
      assert Decides(hosts, keys, d, name);
    } else {
      assert Decides(hosts, keys, key, name);
    }
  }

  lemma SameName(hosts: map<string, string>, keys: set<string>, a: Fields, b: Fields, name: string)
    requires HostsMean(hosts, keys, a) && HostsMean(hosts, keys, b) && name in a
    ensures name in b && a[name] == b[name]
  {
    var key :| key in keys && Names(hosts, key, name);
    SomeDecides(hosts, keys, key, name);
  }

  lemma SameMaps(a: Fields, b: Fields)
    requires forall name | name in a :: name in b && a[name] == b[name]
    requires forall name | name in b :: name in a
    ensures a == b
  {
  }

  /** The meaning fixes the object: there is only one. */
  lemma HostsUnique(hosts: map<string, string>, keys: set<string>, a: Fields, b: Fields)
    requires HostsMean(hosts, keys, a) && HostsMean(hosts, keys, b)
    ensures a == b
  {
    forall name | name in a ensures name in b && a[name] == b[name] {
      SameName(hosts, keys, a, b, name);
    }
    forall name | name in b ensures name in a {
      SameName(hosts, keys, b, a, name);
    }
    SameMaps(a, b);
  }

  /** One entry names its host, trimmed, unless a side is blank. */
  lemma HostOfOne(key: string, value: string, r: Fields)
    requires HostsMean(map[key := value], {key}, r)
    ensures r == if Text.Blank(key) || Text.Blank(value) then map[]
                 else map[Text.Trim(key) := String(Text.Trim(value))]
  {
    var hosts := map[key := value];
    if !Text.Blank(key) && !Text.Blank(value) {
      assert Names(hosts, key, Text.Trim(key));
      assert Decides(hosts, {key}, key, Text.Trim(key));
    }
  }

  method CollectHosts(hosts: map<string, string>) returns (r: Fields)
    ensures HostsMean(hosts, hosts.Keys, r)
  {
    r := map[];
    var keys := StringOrder.SortSet(hosts.Keys);
    ghost var done: set<string> := {};
    for i := 0 to |keys|
      invariant HostsMean(hosts, done, r)
      invariant forall k :: k in done <==> exists j | 0 <= j < i :: keys[j] == k
    {
      var key := keys[i];
      assert key in keys;
      HostStep(hosts, done, r, key);
      var name, value := Text.Trim(key), Text.Trim(hosts[key]);
      if name != "" && value != "" {
        r := r[name := String(value)];
      }
      done := done + {key};
    }
    assert done == hosts.Keys;
  }

  // ---------- the object ----------

  function StrategyValue(s: Strategy): string {
    match s
    case UseSystemDefault => ""
    case UseIP => "UseIP"
    case UseIPv4 => "UseIPv4"
    case UseIPv6 => "UseIPv6"
  }

  /** The system's strategy leaves the field out, and the others have names of their own. */
  lemma StrategyNames(s: Strategy, t: Strategy)
    ensures StrategyValue(s) == "" <==> s == UseSystemDefault
    ensures StrategyValue(s) == StrategyValue(t) ==> s == t
    ensures StrategyValue(UseIP) == "UseIP"
    ensures StrategyValue(UseIPv4) == "UseIPv4" && StrategyValue(UseIPv6) == "UseIPv6"
  {
    assert "UseIPv4"[6] == '4' && "UseIPv6"[6] == '6';
  }

  function WithHosts(hosts: Fields): Fields {
    if hosts == map[] then map[] else map["hosts" := Object(hosts)]
  }

  function DnsObject(p: Profile, hosts: Fields): Fields {
    var f := WithHosts(hosts)["servers" := Array(Entries(p.servers))];
    var g := With(f, "queryStrategy", StrategyValue(p.strategy));
    WithFlag(WithFlag(WithFlag(g, "disableCache", p.disableCache), "disableFallback", p.disableFallback),
             "disableFallbackIfMatch", p.disableFallbackIfMatch)
  }

  lemma FlagsRead(g: Fields, a: bool, b: bool, c: bool)
    requires "disableCache" !in g && "disableFallback" !in g && "disableFallbackIfMatch" !in g
    ensures var h := WithFlag(WithFlag(WithFlag(g, "disableCache", a), "disableFallback", b),
                       "disableFallbackIfMatch", c);
      && (ToBool(Value(h, "disableCache")) <==> a) && (ToBool(Value(h, "disableFallback")) <==> b)
      && (ToBool(Value(h, "disableFallbackIfMatch")) <==> c)
      && forall k | k in ["hosts", "servers", "queryStrategy"] :: Value(h, k) == Value(g, k)
  {
  }

  lemma HostsAndServers(hosts: Fields, entries: seq<Json>)
    ensures var f := WithHosts(hosts)["servers" := Array(entries)];
      && ToObject(Value(f, "hosts")) == hosts && Value(f, "servers") == Array(entries)
      && "queryStrategy" !in f && "disableCache" !in f && "disableFallback" !in f && "disableFallbackIfMatch" !in f
  {
  }

  lemma HeadReads(p: Profile, hosts: Fields)
    ensures var g := With(WithHosts(hosts)["servers" := Array(Entries(p.servers))], "queryStrategy",
                       StrategyValue(p.strategy));
      && ToObject(Value(g, "hosts")) == hosts && Value(g, "servers") == Array(Entries(p.servers))
      && ToString(Value(g, "queryStrategy")) == StrategyValue(p.strategy)
      && "disableCache" !in g && "disableFallback" !in g && "disableFallbackIfMatch" !in g
  {
    HostsAndServers(hosts, Entries(p.servers));
    assert |"hosts"| == 5 && |"servers"| == 7 && |"queryStrategy"| == 13;
    TextAdded(WithHosts(hosts)["servers" := Array(Entries(p.servers))], "queryStrategy", StrategyValue(p.strategy));
  }

  /** Every field of the profile is read back from its own key, and the flags do not mix. */
  lemma DnsReadsBack(p: Profile, hosts: Fields)
    ensures var d := DnsObject(p, hosts);
      && d != map[] && ToObject(Value(d, "hosts")) == hosts && Value(d, "servers") == Array(Entries(p.servers))
      && ToString(Value(d, "queryStrategy")) == StrategyValue(p.strategy)
      && (ToBool(Value(d, "disableCache")) <==> p.disableCache)
      && (ToBool(Value(d, "disableFallback")) <==> p.disableFallback)
      && (ToBool(Value(d, "disableFallbackIfMatch")) <==> p.disableFallbackIfMatch)
  {
    HeadReads(p, hosts);
    var g := With(WithHosts(hosts)["servers" := Array(Entries(p.servers))], "queryStrategy", StrategyValue(p.strategy));
    FlagsRead(g, p.disableCache, p.disableFallback, p.disableFallbackIfMatch);
    var keys := ["hosts", "servers", "queryStrategy"];
    assert keys[0] == "hosts" && keys[1] == "servers" && keys[2] == "queryStrategy";
    assert Value(DnsObject(p, hosts), "servers") != Null;
  }

  /** A DNS object that is generated always has an entry in its servers. */
  lemma GeneratedHasServers(p: Profile)
    requires ShouldGenerate(p)
    ensures Entries(p.servers) != []
  {
    CountsAgree(p);
  }

  method CountEnabledServers(p: Profile) returns (count: nat)
    ensures count == EnabledServerCount(p)
  {
    count := 0;
    ghost var test := (s: Server) => Counted(s);
    for i := 0 to |p.servers|
      invariant count + Count(p.servers[i..], test) == Count(p.servers, test)
    {
      assert p.servers[i..][1..] == p.servers[i + 1..];
      var s := p.servers[i];
      if s.enabled && !Text.Blank(s.address) && s.kind != FakeDnsPlaceholder {
        count := count + 1;
      }
    }
    assert Count(p.servers, test) == EnabledServerCount(p);
  }

  lemma EntriesFrom(servers: seq<Server>, i: nat, before: seq<Json>)
    requires i < |servers|
    ensures before + Entries(servers[i..]) == before + EntryOf(servers[i]) + Entries(servers[i + 1..])
  {
    assert servers[i..][1..] == servers[i + 1..];
  }

  method CollectServers(servers: seq<Server>) returns (entries: seq<Json>)
    ensures entries == Entries(servers)
  {
    entries := [];
    for i := 0 to |servers|
      invariant entries + Entries(servers[i..]) == Entries(servers)
    {
      EntriesFrom(servers, i, entries);
      entries := AppendServer(entries, servers[i]);
    }
  }

  /** One turn of the loop over the servers. */
  method AppendServer(entries: seq<Json>, s: Server) returns (r: seq<Json>)
    ensures r == entries + EntryOf(s)
  {
    r := entries;
    EmitsMeaning(s);
    if !s.enabled || s.kind == FakeDnsPlaceholder {
      return;
    }
    var value := ServerJson(s);
    if value.String? && value.text != "" {
      r := r + [value];
    } else if value.Object? && value.fields != map[] {
      r := r + [value];
    }
  }

  /** A server emits exactly when its value is neither null nor empty. */
  lemma EmitsMeaning(s: Server)
    ensures var value := ServerJson(s);
      Emits(s) <==> Candidate(s) && ((value.String? && value.text != "") || (value.Object? && value.fields != map[]))
  {
    ListsRead(s);
    FieldsRead(ServerLists(s), Text.Trim(s.tag), s.timeoutMs, s.skipFallback, Text.Trim(s.queryStrategy));
    assert ["address", "domains", "expectIPs"][0] == "address";
    assert Value(ServerObject(s), "address") != Null;
  }

  method Generate(p: Profile) returns (dns: Fields)
    ensures !ShouldGenerate(p) ==> dns == map[]
    ensures ShouldGenerate(p) ==> exists hosts :: HostsMean(p.hosts, p.hosts.Keys, hosts) && dns == DnsObject(p, hosts)
  {
    var count := CountEnabledServers(p);
    if !p.enabled || p.mode == DnsManager.System || count == 0 {
      return map[];
    }
    var hosts := CollectHosts(p.hosts);
    dns := WithHosts(hosts);
    var entries := CollectServers(p.servers);
    dns := dns["servers" := Array(entries)];
    dns := With(dns, "queryStrategy", StrategyValue(p.strategy));
    dns := WithFlag(dns, "disableCache", p.disableCache);
    dns := WithFlag(dns, "disableFallback", p.disableFallback);
    dns := WithFlag(dns, "disableFallbackIfMatch", p.disableFallbackIfMatch);
    assert dns == DnsObject(p, hosts);
  }
}
