/** The Xray outbound generated for a profile, and when generating a supported one fails. */
module XrayOutbound {
  import Text
  import opened Json
  import opened XrayProfile
  import opened XrayStream
  import opened XrayReserved

  function Wrapped(protocol: string, settings: Fields, stream: Fields): Fields {
    var f: Fields := map["tag" := String("proxy"), "protocol" := String(protocol), "settings" := Object(settings)];
    if stream == map[] then f else f["streamSettings" := Object(stream)]
  }

  /** The outbound with these settings and the profile's stream settings. */
  function OverStream(protocol: string, settings: Fields, p: Profile): Outcome {
    match Stream(p)
    case Made(stream) => Made(Wrapped(protocol, settings, stream))
    case Failed(error) => Failed(error)
  }

  function One(key: string, entry: Fields): Fields {
    map[key := Array([Object(entry)])]
  }

  /** A map with the address and the port, and one more entry. */
  function Endpoint(p: Profile, key: string, value: Json): Fields {
    map["address" := String(Text.Trim(p.address)), "port" := Number(p.port)][key := value]
  }

  function VlessUser(p: Profile): Fields {
    With(map["id" := String(EffectiveUuid(p)), "encryption" := String(EffectiveEncryption(p))],
         "flow", Text.Trim(p.flow))
  }

  function VlessOutbound(p: Profile): Outcome {
    OverStream("vless", One("vnext", Endpoint(p, "users", Array([Object(VlessUser(p))]))), p)
  }

  function VmessUser(p: Profile): Fields {
    map["id" := String(EffectiveUuid(p)), "alterId" := Number(p.alterId),
        "security" := String(EffectiveVmessSecurity(p))]
  }

  function VmessOutbound(p: Profile): Outcome {
    OverStream("vmess", One("vnext", Endpoint(p, "users", Array([Object(VmessUser(p))]))), p)
  }

  function TrojanServer(p: Profile): Fields {
    Endpoint(p, "password", String(EffectivePassword(p)))
  }

  function TrojanOutbound(p: Profile): Outcome {
    OverStream("trojan", One("servers", TrojanServer(p)), p)
  }

  function ShadowsocksServer(p: Profile): Fields {
    Endpoint(p, "method", String(EffectiveMethod(p)))["password" := String(EffectivePassword(p))]
  }

  function ShadowsocksOutbound(p: Profile): Outcome {
    Made(Wrapped("shadowsocks", One("servers", ShadowsocksServer(p)), map[]))
  }

  function SocksUser(p: Profile): Fields {
    With(map[], "pass", EffectivePassword(p))
  }

  function SocksServer(p: Profile): Fields {
    var server: Fields := map["address" := String(Text.Trim(p.address)), "port" := Number(p.port)];
    if SocksUser(p) == map[] then server else server["users" := Array([Object(SocksUser(p))])]
  }

  function SocksOutbound(p: Profile): Outcome {
    Made(Wrapped("socks", One("servers", SocksServer(p)), map[]))
  }

  /** The obfuscation asked for. */
  predicate Salamander(p: Profile) {
    Text.Lower(Text.Trim(p.obfs)) == "salamander"
  }

  /** The profile whose TLS settings the outbound uses. */
  function HysteriaTls(p: Profile): Profile {
    p.(alpn := if Text.Blank(p.alpn) then "h3" else p.alpn)
  }

  function HysteriaLayers(tls: Fields, settings: Fields): Fields {
    map["network" := String("hysteria"), "security" := String("tls"), "tlsSettings" := Object(tls),
        "hysteriaSettings" := Object(settings)]
  }

  function HysteriaStream(p: Profile): Fields {
    HysteriaLayers(TlsSettings(HysteriaTls(p)), HysteriaSettings(p))
  }

  function HysteriaSettings(p: Profile): Fields {
    map["version" := Number(2), "auth" := String(EffectivePassword(p))]
  }

  function SalamanderMask(p: Profile): Json {
    var mask := Object(map["type" := String("salamander"),
                           "settings" := Object(map["password" := String(Text.Trim(p.obfsPassword))])]);
    Object(map["udp" := Array([mask])])
  }

  function HysteriaFull(p: Profile): Fields {
    if Salamander(p) then HysteriaStream(p)["finalmask" := SalamanderMask(p)] else HysteriaStream(p)
  }

  function Hysteria2Outbound(p: Profile): Outcome {
    var settings := Endpoint(p, "version", Number(2));
    if Salamander(p) && Text.Blank(p.obfsPassword) then Failed(SalamanderNeedsPassword)
    else
      Made(Wrapped("hysteria", settings, HysteriaFull(p)))
  }

  function Signed(n: int): string {
    if n >= 0 then Text.Decimal(n) else "-" + Text.Decimal(-n)
  }

  function PeerStart(p: Profile): Fields {
    map["endpoint" := String(Text.Trim(p.address) + ":" + Signed(p.port)),
        "publicKey" := String(Text.Trim(p.publicKey))]
  }

  function WireGuardPeer(p: Profile): Fields {
    WithList(WithPositive(With(PeerStart(p), "preSharedKey", Text.Trim(p.preSharedKey)), "keepAlive", p.keepAlive),
             "allowedIPs", ListItems(p.allowedIps))
  }

  function TunnelStart(peer: Fields, secretKey: string): Fields {
    One("peers", peer)["secretKey" := String(secretKey)]["noKernelTun" := Boolean(true)]
  }

  function WithReserved(fields: Fields, reserved: seq<Byte>): Fields {
    if reserved == [] then fields else fields["reserved" := Array(Numbers(reserved))]
  }

  function WireGuardSettings(p: Profile, reserved: seq<Byte>): Fields {
    var f := TunnelStart(WireGuardPeer(p), EffectivePassword(p));
    WithReserved(WithPositive(WithList(f, "address", ListItems(p.localAddress)), "mtu", p.mtu), reserved)
  }

  function WireGuardOutbound(p: Profile, decode: string -> seq<Byte>): Outcome {
    var reserved := ReservedBytes(p.reserved, decode);
    if EffectivePassword(p) == "" then Failed(PrivateKeyRequired)
    else if Text.Blank(p.publicKey) then Failed(PeerKeyRequired)
    else if reserved == [] && !Text.Blank(p.reserved) then Failed(ReservedNotThreeBytes)
    else Made(Wrapped("wireguard", WireGuardSettings(p, reserved), map[]))
  }

  function Outbound(p: Profile, decode: string -> seq<Byte>): Outcome {
    match p.protocol
    case Vless => VlessOutbound(p)
    case Vmess => VmessOutbound(p)
    case Trojan => TrojanOutbound(p)
    case Shadowsocks => ShadowsocksOutbound(p)
    case Socks => SocksOutbound(p)
    case Hysteria2 => Hysteria2Outbound(p)
    case WireGuard => WireGuardOutbound(p, decode)
  }

  // ---------- when a supported profile still fails ----------

  /** What a caller can look at before generating: the gaps between the support test and the generator. */
  function Gap(p: Profile, decode: string -> seq<Byte>): Message {
    match p.protocol
    case Vless => if NoService(p) then Report(GrpcNeedsServiceName) else Empty
    case Vmess => if UnknownSecurity(p) then Report(UnsupportedSecurity) else Empty
    case Trojan =>
      if NoService(p) then Report(GrpcNeedsServiceName)
      else if IsReality(p) && EffectiveServerName(p) == "" then Report(RealityNeedsKeyAndName)
      else if UnknownSecurity(p) then Report(UnsupportedSecurity)
      else Empty
    case Hysteria2 => if Salamander(p) && Text.Blank(p.obfsPassword) then Report(SalamanderNeedsPassword) else Empty
    case WireGuard =>
      if !Text.Blank(p.reserved) && ReservedBytes(p.reserved, decode) == [] then Report(ReservedNotThreeBytes)
      else Empty
    case _ => Empty
  }

  lemma SupportedStream(p: Profile, decode: string -> seq<Byte>)
    requires SupportsProfile(p) && p.protocol in {Vless, Vmess, Trojan}
    ensures StreamGap(p) == Gap(p, decode)
  {
    SecurityNames(p);
  }

  /** A supported profile has an outbound exactly when it has none of the gaps; otherwise the gap is the error. */
  lemma OutboundVerdict(p: Profile, decode: string -> seq<Byte>)
    requires SupportsProfile(p)
    ensures Verdict(Outbound(p, decode), Gap(p, decode))
  {
    if p.protocol in {Vless, Vmess, Trojan} {
      SupportedStream(p, decode);
      StreamVerdict(p);
    }
  }

  lemma UnknownName(s: string)
    requires s == "xtls"
    ensures Text.Lower(Text.Trim(s)) == s && !Text.EqualsIgnoreCase(s, "reality")
  {
    Text.TrimFixed(s);
    assert |Text.Lower("reality")| == 7;
  }

  lemma TrojanUnknown(p: Profile, q: Profile)
    requires SupportsProfile(p) && p.protocol == Trojan && q == p.(security := "xtls")
    ensures SupportsProfile(q) && UnknownSecurity(q)
  {
    UnknownName(q.security);
    assert NormalizedNetwork(q) == NormalizedNetwork(p) && EffectivePassword(q) == EffectivePassword(p);
    assert IsReality(p) ==> NormalizedNetwork(q) == "tcp";
  }

  /** Being supported is not enough: a Trojan profile stays supported when its security is set to an unknown name. */
  lemma TrojanGap(p: Profile, decode: string -> seq<Byte>)
    requires SupportsProfile(p) && p.protocol == Trojan
    ensures var q := p.(security := "xtls");
      SupportsProfile(q) && Outbound(q, decode).Failed?
  {
    var q := p.(security := "xtls");
    TrojanUnknown(p, q);
    OutboundVerdict(q, decode);
  }

  // ---------- reading the outbound back ----------

  /** An outbound is never empty: it names its protocol and carries the stream settings if there are any. */
  lemma WrappedReads(protocol: string, settings: Fields, stream: Fields)
    ensures var f := Wrapped(protocol, settings, stream);
      && f != map[] && Value(f, "protocol") == String(protocol) && Value(f, "settings") == Object(settings)
      && ToObject(Value(f, "streamSettings")) == stream
  {
    var f := Wrapped(protocol, settings, stream);
    assert "protocol" in f;
  }

  /** The transport and security in the outbound of a supported VLESS, VMess or Trojan profile are those it asks for. */
  lemma OutboundStream(p: Profile, decode: string -> seq<Byte>)
    requires SupportsProfile(p) && p.protocol in {Vless, Vmess, Trojan} && Gap(p, decode) == Empty
    ensures Outbound(p, decode).Made?
    ensures var s := ToObject(Value(Outbound(p, decode).fields, "streamSettings"));
      ReadCarrier(s) == WantedCarrier(p) && ReadProtection(s) == WantedProtection(p)
  {
    OutboundVerdict(p, decode);
    SupportedStream(p, decode);
    StreamVerdict(p);
    StreamReadsBack(p);
    forall protocol, settings
      ensures ToObject(Value(Wrapped(protocol, settings, Stream(p).fields), "streamSettings")) == Stream(p).fields
    {
      WrappedReads(protocol, settings, Stream(p).fields);
    }
  }

  function First(fields: Fields, key: string): Fields {
    var items := ToArray(Value(fields, key));
    if items == [] then map[] else ToObject(items[0])
  }

  /** What a reader finds about the server of an outbound and about the account on it. */
  datatype Account =
    | Proxy(address: string, port: int, secret: string, cipher: string, flow: string, alterId: int)
    | Tunnel(endpoint: string, secretKey: string, publicKey: string, preSharedKey: string, keepAlive: int,
             allowedIps: seq<string>, addresses: seq<string>, mtu: int, reserved: seq<Json>)

  function ReadVnext(settings: Fields): Account {
    var v := First(settings, "vnext");
    var u := First(v, "users");
    var encryption := ToString(Value(u, "encryption"));
    Proxy(ToString(Value(v, "address")), ToInt(Value(v, "port")), ToString(Value(u, "id")),
          if encryption == "" then ToString(Value(u, "security")) else encryption,
          ToString(Value(u, "flow")), ToInt(Value(u, "alterId")))
  }

  /** A server entry holds its secret itself or, for SOCKS, in its first user. */
  function ReadServer(settings: Fields): Account {
    var s := First(settings, "servers");
    var password := ToString(Value(s, "password"));
    Proxy(ToString(Value(s, "address")), ToInt(Value(s, "port")),
          if password == "" then ToString(Value(First(s, "users"), "pass")) else password,
          ToString(Value(s, "method")), "", 0)
  }

  function ReadHysteria(settings: Fields, stream: Fields): Account {
    Proxy(ToString(Value(settings, "address")), ToInt(Value(settings, "port")),
          ToString(Value(ToObject(Value(stream, "hysteriaSettings")), "auth")), "", "", 0)
  }

  function ReadTunnel(settings: Fields): Account {
    var peer := First(settings, "peers");
    Tunnel(ToString(Value(peer, "endpoint")), ToString(Value(settings, "secretKey")),
           ToString(Value(peer, "publicKey")), ToString(Value(peer, "preSharedKey")), ToInt(Value(peer, "keepAlive")),
           Texts(ToArray(Value(peer, "allowedIPs"))), Texts(ToArray(Value(settings, "address"))),
           ToInt(Value(settings, "mtu")), ToArray(Value(settings, "reserved")))
  }

  /** A reader that knows the protocol by its name in the outbound. */
  function ReadAccount(outbound: Fields): Account {
    var protocol, settings := ToString(Value(outbound, "protocol")), ToObject(Value(outbound, "settings"));
    if protocol == "vless" || protocol == "vmess" then ReadVnext(settings)
    else if protocol == "hysteria" then ReadHysteria(settings, ToObject(Value(outbound, "streamSettings")))
    else if protocol == "wireguard" then ReadTunnel(settings)
    else ReadServer(settings)
  }

  /** What the profile asks for. */
  function WantedAccount(p: Profile, decode: string -> seq<Byte>): Account {
    var address := Text.Trim(p.address);
    match p.protocol
    case Vless => Proxy(address, p.port, EffectiveUuid(p), EffectiveEncryption(p), Text.Trim(p.flow), 0)
    case Vmess => Proxy(address, p.port, EffectiveUuid(p), EffectiveVmessSecurity(p), "", p.alterId)
    case Shadowsocks => Proxy(address, p.port, EffectivePassword(p), EffectiveMethod(p), "", 0)
    case WireGuard => WantedTunnel(p, ReservedBytes(p.reserved, decode))
    case _ => Proxy(address, p.port, EffectivePassword(p), "", "", 0)
  }

  function Numbers(bytes: seq<Byte>): seq<Json> {
    seq(|bytes|, i requires 0 <= i < |bytes| => Number(bytes[i]))
  }

  function WantedTunnel(p: Profile, reserved: seq<Byte>): Account {
    Tunnel(Text.Trim(p.address) + ":" + Signed(p.port), EffectivePassword(p), Text.Trim(p.publicKey),
           Text.Trim(p.preSharedKey), AtLeastZero(p.keepAlive), ListItems(p.allowedIps), ListItems(p.localAddress),
           AtLeastZero(p.mtu), Numbers(reserved))
  }

  lemma EndpointReads(p: Profile, key: string, value: Json)
    requires key != "address" && key != "port"
    ensures var f := Endpoint(p, key, value);
      Value(f, "address") == String(Text.Trim(p.address)) && Value(f, "port") == Number(p.port)
      && Value(f, key) == value
  {
  }

  lemma FirstReads(key: string, entry: Fields)
    ensures First(One(key, entry), key) == entry
  {
  }

  lemma VlessUserReads(p: Profile)
    ensures var u := VlessUser(p);
      && ToString(Value(u, "id")) == EffectiveUuid(p) && ToString(Value(u, "encryption")) == EffectiveEncryption(p)
      && ToString(Value(u, "flow")) == Text.Trim(p.flow) && Value(u, "alterId") == Null
      && EffectiveEncryption(p) != ""
  {
  }

  lemma VmessUserReads(p: Profile)
    ensures var u := VmessUser(p);
      && ToString(Value(u, "id")) == EffectiveUuid(p) && ToString(Value(u, "security")) == EffectiveVmessSecurity(p)
      && ToInt(Value(u, "alterId")) == p.alterId && Value(u, "encryption") == Null && Value(u, "flow") == Null
  {
  }

  lemma VnextReads(p: Profile, user: Fields)
    ensures var v := First(One("vnext", Endpoint(p, "users", Array([Object(user)]))), "vnext");
      && Value(v, "address") == String(Text.Trim(p.address)) && Value(v, "port") == Number(p.port)
      && First(v, "users") == user
  {
    FirstReads("vnext", Endpoint(p, "users", Array([Object(user)])));
    EndpointReads(p, "users", Array([Object(user)]));
  }

  lemma VlessAccount(p: Profile)
    ensures ReadVnext(One("vnext", Endpoint(p, "users", Array([Object(VlessUser(p))]))))
      == Proxy(Text.Trim(p.address), p.port, EffectiveUuid(p), EffectiveEncryption(p), Text.Trim(p.flow), 0)
  {
    VnextReads(p, VlessUser(p));
    VlessUserReads(p);
  }

  lemma VmessAccount(p: Profile)
    ensures ReadVnext(One("vnext", Endpoint(p, "users", Array([Object(VmessUser(p))]))))
      == Proxy(Text.Trim(p.address), p.port, EffectiveUuid(p), EffectiveVmessSecurity(p), "", p.alterId)
  {
    VnextReads(p, VmessUser(p));
    VmessUserReads(p);
  }

  lemma ServerReads(s: Fields)
    ensures var r := ReadServer(One("servers", s));
      && r.address == ToString(Value(s, "address")) && r.port == ToInt(Value(s, "port"))
      && r.cipher == ToString(Value(s, "method")) && r.flow == "" && r.alterId == 0
      && (Value(s, "users") == Null ==> r.secret == ToString(Value(s, "password")))
      && (Value(s, "password") == Null ==> r.secret == ToString(Value(First(s, "users"), "pass")))
  {
    FirstReads("servers", s);
  }

  lemma TrojanAccount(p: Profile)
    ensures ReadServer(One("servers", TrojanServer(p)))
      == Proxy(Text.Trim(p.address), p.port, EffectivePassword(p), "", "", 0)
  {
    var s := TrojanServer(p);
    EndpointReads(p, "password", String(EffectivePassword(p)));
    assert Value(s, "users") == Null && Value(s, "method") == Null;
    ServerReads(s);
  }

  lemma ShadowsocksAccount(p: Profile)
    ensures ReadServer(One("servers", ShadowsocksServer(p)))
      == Proxy(Text.Trim(p.address), p.port, EffectivePassword(p), EffectiveMethod(p), "", 0)
  {
    var s := ShadowsocksServer(p);
    EndpointReads(p, "method", String(EffectiveMethod(p)));
    assert Value(s, "users") == Null;
    ServerReads(s);
  }

  lemma SocksAccount(p: Profile)
    ensures ReadServer(One("servers", SocksServer(p)))
      == Proxy(Text.Trim(p.address), p.port, EffectivePassword(p), "", "", 0)
  {
    var s := SocksServer(p);
    assert SocksUser(p) == map[] <==> EffectivePassword(p) == "" by {
      assert EffectivePassword(p) != "" ==> "pass" in SocksUser(p);
    }
    assert Value(s, "address") == String(Text.Trim(p.address)) && Value(s, "port") == Number(p.port);
    assert Value(s, "password") == Null && Value(s, "method") == Null;
    assert First(s, "users") == SocksUser(p);
    ServerReads(s);
  }

  lemma HysteriaAuth(p: Profile, mask: Json)
    ensures Value(HysteriaStream(p), "hysteriaSettings") == Object(HysteriaSettings(p))
    ensures Value(HysteriaStream(p)["finalmask" := mask], "hysteriaSettings") == Object(HysteriaSettings(p))
  {
  }

  lemma HysteriaAccount(p: Profile, stream: Fields)
    requires Value(stream, "hysteriaSettings") == Object(HysteriaSettings(p))
    ensures ReadHysteria(Endpoint(p, "version", Number(2)), stream)
      == Proxy(Text.Trim(p.address), p.port, EffectivePassword(p), "", "", 0)
  {
    EndpointReads(p, "version", Number(2));
    assert ToString(Value(HysteriaSettings(p), "auth")) == EffectivePassword(p);
  }

  lemma PeerAdded(f: Fields, k: string, text: string, l: string, value: int, m: string, items: seq<string>)
    requires k != l && k != m && l != m && k !in f && l !in f && m !in f
    ensures var r := WithList(WithPositive(With(f, k, text), l, value), m, items);
      && ToString(Value(r, k)) == text && ToInt(Value(r, l)) == AtLeastZero(value)
      && Texts(ToArray(Value(r, m))) == items
      && forall other | other != k && other != l && other != m :: Value(r, other) == Value(f, other)
  {
    TextAdded(f, k, text);
    NumberAdded(With(f, k, text), l, value);
    ListAdded(WithPositive(With(f, k, text), l, value), m, items);
  }

  lemma TunnelAdded(f: Fields, k: string, items: seq<string>, l: string, value: int, reserved: seq<Byte>)
    requires k != l && k != "reserved" && l != "reserved" && k !in f && l !in f && "reserved" !in f
    ensures var r := WithReserved(WithPositive(WithList(f, k, items), l, value), reserved);
      && Texts(ToArray(Value(r, k))) == items && ToInt(Value(r, l)) == AtLeastZero(value)
      && ToArray(Value(r, "reserved")) == Numbers(reserved)
      && forall other | other != k && other != l && other != "reserved" :: Value(r, other) == Value(f, other)
  {
    ListAdded(f, k, items);
    NumberAdded(WithList(f, k, items), l, value);
    ReservedAdded(WithPositive(WithList(f, k, items), l, value), reserved);
  }

  lemma PeerStartReads(p: Profile)
    ensures var f := PeerStart(p);
      && ToString(Value(f, "endpoint")) == Text.Trim(p.address) + ":" + Signed(p.port)
      && ToString(Value(f, "publicKey")) == Text.Trim(p.publicKey)
      && "preSharedKey" !in f && "keepAlive" !in f && "allowedIPs" !in f
  {
    assert "keepAlive"[0] == 'k' && "publicKey"[0] == 'p';
  }

  lemma PeerReads(p: Profile)
    ensures var f := WireGuardPeer(p);
      && ToString(Value(f, "endpoint")) == Text.Trim(p.address) + ":" + Signed(p.port)
      && ToString(Value(f, "publicKey")) == Text.Trim(p.publicKey)
      && ToString(Value(f, "preSharedKey")) == Text.Trim(p.preSharedKey)
      && ToInt(Value(f, "keepAlive")) == AtLeastZero(p.keepAlive)
      && Texts(ToArray(Value(f, "allowedIPs"))) == ListItems(p.allowedIps)
  {
    PeerStartReads(p);
    assert "keepAlive"[0] == 'k' && "publicKey"[0] == 'p';
    PeerAdded(PeerStart(p), "preSharedKey", Text.Trim(p.preSharedKey), "keepAlive", p.keepAlive,
              "allowedIPs", ListItems(p.allowedIps));
  }

  lemma TunnelStartReads(peer: Fields, secretKey: string)
    ensures var f := TunnelStart(peer, secretKey);
      && First(f, "peers") == peer && Value(f, "secretKey") == String(secretKey)
      && "address" !in f && "mtu" !in f && "reserved" !in f
  {
  }

  lemma ReservedAdded(fields: Fields, reserved: seq<Byte>)
    requires "reserved" !in fields
    ensures ToArray(Value(WithReserved(fields, reserved), "reserved")) == Numbers(reserved)
    ensures forall other | other != "reserved" :: Value(WithReserved(fields, reserved), other) == Value(fields, other)
  {
  }

  lemma TunnelAround(peer: Fields, secretKey: string, addresses: seq<string>, mtu: int, reserved: seq<Byte>)
    ensures var f := WithReserved(WithPositive(WithList(TunnelStart(peer, secretKey), "address", addresses), "mtu",
                             mtu), reserved);
      && First(f, "peers") == peer && ToString(Value(f, "secretKey")) == secretKey
      && Texts(ToArray(Value(f, "address"))) == addresses && ToInt(Value(f, "mtu")) == AtLeastZero(mtu)
      && ToArray(Value(f, "reserved")) == Numbers(reserved)
  {
    TunnelStartReads(peer, secretKey);
    assert |"peers"| == 5 && |"secretKey"| == 9 && |"address"| == 7 && |"mtu"| == 3 && |"reserved"| == 8;
    TunnelAdded(TunnelStart(peer, secretKey), "address", addresses, "mtu", mtu, reserved);
  }

  lemma TunnelSettingsRead(p: Profile, reserved: seq<Byte>)
    ensures var f := WireGuardSettings(p, reserved);
      && First(f, "peers") == WireGuardPeer(p) && ToString(Value(f, "secretKey")) == EffectivePassword(p)
      && Texts(ToArray(Value(f, "address"))) == ListItems(p.localAddress)
      && ToInt(Value(f, "mtu")) == AtLeastZero(p.mtu)
      && ToArray(Value(f, "reserved")) == Numbers(reserved)
  {
    TunnelAround(WireGuardPeer(p), EffectivePassword(p), ListItems(p.localAddress), p.mtu, reserved);
  }

  lemma TunnelReads(p: Profile, reserved: seq<Byte>)
    ensures ReadTunnel(WireGuardSettings(p, reserved)) == WantedTunnel(p, reserved)
  {
    TunnelSettingsRead(p, reserved);
    PeerReads(p);
  }

  lemma VnextOver(protocol: string, settings: Fields, p: Profile)
    requires (protocol == "vless" || protocol == "vmess") && OverStream(protocol, settings, p).Made?
    ensures ReadAccount(OverStream(protocol, settings, p).fields) == ReadVnext(settings)
  {
    WrappedReads(protocol, settings, Stream(p).fields);
  }

  lemma ServersOver(settings: Fields, p: Profile)
    requires OverStream("trojan", settings, p).Made?
    ensures ReadAccount(OverStream("trojan", settings, p).fields) == ReadServer(settings)
  {
    WrappedReads("trojan", settings, Stream(p).fields);
    assert |"trojan"| == 6;
  }

  lemma VlessOutboundAccount(p: Profile)
    requires VlessOutbound(p).Made?
    ensures ReadAccount(VlessOutbound(p).fields)
      == Proxy(Text.Trim(p.address), p.port, EffectiveUuid(p), EffectiveEncryption(p), Text.Trim(p.flow), 0)
  {
    VnextOver("vless", One("vnext", Endpoint(p, "users", Array([Object(VlessUser(p))]))), p);
    VlessAccount(p);
  }

  lemma VmessOutboundAccount(p: Profile)
    requires VmessOutbound(p).Made?
    ensures ReadAccount(VmessOutbound(p).fields)
      == Proxy(Text.Trim(p.address), p.port, EffectiveUuid(p), EffectiveVmessSecurity(p), "", p.alterId)
  {
    VnextOver("vmess", One("vnext", Endpoint(p, "users", Array([Object(VmessUser(p))]))), p);
    VmessAccount(p);
  }

  lemma TrojanOutboundAccount(p: Profile)
    requires TrojanOutbound(p).Made?
    ensures ReadAccount(TrojanOutbound(p).fields)
      == Proxy(Text.Trim(p.address), p.port, EffectivePassword(p), "", "", 0)
  {
    ServersOver(One("servers", TrojanServer(p)), p);
    TrojanAccount(p);
  }

  /** The protocols whose servers are read alike. */
  lemma ServedReads(protocol: string, server: Fields)
    requires protocol == "shadowsocks" || protocol == "socks"
    ensures ReadAccount(Wrapped(protocol, One("servers", server), map[])) == ReadServer(One("servers", server))
  {
    WrappedReads(protocol, One("servers", server), map[]);
    assert |protocol| == 11 || |protocol| == 5;
    assert protocol[1] == 'h' || protocol[1] == 'o';
  }

  lemma ShadowsocksOutboundAccount(p: Profile)
    ensures ReadAccount(ShadowsocksOutbound(p).fields)
      == Proxy(Text.Trim(p.address), p.port, EffectivePassword(p), EffectiveMethod(p), "", 0)
  {
    ServedReads("shadowsocks", ShadowsocksServer(p));
    ShadowsocksAccount(p);
  }

  lemma SocksOutboundAccount(p: Profile)
    ensures ReadAccount(SocksOutbound(p).fields)
      == Proxy(Text.Trim(p.address), p.port, EffectivePassword(p), "", "", 0)
  {
    ServedReads("socks", SocksServer(p));
    SocksAccount(p);
  }

  lemma HysteriaOver(settings: Fields, stream: Fields)
    ensures ReadAccount(Wrapped("hysteria", settings, stream)) == ReadHysteria(settings, stream)
  {
    WrappedReads("hysteria", settings, stream);
    assert |"hysteria"| == 8;
  }

  lemma HysteriaOutboundAccount(p: Profile)
    requires Hysteria2Outbound(p).Made?
    ensures ReadAccount(Hysteria2Outbound(p).fields)
      == Proxy(Text.Trim(p.address), p.port, EffectivePassword(p), "", "", 0)
  {
    HysteriaAuth(p, SalamanderMask(p));
    HysteriaOver(Endpoint(p, "version", Number(2)), HysteriaFull(p));
    HysteriaAccount(p, HysteriaFull(p));
  }

  lemma WireGuardReads(settings: Fields)
    ensures ReadAccount(Wrapped("wireguard", settings, map[])) == ReadTunnel(settings)
  {
    WrappedReads("wireguard", settings, map[]);
    assert "wireguard"[0] == 'w';
  }

  lemma TunnelMade(p: Profile, decode: string -> seq<Byte>)
    requires WireGuardOutbound(p, decode).Made?
    ensures WireGuardOutbound(p, decode).fields
      == Wrapped("wireguard", WireGuardSettings(p, ReservedBytes(p.reserved, decode)), map[])
  {
  }

  lemma TunnelAccount(p: Profile, decode: string -> seq<Byte>)
    requires WireGuardOutbound(p, decode).Made?
    ensures ReadAccount(WireGuardOutbound(p, decode).fields) == WantedTunnel(p, ReservedBytes(p.reserved, decode))
  {
    var reserved := ReservedBytes(p.reserved, decode);
    TunnelReads(p, reserved);
    WireGuardReads(WireGuardSettings(p, reserved));
    TunnelMade(p, decode);
  }

  /** Every generated outbound, read by its own protocol name, has the server and the account of its profile. */
  lemma AccountReadsBack(p: Profile, decode: string -> seq<Byte>)
    requires Outbound(p, decode).Made?
    ensures ReadAccount(Outbound(p, decode).fields) == WantedAccount(p, decode)
  {
    match p.protocol {
      case Vless => VlessOutboundAccount(p);
      case Vmess => VmessOutboundAccount(p);
      case Trojan => TrojanOutboundAccount(p);
      case Shadowsocks => ShadowsocksOutboundAccount(p);
      case Socks => SocksOutboundAccount(p);
      case Hysteria2 => HysteriaOutboundAccount(p);
      case WireGuard => TunnelAccount(p, decode);
    }
  }

  function SecretOf(a: Account): string {
    if a.Proxy? then a.secret else a.secretKey
  }

  /** A supported profile's secret is blank only for SOCKS and, since nothing tests it, for VLESS. */
  lemma SecretPresent(p: Profile, decode: string -> seq<Byte>)
    requires SupportsProfile(p) && Gap(p, decode) == Empty
    ensures Outbound(p, decode).Made?
    ensures SecretOf(ReadAccount(Outbound(p, decode).fields)) == "" <==>
      || (p.protocol == Vless && Text.Blank(p.uuidPassword))
      || (p.protocol == Socks && Text.Blank(p.password) && Text.Blank(p.uuidPassword))
  {
    OutboundVerdict(p, decode);
    AccountReadsBack(p, decode);
  }

  // ---------- Hysteria2 ----------

  function MaskPassword(stream: Fields): string {
    var mask := First(ToObject(Value(stream, "finalmask")), "udp");
    ToString(Value(ToObject(Value(mask, "settings")), "password"))
  }

  lemma LayersRead(tls: Fields, settings: Fields)
    ensures ReadProtection(HysteriaLayers(tls, settings)) == ReadTls(tls)
    ensures "finalmask" !in HysteriaLayers(tls, settings)
  {
  }

  lemma HysteriaTlsReads(p: Profile)
    ensures ReadProtection(HysteriaStream(p)) == WantedTls(HysteriaTls(p))
    ensures "finalmask" !in HysteriaStream(p)
  {
    LayersRead(TlsSettings(HysteriaTls(p)), HysteriaSettings(p));
    TlsReadsBack(HysteriaTls(p));
  }

  lemma MaskKeeps(stream: Fields, mask: Json)
    ensures ReadProtection(stream["finalmask" := mask]) == ReadProtection(stream)
  {
    var s := stream["finalmask" := mask];
    assert Value(s, "security") == Value(stream, "security");
    assert Value(s, "tlsSettings") == Value(stream, "tlsSettings");
    assert Value(s, "realitySettings") == Value(stream, "realitySettings");
  }

  lemma MaskReads(p: Profile, stream: Fields)
    ensures MaskPassword(stream["finalmask" := SalamanderMask(p)]) == Text.Trim(p.obfsPassword)
  {
    var mask := SalamanderMask(p).fields;
    assert First(mask, "udp") == ToObject(ToArray(Value(mask, "udp"))[0]);
  }

  lemma HysteriaFullReads(p: Profile)
    ensures var s := HysteriaFull(p);
      && ReadProtection(s) == WantedTls(HysteriaTls(p))
      && (Salamander(p) <==> "finalmask" in s) && (Salamander(p) ==> MaskPassword(s) == Text.Trim(p.obfsPassword))
  {
    HysteriaTlsReads(p);
    MaskKeeps(HysteriaStream(p), SalamanderMask(p));
    MaskReads(p, HysteriaStream(p));
  }

  /**
   A Hysteria2 outbound is always over TLS, also for a profile whose security is "none", with ALPN `h3` by default;
   it is obfuscated exactly when the profile asks for salamander, with the profile's password.
   */
  lemma HysteriaReadsBack(p: Profile)
    requires Hysteria2Outbound(p).Made?
    ensures var s := ToObject(Value(Hysteria2Outbound(p).fields, "streamSettings"));
      && ReadProtection(s) == WantedTls(HysteriaTls(p))
      && (Salamander(p) <==> "finalmask" in s) && (Salamander(p) ==> MaskPassword(s) == Text.Trim(p.obfsPassword))
  {
    HysteriaFullReads(p);
    WrappedReads("hysteria", Endpoint(p, "version", Number(2)), HysteriaFull(p));
  }

  /** Without an ALPN of its own the profile offers HTTP/3, and otherwise what it lists. */
  lemma HysteriaAlpn(p: Profile)
    ensures Text.Blank(p.alpn) ==> WantedTls(HysteriaTls(p)).alpn == ["h3"]
    ensures !Text.Blank(p.alpn) ==> WantedTls(HysteriaTls(p)) == WantedTls(p)
    ensures WantedTls(HysteriaTls(p)).serverName == WantedTls(p).serverName
  {
    Text.TrimFixed("h3");
    Text.SplitAround("h3", ',', "");
    assert ["h3"][1..] == [];
  }

  /** Obfuscation is asked for by its name in any case, with or without white space around it. */
  lemma SalamanderNames(p: Profile)
    ensures Text.EqualsIgnoreCase(p.obfs, "salamander") ==> Salamander(p)
    ensures Salamander(p) ==> |Text.Trim(p.obfs)| == 10
  {
    Letters(p.obfs, "salamander");
  }

  /** The port in an endpoint reads back. */
  lemma PortReads(port: nat)
    ensures Text.AllDigits(Signed(port)) && Text.DigitsValue(Signed(port)) == port
  {
    Text.DecimalRoundTrip(port);
  }

  // ---------- the whole generator ----------

  datatype Config = Unsupported | Error(error: XrayStream.Error) | Config(outbound: Fields)

  /** Without the routing, the DNS object and the inbounds, which cannot fail. */
  function GenerateConfig(p: Profile, decode: string -> seq<Byte>): Config {
    if !SupportsProfile(p) then Unsupported
    else match Outbound(p, decode)
      case Failed(error) => Error(error)
      case Made(fields) => Config(fields)
  }

  lemma ConfigVerdict(p: Profile, decode: string -> seq<Byte>)
    ensures GenerateConfig(p, decode).Config? <==> SupportsProfile(p) && Gap(p, decode) == Empty
  {
    if SupportsProfile(p) {
      OutboundVerdict(p, decode);
    }
  }
}
