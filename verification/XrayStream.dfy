/** The stream settings of an Xray outbound: the transport and the security layer. */
module XrayStream {
  import Text
  import opened Json
  import opened XrayProfile

  datatype Error =
    | GrpcNeedsServiceName
    | UnsupportedNetwork
    | RealityOverWebSocket
    | RealityNetwork
    | RealityNeedsKeyAndName
    | UnsupportedSecurity
    | SalamanderNeedsPassword
    | PrivateKeyRequired
    | PeerKeyRequired
    | ReservedNotThreeBytes

  datatype Outcome = Made(fields: Fields) | Failed(error: Error)

  function AlpnList(p: Profile): seq<string> {
    if Text.Blank(p.alpn) then [] else Text.NonBlank(Text.Split(Text.Trim(p.alpn), ','))
  }

  function TlsServerName(p: Profile): string {
    if EffectiveServerName(p) == "" then Text.Trim(p.address) else EffectiveServerName(p)
  }

  function TlsNames(p: Profile): Fields {
    With(With(map[], "serverName", TlsServerName(p)), "fingerprint", EffectiveFingerprint(p))
  }

  function TlsSettings(p: Profile): Fields {
    WithList(WithFlag(TlsNames(p), "allowInsecure", p.allowInsecure), "alpn", AlpnList(p))
  }

  function RealitySettings(p: Profile): Fields {
    map["show" := Boolean(false),
        "fingerprint" := String(EffectiveFingerprint(p)),
        "serverName" := String(EffectiveServerName(p)),
        "publicKey" := String(Text.Trim(p.publicKey)),
        "shortId" := String(Text.Trim(p.shortId)),
        "spiderX" := String(Preferred(p.spiderX, "/"))]
  }

  function WsHost(p: Profile): string {
    Preferred(p.host, EffectiveServerName(p))
  }

  function WsSettings(p: Profile): Fields {
    var f: Fields := map["path" := String(Preferred(p.path, "/"))];
    if WsHost(p) == "" then f else f["headers" := Object(map["Host" := String(WsHost(p))])]
  }

  function GrpcService(p: Profile): string {
    Preferred(p.serviceName, Text.Trim(p.path))
  }

  function Transport(p: Profile, network: string, settings: Fields): Outcome {
    var f := settings["network" := String(network)];
    if network == "ws" then Made(f["wsSettings" := Object(WsSettings(p))])
    else if network == "grpc" then
      if GrpcService(p) == "" then Failed(GrpcNeedsServiceName)
      else Made(f["grpcSettings" := Object(With(map[], "serviceName", GrpcService(p)))])
    else if network == "tcp" then Made(f)
    else Failed(UnsupportedNetwork)
  }

  function Layer(settings: Fields, kind: string, key: string, inner: Fields): Fields {
    settings["security" := String(kind)][key := Object(inner)]
  }

  function Security(p: Profile, network: string, settings: Fields): Outcome {
    if IsReality(p) then
      if network == "ws" then Failed(RealityOverWebSocket)
      else if network != "tcp" && network != "grpc" then Failed(RealityNetwork)
      else if Text.Blank(p.publicKey) || EffectiveServerName(p) == "" then Failed(RealityNeedsKeyAndName)
      else Made(Layer(settings, "reality", "realitySettings", RealitySettings(p)))
    else if IsTls(p) || NormalizedSecurity(p) == "tls" then
      Made(Layer(settings, "tls", "tlsSettings", TlsSettings(p)))
    else if NormalizedSecurity(p) == "" || NormalizedSecurity(p) == "none" then Made(settings)
    else Failed(UnsupportedSecurity)
  }

  function Stream(p: Profile): Outcome {
    var network := NormalizedNetwork(p);
    var t := Transport(p, network, map[]);
    if t.Failed? then t else Security(p, network, t.fields)
  }

  // ---------- reading the settings back ----------

  datatype Carrier = Plain | WebSocket(path: string, host: string) | Grpc(service: string)

  datatype Protection =
    | Clear
    | Tls(serverName: string, fingerprint: string, insecure: bool, alpn: seq<string>)
    | Reality(serverName: string, fingerprint: string, publicKey: string, shortId: string, spiderX: string)

  /** What the profile asks for. */
  function WantedCarrier(p: Profile): Carrier {
    var network := NormalizedNetwork(p);
    if network == "ws" then WebSocket(Preferred(p.path, "/"), Preferred(p.host, EffectiveServerName(p)))
    else if network == "grpc" then Grpc(Preferred(p.serviceName, Text.Trim(p.path)))
    else Plain
  }

  function WantedTls(p: Profile): Protection {
    var name := EffectiveServerName(p);
    Tls(if name == "" then Text.Trim(p.address) else name, EffectiveFingerprint(p), p.allowInsecure,
        AlpnList(p))
  }

  function WantedProtection(p: Profile): Protection {
    if IsReality(p) then
      Reality(EffectiveServerName(p), EffectiveFingerprint(p), Text.Trim(p.publicKey), Text.Trim(p.shortId),
              Preferred(p.spiderX, "/"))
    else if NormalizedSecurity(p) == "tls" then WantedTls(p)
    else Clear
  }

  /** What a reader of the settings finds under the network's own key. */
  function ReadCarrier(settings: Fields): Carrier {
    var network := ToString(Value(settings, "network"));
    if network == "ws" then
      var ws := ToObject(Value(settings, "wsSettings"));
      WebSocket(ToString(Value(ws, "path")), ToString(Value(ToObject(Value(ws, "headers")), "Host")))
    else if network == "grpc" then Grpc(ToString(Value(ToObject(Value(settings, "grpcSettings")), "serviceName")))
    else Plain
  }

  function ReadTls(tls: Fields): Protection {
    Tls(ToString(Value(tls, "serverName")), ToString(Value(tls, "fingerprint")),
        ToBool(Value(tls, "allowInsecure")), Texts(ToArray(Value(tls, "alpn"))))
  }

  function ReadReality(r: Fields): Protection {
    Reality(ToString(Value(r, "serverName")), ToString(Value(r, "fingerprint")), ToString(Value(r, "publicKey")),
            ToString(Value(r, "shortId")), ToString(Value(r, "spiderX")))
  }

  function ReadProtection(settings: Fields): Protection {
    var security := ToString(Value(settings, "security"));
    if security == "reality" then ReadReality(ToObject(Value(settings, "realitySettings")))
    else if security == "tls" then ReadTls(ToObject(Value(settings, "tlsSettings")))
    else Clear
  }

  lemma TlsNamesReadBack(p: Profile)
    ensures var f := TlsNames(p);
      && ToString(Value(f, "serverName")) == TlsServerName(p)
      && ToString(Value(f, "fingerprint")) == EffectiveFingerprint(p)
      && "allowInsecure" !in f && "alpn" !in f
  {
  }

  lemma TlsReadsBack(p: Profile)
    ensures ReadTls(TlsSettings(p)) == WantedTls(p)
  {
    TlsNamesReadBack(p);
    TlsExtras(TlsNames(p), p.allowInsecure, AlpnList(p));
    StringsRead(AlpnList(p));
    assert Texts([]) == [];
  }

  lemma TlsExtras(f: Fields, insecure: bool, alpn: seq<string>)
    ensures var g := f["allowInsecure" := Boolean(true)];
      && Value(g, "serverName") == Value(f, "serverName") && Value(g, "fingerprint") == Value(f, "fingerprint")
      && Value(g, "alpn") == Value(f, "alpn")
    ensures forall g: Fields :: var h := g["alpn" := Strings(alpn)];
      && Value(h, "serverName") == Value(g, "serverName") && Value(h, "fingerprint") == Value(g, "fingerprint")
      && Value(h, "allowInsecure") == Value(g, "allowInsecure")
  {
  }

  lemma RealityReadsBack(p: Profile)
    requires IsReality(p)
    ensures ReadReality(RealitySettings(p)) == WantedProtection(p)
  {
    assert "shortId"[1] != "spiderX"[1];
  }

  /** Exactly the settings keys that go with this carrier, and no security yet. */
  ghost predicate Carries(s: Fields, wanted: Carrier) {
    && ReadCarrier(s) == wanted
    && ("wsSettings" in s <==> wanted.WebSocket?) && ("grpcSettings" in s <==> wanted.Grpc?)
    && "security" !in s && "tlsSettings" !in s && "realitySettings" !in s
  }

  lemma WsCarries(p: Profile)
    ensures Carries(map["network" := String("ws"), "wsSettings" := Object(WsSettings(p))],
                    WebSocket(Preferred(p.path, "/"), WsHost(p)))
  {
    assert ToString(Value(WsSettings(p), "path")) == Preferred(p.path, "/");
    assert ToString(Value(ToObject(Value(WsSettings(p), "headers")), "Host")) == WsHost(p);
  }

  lemma GrpcCarries(service: string)
    ensures Carries(map["network" := String("grpc"), "grpcSettings" := Object(With(map[], "serviceName", service))],
                    Grpc(service))
  {
  }

  lemma PlainCarries()
    ensures Carries(map["network" := String("tcp")], Plain)
  {
  }

  lemma TransportReadsBack(p: Profile)
    requires Transport(p, NormalizedNetwork(p), map[]).Made?
    ensures Carries(Transport(p, NormalizedNetwork(p), map[]).fields, WantedCarrier(p))
  {
    var network := NormalizedNetwork(p);
    var f := map["network" := String(network)];
    assert map[]["network" := String(network)] == f;
    if network == "ws" {
      WsCarries(p);
      assert f["wsSettings" := Object(WsSettings(p))]
        == map["network" := String("ws"), "wsSettings" := Object(WsSettings(p))];
    } else if network == "grpc" {
      GrpcCarries(GrpcService(p));
      assert f["grpcSettings" := Object(With(map[], "serviceName", GrpcService(p)))]
        == map["network" := String("grpc"), "grpcSettings" := Object(With(map[], "serviceName", GrpcService(p)))];
    } else {
      PlainCarries();
    }
  }

  lemma LayerReads(settings: Fields, kind: string, key: string, inner: Fields)
    requires key == "tlsSettings" || key == "realitySettings"
    ensures var s := Layer(settings, kind, key, inner);
      && Value(s, "security") == String(kind) && Value(s, key) == Object(inner)
      && ReadCarrier(s) == ReadCarrier(settings)
      && ("wsSettings" in s <==> "wsSettings" in settings) && ("grpcSettings" in s <==> "grpcSettings" in settings)
      && forall k | k == "tlsSettings" || k == "realitySettings" :: k in s <==> k == key || k in settings
  {
    var s := Layer(settings, kind, key, inner);
    assert forall k | k in ["network", "wsSettings", "grpcSettings"] :: Value(s, k) == Value(settings, k);
  }

  /** The settings `s` show this protection, and the transport that `settings` show. */
  ghost predicate Shows(s: Fields, settings: Fields, wanted: Protection) {
    && ReadProtection(s) == wanted
    && ("tlsSettings" in s <==> wanted.Tls?) && ("realitySettings" in s <==> wanted.Reality?)
    && ReadCarrier(s) == ReadCarrier(settings)
    && ("wsSettings" in s <==> "wsSettings" in settings) && ("grpcSettings" in s <==> "grpcSettings" in settings)
  }

  lemma TlsLayerShows(p: Profile, settings: Fields)
    requires "tlsSettings" !in settings && "realitySettings" !in settings
    ensures Shows(Layer(settings, "tls", "tlsSettings", TlsSettings(p)), settings, WantedTls(p))
  {
    TlsReadsBack(p);
    LayerReads(settings, "tls", "tlsSettings", TlsSettings(p));
  }

  lemma RealityLayerShows(p: Profile, settings: Fields)
    requires IsReality(p) && "tlsSettings" !in settings && "realitySettings" !in settings
    ensures Shows(Layer(settings, "reality", "realitySettings", RealitySettings(p)), settings, WantedProtection(p))
  {
    RealityReadsBack(p);
    LayerReads(settings, "reality", "realitySettings", RealitySettings(p));
  }

  lemma ClearShows(settings: Fields)
    requires "security" !in settings && "tlsSettings" !in settings && "realitySettings" !in settings
    ensures Shows(settings, settings, Clear)
  {
  }

  lemma SecurityCases(p: Profile, network: string, settings: Fields)
    requires Security(p, network, settings).Made?
    ensures var s, wanted := Security(p, network, settings).fields, WantedProtection(p);
      if IsReality(p) then s == Layer(settings, "reality", "realitySettings", RealitySettings(p))
      else if NormalizedSecurity(p) == "tls" then
        s == Layer(settings, "tls", "tlsSettings", TlsSettings(p)) && wanted == WantedTls(p)
      else s == settings && wanted == Clear
  {
    SecurityNames(p);
  }

  /** Exactly the settings keys that go with the security; the transport is left as it was. */
  lemma SecurityReadsBack(p: Profile, network: string, settings: Fields)
    requires Security(p, network, settings).Made?
    requires "security" !in settings && "tlsSettings" !in settings && "realitySettings" !in settings
    ensures Shows(Security(p, network, settings).fields, settings, WantedProtection(p))
  {
    SecurityCases(p, network, settings);
    if IsReality(p) {
      RealityLayerShows(p, settings);
    } else if NormalizedSecurity(p) == "tls" {
      TlsLayerShows(p, settings);
    } else {
      ClearShows(settings);
    }
  }

  /** The generated settings carry the profile's transport and security, and nothing of the others. */
  lemma StreamReadsBack(p: Profile)
    requires Stream(p).Made?
    ensures var s := Stream(p).fields;
      && ReadCarrier(s) == WantedCarrier(p) && ReadProtection(s) == WantedProtection(p)
      && ("wsSettings" in s <==> WantedCarrier(p).WebSocket?)
      && ("grpcSettings" in s <==> WantedCarrier(p).Grpc?)
      && ("tlsSettings" in s <==> WantedProtection(p).Tls?)
      && ("realitySettings" in s <==> WantedProtection(p).Reality?)
  {
    TransportReadsBack(p);
    SecurityReadsBack(p, NormalizedNetwork(p), Transport(p, NormalizedNetwork(p), map[]).fields);
  }

  // ---------- when generating stream settings fails ----------

  datatype Message = Empty | Report(error: Error)

  /** A gRPC profile with neither a service name nor a path. */
  predicate NoService(p: Profile) {
    NormalizedNetwork(p) == "grpc" && Text.Blank(p.serviceName) && Text.Blank(p.path)
  }

  predicate UnknownSecurity(p: Profile) {
    !IsReality(p) && NormalizedSecurity(p) !in ["", "none", "tls"]
  }

  function TransportGap(p: Profile): Message {
    if !IsNetworkSupported(p) then Report(UnsupportedNetwork)
    else if NoService(p) then Report(GrpcNeedsServiceName)
    else Empty
  }

  function SecurityGap(p: Profile): Message {
    if UnknownSecurity(p) then Report(UnsupportedSecurity)
    else if !IsReality(p) then Empty
    else if NormalizedNetwork(p) == "ws" then Report(RealityOverWebSocket)
    else if Text.Blank(p.publicKey) || EffectiveServerName(p) == "" then Report(RealityNeedsKeyAndName)
    else Empty
  }

  function StreamGap(p: Profile): Message {
    if TransportGap(p) != Empty then TransportGap(p) else SecurityGap(p)
  }

  /** No gap, and the outcome is made; or the error is the gap. */
  ghost predicate Verdict(outcome: Outcome, gap: Message) {
    && (outcome.Made? <==> gap == Empty)
    && (outcome.Failed? ==> gap == Report(outcome.error))
  }

  lemma TransportVerdict(p: Profile)
    ensures Verdict(Transport(p, NormalizedNetwork(p), map[]), TransportGap(p))
  {
  }

  lemma SecurityVerdict(p: Profile, settings: Fields)
    requires IsNetworkSupported(p)
    ensures Verdict(Security(p, NormalizedNetwork(p), settings), SecurityGap(p))
  {
    SecurityNames(p);
  }

  /** Generating stream settings fails exactly for these gaps, and says which. */
  lemma StreamVerdict(p: Profile)
    ensures Verdict(Stream(p), StreamGap(p))
  {
    TransportVerdict(p);
    if TransportGap(p) == Empty {
      SecurityVerdict(p, Transport(p, NormalizedNetwork(p), map[]).fields);
    }
  }

  // ---------- the generator ----------

  /** The settings a call leaves, and whether it reported an error. */
  ghost predicate Agrees(outcome: Outcome, settings: Fields, message: Message) {
    match outcome
    case Made(fields) => message == Empty && settings == fields
    case Failed(error) => message == Report(error)
  }

  class StreamBuilder {
    var settings: Fields
    var message: Message

    constructor ()
      ensures settings == map[] && message == Empty
    {
      settings, message := map[], Empty;
    }

    method ApplyTransportLayer(p: Profile, network: string)
      requires message == Empty
      modifies this
      ensures Agrees(Transport(p, network, old(settings)), settings, message)
    {
      settings := settings["network" := String(network)];
      if network == "ws" {
        settings := settings["wsSettings" := Object(WsSettings(p))];
        return;
      }
      if network == "grpc" {
        var grpc := With(map[], "serviceName", GrpcService(p));
        if |grpc| == 0 {
          message := Report(GrpcNeedsServiceName);
          return;
        }
        settings := settings["grpcSettings" := Object(grpc)];
        return;
      }
      if network != "tcp" {
        message := Report(UnsupportedNetwork);
      }
    }

    method ApplySecurityLayer(p: Profile, network: string)
      requires message == Empty
      modifies this
      ensures Agrees(Security(p, network, old(settings)), settings, message)
    {
      var security := NormalizedSecurity(p);
      if IsReality(p) {
        if network == "ws" {
          message := Report(RealityOverWebSocket);
          return;
        }
        if network != "tcp" && network != "grpc" {
          message := Report(RealityNetwork);
          return;
        }
        if Text.Blank(p.publicKey) || EffectiveServerName(p) == "" {
          message := Report(RealityNeedsKeyAndName);
          return;
        }
        settings := settings["security" := String("reality")];
        settings := settings["realitySettings" := Object(RealitySettings(p))];
        return;
      }
      if IsTls(p) || security == "tls" {
        settings := settings["security" := String("tls")];
        var tls := BuildTlsSettings(p);
        settings := settings["tlsSettings" := Object(tls)];
        return;
      }
      if security != "" && security != "none" {
        message := Report(UnsupportedSecurity);
      }
    }

    static method BuildTlsSettings(p: Profile) returns (tls: Fields)
      ensures tls == TlsSettings(p)
    {
      tls := TlsNames(p);
      if p.allowInsecure {
        tls := tls["allowInsecure" := Boolean(true)];
      }
      if !Text.Blank(p.alpn) {
        var list := Text.KeepNonBlank(Text.Split(Text.Trim(p.alpn), ','));
        if list != [] {
          tls := tls["alpn" := Strings(list)];
        }
      }
    }

    method Generate(p: Profile)
      requires settings == map[] && message == Empty
      modifies this
      ensures Agrees(Stream(p), settings, message)
      ensures message.Report? ==> settings == map[]
    {
      var network := NormalizedNetwork(p);
      ApplyTransportLayer(p, network);
      if message == Empty {
        ApplySecurityLayer(p, network);
      }
      if message != Empty {
        settings := map[];
      }
    }
  }
}
