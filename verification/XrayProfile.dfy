/** A server profile and the Xray outbound it asks for: what is supported and what each field means. */
module XrayProfile {
  import Text

  datatype Protocol = Vless | Vmess | Trojan | Shadowsocks | Socks | Hysteria2 | WireGuard

  /** The fields the generators read; `cipher` is the source's `method`. */
  datatype Profile = Profile(
    protocol: Protocol, name: string, address: string, port: int,
    uuidPassword: string, password: string, encryption: string, cipher: string, securityCipher: string,
    flow: string, alpn: string, obfs: string, obfsPassword: string,
    network: string, path: string, host: string, serviceName: string,
    security: string, serverName: string, sni: string, fingerprint: string,
    publicKey: string, shortId: string, spiderX: string, allowInsecure: bool,
    localAddress: string, allowedIps: string, preSharedKey: string, reserved: string,
    mtu: int, keepAlive: int, alterId: int, unsupportedReason: string)

  /** The first string, trimmed, unless it is blank; then the second. */
  function Preferred(first: string, second: string): string {
    if Text.Blank(first) then second else Text.Trim(first)
  }

  predicate IsValid(p: Profile) {
    !Text.Blank(p.name) && !Text.Blank(p.address) && 1 <= p.port <= 65535
  }

  /** Compared without trimming. */
  predicate IsReality(p: Profile) {
    Text.EqualsIgnoreCase(p.security, "reality")
  }

  /** Compared without trimming. */
  predicate IsTls(p: Profile) {
    Text.EqualsIgnoreCase(p.security, "tls")
  }

  /** Compared after trimming. */
  predicate IsNone(p: Profile) {
    Text.Blank(p.security) || Text.EqualsIgnoreCase(Text.Trim(p.security), "none")
  }

  function EffectiveUuid(p: Profile): string {
    Text.Trim(p.uuidPassword)
  }

  function EffectivePassword(p: Profile): string {
    Preferred(p.password, Text.Trim(p.uuidPassword))
  }

  function EffectiveVmessSecurity(p: Profile): string {
    Preferred(p.securityCipher, "auto")
  }

  function EffectiveMethod(p: Profile): string {
    Preferred(p.cipher, Text.Trim(p.encryption))
  }

  function EffectiveServerName(p: Profile): string {
    Preferred(p.serverName, Text.Trim(p.sni))
  }

  function EffectiveEncryption(p: Profile): string {
    Preferred(p.encryption, "none")
  }

  function EffectiveFingerprint(p: Profile): string {
    Preferred(p.fingerprint, "chrome")
  }

  function NormalizedSecurity(p: Profile): string {
    Text.Lower(Text.Trim(p.security))
  }

  function NormalizedNetwork(p: Profile): string {
    var network := Text.Lower(Text.Trim(p.network));
    if network == "" || network == "raw" then "tcp" else network
  }

  predicate IsNetworkSupported(p: Profile) {
    NormalizedNetwork(p) in ["tcp", "ws", "grpc"]
  }

  /** A spelling of `tls` in any case is `tls` after trimming, and so on for the other two names. */
  lemma SecurityNames(p: Profile)
    ensures IsTls(p) ==> NormalizedSecurity(p) == "tls"
    ensures IsReality(p) ==> NormalizedSecurity(p) == "reality"
    ensures IsNone(p) <==> NormalizedSecurity(p) in ["", "none"]
  {
    Letters(p.security, "tls");
    Letters(p.security, "reality");
    assert Text.Lower("none") == "none";
  }

  lemma Letters(s: string, word: string)
    requires word != "" && forall i | 0 <= i < |word| :: 'a' <= word[i] <= 'z'
    ensures Text.EqualsIgnoreCase(s, word) ==> Text.Lower(Text.Trim(s)) == word
  {
    assert Text.Lower(word) == word;
    if Text.Lower(s) == word {
      forall i | i == 0 || i == |s| - 1 ensures !Text.IsSpace(s[i]) {
        assert Text.Lower(s)[i] == word[i];
      }
      Text.TrimFixed(s);
    }
  }

  /** TLS and REALITY are recognised in any case, but not with white space around them. */
  lemma SecurityTests(p: Profile)
    ensures IsTls(p) <==> Text.Lower(p.security) == "tls"
    ensures IsReality(p) <==> Text.Lower(p.security) == "reality"
    ensures !(IsTls(p) && IsReality(p)) && !(IsTls(p) && IsNone(p)) && !(IsReality(p) && IsNone(p))
  {
    assert Text.Lower("tls") == "tls" && Text.Lower("reality") == "reality";
    SecurityNames(p);
  }

  // ---------- which profiles are supported ----------

  predicate SupportsVless(p: Profile) {
    var network := NormalizedNetwork(p);
    && IsNetworkSupported(p)
    && if IsReality(p) then network == "tcp" && !Text.Blank(p.publicKey) && EffectiveServerName(p) != ""
       else if IsTls(p) then true
       else IsNone(p) && network == "tcp"
  }

  predicate SupportsVmess(p: Profile) {
    var network := NormalizedNetwork(p);
    && !IsReality(p) && IsNetworkSupported(p) && EffectiveUuid(p) != "" && p.alterId >= 0
    && !(network == "ws" && Text.Blank(p.path))
    && !(network == "grpc" && Text.Blank(p.serviceName) && Text.Blank(p.path))
  }

  predicate SupportsTrojan(p: Profile) {
    var network := NormalizedNetwork(p);
    && EffectivePassword(p) != "" && IsNetworkSupported(p)
    && if IsReality(p) then network == "tcp" && !Text.Blank(p.publicKey)
       else !(network == "ws" && Text.Blank(p.path))
  }

  predicate SupportsShadowsocks(p: Profile) {
    EffectiveMethod(p) != "" && EffectivePassword(p) != ""
  }

  predicate SupportsHysteria2(p: Profile) {
    EffectivePassword(p) != "" && (IsTls(p) || IsNone(p))
  }

  predicate SupportsWireGuard(p: Profile) {
    EffectivePassword(p) != "" && !Text.Blank(p.publicKey)
  }

  predicate SupportsProfile(p: Profile) {
    && IsValid(p) && Text.Blank(p.unsupportedReason)
    && match p.protocol
       case Vless => SupportsVless(p)
       case Vmess => SupportsVmess(p)
       case Trojan => SupportsTrojan(p)
       case Shadowsocks => SupportsShadowsocks(p)
       case Socks => !Text.Blank(p.address)
       case Hysteria2 => SupportsHysteria2(p)
       case WireGuard => SupportsWireGuard(p)
  }

  // ---------- what the effective fields mean ----------

  /** No white space at either end, and not empty. */
  predicate Neat(s: string) {
    s != "" && !Text.IsSpace(s[0]) && !Text.IsSpace(s[|s| - 1])
  }

  lemma PreferredMeaning(first: string, second: string)
    ensures Neat(first) ==> Preferred(first, second) == first
    ensures Text.AllSpace(first) ==> Preferred(first, second) == second
  {
    if Neat(first) {
      Text.TrimFixed(first);
    }
    if Text.AllSpace(first) {
      SpaceTrims(first);
    }
  }

  lemma {:induction false} SpaceTrims(s: string)
    requires Text.AllSpace(s)
    ensures Text.TrimLeft(s) == "" && Text.Trim(s) == ""
  {
    if s != "" {
      SpaceTrims(s[1..]);
    }
  }

  /** Each effective field is the field of its own, or the one it falls back to when its own is blank. */
  lemma EffectiveFields(p: Profile)
    ensures Neat(p.password) ==> EffectivePassword(p) == p.password
    ensures Text.AllSpace(p.password) && Neat(p.uuidPassword) ==> EffectivePassword(p) == p.uuidPassword
    ensures Neat(p.cipher) ==> EffectiveMethod(p) == p.cipher
    ensures Text.AllSpace(p.cipher) && Neat(p.encryption) ==> EffectiveMethod(p) == p.encryption
    ensures Neat(p.serverName) ==> EffectiveServerName(p) == p.serverName
    ensures Text.AllSpace(p.serverName) && Neat(p.sni) ==> EffectiveServerName(p) == p.sni
    ensures Neat(p.uuidPassword) ==> EffectiveUuid(p) == p.uuidPassword
  {
    PreferredMeaning(p.password, Text.Trim(p.uuidPassword));
    PreferredMeaning(p.cipher, Text.Trim(p.encryption));
    PreferredMeaning(p.serverName, Text.Trim(p.sni));
    if Neat(p.uuidPassword) {
      Text.TrimFixed(p.uuidPassword);
    }
    if Neat(p.encryption) {
      Text.TrimFixed(p.encryption);
    }
    if Neat(p.sni) {
      Text.TrimFixed(p.sni);
    }
  }

  /** And the fields with a default take it exactly when they are blank. */
  lemma DefaultedFields(p: Profile)
    ensures Neat(p.securityCipher) ==> EffectiveVmessSecurity(p) == p.securityCipher
    ensures Text.AllSpace(p.securityCipher) ==> EffectiveVmessSecurity(p) == "auto"
    ensures Neat(p.encryption) ==> EffectiveEncryption(p) == p.encryption
    ensures Text.AllSpace(p.encryption) ==> EffectiveEncryption(p) == "none"
    ensures Neat(p.fingerprint) ==> EffectiveFingerprint(p) == p.fingerprint
    ensures Text.AllSpace(p.fingerprint) ==> EffectiveFingerprint(p) == "chrome"
  {
    PreferredMeaning(p.securityCipher, "auto");
    PreferredMeaning(p.encryption, "none");
    PreferredMeaning(p.fingerprint, "chrome");
  }

  /** A spelling of a network in any case and with white space around it is that network; none and `raw` are TCP. */
  lemma NetworkNames(p: Profile, name: string)
    requires name in ["tcp", "ws", "grpc", "raw"] && Text.EqualsIgnoreCase(p.network, name)
    ensures NormalizedNetwork(p) == if name == "raw" then "tcp" else name
    ensures IsNetworkSupported(p)
  {
    Letters(p.network, name);
  }

  lemma BlankNetwork(p: Profile)
    requires Text.AllSpace(p.network)
    ensures NormalizedNetwork(p) == "tcp" && IsNetworkSupported(p)
  {
    SpaceTrims(p.network);
  }

  // ---------- which profiles must be supported ----------

  /** What every protocol asks for. */
  predicate Usable(p: Profile) {
    IsValid(p) && Text.Blank(p.unsupportedReason)
  }

  /** VLESS goes over TLS on every network, without security on TCP, and over REALITY on TCP with a key and a name. */
  lemma VlessSupported(p: Profile)
    requires p.protocol == Vless && Usable(p)
    ensures IsTls(p) && NormalizedNetwork(p) in ["tcp", "ws", "grpc"] ==> SupportsProfile(p)
    ensures IsNone(p) && NormalizedNetwork(p) == "tcp" ==> SupportsProfile(p)
    ensures (IsReality(p) && NormalizedNetwork(p) == "tcp" && !Text.Blank(p.publicKey)
             && EffectiveServerName(p) != "") ==> SupportsProfile(p)
    ensures SupportsProfile(p) ==> NormalizedNetwork(p) == "tcp" || IsTls(p)
    ensures SupportsProfile(p) ==> IsTls(p) || IsNone(p) || IsReality(p)
  {
    SecurityNames(p);
  }

  /** VMess goes over every network with a UUID, given what the network needs, but never over REALITY. */
  lemma VmessSupported(p: Profile)
    requires p.protocol == Vmess && Usable(p)
    ensures !IsReality(p) && EffectiveUuid(p) != "" && p.alterId >= 0 && NormalizedNetwork(p) == "tcp" ==>
      SupportsProfile(p)
    ensures (!IsReality(p) && EffectiveUuid(p) != "" && p.alterId >= 0 && !Text.Blank(p.path)
             && NormalizedNetwork(p) in ["ws", "grpc"]) ==> SupportsProfile(p)
    ensures (!IsReality(p) && EffectiveUuid(p) != "" && p.alterId >= 0 && !Text.Blank(p.serviceName)
             && NormalizedNetwork(p) == "grpc") ==> SupportsProfile(p)
    ensures SupportsProfile(p) ==> EffectiveUuid(p) != "" && !IsReality(p) && p.alterId >= 0
    ensures SupportsProfile(p) && NormalizedNetwork(p) == "ws" ==> !Text.Blank(p.path)
  {
  }

  /** Trojan goes over every network with a password; over REALITY only on TCP and with a key. */
  lemma TrojanSupported(p: Profile)
    requires p.protocol == Trojan && Usable(p)
    ensures EffectivePassword(p) != "" && !IsReality(p) && NormalizedNetwork(p) in ["tcp", "grpc"] ==>
      SupportsProfile(p)
    ensures EffectivePassword(p) != "" && !IsReality(p) && NormalizedNetwork(p) == "ws" && !Text.Blank(p.path) ==>
      SupportsProfile(p)
    ensures EffectivePassword(p) != "" && IsReality(p) && NormalizedNetwork(p) == "tcp" && !Text.Blank(p.publicKey) ==>
      SupportsProfile(p)
    ensures SupportsProfile(p) ==> EffectivePassword(p) != ""
    ensures SupportsProfile(p) && IsReality(p) ==> NormalizedNetwork(p) == "tcp" && !Text.Blank(p.publicKey)
  {
  }

  /** The other protocols do not look at the network: each needs its secrets, and Hysteria2 no foreign security. */
  lemma OthersSupported(p: Profile)
    requires Usable(p)
    ensures p.protocol == Shadowsocks ==>
      (SupportsProfile(p) <==> EffectiveMethod(p) != "" && EffectivePassword(p) != "")
    ensures p.protocol == Socks ==> SupportsProfile(p)
    ensures p.protocol == Hysteria2 ==>
      (SupportsProfile(p) <==> EffectivePassword(p) != "" && (IsTls(p) || IsNone(p)))
    ensures p.protocol == WireGuard ==>
      (SupportsProfile(p) <==> EffectivePassword(p) != "" && !Text.Blank(p.publicKey))
  {
  }

  /** Nothing is supported without a name, an address, a port in range, or with a reason against it. */
  lemma UnusableRefused(p: Profile)
    ensures SupportsProfile(p) ==> !Text.Blank(p.name) && !Text.Blank(p.address)
    ensures SupportsProfile(p) ==> 1 <= p.port <= 65535 && Text.Blank(p.unsupportedReason)
  {
  }
}
