/** The two redactors of the program compared. */
module RedactionAgrees {
  import opened Text
  import BackupModel
  import BackupRedactor
  import DiagnosticsRedactor

  lemma HiddenProfileKey(k: string)
    requires k in ["uuid", "uuidPassword", "password", "publicKey", "shortId", "preSharedKey", "obfsPassword"]
    ensures DiagnosticsRedactor.IsSensitive(k)
  {
    assert Lower("uuid") == "" + "uuid" + "" && Lower("uuidPassword") == "" + "uuid" + "password";
    assert Lower("password") == "" + "password" + "" && Lower("publicKey") == "" + "publickey" + "";
    assert Lower("shortId") == "" + "shortid" + "" && Lower("preSharedKey") == "" + "presharedkey" + "";
    assert Lower("obfsPassword") == "obfs" + "password" + "";
    var words := ["uuid", "password", "publickey", "shortid", "presharedkey", "secretkey", "token", "servername"];
    assert words[0] == "uuid" && words[1] == "password" && words[2] == "publickey" && words[3] == "shortid";
    assert words[4] == "presharedkey";
    if k == "uuid" {
      DiagnosticsRedactor.SensitiveWords(k, "", "uuid", "");
    } else if k == "uuidPassword" {
      DiagnosticsRedactor.SensitiveWords(k, "", "uuid", "password");
    } else if k == "password" {
      DiagnosticsRedactor.SensitiveWords(k, "", "password", "");
    } else if k == "publicKey" {
      DiagnosticsRedactor.SensitiveWords(k, "", "publickey", "");
    } else if k == "shortId" {
      DiagnosticsRedactor.SensitiveWords(k, "", "shortid", "");
    } else if k == "preSharedKey" {
      DiagnosticsRedactor.SensitiveWords(k, "", "presharedkey", "");
    } else {
      DiagnosticsRedactor.SensitiveWords(k, "obfs", "password", "");
    }
  }

  lemma HiddenHostKey(k: string)
    requires k in ["address", "serverName", "sni", "host", "url"]
    ensures DiagnosticsRedactor.IsSensitive(k)
  {
    assert Lower("address") == "address" && Lower("sni") == "sni" && Lower("host") == "host" && Lower("url") == "url";
    assert Lower("serverName") == "" + "servername" + "";
    var keys := ["url", "sni", "address", "host"];
    assert keys[0] == "url" && keys[1] == "sni" && keys[2] == "address" && keys[3] == "host";
    var words := ["uuid", "password", "publickey", "shortid", "presharedkey", "secretkey", "token", "servername"];
    assert words[7] == "servername";
    if k == "serverName" {
      DiagnosticsRedactor.SensitiveWords(k, "", "servername", "");
    } else {
      DiagnosticsRedactor.SensitiveKeys(k);
    }
  }

  /** Whatever a redacted backup hides, the diagnostics redactor takes for sensitive. */
  lemma BackupHidesLess(c: BackupModel.Category, mode: BackupModel.RedactionMode, k: string)
    requires BackupRedactor.Hidden(k, BackupRedactor.Passes(c, mode))
    ensures DiagnosticsRedactor.IsSensitive(k)
  {
    if c.Profiles? {
      BackupRedactor.ProfileKeysHidden(mode, k);
      if k in ["uuid", "uuidPassword", "password", "publicKey", "shortId", "preSharedKey", "obfsPassword"] {
        HiddenProfileKey(k);
      } else {
        HiddenHostKey(k);
      }
    } else {
      BackupRedactor.OtherKeysHidden(c, mode, k);
      HiddenHostKey("url");
    }
  }
}
