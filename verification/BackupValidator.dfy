/** The gate every imported backup must pass. */
module BackupValidator {
  import opened Text
  import opened BackupModel
  import opened VersionOrder

  datatype ManifestError = UnsupportedFormat | UnsupportedVersion(version: int)

  datatype ManifestWarning = NewerVersion(version: string) | RedactedBackup

  datatype Validation = Validation(
    valid: bool, canImport: bool, errors: seq<ManifestError>, warnings: seq<ManifestWarning>)

  predicate Importable(m: Manifest) {
    m.format == FORMAT && m.formatVersion <= FORMAT_VERSION
  }

  /** Older and redacted backups pass; an unknown format or a newer format version does not. */
  method ValidateManifest(m: Manifest, appVersion: string) returns (v: Validation)
    ensures v.valid == v.canImport == Importable(m)
    ensures v.valid <==> v.errors == []
    ensures UnsupportedFormat in v.errors <==> m.format != FORMAT
    ensures UnsupportedVersion(m.formatVersion) in v.errors <==> m.formatVersion > FORMAT_VERSION
    ensures NewerVersion(m.appVersion) in v.warnings <==> Newer(Split(m.appVersion, '.'), Split(appVersion, '.'))
    ensures RedactedBackup in v.warnings <==> m.redacted
  {
    v := Validation(true, true, [], []);
    if m.format != FORMAT {
      v := Validation(false, false, v.errors + [UnsupportedFormat], v.warnings);
    }
    if m.formatVersion > FORMAT_VERSION {
      v := Validation(false, false, v.errors + [UnsupportedVersion(m.formatVersion)], v.warnings);
    }
    var newer := IsNewerAppVersion(m.appVersion, appVersion);
    if newer {
      v := v.(warnings := v.warnings + [NewerVersion(m.appVersion)]);
    }
    if m.redacted {
      v := v.(warnings := v.warnings + [RedactedBackup]);
    }
  }

  datatype ChecksumError = MissingFile(path: string) | Mismatch(path: string)

  function Checksum(c: Content, sha: Content -> string): string {
    "sha256:" + sha(c)
  }

  predicate ChecksumHolds(files: Files, path: string, expected: string, sha: Content -> string) {
    path in files && EqualsIgnoreCase(Checksum(files[path], sha), expected)
  }

  /** The result is true exactly when every listed file is there with its digest; each failure is reported. */
  method VerifyChecksums(m: Manifest, files: Files, sha: Content -> string)
    returns (ok: bool, errors: seq<ChecksumError>)
    ensures ok <==> forall path | path in m.checksums :: ChecksumHolds(files, path, m.checksums[path], sha)
    ensures forall path :: MissingFile(path) in errors <==> path in m.checksums && path !in files
    ensures forall path :: Mismatch(path) in errors <==>
      path in m.checksums && path in files && !ChecksumHolds(files, path, m.checksums[path], sha)
  {
    ok, errors := true, [];
    var todo := m.checksums.Keys;
    while todo != {}
      invariant todo <= m.checksums.Keys
      invariant ok <==> forall path | path in m.checksums && path !in todo ::
        ChecksumHolds(files, path, m.checksums[path], sha)
      invariant forall path :: MissingFile(path) in errors <==> path in m.checksums && path !in todo && path !in files
      invariant forall path :: Mismatch(path) in errors <==>
        path in m.checksums && path !in todo && path in files && !ChecksumHolds(files, path, m.checksums[path], sha)
      decreases todo
    {
      var path :| path in todo;
      todo := todo - {path};
      if path !in files {
        errors := errors + [MissingFile(path)];
        ok := false;
        continue;
      }
      if !EqualsIgnoreCase(Checksum(files[path], sha), m.checksums[path]) {
        errors := errors + [Mismatch(path)];
        ok := false;
      }
    }
  }

  // ---------- what a checksum says ----------

  lemma LowerAppend(a: string, b: string)
    ensures Lower(a + b) == Lower(a) + Lower(b)
  {
  }

  /** The recorded text is `sha256:` and the digest of this very file, up to case. */
  lemma ChecksumMeaning(files: Files, path: string, expected: string, sha: Content -> string)
    ensures ChecksumHolds(files, path, expected, sha) <==>
      path in files && EqualsIgnoreCase(expected, "sha256:" + sha(files[path]))
  {
  }

  /** Two recorded texts agree up to case exactly when their digests do. */
  lemma DigestsDecide(x: string, y: string)
    ensures EqualsIgnoreCase("sha256:" + x, "sha256:" + y) <==> EqualsIgnoreCase(x, y)
  {
    LowerAppend("sha256:", x);
    LowerAppend("sha256:", y);
    var a, b := Lower("sha256:" + x), Lower("sha256:" + y);
    assert a[7..] == Lower(x) && b[7..] == Lower(y);
  }
}
