/** Installing a core executable with a backup beforehand and a restore when the new one fails its check. */
module CoreInstaller {
  import opened Text
  import opened StringOrder

  datatype CoreType = Xray | SingBox

  type Bytes = string

  type Folder = map<string, Bytes>

  const VERSION_FILE := "VERSION"
  const METADATA_FILE := ".zarya-core.json"
  const PREFIX := "sing-box-"

  datatype Platform = Unix | Windows

  function Executable(p: Platform): string {
    if p.Windows? then "sing-box.exe" else "sing-box"
  }

  /** The files a backup keeps, in the order it copies them. */
  function PreservedNames(p: Platform): seq<string> {
    [Executable(p), VERSION_FILE, METADATA_FILE]
  }

  /** A directory listing that does not ask for hidden files leaves out names with a leading dot, except on Windows. */
  predicate IsListed(p: Platform, file: string) {
    p.Windows? || file == "" || file[0] != '.'
  }

  function Visible(p: Platform, folder: Folder): Folder {
    map f | f in folder && IsListed(p, f) :: folder[f]
  }

  function BackupName(version: string, timestamp: string): string {
    PREFIX + (if version == "" then "unknown" else version) + "-" + timestamp
  }

  /** The directories that belong to this core. */
  function BackupNames(backups: map<string, Folder>): set<string> {
    set n | n in backups && StartsWith(n, PREFIX)
  }

  ghost predicate IsLatest(n: string, backups: map<string, Folder>) {
    n in BackupNames(backups) && forall m | m in BackupNames(backups) && m != n :: Less(m, n)
  }

  /** A folder in which some files of `new_` have been copied over `old_`, and some copy may have lost its target. */
  ghost predicate Between(f: Folder, old_: Folder, new_: Folder) {
    && (forall n | n in f :: (n in old_ && f[n] == old_[n]) || (n in new_ && f[n] == new_[n]))
    && (forall n | n in old_ && n !in new_ :: n in f)
  }

  /** This file of `installed`, if there is one, is in the folder. */
  predicate Has(folder: Folder, installed: Folder, file: string) {
    file in installed ==> file in folder && folder[file] == installed[file]
  }

  /** No backup but possibly this one's namesake compares greater. */
  ghost predicate SortsLast(name: string, backups: map<string, Folder>) {
    forall m | m in BackupNames(backups) && m != name :: Less(m, name)
  }

  lemma SortsLastIsLatest(version: string, timestamp: string, before: map<string, Folder>, after: map<string, Folder>)
    requires var name := BackupName(version, timestamp);
      SortsLast(name, before) && name in after && after - {name} == before - {name}
    ensures IsLatest(BackupName(version, timestamp), after)
  {
    var name := BackupName(version, timestamp);
    assert StartsWith(name, PREFIX);
    forall m | m in BackupNames(after) && m != name ensures Less(m, name) {
      assert m in after - {name};
      assert m in before;
    }
  }

  lemma LatestUnique(m: string, n: string, backups: map<string, Folder>)
    requires IsLatest(m, backups) && IsLatest(n, backups)
    ensures m == n
  {
    LessTotal(m, n);
  }

  // ---------- copying files that may fail ----------

  /** The files that one phase of an operation manages to remove and to copy; it copies no file twice. */
  datatype Works = Works(removed: set<string>, copied: set<string>)

  predicate Copies(folder: Folder, name: string, w: Works) {
    (name in folder ==> name in w.removed) && name in w.copied
  }

  /** The target is removed first, so a copy that fails after that leaves no target. */
  function AfterCopy(folder: Folder, name: string, content: Bytes, w: Works): Folder {
    if name in folder && name !in w.removed then folder
    else if name !in w.copied then folder - {name}
    else folder[name := content]
  }

  function Preserved(p: Platform, install: Folder): Folder {
    map f | f in install && f in PreservedNames(p) :: install[f]
  }

  function FolderOf(name: string, backups: map<string, Folder>): Folder {
    if name in backups then backups[name] else map[]
  }

  predicate BackupWorks(p: Platform, core: CoreType, install: Folder, folder: Folder, w: Works) {
    core == SingBox && (Executable(p) !in install || forall f | f in Preserved(p, install) :: Copies(folder, f, w))
  }

  ghost predicate RestoreWorks(p: Platform, core: CoreType, install: Folder, backups: map<string, Folder>, w: Works) {
    core == SingBox &&
    exists n :: IsLatest(n, backups) && forall f | f in Visible(p, backups[n]) :: Copies(install, f, w)
  }

  // ---------- installing ----------

  /** Which file operations work in each phase, which of the two small files can be opened, and the check's verdict. */
  datatype Inputs = Inputs(backup: Works, place: Works, versionOpens: bool, metadataOpens: bool, verified: bool,
                           restore: Works)

  datatype Outcome = BackupFailed | CopyFailed | Rejected(restored: bool) | Installed

  function WriteIf(folder: Folder, name: string, content: Bytes, opens: bool): Folder {
    if opens then folder[name := content] else folder
  }

  /** The install directory with the new executable and the small files that could be written. */
  function Placed(p: Platform, install: Folder, staged: Bytes, version: string, metadata: Bytes, i: Inputs): Folder {
    WriteIf(WriteIf(install[Executable(p) := staged], VERSION_FILE, version, i.versionOpens),
            METADATA_FILE, metadata, i.metadataOpens)
  }

  /** What an install makes of the directory and the backups, and its outcome. */
  ghost predicate Installs(p: Platform, core: CoreType, staged: Bytes, version: string, installedVersion: string,
                           timestamp: string, metadata: Bytes, i: Inputs, before: Folder,
                           oldBackups: map<string, Folder>,
                           install: Folder, backups: map<string, Folder>, outcome: Outcome) {
    var name := BackupName(if Executable(p) in before then installedVersion else "", timestamp);
    var ready := BackupWorks(p, core, before, FolderOf(name, oldBackups), i.backup);
    var copied := ready && Copies(before, Executable(p), i.place);
    var placed := Placed(p, before, staged, version, metadata, i);
    && (outcome.BackupFailed? <==> !ready) && (outcome.CopyFailed? <==> ready && !copied)
    && (outcome.Installed? <==> copied && i.verified)
    && (outcome == Rejected(true) <==> copied && !i.verified && RestoreWorks(p, core, placed, backups, i.restore))
    && (outcome.BackupFailed? ==> install == before)
    && (outcome.CopyFailed? ==> install == AfterCopy(before, Executable(p), staged, i.place))
    && (outcome.Installed? ==> install == placed)
    && (outcome == Rejected(true) ==> exists n :: IsLatest(n, backups) && install == placed + Visible(p, backups[n]))
    && (outcome == Rejected(false) ==>
          install == placed || exists n :: IsLatest(n, backups) && Between(install, placed, Visible(p, backups[n])))
    && backups - {name} == oldBackups - {name}
    && (ready ==> BackedUp(p, name, before, oldBackups, backups))
  }

  class CoreStore {
    const platform: Platform
    var install: Folder
    var backups: map<string, Folder>

    constructor (platform: Platform, install: Folder, backups: map<string, Folder>)
      ensures this.platform == platform && this.install == install && this.backups == backups
    {
      this.platform, this.install, this.backups := platform, install, backups;
    }

    static method CopyInto(folder: Folder, name: string, content: Bytes, w: Works) returns (ok: bool, result: Folder)
      ensures ok <==> Copies(folder, name, w)
      ensures result == AfterCopy(folder, name, content, w)
      ensures !ok ==> result == folder || (name in w.removed && result == folder - {name})
      ensures ok ==> result == folder[name := content]
    {
      result := folder;
      if name in result {
        if name !in w.removed {
          return false, result;
        }
        result := result - {name};
      }
      if name !in w.copied {
        return false, result;
      }
      result := result[name := content];
      assert result == folder[name := content];
      ok := true;
    }

    /** The sorted list of this core's backups. */
    method ListBackups(core: CoreType) returns (list: seq<string>)
      ensures Sorted(list)
      ensures forall n :: n in list <==> core.SingBox? && n in BackupNames(backups)
    {
      if core == Xray {
        return [];
      }
      list := SortSet(BackupNames(backups));
    }

    /**
     A successful backup of an installed executable lays every preserved file over the folder of that name;
     nothing else is touched, whatever the outcome.
     */
    method CreateBackup(core: CoreType, version: string, timestamp: string, w: Works) returns (ok: bool)
      modifies `backups
      ensures var name := BackupName(version, timestamp);
        && (ok <==> BackupWorks(platform, core, install, FolderOf(name, old(backups)), w))
        && backups - {name} == old(backups) - {name}
        && (ok && Executable(platform) in install ==>
            backups == old(backups)[name := FolderOf(name, old(backups)) + Preserved(platform, install)])
        && (core == Xray || Executable(platform) !in install ==> backups == old(backups))
    {
      if core == Xray {
        return false;
      }
      if Executable(platform) !in install {
        return true;
      }
      var name := BackupName(version, timestamp);
      var folder;
      ok, folder := CopyPreserved(FolderOf(name, backups), w);
      backups := backups[name := folder];
    }

    method CopyPreserved(before: Folder, w: Works) returns (ok: bool, folder: Folder)
      ensures ok <==> forall f | f in Preserved(platform, install) :: Copies(before, f, w)
      ensures ok ==> folder == before + Preserved(platform, install)
    {
      var names := PreservedNames(platform);
      folder := before;
      for i := 0 to |names|
        invariant folder == before + FirstPreserved(platform, install, i)
        invariant forall f | f in FirstPreserved(platform, install, i) :: Copies(before, f, w)
      {
        CopyStep(platform, install, before, i, w);
        if names[i] !in install {
          continue;
        }
        var copied, result := CopyInto(folder, names[i], install[names[i]], w);
        folder := result;
        if !copied {
          return false, folder;
        }
      }
      AllPreserved(platform, install);
      ok := true;
    }

    /**
     A successful restore lays the listed files of the latest backup over the install directory; a failed one stops
     on the way.
     */
    method RestoreLatestBackup(core: CoreType, w: Works) returns (ok: bool)
      modifies `install
      ensures ok <==> RestoreWorks(platform, core, old(install), backups, w)
      ensures ok ==> exists n :: IsLatest(n, backups) && install == old(install) + Visible(platform, backups[n])
      ensures !ok && install != old(install) ==>
        exists n :: IsLatest(n, backups) && Between(install, old(install), Visible(platform, backups[n]))
    {
      var list := ListBackups(core);
      if list == [] {
        assert core == SingBox ==> forall n | n in BackupNames(backups) :: n in list;
        return false;
      }
      var name := list[|list| - 1];
      LastIsLatest(list, backups, core);
      OnlyLatest(name, backups);
      ok := CopyAll(Visible(platform, backups[name]), w);
    }

    /** The restore's loop over the files of one backup. */
    method CopyAll(folder: Folder, w: Works) returns (ok: bool)
      modifies `install
      ensures ok <==> forall f | f in folder :: Copies(old(install), f, w)
      ensures ok ==> install == old(install) + folder
      ensures !ok ==> Between(install, old(install), folder)
    {
      var todo := folder.Keys;
      while todo != {}
        invariant todo <= folder.Keys
        invariant install == old(install) + (folder - todo)
        invariant forall f | f in folder && f !in todo :: Copies(old(install), f, w)
        decreases todo
      {
        var file :| file in todo;
        assert file in install <==> file in old(install);
        var copied, result := CopyInto(install, file, folder[file], w);
        install := result;
        if !copied {
          return false;
        }
        todo := todo - {file};
        assert folder - todo == (folder - (todo + {file}))[file := folder[file]];
      }
      assert folder - {} == folder;
      ok := true;
    }

    method WriteFile(name: string, content: Bytes, opens: bool)
      modifies `install
      ensures install == WriteIf(old(install), name, content, opens)
    {
      if opens {
        install := install[name := content];
      }
    }

    /**
     `staged` are the bytes of the new executable. The outcome, and the install directory with it, is determined
     by which file operations work; a rejected install that cannot be restored stays in place.
     */
    method InstallFromStaging(core: CoreType, staged: Bytes, version: string, installedVersion: string,
                              timestamp: string, metadata: Bytes, i: Inputs) returns (outcome: Outcome)
      modifies this
      ensures Installs(platform, core, staged, version, installedVersion, timestamp, metadata, i,
                       old(install), old(backups), install, backups, outcome)
    {
      var ok := CreateBackup(core, if Executable(platform) in install then installedVersion else "",
                             timestamp, i.backup);
      if !ok {
        return BackupFailed;
      }
      var result;
      ok, result := CopyInto(install, Executable(platform), staged, i.place);
      install := result;
      if !ok {
        return CopyFailed;
      }
      WriteFile(VERSION_FILE, version, i.versionOpens);
      WriteFile(METADATA_FILE, metadata, i.metadataOpens);
      if !i.verified {
        ok := RestoreLatestBackup(core, i.restore);
        return Rejected(ok);
      }
      outcome := Installed;
    }

    /** Keeps the last `retention` backups in name order, the latest among them; a retention below 1 keeps all. */
    method PruneBackups(core: CoreType, retention: int) returns (list: seq<string>)
      modifies `backups
      ensures Sorted(list) && forall n :: n in list <==> core.SingBox? && n in BackupNames(old(backups))
      ensures var dropped := if retention < 1 || |list| <= retention then 0 else |list| - retention;
        forall n :: n in backups <==> n in old(backups) && n !in list[..dropped]
      ensures forall n | n in backups :: backups[n] == old(backups)[n]
      ensures forall n :: IsLatest(n, old(backups)) ==> IsLatest(n, backups)
    {
      list := ListBackups(core);
      if retention < 1 {
        return;
      }
      var rest := list;
      while |rest| > retention
        invariant |rest| <= |list| && rest == list[|list| - |rest|..]
        invariant |rest| < |list| ==> |rest| >= retention
        invariant forall n :: n in backups <==> n in old(backups) && n !in list[..|list| - |rest|]
        invariant forall n | n in backups :: backups[n] == old(backups)[n]
        decreases |rest|
      {
        var oldest := rest[0];
        ghost var d := |list| - |rest|;
        assert list[..d + 1] == list[..d] + [oldest];
        rest := rest[1..];
        backups := backups - {oldest};
        assert rest == list[d + 1..];
      }
      forall n | IsLatest(n, old(backups)) ensures IsLatest(n, backups) {
        LatestIsLast(n, list, old(backups), core, |list| - |rest|);
      }
    }
  }

  lemma LatestIsLast(n: string, list: seq<string>, backups: map<string, Folder>, core: CoreType, dropped: nat)
    requires IsLatest(n, backups) && Sorted(list)
    requires forall m :: m in list <==> core.SingBox? && m in BackupNames(backups)
    requires dropped <= |list| && (dropped > 0 ==> dropped < |list|)
    ensures n !in list[..dropped]
  {
    if n in list[..dropped] {
      var i :| 0 <= i < dropped && list[i] == n;
      assert Less(list[i], list[|list| - 1]);
      assert list[|list| - 1] in list;
      LessTotal(n, list[|list| - 1]);
    }
  }

  lemma LastIsLatest(list: seq<string>, backups: map<string, Folder>, core: CoreType)
    requires list != [] && Sorted(list) && forall n :: n in list <==> core.SingBox? && n in BackupNames(backups)
    ensures IsLatest(list[|list| - 1], backups) && core == SingBox
  {
    var name := list[|list| - 1];
    assert name in list;
    forall m | m in BackupNames(backups) && m != name ensures Less(m, name) {
      var i :| 0 <= i < |list| && list[i] == m;
    }
  }

  lemma OnlyLatest(name: string, backups: map<string, Folder>)
    requires IsLatest(name, backups)
    ensures forall n | IsLatest(n, backups) :: n == name
  {
    forall n | IsLatest(n, backups) ensures n == name {
      LatestUnique(n, name, backups);
    }
  }

  /** The preserved files that come before position `i`. */
  function FirstPreserved(p: Platform, install: Folder, i: nat): Folder
    requires i <= 3
  {
    map f | f in install && f in PreservedNames(p)[..i] :: install[f]
  }

  lemma NamesDiffer(p: Platform, i: nat)
    requires i < 3
    ensures var names := PreservedNames(p);
      forall f :: (f in names[..i + 1] <==> f in names[..i] || f == names[i]) && names[i] !in names[..i]
  {
    assert Executable(p)[0] == 's' && VERSION_FILE[0] == 'V' && METADATA_FILE[0] == '.';
  }

  lemma PreservedStep(p: Platform, install: Folder, i: nat)
    requires i < 3
    ensures var file := PreservedNames(p)[i];
      && file !in FirstPreserved(p, install, i)
      && FirstPreserved(p, install, i + 1) ==
           (if file in install then FirstPreserved(p, install, i)[file := install[file]]
            else FirstPreserved(p, install, i))
  {
    NamesDiffer(p, i);
  }

  /** What copying one more file does, seen from the folder as it was before the first. */
  lemma CopyStep(p: Platform, install: Folder, before: Folder, i: nat, w: Works)
    requires i < 3
    ensures var file, folder := PreservedNames(p)[i], before + FirstPreserved(p, install, i);
      && (Copies(folder, file, w) <==> Copies(before, file, w))
      && (file in install ==> file in Preserved(p, install)
                              && folder[file := install[file]] == before + FirstPreserved(p, install, i + 1))
      && (file !in install ==> FirstPreserved(p, install, i + 1) == FirstPreserved(p, install, i))
    ensures forall f | f in FirstPreserved(p, install, i + 1) ::
      f in FirstPreserved(p, install, i) || f == PreservedNames(p)[i]
  {
    PreservedStep(p, install, i);
  }

  lemma AllPreserved(p: Platform, install: Folder)
    ensures FirstPreserved(p, install, 3) == Preserved(p, install)
  {
    assert PreservedNames(p)[..3] == PreservedNames(p);
  }

  // ---------- what an install can lose ----------

  /** The state after a backup went through: the fresh backup of an installed executable is beside the others. */
  ghost predicate BackedUp(p: Platform, name: string, install: Folder, before: map<string, Folder>,
                           after: map<string, Folder>) {
    after == if Executable(p) in install then before[name := FolderOf(name, before) + Preserved(p, install)] else before
  }

  /** Once the backup step succeeded, every preserved file is in the backup, whatever happens to the install. */
  lemma FilesSurvive(p: Platform, name: string, install: Folder, before: map<string, Folder>,
                     after: map<string, Folder>)
    requires BackedUp(p, name, install, before, after) && Executable(p) in install
    ensures name in after
    ensures forall f | f in PreservedNames(p) :: Has(after[name], install, f)
  {
  }

  /**
   The backup that is restored is the fresh one exactly when that sorts last; otherwise it is a greater, older one.
   Either way its listed files are laid over the rejected install.
   */
  lemma RestoredBackup(p: Platform, version: string, stamp: string, install: Folder,
                       before: map<string, Folder>, after: map<string, Folder>, n: string)
    requires BackedUp(p, BackupName(version, stamp), install, before, after) && Executable(p) in install
    requires IsLatest(n, after)
    ensures n == BackupName(version, stamp) <==> SortsLast(BackupName(version, stamp), before)
    ensures n != BackupName(version, stamp) ==>
      Less(BackupName(version, stamp), n) && n in before && after[n] == before[n]
  {
    var name := BackupName(version, stamp);
    assert name in BackupNames(after) by {
      assert StartsWith(name, PREFIX);
    }
    if SortsLast(name, before) {
      SortsLastIsLatest(version, stamp, before, after);
      LatestUnique(n, name, after);
    }
  }

  /** The state of the install directory after a rejected install was restored from the fresh backup. */
  ghost predicate RestoredFresh(p: Platform, name: string, install: Folder, placed: Folder, restored: Folder,
                                before: map<string, Folder>, after: map<string, Folder>) {
    && BackedUp(p, name, install, before, after) && Executable(p) in install
    && restored == placed + Visible(p, after[name])
  }

  /** The executable and its version are back, on every platform. */
  lemma RestoredFiles(p: Platform, name: string, install: Folder, placed: Folder, restored: Folder,
                      before: map<string, Folder>, after: map<string, Folder>)
    requires RestoredFresh(p, name, install, placed, restored, before, after)
    ensures Has(restored, install, Executable(p)) && Has(restored, install, VERSION_FILE)
    ensures Has(restored, install, METADATA_FILE) <==> p.Windows? || Has(placed, install, METADATA_FILE)
  {
    FilesSurvive(p, name, install, before, after);
    assert PreservedNames(p)[0] == Executable(p) && PreservedNames(p)[1] == VERSION_FILE;
    assert PreservedNames(p)[2] == METADATA_FILE;
    assert IsListed(p, Executable(p)) && IsListed(p, VERSION_FILE);
    assert IsListed(p, METADATA_FILE) <==> p.Windows?;
    assert METADATA_FILE in Visible(p, after[name]) ==> p.Windows?;
  }

  lemma PlacedMetadata(p: Platform, install: Folder, staged: Bytes, version: string, metadata: Bytes, i: Inputs)
    ensures var placed := Placed(p, install, staged, version, metadata, i);
      Has(placed, install, METADATA_FILE) <==>
        METADATA_FILE !in install || !i.metadataOpens || metadata == install[METADATA_FILE]
  {
    assert Executable(p)[0] == 's' && VERSION_FILE[0] == 'V' && METADATA_FILE[0] == '.';
  }

  /**
   A rejected install that was restored from its fresh backup has the old metadata back if and only if there was
   none, the listing shows hidden files, the new metadata was never written, or it is the same.
   */
  lemma MetadataRestored(p: Platform, name: string, install: Folder, staged: Bytes, version: string, metadata: Bytes,
                         i: Inputs, restored: Folder, before: map<string, Folder>, after: map<string, Folder>)
    requires RestoredFresh(p, name, install, Placed(p, install, staged, version, metadata, i), restored, before, after)
    ensures Has(restored, install, METADATA_FILE) <==>
      || METADATA_FILE !in install || IsListed(p, METADATA_FILE)
      || !i.metadataOpens || metadata == install[METADATA_FILE]
    ensures (forall f | f in PreservedNames(p) :: Has(restored, install, f)) <==> Has(restored, install, METADATA_FILE)
  {
    RestoredFiles(p, name, install, Placed(p, install, staged, version, metadata, i), restored, before, after);
    PlacedMetadata(p, install, staged, version, metadata, i);
    assert PreservedNames(p)[2] == METADATA_FILE;
    assert IsListed(p, METADATA_FILE) <==> p.Windows?;
  }

  /** What has to work for a backup, and what a copy, a listing and a backup's name are. */
  lemma InstallerTerms(p: Platform, core: CoreType, install: Folder, folder: Folder, file: string, w: Works,
                       backups: map<string, Folder>, version: string, stamp: string)
    ensures Copies(folder, file, w) <==> (file in folder ==> file in w.removed) && file in w.copied
    ensures BackupWorks(p, core, install, folder, w) <==>
      && core == SingBox
      && (Executable(p) in install ==>
            forall f | f in install && f in [Executable(p), "VERSION", ".zarya-core.json"] :: Copies(folder, f, w))
    ensures file in Visible(p, folder) <==> file in folder && (p == Windows || file == "" || file[0] != '.')
    ensures file in BackupNames(backups) <==> file in backups && StartsWith(file, "sing-box-")
    ensures version != "" ==> BackupName(version, stamp) == "sing-box-" + version + "-" + stamp
    ensures BackupName("", stamp) == BackupName("unknown", stamp)
  {
  }

  /** This file is the same in both folders, or missing in both. */
  predicate SameFile(a: Folder, b: Folder, file: string) {
    (file in a <==> file in b) && (file in a ==> a[file] == b[file])
  }

  lemma NamesApart(p: Platform)
    ensures Executable(p) != VERSION_FILE && Executable(p) != METADATA_FILE && VERSION_FILE != METADATA_FILE
  {
    assert Executable(p)[0] == 's' && VERSION_FILE[0] == 'V' && METADATA_FILE[0] == '.';
  }

  /**
   An install that succeeds has the staged executable in place, the new version and metadata where their files could
   be opened, and every other file as it was.
   */
  lemma InstalledMeans(p: Platform, core: CoreType, staged: Bytes, version: string, installedVersion: string,
                       timestamp: string, metadata: Bytes, i: Inputs, before: Folder, oldBackups: map<string, Folder>,
                       install: Folder, backups: map<string, Folder>)
    requires Installs(p, core, staged, version, installedVersion, timestamp, metadata, i, before, oldBackups,
                      install, backups, Installed)
    ensures Executable(p) in install && install[Executable(p)] == staged
    ensures if i.versionOpens then VERSION_FILE in install && install[VERSION_FILE] == version
            else SameFile(install, before, VERSION_FILE)
    ensures if i.metadataOpens then METADATA_FILE in install && install[METADATA_FILE] == metadata
            else SameFile(install, before, METADATA_FILE)
    ensures forall f | f !in PreservedNames(p) :: SameFile(install, before, f)
  {
    NamesApart(p);
    assert PreservedNames(p)[0] == Executable(p) && PreservedNames(p)[1] == VERSION_FILE;
    assert PreservedNames(p)[2] == METADATA_FILE;
  }

  /** An install that fails earlier leaves everything else alone, and the executable as it was or, at worst, gone. */
  lemma FailedMeans(p: Platform, core: CoreType, staged: Bytes, version: string, installedVersion: string,
                    timestamp: string, metadata: Bytes, i: Inputs, before: Folder, oldBackups: map<string, Folder>,
                    install: Folder, backups: map<string, Folder>, outcome: Outcome)
    requires Installs(p, core, staged, version, installedVersion, timestamp, metadata, i, before, oldBackups,
                      install, backups, outcome)
    requires outcome.BackupFailed? || outcome.CopyFailed?
    ensures forall f | f != Executable(p) :: SameFile(install, before, f)
    ensures SameFile(install, before, Executable(p)) || Executable(p) !in install
  {
  }

  /**
   The whole rollback. A rejected install over an installed executable that could be restored, with a fresh backup
   that sorts last, has the executable and its version back; the metadata is back under the condition above.
   */
  lemma Rollback(p: Platform, core: CoreType, staged: Bytes, version: string, installedVersion: string,
                 timestamp: string, metadata: Bytes, i: Inputs, before: Folder, oldBackups: map<string, Folder>,
                 install: Folder, backups: map<string, Folder>)
    requires Installs(p, core, staged, version, installedVersion, timestamp, metadata, i, before, oldBackups,
                      install, backups, Rejected(true))
    requires Executable(p) in before && SortsLast(BackupName(installedVersion, timestamp), oldBackups)
    ensures Has(install, before, Executable(p)) && Has(install, before, VERSION_FILE)
    ensures Has(install, before, METADATA_FILE) <==>
      || METADATA_FILE !in before || IsListed(p, METADATA_FILE)
      || !i.metadataOpens || metadata == before[METADATA_FILE]
  {
    var name, placed := BackupName(installedVersion, timestamp), Placed(p, before, staged, version, metadata, i);
    var n :| IsLatest(n, backups) && install == placed + Visible(p, backups[n]);
    RestoredBackup(p, installedVersion, timestamp, before, oldBackups, backups, n);
    RestoredFiles(p, name, before, placed, install, oldBackups, backups);
    MetadataRestored(p, name, before, staged, version, metadata, i, install, oldBackups, backups);
  }

  /** Whatever the outcome, the old executable's bytes are in place or, if the backup step succeeded, in the backup. */
  lemma NothingLost(p: Platform, core: CoreType, staged: Bytes, version: string, installedVersion: string,
                    timestamp: string, metadata: Bytes, i: Inputs, before: Folder, oldBackups: map<string, Folder>,
                    install: Folder, backups: map<string, Folder>, outcome: Outcome)
    requires Installs(p, core, staged, version, installedVersion, timestamp, metadata, i, before, oldBackups,
                      install, backups, outcome)
    requires Executable(p) in before
    ensures var name := BackupName(installedVersion, timestamp);
      if outcome.BackupFailed? then install == before
      else name in backups && Has(backups[name], before, Executable(p))
  {
    if !outcome.BackupFailed? {
      FilesSurvive(p, BackupName(installedVersion, timestamp), before, oldBackups, backups);
      assert PreservedNames(p)[0] == Executable(p);
    }
  }

  const OLD_INSTALL: Folder := map["sing-box" := "old", VERSION_FILE := "1", METADATA_FILE := "about 1"]

  /** An install on Unix that is rejected and restored, and afterwards has the metadata of the rejected version. */
  lemma MetadataLost(name: string, i: Inputs) returns (after: map<string, Folder>, restored: Folder)
    requires StartsWith(name, PREFIX) && i.metadataOpens
    ensures RestoredFresh(Unix, name, OLD_INSTALL, Placed(Unix, OLD_INSTALL, "new", "2", "about 2", i),
                          restored, map[], after)
    ensures IsLatest(name, after)
    ensures METADATA_FILE in restored && restored[METADATA_FILE] == "about 2" != OLD_INSTALL[METADATA_FILE]
  {
    var placed := Placed(Unix, OLD_INSTALL, "new", "2", "about 2", i);
    after := map[name := FolderOf(name, map[]) + Preserved(Unix, OLD_INSTALL)];
    restored := placed + Visible(Unix, after[name]);
    assert "about 2"[6] != "about 1"[6];
    MetadataKept(placed, after[name]);
  }

  lemma MetadataKept(placed: Folder, backup: Folder)
    requires METADATA_FILE in placed
    ensures var r := placed + Visible(Unix, backup);
      METADATA_FILE in r && r[METADATA_FILE] == placed[METADATA_FILE]
  {
    assert METADATA_FILE[0] == '.';
  }

  /** A rejected first install with no backup to restore cannot be undone: the new executable stays. */
  lemma FirstInstallStays(p: Platform, core: CoreType, placed: Folder, before: map<string, Folder>, w: Works)
    requires BackupNames(before) == {}
    ensures !RestoreWorks(p, core, placed, before, w)
    ensures forall n :: !IsLatest(n, before)
  {
  }

  /**
   "Sorts last" is a real condition: the names compare as texts, so a fresh backup of version 1.10.0 sorts before
   every older backup of version 1.9.0, whatever the two time stamps.
   */
  lemma TextOrderMisleads(oldStamp: string, newStamp: string)
    ensures Less(BackupName("1.10.0", newStamp), BackupName("1.9.0", oldStamp))
  {
    var p := PREFIX + "1.";
    var a, b := "10.0" + "-" + newStamp, "9.0" + "-" + oldStamp;
    assert BackupName("1.10.0", newStamp) == p + a;
    assert BackupName("1.9.0", oldStamp) == p + b;
    LessPrefix(p, a, b);
  }

  /** Backups of one version sort by their time stamps. */
  lemma SameVersionByTime(version: string, s: string, t: string)
    ensures Less(BackupName(version, s), BackupName(version, t)) <==> Less(s, t)
  {
    var p := PREFIX + (if version == "" then "unknown" else version) + "-";
    LessPrefix(p, s, t);
  }
}
