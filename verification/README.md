# Zarya: a verified model

Zarya is a desktop proxy client. This project models the parts of it that hold state or transform data, and proves
what they keep. `dafny verify dfyconfig.toml` checks all of it.

| files | part of the program |
|---|---|
| `RuntimeModel`, `RuntimeSafety`, `QuitDialogue`, `AppController` | the controller that starts and stops the embedded Xray core and the sing-box tunnel, polls for readiness and runs the quit dialogue |
| `BackupModel`, `BackupManifest`, `BackupValidator`, `VersionOrder`, `BackupRedactor`, `BackupExporter`, `BackupArchive`, `BackupContents` | exporting a backup, what it contains and what its importer sees, and the gate an archive passes before it is imported |
| `MergeModel`, `UniqueNames`, `BackupImporter`, `ImportNames`, `ImportSession` | importing a backup into the stores |
| `DnsManager` | the DNS profile list and its active profile |
| `CoreInstaller` | installing a core executable with backup and rollback |
| `DiagnosticsRedactor`, `RedactionAgrees` | redaction of diagnostic JSON, and the two redactors compared |
| `XrayProfile`, `XrayStream`, `XrayReserved`, `XrayOutbound`, `XrayDns` | generating the Xray outbound and DNS object |
| `WixComponents`, `ReleaseChecksums` | two release scripts |
| `Text`, `Json`, `StringOrder`, `StableSort` | strings, JSON values, the string order and sorting |

The controller appears twice: as step functions on values (`RuntimeModel`), about which the safety theorems speak, and as
classes with the program's own fields (`AppController`) whose methods are proved to take exactly those steps. The other
mutating parts follow the same plan: a specification function, a method or class proved equal to it, and lemmas about
the function.

What the environment decides is an input: outcomes of the embedded library, of the helper and of the proxy restore,
answers in the dialogue, which files can be written, copied or removed, SHA-256, the base64 decoder, the text redactor,
time stamps and their formats, and new ids. Nothing is assumed of them except where a lemma says so
(`DiagnosticsRedactor.TextIdempotent`, fresh ids in `DnsManager.FreshRun`).

Some things one would expect of the code are false of it. They are stated with their exact conditions:

- a failed embedded core is never reset: a start in system-proxy mode that is otherwise fine succeeds if and only if the
  core has not failed, after any run (`RuntimeSafety.FailedCoreStaysFailed`, `StartAfterRun`, `FailureHappens`);
- a tunnel whose stop the helper refuses can stay up beside Xray (`RuntimeSafety.BothCanBeUp`, `XrayOverTunnel`);
- a redacted backup masks lists only at the root of a document, while the stores write them inside an object, contrary
  to what the backup documentation says of credentials (`BackupRedactor.RedactionReachesArrays`, `StoreSampleShows`,
  `BackupArchive.ArchiveHides`);
- a redacted backup that selects the logs always fails (`BackupExporter.RedactedLogsFail`);
- an imported subscription can be overwritten by a later one, and importing twice is not always importing once
  (`MergeModel.ItemSurvives`, `BackupImporter.SubscriptionMergeIdempotent`, `SubscriptionLost`);
- an import can leave two routing or DNS profiles with one name (`ImportNames.NamedNamesDistinct`). What the two lists
  call their profiles decides this alone unless a replacement is called like a numbered candidate of an appended import
  (`PlainNamesDistinct`); then it also depends on the numbers already taken when that import is named, and so on the
  order of the imports (`NumberMet`);
- the latest backup is the last in text order, not in time (`CoreInstaller.TextOrderMisleads`, `RestoredBackup`);
- a rollback on Unix does not bring the metadata file back, since a listing leaves out names with a leading dot
  (`CoreInstaller.MetadataRestored`, `MetadataLost`);
- WiX identifiers can collide (`WixComponents.ExactlyOnce`, `ComponentIdsDiffer`);
- a manifest's time reads back only where the date formatter and parser agree on it (`BackupManifest.RoundTrip`);
- some supported profiles have no outbound (`XrayOutbound.OutboundVerdict`);
- a DNS server with a port and no address is emitted although it is not counted (`XrayDns.CountsAgree`).

## Model

| member | source | states |
|---|---|---|
| `RuntimeSafety.ReachableStatesAreSafe` | src/app/AppController.cpp:426-461 | in every state reachable by any sequence of starts, stops, restarts, waits, shots, ticks, crashes, recoveries and quits, embedded Xray and TUN never both count as running, the active mode names the one that runs, no Starting/Stopping/Recovering state is left over, and callbacks fired + pending shots + armed timer never exceed the waits |
| `RuntimeSafety.RunKeeps` | src/app/AppController.cpp:510-554 | the whole invariant survives every run from any state that has it, not only from the initial one |
| `RuntimeSafety.StepKeeps` | src/app/AppController.cpp:426-1020 | every single call, shot or tick keeps the invariant, and none ever clears a failed embedded core |
| `RuntimeSafety.StopVerdict` | src/app/AppController.cpp:985-1020 | a stop from any good state leaves nothing running and the mode back at system proxy; it succeeds exactly when each running runtime agreed to stop, and the state is Failed exactly when the running embedded core refused |
| `RuntimeSafety.StopTwice` | src/app/AppController.cpp:985-1020 | a stop with nothing running only settles the state, and a second stop touches no runtime |
| `RuntimeSafety.LaunchVerdict` | src/app/AppController.cpp:803-962 | a launch from rest succeeds exactly when everything around the requested runtime works and, for Xray, the embedded core has not failed; then exactly that runtime runs |
| `RuntimeSafety.LaunchFailure` | src/app/AppController.cpp:803-962 | a launch that fails before the library or the helper is asked touches nothing; after that the state is Failed, and so is the runtime that was asked, unless the library refused the request as such |
| `RuntimeSafety.StartVerdict` | src/app/AppController.cpp:510-554 | a start succeeds if and only if it is allowed, whatever runs is confirmed and stops, everything around the requested runtime works and, for Xray, the embedded core has not failed; a start that succeeds leaves exactly that runtime running under the matching mode, and one that fails while something runs changed nothing |
| `RuntimeSafety.StartBranches` | src/app/AppController.cpp:510-554 | a start that is not allowed or not confirmed touches nothing, one whose stop is refused ends there, and any other is the launch after the stop |
| `RuntimeSafety.CheckVerdict` | src/app/AppController.cpp:209-242 | a shot or tick fires at most one callback, and only with the port answering, embedded Xray running, system-proxy mode and no TUN; firing disarms the timer |
| `RuntimeSafety.CallbackGuard` | src/app/AppController.cpp:202-242 | over every run, the callback fires in exactly the pending shots and armed ticks that find embedded Xray up, its port answering and someone to call back, once each; the mode is then system proxy and the timer is disarmed |
| `RuntimeSafety.ReadyVerdict` | src/app/AppController.cpp:209-242 | while embedded Xray runs, a due check whose port answers fires the callback exactly once and disarms the timer, one that can wait keeps it armed, and one that has waited too long stops the core and fails |
| `RuntimeSafety.IdleVerdict` | src/app/AppController.cpp:209-242 | while it does not run a shot is only used up and a tick does nothing; neither does what is not due |
| `RuntimeSafety.StartOwes` | src/app/AppController.cpp:943-962 | a successful Xray start owes exactly one new shot and disarms the timer; any other start owes nothing |
| `RuntimeSafety.StartThenFires` | src/app/AppController.cpp:943-962 | a system-proxy start whose port answers at the first shot reaches its callback, with the runtimes untouched |
| `RuntimeSafety.ShutdownVerdict` | src/app/AppController.cpp:1108-1156 | a shutdown that stops the runtime leaves nothing running; one told to keep it touches no runtime |
| `RuntimeSafety.FailedCoreStaysFailed` | src/runtime/embedded/xray/EmbeddedXrayRuntimeHost.cpp:153-222 | once the embedded core has failed, no run of events resets it |
| `RuntimeSafety.StartAfterRun` | src/app/AppController.cpp:510-554 | after every run, a start that is otherwise fine succeeds in system-proxy mode if and only if the core has not failed, and in TUN mode always |
| `RuntimeSafety.RefusedForGood` | src/runtime/embedded/xray/EmbeddedXrayRuntimeHost.cpp:153-166 | once the core failed in a run, every later system-proxy start of that run is refused, whatever happens in between |
| `RuntimeSafety.FailureHappens` | src/runtime/embedded/xray/EmbeddedXrayRuntimeHost.cpp:168-195 | a concrete run of one failing start that fails the core; the same start with a working library succeeds before it and is refused after it |
| `RuntimeSafety.StopAbandons` | src/app/AppController.cpp:985-1020 | a stop leaves the helper's tunnel behind exactly when there is one, the helper refuses the stop and the tunnel survives |
| `RuntimeSafety.TunnelsExclude` | src/app/AppController.cpp:985-1020 | the real tunnel and the real embedded core exclude each other in every run in which no refused stop leaves a tunnel behind |
| `RuntimeSafety.XrayOverTunnel` | src/app/AppController.cpp:510-554 | every Xray start that succeeds, also one that stops a running runtime first, ends with both really up if and only if it began over an abandoned tunnel |
| `RuntimeSafety.BothCanBeUp` | src/app/AppController.cpp:985-1020 | a concrete run (start TUN, refused stop, start Xray) after which both are really up |
| `QuitDialogue.DialogueDecided` | src/app/AppController.cpp:1187-1231 | the first decisive answer decides the dialogue whatever follows it: one signal, approval only with nothing running, and a restoring retry counts a restore of this very call |
| `QuitDialogue.DialogueEffects` | src/app/AppController.cpp:1187-1231 | a cancelled dialogue leaves every runtime and the proxy as they were when it opened; an exit and a working retry stop what runs, and only a retry restores, exactly as often as its restores work |
| `QuitDialogue.DialogueOpen` | src/app/AppController.cpp:1187-1231 | while no answer is decisive nothing is emitted, stopped or restored |
| `QuitDialogue.QuitDeclined` | src/app/AppController.cpp:1158-1175 | a declined quit blocks once and leaves every runtime, and the proxy, as they were |
| `QuitDialogue.ConfirmDecides` | src/app/AppController.cpp:1158-1175 | the user is asked exactly while something runs, the setting is on and there is a window; otherwise the choices of the confirmation do not matter |
| `QuitDialogue.FirstPassRuntimes` | src/app/AppController.cpp:1108-1156 | the first pass stops what runs, as a stop does, unless the user deselected that or nothing runs; then it leaves the runtimes as they were |
| `QuitDialogue.QuitFirstPass` | src/app/AppController.cpp:1158-1186 | when the first pass decides, the runtimes are those of the pass and exactly the due restore that worked is counted |
| `QuitDialogue.QuitCancelledLate` | src/app/AppController.cpp:1187-1231 | a quit cancelled in the dialogue blocks once and changes nothing but what its first pass stopped |
| `QuitDialogue.QuitVerdict` | src/app/AppController.cpp:1158-1231 | a quit request returns exactly when it was cancelled, passed, had no dialog, or some answer is decisive; every request that returns emits exactly one of quitApproved and quitBlocked; it approves exactly when the first pass goes through or the first decisive answer is an exit or a working retry |
| `QuitDialogue.QuitApproval` | src/app/AppController.cpp:1158-1231 | approval implies that in this call a restore worked, or none was due (off, deselected, or TUN left running), or the user chose to exit anyway; nothing runs unless the user deselected the stop |
| `QuitDialogue.QuitForUpdateVerdict` | src/app/AppController.cpp:1093-1101 | a quit for an update is always approved, once, with nothing left running, and restores the proxy if that is on and works |
| `AppController.EmbeddedXrayHost.Start` | src/runtime/embedded/xray/EmbeddedXrayRuntimeHost.cpp:168-195 | the host's state and lease after a start, for each way it can end |
| `AppController.EmbeddedXrayHost.Stop` | src/runtime/embedded/xray/EmbeddedXrayRuntimeHost.cpp:197-222 | a stop releases the lease and ends Stopped or Failed; an already stopped host agrees |
| `AppController.TunBackend.Start` | src/runtime/singbox/SingBoxTunRuntimeBackend.cpp:92-117 | the backend's state, the helper's tunnel and the signals sent, for each way a start can end |
| `AppController.TunBackend.Stop` | src/runtime/singbox/SingBoxTunRuntimeBackend.cpp:172-192 | a refused stop leaves the backend Stopping and reports failure; otherwise it is Stopped |
| `AppController.AppController.StartProfile` | src/app/AppController.cpp:510-554 | the method changes exactly the runtime, readiness and signal fields that the start step says, and returns its verdict |
| `AppController.AppController.StopCurrentProfile` | src/app/AppController.cpp:985-1020 | the method carries out the stop step on the embedded host, the TUN backend and the controller's own fields |
| `AppController.AppController.CheckSystemProxyReady` | src/app/AppController.cpp:209-242 | the timer, the callback counter and the state after one readiness check are those of the check step |
| `AppController.AppController.WaitForSystemProxyReady` | src/app/AppController.cpp:202-207 | a wait adds one pending shot and stops the timer of the wait before it |
| `AppController.AppController.DeliverShot` | src/app/AppController.cpp:202-207 | a delivered zero-delay shot is one pending shot less and one readiness check |
| `AppController.AppController.TimerTick` | src/app/AppController.cpp:100-114 | a tick does nothing unless the timer is armed; then it is one readiness check |
| `AppController.AppController.RecoverPreviousSession` | src/app/AppController.cpp:450-461 | recovery ends in Stopped, whatever its result, and touches nothing else |
| `AppController.AppController.RequestQuitForUpdate` | src/app/AppController.cpp:1093-1101 | the state after a quit for an update is that of its step |
| `AppController.AppController.RestartRuntime` | src/app/AppController.cpp:969-975 | a restart is the stop step and, only after a stop that succeeded, the start step; it returns true exactly when both succeed |
| `AppController.AppController.SafeShutdownWithOptions` | src/app/AppController.cpp:1108-1156 | the method stops and restores as the shutdown step says; with `exitAnyway` it always returns true |
| `AppController.AppController.AskAfterFailedRestore` | src/app/AppController.cpp:1187-1231 | the dialogue loop agrees with the recursive dialogue step on every list of answers |
| `AppController.AppController.RequestQuit` | src/app/AppController.cpp:1158-1231 | the whole quit request leaves exactly the state the quit step gives, for all inputs |
| `BackupExporter.OwnersDisjoint` | src/backup/BackupExporter.cpp:169-196 | no staging path belongs to two categories |
| `BackupExporter.OutcomesDisjoint` | src/backup/BackupExporter.cpp:198-265 | whatever is on disk, the files two categories stage never share a path |
| `BackupExporter.StageVerdict` | src/backup/BackupExporter.cpp:332-383 | staging succeeds exactly when no selected category fails |
| `BackupExporter.StageMeaning` | src/backup/BackupExporter.cpp:332-383 | the staged files, manifest entries and report are exactly the contributions of the selected categories, each kept unchanged by the categories after it |
| `BackupExporter.OrderIndependent` | src/backup/BackupExporter.cpp:332-383 | two iteration orders of one category set give the same verdict, files, entries and set of reported fields |
| `BackupExporter.LogsVerdict` | src/backup/BackupExporter.cpp:342-366 | nothing is staged for the logs category, so its step fails exactly when redaction is on |
| `BackupExporter.RedactedLogsFail` | src/backup/BackupExporter.cpp:342-366 | a redacted export that selects the redacted logs never succeeds, whatever else is on disk |
| `BackupArchive.ArchiveHides` | src/backup/BackupExporter.cpp:332-414 | in the archive of a successful redacted export the profile or subscription list shows nothing that should be hidden if and only if its store is missing, is an array at its root, or had nothing to hide |
| `BackupArchive.SamplePasswordExported` | src/backup/BackupExporter.cpp:332-414 | a profile store in the shape the program writes it, holding one password, is exported unchanged by every successful redacted export |
| `BackupContents.ListsExported` | src/backup/BackupExporter.cpp:205-218 | in the archive of every successful export, in every mode, each list category is its store, or an empty array without one, redacted for profiles and subscriptions if the export is |
| `BackupContents.SingleFilesExported` | src/backup/BackupExporter.cpp:221-260 | likewise the geo-data and core objects and the rule-set store are there as they are |
| `BackupContents.DirectoriesExported` | src/backup/BackupExporter.cpp:235-249 | and every rule-set file and both geo files, with their own contents |
| `BackupContents.SettingsExported` | src/backup/BackupExporter.cpp:81-107 | and a settings file with exactly the settings that are neither the session's nor the Xray path, each with its own value, or its last path part for the sing-box path of a redacted export |
| `BackupContents.OwnFilesExported` | src/backup/BackupExporter.cpp:385-404 | and the redaction report of a redacted export, the program's description and its paths |
| `BackupContents.NothingElse` | src/backup/BackupExporter.cpp:282-428 | nothing else is in the archive, and no report without redaction |
| `BackupContents.ReportReads` | src/backup/BackupExporter.cpp:385-394 | the report reads back as the redacted fields and the mode |
| `BackupContents.DefaultCategories` | src/backup/BackupExporter.cpp:325-330 | without a choice everything is exported but directories of other programs' files and logs; a choice is taken as it is |
| `BackupContents.DiagnosticIsStrict` | src/backup/BackupExporter.cpp:306-309 | a diagnostic backup is always redacted strictly, any other as chosen |
| `BackupContents.EntryCounts` | src/backup/BackupExporter.cpp:352-359 | an exported list is counted as it is in its store, whether or not it is redacted |
| `BackupContents.CountMeaning` | src/backup/BackupManifest.cpp:137-160 | a root array counts its items, a store the items of its list, and anything else is not counted |
| `BackupContents.ImporterSeesOrigin` | src/backup/BackupImporter.cpp:72-126 | the importer of an export reads its program version, platform and portable mode, and whether and how it was redacted |
| `BackupContents.ImporterSeesCategory` | src/backup/BackupImporter.cpp:483-497 | it reads an entry for exactly the exported categories, naming the file and whether it was redacted |
| `BackupContents.ImportRunsChosen` | src/backup/BackupImporter.cpp:491-508 | an import of an export runs a category exactly when it was exported and the user chose a mode, and in that mode |
| `BackupContents.PathsAgree` | src/backup/BackupExporter.cpp:169-196 | the exporter writes each category where the importer looks for it |
| `BackupContents.ChecksumsRecorded` | src/backup/BackupExporter.cpp:267-280 | exactly the exported single files are recorded, each with sha256: and the digest of what the archive holds |
| `BackupContents.TamperingShows` | src/backup/BackupValidator.cpp:82-106 | replacing a recorded file in an export makes it fail its gate if and only if the new content has another digest, up to case; removing it always does |
| `BackupArchive.ExportPassesGate` | src/backup/BackupExporter.cpp:366-414 | every sealed export passes its own importer's gate (readable manifest, accepted by the validator, all checksums holding after the later writes), whatever the clock; the manifest reads back as built, up to whole seconds, if and only if the date formatter and parser agree on the time of the export |
| `BackupArchive.DataFilesSurvive` | src/backup/BackupExporter.cpp:366-414 | no write after staging (report, diagnostics, manifest) disturbs a staged data file |
| `BackupArchive.ArchiveOrderIndependent` | src/backup/BackupExporter.cpp:332-414 | outside the redaction report's own order, the sealed archive is the same for every iteration order |
| `BackupArchive.AddChecksums` | src/backup/BackupExporter.cpp:267-280 | the checksum loop records exactly the included, present, non-directory entries, whatever order they are visited in |
| `BackupArchive.StageCategory` | src/backup/BackupExporter.cpp:198-265 | the files a category stages, or its failure, for every category |
| `BackupArchive.ProcessCategory` | src/backup/BackupExporter.cpp:338-383 | one turn of the export loop: outcome of the category, and the report grown by exactly its redacted fields |
| `BackupArchive.ExportToArchive` | src/backup/BackupExporter.cpp:282-428 | an export succeeds exactly when the path, temporary directory, archiver, report and manifest work and no category fails; its archive is then the sealed stage and its report lists exactly the redacted fields |
| `BackupArchive.ExtractAndLoadManifest` | src/backup/BackupImporter.cpp:72-126 | a manifest is returned exactly for archives that can be unpacked and pass the gate, and it is the archive's manifest |
| `BackupManifest.EntryRoundTrip` | src/backup/BackupManifest.cpp:12-35 | a category entry reads back as written, negative counts collapsing to -1 |
| `BackupManifest.CategoriesRoundTrip` | src/backup/BackupManifest.cpp:39-83 | a map of categories of any size survives being written and read, key by key |
| `BackupManifest.ReadsBack` | src/backup/BackupManifest.cpp:39-135 | for every manifest, everything but the time reads back as written, up to negative counts, and the time as the clock's texts give it |
| `BackupManifest.RoundTrip` | src/backup/BackupManifest.cpp:39-135 | reading undoes writing, up to whole-second times and negative counts, if and only if the date formatter and parser agree on the manifest's own time |
| `BackupManifest.NormalIdempotent` | src/backup/BackupManifest.cpp:12-35 | what a round trip normalises it normalises once |
| `BackupManifest.NothingReads` | src/backup/BackupManifest.cpp:85-135 | an object without fields reads as the empty manifest, and an entry without fields as one that is not included |
| `BackupManifest.Write` | src/backup/BackupManifest.cpp:39-83 | the writing loops build exactly the object that is read back |
| `BackupManifest.Read` | src/backup/BackupManifest.cpp:85-135 | reading fails exactly for a missing file or one that is not a JSON object; otherwise it gives the manifest of the object |
| `BackupValidator.ValidateManifest` | src/backup/BackupValidator.cpp:47-80 | a manifest is valid exactly when its format and version are the supported ones; a newer program version only warns |
| `BackupValidator.VerifyChecksums` | src/backup/BackupValidator.cpp:82-106 | verification passes exactly when every listed file is present with its digest, in whatever order they are visited |
| `BackupValidator.ChecksumMeaning` | src/backup/BackupValidator.cpp:82-106 | a recorded checksum holds exactly if the file is present and the text is sha256: and that file's own digest, up to case |
| `VersionOrder.ParseVersionPart` | src/backup/BackupValidator.cpp:14-25 | a part's value is that of its leading digits, 0 without any or when it does not fit in 32 bits |
| `VersionOrder.IsNewerAppVersion` | src/backup/BackupValidator.cpp:27-43 | the loop returns true exactly when the first differing zero-padded part is greater |
| `VersionOrder.Trichotomy` | src/backup/BackupValidator.cpp:27-43 | for lists of any lengths exactly one holds: newer, older, or equal padded parts |
| `VersionOrder.Transitive` | src/backup/BackupValidator.cpp:27-43 | newer is transitive across lists of different lengths |
| `VersionOrder.Congruent` | src/backup/BackupValidator.cpp:27-43 | versions equal up to padding are interchangeable on either side of the order |
| `VersionOrder.NumericOrder` | src/backup/BackupValidator.cpp:14-43 | versions of single numbers compare as numbers, not as texts |
| `VersionOrder.PartReads` | src/backup/BackupValidator.cpp:14-25 | a part that starts with a number counts as that number, whatever follows |
| `VersionOrder.FirstPartDecides` | src/backup/BackupValidator.cpp:27-43 | when the first parts differ they decide, whatever follows |
| `BackupRedactor.MaskedMeaning` | src/backup/BackupRedactor.cpp:24-59 | masking keeps the key set, overwrites exactly the hidden keys with their mask, and touches nothing else |
| `BackupRedactor.MaskedReveals` | src/backup/BackupRedactor.cpp:24-59 | two objects mask to the same object if and only if they agree on keys and on all values that are not hidden |
| `BackupRedactor.ProfileKeysHidden` | src/backup/BackupRedactor.cpp:24-59 | in a profile exactly the seven credentials are hidden, and in a strict backup the four hosts as well |
| `BackupRedactor.OtherKeysHidden` | src/backup/BackupRedactor.cpp:61-68 | in a subscription exactly the address is hidden, and elsewhere nothing |
| `BackupRedactor.MasksChosen` | src/backup/BackupRedactor.cpp:24-68 | which mask each hidden key gets |
| `BackupRedactor.FieldsReported` | src/backup/BackupRedactor.cpp:17-22 | the report names exactly the hidden fields that some record has, under the name of its list |
| `RedactionAgrees.BackupHidesLess` | src/diagnostics/DiagnosticsRedactor.cpp:116-125 | whatever a redacted backup hides, the diagnostics redactor takes for sensitive |
| `BackupRedactor.RedactionReachesArrays` | src/backup/BackupRedactor.cpp:111-131 | a redacted list hides what it should if and only if its root is an array or there was nothing to hide; a list inside a root object, as the stores write it, is left as it is |
| `BackupRedactor.StoreSampleShows` | src/backup/BackupRedactor.cpp:120-128 | the failing input: an object holding a profile list with one password is left as it is, and shows the password, in every mode |
| `BackupRedactor.RedactionIdempotent` | src/backup/BackupRedactor.cpp:89-159 | redacting a redacted file changes nothing |
| `BackupRedactor.RedactFile` | src/backup/BackupRedactor.cpp:89-159 | redaction fails exactly on a missing file, no JSON document, or a file that has to change and cannot be opened for writing again; otherwise the file is rewritten, and the report gains exactly the hidden fields, without repeats |
| `BackupRedactor.RedactObject` | src/backup/BackupRedactor.cpp:24-59 | the in-place passes over one object give the masked object and report every hidden key present |
| `MergeModel.MergeStep` | src/backup/BackupImporter.cpp:178-205 | one turn of a merge loop with a never-refreshed index: the loop state stays "each slot holds the last imported item targeting it, else its old item, then the unmatched imports in order" |
| `MergeModel.MergeDistinct` | src/backup/BackupImporter.cpp:178-246 | ids stay pairwise distinct when they are on each side and an item whose id is present targets its slot, also when others are matched by URL |
| `MergeModel.MergeDistinctExactly` | src/backup/BackupImporter.cpp:178-205 | when every match is by id, the merged ids are distinct if and only if no two imports share an id that is new; repeated ids of the store are harmless |
| `MergeModel.ItemSurvives` | src/backup/BackupImporter.cpp:226-245 | an imported item is in the result if and only if no later one targets the same slot |
| `MergeModel.MergeSettles` | src/backup/BackupImporter.cpp:178-246 | merging into a list changes nothing if and only if every item that is not in it goes where a later item already is |
| `MergeModel.SlotMeaning` | src/backup/BackupImporter.cpp:178-246 | a slot that no item targets keeps its old item, any other holds an item that targets it, and the unmatched items follow |
| `BackupImporter.ProfileIdsDistinct` | src/backup/BackupImporter.cpp:178-205 | the merged profile ids are distinct if and only if no two imports share a new id |
| `BackupImporter.ProfilesStayDistinct` | src/backup/BackupImporter.cpp:178-205 | with distinct ids on both sides the merged ids are distinct and every imported profile is in the result |
| `BackupImporter.ProfileMergeIdempotent` | src/backup/BackupImporter.cpp:178-205 | importing the same profiles again changes nothing |
| `BackupImporter.ProfileSlots` | src/backup/BackupImporter.cpp:178-205 | a profile whose id is not imported stays where it is, and one whose id is imported is replaced where it is |
| `BackupImporter.MergeProfiles` | src/backup/BackupImporter.cpp:178-205 | the loop computes the merge; added + updated is the number imported and the length grows by exactly added |
| `BackupImporter.SubscriptionsStayDistinct` | src/backup/BackupImporter.cpp:208-246 | merged subscription ids are distinct although matches go by id or by URL |
| `BackupImporter.SlotByAddress` | src/backup/BackupImporter.cpp:226-245 | an import with a new id goes to the last slot with the same address, up to case and white space, if there is one; a blank address is nobody's |
| `BackupImporter.SubscriptionMergeIdempotent` | src/backup/BackupImporter.cpp:226-245 | importing the same subscriptions again changes nothing if and only if every one that the first import lost has an address that now leads to a slot holding a later one |
| `BackupImporter.SubscriptionLost` | src/backup/BackupImporter.cpp:226-245 | false expectation made concrete: two distinct imported subscriptions, one found by id and one by URL, land on one slot, the first is lost, and a second import changes the list again |
| `BackupImporter.MergeSubscriptions` | src/backup/BackupImporter.cpp:208-246 | the loop with its two stale indexes computes the merge by id or else by trimmed, lower-cased URL |
| `BackupImporter.RenamedAreFresh` | src/backup/BackupImporter.cpp:275-298 | every appended routing or DNS profile keeps its id and content, gets a name unlike all initial ones and all appended before it, and keeps its own when free |
| `BackupImporter.NamedIdsDistinct` | src/backup/BackupImporter.cpp:248-299 | the merged routing or DNS ids are distinct if and only if no two non-built-in imports share a new id |
| `ImportNames.NamesRepeatByReplacement` | src/backup/BackupImporter.cpp:301-352 | for every import, two merged profiles share a name only if one of them replaced a profile by id |
| `ImportNames.GivenNames` | src/backup/BackupImporter.cpp:275-298 | a name is given to an appended profile if and only if it is not in use and is some import's own or the numbered candidate at which an import with a taken name ends |
| `ImportNames.PlainNamesDistinct` | src/backup/BackupImporter.cpp:275-298 | when no replacement is called like a numbered candidate, the merged names are distinct if and only if those of the old list with its replacements are and a replacement shares its name with an appended import only if that name is an old one |
| `ImportNames.NothingReplaced` | src/backup/BackupImporter.cpp:301-352 | when nothing is matched by id, the current list stays in front and the merged names are distinct exactly when its own are |
| `ImportNames.NameShared` | src/backup/BackupImporter.cpp:275-298 | a shared name happens: an import by id that takes the name of another profile |
| `ImportNames.NumberMet` | src/backup/BackupImporter.cpp:275-298 | and another way: a replacement called like the numbered candidate that the merge then gives to an appended import |
| `ImportNames.NamedNamesDistinct` | src/backup/BackupImporter.cpp:275-298 | for every import, the merged names are distinct if and only if those of the old list with its replacements are and no replacement brings a new name that an appended import has as its own or ends at |
| `BackupImporter.MergeNamed` | src/backup/BackupImporter.cpp:275-298 | the loop computes the merge of the non-built-in imports, renaming only appended ones |
| `BackupImporter.ReplaceNamed` | src/backup/BackupImporter.cpp:258-273 | replacing keeps the imported list and appends exactly the built-in profiles whose ids are missing |
| `UniqueNames.CandidateInjective` | src/backup/BackupImporter.cpp:39-49 | different numbers give different candidate names, also for bases that contain placeholder markers themselves |
| `UniqueNames.PlainCandidate` | src/backup/BackupImporter.cpp:39-49 | for a base without markers the candidate is the base, a space and the number in parentheses |
| `UniqueNames.Pigeonhole` | src/backup/BackupImporter.cpp:39-49 | as many pairwise different candidates as there are used names cannot leave the next one taken too, so the search ends |
| `UniqueNames.FindUniqueName` | src/backup/BackupImporter.cpp:39-49 | the loop stops at the first candidate outside the set, after at most one probe more than the set has names |
| `ImportSession.Importer.ImportSettings` | src/backup/BackupImporter.cpp:354-377 | every imported setting overwrites its key, machine-specific ones only when asked for, and no other setting changes |
| `ImportSession.EverySelectedRuns` | src/backup/BackupImporter.cpp:510-563 | the fixed order of importers contains every category but the redacted logs, so every selected one runs and no other |
| `ImportSession.ModeMeaning` | src/backup/BackupImporter.cpp:491-508 | a category is imported in the chosen mode exactly if the manifest includes it with a file and a mode is chosen |
| `ImportSession.StoresKept` | src/backup/BackupImporter.cpp:154-176 | a skipped category and a failed save leave a store alone, whatever the backup holds |
| `ImportSession.StoresReplaced` | src/backup/BackupImporter.cpp:154-176 | replacing leaves the backup's items whatever the store held, for named profiles with the built-ins added |
| `ImportSession.StoresMerged` | src/backup/BackupImporter.cpp:178-299 | a merge that is saved is the merge of what both sides hold |
| `ImportSession.StoreMergedFromNothing` | src/backup/BackupImporter.cpp:178-206 | merging into a missing or unreadable store takes the backup's profiles |
| `ImportSession.SettingsMeaning` | src/backup/BackupImporter.cpp:354-377 | after a settings import a key has the imported value exactly if it is imported, is not the Xray path, and is not machine-specific or those are wanted |
| `ImportSession.MachineKeys` | src/backup/BackupImporter.cpp:27-37 | the keys that belong to one machine |
| `ImportSession.GeoFields` | src/backup/BackupImporter.cpp:379-405 | each geo-data setting takes the field of its own name |
| `ImportSession.GeoStands` | src/backup/BackupImporter.cpp:379-405 | where the geo-data importer writes, its values stand over those of the settings importer; every other setting is the settings importer's |
| `ImportSession.GeoKeys` | src/backup/BackupImporter.cpp:379-405 | the geo-data importer writes only keys below geodata/ |
| `ImportSession.SettingsOrderMatters` | src/backup/BackupImporter.cpp:538-547 | the fixed order of the settings and the geo-data importer changes the result if and only if both bring different values for one key |
| `ImportSession.Importer.ImportGeoDataSettings` | src/backup/BackupImporter.cpp:379-405 | three settings always and two if present are overwritten; it fails exactly when the file cannot be opened |
| `ImportSession.Importer.ImportFromStaging` | src/backup/BackupImporter.cpp:483-581 | the selected categories run in the fixed order, each with its own mode and whatever the others return; each store afterwards is that of its own category, the settings those of the settings importer overlaid by the geo-data importer, and success means every selected one succeeded |
| `DnsManager.EnsureBuiltInsWorks` | src/dns/DnsManager.cpp:140-160 | after ensuring, ids are distinct, every built-in is present and flagged with its own mode, every other profile is where it was, unchanged, and only built-ins were appended |
| `DnsManager.EnsureBuiltInsIdempotent` | src/dns/DnsManager.cpp:140-160 | ensuring the built-ins twice is ensuring them once |
| `DnsManager.LoadInv` | src/dns/DnsManager.cpp:15-25 | loading a store with distinct ids establishes the invariant, whatever id was selected |
| `DnsManager.StepInv` | src/dns/DnsManager.cpp:57-133 | each of upsert, remove, duplicate and activate keeps the invariant and every built-in profile unchanged |
| `DnsManager.UpsertVerdict` | src/dns/DnsManager.cpp:67-89 | an upsert is refused exactly for a built-in id; otherwise the profile is stored with its name and content and every other profile and the active id stay |
| `DnsManager.UpsertStores` | src/dns/DnsManager.cpp:67-89 | over a profile with its id an upsert stores exactly the given profile with a new time; otherwise a custom profile that is no built-in, created now |
| `DnsManager.SetActiveVerdict` | src/dns/DnsManager.cpp:57-65 | an activation is refused exactly for an empty or unknown id and otherwise changes only the active and the selected id |
| `DnsManager.LoadVerdict` | src/dns/DnsManager.cpp:15-25 | a load activates the selected profile if it is there and the system one otherwise, and keeps every stored profile |
| `DnsManager.RemoveVerdict` | src/dns/DnsManager.cpp:91-112 | a removal is refused exactly for an unknown or built-in id; otherwise that profile and nothing else goes, and the active id changes exactly if it was the removed one |
| `DnsManager.DuplicateVerdict` | src/dns/DnsManager.cpp:114-133 | a duplication is refused exactly for an id that names nothing; otherwise the list is kept as a prefix of one more: the source's content under the new id, named a copy, in custom mode and not built in |
| `DnsManager.RunsAreSafe` | src/dns/DnsManager.cpp:15-170 | after loading, every run of operations keeps ids distinct, the active id naming an existing profile, and every built-in exactly as loaded |
| `DnsManager.Reload` | src/dns/DnsManager.cpp:15-25 | saving and loading keeps the profiles, and keeps the active one if and only if its id has no white space at either end |
| `DnsManager.FirstRun` | src/dns/DnsManager.cpp:15-25 | a first run, without a store file, leaves one that loads back to the same profiles, and to the same state if and only if the active id needs no trimming |
| `DnsManager.DnsManager.Load` | src/dns/DnsManager.cpp:15-25 | the object's fields after a load from a stored, unreadable or missing file; only a missing one is saved, and a failed save leaves it missing |
| `DnsManager.DnsManager.UpsertProfile` | src/dns/DnsManager.cpp:67-89 | the list and verdict after an upsert: built-ins refused, matches replaced in place, others appended as custom profiles |
| `DnsManager.DnsManager.RemoveProfile` | src/dns/DnsManager.cpp:91-112 | the list, active id and verdict after a removal; removing the active profile falls back to the system one |
| `DnsManager.DnsManager.DuplicateProfile` | src/dns/DnsManager.cpp:114-133 | the list and verdict after a duplication; the source's id must name a profile |
| `DnsManager.DnsManager.SetActiveProfileId` | src/dns/DnsManager.cpp:57-65 | activation is refused exactly for an empty or unknown id and otherwise stored trimmed |
| `CoreInstaller.CoreStore.InstallFromStaging` | src/cores/CoreInstaller.cpp:41-87 | outcome, install directory and backups of an install, exactly, from which file operations work and what the check says |
| `CoreInstaller.CoreStore.CreateBackup` | src/cores/CoreRollbackManager.cpp:64-103 | a backup succeeds exactly when every preserved file present can be copied; it then lays them over its own folder and touches no other backup |
| `CoreInstaller.CoreStore.RestoreLatestBackup` | src/cores/CoreRollbackManager.cpp:105-131 | a restore succeeds exactly when there is a backup and each listed file of the latest can be copied; it then lays those files over the install directory, and a failed one leaves a mixture; names with a leading dot are listed only on Windows |
| `CoreInstaller.CoreStore.ListBackups` | src/cores/CoreRollbackManager.cpp:46-62 | exactly this core's backups, in increasing name order |
| `CoreInstaller.CoreStore.PruneBackups` | src/cores/CoreRollbackManager.cpp:133-143 | keeps exactly the last min(k, n) names unchanged, the latest among them; k below 1 keeps all |
| `CoreInstaller.FilesSurvive` | src/cores/CoreRollbackManager.cpp:92-101 | once the backup step succeeded every preserved file's bytes, the executable's among them, are in the fresh backup, whatever follows |
| `CoreInstaller.RestoredBackup` | src/cores/CoreRollbackManager.cpp:105-116 | the backup that is restored is the fresh one if and only if that sorts last; otherwise it is a greater, older one, as it was |
| `CoreInstaller.RestoredFiles` | src/cores/CoreInstaller.cpp:80-84 | after a rejected install is restored from its fresh backup the executable and its version are back on every platform; the metadata is back if and only if the platform lists it or the rejected install did not change it |
| `CoreInstaller.MetadataRestored` | src/cores/CoreRollbackManager.cpp:117-125 | the old metadata is back, and with it all preserved files, if and only if there was none, the listing shows hidden files, the new metadata was never written, or it is the same |
| `CoreInstaller.MetadataLost` | src/cores/CoreRollbackManager.cpp:117-125 | a concrete rejected install on Unix that is restored, and afterwards has the rejected version's metadata beside the old executable |
| `CoreInstaller.Rollback` | src/cores/CoreInstaller.cpp:41-87 | end to end: an install over an installed executable that is rejected and restored, with a fresh backup that sorts last, has the executable and its version back, and the metadata under its exact condition |
| `CoreInstaller.NothingLost` | src/cores/CoreInstaller.cpp:41-87 | end to end: on every outcome the old executable's bytes are in place or in the fresh backup |
| `CoreInstaller.InstalledMeans` | src/cores/CoreInstaller.cpp:55-86 | end to end: an install that succeeds has the staged executable in place, the new version and metadata where their files could be opened, and every other file as it was |
| `CoreInstaller.FailedMeans` | src/cores/CoreInstaller.cpp:55-62 | an install that fails before its check leaves every other file alone, and the executable as it was or, at worst, gone |
| `CoreInstaller.InstallerTerms` | src/cores/CoreRollbackManager.cpp:20-103 | what has to work for a copy and a backup, what a listing shows, and what a backup is called |
| `CoreInstaller.FirstInstallStays` | src/cores/CoreInstaller.cpp:80-84 | a rejected first install with no backup cannot be undone |
| `CoreInstaller.TextOrderMisleads` | src/cores/CoreRollbackManager.cpp:60-61 | the condition can fail: a fresh backup of 1.10.0 sorts before every backup of 1.9.0 |
| `CoreInstaller.SameVersionByTime` | src/cores/CoreRollbackManager.cpp:84-88 | backups of one version sort by their time stamps |
| `DiagnosticsRedactor.NonInterference` | src/diagnostics/DiagnosticsRedactor.cpp:127-208 | two trees that differ only in values under hidden keys, at any depth, redact to the same tree |
| `DiagnosticsRedactor.RedactionReveals` | src/diagnostics/DiagnosticsRedactor.cpp:127-208 | the redacted tree determines its source exactly up to hidden values and what the text redactor identifies: nothing more is hidden and nothing less |
| `DiagnosticsRedactor.RedactIdempotent` | src/diagnostics/DiagnosticsRedactor.cpp:127-208 | redaction is idempotent whenever the text redactor is |
| `DiagnosticsRedactor.ShapeKept` | src/diagnostics/DiagnosticsRedactor.cpp:127-208 | along every path that avoids sensitive keys the redacted tree has a value exactly where the source has one, and it is the redaction of that value |
| `DiagnosticsRedactor.StringCaseNeverMasks` | src/diagnostics/DiagnosticsRedactor.cpp:127-158 | the key tests inside the string case are never met under a key that is not sensitive |
| `DiagnosticsRedactor.SensitiveWords` | src/diagnostics/DiagnosticsRedactor.cpp:116-125 | any key with one of eight words in it, in any case, is sensitive |
| `DiagnosticsRedactor.SensitiveKeys` | src/diagnostics/DiagnosticsRedactor.cpp:116-125 | so are four whole keys, in any case |
| `DiagnosticsRedactor.ShortKeys` | src/diagnostics/DiagnosticsRedactor.cpp:116-125 | a key shorter than four characters is sensitive only as url or sni |
| `DiagnosticsRedactor.HiddenModes` | src/diagnostics/DiagnosticsRedactor.cpp:180-208 | basic mode shows addresses and hosts and otherwise hides what strict mode does |
| `DiagnosticsRedactor.HiddenValue` | src/diagnostics/DiagnosticsRedactor.cpp:180-208 | a hidden value becomes one of three masks that depends on its key alone |
| `DiagnosticsRedactor.VisibleValue` | src/diagnostics/DiagnosticsRedactor.cpp:127-158 | under any other key a text goes through the text redactor and a number or flag stays |
| `DiagnosticsRedactor.Redactor.RedactJsonObject` | src/diagnostics/DiagnosticsRedactor.cpp:180-208 | the recursive loops return the redacted object and add to the report exactly the hidden keys met |
| `DiagnosticsRedactor.Redactor.TrackField` | src/diagnostics/DiagnosticsRedactor.cpp:18-29 | a field is recorded once |
| `ReleaseChecksums.JoinRoundTrip` | scripts/release_common.py:499-511 | splitting into lines undoes joining, for lines without line breaks |
| `ReleaseChecksums.LineEndsWith` | scripts/release_common.py:499-511 | the suffix test recognises exactly the line of the artifact with that name, not of one whose name ends the same way |
| `ReleaseChecksums.WritePuts` | scripts/release_common.py:499-511 | writing a checksum replaces the artifact's line, keeps all others in order and puts the new one last |
| `ReleaseChecksums.RunLists` | scripts/release_common.py:499-511 | after any sequence of writes the file lists clean entries, one per artifact |
| `ReleaseChecksums.RunKeeps` | scripts/release_common.py:499-511 | an entry whose artifact is not written again stays, through any sequence of writes |
| `ReleaseChecksums.RunKeepsSidecar` | scripts/release_common.py:499-511 | so does its sidecar |
| `ReleaseChecksums.LastDigestWins` | scripts/verify-release-artifacts.py:158-169 | after any sequence of writes the lookup returns the last digest written, whether it reads the sidecar or the sums file |
| `ReleaseChecksums.ListedAreWritten` | scripts/release_common.py:499-511 | starting without a sums file, only artifacts that were written are listed, with their last digests |
| `ReleaseChecksums.SumsLookup` | scripts/verify-release-artifacts.py:158-169 | looking up a name in the sums file finds its entry, or nothing exactly when there is none |
| `ReleaseChecksums.OutputDir.WriteChecksumSidecars` | scripts/release_common.py:499-511 | the two files after the call, as texts; no other file changes |
| `ReleaseChecksums.OutputDir.ChecksumForArtifact` | scripts/verify-release-artifacts.py:158-169 | the early-returning loop gives the sidecar's first word, else the first matching line's |
| `WixComponents.RankFalls` | scripts/generate-wix-components.py:58-62 | each child identifier is longer than its parent's unless the parent is the root, so the walk ends even when identifiers collide |
| `WixComponents.WalkNests` | scripts/generate-wix-components.py:58-64 | the printed lines are balanced, indented by depth, and each element opens directly inside its parent's identifier, collisions or not: whatever follows is read as if they were not there |
| `WixComponents.PrintedNests` | scripts/generate-wix-components.py:64-73 | read from the root, the printed lines are accepted and leave nothing open |
| `WixComponents.PrintedSpells` | scripts/generate-wix-components.py:44-73 | when no two directories share an identifier, the names of the open elements spell, at every element, the directory whose identifier it has |
| `WixComponents.SiblingsAscend` | scripts/generate-wix-components.py:58-62 | the children of one identifier are printed in the order of their names |
| `WixComponents.LastStep` | scripts/generate-wix-components.py:58-62 | an identifier is printed once for every visit to the parent of every directory that has it: first-step and last-step counts agree |
| `WixComponents.AllReached` | scripts/generate-wix-components.py:44-64 | every directory is printed at least once, collisions or not |
| `WixComponents.ExactlyOnce` | scripts/generate-wix-components.py:44-64 | every directory is printed exactly once if and only if no two directories share an identifier |
| `WixComponents.CollisionDeclaresTwice` | scripts/generate-wix-components.py:20-30 | a concrete pair of names, "a-b" and "a_b", whose identifier is declared twice |
| `WixComponents.OrderIrrelevant` | scripts/generate-wix-components.py:33-64 | the printed lines depend only on which directories there are, not on the order of the map |
| `WixComponents.ComponentsPlaced` | scripts/generate-wix-components.py:83-92 | every component's directory is the root or is declared by the other fragment |
| `WixComponents.ComponentsWhereFiles` | scripts/generate-wix-components.py:83-92 | a component's directory is the root exactly for a file at the top and, unless identifiers collide, no directory's but the one the file is in |
| `WixComponents.DeclaredAreCollected` | scripts/generate-wix-components.py:33-64 | nothing is declared that is not a directory on the way to some file |
| `WixComponents.CollectDirectories` | scripts/generate-wix-components.py:33-41 | the collected keys are the root and exactly the proper prefixes of the files' parts, each once, with its identifier |
| `WixComponents.DirectoryPrinter.RenderDirectories` | scripts/generate-wix-components.py:44-73 | the children map and the recursive printing append exactly the walk's lines |
| `WixComponents.RenderComponents` | scripts/generate-wix-components.py:76-120 | one component per file, in the order of the paths, with its identifiers, directory, GUID and, for the helper, the service elements; no file is left out |
| `WixComponents.ComponentsAscend` | scripts/generate-wix-components.py:83-83 | the components come in the order of the folded paths |
| `WixComponents.PosixReads` | scripts/generate-wix-components.py:84-87 | the printed path has the file's parts between slashes |
| `WixComponents.FilesApart` | scripts/generate-wix-components.py:84-92 | different files have different paths and, as far as the name-based identifiers tell names apart, GUIDs |
| `WixComponents.ServiceOfHelper` | scripts/generate-wix-components.py:96-97 | only the helper at the top of the staging directory, in any case, is installed as a service |
| `WixComponents.FileOrderIrrelevant` | scripts/generate-wix-components.py:83-83 | the components do not depend on the order in which the files were found, unless two different paths are equal under the platform's case folding |
| `WixComponents.ComponentIdsDiffer` | scripts/generate-wix-components.py:88-99 | component identifiers, and file identifiers, are pairwise different if and only if no two paths are equal but for characters shown as underscores |
| `WixComponents.ComponentsCollide` | scripts/generate-wix-components.py:88-99 | a concrete collision: "a/b" and "a_b" get the same component and file identifiers |
| `XrayProfile.SecurityNames` | src/domain/Profile.cpp:59-73 | the untrimmed TLS and REALITY tests imply the trimmed ones, and the trimmed None test is blank or "none" |
| `XrayProfile.SecurityTests` | src/domain/Profile.cpp:59-73 | TLS and REALITY are recognised in any case but only without white space, and exclude each other and no security |
| `XrayProfile.EffectiveFields` | src/domain/Profile.cpp:75-107 | each effective field is its own field, or the one it falls back to when that is blank |
| `XrayProfile.DefaultedFields` | src/domain/Profile.cpp:87-128 | the fields with a default take it exactly when they are blank |
| `XrayProfile.NetworkNames` | src/core/XrayStreamSettings.cpp:22-42 | a network in any case is that network, and raw is TCP |
| `XrayProfile.BlankNetwork` | src/core/XrayStreamSettings.cpp:22-29 | and a blank one is TCP as well |
| `Text.TrimMeaning` | src/domain/Profile.cpp:75-107 | trimming, as every field is trimmed, takes away white space at the two ends and nothing else |
| `Text.LowerMeaning` | src/core/XrayStreamSettings.cpp:17-29 | lower-casing changes capital letters into their small ones and nothing else |
| `XrayProfile.VlessSupported` | src/core/XrayAdapter.cpp:16-47 | VLESS must be supported over TLS on every network, without security on TCP and over REALITY on TCP with a key and a name, and nowhere else |
| `XrayProfile.VmessSupported` | src/core/XrayAdapter.cpp:49-87 | VMess must be supported on every network with a UUID and what the network needs, never over REALITY |
| `XrayProfile.TrojanSupported` | src/core/XrayAdapter.cpp:89-122 | Trojan must be supported on every network with a password, over REALITY only on TCP with a key |
| `XrayProfile.OthersSupported` | src/core/XrayAdapter.cpp:124-205 | exactly which secrets the other protocols need |
| `XrayProfile.UnusableRefused` | src/core/XrayAdapter.cpp:601-618 | nothing is supported without a name, an address and a port in range, or with a reason against it |
| `XrayStream.StreamVerdict` | src/core/XrayStreamSettings.cpp:127-211 | generating stream settings fails exactly for the listed gaps, for every profile, and with the error of the first |
| `XrayStream.StreamReadsBack` | src/core/XrayStreamSettings.cpp:44-211 | the settings carry exactly the transport and security the profile asks for, field by field, and none of the other blocks |
| `XrayStream.StreamBuilder.Generate` | src/core/XrayStreamSettings.cpp:198-211 | the two layers mutating one object leave the specified settings, or none and the error |
| `XrayStream.StreamBuilder.ApplySecurityLayer` | src/core/XrayStreamSettings.cpp:154-196 | the security block added, or the error reported, for each security and network |
| `XrayStream.StreamBuilder.ApplyTransportLayer` | src/core/XrayStreamSettings.cpp:127-152 | the transport block added, or the error reported, for each network |
| `XrayReserved.TripletRoundTrip` | src/core/XrayAdapter.cpp:220-257 | any three bytes written in decimal with commas are read back, whatever the base64 decoder does |
| `XrayReserved.ItemMeaning` | src/core/XrayAdapter.cpp:227-240 | a list item is a byte exactly if it is a number up to 255, negative only if it is 0 |
| `XrayReserved.WrongLists` | src/core/XrayAdapter.cpp:227-240 | a list of any other length, or with an item that is no byte, gives nothing |
| `XrayReserved.DecodedReserved` | src/core/XrayAdapter.cpp:242-256 | blank text gives nothing, and what is no list is decoded, padded at the second try |
| `XrayReserved.ParseReservedBytes` | src/core/XrayAdapter.cpp:220-257 | the loop returns three bytes exactly for a list of three decimal bytes or base64 of three bytes, with or without padding; otherwise none |
| `XrayReserved.CutMeaning` | src/core/XrayAdapter.cpp:207-218 | the pieces are free of separators and, with the separators between them, are the whole text |
| `XrayReserved.SplitPieces` | src/core/XrayAdapter.cpp:207-218 | the splitting loop gives those pieces, character by character |
| `XrayReserved.SplitCsvList` | src/core/XrayAdapter.cpp:207-218 | the nonblank pieces between commas and white space, trimmed, in order |
| `Text.NonBlankMeaning` | src/core/XrayAdapter.cpp:207-218 | blank parts are dropped, the others trimmed and kept in order |
| `XrayOutbound.OutboundVerdict` | src/core/XrayAdapter.cpp:351-599 | a supported profile fails to generate exactly when it has one of the gaps a caller can look at, and the gap is the error: gRPC without service (VLESS, Trojan), REALITY Trojan without server name, unknown security (VMess, Trojan), salamander without password, unreadable reserved bytes |
| `XrayOutbound.TrojanGap` | src/core/XrayAdapter.cpp:89-123 | being supported is not enough: any supported Trojan profile, REALITY included, stays supported with an unknown security, and then fails |
| `XrayOutbound.OutboundStream` | src/core/XrayAdapter.cpp:375-453 | the streamSettings of a generated VLESS, VMess or Trojan outbound carry the profile's transport and security |
| `XrayOutbound.AccountReadsBack` | src/core/XrayAdapter.cpp:338-599 | every generated outbound, read by its own protocol name, has the address, port, secret, cipher, flow, keys, lists and reserved bytes of its profile, each where that protocol keeps it |
| `XrayOutbound.HysteriaReadsBack` | src/core/XrayAdapter.cpp:494-541 | a Hysteria2 outbound is always over TLS, even for security "none", with ALPN h3 by default, and obfuscated exactly when salamander is asked for |
| `XrayOutbound.HysteriaAlpn` | src/core/XrayAdapter.cpp:510-516 | a blank ALPN becomes h3, any other is kept |
| `XrayOutbound.SalamanderNames` | src/core/XrayAdapter.cpp:521-522 | salamander is recognised in any case |
| `XrayOutbound.PortReads` | src/core/XrayAdapter.cpp:562-563 | the port in a WireGuard endpoint reads back as the profile's |
| `XrayOutbound.SecretPresent` | src/core/XrayAdapter.cpp:16-205 | for supported profiles the secret is blank only for SOCKS without one and for VLESS with a blank UUID, which no test excludes |
| `XrayOutbound.ConfigVerdict` | src/core/XrayAdapter.cpp:300-336 | a configuration is generated if and only if the profile is supported and has no gap |
| `XrayDns.EntryReadsBack` | src/dns/XrayDnsGenerator.cpp:28-79 | an emitted server entry, in its string or its object form, says exactly what the server says |
| `XrayDns.EntriesReadBack` | src/dns/XrayDnsGenerator.cpp:129-141 | the entries are those of the emitting servers, in the same order |
| `XrayDns.CountsAgree` | src/dns/XrayDnsGenerator.cpp:94-141 | the number of entries is the number the decision was based on if and only if no server has a port but no address; otherwise it is greater |
| `XrayDns.PortHonoured` | src/dns/XrayDnsGenerator.cpp:11-19 | a plain server's port is lost if and only if its address contains a colon |
| `XrayDns.HostAndPort` | src/dns/XrayDnsGenerator.cpp:11-19 | a plain server with a port reads as host and port, and any other address is the server's own |
| `XrayDns.SimpleForm` | src/dns/XrayDnsGenerator.cpp:21-37 | a server is a plain text exactly if it has nothing but an address |
| `XrayDns.EmitsExactly` | src/dns/XrayDnsGenerator.cpp:129-141 | which servers are emitted |
| `XrayDns.ShouldMeaning` | src/dns/XrayDnsGenerator.cpp:83-92 | an object is due exactly for a profile in use that is not the system's and names some server |
| `XrayDns.HostOfOne` | src/dns/XrayDnsGenerator.cpp:114-127 | one entry names its host, trimmed, unless a side is blank |
| `XrayDns.StrategyNames` | src/dns/XrayDnsGenerator.cpp:142-145 | the system's strategy is left out and the others have names of their own |
| `XrayDns.GeneratedHasServers` | src/dns/XrayDnsGenerator.cpp:83-141 | a DNS object that is generated has at least one server |
| `XrayDns.HostsUnique` | src/dns/XrayDnsGenerator.cpp:114-127 | the hosts object is determined by the map: for each trimmed name the last entry in key order with a nonblank value |
| `XrayDns.DnsReadsBack` | src/dns/XrayDnsGenerator.cpp:106-158 | every field of the profile is read back from its own key of the DNS object |
| `XrayDns.CollectHosts` | src/dns/XrayDnsGenerator.cpp:114-127 | the loop over the host map gives the hosts object of that meaning |
| `XrayDns.CountEnabledServers` | src/dns/XrayDnsGenerator.cpp:94-104 | the loop counts the enabled servers with a nonblank address that are not fake-DNS placeholders |
| `XrayDns.CollectServers` | src/dns/XrayDnsGenerator.cpp:129-141 | the loop appends exactly the entries of the emitting servers |
| `XrayDns.Generate` | src/dns/XrayDnsGenerator.cpp:106-158 | nothing when no object is due, otherwise the DNS object with its hosts |

## Left out

- Processes, the network, the tray, windows and translations: their outcomes are inputs of the modelled calls.
- Exceptions and early process death inside a call: each call, zero-delay shot and timer tick is one atomic step.
- The kill switch, the system proxy's own settings, and signals other than those that move the controller's state.
- QuitDialogue.QuitVerdict: the user's answers are a finite list; a dialogue whose answers run out has not returned.
- AppController.AppController.StartProfile: routing, DNS, geo-data and helper checks before a launch are yes-or-no inputs in the program's order.
- BackupArchive.ExportToArchive: directories can always be made, zip and unzip give back what was put in, and file permissions are not modelled.
- BackupRedactor.RedactFile: the branch for `settings-export.json` is left out, since no category stages that file.
- ImportSession.Importer.ImportFromStaging: the importers of rule sets and geo files are yes-or-no outcomes; what they write is not modelled. How the settings keep a JSON value is a parameter.
- UniqueNames.CandidateInjective: numbers are inserted without locale grouping.
- VersionOrder.IsNewerAppVersion: digits are the ASCII ones.
- CoreInstaller.CoreStore.PruneBackups: removing a directory always works; the code ignores the result.
- CoreInstaller.CoreStore.InstallFromStaging: executable permissions, and the check of the executable itself, which is an input.
- CoreInstaller.CoreStore.RestoreLatestBackup: the restored version string it reports, which the installer does not use; files hidden by an attribute instead of a leading dot.
- DiagnosticsRedactor.RedactIdempotent: the regular expressions of the text redactor are not modelled; their idempotence is a hypothesis.
- ReleaseChecksums.OutputDir.WriteChecksumSidecars: bytes are texts, newlines are not translated, and the digest is computed by the caller.
- WixComponents.DirectoryPrinter.RenderDirectories: the XML text around identifiers, names and indentation.
- WixComponents.RenderComponents: the XML text, and the computation of the GUIDs and of the platform's case folding, which are parameters.
- XrayOutbound.ConfigVerdict: routing, inbounds and the surrounding document, which cannot fail; the texts of the reasons for not being supported.
- XrayReserved.ParseReservedBytes: the base64 decoder is a parameter.
- Text: lower-casing and case-insensitive comparison cover the letters A to Z, not all of Unicode.
- Core updates, version detection, subscriptions over the network, statistics, support summaries and the remaining release checks: straight-line plumbing.
