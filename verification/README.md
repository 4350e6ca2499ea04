# A verified model of the TR-12 client and host

TR-12 (Client Device Discovery) lets a media device pair with a host, receive configurations and rotated
certificates from it, and report what it does. This project models the stateful parts of both sides in Dafny and
proves what they promise. `dafny verify dfyconfig.toml` checks everything.

**The credential store** (`Disk`, `Recovery`, `Directory`, `CredentialStore`). Five files are replaced together by a two-phase
commit: write each `.new` file and synchronise it, create a marker, rename, remove the marker. The disk keeps a
durable directory, an ordered log of directory operations that are not yet synchronised, and inodes whose bytes are
arbitrary after a crash until they were synchronised. A ghost record of every disk state a method passes through
makes "a power failure at any moment" a postcondition: each such state admits only the old or the new file set,
whatever prefix of the log survives. Recovery may itself be cut off any number of times. Every call but the removal
of an orphan may fail; the one failure that breaks the promise is that of the look for a marker that is there, and
the project says exactly when recovery survives it.

**Keys, certificates and the life of a device** (`Lifecycle`, `DeviceService`, `Identity`). The host's device table
is a map from device id to record; pairing, claim, configuration, rotation, deprovisioning and the two clean-up
loops (query and deletions as separate steps) are steps of one state machine; the methods of the service take
exactly those steps, and say outright what they do to the table. `Identity` puts one device beside the host, with crashes, restarts, interrupted
writes and interrupted removal of credentials between any two steps, and proves that the certificate on disk always
belongs to the key and the identity on disk.

**Versioned configuration** (`HostConfig`, `Device`, `Gating`, `Workers`, `StaleWorkers`, `ApplicationLoop`,
`Polls`, `Processes`). The host merges updates and chooses which versions to bump; the device skips what it has
recorded and applies the rest in concurrent, cancellable workers. The project proves that versions identify content
over whole runs; that skipping leaves the device exactly as re-applying everything would, both for polls as a whole
and for the interleaved steps of the loop and its workers, for independent stores and for the encoder's processes;
and what those interleavings keep. A cancelled worker may overwrite its successor; the project shows such an
interleaving, and says exactly when there is none.

**Registration, validation, application, read-back** (`Registration`, `Validation`, `Reregistration`, `Encoder`).
Host and device resolve channels to templates independently and agree; the validator accepts exactly what a
declarative specification describes; an accepted configuration reads back; re-registration keeps verdicts.

**Connection state machine, throttle, log** (`Sdk`, `Throttling`, `Logger`).

The clock is a counter that grows with every reading; where the host reads it only when it stamps a version, the
model lets it move on in any case. What a file system, a broker, a signer or the network answers is a parameter or
a free choice.

## Model

| member | source | states |
|---|---|---|
| Disk.CrashSettles | client/internal/credentials/store.go:115-122 | A power failure leaves one of the file sets the disk admitted, and nothing more to lose |
| Directory.Folder.Create | client/internal/credentials/store.go:95-99 | A new or truncated file appears under a fresh inode whose bytes are not durable; every disk state passed is recorded |
| Directory.Folder.SyncFile | client/internal/credentials/store.go:104-109 | Exactly the one inode becomes durable, or nothing changes |
| Directory.Folder.SyncDirectory | client/internal/credentials/store.go:115-122 | The durable directory becomes the visible one, or nothing changes |
| Directory.Folder.RecoverPendingRotation | client/internal/credentials/store.go:182-222 | Which system calls fail is given from outside; every one but the removal of an orphan may. It reports an error only if one fails, and overlooks a marker exactly if the look for it fails. No state on the way admits a third file set exactly when none was overlooked or that was harmless; if none was, the disk stands for the same file set throughout, and success leaves no trace, durably once a synchronisation succeeded |
| Recovery.RecoveryIsSafe | client/internal/credentials/store.go:182-222 | Every prefix of a recovery that believes what is on the disk, whichever order the directory is listed in and whichever synchronisations fail, stands for what the disk stood for and admits only the two file sets; the whole leaves no trace |
| Recovery.AdmitsStands | client/internal/credentials/store.go:37-40 | A disk that a power failure would leave as old or new also stands for one of them as it is, so the end of a process alone is as safe |
| Recovery.RepeatedCrashesConverge | client/internal/credentials/store.go:176-222 | Any number of power failures and process crashes at any steps of recovery, even of one that overlooks the marker where that is harmless, then one complete recovery, end in exactly the old or the new file set, and in the one the first power failure left if there was one |
| Recovery.MisreadDecides | client/internal/credentials/store.go:190-220 | A recovery that overlooks the marker leaves one of the two file sets to a power failure at any of its steps exactly when the final files alone are one of them and at most one pending file differs from its final; without a power failure, exactly when the final files alone are one |
| Recovery.MisreadMixes | client/internal/credentials/store.go:191-220 | A concrete disk, settled on the new file set, that overlooking the marker turns into neither the old nor the new |
| Recovery.NothingMayBeStaged | client/internal/credentials/store.go:93-112 | With a marker left behind, a pending file that is created but not yet synchronised leaves no file set at all to a power failure |
| Recovery.MarkerDecides | client/internal/credentials/store.go:191-221 | After a crash the disk stands for the final files overlaid by the pending ones if the marker is durable, and for the final files otherwise |
| CredentialStore.MarkerCommits | client/internal/credentials/store.go:148-161 | Creating the marker is the commit point: it adds the new file set to the outcomes, and nothing between old and new |
| CredentialStore.OrphansJoinCommit | client/internal/credentials/store.go:129-139 | An orphan that could not be removed joins the next commit; that is harmless exactly when the file is staged anew or the orphan is a copy of what is there |
| CredentialStore.Store.WriteNewFile | client/internal/credentials/store.go:93-112 | Stages one file under its pending name; no crash during it changes the file set |
| CredentialStore.Store.CommitPendingRotation | client/internal/credentials/store.go:124-174 | Before the marker a crash leaves the old file set, after it the old one overlaid by the staged files; success is durable and leaves no trace; with nothing pending nothing happens; any call may fail, and failure can be recovered from |
| CredentialStore.Store.WriteToFilesystem | client/internal/credentials/store.go:319-366 | If no call fails it succeeds. Unless its recovery overlooks a marker, every disk state on the way, through recovery, staging and commit, admits exactly a file set there was or the new one, and success durably leaves the five files with what was sent; if it overlooks one, a success was exposed to a power failure; memory changes only on success |
| CredentialStore.EveryFailureEndsOldOrNew | client/internal/credentials/store.go:319-321 | In one statement: a power failure or process crash at any state of an atomic operation, any number of interrupted recoveries, then one complete recovery end in a file set there was or exactly the new one |
| CredentialStore.Store.RotateCerts | client/internal/credentials/store.go:368-431 | If no call fails it succeeds and reads every certificate. Crash atomicity under the same condition as the initial write, and success leaves each file as the message asks; when nothing was written, it was safe exactly when no marker was overlooked or that was harmless; true exactly when some file was written; memory follows the disk on success and stays on failure |
| CredentialStore.RotationOverlays | client/internal/credentials/store.go:386-430 | A rotation replaces exactly the files whose content differs, and a certificate that cannot be read if one was sent; never the private key or the host settings; it keeps the device id and memory equal to disk |
| CredentialStore.RotationInstalls | client/internal/credentials/store.go:386-430 | File by file: the certificates and the endpoint of the message where it carries them, with the device id kept, and every other file as it was |
| CredentialStore.RotationIsIdempotent | client/internal/credentials/store.go:386-420 | The same message again leaves the file set as it is, whichever certificates cannot be read, exactly unless it carries no device certificate and only the second time can read one |
| CredentialStore.Store.ReadFromFilesystem | client/internal/credentials/store.go:275-317 | Loads what the final files hold; a file that cannot be examined counts as present; if no call fails it loads exactly a complete file set, no CA certificate means not paired, and anything else is an error; safe exactly when no marker was overlooked or that was harmless |
| CredentialStore.OrderIsNeeded | client/internal/credentials/store.go:168-173 | The removal of the marker is not synchronised, so a disk that could lose it and keep a later link would show a mixture in the next rotation |
| CredentialStore.MixtureIsReached | client/internal/credentials/store.go:161-173 | The store reaches that state: after the synchronised renames of one rotation, removing the marker and staging two files of the next one |
| CredentialStore.Store.GenerateKeysAndCSR | client/internal/credentials/store.go:256-273 | A store makes one key pair and keeps it; a failed CSR leaves a key without one, to be replaced |
| Lifecycle.StepKeepsInv | host/internal/db/devices.go:175-276 | Every service call and clean-up step keeps the table's invariant, and changes a record only as records may change |
| Lifecycle.LifecycleIsSafe | host/internal/service/device_service.go:164-213 | Over all runs, with any configuration updates: an account once set stays, DEPROVISIONED is left only by deletion and has no desired configuration, a device keeps its CSR, and the pairing clean-up deletes no claimed device |
| Lifecycle.QueriesKeep | host/internal/service/rotation_service.go:113-161 | What the clean-up query saw as expired can no longer be claimed, so deleting it later is safe |
| Lifecycle.QueriesSelect | host/internal/service/rotation_service.go:113-161 | The two clean-up queries select exactly the unclaimed pairings and active registrations whose expiry lies a whole second back |
| Lifecycle.BackgroundSteps | host/internal/service/rotation_service.go:83-161 | What registration, acknowledgement, automatic rotation, clean-up and deletion each do to the one record, and that they leave every other alone |
| Lifecycle.ClaimGrows | host/internal/service/device_service.go:175-181 | An expired code claims nothing; a claim moves PAIRING to ACTIVE with an account |
| DeviceService.DeviceService.Pair | host/internal/service/device_service.go:57-113 | The three refusals in their order; otherwise one new record with the codes, the CSR and the certificate given, expiring in its whole second, and no other change |
| DeviceService.DeviceService.Claim | host/internal/service/device_service.go:164-213 | Some device with the pairing code is claimed exactly if it is in state PAIRING and its code has not expired: account, state, expiry, shortened names, bounded interval and perhaps a new certificate; nothing else changes; or there is none |
| DeviceService.DeviceService.Authenticate | host/internal/service/device_service.go:116-158 | A certificate is handed out exactly when id and both codes match, the pairing has not expired and the device is claimed, and it is that device's; expiry is answered exactly when both codes match and the time has passed; what the answer is worth is Identity.PolledAgrees |
| DeviceService.DeviceService.Deprovision | host/internal/service/device_service.go:637-665 | Retires exactly a record of the account that is not retired yet, dropping its configuration, and leaves a retained notice only then |
| DeviceService.DeviceService.RotateCredentials | host/internal/service/device_service.go:690-740 | For an active device of the account only: the new certificate replaces the old one, which is kept, and the rotation is published; what it is worth is Identity.ReceivedAgrees |
| Identity.KeyAndCertificateAgree | client/internal/credentials/store.go:319-431 | In every reachable state, through writes cut off anywhere, partial removal and loading with read errors, credentials that are complete on disk, or that a power failure may bring back, hold a certificate signed for the device id in the connection settings and for the CSR made from the private key among them |
| Identity.EndedWriteIsAStep | client/internal/credentials/store.go:319-431 | What the credential store promises of a write that ends, completed or failed, is one of the three outcomes of the machine's steps |
| Identity.CutOffWriteIsAStep | client/internal/credentials/store.go:319-431 | What it promises at every disk state it passes through is what a failed write followed by a power failure, or a restart, leaves |
| Identity.PolledAgrees | client/internal/pairing/pairing.go:160-204 | An authentication answer carries a certificate for the id and CSR of this pairing, however often the host re-signed it |
| Identity.RequestKeeps | client/internal/pairing/pairing.go:106-157 | Asking for a pairing code ties the new device id to the CSR of the current key |
| Identity.SavedAgrees | client/internal/pairing/pairing.go:192-200 | Saving the answer, completed or interrupted on either side of its commit, keeps key and certificate in agreement |
| Identity.ReceivedAgrees | host/internal/service/rotation_service.go:83-111 | Any rotation ever published for the device, late or repeated, completed or interrupted, keeps them in agreement |
| HostConfig.VersionsIdentifyContent | host/internal/service/device_service.go:559-634 | Over every run: all updates do what an update is for if and only if all are admissible; and then each stored configuration has distinct ids and stamped versions, and a later channel with an earlier one's version says nothing the earlier did not |
| HostConfig.DeviceVersionsIdentifySettings | host/internal/service/device_service.go:580-592 | Over every run, whatever the updates: equal device versions mean equal device settings |
| HostConfig.UpdateFollows | host/internal/service/device_service.go:314-634 | An update stores distinct ids and stamped versions, continues only stored channels under their versions, and gives new settings a fresh version, exactly when it is admissible: a full update with distinct ids, or a first channel update with an id of its own and no stale version |
| HostConfig.FullUpdateMeans | host/internal/service/device_service.go:580-633 | A full update stores what was sent: the settings, and every channel in order at every key but the version; a version is kept exactly when the last stored channel of the id says all that is sent, and the device version exactly when the settings are the same; otherwise it is fresh |
| HostConfig.ChannelUpdateMeans | host/internal/service/device_service.go:383-433 | A channel update stores the fields sent over the first channel with the id, under a fresh version, or as a new channel, and leaves everything else alone |
| HostConfig.SettingsUpdateMeans | host/internal/service/device_service.go:353-377 | A settings update stores the settings sent, if any, always under a fresh version, and leaves the channels alone |
| HostConfig.ChannelUpdateFrame | host/internal/service/device_service.go:383-433 | Whatever is stored and whatever comes in: exactly the first channel with the id, or a new last one, is overlaid with the incoming fields; no channel is lost, and every other channel, the settings and the device version stay |
| HostConfig.ChannelGetsIdAndVersion | host/internal/service/device_service.go:415-423 | The updated channel gets the id asked for and a fresh version exactly when it is stored already or the incoming fields bring no other id or version |
| HostConfig.StaleVersionReused | host/internal/service/device_service.go:415-423 | A concrete run in which an incoming version key gives an old version to new content |
| HostConfig.FullUpdateKeepsIds | host/internal/service/device_service.go:609-631 | A full update stores distinct, non-empty ids exactly when it was sent with them |
| HostConfig.DuplicateIdsConfuse | host/internal/service/device_service.go:594-631 | A concrete run in which repeated ids put more content under an old version |
| DeviceService.ChannelContentChanged | host/internal/service/device_service.go:521-544 | True exactly for a new channel or when some incoming field other than the version is missing from, or differs in, the stored channel |
| DeviceService.IndexChannels | host/internal/service/device_service.go:594-607 | The lookup by id finds the last stored channel of every id and nothing else |
| DeviceService.DeviceService.UpdateConfiguration | host/internal/service/device_service.go:559-634 | Refuses unknown, foreign and deprovisioned devices, an unreadable registration and exactly the configurations the registration does not accept; otherwise stores what was sent in that one record, as HostConfig.FullUpdateMeans says, and publishes the same under the next update id |
| DeviceService.DeviceService.RestampChannels | host/internal/service/device_service.go:609-631 | Every channel is stamped or keeps its stored version as the content comparison says, in place and in order |
| DeviceService.DeviceService.UpdateChannelConfig | host/internal/service/device_service.go:314-349 | The same for one channel, as HostConfig.ChannelUpdateMeans says; with a registration that decodes the channel must be assigned |
| DeviceService.DeviceService.MergeChannelUpdate | host/internal/service/device_service.go:383-433 | The search loop and overlay compute the channel update, with a device version if there was none |
| DeviceService.DeviceService.UpdateDeviceSettings | host/internal/service/device_service.go:353-377 | The same for device settings, as HostConfig.SettingsUpdateMeans says |
| DeviceService.DeviceService.PersistAndPublish | host/internal/service/device_service.go:473-512 | The update id grows by one and the retained message equals what is stored |
| Device.ApplyIsIdempotent | client/internal/application_reference_design/application_loop.go:424-438 | Applying a channel makes the device reflect it, and changes nothing when it already does |
| Device.ApplyKeepsTheRest | client/internal/application_reference_design/application_loop.go:424-438 | Applying changes no setting that is not named, the profile only if it alone is given, and the connection only if one is given |
| Device.ConfigIsAsAsked | client/internal/application_reference_design/application_loop.go:424-438 | The configuration callbacks are, in order, one for each standard setting, or else one for the profile, then one for the connection |
| Device.InterleavingIsPerChannel | client/internal/application_reference_design/application_loop.go:298-308 | However callbacks of several channels interleave, each channel ends as its own callbacks in order leave it |
| Gating.SkippedIsReflected | client/internal/application_reference_design/application_loop.go:243-269 | A channel whose version is recorded is one the device already reflects, although the host keeps a version when a field is dropped |
| Gating.GatingRefinesReapplying | client/internal/application_reference_design/application_loop.go:219-281 | For all updates, polls in order, schedules of callbacks within a poll and resets, recording versions and skipping leaves settings, profiles, connections and states as re-applying everything does |
| Polls.PollIsGated | client/internal/application_reference_design/application_loop.go:219-370 | The worker machine performs such a poll: the steps of the main loop, interleaved in any way with steps of workers until all have returned, give the record and the device of a gated poll with the schedule of callbacks they made |
| Polls.LoopRefinesReapplying | client/internal/application_reference_design/application_loop.go:219-370 | The refinement for the worker machine itself: any updates, any interleaved polls whose workers return before the next event, and any resets leave the device as re-applying everything at every poll |
| Processes.ServesAsEncoder | client/internal/application_reference_design/mock_encoder_device.go:281-358 | Serving a channel's callbacks is what applying the channel does to the encoder's connection and process |
| Processes.ServedIsSteady | client/internal/application_reference_design/mock_encoder_device.go:329-358 | Applied once is applied: the same channel again, or with fields other than the state dropped, neither starts, stops nor reconnects anything |
| Processes.GatingRefinesProcesses | client/internal/application_reference_design/application_loop.go:219-281 | Over the same updates, polls, schedules and resets, skipping leaves every channel of the encoder with the connection and the process that re-applying everything does |
| Processes.LoopRefinesProcesses | client/internal/application_reference_design/application_loop.go:219-370 | The same for the steps of the loop and its workers in any interleaving |
| Workers.OneLiveWorkerPerChannel | client/internal/application_reference_design/application_loop.go:283-370 | In every interleaving each channel has at most one worker that is not cancelled, and it is the registered one |
| Workers.ReportedVersionsAreCompleted | client/internal/application_reference_design/application_loop.go:309-361 | In every interleaving each reported channel version is "initial" or one whose worker made all its callbacks |
| Workers.UndisturbedWorker | client/internal/application_reference_design/application_loop.go:309-370 | If earlier workers of a channel have returned and no further one starts, the channel shows exactly its worker's callbacks |
| StaleWorkers.StaleWritesDecide | client/internal/application_reference_design/application_loop.go:320-338 | A dispatched channel is served in every interleaving that starts no further worker for it, exactly when all that its cancelled workers may still write is what the new configuration writes there |
| StaleWorkers.StaleWritesDecideAlways | client/internal/application_reference_design/application_loop.go:320-338 | The same at every reachable state of the loop, where its premises hold |
| Workers.StaleWorkerWritesLast | client/internal/application_reference_design/application_loop.go:320-324 | A concrete interleaving in which version 2 is recorded and reported, but the cancelled worker of version 1 writes last |
| ApplicationLoop.ApplicationLoop.ProcessConfiguration | client/internal/application_reference_design/application_loop.go:219-281 | One poll does what PollMeans says, and is a run of worker-machine steps |
| ApplicationLoop.ApplicationLoop.DispatchDue | client/internal/application_reference_design/application_loop.go:243-253 | Starts work for exactly the channels whose version is not recorded, in order |
| ApplicationLoop.ApplicationLoop.DispatchChannelWork | client/internal/application_reference_design/application_loop.go:285-295 | Cancels the registered worker of the channel and registers a new one |
| ApplicationLoop.ApplicationLoop.ApplyDeviceConfiguration | client/internal/application_reference_design/application_loop.go:255-269 | The last value of every device setting is applied, and the version recorded, exactly when the device version differs; nothing else changes |
| ApplicationLoop.ApplicationLoop.ChannelWorker | client/internal/application_reference_design/application_loop.go:309-370 | The worker's own control flow, from its first callback through two looks at its cancellation to its report, with anything the others do in between, is a run of the worker machine that ends returned: early only if it was cancelled, and otherwise with a report that names its version |
| ApplicationLoop.ApplicationLoop.ApplyChannelConfigSync | client/internal/application_reference_design/application_loop.go:424-438 | The callbacks made are those that the channel's fields ask for: every standard setting in order, or else the profile, then the connection |
| ApplicationLoop.ApplicationLoop.CancelAllWorkers | client/internal/application_reference_design/application_loop.go:461-468 | Exactly the registered workers are cancelled |
| ApplicationLoop.ApplicationLoop.ResetState | client/internal/application_reference_design/application_loop.go:470-478 | All records are forgotten and all workers cancelled |
| ApplicationLoop.PollIsARun | client/internal/application_reference_design/application_loop.go:219-281 | The steps of a poll chain into one run, so everything proved of interleavings holds of polls |
| ApplicationLoop.PollMeans | client/internal/application_reference_design/application_loop.go:219-281 | One poll starts at least one new worker for exactly the channels whose version is not recorded, applies the device settings exactly if their version is not, changes nothing else on the device, and reports the record exactly if that is due and nothing was started |
| Registration.TemplateOfMeans | host/internal/service/device_service.go:866-884 | A channel has a template exactly when some assignment of it names a known one; it is the last template with the id in the last such assignment |
| Registration.HostAndClientAgree | client/internal/application_reference_design/tr12_model_traversal.go:56-70 | Whatever ids repeat, the host's template of a channel is that of its last entry in the device's list, and both know the same channels |
| Registration.ListedInOrder | client/internal/application_reference_design/tr12_model_traversal.go:56-70 | The device's list has one entry per assignment of a known template, in the order of the assignments, with the last template of the id |
| Registration.RegisteredChannels | host/internal/service/device_service.go:866-884 | The host's map holds the template of every assigned channel |
| Registration.ResolveChannels | client/internal/application_reference_design/tr12_model_traversal.go:56-70 | The device's list holds one entry per assignment of a known template, in order |
| Validation.ValidateConfiguration | host/internal/service/device_service.go:834-966 | Accepts exactly the configurations that meet the declarative specification, and otherwise names a fault that is there |
| Validation.ValidateProtocol | host/internal/service/device_service.go:1041-1106 | Accepts exactly the protocol objects whose every key is a known protocol that the template registers (or it registers none) with a body of only schema fields and all required ones |
| Validation.ValidateSettings | host/internal/service/device_service.go:912-948 | Accepts exactly the settings whose ids the template lists, or a profile it offers |
| Validation.AcceptedFitsClient | client/internal/application_reference_design/tr12_model_traversal.go:56-70 | With distinct assignments every accepted channel fits the template that the device resolves for it |
| Reregistration.ValidateProfilesOnlyChange | client/internal/sdk/register.go:96-137 | Accepts exactly the registrations that differ at most in profiles, display names and version |
| Reregistration.RegistrationsStayCompatible | client/internal/sdk/register.go:38-137 | After any sequence of Register calls everything but profiles is as at connect, and a configuration naming no profile gets the verdict it got at connect |
| Encoder.ConnectionReadsBack | client/internal/application_reference_design/mock_encoder_device.go:281-411 | A stored connection is reported equal exactly when all its fields are given and none is a zero value; every field that is given and not zero is reported, whatever the others are, and a default for every other |
| Encoder.ApplyChannelMeans | client/internal/application_reference_design/tr12_model_traversal.go:72-110 | Applying one channel puts into the stores what its fields say, the last value of every standard setting, or else the profile, and the connection, and leaves every other setting, store and channel alone |
| Encoder.SrtOfMeans | client/internal/application_reference_design/mock_encoder_device.go:281-328 | A transport protocol object gives an srtCaller connection exactly when it has that body with an address and a port, and then with the optional fields it carries |
| Encoder.AcceptedConfigurationReadsBack | client/internal/application_reference_design/tr12_model_traversal.go:74-222 | After applying an accepted configuration the report shows the last value of every device setting and lists each desired channel, with the last value of every setting or the profile and the connection up to defaults; the desired state is shown exactly when it is IDLE, or ACTIVE with an address to call or a process that runs on |
| Encoder.ActiveWithoutAddress | client/internal/application_reference_design/mock_encoder_device.go:341-355 | A fresh encoder told to be ACTIVE without a connection reports IDLE, although the configuration is accepted |
| Encoder.ReadSettingsSplits | client/internal/application_reference_design/tr12_model_traversal.go:166-222 | Settings are reported in the order they are registered in, each that has a value once |
| Encoder.Encoder.HandleUpdateState | client/internal/application_reference_design/mock_encoder_device.go:329-358 | IDLE stops; ACTIVE restarts or starts only with an address and a positive port; nothing else changes anything |
| Encoder.Encoder.ApplyDesiredConfiguration | client/internal/application_reference_design/tr12_model_traversal.go:72-110 | Afterwards the stores hold the last value of every device setting and what the fields of the last channel with each id say; no other device setting and no other channel changes |
| Encoder.Encoder.BuildChannelConfig | client/internal/application_reference_design/tr12_model_traversal.go:166-222 | One channel's report says of the stores: its profile, or its settings that the template registers, its connection up to defaults, whether it runs, and the picture of the selected input |
| Encoder.Encoder.GetActualConfiguration | client/internal/application_reference_design/tr12_model_traversal.go:115-164 | The report echoes the device version, reads the registered device settings, and has one entry per resolved channel, in order, with the version applied to it |
| Sdk.CddSdk.Connect | client/internal/sdk/connect.go:27-158 | From PAIRING with nothing to load: PAIRING is kept exactly when the code has not expired and the host says Standby; it is entered exactly when nothing loads and a code is issued; CONNECTING exactly when credentials load, then or after a claim, and TLS and broker answer; everything else ends DISCONNECTED, but an online device stays online. Outside DISCONNECTED there is a host and a validated registration; a second call for the same host keeps the first registration |
| Sdk.CddSdk.StartConnect | client/internal/sdk/mqtt.go:50-132 | Goes online with loaded credentials or falls back to DISCONNECTED, keeping the invariant; an online device stays as it is |
| Sdk.CddSdk.Reset | client/internal/sdk/sdk.go:112-126 | No host, registration, client or cached configuration outlives a reset |
| Sdk.CddSdk.InitializeHost | client/internal/sdk/sdk.go:133-158 | Succeeds exactly for a validated registration and a configured host whose store opens |
| Sdk.CddSdk.ValidateRegistration | client/internal/sdk/validate.go:47-106 | Accepts exactly well-formed registrations whose assignments all name a template |
| Sdk.CrossReferencedMeans | client/internal/sdk/validate.go:92-106 | A cross-referenced registration gives every assigned channel a template on both sides |
| Sdk.CddSdk.Register | client/internal/sdk/register.go:38-90 | Replaces the registration exactly when connected and the new one is valid, non-empty and differs only in profiles |
| Sdk.CddSdk.Deprovision | client/internal/sdk/connect.go:297-341 | Always ends DISCONNECTED; deletion is tried only for the connected host, or when there is none, and its failure is reported |
| Sdk.CddSdk.OnDisconnect | client/internal/sdk/mqtt.go:171-176 | Only a connected device goes to RECONNECTING, and the invariant stays |
| Sdk.CddSdk.UpdateCerts | client/internal/sdk/mqtt.go:284-305 | A rotation that changed something disconnects and keeps the host and a valid registration |
| Sdk.CddSdk.Reconnect | client/internal/sdk/mqtt.go:305-313 | Whatever was called meanwhile, the device connects to the host it was rotated for with the registration saved, unless it already is |
| Throttling.Throttle.CanPublish | client/internal/utils/utils.go:199-215 | Allows a publish exactly when the pruned list is below the limit, and remembers exactly what it allows; while the clock does not go back, the answer is that of a throttle with a perfect memory and the list is exactly the window |
| Throttling.InWindowCounts | client/internal/utils/utils.go:199-215 | The window holds every publish of the last ten seconds, as often as it happened, and nothing else |
| Throttling.KeptIsWindow | client/internal/utils/utils.go:203-210 | Whatever the clock does, pruning leaves exactly the window exactly when no publish on the list lies in the future and none that has left the window stands behind one that has not |
| Throttling.ClockSetBack | client/internal/utils/utils.go:205-210 | A concrete clock set back with which it does not: an old publish hides behind a future one |
| Throttling.AnswerAgrees | client/internal/utils/utils.go:205-214 | Whatever the clock did, the answer errs exactly when the limit falls between two counts: publishes that hide on the list outside the window can only refuse, publishes forgotten though in the window can only allow |
| Throttling.SetBacksAreBounded | client/internal/utils/utils.go:199-215 | With a clock set back k times, no half-open window of ten seconds, wherever it ends, holds more accepted publishes than k + 1 times the limit |
| Throttling.NinePublishes | client/internal/utils/utils.go:199-215 | A concrete clock set back once with which a limit of five accepts nine publishes in one window |
| Throttling.WindowsAreBounded | client/internal/utils/utils.go:186-215 | With a clock that does not go back, no half-open window of ten seconds, wherever it ends, holds more accepted publishes than the limit |
| Throttling.OnlyTwoLimits | client/internal/utils/utils.go:186-196 | Whatever the interval, the limit is ten for at most one second and five for anything longer |
| Logger.Logger.WriteRecord | client/internal/cddlogger/logger.go:118-147 | Every record is kept at the end of what was written; a segment is closed by the record that takes it to the limit |
| Logger.SizeAdds | client/internal/cddlogger/logger.go:118-147 | The size that closes a segment counts every byte of every line |
| Logger.Logger.DoRotation | client/internal/cddlogger/logger.go:149-180 | The current file becomes the youngest closed segment and every older one moves up |
| Logger.RotationRetains | client/internal/cddlogger/logger.go:161-167 | After the renames, file `.k` is the k-th most recent closed segment, for `.1` to `.4` |
| Logger.FilesHoldSuffix | client/internal/cddlogger/logger.go:161-167 | The files, oldest first, are a suffix of everything written; only whole segments are missing, all but the four youngest |

## Left out

- Disk order: directory operations become durable in the order they were made. Without this the credential store's claim fails, as `CredentialStore.OrderIsNeeded` shows.
- Directory.Folder.RecoverPendingRotation: the removal of an orphan, whose error the source ignores at store.go:217, is taken to succeed; `CredentialStore.OrphansJoinCommit` says when one that stays does harm. A directory that is missing altogether is not modelled.
- CredentialStore.Store.WriteToFilesystem: is not atomic when the look for a marker that is there fails, because the code takes any error for absence (store.go:191-192): `Recovery.MisreadMixes` and `Recovery.NothingMayBeStaged` show what happens, `Recovery.MisreadDecides` says exactly when recovery itself stays safe. Creating and removing the directory itself is not on the modelled disk, and marshalled settings are kept as the value they decode to.
- CredentialStore.OrderIsNeeded: speaks of one surviving link; the other mixtures of a disorderly disk are not listed.
- Several stores over one directory at the same time, and callbacks of an MQTT client that was reset: the code gives no guarantee there.
- Identity.KeyAndCertificateAgree: a recovery that overlooks a marker is not among its steps; removal may leave any subset of the files.
- Sdk.CddSdk.Deprovision: informing the host is only reported; the health, status and thumbnail calls of the SDK are not modelled.
- Sdk.CddSdk.Connect: the structural and version rules for registrations are an arbitrary fixed verdict, no host is configured under the empty name, and MQTT callbacks come between API calls.
- Sdk.CddSdk.CanPublishNow: the throttle's answer is a parameter; which interval each throttle is created with is not modelled.
- DeviceService.DeviceService.Pair: whether the device type is a known one, in any case of letters, is a parameter; ids, codes and certificates come from outside. In the life-cycle ids and certificates are fresh.
- Lifecycle.StepKeepsInv: an automatic rotation may pick any device ever paired, and records the certificate it replaces from the table rather than from the list it queried; a device that is already deleted gets a message but no record. Thumbnails and logs are not kept.
- HostConfig.VersionsIdentifyContent: says nothing of versions after an inadmissible update, which the host accepts. A full update with repeated or missing ids always breaks the distinctness of ids (`HostConfig.FullUpdateKeepsIds`) and may break that channel versions identify content (`HostConfig.DuplicateIdsConfuse`); a first channel update with another channel's id breaks distinctness, and one with an old version may break identification (`HostConfig.StaleVersionReused`). Device versions identify settings in any case. Top-level keys other than version, settings and channels are not kept.
- Polls.LoopRefinesReapplying: updates are admissible, workers return between events, and every channel names a state; without the second it is false, as `Workers.StaleWorkerWritesLast` shows, and `StaleWorkers.StaleWritesDecide` says exactly when. The retained message may skip configurations but never goes back.
- Workers.ReportedVersionsAreCompleted: health is not modelled. The code records a version even when health is degraded, although mock_encoder_health_test.go:231-233 says otherwise. Heartbeats and status reports carry no more than what is recorded.
- ApplicationLoop.ApplicationLoop.ChannelWorker: goroutines and the mutex become interleaved steps, one callback each; sleeping, HTTP, error accumulation and the unused stopAndWait and isFullyStopped are left out.
- Validation.ValidateConfiguration: decoded values are typed; bytes that are not JSON, and fields of an unexpected JSON type, are modelled only for protocol objects and their bodies.
- Encoder.AcceptedConfigurationReadsBack: a process that is started runs until it is stopped; failures injected by tests are left out. Registrations with two assignments of one channel are not covered. In the worker machine the state of a channel is a store of its own, written by its callback; what the same callbacks do to the encoder's process is in `Processes`.
- Reregistration.ValidateProfilesOnlyChange: marshal-and-compare is structural equality.
- Logger.Logger.WriteRecord: writes are complete, renames of existing files succeed and the log starts in an empty directory. The code keeps `.1` to `.4`, one more than its constant's comment says.
- UpdateConfiguration's comment says that it bumps every channel's version; the code bumps those whose content changed, and the model follows the code.
- HTTP, TLS, JWT, SQLite, JSON encoding, ffmpeg processes, the console and the command line: plumbing around what is modelled.
