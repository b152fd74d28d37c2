# Vault service: a verified model

This project models the three parts of the Vault service agent that must not lose
keys or show secrets, and proves what their comments promise:

- **The durable provisioning protocol** (`provision/provision.sh`, wrapped by
  `provision/server.sh`). `vault.dfy` and `provisioning.dfy` are a machine with one step
  per command over two stores, Vault's storage and the data volume. A run can be cut at
  any step and started again from the top; any command may fail. `safety.dfy` proves what
  every step keeps, `convergence.dfy` where an uninterrupted run ends, `rootaccess.dfy`
  why the access token must not be the initial root token, `transit.dfy` what concurrent
  runs of `provision_transit` do to each other. `commands.dfy` says in words what single
  commands do, which failures end a run and which are passed over, and `devmode.dfy` when
  a dev run succeeds. `record.dfy` is the pair of sed programs
  on the init record's text. `script.dfy` is the script in its own form, one method per
  shell function over files that hold text, and every run of it is shown to be an
  execution of the machine. `server.dfy` is the container around it.
- **Local custody** (`localstate.go`, driven by `runtime.go`). `storage.dfy` is a directory
  with durable content and pending operations, `custody.dfy` the atomic replacement of
  `credentials.json` on it, `bootstrap.dfy` the machine of `bootstrap` through restarts and
  power failures, `found.dfy` the same over any Vault and any disk, `localstate.dfy` load, save and bootstrap in place, each driving that
  machine. `runtime.dfy` has the lock and the container's lifecycle, interleaved for any
  number of agents and in place for one, each call of which is a run of the machine. `starting.dfy` is what Start asks of the Vault,
  over any sequence of Starts and in place, and `agreement.dfy` compares the two
  provisioners.
- **The line-redacting log writer** (`vaultlog.go`), in `redaction.dfy`: the text
  replacement, the stream, and the writer with its buffer and its failing destination.

Vault itself appears only as tokens with their ancestors, mounts, and keys whose material
is an identity. Commands, requests and file operations are answered by events: done, not
done, done without an answer where the code can tell the difference, cut short, or
cancelled. A write whose outcome the script ignores has two cases, effect or no effect.

## What the proofs found

Where a promise fails, the exact condition is proved, and `histories.dfy` gives a history
from the very beginning that reaches the failing case.

- **Scrubbed over a live root.** `retire_initial_root` reads any failure of its lookup as
  "revoked". Over all histories, the record stands scrubbed over a live root token exactly
  when some run looked the live token up, got no answer, and published its scrub
  (`Safety.ScrubsALiveRootExactlyWhen`; reached in `Histories.ScrubsInVain`). With those
  lookups answered, scrubbed implies revoked. Never being locked out does not depend on it.
- **The initial root token as access token.** A run so configured accepts the token, and
  then revokes it as the initial root: it reports success and leaves no live token
  (`RootAccess.RootAsAccessTokenLocksOut`; reached in `Histories.RootTokenLocksOut`). A
  successful run keeps its access token exactly when that token is not the root token
  still on record (`RootAccess.TokenSurvivesExactlyWhen`). `Provisioning.Admissible`
  excludes this configuration from the histories the other theorems speak of.
- **The lost response.** Initialized with init.json never published is the one state
  crash convergence excepts (`Convergence.CrashConvergence`; reached in
  `Histories.ResponseLost`).
- **Masks.** One secret stays out of every output exactly when it has no newline, neither
  starts nor ends with a star, and has no four stars in a row
  (`Redaction.SingleSecretExactlySafe`); a secret without stars and newlines always does.
- **Tokens after a power failure.** A bootstrap whose last save failed after the rename
  leaves two possible `credentials.json`. Unconfigured bootstraps after power failures agree
  on the published token exactly when no rename that changes the token still awaits its
  directory sync (`Bootstrap.PowerFailuresAgreeExactlyWhen`; two that disagree in
  `Histories.TokensDisagree`). Without power failures they agree.
- **A token created twice.** A local bootstrap cut between creating the configured token
  and storing it creates that token again. Whether Vault accepts that is left open, and
  success depends on it exactly then (`Bootstrap.BootstrapSucceedsExactlyWhen`; a refused
  one in `Histories.TokenCreatedTwice`).
- **A killed agent.** The kernel drops its lock and Docker keeps its container. Over all
  histories, the running server is covered by the lock it was started under exactly when
  it was not left behind by a killed agent (`Runtime.CoveredExactlyWhen`; reached in
  `Histories.ServerLeftBehind`).
- **A conflicting mount at transit/.** The script reports it and fails. `enableTransit`
  takes "already in use" for success: a Start that gets past it has a transit engine and
  the key exactly when no other engine was mounted there
  (`Starting.TransitServedExactlyWhen`), and an answered one succeeds either way
  (`Starting.AnsweredStartSucceeds`).
- **The signing key.** `seedJWTSigningKey` takes any failed read for absence. Over any
  sequence of Starts the stored key survives exactly when no read of it went unanswered
  with the write behind it applied (`Starting.SigningKeySurvivesExactlyWhen`; replaced in
  `Histories.SigningKeyReplaced`).
- **Comments.** `provision/provision.sh:7-10` calls the script a postStart hook; in durable
  mode the model follows `provision/server.sh:8-13`, which runs it as part of the
  container's command.

## Model

| member | source | states |
|---|---|---|
| Redaction.LineRedactingWriter.constructor | vaultlog.go:42-50 | the writer starts with an empty buffer and the non-empty secrets in order |
| Redaction.LineRedactingWriter.Write | vaultlog.go:52-71 | buffer, everything handed to the destination and the error are what the stream specification gives for the old buffer and the new bytes; the count is always that of the input |
| Redaction.NonEmpty | vaultlog.go:43-48 | a secret is kept if and only if it was given and is not empty |
| Redaction.LeftmostReplaced | vaultlog.go:63-65 | replacement copies everything before the leftmost occurrence, masks it, and goes on behind it |
| Redaction.Untouched | vaultlog.go:63-65 | a line without the secret is passed on unchanged |
| Redaction.SecretRemoved | vaultlog.go:63-65 | replacing a mask-safe secret leaves no occurrence of it at any position |
| Redaction.NothingCreated | vaultlog.go:63-65 | replacing one secret never creates an occurrence of another mask-safe one, be it overlapping a mask |
| Redaction.StaysGone | vaultlog.go:63-65 | a secret absent from a line stays absent under every list of later replacements |
| Redaction.LineHoldsNoSecret | vaultlog.go:61-66 | a redacted line holds none of its mask-safe secrets, whatever the other secrets are |
| Redaction.NothingToHide | vaultlog.go:61-66 | a line that holds none of the secrets is unchanged, for every list of secrets and for none |
| Redaction.OneSecretMore | vaultlog.go:63-65 | a secret behind the others is one replacement behind the others |
| Redaction.NonEmptyInOrder | vaultlog.go:43-48 | the filter keeps the order: it distributes over concatenation |
| Redaction.MaskedInBytes | vaultlog.go:63-65 | one line in bytes, with its secret replaced by four stars |
| Redaction.LinesInBytes | vaultlog.go:57-62 | one text in bytes, cut at its newlines |
| Redaction.PlainSecretIsMaskSafe | vaultlog.go:63-65 | every non-empty secret without star and newline is mask-safe |
| Redaction.DrainDelivers | vaultlog.go:56-69 | from any point of a stream, one write's loop hands over the next complete lines once each and in order, stops at a refusal or when no complete line is left, and keeps exactly the bytes behind |
| Redaction.ExactlyOnce | vaultlog.go:52-71 | for every split of the input into writes and every pattern of failing attempts, the lines attempted are the first complete lines of the input, each redacted, once and in order; the buffer is the input behind them; an error means the last attempt failed |
| Redaction.ErrorExactlyWhen | vaultlog.go:56-70 | a write reports an error if and only if an attempt of its own failed, which is then its last; what was handed over before stays, and without an error no newline is left in the buffer |
| Redaction.OneLineEach | vaultlog.go:61-68 | everything handed over is one line, ending in its only newline |
| Redaction.PassesThrough | vaultlog.go:52-71 | when no secret occurs in a complete line, for every split and every failure pattern, what was handed over and the buffer are together the input, byte for byte |
| Redaction.ChunkIndependence | vaultlog.go:55-69 | when no attempt fails, two splits of the same bytes give the same output, buffer and result, and the buffer holds no newline |
| Redaction.NoSecretInStream | vaultlog.go:42-71 | no mask-safe secret occurs anywhere in the concatenation of everything handed over, across lines and writes, failures included |
| Redaction.SingleSecretExactlySafe | vaultlog.go:63-65 | with one secret, it is absent from the output for every input if and only if it is mask-safe |
| Redaction.Leak | vaultlog.go:63-65 | for every non-empty secret that is not mask-safe, an input on which it comes out |
| InitRecord.FindComplete | provision/provision.sh:125 | the scanner finds every match of the sed expression, so a line has one at most |
| InitRecord.ScrubIsTheSubstitution | provision/provision.sh:238 | the scrubbed line is what the scrub expression, on its own match relation, substitutes at any of its matches, and the line itself where it has none |
| InitRecord.SameLinesMatch | provision/provision.sh:123-127 | extraction and scrub, each with its own expression, match exactly the same lines, and the value scrubbed is the value printed |
| InitRecord.ScrubKeepsMatch | provision/provision.sh:238 | a scrubbed line matches as before, with an empty value and the same surroundings; another line does not match after it either |
| InitRecord.ScrubLineLaw | provision/provision.sh:238 | a scrubbed line yields an empty value exactly if it yielded one; it is unchanged exactly if it yielded none or an empty one; scrubbing is idempotent |
| InitRecord.ScrubAgainstExtract | provision/provision.sh:238 | on a whole text: same number of lines, each line yields a value after the scrub exactly if it did before, only lines with a value changed, idempotent |
| InitRecord.NoRootExactlyWhenRootless | provision/provision.sh:123-127 | the recorded root reads as empty if and only if no line carries a non-empty value |
| InitRecord.ScrubbedHasNoRoot | provision/provision.sh:123-127 | after the scrub of any text the recorded root reads as empty |
| InitRecord.RootReadBack | provision/provision.sh:123-127 | a text whose only matching line carries a token reads back as that token |
| InitRecord.OneLine | provision/provision.sh:125 | a line of the response, written out up to the token, gives exactly the token, and the scrub takes out exactly the token |
| InitRecord.OneResponse | provision/provision.sh:123-127 | a response with one such line reads back as its token; the scrub blanks that line, leaves the others, and nothing is read back after it |
| InitRecord.TwoTokens | provision/provision.sh:123-127 | two tokens are read back as two lines, without the trailing newline |
| VaultModel.WritesKeep | provision/provision.sh:32-35 | enabling a mount, creating a key and creating a token change no existing key and no existing mount |
| Transit.StepEstablishes | provision/provision.sh:204-223 | each call keeps what the run has established (engine, key, or the conflict it reports) and every token, mount and key |
| Transit.LostRacesConverge | provision/provision.sh:204-223 | for any interleaving of any number of runs and any failures, a run that ends well sees a transit engine and the key, a reported conflict is real, and no mount or key changes |
| Transit.MaterialMintedOnce | provision/provision.sh:216-222 | all runs together mint one key material if the key was missing and is there now, and none otherwise; no other key appears |
| Transit.ConflictStopsEveryRun | provision/provision.sh:205-215 | over another engine at transit/ no run ends well and the Vault does not change |
| Transit.EveryRunSucceeds | provision/provision.sh:204-223 | a run whose calls are answered succeeds within six of its own calls, whatever the other runs do in between |
| Provisioning.WaitGivesUpExactlyAt | provision/provision.sh:103-120 | without a status that ends the wait, it is still waiting after fewer than the configured attempts and has failed after that many, but never before one; nothing else changes |
| Commands.RefusedExactlyWhen | provision/provision.sh:43-74 | a run is refused at once, touching nothing, if and only if key name or token is empty, the mode unknown, or the token has a character other than letters, digits, dot, underscore and hyphen; otherwise it begins with the wait of its mode |
| Commands.WaitsEndExactlyWhen | provision/provision.sh:100-120 | the first wait ends with any answer, sealed or not; the second with that of an initialized, unsealed server |
| Commands.FatalExactlyWhen | provision/provision.sh:129-241 | a command that gets no answer ends the run if and only if it is one of those listed as having to work |
| Commands.ErrorsFail | provision/provision.sh:129-241 | from every state, a run in which such a command did not work has failed |
| Commands.PgpStagedAndRemoved | provision/provision.sh:148-160 | a durable run on empty storage has the configured key file in place when it initializes, and it is gone when the run succeeds |
| DevMode.TouchesOnlyTransit | provision/provision.sh:252-256 | from every state and under any answers, a dev run leaves volume, tokens, mounts and keys alone; success means engine and key |
| DevMode.SucceedsExactlyWhen | provision/provision.sh:252-258 | from every state, an answered dev run with good arguments succeeds if and only if Vault is initialized, the token live, nothing but transit mounted at transit/, and the server ready within the attempts |
| Safety.StepKeepsInv | provision/provision.sh:103-256 | every command, restart and outside write keeps the invariant that ties Vault's storage, the volume and the program counter together |
| Safety.Reachable | provision/provision.sh:103-256 | the invariant holds after every admissible run from an empty volume |
| Safety.OnlyTheRecordIsLeft | provision/provision.sh:238-239 | a durable run that succeeds leaves init.json without a root token, and neither a partial nor a scrubbed file beside it |
| Safety.KeysNeverRotate | provision/provision.sh:32-35 | from any state, through runs, crashes and both modes: a key keeps type and material, a mount its kind, and Vault its one initial root token |
| Safety.NeverLockedOut | provision/provision.sh:165-183 | in every reachable state with init.json published, its root token is live or a token a run has positively looked up is, with any command failing at will |
| Safety.DiagnosisHonest | provision/provision.sh:139-176 | "holds no data yet" is said only when no state of the whole history held a token but the initial root, a mount or a key; "installed earlier" only when a known token works, and "revoked" is then true exactly unless a vain scrub was published; the refusal over a foreign record is not reached from an empty volume; init.json and its partial never coexist |
| Safety.NeverInitializesOverARecord | provision/provision.sh:139-144 | from every Vault and volume: a run that meets uninitialized storage and an init.json changes neither, has failed with that refusal exactly if it has read sys/init, and can only fail otherwise |
| Safety.ScrubbedMeansRevoked | provision/provision.sh:225-241 | with the lookup of the root token answered, a published record without root token, and a run past that lookup, imply that the initial root is dead |
| Safety.ScrubsALiveRootExactlyWhen | provision/provision.sh:229-241 | over every history: the record stands scrubbed over a live root token if and only if some run looked the live token up without an answer and published its scrub |
| Histories.ScrubsInVain | provision/provision.sh:234-239 | a history from an empty volume that ends Done in that state |
| Convergence.StaysOnCourse | provision/provision.sh:243-256 | from every state on course an answered command, or a status not yet ready with attempts left, stays on course and comes strictly closer to the end |
| Convergence.ProvisionsExactlyWhen | provision/provision.sh:243-256 | from every reachable state, other people's writes included, an uninterrupted run, its waits retrying as they may, succeeds if and only if storage is empty, the token is known or the recorded root is live, nothing else is mounted at secret/ or transit/, and the server is ready within the attempts of both waits; success means the provisioned state |
| Convergence.CrashConvergence | provision/provision.sh:129-256 | from an empty volume with one token, after any runs cut anywhere, one uninterrupted run on a server that is up and unsealed within the waits ends provisioned with the initial root dead, except exactly where Vault is initialized and init.json was never published: there it fails and changes nothing |
| Histories.ResponseLost | provision/provision.sh:152-158 | a history that reaches the excepted state |
| Convergence.UnknownTokenRefused | provision/provision.sh:164-183 | from every Vault and volume: a run with an unknown token and no live recorded root changes neither store whatever the answers, and when answered has failed within 27 commands and the retries of both waits |
| Convergence.StrandedForGood | provision/provision.sh:152-176 | once Vault is initialized and init.json was never published, no later sequence of runs in either mode succeeds or changes either store |
| Convergence.NothingRewritten | provision/provision.sh:32-35 | a run over a provisioned Vault leaves both stores as they are under any failures, and when answered, waits included, issues no writing command at all |
| Convergence.ScriptMountsWhatBelongs | provision/provision.sh:187-212 | no command of the script ever mounts anything but KV v2 at secret/ or transit at transit/ |
| Convergence.CalmRunExists | provision/provision.sh:243-256 | from every state on course there is an uninterrupted run of any length |
| RootAccess.TokenSurvivesExactlyWhen | provision/provision.sh:229-241 | from every reachable state and for every access token, a successful run with the root's lookup answered leaves the token alive if and only if it is not the root token on record |
| RootAccess.RootAsAccessTokenLocksOut | provision/provision.sh:229-241 | a run whose access token is the recorded, only live root token reports success and leaves no token alive |
| Histories.RootTokenLocksOut | provision/provision.sh:229-241 | a run cut after publishing, and such a run after it, reach that from an empty volume |
| Script.ScrubbedText | provision/provision.sh:238 | scrubbing a text drops the root token it yields and nothing else of what the machine keeps of it |
| Script.DrivenIsExec | provision/provision.sh:243-256 | driving the machine with a run's answers is an execution of it without restarts |
| Script.Run.constructor | provision/provision.sh:76-86 | a run starts on the stores as they were left, at the start of the machine |
| Script.Run.WaitForServer | provision/provision.sh:103-120 | the loop ends ready or with the machine's failure, and changes nothing |
| Script.Run.Initialize | provision/provision.sh:129-162 | follows the machine on both stores to the second wait, or to a failure |
| Script.Run.OperatorInitAndPublish | provision/provision.sh:157-160 | the response goes to the partial file and is published by rename: success means initialized, init.json there and the partial gone |
| Script.Run.InstallAccessToken | provision/provision.sh:165-183 | success means that Vault knows the access token; the volume is not written |
| Script.Run.ProvisionKv | provision/provision.sh:187-202 | success means KV v2 at secret/; anything else there is a failure |
| Script.Run.ProvisionEngine | provision/provision.sh:205-215 | success means a transit engine at transit/; existing mounts and all keys are kept |
| Script.Run.ProvisionKey | provision/provision.sh:216-222 | success means the key exists; existing keys and all mounts are kept |
| Script.Run.ProvisionTransit | provision/provision.sh:204-223 | success means engine and key; existing mounts and keys are kept |
| Script.Run.RetireInitialRoot | provision/provision.sh:229-241 | success either leaves the files alone or replaces init.json by its scrubbed text |
| Script.Run.ScrubRecord | provision/provision.sh:238-239 | success replaces init.json by its scrubbed text |
| Script.Run.Provision | provision/provision.sh:243-258 | the whole script, in either mode, is a run of the machine on both stores, and exits 0 exactly when the machine is done, 64 exactly when it was refused its arguments, and 1 otherwise |
| Server.ServingMeansProvisioned | provision/server.sh:31-81 | over all container starts, deaths and signals, the container serves only in a provisioned state, an exited or refused command leaves no server, and no server runs with the seal missing or shamir |
| Server.BootsExactlyWhen | provision/server.sh:31-38 | a container start gets to start the server if and only if the seal is neither missing nor shamir; otherwise both stores are untouched |
| Server.RefusedUntilNextBoot | provision/server.sh:31-38 | a refused container does nothing at all until it is started again |
| Server.Provisions | provision/server.sh:74-79 | a run of the provisioning script is a stretch of the container's |
| Server.Serve | provision/server.sh:31-81 | with the seal missing or shamir the server is never started and the code is 78, both stores untouched; otherwise it is started once, and the code is 1 after a failed provisioning, else the server's; success is announced exactly when provisioned; the server is stopped in every case, and the whole is a run of the container's machine |
| Storage.CrashLeavesCandidate | localstate.go:61-74 | a power failure leaves credentials.json naming one of the files it could name, intact, and never removes one that had reached the disk |
| Storage.CrashOutcomes | localstate.go:61-74 | what load can return after a power failure is exactly absence, if nothing was durable, or the complete content of a candidate file |
| Storage.LoadSays | localstate.go:61-74 | on every disk: absence means that there is no file, success that the file holds these credentials with root token and unseal key, and everything else is refused |
| Storage.UnsyncedMayBeLost | localstate.go:85-103 | an unsynced file may hold anything after a power failure, with every pending directory operation gone |
| Custody.StepKeeps | localstate.go:75-104 | each file operation of save, whether it works, fails or stops midway, keeps every possible credentials.json old or new and complete, and comes closer to the end |
| Custody.SaveIsAtomicAndDurable | localstate.go:61-104 | save cut or failing anywhere leaves load the old result or the new credentials, now and after any power failure; once it returned nil only the new ones |
| Custody.SavedExactlyWhen | localstate.go:75-104 | save returns nil if and only if all seven of its file operations worked |
| Custody.NoTempLeft | localstate.go:84 | however a save ends, the directory has the temporary files it had before |
| Bootstrap.StepKeepsInv | localstate.go:141-232 | every request, file operation, restart and power failure keeps the custody invariant |
| Bootstrap.CustodyOverHistories | localstate.go:141-220 | over every history, what load finds now or after the next power failure is nothing, or the root token and unseal key of the one initialization with an access token Vault knows |
| Bootstrap.NoSecondInitialization | localstate.go:163-184 | an initialized Vault is never asked to initialize again; credentials once durable stay, root token and unseal key unchanged |
| Bootstrap.LostCustodyRefused | localstate.go:163-165 | initialized without custody, every later bootstrap is refused and the Vault is left as it is |
| Bootstrap.PublishedTokenValid | localstate.go:212-231 | a published token was accepted by Vault, is the configured one if there is one, and is the one stored |
| Bootstrap.RestartsAgree | localstate.go:221-231 | while the power stays on, unconfigured bootstraps publish the stored token every time |
| Bootstrap.SavedMeansOneToken | localstate.go:95-103 | after a save that returned nil only one token can come back |
| Bootstrap.OneTokenForever | localstate.go:221-231 | if only one token can come back, unconfigured bootstraps publish no other through any power failures |
| Bootstrap.PowerFailuresAgreeExactlyWhen | localstate.go:95-103 | after a successful bootstrap, all later unconfigured ones agree with it through power failures if and only if every credentials.json a power failure can bring back holds that token, so no rename that changes it awaits its sync |
| Histories.TokensDisagree | localstate.go:95-103 | a history whose last directory sync fails, after which two unconfigured bootstraps publish different tokens |
| Bootstrap.BootstrapSucceedsExactlyWhen | localstate.go:141-232 | from every reachable state an answered bootstrap, its sys/init loop retrying as it may, succeeds if and only if custody was not lost, sys/init is answered within thirty attempts, and create-orphan was accepted, which only a token that exists unstored can put in doubt; it then publishes the configured or stored token with KV v2 mounted |
| FoundCustody.DamagedCustodyRefused | localstate.go:70-72 | from every Vault and disk with a credentials.json that is not complete: while the power stays on, no bootstrap gets past loading, and Vault and disk stay as they are |
| FoundCustody.MissingStorageRefused | localstate.go:166-168 | from every Vault and disk with complete custody and uninitialized storage: no bootstrap initializes or succeeds, and Vault and disk stay as they are |
| FoundCustody.ErrorsFail | localstate.go:141-232 | from every state, a call with a request or file operation that did not work, lost its answer or was cancelled can only fail |
| FoundCustody.CustodyPublishedExactlyWhen | localstate.go:185-231 | over any complete custody, an answered bootstrap without a configured token succeeds if and only if Vault is initialized, the key unseals it, the root token works, secret/ is free or KV v2, the token to publish is live, and the server is up in time; it publishes the stored access token, or the root token where there is none |
| FoundCustody.PublishedTokenAccepted | localstate.go:225-231 | from every state and through anything, a bootstrap that has succeeded published a token that is live in its Vault |
| Histories.TokenCreatedTwice | localstate.go:212-220 | a bootstrap cut between creating and storing its token, and the next one failing on the refusal |
| LocalState.DrivenIsExec | localstate.go:141-232 | driving the machine with a call's answers is an execution of it without restarts or power failures |
| LocalState.LocalVaultState.Load | localstate.go:61-74 | no custody exactly if the read works and there is no file; credentials exactly if it works and the file holds them with root token and unseal key; an error otherwise |
| LocalState.LocalVaultState.Save | localstate.go:75-104 | performs exactly the file operations of the save machine, nil exactly when it ends saved |
| LocalState.LocalVaultState.CloseAndPublish | localstate.go:88-103 | an earlier error removes the temporary file; otherwise close, rename and directory sync, in the machine's order |
| LocalState.LocalVaultState.WaitForInit | localstate.go:149-162 | at most thirty requests, ended by the first answer or cancellation; success reports whether Vault is initialized |
| LocalState.LocalVaultState.PostInit | localstate.go:169-180 | credentials are the response's, the root token being the first access token; a lost answer is an error |
| LocalState.LocalVaultState.UnsealAndMount | localstate.go:185-211 | success means unsealed and KV v2 at secret/ |
| LocalState.LocalVaultState.MountKv | localstate.go:196-211 | an existing mount at secret/ is never written; success means KV v2 there |
| LocalState.LocalVaultState.InstallPreferred | localstate.go:212-220 | success means the configured token is created, stored and next to be checked |
| LocalState.LocalVaultState.LookupSelf | localstate.go:221-231 | the token returned is the stored access token, or the root token if there is none, and Vault accepts it |
| LocalState.LocalVaultState.Bootstrap | localstate.go:141-232 | the whole call is a run of the machine on Vault and disk, and returns a token exactly when the machine is done with it |
| Runtime.StepKeepsInv | runtime.go:108-390 | every step of Init, Stop and Destroy, and every kill, keeps the lock in order: a held lock is the one in its agent's localState |
| Runtime.LockAlwaysCoversServer | runtime.go:108-390 | for all interleavings of any number of agents with everything failing at will: a held lock is the one in its agent's localState and one agent holds it at most, kills included; and unless an agent is killed, a running container's agent holds the lock it started it under |
| Runtime.CoveredExactlyWhen | localstate.go:17-19 | over all histories, kills included: the running server is covered by the lock it was started under if and only if its agent's death is not the last thing that happened to it |
| Histories.ServerLeftBehind | localstate.go:17-19 | a history that leaves a server uncovered |
| Runtime.OpenLocalVaultState | localstate.go:30-46 | returns a state that holds the lock exactly when the files open and nobody holds it; otherwise the lock is as it was |
| Runtime.LockHandle.Close | localstate.go:47-53 | lets go of the lock once; a second call changes nothing |
| Runtime.RunsAreHistories | runtime.go:108-412 | the steps of one agent are a history of the machine |
| Runtime.Runtime.RetryShutdown | runtime.go:380-390 | succeeds if and only if one of the next three attempts does, ending there; the failed ones are steps of the machine |
| Runtime.Runtime.Environment | runtime.go:366-375 | fails only if no Init ever set an environment and none can be made |
| Runtime.Runtime.Teardown | runtime.go:356-378 | a run of the machine that returns nil if and only if there is an environment and one of three attempts succeeds; then the container is gone and the lock released, else lock and handle are kept |
| Runtime.Runtime.Stop | runtime.go:392-412 | Stop and Destroy: the same, and afterwards this agent does not hold the lock |
| Runtime.Runtime.Init | runtime.go:108-191 | a run of the machine, ready if and only if the lock was free and opening, preparing, starting and bootstrapping all worked; refused, it changes nothing; a failed preparation without an earlier environment releases the lock; any other failure releases it, with the container gone, if and only if one of the three or six shutdown attempts succeeds |
| Runtime.Runtime.BringUp | runtime.go:113-182 | the same from the lock on |
| Runtime.Runtime.PrepareContainer | runtime.go:150-166 | on success the environment is remembered, else the clean-up has run |
| Runtime.Runtime.CleanUp | runtime.go:114-122 | without an environment the lock is released and the container left alone; with one, teardown decides |
| Runtime.Runtime.StartContainer | runtime.go:166-170 | the container runs under this lock if it started, and may run if starting it failed |
| Runtime.Runtime.StartAndBootstrap | runtime.go:166-177 | ready if and only if both worked; otherwise lock and container are gone if and only if a shutdown attempt succeeds |
| Runtime.Runtime.TeardownTwice | runtime.go:173-177 | after a failed bootstrap, one success in up to six attempts releases the lock |
| Starting.StartsKeep | runtime.go:222-284 | over any sequence of Starts, failing anywhere, with writes done and their answers lost: no key, mount or token is changed, and a signing key, once there, is never missing |
| Starting.TransitServedExactlyWhen | runtime.go:222-252 | a Start past enableTransit has a transit engine and the key, "api-keys" where none is named, if and only if no other engine was mounted at transit/; a successful one has a signing key stored |
| Starting.AnsweredStartSucceeds | runtime.go:222-284 | an answered Start over a usable KV mount succeeds within four requests, conflict or not; over what an earlier one left it changes nothing |
| Starting.StartSucceedsExactlyWhen | runtime.go:324-335 | from every state and for any four answers: a Start succeeds if and only if its token works, both transit requests are answered with success, secret/ is KV v2, and the signing key is read or the new one's write answered |
| Starting.SigningKeySurvivesExactlyWhen | runtime.go:254-284 | over any sequence of Starts, the signing key stored at the beginning is stored at the end if and only if no read of it went unanswered with the write behind it applied |
| Histories.SigningKeyReplaced | runtime.go:257-280 | from any state with a stored key, a Start that succeeds with another in its place |
| Starting.DrivenIsExec | runtime.go:222-284 | driving the machine with a Start's answers is an execution of it |
| Starting.Starter.EnableTransit | runtime.go:222-252 | success over no conflict means engine and key; existing keys and mounts are kept |
| Starting.Starter.SeedJWTSigningKey | runtime.go:254-284 | success means a key pair is stored, the one before or the one just generated |
| Starting.Starter.Start | runtime.go:324-335 | the requests of Start are a run of the machine, and it succeeds exactly when the machine does |
| Agreement.ScriptReachesView | provision/provision.sh:185-223 | on a fresh Vault and volume an uninterrupted script run, waiting for its server as long as it may, ends with a working token, KV v2, the transit engine and an aes256-gcm96 key |
| Agreement.RuntimeReachesView | runtime.go:222-252 | on a fresh Vault and directory, a bootstrap, waiting for its server as long as it may, and an answered Start after it end with the same, and with a signing key |
| Agreement.ProvisionersAgree | provision/provision.sh:2-5 | for the same access token and key name, consumers see the same Vault from both provisioners |

## Left out

- `nixvault.go` and mixing backends on one `Runtime`: the lock is proved for the Docker backend only.
- `builder.go`, the templates and `external.go`: rendering, and small tables over a framework that is not part of this model.
- JSON, `execCommand`, HTTP, timeouts, real cryptography, gRPC handlers, audit, SBOM and upgrade: library or foreign code. Decoding stored credentials is taken to be the inverse of encoding them; anything torn is refused.
- Power failures under the script: it syncs nothing, so only process and container deaths are modelled there, and Vault's own storage is taken as durable everywhere.
- `recovery.pgp` after a crash: a run cut before it is removed leaves it there, since later runs return early; no claim is made.
- An operator init that finishes on the server after its client was cut off: it is counted as finished when the command ends.
- The policies of a token: every live token is taken as a root-policy token, as both provisioners create them; other people's tokens may descend from any live token but the initial root.
- Other clients of the local Vault while `bootstrap` and Start run: none are modelled; the lock keeps other agents out.
- Safety.NeverLockedOut: speaks of runs never configured with the initial root token as access token; `RootAccess.TokenSurvivesExactlyWhen` says what that configuration does.
- Convergence.CrashConvergence: assumes one access token over all runs; with rotated tokens `Convergence.ProvisionsExactlyWhen` has the exact condition.
- Redaction.LineRedactingWriter.Write: concurrent calls are not modelled; the source serializes them with a mutex.
- Runtime.Runtime.Init: one agent at a time, in place; the interleavings of many agents are those of `Runtime.LockAlwaysCoversServer`. Concurrent calls inside one agent are left out.
- Reading the environment: which variable holds the token of a mode, and the sixty attempts when none are set, are not modelled; a run is given them.
- LocalState.LocalVaultState.Save: a failing removal of the temporary file is not modelled; that file is never read.
- `WaitForReady` and `config`: a bounded poll and a file write without state of their own. A failing random generator in `seedJWTSigningKey` counts as a Start cut there.
- An attempts setting that is not a number: the shell's comparison error is not modelled.
