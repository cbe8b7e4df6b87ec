# SSM: a verified model of the secret server and its delivery agent

SSM is a server that keeps versioned, encrypted records, and an agent that
deploys them to files. This project models both, together with the file system
and the people around them, and proves what the system is for.

- **The server** (`Service.dfy`, `Server.dfy`) is a state machine over its
  records, the vault key and the login limiter. `Service` says what one request
  does, as a function. `Server` performs the same requests the way the program
  does, statement by statement inside a transaction in which every statement,
  the commit and the audit write may fail, and is proved against `Service`.
  `Invariant.dfy` holds what every reachable state satisfies; `Runs.dfy`,
  `Identities.dfy` and `Access.dfy` state claims about whole runs. `Ledger.dfy`
  tells every row of every table from the requests answered with success,
  `Standing.dfy` derives from that, both ways, which sessions, passwords, tokens,
  enrollments and values are good at a moment, and `Outcomes.dfy` says exactly
  when each request succeeds.
- **The store** (`PlainStore.dfy`, `Refinement.dfy`) is a map from paths to
  values with revision numbers; the encrypted store is shown to refine it.
- **The agent** (`Agent.dfy`, `AgentSafety.dfy`, `History.dfy`,
  `Convergence.dfy`) is a transition system with one step for each effect a poll
  has. Between any two steps the process may die, the server may serve others,
  and anybody may edit files. `Host.dfy` is the same agent as code that updates
  its fields. Its single actions are the steps of the transition system, so that
  an execution is a run needs only that each step is taken where it is enabled;
  what its proofs are about is the control flow, namely that this sequence of
  branches, error returns and roll-backs comes to what `CleanSync` specifies.
  `Joint.dfy` puts the real server into those runs. `Definitions.dfy` loads the
  definition files. `Deployment.dfy` says what a deployed file is, without the
  functions the agent computes it with.
- **The building blocks**: `Sealing.dfy` (envelope encryption and the vault),
  `Paths.dfy` (paths and rules), `Limiter.dfy`, `AtomicFile.dfy` (replacing a
  file), `Scan.dfy` (the batched export) and `Browse.dfy` (the folder view).

## Idealisations

- Hashing is injective; encryption is symbolic: a box opens with the key and
  associated data it was sealed with, and with nothing else. A password matches
  a stored hash exactly if it is the password.
- Random tokens are inputs, assumed never to repeat. Clocks are inputs.
- Rendering a template is an arbitrary partial function of the template source,
  the value, the path and the revision. Names of users and groups resolve the
  same way throughout.
- A transaction commits whole or not at all, and transactions are serial
  (`internal/storage/storage.go:114-129`). One that aborts may have changed the
  vault or the limiter before.
- Keys of a table compare by code point, as Go compares strings and as both
  databases compare the id column.

## Where the code and its documentation differ

- The comment at `internal/agent/agent.go:444-445` says that a crash before the
  save causes a safe repeat, and the program's README promises at-least-once hook
  semantics. That does not hold when a poll repairs a file that had drifted at
  an unchanged revision, and it takes no crash: a failed flush of the directory
  after the rename, or a failed save, is enough. `Ending` lists every way in
  which a poll can stop after its rename without starting the hook.
  `StoppedBeforeHook` gives the exact condition for all of them: the next poll
  omits the hook if and only if the entry it consults already is the one of this
  very output with its hook done. That entry is the saved one after a death of
  the process, and the one in memory, rolled back, otherwise.
  `DriftRepairLosesHook` gives the run for every definition and every ending that
  does not leave the pending entry to be consulted.
- A poll in which nothing fails leaves the destinations and the entries in
  memory right, but not always the saved journal. `DiskCurrentIff` says exactly
  when it does: the two journals agreed before, or some definition was ready and
  had not yet converged. `FailedSaveLeavesDiskAhead` describes how they come
  apart: `save` may report failure after its rename
  (`internal/agent/files.go:83-86`).
- The temporary file is said to be removed on every failure
  (`internal/agent/files.go:50-51`). `Directory.AtomicWrite` shows the one
  exception, exactly: it stays if nothing was published and the removal, the last
  call of all, fails itself; its result is ignored.
- An error response does not mean that nothing changed: the audit record is
  written in a second transaction, after the commit
  (`internal/server/server.go:164-185`). `Server.Serve` states exactly what each
  outcome means.
- `Scan` starts after the empty string and so never visits a row with an empty
  id; `CoversAll` says that this is the only exception. Audit ids are not
  ordered by time, because the layout of their timestamps drops trailing zeros;
  `Export` therefore allows rows to arrive anywhere, below its upper bound too.
- The folder view loses nothing exactly if no path is empty or ends in a slash
  (`BrowsingIsComplete`). Normalized paths are never of that kind.

## Model

| member | source | states |
|---|---|---|
| AgentSafety.SkipIsSound | internal/agent/agent.go:371-413 | In every run, with any crashes, failed saves, edits and server writes: a poll that takes the exit without a download had, within this very poll and in this order, asked for the metadata, examined the destination and read it; what it read and compared was the value as it stood at that metadata request, or with a template what the template text renders to for it, in a file with the configured mode and owner |
| Joint.SkipIsSoundEndToEnd | internal/agent/agent.go:371-413 | The same with the real server in the run: the bytes are the plaintext, or the template text rendered for it, that the server, at the metadata request for this definition, served this agent and held encrypted at the revision it reported; mode and owner included |
| Joint.PollDelivers | internal/agent/agent.go:334-455 | From every idle moment of agent and real server together, one poll without faults puts at every destination the value the server holds, or the template text rendered for it, with mode and owner, and the next one does nothing |
| Deployment.OutputIff | internal/agent/agent.go:429-434 | The bytes of a definition: the very value without a template, and with one what its text renders to for value, path and revision, or none if that fails |
| Deployment.ModeIff | internal/agent/files.go:88-97 | A mode is accepted, as this number, exactly if it is empty and the number 0600, or an octal numeral of it, up to 0777, with any zeros before |
| Deployment.FileFitsIff | internal/agent/agent.go:405-412 | A deployed file counts as current in its attributes exactly if it is a regular file with the configured mode, owner and group, where these are configured |
| Deployment.WrittenIsMade | internal/agent/files.go:66-79 | What is written has that mode and owner, belongs to the agent process where none is configured, and holds the data |
| AgentSafety.NotPendingMeansDone | internal/agent/agent.go:444-487 | An entry in memory or on disk that is not pending, of a definition with a command: some poll put exactly the recorded output at the destination, or found it there (p), then launched the hook for that very entry (a), which finished successfully (b); and the hook found exactly that output unless an Edit step hit the destination between p and a |
| AgentSafety.SecuredOrigin | internal/agent/agent.go:404-455 | A poll on its way to its hook goes back to one publication or one reading of the content it stands on, with nothing but its own further steps since |
| AgentSafety.EditCount | internal/agent/agent.go:404-412 | The count of edits of a destination stands still over a stretch of a run if and only if no Edit step in it hits that destination |
| AgentSafety.HookOrigin | internal/agent/agent.go:456-487 | A recorded hook run was really launched on those file contents and then exited successfully |
| AgentSafety.StepKeepsInv | internal/agent/agent.go:354-487 | Every step of agent, server, outsider and crash keeps the joint invariant of journals, issued versions, hooks and program position |
| AgentSafety.RunInv | internal/agent/agent.go:132-153 | The invariant holds in every state of every run, including those after a restart that reloads the saved journal |
| AgentSafety.MatchMeansCurrent | internal/agent/agent.go:400-413 | A journal entry that matches the revision, the fingerprint and the file was made from the very version the metadata request saw |
| AgentSafety.IssuedGrows | internal/server/secrets.go:77-99 | A path and a revision determine a value for ever, also as the server moves on |
| AgentSafety.MetaOrigin | internal/agent/agent.go:377-392 | Whatever a poll goes on with after the metadata answer stands on one earlier such answer for the same definition, in the same poll |
| AgentSafety.ReadOrigin | internal/agent/agent.go:404-407 | The compared content was read from the destination at one earlier step of the same poll, by one whose examination had succeeded, with only the decision to come since |
| AgentSafety.StatOrigin | internal/agent/agent.go:405-412 | Mode and owner were examined at one step of the same poll before that, and held then |
| AgentHistory.DeployedFileStays | internal/agent/agent.go:332-333 | Over any stretch of any run in which nobody edits it, a destination stays what it was or is the complete file, with mode and owner, last made there from a version the server had issued, rendered by the template text if there is one: no failure, crash or restart removes or damages it |
| AgentHistory.EntryOrigin | internal/agent/agent.go:332-333 | Every entry in memory, on disk or kept for a roll-back records an output that was published for that very definition and revision |
| AgentHistory.FailureAdvancesNothing | internal/agent/agent.go:332-333 | A poll that fails, at whatever point, leaves the entry as it was or pending |
| AgentHistory.PublishedNeverGoesBack | internal/agent/agent.go:419-443 | Of two publications for one path in a run, the later is of no lower revision, and of the same value if of the same revision, through all crashes, restarts, deletions and recreations |
| AgentHistory.PublishDeploys | internal/agent/agent.go:419-443 | Every publication in every run puts at the destination a file with the configured mode and owner whose content is the value live and served at the download of this very poll, or what the template text renders to for it |
| Convergence.SyncIsConvergentAndIdempotent | internal/agent/agent.go:334-455 | From every reachable idle state one poll without faults makes every destination the current value, or the template text rendered for it, with mode and owner, and every entry current and done; a second one downloads, writes and runs nothing |
| Convergence.SyncConverges | internal/agent/agent.go:334-353 | All definitions of a poll converge, none disturbing another |
| Convergence.CleanOneConverges | internal/agent/agent.go:354-455 | One definition converges from any state in which its entry may be relied on |
| Convergence.CleanOneDeploys | internal/agent/agent.go:354-455 | One definition without faults: if the secret is served and live, mode and names resolve, the template renders and only a file is in the way, the file and the entry come out current; otherwise it fails and nothing is changed |
| Convergence.ReadyIff | internal/agent/agent.go:377-440 | Being ready, said of definition, store and file alone |
| Convergence.ConvergedIff | internal/agent/agent.go:400-413 | Being converged, said of definition, store, file and entry alone |
| Convergence.FixedSync | internal/agent/agent.go:413-418 | A poll over converged definitions changes nothing at all |
| Convergence.OrderDoesNotMatter | internal/agent/agent.go:343-351 | A poll comes out the same for every order in which the definitions are visited: files, journals, hooks run, and what is reported as success, downloaded and saved |
| Convergence.Locality | internal/agent/agent.go:354-455 | What a definition does depends only on its own destination, its own entry and the server |
| Convergence.OneJob | internal/agent/agent.go:354-455 | A definition leaves every other destination and entry, the server and the edits alone; it either saves the journal or changes nothing, and hooks only grow by what it ran |
| Convergence.EffectIff | internal/agent/agent.go:354-455 | One definition without faults succeeds if and only if it is ready, saves if and only if it is ready and not converged, and runs its hook if and only if it saves and has one |
| Convergence.StoppedBeforeHook | internal/agent/agent.go:441-452 | A poll stops after its rename and before its hook, in whatever way (failed flush, failed save, death at any point): the next clean poll omits the hook if and only if there is none or the entry it consults already is this output's with its hook done |
| Convergence.EndingIsReached | internal/agent/agent.go:441-452 | Each of these ways is a run of steps, and leads to the state so described |
| Convergence.DriftRepairLosesHook | internal/agent/agent.go:444-445 | Counterexample to the comment, for every converged definition and every such ending that does not leave the pending entry to be consulted, with and without a crash: a run of an edit, a repair and that ending after which no hook runs |
| Convergence.FirstPollConverges | internal/agent/agent.go:354-487 | Every installation brings a ready definition with a hook into such a converged and saved state by one undisturbed poll, step by step |
| Convergence.DiskCurrentIff | internal/agent/agent.go:447-450 | After a clean poll the saved journal equals the one in memory if and only if it did before or some definition was ready and not yet converged |
| Convergence.FailedSaveLeavesDiskAhead | internal/agent/agent.go:447-450 | A save that fails after its rename leaves disk and memory apart, and no later clean poll mends it |
| Host.Host.Poll | internal/agent/agent.go:338-352 | A poll of an enrolled agent: files that do not load fail it without any effect; otherwise, without faults, it comes to the clean poll over the definitions in those files, each with the text of the template it names, listed in any order |
| Host.Host.Sync | internal/agent/agent.go:342-352 | The loop over the definitions: without faults the result is exactly the specified clean poll over them, with the failures reported; a failed definition does not stop the others |
| Host.Host.SyncOne | internal/agent/agent.go:354-455 | The same for one definition; a missing template fails it without any effect |
| Host.Host.RunCommand | internal/agent/agent.go:456-487 | A failed hook, or a failed save of its completion, leaves the entry pending in memory; success leaves it done in memory and on disk |
| Host.Host.Replace | internal/agent/agent.go:419-451 | Download, render, publish, record and save; however it fails, the entries in memory are the old ones, and on success memory and disk hold the new one, pending if there is a hook, and without faults the file holds the value served or the template text rendered for it |
| Host.Host.Journalize | internal/agent/agent.go:446-450 | Record and save: a failed save puts the old entry back in memory, whatever reached the disk |
| Host.Host.SaveJournal | internal/agent/agent.go:238-244 | The saved journal is the old one or the one in memory, also if the save reports failure; the entry is rolled back as each caller does |
| Host.Host.Compare | internal/agent/agent.go:382-412 | The metadata request and the look at the deployed file, in that order |
| Joint.JointRunIsAgentRun | internal/server/server.go:590-618 | A run of the real server and the agent together is a run of the transition system |
| Joint.RequestsSeeTheView | internal/server/server.go:590-618 | An agent's metadata and value requests are answered exactly from what is live in the store and granted to it |
| Joint.ViewStays | internal/server/server.go:590-618 | Through every interleaving what the agent may see is what the server would answer |
| Joint.RemoteStep | internal/server/server.go:158-185 | Every event of the real server is a step of the plain store the agent reasons about |
| Definitions.Load | internal/agent/agent.go:271-330 | The directory loads if and only if every definition file is acceptable and no two share a destination; the result holds exactly their definitions |
| Definitions.Check | internal/agent/agent.go:279-328 | The checks of one file, in their order, accept exactly the acceptable definitions; LoadsIff says which these are |
| Definitions.LoadsIff | internal/agent/agent.go:275-328 | Files with the suffix are considered; one loads exactly if it is no symlink and holds a definition with an accepted path, a destination that resolving leaves alone and that is outside the own directories, a plain template name with its suffix, an absolute command, a positive timeout and an octal mode |
| Definitions.LoadedJobsAreDistinct | internal/agent/agent.go:295-298 | Whatever the directory loads to is distinct in the sense convergence and order independence need |
| Definitions.OutsideOwnDirectories | internal/agent/agent.go:299-305 | An accepted destination resolves to itself component by component, and lies neither on nor below any of the agent's own directories |
| AtomicFile.Directory.AtomicWrite | internal/agent/files.go:19-87 | The call succeeds exactly if no system call fails, the destination is no special file and one of the ten names is free, and then the new file is durable with this data, mode and owner. If it publishes and fails nevertheless, the flush of the directory failed and that alone. Every moment shows the old entry or the complete new file, and so does every loss of power at any of them, an absent old file included; until its mode and owner are final the new file is private. The directory afterwards is the new one if published, and the old one otherwise, but for a temporary file exactly if its removal, the last call, failed |
| AtomicFile.Directory.FillAndPublish | internal/agent/files.go:66-87 | From the temporary file to the rename, the flush and the deferred removal: success exactly if no call fails, and which failure leaves what |
| AtomicFile.Directory.CreateTemp | internal/agent/files.go:52-65 | A temporary file is created exactly if no call fails and one of the ten names is free; none that exists is ever opened |
| AtomicFile.PowerLossIsAtomic | internal/agent/files.go:66-87 | Losing power at any moment of a replacement leaves the complete new file, or what the name showed before the call (at some moment since the directory was last flushed), intact if it had been flushed; nothing if there was nothing |
| AtomicFile.FlushedMeansNew | internal/agent/files.go:86 | Once the directory is flushed with the new file in it, no loss of power brings the old one back, whatever the replacement still does |
| AtomicFile.AtomicTraceSurvives | internal/agent/files.go:66-87 | An atomic trace of moments survives a loss of power at each of them, as the contract of AtomicWrite states it |
| Refinement.SecretCallRefines | internal/server/secrets.go:16-103 | One call on the encrypted store is one call on the plain map: same answer, errors included, same map afterwards |
| Refinement.NextRefines | internal/server/secrets.go:16-103 | Every event of the server, aborted ones, lock, unlock, restart and rotation included, is a step of the plain map |
| Refinement.LiveDecrypts | internal/server/secrets.go:44-47 | A live record always decrypts under the data key with its own path |
| Refinement.StoreRefines | internal/server/secrets.go:55-92 | The no-op test, the next revision and the re-encryption amount to a put |
| PlainStore.RevisionRisesIff | internal/server/secrets.go:65-91 | A revision rises by exactly one exactly on a successful write that makes the path hold something it did not hold, and never falls |
| Access.ReadReturnsLastWrite | internal/server/secrets.go:35-48 | Whatever value any reply in a run shows goes back to one earlier completed write of exactly that value to that path, which was answered with exactly that revision, and no request has touched the path since |
| PlainStore.PlainAdvances | internal/server/secrets.go:35-99 | Every cell stays, takes a new value at the next revision, or dies at its own |
| Runs.CallsAnswerAsPlainMap | internal/server/secrets.go:16-103 | After every history of the server each completed call is answered as the plain map of that history answers it |
| Runs.RunRefines | internal/server/secrets.go:16-103 | The store of every state of a run is the plain map after the same commands |
| Runs.ReadsLastWrite | internal/server/secrets.go:35-92 | What is live at a path was put there, at that revision, by one earlier completed write of exactly that value, and untouched since |
| Runs.RevisionPinsValue | internal/server/secrets.go:77-99 | Two moments at which a path is live at the same revision hold the same record, ciphertext included, as does every moment between |
| Runs.RankRises | internal/server/secrets.go:77-99 | Revision and tombstone together never go back |
| Runs.RecordMoves | internal/server/write_credentials.go:128-161 | No request, a writer's included, moves a record back or changes it without moving it up |
| Runs.OneKeyForLife | internal/security/security.go:125-206 | At every moment the vault is empty or holds the key made at setup, and the stored envelope opens to that key with exactly the last committed passphrase |
| Runs.VaultStep | internal/server/server.go:300-349 | An admitted unlock succeeds with exactly the last committed passphrase and opens the vault, a rotation with exactly that and a long enough new one, a lock always; no other request touches key or passphrase |
| Runs.CreatedStays | internal/server/secrets.go:80-85 | Overwritten, deleted or recreated, a secret keeps the time of its creation |
| Runs.KeyManagementKeepsCiphertexts | internal/server/server.go:300-349 | Rotation, lock, unlock and restart leave every secret record as it is |
| Runs.SetupStartsARun | internal/server/server.go:38-64 | Setup on an empty store starts a run, with the vault locked |
| Sealing.WrapHides | internal/security/security.go:125-157 | Wrapping succeeds exactly for a passphrase of at least 16 bytes and then opens for it alone |
| Sealing.CiphertextIsBound | internal/security/security.go:78-108 | A ciphertext opens, to the value put in, under its own key and path and neither under another key nor in the place of another record |
| Sealing.RewrapKeepsKey | internal/security/security.go:199-206 | Rotation succeeds exactly with the right old and a long enough new passphrase, keeps the data key and retires the old passphrase |
| Sealing.Wipe | internal/security/security.go:120-124 | The whole buffer is zeroed in place |
| Sealing.Vault.Lock | internal/security/security.go:168 | The key is dropped and its old buffer zeroed |
| Sealing.Vault.Unlock | internal/security/security.go:169-179 | The vault takes the unwrapped key, or fails and keeps what it had; a replaced buffer is zeroed |
| Invariant.NextKeepsInv | internal/server/server.go:158-185 | Every event, committed or aborted at any point, keeps the whole invariant of identities, secrets and key |
| Invariant.HandleKeepsIdentity | internal/server/server.go:206-620 | Every request keeps all records, indexes and references of identities in order |
| Invariant.HandleFrame | internal/server/server.go:206-620 | A request that fails changes no record; only secret operations touch secrets, only a master change the envelope, only lock and unlock the key |
| Invariant.EnrollKeepsIdentity | internal/server/server.go:234-266 | Enrollment keeps agents, credential index and enrollment table in agreement |
| Invariant.WithoutAgentKeepsIdentity | internal/server/maintenance.go:15-41 | Purging leaves no dangling reference |
| Invariant.RevokeWriterKeepsIdentity | internal/server/write_credentials.go:106-120 | Revoking a writer keeps its token index in agreement both ways |
| Invariant.DeleteAdministratorKeepsIdentity | internal/server/server.go:500-512 | Deleting an administrator leaves another one and no session of the deleted one |
| Invariant.SetupEstablishesInv | internal/server/server.go:38-64 | Setup on an empty store establishes the invariant |
| Invariant.SecretCallKeepsSecrets | internal/server/secrets.go:16-103 | Every live record stays sealed under the data key with its own path, every tombstone without ciphertext |
| Identities.IndexesAgreeInRuns | internal/server/auth.go:42-76 | In every reachable state authentication succeeds exactly for the token of an unrevoked agent, or writer, found by scanning them all; no token is both |
| Identities.AgentIndexIsScan | internal/server/auth.go:42-56 | The index lookup accepts exactly the token of an unrevoked agent, and returns that agent |
| Identities.WriterIndexIsScan | internal/server/auth.go:61-76 | The same for writers |
| Identities.NamespacesDisjoint | internal/server/auth.go:58-76 | No header is both an agent and a writer, and a stored enrollment token is neither |
| Identities.PurgeFrame | internal/server/maintenance.go:15-41 | A purge removes every enrollment and credential record of the agent and leaves every other record of every kind |
| Identities.RedeemedOnce | internal/server/server.go:234-266 | In a run no token is redeemed twice and no agent is given two credentials |
| Identities.RedemptionWasIssued | internal/server/server.go:423-447 | A redemption goes back to one earlier issuance of that token for that agent and comes strictly before its expiry |
| Identities.RedemptionStep | internal/server/server.go:244-265 | What holds before and after a redemption |
| Identities.EnrollmentOrigin | internal/server/server.go:423-447 | Every stored enrollment record goes back to one issuance with the same agent, token and expiry |
| Identities.EnrollmentReferences | internal/server/server.go:244-265 | An enrollment record sits under its own hash and names an existing agent, one with a credential if it is used |
| Identities.RevocationIsPermanent | internal/server/server.go:533-572 | After a revocation or purge no header authenticates that agent and its token authenticates nobody, in every continuation |
| Identities.NoRevival | internal/server/server.go:234-250 | No enrollment token enrolls it again either |
| Identities.WriterRevocationIsPermanent | internal/server/write_credentials.go:106-120 | The same for a revoked writer and its token |
| Identities.SessionOrigin | internal/server/server.go:464-512 | A stored session was opened by a login with the password its administrator still has, expires the configured time after it, and no change or deletion of that administrator has completed since |
| Identities.AnAdministratorRemains | internal/server/server.go:500-512 | In every reachable state there is an administrator |
| Access.ReadSucceedsIff | internal/server/server.go:590-618 | At any state of a run an agent's read succeeds exactly if the token is an unrevoked agent's, a rule of it covers the path by components, the vault is open and the secret is live |
| Access.WriteSucceedsIff | internal/server/write_credentials.go:128-161 | A writer's write succeeds exactly if the token is an unrevoked writer's, a rule of it covers the path, and the secret is live or the writer may create |
| Access.RulesOrigin | internal/server/server.go:540-572 | The rules an agent is held to are those of the latest completed creation or change, untouched by every other request |
| Access.WriterRulesOrigin | internal/server/write_credentials.go:82-105 | A writer's rules are those of its creation or of the latest edit that gave any |
| Access.CreationOrigin | internal/server/write_credentials.go:82-105 | Its right to create is that of its creation or of the latest edit that mentioned it |
| Access.AdministrationNeedsLogin | internal/server/auth.go:19-38 | A completed administrative request goes back to a login with the password still valid, within its time and with its own token unless it only reads |
| Access.PasswordOrigin | internal/server/server.go:464-486 | An administrator's password is the one last set for that name, or unchanged since setup |
| Access.RepliesWithhold | internal/server/secrets.go:13-41 | No reply carries a ciphertext, the hash of an agent's credential, or a token or session other than those drawn for this request, and a value is shown only to who asked to read it: never to a writer, never with metadata |
| Access.LogoutIsPermanent | internal/server/server.go:284-292 | After a logout no request with that cookie succeeds |
| Records.BearerIs | internal/server/auth.go:42-45 | A header presents a token exactly if it is the scheme, one space and that non-empty token |
| Ledger.RowsStep | internal/server/server.go:206-620 | At every step of a run each row of agents, writers, enrollment tokens, sessions and administrators becomes exactly what the request, if answered with success, makes of it, and stays otherwise |
| Ledger.SecretsStep | internal/server/secrets.go:42-99 | The same for secrets: a value not there already takes the next revision and is sealed under the data key, a deletion keeps the revision, and the times are kept as the program does |
| Ledger.RepliesFit | internal/server/server.go:206-620 | A successful reply shows what was drawn for the request, or the row as it is afterwards: value, revision and both times, or the record without ciphertext or hash |
| Standing.SessionIff | internal/server/server.go:284-292 | In every state a session is stored exactly if a login opened it and since then neither a logout of it nor a change or removal of its administrator succeeded |
| Standing.SessionAdmits | internal/server/auth.go:19-38 | A cookie is let through exactly if such a session stands, its time is not over, and the request only reads or brings the session's token |
| Standing.PasswordIff | internal/server/server.go:464-512 | An administrator has a password exactly if it was the last one set, or is that of setup and was never touched |
| Standing.LoginSucceedsIff | internal/server/server.go:213-233 | A completed login succeeds exactly if the limiter lets it pass and the password is the one that stands |
| Standing.AgentTokenIff | internal/server/auth.go:42-56 | A header is taken for an agent exactly if it presents the token of an enrollment of that agent which was not revoked or purged since |
| Standing.WriterTokenIff | internal/server/auth.go:61-76 | A header is taken for a writer exactly if it presents the token of that writer's creation and it was not revoked since |
| Standing.OpenIff | internal/server/server.go:423-447 | An enrollment token is open exactly if it was issued and since then neither it nor its agent was redeemed, the agent not revoked or purged, and the token not deleted |
| Standing.EnrollSucceedsIff | internal/server/server.go:234-266 | A completed enrollment succeeds exactly if the limiter lets it pass and the token was issued, its issued time is not over, and it is still open in that sense |
| Standing.ValueIff | internal/server/secrets.go:42-99 | A secret holds a value exactly if that was written with success and since then no other value was, nor was it deleted |
| Standing.CreatedIs | internal/server/secrets.go:74-79 | The creation time is that of the very first write of the secret |
| Standing.UpdatedIs | internal/server/secrets.go:74-99 | The other time is that of the last write or deletion that changed the record |
| Standing.RevisionCounts | internal/server/secrets.go:74-82 | A revision is the number of successful writes of something the secret did not hold at the time |
| Standing.GuessesAreBounded | internal/server/server.go:110-119 | Between two restarts, any stretch of a run whose limited requests fall within a minute lets at most sixty of them pass |
| Outcomes.AdministerSucceedsIff | internal/server/server.go:267-589 | A completed request of an administrator succeeds exactly if a session lets it through and the operation has what it needs of arguments, records, key and limiter, operation by operation |
| Outcomes.ReadOutcome | internal/server/server.go:590-618 | The answer to every completed request of an agent, errors and their order included |
| Outcomes.ReadShowsIff | internal/server/server.go:590-618 | A read shows a value exactly if the header is that of an agent whose rules grant the path, the vault is open, and the value was written there and neither replaced nor deleted since |
| Outcomes.WriteOutcome | internal/server/write_credentials.go:128-161 | The answer to every completed request of a writer, errors and their order included |
| Outcomes.SetupSucceedsIff | internal/server/server.go:38-64 | Setup succeeds exactly without an installation, with a name, a password of 12 to 72 bytes and a passphrase of at least 16, and leaves that administrator and an envelope for that passphrase alone |
| Server.Server.Serve | internal/server/server.go:158-200 | One request from end to end: the state moves by exactly one specified event, the reply is the specified one or an error, and which failures mean what |
| Server.Server.Route | internal/server/server.go:206-620 | Every route inside a transaction does what is specified, or the store failed and memory is as before or as after |
| Server.Server.Restarted | internal/security/security.go:162-168 | A new process over the same records starts locked with a fresh limiter |
| Server.EnrollTx | internal/server/server.go:234-266 | Enrollment statement by statement, failing at any of them, follows its specification |
| Server.DeleteAgent | internal/server/maintenance.go:15-41 | The loop over enrollment rows, then the credential, then the agent, follows its specification |
| Server.DeleteSessions | internal/server/server.go:623-640 | The loop deletes exactly the sessions of the named administrator |
| Server.DeleteEnrollmentTx | internal/server/server.go:513-532 | The first row with the id is deleted, and it is the only one |
| Server.EditAgentTx | internal/server/server.go:540-572 | Changing rules and revoking, statement by statement |
| Server.ManageWriteCredentials | internal/server/write_credentials.go:33-121 | Creating, editing with omitted fields kept, and revoking writers, statement by statement |
| Server.SecretTx | internal/server/secrets.go:16-103 | The step-by-step change of the record follows the specified call |
| Server.WriteSecretTx | internal/server/write_credentials.go:128-161 | A writer's POST becomes a create or an update as its credential and the record say |
| Server.SetupTx | internal/server/server.go:38-64 | Setup refuses an installation that exists, and writes envelope and administrator together |
| Paths.AllowedByComponents | internal/security/security.go:61-76 | The textual test grants a path exactly if it is normalized and some rule covers its list of components, for every rule list |
| Paths.NormalizeIff | internal/security/security.go:32-46 | A path is accepted exactly if it is not empty, at most 512 bytes, without white space at its ends, control characters and backslash, percent, star and question mark, and has no component that is empty, "." or ".."; it then resolves to itself |
| Paths.ValidateRulesIff | internal/security/security.go:49-57 | Rules are accepted exactly if each is an accepted path, or one with the wildcard after it |
| Paths.AllowedIff | internal/security/security.go:61-76 | A path is granted exactly if it is accepted and a rule is that path, or the wildcard after a base that the path extends by a slash and something; a granted path resolves to itself |
| Paths.WalkIsStraight | internal/security/security.go:41-45 | Resolving components one by one leaves them alone exactly if none is empty, "." or ".." |
| Paths.CleanIsStraight | internal/agent/agent.go:295-297 | Cleaning an absolute name leaves it alone exactly if none of its components is empty, "." or ".." |
| Paths.MatchesIsCovers | internal/security/security.go:66-74 | One rule matches exactly if the components are equal, or strictly extend a subtree's |
| Paths.PrefixIsSubtree | internal/security/security.go:66-74 | A prefix that ends in the slash is exactly a proper prefix of components |
| Paths.SplitJoin | internal/security/security.go:32-46 | Splitting undoes joining, for slash-free components |
| Paths.JoinSplit | internal/security/security.go:32-46 | Joining undoes splitting, for every string |
| Paths.ValidRuleShape | internal/security/security.go:50-57 | An accepted rule is a normalized path or a subtree of one: no dots, no empty component, no wildcard inside, no global wildcard |
| Paths.ExactRuleGrantsOne | internal/security/security.go:61-76 | The exact rule of a normalized path grants that path and nothing else |
| Limiter.MinuteBound | internal/server/server.go:110-119 | Any stretch of calls within a closed minute holds at most sixty accepted ones, after every history |
| Limiter.WindowBound | internal/server/server.go:110-119 | A window accepts at most thirty |
| Limiter.AcceptedIff | internal/server/server.go:110-119 | After every history a call is accepted exactly if fewer than thirty calls, accepted or not, came since the call that opened the window; one opens when more than a minute of nanoseconds has passed |
| Limiter.MinuteBoundIsTight | internal/server/server.go:110-119 | Sixty are reached, thirty at the end of one window and thirty a nanosecond later |
| Limiter.Limiter.Limit | internal/server/server.go:110-119 | One call moves window and counter as specified |
| Scan.Export | internal/storage/storage.go:180-220 | With rows arriving between batches anywhere: strictly ascending, nothing beyond the upper bound, every row of the start exactly once on success, an unbroken beginning on failure; it succeeds exactly if every query, check and visit that it came to went well, and all its batches but the last hold 256 rows |
| Scan.NextBatch | internal/storage/storage.go:186-217 | A batch moves the position strictly forward within the bound, delivers a gapless continuation, and is full unless it reaches the bound |
| Scan.Table.Query | internal/storage/storage.go:187-200 | The first rows of an interval in ascending order, without a gap, as many as the limit or all there are |
| Scan.Table.MaxId | internal/storage/storage.go:181-184 | The greatest id, or the empty string |
| Scan.AllVisited | internal/storage/storage.go:186-220 | When the position reaches the bound, every row of the start has been visited |
| Scan.VisitedOnce | internal/storage/storage.go:187-196 | No id is visited twice |
| Scan.RankMonotone | internal/storage/storage.go:185-186 | Ids of bounded length have a bounded rank in their order, so the loop ends |
| Browse.BrowsingIsComplete | internal/server/web/browse.js:5-15 | Opening, from the root, every folder in the entries that are listed reaches every secret exactly once, if and only if no path is empty or ends in a slash |
| Browse.ExpandCounts | internal/server/web/browse.js:5-15 | Below every prefix the files listed and the folders opened from the entries reach each reachable path as often as it occurs, and nothing else |
| Browse.CountEntries | internal/server/web/browse.js:5-15 | In the entries of a level a file is listed as often as its path occurs, and a folder exactly once if something lies below it |
| Browse.NormalizedIsReachable | internal/security/security.go:32-46 | Every normalized path is of the kind browsing reaches |
| Browse.List | internal/server/web/browse.js:5-15 | The loop with its map and array lists each entry exactly as often as it is to be: not at all if its lower-cased name does not contain the lower-cased filter, else a file as often as its secret is there and a folder once if something lies in it |
| Browse.EntriesAre | internal/server/web/browse.js:5-15 | How often each entry is listed, for every prefix and filter, said of the texts alone |
| Browse.FilterIsSelection | internal/server/web/browse.js:13-14 | A filter keeps exactly the entries whose lower-cased name contains it lower-cased, as often as without it |
| Browse.SortIsStable | internal/server/web/browse.js:14 | Entries of one kind whose names compare equal stay in their order |
| Browse.SortPermutes | internal/server/web/browse.js:14 | Sorting loses and invents no entry |
| Browse.SortSorts | internal/server/web/browse.js:14 | Folders come first and each kind is in the order of names |
| Browse.UnfilteredLevel | internal/server/web/browse.js:13-14 | An empty filter drops nothing |
| Browse.BothEntries | internal/server/web/browse.js:10-11 | A name that is both a secret and a folder keeps both entries |
| Browse.FoldersDiffer | internal/server/web/browse.js:6-10 | Folder names of a level are unique |

## Left out

- HTTP, TLS, headers, cookies as text, JSON and YAML decoding, origin checks and logging: requests arrive parsed. A body that does not parse is an abort that may have moved the limiter.
- Read-only routes that list records, their removal of hashes, health and status, and the user interface beyond the folder view.
- The contents of audit records and the download's headers; only the export itself is modelled.
- SQL, drivers, migrations and connection handling; a table is a map. MySQL's treatment of trailing spaces in keys is not modelled.
- AES-GCM, scrypt, bcrypt, SHA-256 and random generation. In particular bcrypt is taken to compare whole passwords, although it truncates longer ones on comparison.
- Strings that are not valid UTF-8, and the 64-bit width of revisions and counters.
- The agent's side of enrollment (`internal/agent/agent.go:195-221`) and the loading of its configuration.
- The syntax of templates, and how a hook process is started, timed out and killed: a hook is a step that succeeds or fails.
- Symlinks, umask and the walk of the parent directories, which is one call that may fail. So two definitions of which one deploys to a file inside the path of the other are distinct for convergence, and that the second walk must fail is a fault like any other. A destination that is not a regular file is one kind of thing. An error of the agent's `lstat` or read of the destination counts as no file.
- Cancellation between two definitions, which ends a poll early with the agent idle.
- Two agent processes over one state directory, two servers over one database, and an older database put back: outside the intended operation.
- AtomicFile.Directory.AtomicWrite: random temporary names are assumed to differ from the destination's own name.
- Scan.Table.Insert: the export is stated for insertions only, as audit records are append-only; deletions between batches are not modelled.
