# Skeeper: a verified model of sync, vault and tokens

Skeeper keeps an encrypted vault on several devices and syncs it through one server. This project
models the parts of it where correctness depends on several components at once, and proves what they
guarantee together.

- **Sync.** A device replaces its rows by whatever the server answers, with no version guard. The
  project proves, over every run of any number of devices and accounts, that this never lowers a
  row, that no saved edit vanishes, and when a sync makes a device equal to the server.
- **Vault.** The server's salt and verifier are written by a SELECT, an INSERT that may do nothing,
  and a second SELECT. The project proves this linearizable to a write-once register, and, on top
  of it and of sync, that an acknowledged entry stays decryptable everywhere, and exactly what
  decides whether any other saved entry can be read. On each device the encrypted vault refines a map
  of plaintext entries, while other devices register for the same account at any moment; what is
  saved is read back exactly, and reaches the account's other devices.
- **Tokens.** Refresh-token rotation (section 10.4 of RFC 6749) keeps one live token per user, each
  exchanged at most once. With any number of devices per account, calls lost anywhere and clocks that
  disagree, the project proves exactly when a client gets a valid token.

## How it is organised

| file | content |
|---|---|
| `Basics.dfy`, `Entries.dfy`, `Crypto.dfy` | shared types; the entry and the two tables; symbolic cryptography |
| `ServerTable.dfy`, `LocalRows.dfy` | the server's upsert and the device's merge, as functions on tables |
| `SyncRound.dfy`, `Convergence.dfy`, `SerialUse.dfy` | one uninterrupted round; exactly when rounds converge; serial use of an account |
| `SyncProtocol.dfy`, `SyncTheorems.dfy` | the protocol as a state machine, its invariant, and its guarantees over runs |
| `VaultRegister.dfy`, `VaultSafety.dfy` | the write-once register; the vault over register and protocol |
| `SealedEntries.dfy`, `VaultCommands.dfy` | sealing one entry; the vault commands and the plaintext map they refine |
| `VaultLaws.dfy`, `NonceUse.dfy` | what commands write and what reads return, over runs; which keys and nonces are used |
| `CommandsAreEdits.dfy`, `EndToEnd.dfy` | saved commands as edits that reach every device; sign in, save and sync together |
| `RefreshTokens.dfy`, `AuthSession.dfy` | the token table; the clients' sessions against it |
| `Wire.dfy`, `ServerStore.dfy`, `LocalStore.dfy`, `SyncService.dfy`, `Secrets.dfy`, `AuthService.dfy` | wire conversions, repositories and use cases as mutable objects |
| `CodeFollowsProtocol.dfy`, `VaultFollowsProtocol.dfy` | every outcome of the sync call and of the vault commands as a path of the state machines |
| `SerialRuns.dfy` | serial use as runs of the protocol |

The repositories and use cases are classes whose methods loop and assign as the program does. Each
method's contract equates the new state with a function of the old one. What that function
guarantees is then stated as lemmas and as invariants of the state machines.

## Assumptions

- One command at a time per device: no local edit falls between reading the dirty rows and merging.
- A new entry's uuid (UUIDv7, section 5.7 of RFC 9562) is new to all accounts. The local primary key
  is the uuid alone.
- Versions are unbounded integers and timestamps are exact.
- Argon2id (RFC 9106) is a function of password and salt; SHA-256 is injective on keys and on
  refresh tokens; AES-GCM (sections 7.1 and 7.2 of NIST SP 800-38D) opens only under the sealing key.
  These are built into symbolic constructors in `Crypto.dfy` and `RefreshTokens.dfy`.
- Marshalled metadata parses back to itself.
- Each SQL statement is atomic, and so is each transaction. Random values, the fate of each remote
  call and the time each machine reads are parameters; no two clocks need agree, and none need be
  monotone, except that serial use stamps an edit later than the stamps it could be compared with.

## Where code and documentation disagree

The model follows the code.

- `docs/PROJECT.md` and comments in `secret.go` and `models.go` speak of last-write-wins. The upsert
  keeps the first arrival among equal versions (`ServerTable.EqualVersionsDependOnOrder`).
- The comment on the server's `PutVaultCrypto` use case says it stores or replaces. It never replaces
  (`VaultRegister.RegisterIsWriteOnce`).
- `docs/PROJECT.md` places the version rule in `internal/skeeper/usecase`. It is in the upsert
  statement of the Postgres repository.

Six properties one might expect are false of the code. Each has a lemma with a failing input or run
and a lemma with the exact condition:

- A round need not make device and server equal: `Convergence.LateStampIsMissed`, in a state that
  `CodeFollowsProtocol.LateStampIsReached` reaches, and exactly when it does,
  `Convergence.RoundMirrorsIff`; for two rounds over all devices,
  `Convergence.TwoToursMakeReplicasEqual`.
- The order of uploads can matter: `ServerTable.EqualVersionsDependOnOrder`, and exactly when it does
  not, `ServerTable.BatchOrderIrrelevantIff`.
- A failed command may have changed rows: `VaultCommands.FailedInsertionKeepsItsEntry`, and exactly
  when, told before the call, `VaultCommands.FailureLeavesRowsIff`.
- A saved entry need not stay readable: `VaultSafety.LosingPublisherIsStranded`, and exactly when it
  is, in every later state, `VaultSafety.SavedIsReadableIff` and `VaultSafety.PublishDecides`.
- A session need not stay usable until its refresh expires: `AuthSession.SecondSignInEndsFirst`, and
  exactly when a token is refused, `AuthSession.ValidTokenInEveryRun`.
- A vault need not have one key: `VaultCommands.LostRaceStrandsEntry`, and exactly as long as it has,
  `VaultCommands.OneKeyPerVault`.

## Model

| member | source | states |
|---|---|---|
| SyncTheorems.PersistNeverLowers | internal/client/repository/db/sqlite.go:76-107 | In every run of many devices, with interleaved pushes, late requests and lost replies, PersistSyncResult keeps every row and its account, never lowers its version, and changes a clean row only to a strictly higher version, although saveEntry has no guard. |
| SyncTheorems.CleanRowsAreBacked | internal/client/usecase/sync.go:57-91 | In every reachable state a clean row at version v implies the server holds v or more for it, and the same entry if the versions are equal. |
| SyncTheorems.NoEditVanishes | internal/client/usecase/sync.go:57-91 | For every change a device ever saves, in every later state its row is still dirty at that version or above, or the server has reached that version, wherever a sync failed. |
| SyncTheorems.EditIsAccountedFor | internal/client/usecase/sync.go:57-91 | For every change a device ever saves, in every later state of every run exactly that entry is still dirty on its device, or the server has stored exactly that entry since, or its own device has saved the next change of it since, or a request carrying it has met a stored version at or above its own since. |
| SyncTheorems.DirtyClearedOnlyWhenSafe | internal/client/repository/db/sqlite.go:89-105 | A sync clears a dirty flag only if the server accepted exactly that row while merging this very request, or the row was replaced by one this request was answered with, of its version or above. Every other dirty row keeps its content and stays dirty. |
| SyncTheorems.MergeHappened | internal/skeeper/usecase/usecase.go:46-58 | A request past merging was merged at one earlier step, and its applied list is what the upsert returned there. |
| SyncTheorems.ServerOnlyGrows | internal/skeeper/repository/postgres/postgres.go:49-62 | Over any part of any run the server drops no row and replaces one only by a strictly higher version. |
| SyncTheorems.OtherAccountsUntouched | internal/client/repository/db/sqlite.go:97-105 | While no step works for an account, its rows stay exactly as they are on the server and on every device, over whole runs with account switching. |
| SyncTheorems.StepSparesOthers | internal/skeeper/repository/postgres/postgres.go:52-60 | One step of any kind leaves every other account's rows unchanged on the server and on all devices. |
| SyncProtocol.StepKeepsInv | internal/skeeper/usecase/usecase.go:36-65 | Every step keeps the global invariant tying clean rows, dirty rows, requests in flight and the server together. |
| SyncProtocol.RunKeepsInv | internal/client/usecase/sync.go:57-91 | The invariant holds in every state of every run from empty stores. |
| SyncProtocol.AnswerNotBelow | internal/skeeper/usecase/usecase.go:46-58 | What the server reads after merging is nowhere below what the waiting device holds. |
| SyncProtocol.KeptAt | internal/client/repository/db/sqlite.go:89-105 | Row by row, what a merge leaves: raised or kept, owned by the same account, backed by the server if clean, unchanged if still dirty or another account's. |
| ServerTable.UpsertExact | internal/skeeper/repository/postgres/postgres.go:49-95 | A batch of distinct uuids never aborts; the applied list holds, once each, exactly the ids absent or strictly older; those rows become what was sent and all others stay. |
| ServerTable.UpsertGrows | internal/skeeper/repository/postgres/postgres.go:52-60 | Whatever the batch, stored rows move only to strictly higher versions. |
| ServerTable.UpsertCovers | internal/skeeper/repository/postgres/postgres.go:52-60 | Whatever the batch, a completed upsert leaves each sent id stored at its sent version or above. |
| ServerTable.UpsertKeepsOtherUsers | internal/skeeper/repository/postgres/postgres.go:52-60 | Whatever the batch, rows of other users are untouched. |
| ServerTable.ReplayIsIdle | internal/skeeper/repository/postgres/postgres.go:49-62 | Replaying any completed batch at once applies nothing and leaves the table unchanged. |
| ServerTable.ServerKeepsEarliestMaximum | internal/skeeper/repository/postgres/postgres.go:49-62 | After any series of upsert calls the row of a key is the earliest arrival among the entries of maximum version sent for it, and is present exactly if one was sent. |
| ServerTable.BatchOrderIrrelevantIff | internal/skeeper/repository/postgres/postgres.go:49-62 | Neither the order of batches nor the split into batches changes the final table, if and only if the entries of maximum version sent for a key are all the same entry. |
| ServerTable.OrderIrrelevantIff | internal/skeeper/repository/postgres/postgres.go:52-60 | Every reordering of single arrivals leaves the same table, under exactly that condition. |
| ServerTable.EqualVersionsDependOnOrder | internal/skeeper/repository/postgres/postgres.go:60 | Two different entries of one version leave different tables in the two orders of arrival. |
| SyncRound.UpsertIsPush | internal/skeeper/usecase/usecase.go:45-52 | Whatever order the dirty rows are read in, the upsert yields the table defined independently, key by key, by which dirty rows win. |
| SyncRound.PersistIsPull | internal/client/repository/db/sqlite.go:89-105 | Whatever the orders of dirty rows and answer, the merge yields the rows defined independently, id by id. |
| LocalRows.PersistAt | internal/client/repository/db/sqlite.go:76-107 | The merge row by row: updates replace and are clean; applied dirty rows of the account lose their flag; everything else stays. |
| Convergence.RoundMirrorsIff | internal/client/repository/db/sqlite.go:265-280 | An uninterrupted round leaves device and server equal and clean if and only if each server row stamped at or before the cursor is already held, or is superseded by the device's dirty row. |
| Convergence.PullIsComplete | internal/client/repository/db/sqlite.go:76-107 | With a cursor below every stamp on the server, an uninterrupted round ends with the account's rows exactly the server's, all clean. |
| Convergence.TwoToursMakeReplicasEqual | internal/skeeper/usecase/usecase.go:46-64 | Two rounds over all devices with no edits, the first with any cursors: after the second every device equals the server if and only if each one's last visit missed nothing, and then all devices are equal. |
| Convergence.TourSettles | internal/client/usecase/sync.go:57-91 | After a round over any devices with any cursors, no visited device has a dirty row the server has not reached, and every clean row is backed. |
| Convergence.MirrorMissesNothing | internal/client/repository/db/sqlite.go:265-280 | A device that equals the server stays equal through its next sync, whatever its cursor. |
| Convergence.LateStampIsMissed | internal/client/repository/db/sqlite.go:265-280 | For a device whose latest row is stamped in the second that begins at its cursor, a round delivers an entry that reached the server late exactly if it is stamped after the cursor; if it is stamped at or before the beginning of that second the round changes nothing, so no later one delivers it either. |
| Convergence.AccountStepsAreLocal | internal/client/repository/db/sqlite.go:109-116 | A round of one account is a round of that account's part of server and device, and leaves the other accounts' parts unchanged. |
| SerialUse.SerialUseConverges | internal/client/repository/db/sqlite.go:265-280 | If editing sessions begin and end with a completed sync, do not overlap, and stamp edits later than the server's stamps and than what the device's own abandoned requests carry, then in every run from empty stores, with syncs given up anywhere and their requests served at once, later, in any order or never, right after every completed sync of any device it holds exactly the server's entries. All are clean exactly if the cursor hid no row the device had pushed before, and so if it never gave up on a sync. |
| SerialUse.StepConverges | internal/client/usecase/sync.go:57-91 | Each action of serial use, a late merge included, keeps the invariant of one leading device, trailing others and requests in order; each completed sync ends in agreement. |
| SerialRuns.ActionIsAWalk | internal/client/usecase/sync.go:57-91 | In any world, with other accounts on the same devices, each action of serial use is a walk of the protocol whose end shows the fleet, and carries the unserved requests, that the action leaves. |
| SerialRuns.SerialRunIsAWalk | internal/client/usecase/sync.go:57-91 | Every state of every run of serial use is shown by a state the protocol reaches from empty stores. |
| VaultRegister.PutIsLinearizable | internal/skeeper/repository/postgres/postgres.go:148-189 | For any interleaving of the three statements by any number of callers, with failures, lost replies and INSERTs that land after their caller gave up, there is a legal history of the atomic write-once register that yields the stored rows. Each answered call is in it with its answer, after its invocation, at a position of its own, and every put in it is that of a call with that user and pair, begun by then. |
| VaultRegister.HistoryFollowsRealTime | internal/skeeper/repository/postgres/postgres.go:148-189 | A call that answered before another began precedes it in that history. |
| VaultRegister.RegisterIsWriteOnce | internal/skeeper/repository/postgres/postgres.go:159-171 | A user's stored pair never changes once set. |
| VaultRegister.SuccessesAgree | internal/skeeper/repository/postgres/postgres.go:178-188 | Success means the stored pair is the caller's, then and ever after; two successes for a user carry the same pair. |
| VaultRegister.ReselectFindsTheRow | internal/skeeper/repository/postgres/postgres.go:171-177 | The second SELECT always finds the row that made the INSERT do nothing. |
| VaultSafety.AcknowledgedStaysDecryptable | internal/client/usecase/secret.go:240-289 | Once an insertion returned success, in every later state the register is unchanged, the insertion's password passes its check, and every copy of the entry on devices, server and network opens under that key, across updates, deletes, syncs, crashes and racing initialisation. |
| VaultSafety.AcknowledgedIsReadable | internal/client/usecase/secret.go:462-491 | Any device holding the acknowledged entry that then fetches the vault reads it with that password. |
| VaultSafety.SavedIsReadableIff | internal/client/usecase/secret.go:240-271 | For every insertion that saved its entry, whether it published, crashed, lost its reply or lost a race, in every later state its device holds the entry, and any copy on devices, server or network opens under a password the register's check accepts if and only if the register has this insertion's own pair. |
| VaultSafety.PublishDecides | internal/client/usecase/secret.go:320-328 | Publishing decides for good: in every later state every copy is readable if and only if the pair had the right sizes and no other pair was registered before, whether or not the reply arrived; the insertion is acknowledged exactly if, besides, it did. |
| VaultSafety.EditsKeepTheKey | internal/client/usecase/secret.go:340-370 | Whatever key a change is made with, if it succeeds the entry still opens under the key that sealed it. |
| VaultSafety.LosingPublisherIsStranded | internal/client/usecase/secret.go:267-270 | The loser of a race keeps its entry, is never acknowledged, and in every later state no password the register's check accepts opens any copy. |
| VaultSafety.StepKeepsVaultInv | internal/client/usecase/secret.go:140-149 | Every step of commands, server and network, and a put that arrives after its device gave up on it, keeps the invariant on acknowledged, pending and fetched vaults. |
| VaultSafety.UpdateUsesRegisterKey | internal/client/usecase/secret.go:340-370 | A change of an acknowledged entry is sealed under the register's key, because the check leaves no other. |
| VaultSafety.StepPassesCopiesOn | internal/client/usecase/sync.go:57-91 | The protocol only passes copies on: a property of all copies of an entry survives any step that does not save a copy violating it. |
| SealedEntries.SealThenOpen | internal/client/usecase/secret.go:172-200 | A sealed entry opens under the sealing key to exactly what was sealed, and under no other key; it is the next version of the same entry, stamped with the time of sealing. |
| SealedEntries.ChangesKeepTheKey | internal/client/usecase/secret.go:422-459 | Every change succeeds or fails by its type and size rules, bumps the version by one, sets the stamp to its time, and what it saves opens under the same key: a content change to the given payload and metadata; a file change to the given name and notes, the given tags if there are any and else the stored ones, and payload and file name of the new bytes if there are any and else the stored ones; a deletion to what was there. |
| SealedEntries.OtherKeyChangesNothing | internal/client/usecase/secret.go:365-369 | Under another master key every change that needs the data key, and every read, fails with an authentication error. |
| VaultCommands.VaultRefinesPlaintextMap | internal/client/usecase/secret.go:240-289 | In every run of a device, with or without a remote, with fetches and puts failing, replies lost, other devices registering for the account before or during any command, any passwords and account switching, each command replies as the plaintext map would, and the account's rows decrypt to the map, at version one plus the successful changes. |
| VaultCommands.AddRefines | internal/client/usecase/secret.go:240-271 | An insertion does to the vault what the plain insertion does to the map: the same reply for failed fetches, wrong passwords, refused sizes, unserved and unanswered puts and lost races, and the same master afterwards. |
| VaultCommands.OneKeyPerVault | internal/client/usecase/secret.go:151-160 | In every state of every run each entry of the account opens under the one key that passes the check in force, if and only if no other device's pair took the place of the one this device had sealed entries under; the step that does so is told from the state before it. |
| VaultCommands.LostRaceStrandsEntry | internal/client/usecase/secret.go:320-328 | A run in which one key fails: a first insertion whose put loses to another device's leaves an entry that no accepted password opens. |
| VaultCommands.WrongPasswordChangesNothing | internal/client/usecase/secret.go:151-160 | A command whose password does not pass the check in force fails and changes no row, whatever the network does. |
| VaultCommands.FailureLeavesRowsIff | internal/client/usecase/secret.go:240-271 | A command fails and still changes rows if and only if it is an insertion that reaches the remote and passes the check, and its put is unserved, unanswered, of wrong sizes, or beaten by another pair that the server has just taken. |
| VaultCommands.FailedInsertionKeepsItsEntry | internal/client/usecase/secret.go:264-270 | Such an input: a first insertion whose put does not reach the server fails and leaves its entry. |
| VaultCommands.ChangeRefines | internal/client/usecase/secret.go:373-399 | Replacing, file changes and deletion commute with decryption, errors included, also of entries sealed under an overtaken key. |
| VaultCommands.ReadRefines | internal/client/usecase/secret.go:494-521 | Reading gives exactly the payload, type, name, notes and tags the plaintext map holds, and its file name, or "file" for a file without one; listing gives the map's live ids; errors included. |
| VaultCommands.OthersSpareVault | internal/client/usecase/secret.go:107-121 | Another account's command on the device leaves this account's rows, salt and verifier unchanged. |
| VaultLaws.CommandWrites | internal/client/usecase/secret.go:240-271 | Whatever its outcome, a command writes no row, or exactly one: that of the account in session, dirty, at version 1 or one version up, stamped with the time of the command. A successful insertion or change does write it; without a session nothing happens. |
| VaultLaws.ChangeIsExact | internal/client/usecase/secret.go:340-399 | A failed change leaves every row. A successful one finds a live row of the account and changes only it, its contents as asked under every key that opens it. |
| VaultLaws.AddThenGet | internal/client/usecase/secret.go:494-521 | In every run, right after a successful insertion a read with its password returns exactly the plaintext, type and metadata inserted. |
| VaultLaws.ChangeThenGet | internal/client/usecase/secret.go:422-459 | In every run a successful change decides the next read with its password: the new content; or, for a file, given name and notes, given or stored tags, new or stored bytes and file name; or that the entry is deleted. |
| VaultLaws.ReadsRepeat | internal/client/usecase/secret.go:462-491 | In every run what a password has read of an entry it reads again in every later state, until a change of that entry or until another device's pair overtakes the vault. |
| VaultLaws.OtherPasswordIsRefused | internal/client/usecase/secret.go:151-160 | Once an insertion has succeeded, every command with any other password is refused as wrong in every later state of the run, as far as it comes to the check, and changes no row. |
| NonceUse.NoncesAreUsedOnce | internal/client/pkg/crypto/crypto.go:36-54 | In every run whose random draws differ where they can meet, two ciphertexts stored at any two times under the same key and with the same nonce are the same ciphertext, metadata-only changes under an old data key included. |
| NonceUse.CommandSeals | internal/client/usecase/secret.go:172-238 | Of the rows a command leaves only its own has new ciphertexts, sealed under the key and the three nonces drawn in that call, or with its metadata alone resealed under the entry's own key and the drawn nonce. |
| CommandsAreEdits.CommandIsEdit | internal/client/usecase/secret.go:240-289 | A command that saves, run later than the server's stamps and the device's own abandoned requests, is an enabled edit of serial use, stamped with the time of the command. |
| CommandsAreEdits.CommandReachesDevice | internal/client/usecase/sync.go:57-91 | In every run of serial use, once the command's device has completed a sync after it, every device that completes a sync after that holds the entry the command saved, or a later version of it. |
| CommandsAreEdits.CommandIsDeliveredIff | internal/skeeper/repository/postgres/postgres.go:98-130 | However devices are used, once a saved command is pushed, an uninterrupted round of a device with nothing to push brings it that entry if and only if the device's cursor is before the time of the command. |
| EndToEnd.SignInSaveSync | internal/client/usecase/sync.go:57-91 | After an accepted sign-in of an account and a successful insertion, the sync sends the inserted entry for that account; if the request is served the server ends with it under the account, or with a later version another device pushed in between. |
| EndToEnd.DirtyRowIsSent | internal/client/usecase/sync.go:64-77 | Every outcome of an account's sync is one whose batch holds each of its dirty rows. |
| RefreshTokens.TableStaysTidy | internal/auther/repository/postgres/postgres.go:52-151 | In every serial run each user has at most one row, hashes are unique, and no committed row is marked used. |
| RefreshTokens.EachTokenExchangedOnce | internal/auther/repository/postgres/postgres.go:81-151 | With fresh mints a token exchanged successfully fails at every later exchange of the run, with the table unchanged. |
| RefreshTokens.OlderTokensAreDead | internal/auther/repository/postgres/postgres.go:97-105 | With fresh mints a token older than the newest issued to its user always fails and leaves the table unchanged. |
| RefreshTokens.RotateEffect | internal/auther/repository/postgres/postgres.go:81-151 | The exact outcomes of an exchange: unknown, expired and revoking, failed with rollback, or success leaving the user with exactly the new token; no other user is affected. |
| RefreshTokens.ReplaceEffect | internal/auther/repository/postgres/postgres.go:52-78 | A login leaves the user with exactly the new token, or rolls back; no other user is affected. |
| AuthSession.SessionsStayInStep | internal/client/usecase/auth.go:56-123 | In every run, with any devices, lost calls and clocks, a stored session names its own token's user and each user has at most one refresh token; and when only one device has worked for the account and kept what it was issued, its session holds the single live token unless its refresh has expired at a time auther has read. |
| AuthSession.SecondSignInEndsFirst | internal/client/usecase/auth.go:56-80 | Signing in on a second device leaves the first one's session without a live token. |
| AuthSession.ValidTokenInEveryRun | internal/client/usecase/auth.go:83-123 | In every run GetValidToken fails if and only if there is no session, or the token is within 60 seconds of expiry and: the refresh has expired on the client's clock or on auther's, or is not the user's live token, or minting fails, or the call or the save is lost; the session is then as before, and each cause has its own error. Otherwise it returns the stored token, over a minute from expiry, or one minted and saved in that call. |
| AuthSession.StepKeepsInv | internal/auther/usecase/usecase.go:87-114 | Logins, renewals and logouts of any device, whatever becomes of their calls, leave each session's token its user's only one or gone. |
| Wire.DecodeAll | internal/skeeper/pkg/models/models.go:69-90 | A list decodes entry for entry and field for field, a missing timestamp to January 1 of year 1, or fails exactly when one uuid does not parse. |
| Wire.EncodeAll | internal/client/repository/skeeper/client.go:53-56 | The encoded list stands for the same entries, every field preserved, with every timestamp present. |
| Wire.DecodeIds | internal/client/repository/skeeper/client.go:75-83 | Applied ids decode one for one, or fail exactly when one does not parse. |
| Wire.DecodingIsFunctional | internal/client/repository/skeeper/client.go:101-120 | A wire list decodes to at most one list of entries. |
| ServerStore.Repository.FillColumns | internal/skeeper/repository/postgres/postgres.go:29-67 | The parallel column arrays, unnested, are exactly the user's entries in order. |
| ServerStore.Repository.ExecUpsert | internal/skeeper/repository/postgres/postgres.go:49-62 | The statement over the unnested rows performs the specified upsert, or changes nothing when a row would be affected twice. |
| ServerStore.Repository.UpsertEntries | internal/skeeper/repository/postgres/postgres.go:24-96 | Filling the columns and running the statement is the specified upsert of the entries. |
| ServerStore.Repository.GetUpdatedAfter | internal/skeeper/repository/postgres/postgres.go:98-130 | Exactly the account's rows stamped after the cursor, each once, oldest first. |
| ServerStore.Repository.PutVaultCrypto | internal/skeeper/repository/postgres/postgres.go:148-189 | With other connections' rows landing between SELECT and INSERT, the call is one atomic put on the register they leave; a salt not of 16 bytes or a verifier not of 32 is refused and changes nothing. |
| LocalStore.Repository.SaveEntry | internal/client/repository/db/sqlite.go:35-73 | The row is inserted or replaced unconditionally; without an account it is refused and nothing changes. |
| LocalStore.Repository.PersistSyncResult | internal/client/repository/db/sqlite.go:76-107 | The two loops perform the specified merge in one transaction; without a commit nothing changes. |
| LocalStore.Repository.GetDirtyEntries | internal/client/repository/db/sqlite.go:109-147 | Exactly the account's dirty rows, each once. |
| LocalStore.Repository.GetLastUpdate | internal/client/repository/db/sqlite.go:265-280 | Zero without rows, else the whole second that begins at or before the latest stamp and ends after every stamp of the account's rows. |
| LocalStore.Repository.GetEntry | internal/client/repository/db/sqlite.go:154-183 | The row under the uuid, if it is visible to the account. |
| LocalStore.Repository.ListEntries | internal/client/repository/db/sqlite.go:227-263 | Exactly the visible rows that are not deleted, each once, latest first. |
| LocalStore.Repository.EnsureLocalVaultCrypto | internal/client/repository/db/sqlite.go:188-206 | The stored salt and verifier, or a new salt stored without verifier. |
| LocalStore.Repository.SetLocalMasterVerifier | internal/client/repository/db/sqlite.go:222-225 | Sets the verifier of an existing row and otherwise changes nothing. |
| SyncService.ServerUseCase.Sync | internal/skeeper/usecase/usecase.go:36-65 | Upserts, lets other pushes land, then reads: the table and answer are those of that order; unauthenticated or aborted requests change nothing. |
| SyncService.ServerUseCase.Handle | internal/skeeper/delivery/delivery.go:35-56 | One bad uuid rejects the whole request before any row changes; otherwise the decoded batch is merged and the answer encoded. |
| SyncService.SkeeperClient.Sync | internal/client/repository/skeeper/client.go:52-86 | Through both conversions the server merges exactly the entries sent, and what comes back is exactly what it applied and read. |
| SyncService.SyncUseCase.Sync | internal/client/usecase/sync.go:57-91 | Without a session nothing happens; a failure anywhere leaves the device's rows unchanged; success is a push, the server's answer to the cursor, and the merge. |
| SyncService.UninterruptedSyncIsRound | internal/client/usecase/sync.go:57-91 | When no other push falls between, a completed call has exactly the effect of one round on server and device. |
| SyncService.UninterruptedOutcome | internal/client/usecase/sync.go:57-91 | An uninterrupted call leaves the whole round, its push alone when the reply is lost or the merge is not committed, or nothing when it is not served. |
| Secrets.EntrySeal.Seal | internal/client/usecase/secret.go:172-200 | The assignments to the entry are the specified sealing: the next version of the entry, stamped with the time of the call, which opens under the master key to exactly what was given. |
| Secrets.EntrySeal.SealMetaOnly | internal/client/usecase/secret.go:224-238 | Only metadata, version and stamp change: the next version, stamped with the time of the call, with the given metadata under the same data key. |
| Secrets.EntrySeal.UpdateFile | internal/client/usecase/secret.go:422-459 | The assignments to metadata and entry are the specified file change, with the same errors in the same order; an error leaves the entry as it was. |
| Secrets.UseCase.MaterializeVaultCrypto | internal/client/usecase/secret.go:123-149 | The remote's pair wins over the local one, which wins over a new salt; an unreachable remote fails and changes nothing. |
| Secrets.UseCase.PublishVaultCrypto | internal/client/usecase/secret.go:162-168 | Publishing is one atomic put on the register that racing devices leave, skipped without a remote. |
| Secrets.UseCase.FinalizeVaultVerifier | internal/client/usecase/secret.go:320-328 | The verifier is stored locally when there was none, and then published. |
| Secrets.UseCase.InsertEncryptedEntry | internal/client/usecase/secret.go:240-271 | The statements carry out the insertion command on rows, salt, verifier and register, with its reply. Without a session, or with one that names no user, it is refused and nothing changes; otherwise at most one row is written, and on success it is: that of the session's user, dirty, at version 1, stamped with the time of the call. |
| Secrets.UseCase.SetFile | internal/client/usecase/secret.go:302-309 | Over the size limit nothing changes; otherwise it is the insertion of an entry of type FILE with the given metadata under the file's name. |
| Secrets.UseCase.UpdateEntryReplaceContent | internal/client/usecase/secret.go:273-289 | The statements carry out the content change, with the same errors in the same order. Refused without a user; on success exactly one live row of the session's user is replaced by its next version, dirty, stamped with the time of the call, opening to the given payload and metadata under every key that opened it; on failure no row changes. |
| Secrets.UseCase.UpdateFile | internal/client/usecase/secret.go:422-459 | The statements carry out the file change, with or without new bytes. On success exactly one live row of the session's user is replaced by its next version, stamped with the time of the call, with the given name and notes, the given tags or else the stored ones, and the new bytes and file name or else the stored ones; on failure no row changes. |
| Secrets.UseCase.DeleteEntry | internal/client/usecase/secret.go:373-399 | The statements carry out the soft deletion: on success exactly one live row of the session's user becomes its next version, deleted, dirty, stamped with the time of the call, its contents kept; on failure no row changes. |
| Secrets.UseCase.GetDecryptedEntry | internal/client/usecase/secret.go:494-521 | The statements carry out the read. Refused without a user; a reply is a live row of the session's user, opened under the password's key: its payload, type, name, notes and tags, and its file name, or "file" for a file without one. |
| Secrets.UseCase.ListLocal | internal/client/usecase/secret.go:331-337 | Exactly the rows of the session's user that are not deleted, each once, latest first; refused without a user. |
| AuthService.TokenRepository.ReplaceUserRefreshTokens | internal/auther/repository/postgres/postgres.go:52-78 | The transaction's statements perform the specified replacement, or roll back. |
| AuthService.TokenRepository.RotateRefreshToken | internal/auther/repository/postgres/postgres.go:81-151 | The transaction's statements perform the specified rotation, committing or rolling back on the same branches. |
| AuthService.AuthUseCase.Login | internal/client/usecase/auth.go:56-80 | A login that succeeds stores the session of exactly what was minted for the account whose password matched; one that fails leaves the stored session, and before auther has accepted it leaves the token table too. |
| AuthService.AuthUseCase.GetValidToken | internal/client/usecase/auth.go:83-123 | The statements perform the specified use, refusal or renewal on session and token table. |
| AuthService.AuthUseCase.Logout | internal/client/usecase/auth.go:126-129 | The session is cleared and the token table is untouched. |
| CodeFollowsProtocol.SyncConvergesIff | internal/client/usecase/sync.go:57-91 | In every reachable state of every run, a sync call that no other push interrupts makes the account's rows on the device equal to the server's, all clean, if and only if nothing the device lacks is stamped at or before its cursor. |
| CodeFollowsProtocol.ReachableStatesAreBacked | internal/client/repository/db/sqlite.go:41-58 | Every reachable state meets the hypotheses of the convergence results: clean rows backed by the server, uuids not shared between accounts. |
| CodeFollowsProtocol.SyncIsAWalk | internal/client/usecase/sync.go:57-91 | Every outcome of the sync call, completed, not served, unanswered or not committed, with anything other devices and the server do between the server's two statements, requests begun meanwhile included, is a walk of the protocol that leaves the same server and device. |
| CodeFollowsProtocol.UnmergedSyncIsAWalk | internal/client/usecase/sync.go:72-91 | A call that is answered but whose merge is not committed is the walk that gives up after the answer; it leaves the device as it was and the server merged. |
| CodeFollowsProtocol.SyncContinuesRun | internal/client/usecase/sync.go:57-91 | Any run of the protocol that comes to an idle device can be continued through its sync call, whatever the outcome and whatever others do meanwhile. |
| CodeFollowsProtocol.LateStampIsReached | internal/client/repository/db/sqlite.go:265-280 | For any two stamps a run from empty stores reaches the state of the late stamp, where an uninterrupted sync leaves out the late entry exactly if its cursor is at or past the entry's stamp; with the cursor GetLastUpdate gives, exactly if the entry is stamped at or before the beginning of the second of the device's own latest row. |
| VaultFollowsProtocol.CommandIsAPath | internal/client/usecase/secret.go:240-289 | Every vault command with any outcome, failed fetches, wrong passwords, refused changes, unserved and unanswered puts and lost races included, with anything other devices, the server and the network do between fetch and put, is a path of the vault machine that leaves the same rows, salt, verifier and registered pair, and acknowledges exactly an insertion that replied success. |
| VaultFollowsProtocol.CommandContinuesRun | internal/client/usecase/secret.go:240-289 | Any run of the vault machine that comes to a device at rest can be continued through its command, whatever the outcome. |

## Left out

- gRPC transport, TLS, interceptors, logging, configuration, CLI and generated code: a remote call is a step whose request or reply may be lost.
- SQL engines and drivers: each statement is modelled by its meaning; a failing query without effect is a step that does not happen.
- Column constraints other than keys and the NOT NULL account: a type over 50 characters or a NULL ciphertext column is not rejected here.
- Timestamps as stored text and their precision: stamps are exact integers, and the cursor is the latest one cut to the second. Where SQLite's `unixepoch` cannot read the stored text the cursor is 0, and the late entry of CodeFollowsProtocol.LateStampIsReached is delivered; the exact conditions hold of any cursor.
- Real cryptography, random generation failures and byte layouts: symbolic, as listed under Assumptions.
- ServerStore.Repository.FillColumns: the nine column slices are sequence variables updated by index; they are local to the call, so only their allocation on the heap is not captured.
- ServerStore.Repository.PutVaultCrypto: the object version takes other connections' rows as one argument; arbitrary interleavings are in VaultRegister.
- VaultSafety.AcknowledgedStaysDecryptable: publishing is one atomic step, which VaultRegister justifies.
- VaultCommands.VaultRefinesPlaintextMap: runs of one device's commands; syncs in between and crashes in the middle of a command are in VaultSafety, without the plaintext.
- NonceUse.NoncesAreUsedOnce: the ciphertexts one device writes; that different devices draw different values is not part of it.
- SerialUse.SerialUseConverges: clocks are used only through the hypothesis that an edit is stamped later than what the server holds or the device's own unserved requests carry.
- AuthSession.SessionsStayInStep: user ids above 2^53, which the JWT number format rounds, are not modelled.
- RefreshTokens.TableStaysTidy: logins and exchanges are serial; concurrent logins under weaker isolation are not modelled.
- Password checking at login, registration and email rules: the matched account is an argument.
- singleflight in auther: a coalesced exchange counts as one exchange.
- sanitizeOriginalFilename and card encoding: the stored file name and the payload bytes are arguments.
- InsertRefreshToken, MarkAsSynced and TokenUseCase: not reached by the programs.
- The session's encryption at rest: the stored session is its plaintext.
