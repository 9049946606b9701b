# Sypherstore, modelled and proved in Dafny

Sypherstore keeps secrets in a local database that only two hardware factors open: an outer key held by
the machine, and an inner key that each enrolled authenticator holds a wrapped copy of. This project
models the parts of it that have to be right for that to mean anything, and proves what they promise.

The model has four connected clusters.

**The vault** (`Symbolic`, `Keys`, `Envelope`, `Model`, `Db`, `Sessions`, `VaultRuns`, `VaultSafety`,
`TimedSafety`, `Moving`, `MovedBlobs`). Bytes are symbolic: a byte is a known value or one byte of a term (a derived
key, a ciphertext, a document), so lengths, slices and concatenations are those of the program while two
ciphertexts are equal only when key, nonce, associated data and message are. Derivation is HKDF as in
sections 2.2 and 2.3 of RFC 5869, encryption the construction of section 2.8 of RFC 8439 with an extended
nonce. Each operation of a session is a function on its state, and a method of the class `Session` over
the class `Vault` is proved to compute it. A whole run (initialise, then any sequence of operations and
restarts) is proved to refine an ideal vault: a plain map of secrets, a list of enrolled credentials and
a deadline, with no cryptography in it. Everything else about runs is read off the ideal vault.

**Codecs and archives** (`Base32`, `Recovery`, `Calendar`, `Stamps`, `Backup`). The recovery key's base32
(the grouping of section 6 of RFC 4648 with Crockford's alphabet), its forgiving parser, the calendar
conversion, the timestamps it feeds, and the listing and pruning of archives that rely on them.

**Search** (`Domain`, `StableSort`, `Fuzzy`, `Editors`). The URL authority parser (section 3.2 of RFC
3986), the label-boundary match of domains, the filter-then-sort of the popup, and the form that stores
what is searched.

**The daemon** (`Messages`, `Popups`, `SharedState`, `Protocol`, `ProtocolSafety`, `AwaitedPins`,
`PinOrigins`, `DaemonRuns`, `DaemonVault`, `DaemonTime`, `Gestures`, `Journeys`). The popup is a class whose
methods are proved against a step function. The daemon is a state machine whose actions are the steps of the
popup, of the worker at each of its await points and mutex acquisitions, and of any number of blocking unlock
threads, over two queues, a PIN channel, a mutex and a flag. A run is any sequence of enabled actions. A log
records what happened; no step depends on it, and `HistoryIsTrue` ties each entry to the change of state that it
stands for. What is typed into the focused window is recorded too. The session in the middle is the vault's own, so every run of the daemon is also a run of the vault. `DaemonRuns`
has runs in which what the theorems speak of happens, `Gestures` what each key and click asks for, and
`Journeys` what the daemon then delivers.

Clocks, random draws, providers, query order, hashing, lowercasing, the fuzzy scorer and the registrable
domain are arguments, and every theorem holds for all of them. Running `dafny verify dfyconfig.toml` in
this directory checks everything.

## What the code does differently from what is said of it

- `vault/backup.rs` says that archive names never collide. They collide exactly when two archives are made
  in the same second (`Stamps.NamesCollideExactly`), and the second archive then replaces the first.
- Archive names are said to sort chronologically. They do exactly until the year 10000
  (`Stamps.SortableExactlyBefore10000`).
- A retention of 0 is accepted, and then a backup deletes the archive it has just made; so does a backup
  made after the clock went back (`Backup.FreshArchiveSurvives` gives the exact condition).
- `normalize_host` is not idempotent: one `www.` is dropped, not two (`Domain.SecondWwwStays`).
  `Domain.NormalisingTwice` says exactly when a result is a fixed point. The form normalises a stored
  domain again, so saving an unchanged secret can change it (`Editors.SavingAgain`, again exact).
- A page typed without its scheme whose path or query embeds a URL normalises to the embedded host
  (`Domain.EmbeddedUrlWins`). Such a page keeps its own host exactly when the embedded one is the same in some
  spelling, and its host is not named like a hostless scheme before a port (`Domain.SchemelessExactly`);
  `Domain.SchemelessPages` has a page of either kind.
- Seven characters and two bits of a recovery key are padding, and mistyping them is not noticed
  (`Recovery.AcceptsExactly`).
- The hex reader accepts capitals and a plus sign that the writer never produces; it re-encodes to what it
  read exactly without them (`Db.HexTextRoundTrip`).
- The comment on `tick` promises that a missed timer tick cannot extend the window. `touch` does not tick, and
  it renews a key whose deadline has passed: exactly while that key is still in memory
  (`VaultSafety.TouchRevivesExactly`). The daemon gets there from every locked vault
  (`DaemonTime.LateTouchRevives`). The timed theorems count such a touch as a renewal.
- Opening a stored secret in the form and saving it unchanged keeps it exactly under the condition of
  `Editors.EditKeepsExactly`. One that has extra fields, as the stored format allows, loses them.
- The confirmation of a deletion announces that the authenticator's PIN will be asked for. A PIN that is typed
  never reaches an assertion that the worker awaits, which is the case of every deletion and of every edit or
  save after a relock: only the worker forwards answers (`AwaitedPins.AwaitedAssertionsGetNoPin`). A run comes to
  such an assertion with the typed PIN standing among the requests that nobody takes
  (`DaemonRuns.AwaitedPinStands`). So no deletion is ever authorised with a PIN
  (`AwaitedPins.DeletionsNeverTookAPin`); deletions without one do happen (`DaemonRuns.DeletionHappens`).
- `pin.rs` promises that a PIN left over from a cancelled attempt is not taken as the answer to the next one. The
  drain reaches the channel only. A PIN that the worker has not yet taken from the popup's queue when the next
  assertion drains is received by it (`DaemonRuns.StalePinArrives`). A received PIN was sent after the drain of its
  assertion exactly when it did not stand in that queue then (`PinOrigins.OwnPinExactly`).
- `envelope.rs` promises that a blob cannot be moved from one row to another. Payloads cannot. Metadata is opened
  under the id that its row stores beside it, and moves with that id: two rows whose metadata changed places are
  each listed under the other's name and open as themselves (`MovedBlobs.ExchangedMetadataOpens`). What opens in a
  row put together from parts of others is stated exactly (`MovedBlobs.MovedPartsOpenExactly`).
- `fuzzy.rs` promises that everything is shown when nothing matches the host. A secret that is bound to the focused
  application, which is always known together with the host, narrows the list as well
  (`Fuzzy.BrowserSecretHidesTheOther`). With a host that nothing matches, all is shown exactly when none or all
  of what the query keeps is bound to the application (`Fuzzy.ForeignHostShowsAllExactly`).
- The popup is said never to hold metadata across a hide. A list that arrives while it is hidden is kept
  (`DaemonRuns.HiddenPopupKeepsTheList`). A hidden popup holds nothing, throughout a run, exactly when no
  nonempty list reaches one (`DaemonVault.HiddenHoldsNothingExactly`).

## Model

| member | source | states |
|---|---|---|
| Keys.AssertFirstAvailable | crates/sypher-core/src/crypto/keys.rs:217-232 | The loop over credentials returns the first answer, or the last refusal, or that no device was tried. |
| Keys.FirstAnswerIsFirstHeld | crates/sypher-core/src/crypto/keys.rs:207-232 | The credential named is the first one that the authenticator answers for, with its own answer. |
| Keys.FirstAnswerFails | crates/sypher-core/src/crypto/keys.rs:217-232 | An assertion fails exactly when no enrolled credential is held, with the refusal of the last one, or for want of any. |
| Keys.DerivedKeysNeverCollide | crates/sypher-core/src/crypto/keys.rs:112-142 | Two derived keys are equal exactly when root, purpose and secret id are: the concatenated info strings never run into each other, the backup label included. |
| Keys.WrapKeyInjective | crates/sypher-core/src/crypto/keys.rs:110-120 | A wrapping key determines the hmac-secret and the salt it was derived from. |
| Envelope.FillHeader | crates/sypher-core/src/crypto/envelope.rs:97-104 | Filling the 22-byte array field by field gives magic, version, cipher and id in that order. |
| Envelope.HeaderNamesItsId | crates/sypher-core/src/crypto/envelope.rs:97-128 | A blob parses to an id exactly when it is long enough and starts with that id's header. |
| Envelope.OpenSealed | crates/sypher-core/src/crypto/envelope.rs:131-229 | Whatever was sealed opens to the same plaintext under the same id and keys. |
| Envelope.OpensOnlyWhatWasSealed | crates/sypher-core/src/crypto/envelope.rs:187-229 | A blob opens to a plaintext exactly when it is that plaintext sealed for this id under both these keys. |
| Envelope.SealInjective | crates/sypher-core/src/crypto/envelope.rs:131-184 | A sealed blob names its id, both keys, both nonces and its plaintext. |
| Envelope.SealBinds | crates/sypher-core/src/crypto/envelope.rs:187-229 | A sealed blob opens for its own id, inner key and outer key and for nothing else. |
| Envelope.LayersInOrder | crates/sypher-core/src/crypto/envelope.rs:3-18 | The outer key alone peels off the outer layer, and finds a ciphertext of the inner key; no other key opens either layer. |
| Envelope.EveryByteMatters | crates/sypher-core/src/crypto/envelope.rs:107-229 | Whichever byte of a sealed blob is changed, opening reports it, by the error of the field that it belongs to. |
| Envelope.CutOffBlobFails | crates/sypher-core/src/crypto/envelope.rs:107-229 | A blob that was cut off is refused, as too short or by its tag. |
| Envelope.RetargetedBlobFails | crates/sypher-core/src/crypto/envelope.rs:187-229 | Rewriting the id in the header of a blob does not make it open for that id: decryption fails under every pair of keys. |
| MovedBlobs.PayloadOpensInItsRowOnly | crates/sypher-core/src/crypto/envelope.rs:250-261 | A payload blob opens in a row exactly when it was sealed for the id of that row. |
| MovedBlobs.MetaOpensBesideItsId | crates/sypher-core/src/crypto/envelope.rs:331-344 | A metadata blob opens in any row, exactly when the id beside it is the one that it was sealed under, and then describes that row. |
| MovedBlobs.NeitherInTheOthersPlace | crates/sypher-core/src/crypto/envelope.rs:314-344 | Neither kind of blob opens in the place of the other, even when their ids coincide. |
| MovedBlobs.AnyBlobOpensExactly | crates/sypher-core/src/crypto/envelope.rs:251-344 | Whatever bytes stand in a row, they open exactly when they are a document of the kind sealed under both keys for the row's id, or for the id beside them. |
| MovedBlobs.MovedPartsOpenExactly | crates/sypher-core/src/vault/session.rs:406-444 | In an unlocked session, a row put together from parts of stored rows gives its payload exactly when that is its own, and its metadata exactly when the id beside it is the one it was sealed under. |
| MovedBlobs.ExchangedMetadataOpens | crates/sypher-core/src/vault/session.rs:406-444 | The input: two rows whose metadata changed places are each listed under the other's name and open as themselves. |
| Envelope.UnwrapsOnlyWhatWasWrapped | crates/sypher-core/src/crypto/envelope.rs:264-316 | A wrap blob yields an inner key exactly when it wraps that key under this wrapping key. |
| Envelope.WrapBinds | crates/sypher-core/src/crypto/envelope.rs:273-316 | A wrapped key is recovered under its own wrapping key, and any other fails. |
| Envelope.VerificationIsExact | crates/sypher-core/src/crypto/envelope.rs:347-368 | The verification blob accepts the two keys of initialisation and no other pair. |
| Envelope.PayloadOpens | crates/sypher-core/src/crypto/envelope.rs:232-261 | Payloads survive the wire form and both layers, for every payload. |
| Envelope.MetaOpens | crates/sypher-core/src/crypto/envelope.rs:319-344 | Metadata survives sealing under its own random id and comes back with the row's id. |
| Model.TypeRoundTrip | crates/sypher-core/src/model.rs:66-113 | Every secret type is read back from its stored name. |
| Model.UnknownTypeIsOther | crates/sypher-core/src/model.rs:66-113 | A name that is no type's reads as a secret of no particular type. |
| Model.WireFields | crates/sypher-core/src/model.rs:207-240 | Each field stands under its short name; an absent optional field reads as empty, and tags are absent exactly when there are none. |
| Model.MetaRoundTrip | crates/sypher-core/src/model.rs:207-255 | Metadata survives its field map, empty fields omitted, and takes its id from the row. |
| Model.MetaReadsExactly | crates/sypher-core/src/model.rs:206-255 | A document reads as metadata exactly when it has the required fields and each known field is of its kind, and then as the metadata whose own document has those fields; unknown fields are ignored. |
| Model.PayloadFields | crates/sypher-core/src/model.rs:258-312 | Value, notes and extra fields stand under their short names, absent when there are none. |
| Model.PayloadRoundTrip | crates/sypher-core/src/model.rs:258-312 | Payloads survive their field map, with notes and extra fields omitted when absent. |
| Model.PayloadReadsExactly | crates/sypher-core/src/model.rs:258-312 | The same for payloads. |
| Db.WriteHex | crates/sypher-core/src/vault/db.rs:351-358 | The appending loop writes the two digits of every byte in order. |
| Db.HexRoundTrip | crates/sypher-core/src/vault/db.rs:351-368 | Decoding what was encoded gives the bytes back. |
| Db.HexTextRoundTrip | crates/sypher-core/src/vault/db.rs:351-368 | A text that decodes is its own re-encoding exactly when it has no capital digit and no plus sign. |
| Db.UuidRoundTrip | crates/sypher-core/src/vault/session.rs:125-176 | The verification id survives its text form in the meta table. |
| Db.UuidIsHyphenated | crates/sypher-core/src/vault/session.rs:152-159 | That text form: the hex digits of the bytes in order, with hyphens after the 8th, 12th, 16th and 20th. |
| Db.MetaBytesRoundTrip | crates/sypher-core/src/vault/db.rs:197-219 | A meta entry reads back as the bytes that were written. |
| Db.Vault.WriteMeta | crates/sypher-core/src/vault/db.rs:187-194 | Sets one meta entry and touches nothing else. |
| Db.Vault.WriteMetaBytes | crates/sypher-core/src/vault/db.rs:207-209 | Sets one meta entry to the hex of the bytes. |
| Db.Vault.InsertRow | crates/sypher-core/src/vault/db.rs:223-236 | Adds a row under a new id, and fails without change when the id is taken. |
| Db.Vault.UpdateRow | crates/sypher-core/src/vault/db.rs:239-256 | Replaces an existing row, and fails without change when there is none. |
| Db.Vault.Delete | crates/sypher-core/src/vault/db.rs:258-270 | Removes exactly the named row, and fails without change when there is none. |
| Db.Vault.ListRows | crates/sypher-core/src/vault/db.rs:273-296 | Returns every row once. |
| Sessions.EnrollmentsRoundTrip | crates/sypher-core/src/vault/session.rs:517-530 | The enrollment list survives its wire form in order. |
| Sessions.EnrollmentsPersist | crates/sypher-core/src/vault/session.rs:517-530 | What was saved, through CBOR and hex, is what is loaded. |
| Sessions.EnrollmentIsNamed | crates/sypher-core/src/vault/session.rs:181-215 | A key is stored under its label without the whitespace around it, and without one under "key-" and its ordinal number. |
| VaultSafety.EnrollmentIsAppended | crates/sypher-core/src/vault/session.rs:181-215 | A new key is stored after the ones that are there, under its own name and credential. |
| VaultSafety.FirstKeyIsPrimary | crates/sypher-core/src/vault/session.rs:125-176 | Initialisation stores one key, named primary. |
| Sessions.Session.Create | crates/sypher-core/src/vault/session.rs:125-176 | Initialisation writes the five meta entries and returns an unlocked session, or fails and writes nothing. |
| Sessions.Session.Reopen | crates/sypher-core/src/vault/session.rs:229-248 | A restart opens an initialised database locked, under the unsealed outer key. |
| Sessions.Session.DoUnlock | crates/sypher-core/src/vault/session.rs:253-304 | Assertion, lookup, unwrapping and verification in order, with the error of each; only the last step changes the session. |
| Sessions.Session.DoEnrollKey | crates/sypher-core/src/vault/session.rs:181-215 | Lock check, exclusion of known credentials, wrapping of the same inner key, append, renewal. |
| Sessions.Session.DoLock | crates/sypher-core/src/vault/session.rs:309-314 | Drops the inner key and the deadline, nothing else. |
| Sessions.Session.DoTick | crates/sypher-core/src/vault/session.rs:320-341 | Acts on an expired deadline and reports the state that results. |
| Sessions.Session.DoTouch | crates/sypher-core/src/vault/session.rs:345-349 | Renews the deadline only while a key is held. |
| Sessions.Session.EnsureUnlocked | crates/sypher-core/src/vault/session.rs:419-425 | Succeeds exactly when a key is left after ticking. |
| Sessions.Session.OpenAll | crates/sypher-core/src/vault/session.rs:387-403 | The loop opens every row in order and stops at the first that fails. |
| Sessions.Session.DoList | crates/sypher-core/src/vault/session.rs:387-403 | The metadata of every row, stably sorted by lowercased name. |
| Sessions.Session.DoMetaFor | crates/sypher-core/src/vault/session.rs:406-417 | The metadata of one row; a missing row is reported before the lock is looked at. |
| Sessions.Session.DoOpen | crates/sypher-core/src/vault/session.rs:435-444 | The payload of one row, renewing the window only on success. |
| Sessions.Session.DoAdd | crates/sypher-core/src/vault/session.rs:447-465 | Seals and inserts; a duplicate id fails and stores nothing. |
| Sessions.Session.DoUpdate | crates/sypher-core/src/vault/session.rs:468-484 | Seals and replaces; a missing id fails and stores nothing. |
| Sessions.Session.DoDelete | crates/sypher-core/src/vault/session.rs:487-491 | Deletes without asking for a key. |
| VaultRuns.AdmitChecksTheOuterKey | crates/sypher-core/src/vault/session.rs:286-304 | Verification admits the vault's inner key exactly under the outer key of initialisation. |
| VaultRuns.UnlockRefines | crates/sypher-core/src/vault/session.rs:253-304 | On a vault in order, an unlock succeeds exactly as the ideal one: the first held credential repeats its enrolled answer and the outer key is right. |
| VaultRuns.EnrollRefines | crates/sypher-core/src/vault/session.rs:181-215 | Enrolling appends one credential that wraps the same inner key and keeps every earlier one. |
| VaultRuns.StoreRefines | crates/sypher-core/src/vault/session.rs:447-484 | Adding and updating seal exactly what the plain map then holds. |
| VaultRuns.ReadRefines | crates/sypher-core/src/vault/session.rs:406-444 | Reading metadata or a payload returns what the plain map holds, with the same errors. |
| VaultRuns.ListRefines | crates/sypher-core/src/vault/session.rs:387-403 | Listing returns the metadata of the plain map. |
| VaultRuns.DeleteRefines | crates/sypher-core/src/vault/session.rs:487-491 | Deleting removes the id from the plain map. |
| VaultRuns.StepRefines | crates/sypher-core/src/vault/session.rs:125-491 | Every operation on the sealed vault returns what the ideal vault returns and keeps the invariant that ties meta entries, wrap blobs, rows and memory to it. |
| VaultSafety.InitializeEstablishes | crates/sypher-core/src/vault/session.rs:125-176 | Initialising a new database establishes that invariant, or fails and writes nothing. |
| VaultSafety.InitializedOnce | crates/sypher-core/src/vault/session.rs:125-248 | A database is initialised once; before, it cannot be opened, and from then on it opens locked; a failure names what failed first. |
| VaultSafety.RunRefines | crates/sypher-core/src/vault/session.rs:125-491 | Over whole runs, restarts included, all results are those of the ideal vault. |
| VaultSafety.ReachableKeys | crates/sypher-core/src/vault/session.rs:107-120 | In every reachable session the inner key is there exactly when a deadline is, and then both keys are the initial ones and the only pair that opens the verification blob. |
| VaultSafety.FailedUnlockChangesNothing | crates/sypher-core/src/vault/session.rs:253-304 | A refused unlock changes neither key nor deadline; a successful one changes only these. |
| VaultSafety.ObservingIsTicking | crates/sypher-core/src/vault/session.rs:320-362 | Looking at the state gives the answer that a tick would give at the same instant. |
| VaultSafety.RemainingIsExact | crates/sypher-core/src/vault/session.rs:320-362 | The remaining time that is shown is exactly how long the vault stays unlocked if nothing is done. |
| VaultSafety.EnrolledOnlyGrows | crates/sypher-core/src/vault/session.rs:181-215 | No run drops or alters an enrolled credential or the initial keys. |
| VaultSafety.UnlocksExactlyWhen | crates/sypher-core/src/vault/session.rs:253-304 | After any run, an unlock succeeds exactly when the outer key is the vault's and the first held credential repeats its enrolled answer. |
| VaultSafety.TouchRevivesExactly | crates/sypher-core/src/vault/session.rs:316-362 | A touch makes an expired vault usable again exactly when its key is still in memory; after a tick it never does. |
| VaultSafety.RunConsistent | crates/sypher-core/src/crypto/keys.rs:199-205 | Along any run no recorded answer contradicts an authenticator, given only that no two authenticators answer differently for one credential. |
| VaultSafety.EnrolledOpensAlone | crates/sypher-core/src/vault/session.rs:181-304 | From any state of a vault, an authenticator that it has, or that the run enrolls at any point, opens it alone at the end, after a restart, recovering the initial inner key. |
| VaultSafety.EveryEnrolledOpensAlone | crates/sypher-core/src/vault/session.rs:125-304 | From initialisation on: the authenticator of initialisation and every one ever enrolled opens the vault alone after any run and a restart, recovering the inner key that initialisation drew. |
| VaultSafety.RestartUnlocks | crates/sypher-core/src/vault/session.rs:229-304 | A genuine authenticator opens a restarted vault, and the invariant holds again. |
| VaultSafety.WrongOuterKeyNeverUnlocks | crates/sypher-core/src/vault/session.rs:229-304 | A session opened with another outer key refuses every unlock of every run until the next restart. |
| VaultSafety.ContentsAreLastStored | crates/sypher-core/src/vault/session.rs:447-491 | The map after a run holds, for each id, what was last stored and not deleted since. |
| VaultSafety.ReadsLastStored | crates/sypher-core/src/vault/session.rs:406-444 | While unlocked, reading after any run returns exactly what was last stored under the id, or that there is nothing. |
| VaultSafety.FailedWritesChangeNothing | crates/sypher-core/src/vault/session.rs:447-491 | Duplicate adds, missing updates and missing deletes fail, and no failing write changes the database. |
| VaultSafety.ErrorsExactly | crates/sypher-core/src/vault/session.rs:406-491 | Which error each write and read gets, and when: the lock comes before the row for a write, after it for a read. |
| VaultSafety.ListIsEverythingByName | crates/sypher-core/src/vault/session.rs:387-403 | A successful list is a permutation of all stored metadata, ordered by lowercased name. |
| VaultSafety.ListIsByLowercasedName | crates/sypher-core/src/vault/session.rs:387-403 | In a successful list no lowercased name stands after a greater one. |
| TimedSafety.WindowMeans | crates/sypher-core/src/vault/session.rs:309-349 | An open window goes back to an unlock with no lock since, and its instant is that of the unlock or a later renewal. |
| TimedSafety.DeadlineFollowsWindow | crates/sypher-core/src/vault/session.rs:309-362 | In every run the deadline is the timeout after the latest renewal of the open window, and absent when none is open. |
| TimedSafety.PassesExactlyInsideTheWindow | crates/sypher-core/src/vault/session.rs:320-443 | Under a nondecreasing clock, an operation that reaches its lock check gets past it, whether or not it then succeeds, exactly when a renewal lies within the timeout and no lock since the unlock. |
| TimedSafety.InitializeOpensTheWindow | crates/sypher-core/src/vault/session.rs:125-176 | Initialisation opens the first window. |
| Moving.RecoveryKeyMovesTheVault | crates/sypher-app/src/commands.rs:243-342 | Any retyping of the exported recovery key decodes to the outer key, with which every genuine authenticator unlocks to the same contents. |
| Moving.OtherRecoveryKeyNeverUnlocks | crates/sypher-app/src/commands.rs:295-342 | A text that decodes to any other key opens a session that never unlocks. |
| Moving.BackupReopensTheSnapshot | crates/sypher-app/src/commands.rs:390-431 | A backup restores to the very database of its moment, which reopens to the same secrets and enrollments. |
| Moving.BackupIsBoundToTheOuterKey | crates/sypher-core/src/vault/backup.rs:137-160 | Under any other outer key the archive restores nothing. |
| Calendar.CivilCounts | crates/sypher-core/src/vault/backup.rs:224-235 | Every day number becomes a real month and day, and counting days from it leads back. |
| Calendar.CivilInvertsCounting | crates/sypher-core/src/vault/backup.rs:224-235 | Every date of the proleptic Gregorian calendar is the conversion of its own day count. |
| Calendar.CivilIsTheCalendar | crates/sypher-core/src/vault/backup.rs:224-235 | Day 0 is 1970-01-01 and each next day is the calendar successor, for all integers. |
| Calendar.CivilIsMonotone | crates/sypher-core/src/vault/backup.rs:224-235 | Later days are later dates. |
| Stamps.StampsSort | crates/sypher-core/src/vault/backup.rs:204-221 | Before the year 10000 timestamps sort as text exactly as the instants they name. |
| Stamps.StampReadsBack | crates/sypher-core/src/vault/backup.rs:204-221 | In every year, a stamp reads back as a date of the calendar and a time of the day that are that many seconds after 1970; it has fifteen characters exactly before the year 10000. |
| Stamps.SortableExactlyBefore10000 | crates/sypher-core/src/vault/backup.rs:204-221 | The promise of sortable names holds up to an instant exactly when that instant is before the year 10000. |
| Stamps.NamesSort | crates/sypher-core/src/vault/backup.rs:81-122 | Archive names sort as the seconds they were made in, before the year 10000. |
| Stamps.NamesCollideExactly | crates/sypher-core/src/vault/backup.rs:81-122 | Two archives share a name exactly when they were made in the same second, in every year. |
| Backup.RestoresOnlyArchives | crates/sypher-core/src/vault/backup.rs:83-160 | A file restores to an image exactly when it is an archive of it under this outer key. |
| Backup.ArchiveBinds | crates/sypher-core/src/vault/backup.rs:71-160 | An archive opens under its own outer key, and under any other decryption fails. |
| Backup.DamagedArchiveFails | crates/sypher-core/src/vault/backup.rs:137-160 | An archive with a changed byte is never restored, and is reported as a foreign file or by its tag. |
| Backup.CutOffArchiveFails | crates/sypher-core/src/vault/backup.rs:137-160 | Nor is one that was cut off. |
| Backup.ArchivesByName | crates/sypher-core/src/vault/backup.rs:168-172 | The extension test accepts exactly the names that end in the archive suffix and have something before it. |
| Backup.BackupStore.List | crates/sypher-core/src/vault/backup.rs:163-177 | The archives of the directory, each once, in strictly descending order; none when the directory is missing. |
| Backup.ListingIsUnique | crates/sypher-core/src/vault/backup.rs:163-177 | That description determines the listing. |
| Backup.ListingIsChronological | crates/sypher-core/src/vault/backup.rs:163-177 | For archives made before the year 10000 the listing is newest first, and complete. |
| Backup.BackupStore.Prune | crates/sypher-core/src/vault/backup.rs:180-190 | Removes exactly the archives with at least `keep` later ones, except those refused, and counts what it removed. |
| Backup.PruneKeepsTheNewest | crates/sypher-core/src/vault/backup.rs:180-190 | For archives made at distinct seconds exactly the `keep` newest stay, and the number removed is all the others. |
| Backup.BackupStore.Create | crates/sypher-core/src/vault/backup.rs:83-131 | Writes one archive under the name of the current second, replacing one of the same name, or reports that there is no vault. |
| Backup.ArchiveIsWritten | crates/sypher-core/src/vault/backup.rs:83-131 | Afterwards the archive stands under its name, the intermediate file is gone, and every other file is as it was. |
| Backup.BackupStore.BackUp | crates/sypher-app/src/commands.rs:350-368 | The command's snapshot and prune together. |
| Backup.FreshArchiveSurvives | crates/sypher-app/src/commands.rs:350-368 | The archive just made survives its own prune exactly when fewer than `keep` archives have later names. |
| Backup.RetentionHolds | crates/sypher-app/src/commands.rs:350-368 | After any number of backups at increasing seconds the directory holds exactly the last `keep` archives, each with its own content. |
| Base32.SymbolValue | crates/sypher-core/src/vault/recovery.rs:48-48 | Every symbol of the alphabet is read back as its own digit. |
| Base32.BitsSurvive | crates/sypher-core/src/vault/recovery.rs:147-187 | Forty bits are recovered from their eight digits. |
| Base32.Base32Encode | crates/sypher-core/src/vault/recovery.rs:147-164 | The nested loops push the eight symbols of every block of five bytes, zero-filled. |
| Base32.Base32Decode | crates/sypher-core/src/vault/recovery.rs:167-187 | The nested loops sum each chunk's digits and push five bytes, stopping at the first stranger. |
| Base32.DecodeEncode | crates/sypher-core/src/vault/recovery.rs:147-187 | Decoding an encoding gives the data followed by zeros up to a multiple of five, for all data. |
| Base32.EncodeDecode | crates/sypher-core/src/vault/recovery.rs:147-187 | Encoding a decoding gives the text back, for all alphabet texts of whole blocks. |
| Base32.BitsInOrder | crates/sypher-core/src/vault/recovery.rs:147-166 | The symbols carry the bits of the data in their order, most significant first. |
| Base32.DecodeAccepts | crates/sypher-core/src/vault/recovery.rs:167-187 | Exactly the texts over the alphabet decode; otherwise the first stranger is named. |
| Recovery.RecoveryRoundTrip | crates/sypher-core/src/vault/recovery.rs:71-128 | Every 32-byte key is recovered from its rendering. |
| Recovery.RetypingIsInvisible | crates/sypher-core/src/vault/recovery.rs:89-104 | Any sequence of case changes and of inserted or removed spaces and dashes leaves the answer unchanged, errors included. |
| Recovery.AcceptsExactly | crates/sypher-core/src/vault/recovery.rs:89-140 | A text decodes to a key exactly when its normal form is the prefix and a body that spells that key's rendering up to the padding. |
| Recovery.RefusedExactly | crates/sypher-core/src/vault/recovery.rs:89-128 | A refused text is told the first of its faults: prefix, length, first stranger, checksum. |
| Recovery.RenderedInEights | crates/sypher-core/src/vault/recovery.rs:71-85 | A key is written as the prefix and eight groups of eight symbols, each after a dash. |
| Recovery.RenderedBits | crates/sypher-core/src/vault/recovery.rs:71-166 | The symbols carry the bits of the key and then the first 32 bits of the domain-separated digest. |
| Recovery.Utf8Reads | crates/sypher-core/src/vault/recovery.rs:89-104 | The bytes of a character read back as its code point, by the bit layout of UTF-8. |
| Recovery.Utf8Injective | crates/sypher-core/src/vault/recovery.rs:89-104 | Different texts have different bytes. |
| Domain.AssembledUrl | crates/sypher-core/src/search/domain.rs:45-108 | A URL of any host-naming scheme, user information, host, port, path, query and fragment has the answer of the bare host. |
| Domain.SpellingsOfAHost | crates/sypher-core/src/search/domain.rs:45-108 | In any letter case, with or without `www.`, with trailing dots, inside any URL, the answer is the host itself. |
| Domain.SettledHostStays | crates/sypher-core/src/search/domain.rs:45-108 | A clean host is returned as it is. |
| Domain.SchemelessExactly | crates/sypher-core/src/search/domain.rs:45-108 | A page typed without a scheme has the answer of its host exactly when the host is not named like a hostless scheme before a port, and any host embedded in the page is the same up to letter case, one `www.` and trailing dots. |
| Domain.PageWithoutColon | crates/sypher-core/src/search/domain.rs:73-86 | In particular every page without a port and a colon is its own site. |
| Domain.EmbeddedUrlWins | crates/sypher-core/src/search/domain.rs:73-80 | A page in which a URL is embedded, with no "://" before it, has the answer of the embedded host, whatever user information, port, path, query and fragment that URL has. |
| Domain.EmbeddedHostIs | crates/sypher-core/src/search/domain.rs:73-108 | The embedded host of a page put together from its parts is the host of the URL in it. |
| Domain.SchemelessPages | crates/sypher-core/src/search/domain.rs:45-108 | A login page that is its own site, and a redirection that is taken for its target. |
| Domain.HostlessPages | crates/sypher-core/src/search/domain.rs:46-71 | Pages of the hostless schemes have no host, in any letter case and with any whitespace around them. |
| Domain.ResultsAreHosts | crates/sypher-core/src/search/domain.rs:45-108 | Every result is free of delimiters and ASCII capitals, has a letter or digit, does not end in a dot, and has colons only in brackets. |
| Domain.NormalisingTwice | crates/sypher-core/src/search/domain.rs:45-108 | A result is a fixed point exactly when it has no outer whitespace, no further `www.` and nothing after a closing bracket. |
| Domain.SecondWwwStays | crates/sypher-core/src/search/domain.rs:102-103 | The input on which normalising twice differs. |
| Domain.ParentExactly | crates/sypher-core/src/search/domain.rs:129-148 | A parent match is exactly a proper suffix of dot-separated labels. |
| Domain.MatchExactly | crates/sypher-core/src/search/domain.rs:125-155 | The grade of a match in all cases: the same host, a parent by labels, another host of the same registrable domain, or none of these. |
| Domain.SiblingsMatch | crates/sypher-core/src/search/domain.rs:149-154 | Two subdomains of one registrable domain match as siblings. |
| Domain.MatchLaws | crates/sypher-core/src/search/domain.rs:129-155 | Parents are transitive and one-way, equality symmetric, and a sibling sees a sibling or its child. |
| Domain.PagesMatchLikeTheirSite | crates/sypher-core/src/search/domain.rs:125-155 | A stored domain matches a page as it matches the page's host. |
| StableSort.SortIsTheStableOrder | crates/sypher-core/src/search/fuzzy.rs:146-153 | The sort used is the one arrangement that is ordered and keeps equivalent elements in input order. |
| Fuzzy.CollectHaystacks | crates/sypher-core/src/search/fuzzy.rs:180-194 | The name, the nonempty domain, application and username, and the tags, in that order. |
| Fuzzy.BestIsTheMaximum | crates/sypher-core/src/search/fuzzy.rs:113-128 | The score kept is the maximum over the matching fields, and there is none when no field matches. |
| Fuzzy.KeptExactly | crates/sypher-core/src/search/fuzzy.rs:107-128 | An entry is kept exactly when the query is blank or some field matches. |
| Fuzzy.RankSecrets | crates/sypher-core/src/search/fuzzy.rs:94-155 | The loops, the site filter and the sort compute the ranking. |
| Fuzzy.RankMembers | crates/sypher-core/src/search/fuzzy.rs:81-143 | The ranking holds exactly the kept entries, narrowed to those on the site or bound to the focused application when the context names a host and there are any. |
| Fuzzy.RankIsTheStableOrder | crates/sypher-core/src/search/fuzzy.rs:142-155 | The ranking is the one ordered arrangement with remaining ties in input order. |
| Fuzzy.RankIsOrdered | crates/sypher-core/src/search/fuzzy.rs:142-155 | Domain match first, then score, then lowercased name, then recency. |
| Chars.EqualButForCase | crates/sypher-core/src/search/fuzzy.rs:166-174 | An application is compared but for the case of ASCII letters, and of nothing else. |
| Lex.LessExactly | crates/sypher-core/src/search/fuzzy.rs:150-152 | Names are compared where they first differ, and a beginning comes before the whole. |
| Fuzzy.SearchedExactly | crates/sypher-core/src/search/fuzzy.rs:180-194 | A query is matched against the name, the domain, application and username when there are any, and each tag, and nothing else. |
| Fuzzy.RankedByMerit | crates/sypher-core/src/search/fuzzy.rs:107-178 | What an entry is ordered by: the grade of its domain for the host, or a sibling's grade when it is only for the focused application; the best score of any field; the time of its last change. |
| Fuzzy.SiteBeforeApplication | crates/sypher-core/src/search/fuzzy.rs:146-178 | An exact or parent match of the host stands before every secret that is only bound to the focused application. |
| Fuzzy.BetterGradeFirst | crates/sypher-core/src/search/fuzzy.rs:142-155 | An entry of a better domain grade stands before every entry of a lesser one. |
| Fuzzy.NarrowingNeverEmpties | crates/sypher-core/src/search/fuzzy.rs:88-140 | The list is empty exactly when the query keeps nothing. |
| Fuzzy.BlankQueryListsEverything | crates/sypher-core/src/search/fuzzy.rs:81-155 | With a blank query every secret is listed once per entry exactly when the list is not narrowed, or all of them are on the site or bound to the focused application. |
| Fuzzy.ShownExactly | crates/sypher-core/src/search/fuzzy.rs:88-140 | An entry that the query keeps is hidden exactly when the list is narrowed and it is neither on the site nor bound to the focused application. |
| Fuzzy.ForeignHostShowsAllExactly | crates/sypher-core/src/search/fuzzy.rs:88-140 | With a host that no kept entry matches, all that is kept is shown exactly when none or all of it is bound to the focused application. |
| Fuzzy.BrowserSecretHidesTheOther | crates/sypher-core/src/search/fuzzy.rs:138-140 | The input: a secret bound to the focused browser hides another one, though no host matches either. |
| Editors.CyclingUndoes | crates/sypher-app/src/ui/editor.rs:153-164 | Tab and Shift+Tab undo each other. |
| Editors.TabOrder | crates/sypher-app/src/ui/editor.rs:50-164 | Tab goes down the form field by field and from its end to its start. |
| Editors.TagsAreListed | crates/sypher-app/src/ui/editor.rs:112-151 | Stored tags are shown in order, with a comma and a space between them. |
| Editors.TagsRoundTrip | crates/sypher-app/src/ui/editor.rs:112-194 | Tags survive the form exactly when none is blank, padded or has a comma. |
| Editors.TypedIsStored | crates/sypher-app/src/ui/editor.rs:112-219 | A tidy form is accepted, and what it saves opens as the same form for the same secret. |
| Editors.StoredFieldByField | crates/sypher-app/src/ui/editor.rs:89-219 | A tidy form stores what stands in the field of each name, under the edited secret's id or a new one, with the form's date of creation. |
| Editors.RefusedExactly | crates/sypher-app/src/ui/editor.rs:169-177 | A form is refused exactly when its name is blank or its secret empty, and says which. |
| Editors.EditKeepsExactly | crates/sypher-app/src/ui/editor.rs:112-219 | Opening any stored secret and saving it unchanged keeps it, but for the time, exactly when its texts are tidy, its bytes UTF-8, its domain a settled host, and it has no extra fields. |
| Editors.SavingAgain | crates/sypher-app/src/ui/editor.rs:112-219 | A secret that the form itself saved is kept, but for the time, exactly when its domain is settled. |
| Popups.StepKeepsConsistent | crates/sypher-app/src/ui/popup.rs:173-251 | After every event, key press and frame the ranked view is the ranking of what is held and the selection is inside it. |
| Popups.SentIsJustified | crates/sypher-app/src/ui/popup.rs:287-427 | Use is sent only while unlocked and Unlock only while locked; what is used or edited is the highlighted row; a deletion is what the confirmation on screen asks for. |
| Popups.ConfirmationsAreOpenedFromTheList | crates/sypher-app/src/ui/popup.rs:327-332 | A confirmation is opened only from the list, for the highlighted row, under its name. |
| Popups.AtMostOneDelete | crates/sypher-app/src/ui/popup.rs:287-386 | A step that sends a deletion or a PIN sends nothing else. |
| Popups.LastRowIsARow | crates/sypher-app/src/ui/popup.rs:512-553 | Of the rows acted on in a frame, the last one counts. |
| Gestures.ArrowsMove | crates/sypher-app/src/ui/popup.rs:336-346 | The arrows move the highlight by one row, not past either end, and keep the vault open. |
| Gestures.EnterActs | crates/sypher-app/src/ui/popup.rs:347-406 | Enter uses the highlighted secret while unlocked, asks for an unlock while locked, and does nothing while waiting or on an empty list. |
| Gestures.ShortcutsAct | crates/sypher-app/src/ui/popup.rs:309-333 | Ctrl+N opens a new form, Ctrl+E asks to edit the highlighted secret, Ctrl+D asks for confirmation, Escape closes the popup. |
| Gestures.ListKeysTogether | crates/sypher-app/src/ui/popup.rs:309-352 | Of several keys in one frame Escape counts first, then Ctrl+N, Ctrl+E and Ctrl+D, and the others act as if pressed one after the other. |
| Gestures.OtherModesAct | crates/sypher-app/src/ui/popup.rs:287-386 | In the other modes Escape goes back to the list, and Enter confirms a deletion or answers a prompt. |
| Gestures.OtherKeysTogether | crates/sypher-app/src/ui/popup.rs:287-390 | In the other modes Escape counts before everything else, and in the form Tab comes before Ctrl+S. |
| Gestures.HidingForgets | crates/sypher-app/src/ui/popup.rs:225-244 | However the popup is closed, it is left as at the start but for its context, highlight and lock state, and says so once. |
| Gestures.EventsAct | crates/sypher-app/src/ui/popup.rs:173-223 | A prompt or a form comes on screen even when the popup was dismissed; the lock state and messages leave everything else as it is. |
| Gestures.ClicksAreKeys | crates/sypher-app/src/ui/popup.rs:503-554 | A cross, pencil or click on a row does what Ctrl+D, Ctrl+E or Enter does once it is highlighted; of several the last counts, a cross before a pencil before a click. |
| Gestures.TypingSearches | crates/sypher-app/src/ui/popup.rs:653-665 | Typing ranks what is held anew for the new text, from the top, and keeps the vault open. |
| Gestures.RefreshKeepsThePlace | crates/sypher-app/src/ui/popup.rs:207-251 | A new list keeps the search, the mode and the highlighted place, or the last one left. |
| Gestures.ButtonsAreKeys | crates/sypher-app/src/ui/popup.rs:689-810 | The Save and Cancel buttons do what Ctrl+S and Escape do. |
| Gestures.SavingSends | crates/sypher-app/src/ui/popup.rs:409-426 | An accepted form is sent as built and closes; a refused one stays open with the reason, and nothing is sent. |
| Gestures.FormsComeFrom | crates/sypher-app/src/ui/popup.rs:173-370 | A form on screen is for the same secret as before, or was just opened for a stored secret, or is a new one. |
| Gestures.SavesExactly | crates/sypher-app/src/ui/popup.rs:409-426 | Every save that any step sends is an update exactly when its form is that of a stored secret, and then names that secret; otherwise the fresh id. |
| Popups.Popup.DoHandleEvent | crates/sypher-app/src/ui/popup.rs:173-222 | Applies one event, as specified, and stays consistent. |
| Popups.Popup.DoHide | crates/sypher-app/src/ui/popup.rs:225-239 | Hides once, drops what was held, and says so. |
| Popups.Popup.DoRerank | crates/sypher-app/src/ui/popup.rs:246-251 | Ranks again and clamps the selection. |
| Popups.Popup.DoListKeys | crates/sypher-app/src/ui/popup.rs:309-351 | The keys of the list, in their order of precedence. |
| Popups.Popup.DoEditKeys | crates/sypher-app/src/ui/popup.rs:354-370 | The keys of the form. |
| Popups.Popup.DoConfirmKeys | crates/sypher-app/src/ui/popup.rs:373-386 | Escape cancels, Enter asks for the deletion, nothing else does anything. |
| Popups.Popup.DoPinKeys | crates/sypher-app/src/ui/popup.rs:287-306 | Escape cancels, Enter answers with a nonempty PIN. |
| Popups.Popup.DoActivateSelected | crates/sypher-app/src/ui/popup.rs:393-406 | Uses the highlighted row while unlocked, unlocks while locked, waits while waiting. |
| Popups.Popup.DoSaveEditor | crates/sypher-app/src/ui/popup.rs:409-426 | Sends a valid form and closes it, or keeps it with its error. |
| Popups.Popup.DoTick | crates/sypher-app/src/ui/popup.rs:586-598 | One frame of keys, closing the popup when they ask for it. |
| Popups.Popup.DoDrawRows | crates/sypher-app/src/ui/popup.rs:503-554 | The row loop: deletion before editing before activation. |
| Popups.Popup.DoDrawList | crates/sypher-app/src/ui/popup.rs:646-670 | The Add button, the search box and the rows of one frame. |
| Popups.Popup.DoDrawEdit | crates/sypher-app/src/ui/popup.rs:689-810 | The form's text and its two buttons, cancelling before saving. |
| Popups.Popup.DoDrawPin | crates/sypher-app/src/ui/popup.rs:611-643 | Typing a PIN changes the PIN and nothing else. |
| SharedState.Shared.BeginUnlock | crates/sypher-app/src/state.rs:152-156 | Claims the flag exactly when it was free. |
| SharedState.Shared.EndUnlock | crates/sypher-app/src/state.rs:159-161 | Releases the flag. |
| SharedState.Shared.LockStateForUi | crates/sypher-app/src/state.rs:171-181 | Waiting while an unlock is in flight, without looking at the session; otherwise ticks it. |
| SharedState.TimeLeftIsShown | crates/sypher-app/src/state.rs:171-181 | The popup is told exactly the time left until the deadline, and that the vault is locked once there is none. |
| SharedState.PinBroker.Deliver | crates/sypher-app/src/daemon.rs:372-377 | An answer goes to the end of the channel. |
| SharedState.PinBroker.RequestPin | crates/sypher-app/src/pin.rs:68-89 | The answer is the first that comes into the channel after the drain, or a timeout; what stood in the channel before is never used. |
| ProtocolSafety.StepKeeps | crates/sypher-app/src/daemon.rs:147-582 | Every step of the popup, the worker and every unlock thread keeps the whole invariant. |
| ProtocolSafety.HistoryIsTrue | crates/sypher-app/src/daemon.rs:359-582 | Each entry of the log is what happened in its step to the popup, the session, the database, the flag and the PIN channel. |
| ProtocolSafety.NoDeletionWithoutConfirmation | crates/sypher-app/src/daemon.rs:471-519 | In every interleaving a deletion follows, in order, a confirmation opened for that id from a listed row, its acceptance, a lock for that request, and an assertion begun after it that unlocked. |
| ProtocolSafety.OneConfirmationOneDeletion | crates/sypher-app/src/daemon.rs:471-498 | No confirmation yields two deletions, and deletions follow the order of their confirmations. |
| ProtocolSafety.RowLeavesOnlyByDeletion | crates/sypher-app/src/daemon.rs:359-498 | A stored secret leaves the database only in a step that logs its deletion. |
| ProtocolSafety.GoneMeansDeleted | crates/sypher-app/src/daemon.rs:359-498 | Over whole runs a secret that is gone was deleted, with its warrant, in between. |
| ProtocolSafety.FlagMeansOneOutstanding | crates/sypher-app/src/state.rs:148-165 | The flag is set exactly between a claim and its release, and at most one claimed unlock is outstanding, now and at every earlier time. |
| ProtocolSafety.OneAssertionAtATime | crates/sypher-app/src/daemon.rs:503-582 | At most one assertion, spawned or awaited, runs at a time, and it is the one that holds the session. |
| ProtocolSafety.PinsAreFresh | crates/sypher-app/src/pin.rs:68-89 | Any PIN that an assertion receives entered the channel after that assertion's own drain. |
| PinOrigins.OwnPinExactly | crates/sypher-app/src/pin.rs:68-89 | In every interleaving a PIN that an assertion receives was sent by the popup, after that assertion's drain exactly when it did not stand in the request queue at that drain. |
| DaemonRuns.PinArrives | crates/sypher-app/src/daemon.rs:372-377 | From every locked vault, a run delivers a PIN to the assertion that it was typed for. |
| DaemonRuns.StalePinArrives | crates/sypher-app/src/pin.rs:68-89 | The run in which it fails: an answer to a prompt that was given up is received by the next assertion, which began after it was sent. |
| ProtocolSafety.PopupAlwaysAgrees | crates/sypher-app/src/ui/popup.rs:173-251 | In every interleaving the popup shows the ranking of what it holds. |
| AwaitedPins.AwaitedAssertionsGetNoPin | crates/sypher-app/src/daemon.rs:372-519 | In every interleaving a live awaited assertion is the one the worker waits for, finds the channel empty once it has drained it, and can never receive a PIN. |
| AwaitedPins.DeletionsNeverTookAPin | crates/sypher-app/src/daemon.rs:471-519 | The assertion behind a deletion is none of those that received a PIN. |
| DaemonRuns.DeletionHappens | crates/sypher-app/src/daemon.rs:471-498 | Every secret of every locked vault that some authenticator unlocks is deleted by some run. |
| DaemonRuns.AwaitedPinStands | crates/sypher-app/src/daemon.rs:372-519 | From such a vault, a run comes to a deletion whose assertion waits for its PIN while the typed answer stands in the request queue and neither the worker nor the assertion can go on. |
| DaemonVault.StepRunsVault | crates/sypher-app/src/daemon.rs:323-582 | Every step of the daemon does to the session what its operations of the vault do, at the instants that the step reads. |
| DaemonVault.DaemonKeepsTheVault | crates/sypher-app/src/daemon.rs:147-582 | Whatever interleaves, the database and the keys in memory stay those of an ideal vault, by the operations of the run's own steps at the daemon's own clock. |
| DaemonTime.RevealsInsideTheWindow | crates/sypher-app/src/daemon.rs:147-582 | Under a nondecreasing clock, metadata or plaintext is sent to the popup, or opened to be typed, only within the timeout of the latest renewal, in the history of the run itself, of an unlock that nothing locked since. |
| DaemonTime.HistoryOfTheVault | crates/sypher-app/src/daemon.rs:323-582 | The history of a run, step by step, is the vault's own history of the run's operations. |
| DaemonTime.WindowIsAStep | crates/sypher-app/src/daemon.rs:323-582 | An open window is a step of the run that unlocked or renewed at its instant, and no later step closed it. |
| DaemonTime.RenewalsAre | crates/sypher-app/src/daemon.rs:323-582 | Only the end of an assertion that unlocks, a touch, and the use, edit or save of a secret unlock or renew. |
| DaemonRuns.HotkeyStartsAnUnlock | crates/sypher-app/src/daemon.rs:323-356 | The hotkey on a locked vault opens an empty popup for the site and application in front, and starts one unlock. |
| Journeys.HotkeySendsTheList | crates/sypher-app/src/daemon.rs:323-356 | From every idle daemon whose vault is unlocked, the hotkey sends the metadata of everything stored, ordered by name, for the site and application in front, and renews the window. |
| Journeys.HotkeyShowsTheList | crates/sypher-app/src/daemon.rs:323-356 | Once heard, the popup shows exactly that list, visible, unfiltered, ranked for that context. |
| Journeys.HotkeyUnlocksAndShows | crates/sypher-app/src/daemon.rs:323-582 | From every idle daemon whose vault is locked, the hotkey and one successful touch open the popup on everything stored, ranked for the site and application that were in front. |
| Journeys.HotkeyWaits | crates/sypher-app/src/daemon.rs:323-356 | While an unlock is under way the hotkey opens an empty popup that waits, and starts no other unlock. |
| Journeys.ListComesWhileWaiting | crates/sypher-app/src/daemon.rs:566-574 | An unlock that succeeded sends the list also when another one was claimed meanwhile, and then tells the popup to wait. |
| Journeys.EnterTypes | crates/sypher-app/src/daemon.rs:385-406 | Enter on a highlighted secret hides the popup and types the stored value of that secret, or reports that it could not be delivered. |
| Journeys.CtrlEOpensTheForm | crates/sypher-app/src/daemon.rs:408-439 | Ctrl+E on a highlighted secret opens the form of that secret as it is stored. |
| Journeys.SaveIsServed | crates/sypher-app/src/daemon.rs:441-469 | A request to save stores the secret, as a new one or in place of the one of its id, and sends the list that there is then. |
| Journeys.NewSecretIsStored | crates/sypher-app/src/daemon.rs:441-469 | Ctrl+N, a tidy form and Ctrl+S store a new secret field by field as typed, and the popup lists it. |
| Journeys.EditedSecretIsStored | crates/sypher-app/src/daemon.rs:408-469 | Ctrl+E, another tidy form and Ctrl+S replace the secret field by field as typed, and keep its id and date of creation. |
| Journeys.DeletionIsListed | crates/sypher-app/src/daemon.rs:471-498 | After a deletion the popup is sent the list of what is left. |
| Journeys.EnterStartsAnUnlock | crates/sypher-app/src/daemon.rs:370-370 | Enter in the list of a locked vault starts one unlock, and the popup is told to wait. |
| Journeys.UnlockWaits | crates/sypher-app/src/daemon.rs:544-553 | While an unlock is under way another request to unlock has no effect. |
| Journeys.AsksFirst | crates/sypher-app/src/daemon.rs:408-449 | A request to edit or save that finds the vault locked first asks for an assertion, which the worker awaits. |
| Journeys.AsksBehind | crates/sypher-app/src/daemon.rs:408-449 | So does one that comes while an unlock is under way, and the session is then left alone. |
| Journeys.AssertionDecides | crates/sypher-app/src/daemon.rs:408-519 | The awaited assertion decides: the worker goes on to what was wanted, or reports and does nothing. |
| Journeys.TickerLocks | crates/sypher-app/src/daemon.rs:292-311 | The ticker locks the session exactly when its time is over, and tells the popup of a change or of the time left. |
| Journeys.TickerWaits | crates/sypher-app/src/state.rs:171-181 | While an unlock is under way the ticker leaves the session alone and says so. |
| Journeys.TouchIsServed | crates/sypher-app/src/daemon.rs:379-379 | A touch keeps an open vault open for the timeout from then on. |
| Journeys.DismissalIsNoted | crates/sypher-app/src/daemon.rs:381-383 | Dismissing the popup changes nothing in the daemon. |
| Journeys.FailureIsReported | crates/sypher-app/src/daemon.rs:574-581 | A failed unlock is reported, and the popup shows the vault locked. |
| Journeys.MissingIsReported | crates/sypher-app/src/daemon.rs:385-394 | A secret that is not there is reported and not typed. |
| Journeys.RefusalsAreReported | crates/sypher-app/src/daemon.rs:385-494 | A use, edit, save or deletion reports a failure exactly when its secret is not there, its new id is taken, or the vault is locked (a deletion needs no key), and then nothing is stored, shown or typed. |
| Journeys.ShutdownLocks | crates/sypher-app/src/daemon.rs:243-250 | Shutting down locks the vault and stops the worker. |
| DaemonTime.LateTouchRevives | crates/sypher-app/src/daemon.rs:379-379 | From every locked vault that an authenticator unlocks, a run of the daemon reaches an expired session that an arrow key makes usable again. |
| DaemonVault.RevealedOnlyWhileUnlocked | crates/sypher-app/src/daemon.rs:323-582 | Metadata and plaintext are sent to the popup, or opened to be typed, only in steps that find the session unlocked. |
| DaemonVault.TypedWasStored | crates/sypher-app/src/daemon.rs:385-406 | In every interleaving, whatever is typed was, when the worker opened it, the value stored under the id that the popup had asked to use. |
| DaemonVault.NothingShownBeforeAuthentication | crates/sypher-app/src/ui/popup.rs:17-22 | Before any assertion has unlocked the vault, nothing of it is listed, in the form, on its way to the popup, or typed, in every interleaving. |
| Popups.HeldOnlyExactly | crates/sypher-app/src/ui/popup.rs:173-239 | A step leaves metadata in a hidden popup exactly when it delivers a nonempty list to it. |
| DaemonVault.HiddenHoldsNothingExactly | crates/sypher-app/src/ui/popup.rs:124-126 | A hidden popup holds no metadata at any moment of a run exactly when no nonempty list is delivered to a hidden popup in it. |
| DaemonRuns.HiddenPopupKeepsTheList | crates/sypher-app/src/ui/popup.rs:207-210 | The run in which one does: the popup is dismissed while the authenticator is touched, and keeps the list that comes. |

## Left out

- Stamps.StampsSort: says nothing about stamps from the year 10000 on, where the order of names is not that of time; `Stamps.SortableExactlyBefore10000` shows that this bound is exact.
- Backup.PruneKeepsTheNewest: is about archives made before the year 10000, for the same reason; `Backup.BackupStore.Prune` is about every directory.
- Moving.RecoveryKeyMovesTheVault: is about outer keys that are 32 known bytes, as those of a machine are; a derived term has no rendering.
- Fuzzy.RankSecrets: computes the library's stable sort as a function; the sort's own algorithm is not modelled.
- Hardware providers (TPM, FIDO, mock): only their contracts, deterministic answers and unsealing what was sealed.
- The hardware override of `assert_first_available`: the default loop is modelled.
- Wayland, drawing, focus and messages on screen, KWin and accessibility lookup, the hotkey portal, key injection, the clipboard, the doctor, logging and command-line parsing: input and output.
- The insides of the AEAD, HKDF, SHA-256, CBOR, SQLite, the fuzzy matcher, Unicode lowercasing and the public suffix list: abstract, with the laws stated in `Symbolic` or no law at all.
- Locked memory, wiping, file permissions and constant-time comparison: not expressible here.
- Integer widths: timestamps, days and counters are unbounded; the values reachable by the program do not overflow its types.
- Text forms of an id other than the hyphenated one, and hex texts outside ASCII: the program writes neither.
- SQLite and file errors, partial writes, and the crash-atomicity of `initialize`, which the program does not provide either.
- `backup::checkpoint`: the database image is taken to include the write-ahead log.
- Restarts that fail are not steps of a run: they leave the database as it was.
- The bridge between the popup's channel and the worker's is one queue: two queues in a row keep the same order.
- Liveness: whether a touch or a PIN ever comes, and how long an assertion that gets none keeps its thread; that an awaited one gets none is `AwaitedPins.AwaitedAssertionsGetNoPin`.
- The strength of the 4-byte checksum against typing errors: the hash is uninterpreted.
- `Config::clamped`, `to_portal_trigger`, `char_to_keysym`, labels of secret types: easy.
- The registration of the shortcut, and the shutdown of threads that are still asserting: no state of the model depends on them.
- Error messages are free text: which step reports an error is modelled, its words are not.
