# Pocket Vault: persistence protocol, session machines and their proofs

Pocket Vault keeps one encrypted container in two slots, A and B, beside metadata that wraps the data
key for a master phrase and a pointer that names the slot last committed. This project models that
protocol from the bytes that authenticate a slot up to the controller that holds the unlocked session,
and proves what the layers promise together.

| file | models |
|---|---|
| `Bytes.dfy`, `Aad.dfy`, `Model.dfy`, `JsonLength.dfy`, `JsonText.dfy`, `Validation.dfy`, `Crypto.dfy` | length-prefixed authenticated data, persistent values, their JSON and its size, validators, symbolic cryptography |
| `Vault.dfy`, `VaultProperties.dfy`, `EntryEdits.dfy`, `Randomness.dfy` | the unlocked vault: creation, unlocking, rewrapping, entry edits, encryption, commit; what each edit does to each entry; what each random byte is used for |
| `Device.dfy`, `Repository.dfy`, `OpenProperties.dfy`, `SaveProperties.dfy` | the untrusted device and its faults; the two-slot repository |
| `Bridge.dfy`, `BridgeProperties.dfy`, `Persistence.dfy`, `Refinement.dfy` | the split protocol: prepare, verify, commit and cancel in the bridge, ordered storage steps in JavaScript |
| `Recovery.dfy`, `Runs.dfy`, `Provenance.dfy`, `Parity.dfy`, `Creation.dfy`, `Rotation.dfy`, `Oversize.dfy`, `Destruction.dfy` | whole runs: crash atomicity, provenance under tampering, slot parity, creation, phrase changes, the size gap, removal |
| `Controller.dfy`, `Listing.dfy`, `Deadline.dfy`, `Agreement.dfy`, `ControllerProperties.dfy` | the application controller, its entry list and inactivity deadline, its agreement with storage, and what its operations come to |
| `VerifiedMutation.dfy` | the polling loop behind every JavaScript write |

Objects that the program updates in place are classes here (`UnlockedVault`, `DeviceStorage`,
`TwoSlotRepository`, `VaultBridge`, `VaultPersistence`, `VaultAppController`). Each method is tied to a
function of the old value (`AfterSave`, `AfterOpen`, `AfterSaveSession`, ...), and the theorems are about
those functions and about runs of them. A `hide` at the head of a proof names the definitions it does without.

## How the world is modelled

- **Cryptography** is symbolic: a ciphertext remembers key, nonce, authenticated data and plaintext, or
  is junk. Decryption succeeds exactly for the same key, nonce and data. The authenticated data are the
  program's real bytes.
- **Stored text** is the serializer's output for a document, or any other string with a length and
  whatever it happens to parse as. Encoded lengths are exact, base64url included (section 5 of RFC 4648).
- **Faults**: each storage operation meets the next fault of an arbitrary script. A write may work, be
  refused, land and still report failure, or leave arbitrary residue under its own key, reported or not.
  A crash is a failing operation after which the caller is gone.
- **Locks** may arrive at any awaited step of a save or phrase change in JavaScript.
- **Clocks and randomness** are parameters: any reading, any bytes, including too few.

## Main results

1. **Crash atomicity** (`Runs.CrashAtomicity`, `Creation.CreateSessionThenAnyRun`): after any run of edits,
   saves by either protocol, openings, phrase changes and crashes, exactly one phrase opens the store. It
   is the last one committed or one attempted since; what opens is the last committed contents or contents
   of a save attempted since, whatever the pointer cell holds. Four hypotheses: torn slot residue is not
   sealed under the vault's key, the metadata cell is replaced as a whole, the slot reads of a repository
   opening work, and no split save of a slot beyond the size limit reports success. Runs start from any
   creation by either path; `Creation.FreshStoreIsInOrder` is the plainest.
2. **Provenance** (`Provenance.WhatOpensWasMade`, `Provenance.CreateSessionThenProvenance`): without those
   four. Any cell may at any time hold any text at all, replays of earlier slots and metadata included;
   only a ciphertext under the vault's data key must be one the vault made. Then whatever opens under that
   key is contents that the creation or a save encrypted for that very slot and generation, and it opens
   whatever the pointer cell holds. If moreover metadata is only ever replaced by metadata of the vault or
   by something unusable, the data key of every session and of the stored metadata stays the one made at
   creation, no two slots ever tie, and no opening depends on the pointer
   (`Provenance.RunsKeepKeyAndNeverTie`, `Parity.RunKeepsPairs`).
3. **Session and storage agree** (`Agreement.SessionAgreesWithStorage`, `Agreement.SavedEntryIsStored`,
   `Agreement.DeletedEntryIsGone`): from any storage at all and under any faults, an unlocked session held
   between operations is exactly what opening the storage yields if and only if the last save it
   acknowledged, if any, was of a slot within the size limit. Two hypotheses: a new vault's key seals
   nothing in the residue it is created over, and nothing else writes the storage while an unlocked session
   is held.
4. **The split save refines the repository's save exactly when its slot fits, and is refined by it
   always** (`Refinement`), fault for fault, with the same storage, verdict and session.
5. **Opening refines unlocking each slot by itself** (`OpenProperties.OpenRefinesUnlockEach`).
6. **What was typed is what is stored** (`Agreement.SavedEntryIsStored`, `ControllerProperties.EditReachesTheChosen`,
   `ControllerProperties.DeletionReachesTheViewed`): from the form on the screen to the entry in the slot, with its
   place, identifier and times; every other entry stays as it was.
7. **Every secret is fresh** (`Randomness`): which stretch of the random tape becomes the vault id, the salts, the
   data key and each nonce, in creation, saves and phrase changes by either path.
8. **Rotation, creation, sizes, framing, deadline, polling**: see the table.

## Where a promise holds only under a condition

Each is proved as an equivalence, on a condition known from the faults or the contents, together with an
input that breaks the promise.

- *A save that reports success is durable.* True of the repository. The split save checks no limit on the
  slot's JSON (`crates/vault-wasm/src/bridge.rs:357-383`) although `docs/FORMAT.md:170` states one and
  opening skips larger slots (`crates/vault-core/src/storage.rs:335`). `Oversize.SplitSaveIsDurableWhenItFits`:
  durable if and only if the slot's JSON, whose length the contents tell in advance, is at most 5 MiB.
  `Oversize.AcknowledgedSaveIsLost`: in a new vault a thousand entries with 4096-byte secrets are saved with
  success and are not there when the store is opened. The session then stands in the oversize slot, so its
  next save overwrites the committed one: saved once more, still without any fault, the vault is gone
  (`Oversize.AcknowledgedSavesLoseTheVault`).
- *Opening yields the newest contents.* A slot whose read fails counts as missing in the repository.
  `Runs.OpeningIsNewestIffRead`: an opening that succeeds yields the newest contents if and only if it
  could read their slot, and only then does opening again yield the same (`Runs.ReopensAlikeIffRead`);
  `OpenProperties.UnreadableSlotIsSkipped` is an opening that did not. The JavaScript path rejects such a snapshot as a whole and needs no condition
  (`Runs.OpenSessionSelects`).
- *After the deadline the session is locked* (`docs/INTEGRATION.md`, "Lifecycle"). Resuming and expiring
  enforce it; touching, deactivating and setting the timeout do not look at it.
  `Deadline.RunsEnforceDeadline` says for which readings each keeps the session; `Deadline.LateTouchExtends`
  is the late touch.
- *Creation is recoverable.* Metadata has one cell. A creation that stops anywhere is recoverable if and
  only if it is not the case that its slot write was done and its metadata write tore leaving residue,
  unless that residue wraps the new key for the same phrase (`Creation.InitializeStrandsWhenTorn`,
  `Creation.CreateSessionStrandsWhenTorn`). `Creation.TornCreationStrands` is such a creation, by either
  path, after which nothing opens and creation refuses to run.
- *One of two phrases opens after a change.* The same cell: this holds if and only if the metadata write did
  not tear, or left metadata that wraps the same key for one of the two (`Rotation.ExactlyOnePhraseOpens`).
  `Rotation.TornChangeLosesTheVault` is a change after which no phrase opens.
- *An interrupted removal leaves the store as it was or one to create in.* The repository removes metadata
  first, and meets this if and only if that first removal does not tear leaving residue, or leaves metadata
  that wraps the same key for the same phrase (`Destruction.ClearingStrandsWhenTorn`);
  `Destruction.TornClearingStrands` is one that does not. The JavaScript side removes metadata last, and
  meets this if and only if its faults spare the slot of the newest contents or let it reach the metadata
  (`Destruction.InterruptedDestruction`). Otherwise the store opens to the older contents in slot B
  (`Destruction.InterruptedDestructionRollsBack`), or neither opens nor lets creation run
  (`Destruction.InterruptedDestructionStrands`), until removal is repeated, which without faults succeeds
  (`Destruction.DestructionEndsWithMetadata`).

## Model

| member | source | states |
|---|---|---|
| Aad.UnframeFrame | crates/vault-core/src/crypto.rs:195-199 | a separate parser recovers any list of fields shorter than 2^32 from its framing |
| Aad.FrameUnframe | crates/vault-core/src/crypto.rs:195-199 | whatever that parser accepts is exactly the framing of what it returns |
| Aad.VaultSlotAadIsInjective | crates/vault-core/src/crypto.rs:184-193 | equal slot data if and only if equal vault id, slot and 64-bit generation |
| Aad.WrappedDekAadIsInjective | crates/vault-core/src/crypto.rs:175-182 | equal wrapped-key data if and only if equal vault id |
| Aad.SlotAadIsNeverWrappedDekAad | crates/vault-core/src/crypto.rs:175-193 | no slot ever authenticates as a wrapped key |
| Aad.VaultSlotAadBytes | crates/vault-core/src/crypto.rs:184-193 | the bytes authenticated with a slot, one by one: format, object, version, vault id, slot letter and generation, each behind its length |
| Aad.WrappedDekAadBytes | crates/vault-core/src/crypto.rs:175-182 | the bytes authenticated with a wrapped key, one by one |
| Aad.PushAadField | crates/vault-core/src/crypto.rs:195-199 | appends the big-endian length and the field to the vector |
| Aad.BuildWrappedDekAad | crates/vault-core/src/crypto.rs:175-182 | the vector it fills is the frame the injectivity lemmas speak of |
| Aad.BuildVaultSlotAad | crates/vault-core/src/crypto.rs:184-193 | the vector it fills is the frame the injectivity lemmas speak of |
| Crypto.RandomArray | crates/vault-core/src/crypto.rs:25-32 | the first bytes of the tape and the rest of it, or RandomGenerationFailed exactly when there are too few |
| Crypto.UnwrapsExactly | crates/vault-core/src/crypto.rs:78-97 | a wrapped key comes out exactly under the key, nonce and vault it was wrapped with; else which error |
| Crypto.RelabelledSlotIsRefused | crates/vault-core/src/crypto.rs:99-133 | a slot's ciphertext decrypts under exactly the nonce, vault, slot and generation it was made for |
| JsonLength.PointerFits | crates/vault-core/src/model.rs:354-373 | no pointer is ever refused for its size |
| JsonText.Base64Url | crates/vault-core/src/encoding.rs:3-5 | four characters for three bytes, three for two, two for one, all ASCII |
| JsonText.PointerJsonLength | crates/vault-core/src/model.rs:354-360 | the length of a pointer is the byte length of the JSON written for it |
| JsonText.SlotJsonLength | crates/vault-core/src/model.rs:315-326 | the length of a slot is the byte length of its JSON, whatever the bytes of its ciphertext |
| JsonText.MetaJsonLength | crates/vault-core/src/model.rs:270-287 | the length of metadata is the byte length of its JSON |
| JsonText.ContainerJsonLength | crates/vault-core/src/model.rs:376-439 | the length of a container is the byte length of its JSON, escapes and UTF-8 included |
| Validation.CheckContainer | crates/vault-core/src/model.rs:463-502 | accepts exactly containers with the expected identity, bounds, unique ids and a consistent timeline |
| Validation.ValidateContainer | crates/vault-core/src/model.rs:463-502 | the one-pass loop over a set of seen ids returns that verdict, first complaint included |
| Validation.ContainerComplaint | crates/vault-core/src/model.rs:463-502 | which error a container is refused with: its first fault, in order, by the documented bounds |
| Validation.EnvelopeComplaints | crates/vault-core/src/model.rs:240-351 | which error metadata and slots are refused with, by the documented bounds |
| Validation.CheckMeta | crates/vault-core/src/model.rs:295-312 | accepts exactly metadata within the format, KDF and length bounds |
| Validation.CheckSlot | crates/vault-core/src/model.rs:334-351 | accepts exactly slots of the vault within the nonce and ciphertext bounds |
| Validation.ValidMetaFits | crates/vault-core/src/model.rs:295-312 | metadata that validates is never refused for its size |
| Vault.DecryptsExactly | crates/vault-core/src/vault.rs:407-419 | a container is decrypted exactly if it was sealed under the key and the slot's labels, is within the limit, parses and is valid |
| Vault.UnwrappingPhraseIsUnique | crates/vault-core/src/crypto.rs:78-97 | at most one phrase unwraps given metadata, to one key |
| Vault.IndexOf | crates/vault-core/src/vault.rs:265-306 | the first entry with an id, or none if no entry has it |
| Vault.UnlockedVault.GenerateUniqueEntryId | crates/vault-core/src/vault.rs:396-404 | the loop returns what at most eight draws give |
| Vault.UnlockedVault.AddEntry | crates/vault-core/src/vault.rs:235-258 | result and new container of an addition; key and slot unchanged |
| Vault.UnlockedVault.UpdateEntry | crates/vault-core/src/vault.rs:265-289 | result and new container of an update; key and slot unchanged |
| Vault.UnlockedVault.DeleteEntry | crates/vault-core/src/vault.rs:296-306 | result and new container of a deletion; key and slot unchanged |
| Vault.UnlockedVault.CommitVerifiedSlot | crates/vault-core/src/vault.rs:362-367 | moves to the slot and its generation only after the slot is checked again, else nothing changes |
| VaultProperties.EditKeepsSound | crates/vault-core/src/vault.rs:235-306 | any edit keeps bounds, unique ids and timeline, never moves the clock back, and changes nothing when it fails |
| VaultProperties.EditsKeepSound | crates/vault-core/src/vault.rs:235-306 | the same for every run of edits with any clock readings |
| VaultProperties.SealedSlotDecrypts | crates/vault-core/src/vault.rs:407-427 | encrypting a valid container and decrypting its slot gives the container back |
| VaultProperties.EncryptedSlotVerifies | crates/vault-core/src/vault.rs:314-394 | what a sound session encrypts for its inactive slot always verifies and holds its contents one generation on |
| VaultProperties.VerifiedSlotHoldsSession | crates/vault-core/src/vault.rs:376-394 | verification accepts exactly the inactive slot at the next generation holding the session's contents |
| VaultProperties.EditedVaultCanBeSaved | crates/vault-core/src/vault.rs:59-394 | from creation, after any edits, whatever can be encrypted for the inactive slot verifies |
| VaultProperties.CreatedVaultUnlocks | crates/vault-core/src/vault.rs:59-159 | a created vault unlocks with its phrase and no other, to the empty session |
| VaultProperties.RewrappingKeepsDataKey | crates/vault-core/src/vault.rs:168-206 | rewrapping keeps vault id, age and data key; the new phrase and no other unwraps it |
| VaultProperties.LookupAgreesWithMap | crates/vault-wasm/src/bridge.rs:341-348 | lookup finds an id exactly when the map of entries has it, with the same fields |
| VaultProperties.AddInsertsInMap | crates/vault-core/src/vault.rs:235-258 | addition inserts one fresh id into the map, or changes nothing |
| VaultProperties.UpdateChangesOneKey | crates/vault-core/src/vault.rs:265-289 | in the map of entries, update changes the fields of its id only, or nothing, because the id is absent or the fields invalid |
| VaultProperties.DeleteRemovesOneKey | crates/vault-core/src/vault.rs:296-306 | deletion removes its id only, or changes nothing because the id is absent |
| VaultProperties.FreshIdIsFirstUnusedDraw | crates/vault-core/src/vault.rs:396-404 | the id is the first unused draw within the attempts; failure means there was none |
| EntryEdits.AddOutcome | crates/vault-core/src/vault.rs:235-258 | an addition appends one entry under an id none had, both its times the later of now and the clock, which becomes the clock; all else is kept; or bounds, ten thousand entries or eight draws say why not |
| EntryEdits.UpdateOutcome | crates/vault-core/src/vault.rs:265-289 | an update keeps number, order, ids and creation times and every other entry; the entry's time of update is the largest of now, the clock and its creation; or why not |
| EntryEdits.DeleteOutcome | crates/vault-core/src/vault.rs:296-306 | a deletion drops the first entry with the id and keeps the others in order; the clock moves; or there is none |
| Randomness.CreatedFromTape | crates/vault-core/src/vault.rs:59-117 | bytes 0-15 are the vault id, 16-31 the salt, 32-63 the data key, 64-87 the nonce of the wrapped key, 88-111 that of the first slot |
| Randomness.CreateSessionFromTape | web/src/vault-persistence.js:34-53 | the same of the session and the cells a creation from JavaScript leaves, with the default KDF parameters |
| Randomness.EncryptsWithTape | crates/vault-core/src/vault.rs:314-344 | the slot a save encrypts: its clear labels, and the first 24 bytes of the tape as nonce |
| Randomness.SaveStoresFreshNonce | crates/vault-core/src/storage.rs:250-277 | after an acknowledged save the inactive cell holds a slot under the first 24 bytes of the tape |
| Randomness.SplitSaveStoresFreshNonce | web/src/vault-persistence.js:103-128 | the same of a split save |
| Randomness.SavesDifferInNonce | crates/vault-core/src/crypto.rs:99-120 | saves whose tapes differ there store different nonces |
| Randomness.RewrapsWithTape | crates/vault-core/src/vault.rs:168-206 | a phrase change takes a new salt and a new nonce from the tape and changes nothing else of the metadata |
| Randomness.ChangeStoresFreshSalt | web/src/vault-persistence.js:85-101 | after an acknowledged phrase change the metadata cell holds just that |
| Device.DeviceStorage.GetItem | crates/vault-core/src/storage.rs:80-85 | the stored value, or a read failure that changes nothing |
| Device.DeviceStorage.SetItem | crates/vault-core/src/storage.rs:87-93 | what each fault leaves under the key, and whether failure is reported |
| Device.DeviceStorage.RemoveItem | crates/vault-core/src/storage.rs:95-101 | what each fault leaves under the key, and whether failure is reported |
| Repository.WriteVerified | crates/vault-core/src/storage.rs:297-316 | success means the exact text is in place within its limit; no other cell ever changes |
| Repository.MetaIsUsableExactly | crates/vault-core/src/storage.rs:176-177 | an opening accepts metadata exactly if its text is within 16 KiB, parses and is valid |
| Repository.SlotIsUsableExactly | crates/vault-core/src/storage.rs:185-196 | an opening considers a slot exactly if its text is within 5 MiB, parses, and is valid for the vault and its key |
| Repository.PointerIsUsableExactly | crates/vault-core/src/storage.rs:178-184 | an opening heeds a pointer exactly if its text is within 1 KiB and parses as one of version 1 |
| Repository.OpeningSaysWhy | crates/vault-core/src/storage.rs:175-222 | which error an opening fails with: metadata missing, oversize, unparsable or invalid, in this order, or else nothing authenticates |
| Repository.VerifiedStepsSayWhy | crates/vault-core/src/storage.rs:287-316 | exactly when a verified write or removal succeeds, and which error it fails with |
| Repository.RemoveChecked | crates/vault-core/src/storage.rs:287-295 | success means the cell is empty; no other cell ever changes |
| Repository.TwoSlotRepository.WriteJsonVerified | crates/vault-core/src/storage.rs:297-316 | result and storage of a verified write under any faults |
| Repository.TwoSlotRepository.Initialize | crates/vault-core/src/storage.rs:140-167 | result and storage of a creation under any faults |
| Repository.TwoSlotRepository.ReadCandidates | crates/vault-core/src/storage.rs:185-196 | the loop keeps the usable slots in order, skipping unreadable and unusable ones |
| Repository.TwoSlotRepository.Authenticate | crates/vault-core/src/storage.rs:204-211 | the loop keeps the slots that decrypt to a container of the metadata's age |
| Repository.TwoSlotRepository.SelectCandidate | crates/vault-core/src/storage.rs:197-222 | authenticating, sorting and taking the first is the choice by generation, then pointer |
| Repository.SortedChoice | crates/vault-core/src/storage.rs:213-222 | the stable sort with the pointer tie-break puts that choice first |
| Repository.TwoSlotRepository.Open | crates/vault-core/src/storage.rs:175-242 | result, vault and storage of an opening under any faults |
| Repository.TwoSlotRepository.Save | crates/vault-core/src/storage.rs:250-277 | result, vault and storage of a save under any faults |
| Repository.TwoSlotRepository.ClearDeviceStorage | crates/vault-core/src/storage.rs:287-295 | result and storage of a removal, metadata first, under any faults |
| OpenProperties.OpenRefinesUnlockEach | crates/vault-core/src/storage.rs:175-242 | opening selects the highest generation among the slots that unlock by themselves, slot B of two equals exactly if the stored pointer is for it, and fails when none does |
| OpenProperties.PointerMattersOnlyInTies | crates/vault-core/src/storage.rs:351-361 | the pointer cell decides what is opened exactly when both slots unlock at one generation |
| OpenProperties.OpenOnDevice | crates/vault-core/src/storage.rs:175-242 | under any faults an opening changes no cell but the pointer, selects among what it could read, and leaves the pointer right |
| OpenProperties.SelectedPointerSelectsAgain | crates/vault-core/src/storage.rs:224-232 | a repaired pointer never changes the selection |
| OpenProperties.OpenIsIdempotent | crates/vault-core/src/storage.rs:224-241 | opening again with the same phrase gives the same vault, reports no repair and writes nothing |
| OpenProperties.UnreadableSlotIsSkipped | crates/vault-core/src/storage.rs:187-191 | a failed slot read makes an opening succeed with the older generation |
| SaveProperties.EncryptsUnless | crates/vault-core/src/vault.rs:314-344 | encryption fails exactly for the last generation, an oversize plaintext or missing randomness |
| SaveProperties.WrittenSlotReadsBack | crates/vault-core/src/storage.rs:262-267 | a slot written within the limit reads back as a slot that may be committed |
| SaveProperties.SaveOnDevice | crates/vault-core/src/storage.rs:250-277 | under any faults a save changes only the inactive slot and the pointer, and the session only on success |
| SaveProperties.PointerFollowsVerification | crates/vault-core/src/storage.rs:262-274 | whatever the session, no pointer is written before its slot has been read back and verifies |
| SaveProperties.SaveRefusesExactlyOversize | crates/vault-core/src/storage.rs:250-316 | VaultTooLarge, with nothing changed, exactly when plaintext or envelope plus base64url exceeds its limit |
| SaveProperties.SavedLengthIsKnown | crates/vault-core/src/storage.rs:303-304 | the length of the slot's JSON, computed from the contents before they are encrypted |
| SaveProperties.WrittenSlotPassesReadLimits | crates/vault-core/src/storage.rs:327-341 | an encrypted slot passes every bound of opening exactly when its JSON is within 5 MiB |
| Bridge.VaultBridge.AddEntry | crates/vault-wasm/src/bridge.rs:279-298 | refused while a change is pending or the session is locked; else the vault's addition |
| Bridge.VaultBridge.UpdateEntry | crates/vault-wasm/src/bridge.rs:306-326 | refused while a change is pending or the session is locked; else the vault's update |
| Bridge.VaultBridge.DeleteEntry | crates/vault-wasm/src/bridge.rs:334-339 | refused while a change is pending or the session is locked; else the vault's deletion |
| Bridge.VaultBridge.PrepareSave | crates/vault-wasm/src/bridge.rs:357-383 | leaves a pending slot for the inactive side; the session does not advance |
| Bridge.VaultBridge.VerifyPendingSlot | crates/vault-wasm/src/bridge.rs:391-405 | marks the pending slot verified on an exact readback, else changes nothing |
| Bridge.VaultBridge.CommitPendingSave | crates/vault-wasm/src/bridge.rs:413-431 | advances the session on an exact pointer readback after verification, else changes nothing |
| Bridge.VaultBridge.CancelPendingSave | crates/vault-wasm/src/bridge.rs:434-436 | forgets the pending save and nothing else |
| Bridge.VaultBridge.PreparePasswordChange | crates/vault-wasm/src/bridge.rs:446-469 | leaves candidate metadata pending; the held metadata stays |
| Bridge.VaultBridge.CommitPasswordChange | crates/vault-wasm/src/bridge.rs:477-494 | takes the candidate over on an exact readback, else changes nothing |
| Bridge.VaultBridge.CancelPasswordChange | crates/vault-wasm/src/bridge.rs:496-498 | forgets the candidate and nothing else |
| Bridge.VaultBridge.Lock | crates/vault-wasm/src/bridge.rs:501-506 | a locked session holds no vault, metadata or pending change |
| BridgeProperties.CallKeepsBridge | crates/vault-wasm/src/bridge.rs:279-516 | every call keeps: one pending change at most, none when locked, a pending slot holds the current contents one generation on |
| BridgeProperties.CallsKeepBridge | crates/vault-wasm/src/bridge.rs:279-516 | the same for every sequence of calls |
| BridgeProperties.PendingSaveCommits | crates/vault-wasm/src/bridge.rs:391-431 | an exact slot readback and then an exact pointer readback always commit |
| BridgeProperties.OnlyExactReadbackCommits | crates/vault-wasm/src/bridge.rs:391-494 | verification and commits succeed exactly on the pending texts, in order, and a refusal changes nothing |
| BridgeProperties.NoCommitWithoutReadback | crates/vault-wasm/src/bridge.rs:279-516 | over every sequence of calls, no save commits whose slot was not read back exactly |
| BridgeProperties.BridgeRefusals | crates/vault-wasm/src/bridge.rs:279-516 | which calls a pending or locked session refuses, with which error, changing nothing; no slot is committed that does not verify; a cancellation forgets its own change alone |
| BridgeProperties.CreatedBridgeStarts | crates/vault-wasm/src/bridge.rs:132-158 | a created session starts within the invariant, wrapped for its phrase |
| Persistence.AdapterSet | web/src/storage.js:36-48 | success means the value is in place; no other cell ever changes |
| Persistence.AdapterRemove | web/src/storage.js:50-61 | success means the cell is empty; no other cell ever changes |
| Persistence.AdapterSaysWhy | web/src/storage.js:36-61 | exactly when a step of the adapter succeeds, whatever was reported, and which error it fails with |
| Persistence.VaultPersistence.SetVerified | web/src/storage.js:36-48 | the readback, not the report, decides |
| Persistence.VaultPersistence.RemoveVerified | web/src/storage.js:50-61 | the readback, not the report, decides |
| Persistence.VaultPersistence.GetExisting | web/src/vault-persistence.js:112-115 | a readback that finds nothing is an error |
| Persistence.VaultPersistence.WriteSlot | web/src/vault-persistence.js:111-116 | slot write, readback and verification under any faults and a lock at any await |
| Persistence.VaultPersistence.WritePointer | web/src/vault-persistence.js:118-123 | pointer write, readback and commit under any faults and a lock at any await |
| Persistence.VaultPersistence.SaveSession | web/src/vault-persistence.js:103-128 | storage, session and result of a split save; every failure cancels the pending save |
| Persistence.VaultPersistence.ChangeMasterPassword | web/src/vault-persistence.js:85-101 | storage, session and result of a phrase change; every failure cancels it |
| Persistence.VaultPersistence.LoadAll | web/src/vault-persistence.js:144-152 | all four cells or an error |
| Persistence.VaultPersistence.OpenBridge | crates/vault-wasm/src/bridge.rs:166-197 | opening a copy of the cells in memory, with the repaired pointer if any |
| Persistence.VaultPersistence.OpenSession | web/src/vault-persistence.js:55-75 | storage, session and result of an opening; a failed pointer repair yields no session |
| Persistence.VaultPersistence.PersistBundle | web/src/vault-persistence.js:154-161 | slot, metadata and pointer are written in this order, stopping at the first failure |
| Persistence.VaultPersistence.CreateSession | web/src/vault-persistence.js:34-53 | refused over existing metadata; a failed write yields no session |
| Persistence.VaultPersistence.DestroySession | web/src/vault-persistence.js:130-142 | locks the session first, then removes slots, pointer and metadata in this order |
| Refinement.MonolithicOutcome | crates/vault-core/src/storage.rs:250-277 | cells, verdict and session of a repository save by where its faults stop it |
| Refinement.SplitOutcome | web/src/vault-persistence.js:103-128 | cells, verdict and session of a split save by where faults or a lock stop it |
| Refinement.SplitRefinesMonolithic | web/src/vault-persistence.js:103-128 | every outcome of a split save of a fitting slot is an outcome of the repository's save under faults no worse; for any other slot the repository changes nothing |
| Refinement.SplitRefinesExactlyWhenItFits | web/src/vault-persistence.js:103-128 | some faults take the repository's save where a split save without faults ends if and only if the slot fits |
| Refinement.QuietSplitSaveSucceeds | web/src/vault-persistence.js:103-128 | without faults a split save of what can be encrypted succeeds and leaves slot and pointer in place |
| Refinement.MonolithicRefinesSplit | crates/vault-core/src/storage.rs:250-277 | every outcome of the repository's save, its refusal for size included, is an outcome of a split save under faults no worse |
| Refinement.RefusedAlike | crates/vault-wasm/src/bridge.rs:357-368 | what cannot be encrypted is refused by both with the same error and nothing changed |
| Recovery.SelectByHeld | crates/vault-core/src/storage.rs:175-222 | which phrase opens a store, and to what, from the wrapping phrase and the two recovered containers |
| Recovery.SelectedSession | crates/vault-core/src/storage.rs:204-241 | an opened session belongs to the metadata's vault, is valid, and is what its own slot holds |
| Recovery.EncryptedIsHeld | crates/vault-core/src/storage.rs:260-262 | a saved slot within the limit is recovered as the session's contents one generation on |
| Recovery.OversizeHoldsNothing | crates/vault-core/src/storage.rs:335-337 | a slot beyond the limit is never looked at |
| Recovery.ForeignHoldsNothing | crates/vault-core/src/storage.rs:204-211 | text not sealed under the data key recovers nothing |
| Runs.RepositorySaveKeeps | crates/vault-core/src/storage.rs:250-277 | a repository save, however it ends, keeps the committed slot and leaves beside it older contents or an attempt |
| Runs.SplitSaveKeeps | web/src/vault-persistence.js:103-128 | the same for a split save that fits or fails |
| Runs.OversizeFailureKeeps | web/src/vault-persistence.js:103-128 | the same for a failed split save of an oversize slot, however far it got |
| Runs.RepositoryOpenKeeps | crates/vault-core/src/storage.rs:175-242 | an opening settles the newest contents as committed |
| Runs.OpenSessionSelects | web/src/vault-persistence.js:55-75 | opening from JavaScript yields exactly what the cells select, with no condition on faults, or no session |
| Runs.OpenSessionSaysWhy | web/src/vault-persistence.js:55-75 | which error an opening from JavaScript fails with, in which order |
| Runs.ChangeOnDevice | web/src/vault-persistence.js:85-101 | a phrase change touches only the metadata cell, which ends old, new or, exactly if its write tears, as the residue |
| Runs.EventKeeps | crates/vault-core/src/storage.rs:140-277 | every event keeps the committed slot, the parity of slots, the wrapped key and the live session in order |
| Runs.RunKeeps | crates/vault-core/src/storage.rs:140-277 | the same over every run |
| Runs.CrashAtomicity | crates/vault-core/src/storage.rs:175-277 | after any run one phrase only opens the store, whatever the pointer: to committed contents or an attempt since, under the key of creation |
| Runs.FaultFreeOpenSucceeds | crates/vault-core/src/storage.rs:175-242 | a device without faults then opens it |
| Runs.SavesSpareCommittedSlot | crates/vault-core/src/storage.rs:255-262 | no save ever writes the committed slot or the metadata |
| Runs.OpeningIsNewestIffRead | crates/vault-core/src/storage.rs:186-191 | an opening yields the newest contents exactly if it read their slot; otherwise a later save overwrites them |
| Runs.ReopensAlikeIffRead | crates/vault-core/src/storage.rs:224-241 | opening again yields the same vault if and only if the first opening read the slot of the newest contents |
| Provenance.DecryptedWasMade | crates/vault-core/src/crypto.rs:99-133 | a ciphertext the vault made, wherever it is put, decrypts only to what was made for that slot and generation |
| Provenance.SelectedIsSourced | crates/vault-core/src/storage.rs:175-242 | an opened session is valid, and under the data key its contents were made for its slot and generation |
| Provenance.SourcedIgnoresPointer | crates/vault-core/src/storage.rs:213-222 | a session opened under the data key does not depend on the pointer cell |
| Provenance.HappeningKeepsSource | crates/vault-core/src/storage.rs:175-277 | every event under any faults, and every change or replay of cells, keeps the provenance of slots and sessions |
| Provenance.HappeningKeepsKey | crates/vault-wasm/src/bridge.rs:446-498 | every event keeps the data key of creation in the metadata and the session, unless metadata of another key is put in |
| Provenance.ReachableIsUntied | crates/vault-core/src/storage.rs:213-222 | with the key kept no two slots tie for any phrase, so the tie-break is dead |
| Provenance.RunKeepsSource | crates/vault-core/src/storage.rs:175-277 | the same over every run |
| Provenance.WhatOpensWasMade | crates/vault-core/src/storage.rs:175-242 | after any run, tampering and replays included, what opens under the data key was encrypted by creation or a save for that slot and generation, whatever the pointer cell holds |
| Provenance.RunsKeepKeyAndNeverTie | crates/vault-core/src/vault.rs:168-206 | over runs that replace metadata only by the vault's own or by something unusable: the key of creation everywhere, no ties, no opening depends on the pointer |
| Provenance.InitializeIsSourced | crates/vault-core/src/storage.rs:140-167 | wherever the repository's creation stops, over residue of other keys, a run starts with provenance and the key kept |
| Provenance.CreateSessionIsSourced | web/src/vault-persistence.js:34-53 | the same from JavaScript |
| Provenance.CreationThenProvenance | crates/vault-core/src/storage.rs:140-277 | both conclusions from a creation by the repository, stopped anywhere, and over any run |
| Provenance.CreateSessionThenProvenance | web/src/vault-persistence.js:34-161 | the same from a creation from JavaScript |
| Parity.RunKeepsPairs | crates/vault-core/src/vault.rs:83-114 | after any run with misread slots, oversize saves, torn metadata, tampering and replays, sessions, slots and pointer pair A with even and B with odd generations |
| Parity.HappeningKeepsPointer | crates/vault-core/src/storage.rs:224-274 | no event writes a pointer of the wrong parity |
| Parity.CreationThenPairs | crates/vault-core/src/storage.rs:140-277 | the same from a creation by the repository, stopped anywhere, whatever pointer an earlier vault left if the creation succeeded |
| Parity.CreateSessionThenPairs | web/src/vault-persistence.js:34-161 | the same from a creation from JavaScript |
| Creation.CreatedDocuments | crates/vault-core/src/vault.rs:59-117 | a new vault's documents validate, fit their limits and recover the empty container |
| Creation.CreationSucceedsExactly | crates/vault-core/src/vault.rs:59-128 | a vault is created exactly for a phrase of 16 characters, KDF bounds that hold and 112 random bytes; else which error |
| Creation.CreationRefusals | crates/vault-core/src/storage.rs:140-157 | by either path a creation over metadata, over a failed read, or of documents that do not belong together is refused and writes nothing |
| Creation.FreshStoreIsInOrder | web/src/vault-persistence.js:34-53 | on an empty working device creation succeeds, the invariant of runs holds and the store opens to the new session |
| Creation.InitializeIsRecoverable | crates/vault-core/src/storage.rs:140-167 | over any residue every prefix of a creation leaves no metadata, a store in order, or a torn metadata cell |
| Creation.CreateSessionIsRecoverable | web/src/vault-persistence.js:34-53 | the same from JavaScript, with a session only when everything is in place |
| Creation.CreationThenAnyRun | crates/vault-core/src/storage.rs:140-277 | crash atomicity from creation by the repository, its session live, or failed after its metadata |
| Creation.CreateSessionThenAnyRun | web/src/vault-persistence.js:34-161 | the same from creation from JavaScript |
| Creation.InitializeStrandsWhenTorn | crates/vault-core/src/storage.rs:151-160 | a creation that stops is recoverable if and only if its metadata write did not tear after a slot write that was done, or left metadata wrapping the new key; else creation refuses to run |
| Creation.CreateSessionStrandsWhenTorn | web/src/vault-persistence.js:154-161 | the same from JavaScript, where the slot write may have been reported failed |
| Creation.NewSlotOpensExactlyIfWrapped | crates/vault-core/src/storage.rs:175-222 | with the first slot in place the store opens to the new vault exactly if its metadata wraps the key for the phrase |
| Creation.TornCreationStrands | crates/vault-core/src/storage.rs:151-177 | on an empty device a creation by either path whose metadata write tears leaves a store that neither opens nor lets creation run |
| Creation.UnusableMetadataStrands | crates/vault-core/src/storage.rs:151-177 | with metadata present but unusable, opening and creation fail by either path and change nothing |
| Rotation.OtherMetaOpensAlike | crates/vault-core/src/vault.rs:168-206 | the same slots under rewrapped metadata open to the same session, for the new phrase only |
| Rotation.OpensExactlyIfWrapped | crates/vault-core/src/storage.rs:176-202 | under any text in the metadata cell a phrase opens the same session exactly if the text wraps its key for that phrase |
| Rotation.ExactlyOnePhraseOpens | crates/vault-wasm/src/bridge.rs:446-498 | wherever a phrase change stops exactly one of the two phrases opens, to the same session, if and only if the metadata write did not tear or left metadata wrapping the key for one of them; slots are untouched |
| Rotation.TornChangeLosesTheVault | web/src/vault-persistence.js:85-101 | from an empty device: created, then a change tears the metadata write, and no phrase opens |
| Rotation.OnlyTheCurrentPhraseRewraps | crates/vault-core/src/vault.rs:168-206 | a change is prepared exactly with the current phrase, a new one of 16 characters and 40 random bytes; else which error, asked for in this order |
| Oversize.SavedSlotSelects | crates/vault-core/src/storage.rs:335-337 | with the new slot in place opening takes it exactly if it is within the limit |
| Oversize.SplitSaveIsDurableWhenItFits | crates/vault-wasm/src/bridge.rs:357-431 | an acknowledged split save is what opening yields if and only if its slot, of a length known in advance, is within the limit |
| Oversize.TwoOversizeSavesLoseTheVault | web/src/vault-persistence.js:103-128 | two acknowledged oversize saves in a row, whatever is edited between, leave a store that no phrase opens |
| Oversize.AcknowledgedSaveIsLost | crates/vault-wasm/src/bridge.rs:357-431 | from an empty working device: creation, a thousand additions and a save all succeed, and the store opens to the empty vault |
| Oversize.AcknowledgedSavesLoseTheVault | crates/vault-wasm/src/bridge.rs:357-431 | saved once more without faults, with success reported again, no phrase opens the store |
| Destruction.ClearingIsAtomic | crates/vault-core/src/storage.rs:287-295 | wherever a clearing stops, metadata is gone or, if its own removal did not tear, the store opens as before |
| Destruction.ClearingStrandsWhenTorn | crates/vault-core/src/storage.rs:287-295 | a clearing keeps its promise if and only if the metadata removal does not tear leaving residue, or leaves metadata wrapping the key for the phrase |
| Destruction.TornClearingStrands | crates/vault-core/src/storage.rs:287-295 | from an empty device: created, then a clearing tears its first removal, and neither opening nor creation works |
| Destruction.DestructionOutcome | web/src/vault-persistence.js:130-142 | the cells a destruction leaves under any faults, by the first removal not done |
| Destruction.DestructionEndsWithMetadata | web/src/vault-persistence.js:130-142 | metadata goes only once every other cell is empty; success means all are; without faults it succeeds from any cells |
| Destruction.InterruptedDestruction | web/src/vault-persistence.js:130-142 | from any reachable state the store opens as before or is empty if and only if the faults spare the newest slot or reach the metadata; else it rolls back or opens to nothing, by which slot they spare |
| Destruction.InterruptedDestructionRollsBack | web/src/vault-persistence.js:130-142 | from an empty device: created, saved twice, destruction stopped after slot A; the store opens to the contents before the last save |
| Destruction.InterruptedDestructionStrands | web/src/vault-persistence.js:130-142 | from any store, destruction stopped after both slots: neither opening nor creation works |
| Deadline.TickKeepsTimer | web/src/app-controller.js:63-75 | every event keeps the deadline at last activity plus timeout and the last observed time before it |
| Deadline.TicksKeepTimer | web/src/app-controller.js:171-228 | the same over every sequence of events |
| Deadline.RunsEnforceDeadline | web/src/app-controller.js:171-228 | after any run the deadline is the last activity plus the last acceptable timeout, and what each event makes of a held session by its reading, the last one and the deadline |
| Deadline.TimeoutIsLastSet | web/src/app-controller.js:182-186 | the timeout after any run is the last one set within 1 to 1440 minutes |
| Deadline.LateTouchExtends | web/src/app-controller.js:188-193 | a touch at or after the deadline moves it instead of dropping the session |
| Controller.VaultAppController.Lock | web/src/app-controller.js:51-57 | session, deadline and selection are forgotten together |
| Controller.VaultAppController.ObserveSessionTime | web/src/app-controller.js:221-228 | a reading that is no safe integer or runs backwards drops the session |
| Controller.VaultAppController.TouchSession | web/src/app-controller.js:188-193 | the controller's fields follow the deadline machine; returns the deadline of the session still held |
| Controller.VaultAppController.Deactivate | web/src/app-controller.js:63-68 | the controller's fields follow the deadline machine; returns the deadline of the session still held |
| Controller.VaultAppController.ExpireAuthentication | web/src/app-controller.js:204-215 | reports expiry exactly when it drops a session |
| Controller.VaultAppController.Resume | web/src/app-controller.js:70-75 | the controller's fields follow the deadline machine |
| Controller.VaultAppController.SetSessionTimeoutMinutes | web/src/app-controller.js:182-186 | accepts exactly whole minutes from 1 to 1440 and counts as activity |
| Controller.VaultAppController.ShowVault | web/src/app-controller.js:195-198 | the list becomes the session's and the selection is cleared, or nothing changes without an open session |
| Controller.VaultAppController.ActivateSession | web/src/app-controller.js:171-176 | takes the session over with a fresh deadline, or fails and holds none |
| Controller.VaultAppController.Create | web/src/app-controller.js:41-44 | state and storage after a creation |
| Controller.VaultAppController.Unlock | web/src/app-controller.js:46-49 | state and storage after an unlock |
| Controller.VaultAppController.SaveEntry | web/src/app-controller.js:130-146 | a description of spaces is dropped; any failure after the session check drops the session; success shows the new list |
| Controller.VaultAppController.DeleteSelected | web/src/app-controller.js:148-160 | any failure after the selection check drops the session; success shows the new list |
| Listing.SortedIsStable | web/src/app-controller.js:230-235 | sorting puts summaries newest first, keeps exactly them, and keeps their order at equal times |
| Listing.EntryListLists | crates/vault-wasm/src/bridge.rs:219-233 | the list shows of each entry its id, title and two times, newest first, stable at equal times |
| Listing.ListHidesSecrets | crates/vault-wasm/src/bridge.rs:219-233 | entries that differ in secrets and descriptions alone are listed alike |
| Controller.VaultAppController.ChangeMasterPassword | web/src/app-controller.js:77-92 | only a wrong current phrase or an unacceptable new one leaves the session open after failure |
| Controller.VaultAppController.OpenEntry | web/src/app-controller.js:99-104 | selects an entry that exists, else changes nothing |
| Controller.VaultAppController.BeginEdit | web/src/app-controller.js:106-111 | puts an entry that exists, or none, under edit, else changes nothing |
| Controller.VaultAppController.Destroy | web/src/app-controller.js:162-169 | a failed destruction leaves a locked session held |
| Agreement.AgreementMeansOpening | web/src/vault-persistence.js:55-75 | in agreement, opening yields the held session for its phrase, none for another, and writes nothing |
| Agreement.AheadIsNotOpened | web/src/vault-persistence.js:55-75 | a session put ahead by an oversize save is not what its phrase opens, and no other phrase opens anything |
| Agreement.StandingReopens | web/src/vault-persistence.js:55-75 | a held session is what its phrase opens exactly if it stands in agreement |
| Agreement.OpenedSessionAgrees | web/src/vault-persistence.js:55-75 | an opened session agrees with storage, pointer included |
| Agreement.OpeningKeepsAgreeingCells | web/src/vault-persistence.js:55-75 | a further opening, right or wrong, changes nothing stored |
| Agreement.CreatedSessionAgrees | web/src/vault-persistence.js:34-53 | a created session agrees with storage over any residue of another key |
| Agreement.SavedSessionAgrees | web/src/vault-persistence.js:103-128 | an acknowledged save restores agreement if and only if its slot is within the limit |
| Agreement.SavedSessionStands | web/src/vault-persistence.js:103-128 | however the session stood, an acknowledged save that fits brings agreement, and one that does not puts the session ahead |
| Agreement.ChangeResult | web/src/vault-persistence.js:85-101 | the failures that keep the session come before any storage step |
| Agreement.ChangedSessionAgrees | web/src/vault-persistence.js:85-101 | an acknowledged phrase change restores agreement |
| Agreement.ChangedSessionStands | web/src/vault-persistence.js:85-101 | an acknowledged phrase change leaves the session standing to storage as it did |
| Agreement.EventKeepsAgreement | web/src/app-controller.js:41-228 | every event leaves a held session in agreement or ahead, as its last acknowledged save fits, and moves the deadline as the deadline machine does |
| Agreement.RunKeepsAgreement | web/src/app-controller.js:41-228 | the same over every run |
| Agreement.SessionAgreesWithStorage | web/src/app-controller.js:77-160 | after any run from any storage, a held unlocked session is what opening yields if and only if its last acknowledged save fits; its deadline is last activity plus timeout |
| Agreement.ListShowsEntries | web/src/app-controller.js:230-235 | while a session is open the list is such a list of exactly its entries |
| Agreement.SavedEntryIsStored | web/src/app-controller.js:130-146 | after an acknowledged save the entry under edit, or a new last one, holds title and secret as typed and the description unless all white space, with its times; every other entry is as before; opening shows it if and only if the slot fits |
| Agreement.DeletedEntryIsGone | web/src/app-controller.js:148-160 | after an acknowledged deletion the selected entry is gone and the others are as before, in order; opening shows it if and only if the slot fits |
| ControllerProperties.LookupIsFirst | crates/vault-wasm/src/bridge.rs:341-348 | a lookup gives the first entry with the id, or says that there is none |
| ControllerProperties.ViewsSelect | web/src/app-controller.js:99-111 | a view selects and an edit view puts under edit exactly an entry that is there; else which error, and nothing moves |
| ControllerProperties.EditReachesTheChosen | web/src/app-controller.js:106-146 | an edit view followed by a save touches the chosen entry alone; a blank one appends |
| ControllerProperties.DeletionReachesTheViewed | web/src/app-controller.js:99-160 | a view followed by a deletion drops the viewed entry alone |
| ControllerProperties.LockedRefuses | web/src/app-controller.js:237-240 | without an open session nothing is edited, viewed or changed |
| ControllerProperties.FailedEditForgets | web/src/app-controller.js:142-160 | a failed edit leaves nothing held, but for a deletion with nothing selected, which changes nothing |
| ControllerProperties.ImpossibleEditStoresNothing | web/src/app-controller.js:130-160 | fields out of bounds, ten thousand entries or a missing entry: which error, and nothing is stored |
| ControllerProperties.CreationOpensEmpty | web/src/app-controller.js:41-44 | a creation opens the empty vault made from the tape under a fresh deadline, or changes nothing held, or leaves nothing held |
| ControllerProperties.OpeningHoldsTheStored | web/src/app-controller.js:46-49 | an unlock holds exactly what the storage opens to under its phrase, under a fresh deadline, or changes nothing held, or leaves nothing held |
| ControllerProperties.PhraseChangeOutcome | web/src/app-controller.js:77-92 | a mistyped current phrase or an unacceptable new one is named and changes nothing; any other failure leaves nothing held; success keeps the session, wrapped for the new phrase |
| ControllerProperties.DestructionOfSession | web/src/app-controller.js:162-169 | a removal leaves nothing stored and nothing held; a failed one leaves a locked session and metadata that goes last |
| VerifiedMutation.MutateAndVerify | web/src/storage.js:137-172 | at most ceil(timeout/50) delays and one more readback; success means the last readback showed the value and none before did; no time passes but 50 ms a delay, the remaining timeout, readbacks and lag, so without these a timeout comes exactly at the deadline after ceil(timeout/50) delays |

## Left out

- Argon2id, HKDF and XChaCha20-Poly1305: replaced by symbolic constructors; their failures (encryption,
  key derivation) cannot occur in the model.
- Parsing of JSON and base64url: a stored string is what it parses as and its length. What the serializer
  writes is there character by character (`JsonText`), for its length only.
- KdfParams and wrapped keys name their algorithms by a one-value enumeration in the source; the model
  keeps only the length that it adds to the JSON.
- The payloads of error values (which check failed) are dropped; the kinds and their order are kept.
- Randomness is a tape given to each call: that successive calls draw from one generator is not modelled.
- Crypto.RandomArray: a failing random source is a tape too short; it cannot fail after enough bytes.
- Controller.VaultAppController.Destroy: the legacy keys, as in the line on DestroySession below.
- Persistence.AdapterSet: one readback stands for the polling loop, whose own behaviour and bound are
  `VerifiedMutation.MutateAndVerify`; a call that throws at once is a refused write.
- Device.DeviceStorage.SetItem: a write that lands after its operation has been given up, and two writers
  at once, are not modelled; the protocol assumes one writer.
- Device.DeviceStorage.GetItem: a successful read shows what the cell holds; stale reads are not modelled.
- Persistence.VaultPersistence.LoadAll: the four reads run one after another, not at once.
- Persistence.VaultPersistence.DestroySession: the legacy keys removed after the four vault keys, and the
  secure-storage cache, are not part of this model.
- Controller.VaultAppController.ShowVault: screens and listeners are not part of this model, here or
  anywhere in the controller.
- Controller.VaultAppController.SetSessionTimeoutMinutes: the minutes arrive as a number already
  converted; the stored preference is not part of this model.
- Deadline.RunsEnforceDeadline: a deadline beyond the safe integers is an exact integer, not a rounded one.
- Runs.CrashAtomicity: assumes that the metadata cell is replaced as a whole, that torn residue is not
  sealed under the vault's own key, that the slot reads of a repository opening work and that a save through
  the bridge of a slot beyond the limit does not report success; what happens otherwise is stated by the
  lemmas named above.
- Creation.CreationThenAnyRun: assumes the same of the run after the creation; so does
  Creation.CreateSessionThenAnyRun. Provenance.CreationThenProvenance and
  Provenance.CreateSessionThenProvenance do not.
- Runs.SplitSaveKeeps: leaves out the acknowledged save of an oversize slot, for which the oversize lemmas
  say what is lost.
- Provenance.WhatOpensWasMade: assumes that nobody but the vault makes ciphertexts under its data key; which
  of the contents it made opens is not said, since a replayed store opens to older contents.
- Runs.EventKeeps: assumes the same of one event, and Runs.RunKeeps of every event of a run.
- Agreement.SessionAgreesWithStorage: assumes that nothing else writes the storage while an unlocked
  session is held and that a new vault's key seals nothing in the residue; a lock may arrive at any await,
  but no other event may.
- Agreement.EventKeepsAgreement: assumes the same of one event, and Agreement.RunKeepsAgreement of every
  event of a run.
- Zeroization, `Drop`, `Debug` and the wasm-bindgen layer, apart from its check of timestamps.
- User interface, themes, translations, the preview runtime and Telegram capability checks.
