/** What every run of edits keeps, what encryption promises verification, and the map the entries stand for. */
module VaultProperties {
  import opened Wrappers
  import opened Bytes
  import opened Aad
  import opened Model
  import opened JsonLength
  import opened Validation
  import opened Crypto
  import opened Vault

  // ---- Runs of edits ----

  datatype Request =
    | Add(input: Fields, now: u64, tape: seq<byte>)
    | Update(id: EntryId, input: Fields, now: u64)
    | Delete(id: EntryId, now: u64)

  function AfterEdit(c: Container, request: Request): Container {
    match request
    case Add(input, now, tape) => AfterAdd(c, input, now, tape).container
    case Update(id, input, now) => AfterUpdate(c, id, input, now).container
    case Delete(id, now) => AfterDelete(c, id, now).container
  }

  predicate EditSucceeds(c: Container, request: Request) {
    match request
    case Add(input, now, tape) => AfterAdd(c, input, now, tape).result.Ok?
    case Update(id, input, now) => AfterUpdate(c, id, input, now).result.Ok?
    case Delete(id, now) => AfterDelete(c, id, now).result.Ok?
  }

  function AfterEdits(c: Container, requests: seq<Request>): Container
    decreases requests
  {
    if requests == [] then c else AfterEdits(AfterEdit(c, requests[0]), requests[1..])
  }

  predicate Sound(c: Container) {
    ValidContainer(c, c.vaultId, c.generation)
  }

  /** The parts of a container no edit touches, and the clock that never runs backwards. */
  predicate Continues(c: Container, d: Container) {
    && d.vaultId == c.vaultId && d.generation == c.generation && d.createdAt == c.createdAt
    && c.updatedAt <= d.updatedAt
  }

  lemma FreshIdIsFresh(entries: seq<Entry>, tape: seq<byte>, attempts: nat)
    ensures var r := FreshId(entries, tape, attempts);
            r.Ok? ==> forall i :: 0 <= i < |entries| ==> entries[i].id != r.value
    decreases attempts
  {
  }

  lemma EditKeepsSound(c: Container, request: Request)
    requires Sound(c)
    ensures Sound(AfterEdit(c, request)) && Continues(c, AfterEdit(c, request))
    ensures !EditSucceeds(c, request) ==> AfterEdit(c, request) == c
  {
    hide AfterAdd, AfterUpdate, AfterDelete, Sound;
    match request
    case Add(input, now, tape) => AddKeepsSound(c, input, now, tape);
    case Update(id, input, now) => UpdateKeepsSound(c, id, input, now);
    case Delete(id, now) => DeleteKeepsSound(c, id, now);
  }

  lemma AddKeepsSound(c: Container, input: Fields, now: u64, tape: seq<byte>)
    requires Sound(c)
    ensures var r := AfterAdd(c, input, now, tape);
            Sound(r.container) && Continues(c, r.container) && (r.result.Err? ==> r.container == c)
  {
    hide FreshId, ValidFields;
    FreshIdIsFresh(c.entries, tape, MAX_ID_GENERATION_ATTEMPTS);
  }

  lemma UpdateKeepsSound(c: Container, id: EntryId, input: Fields, now: u64)
    requires Sound(c)
    ensures var r := AfterUpdate(c, id, input, now);
            Sound(r.container) && Continues(c, r.container) && (r.result.Err? ==> r.container == c)
  {
    hide ValidFields;
  }

  lemma DeleteKeepsSound(c: Container, id: EntryId, now: u64)
    requires Sound(c)
    ensures var r := AfterDelete(c, id, now);
            Sound(r.container) && Continues(c, r.container) && (r.result.Err? ==> r.container == c)
  {
    hide ValidFields;
  }

  /** From any sound container, every run of edits with any clock readings ends in a sound container. */
  lemma {:induction false} EditsKeepSound(c: Container, requests: seq<Request>)
    requires Sound(c)
    ensures Sound(AfterEdits(c, requests)) && Continues(c, AfterEdits(c, requests))
    decreases |requests|
  {
    if requests != [] {
      EditKeepsSound(c, requests[0]);
      EditsKeepSound(AfterEdit(c, requests[0]), requests[1..]);
    }
  }

  // ---- Encryption and verification ----

  function NextContainer(c: Container): Container
    requires c.generation < U64_MAX
  {
    c.(generation := c.generation + 1)
  }

  lemma SealedSlotDecrypts(dek: Dek, vaultId: VaultId, slot: SlotId, generation: u64, c: Container, nonce: seq<byte>)
    requires |nonce| == NONCE_BYTES
    requires ContainerLength(c) <= MAX_SLOT_JSON_BYTES
    requires ValidContainer(c, vaultId, generation)
    ensures DecryptContainer(dek, SealSlot(dek, vaultId, slot, generation, ContainerJson(c), nonce)) == Ok(c)
  {
    hide VaultSlotAad, ContainerLength, ValidContainer;
  }

  /** The slot a sound session encrypts for its inactive side always verifies and holds its contents. */
  lemma EncryptedSlotVerifies(v: Session, tape: seq<byte>)
    requires Sound(v.container)
    requires EncryptForSlot(v, v.slot.Other(), tape).Ok?
    ensures v.container.generation < U64_MAX
    ensures var s := EncryptForSlot(v, v.slot.Other(), tape).value;
            && s.slot == v.slot.Other() && s.generation == v.container.generation + 1
            && ValidSlot(s, v.container.vaultId)
            && DecryptContainer(v.dek, s) == Ok(NextContainer(v.container))
            && CheckNextSlot(v, s) == Ok(())
            && s.ciphertext.Sealed? && s.ciphertext.key == DataKey(v.dek)
  {
    hide VaultSlotAad, ContainerLength;
    var next := NextContainer(v.container);
    assert Sound(next);
  }

  /** Only the inactive slot at the next generation, holding exactly the session's contents, is committed. */
  lemma VerifiedSlotHoldsSession(v: Session, s: Slot)
    ensures CheckNextSlot(v, s).Ok? <==>
      && v.container.generation < U64_MAX
      && s.slot == v.slot.Other() && s.generation == v.container.generation + 1
      && ValidSlot(s, v.container.vaultId)
      && DecryptContainer(v.dek, s) == Ok(NextContainer(v.container))
  {
  }

  /** From creation on, whatever is edited, what can be encrypted for the inactive slot verifies. */
  lemma EditedVaultCanBeSaved(phrase: Phrase, config: KdfConfig, now: u64, tape: seq<byte>,
                              requests: seq<Request>, nonce: seq<byte>)
    requires CreateVault(phrase, config, now, tape).Ok?
    ensures var v0 := CreateVault(phrase, config, now, tape).value.session;
            var v := v0.(container := AfterEdits(v0.container, requests));
            && Sound(v.container)
            && (var s := EncryptForSlot(v, v.slot.Other(), nonce);
                s.Ok? ==> CheckNextSlot(v, s.value).Ok?)
  {
    CreatedVaultUnlocks(phrase, config, now, tape, phrase);
    hide CreateVault, EncryptForSlot, CheckNextSlot;
    var v0 := CreateVault(phrase, config, now, tape).value.session;
    EditsKeepSound(v0.container, requests);
    var v := v0.(container := AfterEdits(v0.container, requests));
    if EncryptForSlot(v, v.slot.Other(), nonce).Ok? {
      EncryptedSlotVerifies(v, nonce);
    }
  }

  /** A created vault unlocks with its phrase to the empty session, and with no other phrase. */
  lemma CreatedVaultUnlocks(phrase: Phrase, config: KdfConfig, now: u64, tape: seq<byte>, other: Phrase)
    requires CreateVault(phrase, config, now, tape).Ok?
    ensures var c := CreateVault(phrase, config, now, tape).value;
            && Unwraps(c.meta, phrase, c.session.dek)
            && UnlockVault(phrase, c.meta, c.initialSlot) == Ok(c.session)
            && (UnlockVault(other, c.meta, c.initialSlot).Ok? <==> other == phrase)
            && c.session.container == EmptyContainer(c.meta.vaultId, now)
            && Sound(c.session.container)
  {
    hide VaultSlotAad, WrappedDekAad, ContainerLength;
  }

  /** Rewrapping keeps the vault's identity and its data key; the new phrase takes the place of the old. */
  lemma RewrappingKeepsDataKey(
    current: Phrase, replacement: Phrase, meta: Meta, v: Session, config: KdfConfig, tape: seq<byte>, p: Phrase, dek: Dek)
    requires RewrapVaultKey(current, replacement, meta, v, config, tape).Ok?
    ensures var m := RewrapVaultKey(current, replacement, meta, v, config, tape).value;
            && m.vaultId == meta.vaultId && m.createdAt == meta.createdAt
            && Unwraps(meta, current, v.dek)
            && (Unwraps(m, p, dek) <==> p == replacement && dek == v.dek)
  {
  }

  // ---- The finite map the entries stand for ----

  /** Fields by identifier; for a repeated identifier, those of the first entry, as lookup finds them. */
  function AsMap(entries: seq<Entry>): map<EntryId, Fields> {
    map id | id in Ids(entries) && IndexOf(entries, id).Some? :: entries[IndexOf(entries, id).value].fields
  }

  lemma LookupAgreesWithMap(entries: seq<Entry>, id: EntryId)
    ensures IndexOf(entries, id).Some? <==> id in AsMap(entries)
    ensures IndexOf(entries, id).Some? ==> entries[IndexOf(entries, id).value].fields == AsMap(entries)[id]
  {
    var r := IndexOf(entries, id);
    if r.Some? {
      assert entries[r.value].id in Ids(entries);
    }
  }

  lemma IndexIsFirst(entries: seq<Entry>, id: EntryId, k: nat)
    requires k < |entries| && entries[k].id == id
    requires forall i :: 0 <= i < k ==> entries[i].id != id
    ensures IndexOf(entries, id) == Some(k)
  {
  }

  lemma AddInsertsInMap(c: Container, input: Fields, now: u64, tape: seq<byte>)
    ensures var r := AfterAdd(c, input, now, tape);
            match r.result
            case Ok(id) => id !in AsMap(c.entries) && AsMap(r.container.entries) == AsMap(c.entries)[id := input]
            case Err(_) => r.container == c
  {
    var r := AfterAdd(c, input, now, tape);
    if r.result.Ok? {
      FreshIdIsFresh(c.entries, tape, MAX_ID_GENERATION_ATTEMPTS);
      var id, after := r.result.value, r.container.entries;
      forall other: EntryId
        ensures other in AsMap(after) <==> other in AsMap(c.entries)[id := input]
        ensures other in AsMap(after) ==> AsMap(after)[other] == AsMap(c.entries)[id := input][other]
      {
        LookupAgreesWithMap(c.entries, other);
        LookupAgreesWithMap(after, other);
        if other == id {
          IndexIsFirst(after, id, |c.entries|);
        } else {
          match IndexOf(c.entries, other)
          case Some(k) => IndexIsFirst(after, other, k);
          case None =>
        }
      }
    }
  }

  lemma UpdateChangesOneKey(c: Container, id: EntryId, input: Fields, now: u64)
    ensures var r := AfterUpdate(c, id, input, now);
            match r.result
            case Ok(_) => id in AsMap(c.entries) && AsMap(r.container.entries) == AsMap(c.entries)[id := input]
            case Err(_) => r.container == c && (ValidFields(input) ==> id !in AsMap(c.entries))
  {
    hide AsMap;
    LookupAgreesWithMap(c.entries, id);
    match IndexOf(c.entries, id)
    case None =>
    case Some(at) =>
      if ValidFields(input) {
        UpdatedMap(c.entries, at, AfterUpdate(c, id, input, now).container.entries[at]);
      }
  }

  lemma UpdatedMap(entries: seq<Entry>, at: nat, e: Entry)
    requires at < |entries| && e.id == entries[at].id && IndexOf(entries, e.id) == Some(at)
    ensures AsMap(entries[at := e]) == AsMap(entries)[e.id := e.fields]
  {
    hide AsMap, IndexOf;
    var before, after := AsMap(entries), AsMap(entries[at := e]);
    forall other: EntryId
      ensures other in after <==> other in before || other == e.id
      ensures other in after ==> after[other] == if other == e.id then e.fields else before[other]
    {
      LookupAgreesWithMap(entries, other);
      LookupAgreesWithMap(entries[at := e], other);
      match IndexOf(entries, other)
      case Some(k) => IndexIsFirst(entries[at := e], other, k);
      case None =>
    }
  }

  lemma DeleteRemovesOneKey(c: Container, id: EntryId, now: u64)
    requires UniqueIds(c.entries)
    ensures var r := AfterDelete(c, id, now);
            match r.result
            case Ok(_) => id in AsMap(c.entries) && AsMap(r.container.entries) == AsMap(c.entries) - {id}
            case Err(_) => r.container == c && id !in AsMap(c.entries)
  {
    hide AsMap, UniqueIds;
    LookupAgreesWithMap(c.entries, id);
    match IndexOf(c.entries, id)
    case None =>
    case Some(at) => DeletedMap(c.entries, at);
  }

  lemma DeletedMap(entries: seq<Entry>, at: nat)
    requires at < |entries| && UniqueIds(entries)
    ensures AsMap(entries[..at] + entries[at + 1..]) == AsMap(entries) - {entries[at].id}
  {
    hide AsMap, UniqueIds, IndexOf;
    var before, after := AsMap(entries), AsMap(entries[..at] + entries[at + 1..]);
    forall other: EntryId
      ensures other in after <==> other in before && other != entries[at].id
      ensures other in after ==> after[other] == before[other]
    {
      DeletedLookup(entries, at, other);
    }
  }

  lemma DeletedLookup(entries: seq<Entry>, at: nat, other: EntryId)
    requires at < |entries| && UniqueIds(entries)
    ensures var after := entries[..at] + entries[at + 1..];
            && (other in AsMap(after) <==> other in AsMap(entries) && other != entries[at].id)
            && (other in AsMap(after) ==> AsMap(after)[other] == AsMap(entries)[other])
  {
    hide AsMap;
    var after := entries[..at] + entries[at + 1..];
    LookupAgreesWithMap(entries, other);
    LookupAgreesWithMap(after, other);
    forall k | 0 <= k < |after| ensures after[k] == entries[if k < at then k else k + 1] {
    }
    match IndexOf(entries, other)
    case Some(j) =>
      if j != at {
        var k := if j < at then j else j - 1;
        assert after[k] == entries[j];
        IndexIsFirst(after, other, k);
      }
    case None =>
  }

  function NthDraw(tape: seq<byte>, n: nat): EntryId
    requires 16 * (n + 1) <= |tape|
  {
    tape[16 * n..16 * (n + 1)]
  }

  predicate Taken(entries: seq<Entry>, id: EntryId) {
    exists i :: 0 <= i < |entries| && entries[i].id == id
  }

  /** All of the first `n` draws the tape can supply are identifiers already in use. */
  ghost predicate DrawsTaken(entries: seq<Entry>, tape: seq<byte>, n: nat) {
    forall k :: 0 <= k < n && 16 * (k + 1) <= |tape| ==> Taken(entries, NthDraw(tape, k))
  }

  /** A fresh identifier is the first unused draw among the allowed ones; failure means there is none. */
  lemma {:induction false} FreshIdIsFirstUnusedDraw(entries: seq<Entry>, tape: seq<byte>, attempts: nat)
    ensures match FreshId(entries, tape, attempts)
            case Ok(id) =>
              && !Taken(entries, id)
              && exists k :: 0 <= k < attempts && 16 * (k + 1) <= |tape|
                             && NthDraw(tape, k) == id && DrawsTaken(entries, tape, k)
            case Err(e) => e == RandomGenerationFailed && DrawsTaken(entries, tape, attempts)
    decreases attempts
  {
    hide FreshId, Taken, NthDraw, DrawsTaken;
    DrawStep(entries, tape, attempts);
    if attempts > 0 && |tape| >= 16 && Taken(entries, NthDraw(tape, 0)) {
      var rest := tape[16..];
      FreshIdIsFirstUnusedDraw(entries, rest, attempts - 1);
      if FreshId(entries, rest, attempts - 1).Ok? {
        var k :| 0 <= k < attempts - 1 && 16 * (k + 1) <= |rest|
                 && NthDraw(rest, k) == FreshId(entries, rest, attempts - 1).value && DrawsTaken(entries, rest, k);
        TakenShift(entries, tape, k);
        DrawShift(tape, k);
      } else {
        TakenShift(entries, tape, attempts - 1);
      }
    }
  }

  /** One attempt: the first draw if it is unused, else whatever the rest of the tape gives. */
  lemma DrawStep(entries: seq<Entry>, tape: seq<byte>, attempts: nat)
    ensures DrawsTaken(entries, tape, 0)
    ensures attempts == 0 || |tape| < 16 ==>
      FreshId(entries, tape, attempts) == Err(RandomGenerationFailed) && DrawsTaken(entries, tape, attempts)
    ensures attempts > 0 && |tape| >= 16 ==>
      FreshId(entries, tape, attempts)
      == if Taken(entries, NthDraw(tape, 0)) then FreshId(entries, tape[16..], attempts - 1) else Ok(NthDraw(tape, 0))
  {
    if |tape| >= 16 {
      assert NthDraw(tape, 0) == tape[..16];
    }
  }

  lemma DrawShift(tape: seq<byte>, k: nat)
    requires 16 * (k + 2) <= |tape|
    ensures NthDraw(tape[16..], k) == NthDraw(tape, k + 1)
  {
  }

  lemma TakenShift(entries: seq<Entry>, tape: seq<byte>, n: nat)
    requires |tape| >= 16 && Taken(entries, NthDraw(tape, 0)) && DrawsTaken(entries, tape[16..], n)
    ensures DrawsTaken(entries, tape, n + 1)
  {
    forall k | 0 <= k < n + 1 && 16 * (k + 1) <= |tape| ensures Taken(entries, NthDraw(tape, k)) {
      if k > 0 {
        DrawShift(tape, k - 1);
      }
    }
  }
}
