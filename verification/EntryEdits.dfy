/** What each edit does to the list of entries and to the clock, entry by entry. */
module EntryEdits {
  import opened Bytes
  import opened Model
  import opened JsonLength
  import opened Validation
  import opened Vault
  import opened VaultProperties

  predicate IsLargest(n: int, s: set<int>) {
    n in s && forall x :: x in s ==> x <= n
  }

  /** All but the entries and the time of update is as before, and that is the later of the two. */
  predicate ClockMoved(c: Container, d: Container, now: u64) {
    && d.format == c.format && d.version == c.version && d.vaultId == c.vaultId
    && d.generation == c.generation && d.createdAt == c.createdAt
    && IsLargest(d.updatedAt, {now, c.updatedAt})
  }

  /** One entry more, at the end, under an identifier no entry had, both its times the new clock. */
  predicate Appended(c: Container, d: Container, id: EntryId, input: Fields, now: u64) {
    && ClockMoved(c, d, now)
    && |d.entries| == |c.entries| + 1
    && (forall i :: 0 <= i < |c.entries| ==> d.entries[i] == c.entries[i] && c.entries[i].id != id)
    && d.entries[|c.entries|] == Entry(id, input, d.updatedAt, d.updatedAt)
  }

  /** The first entry under the identifier has new fields and a new time of update; every other is as before. */
  predicate TouchedAt(c: Container, d: Container, at: nat, id: EntryId, input: Fields, now: u64) {
    && ClockMoved(c, d, now)
    && |d.entries| == |c.entries| && at < |c.entries| && c.entries[at].id == id
    && (forall i :: 0 <= i < at ==> c.entries[i].id != id)
    && (forall i :: 0 <= i < |c.entries| && i != at ==> d.entries[i] == c.entries[i])
    && d.entries[at].id == id && d.entries[at].fields == input
    && d.entries[at].createdAt == c.entries[at].createdAt
    && IsLargest(d.entries[at].updatedAt, {now, c.updatedAt, c.entries[at].createdAt})
  }

  /** The first entry under the identifier is gone; the others are as before, in order. */
  predicate DroppedAt(c: Container, d: Container, at: nat, id: EntryId, now: u64) {
    && ClockMoved(c, d, now)
    && |d.entries| + 1 == |c.entries| && at < |c.entries| && c.entries[at].id == id
    && (forall i :: 0 <= i < at ==> c.entries[i].id != id && d.entries[i] == c.entries[i])
    && (forall i :: at <= i < |d.entries| ==> d.entries[i] == c.entries[i + 1])
  }

  /** An addition appends, or says why not: fields out of bounds, ten thousand entries, or no unused draw in eight. */
  lemma AddOutcome(c: Container, input: Fields, now: u64, tape: seq<byte>)
    ensures var r := AfterAdd(c, input, now, tape);
            match r.result
            case Ok(id) =>
              && WithinBounds(input) && |c.entries| < 10_000 && Appended(c, r.container, id, input, now)
            case Err(e) =>
              && r.container == c
              && if !WithinBounds(input) then e == InvalidContainer
                 else if |c.entries| >= 10_000 then e == VaultTooLarge
                 else e == RandomGenerationFailed && DrawsTaken(c.entries, tape, 8)
  {
    hide FreshId, Utf8Bytes, DrawsTaken, Taken;
    FreshIdIsFirstUnusedDraw(c.entries, tape, 8);
    if AfterAdd(c, input, now, tape).result.Ok? {
      FreshIdIsFresh(c.entries, tape, 8);
    }
  }

  /** An update touches the entry, or says why not: fields out of bounds, or no such entry. */
  lemma UpdateOutcome(c: Container, id: EntryId, input: Fields, now: u64)
    ensures var r := AfterUpdate(c, id, input, now);
            match r.result
            case Ok(_) => WithinBounds(input) && exists at: nat :: TouchedAt(c, r.container, at, id, input, now)
            case Err(e) =>
              && r.container == c
              && if !WithinBounds(input) then e == InvalidContainer
                 else e == EntryNotFound && forall i :: 0 <= i < |c.entries| ==> c.entries[i].id != id
  {
    hide Utf8Bytes, IndexOf;
    var r := AfterUpdate(c, id, input, now);
    if r.result.Ok? {
      assert TouchedAt(c, r.container, IndexOf(c.entries, id).value, id, input, now);
    }
  }

  /** A deletion drops the entry, or there is none. */
  lemma DeleteOutcome(c: Container, id: EntryId, now: u64)
    ensures var r := AfterDelete(c, id, now);
            match r.result
            case Ok(_) => exists at: nat :: DroppedAt(c, r.container, at, id, now)
            case Err(e) =>
              r.container == c && e == EntryNotFound && forall i :: 0 <= i < |c.entries| ==> c.entries[i].id != id
  {
    hide IndexOf;
    var r := AfterDelete(c, id, now);
    if r.result.Ok? {
      assert DroppedAt(c, r.container, IndexOf(c.entries, id).value, id, now);
    }
  }
}
