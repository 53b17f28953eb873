/**
 The application controller: at most one session, a selection in it, and the inactivity deadline. A
 clock reading is a parameter of the operation that takes it.
 */
module Controller {
  import opened Wrappers
  import opened Bytes
  import opened Model
  import opened Device
  import opened Bridge
  import opened Persistence
  import opened Deadline
  import opened Listing

  datatype AppError = SessionLocked | EntryNotSelected | InvalidTimeout | Failed(cause: JsError)

  /** The value of the controller at one moment. A held session may be locked, after a failed destruction. */
  datatype App = App(
    held: Option<BridgeState>, timer: Timer, entries: seq<Summary>, selected: Option<EntryId>, editing: Option<EntryId>)

  datatype AppStep = AppStep(result: Result<(), AppError>, app: App, disk: Disk)

  /** What an entry view is asked to show: nothing yet, or an entry by an identifier that may not parse. */
  datatype Choice = NewEntry | Named(id: Option<EntryId>)

  /** What the entry form holds when it is submitted. */
  datatype Form = Form(title: string, secret: string, description: string)

  /** The characters that trimming removes. */
  predicate IsSpace(c: char) {
    var n := c as int;
    || 0x09 <= n <= 0x0D || n == 0x20 || n == 0xA0 || n == 0x1680 || 0x2000 <= n <= 0x200A
    || n == 0x2028 || n == 0x2029 || n == 0x202F || n == 0x205F || n == 0x3000 || n == 0xFEFF
  }

  /** A description of nothing but space is no description; any other is kept as it is. */
  function Normalized(form: Form): Fields {
    Fields(form.title, form.secret,
           if forall i :: 0 <= i < |form.description| ==> IsSpace(form.description[i]) then None
           else Some(form.description))
  }

  function Timestamp(now: Clock): Option<u64> {
    if now.Ms? && 0 <= now.ms <= MAX_SAFE_INTEGER then Some(now.ms) else None
  }

  predicate HasSession(a: App) {
    a.held.Some? && a.held.value.vault.Some?
  }

  /** Locking forgets the session, its deadline, the list and the selection. */
  function Closed(a: App): App {
    App(None, Idle(a.timer), [], None, None)
  }

  /** The vault view: the list is that of the session, and nothing is selected. */
  function Shown(a: App): App
    requires HasSession(a)
  {
    a.(entries := EntryList(a.held.value.vault.value.container.entries), selected := None, editing := None)
  }

  /** A deadline event changes nothing but the deadline, unless it drops the session. */
  function Timed(a: App, t: Timer): App {
    if a.held.Some? && !t.active then Closed(a.(timer := t)) else a.(timer := t)
  }

  function Entered(a: App, b: BridgeState, d: Disk, now: Clock): AppStep {
    var next := Timed(a.(held := Some(b)), Activated(a.timer, now));
    if HasSession(next) then AppStep(Ok(()), Shown(next), d)
    else AppStep(Err(SessionLocked), next, d)
  }

  function AfterCreate(d: Disk, a: App, phrase: Phrase, now: Clock, tape: seq<byte>, touchAt: Clock): AppStep {
    var j := AfterCreateSession(d, phrase, Timestamp(now), tape);
    match j.result
    case Err(e) => AppStep(Err(Failed(e)), a, j.disk)
    case Ok(_) => Entered(a, j.bridge, j.disk, touchAt)
  }

  function AfterUnlock(d: Disk, a: App, phrase: Phrase, touchAt: Clock): AppStep {
    var j := AfterOpenSession(d, phrase);
    match j.result
    case Err(e) => AppStep(Err(Failed(e)), a, j.disk)
    case Ok(_) => Entered(a, j.bridge, j.disk, touchAt)
  }

  /** Any failure to persist an edit drops the session that holds the edit. */
  function AfterPersist(d: Disk, a: App, b: BridgeState, tape: seq<byte>, lockAt: nat): AppStep {
    var j := AfterSaveSession(d, b, tape, lockAt);
    match j.result
    case Err(e) => AppStep(Err(Failed(e)), Closed(a), j.disk)
    case Ok(_) =>
      var saved := a.(held := Some(j.bridge));
      if HasSession(saved) then AppStep(Ok(()), Shown(saved), j.disk)
      else AppStep(Err(SessionLocked), Closed(a), j.disk)
  }

  function EditedSession(a: App, input: Fields, now: u64, tape: seq<byte>): Result<BridgeState, BridgeError>
    requires HasSession(a)
  {
    if a.editing.None? then
      var r := AfterBridgeAdd(a.held.value, input, now, tape);
      match r.result case Err(e) => Err(e) case Ok(_) => Ok(r.bridge)
    else
      var r := AfterBridgeUpdate(a.held.value, a.editing, input, now);
      match r.result case Err(e) => Err(e) case Ok(_) => Ok(r.bridge)
  }

  function AfterSaveEntry(
    d: Disk, a: App, form: Form, now: Clock, idTape: seq<byte>, tape: seq<byte>, lockAt: nat): AppStep
  {
    if !HasSession(a) then AppStep(Err(SessionLocked), a, d)
    else if Timestamp(now).None? then AppStep(Err(Failed(InvalidTimestamp)), Closed(a), d)
    else
      match EditedSession(a, Normalized(form), Timestamp(now).value, idTape)
      case Err(e) => AppStep(Err(Failed(BridgeFailure(e))), Closed(a), d)
      case Ok(b) => AfterPersist(d, a, b, tape, lockAt)
  }

  function AfterDeleteSelected(d: Disk, a: App, now: Clock, tape: seq<byte>, lockAt: nat): AppStep {
    if !HasSession(a) then AppStep(Err(SessionLocked), a, d)
    else if a.selected.None? then AppStep(Err(EntryNotSelected), a, d)
    else if Timestamp(now).None? then AppStep(Err(Failed(InvalidTimestamp)), Closed(a), d)
    else
      var r := AfterBridgeDelete(a.held.value, a.selected, Timestamp(now).value);
      match r.result
      case Err(e) => AppStep(Err(Failed(BridgeFailure(e))), Closed(a), d)
      case Ok(_) => AfterPersist(d, a, r.bridge, tape, lockAt)
  }

  /** The two failures of a phrase change that leave the session open: both come before any write. */
  predicate KeepsSession(e: JsError) {
    e in {BridgeFailure(VaultFailure(WrongPasswordOrCorruptedVault)), BridgeFailure(VaultFailure(InvalidMasterPassword))}
  }

  function AfterChangeMasterPassword(
    d: Disk, a: App, current: Phrase, replacement: Phrase, tape: seq<byte>, lockAt: nat, touchAt: Clock): AppStep
  {
    if !HasSession(a) then AppStep(Err(SessionLocked), a, d)
    else
      var j := AfterChangePhrase(d, a.held.value, current, replacement, tape, lockAt);
      var changed := a.(held := Some(j.bridge));
      match j.result
      case Ok(_) => AppStep(Ok(()), Timed(changed, Touched(a.timer, touchAt)), j.disk)
      case Err(e) => AppStep(Err(Failed(e)), if KeepsSession(e) then changed else Closed(a), j.disk)
  }

  function AfterOpenEntry(d: Disk, a: App, id: Option<EntryId>): AppStep {
    if !HasSession(a) then AppStep(Err(SessionLocked), a, d)
    else
      match Lookup(a.held.value, id)
      case Err(e) => AppStep(Err(Failed(BridgeFailure(e))), a, d)
      case Ok(_) => AppStep(Ok(()), a.(selected := id, editing := None), d)
  }

  function AfterBeginEdit(d: Disk, a: App, choice: Choice): AppStep {
    if !HasSession(a) then AppStep(Err(SessionLocked), a, d)
    else
      match choice
      case NewEntry => AppStep(Ok(()), a.(selected := None, editing := None), d)
      case Named(id) =>
        match Lookup(a.held.value, id)
        case Err(e) => AppStep(Err(Failed(BridgeFailure(e))), a, d)
        case Ok(_) => AppStep(Ok(()), a.(selected := id, editing := id), d)
  }

  /** Destruction locks the session first; a failed removal leaves the locked session held. */
  function AfterDestroy(d: Disk, a: App): AppStep {
    var r := RemoveAll(d, DESTROY_ORDER);
    match r.result
    case Err(e) => AppStep(Err(Failed(e)), if a.held.Some? then a.(held := Some(LOCKED)) else a, r.disk)
    case Ok(_) => AppStep(Ok(()), Closed(a), r.disk)
  }

  // ---- The object ----

  class VaultAppController {
    const persistence: VaultPersistence
    var session: VaultBridge?
    var sessionExpiresAt: Option<int>
    var lastSessionTimestamp: Option<int>
    var sessionTimeoutMinutes: int
    var entries: seq<Summary>
    var selectedId: Option<EntryId>
    var editingId: Option<EntryId>

    constructor (persistence: VaultPersistence, minutes: int)
      requires IsTimeout(Ms(minutes))
      ensures this.persistence == persistence
      ensures Value() == App(None, Timer(false, None, None, minutes), [], None, None)
    {
      this.persistence := persistence;
      session := null;
      sessionExpiresAt := None;
      lastSessionTimestamp := None;
      sessionTimeoutMinutes := minutes;
      entries := [];
      selectedId := None;
      editingId := None;
    }

    ghost function Footprint(): set<object>
      reads this, session
    {
      {this, persistence.device}
      + (if session == null then {} else {session} + (if session.vault == null then {} else {session.vault}))
    }

    function Time(): Timer
      reads this
    {
      Timer(session != null, sessionExpiresAt, lastSessionTimestamp, sessionTimeoutMinutes)
    }

    function Value(): App
      reads this, session, if session == null then null else session.vault
    {
      App(if session == null then None else Some(session.Value()), Time(), entries, selectedId, editingId)
    }

    method Lock()
      modifies this, session
      ensures Value() == Closed(old(Value())) && session == null
    {
      if session != null {
        session.Lock();
      }
      session := null;
      sessionExpiresAt := None;
      lastSessionTimestamp := None;
      entries := [];
      selectedId := None;
      editingId := None;
    }

    method ObserveSessionTime(now: Clock) returns (observed: bool)
      requires session != null
      modifies this, session
      ensures observed == Observed(old(Time()), now).active
      ensures Value() == Timed(old(Value()), Observed(old(Time()), now))
      ensures session == if observed then old(session) else null
      ensures observed ==> session.vault == old(session.vault)
    {
      if !IsSafeInteger(now) || (lastSessionTimestamp.Some? && now.ms < lastSessionTimestamp.value) {
        Lock();
        return false;
      }
      lastSessionTimestamp := Some(now.ms);
      return true;
    }

    method TouchSession(now: Clock) returns (deadline: Option<int>)
      modifies this, session
      ensures Value() == Timed(old(Value()), Touched(old(Time()), now))
      ensures deadline == if session == null then None else sessionExpiresAt
      ensures session == old(session) || session == null
      ensures session != null ==> session.vault == old(session.vault)
    {
      if session == null {
        return None;
      }
      var observed := ObserveSessionTime(now);
      if !observed {
        return None;
      }
      sessionExpiresAt := Some(now.ms + sessionTimeoutMinutes * MINUTE_MS);
      return sessionExpiresAt;
    }

    method Deactivate(now: Clock) returns (deadline: Option<int>)
      modifies this, session
      ensures Value() == Timed(old(Value()), Touched(old(Time()), now))
      ensures deadline == if session == null then None else sessionExpiresAt
    {
      if session == null {
        return None;
      }
      var observed := ObserveSessionTime(now);
      if !observed {
        return None;
      }
      sessionExpiresAt := Some(now.ms + sessionTimeoutMinutes * MINUTE_MS);
      return sessionExpiresAt;
    }

    method ExpireAuthentication(now: Clock) returns (expired: bool)
      modifies this, session
      ensures Value() == Timed(old(Value()), Expired(old(Time()), now))
      ensures expired <==> old(session) != null && session == null
      ensures session == old(session) || session == null
    {
      if session != null {
        var observed := ObserveSessionTime(now);
        if !observed {
          return true;
        }
      }
      if session == null || sessionExpiresAt.None? || now.ms < sessionExpiresAt.value {
        return false;
      }
      Lock();
      return true;
    }

    method Resume(now: Clock)
      modifies this, session
      ensures Value() == Timed(old(Value()), Resumed(old(Time()), now))
    {
      if session == null {
        return;
      }
      var expired := ExpireAuthentication(now);
      if expired {
        return;
      }
      var deadline := TouchSession(now);
    }

    method SetSessionTimeoutMinutes(minutes: Clock, now: Clock) returns (r: Result<(), AppError>)
      modifies this, session
      ensures r == if IsTimeout(minutes) then Ok(()) else Err(InvalidTimeout)
      ensures Value() == Timed(old(Value()), Retimed(old(Time()), minutes, now))
    {
      if !IsTimeout(minutes) {
        return Err(InvalidTimeout);
      }
      sessionTimeoutMinutes := minutes.ms;
      var deadline := TouchSession(now);
      return Ok(());
    }

    /** Makes the list that of the session, and clears the selection. */
    method ShowVault() returns (r: Result<(), AppError>)
      modifies this
      ensures r == if HasSession(old(Value())) then Ok(()) else Err(SessionLocked)
      ensures Value() == if HasSession(old(Value())) then Shown(old(Value())) else old(Value())
      ensures session == old(session)
    {
      if session == null || session.vault == null {
        return Err(SessionLocked);
      }
      entries := EntryList(session.vault.container.entries);
      selectedId := None;
      editingId := None;
      return Ok(());
    }

    /** Takes over a session just created or opened. */
    method ActivateSession(next: VaultBridge, now: Clock) returns (r: Result<(), AppError>)
      modifies this, next
      ensures AppStep(r, Value(), persistence.device.Value())
           == Entered(old(Value()), old(next.Value()), old(persistence.device.Value()), now)
    {
      session := next;
      lastSessionTimestamp := None;
      var deadline := TouchSession(now);
      r := ShowVault();
    }

    method Create(phrase: Phrase, now: Clock, tape: seq<byte>, touchAt: Clock) returns (r: Result<(), AppError>)
      modifies this, persistence.device
      ensures AppStep(r, Value(), persistence.device.Value())
           == AfterCreate(old(persistence.device.Value()), old(Value()), phrase, now, tape, touchAt)
    {
      hide AfterCreateSession, Entered;
      var created, next := persistence.CreateSession(phrase, Timestamp(now), tape);
      if created.Err? {
        return Err(Failed(created.error));
      }
      r := ActivateSession(next, touchAt);
    }

    method Unlock(phrase: Phrase, touchAt: Clock) returns (r: Result<(), AppError>)
      modifies this, persistence.device
      ensures AppStep(r, Value(), persistence.device.Value())
           == AfterUnlock(old(persistence.device.Value()), old(Value()), phrase, touchAt)
    {
      hide AfterOpenSession, Entered;
      var unlocked, next := persistence.OpenSession(phrase);
      if unlocked.Err? {
        return Err(Failed(unlocked.error));
      }
      r := ActivateSession(next, touchAt);
    }

    method PersistEdit(tape: seq<byte>, lockAt: nat) returns (r: Result<(), AppError>)
      requires session != null
      modifies Footprint()
      ensures AppStep(r, Value(), persistence.device.Value())
           == AfterPersist(old(persistence.device.Value()), old(Value()), old(session.Value()), tape, lockAt)
    {
      hide AfterSaveSession;
      var saved := persistence.SaveSession(session, tape, lockAt);
      if saved.Err? {
        Lock();
        return Err(Failed(saved.error));
      }
      r := ShowVault();
      if r.Err? {
        Lock();
      }
    }

    method SaveEntry(form: Form, now: Clock, idTape: seq<byte>, tape: seq<byte>, lockAt: nat)
      returns (r: Result<(), AppError>)
      modifies Footprint()
      ensures AppStep(r, Value(), persistence.device.Value())
           == AfterSaveEntry(old(persistence.device.Value()), old(Value()), form, now, idTape, tape, lockAt)
    {
      hide AfterSaveSession, AfterBridgeAdd, AfterBridgeUpdate;
      if session == null || session.vault == null {
        return Err(SessionLocked);
      }
      var input := Normalized(form);
      var timestamp := Timestamp(now);
      if timestamp.None? {
        Lock();
        return Err(Failed(InvalidTimestamp));
      }
      if editingId.None? {
        var added := session.AddEntry(input, timestamp.value, idTape);
        if added.Err? {
          Lock();
          return Err(Failed(BridgeFailure(added.error)));
        }
      } else {
        var updated := session.UpdateEntry(editingId, input, timestamp.value);
        if updated.Err? {
          Lock();
          return Err(Failed(BridgeFailure(updated.error)));
        }
      }
      r := PersistEdit(tape, lockAt);
    }

    method DeleteSelected(now: Clock, tape: seq<byte>, lockAt: nat) returns (r: Result<(), AppError>)
      modifies Footprint()
      ensures AppStep(r, Value(), persistence.device.Value())
           == AfterDeleteSelected(old(persistence.device.Value()), old(Value()), now, tape, lockAt)
    {
      hide AfterSaveSession, AfterBridgeDelete;
      if session == null || session.vault == null {
        return Err(SessionLocked);
      }
      if selectedId.None? {
        return Err(EntryNotSelected);
      }
      var timestamp := Timestamp(now);
      if timestamp.None? {
        Lock();
        return Err(Failed(InvalidTimestamp));
      }
      var deleted := session.DeleteEntry(selectedId, timestamp.value);
      if deleted.Err? {
        Lock();
        return Err(Failed(BridgeFailure(deleted.error)));
      }
      r := PersistEdit(tape, lockAt);
    }

    method ChangeMasterPassword(current: Phrase, replacement: Phrase, tape: seq<byte>, lockAt: nat, touchAt: Clock)
      returns (r: Result<(), AppError>)
      modifies Footprint()
      ensures AppStep(r, Value(), persistence.device.Value())
           == AfterChangeMasterPassword(
                old(persistence.device.Value()), old(Value()), current, replacement, tape, lockAt, touchAt)
    {
      hide AfterChangePhrase, Touched;
      if session == null || session.vault == null {
        return Err(SessionLocked);
      }
      var changed := persistence.ChangeMasterPassword(session, current, replacement, tape, lockAt);
      if changed.Err? {
        if !KeepsSession(changed.error) {
          Lock();
        }
        return Err(Failed(changed.error));
      }
      var deadline := TouchSession(touchAt);
      return Ok(());
    }

    method OpenEntry(id: Option<EntryId>) returns (r: Result<(), AppError>)
      modifies this
      ensures AppStep(r, Value(), persistence.device.Value())
           == AfterOpenEntry(old(persistence.device.Value()), old(Value()), id)
    {
      hide Lookup;
      if session == null || session.vault == null {
        return Err(SessionLocked);
      }
      var entry := Lookup(session.Value(), id);
      if entry.Err? {
        return Err(Failed(BridgeFailure(entry.error)));
      }
      selectedId := id;
      editingId := None;
      return Ok(());
    }

    method BeginEdit(choice: Choice) returns (r: Result<(), AppError>)
      modifies this
      ensures AppStep(r, Value(), persistence.device.Value())
           == AfterBeginEdit(old(persistence.device.Value()), old(Value()), choice)
    {
      hide Lookup;
      if session == null || session.vault == null {
        return Err(SessionLocked);
      }
      var id := None;
      if choice.Named? {
        var entry := Lookup(session.Value(), choice.id);
        if entry.Err? {
          return Err(Failed(BridgeFailure(entry.error)));
        }
        id := choice.id;
      }
      selectedId := id;
      editingId := id;
      return Ok(());
    }

    method Destroy() returns (r: Result<(), AppError>)
      modifies Footprint()
      ensures AppStep(r, Value(), persistence.device.Value())
           == AfterDestroy(old(persistence.device.Value()), old(Value()))
    {
      hide RemoveAll;
      var destroyed := persistence.DestroySession(session);
      if destroyed.Err? {
        return Err(Failed(destroyed.error));
      }
      session := null;
      sessionExpiresAt := None;
      lastSessionTimestamp := None;
      entries := [];
      selectedId := None;
      editingId := None;
      return Ok(());
    }
  }
}
