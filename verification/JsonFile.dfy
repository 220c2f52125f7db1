/**
 The durable store: whole snapshots written to a temporary file and renamed over
 the target, with a latched failure. The disk is abstract: every write or rename
 may fail, a failed or interrupted write leaves anything in the temporary file,
 and a rename is atomic.
 */
module JsonFile {
  import opened Wrappers
  import opened Store

  datatype FileContent = Absent | Empty | Undecodable | Snapshot(store: StoreState)

  datatype Disk = Disk(target: FileContent, temp: FileContent)

  /** What opening the target finds; `None` when it cannot be decoded. */
  function Decoded(content: FileContent): Option<StoreState> {
    match content
    case Absent => Some(EMPTY_STORE)
    case Empty => Some(EMPTY_STORE)
    case Undecodable => None
    case Snapshot(s) => Some(s)
  }

  /** What a start sees of a target that is there: nothing when its metadata cannot be read, or bytes it cannot read. */
  datatype Look = Missed | Unreadable | Readable

  /** What opening finds. A target that is absent or missed is a new store; `None` is an error. */
  function Opened(content: FileContent, look: Look): Option<StoreState> {
    if content.Absent? || look.Missed? then Some(EMPTY_STORE)
    else if look.Unreadable? then None
    else Decoded(content)
  }

  /** How one attempt to persist ends. */
  datatype PersistEnd =
    | NothingWritten(error: PersistError)
    | WriteBroken(left: FileContent)
    | RenameRefused(removed: bool)
    | Persisted

  function AfterPersist(disk: Disk, s: StoreState, end: PersistEnd): Disk {
    match end
    case NothingWritten(_) => disk
    case WriteBroken(left) => disk.(temp := left)
    case RenameRefused(removed) => disk.(temp := if removed then Absent else Snapshot(s))
    case Persisted => Disk(Snapshot(s), Absent)
  }

  /** The error that an attempt ending this way reports. */
  function ErrorOf(end: PersistEnd): Option<PersistError> {
    match end
    case NothingWritten(error) => Some(error)
    case WriteBroken(_) => Some(WriteFailed)
    case RenameRefused(_) => Some(RenameFailed)
    case Persisted => None
  }

  /** Where the process may die while it persists. */
  datatype CrashPoint = BeforeWrite | DuringWrite(left: FileContent) | BeforeRename | AfterCleanup | AfterRename

  function AfterCrash(disk: Disk, s: StoreState, point: CrashPoint): Disk {
    match point
    case BeforeWrite => disk
    case DuringWrite(left) => disk.(temp := left)
    case BeforeRename => disk.(temp := Snapshot(s))
    case AfterCleanup => disk.(temp := Absent)
    case AfterRename => Disk(Snapshot(s), Absent)
  }

  /** A process that dies in this disk state died at one of the crash points. */
  ghost predicate CrashState(before: Disk, s: StoreState, d: Disk) {
    exists point :: d == AfterCrash(before, s, point)
  }

  /** A store's disk, its latched failure, and every state the disk has passed through. */
  datatype StoreStatus = StoreStatus(disk: Disk, fatalError: Option<PersistError>, history: seq<Disk>)

  /**
   One call of `persist`: nothing after a latched failure, otherwise one attempt
   that latches the error it ends with. Every disk state it passes through is
   that of some crash point.
   */
  ghost predicate PersistStep(before: StoreStatus, s: StoreState, end: PersistEnd, after: StoreStatus) {
    if before.fatalError.Some? then after == before
    else
      && after.disk == AfterPersist(before.disk, s, end)
      && after.fatalError == ErrorOf(end)
      && before.history <= after.history
      && forall i | |before.history| <= i < |after.history| :: CrashState(before.disk, s, after.history[i])
  }

  class DiskDevice {
    var target: FileContent
    var temp: FileContent
    ghost var history: seq<Disk>

    ghost function View(): Disk
      reads this
    {
      Disk(target, temp)
    }

    constructor (target: FileContent)
      ensures this.target == target
    {
      this.target, temp := target, *;
      history := [];
    }

    method CreateDirectory() returns (ok: bool)
    {
      ok := *;
    }

    /** Not atomic: the file is torn on the way, and left anyhow when the write fails. */
    method WriteTemp(content: FileContent) returns (ok: bool, ghost torn: FileContent)
      modifies this`temp, this`history
      ensures ok ==> temp == content
      ensures history == old(history) + [Disk(target, torn), View()]
    {
      temp := *;
      torn := temp;
      history := history + [View()];
      ok := *;
      if ok {
        temp := content;
      } else {
        temp := *;
      }
      history := history + [View()];
    }

    method RenameTemp() returns (ok: bool)
      modifies this
      ensures View() == if ok then Disk(old(temp), Absent) else old(View())
      ensures history == old(history) + [View()]
    {
      ok := *;
      if ok {
        target, temp := temp, Absent;
      }
      history := history + [View()];
    }

    method RemoveTemp() returns (ok: bool)
      modifies this`temp, this`history
      ensures temp == if ok then Absent else old(temp)
      ensures history == old(history) + [View()]
    {
      ok := *;
      if ok {
        temp := Absent;
      }
      history := history + [View()];
    }
  }

  class JsonFileEventStore {
    const disk: DiskDevice
    const inner: MemoryEventStore
    var fatalError: Option<PersistError>

    constructor (disk: DiskDevice, inner: MemoryEventStore)
      ensures this.disk == disk && this.inner == inner && fatalError == None
    {
      this.disk, this.inner, fatalError := disk, inner, None;
    }

    /**
     Opens the target: an absent, missed or empty file is a new store, anything
     unreadable or undecodable an error.
     */
    static method Open(disk: DiskDevice, look: Look) returns (r: Option<JsonFileEventStore>)
      ensures r.Some? <==>
                || disk.target.Absent? || look.Missed?
                || (look.Readable? && (disk.target.Empty? || disk.target.Snapshot?))
      ensures r.Some? ==> Opened(disk.target, look) == Some(r.value.inner.View())
      ensures r.Some? ==> fresh(r.value) && fresh(r.value.inner) && r.value.disk == disk && r.value.fatalError == None
    {
      var inner: MemoryEventStore;
      var present := disk.target != Absent && look != Missed;
      if present && (look.Unreadable? || disk.target.Undecodable?) {
        return None;
      }
      if present && disk.target.Snapshot? {
        inner := new MemoryEventStore.FromSnapshot(disk.target.store);
      } else {
        inner := new MemoryEventStore();
      }
      var store := new JsonFileEventStore(disk, inner);
      r := Some(store);
    }

    ghost function Status(): StoreStatus
      reads this, disk
    {
      StoreStatus(disk.View(), fatalError, disk.history)
    }

    predicate Healthy()
      reads this
    {
      fatalError.None?
    }

    method PersistInner() returns (error: Option<PersistError>, ghost end: PersistEnd)
      modifies disk
      ensures disk.View() == AfterPersist(old(disk.View()), inner.View(), end)
      ensures error == ErrorOf(end)
      ensures match end
        case NothingWritten(_) => error == Some(DirectoryFailed) || error == Some(EncodeFailed)
        case WriteBroken(_) => error == Some(WriteFailed)
        case RenameRefused(_) => error == Some(RenameFailed)
        case Persisted => error.None?
      ensures end.NothingWritten? ==> end.error == DirectoryFailed || end.error == EncodeFailed
      ensures old(disk.history) <= disk.history
      ensures forall i | |old(disk.history)| <= i < |disk.history| ::
          CrashState(old(disk.View()), inner.View(), disk.history[i])
    {
      ghost var before, s := disk.View(), inner.View();
      var ok := disk.CreateDirectory();
      if !ok {
        return Some(DirectoryFailed), NothingWritten(DirectoryFailed);
      }
      ok := *;
      if !ok {
        return Some(EncodeFailed), NothingWritten(EncodeFailed);
      }
      ghost var torn;
      ok, torn := disk.WriteTemp(Snapshot(inner.Snapshot()));
      assert Disk(disk.target, torn) == AfterCrash(before, s, DuringWrite(torn));
      assert disk.View() == AfterCrash(before, s, DuringWrite(disk.temp));
      if !ok {
        return Some(WriteFailed), WriteBroken(disk.temp);
      }
      ok := disk.RenameTemp();
      assert disk.View() == AfterCrash(before, s, if ok then AfterRename else BeforeRename);
      if !ok {
        ok := disk.RemoveTemp();
        assert disk.View() == AfterCrash(before, s, if ok then AfterCleanup else BeforeRename);
        return Some(RenameFailed), RenameRefused(ok);
      }
      return None, Persisted;
    }

    /** Persists at most once after the first failure: the failure is latched and the disk left alone. */
    method Persist() returns (ghost end: PersistEnd)
      modifies this`fatalError, disk
      ensures PersistStep(old(Status()), inner.View(), end, Status())
    {
      end := Persisted;
      if fatalError.None? {
        var error;
        error, end := PersistInner();
        if error.Some? {
          fatalError := error;
        }
      }
    }

    method RecordEvent(event: StoredEvent) returns (ghost end: PersistEnd)
      modifies this`fatalError, inner`events, disk
      ensures inner.events == old(inner.events) + [event]
      ensures PersistStep(old(Status()), inner.View(), end, Status())
    {
      inner.RecordEvent(event);
      end := Persist();
    }

    method RecordDecision(decision: StoredDecision) returns (ghost end: PersistEnd)
      modifies this`fatalError, inner`decisions, disk
      ensures inner.decisions == old(inner.decisions) + [decision]
      ensures PersistStep(old(Status()), inner.View(), end, Status())
    {
      inner.RecordDecision(decision);
      end := Persist();
    }

    method RecordOutcome(outcome: StoredOutcome) returns (ghost end: PersistEnd)
      modifies this`fatalError, inner`outcomes, disk
      ensures inner.outcomes == old(inner.outcomes) + [outcome]
      ensures PersistStep(old(Status()), inner.View(), end, Status())
    {
      inner.RecordOutcome(outcome);
      end := Persist();
    }
  }
}
