/**
 The ledger file. Beside the visible file the model tracks every content a power loss could leave
 behind: a rename is not durable until its directory is synced, and renaming a file that was not
 synced first can expose a torn one.
 */
module LedgerFile {
  import opened Prelude
  import opened Core
  import opened WorldState
  import opened Storage

  const MAX_LEDGER_BYTES: nat := 64 * 1024 * 1024

  datatype LedgerSnapshot =
    LedgerSnapshot(chainId: U64, state: StateSnapshot, blocks: seq<Block>, receipts: seq<Receipt>)

  datatype Restored = Restored(world: World, blocks: seq<Block>, receipts: seq<Receipt>)

  datatype StorageError =
    | ChainMismatch(expected: U64, got: U64)
    | TooLarge(size: nat)
    | Decode
    | BadState(state: StateError)
    | Invalid(reason: ChainError)
    | IoError(step: Step)

  /** What a file holds: a whole encoded ledger of some size, or bytes that fail every format check. */
  datatype Content = Torn | Whole(snapshot: LedgerSnapshot, size: nat)

  datatype Temp = Temp(content: Content, synced: bool)

  /** The visible file, the contents a crash may leave in its place, and the temporary file. */
  datatype Disk = Disk(target: Option<Content>, exposed: set<Option<Content>>, temp: Option<Temp>)

  const FRESH_DISK := Disk(None, {None}, None)

  // ---------------------------------------------------------------- writing

  datatype Step =
    | MakeDirectory | Encode | CreateTemp | WriteTemp | SyncTemp | SetPermissions | Rename | SyncDirectory

  const STEPS: seq<Step> :=
    [MakeDirectory, Encode, CreateTemp, WriteTemp, SyncTemp, SetPermissions, Rename, SyncDirectory]

  function Perform(d: Disk, step: Step, content: Content): Disk {
    match step
    case MakeDirectory => d
    case Encode => d
    case CreateTemp => d.(temp := Some(Temp(Torn, false)))
    case WriteTemp => d.(temp := Some(Temp(content, false)))
    case SyncTemp => if d.temp.Some? then d.(temp := Some(d.temp.value.(synced := true))) else d
    case SetPermissions => d
    case Rename =>
      if d.temp.None? then d else
      var t := d.temp.value;
      Disk(Some(t.content), d.exposed + {Some(t.content)} + (if t.synced then {} else {Some(Torn)}), None)
    case SyncDirectory => d.(exposed := {d.target})
  }

  /** The disk after the first `n` steps of writing `content`. */
  function AfterSteps(d: Disk, content: Content, n: nat): Disk
    requires n <= |STEPS|
  {
    if n == 0 then d else Perform(AfterSteps(d, content, n - 1), STEPS[n - 1], content)
  }

  /** A failed write deletes its temporary file on the way out. */
  function DropTemp(d: Disk): Disk {
    d.(temp := None)
  }

  /** One write: the encoded size, and the step at which the operating system reports an error, if any. */
  datatype Io = Io(size: nat, failsAt: Option<nat>)

  /** How many steps complete. The size limit stops a write inside the encoding step. */
  function StepsDone(io: Io): (n: nat)
    ensures n <= |STEPS|
  {
    var byFault := if io.failsAt.Some? && io.failsAt.value < |STEPS| then io.failsAt.value else |STEPS|;
    if io.size > MAX_LEDGER_BYTES && 1 < byFault then 1 else byFault
  }

  function PersistTo(chainId: U64, d: Disk, snapshot: LedgerSnapshot, io: Io): (Disk, Result<(), StorageError>) {
    var n := StepsDone(io);
    if snapshot.chainId != chainId || snapshot.state.chainId != chainId then
      (d, Err(StorageError.ChainMismatch(chainId, snapshot.chainId)))
    else if n == |STEPS| then
      (AfterSteps(d, Whole(snapshot, io.size), n), Ok(()))
    else
      (DropTemp(AfterSteps(d, Whole(snapshot, io.size), n)),
       Err(if n == 1 && io.size > MAX_LEDGER_BYTES && io.failsAt != Some(1) then TooLarge(io.size) else IoError(STEPS[n])))
  }

  ghost predicate DiskOk(d: Disk) {
    && d.target in d.exposed
    && (d.target.None? ==> d.exposed == {None})
  }

  /**
   Wherever a write stops, a crash can leave only what it could have left before or the whole new
   ledger; before the rename nothing has changed, and once every step is done only the new ledger
   is left.
   */
  lemma WriteIsAtomic(d: Disk, content: Content, n: nat)
    requires n <= |STEPS| && DiskOk(d)
    ensures DiskOk(AfterSteps(d, content, n))
    ensures AfterSteps(d, content, n).exposed <= d.exposed + {Some(content)}
    ensures n < |STEPS| - 1 ==> AfterSteps(d, content, n).(temp := d.temp) == d
    ensures n == |STEPS| - 1 ==>
      AfterSteps(d, content, n).target == Some(content) && AfterSteps(d, content, n).exposed == d.exposed + {Some(content)}
    ensures n == |STEPS| ==>
      AfterSteps(d, content, n) == Disk(Some(content), {Some(content)}, None)
  {
    var d2 := AfterSteps(d, content, 2);
    assert AfterSteps(d, content, 1) == d && d2 == d;
    var d3 := AfterSteps(d, content, 3);
    assert d3 == d.(temp := Some(Temp(Torn, false)));
    var d4 := AfterSteps(d, content, 4);
    assert d4 == d.(temp := Some(Temp(content, false)));
    var d5 := AfterSteps(d, content, 5);
    assert d5 == d.(temp := Some(Temp(content, true)));
    assert AfterSteps(d, content, 6) == d5;
    var d7 := AfterSteps(d, content, 7);
    assert d7 == Disk(Some(content), d.exposed + {Some(content)}, None);
    assert AfterSteps(d, content, 8) == Disk(Some(content), {Some(content)}, None);
  }

  /** A power loss leaves one of the exposed contents. */
  function Crash(d: Disk, survivor: Option<Content>): Disk
    requires survivor in d.exposed
  {
    Disk(survivor, {survivor}, None)
  }

  // ---------------------------------------------------------------- reading

  ghost function Restore(chainId: U64, s: LedgerSnapshot): Option<Restored> {
    if s.chainId != chainId || s.state.chainId != chainId then None
    else match FromSnapshot(s.state)
      case Err(_) => None
      case Ok(world) =>
        if ChainValid(s.blocks, s.receipts, chainId, RootOf(world)) then Some(Restored(world, s.blocks, s.receipts)) else None
  }

  /** What loading returns: an absent file is an empty ledger, an unacceptable one is refused. */
  ghost function LoadFile(chainId: U64, file: Option<Content>): Option<Restored> {
    match file
    case None => Some(Restored(World(chainId, map[]), [], []))
    case Some(Torn) => None
    case Some(Whole(snapshot, size)) => if size > MAX_LEDGER_BYTES then None else Restore(chainId, snapshot)
  }

  class LedgerStore {
    const chainId: U64
    var disk: Disk

    constructor (chainId: U64, disk: Disk)
      requires chainId != 0
      ensures this.chainId == chainId && this.disk == disk
    {
      this.chainId := chainId;
      this.disk := disk;
    }

    /** Loads and validates the ledger; anything accepted passed the whole gate. */
    method Load() returns (r: Result<Restored, StorageError>)
      ensures r.Ok? <==> LoadFile(chainId, disk.target).Some?
      ensures r.Ok? ==> LoadFile(chainId, disk.target) == Some(r.value)
      ensures disk.target == Some(Torn) ==> r == Err(Decode)
      ensures disk.target.Some? && disk.target.value.Whole? && disk.target.value.size > MAX_LEDGER_BYTES ==>
                r == Err(TooLarge(disk.target.value.size))
    {
      match disk.target {
        case None =>
          return Ok(Restored(World(chainId, map[]), [], []));
        case Some(Torn) =>
          return Err(Decode);
        case Some(Whole(snapshot, size)) =>
          if size > MAX_LEDGER_BYTES {
            return Err(TooLarge(size));
          }
          r := RestoreSnapshot(snapshot);
      }
    }

    method RestoreSnapshot(s: LedgerSnapshot) returns (r: Result<Restored, StorageError>)
      ensures r.Ok? <==> Restore(chainId, s).Some?
      ensures r.Ok? ==> Restore(chainId, s) == Some(r.value)
      ensures s.chainId != chainId || s.state.chainId != chainId ==> r == Err(StorageError.ChainMismatch(chainId, s.chainId))
      ensures r.Err? && s.chainId == s.state.chainId == chainId ==>
                if FromSnapshot(s.state).Err? then r.error == BadState(FromSnapshot(s.state).error)
                else r.error.Invalid?
                     && Blames(r.error.reason, s.blocks, s.receipts, chainId, RootOf(FromSnapshot(s.state).value))
    {
      if s.chainId != chainId || s.state.chainId != chainId {
        return Err(StorageError.ChainMismatch(chainId, s.chainId));
      }
      var restored := WorldState.RestoreSnapshot(s.state);
      if restored.Err? {
        return Err(BadState(restored.error));
      }
      var state := new State(restored.value);
      var valid := ValidateChain(s.blocks, s.receipts, chainId, state);
      if valid.Err? {
        return Err(Invalid(valid.error));
      }
      return Ok(Restored(restored.value, s.blocks, s.receipts));
    }

    /** Performs one step of a write, or cleans up when it fails. */
    method Attempt(k: nat, content: Content, io: Io) returns (ok: bool)
      requires k < |STEPS|
      modifies this`disk
      ensures ok == (io.failsAt != Some(k))
      ensures disk == if ok then Perform(old(disk), STEPS[k], content) else DropTemp(old(disk))
    {
      if io.failsAt == Some(k) {
        disk := DropTemp(disk);
        return false;
      }
      disk := Perform(disk, STEPS[k], content);
      return true;
    }

    /** Writes a snapshot step by step, stopping at the first error. */
    method Persist(snapshot: LedgerSnapshot, io: Io) returns (r: Result<(), StorageError>)
      modifies this`disk
      ensures (disk, r) == PersistTo(chainId, old(disk), snapshot, io)
    {
      if snapshot.chainId != chainId || snapshot.state.chainId != chainId {
        return Err(StorageError.ChainMismatch(chainId, snapshot.chainId));
      }
      var content := Whole(snapshot, io.size);
      var ok := Attempt(0, content, io);
      if !ok { return Err(IoError(MakeDirectory)); }
      assert disk == AfterSteps(old(disk), content, 1) == old(disk);
      ok := Attempt(1, content, io);
      if !ok { return Err(IoError(Encode)); }
      if io.size > MAX_LEDGER_BYTES {
        disk := DropTemp(disk);
        return Err(TooLarge(io.size));
      }
      assert disk == AfterSteps(old(disk), content, 2);
      ok := Attempt(2, content, io);
      if !ok { return Err(IoError(CreateTemp)); }
      assert disk == AfterSteps(old(disk), content, 3);
      ok := Attempt(3, content, io);
      if !ok { return Err(IoError(WriteTemp)); }
      ok := Attempt(4, content, io);
      if !ok { return Err(IoError(SyncTemp)); }
      assert disk == AfterSteps(old(disk), content, 5);
      ok := Attempt(5, content, io);
      if !ok { return Err(IoError(SetPermissions)); }
      ok := Attempt(6, content, io);
      if !ok { return Err(IoError(Rename)); }
      assert disk == AfterSteps(old(disk), content, 7);
      ok := Attempt(7, content, io);
      if !ok { return Err(IoError(SyncDirectory)); }
      return Ok(());
    }
  }

  /** A write succeeds exactly when the chain ids match, the size is within the limit and no step faults. */
  lemma PersistIff(chainId: U64, d: Disk, s: LedgerSnapshot, io: Io)
    ensures PersistTo(chainId, d, s, io).1.Ok? <==>
              && s.chainId == chainId && s.state.chainId == chainId && io.size <= 67_108_864
              && (io.failsAt.Some? ==> io.failsAt.value >= 8)
  {
  }
}
