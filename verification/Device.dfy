/**
 The untrusted storage: four cells and a script of faults, one for each coming operation. A write
 may work, be refused, land and still report failure, or leave a residue under its own key, with or
 without a report. An exhausted script means no more faults. A crash is a write or read that fails
 and whose caller is never heard of again.
 */
module Device {
  import opened Wrappers
  import opened Aad
  import opened Model

  datatype StorageKey = MetaKey | SlotKey(slot: SlotId) | PointerKey

  datatype Cells = Cells(meta: Option<Text>, a: Option<Text>, b: Option<Text>, pointer: Option<Text>) {
    function At(key: StorageKey): Option<Text> {
      match key
      case MetaKey => meta
      case SlotKey(A) => a
      case SlotKey(B) => b
      case PointerKey => pointer
    }

    function With(key: StorageKey, value: Option<Text>): Cells {
      match key
      case MetaKey => this.(meta := value)
      case SlotKey(A) => this.(a := value)
      case SlotKey(B) => this.(b := value)
      case PointerKey => this.(pointer := value)
    }
  }

  datatype Fault = Works | Refuses | LandsThenFails | Tears(residue: Option<Text>, reported: bool)

  datatype Disk = Disk(cells: Cells, faults: seq<Fault>) {
    function Next(): Fault {
      if faults == [] then Works else faults[0]
    }

    function Rest(): seq<Fault> {
      if faults == [] then [] else faults[1..]
    }
  }

  datatype Step<T> = Step(result: Result<T, VaultError>, disk: Disk)

  /** What a write of `value` leaves in a cell that held `before`. */
  function Landed(fault: Fault, before: Option<Text>, value: Option<Text>): Option<Text> {
    match fault
    case Works => value
    case Refuses => before
    case LandsThenFails => value
    case Tears(residue, _) => residue
  }

  predicate Reports(fault: Fault) {
    fault.Refuses? || fault.LandsThenFails? || (fault.Tears? && fault.reported)
  }

  function Get(d: Disk, key: StorageKey): Step<Option<Text>> {
    Step(if d.Next().Works? then Ok(d.cells.At(key)) else Err(Storage(ReadFailed)), Disk(d.cells, d.Rest()))
  }

  function Set(d: Disk, key: StorageKey, text: Text): Step<()> {
    Step(if Reports(d.Next()) then Err(Storage(WriteFailed)) else Ok(()),
         Disk(d.cells.With(key, Landed(d.Next(), d.cells.At(key), Some(text))), d.Rest()))
  }

  function Remove(d: Disk, key: StorageKey): Step<()> {
    Step(if Reports(d.Next()) then Err(Storage(RemoveFailed)) else Ok(()),
         Disk(d.cells.With(key, Landed(d.Next(), d.cells.At(key), None)), d.Rest()))
  }

  class DeviceStorage {
    var cells: Cells
    var faults: seq<Fault>

    constructor (d: Disk)
      ensures Value() == d
    {
      cells := d.cells;
      faults := d.faults;
    }

    function Value(): Disk
      reads this
    {
      Disk(cells, faults)
    }

    method NextFault() returns (fault: Fault)
      modifies this`faults
      ensures fault == old(Value()).Next() && faults == old(Value()).Rest()
    {
      if faults == [] {
        return Works;
      }
      fault := faults[0];
      faults := faults[1..];
    }

    method GetItem(key: StorageKey) returns (r: Result<Option<Text>, VaultError>)
      modifies this
      ensures Step(r, Value()) == Get(old(Value()), key)
    {
      var fault := NextFault();
      if !fault.Works? {
        return Err(Storage(ReadFailed));
      }
      return Ok(cells.At(key));
    }

    method SetItem(key: StorageKey, text: Text) returns (r: Result<(), VaultError>)
      modifies this
      ensures Step(r, Value()) == Set(old(Value()), key, text)
    {
      var fault := NextFault();
      cells := cells.With(key, Landed(fault, cells.At(key), Some(text)));
      return if Reports(fault) then Err(Storage(WriteFailed)) else Ok(());
    }

    method RemoveItem(key: StorageKey) returns (r: Result<(), VaultError>)
      modifies this
      ensures Step(r, Value()) == Remove(old(Value()), key)
    {
      var fault := NextFault();
      cells := cells.With(key, Landed(fault, cells.At(key), None));
      return if Reports(fault) then Err(Storage(RemoveFailed)) else Ok(());
    }
  }
}
