/**
 The persistent store under a bond removal: the bond records, the receipt, and the schema and
 association records of each peer.  Every access may fail, before or after it has taken effect,
 and a write or an erase may even report success without any; a crash is an access after which
 nothing more happens.  A reliable store does none of this.
 */
module BondStore {
  import opened StoreIdentities
  import opened BondSlots

  datatype Entry = Entry(blob: bool, bytes: seq<byte>)

  /** What the store holds. */
  datatype Disk = Disk(
    bonds: map<string, Entry>,       // namespace nimble_bond
    receipt: seq<byte>,              // hid_bond_tx / delete_v1, empty if there is none
    schemas: set<Identity>,          // schema revisions
    associations: set<Identity>)

  datatype ReadResult = ReadFailed | Missing | Present(bytes: seq<byte>)

  const RECORD_CAPACITY := 88
  const RECEIPT_SIZE := 8

  class Store {
    var disk: Disk
    var reliable: bool

    constructor (disk: Disk, reliable: bool)
      ensures this.disk == disk && this.reliable == reliable
    {
      this.disk, this.reliable := disk, reliable;
    }

    /** One read of a bond record into a buffer of 88 bytes. */
    method ReadBond(key: string) returns (r: ReadResult)
      ensures r.Present? ==>
                key in disk.bonds && disk.bonds[key] == Entry(true, r.bytes) && |r.bytes| <= RECORD_CAPACITY
      ensures r.Missing? ==> key !in disk.bonds
      ensures reliable && r.ReadFailed? ==>
                key in disk.bonds && (!disk.bonds[key].blob || |disk.bonds[key].bytes| > RECORD_CAPACITY)
    {
      var fault := Fault();
      if fault || (key in disk.bonds && (!disk.bonds[key].blob || |disk.bonds[key].bytes| > RECORD_CAPACITY)) {
        return ReadFailed;
      }
      return if key in disk.bonds then Present(disk.bonds[key].bytes) else Missing;
    }

    method ReadReceipt() returns (r: ReadResult)
      ensures r.Present? ==> disk.receipt != [] && r.bytes == disk.receipt && |r.bytes| <= RECEIPT_SIZE
      ensures r.Missing? ==> disk.receipt == []
      ensures reliable && r.ReadFailed? ==> |disk.receipt| > RECEIPT_SIZE
    {
      var fault := Fault();
      if fault || |disk.receipt| > RECEIPT_SIZE {
        return ReadFailed;
      }
      return if disk.receipt != [] then Present(disk.receipt) else Missing;
    }

    /** Whether this access is disturbed; never in a reliable store. */
    method Fault() returns (fault: bool)
      ensures reliable ==> !fault
    {
      fault := *;
      fault := fault && !reliable;
    }

    method WriteReceipt(bytes: seq<byte>) returns (ok: bool)
      requires bytes != []
      modifies `disk
      ensures disk == old(disk) || disk == old(disk).(receipt := bytes)
      ensures reliable ==> ok && disk == old(disk).(receipt := bytes)
    {
      var lost := Fault();
      var fault := Fault();
      if !lost { disk := disk.(receipt := bytes); }
      ok := !fault;
    }

    method EraseReceipt() returns (ok: bool)
      modifies `disk
      ensures disk == old(disk) || disk == old(disk).(receipt := [])
      ensures reliable ==> disk == old(disk).(receipt := []) && (ok <==> old(disk).receipt != [])
    {
      var lost := Fault();
      var fault := Fault();
      ok := !fault && disk.receipt != [];
      if !lost { disk := disk.(receipt := []); }
    }

    method EraseBond(key: string) returns (ok: bool)
      modifies `disk
      ensures disk == old(disk) || disk == old(disk).(bonds := old(disk).bonds - {key})
      ensures reliable ==> disk == old(disk).(bonds := old(disk).bonds - {key}) && (ok <==> key in old(disk).bonds)
    {
      var lost := Fault();
      var fault := Fault();
      ok := !fault && key in disk.bonds;
      if !lost { disk := disk.(bonds := disk.bonds - {key}); }
    }

    /** Every key of a known category must be one of the 27 names and hold a blob. */
    method ValidateLayout() returns (ok: bool)
      ensures ok ==> Layout(disk.bonds)
      ensures reliable ==> (ok <==> Layout(disk.bonds))
    {
      var fault := Fault();
      if fault {
        return false;
      }
      var rest := disk.bonds.Keys;
      while rest != {}
        invariant rest <= disk.bonds.Keys
        invariant forall key :: key in disk.bonds && key !in rest ==> KeyFits(disk.bonds, key)
        decreases |rest|
      {
        var key :| key in rest;
        rest := rest - {key};
        var fits, recognized := DeletionSlot(key);
        if !fits || (recognized && !disk.bonds[key].blob) {
          return false;
        }
      }
      return true;
    }

    /** delete_schema_revision_verified, then delete_association_verified. */
    method DeleteSchema(id: Identity) returns (ok: bool)
      modifies `disk
      ensures disk == old(disk).(schemas := disk.schemas, associations := disk.associations)
      ensures disk.schemas == old(disk).schemas || disk.schemas == old(disk).schemas - {id}
      ensures disk.associations == old(disk).associations || disk.associations == old(disk).associations - {id}
      ensures ok ==> id !in disk.schemas && id !in disk.associations
      ensures reliable ==> ok
    {
      var fault := Fault();
      var lost := Fault();
      if !lost { disk := disk.(schemas := disk.schemas - {id}); }
      if fault || id in disk.schemas {
        return false;
      }
      fault := Fault();
      lost := Fault();
      if !lost { disk := disk.(associations := disk.associations - {id}); }
      ok := !fault && id !in disk.associations;
    }

    method VerifySchemaAbsent(id: Identity) returns (ok: bool)
      ensures ok ==> id !in disk.schemas && id !in disk.associations
      ensures reliable ==> (ok <==> id !in disk.schemas && id !in disk.associations)
    {
      var fault := Fault();
      ok := !fault && id !in disk.schemas && id !in disk.associations;
    }
  }

  ghost predicate KeyFits(bonds: map<string, Entry>, key: string)
    requires key in bonds
  {
    HasKnownPrefix(key) ==> IsSlotKey(key) && bonds[key].blob
  }

  ghost predicate Layout(bonds: map<string, Entry>) { forall key :: key in bonds ==> KeyFits(bonds, key) }
}
