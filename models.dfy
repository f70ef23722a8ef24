/** The status record that carries one address through the probing pipeline. */
module Models {

  /** A read-only view of one status record, the form in which the summary reads it. */
  datatype Record = Record(
    address: string,
    isReachable: bool,
    pings: int,
    http80IsOpen: bool,
    http8080IsOpen: bool)

  /** The mutable status record. `Address` is fixed at creation; every other
      field is a settable property that one pipeline stage assigns in place. */
  class IPAddressStatus {
    const Address: string
    var IsReachable: bool
    var Pings: int
    var Http80IsOpen: bool
    var Http8080IsOpen: bool

    /** A new record: the given address, not reachable, no pings counted, both ports closed. */
    constructor (address: string)
      ensures Address == address
      ensures !IsReachable
      ensures Pings == 0
      ensures !Http80IsOpen
      ensures !Http8080IsOpen
    {
      Address := address;
      IsReachable := false;
      Pings := 0;
      Http80IsOpen := false;
      Http8080IsOpen := false;
    }

    /** The current values of the record's properties. */
    function Snapshot(): Record
      reads this
    {
      Record(Address, IsReachable, Pings, Http80IsOpen, Http8080IsOpen)
    }
  }

  /** The views of a list of records, element by element. */
  function SnapshotsOf(rs: seq<IPAddressStatus>): (s: seq<Record>)
    reads rs
    ensures |s| == |rs|
    ensures forall i :: 0 <= i < |rs| ==> s[i] == rs[i].Snapshot()
  {
    if rs == [] then [] else SnapshotsOf(rs[..|rs| - 1]) + [rs[|rs| - 1].Snapshot()]
  }
}
