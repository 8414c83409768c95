/**
 The device roster of the Windows Bluetooth adapter and the diff a poll
 applies to it.

 Each poll delivers the full list of devices the radio currently knows. The
 adapter keeps one record per address. A poll first drops every known address
 the snapshot lacks (each is a device-removed event), then walks the snapshot
 in order: an address that was not known before is inserted (device-added),
 and a known address whose record differs field by field is updated
 (device-changed). Identity is the address alone: a device that reports a new
 address is a removal of the old one and an addition of the new one.
 */
module DeviceRoster {

  newtype byte = x: int | 0 <= x < 0x100

  /** The 32-bit class-of-device code. */
  newtype uint32 = x: int | 0 <= x < 0x1_0000_0000

  /** One SDP service record, kept as its name and undecoded attribute bytes. */
  datatype ServiceRecord = ServiceRecord(name: string, sdpBytes: seq<byte>)

  /** One device as the radio reports it. */
  datatype DeviceState = DeviceState(
    name: string,
    address: string,
    bluetoothClass: uint32,
    authenticated: bool,
    connected: bool,
    serviceRecords: seq<ServiceRecord>)

  /** The adapter's known devices, keyed by address. */
  type Roster = map<string, DeviceState>

  datatype DeviceEvent = DeviceAdded(address: string) | DeviceChanged(address: string)

  /** A poll's result: the new roster, the addresses removed, and the added/changed events in order. */
  datatype Polled = Polled(roster: Roster, removed: set<string>, events: seq<DeviceEvent>)

  /**
   The field-by-field comparison that decides whether a known device changed.
   Every field takes part, so two records compare equal exactly when they are
   the same record.
   */
  predicate IsEqual(known: DeviceState, reported: DeviceState): (r: bool)
    ensures r <==> known == reported
  {
    && known.name == reported.name
    && known.address == reported.address
    && known.bluetoothClass == reported.bluetoothClass
    && known.authenticated == reported.authenticated
    && known.connected == reported.connected
    && known.serviceRecords == reported.serviceRecords
  }

  /** The addresses a snapshot mentions. */
  function Addresses(ss: seq<DeviceState>): (r: set<string>)
    ensures forall i :: 0 <= i < |ss| ==> ss[i].address in r
    decreases |ss|
  {
    if ss == [] then {} else {ss[0].address} + Addresses(ss[1..])
  }

  /** Every address a snapshot mentions comes from one of its entries. */
  lemma {:induction false} AddressIndex(ss: seq<DeviceState>, a: string) returns (i: nat)
    requires a in Addresses(ss)
    ensures i < |ss| && ss[i].address == a
    decreases |ss|
  {
    if ss[0].address == a {
      i := 0;
    } else {
      var j := AddressIndex(ss[1..], a);
      i := j + 1;
    }
  }

  datatype Walked = Walked(roster: Roster, events: seq<DeviceEvent>)

  /**
   Handles one reported device: an address in `added` is (re)inserted with an
   added event; an address in `changed` whose record differs is updated with a
   changed event; anything else is left alone.
   */
  function Visit(roster: Roster, added: set<string>, changed: set<string>, d: DeviceState): (r: Walked)
    requires changed <= roster.Keys
    ensures r.roster.Keys == roster.Keys + (if d.address in added + changed then {d.address} else {})
    ensures d.address in added + changed ==> r.roster[d.address] == d
    ensures forall a :: a in roster && a != d.address ==> r.roster[a] == roster[a]
    ensures d.address !in added + changed ==> r == Walked(roster, [])
    ensures |r.events| <= 1
    ensures forall e :: e in r.events ==> e.address == d.address
    ensures DeviceAdded(d.address) in r.events <==> d.address in added
    ensures DeviceChanged(d.address) in r.events <==>
              d.address !in added && d.address in changed && roster[d.address] != d
  {
    if d.address in added then
      Walked(roster[d.address := d], [DeviceAdded(d.address)])
    else if d.address in changed && !IsEqual(roster[d.address], d) then
      Walked(roster[d.address := d], [DeviceChanged(d.address)])
    else
      assert d.address in changed ==> roster[d.address] == d;
      Walked(roster, [])
  }

  /** Visits the snapshot in order, collecting the events. */
  function Walk(roster: Roster, added: set<string>, changed: set<string>, ss: seq<DeviceState>): (r: Walked)
    requires changed <= roster.Keys
    requires Addresses(ss) <= added + changed
    ensures r.roster.Keys == roster.Keys + Addresses(ss)
    ensures forall a :: a in roster && a !in Addresses(ss) ==> r.roster[a] == roster[a]
    ensures forall e :: e in r.events ==> e.address in Addresses(ss)
    decreases |ss|
  {
    if ss == [] then Walked(roster, [])
    else
      var first := Visit(roster, added, changed, ss[0]);
      var rest := Walk(first.roster, added, changed, ss[1..]);
      Walked(rest.roster, first.events + rest.events)
  }

  /**
   Applies one poll. Known addresses absent from the snapshot are removed;
   the rest of the snapshot is walked with the addresses new to the roster
   as `added` and those already known as `changed`. Afterwards the roster
   holds exactly the snapshot's addresses, and the removed set is exactly
   what the roster lost.
   */
  function DevicesPolled(roster: Roster, ss: seq<DeviceState>): (r: Polled)
    ensures r.roster.Keys == Addresses(ss)
    ensures forall a :: a in r.removed <==> a in roster && a !in r.roster
    ensures forall e :: e in r.events ==> e.address in r.roster
  {
    var known := roster.Keys;
    var reported := Addresses(ss);
    var removed := known - reported;
    var added := reported - known;
    var changed := known * reported;
    var kept := map a | a in roster && a !in removed :: roster[a];
    var walked := Walk(kept, added, changed, ss);
    Polled(walked.roster, removed, walked.events)
  }
}
