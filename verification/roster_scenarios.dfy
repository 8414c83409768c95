/**
 The device-polling scenario of the adapter's test suite: one list of device
 states is polled seven times, mutated between polls, and the observer's
 added/removed/changed counters are read after each poll.
 */
module RosterScenarios {
  import opened DeviceRoster
  import opened RosterProperties

  /** The observer's counters, reset before every poll. */
  datatype Counters = Counters(added: nat, removed: nat, changed: nat)

  function CountAdded(es: seq<DeviceEvent>): nat
  {
    if es == [] then 0 else (if es[0].DeviceAdded? then 1 else 0) + CountAdded(es[1..])
  }

  function CountChanged(es: seq<DeviceEvent>): nat
  {
    if es == [] then 0 else (if es[0].DeviceChanged? then 1 else 0) + CountChanged(es[1..])
  }

  /** What the observer counts for one poll: one per event, one per removed address. */
  function Observed(p: Polled): Counters
  {
    Counters(CountAdded(p.events), |p.removed|, CountChanged(p.events))
  }

  lemma ObservedOne(roster: Roster, removed: set<string>, e: DeviceEvent)
    ensures Observed(Polled(roster, removed, [e])) ==
              Counters(if e.DeviceAdded? then 1 else 0, |removed|, if e.DeviceChanged? then 1 else 0)
  {
    assert [e][1..] == [];
    assert CountAdded([e]) == (if e.DeviceAdded? then 1 else 0) + CountAdded([]);
    assert CountChanged([e]) == (if e.DeviceChanged? then 1 else 0) + CountChanged([]);
  }

  /** A device as the test builds it: class 0, neither authenticated nor connected, no service records. */
  function MakeDeviceState(name: string, address: string): (r: DeviceState)
    ensures r.name == name && r.address == address
    ensures r.bluetoothClass == 0 && !r.authenticated && !r.connected
    ensures r.serviceRecords == []
  {
    DeviceState(name, address, 0, false, false, [])
  }

  const AudioSdpBytes: seq<byte> := [
    0x35, 0x51, 0x09, 0x00, 0x00, 0x0a, 0x00, 0x01, 0x00, 0x01, 0x09, 0x00, 0x01, 0x35, 0x03, 0x19,
    0x11, 0x0a, 0x09, 0x00, 0x04, 0x35, 0x10, 0x35, 0x06, 0x19, 0x01, 0x00, 0x09, 0x00, 0x19, 0x35,
    0x06, 0x19, 0x00, 0x19, 0x09, 0x01, 0x02, 0x09, 0x00, 0x05, 0x35, 0x03, 0x19, 0x10, 0x02, 0x09,
    0x00, 0x09, 0x35, 0x08, 0x35, 0x06, 0x19, 0x11, 0x0d, 0x09, 0x01, 0x02, 0x09, 0x01, 0x00, 0x25,
    0x0c, 0x41, 0x75, 0x64, 0x69, 0x6f, 0x20, 0x53, 0x6f, 0x75, 0x72, 0x63, 0x65, 0x09, 0x03, 0x11,
    0x09, 0x00, 0x01]

  /** The observer's counters after each poll, as the test expects them. */
  const Expectation: seq<Counters> := [
    Counters(3, 0, 0), Counters(0, 0, 1), Counters(1, 1, 0), Counters(0, 1, 0),
    Counters(0, 0, 1), Counters(0, 0, 1), Counters(0, 0, 1)]

  /** The test's three devices and the edits it makes to them between polls. */
  datatype TestDevices = TestDevices(
    phone: DeviceState, laptop: DeviceState, iphone: DeviceState,
    renamed: DeviceState,      // the phone under a new name
    readdressed: DeviceState,  // the renamed phone under a new address
    withAudio: DeviceState,    // the laptop with one service record
    withAudio2: DeviceState)   // the laptop with that record renamed

  /** The seven lists the test polls. */
  function Edits(t: TestDevices): seq<seq<DeviceState>>
  {
    [[t.phone, t.laptop, t.iphone],        // three devices
     [t.renamed, t.laptop, t.iphone],      // a name changes
     [t.readdressed, t.laptop, t.iphone],  // an address changes
     [t.laptop, t.iphone],                 // a device goes away
     [t.withAudio, t.iphone],              // a service record appears
     [t.withAudio2, t.iphone],             // the service record is renamed
     [t.laptop, t.iphone]]                 // the service record goes away
  }

  /** The edits change exactly what the test says they change. */
  predicate EditsAsInTest(t: TestDevices)
  {
    && t.phone.address != t.laptop.address && t.phone.address != t.iphone.address
    && t.laptop.address != t.iphone.address
    && t.renamed.address == t.phone.address && t.renamed != t.phone
    && t.readdressed.address !in {t.phone.address, t.laptop.address, t.iphone.address}
    && t.withAudio.address == t.laptop.address && t.withAudio != t.laptop
    && t.withAudio2.address == t.laptop.address && t.withAudio2 != t.withAudio && t.laptop != t.withAudio2
  }

  /** The roster poll `k` meets: empty for the first, the previous list's snapshot after that. */
  function Before(polls: seq<seq<DeviceState>>, k: nat): Roster
    requires k < |polls|
  {
    if k == 0 then map[] else Snapshot(polls[k - 1])
  }

  /** Polling `ss` against `before` stores the snapshot and is observed as `c`. */
  predicate Stepped(before: Roster, ss: seq<DeviceState>, c: Counters)
  {
    DevicesPolled(before, ss).roster == Snapshot(ss) && Observed(DevicesPolled(before, ss)) == c
  }

  lemma ThreeAdded(roster: Roster, a: string, b: string, c: string)
    ensures Observed(Polled(roster, {}, [DeviceAdded(a), DeviceAdded(b), DeviceAdded(c)])) == Counters(3, 0, 0)
  {
    var es := [DeviceAdded(a), DeviceAdded(b), DeviceAdded(c)];
    assert es[1..] == [DeviceAdded(b), DeviceAdded(c)] && es[1..][1..] == [DeviceAdded(c)];
    assert es[1..][1..][1..] == [];
    ObservedOne(roster, {}, DeviceAdded(c));
    assert CountAdded(es[1..]) == 2 && CountChanged(es[1..]) == 0;
  }

  /** The first poll meets an empty roster: every device is added. */
  lemma FirstPoll(ss: seq<DeviceState>)
    requires |ss| == 3 && Distinct(ss)
    ensures Stepped(map[], ss, Counters(3, 0, 0))
  {
    assert Snapshot([]) == map[];
    PollAfterSnapshot([], ss);
    assert ss[1..][1..] == [ss[2]] && ss[1..][1..][1..] == [];
    assert Expected(map[], [ss[2]]) == [DeviceAdded(ss[2].address)];
    assert Expected(map[], ss[1..]) == [DeviceAdded(ss[1].address), DeviceAdded(ss[2].address)];
    assert Addresses([]) - Addresses(ss) == {};
    ThreeAdded(Snapshot(ss), ss[0].address, ss[1].address, ss[2].address);
  }

  /** One device of a stored list is edited under its own address: one changed event. */
  lemma EditedPoll(ss: seq<DeviceState>, d: DeviceState)
    requires Distinct(ss) && |ss| > 0
    requires d.address == ss[0].address && d != ss[0]
    ensures Distinct(ss[0 := d])
    ensures Stepped(Snapshot(ss), ss[0 := d], Counters(0, 0, 1))
  {
    ChangingOneDevice(ss, 0, d);
    ObservedOne(Snapshot(ss[0 := d]), {}, DeviceChanged(d.address));
  }

  /** One device of a stored list takes a fresh address: one added, one removed. */
  lemma ReaddressedPoll(ss: seq<DeviceState>, d: DeviceState)
    requires Distinct(ss) && |ss| > 0
    requires forall i :: 0 <= i < |ss| ==> ss[i].address != d.address
    ensures Distinct(ss[0 := d])
    ensures Stepped(Snapshot(ss), ss[0 := d], Counters(1, 1, 0))
  {
    NotInAddresses(ss, d.address);
    ReaddressingOneDevice(ss, 0, d);
    ObservedOne(Snapshot(ss[0 := d]), {ss[0].address}, DeviceAdded(d.address));
  }

  /** The first device of a stored list goes away: one removed. */
  lemma DroppedPoll(ss: seq<DeviceState>)
    requires Distinct(ss) && |ss| > 0
    ensures Distinct(ss[1..])
    ensures Stepped(Snapshot(ss), ss[1..], Counters(0, 1, 0))
  {
    assert ss[..0] + ss[1..] == ss[1..];
    DroppingOneDevice(ss, 0);
    var p := DevicesPolled(Snapshot(ss), ss[1..]);
    assert p.removed == {ss[0].address} && p.events == [];
  }

  /**
   Poll `k` of the test, for any devices and edits related as the test
   relates them, applied to the roster the previous poll left: three added;
   then one changed; then one added and one removed; then one removed; then
   one changed for each service-record edit.
   */
  lemma EditObserved(t: TestDevices, k: nat)
    requires EditsAsInTest(t) && k < 7
    ensures Stepped(Before(Edits(t), k), Edits(t)[k], Expectation[k])
  {
    var polls := Edits(t);
    var d0, d1, d2 := polls[0], polls[1], polls[2];
    var d3, d4, d5 := polls[3], polls[4], polls[5];
    if k == 0 {
      assert Distinct(d0);
      FirstPoll(d0);
    } else if k == 1 {
      assert Distinct(d0) && d1 == d0[0 := t.renamed];
      EditedPoll(d0, t.renamed);
    } else if k == 2 {
      assert Distinct(d1) && polls[2] == d1[0 := t.readdressed];
      ReaddressedPoll(d1, t.readdressed);
    } else if k == 3 {
      assert Distinct(d2) && polls[3] == d2[1..];
      DroppedPoll(d2);
    } else if k == 4 {
      assert Distinct(d3) && polls[4] == d3[0 := t.withAudio];
      EditedPoll(d3, t.withAudio);
    } else if k == 5 {
      assert Distinct(d4) && polls[5] == d4[0 := t.withAudio2];
      EditedPoll(d4, t.withAudio2);
    } else {
      assert Distinct(d5) && polls[6] == d5[0 := t.laptop];
      EditedPoll(d5, t.laptop);
    }
  }

  /** The devices as the test builds them, two of them sharing the name "phone". */
  const AndroidPhone := MakeDeviceState("phone", "A1:B2:C3:D4:E5:E0")
  const Laptop := MakeDeviceState("laptop", "A1:B2:C3:D4:E5:E1")
  const IPhone := MakeDeviceState("phone", "A1:B2:C3:D4:E5:E2")

  const TestEdits := TestDevices(
    AndroidPhone, Laptop, IPhone,
    AndroidPhone.(name := "phone2"),
    AndroidPhone.(name := "phone2", address := "A1:B2:C3:D4:E5:E6"),
    Laptop.(serviceRecords := [ServiceRecord("Audio", AudioSdpBytes)]),
    Laptop.(serviceRecords := [ServiceRecord("Audio2", AudioSdpBytes)]))

  /**
   The test's own data, each poll applied to the roster the previous one
   left: three added; then one changed; then one added and one removed; then
   one removed; then one changed for each service-record edit. Sharing a
   name never merges two devices.
   */
  lemma DevicesPolledScenario()
    ensures forall k :: 0 <= k < |Edits(TestEdits)| ==>
              Stepped(Before(Edits(TestEdits), k), Edits(TestEdits)[k], Expectation[k])
  {
    assert EditsAsInTest(TestEdits);
    forall k | 0 <= k < |Edits(TestEdits)|
      ensures Stepped(Before(Edits(TestEdits), k), Edits(TestEdits)[k], Expectation[k])
    {
      EditObserved(TestEdits, k);
    }
  }
}
