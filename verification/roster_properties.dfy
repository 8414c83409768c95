/**
 What a poll promises, stated against definitions independent of the walk:

 - the stored roster is the snapshot read as a map, later entries winning;
 - with distinct addresses the events are exactly the per-device difference
   between the old roster and the snapshot, one at most per address, in
   snapshot order;
 - polling the same snapshot twice is silent the second time;
 - one changed, re-addressed, dropped or new device yields exactly one event.
 */
module RosterProperties {
  import opened DeviceRoster

  /** `r` with the snapshot written over it, left to right. */
  function Overlay(r: Roster, ss: seq<DeviceState>): Roster
    decreases |ss|
  {
    if ss == [] then r else Overlay(r[ss[0].address := ss[0]], ss[1..])
  }

  /** The snapshot read as a map from address to record; a later entry for an address wins. */
  function Snapshot(ss: seq<DeviceState>): Roster
  {
    Overlay(map[], ss)
  }

  predicate Distinct(ss: seq<DeviceState>)
  {
    forall i, j :: 0 <= i < j < |ss| ==> ss[i].address != ss[j].address
  }

  /** An address no entry carries is not mentioned. */
  lemma {:induction false} NotInAddresses(ss: seq<DeviceState>, a: string)
    requires forall i :: 0 <= i < |ss| ==> ss[i].address != a
    ensures a !in Addresses(ss)
    decreases |ss|
  {
    if ss != [] {
      NotInAddresses(ss[1..], a);
    }
  }

  lemma DistinctTail(ss: seq<DeviceState>)
    requires Distinct(ss) && ss != []
    ensures Distinct(ss[1..])
    ensures ss[0].address !in Addresses(ss[1..])
  {
    NotInAddresses(ss[1..], ss[0].address);
  }

  lemma {:induction false} OverlayKeys(r: Roster, ss: seq<DeviceState>)
    ensures Overlay(r, ss).Keys == r.Keys + Addresses(ss)
    decreases |ss|
  {
    if ss != [] {
      OverlayKeys(r[ss[0].address := ss[0]], ss[1..]);
    }
  }

  /** Writing a snapshot over `r` is `r` overridden by the snapshot alone. */
  lemma {:induction false} OverlayIsUnion(r: Roster, ss: seq<DeviceState>)
    ensures Overlay(r, ss) == r + Snapshot(ss)
    decreases |ss|
  {
    if ss != [] {
      var d := ss[0];
      OverlayIsUnion(r[d.address := d], ss[1..]);
      OverlayIsUnion(map[d.address := d], ss[1..]);
      var tail := Snapshot(ss[1..]);
      assert r[d.address := d] + tail == r + (map[d.address := d] + tail);
    }
  }

  /** An address the snapshot does not mention keeps its record. */
  lemma OverlayUntouched(r: Roster, ss: seq<DeviceState>, a: string)
    requires a in r && a !in Addresses(ss)
    ensures a in Overlay(r, ss) && Overlay(r, ss)[a] == r[a]
  {
    OverlayIsUnion(r, ss);
    OverlayKeys(map[], ss);
  }

  /** The last entry for an address is the one stored. */
  lemma {:induction false} OverlayLastWins(r: Roster, ss: seq<DeviceState>, i: nat)
    requires i < |ss|
    requires forall j :: i < j < |ss| ==> ss[j].address != ss[i].address
    ensures ss[i].address in Overlay(r, ss) && Overlay(r, ss)[ss[i].address] == ss[i]
    decreases |ss|
  {
    if i == 0 {
      NotInAddresses(ss[1..], ss[0].address);
      OverlayUntouched(r[ss[0].address := ss[0]], ss[1..], ss[0].address);
    } else {
      OverlayLastWins(r[ss[0].address := ss[0]], ss[1..], i - 1);
    }
  }

  /** With distinct addresses every entry is stored as reported, and nothing else is. */
  lemma SnapshotOfDistinct(ss: seq<DeviceState>)
    requires Distinct(ss)
    ensures Snapshot(ss).Keys == Addresses(ss)
    ensures forall i :: 0 <= i < |ss| ==> Snapshot(ss)[ss[i].address] == ss[i]
  {
    OverlayKeys(map[], ss);
    forall i | 0 <= i < |ss|
      ensures Snapshot(ss)[ss[i].address] == ss[i]
    {
      OverlayLastWins(map[], ss, i);
    }
  }

  lemma {:induction false} WalkStoresOverlay(roster: Roster, added: set<string>, changed: set<string>, ss: seq<DeviceState>)
    requires changed <= roster.Keys
    requires Addresses(ss) <= added + changed
    ensures Walk(roster, added, changed, ss).roster == Overlay(roster, ss)
    decreases |ss|
  {
    if ss != [] {
      var d := ss[0];
      var first := Visit(roster, added, changed, d);
      assert first.roster == roster[d.address := d];
      WalkStoresOverlay(first.roster, added, changed, ss[1..]);
    }
  }

  /** After any poll, even one listing an address twice, the roster is the snapshot read as a map. */
  lemma PollStoresSnapshot(roster: Roster, ss: seq<DeviceState>)
    ensures DevicesPolled(roster, ss).roster == Snapshot(ss)
  {
    var reported := Addresses(ss);
    var kept := map a | a in roster && a !in roster.Keys - reported :: roster[a];
    WalkStoresOverlay(kept, reported - roster.Keys, roster.Keys * reported, ss);
    OverlayIsUnion(kept, ss);
    OverlayKeys(map[], ss);
    assert kept + Snapshot(ss) == Snapshot(ss);
  }

  /** The event one device calls for, judged against the roster before the poll. */
  function Difference(roster: Roster, d: DeviceState): seq<DeviceEvent>
  {
    if d.address !in roster then [DeviceAdded(d.address)]
    else if roster[d.address] != d then [DeviceChanged(d.address)]
    else []
  }

  /** The events a poll should produce: each device's difference from the old roster, in snapshot order. */
  function Expected(roster: Roster, ss: seq<DeviceState>): seq<DeviceEvent>
    decreases |ss|
  {
    if ss == [] then [] else Difference(roster, ss[0]) + Expected(roster, ss[1..])
  }

  /** Two rosters that agree on the snapshot's addresses expect the same events. */
  lemma {:induction false} ExpectedAgree(r1: Roster, r2: Roster, ss: seq<DeviceState>)
    requires forall i :: 0 <= i < |ss| ==> (ss[i].address in r1 <==> ss[i].address in r2)
    requires forall i :: 0 <= i < |ss| && ss[i].address in r1 ==> r1[ss[i].address] == r2[ss[i].address]
    ensures Expected(r1, ss) == Expected(r2, ss)
    decreases |ss|
  {
    if ss != [] {
      assert ss[0] == ss[0];
      ExpectedAgree(r1, r2, ss[1..]);
    }
  }

  lemma {:induction false} WalkMatchesExpected(roster: Roster, added: set<string>, changed: set<string>, ss: seq<DeviceState>)
    requires changed <= roster.Keys
    requires Distinct(ss)
    requires forall i :: 0 <= i < |ss| ==> (ss[i].address in added <==> ss[i].address !in roster)
    requires forall i :: 0 <= i < |ss| ==> (ss[i].address in changed <==> ss[i].address in roster)
    requires Addresses(ss) <= added + changed
    ensures Walk(roster, added, changed, ss).events == Expected(roster, ss)
    decreases |ss|
  {
    if ss != [] {
      var d := ss[0];
      var first := Visit(roster, added, changed, d);
      var rest := ss[1..];
      assert forall i :: 0 <= i < |rest| ==> rest[i] == ss[i + 1];
      WalkMatchesExpected(first.roster, added, changed, rest);
      ExpectedAgree(first.roster, roster, rest);
      assert first.events == Difference(roster, d);
    }
  }

  lemma {:induction false} ExpectedAddresses(roster: Roster, ss: seq<DeviceState>)
    ensures forall e :: e in Expected(roster, ss) ==> e.address in Addresses(ss)
    ensures |Expected(roster, ss)| <= |ss|
    decreases |ss|
  {
    if ss != [] {
      ExpectedAddresses(roster, ss[1..]);
    }
  }

  /** Added events name exactly the new addresses; changed events exactly the known ones whose record differs. */
  lemma {:induction false} ExpectedMembers(roster: Roster, ss: seq<DeviceState>)
    requires Distinct(ss)
    ensures forall a :: DeviceAdded(a) in Expected(roster, ss) <==> a in Addresses(ss) && a !in roster
    ensures forall i :: 0 <= i < |ss| ==>
              (DeviceChanged(ss[i].address) in Expected(roster, ss) <==>
               ss[i].address in roster && roster[ss[i].address] != ss[i])
    decreases |ss|
  {
    if ss != [] {
      var rest := ss[1..];
      assert forall i :: 0 <= i < |rest| ==> rest[i] == ss[i + 1];
      ExpectedMembers(roster, rest);
      ExpectedAddresses(roster, rest);
      DistinctTail(ss);
    }
  }

  /** With distinct addresses no address is named by two events. */
  lemma {:induction false} ExpectedOncePerAddress(roster: Roster, ss: seq<DeviceState>)
    requires Distinct(ss)
    ensures var es := Expected(roster, ss);
            forall i, j :: 0 <= i < j < |es| ==> es[i].address != es[j].address
    decreases |ss|
  {
    if ss != [] {
      var rest := ss[1..];
      assert forall i :: 0 <= i < |rest| ==> rest[i] == ss[i + 1];
      ExpectedOncePerAddress(roster, rest);
      ExpectedAddresses(roster, rest);
      DistinctTail(ss);
      var head: seq<DeviceEvent> := Difference(roster, ss[0]);
      var tail: seq<DeviceEvent> := Expected(roster, rest);
      assert Expected(roster, ss) == head + tail;
      forall i, j | 0 <= i < j < |head + tail|
        ensures (head + tail)[i].address != (head + tail)[j].address
      {
        if i < |head| {
          assert (head + tail)[j] in tail;
        }
      }
    }
  }

  /** With distinct addresses the walk's events are exactly the expected ones. */
  lemma PollEventsAreExpected(roster: Roster, ss: seq<DeviceState>)
    requires Distinct(ss)
    ensures DevicesPolled(roster, ss).events == Expected(roster, ss)
  {
    var reported := Addresses(ss);
    var kept := map a | a in roster && a !in roster.Keys - reported :: roster[a];
    WalkMatchesExpected(kept, reported - roster.Keys, roster.Keys * reported, ss);
    ExpectedAgree(kept, roster, ss);
  }

  /**
   A poll reports precisely the difference between the roster before and
   after: added events for the addresses gained, changed events for the
   addresses whose record differs, the removed set for the addresses lost,
   and never two events for one address.
   */
  lemma PollReportsDifference(roster: Roster, ss: seq<DeviceState>)
    requires Distinct(ss)
    ensures var r := DevicesPolled(roster, ss);
            && (forall a :: DeviceAdded(a) in r.events <==> a in r.roster && a !in roster)
            && (forall a :: DeviceChanged(a) in r.events <==> a in roster && a in r.roster && roster[a] != r.roster[a])
            && (forall a :: a in r.removed <==> a in roster && a !in r.roster)
            && (forall i, j :: 0 <= i < j < |r.events| ==> r.events[i].address != r.events[j].address)
  {
    var r := DevicesPolled(roster, ss);
    PollEventsAreExpected(roster, ss);
    PollStoresSnapshot(roster, ss);
    SnapshotOfDistinct(ss);
    ExpectedMembers(roster, ss);
    ExpectedOncePerAddress(roster, ss);
    forall a | a in Addresses(ss)
      ensures DeviceChanged(a) in r.events <==> a in roster && roster[a] != r.roster[a]
    {
      var i := AddressIndex(ss, a);
    }
    ExpectedAddresses(roster, ss);
  }

  /** Devices whose stored record matches what is reported call for no event. */
  lemma {:induction false} ExpectedOfStored(roster: Roster, ss: seq<DeviceState>)
    requires forall i :: 0 <= i < |ss| ==> ss[i].address in roster && roster[ss[i].address] == ss[i]
    ensures Expected(roster, ss) == []
    decreases |ss|
  {
    if ss != [] {
      ExpectedOfStored(roster, ss[1..]);
    }
  }

  /** When every device but the one at `i` is stored as reported, only that one can call for an event. */
  lemma {:induction false} ExpectedOnlyAt(roster: Roster, ss: seq<DeviceState>, i: nat)
    requires i < |ss|
    requires forall j :: 0 <= j < |ss| && j != i ==> ss[j].address in roster && roster[ss[j].address] == ss[j]
    ensures Expected(roster, ss) == Difference(roster, ss[i])
    decreases |ss|
  {
    var rest := ss[1..];
    assert forall j :: 0 <= j < |rest| ==> rest[j] == ss[j + 1];
    assert Expected(roster, ss) == Difference(roster, ss[0]) + Expected(roster, rest);
    if i == 0 {
      ExpectedOfStored(roster, rest);
      assert Difference(roster, ss[0]) + [] == Difference(roster, ss[0]);
    } else {
      ExpectedOnlyAt(roster, rest, i - 1);
      assert Difference(roster, ss[0]) == [];
      assert [] + Difference(roster, ss[i]) == Difference(roster, ss[i]);
    }
  }

  /** Polling the same snapshot a second time changes nothing and reports nothing. */
  lemma PollIsIdempotent(roster: Roster, ss: seq<DeviceState>)
    requires Distinct(ss)
    ensures var once := DevicesPolled(roster, ss).roster;
            DevicesPolled(once, ss) == Polled(once, {}, [])
  {
    var once := DevicesPolled(roster, ss).roster;
    PollStoresSnapshot(roster, ss);
    PollStoresSnapshot(once, ss);
    SnapshotOfDistinct(ss);
    PollEventsAreExpected(once, ss);
    ExpectedOfStored(once, ss);
  }

  /**
   Without distinct addresses a poll need not settle: a list naming one
   address with two different records reports that address changed twice on
   every poll after the first, however often it is repeated.
   */
  lemma PollOfDuplicateNeverSettles(roster: Roster, x: DeviceState, y: DeviceState)
    requires x.address == y.address && x != y
    ensures var once := DevicesPolled(roster, [x, y]).roster;
            && once == map[x.address := y]
            && DevicesPolled(once, [x, y]) == Polled(once, {}, [DeviceChanged(x.address), DeviceChanged(x.address)])
  {
    var a := x.address;
    assert [x, y][1..] == [y];
    assert [y][1..] == [];
    assert Addresses([x, y]) == {a} by {
      assert Addresses([y]) == {a} + Addresses([]);
    }
    PollStoresSnapshot(roster, [x, y]);
    var once := DevicesPolled(roster, [x, y]).roster;
    assert once == map[a := y] by {
      assert Overlay(map[], [x, y]) == Overlay(map[a := x], [y]);
      assert Overlay(map[a := x], [y]) == Overlay(map[a := x][a := y], []);
      assert map[a := x][a := y] == map[a := y];
    }
    assert once.Keys - Addresses([x, y]) == {};
    assert Addresses([x, y]) - once.Keys == {};
    assert once.Keys * Addresses([x, y]) == {a};
    var kept := map b | b in once && b !in once.Keys - Addresses([x, y]) :: once[b];
    assert kept == once;
    var first := Visit(once, {}, {a}, x);
    assert first == Walked(map[a := x], [DeviceChanged(a)]);
    var second := Visit(first.roster, {}, {a}, y);
    assert second == Walked(map[a := y], [DeviceChanged(a)]);
    assert Walk(first.roster, {}, {a}, [y]) == Walked(second.roster, second.events + []);
    assert Walk(once, {}, {a}, [x, y]) == Walked(map[a := y], [DeviceChanged(a)] + [DeviceChanged(a)]);
    assert DevicesPolled(once, [x, y]) == Polled(map[a := y], {}, [DeviceChanged(a), DeviceChanged(a)]);
  }

  lemma AddressesAfterReplace(ss: seq<DeviceState>, i: nat, d: DeviceState)
    requires Distinct(ss) && i < |ss|
    ensures Addresses(ss[i := d]) == Addresses(ss) - {ss[i].address} + {d.address}
  {
    var ss' := ss[i := d];
    assert ss'[i] == d;
    forall a | a in Addresses(ss) && a != ss[i].address
      ensures a in Addresses(ss')
    {
      var j := AddressIndex(ss, a);
      assert ss'[j] == ss[j];
    }
    forall a | a in Addresses(ss')
      ensures a in Addresses(ss) - {ss[i].address} + {d.address}
    {
      var j := AddressIndex(ss', a);
      if j != i {
        assert ss'[j] == ss[j];
        assert ss[j].address != ss[i].address by {
          if j < i {
          } else {
          }
        }
      }
    }
  }

  lemma {:induction false} AddressesAppend(a: seq<DeviceState>, b: seq<DeviceState>)
    ensures Addresses(a + b) == Addresses(a) + Addresses(b)
    decreases |a|
  {
    if a == [] {
      assert a + b == b;
    } else {
      assert (a + b)[0] == a[0] && (a + b)[1..] == a[1..] + b;
      AddressesAppend(a[1..], b);
    }
  }

  lemma AddressesAfterDrop(ss: seq<DeviceState>, i: nat)
    requires Distinct(ss) && i < |ss|
    ensures Addresses(ss[..i] + ss[i + 1..]) == Addresses(ss) - {ss[i].address}
  {
    var front, back := ss[..i], ss[i + 1..];
    NotInAddresses(front, ss[i].address);
    assert ss[i].address !in Addresses(back) by {
      DistinctTail(ss[i..]);
      assert ss[i..][1..] == back;
    }
    assert ss[i..] == [ss[i]] + back;
    assert ss == front + ss[i..];
    AddressesAppend(front, back);
    AddressesAppend([ss[i]], back);
    AddressesAppend(front, ss[i..]);
  }

  /** Dropping one entry keeps the addresses distinct. */
  lemma DropEntries(ss: seq<DeviceState>, i: nat)
    requires Distinct(ss) && i < |ss|
    ensures Distinct(ss[..i] + ss[i + 1..])
  {
    var ss' := ss[..i] + ss[i + 1..];
    forall j, k | 0 <= j < k < |ss'|
      ensures ss'[j].address != ss'[k].address
    {
      var j', k' := if j < i then j else j + 1, if k < i then k else k + 1;
      assert ss'[j] == ss[j'] && ss'[k] == ss[k'];
    }
  }

  /** A poll against a stored snapshot, as removed set and expected events. */
  lemma PollAfterSnapshot(ss: seq<DeviceState>, ss': seq<DeviceState>)
    requires Distinct(ss) && Distinct(ss')
    ensures DevicesPolled(Snapshot(ss), ss') ==
              Polled(Snapshot(ss'), Addresses(ss) - Addresses(ss'), Expected(Snapshot(ss), ss'))
  {
    SnapshotOfDistinct(ss);
    PollStoresSnapshot(Snapshot(ss), ss');
    PollEventsAreExpected(Snapshot(ss), ss');
  }

  /** One device's record changes under the same address: exactly one changed event, nothing removed. */
  lemma ChangingOneDevice(ss: seq<DeviceState>, i: nat, d: DeviceState)
    requires Distinct(ss) && i < |ss|
    requires d.address == ss[i].address && d != ss[i]
    ensures Distinct(ss[i := d])
    ensures DevicesPolled(Snapshot(ss), ss[i := d]) == Polled(Snapshot(ss[i := d]), {}, [DeviceChanged(d.address)])
  {
    var ss' := ss[i := d];
    assert forall j :: 0 <= j < |ss'| ==> ss'[j].address == ss[j].address;
    PollAfterSnapshot(ss, ss');
    SnapshotOfDistinct(ss);
    ExpectedOnlyAt(Snapshot(ss), ss', i);
    assert Addresses(ss) <= Addresses(ss') by {
      forall a | a in Addresses(ss)
        ensures a in Addresses(ss')
      {
        var j := AddressIndex(ss, a);
        assert ss'[j].address == a;
      }
    }
  }

  /** One device reports a new address: the old address is removed and the new one added, with no changed event. */
  lemma ReaddressingOneDevice(ss: seq<DeviceState>, i: nat, d: DeviceState)
    requires Distinct(ss) && i < |ss|
    requires d.address !in Addresses(ss)
    ensures Distinct(ss[i := d])
    ensures DevicesPolled(Snapshot(ss), ss[i := d]) ==
              Polled(Snapshot(ss[i := d]), {ss[i].address}, [DeviceAdded(d.address)])
  {
    var ss' := ss[i := d];
    PollAfterSnapshot(ss, ss');
    SnapshotOfDistinct(ss);
    ExpectedOnlyAt(Snapshot(ss), ss', i);
    AddressesAfterReplace(ss, i, d);
  }

  /** One device disappears from the snapshot: its address is removed and nothing else is reported. */
  lemma DroppingOneDevice(ss: seq<DeviceState>, i: nat)
    requires Distinct(ss) && i < |ss|
    ensures Distinct(ss[..i] + ss[i + 1..])
    ensures DevicesPolled(Snapshot(ss), ss[..i] + ss[i + 1..]) ==
              Polled(Snapshot(ss[..i] + ss[i + 1..]), {ss[i].address}, [])
  {
    var ss' := ss[..i] + ss[i + 1..];
    DropEntries(ss, i);
    PollAfterSnapshot(ss, ss');
    SnapshotOfDistinct(ss);
    forall j | 0 <= j < |ss'|
      ensures ss'[j].address in Snapshot(ss) && Snapshot(ss)[ss'[j].address] == ss'[j]
    {
      var k := if j < i then j else j + 1;
      assert ss'[j] == ss[k];
    }
    ExpectedOfStored(Snapshot(ss), ss');
    AddressesAfterDrop(ss, i);
  }

  /** A device with a new address joins the snapshot: exactly one added event, nothing removed. */
  lemma AddingOneDevice(ss: seq<DeviceState>, d: DeviceState)
    requires Distinct(ss)
    requires d.address !in Addresses(ss)
    ensures Distinct(ss + [d])
    ensures DevicesPolled(Snapshot(ss), ss + [d]) == Polled(Snapshot(ss + [d]), {}, [DeviceAdded(d.address)])
  {
    var ss' := ss + [d];
    assert forall j :: 0 <= j < |ss| ==> ss'[j] == ss[j];
    PollAfterSnapshot(ss, ss');
    SnapshotOfDistinct(ss);
    ExpectedOnlyAt(Snapshot(ss), ss', |ss|);
    assert Addresses(ss) <= Addresses(ss') by {
      forall a | a in Addresses(ss)
        ensures a in Addresses(ss')
      {
        var j := AddressIndex(ss, a);
        assert ss'[j] == ss[j];
      }
    }
  }
}
