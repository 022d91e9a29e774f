/** Which stored device a report updates, over the store alone (internal/hostplan/match.go). */
module HostMatch {
  import opened Wrappers
  import opened HostStore
  import opened HostReport
  import opened HostPlan
  import opened HostLoad
  import HostGuests

  /** The device is linked to the report's host. */
  predicate OfHost(d: Device, r: Report) {
    d.cols.inventory != "" && Lower(d.cols.inventory) == Lower(r.host)
  }

  /** The device is linked to no other host. */
  predicate Available(d: Device, r: Report) {
    d.cols.inventory == "" || Lower(d.cols.inventory) == Lower(r.host)
  }

  /** The devices with the reported serial number, up to case and surrounding space. */
  function WithSerial(devices: map<Id, Device>, r: Report): set<Id> {
    set i | i in devices && Lower(Trim(devices[i].cols.serial)) == Lower(Trim(r.serial))
  }

  predicate WithName(d: Device, r: Report) {
    Lower(d.cols.name) == Lower(r.hostname) && Available(d, r)
  }

  /** A serial number that is none of the vendors' fillers and more than zeros and the letter x. */
  predicate Identifies(serial: string) {
    var t := Lower(Trim(serial));
    && t !in {"", "0", "123456789", "chassis serial number", "default string", "n/a", "na", "none", "not applicable",
              "not specified", "system serial number", "to be filled by o.e.m.", "unknown"}
    && exists i :: 0 <= i < |t| && t[i] != '0' && t[i] != 'x'
  }

  /** A hostname that is not an installer's default. */
  predicate Individual(hostname: string) {
    Lower(Trim(hostname)) !in {"", "centos", "debian", "fedora", "host", "localhost", "localhost.localdomain",
                               "raspberrypi", "server", "ubuntu", "unknown"}
  }

  lemma NotFiller(serial: string, hostname: string)
    ensures Identifies(serial) <==> !IsPlaceholderSerial(serial)
    ensures Individual(hostname) <==> !IsGenericName(hostname)
  {
    var t := Lower(Trim(serial));
    if c :| c in t && c != '0' && c != 'x' {
      var i :| 0 <= i < |t| && t[i] == c;
    } else {
      forall i | 0 <= i < |t| ensures t[i] == '0' || t[i] == 'x' { assert t[i] in t; }
    }
  }

  /** The device the store and the report decide on: by host link, else by serial, else by name. */
  ghost predicate Decided(devices: map<Id, Device>, r: Report, m: Option<Device>) {
    if exists i :: i in devices && OfHost(devices[i], r) then
      exists i :: i in devices && OfHost(devices[i], r) && m == Some(devices[i])
    else if BySerial(devices, r) then
      exists i :: WithSerial(devices, r) == {i} && m == Some(devices[i])
    else if r.hostname != "" && Individual(r.hostname) && exists i :: i in devices && WithName(devices[i], r) then
      exists i :: i in devices && WithName(devices[i], r) && m == Some(devices[i])
    else m == None
  }

  /** The serial number says something, exactly one device has it, and that one is available. */
  ghost predicate BySerial(devices: map<Id, Device>, r: Report) {
    Identifies(r.serial) && exists i :: WithSerial(devices, r) == {i} && Available(devices[i], r)
  }

  // ---- what was loaded

  lemma {:induction false} AllHit(ds: seq<Device>, serial: string)
    requires forall d :: d in ds ==> SameSerial(d, serial)
    ensures SerialHits(ds, serial) == ds
  {
    if ds != [] {
      assert ds == [ds[0]] + ds[1..] && ds[0] in ds && forall d :: d in ds[1..] ==> d in ds;
      AllHit(ds[1..], serial);
    }
  }

  lemma SaysSomething(serial: string)
    requires !IsPlaceholderSerial(serial)
    ensures Trim(serial) != ""
  {
    assert Trim(serial) == "" ==> Lower(Trim(serial)) == "";
  }

  /** Rows with different ids are as many as their ids. */
  lemma {:induction false} RowsCount(rows: seq<Device>, wanted: set<Id>)
    requires forall i, j :: 0 <= i < j < |rows| ==> rows[i].id != rows[j].id
    requires forall k :: 0 <= k < |rows| ==> rows[k].id in wanted
    requires forall i :: i in wanted ==> exists k :: 0 <= k < |rows| && rows[k].id == i
    ensures |rows| == |wanted|
  {
    if rows == [] {
      assert wanted == {};
    } else {
      var n := |rows| - 1;
      forall i | i in wanted - {rows[n].id} ensures exists k :: 0 <= k < n && rows[..n][k].id == i {
        var k :| 0 <= k < |rows| && rows[k].id == i;
        assert rows[..n][k].id == i;
      }
      RowsCount(rows[..n], wanted - {rows[n].id});
    }
  }

  lemma SerialsLoaded(s: Store, r: Report, st: State)
    requires KeysAreIds(s) && LoadsCandidates(s, r, st) && st.byHost.None? && !IsPlaceholderSerial(r.serial)
    ensures SerialHits(st.bySerial, r.serial) == st.bySerial
    ensures |st.bySerial| == |WithSerial(s.devices, r)|
    ensures forall d :: d in st.bySerial ==> d.id in WithSerial(s.devices, r) && s.devices[d.id] == d
  {
    var rows, ids := st.bySerial, WithSerial(s.devices, r);
    AllHit(rows, r.serial);
    SaysSomething(r.serial);
    forall k | 0 <= k < |rows| ensures rows[k].id in ids { assert rows[k] in rows; }
    forall i | i in ids ensures exists k :: 0 <= k < |rows| && rows[k].id == i { assert s.devices[i] in rows; }
    RowsCount(rows, ids);
  }

  lemma {:induction false} NameHitIs(ds: seq<Device>, r: Report)
    ensures var m := NameHit(ds, r);
            (m.Some? ==> m.value in ds && WithName(m.value, r)) && (m.None? ==> forall d :: d in ds ==> !WithName(d, r))
  {
    if ds != [] {
      NameHitIs(ds[1..], r);
      assert forall d :: d in ds[1..] ==> d in ds;
      assert forall d :: d in ds ==> d == ds[0] || d in ds[1..];
    }
  }

  lemma NamesLoaded(s: Store, r: Report, st: State)
    requires KeysAreIds(s) && LoadsCandidates(s, r, st) && r.hostname != ""
    ensures var m := NameHit(st.byName, r);
            && (m.Some? ==> m.value.id in s.devices && s.devices[m.value.id] == m.value && WithName(m.value, r))
            && (m.None? ==> forall i :: i in s.devices ==> !WithName(s.devices[i], r))
  {
    NameHitIs(st.byName, r);
    forall i | i in s.devices && WithName(s.devices[i], r) ensures s.devices[i] in st.byName {}
  }

  lemma OneHit(s: Store, r: Report, st: State)
    requires KeysAreIds(s) && LoadsCandidates(s, r, st) && st.byHost.None? && !IsPlaceholderSerial(r.serial)
    ensures var hits := SerialHits(st.bySerial, r.serial);
            && (|hits| == 1 ==> WithSerial(s.devices, r) == {hits[0].id} && s.devices[hits[0].id] == hits[0])
            && (forall i :: WithSerial(s.devices, r) == {i} ==> |hits| == 1 && hits[0] == s.devices[i])
  {
    SerialsLoaded(s, r, st);
    var hits, ids := st.bySerial, WithSerial(s.devices, r);
    if |hits| == 1 {
      assert hits[0] in hits && hits[0].id in ids;
      HostGuests.SubsetFull({hits[0].id}, ids);
    }
    forall i | ids == {i} ensures |hits| == 1 && hits[0] == s.devices[i] {
      assert hits[0] in hits && hits[0].id in ids;
    }
  }

  lemma NobodyOfHost(s: Store, r: Report, st: State)
    requires LoadsByHost(s, r, st) && st.byHost.None?
    ensures !exists i :: i in s.devices && OfHost(s.devices[i], r)
  {
    forall i | i in s.devices ensures !OfHost(s.devices[i], r) { assert !LinkedTo(s.devices[i], r.host); }
  }

  /** The hits say whether the serial decides. */
  lemma SerialDecides(s: Store, r: Report, st: State)
    requires KeysAreIds(s) && LoadsCandidates(s, r, st) && st.byHost.None?
    ensures var hits := SerialHits(st.bySerial, r.serial);
            var decides := !IsPlaceholderSerial(r.serial) && |hits| == 1 && !LinkedElsewhere(hits[0], r.host);
            && (decides <==> BySerial(s.devices, r))
            && (decides ==> WithSerial(s.devices, r) == {hits[0].id} && s.devices[hits[0].id] == hits[0])
  {
    NotFiller(r.serial, r.hostname);
    if !IsPlaceholderSerial(r.serial) { OneHit(s, r, st); }
  }

  /** Whatever order the candidates come in, the report is matched as the store decides. */
  lemma MatchIsDecided(s: Store, r: Report, st: State)
    requires KeysAreIds(s) && LoadsCandidates(s, r, st)
    ensures Decided(s.devices, r, Match(st, r))
  {
    if st.byHost.Some? {
      assert OfHost(s.devices[st.byHost.value.id], r);
    } else {
      NobodyOfHost(s, r, st);
      SerialDecides(s, r, st);
      NotFiller(r.serial, r.hostname);
      if r.hostname != "" { NamesLoaded(s, r, st); }
    }
  }
}
