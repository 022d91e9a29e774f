/**
 The links of one host interface over time (internal/portlink/portlink.go): each run of the
 correlator refreshes the links it ranked and ages the others out.
 */
module PortLinks {
  import opened Wrappers
  import opened PortRank

  type Time = int

  /** One per-switch link as stored. */
  datatype Stored = Stored(switch: Id, port: Id, portName: string, vlan: int, source: Source, lastSeen: Option<Time>)

  /** The flat (primary) link columns and the per-switch set; port 0 is no link. */
  datatype Iface = Iface(device: Id, port: Id, portName: string, source: Option<Source>, vlan: int,
                         lastSeen: Option<Time>, links: seq<Stored>)

  const UNLINKED := Iface(0, 0, "", None, 0, None, [])

  // ---- one run

  function StoredNow(l: Link, now: Time): Stored {
    Stored(l.switch, l.port, l.portName, l.vlan, l.source, Some(now))
  }

  predicate Stale(t: Option<Time>, now: Time, age: int) {
    t.None? || now - t.value > age
  }

  predicate RankedOn(ranked: seq<Link>, sw: Id) {
    exists l :: l in ranked && l.switch == sw
  }

  function Fresh(ranked: seq<Link>, now: Time, n: nat): seq<Stored>
    requires n <= |ranked|
  {
    if n == 0 then [] else Fresh(ranked, now, n - 1) + [StoredNow(ranked[n - 1], now)]
  }

  predicate Keeps(e: Stored, ranked: seq<Link>, now: Time, age: int) {
    !RankedOn(ranked, e.switch) && !Stale(e.lastSeen, now, age)
  }

  function Kept(cur: seq<Stored>, ranked: seq<Link>, now: Time, age: int, n: nat): seq<Stored>
    requires n <= |cur|
  {
    if n == 0 then []
    else Kept(cur, ranked, now, age, n - 1) + (if Keeps(cur[n - 1], ranked, now, age) then [cur[n - 1]] else [])
  }

  /** The new per-switch set: every ranked link, then the unranked ones that are not stale. */
  function Merged(cur: seq<Stored>, ranked: seq<Link>, now: Time, age: int): seq<Stored> {
    Fresh(ranked, now, |ranked|) + Kept(cur, ranked, now, age, |cur|)
  }

  /** Something must be written: a ranked link, or a link that ends. */
  predicate SetChanged(cur: seq<Stored>, ranked: seq<Link>, now: Time, age: int) {
    ranked != [] || exists e :: e in cur && Stale(e.lastSeen, now, age)
  }

  /** mergeSet: the switches ranked leave the index of existing links, the rest age. */
  method MergeSet(cur: seq<Stored>, ranked: seq<Link>, now: Time, age: int) returns (set': seq<Stored>, changed: bool)
    ensures set' == Merged(cur, ranked, now, age) && changed == SetChanged(cur, ranked, now, age)
  {
    var existing: set<Id> := {};
    for k := 0 to |cur|
      invariant forall sw :: sw in existing <==> exists j :: 0 <= j < k && cur[j].switch == sw
    {
      existing := existing + {cur[k].switch};
    }
    set', changed := [], false;
    for k := 0 to |ranked|
      invariant set' == Fresh(ranked, now, k) && changed == (k > 0)
      invariant forall sw :: sw in existing <==>
            (exists j :: 0 <= j < |cur| && cur[j].switch == sw) && !RankedOn(ranked[..k], sw)
    {
      assert ranked[..k + 1] == ranked[..k] + [ranked[k]];
      changed := true;
      existing := existing - {ranked[k].switch};
      set' := set' + [StoredNow(ranked[k], now)];
    }
    assert ranked[..|ranked|] == ranked;
    for k := 0 to |cur|
      invariant set' == Fresh(ranked, now, |ranked|) + Kept(cur, ranked, now, age, k)
      invariant changed == (ranked != [] || exists j :: 0 <= j < k && Stale(cur[j].lastSeen, now, age))
    {
      var e := cur[k];
      if e.switch in existing {
        if Stale(e.lastSeen, now, age) {
          changed := true;
        } else {
          set' := set' + [e];
        }
      }
    }
  }

  /** The flat columns after a run, and whether they were touched. */
  function FlatStep(i: Iface, ranked: seq<Link>, now: Time, age: int): (Iface, bool) {
    if ranked != [] && i.port == ranked[0].port && i.source == Some(ranked[0].source) && i.vlan == ranked[0].vlan then
      (i.(lastSeen := Some(now)), true)
    else if ranked != [] then
      var l := ranked[0];
      (i.(device := l.switch, port := l.port, portName := l.portName, source := Some(l.source), vlan := l.vlan,
        lastSeen := Some(now)), true)
    else if i.port != 0 && i.source.Some? && Stale(i.lastSeen, now, age) then
      (UNLINKED.(links := i.links), true)
    else (i, false)
  }

  function Step(i: Iface, ranked: seq<Link>, now: Time, age: int): Iface {
    var (f, flat) := FlatStep(i, ranked, now, age);
    if flat || SetChanged(i.links, ranked, now, age) then f.(links := Merged(i.links, ranked, now, age)) else i
  }

  method Correlate(i: Iface, ranked: seq<Link>, now: Time, age: int) returns (i': Iface)
    ensures i' == Step(i, ranked, now, age)
  {
    i' := i;
    var flat := true;
    if ranked != [] && i.port == ranked[0].port && i.source == Some(ranked[0].source) && i.vlan == ranked[0].vlan {
      i' := i'.(lastSeen := Some(now));
    } else if ranked != [] {
      i' := i'.(device := ranked[0].switch, port := ranked[0].port, portName := ranked[0].portName);
      i' := i'.(source := Some(ranked[0].source), vlan := ranked[0].vlan, lastSeen := Some(now));
    } else if i.port != 0 && i.source.Some? && Stale(i.lastSeen, now, age) {
      i' := i'.(device := 0, port := 0, portName := "", source := None, vlan := 0, lastSeen := None);
    } else {
      flat := false;
    }
    var set', changed := MergeSet(i.links, ranked, now, age);
    if flat || changed { i' := i'.(links := set'); }
  }

  // ---- whole histories

  datatype Run = Run(at: Time, ranked: seq<Link>)

  /** Runs as Rank yields them: at most one link per switch, times in order. */
  predicate History(runs: seq<Run>) {
    && (forall a, b :: 0 <= a < b < |runs| ==> runs[a].at <= runs[b].at)
    && (forall a, i, j :: 0 <= a < |runs| && 0 <= i < j < |runs[a].ranked| ==>
        runs[a].ranked[i].switch != runs[a].ranked[j].switch)
  }

  function After(runs: seq<Run>, n: nat, age: int): Iface
    requires n <= |runs|
  {
    if n == 0 then UNLINKED else Step(After(runs, n - 1, age), runs[n - 1].ranked, runs[n - 1].at, age)
  }

  /** The most recent link ranked on the switch, with the time of that run. */
  ghost predicate LastRanked(runs: seq<Run>, n: nat, sw: Id, e: Stored)
    requires n <= |runs|
  {
    exists a :: 0 <= a < n && RankedAt(runs[a], sw, e) && forall b :: a < b < n ==> !RankedOn(runs[b].ranked, sw)
  }

  ghost predicate RankedAt(run: Run, sw: Id, e: Stored) {
    exists l :: l in run.ranked && l.switch == sw && e == StoredNow(l, run.at)
  }

  /** Confirmed by the last run, or not longer ago than the stale age. */
  predicate Current(runs: seq<Run>, n: nat, e: Stored, age: int)
    requires 0 < n <= |runs|
  {
    RankedOn(runs[n - 1].ranked, e.switch) || !Stale(e.lastSeen, runs[n - 1].at, age)
  }

  ghost predicate Distinct(links: seq<Stored>) {
    forall i, j :: 0 <= i < j < |links| ==> links[i].switch != links[j].switch
  }

  /** The set is exactly each switch's most recently ranked link, while it is current. */
  ghost predicate Exact(runs: seq<Run>, n: nat, links: seq<Stored>, age: int)
    requires n <= |runs|
  {
    && (forall e :: e in links <==> n > 0 && LastRanked(runs, n, e.switch, e) && Current(runs, n, e, age))
    && Distinct(links)
  }

  lemma {:induction false} FreshIn(ranked: seq<Link>, now: Time, n: nat)
    requires n <= |ranked|
    ensures |Fresh(ranked, now, n)| == n && forall i :: 0 <= i < n ==>
          Fresh(ranked, now, n)[i] == StoredNow(ranked[i], now)
  {
    if n > 0 { FreshIn(ranked, now, n - 1); }
  }

  lemma {:induction false} KeptIn(cur: seq<Stored>, ranked: seq<Link>, now: Time, age: int, n: nat)
    requires n <= |cur| && Distinct(cur)
    ensures var k := Kept(cur, ranked, now, age, n);
            && (forall e :: e in k <==> e in cur[..n] && Keeps(e, ranked, now, age))
            && Distinct(k)
  {
    if n > 0 {
      KeptIn(cur, ranked, now, age, n - 1);
      assert cur[..n] == cur[..n - 1] + [cur[n - 1]];
      var k := Kept(cur, ranked, now, age, n - 1);
      forall i | 0 <= i < |k| ensures k[i].switch != cur[n - 1].switch { assert k[i] in cur[..n - 1]; }
    }
  }

  lemma MergedIn(cur: seq<Stored>, run: Run, age: int)
    requires Distinct(cur) && forall i, j :: 0 <= i < j < |run.ranked| ==> run.ranked[i].switch != run.ranked[j].switch
    ensures var m := Merged(cur, run.ranked, run.at, age);
            && Distinct(m)
            && (forall e :: e in m <==> RankedAt(run, e.switch, e) || (e in cur && Keeps(e, run.ranked, run.at, age)))
  {
    var newer, kept := Fresh(run.ranked, run.at, |run.ranked|), Kept(cur, run.ranked, run.at, age, |cur|);
    FreshIn(run.ranked, run.at, |run.ranked|);
    KeptIn(cur, run.ranked, run.at, age, |cur|);
    assert cur[..|cur|] == cur;
    forall e ensures e in newer <==> RankedAt(run, e.switch, e) {
      if e in newer {
        var i :| 0 <= i < |newer| && newer[i] == e;
        assert run.ranked[i] in run.ranked;
      }
      if RankedAt(run, e.switch, e) {
        var l :| l in run.ranked && l.switch == e.switch && e == StoredNow(l, run.at);
        var i :| 0 <= i < |run.ranked| && run.ranked[i] == l;
        assert newer[i] == e;
      }
    }
    forall i, j | 0 <= i < |newer| && 0 <= j < |kept| ensures newer[i].switch != kept[j].switch {
      assert kept[j] in kept && run.ranked[i] in run.ranked;
    }
  }

  /** Whether or not anything was written, the set has exactly the merged links. */
  lemma StepIn(i: Iface, run: Run, age: int)
    requires Distinct(i.links) && forall a, b :: 0 <= a < b < |run.ranked| ==>
          run.ranked[a].switch != run.ranked[b].switch
    ensures var t := Step(i, run.ranked, run.at, age).links;
            && Distinct(t)
            && (forall e :: e in t <==>
              RankedAt(run, e.switch, e) || (e in i.links && Keeps(e, run.ranked, run.at, age)))
  {
    MergedIn(i.links, run, age);
  }

  lemma LastStep(runs: seq<Run>, n: nat, e: Stored)
    requires History(runs) && 0 < n <= |runs|
    ensures RankedOn(runs[n - 1].ranked, e.switch) ==>
          (LastRanked(runs, n, e.switch, e) <==> RankedAt(runs[n - 1], e.switch, e))
    ensures !RankedOn(runs[n - 1].ranked, e.switch) ==>
          (LastRanked(runs, n, e.switch, e) <==> LastRanked(runs, n - 1, e.switch, e))
  {
    if LastRanked(runs, n, e.switch, e) {
      var a :| 0 <= a < n && RankedAt(runs[a], e.switch, e)
        && forall b :: a < b < n ==> !RankedOn(runs[b].ranked, e.switch);
      assert a < n - 1 ==> !RankedOn(runs[n - 1].ranked, e.switch);
    }
    if !RankedOn(runs[n - 1].ranked, e.switch) && LastRanked(runs, n - 1, e.switch, e) {
      var a :| 0 <= a < n - 1 && RankedAt(runs[a], e.switch, e)
        && forall b :: a < b < n - 1 ==> !RankedOn(runs[b].ranked, e.switch);
      assert forall b :: a < b < n ==> !RankedOn(runs[b].ranked, e.switch);
    }
  }

  lemma CurrentBefore(runs: seq<Run>, n: nat, e: Stored, age: int)
    requires History(runs) && 1 < n <= |runs| && !Stale(e.lastSeen, runs[n - 1].at, age)
    ensures Current(runs, n - 1, e, age)
  {
    assert runs[n - 2].at <= runs[n - 1].at;
  }

  lemma ExactStep(runs: seq<Run>, n: nat, age: int, e: Stored)
    requires History(runs) && 0 < n <= |runs| && Exact(runs, n - 1, After(runs, n - 1, age).links, age)
    ensures e in After(runs, n, age).links <==> LastRanked(runs, n, e.switch, e) && Current(runs, n, e, age)
  {
    var run := runs[n - 1];
    StepIn(After(runs, n - 1, age), run, age);
    LastStep(runs, n, e);
    assert RankedAt(run, e.switch, e) ==> RankedOn(run.ranked, e.switch);
    if n > 1 && !Stale(e.lastSeen, run.at, age) { CurrentBefore(runs, n, e, age); }
    assert LastRanked(runs, n - 1, e.switch, e) ==> n - 1 > 0;
  }

  /**
   After any history the set holds exactly each switch's most recently ranked link whose last
   confirmation is not older than the stale age at the last run, one per switch.
   */
  lemma {:induction false} SetIsExact(runs: seq<Run>, n: nat, age: int)
    requires History(runs) && n <= |runs|
    ensures Exact(runs, n, After(runs, n, age).links, age)
  {
    if n > 0 {
      SetIsExact(runs, n - 1, age);
      StepIn(After(runs, n - 1, age), runs[n - 1], age);
      forall e ensures e in After(runs, n, age).links <==>
        LastRanked(runs, n, e.switch, e) && Current(runs, n, e, age) {
        ExactStep(runs, n, age, e);
      }
    }
  }

  /** The flat fields are those of the stored link. */
  predicate FlatFrom(i: Iface, e: Stored) {
    i.port == e.port && i.source == Some(e.source) && i.vlan == e.vlan && i.lastSeen == e.lastSeen
  }

  ghost predicate FlatIsMember(i: Iface) {
    i.port != 0 ==> exists e :: e in i.links && FlatFrom(i, e)
  }

  lemma FlatStays(i: Iface, run: Run, age: int)
    requires Distinct(i.links) && FlatIsMember(i)
    requires forall a, b :: 0 <= a < b < |run.ranked| ==> run.ranked[a].switch != run.ranked[b].switch
    ensures FlatIsMember(Step(i, run.ranked, run.at, age))
  {
    StepIn(i, run, age);
    var t := Step(i, run.ranked, run.at, age);
    if run.ranked != [] {
      var e := StoredNow(run.ranked[0], run.at);
      assert RankedAt(run, e.switch, e);
      assert e in t.links && FlatFrom(t, e);
    } else if i.port != 0 && !Stale(i.lastSeen, run.at, age) {
      var e :| e in i.links && FlatFrom(i, e);
      assert Keeps(e, run.ranked, run.at, age);
      assert e in t.links && FlatFrom(t, e);
    }
  }

  lemma {:induction false} LinksDistinct(runs: seq<Run>, n: nat, age: int)
    requires History(runs) && n <= |runs|
    ensures Distinct(After(runs, n, age).links)
  {
    if n > 0 {
      LinksDistinct(runs, n - 1, age);
      StepIn(After(runs, n - 1, age), runs[n - 1], age);
    }
  }

  /** A linked primary port is always in the set, last seen at the same time. */
  lemma {:induction false} PrimaryIsMember(runs: seq<Run>, n: nat, age: int)
    requires History(runs) && n <= |runs|
    ensures FlatIsMember(After(runs, n, age))
  {
    if n > 0 {
      PrimaryIsMember(runs, n - 1, age);
      LinksDistinct(runs, n - 1, age);
      FlatStays(After(runs, n - 1, age), runs[n - 1], age);
    }
  }

  // ---- in the stored columns

  /** The stored link repeats the ranked one, with the time of the run. */
  predicate Repeats(e: Stored, l: Link, at: Time) {
    && e.switch == l.switch && e.port == l.port && e.portName == l.portName && e.vlan == l.vlan && e.source == l.source
    && e.lastSeen == Some(at)
  }

  /** Run `a` ranked the link, no later one ranked its switch, and it is the last run or not too long before it. */
  ghost predicate LastSeenIn(runs: seq<Run>, n: nat, a: int, e: Stored, age: int)
    requires n <= |runs|
  {
    && 0 <= a < n && (exists l :: l in runs[a].ranked && Repeats(e, l, runs[a].at))
    && (forall b, l :: a < b < n && l in runs[b].ranked ==> l.switch != e.switch)
    && (a == n - 1 || runs[n - 1].at - runs[a].at <= age)
  }

  /** Over every history a link is stored if and only if a run saw it last and that is not longer ago than the age. */
  lemma SetInColumns(runs: seq<Run>, n: nat, age: int, e: Stored)
    requires History(runs) && n <= |runs|
    ensures e in After(runs, n, age).links <==> exists a :: LastSeenIn(runs, n, a, e, age)
  {
    SetIsExact(runs, n, age);
    if n > 0 && LastRanked(runs, n, e.switch, e) && Current(runs, n, e, age) { RankedIsSeen(runs, n, e, age); }
    if a :| LastSeenIn(runs, n, a, e, age) { SeenIsRanked(runs, n, a, e, age); }
  }

  lemma RankedIsSeen(runs: seq<Run>, n: nat, e: Stored, age: int)
    requires 0 < n <= |runs| && LastRanked(runs, n, e.switch, e) && Current(runs, n, e, age)
    ensures exists a :: LastSeenIn(runs, n, a, e, age)
  {
    var a :| 0 <= a < n && RankedAt(runs[a], e.switch, e)
      && forall b :: a < b < n ==> !RankedOn(runs[b].ranked, e.switch);
    var l :| l in runs[a].ranked && l.switch == e.switch && e == StoredNow(l, runs[a].at);
    assert Repeats(e, l, runs[a].at);
    assert LastSeenIn(runs, n, a, e, age);
  }

  lemma SeenIsRanked(runs: seq<Run>, n: nat, a: int, e: Stored, age: int)
    requires n <= |runs| && LastSeenIn(runs, n, a, e, age)
    ensures n > 0 && LastRanked(runs, n, e.switch, e) && Current(runs, n, e, age)
  {
    var l :| l in runs[a].ranked && Repeats(e, l, runs[a].at);
    assert e == StoredNow(l, runs[a].at);
    assert RankedAt(runs[a], e.switch, e) && RankedOn(runs[a].ranked, e.switch);
    forall b | a < b < n ensures !RankedOn(runs[b].ranked, e.switch) {}
  }

  /** The last run that ranked the interface at all. */
  function LastRun(runs: seq<Run>, n: nat): (k: Option<nat>)
    requires n <= |runs|
    ensures k.Some? ==> k.value < n && runs[k.value].ranked != []
  {
    if n == 0 then None else if runs[n - 1].ranked != [] then Some(n - 1) else LastRun(runs, n - 1)
  }

  /** Switch and port name were written by a run, not after `k`, whose first link had the same port, source and VLAN. */
  ghost predicate NamedBy(runs: seq<Run>, k: nat, i: Iface)
    requires k < |runs|
  {
    exists j :: 0 <= j <= k && runs[j].ranked != [] &&
      var l := runs[j].ranked[0];
      i.port == l.port && i.source == Some(l.source) && i.vlan == l.vlan && i.device == l.switch
      && i.portName == l.portName
  }

  /** The flat columns are the first link of that run, or cleared once it is too long ago. */
  ghost predicate FlatColumns(runs: seq<Run>, n: nat, i: Iface, age: int)
    requires n <= |runs|
  {
    var k := LastRun(runs, n);
    if k.Some? && (k.value == n - 1 || runs[n - 1].at - runs[k.value].at <= age) then
      var l := runs[k.value].ranked[0];
      && i.port == l.port && i.source == Some(l.source) && i.vlan == l.vlan && i.lastSeen == Some(runs[k.value].at)
      && NamedBy(runs, k.value, i)
    else i.device == 0 && i.port == 0 && i.portName == "" && i.source == None && i.vlan == 0 && i.lastSeen == None
  }

  lemma FlatNext(runs: seq<Run>, n: nat, age: int)
    requires History(runs) && 0 < n <= |runs| && FlatColumns(runs, n - 1, After(runs, n - 1, age), age)
    requires forall a, l :: 0 <= a < |runs| && l in runs[a].ranked ==> l.port != 0
    ensures FlatColumns(runs, n, After(runs, n, age), age)
  {
    var k := LastRun(runs, n);
    if k.Some? && k.value < n - 1 {
      assert runs[k.value].ranked[0] in runs[k.value].ranked;
      assert runs[n - 2].at <= runs[n - 1].at && runs[k.value].at <= runs[n - 2].at;
    }
  }

  /** Over every history the interface is linked to the first port of the last ranking, while that is recent enough. */
  lemma {:induction false} FlatInColumns(runs: seq<Run>, n: nat, age: int)
    requires History(runs) && n <= |runs|
    requires forall a, l :: 0 <= a < |runs| && l in runs[a].ranked ==> l.port != 0
    ensures FlatColumns(runs, n, After(runs, n, age), age)
  {
    if n > 0 {
      FlatInColumns(runs, n - 1, age);
      FlatNext(runs, n, age);
    }
  }
}
