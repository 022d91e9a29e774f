/** The link sets over time, fed by the ranking's own output (internal/portlink/portlink.go). */
module PortHistory {
  import opened PortFields
  import opened PortRank
  import opened PortRankRun
  import opened PortLinks

  /** The ranked links of one host interface, as the correlator groups them. */
  predicate Of(l: Link, iface: Id) {
    l.address == 0 && l.iface == iface
  }

  function ForIface(ls: seq<Link>, iface: Id): seq<Link> {
    if ls == [] then []
    else ForIface(ls[..|ls| - 1], iface) + (if Of(ls[|ls| - 1], iface) then [ls[|ls| - 1]] else [])
  }

  /** Interfaces and addresses enter the ranking once each. */
  predicate DistinctHosts(hosts: seq<Host>) {
    forall i, j :: 0 <= i < j < |hosts| ==> hosts[i].iface != hosts[j].iface || hosts[i].address != hosts[j].address
  }

  ghost predicate DistinctLinks(ls: seq<Link>) {
    forall i, j :: 0 <= i < j < |ls| ==> ls[i].switch != ls[j].switch
  }

  lemma {:induction false} ForIfaceCount(ls: seq<Link>, iface: Id, l: Link)
    ensures multiset(ForIface(ls, iface))[l] == if Of(l, iface) then multiset(ls)[l] else 0
  {
    if ls != [] {
      var init, last := ls[..|ls| - 1], ls[|ls| - 1];
      ForIfaceCount(init, iface, l);
      assert ls == init + [last];
    }
  }

  lemma SameForIface(a: seq<Link>, b: seq<Link>, iface: Id)
    requires multiset(a) == multiset(b)
    ensures multiset(ForIface(a, iface)) == multiset(ForIface(b, iface))
  {
    forall l ensures multiset(ForIface(a, iface))[l] == multiset(ForIface(b, iface))[l] {
      ForIfaceCount(a, iface, l);
      ForIfaceCount(b, iface, l);
    }
  }

  lemma {:induction false} ForIfaceJoin(a: seq<Link>, b: seq<Link>, iface: Id)
    ensures ForIface(a + b, iface) == ForIface(a, iface) + ForIface(b, iface)
  {
    if b == [] {
      assert a + b == a;
    } else {
      var init := b[..|b| - 1];
      ForIfaceJoin(a, init, iface);
      assert (a + b)[..|a + b| - 1] == a + init;
    }
  }

  /** The links of one host carry its interface and address. */
  lemma LinksCarry(inp: Input, h: Host, ls: seq<Link>, i: nat)
    requires HostLinks(inp, h, ls) && i < |ls|
    ensures ls[i].iface == h.iface && ls[i].address == h.address
  {
    OnSwitchUnique(inp, h, ls[i].switch, Unflagged(ls[i]), Unflagged(ls[i]));
  }

  lemma {:induction false} ForIfaceAll(ls: seq<Link>, iface: Id)
    ensures (forall l :: l in ls ==> Of(l, iface)) ==> ForIface(ls, iface) == ls
    ensures (forall l :: l in ls ==> !Of(l, iface)) ==> ForIface(ls, iface) == []
  {
    if ls != [] {
      var init := ls[..|ls| - 1];
      ForIfaceAll(init, iface);
      assert ls == init + [ls[|ls| - 1]];
    }
  }

  predicate Is(h: Host, iface: Id) {
    h.address == 0 && h.iface == iface
  }

  lemma ForIfaceHost(inp: Input, h: Host, ls: seq<Link>, iface: Id)
    requires HostLinks(inp, h, ls)
    ensures ForIface(ls, iface) == if Is(h, iface) then ls else []
  {
    forall l | l in ls ensures Of(l, iface) <==> Is(h, iface) {
      var i :| 0 <= i < |ls| && ls[i] == l;
      LinksCarry(inp, h, ls, i);
    }
    ForIfaceAll(ls, iface);
  }

  lemma FlatMore(inp: Input, parts: seq<seq<Link>>, n: nat, iface: Id)
    requires Ranked(inp, parts) && n < |parts|
    ensures ForIface(Flat(parts[..n + 1]), iface)
              == ForIface(Flat(parts[..n]), iface) + if Is(inp.hosts[n], iface) then parts[n] else []
  {
    assert parts[..n + 1][..n] == parts[..n];
    ForIfaceJoin(Flat(parts[..n]), parts[n], iface);
    ForIfaceHost(inp, inp.hosts[n], parts[n], iface);
  }

  /** What one interface gets out of the first `n` hosts is nothing or the links of its one host. */
  lemma {:induction false} FlatForIface(inp: Input, parts: seq<seq<Link>>, n: nat, iface: Id)
    requires DistinctHosts(inp.hosts) && Ranked(inp, parts) && n <= |parts|
    ensures var f := ForIface(Flat(parts[..n]), iface);
            f == [] || exists k :: 0 <= k < n && Is(inp.hosts[k], iface) && f == parts[k]
  {
    if n > 0 {
      var init := parts[..n - 1];
      assert parts[..n][..n - 1] == init;
      FlatForIface(inp, parts, n - 1, iface);
      FlatMore(inp, parts, n - 1, iface);
      if k :| 0 <= k < n - 1 && Is(inp.hosts[k], iface) && ForIface(Flat(init), iface) == parts[k] {
        assert !Is(inp.hosts[n - 1], iface);
      }
    }
  }

  /** The ranking gives an interface at most one link per switch. */
  lemma RankedDistinct(inp: Input, out: seq<Link>, iface: Id)
    requires DistinctHosts(inp.hosts) && RankOf(inp, out)
    ensures DistinctLinks(ForIface(out, iface))
  {
    var parts :| Ranked(inp, parts) && out == StableOrder(Flat(parts));
    StableOrderAll(Flat(parts));
    assert parts[..|parts|] == parts;
    FlatForIface(inp, parts, |parts|, iface);
    SameForIface(Flat(parts), out, iface);
    PermutedSwitches(ForIface(Flat(parts), iface), ForIface(out, iface));
  }

  lemma {:induction false} ForIfaceSorted(ls: seq<Link>, iface: Id)
    requires OutSorted(ls)
    ensures OutSorted(ForIface(ls, iface)) && forall l :: l in ForIface(ls, iface) ==> l in ls && Of(l, iface)
  {
    if ls != [] {
      var init, last := ls[..|ls| - 1], ls[|ls| - 1];
      ForIfaceSorted(init, iface);
      forall l | l in ForIface(init, iface) ensures !OutBefore(last, l) {
        var i :| 0 <= i < |init| && init[i] == l;
        assert ls[i] == l;
      }
    }
  }

  /** Among the links of one interface in the final order, a primary one comes first. */
  lemma PrimaryLeads(ls: seq<Link>, iface: Id, i: nat)
    requires OutSorted(ls) && (forall l :: l in ls ==> Of(l, iface)) && i < |ls| && ls[i].primary
    ensures ls[0].primary
  {
    assert ls[0] in ls && ls[i] in ls;
    assert i > 0 ==> !OutBefore(ls[i], ls[0]);
  }

  /** The link the correlator writes to the flat columns is the ranking's primary, before every other. */
  lemma FirstIsPrimary(inp: Input, out: seq<Link>, iface: Id, l: Link)
    requires DistinctHosts(inp.hosts) && RankOf(inp, out) && l in ForIface(out, iface)
    ensures var ls := ForIface(out, iface);
            ls[0].primary && (l.primary <==> l == ls[0]) && (l != ls[0] ==> PrimaryBefore(ls[0], l))
  {
    var h, ms := OneHost(inp, out, iface, l);
    SortedForIface(inp, out, iface);
    LeadsAll(inp, h, ForIface(out, iface), ms, iface, l);
  }

  /** In the links' own columns: no link of the interface beats the one the correlator writes. */
  lemma FirstIsBest(inp: Input, out: seq<Link>, iface: Id, l: Link)
    requires DistinctHosts(inp.hosts) && RankOf(inp, out) && l in ForIface(out, iface)
    ensures ForIface(out, iface)[0].primary && NoBetter(ForIface(out, iface)[0], l)
  {
    FirstIsPrimary(inp, out, iface, l);
    var best := ForIface(out, iface)[0];
    if l != best { BeforeIsBest(best, l); }
  }

  /** The output's order in columns: interface, address, primary first, switch. */
  lemma OutputOrder(inp: Input, out: seq<Link>, i: nat, j: nat)
    requires RankOf(inp, out) && i < j < |out|
    ensures var a, b := out[i], out[j];
            && a.iface <= b.iface
            && (a.iface == b.iface ==> a.address <= b.address)
            && (a.iface == b.iface && a.address == b.address && b.primary ==> a.primary)
            && (a.iface == b.iface && a.address == b.address && a.primary == b.primary ==> a.switch <= b.switch)
  {
    RankHolds(inp, out, out[i]);
    assert !OutBefore(out[j], out[i]);
  }

  lemma SortedForIface(inp: Input, out: seq<Link>, iface: Id)
    requires RankOf(inp, out)
    ensures OutSorted(ForIface(out, iface)) && forall l :: l in ForIface(out, iface) ==> Of(l, iface)
  {
    var parts :| Ranked(inp, parts) && out == StableOrder(Flat(parts));
    StableOrderSorted(Flat(parts));
    ForIfaceSorted(out, iface);
  }

  /** An interface that gets a link gets the links of its one host. */
  lemma OneHost(inp: Input, out: seq<Link>, iface: Id, l: Link) returns (h: Host, ms: seq<Link>)
    requires DistinctHosts(inp.hosts) && RankOf(inp, out) && l in ForIface(out, iface)
    ensures HostLinks(inp, h, ms) && multiset(ForIface(out, iface)) == multiset(ms)
  {
    var parts :| Ranked(inp, parts) && out == StableOrder(Flat(parts));
    ms := ForIface(Flat(parts), iface);
    StableOrderAll(Flat(parts));
    SameForIface(Flat(parts), out, iface);
    assert parts[..|parts|] == parts;
    FlatForIface(inp, parts, |parts|, iface);
    SameMembers(ForIface(out, iface), ms, l);
    var k :| 0 <= k < |parts| && Is(inp.hosts[k], iface) && ms == parts[k];
    h := inp.hosts[k];
  }

  lemma SameMembers(a: seq<Link>, b: seq<Link>, l: Link)
    requires multiset(a) == multiset(b)
    ensures l in a <==> l in b
  {
    assert l in multiset(a) <==> l in multiset(b);
  }

  lemma LeadsAll(inp: Input, h: Host, ls: seq<Link>, ms: seq<Link>, iface: Id, l: Link)
    requires HostLinks(inp, h, ms) && multiset(ls) == multiset(ms) && OutSorted(ls) && l in ls
    requires forall x :: x in ls ==> Of(x, iface)
    ensures ls[0].primary && (l.primary <==> l == ls[0]) && (l != ls[0] ==> PrimaryBefore(ls[0], l))
  {
    SameMembers(ls, ms, l);
    PrimaryIsFirst(inp, h, ms, l);
    SameMembers(ls, ms, ms[0]);
    var i :| 0 <= i < |ls| && ls[i] == ms[0];
    PrimaryLeads(ls, iface, i);
    SameMembers(ls, ms, ls[0]);
    PrimaryIsFirst(inp, h, ms, ls[0]);
  }

  /** One run of the correlator: its input, what the ranking made of it, and when. */
  datatype Ranking = Ranking(inp: Input, out: seq<Link>, at: Time)

  ghost predicate Rankings(rs: seq<Ranking>) {
    && (forall a, b :: 0 <= a < b < |rs| ==> rs[a].at <= rs[b].at)
    && (forall a :: 0 <= a < |rs| ==> DistinctHosts(rs[a].inp.hosts) && RankOf(rs[a].inp, rs[a].out))
  }

  function RunsFor(rs: seq<Ranking>, iface: Id): (runs: seq<Run>)
    ensures |runs| == |rs| && forall a :: 0 <= a < |rs| ==> runs[a] == Run(rs[a].at, ForIface(rs[a].out, iface))
  {
    if rs == [] then []
    else RunsFor(rs[..|rs| - 1], iface) + [Run(rs[|rs| - 1].at, ForIface(rs[|rs| - 1].out, iface))]
  }

  /** Over any rankings at times in order, an interface's set is exact and its primary port a member. */
  lemma RankingsAreExact(rs: seq<Ranking>, iface: Id, age: int)
    requires Rankings(rs)
    ensures var runs := RunsFor(rs, iface);
            && Exact(runs, |runs|, After(runs, |runs|, age).links, age)
            && FlatIsMember(After(runs, |runs|, age))
  {
    var runs := RunsFor(rs, iface);
    forall a | 0 <= a < |runs| ensures DistinctLinks(runs[a].ranked) { RankedDistinct(rs[a].inp, rs[a].out, iface); }
    SetIsExact(runs, |runs|, age);
    PrimaryIsMember(runs, |runs|, age);
  }
}
