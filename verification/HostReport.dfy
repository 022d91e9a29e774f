/**
 A normalised host report (internal/hostreport) and the names derived from it
 (internal/hostplan/match.go, bmc.go, `DNSHostname`). Case folding is over ASCII.
 */
module HostReport {
  import opened Wrappers
  import opened Ipnet
  import Arith
  import HostStore

  type Time = HostStore.Time

  // ---- text

  function LowerChar(c: char): char {
    if 'A' <= c <= 'Z' then (c as int + 32) as char else c
  }

  function Lower(s: string): (l: string)
    ensures |l| == |s|
  {
    seq(|s|, i requires 0 <= i < |s| => LowerChar(s[i]))
  }

  predicate Space(c: char) {
    c == ' ' || c == '\t' || c == '\n' || c == '\r'
  }

  function Trim(s: string): string
    decreases |s|
  {
    if s == "" then s
    else if Space(s[0]) then Trim(s[1..])
    else if Space(s[|s| - 1]) then Trim(s[..|s| - 1])
    else s
  }

  /** Folding moves the capital letters to the small ones and leaves the rest. */
  lemma LowerIs(s: string, i: nat)
    requires i < |s|
    ensures var c, l := s[i], Lower(s)[i];
            if 'A' <= c <= 'Z' then 'a' <= l <= 'z' && l as int - 'a' as int == c as int - 'A' as int else l == c
  {}

  predicate Blank(s: string) {
    forall c :: c in s ==> c in {' ', '\t', '\n', '\r'}
  }

  /** Trimming takes blanks off both ends, as many as there are. */
  lemma {:induction false} TrimIs(s: string) returns (before: string, after: string)
    ensures s == before + Trim(s) + after && Blank(before) && Blank(after)
    ensures Trim(s) != "" ==> !Space(Trim(s)[0]) && !Space(Trim(s)[|Trim(s)| - 1])
    decreases |s|
  {
    before, after := "", "";
    if s != "" && Space(s[0]) {
      before, after := TrimIs(s[1..]);
      assert s == [s[0]] + s[1..];
      assert [s[0]] + (before + Trim(s[1..]) + after) == ([s[0]] + before) + Trim(s[1..]) + after;
      before := [s[0]] + before;
    } else if s != "" && Space(s[|s| - 1]) {
      var n := |s| - 1;
      before, after := TrimIs(s[..n]);
      assert s == s[..n] + [s[n]];
      assert (before + Trim(s[..n]) + after) + [s[n]] == before + Trim(s[..n]) + (after + [s[n]]);
      after := after + [s[n]];
    }
  }

  function Digit(d: nat): char
    requires d < 10
  {
    (d + '0' as int) as char
  }

  function Decimal(n: nat): string {
    (if n < 10 then "" else Decimal(n / 10)) + [Digit(n % 10)]
  }

  /** The value of a digit string, or None (the decimal part of fmt.Sscanf). */
  function Parse(s: string): Option<nat> {
    if s == "" then Some(0)
    else
      var c := s[|s| - 1];
      var rest := Parse(s[..|s| - 1]);
      if rest.Some? && '0' <= c <= '9' then Some(rest.value * 10 + (c as int - '0' as int)) else None
  }

  lemma {:induction false} ParseDecimal(n: nat)
    ensures Parse(Decimal(n)) == Some(n)
  {
    var s := Decimal(n);
    assert s[..|s| - 1] == if n < 10 then "" else Decimal(n / 10);
    if n >= 10 {
      ParseDecimal(n / 10);
    }
  }

  // ---- the report

  datatype RAddr = RAddr(addr: Addr, prefix: int, temporary: bool, deprecated: bool)

  /** `excluded`: a loopback, or its name matches one of the tenant's patterns. */
  datatype RIface = RIface(name: string, mac: string, kind: string, speed: int, up: bool, excluded: bool,
                           addrs: seq<RAddr>)

  datatype Bmc = Bmc(address: Option<Addr>, prefix: int, ports: seq<string>)

  datatype RGuest = RGuest(ref: string, name: string, kind: string, platform: string, macs: seq<string>)

  datatype Pending = Pending(name: string, installed: string, available: string, security: bool)

  datatype Tri = TriUnknown | TriTrue | TriFalse

  datatype Role = RolePhysical | RoleVM | RoleContainer | RoleUnknown

  datatype Updates = Updates(status: string, manager: string, reboot: Tri, automatic: Tri)

  datatype HwReport = HwReport(profile: HostStore.Profile, digest: string)

  datatype Report = Report(host: string, hostname: string, serial: string, manufacturer: string, model: string,
                           osName: string, osVersion: string, osFamily: string, role: Role, virtKind: string,
                           lastSeen: Option<Time>, collected: Option<Time>, digest: string, ifaces: seq<RIface>,
                           primary4: Option<Addr>, primary6: Option<Addr>, bmc: Option<Bmc>, guests: seq<RGuest>,
                           updates: Updates, pending: seq<Pending>, hardware: Option<HwReport>)

  predicate ValidAddr(a: Addr) {
    a.value < Arith.Pow2(Bits(a.family))
  }

  predicate DistinctIfaces(ifs: seq<RIface>) {
    forall i, j :: 0 <= i < j < |ifs| ==> ifs[i].name != ifs[j].name
  }

  /** What hostreport.Normalize guarantees. */
  predicate Normalized(r: Report) {
    && r.host != "" && Lower(r.host) == r.host
    && DistinctIfaces(r.ifaces)
    && (forall i, j :: 0 <= i < j < |r.guests| ==> r.guests[i].ref != r.guests[j].ref)
    && (forall i, j :: 0 <= i < j < |r.pending| ==> r.pending[i].name != r.pending[j].name)
    && (forall i, k :: 0 <= i < |r.ifaces| && 0 <= k < |r.ifaces[i].addrs| ==> ValidAddr(r.ifaces[i].addrs[k].addr))
    && (r.bmc.Some? && r.bmc.value.address.Some? ==> ValidAddr(r.bmc.value.address.value))
  }

  // ---- device names and matching keys

  function Short(host: string): string {
    if |host| > 8 then host[..8] else host
  }

  function CollisionName(base: string, host: string): string {
    base + " (" + Short(host) + ")"
  }

  function BaseName(r: Report): string {
    if r.hostname == "" then "host-" + Short(r.host) else r.hostname
  }

  const PLACEHOLDER_SERIALS: set<string> :=
    {"", "0", "none", "default string", "to be filled by o.e.m.", "system serial number", "not specified", "123456789",
     "n/a", "na", "chassis serial number", "not applicable", "unknown"}

  const GENERIC_NAMES: set<string> :=
    {"", "localhost", "localhost.localdomain", "ubuntu", "debian", "raspberrypi", "centos", "fedora", "unknown",
      "host", "server"}

  predicate IsPlaceholderSerial(s: string) {
    var t := Lower(Trim(s));
    t in PLACEHOLDER_SERIALS || forall c :: c in t ==> c == '0' || c == 'x'
  }

  predicate IsGenericName(s: string) {
    Lower(Trim(s)) in GENERIC_NAMES
  }

  predicate AlphaNum(c: char) {
    'A' <= c <= 'Z' || 'a' <= c <= 'z' || '0' <= c <= '9'
  }

  function DNSHostname(h: string): string {
    if 1 <= |h| <= 253 && AlphaNum(h[0]) && AlphaNum(h[|h| - 1])
      && (forall c :: c in h ==> AlphaNum(c) || c == '.' || c == '-')
    then h else ""
  }

  // ---- BMC ports

  function BMCName(i: nat): string {
    if i == 0 then "bmc" else "bmc-" + Decimal(i + 1)
  }

  predicate IsBMCName(name: string) {
    || name == "bmc"
    || (&& |name| > 4 && name[..4] == "bmc-" && Parse(name[4..]).Some?
        && Parse(name[4..]).value >= 2 && name == BMCName(Parse(name[4..]).value - 1))
  }

  lemma BMCTail(i: nat)
    requires i > 0
    ensures |BMCName(i)| > 4 && BMCName(i)[..4] == "bmc-" && BMCName(i)[4..] == Decimal(i + 1)
    ensures Parse(BMCName(i)[4..]) == Some(i + 1)
  {
    assert "bmc-" + Decimal(i + 1) == BMCName(i);
    ParseDecimal(i + 1);
  }

  /** The names recognised are exactly the names given. */
  lemma BMCNames(name: string)
    ensures IsBMCName(name) <==> exists i: nat :: name == BMCName(i)
  {
    if IsBMCName(name) {
      assert name == BMCName(if name == "bmc" then 0 else Parse(name[4..]).value - 1);
    }
    if i: nat :| name == BMCName(i) {
      if i > 0 { BMCTail(i); }
    }
  }

  /** Ports get different names. */
  lemma BMCNameInjective(i: nat, j: nat)
    requires BMCName(i) == BMCName(j)
    ensures i == j
  {
    if i > 0 { BMCTail(i); }
    if j > 0 { BMCTail(j); }
    assert |BMCName(0)| == 3;
  }

  lemma BMCNameLower(i: nat)
    ensures Lower(BMCName(i)) == BMCName(i)
  {
    var s := BMCName(i);
    forall k | 0 <= k < |s| ensures LowerChar(s[k]) == s[k] {
      if i > 0 && k >= 4 {
        BMCTail(i);
        DecimalDigits(i + 1);
        assert s[k] == Decimal(i + 1)[k - 4];
        assert s[k] in Decimal(i + 1);
      }
    }
  }

  lemma {:induction false} DecimalDigits(n: nat)
    ensures forall c :: c in Decimal(n) ==> '0' <= c <= '9'
  {
    if n >= 10 {
      DecimalDigits(n / 10);
    }
  }

  /** An interface the report makes the device have. */
  datatype Wanted = Wanted(name: string, mac: string, kind: string, speed: int, up: bool, bmc: bool, addrs: seq<RAddr>)

  function OwnWanted(r: Report, n: nat): seq<Wanted>
    requires n <= |r.ifaces|
  {
    if n == 0 then []
    else
      var i := r.ifaces[n - 1];
      var rest := OwnWanted(r, n - 1);
      if i.excluded then rest else rest + [Wanted(i.name, i.mac, i.kind, i.speed, i.up, false, i.addrs)]
  }

  function BmcAddrs(b: Bmc): seq<RAddr> {
    if b.address.None? then []
    else
      var a := b.address.value;
      [RAddr(a, if b.prefix != 0 then b.prefix else if a.family == V6 then 64 else 24, false, false)]
  }

  function BmcPorts(b: Bmc): seq<string> {
    if b.ports == [] then [""] else b.ports
  }

  /** bmcInterfaces: one management interface per port whose name no own interface took. */
  function BmcWanted(b: Bmc, taken: set<string>, n: nat): seq<Wanted>
    requires n <= |BmcPorts(b)|
  {
    if n == 0 then []
    else
      var rest := BmcWanted(b, taken, n - 1);
      var i := n - 1;
      if BMCName(i) in taken then rest
      else rest + [Wanted(BMCName(i), BmcPorts(b)[i], "management", 0, true, true, if i == 0 then BmcAddrs(b) else [])]
  }

  function Taken(ws: seq<Wanted>): set<string> {
    set w | w in ws :: Lower(w.name)
  }

  /** reportedInterfaces: the report's interfaces minus the excluded ones, then the BMC ports. */
  function WantedIfaces(r: Report): seq<Wanted> {
    var own := OwnWanted(r, |r.ifaces|);
    if r.bmc.None? then own else own + BmcWanted(r.bmc.value, Taken(own), |BmcPorts(r.bmc.value)|)
  }

  predicate DistinctWanted(ws: seq<Wanted>) {
    forall i, j :: 0 <= i < j < |ws| ==> ws[i].name != ws[j].name
  }

  lemma {:induction false} OwnDistinct(r: Report, n: nat)
    requires n <= |r.ifaces| && DistinctIfaces(r.ifaces)
    ensures DistinctWanted(OwnWanted(r, n))
    ensures forall w :: w in OwnWanted(r, n) ==> exists k ::
          0 <= k < n && r.ifaces[k].name == w.name && r.ifaces[k].addrs == w.addrs && !w.bmc
  {
    if n > 0 {
      OwnDistinct(r, n - 1);
    }
  }

  lemma {:induction false} BmcDistinct(b: Bmc, taken: set<string>, n: nat)
    requires n <= |BmcPorts(b)|
    ensures DistinctWanted(BmcWanted(b, taken, n))
    ensures forall w :: w in BmcWanted(b, taken, n) ==> w.bmc && w.name !in taken && exists i: nat ::
          i < n && w.name == BMCName(i)
  {
    if n > 0 {
      BmcDistinct(b, taken, n - 1);
      forall w | w in BmcWanted(b, taken, n - 1) ensures w.name != BMCName(n - 1) {
        var i: nat :| i < n - 1 && w.name == BMCName(i);
        if w.name == BMCName(n - 1) { BMCNameInjective(i, n - 1); }
      }
    }
  }

  /** The interfaces of a normalised report have different names, BMC ports included. */
  lemma WantedDistinct(r: Report)
    requires Normalized(r)
    ensures DistinctWanted(WantedIfaces(r))
  {
    var own := OwnWanted(r, |r.ifaces|);
    OwnDistinct(r, |r.ifaces|);
    if r.bmc.Some? {
      var ports := BmcWanted(r.bmc.value, Taken(own), |BmcPorts(r.bmc.value)|);
      BmcDistinct(r.bmc.value, Taken(own), |BmcPorts(r.bmc.value)|);
      forall w, p | w in own && p in ports ensures w.name != p.name {
        var i: nat :| p.name == BMCName(i);
        BMCNameLower(i);
        assert Lower(w.name) in Taken(own);
      }
      var all := WantedIfaces(r);
      forall i, j | 0 <= i < j < |all| ensures all[i].name != all[j].name {
        if i < |own| <= j { assert all[i] in own && all[j] in ports; }
      }
    }
  }
}
