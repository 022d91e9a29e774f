/** What a list of writes does to each table on its own. */
module HostTables {
  import opened HostStore

  function WriteDevices(m: map<Id, Device>, op: Op): map<Id, Device> {
    match op
    case CreateDevice(d, _) => m[d.id := d]
    case UpdateDevice(d, _) => if d.id in m then m[d.id := m[d.id].(cols := d.cols)] else m
    case SetHypervisor(t, ref, _) => if t in m then m[t := m[t].(hypervisor := ref)] else m
    case _ => m
  }

  function WriteIfaces(m: map<Id, Iface>, op: Op): map<Id, Iface> {
    match op
    case CreateIface(i, _) => m[i.id := i]
    case UpdateIface(i, _) => if i.id in m then m[i.id := m[i.id].(cols := i.cols)] else m
    case _ => m
  }

  function WriteAddrs(clock: Time): (map<Id, AddrRow>, Op) -> map<Id, AddrRow> {
    (m: map<Id, AddrRow>, op: Op) =>
      if op.CreateAddr? then m[op.addr.id := op.addr.(mac := AgentMac(op.addr.cols.mac, clock))]
      else if op.UpdateAddr? && op.addr.id in m then m[op.addr.id := PutAddr(m[op.addr.id], op.addr, clock)]
      else m
  }

  function WriteSubnets(m: map<Id, Subnet>, op: Op): map<Id, Subnet> {
    if op.CreateSubnet? then m[op.subnet.id := op.subnet] else m
  }

  function WritePackages(m: map<Id, seq<Package>>, op: Op): map<Id, seq<Package>> {
    if op.ReplacePackages? then m[op.target := op.packages] else m
  }

  function WriteGuests(m: map<Id, Guest>, op: Op): map<Id, Guest> {
    match op
    case ReplaceGuests(t, gs, _) => PutGuests(WithoutHost(m, t), t, gs, |gs|)
    case SetGuestDevice(row, ref, _) => if row in m then m[row := m[row].(device := ref)] else m
    case _ => m
  }

  function WriteHardware(m: map<Id, Hardware>, op: Op): map<Id, Hardware> {
    if op.ReplaceHardware? then m[op.hardware.device := op.hardware] else m
  }

  function Fold<T>(f: (T, Op) -> T, m: T, ops: seq<Op>): T
    decreases |ops|
  {
    if ops == [] then m else Fold(f, f(m, ops[0]), ops[1..])
  }

  lemma {:induction false} FoldSplit<T>(f: (T, Op) -> T, m: T, a: seq<Op>, b: seq<Op>)
    ensures Fold(f, m, a + b) == Fold(f, Fold(f, m, a), b)
    decreases |a|
  {
    if a == [] {
      assert a + b == b;
    } else {
      assert (a + b)[0] == a[0] && (a + b)[1..] == a[1..] + b;
      FoldSplit(f, f(m, a[0]), a[1..], b);
    }
  }

  lemma FoldAdd<T>(f: (T, Op) -> T, m: T, a: seq<Op>, op: Op)
    ensures Fold(f, m, a + [op]) == f(Fold(f, m, a), op)
  {
    FoldSplit(f, m, a, [op]);
    assert [op][1..] == [];
  }

  /** Writes that leave the table alone can be skipped. */
  lemma {:induction false} FoldSkip<T>(f: (T, Op) -> T, m: T, ops: seq<Op>)
    requires forall op, t :: op in ops ==> f(t, op) == t
    ensures Fold(f, m, ops) == m
    decreases |ops|
  {
    if ops != [] {
      assert ops[0] in ops && forall op :: op in ops[1..] ==> op in ops;
      FoldSkip(f, m, ops[1..]);
    }
  }

  lemma PerformTables(s: Store, op: Op)
    requires Perform(s, op).Ok?
    ensures var s1 := Perform(s, op).value;
            && s1.devices == WriteDevices(s.devices, op) && s1.ifaces == WriteIfaces(s.ifaces, op)
            && s1.addrs == WriteAddrs(s.clock)(s.addrs, op) && s1.subnets == WriteSubnets(s.subnets, op)
            && s1.packages == WritePackages(s.packages, op) && s1.guests == WriteGuests(s.guests, op)
            && s1.hardware == WriteHardware(s.hardware, op) && s1.clock == s.clock
  {
    var w := Write(s, op).value;
    assert Perform(s, op).value == w.(audit := w.audit + op.audit);
  }

  /** The store after a list of writes, table by table. */
  ghost predicate Tables(s: Store, t: Store, ops: seq<Op>) {
    && t.devices == Fold(WriteDevices, s.devices, ops)
    && t.ifaces == Fold(WriteIfaces, s.ifaces, ops)
    && t.addrs == Fold(WriteAddrs(s.clock), s.addrs, ops)
    && t.subnets == Fold(WriteSubnets, s.subnets, ops)
    && t.packages == Fold(WritePackages, s.packages, ops)
    && t.guests == Fold(WriteGuests, s.guests, ops)
    && t.hardware == Fold(WriteHardware, s.hardware, ops)
    && t.clock == s.clock
  }

  lemma {:induction false} ExecTables(s: Store, ops: seq<Op>)
    requires Exec(s, ops).Ok?
    ensures Tables(s, Exec(s, ops).value, ops)
    decreases |ops|
  {
    if ops != [] {
      PerformTables(s, ops[0]);
      ExecTables(Perform(s, ops[0]).value, ops[1..]);
    }
  }
}
