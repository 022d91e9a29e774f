/** What the store's own checks keep, whatever list of writes is executed (internal/memstore/hostsync.go). */
module HostLaws {
  import opened HostStore
  import opened HostLoad

  ghost predicate UniqueSubnets(subnets: map<Id, Subnet>) {
    forall i, j :: i in subnets && j in subnets && subnets[i].name == subnets[j].name ==> i == j
  }

  /** No device hangs under itself. */
  ghost predicate NoLoops(devices: map<Id, Device>) {
    forall i :: i in devices ==> devices[i].hypervisor != i
  }

  ghost predicate HardwareOwned(s: Store) {
    forall i :: i in s.hardware ==> i in s.devices
  }

  ghost predicate Laws(s: Store) {
    && UniqueIfaces(s.ifaces) && UniqueTexts(s.addrs) && UniqueSubnets(s.subnets) && NoLoops(s.devices)
    && HardwareOwned(s)
  }

  /** A new device does not come hanging under itself. */
  predicate Sound(op: Op) {
    op.CreateDevice? ==> op.device.hypervisor != op.device.id
  }

  lemma RowLaws(s: Store, op: Op)
    requires Laws(s) && Write(s, op).Ok?
    ensures var t := Write(s, op).value; UniqueIfaces(t.ifaces) && UniqueTexts(t.addrs) && UniqueSubnets(t.subnets)
  {
    if op.CreateIface? {
      assert forall i :: i in s.ifaces ==> s.ifaces[i].device != op.iface.device || s.ifaces[i].name != op.iface.name;
    } else if op.CreateAddr? {
      assert forall i :: i in s.addrs ==> s.addrs[i].text != op.addr.text;
    } else if op.CreateSubnet? {
      assert forall i :: i in s.subnets ==> s.subnets[i].name != op.subnet.name;
    }
  }

  lemma DeviceLaws(s: Store, op: Op)
    requires Laws(s) && Sound(op) && Write(s, op).Ok?
    ensures NoLoops(Write(s, op).value.devices) && HardwareOwned(Write(s, op).value)
  {}

  /** Interface names, address texts and subnet names stay unique; no device under itself, no hardware without one. */
  lemma {:induction false} ExecLaws(s: Store, ops: seq<Op>)
    requires Laws(s) && (forall op :: op in ops ==> Sound(op)) && Exec(s, ops).Ok?
    ensures Laws(Exec(s, ops).value)
    decreases |ops|
  {
    if ops != [] {
      RowLaws(s, ops[0]);
      DeviceLaws(s, ops[0]);
      ExecLaws(Perform(s, ops[0]).value, ops[1..]);
    }
  }

  ghost predicate UniqueLinks(devices: map<Id, Device>) {
    forall i, j ::
      i in devices && j in devices && devices[i].cols.inventory == devices[j].cols.inventory != "" ==> i == j
  }

  lemma LinkLaw(s: Store, op: Op)
    requires UniqueLinks(s.devices) && !op.UpdateDevice? && Write(s, op).Ok?
    ensures UniqueLinks(Write(s, op).value.devices)
  {
    if op.CreateDevice? && op.device.cols.inventory != "" {
      assert forall i :: i in s.devices ==> s.devices[i].cols.inventory != op.device.cols.inventory;
    }
  }

  /** New devices never share a host link. */
  lemma {:induction false} ExecLinks(s: Store, ops: seq<Op>)
    requires UniqueLinks(s.devices) && (forall op :: op in ops ==> !op.UpdateDevice?) && Exec(s, ops).Ok?
    ensures UniqueLinks(Exec(s, ops).value.devices)
    decreases |ops|
  {
    if ops != [] {
      LinkLaw(s, ops[0]);
      ExecLinks(Perform(s, ops[0]).value, ops[1..]);
    }
  }
}
