/** When a list of writes goes through: the subnet names are all that can stop a lawful list. */
module HostLawful {
  import opened Wrappers
  import opened HostStore

  /** A write to any table but the devices whose references are there and whose key is new, subnet names aside. */
  ghost predicate Sound(s: Store, op: Op) {
    match op
    case CreateDevice(_, _) => false
    case UpdateDevice(_, _) => false
    case CreateIface(i, _) => !HasIface(s.ifaces, i.device, i.name)
    case UpdateIface(i, _) => i.id in s.ifaces
    case CreateSubnet(n, _) => n.id !in s.subnets
    case CreateAddr(a, _) => !HasAddr(s.addrs, a.text)
    case UpdateAddr(a, _) => a.id in s.addrs
    case ReplacePackages(_, _, _) => true
    case ReplaceGuests(_, _, _) => true
    case SetHypervisor(t, ref, _) => t in s.devices && t != ref
    case SetGuestDevice(row, _, _) => row in s.guests
    case ReplaceHardware(h, _) => h.device in s.devices
  }

  /** The first write leaves the second what it needs. */
  ghost predicate Apart(s: Store, a: Op, b: Op) {
    && (a.CreateIface? && b.CreateIface? ==> a.iface.device != b.iface.device || a.iface.name != b.iface.name)
    && (a.CreateAddr? && b.CreateAddr? ==> a.addr.text != b.addr.text)
    && (a.CreateSubnet? && b.CreateSubnet? ==> a.subnet.id != b.subnet.id && a.subnet.name != b.subnet.name)
    && (a.ReplaceGuests? ==> !b.ReplaceGuests?)
    && (a.ReplaceGuests? && b.SetGuestDevice? ==> b.row in s.guests && s.guests[b.row].host != a.target)
  }

  ghost predicate Lawful(s: Store, ops: seq<Op>) {
    && (forall op :: op in ops ==> Sound(s, op))
    && (forall j, k {:trigger Apart(s, ops[j], ops[k])} :: 0 <= j < k < |ops| ==> Apart(s, ops[j], ops[k]))
  }

  lemma LawfulAdd(s: Store, ops: seq<Op>, op: Op)
    requires Lawful(s, ops) && Sound(s, op) && forall a :: a in ops ==> Apart(s, a, op)
    ensures Lawful(s, ops + [op])
  {
    var all := ops + [op];
    forall j, k | 0 <= j < k < |all| ensures Apart(s, all[j], all[k]) {
      assert k < |ops| ==> Apart(s, ops[j], ops[k]);
    }
  }

  lemma LawfulJoin(s: Store, a: seq<Op>, b: seq<Op>)
    requires Lawful(s, a) && Lawful(s, b) && forall x, y :: x in a && y in b ==> Apart(s, x, y)
    ensures Lawful(s, a + b)
  {
    var all := a + b;
    forall j, k | 0 <= j < k < |all| ensures Apart(s, all[j], all[k]) {
      if j >= |a| {
        assert Apart(s, b[j - |a|], b[k - |a|]);
      } else if k < |a| {
        assert Apart(s, a[j], a[k]);
      }
    }
  }

  // ---- one write

  ghost predicate Stopped(s: Store, op: Op) {
    op.CreateSubnet? && HasSubnet(s.subnets, op.subnet.name)
  }

  lemma SoundPasses(s: Store, op: Op)
    requires Sound(s, op)
    ensures if Stopped(s, op) then Perform(s, op) == Err(ErrConflict) else Perform(s, op).Ok?
  {}

  /** What one write leaves of every table: rows stay, and the only new keys are its own. */
  ghost predicate Grew(s: Store, t: Store, op: Op) {
    && s.devices.Keys <= t.devices.Keys && s.addrs.Keys <= t.addrs.Keys && s.ifaces.Keys <= t.ifaces.Keys
    && (forall d, n :: HasIface(t.ifaces, d, n) ==>
          HasIface(s.ifaces, d, n) || (op.CreateIface? && op.iface.device == d && op.iface.name == n))
    && (forall x :: HasAddr(t.addrs, x) ==> HasAddr(s.addrs, x) || (op.CreateAddr? && op.addr.text == x))
    && t.subnets == (if op.CreateSubnet? then s.subnets[op.subnet.id := op.subnet] else s.subnets)
    && (if op.ReplaceGuests? then WithoutHost(s.guests, op.target).Keys <= t.guests.Keys
        else s.guests.Keys == t.guests.Keys && forall i :: i in s.guests ==> t.guests[i].host == s.guests[i].host)
  }

  lemma IfaceGrew(s: Store, op: Op)
    requires Sound(s, op) && Perform(s, op).Ok? && (op.CreateIface? || op.UpdateIface?)
    ensures Grew(s, Perform(s, op).value, op)
  {
    var t := Perform(s, op).value;
    forall d, n | HasIface(t.ifaces, d, n)
      ensures HasIface(s.ifaces, d, n) || (op.CreateIface? && op.iface.device == d && op.iface.name == n)
    {
      var i :| i in t.ifaces && t.ifaces[i].device == d && t.ifaces[i].name == n;
      assert i in s.ifaces ==> (s.ifaces[i].device == d && s.ifaces[i].name == n) || i == op.iface.id;
    }
  }

  lemma AddrGrew(s: Store, op: Op)
    requires Sound(s, op) && Perform(s, op).Ok? && (op.CreateAddr? || op.UpdateAddr?)
    ensures Grew(s, Perform(s, op).value, op)
  {
    var t := Perform(s, op).value;
    forall x | HasAddr(t.addrs, x) ensures HasAddr(s.addrs, x) || (op.CreateAddr? && op.addr.text == x) {
      var i :| i in t.addrs && t.addrs[i].text == x;
      assert i in s.addrs ==> s.addrs[i].text == x || i == op.addr.id;
    }
  }

  lemma {:induction false} PutKeys(m: map<Id, Guest>, host: Id, rows: seq<Guest>, n: nat)
    requires n <= |rows|
    ensures m.Keys <= PutGuests(m, host, rows, n).Keys
  {
    if n > 0 { PutKeys(m, host, rows, n - 1); }
  }

  lemma RestGrew(s: Store, op: Op)
    requires Sound(s, op) && Perform(s, op).Ok? && !op.CreateIface? && !op.UpdateIface? && !op.CreateAddr?
          && !op.UpdateAddr?
    ensures Grew(s, Perform(s, op).value, op)
  {
    if op.ReplaceGuests? { PutKeys(WithoutHost(s.guests, op.target), op.target, op.guests, |op.guests|); }
  }

  lemma WriteGrew(s: Store, op: Op)
    requires Sound(s, op) && Perform(s, op).Ok?
    ensures Grew(s, Perform(s, op).value, op)
  {
    if op.CreateIface? || op.UpdateIface? {
      IfaceGrew(s, op);
    } else if op.CreateAddr? || op.UpdateAddr? {
      AddrGrew(s, op);
    } else {
      RestGrew(s, op);
    }
  }

  /** After a write that leaves it what it needs, a sound write is still sound, and stopped as before. */
  lemma StaysSound(s: Store, t: Store, op: Op, b: Op)
    requires Grew(s, t, op) && Sound(s, op) && Sound(s, b) && Apart(s, op, b)
    ensures Sound(t, b) && (Stopped(t, b) <==> Stopped(s, b))
  {
    if b.CreateSubnet? && op.CreateSubnet? {
      forall i | i in s.subnets ensures i in t.subnets && t.subnets[i] == s.subnets[i] {}
    }
    if b.SetGuestDevice? && op.ReplaceGuests? {
      assert b.row in WithoutHost(s.guests, op.target);
    }
  }

  lemma StaysApart(s: Store, t: Store, op: Op, a: Op, b: Op)
    requires Grew(s, t, op) && Apart(s, a, b) && Apart(s, op, a)
    ensures Apart(t, a, b)
  {}

  lemma StaysLawful(s: Store, t: Store, ops: seq<Op>)
    requires ops != [] && Lawful(s, ops) && Grew(s, t, ops[0])
    ensures Lawful(t, ops[1..]) && forall k :: 1 <= k < |ops| ==> (Stopped(t, ops[k]) <==> Stopped(s, ops[k]))
  {
    var rest := ops[1..];
    forall k | 1 <= k < |ops| ensures Sound(t, ops[k]) && (Stopped(t, ops[k]) <==> Stopped(s, ops[k])) {
      assert ops[k] in ops && ops[0] in ops;
      StaysSound(s, t, ops[0], ops[k]);
    }
    forall j, k | 0 <= j < k < |rest| ensures Apart(t, rest[j], rest[k]) {
      assert rest[j] == ops[j + 1] && rest[k] == ops[k + 1];
      StaysApart(s, t, ops[0], ops[j + 1], ops[k + 1]);
    }
  }

  /** A lawful list goes through if and only if none of its subnet names is stored. */
  lemma {:induction false} ExecLawful(s: Store, ops: seq<Op>)
    requires Lawful(s, ops)
    ensures if exists op :: op in ops && Stopped(s, op) then Exec(s, ops) == Err(ErrConflict) else Exec(s, ops).Ok?
    decreases |ops|
  {
    if ops != [] {
      assert ops[0] in ops;
      SoundPasses(s, ops[0]);
      if !Stopped(s, ops[0]) {
        WriteGrew(s, ops[0]);
        var t := Perform(s, ops[0]).value;
        StaysLawful(s, t, ops);
        ExecLawful(t, ops[1..]);
        StoppedLater(s, t, ops);
      }
    }
  }

  lemma StoppedLater(s: Store, t: Store, ops: seq<Op>)
    requires ops != [] && !Stopped(s, ops[0])
    requires forall k :: 1 <= k < |ops| ==> (Stopped(t, ops[k]) <==> Stopped(s, ops[k]))
    ensures (exists op :: op in ops && Stopped(s, op)) <==> (exists op :: op in ops[1..] && Stopped(t, op))
  {
    if op :| op in ops && Stopped(s, op) {
      var k :| 0 <= k < |ops| && ops[k] == op;
      assert ops[1..][k - 1] == op && Stopped(t, op);
    }
    if op :| op in ops[1..] && Stopped(t, op) {
      var k :| 0 <= k < |ops[1..]| && ops[1..][k] == op;
      assert ops[k + 1] == op && Stopped(s, op);
    }
  }
}
