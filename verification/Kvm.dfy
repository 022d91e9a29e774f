/**
 The KVM session manager (internal/kvm/kvm.go): one BMC login per (host, user), shared by
 single-use start tokens and consoles, logged out in the background when the last holder is
 gone, and replaced after a 401. The data guarded by Manager.mu is `Mgr`; this file defines
 what each critical section does to it.
 */
module Kvm {
  import opened Wrappers

  type SessId = nat
  type Token = nat
  type Cred = nat

  datatype Key = Key(host: string, user: string)

  /** One bmcSession object. */
  datatype Session = Session(key: Key, refs: int, password: string, auth: Option<Cred>, loggedAt: int, closed: bool)

  /** The binding of a start token or a console. */
  datatype Entry = Entry(device: string, sess: SessId, expires: int)

  /** `objs` holds every session object ever allocated, by identity. */
  datatype Mgr = Mgr(tokens: map<Token, Entry>, consoles: map<Token, Entry>, sessions: map<Key, SessId>,
                     dead: seq<SessId>, objs: map<SessId, Session>, nextSess: SessId)

  /** The session acquireLocked returns: the registered one, or a new object. */
  function Acquired(m: Mgr, key: Key): SessId {
    if key in m.sessions then m.sessions[key] else m.nextSess
  }

  function Acquire(m: Mgr, key: Key, password: string): Mgr
    requires key in m.sessions ==> m.sessions[key] in m.objs
  {
    var s := Acquired(m, key);
    if key in m.sessions then
      var o := m.objs[s];
      m.(objs := m.objs[s := o.(refs := o.refs + 1, password := password)])
    else
      m.(sessions := m.sessions[key := s],
         objs := m.objs[s := Session(key, 1, password, None, 0, false)],
         nextSess := m.nextSess + 1)
  }

  function Release(m: Mgr, s: SessId): Mgr
    requires s in m.objs
  {
    var o := m.objs[s].(refs := m.objs[s].refs - 1);
    var m1 := m.(objs := m.objs[s := o]);
    if o.refs > 0 then m1
    else
      m1.(sessions := if o.key in m.sessions && m.sessions[o.key] == s then m.sessions - {o.key} else m.sessions,
          dead := m.dead + [s])
  }

  /** A token (or, when `console`, a console) to end. */
  datatype Expiry = Expiry(console: bool, id: Token)

  function Table(m: Mgr, console: bool): map<Token, Entry> {
    if console then m.consoles else m.tokens
  }

  predicate Expired(m: Mgr, x: Expiry, now: int) {
    var t := Table(m, x.console);
    x.id in t && now >= t[x.id].expires
  }

  function Drop(m: Mgr, x: Expiry): Mgr {
    if x.console then m.(consoles := m.consoles - {x.id}) else m.(tokens := m.tokens - {x.id})
  }

  function Expire(m: Mgr, x: Expiry): Mgr
    requires x.id in Table(m, x.console) && Table(m, x.console)[x.id].sess in m.objs
  {
    Release(Drop(m, x), Table(m, x.console)[x.id].sess)
  }

  predicate EntriesKnown(m: Mgr) {
    && (forall k :: k in m.tokens ==> m.tokens[k].sess in m.objs)
    && (forall k :: k in m.consoles ==> m.consoles[k].sess in m.objs)
  }

  /** gcLocked visited the expired entries in this order (map iteration order is arbitrary). */
  ghost predicate Sweeps(m: Mgr, order: seq<Expiry>, now: int)
    requires EntriesKnown(m)
    decreases |order|
  {
    if order == [] then forall x :: !Expired(m, x, now)
    else Expired(m, order[0], now) && Sweeps(Expire(m, order[0]), order[1..], now)
  }

  ghost function Swept(m: Mgr, order: seq<Expiry>, now: int): Mgr
    requires EntriesKnown(m) && Sweeps(m, order, now)
    decreases |order|
  {
    if order == [] then m else Swept(Expire(m, order[0]), order[1..], now)
  }
}
