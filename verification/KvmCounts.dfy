/** The quantities the KVM protocol conserves, as counts over threads, entries and sessions. */
module KvmCounts {
  import opened Wrappers
  import opened Kvm
  import opened KvmProtocol
  import MapCount

  function B(b: bool): nat { MapCount.B(b) }

  /** What a thread accounts for. */
  datatype Tag = TStart(s: SessId) | TRetire(s: SessId) | TLogout(c: Cred) | TCarry(tok: Token)

  /** The session an in-flight start holds a reference to. */
  function StartOf(pc: Pc): Option<SessId> {
    match pc
    case AuthWait(s, k) => if k.ForStart? then Some(s) else None
    case AuthHold(s, k) => if k.ForStart? then Some(s) else None
    case CredsWait(s, k) => if k.ForStart? then Some(s) else None
    case CredsHold(s, k) => if k.ForStart? then Some(s) else None
    case Login(s, k, _) => if k.ForStart? then Some(s) else None
    case InstallWait(_, _, s) => Some(s)
    case InstallHold(_, _, s) => Some(s)
    case ReleaseWait(s) => Some(s)
    case ReleaseHold(s) => Some(s)
    case _ => None
  }

  /** The start token a thread has not installed yet. */
  function CarryOf(pc: Pc): Option<Token> {
    match pc
    case StartWait(_, _, _, tok) => Some(tok)
    case StartHold(_, _, _, tok) => Some(tok)
    case AuthWait(_, k) => if k.ForStart? then Some(k.token) else None
    case AuthHold(_, k) => if k.ForStart? then Some(k.token) else None
    case CredsWait(_, k) => if k.ForStart? then Some(k.token) else None
    case CredsHold(_, k) => if k.ForStart? then Some(k.token) else None
    case Login(_, k, _) => if k.ForStart? then Some(k.token) else None
    case InstallWait(_, tok, _) => Some(tok)
    case InstallHold(_, tok, _) => Some(tok)
    case _ => None
  }

  function RetireOf(pc: Pc): Option<SessId> {
    if pc.RetireWait? || pc.RetireHold? then Some(pc.s) else None
  }

  function LogoutOf(pc: Pc): Option<Cred> {
    if pc.Logout? then Some(pc.a) else None
  }

  predicate Has(pc: Pc, tag: Tag) {
    match tag
    case TStart(s) => StartOf(pc) == Some(s)
    case TRetire(s) => RetireOf(pc) == Some(s)
    case TLogout(c) => LogoutOf(pc) == Some(c)
    case TCarry(tok) => CarryOf(pc) == Some(tok)
  }

  function Tagged(tag: Tag): Pc -> bool {
    (pc: Pc) => Has(pc, tag)
  }

  ghost function Count(th: map<Tid, Pc>, tag: Tag): nat {
    MapCount.Count(th, Tagged(tag))
  }

  lemma CountOut(th: map<Tid, Pc>, t: Tid, tag: Tag)
    ensures t in th ==> Count(th, tag) == Count(th - {t}, tag) + B(Has(th[t], tag))
    ensures t !in th ==> Count(th, tag) == Count(th - {t}, tag)
  {
    MapCount.CountOut(th, t, Tagged(tag));
  }

  lemma CountMove(th: map<Tid, Pc>, t: Tid, pc: Pc, tag: Tag)
    ensures t in th ==> Count(th[t := pc], tag) == Count(th, tag) - B(Has(th[t], tag)) + B(Has(pc, tag))
    ensures t !in th ==> Count(th[t := pc], tag) == Count(th, tag) + B(Has(pc, tag))
  {
    MapCount.CountMove(th, t, pc, Tagged(tag));
  }

  lemma CountNone(th: map<Tid, Pc>, tag: Tag)
    requires forall t :: t in th ==> !Has(th[t], tag)
    ensures Count(th, tag) == 0
  {
    MapCount.CountNone(th, Tagged(tag));
  }

  function BoundTo(s: SessId): Entry -> bool {
    (e: Entry) => e.sess == s
  }

  /** Tokens or consoles bound to a session. */
  ghost function On(m: map<Token, Entry>, s: SessId): nat {
    MapCount.Count(m, BoundTo(s))
  }

  lemma OnPut(m: map<Token, Entry>, k: Token, e: Entry, s: SessId)
    requires k !in m
    ensures On(m[k := e], s) == On(m, s) + B(e.sess == s)
  {
    MapCount.CountMove(m, k, e, BoundTo(s));
  }

  lemma OnOut(m: map<Token, Entry>, k: Token, s: SessId)
    requires k in m
    ensures On(m, s) == On(m - {k}, s) + B(m[k].sess == s)
  {
    MapCount.CountOut(m, k, BoundTo(s));
  }

  lemma OnNone(m: map<Token, Entry>, s: SessId)
    requires forall k :: k in m ==> m[k].sess != s
    ensures On(m, s) == 0
  {
    MapCount.CountNone(m, BoundTo(s));
  }

  function Keeps(c: Cred): Session -> bool {
    (o: Session) => o.auth == Some(c)
  }

  /** Sessions whose stored login is `c`. */
  ghost function Stored(objs: map<SessId, Session>, c: Cred): nat {
    MapCount.Count(objs, Keeps(c))
  }

  lemma StoredMove(objs: map<SessId, Session>, s: SessId, o: Session, c: Cred)
    ensures s in objs ==> Stored(objs[s := o], c) == Stored(objs, c) - B(objs[s].auth == Some(c)) + B(o.auth == Some(c))
    ensures s !in objs ==> Stored(objs[s := o], c) == Stored(objs, c) + B(o.auth == Some(c))
  {
    MapCount.CountMove(objs, s, o, Keeps(c));
  }

  function Occ(dead: seq<SessId>, s: SessId): nat {
    multiset(dead)[s]
  }

  // ---- the manager data of one session

  /**
   Session `s` with `n` in-flight starts and `r` background logouts: its references are its
   holders, it is registered exactly while it has some, and a session without holders is on
   exactly one way out, with nothing stored once closed.
   */
  ghost predicate Accounted(m: Mgr, s: SessId, n: nat, r: nat)
    requires s in m.objs
  {
    var o := m.objs[s];
    && o.refs == On(m.tokens, s) + On(m.consoles, s) + n
    && (o.refs > 0 <==> o.key in m.sessions && m.sessions[o.key] == s)
    && Occ(m.dead, s) + r + B(o.closed) == B(o.refs == 0)
    && (o.closed ==> o.auth.None?)
  }

  /** Dropping a holder that is no longer counted. */
  lemma ReleaseAccounted(m: Mgr, x: SessId, s: SessId, n: nat, r: nat)
    requires x in m.objs && s in m.objs
    requires Accounted(m, s, if s == x then n + 1 else n, r)
    ensures Accounted(Release(m, x), s, n, r)
  {
    assert multiset(m.dead + [x]) == multiset(m.dead) + multiset{x};
  }

  lemma ExpireAccounted(m: Mgr, x: Expiry, s: SessId, n: nat, r: nat)
    requires s in m.objs && x.id in Table(m, x.console) && Table(m, x.console)[x.id].sess in m.objs
    requires Accounted(m, s, n, r)
    ensures Accounted(Expire(m, x), s, n, r)
  {
    OnOut(Table(m, x.console), x.id, s);
    ReleaseAccounted(Drop(m, x), Table(m, x.console)[x.id].sess, s, n, r);
  }

  lemma {:induction false} SweptAccounted(m: Mgr, order: seq<Expiry>, now: int, s: SessId, n: nat, r: nat)
    requires EntriesKnown(m) && Sweeps(m, order, now) && s in m.objs
    requires Accounted(m, s, n, r)
    ensures s in Swept(m, order, now).objs && Accounted(Swept(m, order, now), s, n, r)
    decreases |order|
  {
    if order != [] {
      ExpireAccounted(m, order[0], s, n, r);
      SweptAccounted(Expire(m, order[0]), order[1..], now, s, n, r);
    }
  }

  /** What a sweep leaves alone. */
  ghost predicate Shrinks(m: Mgr, m': Mgr) {
    && m'.objs.Keys == m.objs.Keys && m'.nextSess == m.nextSess
    && (forall s :: s in m.objs ==> m'.objs[s] == m.objs[s].(refs := m'.objs[s].refs))
    && m'.tokens.Keys <= m.tokens.Keys && m'.consoles.Keys <= m.consoles.Keys
    && (forall k :: k in m'.tokens ==> m'.tokens[k] == m.tokens[k])
    && (forall k :: k in m'.consoles ==> m'.consoles[k] == m.consoles[k])
    && m'.sessions.Keys <= m.sessions.Keys
    && (forall k :: k in m'.sessions ==> m'.sessions[k] == m.sessions[k])
    && (forall s :: s in m'.dead ==> s in m.dead || s in m.objs)
  }

  lemma ShrinksTrans(a: Mgr, b: Mgr, c: Mgr)
    requires Shrinks(a, b) && Shrinks(b, c)
    ensures Shrinks(a, c)
  {
    forall s | s in a.objs ensures c.objs[s] == a.objs[s].(refs := c.objs[s].refs) {
      assert b.objs[s] == a.objs[s].(refs := b.objs[s].refs);
      assert c.objs[s] == b.objs[s].(refs := c.objs[s].refs);
    }
  }

  lemma ReleaseShrinks(m: Mgr, x: SessId)
    requires x in m.objs
    ensures Shrinks(m, Release(m, x))
  {}

  lemma ExpireShrinks(m: Mgr, x: Expiry)
    requires x.id in Table(m, x.console) && Table(m, x.console)[x.id].sess in m.objs
    ensures Shrinks(m, Expire(m, x))
  {
    var s := Table(m, x.console)[x.id].sess;
    assert Shrinks(m, Drop(m, x));
    ReleaseShrinks(Drop(m, x), s);
    ShrinksTrans(m, Drop(m, x), Expire(m, x));
  }

  lemma {:induction false} SweptShrinks(m: Mgr, order: seq<Expiry>, now: int)
    requires EntriesKnown(m) && Sweeps(m, order, now)
    ensures Shrinks(m, Swept(m, order, now))
    decreases |order|
  {
    if order != [] {
      var m1 := Expire(m, order[0]);
      ExpireShrinks(m, order[0]);
      SweptShrinks(m1, order[1..], now);
      ShrinksTrans(m, m1, Swept(m1, order[1..], now));
    }
  }
}
