/** What every step of the KVM protocol keeps, and what follows for whole runs. */
module KvmSafety {
  import opened Wrappers
  import opened Kvm
  import opened KvmProtocol
  import opened KvmCounts

  // ---- invariant

  ghost predicate SessOk(st: State, s: SessId)
    requires s in st.mgr.objs
  {
    Accounted(st.mgr, s, Count(st.threads, TStart(s)), Count(st.threads, TRetire(s)))
  }

  /** Every login is in exactly one place: stored, being logged out, or logged out once. */
  ghost predicate CredOk(st: State, c: Cred) {
    Stored(st.mgr.objs, c) + Count(st.threads, TLogout(c)) + st.outs[c] == B(c < st.nextCred)
  }

  /** A start token is on its way, redeemable or used, at most one of them, at most once. */
  ghost predicate TokenOk(st: State, k: Token) {
    && B(k in st.mgr.tokens) + Count(st.threads, TCarry(k)) + st.uses[k] <= B(k < st.nextToken)
    && (k in st.mgr.consoles ==> k < st.nextToken)
  }

  ghost predicate Sessions(st: State) {
    forall s {:trigger SessOk(st, s)} :: s in st.mgr.objs ==> SessOk(st, s)
  }

  ghost predicate Logins(st: State) {
    forall c: Cred :: CredOk(st, c)
  }

  ghost predicate Tokens(st: State) {
    forall k: Token :: TokenOk(st, k)
  }

  ghost predicate Counted(st: State) {
    Sessions(st) && Logins(st) && Tokens(st)
  }

  ghost predicate MgrLocks(st: State) {
    && (forall t :: t in st.threads && HoldsMgr(st.threads[t]) ==> st.mgrLock == Some(t))
    && (st.mgrLock.Some? ==> st.mgrLock.value in st.threads && HoldsMgr(st.threads[st.mgrLock.value]))
  }

  ghost predicate SessLocks(st: State) {
    && (forall t :: t in st.threads && HoldsSess(st.threads[t]).Some? ==>
          HoldsSess(st.threads[t]).value in st.sessLock && st.sessLock[HoldsSess(st.threads[t]).value] == t)
    && (forall s :: s in st.sessLock ==>
          st.sessLock[s] in st.threads && HoldsSess(st.threads[st.sessLock[s]]) == Some(s))
  }

  predicate Fetches(pc: Pc) {
    pc.CredsWait? || pc.CredsHold? || pc.Login?
  }

  /** A thread logging in found its session open and without a login, and holds its lock. */
  ghost predicate Fetching(st: State) {
    forall t :: t in st.threads && Fetches(st.threads[t]) ==>
      && st.threads[t].s in st.mgr.objs
      && !st.mgr.objs[st.threads[t].s].closed && st.mgr.objs[st.threads[t].s].auth.None?
  }

  ghost predicate Locks(st: State) {
    MgrLocks(st) && SessLocks(st) && Fetching(st)
  }

  ghost predicate Shaped(st: State) {
    && Known(st)
    && (forall t :: t in st.threads ==> t < st.nextTid)
    && (forall s :: s in st.mgr.objs ==> s < st.mgr.nextSess)
    && (forall k :: k in st.mgr.sessions ==> st.mgr.objs[st.mgr.sessions[k]].key == k)
  }

  ghost predicate Inv(st: State) {
    Shaped(st) && st.mgr.dead == [] && Locks(st) && Counted(st)
  }

  lemma InitialInv(now: int)
    ensures Inv(Initial(now))
  {
    var st := Initial(now);
    forall c: Cred ensures CredOk(st, c) {
      CountNone(st.threads, TLogout(c));
      assert Stored(st.mgr.objs, c) == 0 by { MapCount.CountNone(st.mgr.objs, Keeps(c)); }
    }
    forall k: Token ensures TokenOk(st, k) {
      CountNone(st.threads, TCarry(k));
    }
  }

  // ---- one thread changes place

  /** At most thread `t` differs. */
  ghost predicate Edited(th: map<Tid, Pc>, th': map<Tid, Pc>, t: Tid) {
    th' - {t} == th - {t}
  }

  function StartAt(th: map<Tid, Pc>, t: Tid): Option<SessId> {
    if t in th then StartOf(th[t]) else None
  }

  function RetireAt(th: map<Tid, Pc>, t: Tid): Option<SessId> {
    if t in th then RetireOf(th[t]) else None
  }

  function LogoutAt(th: map<Tid, Pc>, t: Tid): Option<Cred> {
    if t in th then LogoutOf(th[t]) else None
  }

  function CarryAt(th: map<Tid, Pc>, t: Tid): Option<Token> {
    if t in th then CarryOf(th[t]) else None
  }

  predicate Carries(th: map<Tid, Pc>, t: Tid, tag: Tag) {
    match tag
    case TStart(s) => StartAt(th, t) == Some(s)
    case TRetire(s) => RetireAt(th, t) == Some(s)
    case TLogout(c) => LogoutAt(th, t) == Some(c)
    case TCarry(tok) => CarryAt(th, t) == Some(tok)
  }

  lemma CountEdit(th: map<Tid, Pc>, th': map<Tid, Pc>, t: Tid, tag: Tag)
    requires Edited(th, th', t)
    ensures Count(th', tag) == Count(th, tag) - B(Carries(th, t, tag)) + B(Carries(th', t, tag))
  {
    CountOut(th, t, tag);
    CountOut(th', t, tag);
  }

  /** Same books: entries, registrations and counts are unchanged, logins may differ. */
  ghost predicate SameBooks(m: Mgr, m': Mgr) {
    && m'.tokens == m.tokens && m'.consoles == m.consoles && m'.sessions == m.sessions && m'.dead == m.dead
    && m'.objs.Keys == m.objs.Keys
    && forall s :: s in m.objs ==>
         && m'.objs[s].key == m.objs[s].key && m'.objs[s].refs == m.objs[s].refs
             && m'.objs[s].closed == m.objs[s].closed
         && (m'.objs[s].closed ==> m'.objs[s].auth.None?)
  }

  lemma SessionsKept(st: State, st': State, t: Tid)
    requires Sessions(st) && SameBooks(st.mgr, st'.mgr) && Edited(st.threads, st'.threads, t)
    requires StartAt(st'.threads, t) == StartAt(st.threads, t)
    requires RetireAt(st'.threads, t) == RetireAt(st.threads, t)
    ensures Sessions(st')
  {
    forall s | s in st'.mgr.objs ensures SessOk(st', s) {
      CountEdit(st.threads, st'.threads, t, TStart(s));
      CountEdit(st.threads, st'.threads, t, TRetire(s));
      assert SessOk(st, s);
    }
  }

  ghost predicate SameLogins(objs: map<SessId, Session>, objs': map<SessId, Session>) {
    && objs.Keys <= objs'.Keys
    && (forall s :: s in objs ==> objs'[s].auth == objs[s].auth)
    && (forall s :: s in objs' && s !in objs ==> objs'[s].auth.None?)
  }

  lemma StoredKept(objs: map<SessId, Session>, objs': map<SessId, Session>, c: Cred)
    requires SameLogins(objs, objs')
    ensures Stored(objs', c) == Stored(objs, c)
  {
    assert MapCount.Where(objs', Keeps(c)) == MapCount.Where(objs, Keeps(c));
  }

  lemma LoginsKept(st: State, st': State, t: Tid)
    requires Logins(st) && SameLogins(st.mgr.objs, st'.mgr.objs) && Edited(st.threads, st'.threads, t)
    requires st'.nextCred == st.nextCred && st'.outs == st.outs
    requires LogoutAt(st'.threads, t) == LogoutAt(st.threads, t)
    ensures Logins(st')
  {
    forall c: Cred ensures CredOk(st', c) {
      CountEdit(st.threads, st'.threads, t, TLogout(c));
      StoredKept(st.mgr.objs, st'.mgr.objs, c);
      assert CredOk(st, c);
    }
  }

  lemma TokensKept(st: State, st': State, t: Tid)
    requires Tokens(st) && Edited(st.threads, st'.threads, t)
    requires st'.mgr.tokens.Keys <= st.mgr.tokens.Keys && st'.mgr.consoles.Keys <= st.mgr.consoles.Keys
    requires st'.uses == st.uses && st'.nextToken >= st.nextToken
    requires CarryAt(st'.threads, t) in {None, CarryAt(st.threads, t)}
          || (CarryAt(st'.threads, t) == Some(st.nextToken) && st.nextToken < st'.nextToken)
    ensures Tokens(st')
  {
    forall k: Token ensures TokenOk(st', k) {
      CountEdit(st.threads, st'.threads, t, TCarry(k));
      assert TokenOk(st, k);
    }
  }

  // ---- critical sections

  lemma AcquireAccounted(m: Mgr, key: Key, password: string, s: SessId, n: nat, r: nat)
    requires key in m.sessions ==> m.sessions[key] in m.objs && m.objs[m.sessions[key]].key == key
    requires s in m.objs && Accounted(m, s, n, r)
    requires m.nextSess !in m.objs
    ensures Accounted(Acquire(m, key, password), s, if s == Acquired(m, key) then n + 1 else n, r)
  {
    if s == Acquired(m, key) {
      assert m.objs[s].refs > 0;
    }
  }

  lemma FreshAccounted(st: State, key: Key, password: string)
    requires Shaped(st) && st.mgr.dead == [] && key !in st.mgr.sessions
    ensures Count(st.threads, TStart(st.mgr.nextSess)) == 0 && Count(st.threads, TRetire(st.mgr.nextSess)) == 0
    ensures Accounted(Acquire(st.mgr, key, password), st.mgr.nextSess, 1, 0)
  {
    var s := st.mgr.nextSess;
    CountNone(st.threads, TStart(s));
    CountNone(st.threads, TRetire(s));
    OnNone(st.mgr.tokens, s);
    OnNone(st.mgr.consoles, s);
  }

  /** A start that acquired `x` counts as one more holder of `x`. */
  lemma StartCounts(th: map<Tid, Pc>, t: Tid, x: SessId, k: Cont, s: SessId)
    requires t in th && th[t].StartHold? && k.ForStart?
    ensures Count(th[t := AuthWait(x, k)], TStart(s)) == Count(th, TStart(s)) + B(s == x)
    ensures Count(th[t := AuthWait(x, k)], TRetire(s)) == Count(th, TRetire(s))
  {
    CountMove(th, t, AuthWait(x, k), TStart(s));
    CountMove(th, t, AuthWait(x, k), TRetire(s));
  }

  lemma StartSessions(st: State, st': State, t: Tid)
    requires Shaped(st) && st.mgr.dead == [] && Sessions(st)
    requires t in st.threads && st.threads[t].StartHold?
    requires var pc := st.threads[t];
             && st'.mgr == Acquire(st.mgr, pc.key, pc.password)
             && st'.threads == st.threads[t := AuthWait(Acquired(st.mgr, pc.key), ForStart(pc.device, pc.token))]
    ensures Sessions(st')
  {
    var pc := st.threads[t];
    var x := Acquired(st.mgr, pc.key);
    assert st.mgr.nextSess !in st.mgr.objs;
    forall s | s in st'.mgr.objs ensures SessOk(st', s) {
      StartCounts(st.threads, t, x, ForStart(pc.device, pc.token), s);
      var n, r := Count(st.threads, TStart(s)), Count(st.threads, TRetire(s));
      if s in st.mgr.objs {
        assert SessOk(st, s);
        AcquireAccounted(st.mgr, pc.key, pc.password, s, n, r);
      } else {
        FreshAccounted(st, pc.key, pc.password);
      }
    }
  }

  lemma SweptSessions(st: State, order: seq<Expiry>)
    requires Sessions(st) && EntriesKnown(st.mgr) && Sweeps(st.mgr, order, st.now)
    ensures Sessions(st.(mgr := Swept(st.mgr, order, st.now)))
  {
    var st' := st.(mgr := Swept(st.mgr, order, st.now));
    SweptShrinks(st.mgr, order, st.now);
    forall s | s in st'.mgr.objs ensures SessOk(st', s) {
      assert SessOk(st, s);
      SweptAccounted(st.mgr, order, st.now, s, Count(st.threads, TStart(s)), Count(st.threads, TRetire(s)));
    }
  }

  lemma SweptCounted(st: State, order: seq<Expiry>)
    requires Counted(st) && EntriesKnown(st.mgr) && Sweeps(st.mgr, order, st.now)
    ensures Counted(st.(mgr := Swept(st.mgr, order, st.now)))
  {
    var st' := st.(mgr := Swept(st.mgr, order, st.now));
    SweptShrinks(st.mgr, order, st.now);
    SweptSessions(st, order);
    LoginsKept(st, st', st.nextTid);
    TokensKept(st, st', st.nextTid);
  }

  lemma InstalledSessions(st: State, st': State, t: Tid)
    requires Sessions(st) && t in st.threads && st.threads[t].InstallHold? && st.threads[t].token !in st.mgr.tokens
    requires st'.threads == st.threads - {t} && st'.mgr == Installed(st, st.threads[t])
    ensures Sessions(st')
  {
    var tok := st.threads[t].token;
    forall s | s in st'.mgr.objs ensures SessOk(st', s) {
      CountEdit(st.threads, st'.threads, t, TStart(s));
      CountEdit(st.threads, st'.threads, t, TRetire(s));
      OnPut(st.mgr.tokens, tok, st'.mgr.tokens[tok], s);
      assert SessOk(st, s);
    }
  }

  lemma InstalledTokens(st: State, st': State, t: Tid)
    requires Tokens(st) && t in st.threads && st.threads[t].InstallHold?
    requires st'.threads == st.threads - {t} && st'.mgr == Installed(st, st.threads[t])
    requires st'.uses == st.uses && st'.nextToken == st.nextToken
    ensures st.threads[t].token !in st.mgr.tokens
    ensures Tokens(st')
  {
    var tok := st.threads[t].token;
    CountEdit(st.threads, st'.threads, t, TCarry(tok));
    assert TokenOk(st, tok);
    forall k: Token ensures TokenOk(st', k) {
      CountEdit(st.threads, st'.threads, t, TCarry(k));
      assert TokenOk(st, k);
    }
  }

  lemma ReleasedSessions(st: State, st': State, t: Tid)
    requires Sessions(st) && t in st.threads && st.threads[t].ReleaseHold? && st.threads[t].s in st.mgr.objs
    requires st'.threads == st.threads - {t} && st'.mgr == Release(st.mgr, st.threads[t].s)
    ensures Sessions(st')
  {
    var x := st.threads[t].s;
    forall s | s in st'.mgr.objs ensures SessOk(st', s) {
      CountEdit(st.threads, st'.threads, t, TStart(s));
      CountEdit(st.threads, st'.threads, t, TRetire(s));
      assert SessOk(st, s);
      ReleaseAccounted(st.mgr, x, s, Count(st'.threads, TStart(s)), Count(st'.threads, TRetire(s)));
    }
  }

  lemma ExchangedSessions(st: State, st': State, t: Tid, tok: Token)
    requires Sessions(st) && Edited(st.threads, st'.threads, t)
    requires StartAt(st'.threads, t) == StartAt(st.threads, t)
    requires RetireAt(st'.threads, t) == RetireAt(st.threads, t)
    requires tok in st.mgr.tokens && st.nextToken !in st.mgr.consoles && st'.mgr == Exchanged(st, tok)
    ensures Sessions(st')
  {
    forall s | s in st'.mgr.objs ensures SessOk(st', s) {
      CountEdit(st.threads, st'.threads, t, TStart(s));
      CountEdit(st.threads, st'.threads, t, TRetire(s));
      OnOut(st.mgr.tokens, tok, s);
      OnPut(st.mgr.consoles, st.nextToken, st'.mgr.consoles[st.nextToken], s);
      assert SessOk(st, s);
    }
  }

  /** Redeeming a token moves it from the redeemable to the used ones. */
  lemma ExchangedTokens(st: State, st': State, t: Tid, tok: Token)
    requires Tokens(st) && Edited(st.threads, st'.threads, t)
    requires CarryAt(st'.threads, t) in {None, CarryAt(st.threads, t)}
    requires tok in st.mgr.tokens && st'.mgr == Exchanged(st, tok)
    requires st'.uses == st.uses + multiset{tok} && st'.nextToken == st.nextToken + 1
    ensures Tokens(st') && st.nextToken !in st.mgr.consoles
  {
    assert TokenOk(st, st.nextToken);
    forall k: Token ensures TokenOk(st', k) {
      CountEdit(st.threads, st'.threads, t, TCarry(k));
      assert TokenOk(st, k);
    }
  }

  // ---- handing dead sessions to background logouts

  lemma {:induction false} RetireCount(st: State, tag: Tag)
    requires forall t :: t in st.threads ==> t < st.nextTid
    ensures Count(Retire(st).threads, tag) == Count(st.threads, tag)
          + (if tag.TRetire? then Occ(st.mgr.dead, tag.s) else 0)
    decreases |st.mgr.dead|
  {
    var dead := st.mgr.dead;
    if dead != [] {
      var pc := RetireWait(dead[0]);
      CountMove(st.threads, st.nextTid, pc, tag);
      RetireCount(Spawn(st, pc).(mgr := st.mgr.(dead := dead[1..])), tag);
      assert dead == [dead[0]] + dead[1..];
    }
  }

  /** Old threads stay, new ones are background logouts of dead sessions. */
  ghost predicate Retired(st: State, st': State) {
    && st' == st.(threads := st'.threads, nextTid := st'.nextTid, mgr := st.mgr.(dead := []), mgrLock := None)
    && (forall t :: t in st.threads ==> t in st'.threads && st'.threads[t] == st.threads[t])
    && (forall t :: t in st'.threads ==> t < st'.nextTid)
    && (forall t :: t in st'.threads && t !in st.threads ==>
      st'.threads[t].RetireWait? && st'.threads[t].s in st.mgr.dead)
  }

  lemma {:induction false} RetireFrame(st: State)
    requires forall t :: t in st.threads ==> t < st.nextTid
    ensures Retired(st, Retire(st))
    decreases |st.mgr.dead|
  {
    var dead := st.mgr.dead;
    if dead != [] {
      var st1 := Spawn(st, RetireWait(dead[0])).(mgr := st.mgr.(dead := dead[1..]));
      RetireFrame(st1);
      RetiredStep(st, st1, Retire(st1));
    }
  }

  lemma RetiredStep(st: State, st1: State, st': State)
    requires forall t :: t in st.threads ==> t < st.nextTid
    requires st.mgr.dead != []
    requires st1 == Spawn(st, RetireWait(st.mgr.dead[0])).(mgr := st.mgr.(dead := st.mgr.dead[1..]))
    requires Retired(st1, st')
    ensures Retired(st, st')
  {
    forall t | t in st.threads ensures t in st'.threads && st'.threads[t] == st.threads[t] {
      assert t in st1.threads && st1.threads[t] == st.threads[t];
    }
    forall t | t in st'.threads && t !in st.threads
      ensures st'.threads[t].RetireWait? && st'.threads[t].s in st.mgr.dead
    {
      if t in st1.threads {
        assert st1.threads[t] == RetireWait(st.mgr.dead[0]);
      }
    }
  }

  lemma RetireCounted(st: State)
    requires Counted(st) && forall t :: t in st.threads ==> t < st.nextTid
    ensures Counted(Retire(st))
  {
    var st' := Retire(st);
    RetireFrame(st);
    forall s | s in st'.mgr.objs ensures SessOk(st', s) {
      RetireCount(st, TStart(s));
      RetireCount(st, TRetire(s));
      assert SessOk(st, s);
    }
    forall c: Cred ensures CredOk(st', c) {
      RetireCount(st, TLogout(c));
      assert CredOk(st, c);
    }
    forall k: Token ensures TokenOk(st', k) {
      RetireCount(st, TCarry(k));
      assert TokenOk(st, k);
    }
  }

  // ---- logins and logouts

  /** A fresh login is stored in one session. */
  lemma LoginStored(st: State, st': State, t: Tid, x: SessId)
    requires Logins(st) && Edited(st.threads, st'.threads, t)
    requires LogoutAt(st'.threads, t) == LogoutAt(st.threads, t)
    requires x in st.mgr.objs && st.mgr.objs[x].auth.None? && x in st'.mgr.objs
    requires st'.mgr.objs == st.mgr.objs[x := st'.mgr.objs[x]] && st'.mgr.objs[x].auth == Some(st.nextCred)
    requires st'.nextCred == st.nextCred + 1 && st'.outs == st.outs
    ensures Logins(st')
  {
    forall c: Cred ensures CredOk(st', c) {
      CountEdit(st.threads, st'.threads, t, TLogout(c));
      StoredMove(st.mgr.objs, x, st'.mgr.objs[x], c);
      assert CredOk(st, c);
    }
  }

  /** A stored login leaves its session for one logout goroutine. */
  lemma LoginLeaves(st: State, st': State, t: Tid, u: Tid, mid: map<Tid, Pc>, x: SessId, a: Cred)
    requires Logins(st) && Edited(st.threads, mid, t) && Edited(mid, st'.threads, u)
    requires LogoutAt(st.threads, t).None? && LogoutAt(mid, t).None? && LogoutAt(mid, u).None?
    requires LogoutAt(st'.threads, u) == Some(a)
    requires x in st.mgr.objs && st.mgr.objs[x].auth == Some(a) && x in st'.mgr.objs
    requires st'.mgr.objs == st.mgr.objs[x := st'.mgr.objs[x]] && st'.mgr.objs[x].auth.None?
    requires st'.nextCred == st.nextCred && st'.outs == st.outs
    ensures Logins(st')
  {
    forall c: Cred ensures CredOk(st', c) {
      CountEdit(st.threads, mid, t, TLogout(c));
      CountEdit(mid, st'.threads, u, TLogout(c));
      StoredMove(st.mgr.objs, x, st'.mgr.objs[x], c);
      assert CredOk(st, c);
    }
  }

  lemma LoggedOut(st: State, st': State, t: Tid)
    requires Logins(st) && t in st.threads && st.threads[t].Logout? && st'.threads == st.threads - {t}
    requires st'.mgr == st.mgr && st'.nextCred == st.nextCred && st'.outs == st.outs + multiset{st.threads[t].a}
    ensures Logins(st')
  {
    forall c: Cred ensures CredOk(st', c) {
      CountEdit(st.threads, st'.threads, t, TLogout(c));
      assert CredOk(st, c);
    }
  }

  lemma ClosedAccounted(m: Mgr, x: SessId, s: SessId, n: nat, r: nat)
    requires x in m.objs && s in m.objs && Accounted(m, s, n, r)
    requires s == x ==> r > 0
    ensures Accounted(m.(objs := m.objs[x := m.objs[x].(auth := None, closed := true)]), s, n, if s == x then r - 1
          else r)
  {}

  lemma ClosedCounts(th: map<Tid, Pc>, th': map<Tid, Pc>, t: Tid, s: SessId)
    requires t in th && th[t].RetireHold? && Edited(th, th', t) && (t in th' ==> th'[t].Logout?)
    ensures Count(th', TStart(s)) == Count(th, TStart(s))
    ensures Count(th', TRetire(s)) == Count(th, TRetire(s)) - B(s == th[t].s)
  {
    CountEdit(th, th', t, TStart(s));
    CountEdit(th, th', t, TRetire(s));
  }

  lemma ClosedSessions(st: State, st': State, t: Tid)
    requires Sessions(st) && t in st.threads && st.threads[t].RetireHold? && st.threads[t].s in st.mgr.objs
    requires Edited(st.threads, st'.threads, t) && (t in st'.threads ==> st'.threads[t].Logout?)
    requires var x := st.threads[t].s;
             st'.mgr == st.mgr.(objs := st.mgr.objs[x := st.mgr.objs[x].(auth := None, closed := true)])
    ensures Sessions(st')
  {
    var x := st.threads[t].s;
    forall s | s in st'.mgr.objs ensures SessOk(st', s) {
      ClosedCounts(st.threads, st'.threads, t, s);
      assert SessOk(st, s);
      ClosedAccounted(st.mgr, x, s, Count(st.threads, TStart(s)), Count(st.threads, TRetire(s)));
    }
  }
}
