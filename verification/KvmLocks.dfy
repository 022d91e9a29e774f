/** What one thread's move keeps of the locks and of the shape of the KVM protocol's states. */
module KvmLocks {
  import opened Wrappers
  import opened Kvm
  import opened KvmProtocol
  import opened KvmSafety

  predicate MgrAt(th: map<Tid, Pc>, t: Tid) {
    t in th && HoldsMgr(th[t])
  }

  function SessAt(th: map<Tid, Pc>, t: Tid): Option<SessId> {
    if t in th then HoldsSess(th[t]) else None
  }

  lemma Others(th: map<Tid, Pc>, th': map<Tid, Pc>, t: Tid, u: Tid)
    requires Edited(th, th', t) && u != t
    ensures u in th <==> u in th'
    ensures u in th ==> th'[u] == th[u]
  {
    assert u in th ==> u in th - {t} && (th - {t})[u] == th[u];
    assert u in th' ==> u in th' - {t} && (th' - {t})[u] == th'[u];
  }

  /** Manager.mu goes with the thread that is inside. */
  predicate MgrMoves(st: State, st': State, t: Tid) {
    && (MgrAt(st'.threads, t) && !MgrAt(st.threads, t) ==> st.mgrLock.None?)
    && st'.mgrLock == (if MgrAt(st'.threads, t) then Some(t) else if MgrAt(st.threads, t) then None else st.mgrLock)
  }

  lemma MgrLocksEdit(st: State, st': State, t: Tid)
    requires MgrLocks(st) && Edited(st.threads, st'.threads, t) && MgrMoves(st, st', t)
    ensures MgrLocks(st')
  {
    forall u | u in st'.threads && HoldsMgr(st'.threads[u]) ensures st'.mgrLock == Some(u) {
      if u != t { Others(st.threads, st'.threads, t, u); }
    }
    if st.mgrLock.Some? && st.mgrLock.value != t {
      Others(st.threads, st'.threads, t, st.mgrLock.value);
    }
  }

  /** A session lock is taken while free, given back, or kept. */
  predicate SessMoves(st: State, st': State, t: Tid) {
    var x, x' := SessAt(st.threads, t), SessAt(st'.threads, t);
    || (x == x' && st'.sessLock == st.sessLock)
    || (x.Some? && x'.None? && st'.sessLock == st.sessLock - {x.value})
    || (x.None? && x'.Some? && x'.value !in st.sessLock && st'.sessLock == st.sessLock[x'.value := t])
  }

  lemma SessLocksEdit(st: State, st': State, t: Tid)
    requires SessLocks(st) && Edited(st.threads, st'.threads, t) && SessMoves(st, st', t)
    ensures SessLocks(st')
  {
    forall u | u in st'.threads && HoldsSess(st'.threads[u]).Some?
      ensures HoldsSess(st'.threads[u]).value in st'.sessLock && st'.sessLock[HoldsSess(st'.threads[u]).value] == u
    {
      if u != t { Others(st.threads, st'.threads, t, u); }
    }
    forall s | s in st'.sessLock
      ensures st'.sessLock[s] in st'.threads && HoldsSess(st'.threads[st'.sessLock[s]]) == Some(s)
    {
      if st'.sessLock[s] != t { Others(st.threads, st'.threads, t, st'.sessLock[s]); }
    }
  }

  predicate Blank(objs: map<SessId, Session>, s: SessId) {
    s in objs && !objs[s].closed && objs[s].auth.None?
  }

  /** Only the holder of a session's lock changes its login or closes it. */
  ghost predicate FetchMoves(st: State, st': State, t: Tid) {
    && (t in st'.threads && Fetches(st'.threads[t]) ==> Blank(st'.mgr.objs, st'.threads[t].s))
    && (forall s: SessId :: Blank(st.mgr.objs, s) && SessAt(st.threads, t) != Some(s) ==> Blank(st'.mgr.objs, s))
  }

  lemma FetchingEdit(st: State, st': State, t: Tid)
    requires Fetching(st) && SessLocks(st) && Edited(st.threads, st'.threads, t) && FetchMoves(st, st', t)
    ensures Fetching(st')
  {
    forall u | u in st'.threads && Fetches(st'.threads[u]) ensures Blank(st'.mgr.objs, st'.threads[u].s) {
      if u != t {
        Others(st.threads, st'.threads, t, u);
        assert HoldsSess(st.threads[u]) == Some(st.threads[u].s);
      }
    }
  }

  lemma LocksEdit(st: State, st': State, t: Tid)
    requires Locks(st) && Edited(st.threads, st'.threads, t)
    requires MgrMoves(st, st', t) && SessMoves(st, st', t) && FetchMoves(st, st', t)
    ensures Locks(st')
  {
    MgrLocksEdit(st, st', t);
    SessLocksEdit(st, st', t);
    FetchingEdit(st, st', t);
  }

  lemma ShapedEdit(st: State, st': State, t: Tid)
    requires Shaped(st) && Edited(st.threads, st'.threads, t) && st.nextTid <= st'.nextTid
    requires t in st'.threads ==> t < st'.nextTid
    requires t in st'.threads && Named(st'.threads[t]).Some? ==> Named(st'.threads[t]).value in st'.mgr.objs
    requires st.mgr.objs.Keys <= st'.mgr.objs.Keys
    requires MgrShaped(st'.mgr)
    ensures Shaped(st')
  {
    forall u | u in st'.threads
      ensures u < st'.nextTid && (Named(st'.threads[u]).None? || Named(st'.threads[u]).value in st'.mgr.objs)
    {
      if u != t { Others(st.threads, st'.threads, t, u); }
    }
  }

  ghost predicate MgrShaped(m: Mgr) {
    && EntriesKnown(m)
    && (forall k :: k in m.sessions ==> m.sessions[k] in m.objs)
    && (forall s :: s in m.objs ==> s < m.nextSess)
    && (forall k :: k in m.sessions ==> m.objs[m.sessions[k]].key == k)
  }

  lemma ShapedMgr(st: State)
    requires Shaped(st)
    ensures MgrShaped(st.mgr)
  {}

  /** Nobody is inside Manager.mu. */
  ghost predicate Unlocked(st: State) {
    (forall t :: t in st.threads ==> !HoldsMgr(st.threads[t])) && SessLocks(st) && Fetching(st)
  }

  lemma LeftIsUnlocked(st: State, st': State, t: Tid)
    requires Locks(st) && Edited(st.threads, st'.threads, t) && MgrAt(st.threads, t) && !MgrAt(st'.threads, t)
    requires SessMoves(st, st', t) && FetchMoves(st, st', t)
    ensures Unlocked(st')
  {
    SessLocksEdit(st, st', t);
    FetchingEdit(st, st', t);
    forall u | u in st'.threads ensures !HoldsMgr(st'.threads[u]) {
      if u != t { Others(st.threads, st'.threads, t, u); }
    }
  }

  lemma RetiredLocks(st: State, st': State)
    requires Unlocked(st) && Retired(st, st')
    ensures Locks(st')
  {}

  lemma RetiredShaped(st: State, st': State)
    requires Shaped(st) && Retired(st, st') && forall s :: s in st.mgr.dead ==> s in st.mgr.objs
    ensures Shaped(st')
  {}
}
