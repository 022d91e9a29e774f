/** What holds in every state of every run of the KVM session manager. */
module KvmRuns {
  import opened Wrappers
  import opened Kvm
  import opened KvmProtocol
  import opened KvmCounts
  import opened KvmSafety
  import opened KvmSteps
  import MapCount

  ghost predicate Possible(st: State, steps: seq<Step>)
    decreases |steps|
  {
    steps == [] || (Known(st) && Enabled(st, steps[0]) && Possible(Apply(st, steps[0]), steps[1..]))
  }

  ghost function Run(st: State, steps: seq<Step>): State
    requires Possible(st, steps)
    decreases |steps|
  {
    if steps == [] then st else Run(Apply(st, steps[0]), steps[1..])
  }

  lemma {:induction false} RunKeeps(st: State, steps: seq<Step>)
    requires Inv(st) && Possible(st, steps)
    ensures Inv(Run(st, steps))
    decreases |steps|
  {
    if steps != [] {
      StepInv(st, steps[0]);
      RunKeeps(Apply(st, steps[0]), steps[1..]);
    }
  }

  lemma RunInv(now: int, steps: seq<Step>)
    requires Possible(Initial(now), steps)
    ensures Inv(Run(Initial(now), steps))
  {
    InitialInv(now);
    RunKeeps(Initial(now), steps);
  }

  // ---- references

  /** Someone still counts on the session: a start in flight, a token or a console. */
  ghost predicate Held(st: State, s: SessId) {
    || (exists t :: t in st.threads && StartOf(st.threads[t]) == Some(s))
    || (exists k :: k in st.mgr.tokens && st.mgr.tokens[k].sess == s)
    || (exists k :: k in st.mgr.consoles && st.mgr.consoles[k].sess == s)
  }

  lemma HeldCounts(st: State, s: SessId)
    requires s in st.mgr.objs && SessOk(st, s)
    ensures Held(st, s) <==> st.mgr.objs[s].refs > 0
  {
    if t :| t in st.threads && StartOf(st.threads[t]) == Some(s) { CountOut(st.threads, t, TStart(s)); }
    if k :| k in st.mgr.tokens && st.mgr.tokens[k].sess == s { OnOut(st.mgr.tokens, k, s); }
    if k :| k in st.mgr.consoles && st.mgr.consoles[k].sess == s { OnOut(st.mgr.consoles, k, s); }
    if !Held(st, s) {
      CountNone(st.threads, TStart(s));
      OnNone(st.mgr.tokens, s);
      OnNone(st.mgr.consoles, s);
    }
  }

  /** A session's reference count is the number of its holders. */
  lemma RefsAreHolders(now: int, steps: seq<Step>, s: SessId)
    requires Possible(Initial(now), steps) && s in Run(Initial(now), steps).mgr.objs
    ensures var st := Run(Initial(now), steps);
            st.mgr.objs[s].refs == On(st.mgr.tokens, s) + On(st.mgr.consoles, s) + Count(st.threads, TStart(s))
  {
    RunInv(now, steps);
    assert SessOk(Run(Initial(now), steps), s);
  }

  /** A held session is registered under its key and open; any other is on its way out or closed. */
  lemma HeldIsLive(now: int, steps: seq<Step>, s: SessId)
    requires Possible(Initial(now), steps) && s in Run(Initial(now), steps).mgr.objs
    ensures var st := Run(Initial(now), steps);
            var o := st.mgr.objs[s];
            && (Held(st, s) <==> o.key in st.mgr.sessions && st.mgr.sessions[o.key] == s)
            && (Held(st, s) ==> !o.closed)
            && (!Held(st, s) ==> o.closed != exists t :: t in st.threads && RetireOf(st.threads[t]) == Some(s))
  {
    var st := Run(Initial(now), steps);
    RunInv(now, steps);
    assert SessOk(st, s);
    HeldCounts(st, s);
    RetiringCounts(st.threads, s);
  }

  lemma RetiringCounts(th: map<Tid, Pc>, s: SessId)
    ensures Count(th, TRetire(s)) > 0 <==> exists t :: t in th && RetireOf(th[t]) == Some(s)
  {
    if t :| t in th && RetireOf(th[t]) == Some(s) {
      CountOut(th, t, TRetire(s));
    } else {
      CountNone(th, TRetire(s));
    }
  }

  /** One host and user never has two sessions in use at a time. */
  lemma OneSessionPerKey(now: int, steps: seq<Step>, s: SessId, s': SessId)
    requires Possible(Initial(now), steps)
    requires var st := Run(Initial(now), steps);
             && s in st.mgr.objs && s' in st.mgr.objs && Held(st, s) && Held(st, s')
             && st.mgr.objs[s].key == st.mgr.objs[s'].key
    ensures s == s'
  {
    HeldIsLive(now, steps, s);
    HeldIsLive(now, steps, s');
  }

  // ---- logins

  /** No login is logged out twice or while a session still stores it. */
  lemma LoggedOutOnce(now: int, steps: seq<Step>, c: Cred)
    requires Possible(Initial(now), steps)
    ensures var st := Run(Initial(now), steps);
            && st.outs[c] <= 1
            && (st.outs[c] == 1 ==> forall s :: s in st.mgr.objs ==> st.mgr.objs[s].auth != Some(c))
  {
    var st := Run(Initial(now), steps);
    RunInv(now, steps);
    assert CredOk(st, c);
    forall s | s in st.mgr.objs ensures st.outs[c] == 1 ==> st.mgr.objs[s].auth != Some(c) {
      MapCount.CountOut(st.mgr.objs, s, Keeps(c));
    }
  }

  /** Nobody holds a session and no background logout is on its way. */
  ghost predicate Idle(st: State) {
    && (forall s: SessId :: !Held(st, s))
    && (forall t :: t in st.threads ==> RetireOf(st.threads[t]).None? && LogoutOf(st.threads[t]).None?)
  }

  lemma IdleSession(st: State, s: SessId)
    requires Inv(st) && Idle(st) && s in st.mgr.objs
    ensures st.mgr.objs[s].auth.None? && st.mgr.objs[s].refs <= 0
  {
    assert SessOk(st, s);
    HeldCounts(st, s);
    RetiringCounts(st.threads, s);
  }

  lemma IdleLogins(st: State, c: Cred)
    requires Inv(st) && Idle(st)
    ensures st.outs[c] == B(c < st.nextCred) && st.mgr.sessions == map[]
  {
    assert CredOk(st, c);
    CountNone(st.threads, TLogout(c));
    forall s | s in st.mgr.objs ensures st.mgr.objs[s].auth.None? { IdleSession(st, s); }
    MapCount.CountNone(st.mgr.objs, Keeps(c));
    forall k | k in st.mgr.sessions ensures false {
      assert SessOk(st, st.mgr.sessions[k]);
      IdleSession(st, st.mgr.sessions[k]);
    }
  }

  /** Nothing leaks: once the manager is idle, every login ever made was logged out exactly once. */
  lemma NothingLeaks(now: int, steps: seq<Step>, c: Cred)
    requires Possible(Initial(now), steps) && Idle(Run(Initial(now), steps))
    ensures var st := Run(Initial(now), steps);
            st.outs[c] == B(c < st.nextCred) && st.mgr.sessions == map[]
  {
    RunInv(now, steps);
    IdleLogins(Run(Initial(now), steps), c);
  }

  /** A start token opens at most one console, and none while it can still be redeemed. */
  lemma TokenOnce(now: int, steps: seq<Step>, k: Token)
    requires Possible(Initial(now), steps)
    ensures var st := Run(Initial(now), steps);
            st.uses[k] <= 1 && (k in st.mgr.tokens ==> st.uses[k] == 0)
  {
    RunInv(now, steps);
    assert TokenOk(Run(Initial(now), steps), k);
  }

  // ---- progress

  lemma {:induction false} SweepExists(m: Mgr, now: int) returns (order: seq<Expiry>)
    requires EntriesKnown(m)
    ensures Sweeps(m, order, now)
    decreases |m.tokens| + |m.consoles|
  {
    if x :| Expired(m, x, now) {
      ExpireShorter(m, x);
      var rest := SweepExists(Expire(m, x), now);
      order := [x] + rest;
      assert order[1..] == rest;
    } else {
      order := [];
    }
  }

  lemma ExpireShorter(m: Mgr, x: Expiry)
    requires EntriesKnown(m) && x.id in Table(m, x.console)
    ensures EntriesKnown(Expire(m, x))
    ensures |Expire(m, x).tokens| + |Expire(m, x).consoles| < |m.tokens| + |m.consoles|
  {
    MapCount.OutShrinks(Table(m, x.console), x.id);
  }
}
