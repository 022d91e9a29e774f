/**
 What a start token and a console stand for: over every run each is bound to the device and the BMC
 login of the start it came from, for its lifetime, and admits requests for that device alone.
 */
module KvmBinding {
  import opened Wrappers
  import opened Kvm
  import opened KvmProtocol
  import opened KvmCounts
  import opened KvmLocks
  import opened KvmSafety
  import opened KvmSteps
  import opened KvmRuns

  /** What the history of a run says of each token, console and login key, beside the manager's own tables. */
  datatype Record = Record(device: map<Token, string>, key: map<Token, Key>, made: map<Token, int>,
                           entered: map<Token, int>, password: map<Key, string>)

  /** The device and the login a thread is starting, before and after it has a session. */
  datatype Mark = Fresh(device: string, token: Token, key: Key) | Busy(device: string, token: Token, s: SessId)

  function MarkOf(pc: Pc): Option<Mark> {
    match pc
    case StartWait(d, key, _, tok) => Some(Fresh(d, tok, key))
    case StartHold(d, key, _, tok) => Some(Fresh(d, tok, key))
    case AuthWait(s, k) => Started(s, k)
    case AuthHold(s, k) => Started(s, k)
    case CredsWait(s, k) => Started(s, k)
    case CredsHold(s, k) => Started(s, k)
    case Login(s, k, _) => Started(s, k)
    case InstallWait(d, tok, s) => Some(Busy(d, tok, s))
    case InstallHold(d, tok, s) => Some(Busy(d, tok, s))
    case _ => None
  }

  function Started(s: SessId, k: Cont): Option<Mark> {
    if k.ForStart? then Some(Busy(k.device, k.token, s)) else None
  }

  /** A start records its device and login key, a critical section its time; a console takes over its token's record. */
  ghost function Noted(st: State, step: Step, rec: Record): Record
    requires Known(st) && Enabled(st, step)
  {
    match step
    case NewStart(d, key, _) => rec.(device := rec.device[st.nextToken := d], key := rec.key[st.nextToken := key])
    case StartBody(t) => rec.(password := rec.password[st.threads[t].key := st.threads[t].password])
    case InstallBody(t, _) => rec.(made := rec.made[st.threads[t].token := st.now])
    case ExchangeBody(t, _, _) =>
      var tok := st.threads[t].token;
      if Apply(st, step).nextToken == st.nextToken || tok !in rec.device || tok !in rec.key then rec
      else rec.(device := rec.device[st.nextToken := rec.device[tok]], key := rec.key[st.nextToken := rec.key[tok]],
                entered := rec.entered[st.nextToken := st.now])
    case _ => rec
  }

  ghost function Noting(st: State, steps: seq<Step>, rec: Record): Record
    requires Possible(st, steps)
    decreases |steps|
  {
    if steps == [] then rec else Noting(Apply(st, steps[0]), steps[1..], Noted(st, steps[0], rec))
  }

  /** The entry stands for what was recorded, for `ttl` from its time. */
  ghost predicate Stands(m: Mgr, k: Token, e: Entry, rec: Record, since: map<Token, int>, ttl: int) {
    && k in rec.device && e.device == rec.device[k]
    && k in rec.key && e.sess in m.objs && m.objs[e.sess].key == rec.key[k]
    && k in since && e.expires == since[k] + ttl
  }

  ghost predicate TokenStands(m: Mgr, k: Token, rec: Record)
    requires k in m.tokens
  {
    Stands(m, k, m.tokens[k], rec, rec.made, 60)
  }

  ghost predicate ConsoleStands(m: Mgr, k: Token, rec: Record)
    requires k in m.consoles
  {
    Stands(m, k, m.consoles[k], rec, rec.entered, 3600)
  }

  ghost predicate Marked(m: Mgr, x: Mark, rec: Record) {
    && x.token in rec.device && rec.device[x.token] == x.device && x.token in rec.key
    && match x
       case Fresh(_, tok, key) => rec.key[tok] == key
       case Busy(_, tok, s) => s in m.objs && m.objs[s].key == rec.key[tok]
  }

  ghost predicate ThreadMarked(m: Mgr, pc: Pc, rec: Record) {
    MarkOf(pc).Some? ==> Marked(m, MarkOf(pc).value, rec)
  }

  ghost predicate Bound(st: State, rec: Record) {
    && (forall k :: k in st.mgr.tokens ==> TokenStands(st.mgr, k, rec))
    && (forall k :: k in st.mgr.consoles ==> ConsoleStands(st.mgr, k, rec))
    && (forall t :: t in st.threads ==> ThreadMarked(st.mgr, st.threads[t], rec))
    && (forall k :: k in rec.device || k in rec.key ==> k < st.nextToken)
    && (forall k :: k in st.mgr.sessions ==>
          && st.mgr.sessions[k] in st.mgr.objs && k in rec.password
          && st.mgr.objs[st.mgr.sessions[k]].password == rec.password[k])
  }

  // ---- steps that bind nothing new

  ghost predicate NoNewEntry(m: Mgr, m': Mgr) {
    && (forall k :: k in m'.tokens ==> k in m.tokens && m'.tokens[k] == m.tokens[k])
    && (forall k :: k in m'.consoles ==> k in m.consoles && m'.consoles[k] == m.consoles[k])
    && (forall k :: k in m'.sessions ==> k in m.sessions && m'.sessions[k] == m.sessions[k])
    && (forall s :: s in m.objs ==>
          s in m'.objs && m'.objs[s].key == m.objs[s].key && m'.objs[s].password == m.objs[s].password)
  }

  ghost predicate NoNewMark(th: map<Tid, Pc>, th': map<Tid, Pc>) {
    forall t :: t in th' ==> MarkOf(th'[t]).None? || (t in th && MarkOf(th[t]) == MarkOf(th'[t]))
  }

  ghost predicate Quietly(st: State, st': State) {
    NoNewEntry(st.mgr, st'.mgr) && NoNewMark(st.threads, st'.threads) && st'.nextToken == st.nextToken
  }

  lemma QuietlyBound(st: State, st': State, rec: Record)
    requires Bound(st, rec) && Quietly(st, st')
    ensures Bound(st', rec)
  {
    forall t | t in st'.threads ensures ThreadMarked(st'.mgr, st'.threads[t], rec)
    {
      if MarkOf(st'.threads[t]).Some? { assert ThreadMarked(st.mgr, st.threads[t], rec); }
    }
    forall k | k in st'.mgr.tokens ensures TokenStands(st'.mgr, k, rec) {
      assert TokenStands(st.mgr, k, rec);
    }
    forall k | k in st'.mgr.consoles ensures ConsoleStands(st'.mgr, k, rec) {
      assert ConsoleStands(st.mgr, k, rec);
    }
  }

  lemma ShrinksNoNew(m: Mgr, m': Mgr)
    requires Shrinks(m, m')
    ensures NoNewEntry(m, m')
  {
    forall s | s in m.objs ensures m'.objs[s].key == m.objs[s].key && m'.objs[s].password == m.objs[s].password {
      assert m'.objs[s] == m.objs[s].(refs := m'.objs[s].refs);
    }
  }

  /** Leaving the manager's critical section. */
  lemma RetiredQuietly(st: State, st1: State)
    requires NoNewEntry(st.mgr, st1.mgr) && NoNewMark(st.threads, st1.threads) && st1.nextToken == st.nextToken
    requires forall t :: t in st1.threads ==> t < st1.nextTid
    ensures Quietly(st, Retire(st1))
  {
    RetireFrame(st1);
    RetiredMarks(st.threads, st1, Retire(st1));
    DeadNoNew(st.mgr, st1.mgr);
  }

  lemma RetiredMarks(th: map<Tid, Pc>, st1: State, st': State)
    requires Retired(st1, st') && NoNewMark(th, st1.threads)
    ensures NoNewMark(th, st'.threads)
  {
    forall t | t in st'.threads
      ensures MarkOf(st'.threads[t]).None? || (t in th && MarkOf(th[t]) == MarkOf(st'.threads[t])) {
      if t in st1.threads { assert st'.threads[t] == st1.threads[t]; }
    }
  }

  lemma DeadNoNew(m: Mgr, m': Mgr)
    requires NoNewEntry(m, m')
    ensures NoNewEntry(m, m'.(dead := []))
  {}

  /** One thread goes on under the same mark or none, or ends. */
  ghost predicate OneMoves(th: map<Tid, Pc>, th': map<Tid, Pc>, t: Tid) {
    || th' == th - {t}
    || (t in th && t in th' && th' == th[t := th'[t]]
        && (MarkOf(th'[t]).None? || MarkOf(th'[t]) == MarkOf(th[t])))
  }

  lemma MovesQuietly(st: State, st': State, t: Tid)
    requires OneMoves(st.threads, st'.threads, t) && st'.mgr == st.mgr && st'.nextToken == st.nextToken
    ensures Quietly(st, st')
  {}

  lemma LockQuietly(st: State, step: Step)
    requires Known(st) && Enabled(st, step) && (step.LockMgr? || step.LockSess?)
    ensures Quietly(st, Apply(st, step))
  {
    var st', t := Apply(st, step), step.t;
    assert st'.threads == st.threads[t := Entered(st.threads[t])];
    assert MarkOf(Entered(st.threads[t])) == MarkOf(st.threads[t]);
    MovesQuietly(st, st', t);
  }

  lemma ArriveQuietly(st: State, step: Step)
    requires Known(st) && Enabled(st, step) && (step.NewRequest? || step.NewGc? || step.Tick?)
    ensures Quietly(st, Apply(st, step))
  {}

  lemma PlainQuietly(st: State, step: Step)
    requires Known(st) && Enabled(st, step)
    requires step.CredsBody? || step.ConsoleBody? || step.ProxyEnds? || step.ProxyRefused? || step.LogoutDone?
    ensures Quietly(st, Apply(st, step))
  {
    assert OneMoves(st.threads, Apply(st, step).threads, step.t);
    MovesQuietly(st, Apply(st, step), step.t);
  }

  lemma ContinueMoves(st: State, t: Tid, s: SessId, k: Cont, a: Option<Cred>)
    requires t in st.threads && MarkOf(st.threads[t]) == Started(s, k)
    ensures OneMoves(st.threads, Continue(st, t, s, k, a).threads, t)
    ensures Continue(st, t, s, k, a).nextToken == st.nextToken && Continue(st, t, s, k, a).mgr == st.mgr
  {}

  lemma AuthQuietly(st: State, t: Tid)
    requires Known(st) && Enabled(st, AuthBody(t))
    ensures Quietly(st, Apply(st, AuthBody(t)))
  {
    var pc := st.threads[t];
    var st1 := UnlockSess(st, pc.s);
    ContinueMoves(st1, t, pc.s, pc.k, None);
    ContinueMoves(st1, t, pc.s, pc.k, st.mgr.objs[pc.s].auth);
    assert OneMoves(st.threads, Goto(st, t, CredsWait(pc.s, pc.k)).threads, t);
    MovesQuietly(st, Apply(st, AuthBody(t)), t);
  }

  lemma LoginFailQuietly(st: State, t: Tid)
    requires Known(st) && Enabled(st, LoginFail(t))
    ensures Quietly(st, Apply(st, LoginFail(t)))
  {
    var pc := st.threads[t];
    ContinueMoves(UnlockSess(st, pc.s), t, pc.s, pc.k, None);
    MovesQuietly(st, Apply(st, LoginFail(t)), t);
  }

  /** A session that keeps its key and password. */
  lemma SessionNoNew(m: Mgr, s: SessId, o: Session)
    requires s in m.objs && o.key == m.objs[s].key && o.password == m.objs[s].password
    ensures NoNewEntry(m, m.(objs := m.objs[s := o]))
  {}

  lemma LoginQuietly(st: State, t: Tid)
    requires Known(st) && Enabled(st, LoginOk(t))
    ensures Quietly(st, Apply(st, LoginOk(t)))
  {
    var pc := st.threads[t];
    ContinueMoves(UnlockSess(st, pc.s), t, pc.s, pc.k, Some(st.nextCred));
    MovesQuietly(st, Continue(UnlockSess(st, pc.s), t, pc.s, pc.k, Some(st.nextCred)), t);
    SessionNoNew(st.mgr, pc.s, st.mgr.objs[pc.s].(auth := Some(st.nextCred), loggedAt := st.now));
  }

  lemma SpawnMarks(th: map<Tid, Pc>, th': map<Tid, Pc>, id: Tid, pc: Pc)
    requires NoNewMark(th, th') && MarkOf(pc).None?
    ensures NoNewMark(th, th'[id := pc])
  {}

  lemma MovesMarks(th: map<Tid, Pc>, th': map<Tid, Pc>, t: Tid)
    requires OneMoves(th, th', t)
    ensures NoNewMark(th, th')
  {}

  lemma InvalidateQuietly(st: State, t: Tid, retry: bool)
    requires Known(st) && Enabled(st, InvalidateBody(t, retry))
    ensures Quietly(st, Apply(st, InvalidateBody(t, retry)))
  {
    var pc, st' := st.threads[t], Apply(st, InvalidateBody(t, retry));
    if Blames(st, pc.s, pc.a) {
      var th := if retry then st.threads[t := AuthWait(pc.s, ForRequest)] else st.threads - {t};
      assert st'.threads == th[st.nextTid := Logout(pc.a)];
      MovesMarks(st.threads, th, t);
      SpawnMarks(st.threads, th, st.nextTid, Logout(pc.a));
      SessionNoNew(st.mgr, pc.s, st.mgr.objs[pc.s].(auth := None));
    } else {
      MovesQuietly(st, st', t);
    }
  }

  lemma RetireQuietly(st: State, t: Tid)
    requires Known(st) && Enabled(st, RetireBody(t))
    ensures Quietly(st, Apply(st, RetireBody(t)))
  {
    var s := st.threads[t].s;
    SessionNoNew(st.mgr, s, st.mgr.objs[s].(auth := None, closed := true));
  }

  lemma SweepQuietly(st: State, step: Step)
    requires Inv(st) && Enabled(st, step) && (step.ReleaseBody? || step.GcBody?)
    ensures Quietly(st, Apply(st, step))
  {
    var m' := if step.GcBody? then Swept(st.mgr, step.order, st.now) else Release(st.mgr, st.threads[step.t].s);
    if step.GcBody? {
      SweptShrinks(st.mgr, step.order, st.now);
    } else {
      ReleaseShrinks(st.mgr, st.threads[step.t].s);
    }
    ShrinksNoNew(st.mgr, m');
    RetiredQuietly(st, End(st, step.t).(mgr := m'));
  }

  // ---- steps that bind

  lemma NewStartBound(st: State, step: Step, rec: Record)
    requires Inv(st) && Enabled(st, step) && step.NewStart? && Bound(st, rec)
    ensures Bound(Apply(st, step), Noted(st, step, rec))
  {
    var st', rec' := Apply(st, step), Noted(st, step, rec);
    forall t | t in st'.threads ensures ThreadMarked(st'.mgr, st'.threads[t], rec') {
      if t != st.nextTid { assert ThreadMarked(st.mgr, st.threads[t], rec); }
    }
    forall k | k in st.mgr.tokens ensures TokenStands(st.mgr, k, rec') {
      assert TokenStands(st.mgr, k, rec);
    }
    forall k | k in st.mgr.consoles ensures ConsoleStands(st.mgr, k, rec') {
      assert ConsoleStands(st.mgr, k, rec);
    }
  }

  /** Entries and marks stand as before while sessions keep their keys and their records stay. */
  lemma StandsOn(m: Mgr, m': Mgr, rec: Record, rec': Record)
    requires KeysKept(m, m') && rec' == rec.(password := rec'.password)
    ensures forall k, e, since, ttl :: Stands(m, k, e, rec, since, ttl) ==> Stands(m', k, e, rec', since, ttl)
    ensures forall pc :: ThreadMarked(m, pc, rec) ==> ThreadMarked(m', pc, rec')
  {}

  lemma AcquireKeeps(m: Mgr, key: Key, password: string)
    requires MgrShaped(m)
    ensures KeysKept(m, Acquire(m, key, password))
    ensures var m' := Acquire(m, key, password);
            Acquired(m, key) in m'.objs && m'.objs[Acquired(m, key)].key == key
  {}

  lemma AcquirePasswords(m: Mgr, key: Key, password: string, was: map<Key, string>)
    requires MgrShaped(m) && forall k :: k in m.sessions ==> k in was && m.objs[m.sessions[k]].password == was[k]
    ensures var m', now := Acquire(m, key, password), was[key := password];
            forall k :: k in m'.sessions ==>
              m'.sessions[k] in m'.objs && k in now && m'.objs[m'.sessions[k]].password == now[k]
  {}

  lemma StartBound(st: State, t: Tid, rec: Record)
    requires Inv(st) && Enabled(st, StartBody(t)) && Bound(st, rec)
    ensures Bound(Apply(st, StartBody(t)), Noted(st, StartBody(t), rec))
  {
    var pc := st.threads[t];
    ShapedMgr(st);
    StartedBound(st, t, rec, Apply(st, StartBody(t)), Noted(st, StartBody(t), rec));
  }

  lemma StartedBound(st: State, t: Tid, rec: Record, st': State, rec': Record)
    requires MgrShaped(st.mgr) && t in st.threads && st.threads[t].StartHold? && Bound(st, rec)
    requires var pc := st.threads[t];
             && st'.mgr == Acquire(st.mgr, pc.key, pc.password) && st'.nextToken == st.nextToken
             && st'.threads == st.threads[t := AuthWait(Acquired(st.mgr, pc.key), ForStart(pc.device, pc.token))]
             && rec' == rec.(password := rec.password[pc.key := pc.password])
    ensures Bound(st', rec')
  {
    var pc := st.threads[t];
    AcquireKeeps(st.mgr, pc.key, pc.password);
    AcquirePasswords(st.mgr, pc.key, pc.password, rec.password);
    StandsOn(st.mgr, st'.mgr, rec, rec');
    assert ThreadMarked(st.mgr, pc, rec);
    forall k | k in st'.mgr.tokens ensures TokenStands(st'.mgr, k, rec') { assert TokenStands(st.mgr, k, rec); }
    forall k | k in st'.mgr.consoles ensures ConsoleStands(st'.mgr, k, rec') { assert ConsoleStands(st.mgr, k, rec); }
  }

  ghost predicate KeysKept(m: Mgr, m': Mgr) {
    forall s :: s in m.objs ==> s in m'.objs && m'.objs[s].key == m.objs[s].key
  }

  /** A new entry, before the sweep that follows. */
  lemma InstalledBound(st: State, t: Tid, rec: Record)
    requires Bound(st, rec) && t in st.threads && st.threads[t].InstallHold?
    ensures var pc := st.threads[t];
            Bound(End(st, t).(mgr := Installed(st, pc)), rec.(made := rec.made[pc.token := st.now]))
  {
    var pc := st.threads[t];
    var st', rec' := End(st, t).(mgr := Installed(st, pc)), rec.(made := rec.made[pc.token := st.now]);
    assert ThreadMarked(st.mgr, pc, rec);
    forall u | u in st'.threads ensures ThreadMarked(st'.mgr, st'.threads[u], rec') {
      assert ThreadMarked(st.mgr, st.threads[u], rec);
    }
    forall k | k in st'.mgr.tokens ensures TokenStands(st'.mgr, k, rec') {
      if k != pc.token { assert TokenStands(st.mgr, k, rec); }
    }
    forall k | k in st.mgr.consoles ensures ConsoleStands(st'.mgr, k, rec') {
      assert ConsoleStands(st.mgr, k, rec);
    }
  }

  /** A token's binding moved to a console, before the sweep that follows. */
  lemma ExchangedBound(st: State, st1: State, tok: Token, rec: Record, rec': Record)
    requires Bound(st, rec) && tok in st.mgr.tokens && st1.mgr == Exchanged(st, tok)
    requires NoNewMark(st.threads, st1.threads) && st1.nextToken == st.nextToken + 1
    requires TokenStands(st.mgr, tok, rec)
    requires rec' == rec.(device := rec.device[st.nextToken := rec.device[tok]],
                          key := rec.key[st.nextToken := rec.key[tok]],
                          entered := rec.entered[st.nextToken := st.now])
    ensures Bound(st1, rec')
  {
    forall u | u in st1.threads ensures ThreadMarked(st1.mgr, st1.threads[u], rec') {
      if MarkOf(st1.threads[u]).Some? { assert ThreadMarked(st.mgr, st.threads[u], rec); }
    }
    forall k | k in st1.mgr.tokens ensures TokenStands(st1.mgr, k, rec') { assert TokenStands(st.mgr, k, rec); }
    forall k | k in st1.mgr.consoles ensures ConsoleStands(st1.mgr, k, rec') {
      if k != st.nextToken { assert ConsoleStands(st.mgr, k, rec); }
    }
  }

  /** A sweep and the hand-over of dead sessions bind nothing new. */
  lemma SweptBound(st1: State, order: seq<Expiry>, rec: Record)
    requires Bound(st1, rec) && EntriesKnown(st1.mgr) && Sweeps(st1.mgr, order, st1.now)
    requires forall t :: t in st1.threads ==> t < st1.nextTid
    ensures Bound(Retire(st1.(mgr := Swept(st1.mgr, order, st1.now))), rec)
  {
    SweptShrinks(st1.mgr, order, st1.now);
    ShrinksNoNew(st1.mgr, Swept(st1.mgr, order, st1.now));
    var st2 := st1.(mgr := Swept(st1.mgr, order, st1.now));
    RetiredQuietly(st1, st2);
    QuietlyBound(st1, Retire(st2), rec);
  }

  lemma InstallBound(st: State, t: Tid, order: seq<Expiry>, rec: Record)
    requires Inv(st) && Enabled(st, InstallBody(t, order)) && Bound(st, rec)
    ensures Bound(Apply(st, InstallBody(t, order)), Noted(st, InstallBody(t, order), rec))
  {
    InstalledBound(st, t, rec);
    SweptBound(End(st, t).(mgr := Installed(st, st.threads[t])), order, Noted(st, InstallBody(t, order), rec));
  }

  /** The state between the exchange and its sweep. */
  ghost function Moved(st: State, t: Tid): State
    requires t in st.threads && st.threads[t].ExchangeHold? && st.threads[t].token in st.mgr.tokens
  {
    var tok := st.threads[t].token;
    Goto(st, t, AuthWait(st.mgr.tokens[tok].sess, ForRequest))
      .(mgr := Exchanged(st, tok), nextToken := st.nextToken + 1, uses := st.uses + multiset{tok})
  }

  /** What the exchange body does, in one of two ways. */
  lemma ExchangeIs(st: State, t: Tid, randFails: bool, order: seq<Expiry>)
    requires Inv(st) && Enabled(st, ExchangeBody(t, randFails, order))
    ensures var pc, st' := st.threads[t], Apply(st, ExchangeBody(t, randFails, order));
            if Exchanges(st, pc.token, pc.device) && !randFails
            then st' == Retire(Moved(st, t).(mgr := Swept(Exchanged(st, pc.token), order, st.now)))
            else st' == End(st, t).(mgrLock := None)
  {}

  lemma ExpireTables(m: Mgr, x: Expiry)
    requires x.id in Table(m, x.console) && Table(m, x.console)[x.id].sess in m.objs
    ensures Expire(m, x).tokens == if x.console then m.tokens else m.tokens - {x.id}
    ensures Expire(m, x).consoles == if x.console then m.consoles - {x.id} else m.consoles
  {}

  ghost predicate Unexpired(was: map<Token, Entry>, left: map<Token, Entry>, now: int) {
    left == map k | k in was && now < was[k].expires :: was[k]
  }

  /** Whatever order it takes, a sweep leaves exactly the tokens and consoles whose time has not come. */
  lemma {:induction false} SweptExact(m: Mgr, order: seq<Expiry>, now: int)
    requires EntriesKnown(m) && Sweeps(m, order, now)
    ensures Unexpired(m.tokens, Swept(m, order, now).tokens, now)
    ensures Unexpired(m.consoles, Swept(m, order, now).consoles, now)
    decreases |order|
  {
    if order == [] {
      forall k | k in m.tokens ensures now < m.tokens[k].expires { assert !Expired(m, Expiry(false, k), now); }
      forall k | k in m.consoles ensures now < m.consoles[k].expires { assert !Expired(m, Expiry(true, k), now); }
    } else {
      ExpireTables(m, order[0]);
      SweptExact(Expire(m, order[0]), order[1..], now);
    }
  }

  /** A redeemed token is used up and an hour's console opened on its device and session; its request goes on. */
  ghost predicate UsedUp(st: State, st': State, t: Tid, tok: Token)
    requires tok in st.mgr.tokens
  {
    && tok !in st'.mgr.tokens && st'.uses == st.uses + multiset{tok} && st'.nextToken == st.nextToken + 1
    && st.nextToken in st'.mgr.consoles
    && st'.mgr.consoles[st.nextToken] == st.mgr.tokens[tok].(expires := st.now + 3600)
    && t in st'.threads && st'.threads[t] == AuthWait(st.mgr.tokens[tok].sess, ForRequest)
  }

  lemma ExchangeUses(st: State, t: Tid, order: seq<Expiry>)
    requires t in st.threads && st.threads[t].ExchangeHold? && st.threads[t].token in st.mgr.tokens
    requires forall u :: u in st.threads ==> u < st.nextTid
    requires EntriesKnown(Exchanged(st, st.threads[t].token))
    requires Sweeps(Exchanged(st, st.threads[t].token), order, st.now)
    ensures UsedUp(st, Retire(Moved(st, t).(mgr := Swept(Exchanged(st, st.threads[t].token), order, st.now))), t,
              st.threads[t].token)
  {
    var tok := st.threads[t].token;
    SweptExact(Exchanged(st, tok), order, st.now);
    RetireFrame(Moved(st, t).(mgr := Swept(Exchanged(st, tok), order, st.now)));
  }

  lemma RedeemedBound(st: State, t: Tid, order: seq<Expiry>, rec: Record, rec': Record)
    requires Bound(st, rec) && t in st.threads && st.threads[t].ExchangeHold? && st.threads[t].token in st.mgr.tokens
    requires forall u :: u in st.threads ==> u < st.nextTid
    requires EntriesKnown(Exchanged(st, st.threads[t].token))
    requires Sweeps(Exchanged(st, st.threads[t].token), order, st.now)
    requires TokenStands(st.mgr, st.threads[t].token, rec)
    requires var tok := st.threads[t].token;
             rec' == rec.(device := rec.device[st.nextToken := rec.device[tok]],
                          key := rec.key[st.nextToken := rec.key[tok]],
                          entered := rec.entered[st.nextToken := st.now])
    ensures Bound(Retire(Moved(st, t).(mgr := Swept(Exchanged(st, st.threads[t].token), order, st.now))), rec')
  {
    ExchangedBound(st, Moved(st, t), st.threads[t].token, rec, rec');
    SweptBound(Moved(st, t), order, rec');
  }

  lemma ExchangeBound(st: State, t: Tid, randFails: bool, order: seq<Expiry>, rec: Record)
    requires Inv(st) && Enabled(st, ExchangeBody(t, randFails, order)) && Bound(st, rec)
    ensures Bound(Apply(st, ExchangeBody(t, randFails, order)), Noted(st, ExchangeBody(t, randFails, order), rec))
  {
    var step, pc := ExchangeBody(t, randFails, order), st.threads[t];
    ExchangeIs(st, t, randFails, order);
    if Exchanges(st, pc.token, pc.device) && !randFails {
      assert TokenStands(st.mgr, pc.token, rec);
      ExchangeUses(st, t, order);
      RedeemedBound(st, t, order, rec, Noted(st, step, rec));
    } else {
      MovesQuietly(st, End(st, t).(mgrLock := None), t);
      QuietlyBound(st, Apply(st, step), rec);
    }
  }

  lemma QuietStep(st: State, step: Step)
    requires Inv(st) && Enabled(st, step)
    requires !step.NewStart? && !step.StartBody? && !step.InstallBody? && !step.ExchangeBody?
    ensures Quietly(st, Apply(st, step))
  {
    match step
    case LockMgr(_) => LockQuietly(st, step);
    case LockSess(_) => LockQuietly(st, step);
    case AuthBody(t) => AuthQuietly(st, t);
    case LoginOk(t) => LoginQuietly(st, t);
    case LoginFail(t) => LoginFailQuietly(st, t);
    case InvalidateBody(t, retry) => InvalidateQuietly(st, t, retry);
    case RetireBody(t) => RetireQuietly(st, t);
    case ReleaseBody(_) => SweepQuietly(st, step);
    case GcBody(_, _) => SweepQuietly(st, step);
    case NewRequest(_, _, _) => ArriveQuietly(st, step);
    case NewGc => ArriveQuietly(st, step);
    case Tick(_) => ArriveQuietly(st, step);
    case _ => PlainQuietly(st, step);
  }

  lemma StepBound(st: State, step: Step, rec: Record)
    requires Inv(st) && Enabled(st, step) && Bound(st, rec)
    ensures Bound(Apply(st, step), Noted(st, step, rec))
  {
    if step.NewStart? {
      NewStartBound(st, step, rec);
    } else if step.StartBody? {
      StartBound(st, step.t, rec);
    } else if step.InstallBody? {
      InstallBound(st, step.t, step.order, rec);
    } else if step.ExchangeBody? {
      ExchangeBound(st, step.t, step.randFails, step.order, rec);
    } else {
      QuietStepBound(st, step, rec);
    }
  }

  lemma QuietStepBound(st: State, step: Step, rec: Record)
    requires Inv(st) && Enabled(st, step) && Bound(st, rec)
    requires !step.NewStart? && !step.StartBody? && !step.InstallBody? && !step.ExchangeBody?
    ensures Bound(Apply(st, step), rec) && Noted(st, step, rec) == rec
  {
    QuietStep(st, step);
    QuietlyBound(st, Apply(st, step), rec);
  }

  // ---- every run

  const BLANK := Record(map[], map[], map[], map[], map[])

  lemma {:induction false} RunBound(st: State, steps: seq<Step>, rec: Record)
    requires Inv(st) && Possible(st, steps) && Bound(st, rec)
    ensures Bound(Run(st, steps), Noting(st, steps, rec))
    decreases |steps|
  {
    if steps != [] {
      StepInv(st, steps[0]);
      StepBound(st, steps[0], rec);
      RunBound(Apply(st, steps[0]), steps[1..], Noted(st, steps[0], rec));
    }
  }

  lemma Reached(now: int, steps: seq<Step>)
    requires Possible(Initial(now), steps)
    ensures Inv(Run(Initial(now), steps)) && Bound(Run(Initial(now), steps), Noting(Initial(now), steps, BLANK))
  {
    RunInv(now, steps);
    InitialInv(now);
    RunBound(Initial(now), steps, BLANK);
  }

  /** After any run a token or console carries the device and the login of its start, for 60 s or an hour. */
  lemma EntriesStand(now: int, steps: seq<Step>, k: Token)
    requires Possible(Initial(now), steps)
    ensures var st, rec := Run(Initial(now), steps), Noting(Initial(now), steps, BLANK);
            && (k in st.mgr.tokens ==> TokenStands(st.mgr, k, rec))
            && (k in st.mgr.consoles ==> ConsoleStands(st.mgr, k, rec))
  {
    Reached(now, steps);
  }

  /** A token that can be redeemed for the device: stored, issued for it, at most 60 s ago. */
  ghost predicate Redeems(st: State, rec: Record, tok: Token, device: string) {
    && tok in st.mgr.tokens && tok in rec.device && rec.device[tok] == device
    && tok in rec.made && st.now < rec.made[tok] + 60
  }

  /**
   After any run a request with a start token opens a console exactly when the token can be redeemed for
   the request's own device; otherwise no token, no console and no use changes.
   */
  lemma ExchangeOnlyOwn(now: int, steps: seq<Step>, t: Tid, randFails: bool, order: seq<Expiry>)
    requires Possible(Initial(now), steps)
    requires var st := Run(Initial(now), steps); Known(st) && Enabled(st, ExchangeBody(t, randFails, order))
    ensures var st, rec := Run(Initial(now), steps), Noting(Initial(now), steps, BLANK);
            var pc, st' := st.threads[t], Apply(st, ExchangeBody(t, randFails, order));
            if Redeems(st, rec, pc.token, pc.device) && !randFails then UsedUp(st, st', t, pc.token)
            else
              && st'.mgr.tokens == st.mgr.tokens && st'.mgr.consoles == st.mgr.consoles && st'.uses == st.uses
              && t !in st'.threads
  {
    Reached(now, steps);
    ExchangeOwn(Run(Initial(now), steps), t, randFails, order, Noting(Initial(now), steps, BLANK));
  }

  lemma ExchangeOwn(st: State, t: Tid, randFails: bool, order: seq<Expiry>, rec: Record)
    requires Inv(st) && Enabled(st, ExchangeBody(t, randFails, order)) && Bound(st, rec)
    ensures var pc, st' := st.threads[t], Apply(st, ExchangeBody(t, randFails, order));
            if Redeems(st, rec, pc.token, pc.device) && !randFails then UsedUp(st, st', t, pc.token)
            else st' == End(st, t).(mgrLock := None)
  {
    var pc := st.threads[t];
    ExchangeIs(st, t, randFails, order);
    if pc.token in st.mgr.tokens { assert TokenStands(st.mgr, pc.token, rec); }
    if Exchanges(st, pc.token, pc.device) && !randFails { ExchangeUses(st, t, order); }
  }

  /** A console that admits requests for the device: stored, of a start for it, at most an hour old. */
  ghost predicate Admits(st: State, rec: Record, tok: Token, device: string) {
    && tok in st.mgr.consoles && tok in rec.device && rec.device[tok] == device
    && tok in rec.entered && st.now < rec.entered[tok] + 3600
  }

  /** After any run a request with a console goes on, on the console's session, exactly when it is admitted. */
  lemma ConsoleOnlyOwn(now: int, steps: seq<Step>, t: Tid)
    requires Possible(Initial(now), steps)
    requires var st := Run(Initial(now), steps); Known(st) && Enabled(st, ConsoleBody(t))
    ensures var st, rec := Run(Initial(now), steps), Noting(Initial(now), steps, BLANK);
            var pc, st' := st.threads[t], Apply(st, ConsoleBody(t));
            && st'.mgr == st.mgr && st'.uses == st.uses
            && if Admits(st, rec, pc.token, pc.device)
               then t in st'.threads && st'.threads[t] == AuthWait(st.mgr.consoles[pc.token].sess, ForRequest)
               else t !in st'.threads
  {
    var st, rec := Run(Initial(now), steps), Noting(Initial(now), steps, BLANK);
    Reached(now, steps);
    var pc := st.threads[t];
    if pc.token in st.mgr.consoles { assert ConsoleStands(st.mgr, pc.token, rec); }
  }

  /** After any run a registered session logs in with the password of the latest start for its host and user. */
  lemma LatestPassword(now: int, steps: seq<Step>, t: Tid)
    requires Possible(Initial(now), steps)
    requires var st := Run(Initial(now), steps); Known(st) && Enabled(st, CredsBody(t))
    ensures var st, rec := Run(Initial(now), steps), Noting(Initial(now), steps, BLANK);
            var s, st' := st.threads[t].s, Apply(st, CredsBody(t));
            var key := st.mgr.objs[s].key;
            && t in st'.threads && st'.threads[t].Login? && st'.threads[t].s == s
            && (key in st.mgr.sessions && st.mgr.sessions[key] == s ==>
                  key in rec.password && st'.threads[t].password == rec.password[key])
  {
    Reached(now, steps);
  }

  /** A sweep over a reachable state ends exactly the tokens of 60 s ago and the consoles of an hour ago. */
  lemma SweepByAge(now: int, steps: seq<Step>, t: Tid, order: seq<Expiry>, k: Token)
    requires Possible(Initial(now), steps)
    requires var st := Run(Initial(now), steps); Known(st) && Enabled(st, GcBody(t, order))
    ensures var st, rec := Run(Initial(now), steps), Noting(Initial(now), steps, BLANK);
            var m' := Apply(st, GcBody(t, order)).mgr;
            && (k in m'.tokens <==> k in st.mgr.tokens && k in rec.made && st.now - rec.made[k] < 60)
            && (k in m'.consoles <==> k in st.mgr.consoles && k in rec.entered && st.now - rec.entered[k] < 3600)
  {
    var st, rec := Run(Initial(now), steps), Noting(Initial(now), steps, BLANK);
    Reached(now, steps);
    SweptExact(st.mgr, order, st.now);
    RetireFrame(End(st, t).(mgr := Swept(st.mgr, order, st.now)));
    if k in st.mgr.tokens { assert TokenStands(st.mgr, k, rec); }
    if k in st.mgr.consoles { assert ConsoleStands(st.mgr, k, rec); }
  }

  // ---- logins

  /** A login is stored with its time. */
  lemma LoginStamped(st: State, t: Tid)
    requires Known(st) && Enabled(st, LoginOk(t))
    ensures var s, st' := st.threads[t].s, Apply(st, LoginOk(t));
            && st'.mgr == st.mgr.(objs := st'.mgr.objs) && st'.mgr.objs.Keys == st.mgr.objs.Keys
            && st'.mgr.objs[s].auth == Some(st.nextCred) && st'.mgr.objs[s].loggedAt == st.now
  {}

  /** A refused login is given up exactly when it is still the session's and at least 10 s old. */
  lemma DroppedWhenOld(st: State, t: Tid, retry: bool)
    requires Known(st) && Enabled(st, InvalidateBody(t, retry)) && st.nextTid !in st.threads
    ensures var pc, st' := st.threads[t], Apply(st, InvalidateBody(t, retry));
            var o := st.mgr.objs[pc.s];
            if o.auth == Some(pc.a) && st.now - o.loggedAt >= 10 then
              && st'.mgr == st.mgr.(objs := st.mgr.objs[pc.s := o.(auth := None)])
              && st.nextTid in st'.threads && st'.threads[st.nextTid] == Logout(pc.a)
              && (if retry then t in st'.threads && st'.threads[t] == AuthWait(pc.s, ForRequest) else t !in st'.threads)
            else st'.mgr == st.mgr && st'.threads == st.threads - {t}
  {}

  /** A request uses the login its open session has, and makes one only when there is none; a closed session ends it. */
  lemma RequestUsesLogin(st: State, t: Tid)
    requires Known(st) && Enabled(st, AuthBody(t)) && st.threads[t].k == ForRequest
    ensures var s, st' := st.threads[t].s, Apply(st, AuthBody(t));
            var o := st.mgr.objs[s];
            && st'.mgr == st.mgr
            && (o.closed ==> t !in st'.threads)
            && (!o.closed ==>
                  && t in st'.threads
                  && st'.threads[t] == if o.auth.Some? then Proxying(s, o.auth.value) else CredsWait(s, ForRequest))
  {}
}
