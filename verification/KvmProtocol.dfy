/**
 Every interleaving of the KVM session manager's threads before Close. A step is one lock
 acquisition, one critical section, one BMC answer or the arrival of new work; locks are
 explicit, so the lock order is a property of the states.
 */
module KvmProtocol {
  import opened Wrappers
  import opened Kvm

  type Tid = nat

  /** What a thread does with the login sessionAuth returns. */
  datatype Cont = ForStart(device: string, token: Token) | ForRequest

  /** Where a thread is: Wait = about to take a lock, Hold = inside its critical section. */
  datatype Pc =
    | StartWait(device: string, key: Key, password: string, token: Token)
    | StartHold(device: string, key: Key, password: string, token: Token)
    | AuthWait(s: SessId, k: Cont)
    | AuthHold(s: SessId, k: Cont)
    | CredsWait(s: SessId, k: Cont)
    | CredsHold(s: SessId, k: Cont)
    | Login(s: SessId, k: Cont, password: string)
    | InstallWait(device: string, token: Token, s: SessId)
    | InstallHold(device: string, token: Token, s: SessId)
    | ReleaseWait(s: SessId)
    | ReleaseHold(s: SessId)
    | ExchangeWait(token: Token, device: string)
    | ExchangeHold(token: Token, device: string)
    | ConsoleWait(token: Token, device: string)
    | ConsoleHold(token: Token, device: string)
    | Proxying(s: SessId, a: Cred)
    | InvalidateWait(s: SessId, a: Cred)
    | InvalidateHold(s: SessId, a: Cred)
    | GcWait
    | GcHold
    | RetireWait(s: SessId)
    | RetireHold(s: SessId)
    | Logout(a: Cred)

  /** `uses` counts the consoles a start token opened, `outs` the logouts of a login. */
  datatype State = State(now: int, mgr: Mgr, threads: map<Tid, Pc>, nextTid: Tid,
                         mgrLock: Option<Tid>, sessLock: map<SessId, Tid>,
                         nextToken: Token, nextCred: Cred, uses: multiset<Token>, outs: multiset<Cred>)

  const TOKEN_TTL := 60
  const CONSOLE_TTL := 3600
  const RELOGIN_AFTER := 10

  // ---- locks

  predicate WantsMgr(pc: Pc) {
    pc.StartWait? || pc.CredsWait? || pc.InstallWait? || pc.ReleaseWait? || pc.ExchangeWait? || pc.ConsoleWait?
      || pc.GcWait?
  }

  predicate HoldsMgr(pc: Pc) {
    pc.StartHold? || pc.CredsHold? || pc.InstallHold? || pc.ReleaseHold? || pc.ExchangeHold? || pc.ConsoleHold?
      || pc.GcHold?
  }

  function WantsSess(pc: Pc): Option<SessId> {
    if pc.AuthWait? || pc.InvalidateWait? || pc.RetireWait? then Some(pc.s) else None
  }

  function HoldsSess(pc: Pc): Option<SessId> {
    if pc.AuthHold? || pc.CredsWait? || pc.CredsHold? || pc.Login? || pc.InvalidateHold? || pc.RetireHold?
    then Some(pc.s) else None
  }

  function Entered(pc: Pc): Pc
    requires WantsMgr(pc) || WantsSess(pc).Some?
  {
    match pc
    case StartWait(d, k, p, t) => StartHold(d, k, p, t)
    case CredsWait(s, k) => CredsHold(s, k)
    case InstallWait(d, t, s) => InstallHold(d, t, s)
    case ReleaseWait(s) => ReleaseHold(s)
    case ExchangeWait(t, d) => ExchangeHold(t, d)
    case ConsoleWait(t, d) => ConsoleHold(t, d)
    case GcWait => GcHold
    case AuthWait(s, k) => AuthHold(s, k)
    case InvalidateWait(s, a) => InvalidateHold(s, a)
    case RetireWait(s) => RetireHold(s)
  }

  // ---- steps

  datatype Step =
    | NewStart(device: string, key: Key, password: string)
    | NewRequest(token: Token, device: string, console: bool)
    | NewGc
    | Tick(d: nat)
    | LockMgr(t: Tid)
    | LockSess(t: Tid)
    | StartBody(t: Tid)
    | AuthBody(t: Tid)
    | CredsBody(t: Tid)
    | LoginOk(t: Tid)
    | LoginFail(t: Tid)
    | InstallBody(t: Tid, order: seq<Expiry>)
    | ReleaseBody(t: Tid)
    | ExchangeBody(t: Tid, randFails: bool, order: seq<Expiry>)
    | ConsoleBody(t: Tid)
    | ProxyEnds(t: Tid)
    | ProxyRefused(t: Tid)
    | InvalidateBody(t: Tid, retry: bool)
    | GcBody(t: Tid, order: seq<Expiry>)
    | RetireBody(t: Tid)
    | LogoutDone(t: Tid)

  function Spawn(st: State, pc: Pc): State {
    st.(threads := st.threads[st.nextTid := pc], nextTid := st.nextTid + 1)
  }

  function Goto(st: State, t: Tid, pc: Pc): State {
    st.(threads := st.threads[t := pc])
  }

  function End(st: State, t: Tid): State {
    st.(threads := st.threads - {t})
  }

  function UnlockSess(st: State, s: SessId): State {
    st.(sessLock := st.sessLock - {s})
  }

  /** unlockAndRetire: release Manager.mu and start one logout goroutine per dead session. */
  function Retire(st: State): State
    decreases |st.mgr.dead|
  {
    if st.mgr.dead == [] then st.(mgrLock := None)
    else Retire(Spawn(st, RetireWait(st.mgr.dead[0])).(mgr := st.mgr.(dead := st.mgr.dead[1..])))
  }

  /** sessionAuth returned a login (or, with None, an error). */
  function Continue(st: State, t: Tid, s: SessId, k: Cont, a: Option<Cred>): State {
    match k
    case ForStart(d, tok) => Goto(st, t, if a.Some? then InstallWait(d, tok, s) else ReleaseWait(s))
    case ForRequest => if a.Some? then Goto(st, t, Proxying(s, a.value)) else End(st, t)
  }

  predicate Exchanges(st: State, tok: Token, device: string) {
    && tok in st.mgr.tokens
    && st.now < st.mgr.tokens[tok].expires
    && st.mgr.tokens[tok].device == device
  }

  /** The manager data after exchange moved a token's binding to a console. */
  function Exchanged(st: State, tok: Token): Mgr
    requires tok in st.mgr.tokens
  {
    var e := st.mgr.tokens[tok];
    st.mgr.(tokens := st.mgr.tokens - {tok},
            consoles := st.mgr.consoles[st.nextToken := e.(expires := st.now + CONSOLE_TTL)])
  }

  function Installed(st: State, pc: Pc): Mgr
    requires pc.InstallHold?
  {
    st.mgr.(tokens := st.mgr.tokens[pc.token := Entry(pc.device, pc.s, st.now + TOKEN_TTL)])
  }

  predicate Blames(st: State, s: SessId, a: Cred)
    requires s in st.mgr.objs
  {
    var o := st.mgr.objs[s];
    o.auth == Some(a) && st.now - o.loggedAt >= RELOGIN_AFTER
  }

  /** Sessions named by program counters and entries exist. */
  ghost predicate Known(st: State) {
    && EntriesKnown(st.mgr)
    && (forall k :: k in st.mgr.sessions ==> st.mgr.sessions[k] in st.mgr.objs)
    && (forall t :: t in st.threads ==> Named(st.threads[t]).None? || Named(st.threads[t]).value in st.mgr.objs)
  }

  function Named(pc: Pc): Option<SessId> {
    match pc
    case AuthWait(s, _) => Some(s)
    case AuthHold(s, _) => Some(s)
    case CredsWait(s, _) => Some(s)
    case CredsHold(s, _) => Some(s)
    case Login(s, _, _) => Some(s)
    case InstallWait(_, _, s) => Some(s)
    case InstallHold(_, _, s) => Some(s)
    case ReleaseWait(s) => Some(s)
    case ReleaseHold(s) => Some(s)
    case Proxying(s, _) => Some(s)
    case InvalidateWait(s, _) => Some(s)
    case InvalidateHold(s, _) => Some(s)
    case RetireWait(s) => Some(s)
    case RetireHold(s) => Some(s)
    case _ => None
  }

  predicate At(st: State, t: Tid) {
    t in st.threads
  }

  /** When a step can happen. */
  ghost predicate Enabled(st: State, step: Step)
    requires Known(st)
  {
    match step
    case NewStart(_, _, _) => true
    case NewRequest(_, _, _) => true
    case NewGc => true
    case Tick(_) => true
    case LockMgr(t) => At(st, t) && WantsMgr(st.threads[t]) && st.mgrLock.None?
    case LockSess(t) => At(st, t) && WantsSess(st.threads[t]).Some? && WantsSess(st.threads[t]).value !in st.sessLock
    case StartBody(t) => At(st, t) && st.threads[t].StartHold?
    case AuthBody(t) => At(st, t) && st.threads[t].AuthHold?
    case CredsBody(t) => At(st, t) && st.threads[t].CredsHold?
    case LoginOk(t) => At(st, t) && st.threads[t].Login?
    case LoginFail(t) => At(st, t) && st.threads[t].Login?
    case InstallBody(t, order) =>
      && At(st, t) && st.threads[t].InstallHold?
      && EntriesKnown(Installed(st, st.threads[t])) && Sweeps(Installed(st, st.threads[t]), order, st.now)
    case ReleaseBody(t) => At(st, t) && st.threads[t].ReleaseHold?
    case ExchangeBody(t, randFails, order) =>
      && At(st, t) && st.threads[t].ExchangeHold?
      && (Exchanges(st, st.threads[t].token, st.threads[t].device) && !randFails ==>
            EntriesKnown(Exchanged(st, st.threads[t].token))
              && Sweeps(Exchanged(st, st.threads[t].token), order, st.now))
    case ConsoleBody(t) => At(st, t) && st.threads[t].ConsoleHold?
    case ProxyEnds(t) => At(st, t) && st.threads[t].Proxying?
    case ProxyRefused(t) => At(st, t) && st.threads[t].Proxying?
    case InvalidateBody(t, _) => At(st, t) && st.threads[t].InvalidateHold?
    case GcBody(t, order) => At(st, t) && st.threads[t].GcHold? && Sweeps(st.mgr, order, st.now)
    case RetireBody(t) => At(st, t) && st.threads[t].RetireHold?
    case LogoutDone(t) => At(st, t) && st.threads[t].Logout?
  }

  /** What a step does. */
  ghost function Apply(st: State, step: Step): State
    requires Known(st) && Enabled(st, step)
  {
    match step
    case NewStart(d, k, p) => Spawn(st, StartWait(d, k, p, st.nextToken)).(nextToken := st.nextToken + 1)
    case NewRequest(tok, d, console) => Spawn(st, if console then ConsoleWait(tok, d) else ExchangeWait(tok, d))
    case NewGc => Spawn(st, GcWait)
    case Tick(d) => st.(now := st.now + d)
    case LockMgr(t) => Goto(st, t, Entered(st.threads[t])).(mgrLock := Some(t))
    case LockSess(t) =>
      Goto(st, t, Entered(st.threads[t])).(sessLock := st.sessLock[WantsSess(st.threads[t]).value := t])
    case StartBody(t) =>
      var pc := st.threads[t];
      Goto(st, t, AuthWait(Acquired(st.mgr, pc.key), ForStart(pc.device, pc.token)))
        .(mgr := Acquire(st.mgr, pc.key, pc.password), mgrLock := None)
    case AuthBody(t) =>
      var pc := st.threads[t];
      var o := st.mgr.objs[pc.s];
      if o.closed then Continue(UnlockSess(st, pc.s), t, pc.s, pc.k, None)
      else if o.auth.Some? then Continue(UnlockSess(st, pc.s), t, pc.s, pc.k, o.auth)
      else Goto(st, t, CredsWait(pc.s, pc.k))
    case CredsBody(t) =>
      var pc := st.threads[t];
      Goto(st, t, Login(pc.s, pc.k, st.mgr.objs[pc.s].password)).(mgrLock := None)
    case LoginOk(t) =>
      var pc := st.threads[t];
      var a := st.nextCred;
      var o := st.mgr.objs[pc.s].(auth := Some(a), loggedAt := st.now);
      Continue(UnlockSess(st, pc.s), t, pc.s, pc.k, Some(a))
        .(mgr := st.mgr.(objs := st.mgr.objs[pc.s := o]), nextCred := a + 1)
    case LoginFail(t) =>
      var pc := st.threads[t];
      Continue(UnlockSess(st, pc.s), t, pc.s, pc.k, None)
    case InstallBody(t, order) =>
      Retire(End(st, t).(mgr := Swept(Installed(st, st.threads[t]), order, st.now)))
    case ReleaseBody(t) =>
      Retire(End(st, t).(mgr := Release(st.mgr, st.threads[t].s)))
    case ExchangeBody(t, randFails, order) =>
      var pc := st.threads[t];
      if !Exchanges(st, pc.token, pc.device) || randFails then Retire(End(st, t))
      else
        var s := st.mgr.tokens[pc.token].sess;
        Retire(Goto(st, t, AuthWait(s, ForRequest))
               .(mgr := Swept(Exchanged(st, pc.token), order, st.now),
                 nextToken := st.nextToken + 1, uses := st.uses + multiset{pc.token}))
    case ConsoleBody(t) =>
      var pc := st.threads[t];
      var c := st.mgr.consoles;
      (if pc.token in c && st.now < c[pc.token].expires && c[pc.token].device == pc.device
       then Goto(st, t, AuthWait(c[pc.token].sess, ForRequest)) else End(st, t)).(mgrLock := None)
    case ProxyEnds(t) => End(st, t)
    case ProxyRefused(t) => Goto(st, t, InvalidateWait(st.threads[t].s, st.threads[t].a))
    case InvalidateBody(t, retry) =>
      var pc := st.threads[t];
      var st1 := UnlockSess(st, pc.s);
      if !Blames(st, pc.s, pc.a) then End(st1, t)
      else
        var m := st.mgr.(objs := st.mgr.objs[pc.s := st.mgr.objs[pc.s].(auth := None)]);
        var st2 := if retry then Goto(st1, t, AuthWait(pc.s, ForRequest)) else End(st1, t);
        Spawn(st2.(mgr := m), Logout(pc.a))
    case GcBody(t, order) =>
      Retire(End(st, t).(mgr := Swept(st.mgr, order, st.now)))
    case RetireBody(t) =>
      var s := st.threads[t].s;
      var o := st.mgr.objs[s];
      var st1 := UnlockSess(st, s).(mgr := st.mgr.(objs := st.mgr.objs[s := o.(auth := None, closed := true)]));
      if o.auth.Some? then Goto(st1, t, Logout(o.auth.value)) else End(st1, t)
    case LogoutDone(t) =>
      End(st, t).(outs := st.outs + multiset{st.threads[t].a})
  }

  function Initial(now: int): State {
    State(now, Mgr(map[], map[], map[], [], map[], 0), map[], 0, None, map[], 0, 0, multiset{}, multiset{})
  }
}
