/** The critical sections of Manager.mu as the code runs them, proved against `Kvm`'s functions. */
module KvmManager {
  import opened Wrappers
  import opened Kvm
  import opened KvmRuns

  /** After the expiries in `order`, `m0` has become `m`: whatever still sweeps `m` completes `order`. */
  ghost predicate SweptSoFar(m0: Mgr, order: seq<Expiry>, m: Mgr, now: int) {
    && EntriesKnown(m0) && EntriesKnown(m)
    && forall rest :: Sweeps(m, rest, now) ==>
         Sweeps(m0, order + rest, now) && Swept(m0, order + rest, now) == Swept(m, rest, now)
  }

  lemma SweptNone(m: Mgr, now: int)
    requires EntriesKnown(m)
    ensures SweptSoFar(m, [], m, now)
  {
    forall rest | Sweeps(m, rest, now)
      ensures Sweeps(m, [] + rest, now) && Swept(m, [] + rest, now) == Swept(m, rest, now)
    {
      assert [] + rest == rest;
    }
  }

  lemma SweptOneRest(m: Mgr, x: Expiry, rest: seq<Expiry>, now: int)
    requires EntriesKnown(m) && Expired(m, x, now) && EntriesKnown(Expire(m, x)) && Sweeps(Expire(m, x), rest, now)
    ensures Sweeps(m, [x] + rest, now) && Swept(m, [x] + rest, now) == Swept(Expire(m, x), rest, now)
  {
    assert ([x] + rest)[1..] == rest;
  }

  lemma SweptOne(m0: Mgr, order: seq<Expiry>, m: Mgr, x: Expiry, now: int)
    requires SweptSoFar(m0, order, m, now) && Expired(m, x, now)
    ensures SweptSoFar(m0, order + [x], Expire(m, x), now)
  {
    ExpireShorter(m, x);
    var m' := Expire(m, x);
    forall rest | Sweeps(m', rest, now)
      ensures Sweeps(m0, order + [x] + rest, now) && Swept(m0, order + [x] + rest, now) == Swept(m', rest, now)
    {
      SweptOneRest(m, x, rest, now);
      assert order + [x] + rest == order + ([x] + rest);
    }
  }

  lemma SweptAll(m0: Mgr, order: seq<Expiry>, m: Mgr, now: int)
    requires SweptSoFar(m0, order, m, now) && forall x :: !Expired(m, x, now)
    ensures Sweeps(m0, order, now) && Swept(m0, order, now) == m
  {
    assert Sweeps(m, [], now);
    assert order + [] == order;
  }

  class Manager {
    var tokens: map<Token, Entry>
    var consoles: map<Token, Entry>
    var sessions: map<Key, SessId>
    var dead: seq<SessId>
    var objs: map<SessId, Session>
    var nextSess: SessId

    constructor ()
      ensures Data() == Mgr(map[], map[], map[], [], map[], 0)
    {
      tokens, consoles, sessions, dead, objs, nextSess := map[], map[], map[], [], map[], 0;
    }

    function Data(): Mgr
      reads this
    {
      Mgr(tokens, consoles, sessions, dead, objs, nextSess)
    }

    ghost predicate Valid()
      reads this
    {
      EntriesKnown(Data()) && forall k :: k in sessions ==> sessions[k] in objs
    }

    method AcquireLocked(key: Key, password: string) returns (s: SessId)
      requires Valid()
      modifies this
      ensures Valid() && s == Acquired(old(Data()), key) && Data() == Acquire(old(Data()), key, password)
    {
      if key in sessions {
        s := sessions[key];
        objs := objs[s := objs[s].(refs := objs[s].refs + 1, password := password)];
      } else {
        s := nextSess;
        nextSess := nextSess + 1;
        sessions := sessions[key := s];
        objs := objs[s := Session(key, 1, password, None, 0, false)];
      }
    }

    method ReleaseLocked(s: SessId)
      requires Valid() && s in objs
      modifies this
      ensures Valid() && Data() == Release(old(Data()), s)
    {
      objs := objs[s := objs[s].(refs := objs[s].refs - 1)];
      if objs[s].refs > 0 {
        return;
      }
      if objs[s].key in sessions && sessions[objs[s].key] == s {
        sessions := sessions - {objs[s].key};
      }
      dead := dead + [s];
    }

    /** One expired entry leaves its table and its session loses a holder. */
    method DropEntry(console: bool, k: Token)
      requires Valid() && k in Table(Data(), console)
      modifies this
      ensures Valid() && Data() == Expire(old(Data()), Expiry(console, k))
    {
      var s := Table(Data(), console)[k].sess;
      if console {
        consoles := consoles - {k};
      } else {
        tokens := tokens - {k};
      }
      ReleaseLocked(s);
    }

    /** One pass of gcLocked over a table, in whatever order the map yields its keys. */
    method SweepTable(console: bool, now: int, ghost m0: Mgr, ghost done: seq<Expiry>)
      returns (ghost order: seq<Expiry>)
      requires Valid() && SweptSoFar(m0, done, Data(), now)
      modifies this
      ensures Valid() && SweptSoFar(m0, order, Data(), now)
      ensures forall k :: k in Table(Data(), console) ==> now < Table(Data(), console)[k].expires
      ensures Table(Data(), !console) == old(Table(Data(), !console))
    {
      order := done;
      ghost var start := Data();
      var keys := Table(Data(), console).Keys;
      while keys != {}
        invariant Valid() && SweptSoFar(m0, order, Data(), now)
        invariant keys <= Table(Data(), console).Keys
        invariant forall k :: k in Table(Data(), console) && k !in keys ==> now < Table(Data(), console)[k].expires
        invariant Table(Data(), !console) == Table(start, !console)
        decreases keys
      {
        var k :| k in keys;
        keys := keys - {k};
        if now >= Table(Data(), console)[k].expires {
          SweptOne(m0, order, Data(), Expiry(console, k), now);
          order := order + [Expiry(console, k)];
          DropEntry(console, k);
        }
      }
    }

    method GcLocked(now: int) returns (ghost order: seq<Expiry>)
      requires Valid()
      modifies this
      ensures Valid() && Sweeps(old(Data()), order, now) && Data() == Swept(old(Data()), order, now)
    {
      ghost var m0 := Data();
      SweptNone(m0, now);
      order := SweepTable(false, now, m0, []);
      order := SweepTable(true, now, m0, order);
      assert Table(Data(), false) == tokens;
      forall x ensures !Expired(Data(), x, now) {
        assert Table(Data(), x.console) == if x.console then consoles else tokens;
      }
      SweptAll(m0, order, Data(), now);
    }
  }
}
