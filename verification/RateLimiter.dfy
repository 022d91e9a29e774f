/** The per-key sliding-window limiter of the credentials test endpoint (internal/httpapi/snmp.go). */
module RateLimiter {

  /** One answered request. */
  datatype Request = Request(key: string, at: int, allowed: bool)

  function Hit(r: Request, key: string): seq<int> {
    if r.key == key && r.allowed then [r.at] else []
  }

  /** Times of the allowed requests of one key, oldest first. */
  function AllowedTimes(h: seq<Request>, key: string): seq<int> {
    if h == [] then [] else AllowedTimes(h[..|h| - 1], key) + Hit(h[|h| - 1], key)
  }

  function Young(t: int, now: int, window: int): seq<int> {
    if now - t < window then [t] else []
  }

  /** The times less than `window` before `now`. */
  function Recent(ts: seq<int>, now: int, window: int): seq<int> {
    if ts == [] then [] else Recent(ts[..|ts| - 1], now, window) + Young(ts[|ts| - 1], now, window)
  }

  ghost predicate Ordered(h: seq<Request>) {
    forall i, j :: 0 <= i < j < |h| ==> h[i].at <= h[j].at
  }

  /** The request after `before` was answered from the full history of allowed ones. */
  predicate Fair(before: seq<Request>, r: Request, per: int, window: int) {
    r.allowed <==> |Recent(AllowedTimes(before, r.key), r.at, window)| < per
  }

  ghost predicate Decided(h: seq<Request>, per: int, window: int) {
    forall i :: 0 <= i < |h| ==> Fair(h[..i], h[i], per, window)
  }

  // ---- consequences of the decision rule

  /** Allowed requests of `key` in the half-open window (t - window, t]. */
  function Load(h: seq<Request>, key: string, t: int, window: int): nat {
    if h == [] then 0
    else
      var r := h[|h| - 1];
      Load(h[..|h| - 1], key, t, window)
      + (if r.key == key && r.allowed && t - window < r.at <= t then 1 else 0)
  }

  /** What a window ending at `t` holds was recent for a request made at `at <= t`. */
  lemma {:induction false} LoadIsRecent(h: seq<Request>, key: string, t: int, at: int, window: int)
    requires at <= t && forall i :: 0 <= i < |h| ==> h[i].at <= at
    ensures Load(h, key, t, window) <= |Recent(AllowedTimes(h, key), at, window)|
  {
    if h != [] {
      var h', r := h[..|h| - 1], h[|h| - 1];
      LoadIsRecent(h', key, t, at, window);
      if Hit(r, key) != [] {
        RecentAppend(AllowedTimes(h', key), r.at, at, window);
      } else {
        assert AllowedTimes(h, key) == AllowedTimes(h', key);
      }
    }
  }

  lemma DecidedPrefix(h: seq<Request>, n: nat, per: int, window: int)
    requires n <= |h| && Ordered(h) && Decided(h, per, window)
    ensures Ordered(h[..n]) && Decided(h[..n], per, window)
  {
    forall i | 0 <= i < n ensures Fair(h[..n][..i], h[..n][i], per, window) {
      assert h[..n][..i] == h[..i];
    }
  }

  /** A window that ends with an allowed request was judged when that request came. */
  lemma LastHitBound(h: seq<Request>, per: int, window: int, key: string, t: int)
    requires h != [] && Ordered(h) && Decided(h, per, window)
    requires var r := h[|h| - 1]; r.key == key && r.allowed && t - window < r.at <= t
    ensures Load(h, key, t, window) <= per
  {
    var n := |h| - 1;
    assert Fair(h[..n], h[n], per, window);
    LoadIsRecent(h[..n], key, t, h[n].at, window);
  }

  /** No window of length `window` ever holds more than `per` allowed requests of a key. */
  lemma {:induction false} WindowBound(h: seq<Request>, per: int, window: int, key: string, t: int)
    requires Ordered(h) && Decided(h, per, window)
    ensures Load(h, key, t, window) <= if per > 0 then per else 0
  {
    if h != [] {
      var n := |h| - 1;
      var r := h[n];
      if r.key == key && r.allowed && t - window < r.at <= t {
        LastHitBound(h, per, window, key, t);
      } else {
        DecidedPrefix(h, n, per, window);
        WindowBound(h[..n], per, window, key, t);
      }
    }
  }

  /** An allowed request of the key less than `window` before `now`. */
  predicate Matters(r: Request, key: string, now: int, window: int) {
    r.key == key && r.allowed && now - r.at < window
  }

  /** Those among the first `n`, by position. */
  function Earlier(h: seq<Request>, n: nat, key: string, now: int, window: int): set<int>
    requires n <= |h|
  {
    set j | 0 <= j < n && Matters(h[j], key, now, window)
  }

  lemma EarlierMore(h: seq<Request>, n: nat, key: string, now: int, window: int)
    requires n < |h|
    ensures |Earlier(h, n + 1, key, now, window)|
         == |Earlier(h, n, key, now, window)| + if Matters(h[n], key, now, window) then 1 else 0
  {
    assert Earlier(h, n + 1, key, now, window)
        == Earlier(h, n, key, now, window) + if Matters(h[n], key, now, window) then {n} else {};
  }

  lemma RecentMore(h: seq<Request>, r: Request, key: string, now: int, window: int)
    ensures |Recent(AllowedTimes(h + [r], key), now, window)|
         == |Recent(AllowedTimes(h, key), now, window)| + if Matters(r, key, now, window) then 1 else 0
  {
    AllowedAppend(h, r, key);
    if Hit(r, key) == [] {
      assert AllowedTimes(h, key) + [] == AllowedTimes(h, key);
    } else {
      RecentAppend(AllowedTimes(h, key), r.at, now, window);
    }
  }

  /** How many of the first `n` requests the window rule counts. */
  function Counted(h: seq<Request>, n: nat, key: string, now: int, window: int): nat
    requires n <= |h|
  {
    |Recent(AllowedTimes(h[..n], key), now, window)|
  }

  lemma CountedMore(h: seq<Request>, n: nat, key: string, now: int, window: int)
    requires n < |h|
    ensures Counted(h, n + 1, key, now, window)
         == Counted(h, n, key, now, window) + if Matters(h[n], key, now, window) then 1 else 0
  {
    var a, b := h[..n], h[..n + 1];
    assert b == a + [h[n]];
    assert AllowedTimes(b, key) == AllowedTimes(a + [h[n]], key);
    RecentMore(a, h[n], key, now, window);
  }

  lemma CountedEarlier(h: seq<Request>, n: nat, key: string, now: int, window: int)
    requires n <= |h|
    ensures Counted(h, n, key, now, window) == |Earlier(h, n, key, now, window)|
  {
    assert h[..0] == [] && Earlier(h, 0, key, now, window) == {};
    for k := 0 to n
      invariant Counted(h, k, key, now, window) == |Earlier(h, k, key, now, window)|
    {
      EarlierMore(h, k, key, now, window);
      CountedMore(h, k, key, now, window);
    }
  }

  /** A request is allowed exactly when fewer than `per` requests of its key were allowed in the window before it. */
  lemma AllowedIff(h: seq<Request>, i: nat, per: int, window: int)
    requires Decided(h, per, window) && i < |h|
    ensures h[i].allowed <==> |Earlier(h, i, h[i].key, h[i].at, window)| < per
  {
    assert Fair(h[..i], h[i], per, window);
    CountedEarlier(h, i, h[i].key, h[i].at, window);
  }

  // ---- one key of the index against the history

  lemma RecentAppend(ts: seq<int>, t: int, now: int, window: int)
    ensures Recent(ts + [t], now, window) == Recent(ts, now, window) + Young(t, now, window)
  {
    assert (ts + [t])[..|ts|] == ts;
  }

  lemma AllowedAppend(h: seq<Request>, r: Request, key: string)
    ensures AllowedTimes(h + [r], key) == AllowedTimes(h, key) + Hit(r, key)
  {
    assert (h + [r])[..|h|] == h;
  }

  /** Pruning at `now` loses nothing that counts at a later time. */
  lemma {:induction false} PruneKeeps(ts: seq<int>, now: int, later: int, window: int)
    requires now <= later
    ensures Recent(Recent(ts, now, window), later, window) == Recent(ts, later, window)
  {
    if ts != [] {
      var ts', t := ts[..|ts| - 1], ts[|ts| - 1];
      PruneKeeps(ts', now, later, window);
      if now - t < window {
        RecentAppend(Recent(ts', now, window), t, later, window);
      } else {
        assert Recent(ts, now, window) == Recent(ts', now, window);
        assert Recent(ts, later, window) == Recent(ts', later, window);
      }
    }
  }

  lemma {:induction false} AllExpired(ts: seq<int>, now: int, window: int)
    requires forall i :: 0 <= i < |ts| ==> now - ts[i] >= window
    ensures Recent(ts, now, window) == []
  {
    if ts != [] {
      AllExpired(ts[..|ts| - 1], now, window);
    }
  }

  ghost predicate Ascending(ts: seq<int>, upTo: int) {
    && (forall i, j :: 0 <= i < j < |ts| ==> ts[i] <= ts[j])
    && (forall i :: 0 <= i < |ts| ==> ts[i] <= upTo)
  }

  lemma {:induction false} RecentAscending(ts: seq<int>, now: int, window: int, upTo: int)
    requires Ascending(ts, upTo)
    ensures Ascending(Recent(ts, now, window), if ts == [] then upTo else ts[|ts| - 1])
  {
    if ts != [] {
      var ts' := ts[..|ts| - 1];
      RecentAscending(ts', now, window, upTo);
    }
  }

  /** A stored slice answers every later question like the whole history of the key. */
  ghost predicate KeyOk(ts: seq<int>, all: seq<int>, now: int, window: int) {
    && Ascending(ts, now)
    && (forall later :: now <= later ==> Recent(ts, later, window) == Recent(all, later, window))
  }

  lemma KeyEvict(ts: seq<int>, all: seq<int>, now: int, window: int)
    requires KeyOk(ts, all, now, window)
    requires |ts| == 0 || now - ts[|ts| - 1] >= window
    ensures KeyOk([], all, now, window)
  {
    forall later | now <= later ensures Recent([], later, window) == Recent(all, later, window) {
      AllExpired(ts, later, window);
    }
  }

  lemma KeyPrune(ts: seq<int>, all: seq<int>, now: int, window: int)
    requires KeyOk(ts, all, now, window)
    ensures KeyOk(Recent(ts, now, window), all, now, window)
  {
    RecentAscending(ts, now, window, now);
    forall later | now <= later
      ensures Recent(Recent(ts, now, window), later, window) == Recent(all, later, window)
    {
      PruneKeeps(ts, now, later, window);
    }
  }

  lemma KeyHit(ts: seq<int>, all: seq<int>, now: int, window: int)
    requires KeyOk(ts, all, now, window)
    ensures KeyOk(ts + [now], all + [now], now, window)
  {
    forall later | now <= later
      ensures Recent(ts + [now], later, window) == Recent(all + [now], later, window)
    {
      RecentAppend(ts, now, later, window);
      RecentAppend(all, now, later, window);
    }
  }

  function Stored(hits: map<string, seq<int>>, key: string): seq<int> {
    if key in hits then hits[key] else []
  }

  ghost predicate IndexOk(hits: map<string, seq<int>>, h: seq<Request>, now: int, window: int) {
    forall key :: KeyOk(Stored(hits, key), AllowedTimes(h, key), now, window)
  }

  lemma IndexLater(hits: map<string, seq<int>>, h: seq<Request>, now: int, later: int, window: int)
    requires IndexOk(hits, h, now, window) && now <= later
    ensures IndexOk(hits, h, later, window)
  {
    forall key ensures KeyOk(Stored(hits, key), AllowedTimes(h, key), later, window) {
      assert KeyOk(Stored(hits, key), AllowedTimes(h, key), now, window);
    }
  }

  /** One entry replaced: the others still answer for the unchanged part of the history. */
  lemma IndexPut(hits: map<string, seq<int>>, h: seq<Request>, r: Request, ts: seq<int>, window: int)
    requires IndexOk(hits, h, r.at, window)
    requires KeyOk(ts, AllowedTimes(h, r.key) + Hit(r, r.key), r.at, window)
    ensures IndexOk(hits[r.key := ts], h + [r], r.at, window)
  {
    forall key ensures KeyOk(Stored(hits[r.key := ts], key), AllowedTimes(h + [r], key), r.at, window) {
      AllowedAppend(h, r, key);
      if key != r.key {
        assert AllowedTimes(h, key) + [] == AllowedTimes(h, key);
        assert KeyOk(Stored(hits, key), AllowedTimes(h, key), r.at, window);
      }
    }
  }

  /** The entry written for a request: pruned, plus the request when it is allowed. */
  lemma EntryOk(ts: seq<int>, all: seq<int>, r: Request, window: int)
    requires KeyOk(ts, all, r.at, window)
    ensures Recent(ts, r.at, window) == Recent(all, r.at, window)
    ensures KeyOk(Recent(ts, r.at, window) + Hit(r, r.key), all + Hit(r, r.key), r.at, window)
  {
    KeyPrune(ts, all, r.at, window);
    if r.allowed {
      KeyHit(Recent(ts, r.at, window), all, r.at, window);
    } else {
      assert all + [] == all && Recent(ts, r.at, window) + [] == Recent(ts, r.at, window);
    }
  }

  /** The limiter's state is sound at `now`: past answers were fair, the index can answer on. */
  ghost predicate Sound(hits: map<string, seq<int>>, h: seq<Request>, now: int, per: int, window: int) {
    && Ordered(h) && Decided(h, per, window)
    && (forall i :: 0 <= i < |h| ==> h[i].at <= now)
    && IndexOk(hits, h, now, window)
  }

  lemma SoundLater(hits: map<string, seq<int>>, h: seq<Request>, now: int, later: int, per: int, window: int)
    requires Sound(hits, h, now, per, window) && now <= later
    ensures Sound(hits, h, later, per, window)
  {
    IndexLater(hits, h, now, later, window);
  }

  lemma StoredEvict(hits: map<string, seq<int>>, k: string, key: string)
    ensures Stored(hits - {k}, key) == if key == k then [] else Stored(hits, key)
  {}

  lemma IndexEvict(hits: map<string, seq<int>>, h: seq<Request>, k: string, now: int, window: int)
    requires IndexOk(hits, h, now, window) && k in hits
    requires |hits[k]| == 0 || now - hits[k][|hits[k]| - 1] >= window
    ensures IndexOk(hits - {k}, h, now, window)
  {
    forall key ensures KeyOk(Stored(hits - {k}, key), AllowedTimes(h, key), now, window) {
      StoredEvict(hits, k, key);
      assert KeyOk(Stored(hits, key), AllowedTimes(h, key), now, window);
      if key == k { KeyEvict(hits[k], AllowedTimes(h, k), now, window); }
    }
  }

  lemma SoundEvict(hits: map<string, seq<int>>, h: seq<Request>, k: string, now: int, per: int, window: int)
    requires Sound(hits, h, now, per, window) && k in hits
    requires |hits[k]| == 0 || now - hits[k][|hits[k]| - 1] >= window
    ensures Sound(hits - {k}, h, now, per, window)
  {
    IndexEvict(hits, h, k, now, window);
  }

  /** Answering from the pruned entry is answering from the full history, and stays sound. */
  lemma SoundAllow(hits: map<string, seq<int>>, h: seq<Request>, r: Request, per: int, window: int)
    requires Sound(hits, h, r.at, per, window)
    requires r.allowed <==> |Recent(Stored(hits, r.key), r.at, window)| < per
    ensures Fair(h, r, per, window)
    ensures Sound(hits[r.key := Recent(Stored(hits, r.key), r.at, window) + Hit(r, r.key)], h + [r], r.at, per, window)
  {
    assert KeyOk(Stored(hits, r.key), AllowedTimes(h, r.key), r.at, window);
    EntryOk(Stored(hits, r.key), AllowedTimes(h, r.key), r, window);
    IndexPut(hits, h, r, Recent(Stored(hits, r.key), r.at, window) + Hit(r, r.key), window);
    Extends(h, r, per, window);
  }

  lemma Extends(h: seq<Request>, r: Request, per: int, window: int)
    requires Ordered(h) && Decided(h, per, window) && Fair(h, r, per, window)
    requires forall i :: 0 <= i < |h| ==> h[i].at <= r.at
    ensures Ordered(h + [r]) && Decided(h + [r], per, window)
  {
    forall i | 0 <= i < |h + [r]| ensures Fair((h + [r])[..i], (h + [r])[i], per, window) {
      assert (h + [r])[..i] == h[..i];
      assert h[..|h|] == h;
    }
  }

  const MAX_LIMITER_KEYS := 10000

  class Limiter {
    const per: int
    const window: int
    var hits: map<string, seq<int>>
    ghost var clock: int
    ghost var history: seq<Request>

    ghost predicate Valid()
      reads this
    {
      Sound(hits, history, clock, per, window)
    }

    constructor (per: int, window: int, ghost now: int)
      ensures Valid() && history == [] && clock == now && this.per == per && this.window == window
    {
      this.per, this.window := per, window;
      hits, history, clock := map[], [], now;
    }

    /** With too many keys, drop those without a request inside the window. */
    method Evict(now: int)
      requires Sound(hits, history, now, per, window)
      modifies this`hits
      ensures Sound(hits, history, now, per, window)
    {
      if |hits| < MAX_LIMITER_KEYS {
        return;
      }
      var todo := hits.Keys;
      while todo != {}
        invariant todo <= hits.Keys
        invariant Sound(hits, history, now, per, window)
        decreases todo
      {
        var k :| k in todo;
        var ts := hits[k];
        if |ts| == 0 || now - ts[|ts| - 1] >= window {
          SoundEvict(hits, history, k, now, per, window);
          hits := hits - {k};
        }
        todo := todo - {k};
      }
    }

    /** The timestamps inside the window move to the front of the buffer; `n` of them are kept. */
    method Compact(buf: array<int>, now: int) returns (n: nat)
      modifies buf
      ensures n <= buf.Length && buf[..n] == Recent(old(buf[..]), now, window)
    {
      ghost var ts := buf[..];
      n := 0;
      for i := 0 to buf.Length
        invariant n <= i && buf[i..] == ts[i..]
        invariant buf[..n] == Recent(ts[..i], now, window)
      {
        assert buf[i] == buf[i..][0] == ts[i] && ts[..i + 1][..i] == ts[..i];
        ghost var rest := buf[i..][1..];
        var t := buf[i];
        if now - t < window {
          buf[n] := t;
          n := n + 1;
        }
        assert buf[i + 1..] == rest == ts[i + 1..];
      }
      assert ts[..|ts|] == ts;
    }

    /** The entry pruned to the window. */
    method Prune(ts: seq<int>, now: int) returns (kept: seq<int>)
      ensures kept == Recent(ts, now, window)
    {
      var buf := new int[|ts|](i requires 0 <= i < |ts| => ts[i]);
      assert buf[..] == ts;
      var n := Compact(buf, now);
      kept := buf[..n];
    }

    /** rateLimiter.allow: answered exactly as the full history of allowed requests demands. */
    method Allow(key: string, now: int) returns (ok: bool)
      requires Valid() && clock <= now
      modifies this`hits, this`history, this`clock
      ensures Valid() && clock == now
      ensures ok <==> |Recent(AllowedTimes(old(history), key), now, window)| < per
      ensures history == old(history) + [Request(key, now, ok)]
    {
      SoundLater(hits, history, clock, now, per, window);
      Evict(now);
      var kept := Prune(Stored(hits, key), now);
      ok := |kept| < per;
      var r := Request(key, now, ok);
      SoundAllow(hits, history, r, per, window);
      hits := hits[key := kept + Hit(r, key)];
      history, clock := history + [r], now;
    }
  }
}
