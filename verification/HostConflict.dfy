/**
 The conflict flag of an address over its whole life: reports by any device, releases,
 administrator clears and edits, in any order with a clock that never goes back.
 */
module HostConflict {
  import opened Wrappers
  import opened HostStore
  import opened HostReport
  import opened HostPlan

  datatype Event =
    | Seen(dev: Id, c: Claim, r: Report)
    | Freed
    | Marked
    | Edited(device: Id)
    | Cleared

  datatype Timed = Timed(event: Event, at: Time)

  /** What an event does to the row's columns. */
  function Next(a: AddrCols, e: Timed, p: Params): AddrCols {
    match e.event
    case Seen(dev, c, r) =>
      var want := Resolved(a, dev, c, r, p.(now := e.at));
      if AddrChanged(a, want) then want.(lastSeen := r.collected) else a
    case Freed => a.(device := 0, iface := "", primary := false, previous := a.device, state := NotReported)
    case Marked => a.(state := NotReported)
    case Edited(d) => a.(device := d)
    case Cleared => a.(conflict := false, moveCount := 0, windowStart := None)
  }

  predicate IsMove(a: AddrCols, e: Timed) {
    e.event.Seen? && HostPlan.Moves(a, e.event.dev)
  }

  /** The row after the first `n` events. */
  function At(a: AddrCols, es: seq<Timed>, n: nat, p: Params): AddrCols
    requires n <= |es|
  {
    if n == 0 then a else Next(At(a, es, n - 1, p), es[n - 1], p)
  }

  /** When the address moved from one device to another, oldest first. */
  function MoveTimes(a: AddrCols, es: seq<Timed>, n: nat, p: Params): seq<Time>
    requires n <= |es|
  {
    if n == 0 then []
    else MoveTimes(a, es, n - 1, p) + (if IsMove(At(a, es, n - 1, p), es[n - 1]) then [es[n - 1].at] else [])
  }

  predicate Ordered(es: seq<Timed>) {
    && (forall i, j :: 0 <= i < j < |es| ==> es[i].at <= es[j].at)
    && (forall i :: 0 <= i < |es| && es[i].event.Seen? ==> es[i].event.dev != 0)
  }

  /** A row that never moved. */
  predicate Unmoved(a: AddrCols) {
    a.movedAt.None? && a.moveCount == 0 && a.windowStart.None? && !a.conflict
  }

  /** The move fields tell the moves since the window began, all within the window. */
  predicate Windowed(a: AddrCols, moves: seq<Time>, window: int) {
    && (a.movedAt == if moves == [] then None else Some(moves[|moves| - 1]))
    && 0 <= a.moveCount <= |moves|
    && (a.windowStart.None? ==> a.moveCount == 0 && !a.conflict)
    && (a.windowStart.Some? ==> a.moveCount >= 1 && moves[|moves| - a.moveCount] == a.windowStart.value)
    && (a.windowStart.Some? ==> forall k :: |moves| - a.moveCount <= k < |moves| ==>
        a.windowStart.value <= moves[k] <= a.windowStart.value + window)
  }

  lemma StepWindowed(a: AddrCols, moves: seq<Time>, e: Timed, p: Params)
    requires Windowed(a, moves, p.conflictWindow) && p.conflictWindow >= 0
    requires forall k :: 0 <= k < |moves| ==> moves[k] <= e.at
    ensures Windowed(Next(a, e, p), if IsMove(a, e) then moves + [e.at] else moves, p.conflictWindow)
  {}

  lemma {:induction false} MovesBefore(a: AddrCols, es: seq<Timed>, n: nat, p: Params, t: Time)
    requires n <= |es| && forall i :: 0 <= i < n ==> es[i].at <= t
    ensures forall k :: 0 <= k < |MoveTimes(a, es, n, p)| ==> MoveTimes(a, es, n, p)[k] <= t
  {
    if n > 0 { MovesBefore(a, es, n - 1, p, t); }
  }

  /** MoveCount is the number of moves since MoveWindowStart, all within the window of it. */
  lemma {:induction false} CountsMoves(a: AddrCols, es: seq<Timed>, n: nat, p: Params)
    requires Unmoved(a) && Ordered(es) && n <= |es| && p.conflictWindow >= 0
    ensures Windowed(At(a, es, n, p), MoveTimes(a, es, n, p), p.conflictWindow)
  {
    if n > 0 {
      CountsMoves(a, es, n - 1, p);
      MovesBefore(a, es, n - 1, p, es[n - 1].at);
      StepWindowed(At(a, es, n - 1, p), MoveTimes(a, es, n - 1, p), es[n - 1], p);
    }
  }

  /** The moves from the k-th on are at least ConflictMoves, and the last came within the window of the k-th. */
  predicate Burst(m: seq<Time>, k: int, p: Params) {
    && 0 <= k < |m| && |m| - k >= p.conflictMoves && m[|m| - 1] - m[k] <= p.conflictWindow
    && forall j :: k <= j < |m| ==> m[k] <= m[j] <= m[|m| - 1]
  }

  /** The flag turns on only by a move that completes ConflictMoves moves within one window. */
  lemma FlaggedOnlyByMoves(a: AddrCols, es: seq<Timed>, n: nat, p: Params)
    requires Unmoved(a) && Ordered(es) && 0 < n <= |es| && p.conflictWindow >= 0
    requires !At(a, es, n - 1, p).conflict && At(a, es, n, p).conflict
    ensures IsMove(At(a, es, n - 1, p), es[n - 1])
    ensures exists k :: Burst(MoveTimes(a, es, n, p), k, p)
  {
    CountsMoves(a, es, n, p);
    MovesBefore(a, es, n, p, es[n - 1].at);
    var b, m := At(a, es, n, p), MoveTimes(a, es, n, p);
    var k := |m| - b.moveCount;
    assert m[k] == b.windowStart.value;
    assert b.moveCount >= p.conflictMoves;
    assert m[|m| - 1] == es[n - 1].at;
    assert Burst(m, k, p);
  }

  /** It turns off only by an administrator, or after a move-free time longer than the window. */
  lemma ClearedOnlyWhenQuiet(a: AddrCols, es: seq<Timed>, n: nat, p: Params)
    requires Unmoved(a) && Ordered(es) && 0 < n <= |es| && p.conflictWindow >= 0
    requires At(a, es, n - 1, p).conflict && !At(a, es, n, p).conflict
    ensures || es[n - 1].event.Cleared?
            || (var m := MoveTimes(a, es, n, p);
              es[n - 1].event.Seen? && m != [] && es[n - 1].at - m[|m| - 1] > p.conflictWindow)
  {
    CountsMoves(a, es, n - 1, p);
  }

  /** Conversely a report that finds the address quiet for longer than the window ends the conflict. */
  lemma QuietEnds(a: AddrCols, es: seq<Timed>, n: nat, p: Params)
    requires Unmoved(a) && Ordered(es) && 0 < n <= |es| && p.conflictWindow >= 0
    requires es[n - 1].event.Seen? && !IsMove(At(a, es, n - 1, p), es[n - 1])
    requires var m := MoveTimes(a, es, n - 1, p); m != [] && es[n - 1].at - m[|m| - 1] > p.conflictWindow
    ensures !At(a, es, n, p).conflict
  {
    CountsMoves(a, es, n - 1, p);
  }
}
