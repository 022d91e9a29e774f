/** The host-sync runner's poll (internal/hostsync/runner.go): how far its watermark may move. */
module HostRunner {

  /** Inventory times count from 1; 0 is the zero time. */
  type Stamp = nat

  datatype Outcome = Applied | Skipped | Rejected | Failed

  /** The watermark after the first `n` reports, and whether a failure blocks it. */
  datatype Mark = Mark(watermark: Stamp, blocked: bool)

  function MarkAt(changed: seq<Stamp>, outcomes: seq<Outcome>, n: nat): Mark
    requires n <= |changed| && n <= |outcomes|
  {
    if n == 0 then Mark(0, false)
    else
      var m := MarkAt(changed, outcomes, n - 1);
      if outcomes[n - 1] == Failed then m.(blocked := true)
      else if !m.blocked && changed[n - 1] > m.watermark then m.(watermark := changed[n - 1])
      else m
  }

  predicate Listed(changed: seq<Stamp>, since: Stamp) {
    && (forall i, j :: 0 <= i < j < |changed| ==> changed[i] <= changed[j])
    && (forall i :: 0 <= i < |changed| ==> changed[i] > since)
  }

  /** poll over the listing, stopped after `visited` reports (an error, a cancel or the end). */
  method Poll(changed: seq<Stamp>, outcomes: seq<Outcome>, visited: nat) returns (watermark: Stamp)
    requires visited <= |changed| && visited <= |outcomes|
    ensures watermark == MarkAt(changed, outcomes, visited).watermark
  {
    watermark := 0;
    var blocked := false;
    for k := 0 to visited
      invariant Mark(watermark, blocked) == MarkAt(changed, outcomes, k)
    {
      if outcomes[k] == Failed {
        blocked := true;
      } else if !blocked && changed[k] > watermark {
        watermark := changed[k];
      }
    }
  }

  /** The watermark is the time of a report before the first failure. */
  lemma {:induction false} MarkFrom(changed: seq<Stamp>, outcomes: seq<Outcome>, n: nat)
    requires n <= |changed| && n <= |outcomes|
    ensures var m := MarkAt(changed, outcomes, n);
            && (m.blocked <==> exists k :: 0 <= k < n && outcomes[k] == Failed)
            && (m.watermark == 0 || exists k :: 0 <= k < n && changed[k] == m.watermark && forall j :: 0 <= j <= k ==>
              outcomes[j] != Failed)
  {
    if n > 0 { MarkFrom(changed, outcomes, n - 1); }
  }

  /** The persisted watermark after a poll: a zero watermark leaves it. */
  function Persisted(since: Stamp, watermark: Stamp): Stamp {
    if watermark != 0 then watermark else since
  }

  /** Never past a failed or unvisited report. */
  lemma NeverPastFailure(changed: seq<Stamp>, outcomes: seq<Outcome>, visited: nat, since: Stamp, k: nat)
    requires Listed(changed, since) && visited <= |changed| && visited <= |outcomes| && k < |changed|
    requires k >= visited || outcomes[k] == Failed
    ensures Persisted(since, MarkAt(changed, outcomes, visited).watermark) <= changed[k]
  {
    MarkFrom(changed, outcomes, visited);
    var m := MarkAt(changed, outcomes, visited);
    if m.watermark != 0 {
      var i :| 0 <= i < visited && changed[i] == m.watermark && forall j :: 0 <= j <= i ==> outcomes[j] != Failed;
      assert i < k;
    }
  }

  /** A report before the first failure that was visited and changed at the same time as report `k`. */
  ghost predicate Twin(changed: seq<Stamp>, outcomes: seq<Outcome>, visited: nat, k: nat, i: int)
    requires visited <= |changed| && visited <= |outcomes| && k < |changed|
  {
    0 <= i < visited && changed[i] == changed[k] && forall j :: 0 <= j <= i ==> outcomes[j] != Failed
  }

  /** The watermark has reached every visited report before the first failure. */
  lemma {:induction false} MarkCovers(changed: seq<Stamp>, outcomes: seq<Outcome>, n: nat, i: nat)
    requires i < n <= |changed| && n <= |outcomes| && forall j :: 0 <= j <= i ==> outcomes[j] != Failed
    ensures MarkAt(changed, outcomes, n).watermark >= changed[i]
  {
    if i == n - 1 {
      MarkFrom(changed, outcomes, n - 1);
    } else {
      MarkCovers(changed, outcomes, n - 1, i);
    }
  }

  /** A failed or unvisited report is listed by the next poll if and only if it has no twin. */
  lemma ListedAgainIff(changed: seq<Stamp>, outcomes: seq<Outcome>, visited: nat, since: Stamp, k: nat)
    requires Listed(changed, since) && visited <= |changed| && visited <= |outcomes| && k < |changed|
    requires k >= visited || outcomes[k] == Failed
    ensures changed[k] > Persisted(since, MarkAt(changed, outcomes, visited).watermark) <==>
              !exists i :: Twin(changed, outcomes, visited, k, i)
  {
    var m := MarkAt(changed, outcomes, visited);
    MarkFrom(changed, outcomes, visited);
    NeverPastFailure(changed, outcomes, visited, since, k);
    if i :| Twin(changed, outcomes, visited, k, i) { MarkCovers(changed, outcomes, visited, i); }
    if m.watermark != 0 {
      var i :| 0 <= i < visited && changed[i] == m.watermark && forall j :: 0 <= j <= i ==> outcomes[j] != Failed;
      assert changed[i] == changed[k] ==> Twin(changed, outcomes, visited, k, i);
    }
  }

  /** However the reports fare and wherever the poll stops, report `k` comes again if it was not taken in. */
  ghost predicate ComesAgain(changed: seq<Stamp>, since: Stamp, outcomes: seq<Outcome>, visited: nat, k: nat) {
    visited <= |changed| == |outcomes| && k < |changed| && (k >= visited || outcomes[k] == Failed) ==>
      changed[k] > Persisted(since, MarkAt(changed, outcomes, visited).watermark)
  }

  predicate DistinctTimes(changed: seq<Stamp>) {
    forall i, j :: 0 <= i < j < |changed| ==> changed[i] != changed[j]
  }

  /** Nothing is ever passed over, for all outcomes and stopping points, exactly when the change times are distinct. */
  lemma ListedAgain(changed: seq<Stamp>, since: Stamp)
    requires Listed(changed, since)
    ensures DistinctTimes(changed) <==> forall outcomes, visited, k :: ComesAgain(changed, since, outcomes, visited, k)
  {
    if DistinctTimes(changed) {
      forall outcomes, visited, k ensures ComesAgain(changed, since, outcomes, visited, k) {
        DistinctComesAgain(changed, since, outcomes, visited, k);
      }
    } else {
      var i, j :| 0 <= i < j < |changed| && changed[i] == changed[j];
      PassedOver(changed, since, i, j);
    }
  }

  lemma DistinctComesAgain(changed: seq<Stamp>, since: Stamp, outcomes: seq<Outcome>, visited: nat, k: nat)
    requires Listed(changed, since) && DistinctTimes(changed)
    ensures ComesAgain(changed, since, outcomes, visited, k)
  {
    if visited <= |changed| == |outcomes| && k < |changed| && (k >= visited || outcomes[k] == Failed) {
      ListedAgainIff(changed, outcomes, visited, since, k);
      forall i ensures !Twin(changed, outcomes, visited, k, i) {
        assert 0 <= i < visited && i != k ==> changed[i] != changed[k];
      }
    }
  }

  /** Two equal change times: when only the second fails, it is passed over. */
  lemma PassedOver(changed: seq<Stamp>, since: Stamp, i: nat, j: nat)
    requires Listed(changed, since) && i < j < |changed| && changed[i] == changed[j]
    ensures exists outcomes :: !ComesAgain(changed, since, outcomes, |changed|, j)
  {
    var outcomes := seq(|changed|, k => if k == j then Failed else Outcome.Applied);
    assert Twin(changed, outcomes, |changed|, j, i);
    ListedAgainIff(changed, outcomes, |changed|, since, j);
    assert !ComesAgain(changed, since, outcomes, |changed|, j);
  }

  /** The persisted watermark never moves back. */
  lemma NeverBack(changed: seq<Stamp>, outcomes: seq<Outcome>, visited: nat, since: Stamp)
    requires Listed(changed, since) && visited <= |changed| && visited <= |outcomes|
    ensures since <= Persisted(since, MarkAt(changed, outcomes, visited).watermark)
  {
    MarkFrom(changed, outcomes, visited);
  }

  /** Equal change times are where a failed report can be passed over: here the second one. */
  lemma EqualTimesPassed()
    ensures var changed, outcomes: seq<Outcome> := [5, 5], [Applied, Failed];
            Listed(changed, 0) && Persisted(0, MarkAt(changed, outcomes, 2).watermark) == changed[1]
  {
    var changed: seq<Stamp>, outcomes: seq<Outcome> := [5, 5], [Applied, Failed];
    assert MarkAt(changed, outcomes, 1) == Mark(5, false);
    assert MarkAt(changed, outcomes, 2) == Mark(5, true);
  }
}
