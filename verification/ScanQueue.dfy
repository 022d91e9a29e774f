/**
 The scan work queue (internal/scan, internal/memstore scan jobs): workers claim due jobs, work on
 their own copy of the job, and write it back; cancels read and write in two separate steps.
 */
module ScanQueue {
  import opened Wrappers
  import opened Arith
  import opened Ipnet
  import FreeSearch

  type Id = nat
  type Time = int

  datatype Status = Pending | Scanning | Completed | Failed | Cancelled

  datatype Job = Job(status: Status, retries: nat, nextRetry: Option<Time>)

  /** A goroutine processing a job; `retrying` once it decided to record a failure. */
  datatype Worker = Worker(job: Id, local: Job, retrying: bool)

  /** A cancel between its read and its write. */
  datatype Canceller = Canceller(job: Id, local: Job)

  datatype State = State(now: Time, jobs: map<Id, Job>, workers: map<nat, Worker>, cancels: map<nat, Canceller>,
                         nextJob: Id, nextThread: nat, claims: multiset<Id>)

  datatype Step =
    | StartScan
    | Claim(job: Id)
    | Progress(w: nat)
    | Observe(w: nat)
    | Fail(w: nat)
    | Record(w: nat)
    | Complete(w: nat)
    | Lose(w: nat)
    | CancelRead(job: Id)
    | CancelWrite(c: nat)
    | Tick(d: nat)

  predicate Terminal(s: Status) {
    s == Completed || s == Failed || s == Cancelled
  }

  predicate Due(j: Job, now: Time) {
    j.status == Pending && (j.nextRetry.None? || j.nextRetry.value <= now)
  }

  const BASE_BACKOFF := 5_000_000_000
  const MAX_INT64 := 0x7fff_ffff_ffff_ffff
  const TWO_64 := 0x1_0000_0000_0000_0000

  function Wrap64(x: int): int {
    (x + MAX_INT64 + 1) % TWO_64 - MAX_INT64 - 1
  }

  /** int64(1)<<uint(n-1) * 5 s, as the machine computes it. */
  function Backoff(n: nat): int
    requires n >= 1
  {
    Wrap64((if n - 1 >= 64 then 0 else Wrap64(Pow2(n - 1))) * BASE_BACKOFF)
  }

  /** retryOrFail's write. */
  function Recorded(j: Job, maxRetries: int, now: Time): Job {
    var n := j.retries + 1;
    if n > maxRetries then j.(retries := n, status := Failed)
    else j.(retries := n, status := Pending, nextRetry := Some(now + Backoff(n)))
  }

  predicate Working(st: State, w: nat) {
    w in st.workers && st.workers[w].job in st.jobs
  }

  predicate Enabled(st: State, step: Step) {
    match step
    case StartScan => true
    case Claim(j) => j in st.jobs && Due(st.jobs[j], st.now)
    case Progress(w) => Working(st, w) && !st.workers[w].retrying
    case Observe(w) => Working(st, w) && !st.workers[w].retrying && st.jobs[st.workers[w].job].status == Cancelled
    case Fail(w) => Working(st, w) && !st.workers[w].retrying
    case Record(w) => Working(st, w) && st.workers[w].retrying
    case Complete(w) => Working(st, w) && !st.workers[w].retrying
    case Lose(w) => Working(st, w)
    case CancelRead(j) => j in st.jobs && !Terminal(st.jobs[j].status)
    case CancelWrite(c) => c in st.cancels
    case Tick(_) => true
  }

  function Write(st: State, w: nat, j: Job): State
    requires w in st.workers
  {
    st.(jobs := st.jobs[st.workers[w].job := j], workers := st.workers - {w})
  }

  function Apply(st: State, step: Step, maxRetries: int): State
    requires Enabled(st, step)
  {
    match step
    case StartScan => st.(jobs := st.jobs[st.nextJob := Job(Pending, 0, None)], nextJob := st.nextJob + 1)
    case Claim(j) =>
      var job := st.jobs[j].(status := Scanning);
      st.(jobs := st.jobs[j := job], workers := st.workers[st.nextThread := Worker(j, job, false)],
          nextThread := st.nextThread + 1, claims := st.claims + multiset{j})
    case Progress(w) => st.(jobs := st.jobs[st.workers[w].job := st.workers[w].local])
    case Observe(w) => st.(workers := st.workers - {w})
    case Fail(w) =>
      // A cancelled job is left alone; otherwise the failure will be recorded.
      if st.jobs[st.workers[w].job].status == Cancelled then st.(workers := st.workers - {w})
      else st.(workers := st.workers[w := st.workers[w].(retrying := true)])
    case Record(w) => Write(st, w, Recorded(st.workers[w].local, maxRetries, st.now))
    case Complete(w) => Write(st, w, st.workers[w].local.(status := Completed))
    case Lose(w) => st.(workers := st.workers - {w})
    case CancelRead(j) =>
      st.(cancels := st.cancels[st.nextThread := Canceller(j, st.jobs[j])], nextThread := st.nextThread + 1)
    case CancelWrite(c) =>
      var k := st.cancels[c];
      st.(jobs := if k.job in st.jobs then st.jobs[k.job := k.local.(status := Cancelled)] else st.jobs,
        cancels := st.cancels - {c})
    case Tick(d) => st.(now := st.now + d)
  }

  function Initial(now: Time): State {
    State(now, map[], map[], map[], 0, 0, multiset{})
  }

  // ---- invariant

  /** The most retries a pending job can carry. */
  function MaxPending(maxRetries: int): nat {
    if maxRetries < 0 then 0 else maxRetries
  }

  ghost predicate WorkerOk(st: State, w: nat, maxRetries: int)
    requires w in st.workers
  {
    var k := st.workers[w];
    && w < st.nextThread && k.job in st.jobs && st.jobs[k.job].status != Pending
    && k.local.status == Scanning && st.claims[k.job] == k.local.retries + 1
        && k.local.retries <= MaxPending(maxRetries)
  }

  ghost predicate JobOk(st: State, j: Id, maxRetries: int)
    requires j in st.jobs
  {
    && j < st.nextJob && st.claims[j] <= MaxPending(maxRetries) + 1
    && (st.jobs[j].status == Pending ==> st.claims[j] == st.jobs[j].retries <= MaxPending(maxRetries))
  }

  ghost predicate Inv(st: State, maxRetries: int) {
    && (forall w :: w in st.workers ==> WorkerOk(st, w, maxRetries))
    && (forall w, v :: w in st.workers && v in st.workers && st.workers[w].job == st.workers[v].job ==> w == v)
    && (forall j :: j in st.jobs ==> JobOk(st, j, maxRetries))
    && (forall j: Id :: j >= st.nextJob ==> st.claims[j] == 0)
  }

  lemma ClaimInv(st: State, j: Id, m: int)
    requires Inv(st, m) && Enabled(st, Claim(j))
    ensures Inv(Apply(st, Claim(j), m), m)
  {
    var st' := Apply(st, Claim(j), m);
    assert JobOk(st, j, m);
    forall w | w in st.workers ensures st.workers[w].job != j && WorkerOk(st', w, m) { assert WorkerOk(st, w, m); }
    forall i | i in st'.jobs ensures JobOk(st', i, m) { assert JobOk(st, i, m); }
  }

  /** A worker writes its copy and goes away, or stays with a status that is not pending. */
  lemma WriteInv(st: State, st': State, w: nat, job: Job, m: int)
    requires Inv(st, m) && w in st.workers
    requires st'.jobs == st.jobs[st.workers[w].job := job] && st'.claims == st.claims && st'.nextJob == st.nextJob
          && st'.nextThread == st.nextThread
    requires st'.workers == st.workers - {w} || (st'.workers == st.workers && job.status != Pending)
    requires job.status == Pending ==> job.retries == st.workers[w].local.retries + 1 <= MaxPending(m)
    ensures Inv(st', m)
  {
    assert WorkerOk(st, w, m);
    forall v | v in st'.workers ensures WorkerOk(st', v, m) {
      assert WorkerOk(st, v, m);
    }
    forall i | i in st'.jobs ensures JobOk(st', i, m) { assert JobOk(st, i, m); }
  }

  lemma DropInv(st: State, st': State, m: int)
    requires Inv(st, m) && st'.jobs == st.jobs && st'.claims == st.claims && st'.nextJob == st.nextJob
          && st.nextThread <= st'.nextThread
    requires forall w :: w in st'.workers ==>
          w in st.workers && st'.workers[w].job == st.workers[w].job && st'.workers[w].local == st.workers[w].local
    ensures Inv(st', m)
  {
    forall w | w in st'.workers ensures WorkerOk(st', w, m) { assert WorkerOk(st, w, m); }
    forall i | i in st'.jobs ensures JobOk(st', i, m) { assert JobOk(st, i, m); }
  }

  lemma CancelInv(st: State, c: nat, m: int)
    requires Inv(st, m) && c in st.cancels
    ensures Inv(Apply(st, CancelWrite(c), m), m)
  {
    var st' := Apply(st, CancelWrite(c), m);
    forall w | w in st'.workers ensures WorkerOk(st', w, m) { assert WorkerOk(st, w, m); }
    forall i | i in st'.jobs ensures JobOk(st', i, m) { assert JobOk(st, i, m); }
  }

  lemma StartInv(st: State, m: int)
    requires Inv(st, m)
    ensures Inv(Apply(st, StartScan, m), m)
  {
    var st' := Apply(st, StartScan, m);
    forall w | w in st'.workers ensures WorkerOk(st', w, m) {
      assert WorkerOk(st, w, m);
      assert JobOk(st, st.workers[w].job, m);
    }
    forall i | i in st'.jobs ensures JobOk(st', i, m) {
      if i != st.nextJob { assert JobOk(st, i, m); }
    }
  }

  lemma StepInv(st: State, step: Step, m: int)
    requires Inv(st, m) && Enabled(st, step)
    ensures Inv(Apply(st, step, m), m)
  {
    match step
    case StartScan => StartInv(st, m);
    case Claim(j) => ClaimInv(st, j, m);
    case Progress(w) =>
      assert WorkerOk(st, w, m);
      WriteInv(st, Apply(st, step, m), w, st.workers[w].local, m);
    case Observe(w) => DropInv(st, Apply(st, step, m), m);
    case Fail(w) => DropInv(st, Apply(st, step, m), m);
    case Record(w) => WriteInv(st, Apply(st, step, m), w, Recorded(st.workers[w].local, m, st.now), m);
    case Complete(w) => WriteInv(st, Apply(st, step, m), w, st.workers[w].local.(status := Completed), m);
    case Lose(w) => DropInv(st, Apply(st, step, m), m);
    case CancelRead(j) => DropInv(st, Apply(st, step, m), m);
    case CancelWrite(c) => CancelInv(st, c, m);
    case Tick(d) => DropInv(st, Apply(st, step, m), m);
  }

  // ---- every run

  predicate Possible(st: State, steps: seq<Step>, m: int)
    decreases |steps|
  {
    steps == [] || (Enabled(st, steps[0]) && Possible(Apply(st, steps[0], m), steps[1..], m))
  }

  function Run(st: State, steps: seq<Step>, m: int): State
    requires Possible(st, steps, m)
    decreases |steps|
  {
    if steps == [] then st else Run(Apply(st, steps[0], m), steps[1..], m)
  }

  lemma {:induction false} RunInv(st: State, steps: seq<Step>, m: int)
    requires Inv(st, m) && Possible(st, steps, m)
    ensures Inv(Run(st, steps, m), m)
    decreases |steps|
  {
    if steps != [] {
      StepInv(st, steps[0], m);
      RunInv(Apply(st, steps[0], m), steps[1..], m);
    }
  }

  /** In every interleaving a job has at most one worker, and a pending job has none. */
  lemma OneWorkerPerJob(now: Time, steps: seq<Step>, m: int, w: nat, v: nat)
    requires Possible(Initial(now), steps, m)
    requires var st := Run(Initial(now), steps, m);
          w in st.workers && v in st.workers && st.workers[w].job == st.workers[v].job
    ensures w == v && Working(Run(Initial(now), steps, m), w)
    ensures var st := Run(Initial(now), steps, m); Working(st, w) && st.jobs[st.workers[w].job].status != Pending
  {
    RunInv(Initial(now), steps, m);
    assert WorkerOk(Run(Initial(now), steps, m), w, m);
  }

  /** In every interleaving a job is claimed at most MaxRetries + 1 times. */
  lemma ClaimsBounded(now: Time, steps: seq<Step>, m: int, j: Id)
    requires Possible(Initial(now), steps, m)
    ensures Run(Initial(now), steps, m).claims[j] <= MaxPending(m) + 1
  {
    RunInv(Initial(now), steps, m);
    ClaimedIsJob(Initial(now), steps, m, j);
    var st := Run(Initial(now), steps, m);
    if j in st.jobs { assert JobOk(st, j, m); }
  }

  /** Only existing jobs are claimed, and jobs are never removed. */
  lemma {:induction false} ClaimedIsJob(st: State, steps: seq<Step>, m: int, j: Id)
    requires Possible(st, steps, m) && (j in st.jobs || st.claims[j] == 0)
    ensures j in Run(st, steps, m).jobs || Run(st, steps, m).claims[j] == 0
    decreases |steps|
  {
    if steps != [] { ClaimedIsJob(Apply(st, steps[0], m), steps[1..], m, j); }
  }

  // ---- backoff

  lemma Pow2Values()
    ensures Pow2(30) == 0x4000_0000 && Pow2(31) == 0x8000_0000
  {
    Pow2Add(15, 15);
    assert Pow2(5) == 32;
    Pow2Add(5, 5);
    Pow2Add(10, 5);
  }

  /** The n-th retry delay is exactly 5 s times 2^(n-1) if and only if n is at most 31. */
  lemma BackoffExact(n: nat)
    requires n >= 1
    ensures Backoff(n) == BASE_BACKOFF * Pow2(n - 1) <==> n <= 31
  {
    Pow2Values();
    if n <= 31 {
      Pow2Monotone(n - 1, 30);
    } else {
      Pow2Monotone(31, n - 1);
    }
  }

  // ---- when a job is claimed

  /** When each job's last failure was recorded, over a run. */
  function RecordedAt(st: State, steps: seq<Step>, m: int, was: map<Id, Time>): map<Id, Time>
    requires Possible(st, steps, m)
    decreases |steps|
  {
    if steps == [] then was
    else
      RecordedAt(Apply(st, steps[0], m), steps[1..], m,
        if steps[0].Record? then was[st.workers[steps[0].w].job := st.now] else was)
  }

  /** A job waits for its first try, or for the delay of its last recorded failure. */
  ghost predicate Waits(st: State, recorded: map<Id, Time>) {
    forall j :: j in st.jobs && st.jobs[j].status == Pending ==>
      var n := st.jobs[j].retries;
      if n == 0 then st.jobs[j].nextRetry.None?
      else j in recorded && st.jobs[j].nextRetry == Some(recorded[j] + Backoff(n))
  }

  lemma StepWaits(st: State, step: Step, m: int, recorded: map<Id, Time>)
    requires Inv(st, m) && Enabled(st, step) && Waits(st, recorded)
    ensures Waits(Apply(st, step, m), if step.Record? then recorded[st.workers[step.w].job := st.now] else recorded)
  {
    if step.Progress? { assert WorkerOk(st, step.w, m); }
  }

  lemma {:induction false} RunWaits(st: State, steps: seq<Step>, m: int, recorded: map<Id, Time>)
    requires Inv(st, m) && Possible(st, steps, m) && Waits(st, recorded)
    ensures Waits(Run(st, steps, m), RecordedAt(st, steps, m, recorded))
    decreases |steps|
  {
    if steps != [] {
      StepInv(st, steps[0], m);
      StepWaits(st, steps[0], m, recorded);
      RunWaits(Apply(st, steps[0], m), steps[1..], m,
        if steps[0].Record? then recorded[st.workers[steps[0].w].job := st.now] else recorded);
    }
  }

  /**
   After any run a job can be claimed if and only if it is pending and never failed, or the delay of
   its n-th failure has passed since that was recorded: 5 s times 2^(n-1) up to n = 31.
   */
  lemma ClaimedWhenDue(now: Time, steps: seq<Step>, m: int, j: Id)
    requires Possible(Initial(now), steps, m) && j in Run(Initial(now), steps, m).jobs
    ensures var st, recorded := Run(Initial(now), steps, m), RecordedAt(Initial(now), steps, m, map[]);
            var n := st.jobs[j].retries;
            && (Enabled(st, Claim(j)) <==>
                  && st.jobs[j].status == Pending
                  && (n > 0 ==> j in recorded && st.now - recorded[j] >= Backoff(n)))
            && (0 < n <= 31 ==> Backoff(n) == 5_000_000_000 * Pow2(n - 1))
  {
    RunWaits(Initial(now), steps, m, map[]);
    var n := Run(Initial(now), steps, m).jobs[j].retries;
    if n > 0 { BackoffExact(n); }
  }

  // ---- when a job fails

  ghost predicate FailsLate(st: State, m: int) {
    forall j :: j in st.jobs && st.jobs[j].status == Failed ==> st.claims[j] == MaxPending(m) + 1
  }

  lemma StepFailsLate(st: State, step: Step, m: int)
    requires Inv(st, m) && Enabled(st, step) && FailsLate(st, m)
    ensures FailsLate(Apply(st, step, m), m)
  {
    if step.Progress? || step.Record? || step.Complete? { assert WorkerOk(st, step.w, m); }
    assert step.StartScan? ==> st.claims[st.nextJob] == 0;
  }

  lemma {:induction false} RunFailsLate(st: State, steps: seq<Step>, m: int)
    requires Inv(st, m) && Possible(st, steps, m) && FailsLate(st, m)
    ensures FailsLate(Run(st, steps, m), m)
    decreases |steps|
  {
    if steps != [] {
      StepInv(st, steps[0], m);
      StepFailsLate(st, steps[0], m);
      RunFailsLate(Apply(st, steps[0], m), steps[1..], m);
    }
  }

  /** In every interleaving a job is given up only after all its tries: MaxRetries + 1 claims. */
  lemma FailedAfterAllTries(now: Time, steps: seq<Step>, m: int, j: Id)
    requires Possible(Initial(now), steps, m)
    requires var st := Run(Initial(now), steps, m); j in st.jobs && st.jobs[j].status == Failed
    ensures Run(Initial(now), steps, m).claims[j] == MaxPending(m) + 1
  {
    RunFailsLate(Initial(now), steps, m);
  }

  // ---- how a job ends

  /** The jobs a cancel wrote and the jobs a worker completed, over a run. */
  datatype Ends = Ends(cancelled: set<Id>, completed: set<Id>)

  function Ended(st: State, step: Step, e: Ends): Ends
    requires Enabled(st, step)
  {
    match step
    case CancelWrite(c) => e.(cancelled := e.cancelled + {st.cancels[c].job})
    case Complete(w) => e.(completed := e.completed + {st.workers[w].job})
    case _ => e
  }

  function EndedBy(st: State, steps: seq<Step>, m: int, e: Ends): Ends
    requires Possible(st, steps, m)
    decreases |steps|
  {
    if steps == [] then e else EndedBy(Apply(st, steps[0], m), steps[1..], m, Ended(st, steps[0], e))
  }

  ghost predicate EndsOk(st: State, e: Ends) {
    forall j :: j in st.jobs ==>
      && (st.jobs[j].status == Cancelled ==> j in e.cancelled)
      && (st.jobs[j].status == Completed ==> j in e.completed)
  }

  lemma StepEnds(st: State, step: Step, m: int, e: Ends)
    requires Inv(st, m) && Enabled(st, step) && EndsOk(st, e)
    ensures EndsOk(Apply(st, step, m), Ended(st, step, e))
  {
    if step.Progress? || step.Record? || step.Complete? { assert WorkerOk(st, step.w, m); }
  }

  lemma {:induction false} RunEnds(st: State, steps: seq<Step>, m: int, e: Ends)
    requires Inv(st, m) && Possible(st, steps, m) && EndsOk(st, e)
    ensures EndsOk(Run(st, steps, m), EndedBy(st, steps, m, e))
    decreases |steps|
  {
    if steps != [] {
      StepInv(st, steps[0], m);
      StepEnds(st, steps[0], m, e);
      RunEnds(Apply(st, steps[0], m), steps[1..], m, Ended(st, steps[0], e));
    }
  }

  /** In every interleaving a job is cancelled only by a cancel, and completed only by its worker. */
  lemma EndsForAReason(now: Time, steps: seq<Step>, m: int, j: Id)
    requires Possible(Initial(now), steps, m) && j in Run(Initial(now), steps, m).jobs
    ensures var st, e := Run(Initial(now), steps, m), EndedBy(Initial(now), steps, m, Ends({}, {}));
            && (st.jobs[j].status == Cancelled ==> j in e.cancelled)
            && (st.jobs[j].status == Completed ==> j in e.completed)
  {
    RunEnds(Initial(now), steps, m, Ends({}, {}));
  }

  // ---- targets

  /** usableHosts of an IPv4 block. */
  function Usable(b: Block): int {
    if b.prefix < 31 then (if Size(b) < 2 then 0 else Size(b) - 2) else Size(b)
  }

  lemma UsableIsRange(b: Block)
    requires ValidBlock(b) && b.family == V4
    ensures Usable(b) == FreeSearch.HostHi(b) - FreeSearch.HostLo(b) + 1 && Usable(b) >= 1
  {
    FreeSearch.HostRangeFits(b);
  }

  /** enumerateTargets: an accepted scan probes every usable host, none cut off. */
  method EnumerateTargets(b: Block, maxHosts: int) returns (r: Result<seq<nat>, Error>)
    requires ValidBlock(b) && b.family == V4
    ensures Usable(b) <= maxHosts <= FreeSearch.MAX_HOST_ENUMERATE ==>
              r.Ok? && |r.value| == Usable(b) && forall v: nat :: v in r.value <==> FreeSearch.UsableHost(b, v)
    ensures r.Ok? ==> forall i :: 0 <= i < |r.value| ==> r.value[i] == FreeSearch.HostLo(b) + i
    ensures r.Ok? && maxHosts > 0 ==> |r.value| <= maxHosts
  {
    UsableIsRange(b);
    FreeSearch.HostRangeFits(b);
    r := FreeSearch.Hosts(b);
    if r.Ok? && maxHosts > 0 && |r.value| > maxHosts {
      r := Ok(r.value[..maxHosts]);
    }
  }
}
