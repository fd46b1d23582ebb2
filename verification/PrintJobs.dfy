/**
 The print-job retry machine of app/workers/print_jobs.py.  A worker claims a job
 in one committed transaction and writes the outcome in a second one; between the
 two any other worker, payment or recovery batch may touch the row.
 */
module PrintJobs {
  import opened Wrappers
  import opened Tables
  import opened Sorting

  /** What a worker remembers between its two transactions: the row as it left it. */
  datatype Claim = Claim(job: nat, tries: nat)

  datatype ClaimResult = Missing | AlreadyDone | LimitReached | Dispatch(claim: Claim)

  datatype Printing = Printed | RetryableFailure | PermanentFailure

  // ---------- the two half-steps ----------

  /** Exponential back-off, at most fifteen minutes. */
  function Delay(tries: nat): int {
    var seconds := if tries <= 1 then 1 else Pow2(tries - 1);
    SECOND * if seconds < 900 then seconds else 900
  }

  function Pow2(n: nat): (p: nat)
    ensures p >= 1
  {
    if n == 0 then 1 else 2 * Pow2(n - 1)
  }

  function ClaimJob(jobs: seq<Job>, j: nat, limit: int): (seq<Job>, ClaimResult) {
    if j >= |jobs| then (jobs, Missing)
    else if jobs[j].status == JobDone then (jobs, AlreadyDone)
    else if jobs[j].tries >= limit then (jobs[j := jobs[j].(status := JobFailed, nextTry := None)], LimitReached)
    else
      var tries := jobs[j].tries + 1;
      (jobs[j := jobs[j].(status := JobProcessing, tries := tries, nextTry := None)], Dispatch(Claim(j, tries)))
  }

  /**
   The outcome.  Whether a null next_try_at equal to the worker's own copy is
   written again is left open: `clears` says so.
   */
  function FinishJob(jobs: seq<Job>, c: Claim, outcome: Printing, now: int, clears: bool): seq<Job> {
    if c.job >= |jobs| then jobs
    else
      var kept := if clears then None else jobs[c.job].nextTry;
      match outcome
      case Printed => jobs[c.job := jobs[c.job].(status := JobDone, nextTry := kept)]
      case RetryableFailure => jobs[c.job := jobs[c.job].(status := JobFailed, nextTry := Some(now + Delay(c.tries)))]
      case PermanentFailure => jobs[c.job := jobs[c.job].(status := JobFailed, nextTry := kept)]
  }

  /**
   A payment wakes a job it saw waiting or failed: the columns that differ from what
   it saw are written over whatever the row has become.
   */
  function KickSeen(job: Job, seen: JobStatus, now: int): Job {
    match seen
    case JobFailed => job.(status := JobPending, nextTry := Some(now))
    case JobPending => job.(nextTry := Some(now))
    case _ => job
  }

  /** The same with nothing between the look and the write. */
  function Kick(job: Job, now: int): Job {
    KickSeen(job, job.status, now)
  }

  // ---------- recovery ----------

  predicate IsDue(job: Job, now: int) {
    && (job.status == JobPending || (job.status == JobFailed && job.nextTry.Some?))
    && (job.nextTry.None? || job.nextTry.value <= now)
  }

  /** Positions of the due rows among the first `n`, ascending. */
  function DueBelow(jobs: seq<Job>, now: int, n: nat): seq<nat>
    requires n <= |jobs|
  {
    if n == 0 then []
    else DueBelow(jobs, now, n - 1) + (if IsDue(jobs[n - 1], now) then [n - 1] else [])
  }

  /** ORDER BY nulls first, next_try_at, job_id. */
  predicate Sooner(jobs: seq<Job>, a: nat, b: nat) {
    if a >= |jobs| || b >= |jobs| then a <= b
    else
      var x, y := jobs[a].nextTry, jobs[b].nextTry;
      if x.None? || y.None? then x.None? && (y.Some? || a <= b)
      else x.value < y.value || (x.value == y.value && a <= b)
  }

  function JobOrder(jobs: seq<Job>): (nat, nat) -> bool {
    (a: nat, b: nat) => Sooner(jobs, a, b)
  }

  function DueJobs(jobs: seq<Job>, now: int): seq<nat> {
    Sort(JobOrder(jobs), DueBelow(jobs, now, |jobs|))
  }

  function Selected(jobs: seq<Job>, now: int, limit: int): seq<nat> {
    var due := DueJobs(jobs, now);
    if limit <= 0 then [] else if limit < |due| then due[..limit] else due
  }

  function Numerically(): (nat, nat) -> bool {
    (a: nat, b: nat) => a <= b
  }

  function Interval(seconds: int): int { SECOND * if seconds > 1 then seconds else 1 }

  function Postponed(job: Job, until: int): Job {
    job.(nextTry := Some(until), status := if job.status == JobFailed then JobPending else job.status)
  }

  /** The bulk update over the selected rows. */
  function Recover(jobs: seq<Job>, now: int, limit: int, seconds: int): (r: seq<Job>)
    ensures |r| == |jobs|
  {
    var picked := Selected(jobs, now, limit);
    seq(|jobs|, j requires 0 <= j < |jobs| =>
      if j in picked then Postponed(jobs[j], now + Interval(seconds)) else jobs[j])
  }

  // ---------- the workers' methods ----------

  method AcquireJob(db: Session, j: nat, limit: int) returns (r: ClaimResult)
    modifies db
    ensures r == ClaimJob(old(db.jobs), j, limit).1
    ensures db.View() == old(db.View()).(jobs := ClaimJob(old(db.jobs), j, limit).0)
  {
    if j >= |db.jobs| {
      return Missing;
    }
    var job := db.jobs[j];
    if job.status == JobDone {
      return AlreadyDone;
    }
    if job.tries >= limit {
      db.jobs := db.jobs[j := job.(status := JobFailed, nextTry := None)];
      return LimitReached;
    }
    db.jobs := db.jobs[j := job.(status := JobProcessing, tries := job.tries + 1, nextTry := None)];
    return Dispatch(Claim(j, job.tries + 1));
  }

  method FinishPrintJob(db: Session, c: Claim, outcome: Printing, now: int, clears: bool)
    modifies db
    ensures db.View() == old(db.View()).(jobs := FinishJob(old(db.jobs), c, outcome, now, clears))
  {
    if c.job >= |db.jobs| {
      return;
    }
    var job := db.jobs[c.job];
    match outcome {
      case Printed => job := job.(status := JobDone);
      case RetryableFailure => job := job.(status := JobFailed, nextTry := Some(now + Delay(c.tries)));
      case PermanentFailure => job := job.(status := JobFailed);
    }
    if clears && outcome != RetryableFailure {
      job := job.(nextTry := None);
    }
    db.jobs := db.jobs[c.job := job];
  }

  method RecoverPrintJobs(db: Session, now: int, limit: int, seconds: int) returns (ids: seq<nat>)
    modifies db
    ensures ids == Sort(Numerically(), Selected(old(db.jobs), now, limit))
    ensures db.View() == old(db.View()).(jobs := Recover(old(db.jobs), now, limit, seconds))
  {
    hide Selected, Interval, Sort;
    var picked := Selected(db.jobs, now, limit);
    var until := now + Interval(seconds);
    var rows := db.jobs;
    for j := 0 to |rows|
      invariant |db.jobs| == |rows|
      invariant forall i :: 0 <= i < j ==> db.jobs[i] == if i in picked then Postponed(rows[i], until) else rows[i]
      invariant forall i :: j <= i < |rows| ==> db.jobs[i] == rows[i]
      invariant db.View() == old(db.View()).(jobs := db.jobs)
    {
      if j in picked {
        db.jobs := db.jobs[j := Postponed(rows[j], until)];
      }
    }
    assert db.jobs == Recover(rows, now, limit, seconds);
    ids := Sort(Numerically(), picked);
  }
}
