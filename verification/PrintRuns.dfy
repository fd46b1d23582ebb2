/** What every interleaving of workers, payments and recovery batches keeps of the print-job table. */
module PrintRuns {
  import opened Wrappers
  import opened Tables
  import opened Sorting
  import opened PrintJobs

  /** The status a payment saw when it read a job's row, which it does not lock. */
  datatype Glimpse = Glimpse(job: nat, seen: JobStatus)

  /** The table, the claims whose outcome and the glimpses whose payment has not been written yet. */
  datatype Floor = Floor(jobs: seq<Job>, inFlight: seq<Claim>, glimpses: seq<Glimpse>)

  datatype Event =
    | Claims(job: nat)
    | Finishes(index: nat, outcome: Printing, now: int, clears: bool)
    | Glances(job: nat)
    | Kicks(index: nat, now: int)
    | Recovers(now: int, batch: int, seconds: int)
    | Created(order: nat)

  function Step(s: Floor, e: Event, limit: int): Floor {
    match e
    case Claims(j) =>
      var (jobs, r) := ClaimJob(s.jobs, j, limit);
      s.(jobs := jobs, inFlight := if r.Dispatch? then s.inFlight + [r.claim] else s.inFlight)
    case Finishes(i, outcome, now, clears) =>
      if i >= |s.inFlight| then s
      else s.(jobs := FinishJob(s.jobs, s.inFlight[i], outcome, now, clears), inFlight := s.inFlight[..i] + s.inFlight[i + 1..])
    case Glances(j) =>
      if j >= |s.jobs| then s else s.(glimpses := s.glimpses + [Glimpse(j, s.jobs[j].status)])
    case Kicks(i, now) =>
      if i >= |s.glimpses| then s
      else
        var g := s.glimpses[i];
        s.(jobs := if g.job < |s.jobs| then s.jobs[g.job := KickSeen(s.jobs[g.job], g.seen, now)] else s.jobs,
           glimpses := s.glimpses[..i] + s.glimpses[i + 1..])
    case Recovers(now, batch, seconds) => s.(jobs := Recover(s.jobs, now, batch, seconds))
    case Created(order) => s.(jobs := s.jobs + [Job(order, JobPending, 0, None)])
  }

  function Run(s: Floor, es: seq<Event>, limit: int): Floor
    decreases es
  {
    if es == [] then s else Run(Step(s, es[0], limit), es[1..], limit)
  }

  // ---------- dispatches ----------

  /** The event hands job `j` to the printer. */
  predicate Dispatches(s: Floor, e: Event, limit: int, j: nat) {
    e.Claims? && e.job == j && ClaimJob(s.jobs, j, limit).1.Dispatch?
  }

  function Dispatched(s: Floor, es: seq<Event>, limit: int, j: nat): nat
    decreases es
  {
    if es == [] then 0
    else (if Dispatches(s, es[0], limit, j) then 1 else 0) + Dispatched(Step(s, es[0], limit), es[1..], limit, j)
  }

  function Tries(s: Floor, j: nat): nat {
    if j < |s.jobs| then s.jobs[j].tries else 0
  }

  lemma StepTries(s: Floor, e: Event, limit: int, j: nat)
    ensures Tries(Step(s, e, limit), j) == Tries(s, j) + (if Dispatches(s, e, limit, j) then 1 else 0)
    ensures Dispatches(s, e, limit, j) ==> Tries(s, j) < limit
  {
  }

  /**
   Whatever the interleaving, the try count is the number of times the job was
   handed to the printer, and it never passes the retry limit.
   */
  lemma {:induction false} DispatchesBounded(s: Floor, es: seq<Event>, limit: int, j: nat)
    ensures Tries(Run(s, es, limit), j) == Tries(s, j) + Dispatched(s, es, limit, j)
    ensures Tries(s, j) <= limit ==> Tries(Run(s, es, limit), j) <= limit
    decreases es
  {
    if es != [] {
      StepTries(s, es[0], limit, j);
      DispatchesBounded(Step(s, es[0], limit), es[1..], limit, j);
    }
  }

  /** A claim succeeds exactly on an unprinted job with tries left, which is then running and due at no time. */
  lemma ClaimedExactly(s: Floor, limit: int, j: nat)
    ensures Dispatches(s, Claims(j), limit, j) <==> j < |s.jobs| && s.jobs[j].status != JobDone && s.jobs[j].tries < limit
    ensures Dispatches(s, Claims(j), limit, j) ==>
              var row := s.jobs[j];
              Step(s, Claims(j), limit) ==
                s.(jobs := s.jobs[j := Job(row.order, JobProcessing, row.tries + 1, None)],
                   inFlight := s.inFlight + [Claim(j, row.tries + 1)])
  {
  }

  predicate IsRunning(s: Floor, j: nat) {
    j < |s.jobs| && s.jobs[j].status == JobProcessing
  }

  /** The event ends an execution of `j`, finds its tries used up, or is a payment that saw it failed. */
  predicate EndsRunning(s: Floor, e: Event, limit: int, j: nat) {
    || (e.Finishes? && e.index < |s.inFlight| && s.inFlight[e.index].job == j)
    || (e.Kicks? && e.index < |s.glimpses| && s.glimpses[e.index] == Glimpse(j, JobFailed))
    || (e == Claims(j) && Tries(s, j) >= limit)
  }

  lemma RunningStep(s: Floor, e: Event, limit: int, j: nat)
    requires IsRunning(s, j)
    ensures IsRunning(Step(s, e, limit), j) <==> !EndsRunning(s, e, limit, j)
  {
    hide Selected, Delay, Interval;
  }

  ghost predicate KeepsRunning(s: Floor, es: seq<Event>, limit: int, j: nat)
    decreases es
  {
    es == [] || (!EndsRunning(s, es[0], limit, j) && KeepsRunning(Step(s, es[0], limit), es[1..], limit, j))
  }

  /** A running job stays so, and out of recovery's queue at every instant, through any run without such an event. */
  lemma {:induction false} RunningIsNotQueued(s: Floor, es: seq<Event>, limit: int, j: nat, t: int)
    requires IsRunning(s, j) && KeepsRunning(s, es, limit, j)
    ensures var after := Run(s, es, limit); IsRunning(after, j) && j !in DueJobs(after.jobs, t)
    decreases es
  {
    hide DueJobs, Step;
    if es == [] {
      QueueExactly(s.jobs, t, j);
    } else {
      RunningStep(s, es[0], limit, j);
      RunningIsNotQueued(Step(s, es[0], limit), es[1..], limit, j, t);
    }
  }

  // ---------- done ----------

  predicate IsDone(s: Floor, j: nat) {
    j < |s.jobs| && s.jobs[j].status == JobDone
  }

  /** A printed job leaves `done` exactly when an open claim reports a failure or a payment that saw it failed writes. */
  lemma LeavesDoneExactly(s: Floor, e: Event, limit: int, j: nat)
    requires IsDone(s, j)
    ensures !IsDone(Step(s, e, limit), j) <==>
            || (e.Finishes? && e.index < |s.inFlight| && s.inFlight[e.index].job == j && e.outcome != Printed)
            || (e.Kicks? && e.index < |s.glimpses| && s.glimpses[e.index] == Glimpse(j, JobFailed))
  {
  }

  /** No claim of the job is open, and no payment that saw it failed is. */
  ghost predicate Unattended(s: Floor, j: nat) {
    && (forall a :: 0 <= a < |s.inFlight| ==> s.inFlight[a].job != j)
    && (forall a :: 0 <= a < |s.glimpses| ==> s.glimpses[a] != Glimpse(j, JobFailed))
  }

  lemma DoneStep(s: Floor, e: Event, limit: int, j: nat)
    requires IsDone(s, j) && Unattended(s, j)
    ensures IsDone(Step(s, e, limit), j) && Unattended(Step(s, e, limit), j)
  {
    hide Selected;
    LeavesDoneExactly(s, e, limit, j);
  }

  lemma {:induction false} DoneStays(s: Floor, es: seq<Event>, limit: int, j: nat)
    requires IsDone(s, j) && Unattended(s, j)
    ensures IsDone(Run(s, es, limit), j)
    decreases es
  {
    hide Step, Unattended;
    if es != [] {
      DoneStep(s, es[0], limit, j);
      DoneStays(Step(s, es[0], limit), es[1..], limit, j);
    }
  }

  lemma OneStepRun(s: Floor, e: Event, limit: int)
    ensures Run(s, [e], limit) == Step(s, e, limit)
  {
    assert [e][1..] == [];
    assert Run(s, [e], limit) == Run(Step(s, e, limit), [], limit);
  }

  /**
   A printed job stays printed through every run exactly when no claim of it is open
   and no payment in flight saw it failed.
   */
  lemma DoneIsFinal(s: Floor, limit: int, j: nat)
    requires IsDone(s, j)
    ensures (forall es :: IsDone(Run(s, es, limit), j)) <==> Unattended(s, j)
  {
    if Unattended(s, j) {
      forall es
        ensures IsDone(Run(s, es, limit), j)
      {
        DoneStays(s, es, limit, j);
      }
    } else {
      var e: Event;
      if a :| 0 <= a < |s.inFlight| && s.inFlight[a].job == j {
        e := Finishes(a, RetryableFailure, 0, false);
      } else {
        var a :| 0 <= a < |s.glimpses| && s.glimpses[a] == Glimpse(j, JobFailed);
        e := Kicks(a, 0);
      }
      LeavesDoneExactly(s, e, limit, j);
      OneStepRun(s, e, limit);
      var es := [e];
      assert !IsDone(Run(s, es, limit), j);
    }
  }

  /** A job both of whose two open claims end, first printed and then failed, is failed again. */
  lemma PrintedThenFailed()
    ensures var s := Floor([Job(0, JobPending, 0, None)], [], []);
            var printed := Run(s, [Claims(0), Claims(0), Finishes(0, Printed, 5, false)], 5);
            IsDone(printed, 0) && !IsDone(Step(printed, Finishes(0, RetryableFailure, 6, false), 5), 0)
  {
    RunOfThree(Floor([Job(0, JobPending, 0, None)], [], []), Claims(0), Claims(0), Finishes(0, Printed, 5, false), 5);
  }

  lemma RunOfThree(s: Floor, a: Event, b: Event, c: Event, limit: int)
    ensures Run(s, [a, b, c], limit) == Step(Step(Step(s, a, limit), b, limit), c, limit)
  {
    hide Step;
    assert [a, b, c][1..] == [b, c] && [b, c][1..] == [c];
    assert Run(s, [a, b, c], limit) == Run(Step(s, a, limit), [b, c], limit);
    OneStepRun(Step(Step(s, a, limit), b, limit), c, limit);
  }

  /** A payment reads the job as failed, a worker prints it, the payment writes, and the job is printed again. */
  lemma PrintedTwice()
    ensures var s := Floor([Job(0, JobFailed, 1, Some(3))], [], []);
            var printed := Run(s, [Glances(0), Claims(0), Finishes(0, Printed, 5, false)], 5);
            && IsDone(printed, 0) && printed.inFlight == []
            && Dispatches(Step(printed, Kicks(0, 6), 5), Claims(0), 5, 0)
  {
    RunOfThree(Floor([Job(0, JobFailed, 1, Some(3))], [], []), Glances(0), Claims(0), Finishes(0, Printed, 5, false), 5);
  }

  /** With nothing between them the two half-steps are the payment's one step on the row. */
  lemma KickAtOnce(s: Floor, j: nat, now: int, limit: int)
    requires j < |s.jobs|
    ensures Run(s, [Glances(j), Kicks(|s.glimpses|, now)], limit) == s.(jobs := s.jobs[j := Kick(s.jobs[j], now)])
  {
    var es := [Glances(j), Kicks(|s.glimpses|, now)];
    assert es[1..] == [es[1]];
    assert Run(s, es, limit) == Run(Step(s, es[0], limit), es[1..], limit);
    OneStepRun(Step(s, es[0], limit), es[1], limit);
  }

  // ---------- one worker ----------

  /** One undisturbed execution: claim, then write what the printer answered. */
  function Execute(jobs: seq<Job>, j: nat, limit: int, outcome: Printing, now: int): seq<Job> {
    var (claimed, r) := ClaimJob(jobs, j, limit);
    if r.Dispatch? then FinishJob(claimed, r.claim, outcome, now, true) else claimed
  }

  /** What may touch the row while one worker brings it to rest. */
  datatype Turn =
    | Executes(outcome: Printing, now: int)
    | Recovered(now: int, batch: int, seconds: int)
    | Woken(seen: JobStatus, now: int)

  function Take(jobs: seq<Job>, j: nat, limit: int, turn: Turn): seq<Job> {
    match turn
    case Executes(outcome, now) => Execute(jobs, j, limit, outcome, now)
    case Recovered(now, batch, seconds) => Recover(jobs, now, batch, seconds)
    case Woken(seen, now) => if j < |jobs| then jobs[j := KickSeen(jobs[j], seen, now)] else jobs
  }

  function TakeAll(jobs: seq<Job>, j: nat, limit: int, turns: seq<Turn>): seq<Job>
    decreases turns
  {
    if turns == [] then jobs else TakeAll(Take(jobs, j, limit, turns[0]), j, limit, turns[1..])
  }

  function Executions(turns: seq<Turn>): nat {
    if turns == [] then 0 else (if turns[0].Executes? then 1 else 0) + Executions(turns[1..])
  }

  /** Done, or failed with nothing left to retry. */
  predicate AtRest(jobs: seq<Job>, j: nat) {
    j < |jobs| && (jobs[j].status == JobDone || (jobs[j].status == JobFailed && jobs[j].nextTry.None?))
  }

  /** Executions left before the limit; none when a lowered limit has been passed already. */
  function Left(job: Job, limit: int): nat {
    if job.tries < limit then limit - job.tries else 0
  }

  lemma TurnLeaves(jobs: seq<Job>, j: nat, limit: int, turn: Turn)
    requires j < |jobs|
    ensures var after := Take(jobs, j, limit, turn);
            && j < |after|
            && (turn.Executes? ==> AtRest(after, j) || Left(after[j], limit) + 1 == Left(jobs[j], limit))
            && (!turn.Executes? ==> Left(after[j], limit) == Left(jobs[j], limit))
  {
    hide Selected, Delay, Interval;
  }

  /**
   Whatever the printer answers, and with recovery batches and payments anywhere
   between its executions, one worker brings the job to rest within one execution
   more than it has left.
   */
  lemma {:induction false} AtRestWithinLimit(jobs: seq<Job>, j: nat, limit: int, turns: seq<Turn>)
    requires j < |jobs| && Executions(turns) == Left(jobs[j], limit) + 1
    ensures exists k :: 0 <= k <= |turns| && AtRest(TakeAll(jobs, j, limit, turns[..k]), j)
    decreases |turns|
  {
    hide Take, AtRest, Left;
    var after := Take(jobs, j, limit, turns[0]);
    TurnLeaves(jobs, j, limit, turns[0]);
    assert turns[..1][1..] == [] && turns[..1][0] == turns[0];
    assert TakeAll(jobs, j, limit, turns[..1]) == TakeAll(after, j, limit, []) == after;
    if !AtRest(after, j) {
      AtRestWithinLimit(after, j, limit, turns[1..]);
      var k :| 0 <= k <= |turns| - 1 && AtRest(TakeAll(after, j, limit, turns[1..][..k]), j);
      assert turns[..k + 1][0] == turns[0] && turns[..k + 1][1..] == turns[1..][..k];
      assert AtRest(TakeAll(jobs, j, limit, turns[..k + 1]), j);
    }
  }

  // ---------- back-off ----------

  /** Seconds waited after the first n failures. */
  function TotalDelay(n: nat): int {
    if n == 0 then 0 else TotalDelay(n - 1) + Delay(n)
  }

  lemma {:induction false} Pow2Monotone(a: nat, b: nat)
    requires a <= b
    ensures Pow2(a) <= Pow2(b)
    decreases b - a
  {
    if a < b {
      Pow2Monotone(a + 1, b);
    }
  }

  lemma Pow2Ten()
    ensures Pow2(9) == 512 && Pow2(10) == 1024
  {
  }

  /** 2^n - 1 seconds for up to ten failures, then fifteen minutes for each further one. */
  lemma {:induction false} TotalDelayClosedForm(n: nat)
    ensures TotalDelay(n) == SECOND * (if n <= 10 then Pow2(n) - 1 else 1023 + 900 * (n - 10))
  {
    Pow2Ten();
    if n > 0 {
      TotalDelayClosedForm(n - 1);
      if n <= 10 {
        Pow2Monotone(n - 1, 9);
      } else {
        Pow2Monotone(10, n - 1);
      }
    }
  }

  /** A waiting row: the job may be picked from the instant its time names, at once if it names none. */
  lemma QueueExactly(jobs: seq<Job>, now: int, j: nat)
    ensures j in DueJobs(jobs, now) <==>
            && j < |jobs|
            && match jobs[j].status
               case JobPending => jobs[j].nextTry.None? || jobs[j].nextTry.value <= now
               case JobFailed => jobs[j].nextTry.Some? && jobs[j].nextTry.value <= now
               case _ => false
  {
    DueJobsFacts(jobs, now);
    hide DueJobs;
  }

  /** What the printer's answer to an execution leaves, when the job had executions left. */
  lemma ExecutionLeaves(jobs: seq<Job>, j: nat, limit: int, outcome: Printing, now: int)
    requires j < |jobs| && jobs[j].status != JobDone && jobs[j].tries < limit
    ensures var after := Execute(jobs, j, limit, outcome, now);
            var tries := jobs[j].tries + 1;
            && |after| == |jobs| && (forall i :: 0 <= i < |jobs| && i != j ==> after[i] == jobs[i])
            && after[j].order == jobs[j].order && after[j].tries == tries
            && match outcome
               case Printed => after[j].status == JobDone
               case PermanentFailure => after[j].status == JobFailed && after[j].nextTry == None
               case RetryableFailure =>
                 after[j].status == JobFailed && after[j].nextTry == Some(now + SECOND * Min(Pow2(tries - 1), 900))
  {
  }

  /**
   A retryable failure puts the job back into recovery's queue from exactly its
   back-off on; after a permanent one, or a print, it is at rest and in no queue.
   */
  lemma FailureQueuesExactly(jobs: seq<Job>, j: nat, limit: int, outcome: Printing, now: int, t: int)
    requires j < |jobs| && jobs[j].status != JobDone && jobs[j].tries < limit
    ensures var after := Execute(jobs, j, limit, outcome, now);
            && (j in DueJobs(after, t) <==>
                 outcome == RetryableFailure && t >= now + SECOND * Min(Pow2(jobs[j].tries), 900))
            && (AtRest(after, j) <==> outcome != RetryableFailure)
  {
    var after := Execute(jobs, j, limit, outcome, now);
    ExecutionLeaves(jobs, j, limit, outcome, now);
    QueueExactly(after, t, j);
    hide DueJobs, Execute;
  }

  /** Without executions left the job fails for good, whatever the printer would say. */
  lemma LimitFails(jobs: seq<Job>, j: nat, limit: int, outcome: Printing, now: int)
    requires j < |jobs| && jobs[j].status != JobDone && jobs[j].tries >= limit
    ensures Execute(jobs, j, limit, outcome, now) == jobs[j := jobs[j].(status := JobFailed, nextTry := None)]
  {
  }

  /** `n` executions answered with a retryable failure, the first at `t`, each further one as soon as the job is due. */
  function RetriedWhenDue(jobs: seq<Job>, j: nat, limit: int, n: nat, t: int): seq<Job>
    decreases n
  {
    if n == 0 then jobs
    else
      var after := Execute(jobs, j, limit, RetryableFailure, t);
      var due := if j < |after| && after[j].nextTry.Some? then after[j].nextTry.value else t;
      RetriedWhenDue(after, j, limit, n - 1, due)
  }

  lemma {:induction false} RetriesWait(jobs: seq<Job>, j: nat, limit: int, n: nat, t: int)
    requires j < |jobs| && jobs[j].status != JobDone && jobs[j].tries + n <= limit && n > 0
    ensures var after := RetriedWhenDue(jobs, j, limit, n, t);
            && j < |after| && after[j].status == JobFailed && after[j].tries == jobs[j].tries + n
            && after[j].nextTry == Some(t + TotalDelay(jobs[j].tries + n) - TotalDelay(jobs[j].tries))
    decreases n
  {
    var after := Execute(jobs, j, limit, RetryableFailure, t);
    ExecutionLeaves(jobs, j, limit, RetryableFailure, t);
    assert after[j].nextTry == Some(t + Delay(jobs[j].tries + 1));
    hide Execute, Delay;
    if n > 1 {
      RetriesWait(after, j, limit, n - 1, after[j].nextTry.value);
    } else {
      assert RetriedWhenDue(jobs, j, limit, n, t) == RetriedWhenDue(after, j, limit, 0, after[j].nextTry.value) == after;
    }
  }

  /** A new job that fails n times, retried as soon as it is due, is due again after 2^n - 1 seconds, and so on. */
  lemma RetriesTakeTotal(jobs: seq<Job>, j: nat, limit: int, n: nat, t: int)
    requires j < |jobs| && jobs[j].status == JobPending && jobs[j].tries == 0 && 0 < n <= limit
    ensures var after := RetriedWhenDue(jobs, j, limit, n, t);
            && j < |after| && after[j].status == JobFailed && after[j].tries == n
            && after[j].nextTry == Some(t + SECOND * (if n <= 10 then Pow2(n) - 1 else 1023 + 900 * (n - 10)))
  {
    RetriesWait(jobs, j, limit, n, t);
    TotalDelayClosedForm(n);
    hide RetriedWhenDue;
  }

  // ---------- recovery ----------

  /** A batch makes every picked job wait, pending, for one interval of at least a second; the others are untouched. */
  lemma RecoveredRows(jobs: seq<Job>, now: int, batch: int, seconds: int, j: nat)
    requires j < |jobs|
    ensures Recover(jobs, now, batch, seconds)[j] ==
            if j in Selected(jobs, now, batch) then
              jobs[j].(status := JobPending, nextTry := Some(now + SECOND * (if seconds >= 1 then seconds else 1)))
            else jobs[j]
  {
    hide Selected, DueJobs;
    if j in Selected(jobs, now, batch) {
      SelectedAreDue(jobs, now, batch, j);
    }
  }

  lemma {:induction false} DueBelowFacts(jobs: seq<Job>, now: int, n: nat)
    requires n <= |jobs|
    ensures forall j: nat :: j in DueBelow(jobs, now, n) <==> j < n && PrintJobs.IsDue(jobs[j], now)
    ensures NoDups(DueBelow(jobs, now, n))
  {
    if n > 0 {
      DueBelowFacts(jobs, now, n - 1);
      assert n - 1 !in DueBelow(jobs, now, n - 1);
    }
  }

  lemma DueJobsFacts(jobs: seq<Job>, now: int)
    ensures forall j: nat :: j in DueJobs(jobs, now) <==> j < |jobs| && PrintJobs.IsDue(jobs[j], now)
    ensures NoDups(DueJobs(jobs, now))
    ensures Sorted(JobOrder(jobs), DueJobs(jobs, now))
  {
    DueBelowFacts(jobs, now, |jobs|);
    var below := DueBelow(jobs, now, |jobs|);
    SortPermutes(JobOrder(jobs), below);
    SortSorts(JobOrder(jobs), below);
    CountedOnce(below, DueJobs(jobs, now));
    forall j: nat
      ensures j in DueJobs(jobs, now) <==> j in below
    {
      SortMembers(JobOrder(jobs), below, j);
    }
  }

  /** The queue has the jobs without a time first, then the earlier times, and equal ones by id. */
  lemma QueueInOrder(jobs: seq<Job>, now: int, a: nat, b: nat)
    requires a < b < |DueJobs(jobs, now)|
    ensures var i, j := DueJobs(jobs, now)[a], DueJobs(jobs, now)[b];
            && i < |jobs| && j < |jobs|
            && match jobs[i].nextTry
               case None => jobs[j].nextTry == None ==> i < j
               case Some(t) => jobs[j].nextTry.Some? && (t < jobs[j].nextTry.value || (t == jobs[j].nextTry.value && i < j))
  {
    DueJobsFacts(jobs, now);
    var due := DueJobs(jobs, now);
    assert due[a] in due && due[b] in due && due[a] != due[b];
    hide DueJobs;
  }

  /** A batch picks the head of the queue, as long as asked for or all of it; asked for none, or fewer, it changes nothing. */
  lemma SelectsHead(jobs: seq<Job>, now: int, batch: int, seconds: int)
    ensures Selected(jobs, now, batch) <= DueJobs(jobs, now)
    ensures |Selected(jobs, now, batch)| == Min(|DueJobs(jobs, now)|, Max(batch, 0))
    ensures batch <= 0 ==> Recover(jobs, now, batch, seconds) == jobs
  {
    hide DueJobs;
  }

  /** Recovery touches no finished, running or permanently failed job. */
  lemma SelectedAreDue(jobs: seq<Job>, now: int, batch: int, j: nat)
    requires j in Selected(jobs, now, batch)
    ensures j < |jobs| && jobs[j].status != JobDone && jobs[j].status != JobProcessing
    ensures jobs[j].status == JobFailed ==> jobs[j].nextTry.Some?
    ensures jobs[j].nextTry.Some? ==> jobs[j].nextTry.value <= now
  {
    DueJobsFacts(jobs, now);
    assert j in DueJobs(jobs, now);
  }

  /**
   A second recovery less than an interval later does not pick a job of the first
   whose row nothing touched in between.
   */
  lemma RecoveriesDisjoint(jobs: seq<Job>, now: int, batch: int, seconds: int, later: seq<Job>, now': int, batch': int, j: nat)
    requires j in Selected(jobs, now, batch) && j < |later|
    requires j < |jobs| ==> later[j] == Recover(jobs, now, batch, seconds)[j]
    requires now' < now + Interval(seconds)
    ensures j !in Selected(later, now', batch')
  {
    hide Selected, Interval;
    SelectedAreDue(jobs, now, batch, j);
    if j in Selected(later, now', batch') {
      SelectedAreDue(later, now', batch', j);
    }
  }

  lemma IntervalPositive(seconds: int)
    ensures Interval(seconds) > 0
  {
  }

  /** The part of the queue of due jobs behind the batch. */
  function Behind(due: seq<nat>, batch: int): seq<nat>
    requires batch >= 0
  {
    if batch < |due| then due[batch..] else []
  }

  lemma DueAfterRecovery(jobs: seq<Job>, now: int, batch: int, seconds: int, j: nat)
    requires batch > 0
    ensures j in DueJobs(Recover(jobs, now, batch, seconds), now) <==> j in Behind(DueJobs(jobs, now), batch)
  {
    var due, jobs' := DueJobs(jobs, now), Recover(jobs, now, batch, seconds);
    DueJobsFacts(jobs, now);
    DueJobsFacts(jobs', now);
    IntervalPositive(seconds);
    hide DueJobs, Interval;
    if batch < |due| {
      SplitNoDups(due, batch, j);
    }
  }

  lemma BehindStaysSorted(jobs: seq<Job>, now: int, batch: int, seconds: int)
    requires batch > 0
    ensures Sorted(JobOrder(Recover(jobs, now, batch, seconds)), Behind(DueJobs(jobs, now), batch))
  {
    hide DueJobs, Interval;
    var due, rest := DueJobs(jobs, now), Behind(DueJobs(jobs, now), batch);
    var jobs' := Recover(jobs, now, batch, seconds);
    DueJobsFacts(jobs, now);
    forall a, b | 0 <= a < b < |rest|
      ensures JobOrder(jobs')(rest[a], rest[b])
    {
      assert rest[a] == due[batch + a] && rest[b] == due[batch + b];
      assert JobOrder(jobs)(rest[a], rest[b]);
      assert rest[a] in due && rest[b] in due;
      assert rest[a] !in due[..batch] && rest[b] !in due[..batch];
    }
  }

  /** A batch takes the head of the queue of due jobs and leaves exactly its tail due, in the same order. */
  lemma RecoverTakesHead(jobs: seq<Job>, now: int, batch: int, seconds: int)
    requires batch > 0
    ensures DueJobs(jobs, now) == Selected(jobs, now, batch) + Behind(DueJobs(jobs, now), batch)
    ensures |Selected(jobs, now, batch)| <= batch
    ensures DueJobs(Recover(jobs, now, batch, seconds), now) == Behind(DueJobs(jobs, now), batch)
  {
    hide DueJobs, Recover;
    var jobs' := Recover(jobs, now, batch, seconds);
    var due', rest := DueJobs(jobs', now), Behind(DueJobs(jobs, now), batch);
    DueJobsFacts(jobs, now);
    DueJobsFacts(jobs', now);
    forall j: nat
      ensures j in due' <==> j in rest
    {
      DueAfterRecovery(jobs, now, batch, seconds, j);
    }
    SameMembers(due', rest);
    BehindStaysSorted(jobs, now, batch, seconds);
    SortedUnique(JobOrder(jobs'), due', rest);
  }

  /** The ids recovered by `rounds` batches run at one instant, in the order they were recovered. */
  function RecoveredBy(jobs: seq<Job>, now: int, batch: int, seconds: int, rounds: nat): seq<nat>
    decreases rounds
  {
    if rounds == 0 then []
    else Selected(jobs, now, batch) + RecoveredBy(Recover(jobs, now, batch, seconds), now, batch, seconds, rounds - 1)
  }

  /**
   Batches run at one instant go through the due jobs in nulls-first, time, id order:
   after n batches they have covered the first n * batch jobs, each once.
   */
  lemma {:induction false} RecoveryCovers(jobs: seq<Job>, now: int, batch: int, seconds: int, rounds: nat)
    requires batch > 0
    ensures var due := DueJobs(jobs, now);
            RecoveredBy(jobs, now, batch, seconds, rounds) ==
            if rounds * batch < |due| then due[..rounds * batch] else due
    decreases rounds
  {
    hide DueJobs, Recover, Selected;
    var due := DueJobs(jobs, now);
    if rounds > 0 {
      var jobs' := Recover(jobs, now, batch, seconds);
      RecoverTakesHead(jobs, now, batch, seconds);
      RecoveryCovers(jobs', now, batch, seconds, rounds - 1);
      assert rounds * batch == (rounds - 1) * batch + batch;
      assert (rounds - 1) * batch >= 0;
      if batch < |due| {
        assert Selected(jobs, now, batch) == due[..batch];
      }
    }
  }
}
