/**
 One compute job and its three attempts (reports.processor.ts), first as the imperative handler over
 the reports table and the job queue, then among users who cancel and crons that reset. Every awaited
 call of an attempt may throw; a call that throws has not taken effect, except that the claim is an
 update followed by a read, and either may throw.
 */
module ReportJobs {
  import opened Wrappers
  import opened ReportTable
  import opened ReportLifecycle
  import opened ReportTheorems

  // ---- An attempt among cancels, crons and the passing of time ---------------------------

  /** How the claim comes out: it answers, its update throws, or the read after its update throws. */
  datatype ClaimCall = Answered | Refused | Unread

  /** What happens around the awaited calls of one attempt, and how its own calls come out. */
  datatype Attempt = Attempt(
    beforeRead: seq<Event>,
    beforeClaim: seq<Event>,
    beforeCompute: seq<Event>,
    beforeWrite: seq<Event>,
    beforeCatch: seq<Event>,
    found: bool,        // the first read of the report returns
    claim: ClaimCall,
    ok: bool,           // the computation returns
    saved: bool,        // the READY write returns
    closed: bool,       // the catch block's own write returns
    created: bool,      // the next occurrence is inserted
    enqueued: bool)     // and its job is added

  predicate EnvironmentOnly(es: seq<Event>) {
    forall i :: 0 <= i < |es| ==> es[i].Tick? || es[i].CronRead? || es[i].CronReset? || es[i].Cancel?
  }

  predicate Undisturbed(a: Attempt) {
    && EnvironmentOnly(a.beforeRead) && EnvironmentOnly(a.beforeClaim) && EnvironmentOnly(a.beforeCompute)
    && EnvironmentOnly(a.beforeWrite) && EnvironmentOnly(a.beforeCatch)
  }

  predicate Resets(es: seq<Event>) { exists i :: 0 <= i < |es| && es[i].CronReset? }

  function Delivered(s: State, w: nat, r: nat, made: nat, a: Attempt): State {
    var u := Run(s, a.beforeRead);
    if a.found then DeliverStep(u, w, r, made) else u
  }

  function Claimed(d: State, w: nat, a: Attempt): State {
    var u := Run(d, a.beforeClaim);
    match a.claim
    case Answered => ClaimStep(u, w)
    case Refused => Drop(u, w)
    case Unread => Drop(ClaimStep(u, w), w)
  }

  function Calculated(c: State, w: nat, a: Attempt): State {
    ComputeStep(Run(c, a.beforeCompute), w, a.ok)
  }

  /** After the READY write, which a failed computation skips. */
  function Saved(c: State, w: nat, a: Attempt): State {
    var u := Run(Calculated(c, w, a), a.beforeWrite);
    if !a.ok then u else if a.saved then WriteStep(u, w) else WriteErrorStep(u, w)
  }

  /** After the catch block, which a saved report skips. */
  function Closed(c: State, w: nat, a: Attempt): State {
    var v := Run(Saved(c, w, a), a.beforeCatch);
    if a.ok && a.saved then v else if a.closed then WriteStep(v, w) else WriteErrorStep(v, w)
  }

  function Finished(c: State, w: nat, a: Attempt): State {
    EnqueueStep(CreateNextStep(Closed(c, w, a), w, a.created), w, 0, a.enqueued)
  }

  function AttemptRun(s: State, w: nat, r: nat, made: nat, a: Attempt): State {
    var d := Delivered(s, w, r, made, a);
    if w !in d.workers then d else
    var c := Claimed(d, w, a);
    if w !in c.workers then c else Finished(c, w, a)
  }

  ghost predicate HoldWithinLease(c: State, w: nat, a: Attempt) {
    && WithinLease(c, a.beforeCompute)
    && WithinLease(Calculated(c, w, a), a.beforeWrite)
    && WithinLease(Saved(c, w, a), a.beforeCatch)
  }

  ghost predicate AttemptWithinLease(s: State, w: nat, r: nat, made: nat, a: Attempt) {
    var d := Delivered(s, w, r, made, a);
    && WithinLease(s, a.beforeRead)
    && (w in d.workers ==>
          && WithinLease(d, a.beforeClaim)
          && (w in Claimed(d, w, a).workers ==> HoldWithinLease(Claimed(d, w, a), w, a)))
  }

  /** The handler throws on a failed or conflicting first read, a failed claim, and after its catch block. */
  predicate Throws(s: State, w: nat, r: nat, made: nat, a: Attempt) {
    var d := Delivered(s, w, r, made, a);
    || w !in d.workers
    || match a.claim
       case Answered => w in Claimed(d, w, a).workers && !(a.ok && a.saved)
       case Refused => true
       case Unread => w in ClaimStep(Run(d, a.beforeClaim), w).workers
  }

  /** The queue retries a job that threw until its attempts are used up. */
  function JobRun(s: State, w: nat, r: nat, made: nat, attempts: seq<Attempt>): State
    decreases |attempts|
  {
    if attempts == [] then s else
    var s' := AttemptRun(s, w, r, made, attempts[0]);
    if Throws(s, w, r, made, attempts[0]) then JobRun(s', w, r, made + 1, attempts[1..]) else s'
  }

  ghost predicate JobWithinLease(s: State, w: nat, r: nat, made: nat, attempts: seq<Attempt>)
    decreases |attempts|
  {
    attempts != [] ==>
      && AttemptWithinLease(s, w, r, made, attempts[0])
      && (Throws(s, w, r, made, attempts[0]) ==>
            JobWithinLease(AttemptRun(s, w, r, made, attempts[0]), w, r, made + 1, attempts[1..]))
  }

  // ---- The handler ----------------------------------------------------------------------

  datatype Outcome = Done | Skipped | Thrown

  /** Report `r` is READY and delivered now; a series that goes on has one more report, for that date. */
  ghost predicate DeliveredRows(before: seq<Row>, after: seq<Row>, r: nat, goesOn: bool, now: int)
    requires r < |before|
  {
    && |after| == |before| + (if goesOn then 1 else 0)
    && OnlyChanges(before, after[..|before|], r)
    && after[r].status == READY && after[r].delivered == Some(now)
    && (goesOn ==> after[|before|] == Row(before[r].occurrence + 1, now, PENDING, now, None))
  }

  /** The claim beforehand only changed the same report. */
  lemma SinceClaim(before: seq<Row>, claimed: seq<Row>, after: seq<Row>, r: nat, goesOn: bool, now: int)
    requires r < |before| && OnlyChanges(before, claimed, r)
    ensures DeliveredRows(claimed, after, r, goesOn, now) ==> DeliveredRows(before, after, r, goesOn, now)
    ensures OnlyChanges(claimed, after, r) ==> OnlyChanges(before, after, r)
  {
  }

  lemma DeliveredByWrite(before: seq<Row>, r: nat, goesOn: bool, now: int)
    requires r < |before|
    ensures var ready := WriteReport(before, r, READY, Some(now), now);
            && r < |ready| == |before| && ready[r].occurrence == before[r].occurrence
            && DeliveredRows(before, ready + (if goesOn then [Row(before[r].occurrence + 1, now, PENDING, now, None)] else []),
                             r, goesOn, now)
  {
    var ready := WriteReport(before, r, READY, Some(now), now);
    assert (ready + [Row(before[r].occurrence + 1, now, PENDING, now, None)])[..|before|] == ready;
    assert ready[..|before|] == ready == ready + [];
  }

  class ReportProcessor {
    const db: ReportModelAction
    var jobs: map<nat, int>
    const series: Series

    constructor (db: ReportModelAction, series: Series)
      requires ValidSeries(series)
      ensures this.db == db && this.series == series && jobs == map[]
    {
      this.db := db;
      this.series := series;
      this.jobs := map[];
    }

    ghost function Seen(clock: int, workers: map<nat, Worker>): State
      reads this, db
    {
      State(series, clock, db.rows, jobs, workers, map[])
    }

    /** The insert may throw, and so may the queue afterwards; the caller's handler swallows both. */
    method GenerateNewSeriesReport(r: nat, delivered: int, now: int, created: bool, enqueued: bool)
      requires r < |db.rows|
      modifies this`jobs, db
      ensures !created ==> db.rows == old(db.rows)
      ensures created ==>
                db.rows == old(db.rows) + [Row(old(db.rows)[r].occurrence + 1, delivered, PENDING, now, None)]
      ensures jobs == if created && enqueued
                      then old(jobs)[|old(db.rows)| := Later(now, RangeEnd(series, delivered))] else old(jobs)
      ensures Seen(now, map[]) == EnqueueStep(
                CreateNextStep(old(Seen(now, map[0 := Scheduling(r, delivered)])), 0, created), 0, 0, enqueued)
    {
      ghost var s0 := Seen(now, map[0 := Scheduling(r, delivered)]);
      assert map[0 := Scheduling(r, delivered)] - {0} == map[];
      if !created { return; }
      var renewed := Row(db.rows[r].occurrence + 1, delivered, PENDING, now, None);
      var id := |db.rows|;
      db.rows := db.rows + [renewed];
      assert map[0 := Scheduling(r, delivered)][0 := Enqueuing(id)] - {0} == map[];
      hide ReportDelay;
      assert CreateNextStep(s0, 0, true) == Seen(now, map[0 := Scheduling(r, delivered)][0 := Enqueuing(id)]);
      if enqueued { jobs := jobs[id := now + ReportDelay(series, db.rows[id].reference, now)]; }
    }

    method CatchBlock(r: nat, made: nat, now: int)
      requires r < |db.rows|
      modifies db
      ensures db.rows == if LastAttempt(made) then WriteReport(old(db.rows), r, FAILED, None, now)
                         else SetStatus(old(db.rows), r, PENDING, now)
      ensures OnlyChanges(old(db.rows), db.rows, r)
      ensures db.rows[r].status == (if made >= 2 then FAILED else PENDING) && db.rows[r].delivered == old(db.rows)[r].delivered
    {
      if LastAttempt(made) {
        db.UpdateReport(r, FAILED, None, now);
      } else {
        db.UpdateReportStatusUnconditional(r, PENDING, now);
      }
    }

    /** The handler once it holds the report: compute, write READY and schedule, or the catch block. */
    method ComputeAndWrite(r: nat, made: nat, a: Attempt, now: int) returns (done: bool)
      requires ValidSeries(series) && r < |db.rows|
      modifies this`jobs, db
      ensures Seen(now, map[]) == AloneFinish(old(Seen(now, map[0 := Holding(r, made, now)])), a)
      ensures done <==> a.ok && a.saved
      ensures done ==> DeliveredRows(old(db.rows), db.rows, r, series.recurring && a.created, now)
      ensures jobs == if done && series.recurring && a.created && a.enqueued
                      then old(jobs)[|old(db.rows)| := Later(now, RangeEnd(series, now))] else old(jobs)
      ensures !done ==> OnlyChanges(old(db.rows), db.rows, r)
      ensures !done ==> db.rows[r].status == if !a.closed then old(db.rows)[r].status else if made >= 2 then FAILED else PENDING
    {
      ghost var held := Seen(now, map[0 := Holding(r, made, now)]);
      if a.ok && a.saved { SavedSteps(held, r, made, a); } else { CaughtSteps(held, r, made, a); }
      DeliveredByWrite(db.rows, r, series.recurring && a.created, now);
      hide ReportDelay, RangeEnd, Later, AloneFinish, DeliveredRows, EnqueueStep, CreateNextStep;
      done := a.ok && a.saved;
      if done {
        db.UpdateReport(r, READY, Some(now), now);
        if series.period != PeriodRanges.Custom && series.recurring {
          GenerateNewSeriesReport(r, now, now, a.created, a.enqueued);
        }
      } else if a.closed {                             // or the catch block throws too
        CatchBlock(r, made, now);
      }
    }

    /**
     handleComputeReport with no one else about, at a single instant, however its calls come out. It
     performs the protocol's own steps in order.
     */
    method HandleComputeReport(r: nat, made: nat, a: Attempt, now: int) returns (outcome: Outcome)
      requires ValidSeries(series) && WithoutPauses(a)
      requires r in jobs && jobs[r] <= now
      modifies this`jobs, db
      ensures Seen(now, map[]) == AttemptRun(old(Seen(now, map[])), 0, r, made, a)
      ensures outcome == Done <==>
                a.found && r < |old(db.rows)| && old(db.rows)[r].status == PENDING && a.claim.Answered? && a.ok && a.saved
      ensures outcome != Skipped
      ensures outcome == Done ==> DeliveredRows(old(db.rows), db.rows, r, series.recurring && a.created, now)
      ensures jobs == if outcome == Done && series.recurring && a.created && a.enqueued
                      then old(jobs)[|old(db.rows)| := Later(now, RangeEnd(series, now))] else old(jobs)
      ensures outcome != Done ==> OnlyChanges(old(db.rows), db.rows, r)
      ensures outcome != Done && r < |old(db.rows)| ==>
                db.rows[r].status
                == if old(db.rows)[r].status != PENDING || !a.found || a.claim.Refused? then old(db.rows)[r].status
                   else if a.claim.Unread? || !a.closed then PROCESSING
                   else if made >= 2 then FAILED else PENDING
    {
      AloneSteps(Seen(now, map[]), r, made, a);
      ClaimSteps(Seen(now, map[]), r, made, a);
      hide ReportDelay, AttemptRun, Run, AloneFinish, AloneRun, DeliveredRows, RangeEnd, Later;
      if !a.found || r >= |db.rows| { return Thrown; } // the read throws or finds nothing
      var report := db.rows[r];
      if report.status != PENDING { return Thrown; }   // conflict
      if a.claim.Refused? { return Thrown; }
      var updated := db.UpdateReportStatus(r, PROCESSING, now);
      if updated == None { return Skipped; }
      if a.claim.Unread? { return Thrown; }
      ghost var claimed := db.rows;
      var done := ComputeAndWrite(r, made, a, now);
      SinceClaim(old(db.rows), claimed, db.rows, r, series.recurring && a.created, now);
      outcome := if done then Done else Thrown;
    }
  }

  predicate WithoutPauses(a: Attempt) {
    a.beforeRead == [] && a.beforeClaim == [] && a.beforeCompute == [] && a.beforeWrite == [] && a.beforeCatch == []
  }

  /** The steps of an undisturbed attempt, call by call. */
  lemma AloneSteps(s: State, r: nat, made: nat, a: Attempt)
    requires WithoutPauses(a)
    ensures AttemptRun(s, 0, r, made, a) == AloneRun(s, r, made, a)
  {
    hide EnqueueStep, CreateNextStep, WriteStep, ComputeStep, ClaimStep, DeliverStep, WriteErrorStep;
  }

  function AloneRun(s: State, r: nat, made: nat, a: Attempt): State {
    var d := if a.found then DeliverStep(s, 0, r, made) else s;
    if 0 !in d.workers then d else
    var c := match a.claim
             case Answered => ClaimStep(d, 0)
             case Refused => Drop(d, 0)
             case Unread => Drop(ClaimStep(d, 0), 0);
    if 0 !in c.workers then c else AloneFinish(c, a)
  }

  function AloneFinish(c: State, a: Attempt): State {
    var v := ComputeStep(c, 0, a.ok);
    var x := if !a.ok then v else if a.saved then WriteStep(v, 0) else WriteErrorStep(v, 0);
    var y := if a.ok && a.saved then x else if a.closed then WriteStep(x, 0) else WriteErrorStep(x, 0);
    EnqueueStep(CreateNextStep(y, 0, a.created), 0, 0, a.enqueued)
  }

  /** With no worker about: what an attempt comes to before its computation. */
  lemma ClaimSteps(s: State, r: nat, made: nat, a: Attempt)
    requires s.workers == map[] && r in s.jobs && s.jobs[r] <= s.clock
    ensures AloneRun(s, r, made, a) ==
            if !a.found || r >= |s.rows| || s.rows[r].status != PENDING || a.claim.Refused? then s
            else
              var c := s.(rows := CasStatus(s.rows, r, PROCESSING, s.clock));
              if a.claim.Unread? then c else AloneFinish(c.(workers := map[0 := Holding(r, made, s.clock)]), a)
  {
    hide AloneFinish;
    var d := DeliverStep(s, 0, r, made);
    if a.found && r < |s.rows| && s.rows[r].status == PENDING {
      assert d == s.(workers := map[0 := Reading(r, made)]);
      assert d.workers - {0} == map[];
      var c := ClaimStep(d, 0);
      assert c == s.(rows := CasStatus(s.rows, r, PROCESSING, s.clock), workers := map[0 := Holding(r, made, s.clock)]);
      assert c.workers - {0} == map[];
    }
  }

  /** The only worker holds `r`, and its result is saved. */
  lemma SavedSteps(s: State, r: nat, made: nat, a: Attempt)
    requires r < |s.rows| && s.workers == map[0 := Holding(r, made, s.clock)] && a.ok && a.saved
    ensures AloneFinish(s, a) ==
            var ready := s.(rows := WriteReport(s.rows, r, READY, Some(s.clock), s.clock));
            if s.series.recurring
            then EnqueueStep(CreateNextStep(ready.(workers := map[0 := Scheduling(r, s.clock)]), 0, a.created), 0, 0, a.enqueued)
            else ready.(workers := map[])
  {
    var v := ComputeStep(s, 0, true);
    assert v == s.(workers := map[0 := Computed(r, made, s.clock, s.clock)]);
    WriteReady(v, r, made);
    hide WriteStep, ReportDelay;
  }

  /** The only worker holds `r`, and its result fails or is not saved. */
  lemma CaughtSteps(s: State, r: nat, made: nat, a: Attempt)
    requires r < |s.rows| && s.workers == map[0 := Holding(r, made, s.clock)] && !(a.ok && a.saved)
    ensures AloneFinish(s, a) ==
            if !a.closed then s.(workers := map[])
            else if LastAttempt(made) then s.(workers := map[], rows := WriteReport(s.rows, r, FAILED, None, s.clock))
            else s.(workers := map[], rows := SetStatus(s.rows, r, PENDING, s.clock))
  {
    hide ReportDelay;
    var v := ComputeStep(s, 0, a.ok);
    assert v == s.(workers := map[0 := if a.ok then Computed(r, made, s.clock, s.clock) else Failing(r, made, s.clock)]);
    var x := if !a.ok then v else WriteErrorStep(v, 0);
    assert x == s.(workers := map[0 := Failing(r, made, s.clock)]);
    assert x.workers - {0} == map[];
  }

  lemma WriteReady(v: State, r: nat, made: nat)
    requires r < |v.rows| && v.workers == map[0 := Computed(r, made, v.clock, v.clock)]
    ensures WriteStep(v, 0) == v.(rows := WriteReport(v.rows, r, READY, Some(v.clock), v.clock),
                                  workers := if v.series.recurring then map[0 := Scheduling(r, v.clock)] else map[])
  {
    assert v.workers - {0} == map[];
  }

  // ---- What the environment can do ---------------------------------------------------------

  /** To report `r`: nothing if it is held or finished, and to a stranded one only a reset. */
  ghost predicate Untouched(s: State, t: State, r: nat, cancelled: bool, reset: bool) {
    && t.workers == s.workers && t.jobs == s.jobs && t.series == s.series && t.clock >= s.clock
    && |t.rows| == |s.rows| && r < |s.rows|
    && (Terminal(s.rows[r].status) ==> t.rows[r] == s.rows[r])
    && ((exists w :: w in s.workers && Live(s.workers[w]) && s.workers[w].r == r) ==> t.rows[r] == s.rows[r])
    && (s.rows[r].status == PENDING ==> if cancelled then t.rows[r].status == CANCELLED else t.rows[r] == s.rows[r])
    && (s.rows[r].status == PROCESSING && !reset ==> t.rows[r] == s.rows[r])
  }

  lemma EnvironmentStep(s: State, e: Event, r: nat)
    requires Inv(s) && LeaseOk(s) && r < |s.rows|
    requires EnvironmentOnly([e])
    ensures Untouched(s, Next(s, e), r, e == Cancel(r), e.CronReset?)
  {
    hide RangeEnd, PairsOk, RowOk;
    assert [e][0] == e;
    assert forall w :: w in s.workers ==> WorkerOk(s, s.workers[w]);
  }

  lemma {:induction false} EnvironmentRun(s: State, es: seq<Event>, r: nat)
    requires Inv(s) && WithinLease(s, es) && r < |s.rows| && EnvironmentOnly(es)
    ensures Untouched(s, Run(s, es), r, Cancel(r) in es, Resets(es)) && Inv(Run(s, es)) && LeaseOk(Run(s, es))
    decreases |es|
  {
    hide Inv, LeaseOk, Next;
    if es != [] {
      assert es[0] in [es[0]];
      EnvironmentStep(s, es[0], r);
      NextInv(s, es[0]);
      EnvironmentRun(Next(s, es[0]), es[1..], r);
      assert es == [es[0]] + es[1..];
      if Resets(es[1..]) {
        var i :| 0 <= i < |es[1..]| && es[1..][i].CronReset?;
        assert es[i + 1].CronReset?;
      }
    }
  }

  // ---- What one attempt makes of its report --------------------------------------------------

  /** A user cancels report `r` in time; later cancels come too late. */
  predicate Cancels(a: Attempt, r: nat) { Cancel(r) in a.beforeRead || (a.found && Cancel(r) in a.beforeClaim) }

  /** The status that an attempt leaves, from the outcomes of its calls alone. */
  function After(status: Status, a: Attempt, r: nat, made: nat): Status {
    if status != PENDING then status
    else if Cancels(a, r) then CANCELLED
    else if !a.found || a.claim.Refused? then PENDING
    else if a.claim.Unread? then PROCESSING
    else if a.ok && a.saved then READY
    else if !a.closed then PROCESSING
    else if LastAttempt(made) then FAILED
    else PENDING
  }

  /** No worker is about, and the job of `r` is due. The report may be stranded in PROCESSING. */
  ghost predicate AttemptReady(s: State, r: nat) {
    Inv(s) && s.workers == map[] && r < |s.rows| && r in s.jobs && s.jobs[r] <= s.clock
  }

  lemma Delivering(s: State, w: nat, r: nat, made: nat, a: Attempt)
    requires AttemptReady(s, r) && Undisturbed(a) && WithinLease(s, a.beforeRead)
    requires s.rows[r].status == PROCESSING ==> !Resets(a.beforeRead)
    ensures var d := Delivered(s, w, r, made, a);
            && Inv(d) && LeaseOk(d) && r < |d.rows| && r in d.jobs && d.jobs[r] <= d.clock && d.series == s.series
            && (if s.rows[r].status == PENDING && Cancel(r) in a.beforeRead then d.rows[r].status == CANCELLED
                else d.rows[r] == s.rows[r])
            && d.workers == if a.found && d.rows[r].status == PENDING then map[w := Reading(r, made)] else map[]
  {
    hide Inv, LeaseOk, Run;
    EnvironmentRun(s, a.beforeRead, r);
    var u := Run(s, a.beforeRead);
    DeliverInv(u, w, r, made);
    assert LeaseOk(u) && LeaseOk(DeliverStep(u, w, r, made)) by { ReadersAreNotLive(u, w, r, made); }
  }

  lemma ReadersAreNotLive(s: State, w: nat, r: nat, made: nat)
    requires LeaseOk(s)
    ensures LeaseOk(DeliverStep(s, w, r, made))
  {
  }

  /** After the claim the worker holds the report, or the attempt is over. */
  lemma Claiming(d: State, w: nat, r: nat, made: nat, a: Attempt)
    requires Inv(d) && LeaseOk(d) && r < |d.rows| && r in d.jobs && d.jobs[r] <= d.clock
    requires d.rows[r].status == PENDING && d.workers == map[w := Reading(r, made)]
    requires Undisturbed(a) && WithinLease(d, a.beforeClaim)
    ensures var c := Claimed(d, w, a);
            && Inv(c) && LeaseOk(c) && r < |c.rows| && r in c.jobs && c.jobs[r] <= c.clock && c.series == d.series
            && if Cancel(r) in a.beforeClaim then c.workers == map[] && c.rows[r].status == CANCELLED
               else match a.claim
                    case Answered => c.workers == map[w := Holding(r, made, c.clock)]
                    case Refused => c.workers == map[] && c.rows[r].status == PENDING
                    case Unread => c.workers == map[] && c.rows[r].status == PROCESSING
    ensures !(Cancel(r) in a.beforeClaim) ==> w in ClaimStep(Run(d, a.beforeClaim), w).workers
  {
    hide Inv, LeaseOk, Run;
    EnvironmentRun(d, a.beforeClaim, r);
    var u := Run(d, a.beforeClaim);
    ClaimInv(u, w);
    DroppedInv(u, w);
    DroppedInv(ClaimStep(u, w), w);
    OnlyClaim(u, w, r, made);
  }

  lemma DroppedInv(s: State, w: nat)
    requires Inv(s)
    ensures Inv(Drop(s, w))
  {
    QuietInv(s, Crash(w));
  }

  lemma OnlyClaim(u: State, w: nat, r: nat, made: nat)
    requires LeaseOk(u) && r < |u.rows| && u.workers == map[w := Reading(r, made)]
    ensures var c := ClaimStep(u, w);
            && LeaseOk(c) && LeaseOk(Drop(u, w)) && LeaseOk(Drop(c, w))
            && Drop(u, w).workers == map[] && Drop(c, w).workers == map[]
            && |c.rows| == |u.rows| && c.jobs == u.jobs && c.clock == u.clock && c.series == u.series
            && (if u.rows[r].status == PENDING then c.workers == map[w := Holding(r, made, u.clock)] && c.rows[r].status == PROCESSING
                else c.workers == map[] && c.rows == u.rows)
  {
    var c := ClaimStep(u, w);
    assert u.workers - {w} == map[];
    assert map[w := Holding(r, made, u.clock)] - {w} == map[];
  }

  /** One worker is about, it has `r`, and it is in the given phase. */
  predicate Only(s: State, w: nat, r: nat) { w in s.workers && s.workers == map[w := s.workers[w]] && s.workers[w].r == r }

  ghost predicate HeldBy(s: State, w: nat, r: nat, made: nat) {
    && Inv(s) && LeaseOk(s) && Only(s, w, r) && Live(s.workers[w]) && s.workers[w].made == made
    && r < |s.rows| && r in s.jobs && s.jobs[r] <= s.clock
  }

  /** A held report is left alone by whatever happens around it. */
  lemma HeldThrough(s: State, w: nat, r: nat, made: nat, es: seq<Event>)
    requires HeldBy(s, w, r, made) && WithinLease(s, es) && EnvironmentOnly(es)
    ensures HeldBy(Run(s, es), w, r, made)
    ensures Run(s, es).workers == s.workers && Run(s, es).series == s.series
  {
    hide Inv, LeaseOk, Run;
    EnvironmentRun(s, es, r);
  }

  lemma ComputeHeld(s: State, w: nat, r: nat, made: nat, ok: bool)
    requires HeldBy(s, w, r, made) && s.workers[w].Holding?
    ensures var t := ComputeStep(s, w, ok);
            HeldBy(t, w, r, made) && t.series == s.series && if ok then t.workers[w].Computed? else t.workers[w].Failing?
  {
    ComputeInv(s, w, ok);
    hide Inv;
    var t := ComputeStep(s, w, ok);
    assert t.workers == map[w := t.workers[w]];
  }

  lemma WriteFails(s: State, w: nat, r: nat, made: nat)
    requires HeldBy(s, w, r, made) && s.workers[w].Computed?
    ensures var t := WriteErrorStep(s, w); HeldBy(t, w, r, made) && t.workers[w].Failing? && t.series == s.series
  {
    WriteErrorInv(s, w);
    hide Inv;
    var t := WriteErrorStep(s, w);
    assert t.workers == map[w := t.workers[w]];
  }

  /** The report is settled by its worker: nobody holds it, or its worker goes on to schedule. */
  ghost predicate Concluded(s: State, w: nat, r: nat, status: Status) {
    && Inv(s) && LeaseOk(s) && r < |s.rows| && r in s.jobs && s.jobs[r] <= s.clock && s.rows[r].status == status
    && (s.workers == map[] || (Only(s, w, r) && s.workers[w].Scheduling? && status == READY))
  }

  /** The closing write of the only worker, with no invariant needed. */
  lemma ClosingWrite(s: State, w: nat, r: nat)
    requires Only(s, w, r) && r < |s.rows| && (s.workers[w].Computed? || s.workers[w].Failing?)
    ensures var (t, h) := (WriteStep(s, w), s.workers[w]);
            && r < |t.rows| && t.jobs == s.jobs && t.clock == s.clock && t.series == s.series
            && t.rows[r].status == (if h.Computed? then READY else if LastAttempt(h.made) then FAILED else PENDING)
            && (t.workers == map[] || (Only(t, w, r) && t.workers[w].Scheduling? && h.Computed?))
  {
    var (t, h) := (WriteStep(s, w), s.workers[w]);
    if h.Computed? && s.series.recurring {
      assert t.workers == s.workers[w := Scheduling(r, h.delivered)];
      assert t.workers == map[w := t.workers[w]];
    } else {
      assert t.workers == s.workers - {w};
      assert t.workers == map[];
    }
  }

  lemma WriteHeld(s: State, w: nat, r: nat, made: nat)
    requires HeldBy(s, w, r, made) && !s.workers[w].Holding?
    ensures var t := WriteStep(s, w);
            && t.series == s.series
            && Concluded(t, w, r, if s.workers[w].Computed? then READY else if LastAttempt(made) then FAILED else PENDING)
  {
    hide Inv, WriteStep;
    WriteInv(s, w);
    ClosingWrite(s, w, r);
  }

  /** The catch block's own write throws: the report is left in PROCESSING with nobody holding it. */
  lemma CatchFails(s: State, w: nat, r: nat, made: nat)
    requires HeldBy(s, w, r, made) && s.workers[w].Failing?
    ensures Concluded(WriteErrorStep(s, w), w, r, PROCESSING) && WriteErrorStep(s, w).series == s.series
  {
    WriteErrorInv(s, w);
    assert WorkerOk(s, s.workers[w]);
    hide Inv;
    assert s.workers - {w} == map[];
  }

  lemma SavedOutcome(c: State, w: nat, r: nat, made: nat, a: Attempt)
    requires HeldBy(c, w, r, made) && c.workers[w].Holding? && Undisturbed(a) && HoldWithinLease(c, w, a)
    ensures var t := Saved(c, w, a);
            && t.series == c.series
            && if a.ok && a.saved then Concluded(t, w, r, READY) else HeldBy(t, w, r, made) && t.workers[w].Failing?
  {
    hide HeldBy, Concluded, Run, ComputeStep, WriteStep, WriteErrorStep;
    HeldThrough(c, w, r, made, a.beforeCompute);
    ComputeHeld(Run(c, a.beforeCompute), w, r, made, a.ok);
    HeldThrough(Calculated(c, w, a), w, r, made, a.beforeWrite);
    var u := Run(Calculated(c, w, a), a.beforeWrite);
    if a.ok && a.saved { WriteHeld(u, w, r, made); } else if a.ok { WriteFails(u, w, r, made); }
  }

  /** Whatever happens after READY is written leaves it so. */
  lemma DoneThrough(s: State, w: nat, r: nat, es: seq<Event>)
    requires Concluded(s, w, r, READY) && WithinLease(s, es) && EnvironmentOnly(es)
    ensures Concluded(Run(s, es), w, r, READY) && Run(s, es).series == s.series
  {
    hide Inv, LeaseOk, Run;
    EnvironmentRun(s, es, r);
  }

  lemma ClosedOutcome(c: State, w: nat, r: nat, made: nat, a: Attempt)
    requires HeldBy(c, w, r, made) && c.workers[w].Holding? && Undisturbed(a) && HoldWithinLease(c, w, a)
    ensures var t := Closed(c, w, a);
            && t.series == c.series
            && Concluded(t, w, r, if a.ok && a.saved then READY else if !a.closed then PROCESSING
                             else if LastAttempt(made) then FAILED else PENDING)
  {
    SavedOutcome(c, w, r, made, a);
    hide HeldBy, Concluded, Run, WriteStep, WriteErrorStep, Saved;
    var u := Saved(c, w, a);
    if a.ok && a.saved {
      DoneThrough(u, w, r, a.beforeCatch);
    } else {
      HeldThrough(u, w, r, made, a.beforeCatch);
      var v := Run(u, a.beforeCatch);
      if a.closed { WriteHeld(v, w, r, made); } else { CatchFails(v, w, r, made); }
    }
  }

  /** Scheduling adds a report and leaves the one just delivered as it is. */
  lemma SchedulingStep(s: State, w: nat, r: nat, status: Status, created: bool, enqueued: bool)
    requires Concluded(s, w, r, status)
    ensures var t := EnqueueStep(CreateNextStep(s, w, created), w, 0, enqueued);
            AttemptReady(t, r) && t.rows[r].status == status && t.series == s.series
  {
    CreateNextInv(s, w, created);
    EnqueueInv(CreateNextStep(s, w, created), w, 0, enqueued);
    hide Inv, ReportDelay, LeaseOk;
    var c := CreateNextStep(s, w, created);
    if w in s.workers { assert s.workers - {w} == map[]; }
    if w in c.workers { assert c.workers - {w} == map[]; }
  }

  lemma AttemptOutcome(s: State, w: nat, r: nat, made: nat, a: Attempt)
    requires AttemptReady(s, r) && Undisturbed(a) && AttemptWithinLease(s, w, r, made, a)
    requires s.rows[r].status == PROCESSING ==> !Resets(a.beforeRead)
    ensures var t := AttemptRun(s, w, r, made, a);
            && AttemptReady(t, r) && t.rows[r].status == After(s.rows[r].status, a, r, made) && t.series == s.series
            && (t.rows[r].status == PENDING ==> Throws(s, w, r, made, a))
  {
    hide Inv, LeaseOk, Run, Finished;
    Delivering(s, w, r, made, a);
    var d := Delivered(s, w, r, made, a);
    if w in d.workers {
      hide Delivered, Claimed;
      Claiming(d, w, r, made, a);
      var c := Claimed(d, w, a);
      if w in c.workers {
        assert HeldBy(c, w, r, made);
        ClosedOutcome(c, w, r, made, a);
        FinishedOutcome(c, w, r, made, a);
      }
    }
  }

  lemma FinishedOutcome(c: State, w: nat, r: nat, made: nat, a: Attempt)
    requires exists status :: Concluded(Closed(c, w, a), w, r, status)
    ensures var t := Finished(c, w, a);
            AttemptReady(t, r) && t.rows[r].status == Closed(c, w, a).rows[r].status && t.series == Closed(c, w, a).series
  {
    hide Closed;
    var status :| Concluded(Closed(c, w, a), w, r, status);
    SchedulingStep(Closed(c, w, a), w, r, status, a.created, a.enqueued);
  }
}
