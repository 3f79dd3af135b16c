/** What holds over whole runs of ReportLifecycle. */
module ReportTheorems {
  import opened Wrappers
  import opened ReportTable
  import opened PeriodRanges
  import opened ReportLifecycle
  import Calendar

  lemma {:induction false} RunInv(s: State, es: seq<Event>)
    requires Inv(s) && WithinLease(s, es)
    ensures Inv(Run(s, es)) && LeaseOk(Run(s, es))
    decreases |es|
  {
    hide Inv, LeaseOk, Next;
    if es != [] {
      NextInv(s, es[0]);
      RunInv(Next(s, es[0]), es[1..]);
    }
  }

  lemma {:induction false} RunAppend(s: State, es: seq<Event>, fs: seq<Event>)
    ensures Run(s, es + fs) == Run(Run(s, es), fs)
    ensures WithinLease(s, es + fs) ==> WithinLease(s, es) && WithinLease(Run(s, es), fs)
    decreases |es|
  {
    hide Next, LeaseOk;
    if es == [] {
      assert es + fs == fs;
    } else {
      assert (es + fs)[1..] == es[1..] + fs;
      RunAppend(Next(s, es[0]), es[1..], fs);
    }
  }

  // ---- Mutual exclusion and terminal states ---------------------------------------------

  /**
   Under the lease a report has at most one live holder, and the holder's row is PROCESSING and
   still carries the time of the claim.
   */
  lemma OneLiveHolder(series: Series, reference: int, now: int, lag: nat, es: seq<Event>, v: nat, w: nat)
    requires ValidSeries(series) && reference >= 0 && now >= 0
    requires WithinLease(Init(series, reference, now, lag), es)
    ensures var s := Run(Init(series, reference, now, lag), es);
            && (v in s.workers && Live(s.workers[v]) ==>
                  var h := s.workers[v];
                  h.r < |s.rows| && s.rows[h.r].status == PROCESSING && s.rows[h.r].updatedAt == h.claimedAt)
            && ((v in s.workers && w in s.workers && Live(s.workers[v]) && Live(s.workers[w])
                 && s.workers[v].r == s.workers[w].r) ==> v == w)
  {
    InitInv(series, reference, now, lag);
    RunInv(Init(series, reference, now, lag), es);
  }

  /** Every move a row can make in one step; none leaves a terminal status. */
  lemma StatusMoves(s: State, e: Event, i: nat)
    requires Inv(s) && LeaseOk(s) && i < |s.rows|
    ensures i < |Next(s, e).rows|
    ensures var (before, after) := (s.rows[i], Next(s, e).rows[i]);
            || after == before
            || (before.status == PENDING && after.status == PROCESSING && e.Claim?)
            || (before.status == PENDING && after.status == CANCELLED && e == Cancel(i))
            || (before.status == PROCESSING && after.status in {READY, FAILED, PENDING} && e.Write?)
            || (before.status == PROCESSING && after.status == PENDING && e.CronReset?)
  {
    hide RangeEnd, PairsOk, RowOk, ReportDelay;
    if e.Write? && e.w in s.workers { assert WorkerOk(s, s.workers[e.w]); }
  }

  /** READY, FAILED and CANCELLED reports never change again, although the closing writes are unconditional. */
  lemma {:induction false} TerminalForever(s: State, es: seq<Event>, i: nat)
    requires Inv(s) && WithinLease(s, es) && i < |s.rows| && Terminal(s.rows[i].status)
    ensures i < |Run(s, es).rows| && Run(s, es).rows[i] == s.rows[i]
    decreases |es|
  {
    hide Inv, LeaseOk, Next;
    if es != [] {
      StatusMoves(s, es[0], i);
      NextInv(s, es[0]);
      TerminalForever(Next(s, es[0]), es[1..], i);
    }
  }

  /** The cron's reset takes a live holder's row exactly when the holder has outlasted the lease. */
  lemma ResetTakesHolderIff(s: State, w: nat, c: nat)
    requires Inv(s) && w in s.workers && Live(s.workers[w])
    ensures s.workers[w].r < |s.rows| == |Next(Next(s, CronRead(c)), CronReset(c)).rows|
    ensures var h := s.workers[w];
            var s' := Next(Next(s, CronRead(c)), CronReset(c));
            && (s'.rows[h.r].status == PENDING <==> s.clock - h.claimedAt > 30 * 60 * 1000)
            && (s'.rows[h.r] == s.rows[h.r] <==> s.clock - h.claimedAt <= 30 * 60 * 1000)
  {
    hide RangeEnd, PairsOk, RowOk;
    assert WorkerOk(s, s.workers[w]);
  }

  /** A run told step by step. */
  ghost predicate StepByStep(states: seq<State>, es: seq<Event>) {
    |states| == |es| + 1 && forall i :: 0 <= i < |es| ==> states[i + 1] == Next(states[i], es[i])
  }

  lemma {:induction false} Told(states: seq<State>, es: seq<Event>)
    requires StepByStep(states, es)
    ensures Run(states[0], es) == states[|es|]
    ensures (forall i :: 0 <= i < |states| ==> LeaseOk(states[i])) ==> WithinLease(states[0], es)
    decreases |es|
  {
    hide Next, LeaseOk;
    if es != [] {
      var (later, rest) := (states[1..], es[1..]);
      assert forall i :: 0 <= i < |rest| ==> later[i + 1] == Next(later[i], rest[i]) by {
        forall i | 0 <= i < |rest| ensures later[i + 1] == Next(later[i], rest[i]) {
          assert states[i + 1 + 1] == Next(states[i + 1], es[i + 1]);
        }
      }
      Told(later, rest);
      assert states[0 + 1] == Next(states[0], es[0]);
    }
  }

  /** Worker 1 claims and stalls past the lease, and the cron resets its report. */
  lemma StalledStates(s: State)
    requires s == Init(Series(Custom, 0, false, 0), 0, 0, 0)
    ensures var held := s.(rows := [Row(1, 0, PROCESSING, 0, None)], workers := map[1 := Holding(0, 0, 0)]);
            && Next(s, Deliver(1, 0, 0)) == s.(workers := map[1 := Reading(0, 0)])
            && Next(s.(workers := map[1 := Reading(0, 0)]), Claim(1)) == held
            && Next(held, Tick(LEASE + 1)) == held.(clock := LEASE + 1)
  {
    hide Range;
  }

  lemma ResetStates(s: State)
    requires s.rows == [Row(1, 0, PROCESSING, 0, None)] && s.clock == LEASE + 1 && s.crons == map[]
    ensures Next(s, CronRead(0)) == s.(crons := map[0 := 1])
    ensures Next(s.(crons := map[0 := 1]), CronReset(0)) == s.(rows := [Row(1, 0, PENDING, LEASE + 1, None)])
  {
    assert map[0 := 1] - {0} == map[];
    assert ResetStalled(s.rows, 1, LEASE + 1) == [Row(1, 0, PENDING, LEASE + 1, None)];
  }

  /** Worker 2 is delivered the report while worker 1 still holds it. */
  lemma SecondDeliveryStates(s: State)
    requires s.rows == [Row(1, 0, PENDING, LEASE + 1, None)] && s.clock == LEASE + 1 && !s.series.recurring
    requires 0 in s.jobs && s.jobs[0] <= s.clock && s.workers == map[1 := Holding(0, 0, 0)]
    ensures var t := s.(rows := [Row(1, 0, PROCESSING, LEASE + 1, None)]);
            && Next(s, Deliver(2, 0, 1)) == s.(workers := s.workers[2 := Reading(0, 1)])
            && Next(s.(workers := s.workers[2 := Reading(0, 1)]), Claim(2))
               == t.(workers := s.workers[2 := Holding(0, 1, LEASE + 1)])
  {
  }

  lemma SecondWriteStates(s: State)
    requires s.rows == [Row(1, 0, PROCESSING, LEASE + 1, None)] && s.clock == LEASE + 1 && !s.series.recurring
    requires s.workers == map[1 := Holding(0, 0, 0)][2 := Holding(0, 1, LEASE + 1)]
    ensures var u := s.(workers := map[1 := Holding(0, 0, 0)][2 := Computed(0, 1, LEASE + 1, LEASE + 1)]);
            && Next(s, Compute(2, true)) == u
            && Next(u, Write(2)) == s.(rows := [Row(1, 0, READY, LEASE + 1, Some(LEASE + 1))], workers := map[1 := Holding(0, 0, 0)])
  {
    var u := Next(s, Compute(2, true));
    assert u.workers == map[1 := Holding(0, 0, 0)][2 := Computed(0, 1, LEASE + 1, LEASE + 1)];
    assert u.workers - {2} == map[1 := Holding(0, 0, 0)];
  }

  lemma LateStates(s: State)
    requires |s.rows| == 1 && s.workers == map[1 := Holding(0, 0, 0)]
    ensures var failing := s.(workers := map[1 := Failing(0, 0, 0)]);
            && Next(s, Compute(1, false)) == failing
            && Next(failing, Write(1)) == s.(rows := SetStatus(s.rows, 0, PENDING, s.clock), workers := map[])
  {
    assert map[1 := Failing(0, 0, 0)] - {1} == map[];
  }

  const BEFORE_SECOND: seq<Event> := [Deliver(1, 0, 0), Claim(1), Tick(LEASE + 1), CronRead(0), CronReset(0)]
  const SECOND: seq<Event> := [Deliver(2, 0, 1), Claim(2), Compute(2, true), Write(2)]
  const LATE: seq<Event> := [Compute(1, false), Write(1)]

  lemma StalledRun(s: State)
    requires s == Init(Series(Custom, 0, false, 0), 0, 0, 0)
    ensures Run(s, BEFORE_SECOND)
            == s.(rows := [Row(1, 0, PENDING, LEASE + 1, None)], workers := map[1 := Holding(0, 0, 0)], clock := LEASE + 1)
  {
    hide Range;
    StalledStates(s);
    var held := s.(rows := [Row(1, 0, PROCESSING, 0, None)], workers := map[1 := Holding(0, 0, 0)]);
    var stalled := held.(clock := LEASE + 1);
    ResetStates(stalled);
    hide Next, Init, Run;
    Told([s, s.(workers := map[1 := Reading(0, 0)]), held, stalled, stalled.(crons := map[0 := 1]),
          stalled.(rows := [Row(1, 0, PENDING, LEASE + 1, None)])], BEFORE_SECOND);
  }

  lemma SecondRun(s: State)
    requires s.rows == [Row(1, 0, PENDING, LEASE + 1, None)] && s.clock == LEASE + 1 && !s.series.recurring
    requires 0 in s.jobs && s.jobs[0] <= s.clock && s.workers == map[1 := Holding(0, 0, 0)]
    ensures Run(s, SECOND) == s.(rows := [Row(1, 0, READY, LEASE + 1, Some(LEASE + 1))])
  {
    SecondDeliveryStates(s);
    var again := s.(rows := [Row(1, 0, PROCESSING, LEASE + 1, None)], workers := s.workers[2 := Holding(0, 1, LEASE + 1)]);
    SecondWriteStates(again);
    hide Next, Run;
    Told([s, s.(workers := s.workers[2 := Reading(0, 1)]), again,
          again.(workers := map[1 := Holding(0, 0, 0)][2 := Computed(0, 1, LEASE + 1, LEASE + 1)]),
          s.(rows := [Row(1, 0, READY, LEASE + 1, Some(LEASE + 1))])], SECOND);
  }

  lemma LateRun(s: State)
    requires |s.rows| == 1 && s.workers == map[1 := Holding(0, 0, 0)]
    ensures |Run(s, LATE).rows| == 1 && Run(s, LATE).rows[0].status == PENDING
  {
    LateStates(s);
    var end := s.(rows := SetStatus(s.rows, 0, PENDING, s.clock), workers := map[]);
    hide Next, Run;
    Told([s, s.(workers := map[1 := Failing(0, 0, 0)]), end], LATE);
  }

  /**
   Past the lease the guarantee is gone: worker 1 claims and stalls, the cron resets its report,
   worker 2 delivers it, and worker 1's late failure turns READY back into PENDING.
   */
  lemma LeaseIsNeeded() returns (delivered: seq<Event>, late: seq<Event>)
    ensures var s := Init(Series(Custom, 0, false, 0), 0, 0, 0);
            && |Run(s, delivered).rows| == |Run(s, delivered + late).rows| == 1
            && Run(s, delivered).rows[0].status == READY
            && Run(s, delivered + late).rows[0].status == PENDING
  {
    hide Range, Run;
    var s := Init(Series(Custom, 0, false, 0), 0, 0, 0);
    delivered, late := BEFORE_SECOND + SECOND, LATE;
    StalledRun(s);
    SecondRun(Run(s, BEFORE_SECOND));
    RunAppend(s, BEFORE_SECOND, SECOND);
    LateRun(Run(s, delivered));
    RunAppend(s, delivered, late);
  }

  // ---- The recurring series -------------------------------------------------------------

  lemma ModernDate(period: Period, t: int, offset: int)
    requires t >= 0 && offset >= -Calendar.MS_PER_DAY
    ensures Supported(period, Calendar.Day(t + offset))
  {
    assert Calendar.Day(t + offset) >= -1;
    assert Calendar.DayFromYear(100) < -1;
    var y := Calendar.YearOf(Calendar.Day(t + offset));
    hide Calendar.DayFromYear;
    if y < 100 { Calendar.YearsIncrease(y, 100); }
  }

  lemma NextReference(s: State, j: nat)
    requires Inv(s) && s.series.period != Custom && 0 < j < |s.rows|
    ensures 0 <= s.rows[j - 1].reference && 0 <= s.rows[j].reference && IsCalendarPeriod(s.series.period)
    ensures Range(s.series.period, s.rows[j - 1].reference, s.series.offset).end <= s.rows[j].reference
  {
    hide Range, WorkersOk, PairsOk;
    assert RowOk(s, j - 1) && RowOk(s, j);
  }

  lemma NextPeriod(s: State, j: nat)
    requires Inv(s) && s.series.period != Custom && 0 < j < |s.rows|
    ensures var (p, o) := (s.series.period, s.series.offset);
            var (before, last) := (Range(p, s.rows[j - 1].reference, o), Range(p, s.rows[j].reference, o));
            before.start < before.end <= last.start
  {
    hide Range, RowsOk, WorkersOk, PairsOk, Supported, Calendar.Day;
    var (p, o) := (s.series.period, s.series.offset);
    var (before, last) := (s.rows[j - 1].reference, s.rows[j].reference);
    NextReference(s, j);
    ModernDate(p, before, o);
    ModernDate(p, last, o);
    LaterRange(p, before, last, o);
    RangeIsUnit(p, before, o);
  }

  lemma {:induction false} PeriodsIncrease(s: State, i: nat, j: nat)
    requires Inv(s) && s.series.period != Custom && i < j < |s.rows|
    ensures Range(s.series.period, s.rows[i].reference, s.series.offset).end
            <= Range(s.series.period, s.rows[j].reference, s.series.offset).start
    decreases j
  {
    hide Range, Inv;
    NextPeriod(s, j);
    if i < j - 1 { PeriodsIncrease(s, i, j - 1); }
  }

  /** Report `i` is READY, and the report after it is computed for the date it was delivered on. */
  predicate HandsOn(rows: seq<Row>, i: nat)
    requires i + 1 < |rows|
  {
    rows[i].status == READY && rows[i].delivered == Some(rows[i + 1].reference)
  }

  /**
   Over any run within the lease the occurrences of a series are 1..n in order, all but the last are
   READY, each is computed for the date on which the one before was delivered, and the computed
   periods are not empty, strictly increasing and pairwise disjoint.
   */
  lemma SeriesIsConsecutive(series: Series, reference: int, now: int, lag: nat, es: seq<Event>)
    requires ValidSeries(series) && reference >= 0 && now >= 0
    requires WithinLease(Init(series, reference, now, lag), es)
    ensures var rows := Run(Init(series, reference, now, lag), es).rows;
            && |rows| > 0
            && (forall i :: 0 <= i < |rows| ==> rows[i].occurrence == i + 1)
            && (forall i :: 0 <= i < |rows| - 1 ==> HandsOn(rows, i))
            && (series.period == Custom ==> |rows| == 1)
            && (series.period != Custom ==>
                  && (forall i :: 0 <= i < |rows| ==>
                        var period := Range(series.period, rows[i].reference, series.offset); period.start < period.end)
                  && (forall i, j :: 0 <= i < j < |rows| ==>
                        Range(series.period, rows[i].reference, series.offset).end
                        <= Range(series.period, rows[j].reference, series.offset).start))
  {
    hide Range, ReportDelay;
    var s0 := Init(series, reference, now, lag);
    InitInv(series, reference, now, lag);
    RunInv(s0, es);
    SeriesStays(s0, es);
    var s := Run(s0, es);
    forall i | 0 <= i < |s.rows|
      ensures s.rows[i].occurrence == i + 1
      ensures i < |s.rows| - 1 ==> HandsOn(s.rows, i)
    {
      assert RowOk(s, i);
    }
    assert series.period == Custom ==> |s.rows| == 1 by { assert RowOk(s, 0); }
    if series.period != Custom {
      forall i, j | 0 <= i < j < |s.rows|
        ensures Range(series.period, s.rows[i].reference, series.offset).end
                <= Range(series.period, s.rows[j].reference, series.offset).start
      {
        PeriodsIncrease(s, i, j);
      }
      forall i | 0 <= i < |s.rows|
        ensures var period := Range(series.period, s.rows[i].reference, series.offset); period.start < period.end
      {
        PeriodNotEmpty(s, i);
      }
    }
  }

  lemma PeriodNotEmpty(s: State, i: nat)
    requires Inv(s) && s.series.period != Custom && i < |s.rows|
    ensures var period := Range(s.series.period, s.rows[i].reference, s.series.offset); period.start < period.end
  {
    assert 0 <= s.rows[i].reference by { assert RowOk(s, i); }
    hide Range, RowsOk, WorkersOk, PairsOk, Supported, Calendar.Day;
    ModernDate(s.series.period, s.rows[i].reference, s.series.offset);
    RangeIsUnit(s.series.period, s.rows[i].reference, s.series.offset);
  }

  lemma {:induction false} SeriesStays(s: State, es: seq<Event>)
    ensures Run(s, es).series == s.series
    decreases |es|
  {
    if es != [] {
      assert Next(s, es[0]).series == s.series;
      SeriesStays(Next(s, es[0]), es[1..]);
    }
  }

  /** A report is only ever delivered once its range has ended. */
  lemma NeverEarly(s: State, w: nat)
    requires Inv(s) && w in s.workers && Live(s.workers[w])
    ensures s.workers[w].r < |s.rows|
    ensures var (h, c) := (s.workers[w], s.series);
            if c.period == Custom then c.customEnd <= h.claimedAt
            else Range(c.period, s.rows[h.r].reference, c.offset).end <= h.claimedAt
  {
    hide Range;
    assert WorkerOk(s, s.workers[w]);
  }

  // ---- The series goes on ------------------------------------------------------------------

  predicate NotOf(es: seq<Event>, w: nat) { forall i :: 0 <= i < |es| ==> !Touches(es[i], w) }

  predicate Touches(e: Event, w: nat) {
    match e
    case Deliver(v, _, _) => v == w
    case Claim(v) => v == w
    case Compute(v, _) => v == w
    case Write(v) => v == w
    case WriteError(v) => v == w
    case CreateNext(v, _) => v == w
    case Enqueue(v, _, _) => v == w
    case Crash(v) => v == w
    case _ => false
  }

  lemma WorkerStays(s: State, w: nat, e: Event)
    requires w in s.workers && !Touches(e, w)
    ensures w in Next(s, e).workers && Next(s, e).workers[w] == s.workers[w]
  {
    hide ReportDelay, RangeEnd, CasStatus, SetStatus, WriteReport, ResetStalled, LastAttempt;
  }

  /** What others do leaves worker `w` in its phase. */
  lemma {:induction false} WorkerWaits(s: State, w: nat, es: seq<Event>)
    requires w in s.workers && NotOf(es, w)
    ensures w in Run(s, es).workers && Run(s, es).workers[w] == s.workers[w]
    decreases |es|
  {
    hide Next;
    if es != [] {
      assert !Touches(es[0], w);
      WorkerStays(s, w, es[0]);
      WorkerWaits(Next(s, es[0]), w, es[1..]);
    }
  }

  /** Worker `w` is about to add the job of report `id`, which nobody else has or can get. */
  ghost predicate Parked(s: State, w: nat, id: nat, row: Row) {
    && w in s.workers && s.workers[w] == Enqueuing(id)
    && id < |s.rows| && s.rows[id] == row && row.status != PROCESSING && id !in s.jobs
    && (forall v :: v in s.workers && v != w ==> s.workers[v].r != id)
  }

  lemma StaysParked(s: State, w: nat, id: nat, row: Row, e: Event)
    requires Parked(s, w, id, row) && !Touches(e, w)
    ensures Parked(Next(s, e), w, id, if e == Cancel(id) && row.status == PENDING then Stamp(row, CANCELLED, s.clock) else row)
  {
    hide ReportDelay, RangeEnd, LastAttempt;
  }

  /** Until it has its job, a new report can only be cancelled. */
  lemma {:induction false} ParkedRun(s: State, w: nat, id: nat, row: Row, es: seq<Event>) returns (last: Row)
    requires Parked(s, w, id, row) && NotOf(es, w) && row.status in {PENDING, CANCELLED}
    ensures Parked(Run(s, es), w, id, last)
    ensures last.occurrence == row.occurrence && last.reference == row.reference
    ensures last.status == if Cancel(id) in es then CANCELLED else row.status
    decreases |es|
  {
    hide Parked, Next;
    last := row;
    if es != [] {
      assert !Touches(es[0], w);
      StaysParked(s, w, id, row, es[0]);
      var next := if es[0] == Cancel(id) && row.status == PENDING then Stamp(row, CANCELLED, s.clock) else row;
      last := ParkedRun(Next(s, es[0]), w, id, next, es[1..]);
      assert es == [es[0]] + es[1..];
    }
  }

  /** The READY write of a recurring series leaves its worker to schedule. */
  lemma WriteSchedules(s: State, w: nat)
    requires s.series.recurring && w in s.workers && s.workers[w].Computed?
    ensures var s' := Next(s, Write(w));
            w in s'.workers && s'.workers[w] == Scheduling(s.workers[w].r, s.workers[w].delivered)
  {
    hide WriteReport, ReportDelay, LastAttempt;
  }

  /** Workers and jobs are of reports that exist. */
  lemma NothingAhead(s: State)
    requires Inv(s)
    ensures forall v :: v in s.workers ==> s.workers[v].r < |s.rows|
    ensures forall i :: i in s.jobs ==> i < |s.rows|
  {
    hide RangeEnd, PairsOk, RowOk;
    forall v | v in s.workers ensures s.workers[v].r < |s.rows| { assert WorkerOk(s, s.workers[v]); }
  }

  lemma NextIsParked(s: State, w: nat)
    requires Inv(s) && w in s.workers && s.workers[w].Scheduling?
    ensures var h := s.workers[w];
            && h.r == |s.rows| - 1
            && Parked(Next(s, CreateNext(w, true)), w, h.r + 1, Row(h.r + 2, h.delivered, PENDING, s.clock, None))
  {
    hide Inv, CreateNextStep;
    Succeeds(s, w, true);
    SchedulerHasLast(s, w);
    NothingAhead(s);
  }

  lemma Cut(s: State, es: seq<Event>, e: Event)
    ensures Run(s, es + [e]) == Next(Run(s, es), e)
    ensures WithinLease(s, es + [e]) ==> WithinLease(s, es)
  {
    hide Next, LeaseOk;
    RunAppend(s, es, [e]);
  }

  lemma Neighbours(s: State, id: nat)
    requires Inv(s) && 0 < id < |s.rows|
    ensures s.rows[id - 1].status == READY && s.rows[id - 1].delivered == Some(s.rows[id].reference)
    ensures s.rows[id].status != READY ==> id == |s.rows| - 1
  {
    hide RangeEnd, WorkersOk, PairsOk;
    assert RowOk(s, id - 1) && RowOk(s, id);
  }

  /** The series has gone on past report `r`. */
  ghost predicate GoneOn(s: State, r: nat, delivered: int, cancelled: bool, lag: nat) {
    && |s.rows| == r + 2 && s.rows[r].status == READY && s.rows[r].delivered == Some(delivered)
    && s.rows[r + 1].occurrence == r + 2 && s.rows[r + 1].reference == delivered
    && s.rows[r + 1].status == (if cancelled then CANCELLED else PENDING)
    && r + 1 in s.jobs && s.jobs[r + 1] == Later(s.clock, RangeEnd(s.series, delivered) + lag)
  }

  /** The last report of a series gets its job. */
  lemma GetsJob(s: State, w: nat, lag: nat, r: nat, row: Row, cancelled: bool)
    requires Inv(s) && Parked(s, w, r + 1, row)
    requires row.occurrence == r + 2 && row.status == if cancelled then CANCELLED else PENDING
    ensures var s' := Next(s, Enqueue(w, lag, true)); GoneOn(s', r, row.reference, cancelled, lag) && w !in s'.workers
  {
    hide Inv, RangeEnd, EnqueueStep, Later;
    Neighbours(s, r + 1);
    EnqueueInv(s, w, lag, true);
    assert Next(s, Enqueue(w, lag, true)) == EnqueueStep(s, w, lag, true);
    SameClock(s, w, lag);
  }

  lemma SameClock(s: State, w: nat, lag: nat)
    ensures EnqueueStep(s, w, lag, true).clock == s.clock && EnqueueStep(s, w, lag, true).series == s.series
  {
    hide ReportDelay;
  }

  /**
   A recurring series goes on. Whatever other workers, crons and users do in between, once a report has
   been written READY and the insert and the queue answer, the last report of the series is a new one, for
   the date of that delivery, PENDING unless a user has cancelled it, and with a job that becomes due
   exactly when its range has ended, or at once if it has.
   */
  lemma SeriesContinues(s: State, w: nat, lag: nat, es: seq<Event>, fs: seq<Event>)
    requires Inv(s) && s.series.recurring && w in s.workers && s.workers[w].Computed?
    requires NotOf(es, w) && NotOf(fs, w)
    requires WithinLease(s, [Write(w)] + es + [CreateNext(w, true)] + fs + [Enqueue(w, lag, true)])
    ensures var s' := Run(s, [Write(w)] + es + [CreateNext(w, true)] + fs + [Enqueue(w, lag, true)]);
            var r := s.workers[w].r;
            GoneOn(s', r, s.workers[w].delivered, Cancel(r + 1) in fs, lag) && w !in s'.workers
  {
    hide Inv, WithinLease, Run, Next, Parked, GoneOn;
    var (before, made) := ([Write(w)] + es, [Write(w)] + es + [CreateNext(w, true)]);
    Cut(s, made + fs, Enqueue(w, lag, true));
    RunAppend(s, made, fs);
    Cut(s, before, CreateNext(w, true));
    AwaitsSuccessor(s, w, es);
    RunInv(s, before);
    var t := Run(s, before);
    NextIsParked(t, w);
    var r := t.workers[w].r;
    var last := ParkedRun(Run(s, made), w, r + 1, Row(r + 2, t.workers[w].delivered, PENDING, t.clock, None), fs);
    RunInv(s, made + fs);
    GetsJob(Run(s, made + fs), w, lag, r, last, Cancel(r + 1) in fs);
  }

  lemma AwaitsSuccessor(s: State, w: nat, es: seq<Event>)
    requires s.series.recurring && w in s.workers && s.workers[w].Computed? && NotOf(es, w)
    ensures var t := Run(s, [Write(w)] + es);
            w in t.workers && t.workers[w] == Scheduling(s.workers[w].r, s.workers[w].delivered)
  {
    WriteSchedules(s, w);
    hide Next;
    assert ([Write(w)] + es)[1..] == es;
    WorkerWaits(Next(s, Write(w)), w, es);
  }
}
