/**
 The life of the reports of one series: workers that claim, compute and write them, the cron that
 recovers stalled ones, users who cancel, and the worker that schedules the next occurrence.

 A run is a list of events applied by `Next`, one for each awaited call, in any order and for any
 number of workers and crons; an event that is not enabled changes nothing. The lease is not built
 into the steps: it is the hypothesis `WithinLease` on a run.
 */
module ReportLifecycle {
  import opened Wrappers
  import opened ReportTable
  import opened PeriodRanges
  import Calendar

  const LEASE: int := 30 * 60 * 1000
  const ATTEMPTS: nat := 3

  /** What every occurrence of a series shares. A single custom report has its own end. */
  datatype Series = Series(period: Period, offset: int, recurring: bool, customEnd: int)

  predicate ValidSeries(c: Series) {
    && c.period in {Weekly, Monthly, Custom}
    && (c.recurring ==> c.period != Custom)
    && -Calendar.MS_PER_DAY <= c.offset <= Calendar.MS_PER_DAY
  }

  function RangeEnd(c: Series, reference: int): int {
    if c.period == Custom then c.customEnd else Range(c.period, reference, c.offset).end
  }

  function Later(t: int, u: int): int { if t < u then u else t }

  /** computeReportDelay, with the clock read at `now`. */
  function ReportDelay(c: Series, reference: int, now: int): int {
    var wait := RangeEnd(c, reference) - now;
    if wait < 0 then 0 else wait
  }

  datatype Worker =
    | Reading(r: nat, made: nat)
    | Holding(r: nat, made: nat, claimedAt: int)
    | Computed(r: nat, made: nat, claimedAt: int, delivered: int)
    | Failing(r: nat, made: nat, claimedAt: int)
    | Scheduling(r: nat, delivered: int)
    | Enqueuing(r: nat)

  predicate Live(w: Worker) { w.Holding? || w.Computed? || w.Failing? }

  datatype State = State(
    series: Series,
    clock: int,
    rows: seq<Row>,
    jobs: map<nat, int>,        // reports with a compute job, and when it becomes due
    workers: map<nat, Worker>,
    crons: map<nat, int>)       // crons that have computed their threshold and not yet run the update

  datatype Event =
    | Tick(elapsed: nat)
    | Deliver(w: nat, r: nat, made: nat)
    | Claim(w: nat)
    | Compute(w: nat, ok: bool)
    | Write(w: nat)
    | WriteError(w: nat)
    | CreateNext(w: nat, ok: bool)
    | Enqueue(w: nat, lag: nat, ok: bool)
    | Crash(w: nat)
    | CronRead(c: nat)
    | CronReset(c: nat)
    | Cancel(r: nat)

  function Drop(s: State, w: nat): State { s.(workers := s.workers - {w}) }

  function Move(s: State, w: nat, phase: Worker): State { s.(workers := s.workers[w := phase]) }

  /** A delivered job reads the report; anything but PENDING is a conflict. */
  function DeliverStep(s: State, w: nat, r: nat, made: nat): State {
    if w !in s.workers && r < |s.rows| && r in s.jobs && s.jobs[r] <= s.clock && s.rows[r].status == PENDING
    then Move(s, w, Reading(r, made)) else s
  }

  function ClaimStep(s: State, w: nat): State {
    if w !in s.workers || !s.workers[w].Reading? then s else
    var Reading(r, made) := s.workers[w];
    if r < |s.rows| && s.rows[r].status == PENDING
    then Move(s.(rows := CasStatus(s.rows, r, PROCESSING, s.clock)), w, Holding(r, made, s.clock))
    else Drop(s, w)
  }

  function ComputeStep(s: State, w: nat, ok: bool): State {
    if w !in s.workers || !s.workers[w].Holding? then s else
    var Holding(r, made, claimedAt) := s.workers[w];
    Move(s, w, if ok then Computed(r, made, claimedAt, s.clock) else Failing(r, made, claimedAt))
  }

  predicate LastAttempt(made: nat) { made >= ATTEMPTS - 1 }

  /** The closing write: READY, or the catch block's FAILED or reset to PENDING. */
  function WriteStep(s: State, w: nat): State {
    if w !in s.workers then s else
    match s.workers[w]
    case Computed(r, _, _, delivered) =>
      var s' := s.(rows := WriteReport(s.rows, r, READY, Some(delivered), s.clock));
      if s.series.recurring then Move(s', w, Scheduling(r, delivered)) else Drop(s', w)
    case Failing(r, made, _) =>
      if LastAttempt(made)
      then Drop(s.(rows := WriteReport(s.rows, r, FAILED, None, s.clock)), w)
      else Drop(s.(rows := SetStatus(s.rows, r, PENDING, s.clock)), w)
    case _ => s
  }

  /** The closing write throws: a result goes to the catch block, the catch block's own throw escapes. */
  function WriteErrorStep(s: State, w: nat): State {
    if w !in s.workers then s else
    match s.workers[w]
    case Computed(r, made, claimedAt, _) => Move(s, w, Failing(r, made, claimedAt))
    case Failing(_, _, _) => Drop(s, w)
    case _ => s
  }

  function CreateNextStep(s: State, w: nat, ok: bool): State {
    if w !in s.workers || !s.workers[w].Scheduling? then s else
    var Scheduling(r, delivered) := s.workers[w];
    if !ok || r >= |s.rows| then Drop(s, w) else
    var renewed := Row(s.rows[r].occurrence + 1, delivered, PENDING, s.clock, None);
    Move(s.(rows := s.rows + [renewed]), w, Enqueuing(|s.rows|))
  }

  function EnqueueStep(s: State, w: nat, lag: nat, ok: bool): State {
    if w !in s.workers || !s.workers[w].Enqueuing? then s else
    var r := s.workers[w].r;
    if !ok || r >= |s.rows| then Drop(s, w) else
    var delay := ReportDelay(s.series, s.rows[r].reference, s.clock - lag);
    Drop(s.(jobs := s.jobs[r := s.clock + delay]), w)
  }

  function CronResetStep(s: State, c: nat): State {
    if c !in s.crons then s
    else s.(rows := ResetStalled(s.rows, s.crons[c], s.clock), crons := s.crons - {c})
  }

  function Next(s: State, e: Event): State {
    match e
    case Tick(elapsed) => s.(clock := s.clock + elapsed)
    case Deliver(w, r, made) => DeliverStep(s, w, r, made)
    case Claim(w) => ClaimStep(s, w)
    case Compute(w, ok) => ComputeStep(s, w, ok)
    case Write(w) => WriteStep(s, w)
    case WriteError(w) => WriteErrorStep(s, w)
    case CreateNext(w, ok) => CreateNextStep(s, w, ok)
    case Enqueue(w, lag, ok) => EnqueueStep(s, w, lag, ok)
    case Crash(w) => Drop(s, w)
    case CronRead(c) => s.(crons := s.crons[c := s.clock - LEASE])
    case CronReset(c) => CronResetStep(s, c)
    case Cancel(r) => s.(rows := CasStatus(s.rows, r, CANCELLED, s.clock))
  }

  function Run(s: State, es: seq<Event>): State
    decreases |es|
  {
    if es == [] then s else Run(Next(s, es[0]), es[1..])
  }

  /** After generateReport: the first occurrence and its compute job, added `lag` after its delay was read. */
  function Init(series: Series, reference: int, now: int, lag: nat): State {
    State(series, now, [Row(1, reference, PENDING, now, None)],
          map[0 := now + ReportDelay(series, reference, now - lag)], map[], map[])
  }

  // ---- The invariant --------------------------------------------------------------------

  ghost predicate LeaseOk(s: State) {
    forall w :: w in s.workers && Live(s.workers[w]) ==> s.clock - s.workers[w].claimedAt <= LEASE
  }

  /** No live run outlasts the lease at any point of the run. */
  ghost predicate WithinLease(s: State, es: seq<Event>)
    decreases |es|
  {
    LeaseOk(s) && (es != [] ==> WithinLease(Next(s, es[0]), es[1..]))
  }

  ghost predicate RowOk(s: State, i: int)
    requires 0 <= i < |s.rows|
  {
    var row := s.rows[i];
    && row.occurrence == i + 1
    && row.reference >= 0
    && (row.status == READY ==> row.delivered.Some? && RangeEnd(s.series, row.reference) <= row.delivered.value
                                && 0 <= row.delivered.value)
    && (i + 1 < |s.rows| ==> s.series.recurring && row.status == READY && row.delivered == Some(s.rows[i + 1].reference))
    && (i in s.jobs ==> RangeEnd(s.series, row.reference) <= s.jobs[i])
  }

  ghost predicate WorkerOk(s: State, w: Worker) {
    && w.r < |s.rows|
    && (w.Reading? ==> RangeEnd(s.series, s.rows[w.r].reference) <= s.clock)
    && (Live(w) ==> s.rows[w.r].status == PROCESSING && s.rows[w.r].updatedAt == w.claimedAt
                    && RangeEnd(s.series, s.rows[w.r].reference) <= w.claimedAt <= s.clock)
    && (w.Computed? ==> w.claimedAt <= w.delivered && 0 <= w.delivered)
    && (w.Scheduling? ==> s.series.recurring && w.r == |s.rows| - 1 && s.rows[w.r].status == READY
                          && s.rows[w.r].delivered == Some(w.delivered))
  }

  /** Two workers never hold one report, and never both schedule. */
  predicate Compatible(v: Worker, w: Worker) {
    !(Live(v) && Live(w) && v.r == w.r) && !(v.Scheduling? && w.Scheduling?)
  }

  ghost predicate RowsOk(s: State) {
    && |s.rows| > 0
    && (forall i :: 0 <= i < |s.rows| ==> RowOk(s, i))
    && (forall i :: i in s.jobs ==> i < |s.rows|)
  }

  ghost predicate WorkersOk(s: State) { forall w :: w in s.workers ==> WorkerOk(s, s.workers[w]) }

  ghost predicate PairsOk(ws: map<nat, Worker>) {
    forall v, w :: v in ws && w in ws && v != w ==> Compatible(ws[v], ws[w])
  }

  ghost predicate Inv(s: State) {
    && ValidSeries(s.series)
    && s.clock >= 0
    && RowsOk(s)
    && WorkersOk(s)
    && PairsOk(s.workers)
    && (forall c :: c in s.crons ==> s.crons[c] <= s.clock - LEASE)
  }

  lemma InitInv(series: Series, reference: int, now: int, lag: nat)
    requires ValidSeries(series) && reference >= 0 && now >= 0
    ensures Inv(Init(series, reference, now, lag))
    ensures Init(series, reference, now, lag).jobs == map[0 := Later(now, RangeEnd(series, reference) + lag)]
  {
    hide Range;
  }

  lemma PairsMove(ws: map<nat, Worker>, w: nat, phase: Worker)
    requires PairsOk(ws)
    requires forall v :: v in ws && v != w ==> Compatible(ws[v], phase)
    ensures PairsOk(ws[w := phase])
  {
  }

  lemma PairsDrop(ws: map<nat, Worker>, w: nat)
    requires PairsOk(ws)
    ensures PairsOk(ws - {w})
  {
  }

  lemma DeliverInv(s: State, w: nat, r: nat, made: nat)
    requires Inv(s)
    ensures Inv(DeliverStep(s, w, r, made))
  {
    hide RangeEnd, PairsOk;
    var s' := DeliverStep(s, w, r, made);
    if s' != s {
      PairsMove(s.workers, w, Reading(r, made));
      assert RowOk(s, r);
    }
    forall i | 0 <= i < |s'.rows| ensures RowOk(s', i) { assert RowOk(s, i); }
    forall v | v in s'.workers ensures WorkerOk(s', s'.workers[v]) { assert v in s.workers ==> WorkerOk(s, s.workers[v]); }
  }

  lemma ClaimRows(s: State, w: nat)
    requires Inv(s)
    ensures RowsOk(ClaimStep(s, w))
  {
    hide RangeEnd, PairsOk, WorkersOk;
    var s' := ClaimStep(s, w);
    forall i | 0 <= i < |s'.rows| ensures RowOk(s', i) { assert RowOk(s, i); }
  }

  lemma ClaimWorkers(s: State, w: nat)
    requires Inv(s)
    ensures WorkersOk(ClaimStep(s, w))
  {
    hide RangeEnd, PairsOk, RowsOk;
    var s' := ClaimStep(s, w);
    forall v | v in s'.workers ensures WorkerOk(s', s'.workers[v]) { assert v in s.workers && WorkerOk(s, s.workers[v]); }
  }

  lemma ClaimInv(s: State, w: nat)
    requires Inv(s)
    ensures Inv(ClaimStep(s, w))
  {
    ClaimRows(s, w);
    ClaimWorkers(s, w);
    hide RowsOk, PairsOk;
    var s' := ClaimStep(s, w);
    PairsDrop(s.workers, w);
    if w in s.workers && w in s'.workers && s' != s {
      forall v | v in s.workers && v != w ensures Compatible(s.workers[v], s'.workers[w]) { assert WorkerOk(s, s.workers[v]); }
      PairsMove(s.workers, w, s'.workers[w]);
    }
  }

  lemma ComputeInv(s: State, w: nat, ok: bool)
    requires Inv(s)
    ensures Inv(ComputeStep(s, w, ok))
  {
    hide RangeEnd, PairsOk;
    var s' := ComputeStep(s, w, ok);
    forall i | 0 <= i < |s'.rows| ensures RowOk(s', i) { assert RowOk(s, i); }
    forall v | v in s'.workers ensures WorkerOk(s', s'.workers[v]) { assert v in s.workers && WorkerOk(s, s.workers[v]); }
    if s' != s {
      assert forall v :: v in s.workers && v != w ==> Compatible(s.workers[v], s.workers[w]) by { SamePairs(s.workers, w); }
      PairsMove(s.workers, w, s'.workers[w]);
    }
  }

  lemma SamePairs(ws: map<nat, Worker>, w: nat)
    requires PairsOk(ws) && w in ws
    ensures forall v :: v in ws && v != w ==> Compatible(ws[v], ws[w])
  {
  }

  lemma WriteErrorInv(s: State, w: nat)
    requires Inv(s)
    ensures Inv(WriteErrorStep(s, w))
  {
    hide RangeEnd, PairsOk;
    var s' := WriteErrorStep(s, w);
    forall i | 0 <= i < |s'.rows| ensures RowOk(s', i) { assert RowOk(s, i); }
    forall v | v in s'.workers ensures WorkerOk(s', s'.workers[v]) { assert v in s.workers && WorkerOk(s, s.workers[v]); }
    PairsDrop(s.workers, w);
    if w in s'.workers {
      SamePairs(s.workers, w);
      PairsMove(s.workers, w, s'.workers[w]);
    }
  }

  lemma WriteRows(s: State, w: nat)
    requires Inv(s)
    ensures RowsOk(WriteStep(s, w))
  {
    hide RangeEnd, PairsOk;
    var s' := WriteStep(s, w);
    if w in s.workers {
      assert WorkerOk(s, s.workers[w]);
      forall i | 0 <= i < |s'.rows| ensures RowOk(s', i) { assert RowOk(s, i); }
    }
  }

  lemma WriteWorkers(s: State, w: nat)
    requires Inv(s) && WriteStep(s, w) != s
    ensures WorkersOk(WriteStep(s, w))
  {
    hide RangeEnd, PairsOk, RowsOk;
    var s' := WriteStep(s, w);
    assert WorkerOk(s, s.workers[w]);
    ProcessingIsLast(s, s.workers[w].r);
    SamePairs(s.workers, w);
    forall v | v in s'.workers ensures WorkerOk(s', s'.workers[v]) { assert v in s.workers && WorkerOk(s, s.workers[v]); }
  }

  lemma WritePairs(s: State, w: nat)
    requires Inv(s)
    ensures PairsOk(WriteStep(s, w).workers)
  {
    hide RangeEnd, PairsOk, RowsOk;
    var s' := WriteStep(s, w);
    PairsDrop(s.workers, w);
    if s' != s && w in s'.workers {
      assert WorkerOk(s, s.workers[w]);
      ProcessingIsLast(s, s.workers[w].r);
      SamePairs(s.workers, w);
      forall v | v in s.workers && v != w ensures Compatible(s.workers[v], s'.workers[w]) { assert WorkerOk(s, s.workers[v]); }
      PairsMove(s.workers, w, s'.workers[w]);
    }
  }

  lemma WriteInv(s: State, w: nat)
    requires Inv(s)
    ensures Inv(WriteStep(s, w))
  {
    WriteRows(s, w);
    WritePairs(s, w);
    if WriteStep(s, w) != s { WriteWorkers(s, w); }
    hide RowsOk, WorkersOk, PairsOk;
  }

  lemma ProcessingIsLast(s: State, r: nat)
    requires RowsOk(s) && r < |s.rows| && s.rows[r].status == PROCESSING
    ensures r == |s.rows| - 1
  {
    hide RangeEnd;
    assert RowOk(s, r);
  }

  /** A delivered report of a recurring series gets its successor, or its worker is gone. */
  lemma Succeeds(s: State, w: nat, ok: bool)
    requires Inv(s)
    ensures var s' := CreateNextStep(s, w, ok);
            if w in s.workers && s.workers[w].Scheduling? then
              && s'.jobs == s.jobs && s'.crons == s.crons && s'.clock == s.clock && s'.series == s.series
              && (ok ==> s'.rows == s.rows + [Row(|s.rows| + 1, s.workers[w].delivered, PENDING, s.clock, None)]
                         && s'.workers == s.workers[w := Enqueuing(|s.rows|)])
              && (!ok ==> s'.rows == s.rows && s'.workers == s.workers - {w})
            else s' == s
  {
    hide RangeEnd, PairsOk;
    if w in s.workers && s.workers[w].Scheduling? {
      assert WorkerOk(s, s.workers[w]);
      assert RowOk(s, s.workers[w].r);
    }
  }

  /** A worker that schedules has the last report, just delivered. */
  lemma SchedulerHasLast(s: State, w: nat)
    requires Inv(s) && w in s.workers && s.workers[w].Scheduling?
    ensures var h := s.workers[w];
            && s.series.recurring && 0 <= h.delivered
            && h.r == |s.rows| - 1 && s.rows[h.r].status == READY && s.rows[h.r].delivered == Some(h.delivered)
  {
    hide RangeEnd, PairsOk;
    assert WorkerOk(s, s.workers[w]);
    assert RowOk(s, s.workers[w].r);
  }

  /** One more row, for the date on which the last was delivered. */
  lemma RowsExtend(s: State, s': State, delivered: int)
    requires RowsOk(s) && s.series.recurring && 0 <= delivered
    requires var last := s.rows[|s.rows| - 1]; last.status == READY && last.delivered == Some(delivered)
    requires s'.series == s.series && s'.jobs == s.jobs
    requires s'.rows == s.rows + [Row(|s.rows| + 1, delivered, PENDING, s.clock, None)]
    ensures RowsOk(s')
  {
    hide RangeEnd;
    forall i | 0 <= i < |s'.rows| ensures RowOk(s', i) { assert i < |s.rows| ==> RowOk(s, i); }
  }

  lemma SameRows(s: State, s': State)
    requires RowsOk(s) && s'.series == s.series && s'.jobs == s.jobs && s'.rows == s.rows
    ensures RowsOk(s')
  {
    hide RangeEnd;
    forall i | 0 <= i < |s'.rows| ensures RowOk(s', i) { assert RowOk(s, i); }
  }

  lemma CreateNextRows(s: State, w: nat, ok: bool)
    requires Inv(s)
    ensures RowsOk(CreateNextStep(s, w, ok))
  {
    Succeeds(s, w, ok);
    assert RowsOk(s) && |s.rows| > 0;
    if w in s.workers && s.workers[w].Scheduling? {
      SchedulerHasLast(s, w);
      hide RowsOk, Inv, CreateNextStep;
      if ok { RowsExtend(s, CreateNextStep(s, w, ok), s.workers[w].delivered); } else { SameRows(s, CreateNextStep(s, w, ok)); }
    }
  }

  /** A worker that does not schedule does not mind a new row. */
  lemma WorkerStaysOk(s: State, s': State, v: Worker)
    requires WorkerOk(s, v) && !v.Scheduling?
    requires s'.series == s.series && s'.clock == s.clock && |s.rows| <= |s'.rows|
    requires v.r < |s.rows| ==> s'.rows[v.r] == s.rows[v.r]
    ensures WorkerOk(s', v)
  {
    hide RangeEnd;
  }

  lemma CreateNextWorkers(s: State, w: nat, ok: bool)
    requires Inv(s)
    ensures WorkersOk(CreateNextStep(s, w, ok))
  {
    Succeeds(s, w, ok);
    hide RowsOk, PairsOk, CreateNextStep;
    var s' := CreateNextStep(s, w, ok);
    if w in s.workers && s.workers[w].Scheduling? {
      SamePairs(s.workers, w);
      assert WorkerOk(s', Enqueuing(|s.rows|)) <==> |s.rows| < |s'.rows|;
      hide WorkerOk;
      forall v | v in s'.workers ensures WorkerOk(s', s'.workers[v]) {
        if v != w { WorkerStaysOk(s, s', s.workers[v]); }
      }
    }
  }

  lemma CreateNextInv(s: State, w: nat, ok: bool)
    requires Inv(s)
    ensures Inv(CreateNextStep(s, w, ok))
  {
    Succeeds(s, w, ok);
    CreateNextRows(s, w, ok);
    CreateNextWorkers(s, w, ok);
    hide RowsOk, WorkersOk, PairsOk, CreateNextStep;
    var s' := CreateNextStep(s, w, ok);
    PairsDrop(s.workers, w);
    if w in s.workers && s.workers[w].Scheduling? {
      SamePairs(s.workers, w);
      PairsMove(s.workers, w, Enqueuing(|s.rows|));
    }
  }

  /** The job is due when the range has ended, or at once; `lag` is the time since the delay was read. */
  lemma EnqueueInv(s: State, w: nat, lag: nat, ok: bool)
    requires Inv(s)
    ensures Inv(EnqueueStep(s, w, lag, ok))
    ensures EnqueueStep(s, w, lag, ok).rows == s.rows
    ensures w in s.workers && s.workers[w].Enqueuing? ==>
              var r := s.workers[w].r;
              && r < |s.rows|
              && EnqueueStep(s, w, lag, ok).workers == s.workers - {w}
              && EnqueueStep(s, w, lag, ok).jobs
                 == if ok then s.jobs[r := Later(s.clock, RangeEnd(s.series, s.rows[r].reference) + lag)] else s.jobs
  {
    hide RangeEnd, PairsOk;
    var s' := EnqueueStep(s, w, lag, ok);
    PairsDrop(s.workers, w);
    forall i | 0 <= i < |s'.rows| ensures RowOk(s', i) { assert RowOk(s, i); }
    forall v | v in s'.workers ensures WorkerOk(s', s'.workers[v]) { assert v in s.workers && WorkerOk(s, s.workers[v]); }
  }

  /** The one use of the lease: a live holder's row is never stalled. */
  lemma CronResetInv(s: State, c: nat)
    requires Inv(s) && LeaseOk(s)
    ensures Inv(CronResetStep(s, c))
  {
    hide RangeEnd, PairsOk;
    var s' := CronResetStep(s, c);
    forall i | 0 <= i < |s'.rows| ensures RowOk(s', i) { assert RowOk(s, i); }
    forall v | v in s'.workers ensures WorkerOk(s', s'.workers[v]) { assert v in s.workers && WorkerOk(s, s.workers[v]); }
  }

  lemma CancelInv(s: State, r: nat)
    requires Inv(s)
    ensures Inv(Next(s, Cancel(r)))
  {
    hide RangeEnd, PairsOk;
    var s' := Next(s, Cancel(r));
    forall i | 0 <= i < |s'.rows| ensures RowOk(s', i) { assert RowOk(s, i); }
    forall v | v in s'.workers ensures WorkerOk(s', s'.workers[v]) { assert v in s.workers && WorkerOk(s, s.workers[v]); }
  }

  lemma QuietInv(s: State, e: Event)
    requires Inv(s) && (e.Tick? || e.CronRead? || e.Crash?)
    ensures Inv(Next(s, e))
  {
    hide RangeEnd, PairsOk;
    var s' := Next(s, e);
    if e.Crash? { PairsDrop(s.workers, e.w); }
    forall i | 0 <= i < |s'.rows| ensures RowOk(s', i) { assert RowOk(s, i); }
    forall v | v in s'.workers ensures WorkerOk(s', s'.workers[v]) { assert v in s.workers && WorkerOk(s, s.workers[v]); }
  }

  lemma NextInv(s: State, e: Event)
    requires Inv(s) && LeaseOk(s)
    ensures Inv(Next(s, e))
  {
    hide Inv, LeaseOk;
    match e
    case Deliver(w, r, made) => DeliverInv(s, w, r, made);
    case Claim(w) => ClaimInv(s, w);
    case Compute(w, ok) => ComputeInv(s, w, ok);
    case Write(w) => WriteInv(s, w);
    case WriteError(w) => WriteErrorInv(s, w);
    case CreateNext(w, ok) => CreateNextInv(s, w, ok);
    case Enqueue(w, lag, ok) => EnqueueInv(s, w, lag, ok);
    case CronReset(c) => CronResetInv(s, c);
    case Cancel(r) => CancelInv(s, r);
    case _ => QuietInv(s, e);
  }
}
