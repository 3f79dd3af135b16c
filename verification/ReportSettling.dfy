/**
 What becomes of a report over its compute job's attempts, exactly: settled, or stranded by a call that
 throws; and what becomes of a report that has no attempt left.
 */
module ReportSettling {
  import opened Wrappers
  import opened ReportTable
  import opened ReportLifecycle
  import opened ReportTheorems
  import opened ReportJobs
  import PeriodRanges

  // ---- The job ---------------------------------------------------------------------------------

  /** The status that a job leaves, from the outcomes of its attempts' calls alone. */
  function JobStatus(status: Status, attempts: seq<Attempt>, r: nat, made: nat): Status
    decreases |attempts|
  {
    if attempts == [] then status else JobStatus(After(status, attempts[0], r, made), attempts[1..], r, made + 1)
  }

  /** No cron resets the report between an attempt that strands it and the next. */
  predicate NotReopened(status: Status, attempts: seq<Attempt>, r: nat, made: nat)
    decreases |attempts|
  {
    attempts != [] ==>
      && (status == PROCESSING ==> !Resets(attempts[0].beforeRead))
      && NotReopened(After(status, attempts[0], r, made), attempts[1..], r, made + 1)
  }

  lemma {:induction false} Absorbed(status: Status, attempts: seq<Attempt>, r: nat, made: nat)
    requires status != PENDING
    ensures JobStatus(status, attempts, r, made) == status
    decreases |attempts|
  {
    if attempts != [] { Absorbed(status, attempts[1..], r, made + 1); }
  }

  /** With no crash and one delivery at a time, the calls' outcomes alone fix what becomes of the report. */
  lemma {:induction false} JobFollowsCalls(s: State, w: nat, r: nat, made: nat, attempts: seq<Attempt>)
    requires AttemptReady(s, r)
    requires forall a :: a in attempts ==> Undisturbed(a)
    requires JobWithinLease(s, w, r, made, attempts) && NotReopened(s.rows[r].status, attempts, r, made)
    ensures var t := JobRun(s, w, r, made, attempts);
            t.workers == map[] && r < |t.rows| && t.rows[r].status == JobStatus(s.rows[r].status, attempts, r, made)
    decreases |attempts|
  {
    hide Inv, AttemptWithinLease, AttemptRun, Throws, After, Resets;
    if attempts != [] {
      var a := attempts[0];
      assert a in attempts;
      AttemptOutcome(s, w, r, made, a);
      var t := AttemptRun(s, w, r, made, a);
      if Throws(s, w, r, made, a) {
        JobFollowsCalls(t, w, r, made + 1, attempts[1..]);
      } else {
        Absorbed(t.rows[r].status, attempts[1..], r, made + 1);
      }
    }
  }

  /** The attempt finishes the report: a user cancels it, it is delivered, or it has failed for good. */
  predicate Decides(a: Attempt, r: nat, made: nat) {
    Cancels(a, r) || (a.found && a.claim.Answered? && ((a.ok && a.saved) || (a.closed && LastAttempt(made))))
  }

  /** The attempt leaves the report claimed by nobody: a throw hides the claim, or the catch block throws. */
  predicate Strands(a: Attempt, r: nat) {
    !Cancels(a, r) && a.found && (a.claim.Unread? || (a.claim.Answered? && !(a.ok && a.saved) && !a.closed))
  }

  ghost predicate DecidedAt(attempts: seq<Attempt>, r: nat, made: nat, k: nat) {
    k < |attempts| && Decides(attempts[k], r, made + k) && forall j :: 0 <= j < k ==> !Strands(attempts[j], r)
  }

  lemma {:induction false} DecidedIff(attempts: seq<Attempt>, r: nat, made: nat)
    ensures Terminal(JobStatus(PENDING, attempts, r, made)) <==> exists k: nat :: DecidedAt(attempts, r, made, k)
    decreases |attempts|
  {
    if attempts != [] {
      var (a, rest) := (attempts[0], attempts[1..]);
      var status := After(PENDING, a, r, made);
      if status != PENDING {
        Absorbed(status, rest, r, made + 1);
        assert Terminal(status) <==> Decides(a, r, made);
        assert Terminal(status) ==> DecidedAt(attempts, r, made, 0);
      } else {
        DecidedIff(rest, r, made + 1);
        DecidedLater(attempts, rest, r, made, made + 1);
      }
    }
  }

  lemma DecidedLater(attempts: seq<Attempt>, rest: seq<Attempt>, r: nat, made: nat, next: nat)
    requires attempts != [] && rest == attempts[1..] && next == made + 1
    requires !Decides(attempts[0], r, made) && !Strands(attempts[0], r)
    ensures (exists k: nat :: DecidedAt(attempts, r, made, k)) <==> exists k: nat :: DecidedAt(rest, r, next, k)
  {
    hide Decides, Strands;
    if k: nat :| DecidedAt(attempts, r, made, k) {
      assert k > 0;
      forall j | 0 <= j < k - 1 ensures !Strands(rest[j], r) { assert !Strands(attempts[j + 1], r); }
      assert DecidedAt(rest, r, next, k - 1);
    }
    if k: nat :| DecidedAt(rest, r, next, k) {
      forall j | 0 <= j < k + 1 ensures !Strands(attempts[j], r) { assert j > 0 ==> !Strands(rest[j - 1], r); }
      assert DecidedAt(attempts, r, made, k + 1);
    }
  }

  /**
   With no crash, one delivery at a time, and no cron that reopens a stranded report between two
   attempts, a job settles its report exactly when some attempt decides it and no attempt before that
   strands it. Otherwise the report is left PENDING or PROCESSING, with no worker and no attempt.
   */
  lemma JobSettlesIff(s: State, w: nat, r: nat, made: nat, attempts: seq<Attempt>)
    requires AttemptReady(s, r) && s.rows[r].status == PENDING
    requires forall a :: a in attempts ==> Undisturbed(a)
    requires JobWithinLease(s, w, r, made, attempts) && NotReopened(PENDING, attempts, r, made)
    ensures var t := JobRun(s, w, r, made, attempts);
            && t.workers == map[] && r < |t.rows|
            && (Terminal(t.rows[r].status) <==> exists k: nat :: DecidedAt(attempts, r, made, k))
  {
    JobFollowsCalls(s, w, r, made, attempts);
    DecidedIff(attempts, r, made);
  }

  predicate CallsAnswer(a: Attempt) { a.found && a.claim.Answered? }

  /** Attempt `k` runs, and strands the report. */
  ghost predicate StrandedAt(attempts: seq<Attempt>, r: nat, made: nat, k: nat) {
    k < |attempts| && Strands(attempts[k], r) && forall j :: 0 <= j < k ==> !Decides(attempts[j], r, made + j)
  }

  lemma StrandedLater(attempts: seq<Attempt>, rest: seq<Attempt>, r: nat, made: nat, next: nat)
    requires attempts != [] && rest == attempts[1..] && next == made + 1
    requires !Decides(attempts[0], r, made) && !Strands(attempts[0], r)
    ensures (exists k: nat :: StrandedAt(attempts, r, made, k)) <==> exists k: nat :: StrandedAt(rest, r, next, k)
  {
    hide Decides, Strands;
    if k: nat :| StrandedAt(attempts, r, made, k) {
      assert k > 0;
      forall j | 0 <= j < k - 1 ensures !Decides(rest[j], r, next + j) { assert !Decides(attempts[j + 1], r, made + (j + 1)); }
      assert StrandedAt(rest, r, next, k - 1);
    }
    if k: nat :| StrandedAt(rest, r, next, k) {
      forall j | 0 <= j < k + 1 ensures !Decides(attempts[j], r, made + j) {
        assert j > 0 ==> !Decides(rest[j - 1], r, next + (j - 1));
      }
      assert StrandedAt(attempts, r, made, k + 1);
    }
  }

  /**
   When reads and claims answer, a job settles its report exactly when no attempt that runs has its catch
   block's own write throw. A READY write that throws settles all the same, through the catch block.
   */
  lemma {:induction false} OnlyCatchWriteStrands(attempts: seq<Attempt>, r: nat, made: nat)
    requires attempts != [] && made + |attempts| == 3 && forall a :: a in attempts ==> CallsAnswer(a)
    ensures Terminal(JobStatus(PENDING, attempts, r, made)) <==> !exists k: nat :: StrandedAt(attempts, r, made, k)
    decreases |attempts|
  {
    var (a, rest) := (attempts[0], attempts[1..]);
    assert CallsAnswer(a);
    var status := After(PENDING, a, r, made);
    assert status == PENDING <==> !Decides(a, r, made) && !Strands(a, r);
    assert Terminal(status) <==> Decides(a, r, made);
    hide After, Decides, Strands;
    if status != PENDING {
      Absorbed(status, rest, r, made + 1);
      if Strands(a, r) && !Decides(a, r, made) { assert StrandedAt(attempts, r, made, 0); }
      forall k: nat | StrandedAt(attempts, r, made, k) ensures !Decides(a, r, made) {
        NotBoth(a, r, made);
        assert k > 0 ==> !Decides(attempts[0], r, made + 0);
      }
    } else {
      if rest == [] { LastIsDecisive(a, r, made); }
      OnlyCatchWriteStrands(rest, r, made + 1);
      StrandedLater(attempts, rest, r, made, made + 1);
    }
  }

  lemma NotBoth(a: Attempt, r: nat, made: nat)
    ensures !(Decides(a, r, made) && Strands(a, r))
  {
  }

  lemma LastIsDecisive(a: Attempt, r: nat, made: nat)
    requires CallsAnswer(a) && LastAttempt(made)
    ensures Decides(a, r, made) || Strands(a, r)
  {
  }

  /** A settled job's status: cancelled by a user, delivered by the attempt that saved it, or failed throughout. */
  lemma {:induction false} WhySettled(attempts: seq<Attempt>, r: nat, made: nat)
    requires made + |attempts| <= 3
    ensures var status := JobStatus(PENDING, attempts, r, made);
            && (status == CANCELLED ==> exists a :: a in attempts && Cancels(a, r))
            && (status == READY ==> exists a :: a in attempts && a.ok && a.saved)
            && (status == FAILED ==> forall a :: a in attempts && CallsAnswer(a) ==> !(a.ok && a.saved))
    decreases |attempts|
  {
    if attempts != [] {
      var (a, rest) := (attempts[0], attempts[1..]);
      assert a in attempts;
      var status := After(PENDING, a, r, made);
      if status != PENDING { Absorbed(status, rest, r, made + 1); } else { WhySettled(rest, r, made + 1); }
      assert forall b :: b in attempts <==> b == a || b in rest;
    }
  }

  /**
   With no crash, one delivery at a time, and calls that answer except for the computation and the READY
   write, a job ends within its three attempts with its report finished: CANCELLED only if a user
   cancelled it, and otherwise READY if some attempt computed and saved it and FAILED if none did.
   */
  lemma JobSettles(s: State, w: nat, r: nat, made: nat, attempts: seq<Attempt>)
    requires AttemptReady(s, r) && s.rows[r].status == PENDING
    requires attempts != [] && made + |attempts| == 3
    requires forall a :: a in attempts ==> Undisturbed(a) && CallsAnswer(a) && a.closed
    requires JobWithinLease(s, w, r, made, attempts)
    ensures var t := JobRun(s, w, r, made, attempts);
            && r < |t.rows| && Terminal(t.rows[r].status) && t.workers == map[]
            && (t.rows[r].status == CANCELLED ==> exists a :: a in attempts && Cancels(a, r))
            && (t.rows[r].status == READY ==> exists a :: a in attempts && a.ok && a.saved)
            && (t.rows[r].status == FAILED ==> forall a :: a in attempts ==> !(a.ok && a.saved))
  {
    hide Inv;
    NeverReopened(PENDING, attempts, r, made);
    JobFollowsCalls(s, w, r, made, attempts);
    OnlyCatchWriteStrands(attempts, r, made);
    forall k: nat ensures !StrandedAt(attempts, r, made, k) {
      if k < |attempts| { assert attempts[k] in attempts; }
    }
    WhySettled(attempts, r, made);
  }

  /** A report that is never stranded needs no cron, and crons do nothing to it. */
  lemma {:induction false} NeverReopened(status: Status, attempts: seq<Attempt>, r: nat, made: nat)
    requires status != PROCESSING && forall a :: a in attempts ==> CallsAnswer(a) && a.closed
    ensures NotReopened(status, attempts, r, made)
    decreases |attempts|
  {
    if attempts != [] {
      assert attempts[0] in attempts;
      NeverReopened(After(status, attempts[0], r, made), attempts[1..], r, made + 1);
    }
  }

  // ---- A report without attempts ---------------------------------------------------------------

  predicate Unclaimed(s: State, r: nat) { forall w :: w in s.workers ==> s.workers[w].r != r }

  predicate NeverDelivered(es: seq<Event>, r: nat) { forall i :: 0 <= i < |es| && es[i].Deliver? ==> es[i].r != r }

  lemma StaysUnclaimed(s: State, e: Event, r: nat)
    requires r < |s.rows| && Unclaimed(s, r) && (e.Deliver? ==> e.r != r)
    ensures Unclaimed(Next(s, e), r)
  {
    hide ReportDelay;
  }

  lemma UnclaimedStep(s: State, e: Event, r: nat)
    requires r < |s.rows| && Unclaimed(s, r)
    ensures r < |Next(s, e).rows|
    ensures var (x, y) := (s.rows[r], Next(s, e).rows[r]);
            && (x.status == PENDING ==> y == if e == Cancel(r) then Stamp(x, CANCELLED, s.clock) else x)
            && (x.status == PROCESSING ==> y == x || (e.CronReset? && y == Stamp(x, PENDING, s.clock)))
            && (Terminal(x.status) ==> y == x)
  {
    hide ReportDelay;
  }

  ghost predicate CancelledAt(s: State, es: seq<Event>, r: nat, k: nat) {
    && k < |es| && es[k] == Cancel(r)
    && r < |Run(s, es[..k]).rows| && Run(s, es[..k]).rows[r].status == PENDING
  }

  /**
   A report left PENDING or PROCESSING with no worker and no further delivery is never computed: it stays
   unfinished for ever, whatever crons and other workers do, unless a user cancels it while it is PENDING.
   */
  lemma {:induction false} StrandedForever(s: State, es: seq<Event>, r: nat)
    requires r < |s.rows| && Unclaimed(s, r) && NeverDelivered(es, r) && !Terminal(s.rows[r].status)
    ensures r < |Run(s, es).rows|
    ensures var status := Run(s, es).rows[r].status;
            && status != READY && status != FAILED
            && (status == CANCELLED <==> exists k: nat :: CancelledAt(s, es, r, k))
    decreases |es|
  {
    hide Next;
    if es != [] {
      var t := Next(s, es[0]);
      UnclaimedStep(s, es[0], r);
      StaysUnclaimed(s, es[0], r);
      var rest := es[1..];
      forall k: nat | k < |rest| ensures Run(s, es[..k + 1]) == Run(t, rest[..k]) {
        assert es[..k + 1][1..] == rest[..k];
      }
      assert es[..0] == [] && CancelledAt(s, es, r, 0) <==> es[0] == Cancel(r) && s.rows[r].status == PENDING;
      if Terminal(t.rows[r].status) {
        FinishedUnclaimed(t, rest, r);
        assert CancelledAt(s, es, r, 0);
      } else {
        StrandedForever(t, rest, r);
        forall k: nat ensures CancelledAt(s, es, r, k + 1) <==> CancelledAt(t, rest, r, k) {}
        assert !CancelledAt(s, es, r, 0);
        if k: nat :| CancelledAt(s, es, r, k) { assert CancelledAt(t, rest, r, k - 1); }
        if k: nat :| CancelledAt(t, rest, r, k) { assert CancelledAt(s, es, r, k + 1); }
      }
    }
  }

  lemma {:induction false} FinishedUnclaimed(s: State, es: seq<Event>, r: nat)
    requires r < |s.rows| && Unclaimed(s, r) && NeverDelivered(es, r) && Terminal(s.rows[r].status)
    ensures r < |Run(s, es).rows| && Run(s, es).rows[r] == s.rows[r]
    decreases |es|
  {
    hide Next;
    if es != [] {
      UnclaimedStep(s, es[0], r);
      StaysUnclaimed(s, es[0], r);
      FinishedUnclaimed(Next(s, es[0]), es[1..], r);
    }
  }

  /** What the cron makes of a stranded report: PENDING, exactly past the lease, and with that it has done its all. */
  lemma CronReopensIff(s: State, r: nat, c: nat)
    requires r < |s.rows| && s.rows[r].status == PROCESSING
    ensures var t := Next(Next(s, CronRead(c)), CronReset(c));
            && r < |t.rows|
            && (t.rows[r].status == PENDING <==> s.clock - s.rows[r].updatedAt > 30 * 60 * 1000)
            && (t.rows[r] == s.rows[r] <==> s.clock - s.rows[r].updatedAt <= 30 * 60 * 1000)
            && t.jobs == s.jobs && t.workers == s.workers
  {
  }

  /** A job all of whose attempts are used, and whose report is in PROCESSING with nobody about. */
  lemma CatchWriteStrands() returns (es: seq<Event>)
    ensures var s := Init(Series(PeriodRanges.Custom, 0, false, 0), 0, 0, 0);
            && AttemptReady(s, 0) && s.rows[0].status == PENDING
            && Run(s, es).workers == map[] && |Run(s, es).rows| == 1 && Run(s, es).rows[0].status == PROCESSING
            && WithinLease(s, es)
            && es == [Deliver(1, 0, 0), Claim(1), Compute(1, false), WriteError(1), Deliver(1, 0, 1), Deliver(1, 0, 2)]
  {
    hide PeriodRanges.Range;
    var s0 := Init(Series(PeriodRanges.Custom, 0, false, 0), 0, 0, 0);
    InitInv(s0.series, 0, 0, 0);
    es := [Deliver(1, 0, 0), Claim(1), Compute(1, false), WriteError(1), Deliver(1, 0, 1), Deliver(1, 0, 2)];
    hide Inv;
    ThrowingRun(s0, es);
  }

  lemma ThrowingRun(s: State, es: seq<Event>)
    requires s == State(Series(PeriodRanges.Custom, 0, false, 0), 0, [Row(1, 0, PENDING, 0, None)], map[0 := 0], map[], map[])
    requires es == [Deliver(1, 0, 0), Claim(1), Compute(1, false), WriteError(1), Deliver(1, 0, 1), Deliver(1, 0, 2)]
    ensures Run(s, es) == s.(rows := CasStatus(s.rows, 0, PROCESSING, 0)) && WithinLease(s, es)
  {
    ThrowingAttempt(s);
    var claimed := s.(rows := CasStatus(s.rows, 0, PROCESSING, 0));
    ConflictingAttempt(claimed, 1);
    ConflictingAttempt(claimed, 2);
    hide Next, LeaseOk, Run, WithinLease;
    Told([s, s.(workers := map[1 := Reading(0, 0)]), claimed.(workers := map[1 := Holding(0, 0, 0)]),
          claimed.(workers := map[1 := Failing(0, 0, 0)]), claimed, claimed, claimed], es);
  }

  lemma ThrowingAttempt(s: State)
    requires s == State(Series(PeriodRanges.Custom, 0, false, 0), 0, [Row(1, 0, PENDING, 0, None)], map[0 := 0], map[], map[])
    ensures var claimed := s.(rows := CasStatus(s.rows, 0, PROCESSING, 0));
            var (s1, s2, s3) := (s.(workers := map[1 := Reading(0, 0)]), claimed.(workers := map[1 := Holding(0, 0, 0)]),
                                 claimed.(workers := map[1 := Failing(0, 0, 0)]));
            && Next(s, Deliver(1, 0, 0)) == s1 && Next(s1, Claim(1)) == s2 && Next(s2, Compute(1, false)) == s3
            && Next(s3, WriteError(1)) == claimed
            && LeaseOk(s) && LeaseOk(s1) && LeaseOk(s2) && LeaseOk(s3) && LeaseOk(claimed)
            && |claimed.rows| == 1 && claimed.rows[0].status == PROCESSING
  {
    assert map[1 := Failing(0, 0, 0)] - {1} == map[];
  }

  lemma ConflictingAttempt(s: State, made: nat)
    requires |s.rows| == 1 && s.rows[0].status == PROCESSING
    ensures Next(s, Deliver(1, 0, made)) == s
  {
  }
}
