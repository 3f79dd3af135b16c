/**
 Installer assignments (installers.service.ts): transactions that lock the profile row, bulk
 revocation on suspension, plain status changes and revocations, in any interleaving.

 Writes of a transaction are buffered in its phase and reach the committed tables at its commit. A
 lock request, or a plain update of the profile row, waits (does nothing) while the row is locked.
 The unique index on active assignments is not used.
 */
module Installers {
  import opened Wrappers

  datatype ProfileStatus = PENDING | ACTIVE | SUSPENDED
  datatype AssignmentStatus = Active | Revoked
  datatype Assignment = Assignment(inverter: nat, profile: nat, status: AssignmentStatus)

  datatype Tx =
    | CreateStart(inverter: nat, profile: nat)
    | CreateLocked(inverter: nat, profile: nat, seen: ProfileStatus)
    | CreateChecked(inverter: nat, profile: nat)
    | CreateInserted(inverter: nat, profile: nat)
    | SuspendStart(profile: nat)
    | SuspendLocked(profile: nat)
    | SuspendRevoked(profile: nat, revoked: set<nat>)
    | SuspendWritten(profile: nat, revoked: set<nat>)

  predicate Locked(t: Tx) { !t.CreateStart? && !t.SuspendStart? }

  datatype State = State(
    profiles: map<nat, ProfileStatus>,
    assignments: seq<Assignment>,
    locks: map<nat, nat>,              // profile -> the transaction that holds its row
    txs: map<nat, Tx>,
    revocations: map<nat, nat>)        // revoke requests that passed their checks -> assignment

  datatype Event =
    | CreateProfile(p: nat)
    | SetStatus(p: nat, status: ProfileStatus)
    | BeginCreate(t: nat, inverter: nat, p: nat)
    | BeginSuspend(t: nat, p: nat)
    | Lock(t: nat)
    | CheckStatus(t: nat)
    | CheckDuplicate(t: nat)
    | RevokeAll(t: nat)
    | WriteSuspended(t: nat)
    | Commit(t: nat)
    | Rollback(t: nat)
    | RevokeRead(q: nat, a: nat)
    | RevokeWrite(q: nat)

  function ActiveOn(assignments: seq<Assignment>, p: nat): set<nat> {
    set i | 0 <= i < |assignments| && assignments[i].profile == p && assignments[i].status == Active
  }

  predicate HasActive(assignments: seq<Assignment>, inverter: nat, p: nat) {
    exists i :: 0 <= i < |assignments| && assignments[i] == Assignment(inverter, p, Active)
  }

  function RevokeSet(assignments: seq<Assignment>, ids: set<nat>): (r: seq<Assignment>)
    ensures |r| == |assignments|
    ensures forall i :: 0 <= i < |r| ==>
              r[i] == if i in ids then assignments[i].(status := Revoked) else assignments[i]
  {
    seq(|assignments|, i requires 0 <= i < |assignments| =>
      if i in ids then assignments[i].(status := Revoked) else assignments[i])
  }

  function End(s: State, t: nat): State
    requires t in s.txs
  {
    s.(txs := s.txs - {t}, locks := if Locked(s.txs[t]) then s.locks - {s.txs[t].profile} else s.locks)
  }

  function LockStep(s: State, t: nat): State {
    if t !in s.txs || Locked(s.txs[t]) || s.txs[t].profile in s.locks then s else
    var p := s.txs[t].profile;
    if p !in s.profiles then End(s, t) else
    var phase := if s.txs[t].CreateStart? then CreateLocked(s.txs[t].inverter, p, s.profiles[p]) else SuspendLocked(p);
    s.(locks := s.locks[p := t], txs := s.txs[t := phase])
  }

  function CheckStatusStep(s: State, t: nat): State {
    if t !in s.txs || !s.txs[t].CreateLocked? then s else
    var CreateLocked(inverter, p, seen) := s.txs[t];
    if seen != ACTIVE then End(s, t) else s.(txs := s.txs[t := CreateChecked(inverter, p)])
  }

  function CheckDuplicateStep(s: State, t: nat): State {
    if t !in s.txs || !s.txs[t].CreateChecked? then s else
    var CreateChecked(inverter, p) := s.txs[t];
    if HasActive(s.assignments, inverter, p) then End(s, t) else s.(txs := s.txs[t := CreateInserted(inverter, p)])
  }

  function RevokeAllStep(s: State, t: nat): State {
    if t !in s.txs || !s.txs[t].SuspendLocked? then s else
    var p := s.txs[t].profile;
    s.(txs := s.txs[t := SuspendRevoked(p, ActiveOn(s.assignments, p))])
  }

  function CommitStep(s: State, t: nat): State {
    if t !in s.txs then s else
    match s.txs[t]
    case CreateInserted(inverter, p) =>
      End(s, t).(assignments := s.assignments + [Assignment(inverter, p, Active)])
    case SuspendWritten(p, revoked) =>
      End(s, t).(assignments := RevokeSet(s.assignments, revoked), profiles := s.profiles[p := SUSPENDED])
    case _ => s
  }

  function RevokeWriteStep(s: State, q: nat): State {
    if q !in s.revocations then s
    else s.(assignments := RevokeSet(s.assignments, {s.revocations[q]}), revocations := s.revocations - {q})
  }

  function Next(s: State, e: Event): State {
    match e
    case CreateProfile(p) => if p in s.profiles then s else s.(profiles := s.profiles[p := PENDING])
    case SetStatus(p, status) =>
      if status == SUSPENDED || p !in s.profiles || p in s.locks then s else s.(profiles := s.profiles[p := status])
    case BeginCreate(t, inverter, p) => if t in s.txs then s else s.(txs := s.txs[t := CreateStart(inverter, p)])
    case BeginSuspend(t, p) => if t in s.txs then s else s.(txs := s.txs[t := SuspendStart(p)])
    case Lock(t) => LockStep(s, t)
    case CheckStatus(t) => CheckStatusStep(s, t)
    case CheckDuplicate(t) => CheckDuplicateStep(s, t)
    case RevokeAll(t) => RevokeAllStep(s, t)
    case WriteSuspended(t) =>
      if t in s.txs && s.txs[t].SuspendRevoked?
      then s.(txs := s.txs[t := SuspendWritten(s.txs[t].profile, s.txs[t].revoked)]) else s
    case Commit(t) => CommitStep(s, t)
    case Rollback(t) => if t in s.txs then End(s, t) else s
    case RevokeRead(q, a) =>
      if q !in s.revocations && a < |s.assignments| && s.assignments[a].status == Active
      then s.(revocations := s.revocations[q := a]) else s
    case RevokeWrite(q) => RevokeWriteStep(s, q)
  }

  function Run(s: State, es: seq<Event>): State
    decreases |es|
  {
    if es == [] then s else Run(Next(s, es[0]), es[1..])
  }

  const EMPTY: State := State(map[], [], map[], map[], map[])

  // ---- The invariant --------------------------------------------------------------------

  /** No active assignment on a suspended profile. */
  ghost predicate NoneOnSuspended(s: State) {
    forall i :: 0 <= i < |s.assignments| && s.assignments[i].status == Active ==>
      s.assignments[i].profile in s.profiles && s.profiles[s.assignments[i].profile] != SUSPENDED
  }

  /** At most one active assignment for an inverter and a profile. */
  ghost predicate AtMostOne(assignments: seq<Assignment>) {
    forall i, j :: 0 <= i < j < |assignments| && assignments[i].status == Active ==> assignments[i] != assignments[j]
  }

  /** What a transaction has read of the committed tables under its lock. */
  ghost predicate PhaseOk(profiles: map<nat, ProfileStatus>, assignments: seq<Assignment>, tx: Tx) {
    && (Locked(tx) ==> tx.profile in profiles)
    && match tx
       case CreateLocked(_, p, seen) => profiles[p] == seen
       case CreateChecked(_, p) => profiles[p] == ACTIVE
       case CreateInserted(inverter, p) => profiles[p] == ACTIVE && !HasActive(assignments, inverter, p)
       case SuspendRevoked(p, revoked) => ActiveOn(assignments, p) <= revoked
       case SuspendWritten(p, revoked) => ActiveOn(assignments, p) <= revoked
       case _ => true
  }

  ghost predicate TxOk(s: State, t: nat)
    requires t in s.txs
  {
    var tx := s.txs[t];
    (Locked(tx) ==> tx.profile in s.locks && s.locks[tx.profile] == t) && PhaseOk(s.profiles, s.assignments, tx)
  }

  ghost predicate Inv(s: State) {
    NoneOnSuspended(s) && AtMostOne(s.assignments) && forall t :: t in s.txs ==> TxOk(s, t)
  }

  lemma CommitCreateInv(s: State, t: nat)
    requires Inv(s) && t in s.txs && s.txs[t].CreateInserted?
    ensures Inv(CommitStep(s, t))
  {
    var s' := CommitStep(s, t);
    assert TxOk(s, t);
    var n := |s.assignments|;
    assert forall i :: 0 <= i < n ==> s.assignments[i] != s'.assignments[n];
    forall u | u in s'.txs ensures TxOk(s', u) {
      assert u in s.txs && u != t && TxOk(s, u);
      assert Locked(s.txs[u]) ==> s.txs[u].profile != s.txs[t].profile;
    }
  }

  lemma RevokingShrinks(assignments: seq<Assignment>, ids: set<nat>)
    ensures AtMostOne(assignments) ==> AtMostOne(RevokeSet(assignments, ids))
    ensures forall p :: ActiveOn(RevokeSet(assignments, ids), p) <= ActiveOn(assignments, p)
    ensures forall inverter, p :: HasActive(RevokeSet(assignments, ids), inverter, p) ==> HasActive(assignments, inverter, p)
  {
  }

  lemma SuspendedHasNone(s: State, s': State, p: nat, revoked: set<nat>)
    requires NoneOnSuspended(s) && ActiveOn(s.assignments, p) <= revoked
    requires s'.assignments == RevokeSet(s.assignments, revoked) && s'.profiles == s.profiles[p := SUSPENDED]
    ensures NoneOnSuspended(s')
  {
    assert forall i :: 0 <= i < |s.assignments| && s.assignments[i].status == Active && s.assignments[i].profile == p
                       ==> i in ActiveOn(s.assignments, p);
  }

  lemma PhaseKept(profiles: map<nat, ProfileStatus>, assignments: seq<Assignment>, tx: Tx, p: nat, ids: set<nat>)
    requires PhaseOk(profiles, assignments, tx) && (Locked(tx) ==> tx.profile != p)
    ensures PhaseOk(profiles[p := SUSPENDED], RevokeSet(assignments, ids), tx)
  {
    RevokingShrinks(assignments, ids);
    hide RevokeSet, ActiveOn, HasActive, AtMostOne;
  }

  lemma SuspensionWrites(s: State, t: nat)
    requires t in s.txs && s.txs[t].SuspendWritten? && TxOk(s, t)
    ensures var (s', tx) := (CommitStep(s, t), s.txs[t]);
            && s'.txs == s.txs - {t} && s'.locks == s.locks - {tx.profile}
            && s'.profiles == s.profiles[tx.profile := SUSPENDED] && s'.assignments == RevokeSet(s.assignments, tx.revoked)
  {
    hide RevokeSet;
  }

  /** The lock keeps every other transaction that has read the profile away. */
  lemma OthersAfterSuspension(s: State, s': State, t: nat, u: nat, p: nat, revoked: set<nat>)
    requires t in s.txs && u in s.txs && u != t && TxOk(s, t) && TxOk(s, u) && s.txs[t] == SuspendWritten(p, revoked)
    requires s'.txs == s.txs - {t} && s'.locks == s.locks - {p}
    requires s'.profiles == s.profiles[p := SUSPENDED] && s'.assignments == RevokeSet(s.assignments, revoked)
    ensures TxOk(s', u)
  {
    hide PhaseOk, RevokeSet;
    PhaseKept(s.profiles, s.assignments, s.txs[u], p, revoked);
  }

  lemma CommitSuspendInv(s: State, t: nat)
    requires Inv(s) && t in s.txs && s.txs[t].SuspendWritten?
    ensures Inv(CommitStep(s, t))
  {
    var s' := CommitStep(s, t);
    assert TxOk(s, t);
    SuspensionWrites(s, t);
    hide CommitStep, RevokeSet, ActiveOn, HasActive, AtMostOne, NoneOnSuspended;
    var (p, revoked) := (s.txs[t].profile, s.txs[t].revoked);
    RevokingShrinks(s.assignments, revoked);
    SuspendedHasNone(s, s', p, revoked);
    hide TxOk;
    forall u | u in s'.txs ensures TxOk(s', u) {
      assert TxOk(s, u);
      OthersAfterSuspension(s, s', t, u, p, revoked);
    }
  }

  lemma RevokeWriteInv(s: State, q: nat)
    requires Inv(s)
    ensures Inv(RevokeWriteStep(s, q))
  {
    var s' := RevokeWriteStep(s, q);
    forall u | u in s'.txs ensures TxOk(s', u) { assert TxOk(s, u); }
  }

  lemma LockInv(s: State, t: nat)
    requires Inv(s)
    ensures Inv(LockStep(s, t))
  {
    hide HasActive, ActiveOn;
    var s' := LockStep(s, t);
    forall u | u in s'.txs ensures TxOk(s', u) { assert TxOk(s, u); }
  }

  lemma RollbackInv(s: State, t: nat)
    requires Inv(s)
    ensures Inv(Next(s, Rollback(t)))
  {
    hide HasActive, ActiveOn;
    var s' := Next(s, Rollback(t));
    forall u | u in s'.txs ensures TxOk(s', u) {
      assert TxOk(s, u);
      assert t in s.txs ==> TxOk(s, t);
    }
  }

  lemma CheckInv(s: State, e: Event)
    requires Inv(s) && (e.CheckStatus? || e.CheckDuplicate? || e.RevokeAll? || e.WriteSuspended?)
    ensures Inv(Next(s, e))
  {
    hide HasActive, ActiveOn;
    var s' := Next(s, e);
    forall u | u in s'.txs ensures TxOk(s', u) {
      assert TxOk(s, u);
      assert e.t in s.txs ==> TxOk(s, e.t);
    }
  }

  lemma NextInv(s: State, e: Event)
    requires Inv(s)
    ensures Inv(Next(s, e))
  {
    match e
    case Commit(t) =>
      if t in s.txs && s.txs[t].CreateInserted? { CommitCreateInv(s, t); }
      if t in s.txs && s.txs[t].SuspendWritten? { CommitSuspendInv(s, t); }
    case RevokeWrite(q) => RevokeWriteInv(s, q);
    case CreateProfile(p) =>
      forall u | u in Next(s, e).txs ensures TxOk(Next(s, e), u) { assert TxOk(s, u); }
    case SetStatus(p, status) =>
      forall u | u in Next(s, e).txs ensures TxOk(Next(s, e), u) { assert TxOk(s, u); }
    case BeginCreate(t, inverter, p) =>
      forall u | u in Next(s, e).txs ensures TxOk(Next(s, e), u) { assert u in s.txs ==> TxOk(s, u); }
    case BeginSuspend(t, p) =>
      forall u | u in Next(s, e).txs ensures TxOk(Next(s, e), u) { assert u in s.txs ==> TxOk(s, u); }
    case RevokeRead(q, a) =>
      forall u | u in Next(s, e).txs ensures TxOk(Next(s, e), u) { assert TxOk(s, u); }
    case Lock(t) => LockInv(s, t);
    case Rollback(t) => RollbackInv(s, t);
    case _ => CheckInv(s, e);
  }

  lemma {:induction false} RunInv(s: State, es: seq<Event>)
    requires Inv(s)
    ensures Inv(Run(s, es))
    decreases |es|
  {
    hide Inv, Next;
    if es != [] {
      NextInv(s, es[0]);
      RunInv(Next(s, es[0]), es[1..]);
    }
  }

  // ---- Theorems -------------------------------------------------------------------------

  /** Whatever the interleaving, and from the profile row lock alone. */
  lemma CommittedStatesAreSound(es: seq<Event>)
    ensures NoneOnSuspended(Run(EMPTY, es)) && AtMostOne(Run(EMPTY, es).assignments)
  {
    RunInv(EMPTY, es);
  }

  predicate SameOrRevoked(a: Assignment, b: Assignment) {
    a.inverter == b.inverter && a.profile == b.profile && (a.status == Revoked ==> b.status == Revoked)
  }

  lemma AssignmentStep(s: State, e: Event, i: nat)
    requires i < |s.assignments|
    ensures i < |Next(s, e).assignments| && SameOrRevoked(s.assignments[i], Next(s, e).assignments[i])
  {
    if !e.Commit? && !e.RevokeWrite? {
      assert Next(s, e).assignments == s.assignments;
    }
  }

  /** A revoked assignment never becomes active again, and no assignment moves to another pair. */
  lemma {:induction false} RevokedForever(s: State, es: seq<Event>, i: nat)
    requires i < |s.assignments|
    ensures i < |Run(s, es).assignments| && SameOrRevoked(s.assignments[i], Run(s, es).assignments[i])
    decreases |es|
  {
    hide Next;
    if es != [] {
      AssignmentStep(s, es[0], i);
      RevokedForever(Next(s, es[0]), es[1..], i);
    }
  }

  /** A committed suspension leaves the profile suspended and none of its assignments active. */
  lemma SuspensionRevokesAll(s: State, t: nat)
    requires Inv(s) && t in s.txs && s.txs[t].SuspendWritten?
    ensures var (s', p) := (Next(s, Commit(t)), s.txs[t].profile);
            s'.profiles[p] == SUSPENDED && p !in s'.locks && ActiveOn(s'.assignments, p) == {}
  {
    assert TxOk(s, t);
    NextInv(s, Commit(t));
  }

  /** Two requests for one assignment begin, and ask for the row lock. */
  function BeginBoth(s: State, t: nat, u: nat, inverter: nat, p: nat): State {
    Next(Next(Next(Next(s, BeginCreate(t, inverter, p)), BeginCreate(u, inverter, p)), Lock(t)), Lock(u))
  }

  /** The rest of a create transaction that has the lock. */
  function FinishCreate(s: State, t: nat): State { Next(Next(Next(s, CheckStatus(t)), CheckDuplicate(t)), Commit(t)) }

  lemma OneWaits(s: State, t: nat, u: nat, inverter: nat, p: nat)
    requires t != u && t !in s.txs && u !in s.txs && p in s.profiles && s.profiles[p] == ACTIVE && p !in s.locks
    ensures BeginBoth(s, t, u, inverter, p)
            == s.(locks := s.locks[p := t],
                  txs := s.txs[u := CreateStart(inverter, p)][t := CreateLocked(inverter, p, ACTIVE)])
  {
    hide HasActive, ActiveOn, CheckStatusStep, CheckDuplicateStep, CommitStep, RevokeAllStep, RevokeWriteStep;
    var begun := Next(Next(s, BeginCreate(t, inverter, p)), BeginCreate(u, inverter, p));
    assert begun == s.(txs := s.txs[u := CreateStart(inverter, p)][t := CreateStart(inverter, p)]);
    var locked := s.(locks := s.locks[p := t],
                     txs := s.txs[u := CreateStart(inverter, p)][t := CreateLocked(inverter, p, ACTIVE)]);
    assert Next(begun, Lock(t)) == locked;
    assert Next(locked, Lock(u)) == locked;
  }

  lemma Granted(s: State, t: nat, inverter: nat, p: nat)
    requires t in s.txs && s.txs[t] == CreateLocked(inverter, p, ACTIVE) && !HasActive(s.assignments, inverter, p)
    ensures FinishCreate(s, t)
            == s.(txs := s.txs - {t}, locks := s.locks - {p}, assignments := s.assignments + [Assignment(inverter, p, Active)])
  {
    hide HasActive, ActiveOn, LockStep, RevokeAllStep, RevokeWriteStep;
    var checked := s.(txs := s.txs[t := CreateChecked(inverter, p)]);
    assert Next(s, CheckStatus(t)) == checked;
    var inserted := s.(txs := s.txs[t := CreateInserted(inverter, p)]);
    assert Next(checked, CheckDuplicate(t)) == inserted;
    assert inserted.txs - {t} == s.txs - {t};
  }

  /** Then the second finds the first's assignment and is refused. */
  lemma SecondCreate(s: State, u: nat, inverter: nat, p: nat)
    requires u in s.txs && s.txs[u] == CreateStart(inverter, p) && p in s.profiles && s.profiles[p] == ACTIVE && p !in s.locks
    requires HasActive(s.assignments, inverter, p)
    ensures FinishCreate(Next(s, Lock(u)), u) == s.(txs := s.txs - {u})
  {
    hide HasActive, ActiveOn;
    var locked := s.(locks := s.locks[p := u], txs := s.txs[u := CreateLocked(inverter, p, ACTIVE)]);
    assert Next(s, Lock(u)) == locked;
    var checked := locked.(txs := s.txs[u := CreateChecked(inverter, p)]);
    assert Next(locked, CheckStatus(u)) == checked;
    assert Next(checked, CheckDuplicate(u)) == s.(txs := s.txs - {u}) by {
      assert checked.txs - {u} == s.txs - {u} && checked.locks - {p} == s.locks;
    }
  }

  /**
   Of two interleaved requests for one assignment exactly one is granted, whatever else is in flight: the
   second waits for the row lock and then sees the first's assignment.
   */
  lemma RacingCreates(s: State, t: nat, u: nat, inverter: nat, p: nat)
    requires t != u && t !in s.txs && u !in s.txs && p in s.profiles && s.profiles[p] == ACTIVE && p !in s.locks
    requires !HasActive(s.assignments, inverter, p)
    ensures FinishCreate(Next(FinishCreate(BeginBoth(s, t, u, inverter, p), t), Lock(u)), u)
            == s.(assignments := s.assignments + [Assignment(inverter, p, Active)])
  {
    OneWaits(s, t, u, inverter, p);
    Granted(BeginBoth(s, t, u, inverter, p), t, inverter, p);
    hide FinishCreate, BeginBoth, Next;
    var first := FinishCreate(BeginBoth(s, t, u, inverter, p), t);
    assert first == s.(txs := s.txs[u := CreateStart(inverter, p)],
                       assignments := s.assignments + [Assignment(inverter, p, Active)]) by {
      assert s.txs[u := CreateStart(inverter, p)][t := CreateLocked(inverter, p, ACTIVE)] - {t}
          == s.txs[u := CreateStart(inverter, p)];
      assert s.locks[p := t] - {p} == s.locks;
    }
    assert first.assignments[|s.assignments|] == Assignment(inverter, p, Active);
    SecondCreate(first, u, inverter, p);
    assert first.txs - {u} == s.txs;
  }

  /** Profile `p` has not been approved: it is not ACTIVE, nothing is about to be assigned to it, and nothing is. */
  ghost predicate NotApproved(s: State, p: nat) {
    && (p in s.profiles ==> s.profiles[p] != ACTIVE)
    && (forall t :: t in s.txs && s.txs[t].profile == p ==>
          !s.txs[t].CreateChecked? && !s.txs[t].CreateInserted? && (s.txs[t].CreateLocked? ==> s.txs[t].seen != ACTIVE))
    && (forall i :: 0 <= i < |s.assignments| ==> s.assignments[i].profile != p)
  }

  lemma NotApprovedStep(s: State, e: Event, p: nat)
    requires NotApproved(s, p) && e != SetStatus(p, ACTIVE)
    ensures NotApproved(Next(s, e), p)
  {
    hide HasActive, ActiveOn;
  }

  lemma {:induction false} StaysNotApproved(s: State, es: seq<Event>, p: nat)
    requires NotApproved(s, p) && SetStatus(p, ACTIVE) !in es
    ensures NotApproved(Run(s, es), p)
    decreases |es|
  {
    hide Next, NotApproved;
    if es != [] {
      assert es[0] in es;
      NotApprovedStep(s, es[0], p);
      StaysNotApproved(Next(s, es[0]), es[1..], p);
    }
  }

  /** A new profile starts out not ACTIVE, and until someone sets it ACTIVE no assignment is made to it. */
  lemma NoneBeforeApproval(es: seq<Event>, p: nat)
    requires SetStatus(p, ACTIVE) !in es
    ensures var s := Run(EMPTY, es);
            && (p in s.profiles ==> s.profiles[p] != ACTIVE)
            && forall i :: 0 <= i < |s.assignments| ==> s.assignments[i].profile != p
  {
    StaysNotApproved(EMPTY, es, p);
    hide Run;
  }

  // ---- The service's operations, one at a time -------------------------------------------

  datatype Error = NotFound | Forbidden | Conflict

  /** The committed tables with no transaction open. */
  function Tables(profiles: map<nat, ProfileStatus>, assignments: seq<Assignment>): State {
    State(profiles, assignments, map[], map[], map[])
  }

  function SuspendAlone(s: State, p: nat): State {
    Next(Next(Next(Next(Next(s, BeginSuspend(0, p)), Lock(0)), RevokeAll(0)), WriteSuspended(0)), Commit(0))
  }

  lemma SuspensionLocked(profiles: map<nat, ProfileStatus>, assignments: seq<Assignment>, p: nat)
    requires p in profiles
    ensures Next(Next(Tables(profiles, assignments), BeginSuspend(0, p)), Lock(0))
            == State(profiles, assignments, map[p := 0], map[0 := SuspendLocked(p)], map[])
  {
    var s1 := Next(Tables(profiles, assignments), BeginSuspend(0, p));
    assert s1.txs == map[0 := SuspendStart(p)];
    assert Next(s1, Lock(0)).txs == map[0 := SuspendLocked(p)];
  }

  lemma SuspensionWritten(s: State, p: nat)
    requires s.locks == map[p := 0] && s.txs == map[0 := SuspendLocked(p)]
    ensures Next(Next(s, RevokeAll(0)), WriteSuspended(0)) == s.(txs := map[0 := SuspendWritten(p, ActiveOn(s.assignments, p))])
  {
    hide ActiveOn, HasActive, LockStep, CheckStatusStep, CheckDuplicateStep, CommitStep, RevokeWriteStep, End;
    var s3 := Next(s, RevokeAll(0));
    assert s3.txs == map[0 := SuspendRevoked(p, ActiveOn(s.assignments, p))];
    assert Next(s3, WriteSuspended(0)).txs == map[0 := SuspendWritten(p, ActiveOn(s.assignments, p))];
  }

  lemma CommitIsStep(s: State, t: nat)
    ensures Next(s, Commit(t)) == CommitStep(s, t)
  {
    hide CommitStep;
  }

  lemma SuspensionCommitted(s: State, p: nat, revoked: set<nat>)
    requires s.locks == map[p := 0] && s.txs == map[0 := SuspendWritten(p, revoked)]
    ensures Next(s, Commit(0))
            == State(s.profiles[p := SUSPENDED], RevokeSet(s.assignments, revoked), map[], map[], s.revocations)
  {
    CommitIsStep(s, 0);
    hide Next, RevokeSet;
    assert s.txs - {0} == map[] && s.locks - {p} == map[];
  }

  /** A suspension by itself: every active assignment of the profile is revoked and nothing else changes. */
  lemma SuspendedTables(profiles: map<nat, ProfileStatus>, assignments: seq<Assignment>, p: nat)
    ensures SuspendAlone(Tables(profiles, assignments), p)
            == if p in profiles then Tables(profiles[p := SUSPENDED], RevokeSet(assignments, ActiveOn(assignments, p)))
               else Tables(profiles, assignments)
  {
    hide ActiveOn;
    if p in profiles {
      SuspensionLocked(profiles, assignments, p);
      hide Next;
      var s2 := State(profiles, assignments, map[p := 0], map[0 := SuspendLocked(p)], map[]);
      SuspensionWritten(s2, p);
      SuspensionCommitted(s2.(txs := map[0 := SuspendWritten(p, ActiveOn(assignments, p))]), p, ActiveOn(assignments, p));
    } else {
      var s1 := Next(Tables(profiles, assignments), BeginSuspend(0, p));
      assert s1.txs == map[0 := SuspendStart(p)];
      assert Next(s1, Lock(0)).txs == map[];
    }
  }

  lemma RevocationRead(profiles: map<nat, ProfileStatus>, assignments: seq<Assignment>, a: nat)
    requires a < |assignments| && assignments[a].status == Active
    ensures Next(Tables(profiles, assignments), RevokeRead(0, a)) == State(profiles, assignments, map[], map[], map[0 := a])
  {
  }

  lemma RevokeWriteIsStep(s: State, q: nat)
    ensures Next(s, RevokeWrite(q)) == RevokeWriteStep(s, q)
  {
    hide RevokeWriteStep;
  }

  lemma RevocationWritten(profiles: map<nat, ProfileStatus>, assignments: seq<Assignment>, a: nat)
    requires a < |assignments|
    ensures Next(State(profiles, assignments, map[], map[], map[0 := a]), RevokeWrite(0))
            == Tables(profiles, assignments[a := assignments[a].(status := Revoked)])
  {
    hide Next, RevokeSet;
    RevokeWriteIsStep(State(profiles, assignments, map[], map[], map[0 := a]), 0);
    RevokeOne(assignments, a);
    NothingLeft(a);
  }

  lemma NothingLeft(a: nat)
    ensures map[0 := a] - {0} == map[]
  {
  }

  lemma RevokeOne(assignments: seq<Assignment>, a: nat)
    requires a < |assignments|
    ensures RevokeSet(assignments, {a}) == assignments[a := assignments[a].(status := Revoked)]
  {
    var r := RevokeSet(assignments, {a});
    assert forall i :: 0 <= i < |r| ==> r[i] == assignments[a := assignments[a].(status := Revoked)][i];
  }

  /** A revocation by itself changes the status of one assignment. */
  lemma RevokedTables(profiles: map<nat, ProfileStatus>, assignments: seq<Assignment>, a: nat)
    requires a < |assignments| && assignments[a].status == Active
    ensures Next(Next(Tables(profiles, assignments), RevokeRead(0, a)), RevokeWrite(0))
            == Tables(profiles, assignments[a := assignments[a].(status := Revoked)])
  {
    hide Next;
    RevocationRead(profiles, assignments, a);
    RevocationWritten(profiles, assignments, a);
  }

  lemma RevokedOn(assignments: seq<Assignment>, p: nat)
    ensures forall i :: 0 <= i < |assignments| ==>
              var was := assignments[i];
              RevokeSet(assignments, ActiveOn(assignments, p))[i]
              == if was.profile == p && was.status == Active then was.(status := Revoked) else was
  {
  }

  class InstallersService {
    var profiles: map<nat, ProfileStatus>
    var assignments: seq<Assignment>
    const owners: map<nat, nat>        // inverter -> user

    constructor (owners: map<nat, nat>)
      ensures this.owners == owners && profiles == map[] && assignments == []
    {
      this.owners := owners;
      this.profiles := map[];
      this.assignments := [];
    }

    function Committed(): State
      reads this
    {
      Tables(profiles, assignments)
    }

    method UpdateStatus(p: nat, status: ProfileStatus) returns (r: Result<ProfileStatus, Error>)
      modifies this
      ensures r == if p in old(profiles) then Success(status) else Failure(NotFound)
      ensures Committed() == if status == SUSPENDED
                then SuspendAlone(old(Committed()), p)
                else Next(old(Committed()), SetStatus(p, status))
      ensures profiles == if p in old(profiles) then old(profiles)[p := status] else old(profiles)
      ensures |assignments| == |old(assignments)|
      ensures forall i :: 0 <= i < |assignments| ==>
                var was := old(assignments)[i];
                assignments[i] == if status == SUSPENDED && p in old(profiles) && was.profile == p && was.status == Active
                                  then was.(status := Revoked) else was
    {
      RevokedOn(assignments, p);
      hide SuspendAlone, ActiveOn;
      SuspendedTables(profiles, assignments, p);
      if p !in profiles { return Failure(NotFound); }
      if status == SUSPENDED {
        assignments := RevokeSet(assignments, ActiveOn(assignments, p));
      }
      profiles := profiles[p := status];
      return Success(status);
    }

    method CreateAssignment(inverter: nat, p: nat, user: nat) returns (r: Result<nat, Error>)
      modifies this
      ensures !(inverter in owners && owners[inverter] == user) ==> r.Failure? && Committed() == old(Committed())
      ensures inverter in owners && owners[inverter] == user ==>
                && Committed() == Next(Next(Next(Next(Next(old(Committed()), BeginCreate(0, inverter, p)), Lock(0)),
                                            CheckStatus(0)), CheckDuplicate(0)), Commit(0))
                && (r.Success? <==> p in profiles && profiles[p] == ACTIVE && !HasActive(old(assignments), inverter, p))
      ensures r.Success? ==>
                r.value == |old(assignments)| && assignments == old(assignments) + [Assignment(inverter, p, Active)]
    {
      if inverter !in owners { return Failure(NotFound); }
      if owners[inverter] != user { return Failure(Forbidden); }
      if p !in profiles { return Failure(NotFound); }
      if profiles[p] != ACTIVE { return Failure(Conflict); }
      var existing := HasActive(assignments, inverter, p);
      if existing { return Failure(Conflict); }
      assignments := assignments + [Assignment(inverter, p, Active)];
      return Success(|assignments| - 1);
    }

    method RevokeAssignment(a: nat, user: nat, expectedInverter: Option<nat>) returns (r: Result<Assignment, Error>)
      modifies this
      ensures r.Success? <==>
                && a < |old(assignments)|
                && (var it := old(assignments)[a];
                    && (expectedInverter == None || expectedInverter == Some(it.inverter))
                    && it.inverter in owners && owners[it.inverter] == user && it.status == Active)
      ensures r.Success? ==>
                && Committed() == Next(Next(old(Committed()), RevokeRead(0, a)), RevokeWrite(0))
                && r.value == old(assignments)[a].(status := Revoked)
                && assignments == old(assignments)[a := r.value] && profiles == old(profiles)
      ensures r.Failure? ==> Committed() == old(Committed())
    {
      if a >= |assignments| { return Failure(NotFound); }
      var assignment := assignments[a];
      if expectedInverter.Some? && assignment.inverter != expectedInverter.value { return Failure(NotFound); }
      if assignment.inverter !in owners { return Failure(NotFound); }
      if owners[assignment.inverter] != user { return Failure(Forbidden); }
      if assignment.status == Revoked { return Failure(Conflict); }
      RevokedTables(profiles, assignments, a);
      hide Next;
      assignments := assignments[a := assignment.(status := Revoked)];
      return Success(assignments[a]);
    }
  }
}
