/**
 Accepting an invite reads the row, looks other things up, and then writes the row by its id with no
 condition (auth.service.ts, team-access.service.ts). Here the read and the write are separate steps
 with any other operations between them, and the guard is followed through every interleaving.
 */
module TeamRaces {
  import opened Wrappers
  import opened TeamAccess

  /** A checked invite: its row, the token presented, the time of the check, and how much had happened by then. */
  datatype Check = Check(id: nat, token: nat, at: int, since: nat)

  /** `over` is history: the rows that an overtaken acceptance has activated, and nothing has mended since. */
  datatype Racing = Racing(team: State, pending: map<nat, Check>, over: set<nat>)

  datatype Event =
    | Whole(op: Op)
    | ReadInvite(q: nat, token: nat, user: nat, now: int)
    | Activate(q: nat, now: int)
    | Abandon(q: nat)

  function Pair(s: State, id: nat): (nat, nat)
    requires id < |s.members|
  {
    (s.members[id].inverter, s.members[id].email)
  }

  function StandingAt(s: State, id: nat): Standing
    requires id < |s.members|
  {
    StandingOf(s.log, s.members[id].inverter, s.members[id].email)
  }

  function ActivateNext(s: Racing, q: nat, now: int): Racing {
    if q !in s.pending || s.pending[q].id >= |s.team.members| then s else
    var c := s.pending[q];
    var team := ActivateStep(s.team, c.id, c.token, s.team.members[c.id].email, c.at, now);
    Racing(team, s.pending - {q}, if StandingAt(team, c.id).Joined? then s.over - {c.id} else s.over + {c.id})
  }

  function Next(s: Racing, e: Event): Racing {
    match e
    case Whole(op) => s.(team := Apply(s.team, op), over := StillOver(s.team, op, s.over))
    case ReadInvite(q, token, user, now) =>
      var k := FindInvite(s.team, token, user, now);
      if q in s.pending || k.None? then s else s.(pending := s.pending[q := Check(k.value, token, now, |s.team.log|)])
    case Activate(q, now) => ActivateNext(s, q, now)
    case Abandon(q) => s.(pending := s.pending - {q})
  }

  function Run(s: Racing, es: seq<Event>): Racing
    decreases |es|
  {
    if es == [] then s else Run(Next(s, es[0]), es[1..])
  }

  const START: Racing := Racing(TeamAccess.EMPTY, map[], {})

  // ---- Overtaken checks -------------------------------------------------------------------------

  /** Since the check the pair was invited anew, its invite was renewed, or it was revoked. */
  ghost predicate Overtaken(log: seq<Entry>, since: nat, inverter: nat, email: nat) {
    exists j :: since <= j < |log| && (Invites(log[j], inverter, email) || log[j] == Revoked(inverter, email))
  }

  /** The token checked is still the one that the pair's acceptance waits for, or the pair has joined. */
  predicate Fits(st: Standing, c: Check) {
    (st.Pending? && st.token == c.token && c.at <= st.expiresAt) || st.Joined?
  }

  /** The pair waits for an acceptance with just this token. */
  predicate Awaits(st: Standing, c: Check) { st.Pending? && st.token == c.token }

  ghost predicate CheckOk(s: State, c: Check) {
    && c.id < |s.members| && c.since <= |s.log| && c.token < s.nextToken
    && var (m, st) := (s.members[c.id], StandingAt(s, c.id));
       if Overtaken(s.log, c.since, m.inverter, m.email) then !Awaits(st, c) else Fits(st, c)
  }

  ghost predicate RacesInv(s: Racing) {
    InvExcept(s.team, s.over) && forall q :: q in s.pending ==> CheckOk(s.team, s.pending[q])
  }

  /** What every operation does: it logs at most one entry, invites with a new token, and moves no row. */
  predicate Follows(s: State, t: State) {
    && (t.log == s.log || (|t.log| == |s.log| + 1 && t.log == s.log + [t.log[|s.log|]]
                           && (t.log[|s.log|].Issued? || t.log[|s.log|].Renewed? ==> t.log[|s.log|].token == s.nextToken)))
    && s.nextToken <= t.nextToken && |s.members| <= |t.members|
    && forall i :: 0 <= i < |s.members| ==>
         t.members[i].inverter == s.members[i].inverter && t.members[i].email == s.members[i].email
  }

  lemma OvertakenGrows(log: seq<Entry>, e: Entry, since: nat, inverter: nat, email: nat)
    requires since <= |log|
    ensures Overtaken(log + [e], since, inverter, email)
            <==> Overtaken(log, since, inverter, email) || Invites(e, inverter, email) || e == Revoked(inverter, email)
  {
    var after := log + [e];
    if j :| since <= j < |log| && (Invites(log[j], inverter, email) || log[j] == Revoked(inverter, email)) {
      assert after[j] == log[j];
    }
    if j :| since <= j < |after| && (Invites(after[j], inverter, email) || after[j] == Revoked(inverter, email)) {
      assert j < |log| ==> after[j] == log[j];
    }
    assert after[|log|] == e;
  }

  lemma CheckStays(s: State, t: State, c: Check)
    requires CheckOk(s, c) && Follows(s, t)
    ensures CheckOk(t, c)
  {
    var (inverter, email) := Pair(s, c.id);
    if t.log != s.log {
      var e := t.log[|s.log|];
      OvertakenGrows(s.log, e, c.since, inverter, email);
      if About(e, inverter, email) { EntryAbout(s.log, e, inverter, email); } else { Appended(s.log, e, inverter, email); }
      hide StandingOf, LastRole, Overtaken;
    }
  }

  lemma OpsFollow(s: State, op: Op)
    ensures Follows(s, Apply(s, op))
  {
  }

  lemma ActivationFollows(s: State, id: nat, token: nat, user: nat, at: int, now: int)
    ensures Follows(s, ActivateStep(s, id, token, user, at, now))
  {
  }

  lemma ReadIsOk(s: State, over: set<nat>, token: nat, user: nat, now: int)
    requires InvExcept(s, over)
    ensures var k := FindInvite(s, token, user, now);
            k.Some? ==> CheckOk(s, Check(k.value, token, now, |s.log|))
  {
    hide StandingOf, LastRole;
    var k := FindInvite(s, token, user, now);
    if k.Some? {
      assert RowStands(s, k.value, over);
      assert ByToken(token, user)(s.members[k.value]);
    }
  }

  lemma NextInv(s: Racing, e: Event)
    requires RacesInv(s)
    ensures RacesInv(Next(s, e))
  {
    hide InvExcept, CheckOk, Follows, Apply, ActivateStep, StandingOf, FindInvite;
    var t := Next(s, e);
    match e
    case Whole(op) =>
      ApplyInv(s.team, op, s.over);
      OpsFollow(s.team, op);
      forall q | q in t.pending ensures CheckOk(t.team, t.pending[q]) { CheckStays(s.team, t.team, s.pending[q]); }
    case ReadInvite(q, token, user, now) => ReadIsOk(s.team, s.over, token, user, now);
    case Activate(q, now) =>
      if q in s.pending && s.pending[q].id < |s.team.members| {
        var c := s.pending[q];
        ActivateInv(s.team, c.id, c.token, c.at, now, s.over);
        ActivationFollows(s.team, c.id, c.token, s.team.members[c.id].email, c.at, now);
        SamePair(s.team, c, now);
        forall p | p in t.pending ensures CheckOk(t.team, t.pending[p]) { CheckStays(s.team, t.team, s.pending[p]); }
      }
    case Abandon(_) =>
  }

  lemma SamePair(s: State, c: Check, now: int)
    requires c.id < |s.members|
    ensures var (m, t) := (s.members[c.id], ActivateStep(s, c.id, c.token, s.members[c.id].email, c.at, now));
            c.id < |t.members| && StandingAt(t, c.id) == StandingOf(t.log, m.inverter, m.email)
  {
  }

  lemma {:induction false} RunInv(s: Racing, es: seq<Event>)
    requires RacesInv(s)
    ensures RacesInv(Run(s, es))
    decreases |es|
  {
    hide RacesInv, Next;
    if es != [] {
      NextInv(s, es[0]);
      RunInv(Next(s, es[0]), es[1..]);
    }
  }

  // ---- Theorems -----------------------------------------------------------------------------------

  /**
   However operations fall between the checks and the writes of acceptances, the guard's answer to a user
   who does not own the inverter is the one the history calls for, exactly when the pair's row is not one
   that an overtaken acceptance has activated.
   */
  lemma GuardSurvivesIff(es: seq<Event>, inverter: nat, user: nat, owner: nat, required: Option<seq<Role>>)
    requires user != owner
    ensures var s := Run(START, es);
            Answer(s.team.members, inverter, user, owner, required) == Deserved(s.team.log, inverter, user, required)
            <==> FirstFrom(s.team.members, ByEmail(inverter, user), 0) !in s.over
  {
    hide RacesInv;
    assert RacesInv(START) by { StartInv(); }
    RunInv(START, es);
    var s := Run(START, es);
    hide Run;
    assert InvExcept(s.team, s.over) by { Agreement(s); }
    GuardAt(s.team, s.over, inverter, user, owner, required);
  }

  lemma StartInv()
    ensures RacesInv(START)
  {
  }

  lemma Agreement(s: Racing)
    requires RacesInv(s)
    ensures InvExcept(s.team, s.over)
  {
  }

  /**
   A write spoils its row exactly when, since its check, the pair was invited anew, renewed or revoked, and
   has not joined by another acceptance. A write that is not overtaken mends its row.
   */
  lemma WriteSpoilsIff(es: seq<Event>, q: nat, now: int)
    requires q in Run(START, es).pending
    ensures var s := Run(START, es);
            var c := s.pending[q];
            && c.id < |s.team.members|
            && var (inverter, email) := Pair(s.team, c.id);
               (c.id in Next(s, Activate(q, now)).over
                <==> Overtaken(s.team.log, c.since, inverter, email) && !AcceptedAndCurrent(s.team.log, inverter, email))
  {
    StartInv();
    RunInv(START, es);
    var s := Run(START, es);
    hide Run;
    assert CheckOk(s.team, s.pending[q]);
    var c := s.pending[q];
    var (inverter, email) := Pair(s.team, c.id);
    JoinedIffAccepted(s.team.log, inverter, email);
    EntryAbout(s.team.log, Accepted(inverter, email, c.token, c.at), inverter, email);
    SamePair(s.team, c, now);
    hide StandingOf, LastRole, AcceptedAndCurrent, InvExcept, Overtaken;
  }

  const MEMBER: Member := Member(0, 7, Some(7), VIEWER, INVITED, 0, INVITE_TTL)
  const INVITED_LOG: seq<Entry> := [Issued(0, 7, 0, INVITE_TTL, VIEWER)]
  const REVOKED_LOG: seq<Entry> := INVITED_LOG + [Revoked(0, 7)]
  const ACCEPTED_LOG: seq<Entry> := REVOKED_LOG + [Accepted(0, 7, 0, 1)]

  lemma RaceStates()
    ensures var s1 := State([MEMBER], 1, INVITED_LOG);
            var s2 := State([MEMBER.(status := DEACTIVATED)], 1, REVOKED_LOG);
            && Apply(TeamAccess.EMPTY, Invite(0, 7, VIEWER, true, true, 0)) == s1
            && FindInvite(s1, 0, 7, 1) == Some(0)
            && Apply(s1, Revoke(0, 0)) == s2
            && ActivateStep(s2, 0, 0, 7, 1, 2) == State([MEMBER.(status := ACTIVE, expiresAt := 2)], 1, ACCEPTED_LOG)
  {
  }

  lemma RaceHistory()
    ensures StandingOf(INVITED_LOG, 0, 7) == Pending(0, 0, INVITE_TTL)
    ensures StandingOf(REVOKED_LOG, 0, 7) == Gone && StandingOf(ACCEPTED_LOG, 0, 7) == Gone
  {
    assert INVITED_LOG == [] + [Issued(0, 7, 0, INVITE_TTL, VIEWER)];
    EntryAbout([], Issued(0, 7, 0, INVITE_TTL, VIEWER), 0, 7);
    EntryAbout(INVITED_LOG, Revoked(0, 7), 0, 7);
    EntryAbout(REVOKED_LOG, Accepted(0, 7, 0, 1), 0, 7);
  }

  /** A user whose access is revoked between the check and the write ends up admitted. */
  lemma RevokedUserAdmitted() returns (es: seq<Event>)
    ensures es == [Whole(Invite(0, 7, VIEWER, true, true, 0)), ReadInvite(0, 0, 7, 1), Whole(Revoke(0, 0)), Activate(0, 2)]
    ensures var s := Run(START, es).team;
            && s.log == ACCEPTED_LOG && !AcceptedAndCurrent(s.log, 0, 7)
            && Answer(s.members, 0, 7, 1, None) == Success(true)
  {
    es := [Whole(Invite(0, 7, VIEWER, true, true, 0)), ReadInvite(0, 0, 7, 1), Whole(Revoke(0, 0)), Activate(0, 2)];
    RaceStates();
    RaceHistory();
    JoinedIffAccepted(ACCEPTED_LOG, 0, 7);
    hide Apply, ActivateStep, FindInvite, StandingOf, AcceptedAndCurrent;
    var s1 := START.(team := State([MEMBER], 1, INVITED_LOG));
    assert Next(START, es[0]) == s1;
    var s2 := s1.(pending := map[0 := Check(0, 0, 1, 1)]);
    assert Next(s1, es[1]) == s2;
    var s3 := s2.(team := State([MEMBER.(status := DEACTIVATED)], 1, REVOKED_LOG));
    assert Next(s2, es[2]) == s3;
    var s4 := Next(s3, es[3]);
    assert s4.team == State([MEMBER.(status := ACTIVE, expiresAt := 2)], 1, ACCEPTED_LOG);
    FourSteps(es, s1, s2, s3);
    hide Run, Next;
    assert ActiveUser(0, 7)(s4.team.members[0]);
  }

  lemma FourSteps(es: seq<Event>, s1: Racing, s2: Racing, s3: Racing)
    requires |es| == 4 && Next(START, es[0]) == s1 && Next(s1, es[1]) == s2 && Next(s2, es[2]) == s3
    ensures Run(START, es) == Next(s3, es[3])
  {
    hide Next;
    assert es[1..][1..] == es[2..] && es[2..][1..] == es[3..] && es[3..][1..] == [];
    assert Run(s3, es[3..]) == Next(s3, es[3]);
    assert Run(s2, es[2..]) == Run(s3, es[3..]);
    assert Run(s1, es[1..]) == Run(s2, es[2..]);
  }
}
