/**
 Team membership of inverters (team-access.service.ts, inverter-member.action.ts) and the access
 decision read from it (inverter-role.guard.ts), over sequences of whole operations.

 A user and an email address are one number: addresses are unique and taken not to change. Invite
 tokens are numbered as generated. `log` is history: what each successful operation did.
 */
module TeamAccess {
  import opened Wrappers

  const INVITE_TTL: int := 7 * 24 * 60 * 60 * 1000

  datatype Role = OWNER | ADMIN | TECHNICIAN | VIEWER

  function Rank(r: Role): int {
    match r
    case OWNER => 4
    case ADMIN => 3
    case TECHNICIAN => 2
    case VIEWER => 1
  }

  datatype MemberStatus = INVITED | ACTIVE | DEACTIVATED

  datatype Member = Member(inverter: nat, email: nat, user: Option<nat>, role: Role, status: MemberStatus,
                           token: nat, expiresAt: int)

  datatype Entry =
    | Issued(inverter: nat, email: nat, token: nat, expiresAt: int, role: Role)
    | Renewed(inverter: nat, email: nat, token: nat, expiresAt: int)
    | Accepted(inverter: nat, email: nat, token: nat, at: int)
    | RoleSet(inverter: nat, email: nat, role: Role)
    | Revoked(inverter: nat, email: nat)

  datatype State = State(members: seq<Member>, nextToken: nat, log: seq<Entry>)

  datatype Op =
    | Invite(inverter: nat, email: nat, role: Role, registered: bool, found: bool, now: int)
    | Refresh(id: nat, inverter: nat, found: bool, now: int)
    | Accept(token: nat, user: nat, found: bool, now: int)
    | SetRole(inverter: nat, id: nat, role: Role)
    | Revoke(inverter: nat, id: nat)

  /** The lookup of a row by a predicate: any match would do, and the first is taken. */
  function FirstFrom(members: seq<Member>, p: Member -> bool, from: nat): (k: nat)
    requires from <= |members|
    ensures from <= k <= |members|
    ensures k < |members| ==> p(members[k])
    ensures forall i :: from <= i < k ==> !p(members[i])
    decreases |members| - from
  {
    if from == |members| || p(members[from]) then from else FirstFrom(members, p, from + 1)
  }

  function ByEmail(inverter: nat, email: nat): Member -> bool { (m: Member) => m.inverter == inverter && m.email == email }

  function ByToken(token: nat, email: nat): Member -> bool { (m: Member) => m.token == token && m.email == email }

  function ActiveUser(inverter: nat, user: nat): Member -> bool {
    (m: Member) => m.inverter == inverter && m.user == Some(user) && m.status == ACTIVE
  }

  function InviteStep(s: State, inverter: nat, email: nat, role: Role, registered: bool, found: bool, now: int): State {
    var k := FirstFrom(s.members, ByEmail(inverter, email), 0);
    var expiry := now + INVITE_TTL;
    var entry := Issued(inverter, email, s.nextToken, expiry, role);
    if k < |s.members| then
      if s.members[k].status != DEACTIVATED then s else
      State(s.members[k := s.members[k].(status := INVITED, role := role, token := s.nextToken, expiresAt := expiry)],
            s.nextToken + 1, s.log + [entry])
    else if !found then s
    else State(s.members + [Member(inverter, email, if registered then Some(email) else None, role, INVITED, s.nextToken, expiry)],
               s.nextToken + 1, s.log + [entry])
  }

  function RefreshStep(s: State, id: nat, inverter: nat, found: bool, now: int): State {
    if !found || id >= |s.members| || s.members[id].status != INVITED || s.members[id].inverter != inverter then s else
    var m := s.members[id];
    var expiry := now + INVITE_TTL;
    State(s.members[id := m.(token := s.nextToken, expiresAt := expiry)], s.nextToken + 1,
          s.log + [Renewed(m.inverter, m.email, s.nextToken, expiry)])
  }

  /** The row of a pending, unexpired invite, by its token and address; None is one of the errors. */
  function FindInvite(s: State, token: nat, user: nat, now: int): (k: Option<nat>)
    ensures k.Some? ==> k.value < |s.members|
  {
    var k := FirstFrom(s.members, ByToken(token, user), 0);
    if k == |s.members| || s.members[k].status != INVITED || now > s.members[k].expiresAt then None else Some(k)
  }

  /** The activating write: by row, whatever has become of it since the invite was checked at `at`. */
  function ActivateStep(s: State, id: nat, token: nat, user: nat, at: int, now: int): State {
    if id >= |s.members| then s else
    var m := s.members[id];
    s.(members := s.members[id := m.(status := ACTIVE, expiresAt := now, user := Some(user))],
       log := s.log + [Accepted(m.inverter, m.email, token, at)])
  }

  function AcceptStep(s: State, token: nat, user: nat, found: bool, now: int): State {
    var k := FindInvite(s, token, user, now);
    if k.None? || !found then s else ActivateStep(s, k.value, token, user, now, now)
  }

  function SetRoleStep(s: State, inverter: nat, id: nat, role: Role): State {
    if id >= |s.members| || s.members[id].inverter != inverter then s else
    s.(members := s.members[id := s.members[id].(role := role)],
       log := s.log + [RoleSet(inverter, s.members[id].email, role)])
  }

  function RevokeStep(s: State, inverter: nat, id: nat): State {
    if id >= |s.members| || s.members[id].inverter != inverter then s else
    s.(members := s.members[id := s.members[id].(status := DEACTIVATED)],
       log := s.log + [Revoked(inverter, s.members[id].email)])
  }

  function Apply(s: State, op: Op): State {
    match op
    case Invite(inverter, email, role, registered, found, now) => InviteStep(s, inverter, email, role, registered, found, now)
    case Refresh(id, inverter, found, now) => RefreshStep(s, id, inverter, found, now)
    case Accept(token, user, found, now) => AcceptStep(s, token, user, found, now)
    case SetRole(inverter, id, role) => SetRoleStep(s, inverter, id, role)
    case Revoke(inverter, id) => RevokeStep(s, inverter, id)
  }

  function Run(s: State, ops: seq<Op>): State
    decreases |ops|
  {
    if ops == [] then s else Run(Apply(s, ops[0]), ops[1..])
  }

  const EMPTY: State := State([], 0, [])

  // ---- The guard ------------------------------------------------------------------------

  datatype GuardError = InverterNotFound | Forbidden

  /** canActivate: `owner` is the outcome of looking the inverter up. */
  function CanActivate(outsider: bool, inverter: Option<nat>, user: Option<nat>, owner: Option<nat>,
                       members: seq<Member>, required: Option<seq<Role>>): Result<bool, GuardError> {
    if outsider then Success(true)
    else if inverter.None? || user.None? then Success(false)
    else if owner.None? then Failure(InverterNotFound)
    else if user == owner then Success(true)
    else
      var k := FirstFrom(members, ActiveUser(inverter.value, user.value), 0);
      if k == |members| then Failure(Forbidden)
      else if required.None? then Success(true)
      else Success(exists i :: 0 <= i < |required.value| && Rank(members[k].role) >= Rank(required.value[i]))
  }

  // ---- What the history says ------------------------------------------------------------

  predicate About(e: Entry, inverter: nat, email: nat) { e.inverter == inverter && e.email == email }

  predicate Invites(e: Entry, inverter: nat, email: nat) {
    (e.Issued? || e.Renewed?) && About(e, inverter, email)
  }

  /** Entry `k` is the last to invite or revoke the pair. */
  ghost predicate LatestInvitation(log: seq<Entry>, k: nat, inverter: nat, email: nat) {
    && k < |log| && Invites(log[k], inverter, email)
    && forall j :: k < j < |log| ==> !Invites(log[j], inverter, email) && log[j] != Revoked(inverter, email)
  }

  /** Entry `a` accepts invitation `k`, with the token that invitation issued and before it expired. */
  predicate Accepts(log: seq<Entry>, k: nat, a: nat) {
    && k < a < |log| && (log[k].Issued? || log[k].Renewed?) && log[a].Accepted?
    && About(log[a], log[k].inverter, log[k].email)
    && log[a].token == log[k].token && log[a].at <= log[k].expiresAt
  }

  ghost predicate AcceptedAndCurrent(log: seq<Entry>, inverter: nat, email: nat) {
    exists k: nat, a: nat :: LatestInvitation(log, k, inverter, email) && Accepts(log, k, a)
  }

  /** The role last given to the pair. */
  function LastRole(log: seq<Entry>, inverter: nat, email: nat): Option<Role> {
    if log == [] then None else
    var e := log[|log| - 1];
    if (e.Issued? || e.RoleSet?) && About(e, inverter, email) then Some(e.role)
    else LastRole(log[..|log| - 1], inverter, email)
  }

  // ---- The same history, read as the life of one pair ------------------------------------

  datatype Standing = Never | Pending(k: nat, token: nat, expiresAt: int) | Joined(k: nat) | Gone

  function StandingOf(log: seq<Entry>, inverter: nat, email: nat): (r: Standing)
    ensures r.Pending? || r.Joined? ==> r.k < |log|
  {
    if log == [] then Never else
    var n := |log| - 1;
    var before := StandingOf(log[..n], inverter, email);
    var e := log[n];
    if !About(e, inverter, email) then before else
    match e
    case Issued(_, _, token, expiresAt, _) => Pending(n, token, expiresAt)
    case Renewed(_, _, token, expiresAt) => Pending(n, token, expiresAt)
    case Accepted(_, _, token, at) =>
      if before.Pending? && before.token == token && at <= before.expiresAt then Joined(before.k) else before
    case RoleSet(_, _, _) => before
    case Revoked(_, _) => Gone
  }

  /** The life of a pair agrees with the declarative reading of its history. */
  lemma {:induction false} StandingMeaning(log: seq<Entry>, inverter: nat, email: nat)
    ensures var st := StandingOf(log, inverter, email);
            && ((st.Pending? || st.Joined?) ==> LatestInvitation(log, st.k, inverter, email))
            && (st.Pending? ==> log[st.k].token == st.token && log[st.k].expiresAt == st.expiresAt
                                && forall a: nat :: !Accepts(log, st.k, a))
            && (st.Joined? ==> exists a: nat :: Accepts(log, st.k, a))
            && ((st.Never? || st.Gone?) ==> forall k: nat :: !LatestInvitation(log, k, inverter, email))
  {
    if log != [] {
      var n := |log| - 1;
      var (old', e) := (log[..n], log[n]);
      StandingMeaning(old', inverter, email);
      var (before, st) := (StandingOf(old', inverter, email), StandingOf(log, inverter, email));
      forall k: nat | k < n
        ensures LatestInvitation(log, k, inverter, email) <==>
                  LatestInvitation(old', k, inverter, email) && !Invites(e, inverter, email) && e != Revoked(inverter, email)
      {
        if LatestInvitation(log, k, inverter, email) {
          assert forall j :: k < j < n ==> old'[j] == log[j];
          assert log[n] == e;
        }
      }
      forall k: nat, a: nat | a < n ensures Accepts(log, k, a) <==> Accepts(old', k, a) {}
      if st.Joined? {
        if before.Joined? {
          var a: nat :| Accepts(old', before.k, a);
          assert Accepts(log, st.k, a);
        } else {
          assert Accepts(log, st.k, n);
        }
      }
    }
  }

  lemma JoinedIffAccepted(log: seq<Entry>, inverter: nat, email: nat)
    ensures StandingOf(log, inverter, email).Joined? <==> AcceptedAndCurrent(log, inverter, email)
  {
    StandingMeaning(log, inverter, email);
    var st := StandingOf(log, inverter, email);
    if k: nat, a: nat :| LatestInvitation(log, k, inverter, email) && Accepts(log, k, a) {
      assert st.Pending? || st.Joined?;
      assert k == st.k;
    }
  }

  // ---- The table agrees with the history --------------------------------------------------

  predicate RowMatches(m: Member, st: Standing) {
    match m.status
    case INVITED => st.Pending? && st.token == m.token && st.expiresAt == m.expiresAt
    case ACTIVE => st.Joined? && m.user == Some(m.email)
    case DEACTIVATED => st.Gone?
  }

  ghost predicate RowOk(s: State, i: int)
    requires 0 <= i < |s.members|
  {
    var m := s.members[i];
    && RowMatches(m, StandingOf(s.log, m.inverter, m.email))
    && LastRole(s.log, m.inverter, m.email) == Some(m.role)
    && m.token < s.nextToken && (m.user.Some? ==> m.user.value == m.email)
  }

  ghost predicate OneRowEach(members: seq<Member>) {
    forall i, j :: 0 <= i < j < |members| ==>
      !(members[i].inverter == members[j].inverter && members[i].email == members[j].email)
  }

  /** A row that an overtaken acceptance has activated: the history knows of no current acceptance. */
  ghost predicate Overwritten(s: State, i: int)
    requires 0 <= i < |s.members|
  {
    var (m, st) := (s.members[i], StandingOf(s.log, s.members[i].inverter, s.members[i].email));
    && m.status == ACTIVE && (st.Pending? || st.Gone?)
    && LastRole(s.log, m.inverter, m.email) == Some(m.role)
    && m.token < s.nextToken && m.user == Some(m.email)
  }

  ghost predicate RowStands(s: State, i: int, over: set<nat>)
    requires 0 <= i < |s.members|
  {
    if i in over then Overwritten(s, i) else RowOk(s, i)
  }

  ghost predicate DistinctTokens(members: seq<Member>) {
    forall i, j :: 0 <= i < j < |members| ==> members[i].token != members[j].token
  }

  ghost predicate AbsentAreNew(s: State) {
    forall inverter, email :: FirstFrom(s.members, ByEmail(inverter, email), 0) == |s.members|
                              ==> StandingOf(s.log, inverter, email) == Never
  }

  /** The table agrees with the history, but for the rows in `over`. */
  ghost predicate InvExcept(s: State, over: set<nat>) {
    && OneRowEach(s.members) && DistinctTokens(s.members) && AbsentAreNew(s)
    && (forall i :: i in over ==> i < |s.members|)
    && (forall i :: 0 <= i < |s.members| ==> RowStands(s, i, over))
  }

  ghost predicate Inv(s: State) { InvExcept(s, {}) }

  lemma Appended(log: seq<Entry>, e: Entry, inverter: nat, email: nat)
    ensures !About(e, inverter, email) ==>
              StandingOf(log + [e], inverter, email) == StandingOf(log, inverter, email)
              && LastRole(log + [e], inverter, email) == LastRole(log, inverter, email)
    ensures (log + [e])[..|log|] == log
  {
    assert (log + [e])[..|log|] == log;
  }

  lemma OtherRow(s: State, s': State, i: nat, e: Entry, over: set<nat>, over': set<nat>)
    requires i < |s.members| && i < |s'.members| && s'.members[i] == s.members[i] && RowStands(s, i, over)
    requires s'.log == s.log + [e] && s.nextToken <= s'.nextToken && !About(e, s.members[i].inverter, s.members[i].email)
    requires i in over <==> i in over'
    ensures RowStands(s', i, over')
  {
    Appended(s.log, e, s.members[i].inverter, s.members[i].email);
    hide StandingOf, LastRole;
  }

  lemma AbsentStayNew(s: State, s': State, k: nat, e: Entry)
    requires AbsentAreNew(s) && s'.log == s.log + [e] && k < |s'.members| && About(e, s'.members[k].inverter, s'.members[k].email)
    requires |s.members| <= |s'.members|
    requires forall i :: 0 <= i < |s.members| ==>
               s'.members[i].inverter == s.members[i].inverter && s'.members[i].email == s.members[i].email
    ensures AbsentAreNew(s')
  {
    hide StandingOf, LastRole;
    forall inverter, email | FirstFrom(s'.members, ByEmail(inverter, email), 0) == |s'.members|
      ensures StandingOf(s'.log, inverter, email) == Never
    {
      assert !ByEmail(inverter, email)(s'.members[k]);
      assert forall i :: 0 <= i < |s.members| ==>
               !ByEmail(inverter, email)(s'.members[i]) && !ByEmail(inverter, email)(s.members[i]);
      Appended(s.log, e, inverter, email);
    }
  }

  lemma TokensStayDistinct(s: State, members: seq<Member>, k: nat, over: set<nat>)
    requires InvExcept(s, over) && k < |s.members| == |members|
    requires forall i :: 0 <= i < |s.members| && i != k ==> members[i] == s.members[i]
    requires members[k].token == s.members[k].token || s.nextToken <= members[k].token
    ensures DistinctTokens(members)
  {
    hide StandingOf, LastRole;
    forall i, j | 0 <= i < j < |members| ensures members[i].token != members[j].token {
      assert RowStands(s, i, over) && RowStands(s, j, over);
    }
  }

  /** An operation that rewrites row `k` and logs one entry about it. */
  lemma RowChange(s: State, s': State, k: nat, e: Entry, over: set<nat>, over': set<nat>)
    requires InvExcept(s, over) && k < |s.members| == |s'.members| && s'.log == s.log + [e] && s.nextToken <= s'.nextToken
    requires forall i :: 0 <= i < |s.members| && i != k ==> s'.members[i] == s.members[i]
    requires s'.members[k].inverter == s.members[k].inverter && s'.members[k].email == s.members[k].email
    requires About(e, s.members[k].inverter, s.members[k].email) && RowStands(s', k, over')
    requires forall i: nat :: i != k ==> (i in over <==> i in over')
    requires s'.members[k].token == s.members[k].token || s.nextToken <= s'.members[k].token
    ensures InvExcept(s', over')
  {
    TokensStayDistinct(s, s'.members, k, over);
    AbsentStayNew(s, s', k, e);
    hide RowStands, AbsentAreNew, DistinctTokens, StandingOf, LastRole;
    forall i | 0 <= i < |s'.members| ensures RowStands(s', i, over') {
      assert RowStands(s, i, over);
      if i != k { OtherRow(s, s', i, e, over, over'); }
    }
  }

  /** How one entry about a pair moves its standing and its role. */
  lemma EntryAbout(log: seq<Entry>, e: Entry, inverter: nat, email: nat)
    requires About(e, inverter, email)
    ensures var (st, role) := (StandingOf(log + [e], inverter, email), LastRole(log + [e], inverter, email));
            var (before, was) := (StandingOf(log, inverter, email), LastRole(log, inverter, email));
            match e
            case Issued(_, _, token, expiresAt, r) => st == Pending(|log|, token, expiresAt) && role == Some(r)
            case Renewed(_, _, token, expiresAt) => st == Pending(|log|, token, expiresAt) && role == was
            case Accepted(_, _, token, at) =>
              && role == was
              && st == if before.Pending? && before.token == token && at <= before.expiresAt then Joined(before.k) else before
            case RoleSet(_, _, r) => st == before && role == Some(r)
            case Revoked(_, _) => st == Gone && role == was
  {
    assert (log + [e])[..|log|] == log;
  }

  lemma InviteExistingInv(s: State, k: nat, role: Role, now: int, over: set<nat>)
    requires InvExcept(s, over) && k < |s.members| && s.members[k].status == DEACTIVATED
    ensures var (m, expiry) := (s.members[k], now + INVITE_TTL);
            InvExcept(State(s.members[k := m.(status := INVITED, role := role, token := s.nextToken, expiresAt := expiry)],
                            s.nextToken + 1, s.log + [Issued(m.inverter, m.email, s.nextToken, expiry, role)]), over)
  {
    var (m, expiry) := (s.members[k], now + INVITE_TTL);
    var e := Issued(m.inverter, m.email, s.nextToken, expiry, role);
    var s' := State(s.members[k := m.(status := INVITED, role := role, token := s.nextToken, expiresAt := expiry)],
                    s.nextToken + 1, s.log + [e]);
    assert RowStands(s, k, over);
    EntryAbout(s.log, e, m.inverter, m.email);
    hide StandingOf, LastRole;
    RowChange(s, s', k, e, over, over);
  }

  lemma InviteNewInv(s: State, m: Member, e: Entry, over: set<nat>)
    requires InvExcept(s, over) && FirstFrom(s.members, ByEmail(m.inverter, m.email), 0) == |s.members|
    requires m.status == INVITED && m.token == s.nextToken && (m.user.Some? ==> m.user.value == m.email)
    requires e == Issued(m.inverter, m.email, m.token, m.expiresAt, m.role)
    ensures InvExcept(State(s.members + [m], s.nextToken + 1, s.log + [e]), over)
  {
    var (s', n) := (State(s.members + [m], s.nextToken + 1, s.log + [e]), |s.members|);
    EntryAbout(s.log, e, m.inverter, m.email);
    hide StandingOf, LastRole;
    assert forall i :: 0 <= i < n ==> !ByEmail(m.inverter, m.email)(s.members[i]);
    AbsentStayNew(s, s', n, e);
    forall i, j | 0 <= i < j < n + 1 ensures s'.members[i].token != s'.members[j].token { assert RowStands(s, i, over); }
    hide AbsentAreNew;
    forall i | 0 <= i < n + 1 ensures RowStands(s', i, over) {
      if i < n {
        assert RowStands(s, i, over);
        OtherRow(s, s', i, e, over, over);
      }
    }
  }

  lemma InviteInv(s: State, inverter: nat, email: nat, role: Role, registered: bool, found: bool, now: int, over: set<nat>)
    requires InvExcept(s, over)
    ensures InvExcept(InviteStep(s, inverter, email, role, registered, found, now), over)
  {
    hide InvExcept;
    var k := FirstFrom(s.members, ByEmail(inverter, email), 0);
    if k < |s.members| {
      if s.members[k].status == DEACTIVATED {
        assert ByEmail(inverter, email)(s.members[k]);
        InviteExistingInv(s, k, role, now, over);
      }
    } else if found {
      var expiry := now + INVITE_TTL;
      InviteNewInv(s, Member(inverter, email, if registered then Some(email) else None, role, INVITED, s.nextToken, expiry),
                   Issued(inverter, email, s.nextToken, expiry, role), over);
    }
  }

  lemma RefreshInv(s: State, id: nat, inverter: nat, found: bool, now: int, over: set<nat>)
    requires InvExcept(s, over)
    ensures InvExcept(RefreshStep(s, id, inverter, found, now), over)
  {
    var s' := RefreshStep(s, id, inverter, found, now);
    if found && id < |s.members| && s.members[id].status == INVITED && s.members[id].inverter == inverter {
      var m := s.members[id];
      var e := Renewed(m.inverter, m.email, s.nextToken, now + INVITE_TTL);
      assert RowStands(s, id, over);
      EntryAbout(s.log, e, m.inverter, m.email);
      hide StandingOf, LastRole;
      RowChange(s, s', id, e, over, over);
    }
  }

  lemma SetRoleInv(s: State, inverter: nat, id: nat, role: Role, over: set<nat>)
    requires InvExcept(s, over)
    ensures InvExcept(SetRoleStep(s, inverter, id, role), over)
  {
    var s' := SetRoleStep(s, inverter, id, role);
    if id < |s.members| && s.members[id].inverter == inverter {
      var m := s.members[id];
      assert RowStands(s, id, over);
      EntryAbout(s.log, RoleSet(inverter, m.email, role), m.inverter, m.email);
      hide StandingOf, LastRole;
      RowChange(s, s', id, RoleSet(inverter, m.email, role), over, over);
    }
  }

  /** Revoking mends a row that an overtaken acceptance had activated. */
  lemma RevokeInv(s: State, inverter: nat, id: nat, over: set<nat>)
    requires InvExcept(s, over)
    ensures InvExcept(RevokeStep(s, inverter, id), if RevokeStep(s, inverter, id) == s then over else over - {id})
  {
    var s' := RevokeStep(s, inverter, id);
    if id < |s.members| && s.members[id].inverter == inverter {
      var m := s.members[id];
      assert |s'.log| == |s.log| + 1;
      assert RowStands(s, id, over);
      EntryAbout(s.log, Revoked(inverter, m.email), m.inverter, m.email);
      hide StandingOf, LastRole;
      RowChange(s, s', id, Revoked(inverter, m.email), over, over - {id});
    }
  }

  /** The activating write leaves its row in agreement exactly when the history now counts the pair as joined. */
  lemma ActivateInv(s: State, id: nat, token: nat, at: int, now: int, over: set<nat>)
    requires InvExcept(s, over) && id < |s.members|
    ensures var (m, s') := (s.members[id], ActivateStep(s, id, token, s.members[id].email, at, now));
            InvExcept(s', if StandingOf(s'.log, m.inverter, m.email).Joined? then over - {id} else over + {id})
  {
    var m := s.members[id];
    var s' := ActivateStep(s, id, token, m.email, at, now);
    assert RowStands(s, id, over);
    EntryAbout(s.log, Accepted(m.inverter, m.email, token, at), m.inverter, m.email);
    hide StandingOf, LastRole;
    var over' := if StandingOf(s'.log, m.inverter, m.email).Joined? then over - {id} else over + {id};
    assert RowStands(s', id, over');
    RowChange(s, s', id, Accepted(m.inverter, m.email, token, at), over, over');
  }

  lemma AcceptInv(s: State, token: nat, user: nat, found: bool, now: int, over: set<nat>)
    requires InvExcept(s, over)
    ensures InvExcept(AcceptStep(s, token, user, found, now), over)
  {
    var k := FindInvite(s, token, user, now);
    if k.Some? && found {
      var m := s.members[k.value];
      assert ByToken(token, user)(m);
      assert RowStands(s, k.value, over);
      ActivateInv(s, k.value, token, now, now, over);
      EntryAbout(s.log, Accepted(m.inverter, m.email, token, now), m.inverter, m.email);
      hide StandingOf, LastRole, InvExcept;
      assert over - {k.value} == over;
    }
  }

  /** What one operation leaves of the rows that do not agree: a revocation mends its row. */
  function StillOver(s: State, op: Op, over: set<nat>): set<nat> {
    if op.Revoke? && Apply(s, op) != s then over - {op.id} else over
  }

  lemma ApplyInv(s: State, op: Op, over: set<nat>)
    requires InvExcept(s, over)
    ensures InvExcept(Apply(s, op), StillOver(s, op, over))
  {
    hide InvExcept;
    match op
    case Invite(inverter, email, role, registered, found, now) =>
      InviteInv(s, inverter, email, role, registered, found, now, over);
    case Refresh(id, inverter, found, now) => RefreshInv(s, id, inverter, found, now, over);
    case Accept(token, user, found, now) => AcceptInv(s, token, user, found, now, over);
    case SetRole(inverter, id, role) => SetRoleInv(s, inverter, id, role, over);
    case Revoke(inverter, id) => RevokeInv(s, inverter, id, over);
  }

  lemma {:induction false} RunInv(s: State, ops: seq<Op>)
    requires Inv(s)
    ensures Inv(Run(s, ops))
    decreases |ops|
  {
    hide InvExcept, Apply;
    if ops != [] {
      ApplyInv(s, ops[0], {});
      assert StillOver(s, ops[0], {}) == {};
      RunInv(Apply(s, ops[0]), ops[1..]);
    }
  }

  // ---- Theorems -------------------------------------------------------------------------

  /** Over any sequence of operations there is at most one row for an inverter and an address. */
  lemma AtMostOneRow(ops: seq<Op>)
    ensures OneRowEach(Run(EMPTY, ops).members)
  {
    RunInv(EMPTY, ops);
  }

  /** The roles that a required role admits. */
  function Admitted(required: Role): set<Role> {
    match required
    case OWNER => {OWNER}
    case ADMIN => {OWNER, ADMIN}
    case TECHNICIAN => {OWNER, ADMIN, TECHNICIAN}
    case VIEWER => {OWNER, ADMIN, TECHNICIAN, VIEWER}
  }

  /** A list of required roles admits whom one of them admits. */
  predicate Suffices(role: Role, required: seq<Role>) {
    exists i :: 0 <= i < |required| && role in Admitted(required[i])
  }

  lemma RanksAdmit(role: Role, required: seq<Role>)
    ensures Suffices(role, required) <==> exists i :: 0 <= i < |required| && Rank(role) >= Rank(required[i])
  {
    forall i | 0 <= i < |required| ensures role in Admitted(required[i]) <==> Rank(role) >= Rank(required[i]) {}
    if i :| 0 <= i < |required| && Rank(role) >= Rank(required[i]) { assert role in Admitted(required[i]); }
  }

  /** What a member with a given role may do, role by role. */
  lemma GuardByRole(members: seq<Member>, inverter: nat, user: nat, owner: nat)
    requires user != owner && FirstFrom(members, ActiveUser(inverter, user), 0) < |members|
    ensures var role := members[FirstFrom(members, ActiveUser(inverter, user), 0)].role;
            && Answer(members, inverter, user, owner, Some([OWNER])) == Success(role == OWNER)
            && Answer(members, inverter, user, owner, Some([ADMIN])) == Success(role == OWNER || role == ADMIN)
            && Answer(members, inverter, user, owner, Some([TECHNICIAN])) == Success(role != VIEWER)
            && Answer(members, inverter, user, owner, Some([VIEWER])) == Success(true)
            && Answer(members, inverter, user, owner, Some([])) == Success(false)
            && Answer(members, inverter, user, owner, None) == Success(true)
  {
    OneRole(members, inverter, user, owner, OWNER);
    OneRole(members, inverter, user, owner, ADMIN);
    OneRole(members, inverter, user, owner, TECHNICIAN);
    OneRole(members, inverter, user, owner, VIEWER);
    hide Rank, FirstFrom;
  }

  lemma OneRole(members: seq<Member>, inverter: nat, user: nat, owner: nat, required: Role)
    requires user != owner && FirstFrom(members, ActiveUser(inverter, user), 0) < |members|
    ensures Answer(members, inverter, user, owner, Some([required]))
            == Success(members[FirstFrom(members, ActiveUser(inverter, user), 0)].role in Admitted(required))
  {
    RanksAdmit(members[FirstFrom(members, ActiveUser(inverter, user), 0)].role, [required]);
    assert [required][0] == required;
    hide Rank, FirstFrom;
  }

  /** The answer that the history calls for. */
  ghost function Deserved(log: seq<Entry>, inverter: nat, user: nat, required: Option<seq<Role>>): Result<bool, GuardError> {
    var role := LastRole(log, inverter, user);
    if !AcceptedAndCurrent(log, inverter, user) then Failure(Forbidden)
    else Success(required.Some? ==> role.Some? && Suffices(role.value, required.value))
  }

  /** The guard's answer to a user who does not own the inverter. */
  function Answer(members: seq<Member>, inverter: nat, user: nat, owner: nat, required: Option<seq<Role>>): Result<bool, GuardError> {
    CanActivate(false, Some(inverter), Some(user), Some(owner), members, required)
  }

  /** The pair's row, and whether the guard finds it: rows carry their user's own address. */
  lemma GuardRow(s: State, over: set<nat>, inverter: nat, user: nat)
    requires InvExcept(s, over)
    ensures var (k, j) := (FirstFrom(s.members, ActiveUser(inverter, user), 0), FirstFrom(s.members, ByEmail(inverter, user), 0));
            && (j < |s.members| && s.members[j].status == ACTIVE ==> k == j)
            && (j == |s.members| || s.members[j].status != ACTIVE ==> k == |s.members|)
            && (j == |s.members| ==> StandingOf(s.log, inverter, user).Never?)
  {
    hide StandingOf, LastRole;
    var k := FirstFrom(s.members, ActiveUser(inverter, user), 0);
    var j := FirstFrom(s.members, ByEmail(inverter, user), 0);
    if k < |s.members| { assert RowStands(s, k, over) && ByEmail(inverter, user)(s.members[k]); }
    if j < |s.members| { assert RowStands(s, j, over); }
    if k < |s.members| && j < |s.members| { assert k == j; }
    if j < |s.members| && s.members[j].status == ACTIVE { assert ActiveUser(inverter, user)(s.members[j]); }
  }

  /** Where the table agrees with the history, the guard gives the deserved answer; elsewhere it admits too much. */
  lemma GuardAt(s: State, over: set<nat>, inverter: nat, user: nat, owner: nat, required: Option<seq<Role>>)
    requires InvExcept(s, over) && user != owner
    ensures Answer(s.members, inverter, user, owner, required) == Deserved(s.log, inverter, user, required)
            <==> FirstFrom(s.members, ByEmail(inverter, user), 0) !in over
  {
    GuardRow(s, over, inverter, user);
    JoinedIffAccepted(s.log, inverter, user);
    var j := FirstFrom(s.members, ByEmail(inverter, user), 0);
    if j < |s.members| { assert RowStands(s, j, over) && ByEmail(inverter, user)(s.members[j]); }
    if required.Some? && j < |s.members| { RanksAdmit(s.members[j].role, required.value); }
    hide StandingOf, LastRole, AcceptedAndCurrent, FirstFrom, Rank, Suffices;
  }

  /**
   The guard admits a user who does not own the inverter exactly when the user's latest invitation was
   accepted with its token before it expired, access has not been revoked since, and the role last
   given is among those that one of the required roles admits. Without such an invitation the answer is
   Forbidden, and with too low a role it is a plain refusal. The owner is always admitted.
   */
  lemma GuardFollowsHistory(ops: seq<Op>, inverter: nat, user: nat, owner: nat, required: Option<seq<Role>>)
    ensures var s := Run(EMPTY, ops);
            var role := LastRole(s.log, inverter, user);
            CanActivate(false, Some(inverter), Some(user), Some(owner), s.members, required)
            == if user == owner then Success(true)
               else if !AcceptedAndCurrent(s.log, inverter, user) then Failure(Forbidden)
               else Success(required.Some? ==> role.Some? && Suffices(role.value, required.value))
  {
    RunInv(EMPTY, ops);
    if user != owner { GuardAt(Run(EMPTY, ops), {}, inverter, user, owner, required); }
    hide Run;
  }

  // ---- The service ----------------------------------------------------------------------

  datatype Error = NotFound | Conflict

  class TeamAccessService {
    var members: seq<Member>
    var nextToken: nat
    ghost var log: seq<Entry>

    constructor ()
      ensures Seen() == EMPTY
    {
      members, nextToken, log := [], 0, [];
    }

    ghost function Seen(): State
      reads this
    {
      State(members, nextToken, log)
    }

    method InviteMember(inverter: nat, email: nat, role: Role, registered: bool, found: bool, now: int)
      returns (r: Result<Member, Error>)
      modifies this
      ensures Seen() == Apply(old(Seen()), Invite(inverter, email, role, registered, found, now))
      ensures r.Failure? <==> Seen() == old(Seen())
      ensures r.Success? <==>
                var k := FirstFrom(old(members), ByEmail(inverter, email), 0);
                if k < |old(members)| then old(members)[k].status == DEACTIVATED else found
      ensures r.Success? ==>
                && r.value in members && r.value.inverter == inverter && r.value.email == email
                && r.value.role == role && r.value.status == INVITED && r.value.token == old(nextToken)
                && r.value.expiresAt == now + 7 * 86_400_000
                && log == old(log) + [Issued(inverter, email, old(nextToken), now + 7 * 86_400_000, role)]
    {
      var token, expiry := nextToken, now + INVITE_TTL;
      var existing := FirstFrom(members, ByEmail(inverter, email), 0);
      if existing < |members| && members[existing].status != DEACTIVATED { return Failure(Conflict); }
      var member: Member;
      if existing < |members| {
        member := members[existing].(status := INVITED, role := role, token := token, expiresAt := expiry);
        members := members[existing := member];
        assert members[existing] == member;
      } else {
        if !found { return Failure(NotFound); }
        member := Member(inverter, email, if registered then Some(email) else None, role, INVITED, token, expiry);
        members := members + [member];
        assert members[existing] == member;
      }
      nextToken := nextToken + 1;
      log := log + [Issued(inverter, email, token, expiry, role)];
      return Success(member);
    }

    method RefreshUserInvite(id: nat, inverter: nat, found: bool, now: int) returns (r: Result<Member, Error>)
      modifies this
      ensures Seen() == Apply(old(Seen()), Refresh(id, inverter, found, now))
      ensures r.Failure? <==> Seen() == old(Seen())
      ensures r.Success? <==>
                found && id < |old(members)| && old(members)[id].inverter == inverter && old(members)[id].status == INVITED
      ensures r.Success? ==>
                && r.value == old(members)[id].(token := old(nextToken), expiresAt := now + 7 * 86_400_000)
                && members == old(members)[id := r.value]
                && log == old(log) + [Renewed(inverter, r.value.email, old(nextToken), now + 7 * 86_400_000)]
    {
      if !found || id >= |members| || members[id].status != INVITED || members[id].inverter != inverter {
        return Failure(NotFound);
      }
      var updated := members[id].(token := nextToken, expiresAt := now + INVITE_TTL);
      members := members[id := updated];
      log := log + [Renewed(inverter, updated.email, nextToken, now + INVITE_TTL)];
      nextToken := nextToken + 1;
      return Success(updated);
    }

    method FindInviteByTokenAndEmail(token: nat, email: nat, now: int) returns (r: Result<nat, Error>)
      ensures var k := FirstFrom(members, ByToken(token, email), 0);
              && (r.Success? <==> k < |members| && members[k].status == INVITED && now <= members[k].expiresAt)
              && (r.Success? ==> r.value == k)
      ensures r.Success? <==> FindInvite(Seen(), token, email, now).Some?
    {
      var k := FirstFrom(members, ByToken(token, email), 0);
      if k == |members| { return Failure(NotFound); }
      if members[k].status != INVITED { return Failure(Conflict); }
      if now > members[k].expiresAt { return Failure(Conflict); }
      return Success(k);
    }

    /** The write by row: from here on the guard admits the user, even if the row was revoked in between. */
    method ActivateMembership(id: nat, token: nat, user: nat, at: int, now: int) returns (r: Result<bool, Error>)
      modifies this
      ensures Seen() == ActivateStep(old(Seen()), id, token, user, at, now)
      ensures r.Success? <==> id < |old(members)|
      ensures r.Success? ==>
                forall owner | owner != user ::
                  Answer(members, old(members)[id].inverter, user, owner, None) == Success(true)
    {
      if id >= |members| { return Failure(NotFound); }
      var m := members[id];
      members := members[id := m.(status := ACTIVE, expiresAt := now, user := Some(user))];
      log := log + [Accepted(m.inverter, m.email, token, at)];
      assert ActiveUser(m.inverter, user)(members[id]);
      return Success(true);
    }

    method AcceptInvite(token: nat, user: nat, found: bool, now: int) returns (r: Result<Member, Error>)
      modifies this
      ensures Seen() == Apply(old(Seen()), Accept(token, user, found, now))
      ensures r.Failure? <==> Seen() == old(Seen())
      ensures var k := FirstFrom(old(members), ByToken(token, user), 0);
              && (r.Success? <==> found && k < |old(members)| && old(members)[k].status == INVITED
                                  && now <= old(members)[k].expiresAt)
              && (r.Success? ==>
                    && r.value == old(members)[k].(status := ACTIVE, expiresAt := now, user := Some(user))
                    && members == old(members)[k := r.value]
                    && log == old(log) + [Accepted(r.value.inverter, user, token, now)])
    {
      var invite := FindInviteByTokenAndEmail(token, user, now);
      if invite.Failure? { return Failure(invite.error); }
      if !found { return Failure(NotFound); }       // the inverter lookup between the two
      var activated := ActivateMembership(invite.value, token, user, now, now);
      return Success(members[invite.value]);
    }

    method UpdateMemberRole(inverter: nat, id: nat, role: Role) returns (r: Result<Member, Error>)
      modifies this
      ensures Seen() == Apply(old(Seen()), SetRole(inverter, id, role))
      ensures r.Failure? <==> Seen() == old(Seen())
      ensures r.Success? <==> id < |old(members)| && old(members)[id].inverter == inverter
      ensures r.Success? ==>
                && r.value == old(members)[id].(role := role) && members == old(members)[id := r.value]
                && log == old(log) + [RoleSet(inverter, r.value.email, role)]
    {
      if id >= |members| || members[id].inverter != inverter { return Failure(NotFound); }
      members := members[id := members[id].(role := role)];
      log := log + [RoleSet(inverter, members[id].email, role)];
      return Success(members[id]);
    }

    method RevokeMemberAccess(inverter: nat, id: nat) returns (r: Result<bool, Error>)
      modifies this
      ensures Seen() == Apply(old(Seen()), Revoke(inverter, id))
      ensures r.Failure? <==> Seen() == old(Seen())
      ensures r.Success? <==> id < |old(members)| && old(members)[id].inverter == inverter
      ensures r.Success? ==>
                && members == old(members)[id := old(members)[id].(status := DEACTIVATED)]
                && log == old(log) + [Revoked(inverter, old(members)[id].email)]
    {
      if id >= |members| || members[id].inverter != inverter { return Failure(NotFound); }
      members := members[id := members[id].(status := DEACTIVATED)];
      log := log + [Revoked(inverter, members[id].email)];
      return Success(true);
    }
  }
}
