/**
 Refresh-token rotation (sessions.action.ts, users.service.ts, auth.service.ts).

 Tokens are numbered in the order in which they are generated, so a fresh one never repeats, and a
 stored hash stands for the token it was made from: the hash is taken to be injective.
 */
module Sessions {
  import opened Wrappers

  const DAY: int := 24 * 60 * 60 * 1000
  const SLIDING: int := 7 * DAY
  const ABSOLUTE: int := 30 * DAY

  type Token = nat

  datatype Session = Session(
    createdAt: int,
    hash: Option<Token>,
    isActive: bool,
    expiresAt: int,
    lastActivityAt: int,
    deviceToken: Option<string>)

  function Min(a: int, b: int): int { if a < b then a else b }

  function NewExpiry(createdAt: int, now: int): int { Min(now + SLIDING, createdAt + ABSOLUTE) }

  predicate SwapAllowed(row: Session, expected: Token, now: int) {
    && row.hash == Some(expected) && row.isActive
    && row.expiresAt > now && row.createdAt > now - ABSOLUTE
  }

  function Rotated(row: Session, renewal: Token, createdAt: int, now: int): Session {
    row.(hash := Some(renewal), lastActivityAt := now, expiresAt := NewExpiry(createdAt, now))
  }

  function WithHash(row: Session, hash: Option<Token>, now: int): Session {
    match hash
    case None => row.(hash := None, lastActivityAt := now, isActive := false)
    case Some(_) => row.(hash := hash, lastActivityAt := now, expiresAt := now + SLIDING)
  }

  function Deactivated(row: Session, now: int): Session {
    row.(isActive := false, hash := None, lastActivityAt := now)
  }

  datatype Validity = Valid | Inactive | Expired

  function Validate(row: Session, now: int): Validity {
    if !row.isActive then Inactive
    else if now > row.createdAt + ABSOLUTE || now > row.expiresAt then Expired
    else Valid
  }

  /** No refresh succeeds on this row, whatever is presented and whenever. */
  ghost predicate Unrefreshable(row: Session) { forall expected, now :: !SwapAllowed(row, expected, now) }

  /** Two rows that every refresh treats alike. */
  ghost predicate SameRefreshes(a: Session, b: Session) {
    && (forall expected, now :: SwapAllowed(a, expected, now) <==> SwapAllowed(b, expected, now))
    && (forall now :: Validate(a, now) == Validate(b, now))
  }

  class SessionModelAction {
    var row: Session

    /** Valid until its expiry but not refreshable; the login write then makes it the protocol's first row. */
    constructor Create(createdAt: int, now: int)
      ensures row == Session(createdAt, None, true, now + SLIDING, createdAt, None)
      ensures Unrefreshable(row)
      ensures forall t :: Validate(row, t) == Valid <==> t - now <= 7 * 86_400_000 && t - createdAt <= 30 * 86_400_000
      ensures forall persisted :: WithHash(row, Some(0), persisted) == Init(createdAt, persisted, persisted).row
    {
      row := Session(createdAt, None, true, now + SLIDING, createdAt, None);
    }

    method CompareAndSwapRefreshTokenHash(expected: Token, renewal: Token, createdAt: int, now: int) returns (swapped: bool)
      modifies this
      ensures swapped <==> SwapAllowed(old(row), expected, now)
      ensures row == if swapped then Rotated(old(row), renewal, createdAt, now) else old(row)
      ensures swapped <==> old(row).isActive && old(row).hash == Some(expected)
                           && now < old(row).expiresAt && now - old(row).createdAt < 30 * 86_400_000
      ensures swapped ==> row.hash == Some(renewal) && row.isActive
                          && row.expiresAt == Min(now + 7 * 86_400_000, createdAt + 30 * 86_400_000)
    {
      var absoluteCap := createdAt + ABSOLUTE;
      var slidingWindow := now + SLIDING;
      var newExpiresAt := if slidingWindow < absoluteCap then slidingWindow else absoluteCap;
      swapped := row.hash == Some(expected) && row.isActive && row.expiresAt > now && row.createdAt > now - ABSOLUTE;
      if swapped {
        row := row.(hash := Some(renewal), lastActivityAt := now, expiresAt := newExpiresAt);
      }
    }

    /** It succeeds on a live session only, and no refresh can tell whether it did. */
    method AtomicallySwapFid(token: string, now: int) returns (swapped: bool)
      modifies this
      ensures swapped <==> old(row).isActive && old(row).expiresAt > now
      ensures row == if swapped then old(row).(deviceToken := Some(token), lastActivityAt := now) else old(row)
      ensures SameRefreshes(old(row), row) && row.expiresAt == old(row).expiresAt
    {
      swapped := row.isActive && row.expiresAt > now;
      if swapped { row := row.(deviceToken := Some(token), lastActivityAt := now); }
    }

    /** From here on exactly the given token refreshes the session, within the sliding and the absolute window. */
    method SetRefreshTokenHash(hash: Option<Token>, now: int)
      modifies this
      ensures row == WithHash(old(row), hash, now)
      ensures hash.None? ==> Unrefreshable(row) && forall t :: Validate(row, t) == Inactive
      ensures hash.Some? ==> forall expected, t ::
                SwapAllowed(row, expected, t) <==>
                  old(row).isActive && expected == hash.value && t - now < 7 * 86_400_000
                  && t - old(row).createdAt < 30 * 86_400_000
    {
      row := row.(hash := hash, lastActivityAt := now);
      if hash.None? { row := row.(isActive := false); }
      if hash.Some? { row := row.(expiresAt := now + SLIDING); }
    }

    /** The session is over: nothing validates or refreshes it. */
    method DeactivateSession(now: int)
      modifies this
      ensures row == Deactivated(old(row), now)
      ensures Unrefreshable(row) && forall t :: Validate(row, t) == Inactive
    {
      row := row.(isActive := false, hash := None, lastActivityAt := now);
    }

    method ValidateSession(now: int) returns (v: Validity)
      modifies this
      ensures v == Validate(old(row), now)
      ensures v == Inactive <==> !old(row).isActive
      ensures v == Valid <==> old(row).isActive && now <= old(row).expiresAt && now - old(row).createdAt <= 30 * 86_400_000
      ensures row == if v == Expired then old(row).(isActive := false) else old(row)
    {
      if !row.isActive { return Inactive; }
      var absoluteExpiry := row.createdAt + ABSOLUTE;
      if now > absoluteExpiry || now > row.expiresAt {
        row := row.(isActive := false);
        return Expired;
      }
      return Valid;
    }
  }

  // ---- Concurrent refreshes and logouts of one session -----------------------------------

  datatype Request =
    | Expiring                                                // found expired, about to deactivate
    | Checked(expected: Token)                                // presented token matched the hash read
    | Swapping(expected: Token, renewal: Token, now: int)       // new token and `now` chosen, update not yet run

  datatype Rotation = Rotation(redeemed: Token, renewal: Token, now: int)

  datatype State = State(
    clock: int,
    row: Session,
    issued: nat,                     // tokens below this have been generated
    requests: map<nat, Request>,
    rotations: seq<Rotation>)        // successful refreshes, oldest first

  datatype Event =
    | Tick(elapsed: nat)
    | Read(q: nat, presented: Token)
    | Expire(q: nat)
    | Prepare(q: nat)
    | Swap(q: nat)
    | Abort(q: nat)
    | Logout
    | SwapFid(device: string, now: int)

  /** findSessionById, validateSession and the comparison with the hash just read. */
  function ReadStep(s: State, q: nat, presented: Token): State {
    if q in s.requests then s else
    match Validate(s.row, s.clock)
    case Inactive => s
    case Expired => s.(requests := s.requests[q := Expiring])
    case Valid => if s.row.hash == Some(presented) then s.(requests := s.requests[q := Checked(presented)]) else s
  }

  function SwapStep(s: State, q: nat): State {
    if q !in s.requests || !s.requests[q].Swapping? then s else
    var Swapping(expected, renewal, now) := s.requests[q];
    var s' := s.(requests := s.requests - {q});
    if SwapAllowed(s.row, expected, now)
    then s'.(row := Rotated(s.row, renewal, s.row.createdAt, now),
             rotations := s.rotations + [Rotation(expected, renewal, now)])
    else s'
  }

  function Next(s: State, e: Event): State {
    match e
    case Tick(elapsed) => s.(clock := s.clock + elapsed)
    case Read(q, presented) => ReadStep(s, q, presented)
    case Expire(q) =>
      if q in s.requests && s.requests[q].Expiring?
      then s.(row := s.row.(isActive := false), requests := s.requests - {q}) else s
    case Prepare(q) =>
      if q in s.requests && s.requests[q].Checked?
      then s.(requests := s.requests[q := Swapping(s.requests[q].expected, s.issued, s.clock)], issued := s.issued + 1)
      else s
    case Swap(q) => SwapStep(s, q)
    case Abort(q) => s.(requests := s.requests - {q})
    case Logout => s.(row := Deactivated(s.row, s.clock))
    case SwapFid(device, now) =>
      if s.row.isActive && s.row.expiresAt > now
      then s.(row := s.row.(deviceToken := Some(device), lastActivityAt := now)) else s
  }

  function Run(s: State, es: seq<Event>): State
    decreases |es|
  {
    if es == [] then s else Run(Next(s, es[0]), es[1..])
  }

  /** After login: the session row is inserted, then token 0 is persisted at `persisted`. */
  function Init(createdAt: int, persisted: int, clock: int): State {
    State(clock, Session(createdAt, Some(0), true, persisted + SLIDING, persisted, None), 1, map[], [])
  }

  /** The token in force and the time it was put in force, as the history of rotations has it. */
  function Current(s: State): Token {
    if s.rotations == [] then 0 else s.rotations[|s.rotations| - 1].renewal
  }

  function Stamp(s: State, persisted: int): int {
    if s.rotations == [] then persisted else s.rotations[|s.rotations| - 1].now
  }

  function ExpiryAfter(rotations: seq<Rotation>, createdAt: int, persisted: int): int {
    if rotations == [] then persisted + SLIDING else NewExpiry(createdAt, rotations[|rotations| - 1].now)
  }

  ghost predicate RotationOk(rotations: seq<Rotation>, createdAt: int, persisted: int, i: int)
    requires 0 <= i < |rotations|
  {
    var r := rotations[i];
    && r.redeemed < r.renewal
    && r.redeemed == (if i == 0 then 0 else rotations[i - 1].renewal)
    && (if i == 0 then persisted else rotations[i - 1].now) <= r.now < ExpiryAfter(rotations[..i], createdAt, persisted)
    && r.now < createdAt + ABSOLUTE
  }

  ghost predicate RequestOk(s: State, persisted: int, q: Request) {
    match q
    case Expiring => true
    case Checked(expected) => expected <= Current(s) && expected < s.issued
    case Swapping(expected, renewal, now) =>
      && expected <= Current(s) && expected < renewal < s.issued && now <= s.clock
      && (expected == Current(s) ==> Stamp(s, persisted) <= now)
  }

  ghost predicate Inv(s: State, createdAt: int, persisted: int) {
    && s.row.createdAt == createdAt <= persisted
    && Stamp(s, persisted) <= s.clock
    && Current(s) < s.issued
    && (s.row.hash.Some? ==> s.row.hash == Some(Current(s)))
    && (s.row.isActive ==> s.row.hash.Some?)
    && s.row.expiresAt == ExpiryAfter(s.rotations, createdAt, persisted)
    && (forall i :: 0 <= i < |s.rotations| ==> RotationOk(s.rotations, createdAt, persisted, i))
    && (forall q :: q in s.requests ==> RequestOk(s, persisted, s.requests[q]))
  }

  lemma InitInv(createdAt: int, persisted: int, clock: int)
    requires createdAt <= persisted <= clock
    ensures Inv(Init(createdAt, persisted, clock), createdAt, persisted)
  {
  }

  lemma SwapInv(s: State, q: nat, createdAt: int, persisted: int)
    requires Inv(s, createdAt, persisted)
    ensures Inv(SwapStep(s, q), createdAt, persisted)
  {
    var s' := SwapStep(s, q);
    if s'.rotations != s.rotations {
      var n := |s.rotations|;
      assert RequestOk(s, persisted, s.requests[q]);
      assert s'.rotations[..n] == s.rotations;
      forall i | 0 <= i < |s'.rotations| ensures RotationOk(s'.rotations, createdAt, persisted, i) {
        if i < n {
          assert RotationOk(s.rotations, createdAt, persisted, i);
          assert s'.rotations[..i] == s.rotations[..i];
        }
      }
      forall k | k in s'.requests ensures RequestOk(s', persisted, s'.requests[k]) {
        assert RequestOk(s, persisted, s.requests[k]);
      }
    }
  }

  /** The steps that only read, or prepare a swap. */
  lemma RequestInv(s: State, e: Event, createdAt: int, persisted: int)
    requires Inv(s, createdAt, persisted) && (e.Read? || e.Prepare?)
    ensures Inv(Next(s, e), createdAt, persisted)
  {
    hide RotationOk, NewExpiry, SwapStep, Validate;
    var s' := Next(s, e);
    assert s'.rotations == s.rotations && s'.row == s.row;
    hide ExpiryAfter;
    forall k | k in s'.requests ensures RequestOk(s', persisted, s'.requests[k]) {
      assert k in s.requests ==> RequestOk(s, persisted, s.requests[k]);
    }
  }

  lemma OtherInv(s: State, e: Event, createdAt: int, persisted: int)
    requires Inv(s, createdAt, persisted) && !e.Read? && !e.Prepare? && !e.Swap?
    ensures Inv(Next(s, e), createdAt, persisted)
  {
    hide RotationOk, NewExpiry, SwapStep, ReadStep;
    var s' := Next(s, e);
    assert s'.rotations == s.rotations && s'.issued == s.issued;
    hide ExpiryAfter;
    forall k | k in s'.requests ensures RequestOk(s', persisted, s'.requests[k]) {
      assert k in s.requests && s'.requests[k] == s.requests[k] && RequestOk(s, persisted, s.requests[k]);
    }
  }

  lemma NextInv(s: State, e: Event, createdAt: int, persisted: int)
    requires Inv(s, createdAt, persisted)
    ensures Inv(Next(s, e), createdAt, persisted)
  {
    hide Inv;
    if e.Swap? {
      SwapInv(s, e.q, createdAt, persisted);
    } else if e.Read? || e.Prepare? {
      RequestInv(s, e, createdAt, persisted);
    } else {
      OtherInv(s, e, createdAt, persisted);
    }
  }

  lemma {:induction false} RunInv(s: State, es: seq<Event>, createdAt: int, persisted: int)
    requires Inv(s, createdAt, persisted)
    ensures Inv(Run(s, es), createdAt, persisted)
    decreases |es|
  {
    hide Inv, Next;
    if es != [] {
      NextInv(s, es[0], createdAt, persisted);
      RunInv(Next(s, es[0]), es[1..], createdAt, persisted);
    }
  }

  // ---- Theorems -------------------------------------------------------------------------

  lemma {:induction false} RedeemedIncrease(rotations: seq<Rotation>, createdAt: int, persisted: int, i: nat, j: nat)
    requires i < j < |rotations|
    requires forall k :: 0 <= k < |rotations| ==> RotationOk(rotations, createdAt, persisted, k)
    ensures rotations[i].redeemed < rotations[j].redeemed
    decreases j
  {
    assert RotationOk(rotations, createdAt, persisted, j) && RotationOk(rotations, createdAt, persisted, j - 1);
    if i < j - 1 { RedeemedIncrease(rotations, createdAt, persisted, i, j - 1); }
  }

  /**
   However refreshes and logouts interleave, the successful rotations form one chain from the login
   token, each redeeming the token the one before issued, and no token is redeemed twice.
   */
  lemma RotationsFormOneChain(createdAt: int, persisted: int, clock: int, es: seq<Event>)
    requires createdAt <= persisted <= clock
    ensures var rs := Run(Init(createdAt, persisted, clock), es).rotations;
            && (rs != [] ==> rs[0].redeemed == 0)
            && (forall i :: 0 < i < |rs| ==> rs[i].redeemed == rs[i - 1].renewal)
            && (forall i, j :: 0 <= i < j < |rs| ==> rs[i].redeemed != rs[j].redeemed)
  {
    var s := Run(Init(createdAt, persisted, clock), es);
    var rs := s.rotations;
    InitInv(createdAt, persisted, clock);
    RunInv(Init(createdAt, persisted, clock), es, createdAt, persisted);
    if rs != [] { assert RotationOk(rs, createdAt, persisted, 0); }
    forall i | 0 < i < |rs| ensures rs[i].redeemed == rs[i - 1].renewal {
      assert RotationOk(rs, createdAt, persisted, i);
    }
    forall i, j | 0 <= i < j < |rs| ensures rs[i].redeemed != rs[j].redeemed {
      RedeemedIncrease(rs, createdAt, persisted, i, j);
    }
  }

  /**
   When a refresh succeeds. In every reachable state, reading the presented token and swapping it with
   nothing in between adds a rotation exactly when the session is active, the token is the one the last
   rotation or the login issued, that was less than seven days ago, and the session is younger than thirty
   days. The token it issues is then the one in force.
   */
  lemma RefreshSucceedsIff(createdAt: int, persisted: int, clock: int, es: seq<Event>, q: nat, presented: Token)
    requires createdAt <= persisted <= clock
    ensures var s := Run(Init(createdAt, persisted, clock), es);
            var s' := Next(Next(Next(s, Read(q, presented)), Prepare(q)), Swap(q));
            q !in s.requests ==>
              && (s'.rotations != s.rotations <==>
                    && s.row.isActive && presented == Current(s)
                    && s.clock - Stamp(s, persisted) < 7 * 86_400_000 && s.clock - createdAt < 30 * 86_400_000)
              && (s'.rotations != s.rotations ==>
                    && s'.rotations == s.rotations + [Rotation(presented, s.issued, s.clock)]
                    && s'.row.hash == Some(s.issued) && s'.row.isActive && Current(s') == s.issued)
  {
    var s := Run(Init(createdAt, persisted, clock), es);
    InitInv(createdAt, persisted, clock);
    RunInv(Init(createdAt, persisted, clock), es, createdAt, persisted);
    hide Run;
    assert s.rotations + [Rotation(presented, s.issued, s.clock)] != s.rotations;
  }

  lemma BothPrepared(s: State, q: nat, r: nat, token: Token)
    requires q != r && q !in s.requests && r !in s.requests && Validate(s.row, s.clock) == Valid && s.row.hash == Some(token)
    ensures Next(Next(Next(Next(s, Read(q, token)), Read(r, token)), Prepare(q)), Prepare(r))
            == s.(issued := s.issued + 2,
                  requests := s.requests[q := Swapping(token, s.issued, s.clock)][r := Swapping(token, s.issued + 1, s.clock)])
  {
    var s1 := Next(s, Read(q, token));
    assert s1 == s.(requests := s.requests[q := Checked(token)]);
    var s2 := Next(s1, Read(r, token));
    assert s2 == s.(requests := s.requests[q := Checked(token)][r := Checked(token)]);
    var s3 := Next(s2, Prepare(q));
    assert s3.requests == s.requests[q := Swapping(token, s.issued, s.clock)][r := Checked(token)];
    assert Next(s3, Prepare(r)).requests
        == s.requests[q := Swapping(token, s.issued, s.clock)][r := Swapping(token, s.issued + 1, s.clock)];
  }

  /** Two refreshes that both present the token in force and both pass its check: the first to swap wins, the other fails. */
  lemma RacingRefreshes(s: State, q: nat, r: nat, token: Token)
    requires q != r && q !in s.requests && r !in s.requests
    requires s.row.isActive && s.row.hash == Some(token) && token < s.issued
    requires s.clock < s.row.expiresAt && s.clock - s.row.createdAt < 30 * 86_400_000
    ensures var both := Next(Next(Next(Next(s, Read(q, token)), Read(r, token)), Prepare(q)), Prepare(r));
            var after := Next(Next(both, Swap(r)), Swap(q));
            && after.rotations == s.rotations + [Rotation(token, s.issued + 1, s.clock)]
            && after.row.hash == Some(s.issued + 1) && after.row.isActive && after.requests == s.requests
  {
    BothPrepared(s, q, r, token);
    var both := Next(Next(Next(Next(s, Read(q, token)), Read(r, token)), Prepare(q)), Prepare(r));
    hide Next;
    assert Next(both, Swap(r)) == SwapStep(both, r) by { SwapIsStep(both, r); }
    var first := SwapStep(both, r);
    SwapIsStep(first, q);
    assert first.requests == s.requests[q := Swapping(token, s.issued, s.clock)];
    assert first.requests - {q} == s.requests;
  }

  lemma SwapIsStep(s: State, q: nat)
    ensures Next(s, Swap(q)) == SwapStep(s, q)
  {
  }

  /** Only a logout or the deactivation of an expired session makes a session inactive. */
  lemma {:induction false} StaysActive(s: State, es: seq<Event>)
    requires s.row.isActive && forall i :: 0 <= i < |es| ==> !es[i].Logout? && !es[i].Expire?
    ensures Run(s, es).row.isActive
    decreases |es|
  {
    if es != [] {
      assert !es[0].Logout? && !es[0].Expire?;
      StaysActive(Next(s, es[0]), es[1..]);
    }
  }

  /** After a logout nothing refreshes the session, whatever is in flight. */
  lemma LogoutIsFinal(s: State, es: seq<Event>)
    ensures !Run(Next(s, Logout), es).row.isActive && Run(Next(s, Logout), es).rotations == s.rotations
  {
    DeactivationIsFinal(Next(s, Logout), es);
  }

  /** Once a session is inactive no later refresh succeeds, whatever is already in flight. */
  lemma {:induction false} DeactivationIsFinal(s: State, es: seq<Event>)
    requires !s.row.isActive
    ensures !Run(s, es).row.isActive && Run(s, es).rotations == s.rotations
    decreases |es|
  {
    if es != [] {
      assert !Next(s, es[0]).row.isActive && Next(s, es[0]).rotations == s.rotations;
      DeactivationIsFinal(Next(s, es[0]), es[1..]);
    }
  }

  /** Rotation `i` follows the one before it, or the login, by less than the sliding window. */
  predicate WithinWindows(rs: seq<Rotation>, createdAt: int, persisted: int, i: nat)
    requires i < |rs|
  {
    && 0 <= rs[i].now - (if i == 0 then persisted else rs[i - 1].now) < 7 * 86_400_000
    && rs[i].now - createdAt < 30 * 86_400_000
  }

  /**
   Successive successful refreshes are less than seven days apart, the first less than seven days
   after login, and all fall within thirty days of creation. Times are the ones each refresh read
   just before its update.
   */
  lemma RefreshesAreBounded(createdAt: int, persisted: int, clock: int, es: seq<Event>)
    requires createdAt <= persisted <= clock
    ensures var rs := Run(Init(createdAt, persisted, clock), es).rotations;
            forall i :: 0 <= i < |rs| ==> WithinWindows(rs, createdAt, persisted, i)
  {
    var rs := Run(Init(createdAt, persisted, clock), es).rotations;
    InitInv(createdAt, persisted, clock);
    RunInv(Init(createdAt, persisted, clock), es, createdAt, persisted);
    forall i | 0 <= i < |rs| ensures WithinWindows(rs, createdAt, persisted, i) {
      assert RotationOk(rs, createdAt, persisted, i);
      if i > 0 { assert rs[..i][|rs[..i]| - 1] == rs[i - 1]; }
    }
  }

  /**
   The login write ignores the absolute cap, so the cap holds in every reachable state exactly when
   that write happens within 23 days of the row's creation; and then no step shortens a session.
   */
  lemma ExpiryIsCapped(createdAt: int, persisted: int, clock: int, es: seq<Event>, e: Event)
    requires createdAt <= persisted <= clock
    ensures var s := Run(Init(createdAt, persisted, clock), es);
            && (s.row.expiresAt - createdAt <= 30 * 86_400_000 <==> s.rotations != [] || persisted - createdAt <= 23 * 86_400_000)
            && (persisted - createdAt <= 23 * 86_400_000 ==> Next(s, e).row.expiresAt >= s.row.expiresAt)
  {
    var s := Run(Init(createdAt, persisted, clock), es);
    InitInv(createdAt, persisted, clock);
    RunInv(Init(createdAt, persisted, clock), es, createdAt, persisted);
    if e.Swap? && e.q in s.requests { assert RequestOk(s, persisted, s.requests[e.q]); }
  }

  // ---- The refresh endpoint -------------------------------------------------------------

  class AuthService {
    const sessions: SessionModelAction
    var issued: nat

    constructor (sessions: SessionModelAction, issued: nat)
      ensures this.sessions == sessions && this.issued == issued
    {
      this.sessions := sessions;
      this.issued := issued;
    }

    ghost function Seen(clock: int, rotations: seq<Rotation>): State
      reads this, sessions
    {
      State(clock, sessions.row, issued, map[], rotations)
    }

    /**
     One refresh with no one else about: it takes the protocol's own steps, and it succeeds exactly when the
     presented token is the stored one of an active session within both windows.
     */
    method Refresh(presented: Token, now: int, ghost rotations: seq<Rotation>) returns (renewal: Result<Token, string>)
      modifies this`issued, sessions
      ensures var before := old(Seen(now, rotations));
              var after := Next(Next(Next(Next(before, Read(0, presented)), Expire(0)), Prepare(0)), Swap(0));
              && sessions.row == after.row && issued == after.issued
              && (renewal.Success? <==> |after.rotations| > |rotations|)
              && (renewal.Success? ==> after.rotations == rotations + [Rotation(presented, renewal.value, now)])
      ensures renewal.Success? <==>
                old(sessions.row).isActive && old(sessions.row).hash == Some(presented)
                && now < old(sessions.row).expiresAt && now - old(sessions.row).createdAt < 30 * 86_400_000
      ensures renewal.Success? ==>
                && renewal.value == old(issued)
                && sessions.row == old(sessions.row).(
                     hash := Some(renewal.value), lastActivityAt := now,
                     expiresAt := Min(now + 7 * 86_400_000, old(sessions.row).createdAt + 30 * 86_400_000))
      ensures renewal.Failure? ==>
                sessions.row == if now <= old(sessions.row).expiresAt && now - old(sessions.row).createdAt <= 30 * 86_400_000
                                then old(sessions.row) else old(sessions.row).(isActive := false)
    {
      var v := sessions.ValidateSession(now);
      if v != Valid { return Failure("SESSION_EXPIRED"); }
      var session := sessions.row;
      if session.hash == None { return Failure("INVALID_REFRESH_TOKEN"); }
      if session.hash != Some(presented) { return Failure("INVALID_REFRESH_TOKEN"); }
      var newRefreshToken := issued;
      issued := issued + 1;
      var swapped := sessions.CompareAndSwapRefreshTokenHash(session.hash.value, newRefreshToken, session.createdAt, now);
      if !swapped { return Failure("INVALID_REFRESH_TOKEN"); }
      return Success(newRefreshToken);
    }

    method Logout(now: int, ghost rotations: seq<Rotation>)
      modifies sessions
      ensures Seen(now, rotations) == Next(old(Seen(now, rotations)), Event.Logout)
      ensures !sessions.row.isActive && sessions.row.hash == None && Unrefreshable(sessions.row)
    {
      sessions.DeactivateSession(now);
    }
  }
}
