/**
 Saving and dispatching an alert: duplicate suppression against the latest alert of the same user and
 type (duplicate-suppression.ts), quiet hours, and the dispatch or deferral job
 (alert-detection.job.ts). The check and the save are separate database calls.
 */
module AlertDetection {
  import opened Wrappers
  import opened Calendar
  import opened QuietHours

  type UserId = nat

  datatype AlertType = BATTERY_PERCENTAGE | SOLAR_GEN | POWER

  datatype Severity = LOW | MEDIUM | HIGH | WARNING | CRITICAL | NONE

  datatype Key = Key(userId: UserId, alertType: AlertType)

  datatype Alert = Alert(id: nat, key: Key, severity: Severity, createdAt: int, resolved: bool, deliverable: bool)

  // ---- Suppression ----------------------------------------------------------------------

  function Rank(severity: Severity): nat {
    match severity
    case LOW => 0
    case MEDIUM => 1
    case HIGH => 2
    case WARNING => 3
    case CRITICAL => 4
    case NONE => 0
  }

  predicate IsSeverityUpgrade(existing: Severity, incoming: Severity) { Rank(incoming) > Rank(existing) }

  /** LOW < MEDIUM < HIGH < WARNING < CRITICAL, and a severity that the order does not know counts as LOW. */
  predicate StrictlyWorse(existing: Severity, incoming: Severity) {
    match incoming
    case CRITICAL => existing != CRITICAL
    case WARNING => existing != CRITICAL && existing != WARNING
    case HIGH => existing == MEDIUM || existing == LOW || existing == NONE
    case MEDIUM => existing == LOW || existing == NONE
    case LOW => false
    case NONE => false
  }

  lemma UpgradeIsWorse(existing: Severity, incoming: Severity)
    ensures IsSeverityUpgrade(existing, incoming) <==> StrictlyWorse(existing, incoming)
  {
  }

  /** findOne ordered by createdAt descending. */
  function LatestAlert(alerts: seq<Alert>, key: Key): Option<Alert> {
    if alerts == [] then None else
    var (earlier, last) := (LatestAlert(alerts[..|alerts| - 1], key), alerts[|alerts| - 1]);
    if last.key == key && (earlier.None? || earlier.value.createdAt <= last.createdAt) then Some(last) else earlier
  }

  predicate IsDuplicate(alerts: seq<Alert>, key: Key, severity: Severity, cooldownMinutes: int, now: int) {
    var existing := LatestAlert(alerts, key);
    if existing.None? then false
    else if IsSeverityUpgrade(existing.value.severity, severity) then false
    else if cooldownMinutes > 0 && now - existing.value.createdAt < cooldownMinutes * MS_PER_MINUTE then true
    else !existing.value.resolved
  }

  // ---- The table under any interleaving of checks, saves and resolutions ----------------------

  datatype Check = Check(key: Key, severity: Severity)

  datatype State = State(alerts: seq<Alert>, pending: map<nat, Check>, clock: int)

  const INIT: State := State([], map[], 0)

  datatype Event =
    | Checked(worker: nat, key: Key, severity: Severity, cooldownMinutes: int, now: int)
    | Saved(worker: nat, now: int, deliverable: bool)
    | Abandoned(worker: nat)
    | Resolved(id: nat)

  function Resolve(alerts: seq<Alert>, id: nat): (r: seq<Alert>)
    ensures |r| == |alerts|
  {
    if alerts == [] then [] else
    var a := alerts[|alerts| - 1];
    Resolve(alerts[..|alerts| - 1], id) + [if a.id == id then a.(resolved := true) else a]
  }

  /** The clock never runs back, and every row gets its own creation time. */
  predicate Enabled(s: State, e: Event) {
    match e
    case Checked(w, key, severity, cooldown, now) =>
      now >= s.clock && w !in s.pending && !IsDuplicate(s.alerts, key, severity, cooldown, now)
    case Saved(w, now, _) => w in s.pending && now > s.clock
    case Abandoned(w) => w in s.pending
    case Resolved(_) => true
  }

  function NewAlert(s: State, check: Check, now: int, deliverable: bool): Alert {
    Alert(|s.alerts|, check.key, check.severity, now, false, deliverable)
  }

  function Next(s: State, e: Event): State {
    if !Enabled(s, e) then s else
    match e
    case Checked(w, key, severity, _, now) => s.(pending := s.pending[w := Check(key, severity)], clock := now)
    case Saved(w, now, deliverable) =>
      State(s.alerts + [NewAlert(s, s.pending[w], now, deliverable)], s.pending - {w}, now)
    case Abandoned(w) => s.(pending := s.pending - {w})
    case Resolved(id) => s.(alerts := Resolve(s.alerts, id))
  }

  function Run(s: State, events: seq<Event>): State
    decreases |events|
  {
    if events == [] then s else Run(Next(s, events[0]), events[1..])
  }

  // ---- Runs in which evaluations of one key do not overlap --------------------------------------

  /** This key's alerts, oldest first. */
  function History(alerts: seq<Alert>, key: Key): seq<Alert> {
    if alerts == [] then [] else
    var a := alerts[|alerts| - 1];
    History(alerts[..|alerts| - 1], key) + if a.key == key then [a] else []
  }

  ghost predicate Busy(s: State, key: Key) { exists w :: w in s.pending && s.pending[w].key == key }

  /** An evaluation of this key starts only when none is between its check and its save. */
  ghost predicate Sequential(s: State, events: seq<Event>, key: Key, cooldownMinutes: int)
    decreases |events|
  {
    events == [] ||
    (var e := events[0];
     && (e.Checked? && e.key == key ==> !Busy(s, key) && e.cooldownMinutes >= cooldownMinutes)
     && Sequential(Next(s, e), events[1..], key, cooldownMinutes))
  }

  /** `b` was allowed after `a`: it is worse, or `a` was over and the cooldown had passed. */
  predicate Justified(a: Alert, severity: Severity, now: int, cooldownMinutes: int) {
    IsSeverityUpgrade(a.severity, severity) || (a.resolved && now - a.createdAt >= cooldownMinutes * MS_PER_MINUTE)
  }

  ghost predicate Ordered(alerts: seq<Alert>, clock: int) {
    && (forall i, j :: 0 <= i < j < |alerts| ==> alerts[i].createdAt < alerts[j].createdAt)
    && (forall i :: 0 <= i < |alerts| ==> alerts[i].createdAt <= clock)
  }

  ghost predicate Spaced(h: seq<Alert>, cooldownMinutes: int) {
    forall k :: 0 < k < |h| ==> Justified(h[k - 1], h[k].severity, h[k].createdAt, cooldownMinutes)
  }

  ghost predicate Cleared(h: seq<Alert>, check: Check, now: int, cooldownMinutes: int) {
    h == [] || Justified(h[|h| - 1], check.severity, now, cooldownMinutes)
  }

  ghost predicate OnePending(s: State, key: Key) {
    forall v, w :: v in s.pending && w in s.pending && s.pending[v].key == key && s.pending[w].key == key ==> v == w
  }

  ghost predicate PendingCleared(s: State, key: Key, cooldownMinutes: int) {
    forall w :: w in s.pending && s.pending[w].key == key ==>
      Cleared(History(s.alerts, key), s.pending[w], s.clock, cooldownMinutes)
  }

  ghost predicate Inv(s: State, key: Key, cooldownMinutes: int) {
    && Ordered(s.alerts, s.clock)
    && Spaced(History(s.alerts, key), cooldownMinutes)
    && OnePending(s, key)
    && PendingCleared(s, key, cooldownMinutes)
  }

  lemma {:induction false} LatestEndsHistory(alerts: seq<Alert>, key: Key, clock: int)
    requires Ordered(alerts, clock)
    ensures var h := History(alerts, key);
            && LatestAlert(alerts, key) == (if h == [] then None else Some(h[|h| - 1]))
            && (h != [] ==> h[|h| - 1] in alerts)
  {
    if alerts != [] { LatestEndsHistory(alerts[..|alerts| - 1], key, clock); }
  }

  lemma {:induction false} HistoryOrdered(alerts: seq<Alert>, key: Key, clock: int)
    requires Ordered(alerts, clock)
    ensures Ordered(History(alerts, key), clock)
    ensures forall a :: a in History(alerts, key) <==> a in alerts && a.key == key
  {
    if alerts != [] {
      var n := |alerts| - 1;
      HistoryOrdered(alerts[..n], key, clock);
      forall a | a in History(alerts[..n], key) ensures a.createdAt < alerts[n].createdAt {
        var i :| 0 <= i < n && alerts[i] == a;
      }
    }
  }

  lemma {:induction false} ResolveEach(alerts: seq<Alert>, id: nat)
    ensures forall i :: 0 <= i < |alerts| ==>
              Resolve(alerts, id)[i] == if alerts[i].id == id then alerts[i].(resolved := true) else alerts[i]
  {
    if alerts != [] { ResolveEach(alerts[..|alerts| - 1], id); }
  }

  lemma {:induction false} HistoryOfResolve(alerts: seq<Alert>, id: nat, key: Key)
    ensures History(Resolve(alerts, id), key) == Resolve(History(alerts, key), id)
  {
    if alerts != [] {
      var n := |alerts| - 1;
      HistoryOfResolve(alerts[..n], id, key);
      assert Resolve(alerts, id)[..n] == Resolve(alerts[..n], id);
      var h := History(alerts[..n], key);
      if alerts[n].key == key {
        assert (h + [alerts[n]])[..|h|] == h;
      } else {
        assert h + [] == h;
        assert Resolve(h, id) + [] == Resolve(h, id);
      }
    }
  }

  lemma HistoryGrows(alerts: seq<Alert>, a: Alert, key: Key)
    ensures History(alerts + [a], key) == History(alerts, key) + if a.key == key then [a] else []
  {
    assert (alerts + [a])[..|alerts|] == alerts;
  }

  lemma ClearedLater(h: seq<Alert>, check: Check, now: int, later: int, cooldownMinutes: int)
    requires Cleared(h, check, now, cooldownMinutes) && now <= later
    ensures Cleared(h, check, later, cooldownMinutes)
  {
  }

  /** What the key's history, oldest first, says about a next alert. */
  predicate Allowed(h: seq<Alert>, severity: Severity, now: int, cooldownMinutes: int) {
    || h == []
    || StrictlyWorse(h[|h| - 1].severity, severity)
    || (h[|h| - 1].resolved && now - h[|h| - 1].createdAt >= cooldownMinutes * 60_000)
  }

  lemma DuplicateIff(alerts: seq<Alert>, key: Key, severity: Severity, cooldownMinutes: int, now: int)
    requires Ordered(alerts, now)
    ensures IsDuplicate(alerts, key, severity, cooldownMinutes, now)
            <==> !Allowed(History(alerts, key), severity, now, cooldownMinutes)
  {
    LatestEndsHistory(alerts, key, now);
    var h := History(alerts, key);
    if h != [] { UpgradeIsWorse(h[|h| - 1].severity, severity); }
    hide History, LatestAlert, IsSeverityUpgrade, StrictlyWorse;
  }

  /**
   A check passes exactly when the key has no alert yet, or the new severity is strictly worse than the
   last alert's, or that alert has been resolved and is at least a cooldown old.
   */
  lemma CheckPassesIff(s: State, w: nat, key: Key, severity: Severity, cooldownMinutes: int, now: int)
    requires Ordered(s.alerts, s.clock) && now >= s.clock && w !in s.pending
    ensures Enabled(s, Checked(w, key, severity, cooldownMinutes, now))
            <==> Allowed(History(s.alerts, key), severity, now, cooldownMinutes)
    ensures Enabled(s, Checked(w, key, severity, cooldownMinutes, now)) ==>
              Next(s, Checked(w, key, severity, cooldownMinutes, now))
              == s.(pending := s.pending[w := Check(key, severity)], clock := now)
  {
    DuplicateIff(s.alerts, key, severity, cooldownMinutes, now);
    hide IsDuplicate, Allowed, History;
  }

  /** A passed check is the history's own condition for the next alert. */
  lemma CheckClears(s: State, e: Event, key: Key, cooldownMinutes: int)
    requires Ordered(s.alerts, s.clock) && e.Checked? && Enabled(s, e)
    requires e.key == key && e.cooldownMinutes >= cooldownMinutes
    ensures Cleared(History(s.alerts, key), Check(key, e.severity), e.now, cooldownMinutes)
  {
    LatestEndsHistory(s.alerts, key, s.clock);
    hide History, LatestAlert;
  }

  lemma CheckedInv(s: State, e: Event, key: Key, cooldownMinutes: int)
    requires Inv(s, key, cooldownMinutes) && e.Checked? && Enabled(s, e)
    requires e.key == key ==> !Busy(s, key) && e.cooldownMinutes >= cooldownMinutes
    ensures Inv(Next(s, e), key, cooldownMinutes)
  {
    if e.key == key { CheckClears(s, e, key, cooldownMinutes); }
    hide History, IsDuplicate, Spaced, Cleared;
    var t := Next(s, e);
    forall w | w in t.pending && t.pending[w].key == key
      ensures Cleared(History(t.alerts, key), t.pending[w], t.clock, cooldownMinutes)
    {
      if w in s.pending { ClearedLater(History(s.alerts, key), s.pending[w], s.clock, t.clock, cooldownMinutes); }
    }
  }

  lemma SpacedGrows(h: seq<Alert>, a: Alert, cooldownMinutes: int)
    requires Spaced(h, cooldownMinutes) && (h == [] || Justified(h[|h| - 1], a.severity, a.createdAt, cooldownMinutes))
    ensures Spaced(h + [a], cooldownMinutes)
  {
    hide Justified;
  }

  lemma OrderedGrows(alerts: seq<Alert>, a: Alert, clock: int)
    requires Ordered(alerts, clock) && clock < a.createdAt
    ensures Ordered(alerts + [a], a.createdAt)
  {
  }

  lemma SavedPending(s: State, e: Event, key: Key, cooldownMinutes: int)
    requires OnePending(s, key) && PendingCleared(s, key, cooldownMinutes) && e.Saved? && Enabled(s, e)
    ensures OnePending(Next(s, e), key) && PendingCleared(Next(s, e), key, cooldownMinutes)
  {
    var t := Next(s, e);
    var check := s.pending[e.worker];
    HistoryGrows(s.alerts, NewAlert(s, check, e.now, e.deliverable), key);
    var h := History(s.alerts, key);
    assert h + [] == h;
    hide History, Cleared, NewAlert;
    forall w | w in t.pending && t.pending[w].key == key
      ensures Cleared(History(t.alerts, key), t.pending[w], t.clock, cooldownMinutes)
    {
      ClearedLater(h, s.pending[w], s.clock, t.clock, cooldownMinutes);
    }
  }

  lemma SavedHistory(s: State, e: Event, key: Key, cooldownMinutes: int)
    requires PendingCleared(s, key, cooldownMinutes) && e.Saved? && Enabled(s, e)
    requires Spaced(History(s.alerts, key), cooldownMinutes)
    ensures Spaced(History(Next(s, e).alerts, key), cooldownMinutes)
  {
    var check := s.pending[e.worker];
    var h := History(s.alerts, key);
    var a := NewAlert(s, check, e.now, e.deliverable);
    HistoryGrows(s.alerts, a, key);
    hide History, Spaced;
    if check.key == key {
      ClearedLater(h, check, s.clock, e.now, cooldownMinutes);
      SpacedGrows(h, a, cooldownMinutes);
    } else {
      assert h + [] == h;
    }
  }

  lemma SavedInv(s: State, e: Event, key: Key, cooldownMinutes: int)
    requires Inv(s, key, cooldownMinutes) && e.Saved? && Enabled(s, e)
    ensures Inv(Next(s, e), key, cooldownMinutes)
  {
    hide History, Spaced, Ordered, PendingCleared, OnePending;
    OrderedGrows(s.alerts, NewAlert(s, s.pending[e.worker], e.now, e.deliverable), s.clock);
    SavedPending(s, e, key, cooldownMinutes);
    SavedHistory(s, e, key, cooldownMinutes);
  }

  lemma ResolveKeepsOrder(alerts: seq<Alert>, id: nat, clock: int)
    requires Ordered(alerts, clock)
    ensures Ordered(Resolve(alerts, id), clock)
  {
    ResolveEach(alerts, id);
    var r := Resolve(alerts, id);
    assert forall i :: 0 <= i < |r| ==> r[i].createdAt == alerts[i].createdAt;
  }

  lemma ResolveKeepsSpaced(h: seq<Alert>, id: nat, cooldownMinutes: int)
    requires Spaced(h, cooldownMinutes)
    ensures Spaced(Resolve(h, id), cooldownMinutes)
  {
    ResolveEach(h, id);
    var r := Resolve(h, id);
    forall k | 0 < k < |r| ensures Justified(r[k - 1], r[k].severity, r[k].createdAt, cooldownMinutes) {
      assert Justified(h[k - 1], h[k].severity, h[k].createdAt, cooldownMinutes);
    }
  }

  lemma ResolveKeepsCleared(h: seq<Alert>, id: nat, check: Check, now: int, cooldownMinutes: int)
    requires Cleared(h, check, now, cooldownMinutes)
    ensures Cleared(Resolve(h, id), check, now, cooldownMinutes)
  {
    ResolveEach(h, id);
  }

  lemma ResolvedInv(s: State, e: Event, key: Key, cooldownMinutes: int)
    requires Inv(s, key, cooldownMinutes) && e.Resolved?
    ensures Inv(Next(s, e), key, cooldownMinutes)
  {
    var h := History(s.alerts, key);
    HistoryOfResolve(s.alerts, e.id, key);
    ResolveKeepsOrder(s.alerts, e.id, s.clock);
    ResolveKeepsSpaced(h, e.id, cooldownMinutes);
    hide History, Resolve, Ordered, Spaced, Cleared;
    forall w | w in s.pending && s.pending[w].key == key
      ensures Cleared(Resolve(h, e.id), s.pending[w], s.clock, cooldownMinutes)
    {
      ResolveKeepsCleared(h, e.id, s.pending[w], s.clock, cooldownMinutes);
    }
  }

  lemma {:induction false} RunInv(s: State, events: seq<Event>, key: Key, cooldownMinutes: int)
    requires Inv(s, key, cooldownMinutes) && Sequential(s, events, key, cooldownMinutes)
    ensures Inv(Run(s, events), key, cooldownMinutes)
    decreases |events|
  {
    if events != [] {
      var e := events[0];
      hide Inv;
      if Enabled(s, e) {
        match e
        case Checked(_, _, _, _, _) => CheckedInv(s, e, key, cooldownMinutes);
        case Saved(_, _, _) => SavedInv(s, e, key, cooldownMinutes);
        case Abandoned(_) => AbandonedInv(s, e, key, cooldownMinutes);
        case Resolved(_) => ResolvedInv(s, e, key, cooldownMinutes);
      }
      RunInv(Next(s, e), events[1..], key, cooldownMinutes);
    }
  }

  lemma AbandonedInv(s: State, e: Event, key: Key, cooldownMinutes: int)
    requires Inv(s, key, cooldownMinutes) && e.Abandoned? && Enabled(s, e)
    ensures Inv(Next(s, e), key, cooldownMinutes)
  {
    hide History, Ordered, Spaced, Cleared;
  }

  // ---- What the run says about the history --------------------------------------------------

  /**
   Consecutive alerts of one user and type: the later is strictly worse, or the earlier was resolved
   and is at least a cooldown older.
   */
  lemma ConsecutiveAlerts(events: seq<Event>, key: Key, cooldownMinutes: int, k: int)
    requires Sequential(INIT, events, key, cooldownMinutes)
    requires 0 < k < |History(Run(INIT, events).alerts, key)|
    ensures var h := History(Run(INIT, events).alerts, key);
            || StrictlyWorse(h[k - 1].severity, h[k].severity)
            || (h[k - 1].resolved && h[k].createdAt - h[k - 1].createdAt >= cooldownMinutes * 60_000)
  {
    RunInv(INIT, events, key, cooldownMinutes);
    var h := History(Run(INIT, events).alerts, key);
    hide History, Run, Sequential;
    assert Justified(h[k - 1], h[k].severity, h[k].createdAt, cooldownMinutes);
    UpgradeIsWorse(h[k - 1].severity, h[k].severity);
    hide StrictlyWorse, IsSeverityUpgrade;
  }

  lemma {:induction false} RanksClimb(h: seq<Alert>, cooldownMinutes: int, clock: int, i: int, j: int)
    requires Spaced(h, cooldownMinutes) && Ordered(h, clock) && 0 <= i < j < |h|
    requires h[j].createdAt - h[i].createdAt < cooldownMinutes * MS_PER_MINUTE
    ensures Rank(h[i].severity) < Rank(h[j].severity)
    decreases j - i
  {
    hide Rank;
    assert Justified(h[j - 1], h[j].severity, h[j].createdAt, cooldownMinutes);
    if i < j - 1 { RanksClimb(h, cooldownMinutes, clock, i, j - 1); }
  }

  /** A window shorter than the cooldown holds at most one alert of each rank. */
  lemma OnePerRankInWindow(events: seq<Event>, key: Key, cooldownMinutes: int, i: int, j: int)
    requires Sequential(INIT, events, key, cooldownMinutes)
    requires 0 <= i < j < |History(Run(INIT, events).alerts, key)|
    ensures var h := History(Run(INIT, events).alerts, key);
            h[j].createdAt - h[i].createdAt < cooldownMinutes * 60_000 ==> StrictlyWorse(h[i].severity, h[j].severity)
  {
    RunInv(INIT, events, key, cooldownMinutes);
    var t := Run(INIT, events);
    HistoryOrdered(t.alerts, key, t.clock);
    var h := History(t.alerts, key);
    hide History, Run, Sequential;
    if h[j].createdAt - h[i].createdAt < cooldownMinutes * MS_PER_MINUTE { RanksClimb(h, cooldownMinutes, t.clock, i, j); }
    UpgradeIsWorse(h[i].severity, h[j].severity);
    hide StrictlyWorse, Rank;
  }

  lemma SpacedPrefix(h: seq<Alert>, a: Alert, cooldownMinutes: int)
    ensures Spaced(h + [a], cooldownMinutes)
            <==> Spaced(h, cooldownMinutes) && (h == [] || Justified(h[|h| - 1], a.severity, a.createdAt, cooldownMinutes))
  {
    hide Justified;
    var g := h + [a];
    if Spaced(g, cooldownMinutes) {
      forall k | 0 < k < |h| ensures Justified(h[k - 1], h[k].severity, h[k].createdAt, cooldownMinutes) {
        assert Justified(g[k - 1], g[k].severity, g[k].createdAt, cooldownMinutes);
      }
      if h != [] { assert Justified(g[|h| - 1], g[|h|].severity, g[|h|].createdAt, cooldownMinutes); }
    } else if Spaced(h, cooldownMinutes) && (h == [] || Justified(h[|h| - 1], a.severity, a.createdAt, cooldownMinutes)) {
      SpacedGrows(h, a, cooldownMinutes);
    }
  }

  /**
   Two evaluations of one key that both checked before either saved: their alerts are justified exactly
   when the one saved second is strictly worse. The first is too young to have been resolved.
   */
  lemma OverlapJustifiedIff(s: State, v: nat, w: nat, t1: int, t2: int, d1: bool, d2: bool, key: Key, cooldownMinutes: int)
    requires Spaced(History(s.alerts, key), cooldownMinutes) && PendingCleared(s, key, cooldownMinutes)
    requires v != w && v in s.pending && w in s.pending && s.pending[v].key == key && s.pending[w].key == key
    requires s.clock < t1 < t2
    ensures Spaced(History(Next(Next(s, Saved(v, t1, d1)), Saved(w, t2, d2)).alerts, key), cooldownMinutes)
            <==> StrictlyWorse(s.pending[v].severity, s.pending[w].severity)
  {
    UpgradeIsWorse(s.pending[v].severity, s.pending[w].severity);
    var s1 := Next(s, Saved(v, t1, d1));
    var (first, second) := (s.pending[v], s.pending[w]);
    SavedHistory(s, Saved(v, t1, d1), key, cooldownMinutes);
    SaveGrows(s, v, t1, d1);
    SaveGrows(s1, w, t2, d2);
    hide Next, NewAlert, StrictlyWorse, IsSeverityUpgrade;
    var b := NewAlert(s1, second, t2, d2);
    SpacedPrefix(History(s1.alerts, key), b, cooldownMinutes);
    hide History, Spaced;
    FreshAlert(s, first, t1, d1, second.severity, t2, cooldownMinutes);
    FreshAlert(s1, second, t2, d2, second.severity, t2, cooldownMinutes);
  }

  lemma SaveGrows(s: State, w: nat, now: int, deliverable: bool)
    requires w in s.pending && now > s.clock
    ensures var t := Next(s, Saved(w, now, deliverable));
            && t.pending == s.pending - {w} && t.clock == now
            && forall key :: History(t.alerts, key) == History(s.alerts, key)
                 + if s.pending[w].key == key then [NewAlert(s, s.pending[w], now, deliverable)] else []
  {
    var a := NewAlert(s, s.pending[w], now, deliverable);
    forall key
      ensures History(s.alerts + [a], key) == History(s.alerts, key) + if s.pending[w].key == key then [a] else []
    {
      HistoryGrows(s.alerts, a, key);
    }
  }

  lemma FreshAlert(s: State, check: Check, now: int, deliverable: bool, severity: Severity, later: int, cooldownMinutes: int)
    ensures var a := NewAlert(s, check, now, deliverable);
            && a.severity == check.severity && a.createdAt == now
            && (Justified(a, severity, later, cooldownMinutes) <==> IsSeverityUpgrade(check.severity, severity))
  {
  }

  /** Such a pair, a millisecond apart and equally severe: two evaluations that both check before either saves. */
  lemma OverlappingChecksRepeat()
    ensures var key := Key(0, BATTERY_PERCENTAGE);
            var h := History(Run(INIT, [Checked(0, key, CRITICAL, 15, 1), Checked(1, key, CRITICAL, 15, 1),
                                        Saved(0, 2, true), Saved(1, 3, true)]).alerts, key);
            |h| == 2 && h[0].severity == h[1].severity && !h[0].resolved && h[1].createdAt - h[0].createdAt == 1
  {
    var key := Key(0, BATTERY_PERCENTAGE);
    var check := Check(key, CRITICAL);
    var events := [Checked(0, key, CRITICAL, 15, 1), Checked(1, key, CRITICAL, 15, 1), Saved(0, 2, true), Saved(1, 3, true)];
    var (a, b) := (Alert(0, key, CRITICAL, 2, false, true), Alert(1, key, CRITICAL, 3, false, true));
    var s2 := State([], map[0 := check, 1 := check], 1);
    assert Next(Next(INIT, events[0]), events[1]) == s2;
    var s3 := State([a], s2.pending - {0}, 2);
    assert Next(s2, events[2]) == s3 by { assert [] + [a] == [a]; }
    var s4 := State([a] + [b], s3.pending - {1}, 3);
    assert Next(s3, events[3]) == s4;
    RunFour(INIT, events);
    HistoryGrows([], a, key);
    HistoryGrows([a], b, key);
    assert [] + [a] == [a];
  }

  lemma RunFour(s: State, events: seq<Event>)
    requires |events| == 4
    ensures Run(s, events) == Next(Next(Next(Next(s, events[0]), events[1]), events[2]), events[3])
  {
    hide Next;
    var s1 := Next(s, events[0]);
    assert Run(s, events) == Run(s1, events[1..]);
    var s2 := Next(s1, events[1]);
    assert Run(s1, events[1..]) == Run(s2, events[1..][1..]);
    assert events[1..][1..] == events[2..];
    var s3 := Next(s2, events[2]);
    assert Run(s2, events[2..]) == Run(s3, events[2..][1..]);
    assert events[2..][1..] == [events[3]];
    assert [events[3]][1..] == [];
    assert Run(s3, [events[3]]) == Run(Next(s3, events[3]), []);
  }

  // ---- One evaluation, from the check to the queued job ---------------------------------------

  datatype Settings = Settings(
    quietHoursStart: Option<string>, quietHoursEnd: Option<string>,
    timezone: Option<string>, alertCooldownMinutes: Option<int>)

  datatype Job =
    | Dispatch(alertId: nat, severity: Severity)
    | DeferredDelivery(alertId: nat, scheduledFor: int, delay: int)

  function OrElse<T>(value: Option<T>, default: T): T { if value.None? then default else value.value }

  function Timezone(settings: Option<Settings>): string {
    if settings.None? then "+00:00" else OrElse(settings.value.timezone, "+00:00")
  }

  function Cooldown(settings: Option<Settings>): int {
    if settings.None? then 15 else OrElse(settings.value.alertCooldownMinutes, 15)
  }

  /** Both ends are set and not empty. */
  predicate HasQuietHours(settings: Option<Settings>) {
    settings.Some? && OrElse(settings.value.quietHoursStart, "") != "" && OrElse(settings.value.quietHoursEnd, "") != ""
  }

  function UTCStart(settings: Option<Settings>): string
    requires HasQuietHours(settings)
  {
    ConvertToUTC(settings.value.quietHoursStart.value, Timezone(settings))
  }

  function UTCEnd(settings: Option<Settings>): string
    requires HasQuietHours(settings)
  {
    ConvertToUTC(settings.value.quietHoursEnd.value, Timezone(settings))
  }

  predicate DeferDelivery(settings: Option<Settings>, severity: Severity, now: int) {
    && severity != CRITICAL
    && HasQuietHours(settings) && IsWithinQuietHours(now, UTCStart(settings), UTCEnd(settings))
  }

  /** The job that goes to the queue for alert `id`, saved at `now`. */
  ghost predicate JobFits(job: Job, id: nat, settings: Option<Settings>, severity: Severity, now: int) {
    match job
    case Dispatch(i, s) => i == id && s == severity && !DeferDelivery(settings, severity, now)
    case DeferredDelivery(i, at, delay) =>
      && i == id && DeferDelivery(settings, severity, now)
      && delay == at - now && 0 < delay <= MS_PER_DAY
      && (UTCStart(settings) != UTCEnd(settings) ==>
            delay < MS_PER_DAY && FirstOutside(now, at, UTCStart(settings), UTCEnd(settings)))
  }

  /** Quiet hours are set, `now` is inside them in the user's own zone, and the alert is not CRITICAL. */
  ghost predicate Waits(settings: Option<Settings>, severity: Severity, now: int) {
    && severity != CRITICAL && settings.Some?
    && var (from, to) := (settings.value.quietHoursStart, settings.value.quietHoursEnd);
       var zone := if settings.value.timezone.Some? then settings.value.timezone.value else "+00:00";
       && from.Some? && to.Some? && from.value != "" && to.value != ""
       && IsWithinQuietHours(now, ConvertToUTC(from.value, zone), ConvertToUTC(to.value, zone))
  }

  lemma WaitsIsDeferred(settings: Option<Settings>, severity: Severity, now: int)
    ensures DeferDelivery(settings, severity, now) <==> Waits(settings, severity, now)
  {
    hide IsWithinQuietHours, ConvertToUTC;
  }

  /** One more alert, open and at the end. */
  ghost predicate SavedTo(before: seq<Alert>, after: seq<Alert>, key: Key, severity: Severity, savedAt: int) {
    && |after| == |before| + 1 && after[..|before|] == before
    && var a := after[|before|];
       a.id == |before| && a.key == key && a.severity == severity && a.createdAt == savedAt && !a.resolved
  }

  class AlertDetectionJob {
    var alerts: seq<Alert>
    var queue: seq<Job>

    /**
     The clock is read three times: by the duplicate check, by this method and by the database on
     insert. The save and the queue may fail; what was written before stays. An alert is saved exactly when
     the key's history allows it, and its job waits exactly inside the quiet hours, unless it is CRITICAL.
     */
    method SaveAndDispatchAlert(
      settings: Option<Settings>, key: Key, severity: Severity,
      checkedAt: int, now: int, savedAt: int, saves: bool, accepts: bool)
      requires checkedAt <= now < savedAt
      modifies this
      ensures var deferred := DeferDelivery(settings, severity, now);
              var end := if saves then Saved(0, savedAt, !deferred) else Abandoned(0);
              alerts == Run(State(old(alerts), map[], checkedAt),
                            [Checked(0, key, severity, Cooldown(settings), checkedAt), end]).alerts
      ensures if saves && accepts && !IsDuplicate(old(alerts), key, severity, Cooldown(settings), checkedAt)
              then |queue| == |old(queue)| + 1 && queue[..|old(queue)|] == old(queue)
                   && JobFits(queue[|old(queue)|], |old(alerts)|, settings, severity, now)
              else queue == old(queue)
      ensures Ordered(old(alerts), checkedAt) ==>
                var cooldown := if settings.Some? && settings.value.alertCooldownMinutes.Some?
                                then settings.value.alertCooldownMinutes.value else 15;
                var allowed := Allowed(History(old(alerts), key), severity, checkedAt, cooldown);
                && (if allowed && saves then SavedTo(old(alerts), alerts, key, severity, savedAt) else alerts == old(alerts))
                && (|queue| > |old(queue)| <==> allowed && saves && accepts)
      ensures |queue| > |old(queue)| ==> (queue[|old(queue)|].DeferredDelivery? <==> Waits(settings, severity, now))
      ensures |alerts| > |old(alerts)| ==> (alerts[|old(alerts)|].deliverable <==> !Waits(settings, severity, now))
    {
      WaitsIsDeferred(settings, severity, now);
      ghost var before := State(alerts, map[], checkedAt);
      ghost var check := Checked(0, key, severity, Cooldown(settings), checkedAt);
      if Ordered(alerts, checkedAt) { DuplicateIff(alerts, key, severity, Cooldown(settings), checkedAt); }
      RunTwo(before, check, if saves then Saved(0, savedAt, !DeferDelivery(settings, severity, now)) else Abandoned(0));
      if IsDuplicate(alerts, key, severity, Cooldown(settings), checkedAt) { return; }
      var deferDelivery := false;
      if HasQuietHours(settings) {
        deferDelivery := IsWithinQuietHours(now, UTCStart(settings), UTCEnd(settings));
      }
      if severity == CRITICAL { deferDelivery := false; }
      if !saves { return; }
      var id := |alerts|;
      alerts := alerts + [Alert(id, key, severity, savedAt, false, !deferDelivery)];
      if !accepts { return; }
      QueueJob(settings, severity, id, now, deferDelivery);
    }

    /** The tail of the above: the dispatch job, or the one that waits for the end of the quiet hours. */
    method QueueJob(settings: Option<Settings>, severity: Severity, id: nat, now: int, deferDelivery: bool)
      requires deferDelivery == DeferDelivery(settings, severity, now)
      modifies this`queue
      ensures |queue| == |old(queue)| + 1 && queue[..|old(queue)|] == old(queue)
      ensures JobFits(queue[|old(queue)|], id, settings, severity, now)
      ensures queue[|old(queue)|].DeferredDelivery? <==> Waits(settings, severity, now)
    {
      WaitsIsDeferred(settings, severity, now);
      if !deferDelivery {
        queue := queue + [Dispatch(id, severity)];
      } else {
        DeferredToFirstOutside(now, settings.value.quietHoursStart.value, settings.value.quietHoursEnd.value,
                               Timezone(settings));
        var at := DeferredInstant(now, UTCEnd(settings)).value;
        queue := queue + [DeferredDelivery(id, at, at - now)];
      }
    }
  }

  lemma RunTwo(s: State, a: Event, b: Event)
    ensures Run(s, [a, b]) == Next(Next(s, a), b)
  {
    assert [a, b][1..] == [b] && [b][1..] == [];
    assert Run(Next(s, a), [b]) == Run(Next(Next(s, a), b), []);
  }
}
