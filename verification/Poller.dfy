/**
 The metrics poller (metrics-poller.service.ts): four lists of tracked inverters, one per pollable
 brand, and a count of failed polls per inverter. Registrations, deregistrations and the stages of
 polls come in any order; a poll may end after its inverter was deregistered.
 */
module Poller {
  import opened Wrappers

  type InverterId = nat

  datatype Brand = VICTRON | GROWATT | SUNSYNK | DEYE | SANDBOX

  /** Object.values(InverterBrand) */
  const BRANDS: seq<Brand> := [VICTRON, GROWATT, SUNSYNK, DEYE, SANDBOX]

  predicate Pollable(brand: Brand) { brand != DEYE }

  /** How often a pollable brand is polled, in milliseconds. */
  function PollMs(brand: Brand): int
    requires Pollable(brand)
  {
    match brand
    case VICTRON => 120_000
    case SANDBOX => 30_000
    case _ => 300_000
  }

  datatype Inverter = Inverter(id: InverterId, brand: Brand)

  datatype Outcome = DecryptFails | FetchFails | MarkOnlineFails | Online

  // ---- What a history of events means -----------------------------------------------------------

  /** `Failed` is a rejected fetch, or a markOnline that is rejected after the fetch came back. */
  datatype Event =
    | Registered(id: InverterId)
    | Deregistered(id: InverterId)
    | Fetched(id: InverterId)
    | Failed(id: InverterId)

  /** The inverters tracked after `events`: loaded or registered, and not deregistered since. */
  ghost function Tracked(brandOf: InverterId -> Brand, loaded: set<InverterId>, events: seq<Event>): set<InverterId> {
    if events == [] then loaded else
    var (before, e) := (Tracked(brandOf, loaded, events[..|events| - 1]), events[|events| - 1]);
    match e
    case Registered(id) => if Pollable(brandOf(id)) then before + {id} else before
    case Deregistered(id) => before - {id}
    case Fetched(_) => before
    case Failed(_) => before
  }

  /** How many polls of `id` have failed in a row; deregistering it while tracked starts afresh. */
  ghost function FailureRun(brandOf: InverterId -> Brand, loaded: set<InverterId>, events: seq<Event>, id: InverterId): nat {
    if events == [] then 0 else
    var (before, e) := (events[..|events| - 1], events[|events| - 1]);
    var n := FailureRun(brandOf, loaded, before, id);
    if e.id != id then n else
    match e
    case Registered(_) => n
    case Deregistered(_) => if id in Tracked(brandOf, loaded, before) then 0 else n
    case Fetched(_) => 0
    case Failed(_) => n + 1
  }

  // ---- Lists --------------------------------------------------------------------------------------

  /** Array.findIndex; None is -1. */
  function FindIndex(list: seq<Inverter>, id: InverterId): (k: Option<nat>)
    ensures k.Some? ==> k.value < |list| && list[k.value].id == id
    ensures k.None? <==> forall i :: 0 <= i < |list| ==> list[i].id != id
  {
    if list == [] then None
    else if list[0].id == id then Some(0)
    else
      var k := FindIndex(list[1..], id);
      assert forall i :: 0 < i < |list| ==> list[i] == list[1..][i - 1];
      if k.None? then None else Some(k.value + 1)
  }

  /** The list without its entry `k`. */
  function Spliced(list: seq<Inverter>, k: nat): seq<Inverter>
    requires k < |list|
  {
    list[..k] + list[k + 1..]
  }

  /** `list` holds each tracked inverter of `brand` once, and nothing else. */
  ghost predicate Holds(list: seq<Inverter>, tracked: set<InverterId>, brand: Brand, brandOf: InverterId -> Brand) {
    && (forall j, k :: 0 <= j < k < |list| ==> list[j].id != list[k].id)
    && (forall k :: 0 <= k < |list| ==> list[k].brand == brand && brandOf(list[k].id) == brand && list[k].id in tracked)
    && (forall id :: id in tracked && brandOf(id) == brand ==> FindIndex(list, id).Some?)
  }

  ghost predicate AllPollable(tracked: set<InverterId>, brandOf: InverterId -> Brand) {
    forall id :: id in tracked ==> Pollable(brandOf(id))
  }

  lemma SplicedHolds(list: seq<Inverter>, k: nat, tracked: set<InverterId>, brand: Brand, brandOf: InverterId -> Brand)
    requires k < |list| && Holds(list, tracked, brand, brandOf)
    ensures Holds(Spliced(list, k), tracked - {list[k].id}, brand, brandOf)
  {
    var s := Spliced(list, k);
    forall id | id in tracked - {list[k].id} && brandOf(id) == brand ensures FindIndex(s, id).Some? {
      var j := FindIndex(list, id).value;
      assert s[if j < k then j else j - 1] == list[j];
    }
  }

  lemma SplicedFromOwnList(list: seq<Inverter>, k: nat, tracked: set<InverterId>, brand: Brand, brandOf: InverterId -> Brand)
    requires k < |list| && Holds(list, tracked, brand, brandOf)
    ensures brandOf(list[k].id) == brand && list[k].id in tracked
    ensures Holds(Spliced(list, k), tracked - {list[k].id}, brand, brandOf)
  {
    hide FindIndex;
    SplicedHolds(list, k, tracked, brand, brandOf);
  }

  lemma PushedHolds(list: seq<Inverter>, i: Inverter, tracked: set<InverterId>, brandOf: InverterId -> Brand)
    requires Holds(list, tracked, i.brand, brandOf) && brandOf(i.id) == i.brand
    requires FindIndex(list, i.id).None?
    ensures Holds(list + [i], tracked + {i.id}, i.brand, brandOf)
  {
    var p := list + [i];
    forall id | id in tracked + {i.id} && brandOf(id) == i.brand ensures FindIndex(p, id).Some? {
      if id == i.id { assert p[|list|].id == id; } else { assert p[FindIndex(list, id).value].id == id; }
    }
  }

  lemma OthersHold(list: seq<Inverter>, tracked: set<InverterId>, after: set<InverterId>, brand: Brand,
                   brandOf: InverterId -> Brand, id: InverterId)
    requires Holds(list, tracked, brand, brandOf) && brandOf(id) != brand
    requires after == tracked + {id} || after == tracked - {id}
    ensures Holds(list, after, brand, brandOf)
  {
  }

  lemma FoundIffTracked(list: seq<Inverter>, tracked: set<InverterId>, brand: Brand,
                        brandOf: InverterId -> Brand, id: InverterId)
    requires Holds(list, tracked, brand, brandOf) && brandOf(id) == brand
    ensures FindIndex(list, id).Some? <==> id in tracked
  {
  }

  lemma TrackedGrows(brandOf: InverterId -> Brand, loaded: set<InverterId>, events: seq<Event>, e: Event)
    ensures var (before, after) := (Tracked(brandOf, loaded, events), Tracked(brandOf, loaded, events + [e]));
            after == match e
                     case Registered(id) => if Pollable(brandOf(id)) then before + {id} else before
                     case Deregistered(id) => before - {id}
                     case _ => before
  {
    assert (events + [e])[..|events|] == events;
  }

  lemma RunGrows(brandOf: InverterId -> Brand, loaded: set<InverterId>, events: seq<Event>, e: Event, id: InverterId)
    ensures var (n, after) := (FailureRun(brandOf, loaded, events, id), FailureRun(brandOf, loaded, events + [e], id));
            after == if e.id != id then n
                     else match e
                          case Registered(_) => n
                          case Deregistered(_) => if id in Tracked(brandOf, loaded, events) then 0 else n
                          case Fetched(_) => 0
                          case Failed(_) => n + 1
  {
    assert (events + [e])[..|events|] == events;
  }

  /** Event `k` registers the inverter, and no later event deregisters it. */
  predicate LastsFrom(events: seq<Event>, k: int, id: InverterId) {
    0 <= k < |events| && events[k] == Registered(id) && Deregistered(id) !in events[k + 1..]
  }

  /** Tracked: loaded or registered with a brand that is polled, and not deregistered since. */
  lemma {:induction false} TrackedIff(brandOf: InverterId -> Brand, loaded: set<InverterId>, events: seq<Event>, id: InverterId)
    ensures id in Tracked(brandOf, loaded, events)
            <==> || (id in loaded && Deregistered(id) !in events)
                 || (Pollable(brandOf(id))
                     && exists k :: LastsFrom(events, k, id))
    decreases |events|
  {
    if events != [] {
      var n := |events| - 1;
      var (before, e) := (events[..n], events[n]);
      TrackedIff(brandOf, loaded, before, id);
      hide Tracked;
      TrackedGrows(brandOf, loaded, before, e);
      assert before + [e] == events;
      forall k | 0 <= k < n ensures LastsFrom(events, k, id) <==> LastsFrom(before, k, id) && e != Deregistered(id) {
        assert events[k + 1..] == before[k + 1..] + [e];
      }
      assert LastsFrom(events, n, id) <==> e == Registered(id);
    }
  }

  // ---- The service ----------------------------------------------------------------------------------

  class MetricsPollerService {
    const brandOf: InverterId -> Brand // a row's brand is never updated
    const loaded: set<InverterId>
    var victronInverters: seq<Inverter>
    var growattInverters: seq<Inverter>
    var sunsynkInverters: seq<Inverter>
    var sandboxInverters: seq<Inverter>
    var failureCounts: map<InverterId, nat>
    ghost var events: seq<Event>

    function ArrayForBrand(brand: Brand): seq<Inverter>
      reads this
    {
      match brand
      case VICTRON => victronInverters
      case GROWATT => growattInverters
      case SUNSYNK => sunsynkInverters
      case SANDBOX => sandboxInverters
      case DEYE => []
    }

    ghost function TrackedNow(): set<InverterId>
      reads this
    {
      Tracked(brandOf, loaded, events)
    }

    ghost function RunNow(id: InverterId): nat
      reads this
    {
      FailureRun(brandOf, loaded, events, id)
    }

    function CountOf(id: InverterId): nat
      reads this
    {
      if id in failureCounts then failureCounts[id] else 0
    }

    /** Every tracked inverter is once in the list of its own brand, and no list holds anything else. */
    ghost predicate ListsValid()
      reads this
    {
      && Holds(victronInverters, TrackedNow(), VICTRON, brandOf)
      && Holds(growattInverters, TrackedNow(), GROWATT, brandOf)
      && Holds(sunsynkInverters, TrackedNow(), SUNSYNK, brandOf)
      && Holds(sandboxInverters, TrackedNow(), SANDBOX, brandOf)
      && AllPollable(TrackedNow(), brandOf)
    }

    /** Every count is the run of failures that the events tell. */
    ghost predicate CountsValid()
      reads this
    {
      forall id: InverterId :: CountOf(id) == RunNow(id)
    }

    /** loadInverters: one query per pollable brand. */
    constructor (brandOf: InverterId -> Brand,
                 victron: seq<Inverter>, growatt: seq<Inverter>, sunsynk: seq<Inverter>, sandbox: seq<Inverter>,
                 loaded: set<InverterId>)
      requires AllPollable(loaded, brandOf)
      requires Holds(victron, loaded, VICTRON, brandOf) && Holds(growatt, loaded, GROWATT, brandOf)
      requires Holds(sunsynk, loaded, SUNSYNK, brandOf) && Holds(sandbox, loaded, SANDBOX, brandOf)
      ensures ListsValid() && CountsValid() && events == []
    {
      this.brandOf := brandOf;
      this.loaded := loaded;
      victronInverters, growattInverters, sunsynkInverters, sandboxInverters := victron, growatt, sunsynk, sandbox;
      failureCounts := map[];
      events := [];
    }

    /** The lists of the other brands are right after `id` is added or removed. */
    lemma OtherLists(id: InverterId, after: set<InverterId>)
      requires ListsValid() && (after == TrackedNow() + {id} || after == TrackedNow() - {id})
      ensures brandOf(id) != VICTRON ==> Holds(victronInverters, after, VICTRON, brandOf)
      ensures brandOf(id) != GROWATT ==> Holds(growattInverters, after, GROWATT, brandOf)
      ensures brandOf(id) != SUNSYNK ==> Holds(sunsynkInverters, after, SUNSYNK, brandOf)
      ensures brandOf(id) != SANDBOX ==> Holds(sandboxInverters, after, SANDBOX, brandOf)
      ensures Pollable(brandOf(id)) || after == TrackedNow() - {id} ==> AllPollable(after, brandOf)
    {
      hide Holds, Tracked;
      if brandOf(id) != VICTRON { OthersHold(victronInverters, TrackedNow(), after, VICTRON, brandOf, id); }
      if brandOf(id) != GROWATT { OthersHold(growattInverters, TrackedNow(), after, GROWATT, brandOf, id); }
      if brandOf(id) != SUNSYNK { OthersHold(sunsynkInverters, TrackedNow(), after, SUNSYNK, brandOf, id); }
      if brandOf(id) != SANDBOX { OthersHold(sandboxInverters, TrackedNow(), after, SANDBOX, brandOf, id); }
    }

    /** The row may be missing; the check and the push follow the read without a pause. */
    method HandleInverterRegistered(id: InverterId, found: bool)
      requires ListsValid() && CountsValid()
      modifies this
      ensures ListsValid() && CountsValid()
      ensures events == if found then old(events) + [Registered(id)] else old(events)
    {
      if !found { return; }
      ghost var before := TrackedNow();
      TrackedGrows(brandOf, loaded, events, Registered(id));
      Recorded(Registered(id));
      hide Holds, Tracked, FailureRun, AllPollable, FindIndex;
      OtherLists(id, before + {id});
      var inverter := Inverter(id, brandOf(id));
      var list := ArrayForBrand(inverter.brand);
      events := events + [Registered(id)];
      if FindIndex(list, id).Some? {
        if inverter.brand != DEYE { FoundIffTracked(list, before, inverter.brand, brandOf, id); }
        assert before + {id} == before;
        return;
      }
      Push(inverter, before);
    }

    /** Appends to the list of the brand: for DEYE that is a fresh array, lost at once. */
    method Push(inverter: Inverter, ghost before: set<InverterId>)
      requires FindIndex(ArrayForBrand(inverter.brand), inverter.id).None? && inverter.brand == brandOf(inverter.id)
      requires inverter.brand != DEYE ==> Holds(ArrayForBrand(inverter.brand), before, inverter.brand, brandOf)
      modifies this`victronInverters, this`growattInverters, this`sunsynkInverters, this`sandboxInverters
      ensures inverter.brand != DEYE ==> Holds(ArrayForBrand(inverter.brand), before + {inverter.id}, inverter.brand, brandOf)
      ensures inverter.brand != VICTRON ==> victronInverters == old(victronInverters)
      ensures inverter.brand != GROWATT ==> growattInverters == old(growattInverters)
      ensures inverter.brand != SUNSYNK ==> sunsynkInverters == old(sunsynkInverters)
      ensures inverter.brand != SANDBOX ==> sandboxInverters == old(sandboxInverters)
    {
      hide Holds, FindIndex;
      if inverter.brand != DEYE { PushedHolds(ArrayForBrand(inverter.brand), inverter, before, brandOf); }
      match inverter.brand
      case VICTRON => victronInverters := victronInverters + [inverter];
      case GROWATT => growattInverters := growattInverters + [inverter];
      case SUNSYNK => sunsynkInverters := sunsynkInverters + [inverter];
      case SANDBOX => sandboxInverters := sandboxInverters + [inverter];
      case DEYE =>
    }

    ghost function Position(id: InverterId): (k: nat)
      requires ListsValid() && id in TrackedNow()
      reads this
      ensures k < |ArrayForBrand(brandOf(id))| && ArrayForBrand(brandOf(id))[k].id == id
    {
      FindIndex(ArrayForBrand(brandOf(id)), id).value
    }

    /** Each entry of a list is tracked, of that brand, and nowhere else in the list. */
    lemma InOwnList(b: Brand, j: nat)
      requires ListsValid() && j < |ArrayForBrand(b)|
      ensures var i := ArrayForBrand(b)[j];
              && i.id in TrackedNow() && brandOf(i.id) == b
              && forall k: nat :: k < |ArrayForBrand(b)| && ArrayForBrand(b)[k].id == i.id ==> k == j
    {
      hide Tracked, AllPollable, FindIndex;
      var list := ArrayForBrand(b);
      assert Holds(list, TrackedNow(), b, brandOf);
    }

    /** Over the four lists together, a tracked inverter is in one place, and an untracked one in none. */
    lemma OnePlace(id: InverterId)
      requires ListsValid()
      ensures id in TrackedNow() <==> exists b: Brand, k: nat :: k < |ArrayForBrand(b)| && ArrayForBrand(b)[k].id == id
      ensures forall b: Brand, c: Brand, j: nat, k: nat ::
                j < |ArrayForBrand(b)| && k < |ArrayForBrand(c)| && ArrayForBrand(b)[j].id == id && ArrayForBrand(c)[k].id == id
                ==> b == c == brandOf(id) && j == k
    {
      hide ListsValid, TrackedNow;
      if id in TrackedNow() { assert ArrayForBrand(brandOf(id))[Position(id)].id == id; }
      forall b: Brand, j: nat | j < |ArrayForBrand(b)| && ArrayForBrand(b)[j].id == id
        ensures id in TrackedNow() && brandOf(id) == b
        ensures forall k: nat :: k < |ArrayForBrand(b)| && ArrayForBrand(b)[k].id == id ==> k == j
      {
        InOwnList(b, j);
      }
    }

    /** Every run changes as RunGrows says. */
    lemma Recorded(e: Event)
      ensures forall id: InverterId ::
                FailureRun(brandOf, loaded, events + [e], id)
                == if e.id != id || e.Registered? then RunNow(id)
                   else if e.Deregistered? then (if id in TrackedNow() then 0 else RunNow(id))
                   else if e.Fetched? then 0
                   else RunNow(id) + 1
    {
      forall id: InverterId { RunGrows(brandOf, loaded, events, e, id); }
    }

    method HandleInverterDeregistered(id: InverterId)
      requires ListsValid() && CountsValid()
      modifies this
      ensures ListsValid() && CountsValid()
      ensures events == old(events) + [Deregistered(id)] && id !in TrackedNow()
    {
      ghost var before := TrackedNow();
      TrackedGrows(brandOf, loaded, events, Deregistered(id));
      Recorded(Deregistered(id));
      hide Tracked, FailureRun, FindIndex, Holds, AllPollable;
      OtherLists(id, before - {id});
      var k := 0;
      while k < |BRANDS|
        invariant 0 <= k <= |BRANDS|
        invariant unchanged(this)
        invariant forall j :: 0 <= j < k ==> FindIndex(ArrayForBrand(BRANDS[j]), id).None?
      {
        var brand := BRANDS[k];
        var arr := ArrayForBrand(brand);
        var idx := FindIndex(arr, id);
        if idx.Some? {
          SplicedFromOwnList(arr, idx.value, before, brand, brandOf);
          arr := Spliced(arr, idx.value);
          events := events + [Deregistered(id)];
          failureCounts := failureCounts - {id};
          if brand == VICTRON { victronInverters := arr; }
          else if brand == GROWATT { growattInverters := arr; }
          else if brand == SUNSYNK { sunsynkInverters := arr; }
          else { sandboxInverters := arr; }
          return;
        }
        k := k + 1;
      }
      NowhereFound(id);
      assert before - {id} == before;
      events := events + [Deregistered(id)];
    }

    lemma NowhereFound(id: InverterId)
      requires ListsValid()
      requires forall j :: 0 <= j < |BRANDS| ==> FindIndex(ArrayForBrand(BRANDS[j]), id).None?
      ensures id !in TrackedNow()
    {
      hide Tracked, FindIndex, Holds;
      assert BRANDS[0] == VICTRON && BRANDS[1] == GROWATT && BRANDS[2] == SUNSYNK && BRANDS[4] == SANDBOX;
      if id in TrackedNow() {
        FoundIffTracked(ArrayForBrand(brandOf(id)), TrackedNow(), brandOf(id), brandOf, id);
      }
    }

    /** The fetch came back: the count starts again from zero. */
    method FetchSucceeded(id: InverterId)
      requires ListsValid() && CountsValid()
      modifies this
      ensures ListsValid() && CountsValid()
      ensures events == old(events) + [Fetched(id)]
    {
      TrackedGrows(brandOf, loaded, events, Fetched(id));
      Recorded(Fetched(id));
      hide Holds, Tracked, FailureRun, AllPollable;
      events := events + [Fetched(id)];
      failureCounts := failureCounts[id := 0];
    }

    /** The catch block: count the failure, and mark the inverter offline from the third on. */
    method PollFailed(id: InverterId) returns (markedOffline: bool)
      requires ListsValid() && CountsValid()
      modifies this
      ensures ListsValid() && CountsValid()
      ensures events == old(events) + [Failed(id)]
      ensures markedOffline <==> RunNow(id) >= 3
    {
      TrackedGrows(brandOf, loaded, events, Failed(id));
      Recorded(Failed(id));
      hide Holds, Tracked, FailureRun, AllPollable;
      var fetchInverterFailures := if id in failureCounts then failureCounts[id] else 0;
      failureCounts := failureCounts[id := fetchInverterFailures + 1];
      markedOffline := fetchInverterFailures >= 2;
      events := events + [Failed(id)];
    }

    /** One poll with nothing else in between. A rejected markOnline counts from zero, so it never marks. */
    method PollOne(id: InverterId, outcome: Outcome) returns (markedOffline: bool)
      requires ListsValid() && CountsValid()
      modifies this
      ensures ListsValid() && CountsValid()
      ensures events == old(events) + match outcome
                                      case DecryptFails => []
                                      case FetchFails => [Failed(id)]
                                      case MarkOnlineFails => [Fetched(id), Failed(id)]
                                      case Online => [Fetched(id)]
      ensures markedOffline <==> outcome.FetchFails? && old(RunNow(id)) >= 2
    {
      hide Holds, Tracked, AllPollable;
      RunGrows(brandOf, loaded, events, Failed(id), id);
      markedOffline := false;
      if outcome.DecryptFails? { return; }
      if outcome.FetchFails? {
        markedOffline := PollFailed(id);
      } else {
        RunGrows(brandOf, loaded, events, Fetched(id), id);
        FetchSucceeded(id);
        if outcome.MarkOnlineFails? {
          RunGrows(brandOf, loaded, events, Failed(id), id);
          markedOffline := PollFailed(id);
        }
      }
    }
  }
}
