/**
 The reports table and its updates (report.action.ts). Every update also stamps `updatedAt`, as the
 entity's update column does. The functions are the specifications of the class's methods and the
 atomic steps of the protocol in ReportLifecycle.
 */
module ReportTable {
  import opened Wrappers

  datatype Status = PENDING | PROCESSING | READY | FAILED | CANCELLED

  predicate Terminal(st: Status) { st == READY || st == FAILED || st == CANCELLED }

  datatype Row = Row(occurrence: nat, reference: int, status: Status, updatedAt: int, delivered: Option<int>)

  function Stamp(row: Row, status: Status, now: int): Row {
    row.(status := status, updatedAt := now)
  }

  function SetStatus(rows: seq<Row>, id: nat, status: Status, now: int): seq<Row> {
    if id < |rows| then rows[id := Stamp(rows[id], status, now)] else rows
  }

  /** The compare-and-set: it moves a report out of PENDING or does nothing. */
  function CasStatus(rows: seq<Row>, id: nat, status: Status, now: int): seq<Row> {
    if id < |rows| && rows[id].status == PENDING then SetStatus(rows, id, status, now) else rows
  }

  function WriteReport(rows: seq<Row>, id: nat, status: Status, delivered: Option<int>, now: int): seq<Row> {
    if id >= |rows| then rows else
    var row := Stamp(rows[id], status, now);
    rows[id := if delivered.Some? then row.(delivered := delivered) else row]
  }

  predicate Stalled(row: Row, threshold: int) { row.status == PROCESSING && row.updatedAt < threshold }

  function ResetRow(row: Row, threshold: int, now: int): Row {
    if Stalled(row, threshold) then Stamp(row, PENDING, now) else row
  }

  function ResetStalled(rows: seq<Row>, threshold: int, now: int): (r: seq<Row>)
    ensures |r| == |rows| && forall i :: 0 <= i < |rows| ==> r[i] == ResetRow(rows[i], threshold, now)
  {
    seq(|rows|, i requires 0 <= i < |rows| => ResetRow(rows[i], threshold, now))
  }

  function CountStalled(rows: seq<Row>, threshold: int): nat {
    |set i | 0 <= i < |rows| && Stalled(rows[i], threshold)|
  }

  /** Nothing but the report `id` differs, and of that one only what an update writes. */
  predicate OnlyChanges(before: seq<Row>, after: seq<Row>, id: nat) {
    && |after| == |before|
    && (forall i :: 0 <= i < |before| && i != id ==> after[i] == before[i])
    && (id < |before| ==> after[id].occurrence == before[id].occurrence && after[id].reference == before[id].reference)
  }

  /** A claim of report `id` would succeed, now or until another update. */
  predicate Claimable(rows: seq<Row>, id: nat) { id < |rows| && rows[id].status == PENDING }

  /** Out of reach of both updates that look at the status: no claim, cancellation or cron changes it. */
  ghost predicate OutOfReach(rows: seq<Row>, id: nat) {
    && (forall status, now :: CasStatus(rows, id, status, now) == rows)
    && (forall threshold, now :: id < |rows| ==> ResetStalled(rows, threshold, now)[id] == rows[id])
  }

  lemma OutOfReachIff(rows: seq<Row>, id: nat)
    requires id < |rows|
    ensures OutOfReach(rows, id) <==> Terminal(rows[id].status)
  {
    if Terminal(rows[id].status) {
      forall threshold, now ensures ResetStalled(rows, threshold, now)[id] == rows[id] {}
    } else if rows[id].status == PENDING {
      assert CasStatus(rows, id, CANCELLED, 0) != rows by { assert CasStatus(rows, id, CANCELLED, 0)[id] != rows[id]; }
    } else {
      assert ResetStalled(rows, rows[id].updatedAt + 1, 0)[id] != rows[id];
    }
  }

  /** How many rows an update changed. */
  ghost function Changed(before: seq<Row>, after: seq<Row>): set<int>
    requires |after| == |before|
  {
    set i | 0 <= i < |before| && after[i] != before[i]
  }

  /** A reset changes exactly the stalled rows, makes them claimable, and leaves none stalled. */
  lemma ResetReopens(rows: seq<Row>, threshold: int, now: int)
    ensures var after := ResetStalled(rows, threshold, now);
            && CountStalled(rows, threshold) == |Changed(rows, after)|
            && CountStalled(after, threshold) == 0
            && (forall i: nat :: i < |rows| && Stalled(rows[i], threshold) ==> Claimable(after, i))
            && (forall i: nat :: i < |rows| && !Stalled(rows[i], threshold) ==> after[i] == rows[i])
  {
    var after := ResetStalled(rows, threshold, now);
    assert Changed(rows, after) == set i | 0 <= i < |rows| && Stalled(rows[i], threshold);
    assert (set i | 0 <= i < |after| && Stalled(after[i], threshold)) == {};
  }

  class ReportModelAction {
    var rows: seq<Row>

    /** It overwrites any status. Afterwards the report can be claimed exactly if it was put back to PENDING. */
    method UpdateReportStatusUnconditional(id: nat, status: Status, now: int)
      modifies this
      ensures rows == SetStatus(old(rows), id, status, now)
      ensures OnlyChanges(old(rows), rows, id)
      ensures Claimable(rows, id) <==> id < |old(rows)| && status == PENDING
      ensures id < |old(rows)| ==> (OutOfReach(rows, id) <==> Terminal(status))
      ensures id < |old(rows)| ==> forall threshold :: Stalled(rows[id], threshold) <==> status == PROCESSING && now < threshold
    {
      if id < |rows| {
        rows := rows[id := Stamp(rows[id], status, now)];
        OutOfReachIff(rows, id);
      }
    }

    method UpdateReportStatus(id: nat, status: Status, now: int) returns (updated: Option<Row>)
      modifies this
      ensures rows == CasStatus(old(rows), id, status, now)
      ensures updated.Some? <==> id < |old(rows)| && old(rows)[id].status == PENDING
      ensures updated.Some? ==> updated.value == rows[id] && rows[id].status == status
    {
      var affected := 0;
      if id < |rows| && rows[id].status == PENDING {
        rows := rows[id := Stamp(rows[id], status, now)];
        affected := 1;
      }
      if affected == 0 { return None; }
      return Some(rows[id]);
    }

    /** As above, and the delivery date stays as it was unless one is given. */
    method UpdateReport(id: nat, status: Status, dateDelivered: Option<int>, now: int)
      modifies this
      ensures rows == WriteReport(old(rows), id, status, dateDelivered, now)
      ensures OnlyChanges(old(rows), rows, id)
      ensures id < |old(rows)| ==>
                rows[id].delivered == if dateDelivered.Some? then dateDelivered else old(rows)[id].delivered
      ensures id < |old(rows)| ==> (OutOfReach(rows, id) <==> Terminal(status))
      ensures Claimable(rows, id) <==> id < |old(rows)| && status == PENDING
    {
      if id < |rows| {
        var row := Stamp(rows[id], status, now);
        if dateDelivered.Some? { row := row.(delivered := dateDelivered); }
        rows := rows[id := row];
        OutOfReachIff(rows, id);
      }
    }

    /** The count is that of the rows changed; each of them can be claimed again, and none is left stalled. */
    method ResetStalledProcessingReports(threshold: int, now: int) returns (count: nat)
      modifies this
      ensures rows == ResetStalled(old(rows), threshold, now)
      ensures count == |Changed(old(rows), rows)| && CountStalled(rows, threshold) == 0
      ensures forall i: nat :: i < |old(rows)| && old(rows)[i].status == PROCESSING && old(rows)[i].updatedAt < threshold ==>
                Claimable(rows, i)
      ensures forall i: nat :: i < |old(rows)| && !(old(rows)[i].status == PROCESSING && old(rows)[i].updatedAt < threshold) ==>
                rows[i] == old(rows)[i]
    {
      ResetReopens(rows, threshold, now);
      count := CountStalled(rows, threshold);
      rows := ResetStalled(rows, threshold, now);
    }
  }
}
