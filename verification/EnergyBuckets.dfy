/**
 Readings grouped by hour, day, week or month, as the savings queries group them
 (inverters-metrics.service.ts): a SQL GROUP BY with sums of load and solar power and a count of
 distinct hours, in ascending order of bucket. Times are local.
 */
module EnergyBuckets {
  import opened Calendar
  import opened PeriodRanges
  import opened Wrappers

  datatype Reading = Reading(at: int, loadKw: real, solarGenKw: real)

  datatype Granularity = HourBucket | DayBucket | WeekBucket | MonthBucket

  datatype Row = Row(bucket: int, loadKw: real, solarGenKw: real, hours: set<int>)

  const MS_PER_HOUR: int := 3_600_000

  function HourOf(t: int): int { t / MS_PER_HOUR }

  /** DATE_TRUNC in local time; weeks begin on Monday. */
  function Bucket(g: Granularity, t: int): int {
    match g
    case HourBucket => HourOf(t) * MS_PER_HOUR
    case DayBucket => MakeDate(Day(t), 0)
    case WeekBucket => MakeDate(MondayOnOrBefore(Day(t)), 0)
    case MonthBucket => MakeDate(MakeDay(YearOf(Day(t)), MonthOf(Day(t)), 1), 0)
  }

  function Single(key: int, r: Reading): Row { Row(key, r.loadKw, r.solarGenKw, {HourOf(r.at)}) }

  function Joined(row: Row, r: Reading): Row {
    Row(row.bucket, row.loadKw + r.loadKw, row.solarGenKw + r.solarGenKw, row.hours + {HourOf(r.at)})
  }

  function Insert(rows: seq<Row>, key: int, r: Reading): seq<Row> {
    if rows == [] || key < rows[0].bucket then [Single(key, r)] + rows
    else if key == rows[0].bucket then [Joined(rows[0], r)] + rows[1..]
    else [rows[0]] + Insert(rows[1..], key, r)
  }

  function GroupBy(readings: seq<Reading>, g: Granularity): seq<Row> {
    if readings == [] then [] else
    var r := readings[|readings| - 1];
    Insert(GroupBy(readings[..|readings| - 1], g), Bucket(g, r.at), r)
  }

  // ---- What a grouping is -----------------------------------------------------------------------

  function InBucket(readings: seq<Reading>, g: Granularity, bucket: int): seq<Reading> {
    if readings == [] then [] else
    var r := readings[|readings| - 1];
    InBucket(readings[..|readings| - 1], g, bucket) + if Bucket(g, r.at) == bucket then [r] else []
  }

  function SumLoad(readings: seq<Reading>): real {
    if readings == [] then 0.0 else SumLoad(readings[..|readings| - 1]) + readings[|readings| - 1].loadKw
  }

  function SumSolar(readings: seq<Reading>): real {
    if readings == [] then 0.0 else SumSolar(readings[..|readings| - 1]) + readings[|readings| - 1].solarGenKw
  }

  function HoursOf(readings: seq<Reading>): set<int> {
    if readings == [] then {} else HoursOf(readings[..|readings| - 1]) + {HourOf(readings[|readings| - 1].at)}
  }

  predicate Ascending(rows: seq<Row>) { forall i, j :: 0 <= i < j < |rows| ==> rows[i].bucket < rows[j].bucket }

  lemma InBucketGrows(readings: seq<Reading>, r: Reading, g: Granularity, bucket: int)
    ensures InBucket(readings + [r], g, bucket) == InBucket(readings, g, bucket) + if Bucket(g, r.at) == bucket then [r] else []
  {
    assert (readings + [r])[..|readings|] == readings;
  }

  lemma SumsGrow(readings: seq<Reading>, r: Reading)
    ensures SumLoad(readings + [r]) == SumLoad(readings) + r.loadKw
    ensures SumSolar(readings + [r]) == SumSolar(readings) + r.solarGenKw
    ensures HoursOf(readings + [r]) == HoursOf(readings) + {HourOf(r.at)}
  {
    assert (readings + [r])[..|readings|] == readings;
  }

  /** The row of a bucket, if there is one. */
  function RowAt(rows: seq<Row>, key: int): Option<Row> {
    if rows == [] then None else if rows[0].bucket == key then Some(rows[0]) else RowAt(rows[1..], key)
  }

  predicate Above(rows: seq<Row>, key: int) { forall i :: 0 <= i < |rows| ==> rows[i].bucket > key }

  lemma AscendingCons(row: Row, rest: seq<Row>)
    requires Above(rest, row.bucket) && Ascending(rest)
    ensures Ascending([row] + rest)
  {
  }

  lemma {:induction false} InsertAbove(rows: seq<Row>, key: int, r: Reading, floor: int)
    requires Above(rows, floor) && key > floor
    ensures Above(Insert(rows, key, r), floor)
  {
    if rows != [] && key > rows[0].bucket { InsertAbove(rows[1..], key, r, floor); }
  }

  lemma {:induction false} InsertAscending(rows: seq<Row>, key: int, r: Reading)
    requires Ascending(rows)
    ensures Ascending(Insert(rows, key, r))
  {
    if rows != [] && key > rows[0].bucket {
      InsertAscending(rows[1..], key, r);
      InsertAbove(rows[1..], key, r, rows[0].bucket);
      AscendingCons(rows[0], Insert(rows[1..], key, r));
    }
  }

  lemma {:induction false} NoneAbove(rows: seq<Row>, key: int)
    requires Above(rows, key)
    ensures RowAt(rows, key) == None
  {
    if rows != [] { NoneAbove(rows[1..], key); }
  }

  /** Inserting a reading changes the row of its bucket alone. */
  lemma {:induction false} InsertAt(rows: seq<Row>, key: int, r: Reading, k: int)
    requires Ascending(rows)
    ensures var was := RowAt(rows, k);
            RowAt(Insert(rows, key, r), k)
            == if k != key then was else Some(if was.None? then Single(key, r) else Joined(was.value, r))
  {
    if rows != [] {
      if key < rows[0].bucket {
        NoneAbove(rows, key);
        assert ([Single(key, r)] + rows)[1..] == rows;
      } else if key == rows[0].bucket {
        assert ([Joined(rows[0], r)] + rows[1..])[1..] == rows[1..];
      } else {
        InsertAt(rows[1..], key, r, k);
        assert ([rows[0]] + Insert(rows[1..], key, r))[1..] == Insert(rows[1..], key, r);
      }
    }
  }

  function Summary(readings: seq<Reading>, g: Granularity, bucket: int): Option<Row> {
    var own := InBucket(readings, g, bucket);
    if own == [] then None else Some(Row(bucket, SumLoad(own), SumSolar(own), HoursOf(own)))
  }

  lemma SummaryGrows(readings: seq<Reading>, r: Reading, g: Granularity, k: int)
    ensures var was := Summary(readings, g, k);
            Summary(readings + [r], g, k)
            == if Bucket(g, r.at) != k then was else Some(if was.None? then Single(k, r) else Joined(was.value, r))
  {
    hide Bucket, HourOf;
    InBucketGrows(readings, r, g, k);
    var own := InBucket(readings, g, k);
    SumsGrow(own, r);
    assert own + [] == own;
    if own == [] {
      assert SumLoad(own) == 0.0 && SumSolar(own) == 0.0;
      assert HoursOf(own) + {HourOf(r.at)} == {HourOf(r.at)};
      assert own + [r] != [];
    }
  }

  lemma {:induction false} GroupByAt(readings: seq<Reading>, g: Granularity, k: int)
    ensures Ascending(GroupBy(readings, g)) && RowAt(GroupBy(readings, g), k) == Summary(readings, g, k)
  {
    hide Bucket, Insert, RowAt, Ascending, Single, Joined;
    if readings != [] {
      var (rest, r) := (readings[..|readings| - 1], readings[|readings| - 1]);
      GroupByAt(rest, g, k);
      InsertAscending(GroupBy(rest, g), Bucket(g, r.at), r);
      InsertAt(GroupBy(rest, g), Bucket(g, r.at), r, k);
      SummaryGrows(rest, r, g, k);
      assert rest + [r] == readings;
    } else {
      NothingGrouped(g, k);
    }
  }

  lemma NothingGrouped(g: Granularity, k: int)
    ensures Ascending(GroupBy([], g)) && RowAt(GroupBy([], g), k) == Summary([], g, k)
  {
  }

  lemma {:induction false} RowOfAscending(rows: seq<Row>, i: nat)
    requires Ascending(rows) && i < |rows|
    ensures RowAt(rows, rows[i].bucket) == Some(rows[i])
  {
    if i > 0 { RowOfAscending(rows[1..], i - 1); }
  }

  lemma {:induction false} RowAtIsRow(rows: seq<Row>, key: int)
    requires RowAt(rows, key).Some?
    ensures RowAt(rows, key).value in rows && RowAt(rows, key).value.bucket == key
  {
    if rows[0].bucket != key { RowAtIsRow(rows[1..], key); }
  }

  lemma {:induction false} OwnBucketNotEmpty(readings: seq<Reading>, g: Granularity, i: nat)
    requires i < |readings|
    ensures InBucket(readings, g, Bucket(g, readings[i].at)) != []
  {
    if i < |readings| - 1 { OwnBucketNotEmpty(readings[..|readings| - 1], g, i); }
  }

  /** GROUP BY: ascending buckets, one row for each bucket that has readings, with their sums. */
  lemma GroupByMeaning(readings: seq<Reading>, g: Granularity)
    ensures var rows := GroupBy(readings, g);
            && Ascending(rows)
            && (forall row :: row in rows ==> Summary(readings, g, row.bucket) == Some(row))
            && (forall r :: r in readings ==> exists row :: row in rows && row.bucket == Bucket(g, r.at))
  {
    hide Bucket, Summary, GroupBy;
    var rows := GroupBy(readings, g);
    GroupByAt(readings, g, 0);
    forall row | row in rows ensures Summary(readings, g, row.bucket) == Some(row) {
      var i :| 0 <= i < |rows| && rows[i] == row;
      RowOfAscending(rows, i);
      GroupByAt(readings, g, row.bucket);
    }
    forall r | r in readings ensures exists row :: row in rows && row.bucket == Bucket(g, r.at) {
      var i :| 0 <= i < |readings| && readings[i] == r;
      OwnBucketNotEmpty(readings, g, i);
      HasRow(readings, g, Bucket(g, r.at));
    }
  }

  lemma HasRow(readings: seq<Reading>, g: Granularity, key: int)
    requires InBucket(readings, g, key) != []
    ensures exists row :: row in GroupBy(readings, g) && row.bucket == key
  {
    GroupByAt(readings, g, key);
    RowAtIsRow(GroupBy(readings, g), key);
  }

  // ---- Conservation ---------------------------------------------------------------------------

  function TotalLoad(rows: seq<Row>): real {
    if rows == [] then 0.0 else rows[0].loadKw + TotalLoad(rows[1..])
  }

  function TotalSolar(rows: seq<Row>): real {
    if rows == [] then 0.0 else rows[0].solarGenKw + TotalSolar(rows[1..])
  }

  function TotalHours(rows: seq<Row>): nat {
    if rows == [] then 0 else |rows[0].hours| + TotalHours(rows[1..])
  }

  lemma {:induction false} InsertAddsTo(rows: seq<Row>, key: int, r: Reading)
    ensures TotalLoad(Insert(rows, key, r)) == TotalLoad(rows) + r.loadKw
    ensures TotalSolar(Insert(rows, key, r)) == TotalSolar(rows) + r.solarGenKw
  {
    hide HourOf;
    if rows == [] || key < rows[0].bucket {
      assert ([Single(key, r)] + rows)[1..] == rows;
    } else if key == rows[0].bucket {
      assert ([Joined(rows[0], r)] + rows[1..])[1..] == rows[1..];
    } else {
      InsertAddsTo(rows[1..], key, r);
      assert ([rows[0]] + Insert(rows[1..], key, r))[1..] == Insert(rows[1..], key, r);
    }
  }

  /** Every bucketing has the same totals: those of the readings. */
  lemma {:induction false} TotalsAreOfReadings(readings: seq<Reading>, g: Granularity)
    ensures TotalLoad(GroupBy(readings, g)) == SumLoad(readings)
    ensures TotalSolar(GroupBy(readings, g)) == SumSolar(readings)
  {
    hide Bucket, Insert;
    if readings != [] {
      var (rest, r) := (readings[..|readings| - 1], readings[|readings| - 1]);
      TotalsAreOfReadings(rest, g);
      InsertAddsTo(GroupBy(rest, g), Bucket(g, r.at), r);
    }
  }

  /** No hour straddles two buckets of any size. */
  lemma HourDeterminesBucket(g: Granularity, t: int, u: int)
    requires HourOf(t) == HourOf(u)
    ensures Bucket(g, t) == Bucket(g, u)
  {
    hide YearOf, MonthOf, MakeDay;
    assert Day(t) == HourOf(t) / 24 && Day(u) == HourOf(u) / 24;
  }

  predicate HoursBelong(row: Row, g: Granularity) {
    forall h :: h in row.hours ==> Bucket(g, h * MS_PER_HOUR) == row.bucket
  }

  function AllHours(rows: seq<Row>): set<int> {
    if rows == [] then {} else rows[0].hours + AllHours(rows[1..])
  }

  lemma AfterFirst(rows: seq<Row>, row: Row)
    requires Ascending(rows) && rows != [] && row in rows[1..]
    ensures row.bucket > rows[0].bucket
  {
    var i :| 0 <= i < |rows| - 1 && rows[1..][i] == row;
  }

  lemma {:induction false} HoursAreDisjoint(rows: seq<Row>, g: Granularity)
    requires Ascending(rows) && forall row :: row in rows ==> HoursBelong(row, g)
    ensures TotalHours(rows) == |AllHours(rows)|
    ensures forall h :: h in AllHours(rows) ==> exists row :: row in rows && Bucket(g, h * MS_PER_HOUR) == row.bucket
  {
    hide Bucket;
    if rows != [] {
      HoursAreDisjoint(rows[1..], g);
      assert rows[0] in rows;
      forall h | h in rows[0].hours ensures h !in AllHours(rows[1..]) {
        if h in AllHours(rows[1..]) {
          var row :| row in rows[1..] && Bucket(g, h * MS_PER_HOUR) == row.bucket;
          AfterFirst(rows, row);
        }
      }
      DisjointUnion(rows[0].hours, AllHours(rows[1..]));
    }
  }

  lemma DisjointUnion(a: set<int>, b: set<int>)
    requires a !! b
    ensures |a + b| == |a| + |b|
  {
  }

  lemma {:induction false} InsertAddsHour(rows: seq<Row>, key: int, r: Reading)
    ensures AllHours(Insert(rows, key, r)) == AllHours(rows) + {HourOf(r.at)}
  {
    hide HourOf;
    if rows == [] || key < rows[0].bucket {
      assert ([Single(key, r)] + rows)[1..] == rows;
    } else if key == rows[0].bucket {
      assert ([Joined(rows[0], r)] + rows[1..])[1..] == rows[1..];
    } else {
      InsertAddsHour(rows[1..], key, r);
      assert ([rows[0]] + Insert(rows[1..], key, r))[1..] == Insert(rows[1..], key, r);
    }
  }

  lemma NewHourBelongs(row: Row, r: Reading, g: Granularity)
    requires HoursBelong(row, g) && row.bucket == Bucket(g, r.at)
    ensures HoursBelong(Joined(row, r), g) && HoursBelong(Single(row.bucket, r), g)
  {
    HourDeterminesBucket(g, HourOf(r.at) * MS_PER_HOUR, r.at);
    hide Bucket, HourOf;
  }

  lemma {:induction false} InsertBelongs(rows: seq<Row>, r: Reading, g: Granularity)
    requires forall row :: row in rows ==> HoursBelong(row, g)
    ensures forall row :: row in Insert(rows, Bucket(g, r.at), r) ==> HoursBelong(row, g)
  {
    var key := Bucket(g, r.at);
    NewHourBelongs(Row(key, 0.0, 0.0, {}), r, g);
    hide Bucket, HourOf, HoursBelong, Single, Joined;
    if rows != [] {
      if key == rows[0].bucket { NewHourBelongs(rows[0], r, g); }
      if key > rows[0].bucket { InsertBelongs(rows[1..], r, g); }
    }
  }

  lemma {:induction false} GroupByHours(readings: seq<Reading>, g: Granularity)
    ensures AllHours(GroupBy(readings, g)) == HoursOf(readings)
    ensures forall row :: row in GroupBy(readings, g) ==> HoursBelong(row, g)
  {
    hide Bucket, HourOf, HoursBelong, Insert;
    if readings != [] {
      var (rest, r) := (readings[..|readings| - 1], readings[|readings| - 1]);
      GroupByHours(rest, g);
      InsertAddsHour(GroupBy(rest, g), Bucket(g, r.at), r);
      InsertBelongs(GroupBy(rest, g), r, g);
    }
  }

  /** Summing the active hours of the buckets counts each active hour once, at any bucket size. */
  lemma ActiveHoursConserved(readings: seq<Reading>, g: Granularity)
    ensures TotalHours(GroupBy(readings, g)) == |HoursOf(readings)|
  {
    GroupByAt(readings, g, 0);
    GroupByHours(readings, g);
    hide GroupBy, HoursBelong, AllHours;
    HoursAreDisjoint(GroupBy(readings, g), g);
  }
}
