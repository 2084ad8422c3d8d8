/**
 The usage report by month (`UsageReport._create_default` and
 `UsageReport._build_month_report`): per-month rollups of completed jobs,
 sessions and stored megabytes are merged into buckets keyed by
 `str(year) + str(month)`, and the buckets are then laid out month by
 month from the first known month to the last, with a zero bucket for
 every month that has none.
 */
module Usage {
  import opened Wrappers
  import opened Dates
  import Decimal
  import opened Aggregation
  import opened ReportParams

  /** One month's usage. `fileMbs` is an exact sum (no floating-point rounding). */
  datatype Bucket = Bucket(year: Year, month: MonthOfYear, gearExecutionCount: int, sessionCount: int, fileMbs: real)

  /** The object `_create_default(month, year)` returns. */
  function ZeroBucket(year: Year, month: MonthOfYear): (b: Bucket)
    ensures b.year == year && b.month == month
    ensures b.gearExecutionCount == 0 && b.sessionCount == 0 && b.fileMbs == 0.0
  {
    Bucket(year, month, 0, 0, 0.0)
  }

  /** The report's key for a month: `str(year) + str(month)`. */
  function Key(year: Year, month: MonthOfYear): string {
    Decimal.DecimalString(year) + Decimal.DecimalString(month)
  }

  predicate FourDigit(year: int) {
    1000 <= year <= 9999
  }

  /** For four-digit years the key names one month. */
  lemma KeyInjective(y1: Year, m1: MonthOfYear, y2: Year, m2: MonthOfYear)
    requires FourDigit(y1) && FourDigit(y2)
    requires Key(y1, m1) == Key(y2, m2)
    ensures y1 == y2 && m1 == m2
  {
    Decimal.DecimalStringOfFourDigits(y1);
    Decimal.DecimalStringOfFourDigits(y2);
    var k := Key(y1, m1);
    assert Decimal.DecimalString(y1) == k[..4] == Decimal.DecimalString(y2);
    Decimal.DecimalStringInjective(y1, y2);
    assert Decimal.DecimalString(m1) == k[4..] == Decimal.DecimalString(m2);
    Decimal.DecimalStringInjective(m1, m2);
  }

  /** Without the four-digit bound the key is ambiguous: November of year 1 and January of year 11 share "111". */
  lemma KeyCollision()
    ensures Key(1, 11) == Key(11, 1)
  {
    assert Decimal.DecimalString(11) == Decimal.DecimalString(1) + [Decimal.DigitChar(1)];
  }

  /** One row of a per-month rollup: `{'_id': {'month': m, 'year': y}, <value>}`. */
  datatype RollupRow<T> = RollupRow(year: Year, month: MonthOfYear, value: T)

  /** The report under construction and the known first and last months (`self.first_month`, `self.last_month`). */
  datatype MergeState = MergeState(report: map<string, Bucket>, first: Option<Date>, last: Option<Date>)

  /** `first_month` after `if first_month is None or date < first_month: first_month = date`. */
  function Earliest(bound: Option<Date>, d: Date): (r: Date)
    ensures NotAfter(r, d)
    ensures bound.Some? ==> NotAfter(r, bound.value)
    ensures r == d || bound == Some(r)
  {
    if bound.None? || Before(d, bound.value) then d else bound.value
  }

  /** `last_month` after `if last_month is None or date > last_month: last_month = date`. */
  function Latest(bound: Option<Date>, d: Date): (r: Date)
    ensures NotAfter(d, r)
    ensures bound.Some? ==> NotAfter(bound.value, r)
    ensures r == d || bound == Some(r)
  {
    if bound.None? || Before(bound.value, d) then d else bound.value
  }

  /**
   `report[key] = _create_default(month=month, year=year)`: a zero bucket
   under the month's key, and the known months widened to take in the
   first instant of that month.
   */
  function CreateDefault(st: MergeState, year: Year, month: MonthOfYear): (st': MergeState)
    ensures st'.report == st.report[Key(year, month) := ZeroBucket(year, month)]
    ensures st'.first.Some? && IndexOf(st'.first.value) <= MonthIndex(year, month)
    ensures st'.last.Some? && MonthIndex(year, month) <= IndexOf(st'.last.value)
    ensures st.first.Some? ==> NotAfter(st'.first.value, st.first.value)
    ensures st.last.Some? ==> NotAfter(st.last.value, st'.last.value)
  {
    var d := FirstOfMonth(year, month);
    NotAfterIndex(Earliest(st.first, d), d);
    NotAfterIndex(d, Latest(st.last, d));
    MergeState(st.report[Key(year, month) := ZeroBucket(year, month)], Some(Earliest(st.first, d)), Some(Latest(st.last, d)))
  }

  /** `if key not in report: report[key] = self._create_default(...)`. */
  function EnsureBucket(st: MergeState, year: Year, month: MonthOfYear): (st': MergeState)
    ensures Key(year, month) in st'.report
    ensures Key(year, month) in st.report ==> st' == st
  {
    if Key(year, month) in st.report then st else CreateDefault(st, year, month)
  }

  /**
   The loop over one rollup's rows: each row's bucket is made to exist,
   then `apply` folds the row's value into it. Rows are taken in order.
   */
  function MergeRows<T>(st: MergeState, rows: seq<RollupRow<T>>, apply: (Bucket, T) -> Bucket): (st': MergeState)
    decreases |rows|
  {
    if |rows| == 0 then st
    else
      var st1 := MergeRows(st, rows[..|rows| - 1], apply);
      var row := rows[|rows| - 1];
      var k := Key(row.year, row.month);
      var st2 := EnsureBucket(st1, row.year, row.month);
      st2.(report := st2.report[k := apply(st2.report[k], row.value)])
  }

  /** `report[key]['gear_execution_count'] = r['jobs_completed']`. */
  function SetGearExecutions(b: Bucket, jobsCompleted: int): (b': Bucket)
    ensures b'.gearExecutionCount == jobsCompleted
    ensures b' == b.(gearExecutionCount := b'.gearExecutionCount)
  {
    b.(gearExecutionCount := jobsCompleted)
  }

  /** `report[key]['session_count'] = r['session_count']`. */
  function SetSessionCount(b: Bucket, sessionCount: int): (b': Bucket)
    ensures b'.sessionCount == sessionCount
    ensures b' == b.(sessionCount := b'.sessionCount)
  {
    b.(sessionCount := sessionCount)
  }

  /** `report[key]['file_mbs'] += r['mb_total']`. */
  function AddFileMbs(b: Bucket, mbTotal: real): (b': Bucket)
    ensures b'.fileMbs - b.fileMbs == mbTotal
    ensures b' == b.(fileMbs := b'.fileMbs)
  {
    b.(fileMbs := b.fileMbs + mbTotal)
  }

  function Lookup(report: map<string, Bucket>, k: string): Option<Bucket> {
    if k in report then Some(report[k]) else None
  }

  /**
   The bucket under one key, followed through the rows alone: it starts as
   what the report held (or, at the first row with that key, a zero bucket
   for that row's month), and each row with that key is folded in.
   */
  function FoldKey<T>(b: Option<Bucket>, rows: seq<RollupRow<T>>, k: string, apply: (Bucket, T) -> Bucket): Option<Bucket>
    decreases |rows|
  {
    if |rows| == 0 then b
    else
      var b1 := FoldKey(b, rows[..|rows| - 1], k, apply);
      var row := rows[|rows| - 1];
      if Key(row.year, row.month) == k then Some(apply(b1.GetOr(ZeroBucket(row.year, row.month)), row.value)) else b1
  }

  /** Merging into the whole report is, key by key, the fold of that key's rows. */
  lemma {:induction false} MergeRowsAtKey<T>(st: MergeState, rows: seq<RollupRow<T>>, apply: (Bucket, T) -> Bucket, k: string)
    ensures Lookup(MergeRows(st, rows, apply).report, k) == FoldKey(Lookup(st.report, k), rows, k, apply)
    decreases |rows|
  {
    if |rows| > 0 {
      MergeRowsAtKey(st, rows[..|rows| - 1], apply, k);
    }
  }

  /** Some row of the rollup falls in the month (year, month). */
  predicate HasMonth<T>(rows: seq<RollupRow<T>>, year: int, month: int) {
    exists i :: 0 <= i < |rows| && rows[i].year == year && rows[i].month == month
  }

  /** The value of the last row for the month, if any. */
  function LastInMonth<T>(rows: seq<RollupRow<T>>, year: int, month: int): (r: Option<T>)
    ensures r.Some? <==> HasMonth(rows, year, month)
    decreases |rows|
  {
    if |rows| == 0 then None
    else
      var row := rows[|rows| - 1];
      if row.year == year && row.month == month then Some(row.value)
      else
        var r := LastInMonth(rows[..|rows| - 1], year, month);
        assert HasMonth(rows, year, month) ==> HasMonth(rows[..|rows| - 1], year, month) by {
          if HasMonth(rows, year, month) {
            var i :| 0 <= i < |rows| && rows[i].year == year && rows[i].month == month;
            assert rows[..|rows| - 1][i] == rows[i];
          }
        }
        r
  }

  /** The sum of the values of the rows for the month. */
  function SumInMonth(rows: seq<RollupRow<real>>, year: int, month: int): real
    decreases |rows|
  {
    if |rows| == 0 then 0.0
    else
      var row := rows[|rows| - 1];
      SumInMonth(rows[..|rows| - 1], year, month) + (if row.year == year && row.month == month then row.value else 0.0)
  }

  /** The key of the month (year, month) is the key of a row exactly when the row falls in that month. */
  predicate KeyIdentifiesMonth<T>(rows: seq<RollupRow<T>>, year: Year, month: MonthOfYear) {
    forall i :: 0 <= i < |rows| ==>
      (Key(rows[i].year, rows[i].month) == Key(year, month) <==> rows[i].year == year && rows[i].month == month)
  }

  lemma FourDigitKeysIdentifyMonths<T>(rows: seq<RollupRow<T>>, year: Year, month: MonthOfYear)
    requires FourDigit(year)
    requires forall i :: 0 <= i < |rows| ==> FourDigit(rows[i].year)
    ensures KeyIdentifiesMonth(rows, year, month)
  {
    forall i | 0 <= i < |rows| && Key(rows[i].year, rows[i].month) == Key(year, month)
      ensures rows[i].year == year && rows[i].month == month
    {
      KeyInjective(rows[i].year, rows[i].month, year, month);
    }
  }

  lemma KeyIdentifiesMonthPrefix<T>(rows: seq<RollupRow<T>>, year: Year, month: MonthOfYear)
    requires |rows| > 0 && KeyIdentifiesMonth(rows, year, month)
    ensures KeyIdentifiesMonth(rows[..|rows| - 1], year, month)
  {
    assert forall i :: 0 <= i < |rows| - 1 ==> rows[..|rows| - 1][i] == rows[i];
  }

  /**
   Setting the gear execution count: after the rows, the month's bucket
   holds the last row's value for that month, and its other fields are
   those it started with (zero for a new bucket).
   */
  lemma {:induction false} FoldGearExecutions(b: Option<Bucket>, rows: seq<RollupRow<int>>, year: Year, month: MonthOfYear)
    requires KeyIdentifiesMonth(rows, year, month)
    requires b.Some? ==> b.value.year == year && b.value.month == month
    ensures var r := FoldKey(b, rows, Key(year, month), SetGearExecutions);
      && (r.Some? <==> b.Some? || HasMonth(rows, year, month))
      && (r.Some? ==> r.value.year == year && r.value.month == month)
      && (HasMonth(rows, year, month) ==> r.value.gearExecutionCount == LastInMonth(rows, year, month).value)
      && (!HasMonth(rows, year, month) ==> r == b)
      && (r.Some? ==> r.value.sessionCount == (if b.Some? then b.value.sessionCount else 0))
      && (r.Some? ==> r.value.fileMbs == (if b.Some? then b.value.fileMbs else 0.0))
    decreases |rows|
  {
    if |rows| > 0 {
      KeyIdentifiesMonthPrefix(rows, year, month);
      FoldGearExecutions(b, rows[..|rows| - 1], year, month);
      HasMonthSplit(rows, year, month);
    }
  }

  /** The same for the session count. */
  lemma {:induction false} FoldSessionCount(b: Option<Bucket>, rows: seq<RollupRow<int>>, year: Year, month: MonthOfYear)
    requires KeyIdentifiesMonth(rows, year, month)
    requires b.Some? ==> b.value.year == year && b.value.month == month
    ensures var r := FoldKey(b, rows, Key(year, month), SetSessionCount);
      && (r.Some? <==> b.Some? || HasMonth(rows, year, month))
      && (r.Some? ==> r.value.year == year && r.value.month == month)
      && (HasMonth(rows, year, month) ==> r.value.sessionCount == LastInMonth(rows, year, month).value)
      && (!HasMonth(rows, year, month) ==> r == b)
      && (r.Some? ==> r.value.gearExecutionCount == (if b.Some? then b.value.gearExecutionCount else 0))
      && (r.Some? ==> r.value.fileMbs == (if b.Some? then b.value.fileMbs else 0.0))
    decreases |rows|
  {
    if |rows| > 0 {
      KeyIdentifiesMonthPrefix(rows, year, month);
      FoldSessionCount(b, rows[..|rows| - 1], year, month);
      HasMonthSplit(rows, year, month);
    }
  }

  /** Accumulating megabytes: the month's bucket gains the sum of that month's rows; its counts are untouched. */
  lemma {:induction false} FoldFileMbs(b: Option<Bucket>, rows: seq<RollupRow<real>>, year: Year, month: MonthOfYear)
    requires KeyIdentifiesMonth(rows, year, month)
    requires b.Some? ==> b.value.year == year && b.value.month == month
    ensures var r := FoldKey(b, rows, Key(year, month), AddFileMbs);
      && (r.Some? <==> b.Some? || HasMonth(rows, year, month))
      && (r.Some? ==> r.value.year == year && r.value.month == month)
      && (r.Some? ==> r.value.fileMbs == (if b.Some? then b.value.fileMbs else 0.0) + SumInMonth(rows, year, month))
      && (!HasMonth(rows, year, month) ==> r == b)
      && (r.Some? ==> r.value.gearExecutionCount == (if b.Some? then b.value.gearExecutionCount else 0))
      && (r.Some? ==> r.value.sessionCount == (if b.Some? then b.value.sessionCount else 0))
    decreases |rows|
  {
    if |rows| > 0 {
      KeyIdentifiesMonthPrefix(rows, year, month);
      FoldFileMbs(b, rows[..|rows| - 1], year, month);
      HasMonthSplit(rows, year, month);
      if !HasMonth(rows[..|rows| - 1], year, month) {
        SumInMonthNone(rows[..|rows| - 1], year, month);
      }
    }
  }

  lemma HasMonthSplit<T>(rows: seq<RollupRow<T>>, year: int, month: int)
    requires |rows| > 0
    ensures HasMonth(rows, year, month) <==>
      HasMonth(rows[..|rows| - 1], year, month) || (rows[|rows| - 1].year == year && rows[|rows| - 1].month == month)
  {
    var init := rows[..|rows| - 1];
    if HasMonth(init, year, month) {
      var i :| 0 <= i < |init| && init[i].year == year && init[i].month == month;
      assert rows[i] == init[i];
    }
    if HasMonth(rows, year, month) && !(rows[|rows| - 1].year == year && rows[|rows| - 1].month == month) {
      var i :| 0 <= i < |rows| && rows[i].year == year && rows[i].month == month;
      assert init[i] == rows[i];
    }
  }

  lemma {:induction false} SumInMonthNone(rows: seq<RollupRow<real>>, year: int, month: int)
    requires !HasMonth(rows, year, month)
    ensures SumInMonth(rows, year, month) == 0.0
    decreases |rows|
  {
    if |rows| > 0 {
      HasMonthSplit(rows, year, month);
      SumInMonthNone(rows[..|rows| - 1], year, month);
    }
  }

  /**
   Every bucket of the report sits under its own month's key, inside the
   known months.
   */
  ghost predicate Placed(st: MergeState) {
    forall k :: k in st.report ==>
      && Key(st.report[k].year, st.report[k].month) == k
      && st.first.Some? && st.last.Some?
      && IndexOf(st.first.value) <= MonthIndex(st.report[k].year, st.report[k].month) <= IndexOf(st.last.value)
  }

  /** `apply` leaves a bucket's month alone. */
  ghost predicate KeepsMonth<T(!new)>(apply: (Bucket, T) -> Bucket) {
    forall b, v :: apply(b, v).year == b.year && apply(b, v).month == b.month
  }

  /** Making a bucket exist keeps every bucket placed and only moves the known months outward. */
  lemma EnsureBucketPlaced(st: MergeState, year: Year, month: MonthOfYear)
    requires Placed(st)
    ensures var st' := EnsureBucket(st, year, month);
      && Placed(st')
      && st.report.Keys <= st'.report.Keys
      && (st.first.Some? ==> st'.first.Some? && NotAfter(st'.first.value, st.first.value))
      && (st.last.Some? ==> st'.last.Some? && NotAfter(st.last.value, st'.last.value))
  {
    var k := Key(year, month);
    if k !in st.report {
      var st' := CreateDefault(st, year, month);
      forall k' | k' in st.report
        ensures IndexOf(st'.first.value) <= MonthIndex(st.report[k'].year, st.report[k'].month) <= IndexOf(st'.last.value)
      {
        NotAfterIndex(st'.first.value, st.first.value);
        NotAfterIndex(st.last.value, st'.last.value);
      }
    }
  }

  /** Folding a value into a placed bucket with a month-keeping `apply` keeps the report placed. */
  lemma ApplyPlaced<T(!new)>(st: MergeState, k: string, v: T, apply: (Bucket, T) -> Bucket)
    requires Placed(st) && KeepsMonth(apply) && k in st.report
    ensures Placed(st.(report := st.report[k := apply(st.report[k], v)]))
  {
    var b := st.report[k];
    assert apply(b, v).year == b.year && apply(b, v).month == b.month;
  }

  /** Merging keeps every existing key and puts a bucket under every row's key. */
  lemma {:induction false} MergeRowsKeys<T>(st: MergeState, rows: seq<RollupRow<T>>, apply: (Bucket, T) -> Bucket)
    ensures st.report.Keys <= MergeRows(st, rows, apply).report.Keys
    ensures forall i :: 0 <= i < |rows| ==> Key(rows[i].year, rows[i].month) in MergeRows(st, rows, apply).report
    decreases |rows|
  {
    if |rows| > 0 {
      var init := rows[..|rows| - 1];
      MergeRowsKeys(st, init, apply);
      forall i | 0 <= i < |rows| - 1
        ensures Key(rows[i].year, rows[i].month) in MergeRows(st, rows, apply).report
      {
        assert rows[i] == init[i];
      }
    }
  }

  /**
   Merging keeps every bucket placed, puts a bucket under every row's key,
   and only ever moves the known months outward.
   */
  lemma {:induction false} MergeRowsPlaced<T(!new)>(st: MergeState, rows: seq<RollupRow<T>>, apply: (Bucket, T) -> Bucket)
    requires Placed(st) && KeepsMonth(apply)
    ensures var st' := MergeRows(st, rows, apply);
      && Placed(st')
      && st.report.Keys <= st'.report.Keys
      && (forall i :: 0 <= i < |rows| ==> Key(rows[i].year, rows[i].month) in st'.report)
      && (st.first.Some? ==> st'.first.Some? && NotAfter(st'.first.value, st.first.value))
      && (st.last.Some? ==> st'.last.Some? && NotAfter(st.last.value, st'.last.value))
    decreases |rows|
  {
    MergeRowsKeys(st, rows, apply);
    if |rows| > 0 {
      var init := rows[..|rows| - 1];
      MergeRowsPlaced(st, init, apply);
      var st1 := MergeRows(st, init, apply);
      var row := rows[|rows| - 1];
      EnsureBucketPlaced(st1, row.year, row.month);
      var st2 := EnsureBucket(st1, row.year, row.month);
      ApplyPlaced(st2, Key(row.year, row.month), row.value, apply);
      assert MergeRows(st, rows, apply) == st2.(report := st2.report[Key(row.year, row.month) := apply(st2.report[Key(row.year, row.month)], row.value)]);
      if st.first.Some? {
        BeforeTransitiveNotAfter(st2.first.value, st1.first.value, st.first.value);
      }
      if st.last.Some? {
        BeforeTransitiveNotAfter(st.last.value, st1.last.value, st2.last.value);
      }
    }
  }

  lemma BeforeTransitiveNotAfter(a: Date, b: Date, c: Date)
    requires NotAfter(a, b) && NotAfter(b, c)
    ensures NotAfter(a, c)
  {
  }

  /** The rollups one month report reads: jobs, sessions, then each stored-files rollup in the order run. */
  datatype Rollups = Rollups(
    jobs: AggOutput<RollupRow<int>>,
    sessions: AggOutput<RollupRow<int>>,
    storage: seq<AggOutput<RollupRow<real>>>)

  /** The rows of every storage rollup, in the order they are merged (a failed rollup contributes none). */
  function StorageRows(storage: seq<AggOutput<RollupRow<real>>>): (rows: seq<RollupRow<real>>)
    ensures forall j :: 0 <= j < |storage| ==> forall row :: row in RowsOrEmpty(storage[j]) ==> row in rows
    decreases |storage|
  {
    if |storage| == 0 then []
    else StorageRows(storage[..|storage| - 1]) + RowsOrEmpty(storage[|storage| - 1])
  }

  /** Every storage row comes from one of the storage rollups: the concatenation adds nothing of its own. */
  lemma {:induction false} StorageRowsFromRollups(storage: seq<AggOutput<RollupRow<real>>>)
    ensures forall row :: row in StorageRows(storage) ==> exists j :: 0 <= j < |storage| && row in RowsOrEmpty(storage[j])
    decreases |storage|
  {
    if |storage| > 0 {
      var init := storage[..|storage| - 1];
      StorageRowsFromRollups(init);
      forall row | row in StorageRows(storage)
        ensures exists j :: 0 <= j < |storage| && row in RowsOrEmpty(storage[j])
      {
        if row in StorageRows(init) {
          var j :| 0 <= j < |init| && row in RowsOrEmpty(init[j]);
          assert storage[j] == init[j];
        } else {
          assert row in RowsOrEmpty(storage[|storage| - 1]);
        }
      }
    }
  }

  /** The merge of all rollups, from an empty report and the requested bounds. */
  function MergeAll(first: Option<Date>, last: Option<Date>, rollups: Rollups): MergeState {
    var st0 := MergeState(map[], first, last);
    var st1 := MergeRows(st0, RowsOrEmpty(rollups.jobs), SetGearExecutions);
    var st2 := MergeRows(st1, RowsOrEmpty(rollups.sessions), SetSessionCount);
    MergeRows(st2, StorageRows(rollups.storage), AddFileMbs)
  }

  /** The entry for the month with index `i`: its bucket if the report has one, else a zero bucket. */
  function MonthEntry(report: map<string, Bucket>, i: int): (b: Bucket)
    requires MonthIndex(1, 1) <= i <= MonthIndex(9999, 12)
    ensures Key(YearOfIndex(i), MonthOfIndex(i)) !in report ==>
      b == ZeroBucket(YearOfIndex(i), MonthOfIndex(i))
    ensures Key(YearOfIndex(i), MonthOfIndex(i)) in report ==> b == report[Key(YearOfIndex(i), MonthOfIndex(i))]
  {
    var k := Key(YearOfIndex(i), MonthOfIndex(i));
    if k in report then report[k] else ZeroBucket(YearOfIndex(i), MonthOfIndex(i))
  }

  /** The months with indices `lo .. hi`, one entry each, in order. */
  function MonthWalk(report: map<string, Bucket>, lo: int, hi: int): (r: seq<Bucket>)
    requires MonthIndex(1, 1) <= lo && hi <= MonthIndex(9999, 12)
    ensures |r| == if lo <= hi then hi - lo + 1 else 0
    ensures forall t :: 0 <= t < |r| ==> r[t] == MonthEntry(report, lo + t)
  {
    if lo > hi then [] else seq(hi - lo + 1, t requires 0 <= t < hi - lo + 1 => MonthEntry(report, lo + t))
  }

  /** The loop condition compares the current month with the last one. */
  lemma LoopGuardIsIndex(year: int, month: int, last: Date)
    requires 1 <= month <= 12
    ensures (year < last.year || (month <= last.month && year == last.year)) <==> MonthIndex(year, month) <= IndexOf(last)
  {
  }

  /** One pass of the loop appends the entry of the current month. */
  lemma FillStep(report: map<string, Bucket>, first: Date, year: Year, month: MonthOfYear, out: seq<Bucket>)
    requires MonthIndex(year, month) == IndexOf(first) + |out|
    requires forall t :: 0 <= t < |out| ==> out[t] == MonthEntry(report, IndexOf(first) + t)
    ensures var b := if Key(year, month) in report then report[Key(year, month)] else ZeroBucket(year, month);
      forall t :: 0 <= t < |out| + 1 ==> (out + [b])[t] == MonthEntry(report, IndexOf(first) + t)
  {
    IndexParts(year, month);
    var b := if Key(year, month) in report then report[Key(year, month)] else ZeroBucket(year, month);
    assert b == MonthEntry(report, MonthIndex(year, month));
    forall t | 0 <= t < |out| + 1
      ensures (out + [b])[t] == MonthEntry(report, IndexOf(first) + t)
    {
      if t < |out| {
        assert (out + [b])[t] == out[t];
      }
    }
  }

  /**
   The closing `while` of `_build_month_report`: from the first known
   month to the last, append the month's bucket or a zero bucket, stepping
   the month and rolling into January of the next year after December.
   */
  method FillMonths(report: map<string, Bucket>, first: Date, last: Date) returns (out: seq<Bucket>)
    ensures |out| == if IndexOf(first) <= IndexOf(last) then IndexOf(last) - IndexOf(first) + 1 else 0
    ensures forall t :: 0 <= t < |out| ==> out[t] == MonthEntry(report, IndexOf(first) + t)
    ensures out == MonthWalk(report, IndexOf(first), IndexOf(last))
  {
    var year: int := first.year;
    var month: int := first.month;
    out := [];
    LoopGuardIsIndex(year, month, last);
    while year < last.year || (month <= last.month && year == last.year)
      invariant 1 <= month <= 12 && 1 <= year
      invariant MonthIndex(year, month) == IndexOf(first) + |out|
      invariant |out| == 0 || MonthIndex(year, month) <= IndexOf(last) + 1
      invariant forall t :: 0 <= t < |out| ==> out[t] == MonthEntry(report, IndexOf(first) + t)
      invariant (year < last.year || (month <= last.month && year == last.year)) <==> MonthIndex(year, month) <= IndexOf(last)
      decreases IndexOf(last) - MonthIndex(year, month)
    {
      FillStep(report, first, year, month, out);
      var b := if Key(year, month) in report then report[Key(year, month)] else ZeroBucket(year, month);
      out := out + [b];
      month := month + 1;
      if month == 13 {
        year := year + 1;
        month := 1;
      }
      LoopGuardIsIndex(year, month, last);
    }
    var walk := MonthWalk(report, IndexOf(first), IndexOf(last));
    assert |out| == |walk|;
    assert forall t :: 0 <= t < |out| ==> out[t] == walk[t];
  }

  datatype UsageError =
    | NoMonthBounds        // `self.first_month.month` on None: AttributeError
    | WrongArgumentCount   // a method called with more arguments than it takes: TypeError

  /**
   `_build_month_report`: merge the rollups, then walk the months from the
   first known month to the last. With no first or last month known after
   the merge, the walk raises.
   */
  function BuildMonthReport(first: Option<Date>, last: Option<Date>, rollups: Rollups): (r: Result<seq<Bucket>, UsageError>)
    ensures r.Success? <==> MergeAll(first, last, rollups).first.Some? && MergeAll(first, last, rollups).last.Some?
    ensures r.Success? ==> r.value == MonthWalk(MergeAll(first, last, rollups).report,
      IndexOf(MergeAll(first, last, rollups).first.value), IndexOf(MergeAll(first, last, rollups).last.value))
  {
    var st := MergeAll(first, last, rollups);
    if st.first.None? || st.last.None? then Failure(NoMonthBounds)
    else Success(MonthWalk(st.report, IndexOf(st.first.value), IndexOf(st.last.value)))
  }

  /** One entry of the per-project usage list: the project's id and label, and its usage figures. */
  datatype ProjectUsage = ProjectUsage(id: string, projectLabel: string, sessionCount: int, fileMbs: int, gearExecutionCount: int)

  /** What `UsageReport.build` returns: the month-by-month list, or the per-project list. */
  datatype UsageOutput = ByMonth(months: seq<Bucket>) | ByProject(projects: seq<ProjectUsage>)

  function PlaceholderEntry(projectLabel: string): ProjectUsage {
    ProjectUsage("93024k90283klsjd3", projectLabel, 23, 12329, 238)
  }

  /** `_build_project_report()`: a fixed list of six projects sharing one id and the same figures. */
  const PlaceholderProjects: seq<ProjectUsage> := [
    PlaceholderEntry("Neuroscience"),
    PlaceholderEntry("Test Data"),
    PlaceholderEntry("Psychology"),
    PlaceholderEntry("Depression Study"),
    PlaceholderEntry("Megans Project"),
    PlaceholderEntry("Dans Project")]

  /**
   `UsageReport.build` as written: the project mode calls
   `_build_project_report(query)`, but that method takes no argument besides
   `self`, so the call raises; the month mode builds the month report from
   the rollups of the date query.
   */
  function BuildUsageAsWritten(p: UsageParams, rollups: Rollups): (r: Result<UsageOutput, UsageError>)
    ensures r.Success? <==> p.mode == MonthMode && BuildMonthReport(p.firstMonth, p.lastMonth, rollups).Success?
    ensures r.Success? ==> r.value.ByMonth?
  {
    match p.mode
    case ProjectMode => Failure(WrongArgumentCount)
    case MonthMode =>
      var months :- BuildMonthReport(p.firstMonth, p.lastMonth, rollups);
      Success(ByMonth(months))
  }

  /** Every project-mode usage report raises, whatever the rollups. */
  lemma ProjectModeAlwaysRaises(p: UsageParams, rollups: Rollups)
    requires p.mode == ProjectMode
    ensures BuildUsageAsWritten(p, rollups) == Failure(WrongArgumentCount)
  {
  }

  /**
   `UsageReport.build` with the call matching the method's signature: the
   project mode returns the per-project list, the month mode as before.
   */
  function BuildUsage(p: UsageParams, rollups: Rollups): (r: Result<UsageOutput, UsageError>)
    ensures p.mode == ProjectMode ==> r == Success(ByProject(PlaceholderProjects))
    ensures r.Failure? ==> r.error == NoMonthBounds
  {
    match p.mode
    case ProjectMode => Success(ByProject(PlaceholderProjects))
    case MonthMode =>
      var months :- BuildMonthReport(p.firstMonth, p.lastMonth, rollups);
      Success(ByMonth(months))
  }

  /**
   The corrected build differs from the written one only in the project
   mode: the month reports agree, and the project mode always answers.
   */
  lemma BuildUsageCorrectsProjectMode(p: UsageParams, rollups: Rollups)
    ensures p.mode == MonthMode ==> BuildUsage(p, rollups) == BuildUsageAsWritten(p, rollups)
    ensures p.mode == ProjectMode ==> BuildUsage(p, rollups).Success? && BuildUsageAsWritten(p, rollups).Failure?
  {
  }

  /** Every row of the rollup falls in a four-digit year. */
  predicate RowsFourDigit<T>(rows: seq<RollupRow<T>>) {
    forall i :: 0 <= i < |rows| ==> FourDigit(rows[i].year)
  }

  predicate RollupsFourDigit(rollups: Rollups) {
    && RowsFourDigit(RowsOrEmpty(rollups.jobs))
    && RowsFourDigit(RowsOrEmpty(rollups.sessions))
    && RowsFourDigit(StorageRows(rollups.storage))
  }

  predicate BoundsFourDigit(first: Option<Date>, last: Option<Date>) {
    && (first.Some? ==> FourDigit(first.value.year))
    && (last.Some? ==> FourDigit(last.value.year))
  }

  /** Merging rows of four-digit years leaves the known months in four-digit years. */
  lemma {:induction false} MergeRowsFourDigit<T>(st: MergeState, rows: seq<RollupRow<T>>, apply: (Bucket, T) -> Bucket)
    requires BoundsFourDigit(st.first, st.last) && RowsFourDigit(rows)
    ensures BoundsFourDigit(MergeRows(st, rows, apply).first, MergeRows(st, rows, apply).last)
    decreases |rows|
  {
    if |rows| > 0 {
      var init := rows[..|rows| - 1];
      assert forall i :: 0 <= i < |init| ==> init[i] == rows[i];
      MergeRowsFourDigit(st, init, apply);
    }
  }

  function LastOrZero(rows: seq<RollupRow<int>>, year: int, month: int): int {
    match LastInMonth(rows, year, month)
    case Some(v) => v
    case None => 0
  }

  /** The merged report is placed, and its known months are four-digit when the inputs are. */
  lemma MergeAllPlaced(first: Option<Date>, last: Option<Date>, rollups: Rollups)
    ensures Placed(MergeAll(first, last, rollups))
    ensures first.Some? ==>
      (MergeAll(first, last, rollups).first.Some? && NotAfter(MergeAll(first, last, rollups).first.value, first.value))
    ensures last.Some? ==>
      (MergeAll(first, last, rollups).last.Some? && NotAfter(last.value, MergeAll(first, last, rollups).last.value))
    ensures forall i :: 0 <= i < |RowsOrEmpty(rollups.jobs)| ==>
      Key(RowsOrEmpty(rollups.jobs)[i].year, RowsOrEmpty(rollups.jobs)[i].month) in MergeAll(first, last, rollups).report
    ensures forall i :: 0 <= i < |RowsOrEmpty(rollups.sessions)| ==>
      Key(RowsOrEmpty(rollups.sessions)[i].year, RowsOrEmpty(rollups.sessions)[i].month) in MergeAll(first, last, rollups).report
    ensures forall i :: 0 <= i < |StorageRows(rollups.storage)| ==>
      Key(StorageRows(rollups.storage)[i].year, StorageRows(rollups.storage)[i].month) in MergeAll(first, last, rollups).report
  {
    var st0 := MergeState(map[], first, last);
    var jobs, sessions, storage := RowsOrEmpty(rollups.jobs), RowsOrEmpty(rollups.sessions), StorageRows(rollups.storage);
    var st1 := MergeRows(st0, jobs, SetGearExecutions);
    var st2 := MergeRows(st1, sessions, SetSessionCount);
    MergeRowsPlaced(st0, jobs, SetGearExecutions);
    MergeRowsPlaced(st1, sessions, SetSessionCount);
    MergeRowsPlaced(st2, storage, AddFileMbs);
    var st3 := MergeRows(st2, storage, AddFileMbs);
    if first.Some? {
      BeforeTransitiveNotAfter(st3.first.value, st2.first.value, st1.first.value);
      BeforeTransitiveNotAfter(st3.first.value, st1.first.value, first.value);
    }
    if last.Some? {
      BeforeTransitiveNotAfter(last.value, st1.last.value, st2.last.value);
      BeforeTransitiveNotAfter(last.value, st2.last.value, st3.last.value);
    }
  }

  lemma MergeAllFourDigit(first: Option<Date>, last: Option<Date>, rollups: Rollups)
    requires RollupsFourDigit(rollups) && BoundsFourDigit(first, last)
    ensures BoundsFourDigit(MergeAll(first, last, rollups).first, MergeAll(first, last, rollups).last)
  {
    var st0 := MergeState(map[], first, last);
    var st1 := MergeRows(st0, RowsOrEmpty(rollups.jobs), SetGearExecutions);
    var st2 := MergeRows(st1, RowsOrEmpty(rollups.sessions), SetSessionCount);
    MergeRowsFourDigit(st0, RowsOrEmpty(rollups.jobs), SetGearExecutions);
    MergeRowsFourDigit(st1, RowsOrEmpty(rollups.sessions), SetSessionCount);
    MergeRowsFourDigit(st2, StorageRows(rollups.storage), AddFileMbs);
  }

  /**
   The month report raises exactly when a first or last month was not
   requested and no rollup returned a row to supply one.
   */
  lemma MonthReportNeedsBounds(first: Option<Date>, last: Option<Date>, rollups: Rollups)
    ensures BuildMonthReport(first, last, rollups).Failure? <==>
      && (first.None? || last.None?)
      && RowsOrEmpty(rollups.jobs) == [] && RowsOrEmpty(rollups.sessions) == [] && StorageRows(rollups.storage) == []
  {
    MergeAllPlaced(first, last, rollups);
    var st := MergeAll(first, last, rollups);
    var jobs, sessions, storage := RowsOrEmpty(rollups.jobs), RowsOrEmpty(rollups.sessions), StorageRows(rollups.storage);
    if jobs != [] {
      assert Key(jobs[0].year, jobs[0].month) in st.report;
    } else if sessions != [] {
      assert Key(sessions[0].year, sessions[0].month) in st.report;
    } else if storage != [] {
      assert Key(storage[0].year, storage[0].month) in st.report;
    } else {
      assert st == MergeState(map[], first, last);
    }
  }

  /**
   For a month of a four-digit year, given rollups of four-digit years, the
   merged report's entry holds the last completed-jobs count for that month,
   the last session count, and the sum of its stored megabytes (zero where a
   rollup has no row for it).
   */
  lemma MergedMonth(first: Option<Date>, last: Option<Date>, rollups: Rollups, year: Year, month: MonthOfYear)
    requires RollupsFourDigit(rollups) && FourDigit(year)
    ensures MonthEntry(MergeAll(first, last, rollups).report, MonthIndex(year, month)) == Bucket(year, month,
      LastOrZero(RowsOrEmpty(rollups.jobs), year, month),
      LastOrZero(RowsOrEmpty(rollups.sessions), year, month),
      SumInMonth(StorageRows(rollups.storage), year, month))
  {
    var st := MergeAll(first, last, rollups);
    var k := Key(year, month);
    var jobs, sessions, storage := RowsOrEmpty(rollups.jobs), RowsOrEmpty(rollups.sessions), StorageRows(rollups.storage);
    FourDigitKeysIdentifyMonths(jobs, year, month);
    FourDigitKeysIdentifyMonths(sessions, year, month);
    FourDigitKeysIdentifyMonths(storage, year, month);
    var st0 := MergeState(map[], first, last);
    var st1 := MergeRows(st0, jobs, SetGearExecutions);
    var st2 := MergeRows(st1, sessions, SetSessionCount);
    MergeRowsAtKey(st0, jobs, SetGearExecutions, k);
    MergeRowsAtKey(st1, sessions, SetSessionCount, k);
    MergeRowsAtKey(st2, storage, AddFileMbs, k);
    var b1 := FoldKey(None, jobs, k, SetGearExecutions);
    FoldGearExecutions(None, jobs, year, month);
    var b2 := FoldKey(b1, sessions, k, SetSessionCount);
    FoldSessionCount(b1, sessions, year, month);
    FoldFileMbs(b2, storage, year, month);
    var b3 := FoldKey(b2, storage, k, AddFileMbs);
    assert Lookup(st.report, k) == b3;
    IndexParts(year, month);
    if b3.None? {
      SumInMonthNone(storage, year, month);
    }
  }

  /**
   With four-digit years throughout, the report lists consecutive months
   from the first known month on, and each month's entry holds the last
   completed-jobs count for that month, the last session count, and the
   sum of its stored megabytes (zero where a rollup has no row).
   */
  lemma MonthReportEntries(first: Option<Date>, last: Option<Date>, rollups: Rollups, t: int)
    requires RollupsFourDigit(rollups) && BoundsFourDigit(first, last)
    requires BuildMonthReport(first, last, rollups).Success?
    requires 0 <= t < |BuildMonthReport(first, last, rollups).value|
    ensures var i := IndexOf(MergeAll(first, last, rollups).first.value) + t;
      var year, month := YearOfIndex(i), MonthOfIndex(i);
      && FourDigit(year)
      && BuildMonthReport(first, last, rollups).value[t] == Bucket(year, month,
        LastOrZero(RowsOrEmpty(rollups.jobs), year, month),
        LastOrZero(RowsOrEmpty(rollups.sessions), year, month),
        SumInMonth(StorageRows(rollups.storage), year, month))
  {
    MergeAllFourDigit(first, last, rollups);
    var st := MergeAll(first, last, rollups);
    var i := IndexOf(st.first.value) + t;
    YearOfIndexBetween(st.first.value, st.last.value, i);
    var year, month := YearOfIndex(i), MonthOfIndex(i);
    IndexRoundTrip(i);
    MergedMonth(first, last, rollups, year, month);
  }

  /**
   With four-digit years, every month some rollup reports on lies between
   the first and last known months, so the report has an entry for it.
   */
  lemma MonthReportCoversRows(first: Option<Date>, last: Option<Date>, rollups: Rollups, year: Year, month: MonthOfYear)
    requires RollupsFourDigit(rollups) && BoundsFourDigit(first, last)
    requires || HasMonth(RowsOrEmpty(rollups.jobs), year, month)
             || HasMonth(RowsOrEmpty(rollups.sessions), year, month)
             || HasMonth(StorageRows(rollups.storage), year, month)
    ensures BuildMonthReport(first, last, rollups).Success?
    ensures IndexOf(MergeAll(first, last, rollups).first.value) <= MonthIndex(year, month)
      <= IndexOf(MergeAll(first, last, rollups).last.value)
  {
    MergeAllPlaced(first, last, rollups);
    MergeAllFourDigit(first, last, rollups);
    var st := MergeAll(first, last, rollups);
    var jobs, sessions, storage := RowsOrEmpty(rollups.jobs), RowsOrEmpty(rollups.sessions), StorageRows(rollups.storage);
    if HasMonth(jobs, year, month) {
      var i :| 0 <= i < |jobs| && jobs[i].year == year && jobs[i].month == month;
      assert Key(year, month) in st.report;
    } else if HasMonth(sessions, year, month) {
      var i :| 0 <= i < |sessions| && sessions[i].year == year && sessions[i].month == month;
      assert Key(year, month) in st.report;
    } else {
      var i :| 0 <= i < |storage| && storage[i].year == year && storage[i].month == month;
      assert Key(year, month) in st.report;
    }
    PlacedBucketIsTheMonth(st, year, month);
  }

  /** In a placed report with four-digit known months, the bucket under a month's key is that month's. */
  lemma PlacedBucketIsTheMonth(st: MergeState, year: Year, month: MonthOfYear)
    requires Placed(st) && BoundsFourDigit(st.first, st.last)
    requires FourDigit(year) && Key(year, month) in st.report
    ensures st.report[Key(year, month)].year == year && st.report[Key(year, month)].month == month
    ensures IndexOf(st.first.value) <= MonthIndex(year, month) <= IndexOf(st.last.value)
  {
    var b := st.report[Key(year, month)];
    IndexParts(b.year, b.month);
    YearOfIndexBetween(st.first.value, st.last.value, MonthIndex(b.year, b.month));
    KeyInjective(b.year, b.month, year, month);
  }
  /** Between four-digit known months, each entry of the walk is the bucket of its own month. */
  lemma MonthEntryIsItsMonth(st: MergeState, i: int)
    requires Placed(st) && st.first.Some? && st.last.Some? && BoundsFourDigit(st.first, st.last)
    requires IndexOf(st.first.value) <= i <= IndexOf(st.last.value)
    ensures YearOfIndex(i) >= 1
    ensures MonthEntry(st.report, i).year == YearOfIndex(i) && MonthEntry(st.report, i).month == MonthOfIndex(i)
  {
    YearOfIndexBetween(st.first.value, st.last.value, i);
    var year: Year, month: MonthOfYear := YearOfIndex(i), MonthOfIndex(i);
    if Key(year, month) in st.report {
      PlacedBucketIsTheMonth(st, year, month);
    }
  }

  /** The entry for month index `i` reads back as index `i`. */
  lemma MonthEntryIndex(st: MergeState, i: int)
    requires Placed(st) && st.first.Some? && st.last.Some? && BoundsFourDigit(st.first, st.last)
    requires IndexOf(st.first.value) <= i <= IndexOf(st.last.value)
    ensures MonthIndex(MonthEntry(st.report, i).year, MonthEntry(st.report, i).month) == i
  {
    MonthEntryIsItsMonth(st, i);
    IndexRoundTrip(i);
  }

  /** A bucket filed under its own month's key, inside the walked months, is listed at its month's position. */
  lemma WalkHasBucket(report: map<string, Bucket>, lo: int, hi: int, k: string)
    requires MonthIndex(1, 1) <= lo && hi <= MonthIndex(9999, 12)
    requires k in report && Key(report[k].year, report[k].month) == k
    requires lo <= MonthIndex(report[k].year, report[k].month) <= hi
    ensures var t := MonthIndex(report[k].year, report[k].month) - lo;
      && 0 <= t < |MonthWalk(report, lo, hi)|
      && MonthWalk(report, lo, hi)[t] == report[k]
  {
    var b := report[k];
    var i := MonthIndex(b.year, b.month);
    IndexParts(b.year, b.month);
    assert MonthWalk(report, lo, hi)[i - lo] == MonthEntry(report, i);
  }

  /** The walk lists a bucket only at its month's position, given that each entry reads back as its own month. */
  lemma WalkBucketUnique(report: map<string, Bucket>, lo: int, hi: int, b: Bucket, u: int)
    requires MonthIndex(1, 1) <= lo && hi <= MonthIndex(9999, 12)
    requires 0 <= u < |MonthWalk(report, lo, hi)| && MonthWalk(report, lo, hi)[u] == b
    requires MonthIndex(MonthEntry(report, lo + u).year, MonthEntry(report, lo + u).month) == lo + u
    ensures u == MonthIndex(b.year, b.month) - lo
  {
    assert b == MonthEntry(report, lo + u);
  }

  /** Every walked entry reads back as the month it stands for. */
  ghost predicate WalkReadsBack(report: map<string, Bucket>, lo: int, hi: int) {
    forall i :: MonthIndex(1, 1) <= lo <= i <= hi <= MonthIndex(9999, 12) ==>
      MonthIndex(MonthEntry(report, i).year, MonthEntry(report, i).month) == i
  }

  lemma PlacedReadsBack(st: MergeState)
    requires Placed(st) && st.first.Some? && st.last.Some? && BoundsFourDigit(st.first, st.last)
    ensures WalkReadsBack(st.report, IndexOf(st.first.value), IndexOf(st.last.value))
  {
    forall i | MonthIndex(1, 1) <= IndexOf(st.first.value) <= i <= IndexOf(st.last.value) <= MonthIndex(9999, 12)
      ensures MonthIndex(MonthEntry(st.report, i).year, MonthEntry(st.report, i).month) == i
    {
      MonthEntryIndex(st, i);
    }
  }

  /** The facts `Placed` gives about one key. */
  lemma PlacedAt(st: MergeState, k: string)
    requires Placed(st) && k in st.report
    ensures Key(st.report[k].year, st.report[k].month) == k
    ensures st.first.Some? && st.last.Some?
    ensures IndexOf(st.first.value) <= MonthIndex(st.report[k].year, st.report[k].month) <= IndexOf(st.last.value)
  {
  }

  /** A bucket filed under its month's key inside the walked months is listed exactly once, at its month's position. */
  lemma WalkListsBucketOnce(report: map<string, Bucket>, lo: int, hi: int, k: string)
    requires MonthIndex(1, 1) <= lo && hi <= MonthIndex(9999, 12)
    requires WalkReadsBack(report, lo, hi)
    requires k in report && Key(report[k].year, report[k].month) == k
    requires lo <= MonthIndex(report[k].year, report[k].month) <= hi
    ensures var out := MonthWalk(report, lo, hi);
      var t := MonthIndex(report[k].year, report[k].month) - lo;
      && 0 <= t < |out|
      && out[t] == report[k]
      && forall u :: 0 <= u < |out| && out[u] == report[k] ==> u == t
  {
    WalkHasBucket(report, lo, hi, k);
    var out := MonthWalk(report, lo, hi);
    forall u | 0 <= u < |out| && out[u] == report[k]
      ensures u == MonthIndex(report[k].year, report[k].month) - lo
    {
      WalkBucketUnique(report, lo, hi, report[k], u);
    }
  }

  /**
   With four-digit years throughout, every bucket the merge produced is
   listed in the month report exactly once, at its month's position.
   */
  lemma MonthReportListsEachBucketOnce(first: Option<Date>, last: Option<Date>, rollups: Rollups, k: string)
    requires RollupsFourDigit(rollups) && BoundsFourDigit(first, last)
    requires k in MergeAll(first, last, rollups).report
    ensures BuildMonthReport(first, last, rollups).Success?
    ensures var st := MergeAll(first, last, rollups);
      var out := BuildMonthReport(first, last, rollups).value;
      var b := st.report[k];
      var t := MonthIndex(b.year, b.month) - IndexOf(st.first.value);
      && 0 <= t < |out|
      && out[t] == b
      && forall u :: 0 <= u < |out| && out[u] == b ==> u == t
  {
    var st := MergeAll(first, last, rollups);
    MergeAllPlaced(first, last, rollups);
    MergeAllFourDigit(first, last, rollups);
    PlacedAt(st, k);
    PlacedReadsBack(st);
    WalkListsBucketOnce(st.report, IndexOf(st.first.value), IndexOf(st.last.value), k);
  }
}
