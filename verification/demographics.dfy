/**
 The project report's demographics grid: the all-zero grid
 (`ProjectReport._base_demo_grid`) and the tally of the grid aggregation's
 rows into it (`ProjectReport._process_demo_results`).

 The grid maps each race, and the pseudo-race "Total", to a row holding an
 integer "Total" and, per ethnicity, a map from sex to count. Its keys are
 fixed text values; here each key is an enumeration value whose `Name` is
 that text, so "the text is a key of the grid" is "some key has that name".
 */
module Demographics {
  import opened Wrappers
  import Text
  import opened Sums

  const Unknown: string := "Unknown or Not Reported"
  const TotalName: string := "Total"

  datatype RaceKey =
    | AmericanIndian | Asian | NativeHawaiian | Black | White | MoreThanOneRace | UnknownRace
    | TotalRace   // the "Total" pseudo-race holding the per-cell totals

  datatype EthnicityKey = NotHispanic | Hispanic | UnknownEthnicity

  datatype SexKey = Female | Male | UnknownSex

  function RaceName(r: RaceKey): string {
    match r
    case AmericanIndian => "American Indian or Alaska Native"
    case Asian => "Asian"
    case NativeHawaiian => "Native Hawaiian or Other Pacific Islander"
    case Black => "Black or African American"
    case White => "White"
    case MoreThanOneRace => "More Than One Race"
    case UnknownRace => Unknown
    case TotalRace => TotalName
  }

  function EthnicityName(e: EthnicityKey): string {
    match e
    case NotHispanic => "Not Hispanic or Latino"
    case Hispanic => "Hispanic or Latino"
    case UnknownEthnicity => Unknown
  }

  function SexName(s: SexKey): string {
    match s
    case Female => "Female"
    case Male => "Male"
    case UnknownSex => Unknown
  }

  /** `text in grid`: the row key named `text`, if any. */
  function RaceNamed(text: string): (r: Option<RaceKey>)
    ensures r.Some? ==> RaceName(r.value) == text
  {
    if text == RaceName(TotalRace) then Some(TotalRace)
    else if text == RaceName(AmericanIndian) then Some(AmericanIndian)
    else if text == RaceName(Asian) then Some(Asian)
    else if text == RaceName(NativeHawaiian) then Some(NativeHawaiian)
    else if text == RaceName(Black) then Some(Black)
    else if text == RaceName(White) then Some(White)
    else if text == RaceName(MoreThanOneRace) then Some(MoreThanOneRace)
    else if text == RaceName(UnknownRace) then Some(UnknownRace)
    else None
  }

  /** `text in grid[race]`, for the ethnicity keys (the row's own "Total" is handled apart). */
  function EthnicityNamed(text: string): (r: Option<EthnicityKey>)
    ensures r.Some? ==> EthnicityName(r.value) == text
  {
    if text == EthnicityName(NotHispanic) then Some(NotHispanic)
    else if text == EthnicityName(Hispanic) then Some(Hispanic)
    else if text == EthnicityName(UnknownEthnicity) then Some(UnknownEthnicity)
    else None
  }

  /** `text in grid[race][ethnicity]`. */
  function SexNamed(text: string): (r: Option<SexKey>)
    ensures r.Some? ==> SexName(r.value) == text
  {
    if text == SexName(Female) then Some(Female)
    else if text == SexName(Male) then Some(Male)
    else if text == SexName(UnknownSex) then Some(UnknownSex)
    else None
  }

  /** Each key is found again under its own name: the grid's key names are distinct. */
  lemma RaceNamedRoundTrip(r: RaceKey)
    ensures RaceNamed(RaceName(r)) == Some(r)
  {
    // each name differs from those tested before it, by length or by first letter
    var name := RaceName(r);
    assert |RaceName(TotalRace)| == 5 && RaceName(TotalRace)[0] == 'T';
    assert |RaceName(AmericanIndian)| == 32 && |RaceName(NativeHawaiian)| == 41;
    assert |RaceName(Asian)| == 5 && RaceName(Asian)[0] == 'A';
    assert |RaceName(Black)| == 25 && |RaceName(MoreThanOneRace)| == 18;
    assert |RaceName(White)| == 5 && RaceName(White)[0] == 'W';
    assert |RaceName(UnknownRace)| == 23;
    if r == Asian {
      assert name != RaceName(TotalRace);
    } else if r == White {
      assert name != RaceName(TotalRace) && name != RaceName(Asian);
    }
  }

  /** No race key is found exactly when no key has the text as its name. */
  lemma RaceNamedComplete(text: string)
    ensures RaceNamed(text).None? <==> forall k :: RaceName(k) != text
  {
    if RaceNamed(text).None? {
      forall k ensures RaceName(k) != text {
        RaceNamedRoundTrip(k);
      }
    }
  }

  lemma EthnicityNamedRoundTrip(e: EthnicityKey)
    ensures EthnicityNamed(EthnicityName(e)) == Some(e)
    ensures EthnicityName(e) != TotalName
  {
    match e
    case NotHispanic =>
    case Hispanic =>
    case UnknownEthnicity =>
  }

  /** No ethnicity key is found exactly when no key has the text as its name. */
  lemma EthnicityNamedComplete(text: string)
    ensures EthnicityNamed(text).None? <==> forall k :: EthnicityName(k) != text
  {
    if EthnicityNamed(text).None? {
      forall k ensures EthnicityName(k) != text {
        EthnicityNamedRoundTrip(k);
      }
    }
  }

  lemma SexNamedRoundTrip(s: SexKey)
    ensures SexNamed(SexName(s)) == Some(s)
  {
    match s
    case Female =>
    case Male =>
    case UnknownSex =>
  }

  /** No sex key is found exactly when no key has the text as its name. */
  lemma SexNamedComplete(text: string)
    ensures SexNamed(text).None? <==> forall k :: SexName(k) != text
  {
    if SexNamed(text).None? {
      forall k ensures SexName(k) != text {
        SexNamedRoundTrip(k);
      }
    }
  }

  /** The seven races, without the "Total" pseudo-race. */
  const Races: seq<RaceKey> := [AmericanIndian, Asian, NativeHawaiian, Black, White, MoreThanOneRace, UnknownRace]

  /** Every (ethnicity, sex) leaf position of a row. */
  const LeafKeys: seq<(EthnicityKey, SexKey)> := [
    (NotHispanic, Female), (NotHispanic, Male), (NotHispanic, UnknownSex),
    (Hispanic, Female), (Hispanic, Male), (Hispanic, UnknownSex),
    (UnknownEthnicity, Female), (UnknownEthnicity, Male), (UnknownEthnicity, UnknownSex)
  ]

  datatype Row = Row(total: int, cells: map<EthnicityKey, map<SexKey, int>>)

  type Grid = map<RaceKey, Row>

  /** The shape of the grid: every key present at every level. */
  ghost predicate WellFormed(g: Grid) {
    && (forall r :: r in g)
    && (forall r :: r in g ==> RowShaped(g[r]))
  }

  ghost predicate RowShaped(row: Row) {
    && (forall e :: e in row.cells)
    && (forall e :: e in row.cells ==> forall s :: s in row.cells[e])
  }

  /** `grid[r][e][s]`, read as 0 where the grid has no such leaf. */
  function Leaf(g: Grid, r: RaceKey, e: EthnicityKey, s: SexKey): int {
    if r in g && e in g[r].cells && s in g[r].cells[e] then g[r].cells[e][s] else 0
  }

  /** `grid[r]['Total']`, read as 0 where the grid has no such row. */
  function RowTotal(g: Grid, r: RaceKey): int {
    if r in g then g[r].total else 0
  }

  /** Every race key, the "Total" pseudo-race last. */
  const RaceKeys: seq<RaceKey> := Races + [TotalRace]

  lemma RaceKeysCover(r: RaceKey)
    ensures r in RaceKeys
    ensures r != TotalRace ==> r in Races
  {
    match r
    case AmericanIndian => assert RaceKeys[0] == r;
    case Asian => assert RaceKeys[1] == r;
    case NativeHawaiian => assert RaceKeys[2] == r;
    case Black => assert RaceKeys[3] == r;
    case White => assert RaceKeys[4] == r;
    case MoreThanOneRace => assert RaceKeys[5] == r;
    case UnknownRace => assert RaceKeys[6] == r;
    case TotalRace => assert RaceKeys[7] == r;
  }

  lemma LeafKeysCover(e: EthnicityKey, s: SexKey)
    ensures (e, s) in LeafKeys
  {
    var i := (match e case NotHispanic => 0 case Hispanic => 3 case UnknownEthnicity => 6)
      + (match s case Female => 0 case Male => 1 case UnknownSex => 2);
    assert LeafKeys[i] == (e, s);
  }

  /** A row of `_base_demo_grid()`: a zero total and a zero for every (ethnicity, sex). */
  function BaseRow(): (row: Row)
    ensures row.total == 0
    ensures forall e :: e in row.cells ==> forall s :: s in row.cells[e] ==> row.cells[e][s] == 0
  {
    var sexes := map[Female := 0, Male := 0, UnknownSex := 0];
    Row(0, map[NotHispanic := sexes, Hispanic := sexes, UnknownEthnicity := sexes])
  }

  lemma BaseRowShaped()
    ensures RowShaped(BaseRow())
  {
    var row := BaseRow();
    var sexes := map[Female := 0, Male := 0, UnknownSex := 0];
    assert forall s: SexKey :: s in sexes by {
      forall s: SexKey
        ensures s in sexes
      {
        match s case Female => case Male => case UnknownSex =>
      }
    }
    forall e: EthnicityKey
      ensures e in row.cells && row.cells[e] == sexes
    {
      match e case NotHispanic => case Hispanic => case UnknownEthnicity =>
    }
  }

  lemma AllRaceKeys()
    ensures forall r: RaceKey :: r in RaceKeys
  {
    forall r: RaceKey
      ensures r in RaceKeys
    {
      RaceKeysCover(r);
    }
  }

  /** `_base_demo_grid()`: every row and leaf present and zero. */
  function BaseGrid(): (g: Grid)
    ensures WellFormed(g)
    ensures forall r, e, s :: Leaf(g, r, e, s) == 0
    ensures forall r :: RowTotal(g, r) == 0
  {
    BaseRowShaped();
    AllRaceKeys();
    map r: RaceKey | r in RaceKeys :: BaseRow()
  }

  /** A field of the row's `_id`: absent, null, or a text value. */
  datatype Field = Missing | Null | Text(text: string)

  /** A `count` that `int()` accepts, or one it rejects. */
  datatype CountValue = IntCount(n: int) | NotAnInt

  datatype Cell = Cell(race: Field, ethnicity: Field, sex: Field)

  /** One row of the grid aggregation: `{'_id': {race, ethnicity, sex}, 'count': n}`, fields possibly missing. */
  datatype DemoRecord = DemoRecord(count: Option<CountValue>, id: Option<Cell>)

  datatype DemoError =
    | Malformed          // APIReportException('Demographics aggregation was malformed: ...')
    | EthnicityIsTotal   // `sex not in grid[race]['Total']` tests membership in an int: TypeError

  /** The fields the tally reads, or Malformed when one is missing or the count is not an int. */
  function ReadRecord(rec: DemoRecord): (r: Result<(int, Cell), DemoError>)
    ensures r.Success? <==>
      && rec.count.Some? && rec.count.value.IntCount? && rec.id.Some?
      && !rec.id.value.race.Missing? && !rec.id.value.ethnicity.Missing? && !rec.id.value.sex.Missing?
    ensures r.Success? ==> r.value == (rec.count.value.n, rec.id.value)
    ensures r.Failure? ==> r.error == Malformed
  {
    match (rec.count, rec.id)
    case (Some(IntCount(n)), Some(cell)) =>
      if cell.race.Missing? || cell.ethnicity.Missing? || cell.sex.Missing? then Failure(Malformed)
      else Success((n, cell))
    case _ => Failure(Malformed)
  }

  /** The grid position a count goes to. */
  datatype Position = Position(race: RaceKey, ethnicity: EthnicityKey, sex: SexKey)

  /**
   Where a cell is counted, normalised against the grid's keys as the source
   does: a null or unlisted race or ethnicity becomes Unknown; a sex is
   capitalised, and becomes Unknown when null or not listed. Membership is
   tested against the grid's keys, so the race "Total" is kept, and the
   ethnicity "Total" reaches a membership test on an int and raises.
   */
  function Normalize(cell: Cell): (r: Result<Position, DemoError>)
    ensures r.Success? <==> cell.ethnicity != Text(TotalName)
    ensures r.Failure? ==> r.error == EthnicityIsTotal
    ensures r.Success? ==> (r.value.race == TotalRace <==> cell.race == Text(TotalName))
    ensures r.Success? ==>
      RaceName(r.value.race) == (if cell.race.Text? && RaceNamed(cell.race.text).Some? then cell.race.text else Unknown)
    ensures r.Success? ==>
      EthnicityName(r.value.ethnicity) ==
        (if cell.ethnicity.Text? && EthnicityNamed(cell.ethnicity.text).Some? then cell.ethnicity.text else Unknown)
    ensures r.Success? ==>
      SexName(r.value.sex) ==
        (if cell.sex.Text? && SexNamed(Text.Capitalize(cell.sex.text)).Some? then Text.Capitalize(cell.sex.text) else Unknown)
  {
    if cell.ethnicity == Text(TotalName) then Failure(EthnicityIsTotal)
    else Success(Position(NormalRace(cell.race), NormalEthnicity(cell.ethnicity), NormalSex(cell.sex)))
  }

  function NormalRace(f: Field): (r: RaceKey)
    ensures r == TotalRace <==> f == Text(TotalName)
    ensures RaceName(r) == (if f.Text? && RaceNamed(f.text).Some? then f.text else Unknown)
  {
    if f.Text? && RaceNamed(f.text).Some? then RaceNamed(f.text).value else UnknownRace
  }

  function NormalEthnicity(f: Field): (r: EthnicityKey)
    ensures EthnicityName(r) == (if f.Text? && EthnicityNamed(f.text).Some? then f.text else Unknown)
  {
    if f.Text? && EthnicityNamed(f.text).Some? then EthnicityNamed(f.text).value else UnknownEthnicity
  }

  function NormalSex(f: Field): (r: SexKey)
    ensures SexName(r) == (if f.Text? && SexNamed(Text.Capitalize(f.text)).Some? then Text.Capitalize(f.text) else Unknown)
  {
    if f.Text? then SexNamed(Text.Capitalize(f.text)).GetOr(UnknownSex) else UnknownSex
  }

  /** `grid[race]['Total'] += c`. */
  function AddToTotal(g: Grid, race: RaceKey, c: int): (g': Grid)
    requires WellFormed(g)
    ensures WellFormed(g')
    ensures forall r, e, s :: Leaf(g', r, e, s) == Leaf(g, r, e, s)
    ensures forall r :: RowTotal(g', r) == RowTotal(g, r) + (if r == race then c else 0)
  {
    g[race := g[race].(total := g[race].total + c)]
  }

  /** `grid[race][ethnicity][sex] += c`. */
  function AddToLeaf(g: Grid, race: RaceKey, ethnicity: EthnicityKey, sex: SexKey, c: int): (g': Grid)
    requires WellFormed(g)
    ensures WellFormed(g')
    ensures forall r, e, s ::
      Leaf(g', r, e, s) == Leaf(g, r, e, s) + (if r == race && e == ethnicity && s == sex then c else 0)
    ensures forall r :: RowTotal(g', r) == RowTotal(g, r)
  {
    var row := g[race];
    var sexes := row.cells[ethnicity];
    g[race := row.(cells := row.cells[ethnicity := sexes[sex := sexes[sex] + c]])]
  }

  /**
   The tally of one count: `grid[race]['Total']`, `grid[race][eth][sex]` and
   `grid['Total'][eth][sex]` each gain `c`, in that order. No other cell
   changes; for the race "Total" the last two are the same leaf.
   */
  function AddCount(g: Grid, p: Position, c: int): (g': Grid)
    requires WellFormed(g)
    ensures WellFormed(g')
    ensures forall r, e, s ::
      Leaf(g', r, e, s) == Leaf(g, r, e, s)
        + (if r == p.race && e == p.ethnicity && s == p.sex then c else 0)
        + (if r == TotalRace && e == p.ethnicity && s == p.sex then c else 0)
    ensures forall r :: RowTotal(g', r) == RowTotal(g, r) + (if r == p.race then c else 0)
  {
    var g1 := AddToTotal(g, p.race, c);
    var g2 := AddToLeaf(g1, p.race, p.ethnicity, p.sex, c);
    AddToLeaf(g2, TotalRace, p.ethnicity, p.sex, c)
  }

  /** Whether a row can be tallied: every field present, an int count, an ethnicity other than "Total". */
  predicate Acceptable(rec: DemoRecord) {
    && rec.count.Some? && rec.count.value.IntCount? && rec.id.Some?
    && !rec.id.value.race.Missing? && !rec.id.value.ethnicity.Missing? && !rec.id.value.sex.Missing?
    && rec.id.value.ethnicity != Text(TotalName)
  }

  /** Every row of the list is acceptable, stated along the list as the tally walks it. */
  predicate AllAcceptable(records: seq<DemoRecord>) {
    |records| == 0 || (Acceptable(records[0]) && AllAcceptable(records[1..]))
  }

  lemma {:induction false} AllAcceptableMeansEach(records: seq<DemoRecord>)
    ensures AllAcceptable(records) <==> forall i :: 0 <= i < |records| ==> Acceptable(records[i])
  {
    if |records| > 0 {
      AllAcceptableMeansEach(records[1..]);
      assert forall i :: 1 <= i < |records| ==> records[i] == records[1..][i - 1];
    }
  }

  function CountOf(rec: DemoRecord): int {
    if rec.count.Some? && rec.count.value.IntCount? then rec.count.value.n else 0
  }

  function SumCounts(records: seq<DemoRecord>): int {
    if |records| == 0 then 0 else CountOf(records[0]) + SumCounts(records[1..])
  }

  /** One row of results: read, normalise, tally; the new grid and the row's count. */
  function TallyOne(g: Grid, rec: DemoRecord): (r: Result<(Grid, int), DemoError>)
    requires WellFormed(g)
    ensures r.Success? <==> Acceptable(rec)
    ensures r.Success? ==> r.value.1 == CountOf(rec) && WellFormed(r.value.0)
  {
    var (count, cell) :- ReadRecord(rec);
    var p :- Normalize(cell);
    Success((AddCount(g, p, count), count))
  }

  /** An acceptable row's tally is the AddCount at its normalised position. */
  lemma TallyOneAdds(g: Grid, rec: DemoRecord)
    requires WellFormed(g) && Acceptable(rec)
    ensures TallyOne(g, rec).value.0 == AddCount(g, Normalize(rec.id.value).value, CountOf(rec))
  {
  }

  /**
   `_process_demo_results(results, grid)`: the rows in order; the first
   malformed row raises. On success, the grid keeps its shape and the total
   is the sum of the counts.
   */
  function ProcessDemoResults(records: seq<DemoRecord>, g: Grid): (r: Result<(Grid, int), DemoError>)
    requires WellFormed(g)
    ensures r.Success? <==> AllAcceptable(records)
    ensures r.Success? ==> WellFormed(r.value.0) && r.value.1 == SumCounts(records)
    decreases |records|
  {
    if |records| == 0 then Success((g, 0))
    else
      var step := TallyOne(g, records[0]);
      if step.Failure? then Failure(step.error)
      else
        var rest := ProcessDemoResults(records[1..], step.value.0);
        if rest.Failure? then Failure(rest.error)
        else Success((rest.value.0, step.value.1 + rest.value.1))
  }

  function SumRaceTotals(g: Grid): int {
    SumOver(Races, r => RowTotal(g, r))
  }

  function SumRowLeaves(g: Grid, race: RaceKey): int {
    SumOver(LeafKeys, (p: (EthnicityKey, SexKey)) => Leaf(g, race, p.0, p.1))
  }

  lemma {:induction false} OccursOnce<K>(keys: seq<K>, k: K)
    requires forall i, j :: 0 <= i < j < |keys| ==> keys[i] != keys[j]
    requires k in keys
    ensures Occurrences(keys, k) == 1
  {
    var init := keys[..|keys| - 1];
    if keys[|keys| - 1] == k {
      OccursNever(init, k);
    } else {
      OccursOnce(init, k);
    }
  }

  lemma {:induction false} OccursNever<K>(keys: seq<K>, k: K)
    requires k !in keys
    ensures Occurrences(keys, k) == 0
  {
    if |keys| > 0 {
      OccursNever(keys[..|keys| - 1], k);
    }
  }

  lemma RacesDistinct()
    ensures forall i, j :: 0 <= i < j < |Races| ==> Races[i] != Races[j]
  {
  }

  lemma LeafKeysDistinct()
    ensures forall i, j :: 0 <= i < j < |LeafKeys| ==> LeafKeys[i] != LeafKeys[j]
  {
  }

  /** Moving one race's total by `c` moves the sum of the race totals by `c`. */
  lemma RaceTotalsShift(g: Grid, g': Grid, race: RaceKey, c: int)
    requires race != TotalRace
    requires forall r :: RowTotal(g', r) == RowTotal(g, r) + (if r == race then c else 0)
    ensures SumRaceTotals(g') == SumRaceTotals(g) + c
  {
    RaceKeysCover(race);
    RacesDistinct();
    OccursOnce(Races, race);
    SumOverShift(Races, r => RowTotal(g, r), r => RowTotal(g', r), race, c);
  }

  /** Moving one leaf of a row by `c` moves that row's leaf sum by `c`. */
  lemma RowLeavesShift(g: Grid, g': Grid, race: RaceKey, e: EthnicityKey, s: SexKey, c: int)
    requires forall e', s' :: Leaf(g', race, e', s') == Leaf(g, race, e', s') + (if e' == e && s' == s then c else 0)
    ensures SumRowLeaves(g', race) == SumRowLeaves(g, race) + c
  {
    LeafKeysCover(e, s);
    LeafKeysDistinct();
    OccursOnce(LeafKeys, (e, s));
    SumOverShift(LeafKeys, (q: (EthnicityKey, SexKey)) => Leaf(g, race, q.0, q.1),
      (q: (EthnicityKey, SexKey)) => Leaf(g', race, q.0, q.1), (e, s), c);
  }

  /**
   How the grid's sums moved from `g` to `g'` when `t` more was counted:
   the race totals and the "Total" row's leaves each gained `t`, and every
   race row's leaf sum moved with that row's total.
   */
  ghost predicate Shifted(g: Grid, g': Grid, t: int) {
    && SumRaceTotals(g') == SumRaceTotals(g) + t
    && SumRowLeaves(g', TotalRace) == SumRowLeaves(g, TotalRace) + t
    && forall r :: r in Races ==> SumRowLeaves(g', r) - RowTotal(g', r) == SumRowLeaves(g, r) - RowTotal(g, r)
  }

  lemma ShiftedTransitive(g0: Grid, g1: Grid, g2: Grid, a: int, b: int)
    requires Shifted(g0, g1, a) && Shifted(g1, g2, b)
    ensures Shifted(g0, g2, a + b)
  {
  }

  /**
   How one tallied count moves the sums, for a race other than "Total": the
   race totals and the "Total" row's leaves each gain `c`, and every race
   row's leaf sum moves with its own total.
   */
  lemma AddCountSums(g: Grid, p: Position, c: int)
    requires WellFormed(g)
    requires p.race != TotalRace
    ensures Shifted(g, AddCount(g, p, c), c)
  {
    var g' := AddCount(g, p, c);
    RaceTotalsShift(g, g', p.race, c);
    RowLeavesShift(g, g', TotalRace, p.ethnicity, p.sex, c);
    forall r | r in Races
      ensures SumRowLeaves(g', r) - RowTotal(g', r) == SumRowLeaves(g, r) - RowTotal(g, r)
    {
      assert r != TotalRace;
      RowLeavesShift(g, g', r, p.ethnicity, p.sex, if r == p.race then c else 0);
    }
  }

  /** One step of the tally: the first row's tally, then the rest on the grid it left. */
  lemma ProcessDemoResultsStep(records: seq<DemoRecord>, g: Grid, base: Grid, t: int)
    requires WellFormed(g) && |records| > 0
    requires TallyOne(g, records[0]).Success?
    requires ProcessDemoResults(records[1..], TallyOne(g, records[0]).value.0).Success?
    ensures ProcessDemoResults(records, g).Success?
    ensures var (g', t') := ProcessDemoResults(records, g).value;
      var (g1, c) := TallyOne(g, records[0]).value;
      var (g2, t2) := ProcessDemoResults(records[1..], g1).value;
      && t' == c + t2
      && (Shifted(base, g', t) <==> Shifted(base, g2, t))
      && (forall r, e, s :: Leaf(g', r, e, s) == Leaf(g2, r, e, s))
      && forall r :: RowTotal(g', r) == RowTotal(g2, r)
  {
  }

  /** No row of the results names the race "Total". */
  predicate NoTotalRace(records: seq<DemoRecord>) {
    forall i :: 0 <= i < |records| ==> !(records[i].id.Some? && records[i].id.value.race == Text(TotalName))
  }

  /**
   Tallying rows whose race is not "Total" adds the returned total to the
   sum of the race totals and to the sum of the "Total" row's leaves, and
   keeps each race row's leaf sum in step with its total.
   */
  lemma {:induction false} ProcessDemoResultsSums(records: seq<DemoRecord>, g: Grid)
    requires WellFormed(g)
    requires ProcessDemoResults(records, g).Success?
    requires NoTotalRace(records)
    ensures Shifted(g, ProcessDemoResults(records, g).value.0, ProcessDemoResults(records, g).value.1)
    decreases |records|
  {
    if |records| == 0 {
      assert ProcessDemoResults(records, g).value == (g, 0);
    } else {
      FirstRecordSums(records, g);
      var (g1, c) := TallyOne(g, records[0]).value;
      ProcessDemoResultsSums(records[1..], g1);
      var rest := ProcessDemoResults(records[1..], g1).value;
      ShiftedTransitive(g, g1, rest.0, c, rest.1);
      ProcessDemoResultsStep(records, g, g, c + rest.1);
    }
  }

  /** The first row of a successful tally without the race "Total": its shift, and the rest still qualifies. */
  lemma FirstRecordSums(records: seq<DemoRecord>, g: Grid)
    requires WellFormed(g) && |records| > 0
    requires ProcessDemoResults(records, g).Success?
    requires NoTotalRace(records)
    ensures TallyOne(g, records[0]).Success?
    ensures var (g1, c) := TallyOne(g, records[0]).value;
      && Shifted(g, g1, c)
      && ProcessDemoResults(records[1..], g1).Success?
      && NoTotalRace(records[1..])
  {
    var rec := records[0];
    var p := Normalize(rec.id.value).value;
    assert Acceptable(rec) && p.race != TotalRace by {
      assert !(rec.id.value.race == Text(TotalName));
    }
    TallyOneAdds(g, rec);
    AddCountSums(g, p, CountOf(rec));
    var g1 := TallyOne(g, rec).value.0;
    assert AllAcceptable(records[1..]);
    NoTotalRaceTail(records);
  }

  lemma NoTotalRaceTail(records: seq<DemoRecord>)
    requires |records| > 0 && NoTotalRace(records)
    ensures NoTotalRace(records[1..])
  {
    forall i | 0 <= i < |records[1..]|
      ensures !(records[1..][i].id.Some? && records[1..][i].id.value.race == Text(TotalName))
    {
      assert records[1..][i] == records[i + 1];
    }
  }

  /**
   Starting from the all-zero grid: the race totals sum to the returned
   total, the "Total" row's leaves sum to it, and every race row's leaves
   sum to that row's total.
   */
  lemma DemographicsGridBalanced(records: seq<DemoRecord>)
    requires ProcessDemoResults(records, BaseGrid()).Success?
    requires NoTotalRace(records)
    ensures var (g, t) := ProcessDemoResults(records, BaseGrid()).value;
      && t == SumCounts(records)
      && SumRaceTotals(g) == t
      && SumRowLeaves(g, TotalRace) == t
      && forall r :: r in Races ==> SumRowLeaves(g, r) == RowTotal(g, r)
  {
    var g0 := BaseGrid();
    ProcessDemoResultsSums(records, g0);
    SumOverZero(Races, r => RowTotal(g0, r));
    forall r: RaceKey
      ensures SumRowLeaves(g0, r) == 0
    {
      SumOverZero(LeafKeys, (q: (EthnicityKey, SexKey)) => Leaf(g0, r, q.0, q.1));
    }
  }

  /**
   A row whose race is null is counted under Unknown: that row's total, its
   leaf, and the "Total" row's leaf each gain the count, and the returned
   total is the count.
   */
  lemma NullRaceCountedAsUnknown(g: Grid, rec: DemoRecord)
    requires WellFormed(g)
    requires Acceptable(rec) && rec.id.value.race == Null
    ensures ProcessDemoResults([rec], g).Success?
    ensures var (g', t) := ProcessDemoResults([rec], g).value;
      var p := Normalize(rec.id.value).value;
      && t == CountOf(rec)
      && p.race == UnknownRace
      && RowTotal(g', UnknownRace) == RowTotal(g, UnknownRace) + t
      && Leaf(g', UnknownRace, p.ethnicity, p.sex) == Leaf(g, UnknownRace, p.ethnicity, p.sex) + t
      && Leaf(g', TotalRace, p.ethnicity, p.sex) == Leaf(g, TotalRace, p.ethnicity, p.sex) + t
  {
    SingleRowTally(g, rec);
  }

  /**
   A row whose race is the text "Total" passes the membership test and is
   tallied into the "Total" row twice over: its leaf gains twice the count
   and no race's total moves.
   */
  lemma TotalRaceCountedTwice(g: Grid, rec: DemoRecord)
    requires WellFormed(g)
    requires Acceptable(rec) && rec.id.value.race == Text(TotalName)
    ensures ProcessDemoResults([rec], g).Success?
    ensures var (g', t) := ProcessDemoResults([rec], g).value;
      var p := Normalize(rec.id.value).value;
      && t == CountOf(rec)
      && p.race == TotalRace
      && Leaf(g', TotalRace, p.ethnicity, p.sex) == Leaf(g, TotalRace, p.ethnicity, p.sex) + 2 * t
      && forall r :: r in Races ==> RowTotal(g', r) == RowTotal(g, r)
  {
    SingleRowTally(g, rec);
    var p := Normalize(rec.id.value).value;
    TotalRaceShift(g, ProcessDemoResults([rec], g).value.0, p, CountOf(rec));
  }

  /** A grid that agrees with AddCount at the "Total" race: that leaf gains the count twice, no race total moves. */
  lemma TotalRaceShift(g: Grid, g': Grid, p: Position, c: int)
    requires WellFormed(g) && p.race == TotalRace
    requires forall r, e, s :: Leaf(g', r, e, s) == Leaf(AddCount(g, p, c), r, e, s)
    requires forall r :: RowTotal(g', r) == RowTotal(AddCount(g, p, c), r)
    ensures Leaf(g', TotalRace, p.ethnicity, p.sex) == Leaf(g, TotalRace, p.ethnicity, p.sex) + 2 * c
    ensures forall r :: r in Races ==> RowTotal(g', r) == RowTotal(g, r)
  {
    forall r | r in Races
      ensures RowTotal(g', r) == RowTotal(g, r)
    {
      assert r != TotalRace;
    }
  }

  /** A list of one acceptable row is tallied by that row's AddCount alone. */
  lemma SingleRowTally(g: Grid, rec: DemoRecord)
    requires WellFormed(g)
    requires Acceptable(rec)
    ensures ProcessDemoResults([rec], g).Success?
    ensures var (g', t) := ProcessDemoResults([rec], g).value;
      var added := AddCount(g, Normalize(rec.id.value).value, CountOf(rec));
      && t == CountOf(rec)
      && (forall r, e, s :: Leaf(g', r, e, s) == Leaf(added, r, e, s))
      && forall r :: RowTotal(g', r) == RowTotal(added, r)
  {
    var g' := AddCount(g, Normalize(rec.id.value).value, CountOf(rec));
    TallyOneAdds(g, rec);
    assert ProcessDemoResults([rec][1..], g') == Success((g', 0)) by {
      assert [rec][1..] == [];
    }
    ProcessDemoResultsStep([rec], g, g, 0);
  }
}
