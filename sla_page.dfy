/**
 * The SLA page. It generates dummy uptime data (ten hourly entries per day,
 * the first `upCount` of them up), tallies the entries of the selected
 * range per calendar day, turns each day into an uptime percentage, sorts
 * the days by date, averages them, and pages through them six at a time
 * when the thirty-day range is selected.
 */
module SlaPage {
  import opened Js
  import opened Collections
  import opened NewestFirst

  datatype EntryStatus = Up | Down

  /** An entry; its ISO timestamp is represented by the instant it denotes. */
  datatype SlaEntry = SlaEntry(timestamp: int, status: EntryStatus)

  datatype Range = OneDay | SevenDays | ThirtyDays

  const PageSize: nat := 6
  const EntriesPerDay: nat := 10
  const HourMs: int := 3600000

  /**
   * Entry `n` of the dummy data: day `n / 10`, hour `n % 10`, up when the
   * hour is below that day's draw. `dayStart(i)` is the instant `i` days
   * before now; the clock and `Math.random` are not part of this model.
   */
  function DummyEntry(dayStart: nat -> int, upCounts: seq<nat>, n: nat): SlaEntry
    requires n / EntriesPerDay < |upCounts|
  {
    var i, j := n / EntriesPerDay, n % EntriesPerDay;
    SlaEntry(dayStart(i) + j * HourMs, if j < upCounts[i] then Up else Down)
  }

  lemma DayHour(i: nat, j: nat)
    requires j < EntriesPerDay
    ensures (i * EntriesPerDay + j) / EntriesPerDay == i && (i * EntriesPerDay + j) % EntriesPerDay == j
  {
  }

  /** `generateDummyData(days)`, with day `i`'s draw of `upCount` given as `upCounts[i]`. */
  method GenerateDummyData(days: nat, dayStart: nat -> int, upCounts: seq<nat>) returns (result: seq<SlaEntry>)
    requires |upCounts| == days
    ensures |result| == days * EntriesPerDay
    ensures forall n :: 0 <= n < |result| ==> result[n] == DummyEntry(dayStart, upCounts, n)
  {
    result := [];
    for i := 0 to days
      invariant |result| == i * EntriesPerDay
      invariant forall n :: 0 <= n < |result| ==> result[n] == DummyEntry(dayStart, upCounts, n)
    {
      var upCount := upCounts[i];
      for j := 0 to EntriesPerDay
        invariant |result| == i * EntriesPerDay + j
        invariant forall n :: 0 <= n < |result| ==> result[n] == DummyEntry(dayStart, upCounts, n)
      {
        DayHour(i, j);
        result := result + [SlaEntry(dayStart(i) + j * HourMs, if j < upCount then Up else Down)];
      }
    }
  }

  predicate IsUp(e: SlaEntry) { e.status == Up }

  predicate IsDown(e: SlaEntry) { e.status == Down }

  /** A run whose first `u` entries are up and the rest down holds exactly `u` up entries. */
  lemma {:induction false} CountLeadingUp(block: seq<SlaEntry>, u: nat)
    requires u <= |block|
    requires forall j :: 0 <= j < |block| ==> (IsUp(block[j]) <==> j < u)
    ensures Count(block, IsUp) == u
    decreases |block|
  {
    if block != [] {
      var init := block[..|block| - 1];
      assert forall j :: 0 <= j < |init| ==> init[j] == block[j];
      if u == |block| {
        CountLeadingUp(init, u - 1);
      } else {
        CountLeadingUp(init, u);
      }
    }
  }

  /** Each dummy day holds exactly its draw of up entries: 7 to 9 of its 10. */
  lemma DummyDayUps(dayStart: nat -> int, upCounts: seq<nat>, result: seq<SlaEntry>, i: nat)
    requires |result| == |upCounts| * EntriesPerDay
    requires forall n :: 0 <= n < |result| ==> result[n] == DummyEntry(dayStart, upCounts, n)
    requires i < |upCounts| && 7 <= upCounts[i] <= 9
    ensures (i + 1) * EntriesPerDay <= |result|
    ensures Count(result[i * EntriesPerDay..(i + 1) * EntriesPerDay], IsUp) == upCounts[i]
  {
    var block := result[i * EntriesPerDay..(i + 1) * EntriesPerDay];
    forall j | 0 <= j < |block| ensures IsUp(block[j]) <==> j < upCounts[i] {
      DayHour(i, j);
      assert block[j] == result[i * EntriesPerDay + j];
    }
    CountLeadingUp(block, upCounts[i]);
  }

  /** What `grouped` holds for one date string. */
  datatype DayTally = DayTally(up: nat, down: nat, rawDate: int)

  /** Every entry is up or down, never both. */
  lemma {:induction false} UpOrDown(g: seq<SlaEntry>)
    ensures Count(g, IsUp) + Count(g, IsDown) == |g|
    decreases |g|
  {
    if g != [] {
      UpOrDown(g[..|g| - 1]);
    }
  }

  /** The tally of one day's entries: its date is that of the first entry seen. */
  function TallyOf(g: seq<SlaEntry>): (t: DayTally)
    ensures t.up + t.down == |g|
  {
    UpOrDown(g);
    DayTally(Count(g, IsUp), Count(g, IsDown), if g == [] then 0 else g[0].timestamp)
  }

  /** The `grouped` record after the loop. */
  function Grouped(data: seq<SlaEntry>, dayOf: SlaEntry -> string): (m: map<string, DayTally>)
    ensures m.Keys == KeySet(data, dayOf)
  {
    MapValues(GroupBy(data, dayOf), TallyOf)
  }

  /** `grouped[dateStr].up++` or `grouped[dateStr].down++`. */
  function Bump(t: DayTally, x: SlaEntry): DayTally {
    if x.status == Up then t.(up := t.up + 1) else t.(down := t.down + 1)
  }

  /** The two steps of the loop body for one more entry of a day. */
  lemma TallySnoc(g: seq<SlaEntry>, x: SlaEntry, t: DayTally)
    requires t == if g == [] then DayTally(0, 0, x.timestamp) else TallyOf(g)
    ensures TallyOf(g + [x]) == Bump(t, x)
  {
    FilterSnoc(g, x, IsUp);
    FilterSnoc(g, x, IsDown);
    if g != [] {
      assert (g + [x])[0] == g[0];
    }
  }

  /** What the loop body does to `grouped` for one entry. */
  function Step(grouped: map<string, DayTally>, entry: SlaEntry, dayOf: SlaEntry -> string): map<string, DayTally> {
    var k := dayOf(entry);
    grouped[k := Bump(if k in grouped then grouped[k] else DayTally(0, 0, entry.timestamp), entry)]
  }

  /** `grouped` after the loop has seen every entry of `data`. */
  function Tallies(data: seq<SlaEntry>, dayOf: SlaEntry -> string): map<string, DayTally> {
    if data == [] then map[] else Step(Tallies(data[..|data| - 1], dayOf), data[|data| - 1], dayOf)
  }

  /** One more entry: its day's tally is created if needed, then bumped; other days are untouched. */
  lemma GroupedSnoc(s: seq<SlaEntry>, x: SlaEntry, dayOf: SlaEntry -> string)
    ensures Grouped(s + [x], dayOf) == Step(Grouped(s, dayOf), x, dayOf)
  {
    var m := GroupBy(s, dayOf);
    var k := dayOf(x);
    var cur := if k in m then m[k] else [];
    assert Grouped(s + [x], dayOf) == MapValues(m[k := cur + [x]], TallyOf) by {
      GroupBySnoc(s, x, dayOf);
    }
    MapValuesUpdate(m, k, cur + [x], TallyOf);
    var g := Grouped(s, dayOf);
    var t := if k in g then g[k] else DayTally(0, 0, x.timestamp);
    assert t == if cur == [] then DayTally(0, 0, x.timestamp) else TallyOf(cur) by {
      if k in m {
        assert m[k] != [];
      }
    }
    TallySnoc(cur, x, t);
  }

  /** The loop computes the grouping of the entries by day, each day tallied. */
  lemma {:induction false} TalliesAreGrouped(data: seq<SlaEntry>, dayOf: SlaEntry -> string)
    ensures Tallies(data, dayOf) == Grouped(data, dayOf)
    decreases |data|
  {
    if data == [] {
      assert Grouped(data, dayOf) == map[];
    } else {
      var init := data[..|data| - 1];
      assert data == init + [data[|data| - 1]];
      TalliesAreGrouped(init, dayOf);
      GroupedSnoc(init, data[|data| - 1], dayOf);
    }
  }

  /** The `for…of` loop filling `grouped`. */
  method GroupByDay(data: seq<SlaEntry>, dayOf: SlaEntry -> string) returns (grouped: map<string, DayTally>)
    ensures grouped == Grouped(data, dayOf)
  {
    grouped := map[];
    for i := 0 to |data|
      invariant grouped == Tallies(data[..i], dayOf)
    {
      var entry := data[i];
      assert data[..i + 1][..i] == data[..i];
      var dateStr := dayOf(entry);
      var t := if dateStr in grouped then grouped[dateStr] else DayTally(0, 0, entry.timestamp);
      if entry.status == Up {
        t := t.(up := t.up + 1);
      } else {
        t := t.(down := t.down + 1);
      }
      grouped := grouped[dateStr := t];
    }
    assert data[..|data|] == data;
    TalliesAreGrouped(data, dayOf);
  }

  function Total(t: DayTally): nat { t.up + t.down }

  /** Each entry is tallied exactly once: the day totals add up to `data.length`. */
  lemma GroupedTotal(data: seq<SlaEntry>, dayOf: SlaEntry -> string)
    ensures SumBy(Grouped(data, dayOf), Total) == |data|
  {
    var m := GroupBy(data, dayOf);
    SumByMapValues(m, TallyOf, Total, Length);
    GroupBySum(data, dayOf);
  }

  /** A day tallies exactly its own entries, each counted as up or as down. */
  lemma GroupedDay(data: seq<SlaEntry>, dayOf: SlaEntry -> string, d: string)
    requires d in Grouped(data, dayOf)
    ensures var g := GroupBy(data, dayOf)[d];
      Grouped(data, dayOf)[d] == TallyOf(g) &&
      (forall i :: 0 <= i < |g| ==> g[i] in data && dayOf(g[i]) == d) &&
      (forall i :: 0 <= i < |data| && dayOf(data[i]) == d ==> data[i] in g)
  {
    var g := GroupBy(data, dayOf)[d];
    forall i | 0 <= i < |data| && dayOf(data[i]) == d ensures data[i] in g {
      assert dayOf(data[i]) == d;
    }
  }

  /** A day's uptime: `up / total * 100`, or 0 for an empty day (exact, without `toFixed`). */
  function Uptime(t: DayTally): (r: real)
    ensures 0.0 <= r <= 100.0
    ensures t.up + t.down == 0 ==> r == 0.0
    ensures t.up + t.down > 0 ==> r * ((t.up + t.down) as real) == (t.up as real) * 100.0
  {
    var total := t.up + t.down;
    if total > 0 then
      var q := (t.up as real) / (total as real);
      assert q <= 1.0 by {
        assert q * (total as real) == t.up as real;
      }
      q * 100.0
    else 0.0
  }

  datatype ChartPoint = ChartPoint(date: string, uptime: real, rawDate: int)

  /** The sort key of the chart: ascending `rawDate`, written as a descending key for the stable sort. */
  function Ascending(p: ChartPoint): Num { Finite(-p.rawDate) }

  /** `Object.entries(grouped).map(...)`, in key insertion order. */
  function Points(grouped: map<string, DayTally>, ks: seq<string>): (ps: seq<ChartPoint>)
    requires forall i :: 0 <= i < |ks| ==> ks[i] in grouped
    ensures |ps| == |ks|
    ensures forall i :: 0 <= i < |ps| ==>
      ps[i] == ChartPoint(ks[i], Uptime(grouped[ks[i]]), grouped[ks[i]].rawDate)
  {
    seq(|ks|, i requires 0 <= i < |ks| => ChartPoint(ks[i], Uptime(grouped[ks[i]]), grouped[ks[i]].rawDate))
  }

  /** The chart of a range: the days in insertion order, then sorted by date. */
  function ChartData(data: seq<SlaEntry>, dayOf: SlaEntry -> string): seq<ChartPoint> {
    Sort(Points(Grouped(data, dayOf), KeyOrder(data, dayOf)), Ascending)
  }

  /** The chart holds one point per calendar day, each with its day's uptime and date. */
  lemma ChartDays(data: seq<SlaEntry>, dayOf: SlaEntry -> string)
    ensures |ChartData(data, dayOf)| == |KeySet(data, dayOf)|
    ensures forall i :: 0 <= i < |ChartData(data, dayOf)| ==>
      ChartData(data, dayOf)[i].date in Grouped(data, dayOf) &&
      ChartData(data, dayOf)[i].uptime == Uptime(Grouped(data, dayOf)[ChartData(data, dayOf)[i].date]) &&
      ChartData(data, dayOf)[i].rawDate == Grouped(data, dayOf)[ChartData(data, dayOf)[i].date].rawDate
  {
    var g := Grouped(data, dayOf);
    var ks := KeyOrder(data, dayOf);
    var ps := Points(g, ks);
    var c := Sort(ps, Ascending);
    assert c == ChartData(data, dayOf);
    SortPermutes(ps, Ascending);
    forall i | 0 <= i < |c|
      ensures c[i].date in g && c[i].uptime == Uptime(g[c[i].date]) && c[i].rawDate == g[c[i].date].rawDate
    {
      assert c[i] in multiset(ps);
    }
    assert |c| == |multiset(c)| == |multiset(ps)|;
  }

  /** Every calendar day of the data has a point in the chart. */
  lemma ChartCovers(data: seq<SlaEntry>, dayOf: SlaEntry -> string, d: string)
    requires d in KeySet(data, dayOf)
    ensures exists i :: 0 <= i < |ChartData(data, dayOf)| && ChartData(data, dayOf)[i].date == d
  {
    var g := Grouped(data, dayOf);
    var ks := KeyOrder(data, dayOf);
    var ps := Points(g, ks);
    var c := Sort(ps, Ascending);
    assert c == ChartData(data, dayOf);
    SortPermutes(ps, Ascending);
    var n :| 0 <= n < |ks| && ks[n] == d;
    assert ps[n] in multiset(c);
    var i :| 0 <= i < |c| && c[i] == ps[n];
  }

  /** Sorting by `Ascending` orders any points by ascending date. */
  lemma SortAscending(ps: seq<ChartPoint>)
    ensures forall i, j :: 0 <= i < j < |Sort(ps, Ascending)| ==>
      Sort(ps, Ascending)[i].rawDate <= Sort(ps, Ascending)[j].rawDate
  {
    var c := Sort(ps, Ascending);
    assert AllFinite(ps, Ascending);
    SortOrdered(ps, Ascending);
    forall i, j | 0 <= i < j < |c| ensures c[i].rawDate <= c[j].rawDate {
      assert !Before(Ascending, c[j], c[i]);
    }
  }

  /** The chart is sorted by ascending date. */
  lemma ChartSorted(data: seq<SlaEntry>, dayOf: SlaEntry -> string)
    ensures forall i, j :: 0 <= i < j < |ChartData(data, dayOf)| ==>
      ChartData(data, dayOf)[i].rawDate <= ChartData(data, dayOf)[j].rawDate
  {
    SortAscending(Points(Grouped(data, dayOf), KeyOrder(data, dayOf)));
  }

  /** The sum of the uptimes. */
  function SumUptime(c: seq<ChartPoint>): real {
    if c == [] then 0.0 else SumUptime(c[..|c| - 1]) + c[|c| - 1].uptime
  }

  /** The average uptime shown in the gauge (exact, without `toFixed`). */
  function Average(c: seq<ChartPoint>): real {
    if |c| > 0 then SumUptime(c) / (|c| as real) else 0.0
  }

  /** Every point lies in [0, 100], so the average does too. */
  lemma {:induction false} SumUptimeBounds(c: seq<ChartPoint>)
    requires forall i :: 0 <= i < |c| ==> 0.0 <= c[i].uptime <= 100.0
    ensures 0.0 <= SumUptime(c) <= 100.0 * (|c| as real)
    decreases |c|
  {
    if c != [] {
      SumUptimeBounds(c[..|c| - 1]);
    }
  }

  lemma AverageInRange(c: seq<ChartPoint>)
    requires forall i :: 0 <= i < |c| ==> 0.0 <= c[i].uptime <= 100.0
    ensures 0.0 <= Average(c) <= 100.0
  {
    SumUptimeBounds(c);
    if |c| > 0 {
      var a := Average(c);
      assert a * (|c| as real) == SumUptime(c);
    }
  }

  /** The gauge shows a percentage between 0 and 100. */
  lemma AverageBounds(data: seq<SlaEntry>, dayOf: SlaEntry -> string)
    ensures 0.0 <= Average(ChartData(data, dayOf)) <= 100.0
  {
    ChartDays(data, dayOf);
    AverageInRange(ChartData(data, dayOf));
  }

  /** The label under the gauge. */
  function ComplianceText(uptimePercentage: real): (text: string)
    ensures text == "Sesuai Standar" <==> uptimePercentage >= 90.0
    ensures text == "Tidak Sesuai" <==> uptimePercentage < 90.0
  {
    if uptimePercentage >= 90.0 then "Sesuai Standar" else "Tidak Sesuai"
  }

  /** `Array.prototype.slice` for non-negative bounds: both are clamped to the length. */
  function Slice<T>(s: seq<T>, start: nat, end: nat): (r: seq<T>)
    ensures |r| == (if end <= start || start >= |s| then 0 else (if end <= |s| then end else |s|) - start)
    ensures |r| > 0 ==> start + |r| <= |s|
    ensures forall m :: 0 <= m < |r| ==> r[m] == s[start + m]
  {
    var a := if start <= |s| then start else |s|;
    var b := if end <= |s| then end else |s|;
    if b <= a then [] else s[a..b]
  }

  /** `paginatedData`: six points of the thirty-day chart, or the whole chart of a shorter range. */
  function Paginated<T>(chartData: seq<T>, range: Range, pageIndex: nat): (page: seq<T>)
    ensures range != ThirtyDays ==> page == chartData
    ensures range == ThirtyDays ==> |page| <= PageSize
    ensures range == ThirtyDays && |page| > 0 ==> pageIndex * PageSize + |page| <= |chartData|
    ensures range == ThirtyDays ==> forall m :: 0 <= m < |page| ==> page[m] == chartData[pageIndex * PageSize + m]
    ensures range == ThirtyDays && pageIndex * PageSize + PageSize <= |chartData| ==> |page| == PageSize
  {
    if range == ThirtyDays then Slice(chartData, pageIndex * PageSize, pageIndex * PageSize + PageSize)
    else chartData
  }

  /** `totalPages`: `Math.ceil(length / 6)` for thirty days, 1 otherwise. */
  function TotalPages(length: nat, range: Range): (tp: nat)
    ensures range != ThirtyDays ==> tp == 1
    ensures range == ThirtyDays ==> length <= tp * PageSize && (tp > 0 ==> (tp - 1) * PageSize < length)
  {
    if range == ThirtyDays then (length + PageSize - 1) / PageSize else 1
  }

  /** Every point of the thirty-day chart falls on exactly one page below `totalPages`. */
  lemma PagesCover(length: nat, n: nat)
    requires n < length
    ensures n / PageSize < TotalPages(length, ThirtyDays)
    ensures (n / PageSize) * PageSize <= n < (n / PageSize) * PageSize + PageSize
  {
  }

  /** The page state. */
  class SlaView {
    const dayOf: SlaEntry -> string
    var slaData: Option<(seq<SlaEntry>, seq<SlaEntry>, seq<SlaEntry>)>
    var selectedRange: Range
    var chartData: seq<ChartPoint>
    var uptimePercentage: real
    var pageIndex: nat

    constructor (dayOf: SlaEntry -> string)
      ensures this.dayOf == dayOf && slaData.None? && selectedRange == SevenDays
      ensures chartData == [] && uptimePercentage == 0.0 && pageIndex == 0
    {
      this.dayOf := dayOf;
      slaData := None;
      selectedRange := SevenDays;
      chartData := [];
      uptimePercentage := 0.0;
      pageIndex := 0;
    }

    function DataOf(range: Range): seq<SlaEntry>
      requires slaData.Some?
      reads this
    {
      match range
      case OneDay => slaData.value.0
      case SevenDays => slaData.value.1
      case ThirtyDays => slaData.value.2
    }

    /** The second effect: recompute the chart, the average, and go back to the first page. */
    method Recompute()
      modifies this
      ensures slaData == old(slaData) && selectedRange == old(selectedRange)
      ensures old(slaData).None? ==>
        chartData == old(chartData) && uptimePercentage == old(uptimePercentage) && pageIndex == old(pageIndex)
      ensures old(slaData).Some? ==>
        chartData == ChartData(DataOf(selectedRange), dayOf) &&
        uptimePercentage == Average(chartData) && pageIndex == 0
    {
      if slaData.Some? {
        var data := DataOf(selectedRange);
        var grouped := GroupByDay(data, dayOf);
        var chart := Sort(Points(grouped, KeyOrder(data, dayOf)), Ascending);
        chartData := chart;
        uptimePercentage := Average(chart);
        pageIndex := 0;
      }
    }

    /** The first effect stores the generated data; the second one then runs. */
    method Load(oneDay: seq<SlaEntry>, sevenDays: seq<SlaEntry>, thirtyDays: seq<SlaEntry>)
      modifies this
      ensures slaData == Some((oneDay, sevenDays, thirtyDays)) && selectedRange == old(selectedRange)
      ensures chartData == ChartData(DataOf(selectedRange), dayOf)
      ensures uptimePercentage == Average(chartData) && pageIndex == 0
    {
      slaData := Some((oneDay, sevenDays, thirtyDays));
      Recompute();
    }

    /** Picking a range in the selector. */
    method SelectRange(range: Range)
      modifies this
      ensures selectedRange == range && slaData == old(slaData)
      ensures old(slaData).None? ==>
        chartData == old(chartData) && uptimePercentage == old(uptimePercentage) && pageIndex == old(pageIndex)
      ensures old(slaData).Some? ==>
        chartData == ChartData(DataOf(range), dayOf) && uptimePercentage == Average(chartData) && pageIndex == 0
    {
      selectedRange := range;
      Recompute();
    }

    /** The page is the first one or one of the pages that exist. */
    predicate PageInRange()
      reads this
    {
      pageIndex == 0 || pageIndex < TotalPages(|chartData|, selectedRange)
    }

    /** Prev: shown for thirty days only, disabled on the first page, else `max(pageIndex - 1, 0)`. */
    method Prev()
      modifies this
      ensures selectedRange == ThirtyDays && old(pageIndex) != 0 ==> pageIndex == old(pageIndex) - 1
      ensures !(selectedRange == ThirtyDays && old(pageIndex) != 0) ==> pageIndex == old(pageIndex)
      ensures old(PageInRange()) ==> PageInRange()
      ensures slaData == old(slaData) && selectedRange == old(selectedRange) && chartData == old(chartData)
      ensures uptimePercentage == old(uptimePercentage)
    {
      if selectedRange == ThirtyDays && pageIndex != 0 {
        pageIndex := if pageIndex - 1 > 0 then pageIndex - 1 else 0;
      }
    }

    /** Next: shown for thirty days only, enabled while `pageIndex < totalPages - 1`. */
    method Next()
      modifies this
      ensures var tp := TotalPages(|chartData|, selectedRange) as int;
        (selectedRange == ThirtyDays && old(pageIndex) < tp - 1 ==> pageIndex == old(pageIndex) + 1 && pageIndex <= tp - 1) &&
        (!(selectedRange == ThirtyDays && old(pageIndex) < tp - 1) ==> pageIndex == old(pageIndex))
      ensures PageInRange() || pageIndex == old(pageIndex)
      ensures old(PageInRange()) ==> PageInRange()
      ensures slaData == old(slaData) && selectedRange == old(selectedRange) && chartData == old(chartData)
      ensures uptimePercentage == old(uptimePercentage)
    {
      var totalPages: int := TotalPages(|chartData|, selectedRange);
      if selectedRange == ThirtyDays && !(pageIndex >= totalPages - 1) {
        pageIndex := if pageIndex + 1 < totalPages - 1 then pageIndex + 1 else totalPages - 1;
      }
    }
  }
}
