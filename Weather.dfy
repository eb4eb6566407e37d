/** The extraction logic of pocasi_webscraping.py. Dates are day numbers
    (`timedelta(days=1)` is +1); a fetched archive page is given as its
    already-selected tables, each a list of rows, each a list of cells. */
module Weather {
  import opened Wrappers
  import opened Sequences

  // ---------------------------------------------------------------------------
  // The date list of stahni_pocasi

  /** The days from `first` to `last`, inclusive, one day apart. */
  function Days(first: int, last: int): (days: seq<int>)
    ensures |days| == if first <= last then last - first + 1 else 0
    ensures forall i :: 0 <= i < |days| ==> days[i] == first + i
    decreases last - first
  {
    if first > last then [] else [first] + Days(first + 1, last)
  }

  /** The `while datum <= datum_do` loop that builds `datumy`. */
  method DateRange(first: int, last: int) returns (dates: seq<int>)
    ensures dates == Days(first, last)
    ensures forall d :: d in dates <==> first <= d <= last
    ensures forall i, j :: 0 <= i < j < |dates| ==> dates[i] < dates[j]
  {
    dates := [];
    var day := first;
    while day <= last
      invariant day == first || first <= day <= last + 1
      invariant |dates| == day - first
      invariant forall i :: 0 <= i < |dates| ==> dates[i] == first + i
      decreases last - day
    {
      dates := dates + [day];
      day := day + 1;
    }
    forall d | first <= d <= last
      ensures d in dates
    {
      assert dates[d - first] == d;
    }
    assert |dates| == |Days(first, last)|;
  }

  // ---------------------------------------------------------------------------
  // The station list of stahni_seznam_stanic

  /** One row of stanice.csv: `id_stanice, nazev_stanice, lat, lon`. */
  datatype Station<V> = Station(id: V, name: V, lat: V, lon: V)

  /** A KeyError on a record of the station feed. */
  datatype StationError = MissingKey(key: string)

  /** The dictionary literal built from one record of `points`; its keys are
      read in the order `id`, `name`, `lat`, `lng`. */
  function StationOf<V>(point: map<string, V>): (r: Result<Station<V>, StationError>)
    ensures r.Success? <==> HasStationKeys(point)
    ensures r.Success? ==>
      r.value.id == point["id"] && r.value.name == point["name"] &&
      r.value.lat == point["lat"] && r.value.lon == point["lng"]
    ensures r.Failure? ==> r.error.key !in point && r.error.key in ["id", "name", "lat", "lng"]
    ensures r.Failure? ==> r.error == MissingKey(
      if "id" !in point then "id"
      else if "name" !in point then "name"
      else if "lat" !in point then "lat"
      else "lng")
  {
    if "id" !in point then Failure(MissingKey("id"))
    else if "name" !in point then Failure(MissingKey("name"))
    else if "lat" !in point then Failure(MissingKey("lat"))
    else if "lng" !in point then Failure(MissingKey("lng"))
    else Success(Station(point["id"], point["name"], point["lat"], point["lng"]))
  }

  predicate HasStationKeys<V>(point: map<string, V>)
  {
    "id" in point && "name" in point && "lat" in point && "lng" in point
  }

  /** The loop of stahni_seznam_stanic: one station per record, in feed order. */
  method StationList<V>(points: seq<map<string, V>>) returns (r: Result<seq<Station<V>>, StationError>)
    ensures r == MapAll(StationOf, points)
    ensures r.Success? ==>
      |r.value| == |points| &&
      forall i :: 0 <= i < |points| ==>
        HasStationKeys(points[i]) && r.value[i] == Station(points[i]["id"], points[i]["name"], points[i]["lat"], points[i]["lng"])
  {
    var stations: seq<Station<V>> := [];
    var i := 0;
    while i < |points|
      invariant 0 <= i <= |points|
      invariant Stream(StationOf, points[..i]) == Run(stations, None)
    {
      FlatStep(StationOf, points, i);
      var s := StationOf(points[i]);
      if s.Failure? {
        return Failure(s.error);
      }
      stations := stations + [s.value];
      i := i + 1;
    }
    assert points[..i] == points;
    r := Success(stations);
    MapAllMeaning(StationOf, points);
  }

  // ---------------------------------------------------------------------------
  // One archive page: stahni_pocasi_regionu

  /** A table cell: its text and the `href` of its first link, None when the
      cell has no link or the link has no `href`. */
  datatype Cell = Cell(text: string, link: Option<string>)

  /** One row of pocasi.csv. */
  datatype Observation = Observation(
    station: string,
    date: int,
    maxTemperature: Option<string>,
    precipitation: Option<string>,
    windGust: Option<string>)

  /** The exception a malformed row raises: a missing cell (IndexError), a cell
      without a link (AttributeError or KeyError), a href the station pattern
      does not match (AttributeError on `None.group`). */
  datatype PageError = MissingCell | MissingLink | BadHref

  /** The index of the last `/` of `s`, if any. */
  function LastSlash(s: string): (r: Option<nat>)
    ensures r.Some? ==> r.value < |s| && s[r.value] == '/' && forall j :: r.value < j < |s| ==> s[j] != '/'
    ensures r.None? ==> '/' !in s
  {
    if s == [] then None
    else if s[|s| - 1] == '/' then Some(|s| - 1)
    else LastSlash(s[..|s| - 1])
  }

  /** `$` in a Python pattern also matches just before one final newline. */
  function WithoutFinalNewline(s: string): string
  {
    if |s| > 0 && s[|s| - 1] == '\n' then s[..|s| - 1] else s
  }

  predicate EndsWith(s: string, suffix: string)
  {
    |suffix| <= |s| && s[|s| - |suffix|..] == suffix
  }

  /** `re.search(r'/([^/]+)/$', href).group(1)`: the non-empty segment between
      the final two slashes. */
  function StationId(href: string): (r: Option<string>)
    ensures r.Some? ==> r.value != [] && '/' !in r.value
    ensures r.Some? ==> EndsWith(WithoutFinalNewline(href), "/" + r.value + "/")
  {
    var body := WithoutFinalNewline(href);
    if |body| == 0 || body[|body| - 1] != '/' then None
    else match LastSlash(body[..|body| - 1])
      case None => None
      case Some(k) =>
        if k + 1 == |body| - 1 then None
        else
          var id := body[k + 1..|body| - 1];
          assert forall j :: 0 <= j < |id| ==> id[j] == body[..|body| - 1][k + 1 + j];
          assert body[k..] == "/" + id + "/";
          Some(id)
  }

  /** The converse of StationId's contract: every href of the form
      prefix/id/ (optionally followed by one newline) yields that id. */
  lemma StationIdOfPath(prefix: string, id: string, newline: bool)
    requires id != [] && '/' !in id
    ensures StationId(prefix + "/" + id + "/" + (if newline then "\n" else "")) == Some(id)
  {
    var body := prefix + "/" + id + "/";
    var href := body + (if newline then "\n" else "");
    assert WithoutFinalNewline(href) == body;
    var init := body[..|body| - 1];
    assert init == prefix + "/" + id;
    assert init[|prefix|] == '/';
    assert forall j :: |prefix| < j < |init| ==> init[j] == id[j - |prefix| - 1];
    var k := LastSlash(init);
    assert k == Some(|prefix|);
    assert body[|prefix| + 1..|body| - 1] == id;
  }

  /** The three measured fields and the length of the unit each cell ends
      with: " °C", " km/h" and " mm". */
  datatype Field = Temperature | Wind | Precipitation

  function UnitLength(field: Field): nat
  {
    match field
    case Temperature => 3
    case Wind => 5
    case Precipitation => 3
  }

  /** A cell's value: None for the literal `-`, otherwise the text without its
      unit (`text[:-n]`, which is empty when the text is shorter than `n`). */
  function ParseCell(text: string, field: Field): (r: Option<string>)
    ensures r.None? <==> text == "-"
    ensures r.Some? ==>
      r.value <= text &&
      |r.value| == if |text| >= UnitLength(field) then |text| - UnitLength(field) else 0
  {
    if text == "-" then None
    else if |text| >= UnitLength(field) then Some(text[..|text| - UnitLength(field)])
    else Some([])
  }

  /** Stripping the unit undoes appending it. */
  lemma ParseCellStripsUnit(value: string, unit: string, field: Field)
    requires |unit| == UnitLength(field)
    ensures ParseCell(value + unit, field) == Some(value)
  {
    assert (value + unit)[..|value|] == value;
  }

  /** One table row: station id from the link of cell 0, temperature from
      cell 1, wind gust from cell 3, precipitation from cell 4. The cells are
      read in that order, so the first fault decides the error. */
  function ParseRow(cells: seq<Cell>, date: int): (r: Result<Observation, PageError>)
    ensures r.Success? <==>
      |cells| >= 5 && cells[0].link.Some? && StationId(cells[0].link.value).Some?
    ensures r.Success? ==>
      r.value.station == StationId(cells[0].link.value).value &&
      r.value.date == date &&
      r.value.maxTemperature == ParseCell(cells[1].text, Temperature) &&
      r.value.windGust == ParseCell(cells[3].text, Wind) &&
      r.value.precipitation == ParseCell(cells[4].text, Precipitation)
    ensures |cells| == 0 ==> r == Failure(MissingCell)
  {
    if |cells| == 0 then Failure(MissingCell)
    else if cells[0].link.None? then Failure(MissingLink)
    else match StationId(cells[0].link.value)
      case None => Failure(BadHref)
      case Some(id) =>
        if |cells| < 5 then Failure(MissingCell)
        else Success(Observation(
          id,
          date,
          ParseCell(cells[1].text, Temperature),
          ParseCell(cells[4].text, Precipitation),
          ParseCell(cells[3].text, Wind)))
  }

  function RowParser(date: int): seq<Cell> -> Result<Observation, PageError>
  {
    cells => ParseRow(cells, date)
  }

  /** `[:2]`: the first two tables (climate stations, then private stations). */
  function FirstTwo<T>(tables: seq<T>): seq<T>
  {
    if |tables| <= 2 then tables else tables[..2]
  }

  /** The observations of one page: the rows of the first two tables, in table
      order and then row order, all or nothing. */
  function RegionObservations(tables: seq<seq<seq<Cell>>>, date: int): Result<seq<Observation>, PageError>
  {
    MapAll(RowParser(date), Concat(FirstTwo(tables)))
  }

  /** The nested loops of stahni_pocasi_regionu. */
  method RegionWeather(tables: seq<seq<seq<Cell>>>, date: int) returns (r: Result<seq<Observation>, PageError>)
    ensures r == RegionObservations(tables, date)
  {
    var read := FirstTwo(tables);
    ghost var f := RowParser(date);
    var observations: seq<Observation> := [];
    var t := 0;
    while t < |read|
      invariant 0 <= t <= |read|
      invariant Stream(f, Concat(read[..t])) == Run(observations, None)
    {
      var table := read[t];
      var k := 0;
      ConsumedStart(read, t);
      while k < |table|
        invariant 0 <= k <= |table|
        invariant Stream(f, Consumed(read, t, k)) == Run(observations, None)
      {
        NestedStep(f, read, t, k);
        var o := ParseRow(table[k], date);
        if o.Failure? {
          return Failure(o.error);
        }
        observations := observations + [o.value];
        k := k + 1;
      }
      ConsumedRow(read, t);
      t := t + 1;
    }
    assert read[..t] == read;
    r := Success(observations);
  }

  /** Every record of a page carries the date the page was fetched for, and
      there is one record per row of the first two tables. */
  lemma RegionRecords(tables: seq<seq<seq<Cell>>>, date: int)
    ensures var rows := Concat(FirstTwo(tables));
      var r := RegionObservations(tables, date);
      (r.Success? <==> forall i :: 0 <= i < |rows| ==> ParseRow(rows[i], date).Success?) &&
      (r.Success? ==>
        |r.value| == |rows| == TotalLength(FirstTwo(tables)) &&
        forall i :: 0 <= i < |r.value| ==> r.value[i] == ParseRow(rows[i], date).value && r.value[i].date == date)
  {
    var rows := Concat(FirstTwo(tables));
    MapAllMeaning(RowParser(date), rows);
    ConcatLength(FirstTwo(tables));
  }

  /** Row `k` of table `t` (one of the first two) is record
      TotalLength(tables[..t]) + k: table order, then row order. */
  lemma RegionRecordAt(tables: seq<seq<seq<Cell>>>, date: int, t: nat, k: nat)
    requires RegionObservations(tables, date).Success?
    requires t < 2 && t < |tables| && k < |tables[t]|
    ensures ParseRow(tables[t][k], date).Success?
    ensures TotalLength(tables[..t]) + k < |RegionObservations(tables, date).value|
    ensures RegionObservations(tables, date).value[TotalLength(tables[..t]) + k] == ParseRow(tables[t][k], date).value
  {
    var read := FirstTwo(tables);
    assert read[t] == tables[t] && read[..t] == tables[..t];
    MapAllAt(RowParser(date), read, t, k);
  }

  // ---------------------------------------------------------------------------
  // The whole run: stahni_pocasi

  /** One fetch: a region on a day. */
  datatype Job = Job(date: int, region: int)

  /** The jobs of one day, one per region, in the given region order. */
  function JobsOf(date: int, regions: seq<int>): seq<Job>
  {
    seq(|regions|, j requires 0 <= j < |regions| => Job(date, regions[j]))
  }

  function Grid(dates: seq<int>, regions: seq<int>): seq<seq<Job>>
  {
    seq(|dates|, i requires 0 <= i < |dates| => JobsOf(dates[i], regions))
  }

  /** The jobs in the order of the nested loops: by date, then by region. */
  function Schedule(dates: seq<int>, regions: seq<int>): seq<Job>
  {
    Concat(Grid(dates, regions))
  }

  /** Job `j` of day `i` is job i * |regions| + j of the schedule. */
  lemma ScheduleAt(dates: seq<int>, regions: seq<int>, i: nat, j: nat)
    requires i < |dates| && j < |regions|
    ensures |Schedule(dates, regions)| == |dates| * |regions|
    ensures i * |regions| + j < |Schedule(dates, regions)|
    ensures Schedule(dates, regions)[i * |regions| + j] == Job(dates[i], regions[j])
  {
    var grid := Grid(dates, regions);
    ConcatLength(grid);
    UniformLength(grid, |regions|);
    UniformLength(grid[..i], |regions|);
    ConcatAt(grid, i, j);
  }

  /** The pages of a run: the archive page of a job, as its tables. */
  function PageParser(pages: Job -> seq<seq<seq<Cell>>>): Job -> Result<seq<Observation>, PageError>
  {
    job => RegionObservations(pages(job), job.date)
  }

  /** pocasi.csv as the run leaves it: each page's rows are written as soon
      as the page is parsed, so a failing page ends the run after the rows of
      the pages before it. */
  function WeatherRun(jobs: seq<Job>, pages: Job -> seq<seq<seq<Cell>>>): Run<Observation, PageError>
  {
    var blocks := Stream(PageParser(pages), jobs);
    Run(Concat(blocks.written), blocks.failure)
  }

  /** stahni_pocasi after the station list: the date loop, then the nested
      date/region loops writing each page's rows. */
  method ScrapeWeather(first: int, last: int, regions: seq<int>, pages: Job -> seq<seq<seq<Cell>>>)
    returns (run: Run<Observation, PageError>)
    ensures run == WeatherRun(Schedule(Days(first, last), regions), pages)
  {
    var dates := DateRange(first, last);
    ghost var grid := Grid(dates, regions);
    ghost var f := PageParser(pages);
    ghost var blocks: seq<seq<Observation>> := [];
    var written: seq<Observation> := [];
    var d := 0;
    while d < |dates|
      invariant 0 <= d <= |dates|
      invariant Stream(f, Concat(grid[..d])) == Run(blocks, None)
      invariant written == Concat(blocks)
    {
      var date := dates[d];
      var g := 0;
      ConsumedStart(grid, d);
      while g < |regions|
        invariant 0 <= g <= |regions|
        invariant Stream(f, Consumed(grid, d, g)) == Run(blocks, None)
        invariant written == Concat(blocks)
      {
        var job := Job(date, regions[g]);
        assert grid[d][g] == job;
        NestedStep(f, grid, d, g);
        var page := RegionWeather(pages(job), date);
        if page.Failure? {
          return Run(written, Some(page.error));
        }
        assert (blocks + [page.value])[..|blocks|] == blocks;
        assert (blocks + [page.value])[..|blocks| + 1] == blocks + [page.value];
        ConcatSnoc(blocks + [page.value], |blocks|);
        blocks := blocks + [page.value];
        written := written + page.value;
        g := g + 1;
      }
      ConsumedRow(grid, d);
      d := d + 1;
    }
    assert grid[..d] == grid;
    run := Run(written, None);
  }

  ghost predicate SortedByDate(obs: seq<Observation>)
  {
    forall i, j :: 0 <= i < j < |obs| ==> obs[i].date <= obs[j].date
  }

  /** Jobs visited in date order write rows in date order, each row dated
      within the dates of the jobs. */
  lemma {:induction false} WrittenInDateOrder(jobs: seq<Job>, pages: Job -> seq<seq<seq<Cell>>>, lo: int, hi: int)
    requires forall i, j :: 0 <= i < j < |jobs| ==> jobs[i].date <= jobs[j].date
    requires forall i :: 0 <= i < |jobs| ==> lo <= jobs[i].date <= hi
    ensures SortedByDate(WeatherRun(jobs, pages).written)
    ensures forall k :: 0 <= k < |WeatherRun(jobs, pages).written| ==> lo <= WeatherRun(jobs, pages).written[k].date <= hi
    decreases |jobs|
  {
    if jobs != [] {
      var f := PageParser(pages);
      var init := jobs[..|jobs| - 1];
      var last := jobs[|jobs| - 1];
      WrittenInDateOrder(init, pages, lo, last.date);
      var prev := Stream(f, init);
      assert jobs[..|jobs| - 1] == init;
      if prev.failure.None? {
        var page := f(last);
        if page.Success? {
          RegionRecords(pages(last), last.date);
          var blocks := prev.written + [page.value];
          assert Stream(f, jobs).written == blocks;
          assert blocks[..|prev.written|] == prev.written && blocks[..|prev.written| + 1] == blocks;
          ConcatSnoc(blocks, |prev.written|);
          DatedAppend(Concat(prev.written), page.value, lo, last.date, hi);
        }
      }
    }
  }

  /** Rows dated `mid` after rows sorted and dated within [lo, mid]. */
  lemma DatedAppend(rows: seq<Observation>, block: seq<Observation>, lo: int, mid: int, hi: int)
    requires SortedByDate(rows)
    requires forall k :: 0 <= k < |rows| ==> lo <= rows[k].date <= mid
    requires forall k :: 0 <= k < |block| ==> block[k].date == mid
    requires lo <= mid <= hi
    ensures SortedByDate(rows + block)
    ensures forall k :: 0 <= k < |rows + block| ==> lo <= (rows + block)[k].date <= hi
  {
  }

  /** The schedule of strictly increasing dates is in date order and stays
      within [lo, hi]. */
  lemma {:induction false} ScheduleInDateOrder(dates: seq<int>, regions: seq<int>, lo: int, hi: int)
    requires forall i, j :: 0 <= i < j < |dates| ==> dates[i] < dates[j]
    requires forall i :: 0 <= i < |dates| ==> lo <= dates[i] <= hi
    ensures var jobs := Schedule(dates, regions);
      (forall i, j :: 0 <= i < j < |jobs| ==> jobs[i].date <= jobs[j].date) &&
      (forall i :: 0 <= i < |jobs| ==> lo <= jobs[i].date <= hi)
  {
    if dates != [] {
      var head := JobsOf(dates[0], regions);
      var rest := Schedule(dates[1..], regions);
      ScheduleInDateOrder(dates[1..], regions, dates[0], hi);
      assert Grid(dates, regions)[1..] == Grid(dates[1..], regions);
      assert Grid(dates, regions)[0] == head;
      var jobs := Schedule(dates, regions);
      assert jobs == head + rest;
      forall i, j | 0 <= i < j < |jobs|
        ensures jobs[i].date <= jobs[j].date
      {
        if j >= |head| {
          assert jobs[j] == rest[j - |head|];
          if i >= |head| {
            assert jobs[i] == rest[i - |head|];
          }
        }
      }
      forall i | 0 <= i < |jobs|
        ensures lo <= jobs[i].date <= hi
      {
        if i >= |head| {
          assert jobs[i] == rest[i - |head|];
        }
      }
    }
  }

  /** pocasi.csv is grouped by date: rows appear in date order, every row
      dated within [first, last]. */
  lemma WeatherInDateOrder(first: int, last: int, regions: seq<int>, pages: Job -> seq<seq<seq<Cell>>>)
    ensures var written := WeatherRun(Schedule(Days(first, last), regions), pages).written;
      SortedByDate(written) &&
      forall k :: 0 <= k < |written| ==> first <= written[k].date <= last
  {
    ScheduleInDateOrder(Days(first, last), regions, first, last);
    WrittenInDateOrder(Schedule(Days(first, last), regions), pages, first, last);
  }

  /** A run that does not fail writes, for every job in schedule order, all
      the records of that job's page. */
  lemma WeatherRunComplete(jobs: seq<Job>, pages: Job -> seq<seq<seq<Cell>>>, b: nat)
    requires WeatherRun(jobs, pages).failure.None?
    requires b < |jobs|
    ensures RegionObservations(pages(jobs[b]), jobs[b].date).Success?
    ensures var blocks := Stream(PageParser(pages), jobs).written;
      |blocks| == |jobs| && blocks[b] == RegionObservations(pages(jobs[b]), jobs[b].date).value &&
      WeatherRun(jobs, pages).written == Concat(blocks)
  {
    StreamMeaning(PageParser(pages), jobs);
  }
}
