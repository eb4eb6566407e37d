# Visitor-count and weather scrapers, modelled in Dafny

The repository collects data about visitor numbers in Czech protected
landscape areas. Three Python scripts make up its core:

- `coordinates.py` converts GeoJSON outlines into lists of `{lon, lat}`
  records. It handles three area polygons (outer ring only) and one river
  line (all segments joined).
- `pocasi_webscraping.py` reads the weather-station list from a JSON feed.
  It builds the list of days between two dates. For every day and region it
  scrapes the archive page and writes one row per station row of the page's
  first two tables to `pocasi.csv`.
- `scitace_webscraping.py` scrapes visitor counters:
  - It scrapes the list of areas.
  - For each area it decodes the counter list from the map element's
    `ng-init` attribute, after rewriting its quotes. It then reads each
    counter's position from the counter's page.
  - It writes each counter once, even when it belongs to several areas, plus
    an area–counter join table.
  - Finally it downloads each counter's daily counts and renames two keys of
    every record before writing it to `data.csv`.

The model works on what the scripts read after HTML selection and JSON
decoding: links, cells, attributes and decoded records. Every Python
exception raised on those values (IndexError, KeyError, AttributeError on
`None`) is a `Failure` value with its own error constructor. Lookups made
before those values exist are listed under "Left out".

Output that is streamed to a CSV file row by row is modelled as a `Run`.
A `Run` holds the rows written before the first exception, plus that
exception. `Sequences.Stream` defines that behaviour once, and
`Sequences.MapAll` is its all-or-nothing form for lists that are built in
memory.

Modules:

- `Wrappers`: `Option` and `Result`.
- `Sequences`: concatenation of nested lists, and the `Stream`/`MapAll`
  specifications of loops that stop at the first exception.
- `Coordinates`: `coordinates.py`.
- `Weather`: `pocasi_webscraping.py`.
- `VisitorText`: the three text patterns of `scitace_webscraping.py`.
  - `nodeid=(\d+)` for area ids.
  - The `[14:-1]` slice of `init_counters(...)`.
  - The `re.sub` that turns `key:'value'` into `"key":"value"`.
- `VisitorCounters`: the pipeline of `scitace_webscraping.py`.
  - `TimeSeriesRow` is a class, because the script renames each record's
    keys in place.

Dates are day numbers (`int`), and one day later is `+ 1`. Coordinate and
feed values the scripts only copy are of a type parameter.

## Model

| member | source | states |
|---|---|---|
| Coordinates.ToRecord | coordinates.py:9-10 | a position becomes `{lon: [0], lat: [1]}` exactly when it has at least two components |
| Coordinates.FlattenVertices | coordinates.py:56-58 | the loop equals MapAll of ToRecord. It succeeds iff every position has two components, and then gives one record per position, in order |
| Coordinates.JoinSegments | coordinates.py:52-54 | the `+=` loop yields the concatenation of all segments in order, of total length |
| Coordinates.Convert | coordinates.py:9-58 | the method computes the conversion of the selected ring or joined segments. No feature is the NoFeature error |
| Coordinates.PolygonOutput | coordinates.py:9-10 | ring mode succeeds iff every position of the outer ring has two components. It then gives one record per position, in ring order |
| Coordinates.LineOutput | coordinates.py:52-58 | line mode gives TotalLength records. Position k of segment s is record TotalLength(segments[..s]) + k |
| Coordinates.LineFailure | coordinates.py:52-58 | line mode fails iff some position of some segment has fewer than two components |
| Weather.Days | pocasi_webscraping.py:122-127 | the day list has last - first + 1 entries (none if first > last), and entry i is first + i |
| Weather.DateRange | pocasi_webscraping.py:122-127 | the `while datum <= datum_do` loop yields Days. A day is in it iff first <= d <= last, and the days strictly increase |
| Weather.StationOf | pocasi_webscraping.py:48-53 | a station row exists iff the record has id, name, lat and lng; lng becomes lon. Otherwise the error names the first missing key, in the order id, name, lat, lng |
| Weather.StationList | pocasi_webscraping.py:46-55 | the loop equals MapAll of StationOf. On success there is one station per record, in feed order, with the mapped fields |
| Weather.StationId | pocasi_webscraping.py:78 | a found id is non-empty, has no `/`, and the href (less one final newline) ends with `/id/` |
| Weather.StationIdOfPath | pocasi_webscraping.py:78 | every href `prefix/id/`, with or without a final newline, yields exactly id |
| Weather.ParseCell | pocasi_webscraping.py:80-96 | `-` is None. Any other text gives its prefix with the unit's length cut off (3, 5 and 3 characters), or empty if the text is shorter |
| Weather.ParseCellStripsUnit | pocasi_webscraping.py:80-96 | stripping a unit of the field's length undoes appending it |
| Weather.ParseRow | pocasi_webscraping.py:73-104 | a row parses iff it has five cells and a station link the pattern matches. The record takes the station id and the page's date, with temperature from cell 1, wind from cell 3 and precipitation from cell 4. No cells is MissingCell |
| Weather.RegionWeather | pocasi_webscraping.py:66-106 | the nested loops equal MapAll of ParseRow over the rows of the first two tables |
| Weather.RegionRecords | pocasi_webscraping.py:66-106 | a page succeeds iff every row parses. It then has one record per row, each dated with the page's date |
| Weather.RegionRecordAt | pocasi_webscraping.py:66-72 | row k of table t (t < 2) is record TotalLength(tables[..t]) + k: table order, then row order |
| Weather.ScheduleAt | pocasi_webscraping.py:134-135 | the nested loops visit \|dates\| * \|regions\| jobs. Job (dates[i], regions[j]) is visit i * \|regions\| + j |
| Weather.ScrapeWeather | pocasi_webscraping.py:121-138 | the method's outcome is WeatherRun over the schedule of Days(first, last): each page's rows are appended whole, and the run stops at the first failing page |
| Weather.WrittenInDateOrder | pocasi_webscraping.py:134-138 | jobs in date order write rows in date order, each dated within the jobs' dates |
| Weather.ScheduleInDateOrder | pocasi_webscraping.py:122-135 | for strictly increasing dates the schedule is in date order and stays within [lo, hi] |
| Weather.WeatherInDateOrder | pocasi_webscraping.py:121-138 | pocasi.csv is in date order and every row is dated within [first, last], whether or not the run fails |
| Weather.WeatherRunComplete | pocasi_webscraping.py:134-138 | a run without failure writes, job by job, exactly every record of each job's page |
| VisitorText.MatchFrom | scitace_webscraping.py:31 | the result is the leftmost position at or after start where `nodeid=` is followed by a digit, and None iff there is none |
| VisitorText.AreaId | scitace_webscraping.py:31 | None iff the pattern matches nowhere. Otherwise the id is the whole non-empty digit run after the leftmost match |
| VisitorText.AreaIdOfHref | scitace_webscraping.py:31 | a href whose first match is `nodeid=` followed by a whole digit run id yields that id |
| VisitorText.DigitRunUnique | scitace_webscraping.py:31 | the greedy `\d+` has one match at a given position |
| VisitorText.InitPayload | scitace_webscraping.py:52 | `[14:-1]` drops the first 14 characters and the last one. It is empty for attributes shorter than 15 |
| VisitorText.InitPayloadOfCall | scitace_webscraping.py:52 | the slice of `init_counters(` + payload + `)` is the payload |
| VisitorText.TokenAt | scitace_webscraping.py:53 | a match at the start is a non-empty lower-case key, `:'`, a value without `'`, and `'` |
| VisitorText.NormaliseToken | scitace_webscraping.py:53 | `key:'value'` becomes `"key":"value"`, and rewriting continues after it |
| VisitorText.NormaliseOther | scitace_webscraping.py:53 | a character that cannot start a key is copied unchanged |
| VisitorText.NormaliseWord | scitace_webscraping.py:53 | a lower-case word not followed by `:'…'` is copied unchanged |
| VisitorText.NormaliseWithoutQuotes | scitace_webscraping.py:53 | text without a single quote is left unchanged |
| VisitorText.Normalise | scitace_webscraping.py:53 | the `re.sub` rewriting never shortens the text. It is characterised by NormaliseToken (a match is replaced and scanning resumes after it), NormaliseOther and NormaliseWord (text that does not match is copied) |
| VisitorCounters.AreaOf | scitace_webscraping.py:28-35 | an area exists iff the link has an href that the pattern matches. Its id is AreaId(href) and its name is the link text |
| VisitorCounters.Areas | scitace_webscraping.py:21-37 | the nested loops equal MapAll of AreaOf over the links of every listing section but the first |
| VisitorCounters.AreaListing | scitace_webscraping.py:21-35 | the first section is skipped. Link k of section s >= 1 is area TotalLength(sections[1..s]) + k, and that area is the one the link gives |
| VisitorCounters.CounterListText | scitace_webscraping.py:51-53 | a missing map element is MissingCounterList. Otherwise the result is the rewritten payload, never shorter than the sliced payload |
| VisitorCounters.CounterListOfCall | scitace_webscraping.py:52-53 | for `init_counters(payload)` the text decoded is the rewritten payload |
| VisitorCounters.CounterOf | scitace_webscraping.py:56-73 | a counter exists iff the record has nodeid and name and its page has a marker. Its fields are those values and the marker's lat and lon |
| VisitorCounters.CountersInArea | scitace_webscraping.py:56-75 | the loop equals MapAll of CounterOf: records in order, stopping at the first exception |
| VisitorCounters.AreaCountersMeaning | scitace_webscraping.py:56-73 | an area's counters are found iff every record has nodeid and name and every counter page has a marker. Counter i is then built from record i and its marker |
| VisitorCounters.FirstIndex | scitace_webscraping.py:118 | the first position where a counter id is met |
| VisitorCounters.FirstIndexPrefix | scitace_webscraping.py:118 | the first position of an id already met does not change as the loop goes on |
| VisitorCounters.FirstSeenIds | scitace_webscraping.py:111-121 | the ids of citace.csv are exactly the ids met in all areas |
| VisitorCounters.FirstSeenUnique | scitace_webscraping.py:118-121 | no counter id appears twice in citace.csv |
| VisitorCounters.FirstSeenFirst | scitace_webscraping.py:118-121 | each row of citace.csv is the record met first under its id |
| VisitorCounters.FirstSeenOrder | scitace_webscraping.py:111-121 | citace.csv lists counters in the order their ids were first met |
| VisitorCounters.ScanArea | scitace_webscraping.py:113-121 | the inner loop extends the counter table with the first-seen counters of one area, and the join table with one row per counter of the area |
| VisitorCounters.CollectCounters | scitace_webscraping.py:103-121 | over the areas fetched before the first failing one, citace.csv holds the first-seen counters and the join table has a row per occurrence. The counters are unique and cover every id met, and the failure is that of the first failing area |
| VisitorCounters.ScannedAreas | scitace_webscraping.py:111-112 | without failure, area i is scanned i-th, with the counters fetched for its id |
| VisitorCounters.MembershipAt | scitace_webscraping.py:113-117 | counter j of area i is join row TotalLength(..i) + j, even when the counter was met before |
| VisitorCounters.Renamed | scitace_webscraping.py:149-152 | renaming succeeds iff ScitacNodeID and YMD are present, and otherwise names the first missing one. The new keys are the old ones with those two replaced by id_citace and datum, carrying their values, and all other entries are unchanged |
| VisitorCounters.TimeSeriesRow.Rename | scitace_webscraping.py:149-152 | the in-place assignments and `del`s give Renamed's result. When YMD is missing, id_citace has already been added |
| VisitorCounters.TimeSeries | scitace_webscraping.py:145-153 | the nested loops leave data.csv as Stream of Renamed over every counter's records, in counter-table order |
| VisitorCounters.TimeSeriesOrder | scitace_webscraping.py:145-153 | without failure, record k of counter i is row TotalLength(..i) + k, renamed |

## Left out

- Network and files: HTTP requests, the retry session, file reading and
  writing, `print` and the `__main__` parameters are not modelled. Pages
  and feeds are parameters of the model.
- HTML selection (`find`, `first=True`, `.text`, `.attrs`) is not modelled.
  Its results are the inputs: links, cells, attributes.
- JSON decoding is not modelled. Decoded records are inputs, as maps from
  keys to values. The text the counter list is decoded from is computed
  (`CounterListText`), but its decoding is not.
- CSV serialisation is not modelled. That includes the DictWriter raising
  on a record key that is not one of its field names, which can happen in
  `data.csv` when the API returns an unexpected key. Rows are datatypes.
- Coordinates.Convert: the lookups
  `raw_coordinates['features'][0]['geometry']['coordinates']`
  (coordinates.py:9, 24, 38, 53) are not modelled. The input is the list of
  features, each already holding its coordinates. A KeyError for a missing
  `features`, `geometry` or `coordinates` key, and the TypeError for a
  `"geometry": null`, have no counterpart in the model. Only the two
  IndexErrors are modelled (NoFeature, NoRing).
- Weather.StationList: the lookup `json.loads(req.text)['points']`
  (pocasi_webscraping.py:47) is not modelled. The input is the list of
  points, so the KeyError for a feed without `points` has no counterpart in
  the model.
- ISO date formatting is not modelled. Dates are day numbers.
- Weather.DateRange: dates are unbounded day numbers. In Python,
  `datum += den` raises OverflowError past 9999-12-31, so a run whose
  `datum_do` is `date.max` fails there, while DateRange returns the full
  list.
- VisitorCounters.CounterOf: the marker pattern
  `addGoogleMarker\(map, markersArray, ([0-9.]+), ([0-9.]+),` on the
  counter page is the parameter `locate`. Its matching is not modelled.
- VisitorText.AreaId: `\d` is taken as the ASCII digits 0-9. Python's
  `\d` also matches other Unicode decimal digits.
- VisitorCounters.CollectCounters: the per-area counter lists are the
  parameter `countersOf`. It stands for `stahni_citace_v_oblasti` (modelled
  as CountersInArea), whose page fetch and JSON decoding are outside the
  model.
- The composition of the three stages of each scraper into one run
  (`stahni_data_citacu`, `stahni_pocasi`) is not modelled. Each stage is
  modelled separately, and each takes the previous stage's output as input.
- Weather.ParseCell: the temperature cell ends in ` °C`, three characters,
  and `[:-3]` cuts exactly those (pocasi_webscraping.py:82). The model cuts
  three characters as the code does.
