/** The pipeline of scitace_webscraping.py: areas from the listing page, the
    counters of each area, the counter table without duplicates beside the
    area–counter join table, and the renamed time-series rows. Fetched pages
    are given as already-selected links, attributes and decoded records. */
module VisitorCounters {
  import opened Wrappers
  import opened Sequences
  import opened VisitorText

  /** The exceptions the script can raise on unexpected input. */
  datatype ScrapeError =
    | MissingHref              // a link without `href` (KeyError)
    | NoAreaId                 // `nodeid=\d` not in the href (None.group)
    | MissingCounterList       // no `ng-init^=init_counters` element (None.attrs)
    | MissingKey(key: string)  // a record without the key read from it (KeyError)
    | NoPosition(id: string)   // the counter page has no map marker (None.group)

  // ---------------------------------------------------------------------------
  // stahni_oblasti

  /** An item link of the listing: its visible text and its `href`, if any. */
  datatype Link = Link(text: string, href: Option<string>)

  /** One row of oblasti.csv. */
  datatype Area = Area(id: string, name: string)

  function AreaOf(link: Link): (r: Result<Area, ScrapeError>)
    ensures r.Success? <==> link.href.Some? && AreaId(link.href.value).Some?
    ensures r.Success? ==> r.value.name == link.text && r.value.id == AreaId(link.href.value).value
  {
    match link.href
    case None => Failure(MissingHref)
    case Some(href) =>
      match AreaId(href)
      case None => Failure(NoAreaId)
      case Some(id) => Success(Area(id, link.text))
  }

  /** `[1:]`: every listing section but the first, which holds no areas. */
  function AreaSections<T>(sections: seq<T>): seq<T>
  {
    if sections == [] then [] else sections[1..]
  }

  /** The nested loops of stahni_oblasti over the sections after the first. */
  method Areas(sections: seq<seq<Link>>) returns (r: Result<seq<Area>, ScrapeError>)
    ensures r == MapAll(AreaOf, Concat(AreaSections(sections)))
  {
    var listed := AreaSections(sections);
    var areas: seq<Area> := [];
    var s := 0;
    while s < |listed|
      invariant 0 <= s <= |listed|
      invariant Stream(AreaOf, Concat(listed[..s])) == Run(areas, None)
    {
      var links := listed[s];
      var k := 0;
      ConsumedStart(listed, s);
      while k < |links|
        invariant 0 <= k <= |links|
        invariant Stream(AreaOf, Consumed(listed, s, k)) == Run(areas, None)
      {
        NestedStep(AreaOf, listed, s, k);
        var area := AreaOf(links[k]);
        if area.Failure? {
          return Failure(area.error);
        }
        areas := areas + [area.value];
        k := k + 1;
      }
      ConsumedRow(listed, s);
      s := s + 1;
    }
    assert listed[..s] == listed;
    r := Success(areas);
  }

  /** The first section is skipped; link `k` of section `s` (s >= 1) gives
      area TotalLength(sections[1..s]) + k, named by the link text. */
  lemma AreaListing(sections: seq<seq<Link>>, s: nat, k: nat)
    requires MapAll(AreaOf, Concat(AreaSections(sections))).Success?
    requires 1 <= s < |sections| && k < |sections[s]|
    ensures |MapAll(AreaOf, Concat(AreaSections(sections))).value| == TotalLength(sections[1..])
    ensures TotalLength(sections[1..s]) + k < TotalLength(sections[1..])
    ensures AreaOf(sections[s][k]).Success?
    ensures MapAll(AreaOf, Concat(AreaSections(sections))).value[TotalLength(sections[1..s]) + k]
      == AreaOf(sections[s][k]).value
  {
    ListedAt(AreaOf, sections, s, k);
  }

  /** AreaListing for any parser of a link. */
  lemma ListedAt<A, B, E>(f: A -> Result<B, E>, sections: seq<seq<A>>, s: nat, k: nat)
    requires MapAll(f, Concat(AreaSections(sections))).Success?
    requires 1 <= s < |sections| && k < |sections[s]|
    ensures |MapAll(f, Concat(AreaSections(sections))).value| == TotalLength(sections[1..])
    ensures TotalLength(sections[1..s]) + k < TotalLength(sections[1..])
    ensures f(sections[s][k]).Success?
    ensures MapAll(f, Concat(AreaSections(sections))).value[TotalLength(sections[1..s]) + k] == f(sections[s][k]).value
  {
    var listed := sections[1..];
    assert AreaSections(sections) == listed;
    assert listed[s - 1] == sections[s] && listed[..s - 1] == sections[1..s];
    MapAllAt(f, listed, s - 1, k);
  }

  // ---------------------------------------------------------------------------
  // stahni_citace_v_oblasti

  /** The JSON text of the counter list: the `ng-init` attribute of the map
      element with its call stripped and its quotes rewritten. */
  function CounterListText(ngInit: Option<string>): (r: Result<string, ScrapeError>)
    ensures ngInit.None? ==> r == Failure(MissingCounterList)
    ensures ngInit.Some? ==> r == Success(Normalise(InitPayload(ngInit.value)))
    ensures ngInit.Some? ==> |r.value| >= |InitPayload(ngInit.value)|
  {
    match ngInit
    case None => Failure(MissingCounterList)
    case Some(attr) => Success(Normalise(InitPayload(attr)))
  }

  /** For an attribute `init_counters(<payload>)`, the text decoded is the
      normalised payload. */
  lemma CounterListOfCall(payload: string)
    ensures CounterListText(Some(InitCall + payload + ")")) == Success(Normalise(payload))
  {
    InitPayloadOfCall(payload);
  }

  /** A map marker: the two numbers of `addGoogleMarker(map, markersArray, lat, lon,`. */
  datatype Position = Position(lat: string, lon: string)

  /** One row of citace.csv. */
  datatype Counter = Counter(id: string, name: string, lat: string, lon: string)

  /** One decoded record `{nodeid, name}` and the marker of its page; keys are
      read in the order `nodeid`, `name`, and the page is fetched last. */
  function CounterOf(entry: map<string, string>, locate: string -> Option<Position>): (r: Result<Counter, ScrapeError>)
    ensures r.Success? <==> "nodeid" in entry && "name" in entry && locate(entry["nodeid"]).Some?
    ensures r.Success? ==>
      r.value == Counter(entry["nodeid"], entry["name"], locate(entry["nodeid"]).value.lat, locate(entry["nodeid"]).value.lon)
  {
    if "nodeid" !in entry then Failure(MissingKey("nodeid"))
    else if "name" !in entry then Failure(MissingKey("name"))
    else match locate(entry["nodeid"])
      case None => Failure(NoPosition(entry["nodeid"]))
      case Some(p) => Success(Counter(entry["nodeid"], entry["name"], p.lat, p.lon))
  }

  function CounterParser(locate: string -> Option<Position>): map<string, string> -> Result<Counter, ScrapeError>
  {
    entry => CounterOf(entry, locate)
  }

  /** The loop of stahni_citace_v_oblasti: one counter per decoded record, in
      record order, all or nothing. */
  method CountersInArea(entries: seq<map<string, string>>, locate: string -> Option<Position>)
    returns (r: Result<seq<Counter>, ScrapeError>)
    ensures r == MapAll(CounterParser(locate), entries)
  {
    ghost var f := CounterParser(locate);
    var counters: seq<Counter> := [];
    var i := 0;
    while i < |entries|
      invariant 0 <= i <= |entries|
      invariant Stream(f, entries[..i]) == Run(counters, None)
    {
      FlatStep(f, entries, i);
      var c := CounterOf(entries[i], locate);
      if c.Failure? {
        return Failure(c.error);
      }
      counters := counters + [c.value];
      i := i + 1;
    }
    assert entries[..i] == entries;
    r := Success(counters);
  }

  /** An area's counters are found iff every record has `nodeid` and `name`
      and every counter page has a marker; then counter i is record i's. */
  lemma AreaCountersMeaning(entries: seq<map<string, string>>, locate: string -> Option<Position>)
    ensures MapAll(CounterParser(locate), entries).Success? <==>
      forall i :: 0 <= i < |entries| ==>
        "nodeid" in entries[i] && "name" in entries[i] && locate(entries[i]["nodeid"]).Some?
    ensures MapAll(CounterParser(locate), entries).Success? ==>
      |MapAll(CounterParser(locate), entries).value| == |entries| &&
      forall i :: 0 <= i < |entries| ==>
        "nodeid" in entries[i] && "name" in entries[i] && locate(entries[i]["nodeid"]).Some? &&
        MapAll(CounterParser(locate), entries).value[i] ==
          Counter(entries[i]["nodeid"], entries[i]["name"],
                  locate(entries[i]["nodeid"]).value.lat, locate(entries[i]["nodeid"]).value.lon)
  {
    MapAllMeaning(CounterParser(locate), entries);
  }

  // ---------------------------------------------------------------------------
  // stahni_data_citacu: the counter table and the join table

  /** The counters found for one area. */
  datatype AreaCounters = AreaCounters(areaId: string, counters: seq<Counter>)

  /** One row of oblasti_x_citace.csv. */
  datatype Membership = Membership(areaId: string, counterId: string)

  /** A counter as met in the loop, with the area it was met in. */
  datatype Occurrence = Occurrence(areaId: string, counter: Counter)

  function Tagged(area: AreaCounters): seq<Occurrence>
  {
    seq(|area.counters|, j requires 0 <= j < |area.counters| => Occurrence(area.areaId, area.counters[j]))
  }

  function TaggedAll(areas: seq<AreaCounters>): seq<seq<Occurrence>>
  {
    seq(|areas|, i requires 0 <= i < |areas| => Tagged(areas[i]))
  }

  /** Every counter of every area, in area order and then counter order. */
  function Occurrences(areas: seq<AreaCounters>): seq<Occurrence>
  {
    Concat(TaggedAll(areas))
  }

  function Ids(counters: seq<Counter>): set<string>
  {
    set c | c in counters :: c.id
  }

  function OccurrenceIds(occ: seq<Occurrence>): set<string>
  {
    set o | o in occ :: o.counter.id
  }

  ghost predicate UniqueIds(counters: seq<Counter>)
  {
    forall i, j :: 0 <= i < j < |counters| ==> counters[i].id != counters[j].id
  }

  /** The counter table: each counter the first time its id is met. */
  function FirstSeen(occ: seq<Occurrence>): seq<Counter>
    decreases |occ|
  {
    if occ == [] then []
    else
      var table := FirstSeen(occ[..|occ| - 1]);
      var c := occ[|occ| - 1].counter;
      if c.id in Ids(table) then table else table + [c]
  }

  /** The join table: one row per occurrence, in loop order. */
  function JoinRows(occ: seq<Occurrence>): seq<Membership>
  {
    seq(|occ|, k requires 0 <= k < |occ| => Membership(occ[k].areaId, occ[k].counter.id))
  }

  /** The position where `id` is first met. */
  function FirstIndex(occ: seq<Occurrence>, id: string): (k: nat)
    requires id in OccurrenceIds(occ)
    ensures k < |occ| && occ[k].counter.id == id
    ensures forall j :: 0 <= j < k ==> occ[j].counter.id != id
  {
    if occ[0].counter.id == id then 0
    else
      assert id in OccurrenceIds(occ[1..]) by {
        var o :| o in occ && o.counter.id == id;
        var i :| 0 <= i < |occ| && occ[i] == o;
        assert occ[1..][i - 1] == o;
      }
      FirstIndex(occ[1..], id) + 1
  }

  /** The first position of an id does not move when the list grows. */
  lemma FirstIndexPrefix(occ: seq<Occurrence>, n: nat, id: string)
    requires n <= |occ| && id in OccurrenceIds(occ[..n])
    ensures id in OccurrenceIds(occ)
    ensures FirstIndex(occ[..n], id) == FirstIndex(occ, id)
  {
    var o :| o in occ[..n] && o.counter.id == id;
    assert o in occ;
    assert forall j :: 0 <= j < n ==> occ[..n][j] == occ[j];
  }

  lemma IdsSnoc(counters: seq<Counter>, c: Counter)
    ensures Ids(counters + [c]) == Ids(counters) + {c.id}
  {
    assert forall d :: d in counters + [c] <==> d in counters || d == c;
  }

  lemma OccurrenceIdsSnoc(occ: seq<Occurrence>, o: Occurrence)
    ensures OccurrenceIds(occ + [o]) == OccurrenceIds(occ) + {o.counter.id}
  {
    assert forall p :: p in occ + [o] <==> p in occ || p == o;
  }

  /** One more occurrence adds its counter to the table iff its id is new. */
  lemma FirstSeenSnoc(occ: seq<Occurrence>, o: Occurrence)
    ensures FirstSeen(occ + [o]) ==
      if o.counter.id in Ids(FirstSeen(occ)) then FirstSeen(occ) else FirstSeen(occ) + [o.counter]
  {
    assert (occ + [o])[..|occ|] == occ;
  }

  lemma JoinRowsSnoc(occ: seq<Occurrence>, o: Occurrence)
    ensures JoinRows(occ + [o]) == JoinRows(occ) + [Membership(o.areaId, o.counter.id)]
  {
  }

  /** The ids in the counter table are exactly the ids met. */
  lemma {:induction false} FirstSeenIds(occ: seq<Occurrence>)
    ensures Ids(FirstSeen(occ)) == OccurrenceIds(occ)
    decreases |occ|
  {
    if occ != [] {
      var init, last := occ[..|occ| - 1], occ[|occ| - 1];
      assert occ == init + [last];
      FirstSeenIds(init);
      FirstSeenSnoc(init, last);
      OccurrenceIdsSnoc(init, last);
      IdsSnoc(FirstSeen(init), last.counter);
    }
  }

  /** No id appears twice in the counter table. */
  lemma {:induction false} FirstSeenUnique(occ: seq<Occurrence>)
    ensures UniqueIds(FirstSeen(occ))
    decreases |occ|
  {
    if occ != [] {
      var init, last := occ[..|occ| - 1], occ[|occ| - 1];
      assert occ == init + [last];
      FirstSeenUnique(init);
      FirstSeenSnoc(init, last);
      var prev := FirstSeen(init);
      if last.counter.id !in Ids(prev) {
        forall i | 0 <= i < |prev|
          ensures prev[i].id != last.counter.id
        {
          assert prev[i] in prev;
        }
      }
    }
  }

  /** Each row of `table` is the record met first in `occ` under its id. */
  ghost predicate FirstMet(occ: seq<Occurrence>, table: seq<Counter>)
  {
    forall i :: 0 <= i < |table| ==>
      table[i].id in OccurrenceIds(occ) && table[i] == occ[FirstIndex(occ, table[i].id)].counter
  }

  /** Each row of the counter table is the record met first under its id. */
  lemma {:induction false} FirstSeenFirst(occ: seq<Occurrence>)
    ensures FirstMet(occ, FirstSeen(occ))
    decreases |occ|
  {
    if occ == [] {
      assert FirstSeen(occ) == [];
    } else {
      var n := |occ| - 1;
      var init, last := occ[..n], occ[n];
      assert occ == init + [last];
      FirstSeenFirst(init);
      FirstSeenIds(init);
      FirstSeenSnoc(init, last);
      FirstMetStep(occ, n, FirstSeen(init));
    }
  }

  /** The step of FirstSeenFirst: earlier rows keep their first positions, and
      a row appended for a new id is the occurrence just met. */
  lemma FirstMetStep(occ: seq<Occurrence>, n: nat, prev: seq<Counter>)
    requires n + 1 == |occ|
    requires FirstMet(occ[..n], prev) && Ids(prev) == OccurrenceIds(occ[..n])
    ensures FirstMet(occ, if occ[n].counter.id in Ids(prev) then prev else prev + [occ[n].counter])
  {
    var init := occ[..n];
    forall i | 0 <= i < |prev|
      ensures prev[i].id in OccurrenceIds(occ)
      ensures prev[i] == occ[FirstIndex(occ, prev[i].id)].counter
    {
      FirstIndexPrefix(occ, n, prev[i].id);
      assert occ[FirstIndex(occ, prev[i].id)] == init[FirstIndex(init, prev[i].id)];
    }
    if occ[n].counter.id !in Ids(prev) {
      FirstIndexAfter(occ, n);
      var table := prev + [occ[n].counter];
      forall i | 0 <= i < |table|
        ensures table[i].id in OccurrenceIds(occ)
        ensures table[i] == occ[FirstIndex(occ, table[i].id)].counter
      {
        if i < |prev| {
          assert table[i] == prev[i];
        }
      }
    }
  }

  /** The last occurrence is the first of its id when no earlier one has it. */
  lemma FirstIndexAfter(occ: seq<Occurrence>, n: nat)
    requires n < |occ| && occ[n].counter.id !in OccurrenceIds(occ[..n])
    ensures occ[n].counter.id in OccurrenceIds(occ)
    ensures FirstIndex(occ, occ[n].counter.id) == n
  {
    assert occ[n] in occ;
    forall j | 0 <= j < n
      ensures occ[j].counter.id != occ[n].counter.id
    {
      assert occ[..n][j] == occ[j];
      assert occ[j] in occ[..n];
    }
  }

  /** The rows of `table` appear in the order their ids were first met in `occ`. */
  ghost predicate InFirstSeenOrder(occ: seq<Occurrence>, table: seq<Counter>)
  {
    forall i, j :: 0 <= i < j < |table| ==>
      table[i].id in OccurrenceIds(occ) && table[j].id in OccurrenceIds(occ) &&
      FirstIndex(occ, table[i].id) < FirstIndex(occ, table[j].id)
  }

  /** Counters appear in the table in the order their ids were first met. */
  lemma {:induction false} FirstSeenOrder(occ: seq<Occurrence>)
    ensures InFirstSeenOrder(occ, FirstSeen(occ))
    decreases |occ|
  {
    if occ == [] {
      assert FirstSeen(occ) == [];
    } else {
      var n := |occ| - 1;
      var init, last := occ[..n], occ[n];
      assert occ == init + [last];
      FirstSeenOrder(init);
      FirstSeenIds(init);
      FirstSeenSnoc(init, last);
      FirstSeenOrderStep(occ, n, FirstSeen(init));
    }
  }

  /** The step of FirstSeenOrder: a counter appended for a new id comes after
      every earlier row, since its id is first met last. */
  lemma FirstSeenOrderStep(occ: seq<Occurrence>, n: nat, prev: seq<Counter>)
    requires n + 1 == |occ|
    requires InFirstSeenOrder(occ[..n], prev) && Ids(prev) == OccurrenceIds(occ[..n])
    ensures InFirstSeenOrder(occ, if occ[n].counter.id in Ids(prev) then prev else prev + [occ[n].counter])
  {
    var init, last := occ[..n], occ[n];
    forall i | 0 <= i < |prev|
      ensures prev[i].id in OccurrenceIds(occ)
      ensures FirstIndex(init, prev[i].id) == FirstIndex(occ, prev[i].id) < n
    {
      assert prev[i] in prev;
      FirstIndexPrefix(occ, n, prev[i].id);
    }
    if last.counter.id !in Ids(prev) {
      FirstIndexAfter(occ, n);
      var table := prev + [last.counter];
      forall i, j | 0 <= i < j < |table|
        ensures table[i].id in OccurrenceIds(occ) && table[j].id in OccurrenceIds(occ)
        ensures FirstIndex(occ, table[i].id) < FirstIndex(occ, table[j].id)
      {
        assert table[i] == prev[i];
        if j < |prev| {
          assert table[j] == prev[j];
        }
      }
    }
  }

  /** The counters of one area as stahni_citace_v_oblasti returns them. */
  function AreaFetch(countersOf: string -> Result<seq<Counter>, ScrapeError>): Area -> Result<AreaCounters, ScrapeError>
  {
    (area: Area) => match countersOf(area.id)
      case Failure(e) => Failure(e)
      case Success(found) => Success(AreaCounters(area.id, found))
  }

  lemma OccurrencesSnoc(done: seq<AreaCounters>, area: AreaCounters)
    ensures Occurrences(done + [area]) == Occurrences(done) + Tagged(area)
  {
    assert TaggedAll(done + [area]) == TaggedAll(done) + [Tagged(area)];
    var all := TaggedAll(done + [area]);
    assert all[..|done|] == TaggedAll(done) && all[..|done| + 1] == all;
    ConcatSnoc(all, |done|);
  }

  /** One more counter of an area extends the occurrences scanned so far. */
  lemma TaggedStep(before: seq<Occurrence>, area: AreaCounters, c: nat)
    requires c < |area.counters|
    ensures (before + Tagged(area)[..c]) + [Occurrence(area.areaId, area.counters[c])] == before + Tagged(area)[..c + 1]
  {
    assert Tagged(area)[..c] + [Tagged(area)[c]] == Tagged(area)[..c + 1];
  }

  /** One iteration of the inner loop keeps the tables equal to their
      specifications: the counter is added iff its id was not yet seen. */
  lemma RecordOccurrence(occ: seq<Occurrence>, o: Occurrence, counters: seq<Counter>, seen: set<string>)
    requires counters == FirstSeen(occ) && seen == Ids(counters)
    ensures FirstSeen(occ + [o]) == if o.counter.id in seen then counters else counters + [o.counter]
    ensures Ids(FirstSeen(occ + [o])) == seen + {o.counter.id}
    ensures JoinRows(occ + [o]) == JoinRows(occ) + [Membership(o.areaId, o.counter.id)]
  {
    FirstSeenSnoc(occ, o);
    IdsSnoc(counters, o.counter);
    JoinRowsSnoc(occ, o);
  }

  /** The inner loop of stahni_data_citacu over the counters of one area,
      continuing the tables built from the occurrences `before`. */
  method ScanArea(area: AreaCounters, ghost before: seq<Occurrence>,
                  counters0: seq<Counter>, memberships0: seq<Membership>, seen0: set<string>)
    returns (counters: seq<Counter>, memberships: seq<Membership>, seen: set<string>)
    requires counters0 == FirstSeen(before) && seen0 == Ids(counters0) && memberships0 == JoinRows(before)
    ensures counters == FirstSeen(before + Tagged(area)) && seen == Ids(counters)
    ensures memberships == JoinRows(before + Tagged(area))
  {
    counters, memberships, seen := counters0, memberships0, seen0;
    ghost var tagged := Tagged(area);
    ghost var occ := before;
    var c := 0;
    while c < |area.counters|
      invariant 0 <= c <= |area.counters|
      invariant occ == before + tagged[..c]
      invariant counters == FirstSeen(occ) && seen == Ids(counters)
      invariant memberships == JoinRows(occ)
    {
      var counter := area.counters[c];
      ghost var o := Occurrence(area.areaId, counter);
      TaggedStep(before, area, c);
      RecordOccurrence(occ, o, counters, seen);
      memberships := memberships + [Membership(area.areaId, counter.id)];
      if counter.id !in seen {
        seen := seen + {counter.id};
        counters := counters + [counter];
      }
      occ := occ + [o];
      c := c + 1;
    }
    assert tagged[..c] == tagged;
  }

  /** The nested loops of stahni_data_citacu over the areas and their
      counters: a join row for every occurrence, a counter row only the first
      time its id is seen. The counters of each area are fetched as the loop
      reaches it; a failure there ends the run with the counter rows written
      so far, and the join table is then never written. */
  method CollectCounters(areas: seq<Area>, countersOf: string -> Result<seq<Counter>, ScrapeError>)
    returns (counters: seq<Counter>, memberships: seq<Membership>, failure: Option<ScrapeError>)
    ensures failure == Stream(AreaFetch(countersOf), areas).failure
    ensures counters == FirstSeen(Occurrences(Stream(AreaFetch(countersOf), areas).written))
    ensures memberships == JoinRows(Occurrences(Stream(AreaFetch(countersOf), areas).written))
    ensures UniqueIds(counters)
    ensures Ids(counters) == OccurrenceIds(Occurrences(Stream(AreaFetch(countersOf), areas).written))
  {
    counters := [];
    memberships := [];
    var seen: set<string> := {};
    ghost var f := AreaFetch(countersOf);
    ghost var done: seq<AreaCounters> := [];
    ghost var occ: seq<Occurrence> := [];
    var a := 0;
    while a < |areas|
      invariant 0 <= a <= |areas|
      invariant Stream(f, areas[..a]) == Run(done, None)
      invariant occ == Occurrences(done)
      invariant counters == FirstSeen(occ) && seen == Ids(counters)
      invariant memberships == JoinRows(occ)
    {
      var area := areas[a];
      StreamSnoc(f, areas[..a], area);
      assert areas[..a] + [area] == areas[..a + 1];
      var found := countersOf(area.id);
      if found.Failure? {
        StreamStopsAt(f, areas, a + 1);
        FirstSeenIds(occ);
        FirstSeenUnique(occ);
        return counters, memberships, Some(found.error);
      }
      var listed := AreaCounters(area.id, found.value);
      OccurrencesSnoc(done, listed);
      counters, memberships, seen := ScanArea(listed, occ, counters, memberships, seen);
      occ := occ + Tagged(listed);
      done := done + [listed];
      a := a + 1;
    }
    assert areas[..a] == areas;
    FirstSeenIds(occ);
    FirstSeenUnique(occ);
    failure := None;
  }

  /** When every area was fetched, the areas are scanned in listing order. */
  lemma ScannedAreas(areas: seq<Area>, countersOf: string -> Result<seq<Counter>, ScrapeError>, i: nat)
    requires Stream(AreaFetch(countersOf), areas).failure.None?
    requires i < |areas|
    ensures |Stream(AreaFetch(countersOf), areas).written| == |areas|
    ensures countersOf(areas[i].id).Success?
    ensures Stream(AreaFetch(countersOf), areas).written[i] == AreaCounters(areas[i].id, countersOf(areas[i].id).value)
  {
    StreamMeaning(AreaFetch(countersOf), areas);
  }

  /** The join table has one row per occurrence: counter `j` of area `i` is
      row TotalLength(TaggedAll(areas)[..i]) + j, whether or not the counter
      was met before. */
  lemma MembershipAt(areas: seq<AreaCounters>, i: nat, j: nat)
    requires i < |areas| && j < |areas[i].counters|
    ensures var rows := JoinRows(Occurrences(areas));
      TotalLength(TaggedAll(areas)[..i]) + j < |rows| &&
      rows[TotalLength(TaggedAll(areas)[..i]) + j] == Membership(areas[i].areaId, areas[i].counters[j].id)
  {
    ConcatAt(TaggedAll(areas), i, j);
  }

  // ---------------------------------------------------------------------------
  // stahni_data_citacu: the time series

  const NodeIdKey: string := "ScitacNodeID"
  const DayKey: string := "YMD"
  const CounterIdKey: string := "id_citace"
  const DateKey: string := "datum"

  /** A record with `ScitacNodeID` renamed to `id_citace` and `YMD` to `datum`. */
  function Renamed<V>(m: map<string, V>): (r: Result<map<string, V>, ScrapeError>)
    ensures r.Success? <==> NodeIdKey in m && DayKey in m
    ensures r.Failure? ==> r.error == MissingKey(if NodeIdKey !in m then NodeIdKey else DayKey)
    ensures r.Success? ==> r.value.Keys == m.Keys - {NodeIdKey, DayKey} + {CounterIdKey, DateKey}
    ensures r.Success? ==> r.value[CounterIdKey] == m[NodeIdKey] && r.value[DateKey] == m[DayKey]
    ensures r.Success? ==> forall k :: k in r.value && k != CounterIdKey && k != DateKey ==> k in m && r.value[k] == m[k]
  {
    if NodeIdKey !in m then Failure(MissingKey(NodeIdKey))
    else if DayKey !in m then Failure(MissingKey(DayKey))
    else Success(m[CounterIdKey := m[NodeIdKey]][DateKey := m[DayKey]] - {NodeIdKey, DayKey})
  }

  /** One decoded time-series record, a dictionary renamed in place. */
  class TimeSeriesRow<V> {
    var fields: map<string, V>

    constructor (fields: map<string, V>)
      ensures this.fields == fields
    {
      this.fields := fields;
    }

    /** The four statements of the loop body: two assignments, two `del`s.
        A missing key raises after the assignments before it. */
    method Rename() returns (missing: Option<string>)
      modifies this
      ensures missing.None? ==> Renamed(old(fields)) == Success(fields)
      ensures missing.Some? ==> Renamed(old(fields)) == Failure(MissingKey(missing.value))
      ensures missing == Some(NodeIdKey) ==> fields == old(fields)
      ensures missing == Some(DayKey) ==> fields == old(fields)[CounterIdKey := old(fields)[NodeIdKey]]
    {
      ghost var m := fields;
      if NodeIdKey !in fields {
        return Some(NodeIdKey);
      }
      fields := fields[CounterIdKey := fields[NodeIdKey]];
      if DayKey !in fields {
        return Some(DayKey);
      }
      fields := fields[DateKey := fields[DayKey]];
      fields := fields - {NodeIdKey};
      fields := fields - {DayKey};
      assert fields == m[CounterIdKey := m[NodeIdKey]][DateKey := m[DayKey]] - {NodeIdKey, DayKey};
      missing := None;
    }
  }

  /** The records the API returns for each counter, in counter-table order. */
  function Downloads<V>(counters: seq<Counter>, fetch: string -> seq<map<string, V>>): seq<seq<map<string, V>>>
  {
    seq(|counters|, i requires 0 <= i < |counters| => fetch(counters[i].id))
  }

  /** data.csv as the run leaves it: rows are written one by one, so a record
      missing a key ends the run after the rows before it. */
  function TimeSeriesRun<V>(counters: seq<Counter>, fetch: string -> seq<map<string, V>>): Run<map<string, V>, ScrapeError>
  {
    Stream(Renamed, Concat(Downloads(counters, fetch)))
  }

  /** The last loop of stahni_data_citacu. */
  method TimeSeries<V>(counters: seq<Counter>, fetch: string -> seq<map<string, V>>)
    returns (run: Run<map<string, V>, ScrapeError>)
    ensures run == TimeSeriesRun(counters, fetch)
  {
    ghost var grid := Downloads(counters, fetch);
    var written: seq<map<string, V>> := [];
    var i := 0;
    while i < |counters|
      invariant 0 <= i <= |counters|
      invariant Stream(Renamed, Concat(grid[..i])) == Run(written, None)
    {
      var records := fetch(counters[i].id);
      var k := 0;
      ConsumedStart(grid, i);
      while k < |records|
        invariant 0 <= k <= |records|
        invariant Stream(Renamed, Consumed(grid, i, k)) == Run(written, None)
      {
        NestedStep(Renamed, grid, i, k);
        var row := new TimeSeriesRow(records[k]);
        var missing := row.Rename();
        if missing.Some? {
          return Run(written, Some(MissingKey(missing.value)));
        }
        written := written + [row.fields];
        k := k + 1;
      }
      ConsumedRow(grid, i);
      i := i + 1;
    }
    assert grid[..i] == grid;
    run := Run(written, None);
  }

  /** A run without error writes every record of every counter, counter by
      counter in table order and each counter's records in API order, each
      renamed. */
  lemma TimeSeriesOrder<V>(counters: seq<Counter>, fetch: string -> seq<map<string, V>>, i: nat, k: nat)
    requires TimeSeriesRun(counters, fetch).failure.None?
    requires i < |counters| && k < |fetch(counters[i].id)|
    ensures var grid := Downloads(counters, fetch);
      var written := TimeSeriesRun(counters, fetch).written;
      |written| == TotalLength(grid) &&
      TotalLength(grid[..i]) + k < |written| &&
      Renamed(fetch(counters[i].id)[k]).Success? &&
      written[TotalLength(grid[..i]) + k] == Renamed(fetch(counters[i].id)[k]).value
  {
    var grid := Downloads(counters, fetch);
    StreamMeaning(Renamed, Concat(grid));
    ConcatLength(grid);
    ConcatAt(grid, i, k);
  }
}
