/** The GeoJSON-to-{lon, lat} converter of coordinates.py. The script repeats
    the same steps for three protected-area polygons and one river; here they
    are one method with a mode: `Ring` takes the outer ring of a polygon,
    `Segments` joins the parts of a multi-segment line. Coordinate values are
    an opaque type `C`: they are copied, never computed with. */
module Coordinates {
  import opened Wrappers
  import opened Sequences

  /** One `{"lon": ..., "lat": ...}` object of the output array. */
  datatype LonLat<C> = LonLat(lon: C, lat: C)

  /** A GeoJSON position `[lon, lat, ...]`. */
  type Vertex<C> = seq<C>

  /** A feature, reduced to its `geometry.coordinates`: the rings of a polygon
      or the segments of a line, each a list of positions. */
  datatype Feature<C> = Feature(coordinates: seq<seq<Vertex<C>>>)

  datatype Mode = Ring | Segments

  /** The IndexError the script would raise: no feature, no ring, or a position
      with fewer than two components. */
  datatype CoordinateError = NoFeature | NoRing | ShortVertex

  /** `{"lon": coordinate[0], "lat": coordinate[1]}`. */
  function ToRecord<C>(v: Vertex<C>): (r: Result<LonLat<C>, CoordinateError>)
    ensures r.Success? <==> |v| >= 2
    ensures r.Success? ==> r.value == LonLat(v[0], v[1])
  {
    if |v| < 2 then Failure(ShortVertex) else Success(LonLat(v[0], v[1]))
  }

  /** The loop `for coordinate in ...: formated_coordinates.append(...)`. */
  method FlattenVertices<C>(vertices: seq<Vertex<C>>) returns (r: Result<seq<LonLat<C>>, CoordinateError>)
    ensures r == MapAll(ToRecord, vertices)
    ensures r.Success? <==> forall i :: 0 <= i < |vertices| ==> |vertices[i]| >= 2
    ensures r.Success? ==>
      |r.value| == |vertices| &&
      forall i :: 0 <= i < |vertices| ==> r.value[i] == LonLat(vertices[i][0], vertices[i][1])
  {
    var formatted: seq<LonLat<C>> := [];
    var i := 0;
    while i < |vertices|
      invariant 0 <= i <= |vertices|
      invariant Stream(ToRecord, vertices[..i]) == Run(formatted, None)
    {
      var v := vertices[i];
      FlatStep(ToRecord, vertices, i);
      if |v| < 2 {
        r := Failure(ShortVertex);
        MapAllMeaning(ToRecord, vertices);
        return;
      }
      formatted := formatted + [LonLat(v[0], v[1])];
      i := i + 1;
    }
    assert vertices[..i] == vertices;
    r := Success(formatted);
    MapAllMeaning(ToRecord, vertices);
  }

  /** The loop `for seznam in ...: coordinates_all += seznam`. */
  method JoinSegments<T>(segments: seq<seq<T>>) returns (all: seq<T>)
    ensures all == Concat(segments)
    ensures |all| == TotalLength(segments)
  {
    all := [];
    var i := 0;
    while i < |segments|
      invariant 0 <= i <= |segments|
      invariant all == Concat(segments[..i])
    {
      ConcatSnoc(segments, i);
      all := all + segments[i];
      i := i + 1;
    }
    assert segments[..i] == segments;
    ConcatLength(segments);
  }

  /** What one conversion writes: `features[0].geometry.coordinates[0]` flattened
      in ring mode, all segments joined and flattened in segment mode. */
  function Converted<C>(features: seq<Feature<C>>, mode: Mode): Result<seq<LonLat<C>>, CoordinateError>
  {
    if features == [] then Failure(NoFeature)
    else match mode
      case Ring =>
        if features[0].coordinates == [] then Failure(NoRing)
        else MapAll(ToRecord, features[0].coordinates[0])
      case Segments => MapAll(ToRecord, Concat(features[0].coordinates))
  }

  method Convert<C>(features: seq<Feature<C>>, mode: Mode) returns (r: Result<seq<LonLat<C>>, CoordinateError>)
    ensures r == Converted(features, mode)
    ensures features == [] ==> r == Failure(NoFeature)
  {
    if |features| == 0 {
      return Failure(NoFeature);
    }
    var coordinates := features[0].coordinates;
    match mode
    case Ring =>
      if |coordinates| == 0 {
        return Failure(NoRing);
      }
      r := FlattenVertices(coordinates[0]);
    case Segments =>
      var all := JoinSegments(coordinates);
      r := FlattenVertices(all);
  }

  /** Ring mode: one record per position of the outer ring, in ring order,
      taking components 0 and 1; a position with fewer than two components is
      an error. Rings after the first (holes) do not occur in the statement. */
  lemma PolygonOutput<C>(features: seq<Feature<C>>)
    requires features != [] && features[0].coordinates != []
    ensures var ring := features[0].coordinates[0];
      var r := Converted(features, Ring);
      (r.Success? <==> forall i :: 0 <= i < |ring| ==> |ring[i]| >= 2) &&
      (r.Success? ==>
        |r.value| == |ring| &&
        forall i :: 0 <= i < |ring| ==> r.value[i] == LonLat(ring[i][0], ring[i][1]))
  {
    MapAllMeaning(ToRecord, features[0].coordinates[0]);
  }

  /** Line mode: the output has one record per position of all segments
      together, and position `k` of segment `s` becomes record
      TotalLength(segments[..s]) + k: segment order, then order within it. */
  lemma LineOutput<C>(features: seq<Feature<C>>, s: nat, k: nat)
    requires features != [] && Converted(features, Segments).Success?
    requires s < |features[0].coordinates| && k < |features[0].coordinates[s]|
    ensures var segments := features[0].coordinates;
      var out := Converted(features, Segments).value;
      |out| == TotalLength(segments) &&
      TotalLength(segments[..s]) + k < |out| &&
      |segments[s][k]| >= 2 &&
      out[TotalLength(segments[..s]) + k] == LonLat(segments[s][k][0], segments[s][k][1])
  {
    var segments := features[0].coordinates;
    MapAllMeaning(ToRecord, Concat(segments));
    ConcatLength(segments);
    ConcatAt(segments, s, k);
  }

  /** Line mode fails exactly when some position of some segment has fewer
      than two components. */
  lemma LineFailure<C>(features: seq<Feature<C>>)
    requires features != []
    ensures var segments := features[0].coordinates;
      Converted(features, Segments).Failure? <==>
      exists s, k :: 0 <= s < |segments| && 0 <= k < |segments[s]| && |segments[s][k]| < 2
  {
    var segments := features[0].coordinates;
    var all := Concat(segments);
    MapAllMeaning(ToRecord, all);
    if Converted(features, Segments).Failure? {
      var j :| 0 <= j < |all| && ToRecord(all[j]).Failure?;
      var s, k := LocateInConcat(segments, j);
      ConcatAt(segments, s, k);
    } else {
      forall s, k | 0 <= s < |segments| && 0 <= k < |segments[s]|
        ensures |segments[s][k]| >= 2
      {
        ConcatAt(segments, s, k);
      }
    }
  }

  /** Every position of the joined list comes from some segment. */
  lemma {:induction false} LocateInConcat<T>(segs: seq<seq<T>>, j: nat) returns (s: nat, k: nat)
    requires j < |Concat(segs)|
    ensures s < |segs| && k < |segs[s]| && TotalLength(segs[..s]) + k == j
  {
    ConcatLength(segs[1..]);
    if j < |segs[0]| {
      s, k := 0, j;
      assert segs[..0] == [];
    } else {
      var s', k' := LocateInConcat(segs[1..], j - |segs[0]|);
      s, k := s' + 1, k';
      assert segs[..s][1..] == segs[1..][..s'];
    }
  }
}
