/**
 * Survey records (pkg/densitysurvey/measurement.go) and the correlation of
 * their points with coordinates looked up by system name.
 *
 * Float32 values are modelled as reals; they are only parsed, defaulted and
 * copied, never computed with.
 */
module Measurement {
  import opened Outcomes
  import opened Google

  /** One sampled system of a survey. */
  datatype DataPoint = DataPoint(x: real, y: real, z: real, systemName: string, zSample: int, count: int, maxDistance: real)

  /** Go's zero value of DataPoint. */
  const ZeroPoint := DataPoint(0.0, 0.0, 0.0, "", 0, 0, 0.0)

  /** One worksheet's survey: commander, project, worksheet name and its points. */
  datatype Measurement = Measurement(cmdr: string, project: string, name: string, dataPoints: seq<DataPoint>)

  /** The lookup service's coordinates, in its own axis order. */
  datatype Coordinates = Coordinates(x: real, y: real, z: real)

  /** One lookup result. */
  datatype SystemData = SystemData(name: string, id: int, coords: Coordinates)

  /** The name lookup (EDSM's systems endpoint), given the list of names. */
  type Lookup = seq<string> -> Result<seq<SystemData>, CallError>

  /** The names sent to the lookup: one per point, in order, duplicates kept. */
  function Names(points: seq<DataPoint>): (names: seq<string>)
    ensures |names| == |points|
    ensures forall i :: 0 <= i < |points| ==> names[i] == points[i].systemName
  {
    seq(|points|, i requires 0 <= i < |points| => points[i].systemName)
  }

  /** The index of the first lookup result carrying the given name. */
  function FirstByName(results: seq<SystemData>, name: string): (r: Option<nat>)
    ensures r.Some? ==> r.value < |results| && results[r.value].name == name
    ensures r.Some? ==> forall j :: 0 <= j < r.value ==> results[j].name != name
    ensures r.None? ==> forall j :: 0 <= j < |results| ==> results[j].name != name
    decreases |results|
  {
    if |results| == 0 then None
    else if results[0].name == name then Some(0)
    else match FirstByName(results[1..], name)
      case None => None
      case Some(i) => Some(i + 1)
  }

  /** The search result is determined by where the first match is. */
  lemma FirstByNameIsFirstMatch(results: seq<SystemData>, name: string, j: nat)
    requires j < |results| && results[j].name == name
    requires forall i :: 0 <= i < j ==> results[i].name != name
    ensures FirstByName(results, name) == Some(j)
  {
  }

  /** A point with the coordinates of a lookup result; the service's Y and Z axes are swapped. */
  function WithCoordinates(p: DataPoint, c: Coordinates): (q: DataPoint)
    ensures q.systemName == p.systemName && q.zSample == p.zSample && q.count == p.count && q.maxDistance == p.maxDistance
    ensures q.x == c.x && q.y == c.z && q.z == c.y
  {
    p.(x := c.x, y := c.z, z := c.y)
  }

  /** One point after correlation: the first result with its name sets its coordinates; none leaves it as is. */
  function Correlated(p: DataPoint, results: seq<SystemData>): (q: DataPoint)
    ensures q.systemName == p.systemName && q.zSample == p.zSample && q.count == p.count && q.maxDistance == p.maxDistance
    ensures FirstByName(results, p.systemName).None? ==> q == p
    ensures FirstByName(results, p.systemName).Some? ==>
      var c := results[FirstByName(results, p.systemName).value].coords;
      q.x == c.x && q.y == c.z && q.z == c.y
  {
    match FirstByName(results, p.systemName)
    case None => p
    case Some(i) => WithCoordinates(p, results[i].coords)
  }

  /** All points after correlation. */
  function CorrelateAll(points: seq<DataPoint>, results: seq<SystemData>): (r: seq<DataPoint>)
    ensures |r| == |points|
    ensures forall i :: 0 <= i < |points| ==> r[i] == Correlated(points[i], results)
  {
    seq(|points|, i requires 0 <= i < |points| => Correlated(points[i], results))
  }

  /**
   * Measurement.LookupNames, on the backing array of m.DataPoints that it
   * updates in place. The other fields of the measurement are not touched.
   */
  method LookupNames(points: array<DataPoint>, lookup: Lookup) returns (err: Option<CallError>)
    modifies points
    ensures lookup(Names(old(points[..]))).Err? ==>
      err == Some(lookup(Names(old(points[..]))).error) && points[..] == old(points[..])
    ensures lookup(Names(old(points[..]))).Ok? ==>
      err == None && points[..] == CorrelateAll(old(points[..]), lookup(Names(old(points[..]))).value)
  {
    var names: seq<string> := [];
    for i := 0 to points.Length
      invariant names == Names(points[..i])
    {
      names := names + [points[i].systemName];
    }
    assert points[..points.Length] == points[..];
    var res := lookup(names);
    if res.Err? {
      return Some(res.error);
    }
    var lookupres := res.value;
    for i := 0 to points.Length
      invariant forall k :: 0 <= k < i ==> points[k] == Correlated(old(points[k]), lookupres)
      invariant forall k :: i <= k < points.Length ==> points[k] == old(points[k])
    {
      var dp := points[i];
      for j := 0 to |lookupres|
        invariant forall k :: 0 <= k < j ==> lookupres[k].name != dp.systemName
        invariant points[i] == dp
      {
        var sys := lookupres[j];
        if sys.name == dp.systemName {
          FirstByNameIsFirstMatch(lookupres, dp.systemName, j);
          points[i] := points[i].(x := sys.coords.x);
          points[i] := points[i].(y := sys.coords.z);
          points[i] := points[i].(z := sys.coords.y);
          break;
        }
      }
    }
    return None;
  }

  /** Correlating twice with the same results changes nothing more. */
  lemma CorrelateIdempotent(points: seq<DataPoint>, results: seq<SystemData>)
    ensures CorrelateAll(CorrelateAll(points, results), results) == CorrelateAll(points, results)
  {
    var once := CorrelateAll(points, results);
    forall i | 0 <= i < |points|
      ensures Correlated(once[i], results) == once[i]
    {
      assert once[i].systemName == points[i].systemName;
    }
  }

  /** Correlation keeps the names, so a second lookup would be sent the same list. */
  lemma CorrelateKeepsNames(points: seq<DataPoint>, results: seq<SystemData>)
    ensures Names(CorrelateAll(points, results)) == Names(points)
  {
  }

  /** A point named "Sol" and a result {Sol, (1, 2, 3)}: X stays 1, Y becomes 3 and Z becomes 2. */
  lemma SolAxisSwap(p: DataPoint, rest: seq<SystemData>)
    requires p.systemName == "Sol"
    ensures var q := Correlated(p, [SystemData("Sol", 27, Coordinates(1.0, 2.0, 3.0))] + rest);
      q.x == 1.0 && q.y == 3.0 && q.z == 2.0
  {
  }

  /** Later results with the same name are ignored. */
  lemma LaterDuplicatesIgnored(p: DataPoint, first: SystemData, later: SystemData)
    requires first.name == p.systemName && later.name == p.systemName
    ensures Correlated(p, [first, later]) == WithCoordinates(p, first.coords)
  {
  }
}
