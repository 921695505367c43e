/** The recycling points endpoints of the server (`points.py`): the list of points, the
    points nearest to a position, filling in missing coordinates through the geocoding
    service, and the map settings for the client.

    The numerics are parameters: the great-circle distance (`_haversine_km`), `round(d, 2)`
    and the text Python prints for a float. The geocoding service is a function from the
    address it is asked for to its answer, None when the request raised. */
module Points {
  import opened Wrappers
  import Db
  import Http
  import Settings
  import Sorting
  import Url

  /** One point as the endpoints return it. */
  datatype PointOut = PointOut(id: int, name: string, address: string, lat: Option<real>, lon: Option<real>,
                               category: string, notes: string, sourceUrl: string)

  function Shown(id: int, p: Db.Point): PointOut {
    PointOut(id, p.name, p.address, p.lat, p.lon, p.category, p.notes, p.sourceUrl)
  }

  function Everything(): Db.Point -> bool {
    (p: Db.Point) => true
  }

  /** The rows of `SELECT ... FROM points ORDER BY id`. The query of `nearest` has no
      `ORDER BY`; it is read in the same id order. */
  function AllPoints(t: Db.Tables): seq<(int, Db.Point)> {
    Db.Select(t.points, Everything(), 1, t.nextPointId)
  }

  function Listing(rows: seq<(int, Db.Point)>): (r: seq<PointOut>)
    ensures |r| == |rows| && forall i :: 0 <= i < |rows| ==> r[i] == Shown(rows[i].0, rows[i].1)
  {
    seq(|rows|, i requires 0 <= i < |rows| => Shown(rows[i].0, rows[i].1))
  }

  /** `list_points`. */
  function ListOutcome(t: Db.Tables): seq<PointOut> {
    Listing(AllPoints(t))
  }

  // ------------------------------------------------------------------ nearest

  /** The distance in kilometres, `round(d, 2)`, and the text of a float. */
  datatype Numerics = Numerics(dist: (real, real, real, real) -> real, round2: real -> real, repr: real -> string)

  /** The distance given to a point without coordinates. */
  const Sentinel: real := 1000000000.0
  /** Distances from this one on are answered as no distance. */
  const FarLimit: real := 100000000.0

  const SearchPrefix: string := "https://www.openstreetmap.org/search?query="
  const DirectionsPrefix: string := "https://www.openstreetmap.org/directions?engine=fossgis_osrm_car&route="

  predicate Located(p: PointOut) {
    p.lat.Some? && p.lon.Some?
  }

  /** The ranking key of a point seen from `(lat, lon)`. */
  function Distance(lat: real, lon: real, p: PointOut, num: Numerics): real {
    if !Located(p) then Sentinel else num.dist(lat, lon, p.lat.value, p.lon.value)
  }

  /** A point of the answer of `nearest`. */
  datatype NearItem = NearItem(point: PointOut, distanceKm: Option<real>, searchUrl: string, directionsUrl: string)

  function SearchUrl(address: string): string {
    SearchPrefix + Url.Quote(address)
  }

  /** The `route` parameter: from the position to the point. */
  function Route(lat: real, lon: real, pointLat: real, pointLon: real, num: Numerics): string {
    num.repr(lat) + "," + num.repr(lon) + ";" + num.repr(pointLat) + "," + num.repr(pointLon)
  }

  function DirectionsUrl(lat: real, lon: real, p: PointOut, num: Numerics): string {
    if Located(p) then DirectionsPrefix + Route(lat, lon, p.lat.value, p.lon.value, num)
    else SearchUrl(p.address)
  }

  function Item(lat: real, lon: real, p: PointOut, num: Numerics): NearItem {
    var d := Distance(lat, lon, p, num);
    NearItem(p, if d >= FarLimit then None else Some(num.round2(d)), SearchUrl(p.address), DirectionsUrl(lat, lon, p, num))
  }

  /** The list `scored` of `(distance, item)` pairs, in the order of the rows. */
  function Scored(lat: real, lon: real, rows: seq<PointOut>, num: Numerics): (r: seq<(real, NearItem)>)
    ensures |r| == |rows|
    ensures forall i :: 0 <= i < |rows| ==> r[i] == (Distance(lat, lon, rows[i], num), Item(lat, lon, rows[i], num))
  {
    seq(|rows|, i requires 0 <= i < |rows| => (Distance(lat, lon, rows[i], num), Item(lat, lon, rows[i], num)))
  }

  /** `scored.sort(key=lambda x: x[0])`. */
  function Ranked(lat: real, lon: real, rows: seq<PointOut>, num: Numerics): seq<(real, NearItem)> {
    Sorting.SortByKey(Scored(lat, lon, rows, num))
  }

  /** `[it for _, it in scored[:k]]`. */
  function Near(lat: real, lon: real, rows: seq<PointOut>, k: int, num: Numerics): seq<NearItem> {
    Sorting.Values(Sorting.Take(Ranked(lat, lon, rows, num), k))
  }

  /** `nearest`. */
  function NearestOutcome(t: Db.Tables, lat: real, lon: real, k: int, num: Numerics): seq<NearItem> {
    Near(lat, lon, ListOutcome(t), k, num)
  }

  /** The query's `k` when the client sends none. */
  const DefaultK: int := 10

  /** `nearest` as the handler runs it: the loop that scores every row, then the sort and the
      slice, for the query's `k` (`DefaultK` when absent). */
  method Nearest(db: Db.Database, lat: real, lon: real, k: int, num: Numerics) returns (items: seq<NearItem>)
    ensures items == NearestOutcome(db.Snapshot(), lat, lon, k, num)
  {
    var rows := ListOutcome(db.Snapshot());
    var scored: seq<(real, NearItem)> := [];
    for i := 0 to |rows|
      invariant scored == Scored(lat, lon, rows[..i], num)
    {
      var r := rows[i];
      var d := if r.lat.None? || r.lon.None? then Sentinel else num.dist(lat, lon, r.lat.value, r.lon.value);
      var item := NearItem(r, if d >= FarLimit then None else Some(num.round2(d)), SearchUrl(r.address),
                           DirectionsUrl(lat, lon, r, num));
      assert (d, item) == (Distance(lat, lon, rows[..i + 1][i], num), Item(lat, lon, rows[..i + 1][i], num));
      scored := scored + [(d, item)];
    }
    assert rows[..|rows|] == rows;
    items := Sorting.Values(Sorting.Take(Sorting.SortByKey(scored), k));
  }

  // ------------------------------------------------------------------ geocode_missing

  const ForbiddenError: string := "Forbidden"
  const DisabledError: string := "ARCGIS_GEOCODE_ENABLE=false"
  /** What the handler appends to each address before asking the service. */
  const CitySuffix: string := ", Guayaquil, Ecuador"
  const ServerError: Http.Failure := Http.Failure(500, "Internal Server Error")

  /** The answer: `{"ok": false, "error": ...}` or `{"ok": true, "updated": n}`. */
  datatype GeoReply = Refused(error: string) | Updated(updated: nat)

  /** A latitude and a longitude as the service answers them, each possibly missing. */
  type Answer = (Option<real>, Option<real>)

  /** `geocode_single_line(address + ", Guayaquil, Ecuador", key)`: no request without a key. */
  function Geocode(address: string, key: string, lookup: string -> Option<Answer>): Option<Answer> {
    if key == "" then Some((None, None)) else lookup(address + CitySuffix)
  }

  /** `lat IS NULL OR lon IS NULL`. */
  predicate Missing(p: Db.Point) {
    p.lat.None? || p.lon.None?
  }

  function MissingCoords(): Db.Point -> bool {
    (p: Db.Point) => Missing(p)
  }

  /** Both coordinates came. */
  predicate Found(a: Answer) {
    a.0.Some? && a.1.Some?
  }

  /** A point without coordinates whose lookup answered both. */
  predicate Fillable(p: Db.Point, key: string, lookup: string -> Option<Answer>) {
    Missing(p) && Geocode(p.address, key, lookup).Some? && Found(Geocode(p.address, key, lookup).value)
  }

  /** A point without coordinates whose lookup raised. */
  predicate Raises(p: Db.Point, key: string, lookup: string -> Option<Answer>) {
    Missing(p) && Geocode(p.address, key, lookup).None?
  }

  /** `UPDATE points SET lat=?, lon=?, updated_at=? WHERE id=?`. */
  function Fill(p: Db.Point, a: Answer, now: int): Db.Point {
    p.(lat := a.0, lon := a.1, updatedAt := now)
  }

  /** The points and the counter `updated` after the loop has seen `rows`; None once a lookup raised. */
  datatype Run = Run(points: map<int, Db.Point>, updated: nat)

  function GeoRun(points: map<int, Db.Point>, rows: seq<(int, Db.Point)>, key: string,
                  lookup: string -> Option<Answer>, now: int): Option<Run>
    decreases |rows|
  {
    if rows == [] then Some(Run(points, 0))
    else
      match GeoRun(points, rows[..|rows| - 1], key, lookup, now)
      case None => None
      case Some(run) =>
        var id := rows[|rows| - 1].0;
        match Geocode(rows[|rows| - 1].1.address, key, lookup)
        case None => None
        case Some(a) =>
          if !Found(a) then Some(run)
          else if id in run.points then Some(Run(run.points[id := Fill(run.points[id], a, now)], run.updated + 1))
          else Some(Run(run.points, run.updated + 1))
  }

  datatype GeoResult = GeoResult(after: Db.Tables, reply: Result<GeoReply, Http.Failure>)

  /** `geocode_missing`: the admin key, then the switch, then the loop over the points
      missing a coordinate, committed at its end. A raising lookup ends the request before
      the commit, so nothing is stored. */
  function GeocodeOutcome(t: Db.Tables, s: Settings.Config, adminKey: string,
                          lookup: string -> Option<Answer>, now: int): GeoResult {
    if adminKey != s.adminApiKey then GeoResult(t, Ok(Refused(ForbiddenError)))
    else if !s.arcgisGeocodeEnable then GeoResult(t, Ok(Refused(DisabledError)))
    else
      match GeoRun(t.points, Db.Select(t.points, MissingCoords(), 1, t.nextPointId), s.arcgisApiKey, lookup, now)
      case None => GeoResult(t, Err(ServerError))
      case Some(run) => GeoResult(t.(points := run.points), Ok(Updated(run.updated)))
  }

  /** Once a lookup raised, the rest of the rows does not matter. */
  lemma {:induction false} GeoRunStaysFailed(points: map<int, Db.Point>, rows: seq<(int, Db.Point)>, i: int, key: string,
                                             lookup: string -> Option<Answer>, now: int)
    requires 0 <= i <= |rows| && GeoRun(points, rows[..i], key, lookup, now).None?
    ensures GeoRun(points, rows, key, lookup, now).None?
    decreases |rows|
  {
    if i < |rows| {
      assert rows[..|rows| - 1][..i] == rows[..i];
      GeoRunStaysFailed(points, rows[..|rows| - 1], i, key, lookup, now);
    } else {
      assert rows[..i] == rows;
    }
  }

  /** `geocode_missing` as the handler runs it: the updates go to the open transaction
      (`points`) and are committed after the loop. */
  method GeocodeMissing(db: Db.Database, s: Settings.Config, adminKey: string, lookup: string -> Option<Answer>, now: int)
    returns (reply: Result<GeoReply, Http.Failure>)
    modifies db
    ensures GeoResult(db.Snapshot(), reply) == GeocodeOutcome(old(db.Snapshot()), s, adminKey, lookup, now)
  {
    if adminKey != s.adminApiKey {
      return Ok(Refused(ForbiddenError));
    }
    if !s.arcgisGeocodeEnable {
      return Ok(Refused(DisabledError));
    }
    var rows := Db.Select(db.points, MissingCoords(), 1, db.nextPointId);
    var points := db.points;
    var updated := 0;
    for i := 0 to |rows|
      invariant GeoRun(db.points, rows[..i], s.arcgisApiKey, lookup, now) == Some(Run(points, updated))
    {
      assert rows[..i + 1][..i] == rows[..i];
      var a := Geocode(rows[i].1.address, s.arcgisApiKey, lookup);
      if a.None? {
        GeoRunStaysFailed(db.points, rows, i + 1, s.arcgisApiKey, lookup, now);
        return Err(ServerError);
      }
      if a.value.0.Some? && a.value.1.Some? {
        if rows[i].0 in points {
          points := points[rows[i].0 := Fill(points[rows[i].0], a.value, now)];
        }
        updated := updated + 1;
      }
    }
    assert rows[..|rows|] == rows;
    db.points := points;
    return Ok(Updated(updated));
  }

  // ------------------------------------------------------------------ map_config

  /** The answer of `map_config`. */
  datatype MapConfig = MapConfig(provider: string, apiKey: string, basemapUrl: string, tiles: string)

  /** `key[:6] + "..." if key else ""`. */
  function Mask(key: string): string {
    if key == "" then "" else key[..if |key| < 6 then |key| else 6] + "..."
  }

  const BasemapUrl: string := "https://basemaps-api.arcgis.com/arcgis/rest/services/styles/ArcGIS:Streets?type=style"
  const TilesUrl: string := "https://server.arcgisonline.com/ArcGIS/rest/services/World_Street_Map/MapServer/tile/{z}/{y}/{x}"

  /** `map_config`: the ArcGIS settings the client initialises its maps with. */
  function MapConfigOutcome(s: Settings.Config): MapConfig {
    MapConfig("arcgis", Mask(s.arcgisApiKey), BasemapUrl, TilesUrl)
  }

  // ------------------------------------------------------------------ properties: list_points

  /** `list_points` shows every stored point once, in increasing id order. */
  lemma ListPointsContents(t: Db.Tables)
    requires Db.Consistent(t)
    ensures forall i :: 0 <= i < |ListOutcome(t)| ==>
      ListOutcome(t)[i].id in t.points && ListOutcome(t)[i] == Shown(ListOutcome(t)[i].id, t.points[ListOutcome(t)[i].id])
    ensures forall id :: id in t.points ==> exists i :: 0 <= i < |ListOutcome(t)| && ListOutcome(t)[i].id == id
    ensures forall i, j :: 0 <= i < j < |ListOutcome(t)| ==> ListOutcome(t)[i].id < ListOutcome(t)[j].id
  {
    var rows := AllPoints(t);
    Db.SelectRows(t.points, Everything(), 1, t.nextPointId);
    Db.SelectComplete(t.points, Everything(), 1, t.nextPointId);
    forall id | id in t.points ensures exists i :: 0 <= i < |ListOutcome(t)| && ListOutcome(t)[i].id == id {
      assert (id, t.points[id]) in rows;
      var i :| 0 <= i < |rows| && rows[i] == (id, t.points[id]);
      assert ListOutcome(t)[i].id == id;
    }
  }

  // ------------------------------------------------------------------ properties: nearest

  /** A point without coordinates gets the sentinel distance and no `distance_km`; a
      located point gets its rounded distance, as long as distances stay below 1e8 km (the
      great-circle distance on Earth is at most about 20 000 km). */
  lemma ItemDistance(lat: real, lon: real, p: PointOut, num: Numerics)
    requires forall a, b, c, d :: num.dist(a, b, c, d) < FarLimit
    ensures Item(lat, lon, p, num).distanceKm.None? <==> !Located(p)
    ensures Located(p) ==> Item(lat, lon, p, num).distanceKm == Some(num.round2(num.dist(lat, lon, p.lat.value, p.lon.value)))
    ensures Located(p) ==> Distance(lat, lon, p, num) < Distance(lat, lon, PointOut(0, "", "", None, None, "", "", ""), num)
  {
  }

  /** `directions_url` is the OpenStreetMap route from the position to the point when the
      point has coordinates, and the search link otherwise; the two differ for every
      located point. */
  lemma ItemUrls(lat: real, lon: real, p: PointOut, num: Numerics)
    ensures Item(lat, lon, p, num).searchUrl == SearchPrefix + Url.Quote(p.address)
    ensures Located(p) ==> (Item(lat, lon, p, num).directionsUrl ==
      DirectionsPrefix + num.repr(lat) + "," + num.repr(lon) + ";" + num.repr(p.lat.value) + "," + num.repr(p.lon.value))
    ensures Item(lat, lon, p, num).directionsUrl == Item(lat, lon, p, num).searchUrl <==> !Located(p)
  {
    var item := Item(lat, lon, p, num);
    if Located(p) {
      var route := Route(lat, lon, p.lat.value, p.lon.value, num);
      assert item.directionsUrl == DirectionsPrefix + route;
      PrefixesDiffer(route, Url.Quote(p.address));
      RouteConcat(DirectionsPrefix, num.repr(lat), num.repr(lon), num.repr(p.lat.value), num.repr(p.lon.value));
    } else {
      assert item.directionsUrl == SearchUrl(p.address);
    }
  }

  /** Re-association of the `route` parameter behind a prefix. */
  lemma RouteConcat(pre: string, a: string, b: string, c: string, d: string)
    ensures pre + (a + "," + b + ";" + c + "," + d) == pre + a + "," + b + ";" + c + "," + d
  {
  }

  /** A directions link is never a search link: the two prefixes differ at the path. */
  lemma PrefixesDiffer(route: string, query: string)
    ensures DirectionsPrefix + route != SearchPrefix + query
  {
    var d, s := DirectionsPrefix + route, SearchPrefix + query;
    assert d[30] == DirectionsPrefix[30] == 'd';
    assert s[30] == SearchPrefix[30] == 's';
  }

  /** The number of items is that of Python's slice `[:k]`, negative `k` included. */
  lemma NearLength(lat: real, lon: real, rows: seq<PointOut>, k: int, num: Numerics)
    ensures k >= 0 ==> |Near(lat, lon, rows, k, num)| == if k <= |rows| then k else |rows|
    ensures k < 0 ==> |Near(lat, lon, rows, k, num)| == if |rows| + k >= 0 then |rows| + k else 0
  {
  }

  /** An entry of the ranking is the score of one of the rows. */
  lemma RankedEntry(lat: real, lon: real, rows: seq<PointOut>, num: Numerics, i: int)
    requires 0 <= i < |Ranked(lat, lon, rows, num)|
    ensures exists q :: 0 <= q < |rows| && Ranked(lat, lon, rows, num)[i] == Scored(lat, lon, rows, num)[q]
  {
    Sorting.SortMember(Scored(lat, lon, rows, num), i);
  }

  /** Every item is the item of one of the rows, and the items come nearest first. */
  lemma NearOrdered(lat: real, lon: real, rows: seq<PointOut>, k: int, num: Numerics)
    ensures var r := Near(lat, lon, rows, k, num);
      forall i :: 0 <= i < |r| ==> r[i].point in rows && r[i] == Item(lat, lon, r[i].point, num)
    ensures var r := Near(lat, lon, rows, k, num);
      forall i, j :: 0 <= i < j < |r| ==> Distance(lat, lon, r[i].point, num) <= Distance(lat, lon, r[j].point, num)
  {
    var srt := Ranked(lat, lon, rows, num);
    var r := Near(lat, lon, rows, k, num);
    Sorting.SortProperties(Scored(lat, lon, rows, num));
    forall i | 0 <= i < |r| ensures r[i].point in rows && r[i] == Item(lat, lon, r[i].point, num) {
      NearRankedAt(lat, lon, rows, k, num, i);
      RankedEntry(lat, lon, rows, num, i);
    }
    forall i, j | 0 <= i < j < |r| ensures Distance(lat, lon, r[i].point, num) <= Distance(lat, lon, r[j].point, num) {
      NearRankedAt(lat, lon, rows, k, num, i);
      NearRankedAt(lat, lon, rows, k, num, j);
      assert srt[i].0 <= srt[j].0;
    }
  }

  /** The items are the nearest ones: a row whose item was left out is at least as far as
      every item returned. */
  lemma NearClosest(lat: real, lon: real, rows: seq<PointOut>, k: int, num: Numerics, q: int)
    requires 0 <= q < |rows| && Item(lat, lon, rows[q], num) !in Near(lat, lon, rows, k, num)
    ensures var r := Near(lat, lon, rows, k, num);
      forall i :: 0 <= i < |r| ==> Distance(lat, lon, r[i].point, num) <= Distance(lat, lon, rows[q], num)
  {
    var sc := Scored(lat, lon, rows, num);
    var r := Near(lat, lon, rows, k, num);
    assert sc[q] in sc;
    Sorting.TakeClosest(sc, k, sc[q]);
    forall i | 0 <= i < |r| ensures Distance(lat, lon, r[i].point, num) <= Distance(lat, lon, rows[q], num) {
      NearRankedAt(lat, lon, rows, k, num, i);
    }
  }

  /** Item `i` of the answer is the item of entry `i` of the ranking, at that entry's distance. */
  lemma NearRankedAt(lat: real, lon: real, rows: seq<PointOut>, k: int, num: Numerics, i: int)
    requires 0 <= i < |Near(lat, lon, rows, k, num)|
    ensures var srt := Ranked(lat, lon, rows, num);
      i < |srt| && Near(lat, lon, rows, k, num)[i] == srt[i].1 &&
      srt[i].0 == Distance(lat, lon, srt[i].1.point, num)
  {
    var srt := Ranked(lat, lon, rows, num);
    RankedEntry(lat, lon, rows, num, i);
  }

  /** The sort is stable: items at the same distance keep the increasing id order of the rows. */
  lemma NearTies(lat: real, lon: real, rows: seq<PointOut>, k: int, num: Numerics)
    requires forall a, b :: 0 <= a < b < |rows| ==> rows[a].id < rows[b].id
    ensures var r := Near(lat, lon, rows, k, num);
      forall i, j :: 0 <= i < j < |r| && Distance(lat, lon, r[i].point, num) == Distance(lat, lon, r[j].point, num) ==>
        r[i].point.id < r[j].point.id
  {
    var sc := Scored(lat, lon, rows, num);
    var srt := Ranked(lat, lon, rows, num);
    var r := Near(lat, lon, rows, k, num);
    forall i, j | 0 <= i < j < |r| && Distance(lat, lon, r[i].point, num) == Distance(lat, lon, r[j].point, num)
      ensures r[i].point.id < r[j].point.id
    {
      RankedEntry(lat, lon, rows, num, i);
      RankedEntry(lat, lon, rows, num, j);
      Sorting.SortTies(sc, i, j);
      var a, b :| 0 <= a < b < |sc| && sc[a] == srt[i] && sc[b] == srt[j];
      assert r[i].point == rows[a] && r[j].point == rows[b];
    }
  }

  /** With distances below 1e8 km, every located point comes before every point without
      coordinates. */
  lemma NearLocatedFirst(lat: real, lon: real, rows: seq<PointOut>, k: int, num: Numerics)
    requires forall a, b, c, d :: num.dist(a, b, c, d) < FarLimit
    ensures var r := Near(lat, lon, rows, k, num);
      forall i, j :: 0 <= i < j < |r| && Located(r[j].point) ==> Located(r[i].point)
  {
    var r := Near(lat, lon, rows, k, num);
    NearOrdered(lat, lon, rows, k, num);
    forall i, j | 0 <= i < j < |r| && Located(r[j].point) ensures Located(r[i].point) {
      var pt := r[j].point;
      assert Distance(lat, lon, pt, num) == num.dist(lat, lon, pt.lat.value, pt.lon.value) < FarLimit;
    }
  }

  /** `nearest` over the stored points: at most `k` of them (the slice rule for negative
      `k`), nearest first, ties in id order, and no left-out point nearer than one returned. */
  lemma NearestRanking(t: Db.Tables, lat: real, lon: real, k: int, num: Numerics)
    requires Db.Consistent(t)
    ensures var r := NearestOutcome(t, lat, lon, k, num);
      && (k >= 0 ==> |r| == if k <= |ListOutcome(t)| then k else |ListOutcome(t)|)
      && (forall i :: 0 <= i < |r| ==> r[i].point in ListOutcome(t) && r[i] == Item(lat, lon, r[i].point, num))
      && (forall i, j :: 0 <= i < j < |r| ==> Distance(lat, lon, r[i].point, num) <= Distance(lat, lon, r[j].point, num))
      && (forall i, j :: 0 <= i < j < |r| && Distance(lat, lon, r[i].point, num) == Distance(lat, lon, r[j].point, num) ==>
            r[i].point.id < r[j].point.id)
  {
    ListPointsContents(t);
    NearLength(lat, lon, ListOutcome(t), k, num);
    NearOrdered(lat, lon, ListOutcome(t), k, num);
    NearTies(lat, lon, ListOutcome(t), k, num);
  }

  // ------------------------------------------------------------------ properties: geocode_missing

  function FillableBy(key: string, lookup: string -> Option<Answer>): Db.Point -> bool {
    (p: Db.Point) => Fillable(p, key, lookup)
  }

  function RaisesBy(key: string, lookup: string -> Option<Answer>): Db.Point -> bool {
    (p: Db.Point) => Raises(p, key, lookup)
  }

  /** What the loop has done once it has seen the points missing a coordinate with ids in
      `[1, hi)`: it failed exactly when one of their lookups raised; otherwise it filled
      exactly the points whose lookup answered both coordinates, and counted them. */
  predicate GeoRunDone(points: map<int, Db.Point>, key: string, lookup: string -> Option<Answer>, now: int, hi: int) {
    var run := GeoRun(points, Db.Select(points, MissingCoords(), 1, hi), key, lookup, now);
    && (run.None? <==> Db.Select(points, RaisesBy(key, lookup), 1, hi) != [])
    && (run.Some? ==>
        && run.value.points.Keys == points.Keys
        && run.value.updated == |Db.Select(points, FillableBy(key, lookup), 1, hi)|
        && forall id :: id in points ==> (run.value.points[id] ==
             if 1 <= id < hi && Fillable(points[id], key, lookup) then Fill(points[id], Geocode(points[id].address, key, lookup).value, now)
             else points[id]))
  }

  /** The loop over the points missing a coordinate with ids in `[1, hi)`: it fails exactly
      when one of their lookups raises; otherwise it fills exactly the points whose lookup
      answered both coordinates, and counts them. */
  lemma {:induction false} GeoRunUpTo(points: map<int, Db.Point>, key: string, lookup: string -> Option<Answer>, now: int, hi: int)
    requires hi >= 1
    ensures GeoRunDone(points, key, lookup, now, hi)
    decreases hi
  {
    if hi > 1 {
      GeoRunUpTo(points, key, lookup, now, hi - 1);
      if hi - 1 in points && Missing(points[hi - 1]) {
        GeoRunTake(points, key, lookup, now, hi - 1);
      } else {
        GeoRunSkip(points, key, lookup, now, hi - 1);
      }
    }
  }

  /** A row with both coordinates, or no row, at id `h` leaves the loop as it was. */
  lemma GeoRunSkip(points: map<int, Db.Point>, key: string, lookup: string -> Option<Answer>, now: int, h: int)
    requires h >= 1 && !(h in points && Missing(points[h]))
    requires GeoRunDone(points, key, lookup, now, h)
    ensures GeoRunDone(points, key, lookup, now, h + 1)
  {
    if h in points {
      assert !MissingCoords()(points[h]) && !RaisesBy(key, lookup)(points[h]) && !FillableBy(key, lookup)(points[h]);
    }
    Db.SelectSnoc(points, MissingCoords(), 1, h);
    Db.SelectSnoc(points, RaisesBy(key, lookup), 1, h);
    Db.SelectSnoc(points, FillableBy(key, lookup), 1, h);
    assert Db.Select(points, MissingCoords(), 1, h + 1) == Db.Select(points, MissingCoords(), 1, h);
    assert Db.Select(points, RaisesBy(key, lookup), 1, h + 1) == Db.Select(points, RaisesBy(key, lookup), 1, h);
    assert Db.Select(points, FillableBy(key, lookup), 1, h + 1) == Db.Select(points, FillableBy(key, lookup), 1, h);
    var run := GeoRun(points, Db.Select(points, MissingCoords(), 1, h), key, lookup, now);
    if run.Some? {
      forall id | id in points
        ensures run.value.points[id] ==
          if 1 <= id < h + 1 && Fillable(points[id], key, lookup) then Fill(points[id], Geocode(points[id].address, key, lookup).value, now)
          else points[id]
      {
        if id == h {
          assert !Fillable(points[h], key, lookup);
        }
      }
    }
  }

  /** A row missing a coordinate at id `h` is looked up after the earlier ones. */
  lemma GeoRunTake(points: map<int, Db.Point>, key: string, lookup: string -> Option<Answer>, now: int, h: int)
    requires h >= 1 && h in points && Missing(points[h])
    requires GeoRunDone(points, key, lookup, now, h)
    ensures GeoRunDone(points, key, lookup, now, h + 1)
  {
    var p := points[h];
    assert MissingCoords()(p);
    assert RaisesBy(key, lookup)(p) == Raises(p, key, lookup);
    assert FillableBy(key, lookup)(p) == Fillable(p, key, lookup);
    Db.SelectSnoc(points, MissingCoords(), 1, h);
    Db.SelectSnoc(points, RaisesBy(key, lookup), 1, h);
    Db.SelectSnoc(points, FillableBy(key, lookup), 1, h);
    match Geocode(p.address, key, lookup)
    case None =>
      GeoRunTakeRaises(points, key, lookup, now, h);
    case Some(a) =>
      if Found(a) {
        GeoRunTakeFound(points, key, lookup, now, h, a);
      } else {
        GeoRunTakeBlank(points, key, lookup, now, h, a);
      }
  }

  /** The rows the loop sees up to `h + 1`: those up to `h`, then the row at `h`. */
  lemma GeoRunRows(points: map<int, Db.Point>, key: string, lookup: string -> Option<Answer>, now: int, h: int)
    requires h >= 1 && h in points
    requires Db.Select(points, MissingCoords(), 1, h + 1) == Db.Select(points, MissingCoords(), 1, h) + [(h, points[h])]
    ensures var rows := Db.Select(points, MissingCoords(), 1, h + 1);
      && rows != []
      && rows[..|rows| - 1] == Db.Select(points, MissingCoords(), 1, h)
      && rows[|rows| - 1] == (h, points[h])
  {
    var rows := Db.Select(points, MissingCoords(), 1, h + 1);
    assert rows[..|rows| - 1] == Db.Select(points, MissingCoords(), 1, h);
  }

  /** A raising lookup at `h` ends the loop in failure. */
  lemma GeoRunTakeRaises(points: map<int, Db.Point>, key: string, lookup: string -> Option<Answer>, now: int, h: int)
    requires h >= 1 && h in points && Raises(points[h], key, lookup)
    requires GeoRunDone(points, key, lookup, now, h)
    requires Db.Select(points, MissingCoords(), 1, h + 1) == Db.Select(points, MissingCoords(), 1, h) + [(h, points[h])]
    requires Db.Select(points, RaisesBy(key, lookup), 1, h + 1) == Db.Select(points, RaisesBy(key, lookup), 1, h) + [(h, points[h])]
    ensures GeoRunDone(points, key, lookup, now, h + 1)
  {
    GeoRunRows(points, key, lookup, now, h);
    assert GeoRun(points, Db.Select(points, MissingCoords(), 1, h + 1), key, lookup, now).None?;
  }

  /** A lookup at `h` that answers both coordinates fills the point and counts it. */
  lemma GeoRunTakeFound(points: map<int, Db.Point>, key: string, lookup: string -> Option<Answer>, now: int, h: int, a: Answer)
    requires h >= 1 && h in points && Missing(points[h]) && Geocode(points[h].address, key, lookup) == Some(a) && Found(a)
    requires GeoRunDone(points, key, lookup, now, h)
    requires Db.Select(points, MissingCoords(), 1, h + 1) == Db.Select(points, MissingCoords(), 1, h) + [(h, points[h])]
    requires Db.Select(points, RaisesBy(key, lookup), 1, h + 1) == Db.Select(points, RaisesBy(key, lookup), 1, h)
    requires Db.Select(points, FillableBy(key, lookup), 1, h + 1) == Db.Select(points, FillableBy(key, lookup), 1, h) + [(h, points[h])]
    ensures GeoRunDone(points, key, lookup, now, h + 1)
  {
    GeoRunRows(points, key, lookup, now, h);
    var prev := GeoRun(points, Db.Select(points, MissingCoords(), 1, h), key, lookup, now);
    var run := GeoRun(points, Db.Select(points, MissingCoords(), 1, h + 1), key, lookup, now);
    if prev.Some? {
      assert prev.value.points[h] == points[h];
      var filled := prev.value.points[h := Fill(points[h], a, now)];
      assert run == Some(Run(filled, prev.value.updated + 1));
      forall id | id in points
        ensures filled[id] ==
          if 1 <= id < h + 1 && Fillable(points[id], key, lookup) then Fill(points[id], Geocode(points[id].address, key, lookup).value, now)
          else points[id]
      {
        if id != h {
          assert filled[id] == prev.value.points[id];
        }
      }
    }
  }

  /** A lookup at `h` that answers without both coordinates leaves the loop as it was. */
  lemma GeoRunTakeBlank(points: map<int, Db.Point>, key: string, lookup: string -> Option<Answer>, now: int, h: int, a: Answer)
    requires h >= 1 && h in points && Missing(points[h]) && Geocode(points[h].address, key, lookup) == Some(a) && !Found(a)
    requires GeoRunDone(points, key, lookup, now, h)
    requires Db.Select(points, MissingCoords(), 1, h + 1) == Db.Select(points, MissingCoords(), 1, h) + [(h, points[h])]
    requires Db.Select(points, RaisesBy(key, lookup), 1, h + 1) == Db.Select(points, RaisesBy(key, lookup), 1, h)
    requires Db.Select(points, FillableBy(key, lookup), 1, h + 1) == Db.Select(points, FillableBy(key, lookup), 1, h)
    ensures GeoRunDone(points, key, lookup, now, h + 1)
  {
    GeoRunRows(points, key, lookup, now, h);
    var prev := GeoRun(points, Db.Select(points, MissingCoords(), 1, h), key, lookup, now);
    var run := GeoRun(points, Db.Select(points, MissingCoords(), 1, h + 1), key, lookup, now);
    assert run == prev;
  }

  /** A wrong admin key is refused first, a disabled service next; neither touches the tables. */
  lemma GeocodeGuards(t: Db.Tables, s: Settings.Config, adminKey: string, lookup: string -> Option<Answer>, now: int)
    ensures adminKey != s.adminApiKey ==>
      GeocodeOutcome(t, s, adminKey, lookup, now) == GeoResult(t, Ok(Refused("Forbidden")))
    ensures adminKey == s.adminApiKey && !s.arcgisGeocodeEnable ==>
      GeocodeOutcome(t, s, adminKey, lookup, now) == GeoResult(t, Ok(Refused("ARCGIS_GEOCODE_ENABLE=false")))
    ensures GeocodeOutcome(t, s, adminKey, lookup, now).reply.Ok? && GeocodeOutcome(t, s, adminKey, lookup, now).reply.value.Refused? ==>
      adminKey != s.adminApiKey || !s.arcgisGeocodeEnable
  {
  }

  /** Past the guards, the request fails, storing nothing, exactly when the lookup of a point
      missing a coordinate raises; otherwise it fills in exactly the points missing a
      coordinate whose lookup answered both, with `updated_at` the time of the request,
      leaves every other point as it was, and answers how many it filled. */
  lemma GeocodeEffect(t: Db.Tables, s: Settings.Config, lookup: string -> Option<Answer>, now: int)
    requires Db.Consistent(t) && s.arcgisGeocodeEnable
    ensures var r := GeocodeOutcome(t, s, s.adminApiKey, lookup, now);
      && (r.reply.Err? <==> exists id :: id in t.points && Raises(t.points[id], s.arcgisApiKey, lookup))
      && (r.reply.Err? ==> r.after == t && r.reply.error == ServerError)
    ensures var r := GeocodeOutcome(t, s, s.adminApiKey, lookup, now);
      r.reply.Ok? ==>
        && r.after == t.(points := r.after.points)
        && r.after.points.Keys == t.points.Keys
        && (forall id :: id in t.points ==> (r.after.points[id] ==
              if Fillable(t.points[id], s.arcgisApiKey, lookup)
              then Fill(t.points[id], Geocode(t.points[id].address, s.arcgisApiKey, lookup).value, now)
              else t.points[id]))
        && r.reply.value == Updated(|Db.Select(t.points, FillableBy(s.arcgisApiKey, lookup), 1, t.nextPointId)|)
  {
    var key := s.arcgisApiKey;
    GeoRunUpTo(t.points, key, lookup, now, t.nextPointId);
    Db.SelectEmpty(t.points, RaisesBy(key, lookup), 1, t.nextPointId);
  }

  /** Without a key the service is never asked and nothing is filled. */
  lemma GeocodeWithoutKey(t: Db.Tables, s: Settings.Config, lookup: string -> Option<Answer>, now: int)
    requires Db.Consistent(t) && s.arcgisGeocodeEnable && s.arcgisApiKey == ""
    ensures GeocodeOutcome(t, s, s.adminApiKey, lookup, now) == GeoResult(t, Ok(Updated(0)))
  {
    GeocodeEffect(t, s, lookup, now);
    Db.SelectEmpty(t.points, FillableBy("", lookup), 1, t.nextPointId);
    var r := GeocodeOutcome(t, s, s.adminApiKey, lookup, now);
    assert forall id :: id in t.points ==> !Fillable(t.points[id], "", lookup);
    assert forall id :: id in t.points ==> r.after.points[id] == t.points[id];
    assert r.after.points == t.points;
  }

  lemma GeocodeConsistent(t: Db.Tables, s: Settings.Config, adminKey: string, lookup: string -> Option<Answer>, now: int)
    requires Db.Consistent(t)
    ensures Db.Consistent(GeocodeOutcome(t, s, adminKey, lookup, now).after)
  {
    if adminKey == s.adminApiKey && s.arcgisGeocodeEnable {
      GeoRunUpTo(t.points, s.arcgisApiKey, lookup, now, t.nextPointId);
    }
  }

  // ------------------------------------------------------------------ properties: map_config

  /** Without a key the client gets the empty text; with one, its first six characters
      (all of a shorter key) followed by `...`. */
  lemma MaskShape(key: string)
    ensures key == "" <==> Mask(key) == ""
    ensures key != "" ==> |Mask(key)| <= 9 && EndsWithDots(Mask(key))
    ensures key != "" ==> Mask(key)[..|Mask(key)| - 3] == key[..if |key| < 6 then |key| else 6]
  {
  }

  /** Nothing past the sixth character of the key reaches the client. */
  lemma MaskHidesRest(a: string, b: string)
    requires |a| >= 6 && |b| >= 6 && a[..6] == b[..6]
    ensures Mask(a) == Mask(b)
  {
  }

  /** `map_config` always names the `arcgis` provider and the two fixed map URLs; its key is
      "" when none is configured, and otherwise the configured key's first six characters
      (all of a shorter key) followed by `...`. */
  lemma MapConfigAnswer(s: Settings.Config)
    ensures var r := MapConfigOutcome(s);
      && r.provider == "arcgis" && r.basemapUrl == BasemapUrl && r.tiles == TilesUrl
      && (r.apiKey == "" <==> s.arcgisApiKey == "")
      && (s.arcgisApiKey != "" ==> EndsWithDots(r.apiKey))
      && (s.arcgisApiKey != "" ==>
            r.apiKey[..|r.apiKey| - 3] == s.arcgisApiKey[..if |s.arcgisApiKey| < 6 then |s.arcgisApiKey| else 6])
  {
    MaskShape(s.arcgisApiKey);
  }

  /** The answer depends on the settings only through the key's first six characters: two
      servers whose keys agree there answer alike, whatever else they are configured with. */
  lemma MapConfigHidesSettings(s: Settings.Config, s': Settings.Config)
    requires |s.arcgisApiKey| >= 6 && |s'.arcgisApiKey| >= 6 && s.arcgisApiKey[..6] == s'.arcgisApiKey[..6]
    ensures MapConfigOutcome(s) == MapConfigOutcome(s')
  {
    MaskHidesRest(s.arcgisApiKey, s'.arcgisApiKey);
  }

  predicate EndsWithDots(s: string) {
    |s| >= 3 && s[|s| - 3..] == "..."
  }
}
