/**
 * Live tracking: finding the buses a passenger can follow from a city (boarding within
 * three hours either side of now, not yet arrived), the status shown for each, and the
 * phase of a bus's reported location.
 */
module Tracking {
  import opened Wrappers
  import opened Text
  import opened Domain
  import opened Sorting
  import opened Routes

  const TrackingWindowMs: int := 3 * HourMs

  datatype TrackingStatus = NotStarted | PassedStop | OnTheWay

  function StatusLabel(s: TrackingStatus): string {
    match s
    case NotStarted => "Henüz Başlamadı"
    case PassedStop => "Durağı Geçti"
    case OnTheWay => "Yolda"
  }

  /** `a.toLowerCase() === b.toLowerCase()`, also the database's case-insensitive `equals`. */
  predicate SameName(a: string, b: string) {
    Lower(a) == Lower(b)
  }

  /** The first station whose name equals `city` case-insensitively, or -1. */
  function FindStationNamed(stations: seq<RouteStation>, city: string): (k: int)
    ensures -1 <= k < |stations|
    ensures k >= 0 ==> SameName(stations[k].station, city)
    ensures forall m :: 0 <= m < |stations| && (k == -1 || m < k) ==> !SameName(stations[m].station, city)
  {
    FindFirst(stations, (s: RouteStation) => SameName(s.station, city))
  }

  /**
   * The passenger's boarding time: the route's departure when it starts at the city,
   * else the first station of that name; none when the route does not pass the city.
   */
  function Boarding(r: Route, fromCity: string): (t: Option<int>)
    ensures SameName(r.fromCity, fromCity) ==> t == Some(r.departureTime)
    ensures t.None? <==> !SameName(r.fromCity, fromCity) && forall k :: 0 <= k < |r.routeStations| ==> !SameName(r.routeStations[k].station, fromCity)
    ensures t.Some? && !SameName(r.fromCity, fromCity) ==> exists k :: 0 <= k < |r.routeStations| && SameName(r.routeStations[k].station, fromCity) && t.value == r.routeStations[k].time
  {
    if SameName(r.fromCity, fromCity) then Some(r.departureTime)
    else
      var k := FindStationNamed(r.routeStations, fromCity);
      if k == -1 then None else Some(r.routeStations[k].time)
  }

  /** The passenger's arrival time: the route's arrival unless a station of that name comes first. */
  function Arrival(r: Route, toCity: string): (t: int)
    ensures SameName(r.toCity, toCity) ==> t == r.arrivalTime
    ensures (forall k :: 0 <= k < |r.routeStations| ==> !SameName(r.routeStations[k].station, toCity)) ==> t == r.arrivalTime
  {
    if SameName(r.toCity, toCity) then r.arrivalTime
    else
      var k := FindStationNamed(r.routeStations, toCity);
      if k == -1 then r.arrivalTime else r.routeStations[k].time
  }

  /** The database query: active routes from or through the city that departed at most a day ago. */
  predicate QueryMatches(r: Route, fromCity: string, now: int) {
    r.isActive &&
    (SameName(r.fromCity, fromCity) || exists k :: 0 <= k < |r.routeStations| && SameName(r.routeStations[k].station, fromCity)) &&
    r.departureTime >= now - DayMs
  }

  /** The in-memory filter: the route passes the city, boarding lies within three hours of now and arrival is not past. */
  predicate Followable(r: Route, fromCity: string, toCity: string, now: int) {
    var b := Boarding(r, fromCity);
    b.Some? && now - TrackingWindowMs <= b.value <= now + TrackingWindowMs && Arrival(r, toCity) >= now
  }

  /** The status: not started while the main departure is ahead, else whether the passenger's stop is behind. */
  function Status(r: Route, boarding: int, now: int): (s: TrackingStatus)
    ensures s == NotStarted <==> r.departureTime > now
    ensures s == PassedStop <==> r.departureTime <= now && boarding < now
    ensures s == OnTheWay <==> r.departureTime <= now && now <= boarding
  {
    if r.departureTime > now then NotStarted
    else if boarding < now then PassedStop
    else OnTheWay
  }

  datatype TrackedRoute = TrackedRoute(id: string, status: TrackingStatus, route: Route)

  /** `routes.filter(...).map(...)`: each followable route with its status. */
  function Track(rs: seq<Route>, fromCity: string, toCity: string, now: int): (ts: seq<TrackedRoute>)
    ensures forall t :: t in ts ==>
      t.route in rs && Followable(t.route, fromCity, toCity, now) &&
      t.id == t.route.id && t.status == Status(t.route, Boarding(t.route, fromCity).value, now)
    ensures forall r :: r in rs && Followable(r, fromCity, toCity, now) ==> exists t :: t in ts && t.route == r
  {
    if rs == [] then []
    else
      var rest := Track(rs[1..], fromCity, toCity, now);
      var r := rs[0];
      assert forall x :: x in rs[1..] ==> x in rs;
      if Followable(r, fromCity, toCity, now) then
        [TrackedRoute(r.id, Status(r, Boarding(r, fromCity).value, now), r)] + rest
      else rest
  }

  /** Tracked routes listed in ascending main departure. */
  predicate ByDeparture(ts: seq<TrackedRoute>) {
    forall i, j :: 0 <= i < j < |ts| ==> ts[i].route.departureTime <= ts[j].route.departureTime
  }

  /** `filter` and `map` keep the order of their input: routes sorted by departure stay sorted. */
  lemma {:induction false} TrackKeepsOrder(rs: seq<Route>, fromCity: string, toCity: string, now: int)
    requires forall i, j :: 0 <= i < j < |rs| ==> rs[i].departureTime <= rs[j].departureTime
    ensures ByDeparture(Track(rs, fromCity, toCity, now))
  {
    if rs != [] {
      var tail := rs[1..];
      TrackKeepsOrder(tail, fromCity, toCity, now);
      var rest := Track(tail, fromCity, toCity, now);
      forall t | t in rest
        ensures rs[0].departureTime <= t.route.departureTime
      {
        var k :| 0 <= k < |tail| && tail[k] == t.route;
        assert rs[k + 1] == t.route;
      }
      var r := rs[0];
      if Followable(r, fromCity, toCity, now) {
        ConsByDeparture(TrackedRoute(r.id, Status(r, Boarding(r, fromCity).value, now), r), rest);
      }
    }
  }

  /** A route departing no later than every listed one can be put in front of them. */
  lemma ConsByDeparture(t: TrackedRoute, rest: seq<TrackedRoute>)
    requires ByDeparture(rest)
    requires forall u :: u in rest ==> t.route.departureTime <= u.route.departureTime
    ensures ByDeparture([t] + rest)
  {
    var ts := [t] + rest;
    forall i, j | 0 <= i < j < |ts|
      ensures ts[i].route.departureTime <= ts[j].route.departureTime
    {
      assert ts[j] == rest[j - 1] && ts[j] in rest;
      if i > 0 {
        assert ts[i] == rest[i - 1];
      }
    }
  }

  /** `searchRoutes`: the query's routes by departure, then tracked. */
  function SearchRoutes(routes: seq<Route>, fromCity: string, toCity: string, now: int): (ts: seq<TrackedRoute>)
    ensures forall t :: t in ts ==>
      t.route in routes && t.route.isActive && t.route.departureTime >= now - DayMs &&
      Followable(t.route, fromCity, toCity, now) && t.status == Status(t.route, Boarding(t.route, fromCity).value, now)
    ensures forall r :: r in routes && QueryMatches(r, fromCity, now) && Followable(r, fromCity, toCity, now) ==>
      exists t :: t in ts && t.route == r
    ensures forall i, j :: 0 <= i < j < |ts| ==> ts[i].route.departureTime <= ts[j].route.departureTime
  {
    var matched := Filter(routes, r => QueryMatches(r, fromCity, now));
    FilterMembers(routes, r => QueryMatches(r, fromCity, now));
    DepartsNoLaterIsTotalPreorder();
    var sorted := SortBy(matched, DepartsNoLater);
    SortByMembers(matched, DepartsNoLater);
    assert forall i, j :: 0 <= i < j < |sorted| ==> DepartsNoLater(sorted[i], sorted[j]);
    TrackKeepsOrder(sorted, fromCity, toCity, now);
    Track(sorted, fromCity, toCity, now)
  }

  /** A route that neither starts at the city nor has a station of that name is never listed. */
  lemma {:induction false} NotPassingExcluded(routes: seq<Route>, r: Route, fromCity: string, toCity: string, now: int)
    requires !SameName(r.fromCity, fromCity)
    requires forall k :: 0 <= k < |r.routeStations| ==> !SameName(r.routeStations[k].station, fromCity)
    ensures forall t :: t in SearchRoutes(routes, fromCity, toCity, now) ==> t.route != r
  {
    assert Boarding(r, fromCity).None?;
  }

  /** The in-memory filter implies the database's city condition, so the query only narrows the scan. */
  lemma FollowableMatchesCity(r: Route, fromCity: string, toCity: string, now: int)
    requires Followable(r, fromCity, toCity, now)
    ensures SameName(r.fromCity, fromCity) || exists k :: 0 <= k < |r.routeStations| && SameName(r.routeStations[k].station, fromCity)
  {
  }

  /** A listed bus that has started counts the passenger's stop as passed exactly when boarding is behind now. */
  lemma {:induction false} ListedStatus(routes: seq<Route>, fromCity: string, toCity: string, now: int, t: TrackedRoute)
    requires t in SearchRoutes(routes, fromCity, toCity, now)
    ensures t.status == NotStarted <==> t.route.departureTime > now
    ensures t.status == PassedStop ==> now - TrackingWindowMs <= Boarding(t.route, fromCity).value < now
    ensures t.status == OnTheWay ==> now <= Boarding(t.route, fromCity).value <= now + TrackingWindowMs
  {
  }

  // ---------------------------------------------------------------------------
  // Bus location

  /** The phase reported for a bus, without its coordinates. */
  datatype LocationPhase = LiveTestFix | NotStartedYet | Arrived | Moving

  datatype BusLocation = BusLocation(phase: LocationPhase, status: string, speed: int)

  /** A coordinate JavaScript treats as true: present and not zero. */
  predicate TruthyCoordinate(x: Option<real>) {
    x.Some? && x.value != 0.0
  }

  /**
   * `getBusLocation`: nothing for an unknown route; the test fix when both test
   * coordinates are set; otherwise not started before departure, arrived after
   * arrival, and moving in between at `85 + jitter` km/h (`jitter` is the random draw).
   */
  function GetBusLocation(route: Option<Route>, now: int, jitter: int): (l: Option<BusLocation>)
    ensures route.None? <==> l.None?
    ensures l.Some? && l.value.phase == LiveTestFix <==> route.Some? && TruthyCoordinate(route.value.bus.testLat) && TruthyCoordinate(route.value.bus.testLng)
    ensures l.Some? && l.value.phase != LiveTestFix ==>
      (l.value.phase == NotStartedYet <==> now < route.value.departureTime) &&
      (l.value.phase == Arrived <==> route.value.departureTime <= now && now > route.value.arrivalTime) &&
      (l.value.phase == NotStartedYet || l.value.phase == Arrived ==> l.value.speed == 0)
  {
    if route.None? then None
    else
      var r := route.value;
      if TruthyCoordinate(r.bus.testLat) && TruthyCoordinate(r.bus.testLng) then Some(BusLocation(LiveTestFix, "Canlı Konum", 90))
      else if now < r.departureTime then Some(BusLocation(NotStartedYet, "Henüz Başlamadı", 0))
      else if now > r.arrivalTime then Some(BusLocation(Arrived, "Varış Yaptı", 0))
      else Some(BusLocation(Moving, "Yolda", 85 + jitter))
  }

  /** A moving bus reports 85 to 94 km/h for the draws `Math.floor(Math.random() * 10)` can give. */
  lemma MovingSpeed(route: Option<Route>, now: int, jitter: int)
    requires 0 <= jitter < 10
    requires GetBusLocation(route, now, jitter).Some? && GetBusLocation(route, now, jitter).value.phase == Moving
    ensures 85 <= GetBusLocation(route, now, jitter).value.speed <= 94
  {
  }

  /**
   * The tracking list and the location agree on "not started": a listed route shown
   * as not started is reported as not started (unless it carries a test fix).
   */
  lemma {:induction false} NotStartedAgrees(routes: seq<Route>, fromCity: string, toCity: string, now: int, t: TrackedRoute, jitter: int)
    requires t in SearchRoutes(routes, fromCity, toCity, now)
    requires !(TruthyCoordinate(t.route.bus.testLat) && TruthyCoordinate(t.route.bus.testLng))
    ensures t.status == NotStarted <==> GetBusLocation(Some(t.route), now, jitter).value.phase == NotStartedYet
  {
  }

  /** A route followed to its own destination is never listed once the bus has arrived. */
  lemma {:induction false} ArrivedNotListed(routes: seq<Route>, fromCity: string, now: int, t: TrackedRoute, jitter: int)
    requires t in SearchRoutes(routes, fromCity, t.route.toCity, now)
    requires !(TruthyCoordinate(t.route.bus.testLat) && TruthyCoordinate(t.route.bus.testLng))
    ensures GetBusLocation(Some(t.route), now, jitter).value.phase != Arrived
  {
    assert Arrival(t.route, t.route.toCity) == t.route.arrivalTime;
  }
}
