/**
 * Route administration and listing: creating a route (bus lookup, time check, station
 * numbering), updating it (stations and prices replaced wholesale, tickets untouched),
 * the paginated listing, the destinations reachable after a stop, and the duration
 * split of a time difference.
 */
module Routes {
  import opened Wrappers
  import opened Text
  import opened Domain
  import opened Store
  import opened Sorting

  datatype StationInput = StationInput(station: string, time: int)

  /** A price override as sent; `isSold` may be left out. */
  datatype PriceInput = PriceInput(fromCity: string, toCity: string, price: int, isSold: Option<bool>)

  datatype CreateRouteRequest = CreateRouteRequest(
    fromCity: string,
    toCity: string,
    stations: Option<seq<StationInput>>,
    departureTime: int,
    arrivalTime: int,
    price: int,
    prices: Option<seq<PriceInput>>,
    busId: string)

  datatype UpdateRouteRequest = UpdateRouteRequest(
    fromCity: Option<string>,
    toCity: Option<string>,
    stations: Option<seq<StationInput>>,
    departureTime: Option<int>,
    arrivalTime: Option<int>,
    price: Option<int>,
    prices: Option<seq<PriceInput>>,
    busId: Option<string>,
    isActive: Option<bool>)

  datatype RouteError = BusNotFound | ArrivalNotAfterDeparture | RouteNotFound

  /** The column defaults a new route and a new price row get from the schema. */
  const DefaultIsActive: bool := true
  const DefaultIsSold: bool := true

  // ---------------------------------------------------------------------------
  // Create and update

  /** The station rows written for a station list: each one's `order` is its position. */
  function Numbered(stations: seq<StationInput>): (rs: seq<RouteStation>)
    ensures |rs| == |stations|
    ensures forall k :: 0 <= k < |rs| ==> rs[k].order == k
    ensures forall k :: 0 <= k < |rs| ==> rs[k].station == stations[k].station && rs[k].time == stations[k].time
  {
    seq(|stations|, k requires 0 <= k < |stations| => RouteStation(stations[k].station, stations[k].time, k))
  }

  /** The price rows written for an override list. */
  function PriceRows(ps: seq<PriceInput>): (rs: seq<RoutePrice>)
    ensures |rs| == |ps|
    ensures forall k :: 0 <= k < |rs| ==>
      rs[k].fromCity == ps[k].fromCity && rs[k].toCity == ps[k].toCity && rs[k].price == ps[k].price &&
      rs[k].isSold == (if ps[k].isSold.Some? then ps[k].isSold.value else DefaultIsSold)
  {
    seq(|ps|, k requires 0 <= k < |ps| =>
      RoutePrice(ps[k].fromCity, ps[k].toCity, ps[k].price, if ps[k].isSold.Some? then ps[k].isSold.value else DefaultIsSold))
  }

  /** `x || []` for an optional list. */
  function OrEmpty<T>(o: Option<seq<T>>): (s: seq<T>)
    ensures o.None? ==> s == []
    ensures o.Some? ==> s == o.value
  {
    if o.Some? then o.value else []
  }

  /** The route `create` writes under `id`. */
  function NewRoute(id: string, req: CreateRouteRequest, bus: Bus): (r: Route)
    ensures r.id == id && r.bus == bus && r.isActive == DefaultIsActive
    ensures r.fromCity == req.fromCity && r.toCity == req.toCity && r.price == req.price
    ensures r.departureTime == req.departureTime && r.arrivalTime == req.arrivalTime
    ensures r.routeStations == Numbered(OrEmpty(req.stations)) && r.prices == PriceRows(OrEmpty(req.prices))
  {
    Route(id, req.fromCity, req.toCity, Numbered(OrEmpty(req.stations)), req.departureTime, req.arrivalTime,
      req.price, DefaultIsActive, bus, PriceRows(OrEmpty(req.prices)))
  }

  /** A created route lists its stops as origin, the given stations in order, destination. */
  lemma {:induction false} NewRouteStops(id: string, req: CreateRouteRequest, bus: Bus)
    ensures var stops := StopNames(NewRoute(id, req, bus));
      var given := OrEmpty(req.stations);
      |stops| == |given| + 2 && stops[0] == req.fromCity && stops[|stops| - 1] == req.toCity &&
      forall k :: 0 <= k < |given| ==> stops[k + 1] == given[k].station
  {
    var r := NewRoute(id, req, bus);
    assert forall k :: 0 <= k < |r.routeStations| ==> r.routeStations[k].station == OrEmpty(req.stations)[k].station;
  }

  /**
   * The route after `update`: the station list and the price list are each replaced
   * wholesale when given, and every other field given is overwritten.
   */
  function Updated(r: Route, req: UpdateRouteRequest, bus: Bus): (u: Route)
    ensures u.id == r.id && u.bus == bus
    ensures u.routeStations == (if req.stations.Some? then Numbered(req.stations.value) else r.routeStations)
    ensures u.prices == (if req.prices.Some? then PriceRows(req.prices.value) else r.prices)
    ensures u.fromCity == (if req.fromCity.Some? then req.fromCity.value else r.fromCity)
    ensures u.toCity == (if req.toCity.Some? then req.toCity.value else r.toCity)
    ensures u.departureTime == (if req.departureTime.Some? then req.departureTime.value else r.departureTime)
    ensures u.arrivalTime == (if req.arrivalTime.Some? then req.arrivalTime.value else r.arrivalTime)
    ensures u.price == (if req.price.Some? then req.price.value else r.price)
    ensures u.isActive == (if req.isActive.Some? then req.isActive.value else r.isActive)
  {
    Route(r.id,
      if req.fromCity.Some? then req.fromCity.value else r.fromCity,
      if req.toCity.Some? then req.toCity.value else r.toCity,
      if req.stations.Some? then Numbered(req.stations.value) else r.routeStations,
      if req.departureTime.Some? then req.departureTime.value else r.departureTime,
      if req.arrivalTime.Some? then req.arrivalTime.value else r.arrivalTime,
      if req.price.Some? then req.price.value else r.price,
      if req.isActive.Some? then req.isActive.value else r.isActive,
      bus,
      if req.prices.Some? then PriceRows(req.prices.value) else r.prices)
  }

  /** Only the station and price lists were rewritten (the rows written before the route row itself). */
  function WithListsReplaced(r: Route, req: UpdateRouteRequest): (u: Route)
    ensures u == r.(routeStations := (if req.stations.Some? then Numbered(req.stations.value) else r.routeStations),
                    prices := (if req.prices.Some? then PriceRows(req.prices.value) else r.prices))
  {
    r.(routeStations := if req.stations.Some? then Numbered(req.stations.value) else r.routeStations,
       prices := if req.prices.Some? then PriceRows(req.prices.value) else r.prices)
  }

  /** Rewriting the lists first does not change the route `update` finally writes. */
  lemma UpdatedIgnoresLists(r: Route, req: UpdateRouteRequest, bus: Bus)
    ensures Updated(WithListsReplaced(r, req), req, bus) == Updated(r, req, bus)
  {
  }

  /**
   * A station list update moves stops under the stored stop indices of existing
   * tickets: a ticket booked to stop 1 of A -> B -> C names stop X once X is inserted
   * before B, and its range then covers a different journey.
   */
  lemma StationUpdateShiftsStops()
    ensures var r := Route("r1", "A", "C", [RouteStation("B", 1000, 0)], 0, 2000, 100, true, Bus("b1", 40, None, None), []);
      var req := UpdateRouteRequest(None, None, Some([StationInput("X", 500), StationInput("B", 1000)]), None, None, None, None, None, None);
      StopNames(r)[1] == "B" && StopNames(Updated(r, req, r.bus))[1] == "X"
  {
  }

  // ---------------------------------------------------------------------------
  // Listing

  const DefaultPage: nat := 1
  const DefaultLimit: nat := 20

  /** `v || d`: an absent or zero value takes the default. */
  function OrDefault(v: Option<nat>, d: nat): (r: nat)
    ensures v.Some? && v.value != 0 ==> r == v.value
    ensures v.None? || v.value == 0 ==> r == d
  {
    if v.Some? && v.value != 0 then v.value else d
  }

  /** `Math.ceil(total / limit)`. */
  function CeilDiv(total: nat, limit: nat): (pages: nat)
    requires limit > 0
    ensures pages * limit >= total
    ensures pages == 0 || (pages - 1) * limit < total
  {
    (total + limit - 1) / limit
  }

  /** No more rows than one page holds make at most one page. */
  lemma {:induction false} OnePageAtMost(total: nat, limit: nat)
    requires 0 < limit && total <= limit
    ensures CeilDiv(total, limit) <= 1
  {
    var a := total + limit - 1;
    var pages := a / limit;
    assert a == pages * limit + a % limit;
  }

  /** `(page - 1) * limit`: how many rows precede a page. */
  function Skip(page: nat, limit: nat): nat
    requires page >= 1
  {
    (page - 1) * limit
  }

  /** `skip` / `take`: the rows of one page. */
  function PageOf<T>(xs: seq<T>, page: nat, limit: nat): (p: seq<T>)
    requires page >= 1
    ensures |p| <= limit
    ensures Skip(page, limit) <= |xs| ==> Skip(page, limit) + |p| <= |xs| && p == xs[Skip(page, limit)..Skip(page, limit) + |p|]
    ensures Skip(page, limit) < |xs| ==> |p| == if |xs| - Skip(page, limit) < limit then |xs| - Skip(page, limit) else limit
    ensures Skip(page, limit) >= |xs| ==> p == []
  {
    var lo := Skip(page, limit);
    if lo >= |xs| then []
    else if |xs| - lo < limit then xs[lo..]
    else xs[lo..lo + limit]
  }

  /** A page holds only rows of the list, in the list's order. */
  lemma PageOfSorted<T(!new)>(xs: seq<T>, page: nat, limit: nat, le: (T, T) -> bool)
    requires page >= 1 && SortedBy(xs, le)
    ensures forall x :: x in PageOf(xs, page, limit) ==> x in xs
    ensures SortedBy(PageOf(xs, page, limit), le)
  {
    var p := PageOf(xs, page, limit);
    var lo := Skip(page, limit);
    if lo < |xs| {
      assert forall i :: 0 <= i < |p| ==> p[i] == xs[lo + i];
    }
  }

  /** The pages `1..totalPages` together reach every row exactly where `skip` says. */
  lemma {:induction false} PagesCoverRows(total: nat, limit: nat, k: nat)
    requires limit > 0 && k < total
    ensures var page := k / limit + 1;
      1 <= page <= CeilDiv(total, limit) && Skip(page, limit) <= k < Skip(page, limit) + limit
  {
    var page := k / limit + 1;
    assert Skip(page, limit) == (k / limit) * limit;
    assert (k / limit) * limit <= k < (k / limit) * limit + limit;
  }

  datatype Meta = Meta(total: nat, page: nat, limit: nat, totalPages: nat)
  datatype Listing = Listing(data: seq<Route>, meta: Meta)

  /** Earlier departure first. */
  predicate DepartsNoLater(a: Route, b: Route) {
    a.departureTime <= b.departureTime
  }

  lemma DepartsNoLaterIsTotalPreorder()
    ensures TotalPreorder(DepartsNoLater)
  {
  }

  /** `s.findIndex(p)`: the position of the first element satisfying `p`, or -1. */
  function FindFirst<T>(s: seq<T>, p: T -> bool): (k: int)
    ensures -1 <= k < |s|
    ensures k >= 0 ==> p(s[k])
    ensures forall m :: 0 <= m < |s| && (k == -1 || m < k) ==> !p(s[m])
  {
    if s == [] then -1
    else if p(s[0]) then 0
    else
      var k := FindFirst(s[1..], p);
      if k == -1 then -1 else k + 1
  }

  /** The `isActive` condition of the listing query. */
  predicate ActiveMatches(r: Route, isActive: Option<bool>) {
    isActive.None? || r.isActive == isActive.value
  }

  /**
   * `findAll`: the matching routes by departure time, the page `skip = (page - 1) * limit`,
   * `take = limit` cuts from them, and the page arithmetic.
   */
  function FindAll(routes: seq<Route>, isActive: Option<bool>, page: Option<nat>, limit: Option<nat>): (l: Listing)
    ensures l.meta.page == OrDefault(page, DefaultPage) && l.meta.limit == OrDefault(limit, DefaultLimit)
    ensures l.meta.page >= 1 && l.meta.limit >= 1
    ensures l.meta.total == |Filter(routes, r => ActiveMatches(r, isActive))|
    ensures l.meta.totalPages == CeilDiv(l.meta.total, l.meta.limit)
    ensures |l.data| <= l.meta.limit
    ensures forall r :: r in l.data ==> r in routes && ActiveMatches(r, isActive)
    ensures forall i, j :: 0 <= i < j < |l.data| ==> l.data[i].departureTime <= l.data[j].departureTime
    ensures TotalPreorder(DepartsNoLater) &&
      l.data == PageOf(SortBy(Filter(routes, r => ActiveMatches(r, isActive)), DepartsNoLater), l.meta.page, l.meta.limit)
  {
    var p := OrDefault(page, DefaultPage);
    var n := OrDefault(limit, DefaultLimit);
    var filtered := Filter(routes, r => ActiveMatches(r, isActive));
    FilterMembers(routes, r => ActiveMatches(r, isActive));
    DepartsNoLaterIsTotalPreorder();
    var sorted := SortBy(filtered, DepartsNoLater);
    var data := PageOf(sorted, p, n);
    SortByMembers(filtered, DepartsNoLater);
    PageOfSorted(sorted, p, n, DepartsNoLater);
    Listing(data, Meta(|filtered|, p, n, CeilDiv(|filtered|, n)))
  }

  /**
   * Paging through the listing reaches every matching route: each one is on some page
   * between 1 and `totalPages`.
   */
  lemma EveryMatchingRouteListed(routes: seq<Route>, isActive: Option<bool>, limit: nat, r: Route)
    requires limit >= 1
    requires r in routes && ActiveMatches(r, isActive)
    ensures exists page: nat :: ListedOn(routes, isActive, limit, page, r)
  {
    var filtered := Filter(routes, x => ActiveMatches(x, isActive));
    FilterMembers(routes, x => ActiveMatches(x, isActive));
    DepartsNoLaterIsTotalPreorder();
    var sorted := SortBy(filtered, DepartsNoLater);
    SortByMembers(filtered, DepartsNoLater);
    assert r in sorted;
    var k :| 0 <= k < |sorted| && sorted[k] == r;
    PagesCoverRows(|filtered|, limit, k);
    var page := k / limit + 1;
    PageHolds(sorted, limit, k);
    var l := FindAll(routes, isActive, Some(page), Some(limit));
    assert l.data == PageOf(sorted, page, limit);
    assert FindAll(routes, isActive, None, Some(limit)).meta.totalPages == CeilDiv(|filtered|, limit);
    assert ListedOn(routes, isActive, limit, page, r);
  }

  /** `r` is on page `page` of `limit` rows, and that page is between 1 and `totalPages`. */
  predicate ListedOn(routes: seq<Route>, isActive: Option<bool>, limit: nat, page: nat, r: Route) {
    1 <= page <= FindAll(routes, isActive, None, Some(limit)).meta.totalPages &&
    r in FindAll(routes, isActive, Some(page), Some(limit)).data
  }

  /** Row `k` is on page `k / limit + 1`. */
  lemma PageHolds<T>(xs: seq<T>, limit: nat, k: nat)
    requires limit >= 1 && k < |xs|
    ensures xs[k] in PageOf(xs, k / limit + 1, limit)
  {
    var page := k / limit + 1;
    PagesCoverRows(|xs|, limit, k);
    var p := PageOf(xs, page, limit);
    assert p[k - Skip(page, limit)] == xs[k];
  }

  // ---------------------------------------------------------------------------
  // Destinations

  /** The routes the destination query selects: active, starting at or stopping at the city (compared case-insensitively). */
  predicate ServesCity(r: Route, city: string) {
    r.isActive &&
    (Lower(r.fromCity) == Lower(city) || exists k :: 0 <= k < |r.routeStations| && Lower(r.routeStations[k].station) == Lower(city))
  }

  /** The stops of `r` after the first one matching `city` (trimmed, tr-TR folded), as written on the route. */
  function StopsAfter(r: Route, city: string): (s: seq<string>)
    ensures var f := IndexOf(FoldedStopsTr(r), LowerTr(Trim(city)));
      if f == -1 then s == [] else s == StopNames(r)[f + 1..]
  {
    var f := IndexOf(FoldedStopsTr(r), LowerTr(Trim(city)));
    if f == -1 then [] else StopNames(r)[f + 1..]
  }

  /** Every stop reachable after `city` on some selected route of `routes`. */
  function Reachable(routes: seq<Route>, city: string): (s: set<string>)
    ensures forall x :: x in s <==> exists j :: 0 <= j < |routes| && ServesCity(routes[j], city) && x in StopsAfter(routes[j], city)
  {
    if routes == [] then {}
    else
      var last := routes[|routes| - 1];
      var rest := Reachable(routes[..|routes| - 1], city);
      assert forall j :: 0 <= j < |routes| - 1 ==> routes[..|routes| - 1][j] == routes[j];
      rest + if ServesCity(last, city) then set x | x in StopsAfter(last, city) else {}
  }

  predicate NoDuplicates<T(==)>(s: seq<T>) {
    forall i, j :: 0 <= i < j < |s| ==> s[i] != s[j]
  }

  /** Taking one more route into account adds exactly the stops it contributes. */
  lemma {:induction false} ReachableStep(routes: seq<Route>, j: int, city: string)
    requires 0 <= j < |routes|
    ensures Reachable(routes[..j + 1], city) ==
      Reachable(routes[..j], city) + if ServesCity(routes[j], city) then set x | x in StopsAfter(routes[j], city) else {}
  {
    assert routes[..j + 1][..j] == routes[..j];
  }

  /** Appends to `acc` each stop of `stops` not yet in it. */
  method AddNew(acc: seq<string>, stops: seq<string>) returns (r: seq<string>)
    requires NoDuplicates(acc)
    ensures NoDuplicates(r)
    ensures forall x :: x in r <==> x in acc || x in stops
  {
    r := acc;
    var i := 0;
    while i < |stops|
      invariant 0 <= i <= |stops|
      invariant NoDuplicates(r)
      invariant forall x :: x in r <==> x in acc || x in stops[..i]
    {
      if stops[i] !in r {
        r := r + [stops[i]];
      }
      assert stops[..i + 1] == stops[..i] + [stops[i]];
      i := i + 1;
    }
    assert stops[..i] == stops;
  }

  /**
   * `getDestinations`: a set filled route by route with the stops after the city, then
   * sorted. The result lists each reachable stop exactly once, in order.
   */
  method GetDestinations(routes: seq<Route>, city: string) returns (ds: seq<string>)
    ensures forall x :: x in ds <==> x in Reachable(routes, city)
    ensures NoDuplicates(ds)
    ensures SortedBy(ds, StringLe)
  {
    var destinations: seq<string> := [];
    var j := 0;
    while j < |routes|
      invariant 0 <= j <= |routes|
      invariant forall x :: x in destinations <==> x in Reachable(routes[..j], city)
      invariant NoDuplicates(destinations)
    {
      ReachableStep(routes, j, city);
      destinations := AddRouteStops(destinations, routes[j], city);
      j := j + 1;
    }
    assert routes[..j] == routes;
    StringLeIsTotalPreorder();
    ds := SortBy(destinations, StringLe);
    SortedDistinct(destinations, ds);
  }

  /** One pass of the route loop: a selected route adds the stops after the city. */
  method AddRouteStops(destinations: seq<string>, route: Route, city: string) returns (d: seq<string>)
    requires NoDuplicates(destinations)
    ensures NoDuplicates(d)
    ensures forall x :: x in d <==> x in destinations || (ServesCity(route, city) && x in StopsAfter(route, city))
  {
    d := destinations;
    if ServesCity(route, city) {
      var fromIndex := IndexOf(FoldedStopsTr(route), LowerTr(Trim(city)));
      if fromIndex != -1 {
        d := AddNew(destinations, StopNames(route)[fromIndex + 1..]);
      }
    }
  }

  /** Sorting a list without duplicates by a total order leaves no duplicates. */
  lemma SortedDistinct(s: seq<string>, r: seq<string>)
    requires NoDuplicates(s) && multiset(r) == multiset(s)
    ensures NoDuplicates(r)
    ensures forall x :: x in r <==> x in s
  {
    forall x ensures x in r <==> x in s {
      assert x in r <==> x in multiset(r);
      assert x in s <==> x in multiset(s);
    }
    forall i, j | 0 <= i < j < |r| ensures r[i] != r[j] {
      if r[i] == r[j] {
        assert multiset(r)[r[i]] >= 2 by {
          assert r == r[..i] + [r[i]] + r[i + 1..j] + [r[j]] + r[j + 1..];
        }
        DistinctCount(s, r[i]);
        assert false;
      }
    }
  }

  lemma {:induction false} DistinctCount(s: seq<string>, x: string)
    requires NoDuplicates(s)
    ensures multiset(s)[x] <= 1
  {
    if s != [] {
      assert s == [s[0]] + s[1..];
      DistinctCount(s[1..], x);
      if s[0] == x {
        assert x !in s[1..];
      }
    }
  }

  // ---------------------------------------------------------------------------
  // Duration

  datatype Duration = Duration(hours: int, minutes: int)

  /** JavaScript's `%` on integers: the remainder takes the sign of the dividend. */
  function JsRem(a: int, b: int): (r: int)
    requires b > 0
    ensures a >= 0 ==> r == a % b
    ensures a < 0 ==> r == -((-a) % b)
  {
    if a >= 0 then a % b else -((-a) % b)
  }

  /**
   * `calculateDuration`: whole hours with `Math.floor`, then the minutes of the
   * remainder left by JavaScript's `%`. (Dafny's `/` by a positive divisor is floor division.)
   */
  function CalculateDuration(departureTime: int, arrivalTime: int): (d: Duration)
    ensures d.hours * HourMs <= arrivalTime - departureTime < (d.hours + 1) * HourMs
    ensures -60 <= d.minutes < 60
    ensures departureTime <= arrivalTime ==> 0 <= d.minutes
    ensures arrivalTime < departureTime ==> d.hours < 0 && d.minutes <= 0
  {
    var diff := arrivalTime - departureTime;
    var rem := JsRem(diff, HourMs);
    assert diff == (diff / HourMs) * HourMs + diff % HourMs;
    assert -HourMs < rem < HourMs;
    assert rem / MinuteMs < 60 && -60 <= rem / MinuteMs;
    Duration(diff / HourMs, rem / MinuteMs)
  }

  /** For a forward time difference the split is exact to the minute: whole hours, then 0..59 minutes. */
  lemma DurationSplit(departureTime: int, arrivalTime: int)
    requires departureTime <= arrivalTime
    ensures var d := CalculateDuration(departureTime, arrivalTime);
      var diff := arrivalTime - departureTime;
      0 <= d.hours && 0 <= d.minutes < 60 &&
      d.hours * HourMs + d.minutes * MinuteMs <= diff < d.hours * HourMs + (d.minutes + 1) * MinuteMs
  {
    var diff := arrivalTime - departureTime;
    var rem := diff % HourMs;
    assert diff == (diff / HourMs) * HourMs + rem;
    assert rem == (rem / MinuteMs) * MinuteMs + rem % MinuteMs;
    assert rem / MinuteMs < 60;
  }

  /**
   * For a backward difference the two parts round differently: one minute back reads
   * as minus one hour and minus one minute.
   */
  lemma DurationOneMinuteBack()
    ensures CalculateDuration(MinuteMs, 0) == Duration(-1, -1)
  {
  }

  // ---------------------------------------------------------------------------
  // The service

  class RouteService {
    const db: Database

    constructor(db0: Database)
      requires db0.Valid()
      ensures db == db0
    {
      db := db0;
    }

    /**
     * `create`: a missing bus and an arrival not after the departure are refused; the
     * new route, under a fresh id, gets its stations numbered by position.
     */
    method Create(req: CreateRouteRequest, id: string) returns (r: Result<Route, RouteError>)
      requires db.Valid() && id !in db.routes
      modifies db`routes
      ensures db.Valid()
      ensures req.busId !in old(db.buses) ==> r == Failure(BusNotFound) && db.routes == old(db.routes)
      ensures req.busId in old(db.buses) && req.arrivalTime <= req.departureTime ==>
        r == Failure(ArrivalNotAfterDeparture) && db.routes == old(db.routes)
      ensures req.busId in old(db.buses) && req.arrivalTime > req.departureTime ==>
        r == Success(NewRoute(id, req, old(db.buses)[req.busId])) && db.routes == old(db.routes)[id := r.value]
    {
      if req.busId !in db.buses {
        return Failure(BusNotFound);
      }
      var bus := db.buses[req.busId];
      if req.arrivalTime <= req.departureTime {
        return Failure(ArrivalNotAfterDeparture);
      }
      var route := NewRoute(id, req, bus);
      db.routes := db.routes[id := route];
      r := Success(route);
    }

    /**
     * `update`: the station rows and price rows are rewritten first; the route row is
     * written last and fails on an unknown bus, leaving the rewritten lists in place.
     * The departure/arrival order is not checked and no ticket is touched.
     */
    method Update(id: string, req: UpdateRouteRequest) returns (r: Result<Route, RouteError>)
      requires db.Valid()
      modifies db`routes
      ensures db.Valid()
      ensures db.tickets == old(db.tickets)
      ensures id !in old(db.routes) ==> r == Failure(RouteNotFound) && db.routes == old(db.routes)
      ensures id in old(db.routes) && req.busId.Some? && req.busId.value !in old(db.buses) ==>
        r == Failure(BusNotFound) && db.routes == old(db.routes)[id := WithListsReplaced(old(db.routes)[id], req)]
      ensures id in old(db.routes) && (req.busId.None? || req.busId.value in old(db.buses)) ==>
        var bus := if req.busId.Some? then old(db.buses)[req.busId.value] else old(db.routes)[id].bus;
        r == Success(Updated(old(db.routes)[id], req, bus)) && db.routes == old(db.routes)[id := r.value]
    {
      if id !in db.routes {
        return Failure(RouteNotFound);
      }
      var existing := db.routes[id];
      ghost var original := existing;
      if req.stations.Some? {
        existing := existing.(routeStations := Numbered(req.stations.value));
        db.PutRoute(existing);
      }
      if req.prices.Some? {
        existing := existing.(prices := PriceRows(req.prices.value));
        db.PutRoute(existing);
      }
      assert existing == WithListsReplaced(original, req);
      if req.busId.Some? && req.busId.value !in db.buses {
        return Failure(BusNotFound);
      }
      var bus := if req.busId.Some? then db.buses[req.busId.value] else existing.bus;
      UpdatedIgnoresLists(original, req, bus);
      var updated := Updated(existing, req, bus);
      db.PutRoute(updated);
      r := Success(updated);
    }
  }
}
