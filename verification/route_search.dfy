/**
 * The customer and admin route search: the database query (city, day window, bus and
 * activity conditions, ordering and one page), then the in-memory pass over that page
 * (boarding-time and cutoff checks, segment sale check), the per-route details (display
 * price, free seats over the searched segment, the passenger's own departure and
 * arrival, and the duration) and the final ordering.
 *
 * Local time is the server's: it enters as a fixed offset `tz` in milliseconds.
 */
module RouteSearch {
  import opened Wrappers
  import opened Text
  import opened Domain
  import opened Sorting
  import opened Routes
  import opened TicketService

  datatype SearchQuery = SearchQuery(
    fromCity: Option<string>,
    toCity: Option<string>,
    date: Option<int>,
    busId: Option<string>,
    isActive: Option<string>,
    ignoreTimeCheck: Option<string>,
    page: Option<nat>,
    limit: Option<nat>)

  /** One search hit: the route with the passenger's own times, price and free-seat count. */
  datatype RouteResult = RouteResult(
    route: Route,
    mainDepartureTime: int,
    departureTime: int,
    arrivalTime: int,
    price: int,
    availableSeats: int,
    duration: Duration)

  datatype SearchResponse = SearchResponse(data: seq<RouteResult>, meta: Meta)

  /** Admin searches send `ignoreTimeCheck=true`; everyone else is treated as a customer. */
  predicate IsCustomer(q: SearchQuery) {
    q.ignoreTimeCheck != Some("true")
  }

  /** Both cities given. */
  predicate BothCities(q: SearchQuery) {
    Truthy(q.fromCity) && Truthy(q.toCity)
  }

  // ---------------------------------------------------------------------------
  // Local time

  /** `setHours(0, 0, 0, 0)`: the local midnight at or before `t`. */
  function LocalMidnight(t: int, tz: int): (m: int)
    ensures m <= t < m + DayMs
    ensures (m + tz) % DayMs == 0
  {
    t - (t + tz) % DayMs
  }

  // ---------------------------------------------------------------------------
  // The database query

  /** Prisma's case-insensitive `contains`. */
  predicate ContainsInsensitive(s: string, sub: string) {
    Contains(Lower(s), Lower(sub))
  }

  predicate OriginMatches(r: Route, city: string) {
    ContainsInsensitive(r.fromCity, city) ||
    exists k :: 0 <= k < |r.routeStations| && ContainsInsensitive(r.routeStations[k].station, city)
  }

  predicate DestinationMatches(r: Route, city: string) {
    ContainsInsensitive(r.toCity, city) ||
    exists k :: 0 <= k < |r.routeStations| && ContainsInsensitive(r.routeStations[k].station, city)
  }

  /** The first instant of the departure window: the previous day for customers, the day itself for admins. */
  function WindowStart(q: SearchQuery, tz: int): int
    requires q.date.Some?
  {
    var sod := LocalMidnight(q.date.value, tz);
    if IsCustomer(q) then sod - DayMs else sod
  }

  /** The last instant of both windows: 03:00 on the following day. */
  function WindowEnd(q: SearchQuery, tz: int): int
    requires q.date.Some?
  {
    LocalMidnight(q.date.value, tz) + 27 * HourMs
  }

  /** The `where` clause of the search query. */
  predicate WhereMatches(r: Route, q: SearchQuery, tz: int) {
    (if BothCities(q) then OriginMatches(r, q.fromCity.value) && DestinationMatches(r, q.toCity.value)
     else if Truthy(q.toCity) then DestinationMatches(r, q.toCity.value)
     else if Truthy(q.fromCity) then OriginMatches(r, q.fromCity.value)
     else true) &&
    (q.date.Some? ==> WindowStart(q, tz) <= r.departureTime <= WindowEnd(q, tz)) &&
    (Truthy(q.busId) ==> r.bus.id == q.busId.value) &&
    (q.isActive.Some? ==> r.isActive == (q.isActive.value == "true")) &&
    (q.isActive.None? && IsCustomer(q) ==> r.isActive)
  }

  /** `orderBy: [{ departureTime: 'asc' }, { price: 'asc' }]`. */
  predicate DepartureThenPrice(a: Route, b: Route) {
    a.departureTime < b.departureTime || (a.departureTime == b.departureTime && a.price <= b.price)
  }

  lemma DepartureThenPriceIsTotalPreorder()
    ensures TotalPreorder(DepartureThenPrice)
  {
  }

  /**
   * The page of routes the database returns: the routes matching the `where` clause,
   * ordered by departure then price, cut at `skip = (page - 1) * limit`, `take = limit`.
   */
  function QueryPage(routes: seq<Route>, q: SearchQuery, tz: int): (page: seq<Route>)
    ensures |page| <= OrDefault(q.limit, DefaultLimit)
    ensures forall r :: r in page ==> r in routes && WhereMatches(r, q, tz)
    ensures forall i, j :: 0 <= i < j < |page| ==> DepartureThenPrice(page[i], page[j])
    ensures TotalPreorder(DepartureThenPrice) &&
      page == PageOf(SortBy(Filter(routes, r => WhereMatches(r, q, tz)), DepartureThenPrice),
                     OrDefault(q.page, DefaultPage), OrDefault(q.limit, DefaultLimit))
  {
    var matched := Filter(routes, r => WhereMatches(r, q, tz));
    FilterMembers(routes, r => WhereMatches(r, q, tz));
    DepartureThenPriceIsTotalPreorder();
    var sorted := SortBy(matched, DepartureThenPrice);
    SortByMembers(matched, DepartureThenPrice);
    PageOfSorted(sorted, OrDefault(q.page, DefaultPage), OrDefault(q.limit, DefaultLimit), DepartureThenPrice);
    PageOf(sorted, OrDefault(q.page, DefaultPage), OrDefault(q.limit, DefaultLimit))
  }

  // ---------------------------------------------------------------------------
  // The in-memory pass

  /** The folding used by a comparison: `toLocaleLowerCase('tr-TR')` when `tr`, else `toLowerCase()`. */
  function Fold(tr: bool, s: string): string {
    if tr then LowerTr(s) else Lower(s)
  }

  predicate NamesStation(s: RouteStation, city: string, tr: bool) {
    Contains(Fold(tr, s.station), Fold(tr, city))
  }

  /** `routeStations.find(...)`: the position of the first station whose folded name contains the folded city, or -1. */
  function FindStation(stations: seq<RouteStation>, city: string, tr: bool): (k: int)
    ensures -1 <= k < |stations|
    ensures k >= 0 ==> NamesStation(stations[k], city, tr)
    ensures forall m :: 0 <= m < |stations| && (k == -1 || m < k) ==> !NamesStation(stations[m], city, tr)
  {
    FindFirst(stations, (s: RouteStation) => NamesStation(s, city, tr))
  }

  /** The time of the first station named by `city`, or `otherwise`. */
  function StationTimeOr(r: Route, city: string, tr: bool, otherwise: int): (time: int)
    ensures (forall m :: 0 <= m < |r.routeStations| ==> !NamesStation(r.routeStations[m], city, tr)) ==> time == otherwise
    ensures (exists m :: 0 <= m < |r.routeStations| && NamesStation(r.routeStations[m], city, tr)) ==>
      exists k :: 0 <= k < |r.routeStations| && NamesStation(r.routeStations[k], city, tr) && time == r.routeStations[k].time &&
        forall m :: 0 <= m < k ==> !NamesStation(r.routeStations[m], city, tr)
  {
    var k := FindStation(r.routeStations, city, tr);
    if k == -1 then otherwise else r.routeStations[k].time
  }

  /**
   * The time a route is checked against: its departure, unless the searched origin is
   * not the route's own origin, in which case the first station naming it (if any).
   */
  function CheckTime(r: Route, q: SearchQuery): int {
    if Truthy(q.fromCity) && Lower(Trim(q.fromCity.value)) != Lower(Trim(r.fromCity)) then
      StationTimeOr(r, q.fromCity.value, false, r.departureTime)
    else r.departureTime
  }

  predicate CoversPair(p: RoutePrice, fromCity: string, toCity: string) {
    Contains(Lower(p.fromCity), Lower(fromCity)) && Contains(Lower(p.toCity), Lower(toCity))
  }

  /** `prices.find(...)` by substring match on both cities: the first override's position, or -1. */
  function FindSegmentPrice(prices: seq<RoutePrice>, fromCity: string, toCity: string): (k: int)
    ensures -1 <= k < |prices|
    ensures k >= 0 ==> CoversPair(prices[k], fromCity, toCity)
    ensures forall m :: 0 <= m < |prices| && (k == -1 || m < k) ==> !CoversPair(prices[m], fromCity, toCity)
  {
    if prices == [] then -1
    else if CoversPair(prices[0], fromCity, toCity) then 0
    else
      var k := FindSegmentPrice(prices[1..], fromCity, toCity);
      if k == -1 then -1 else k + 1
  }

  /** The route's own end points contain the searched cities. */
  predicate IsFullRoute(r: Route, fromCity: string, toCity: string) {
    Contains(Lower(r.fromCity), Lower(fromCity)) && Contains(Lower(r.toCity), Lower(toCity))
  }

  /**
   * The in-memory filter. For customers the check time must lie in the searched day
   * (through 03:00 of the next) and at least the cutoff after `now`. With both cities,
   * a route stays only if the first matching override is on sale, or no override
   * matches and the route's own end points match.
   */
  predicate KeepRoute(r: Route, q: SearchQuery, now: int, tz: int) {
    var ct := CheckTime(r, q);
    if q.date.Some? && IsCustomer(q) && (ct < LocalMidnight(q.date.value, tz) || ct > WindowEnd(q, tz)) then false
    else if IsCustomer(q) && ct < now + CutoffMs then false
    else if !BothCities(q) then true
    else
      var k := FindSegmentPrice(r.prices, q.fromCity.value, q.toCity.value);
      if k >= 0 && r.prices[k].isSold then true
      else IsFullRoute(r, q.fromCity.value, q.toCity.value) && k == -1
  }

  /** A customer sees only routes boarding at least the cutoff ahead, within the searched day. */
  lemma {:induction false} CustomerSeesOnlyOpenRoutes(r: Route, q: SearchQuery, now: int, tz: int)
    requires KeepRoute(r, q, now, tz) && IsCustomer(q)
    ensures CheckTime(r, q) >= now + CutoffMs
    ensures q.date.Some? ==> LocalMidnight(q.date.value, tz) <= CheckTime(r, q) <= WindowEnd(q, tz)
  {
  }

  /** With both cities, a matching override that is closed to sale hides the route, even a full-route match. */
  lemma ClosedOverrideHidesRoute(r: Route, q: SearchQuery, now: int, tz: int)
    requires BothCities(q)
    requires var k := FindSegmentPrice(r.prices, q.fromCity.value, q.toCity.value); k >= 0 && !r.prices[k].isSold
    ensures !KeepRoute(r, q, now, tz)
  {
  }

  // ---------------------------------------------------------------------------
  // Details

  /**
   * The stop range seats are counted over. With both cities, each end is the first stop
   * whose folded name is the folded city, and an end that is not found falls back on
   * its own: the boarding end to the origin, the alighting end to the destination.
   * Without both cities the range is the whole route.
   */
  function SearchWindow(r: Route, q: SearchQuery): (w: (int, int))
    ensures var stops := FoldedStopsTr(r);
      BothCities(q) ==>
        var from := LowerTr(Trim(q.fromCity.value));
        var to := LowerTr(Trim(q.toCity.value));
        (from in stops ==> 0 <= w.0 < |stops| && stops[w.0] == from && from !in stops[..w.0]) &&
        (from !in stops ==> w.0 == 0) &&
        (to in stops ==> 0 <= w.1 < |stops| && stops[w.1] == to && to !in stops[..w.1]) &&
        (to !in stops ==> w.1 == |stops| - 1)
    ensures !BothCities(q) ==> w == (0, |StopNames(r)| - 1)
  {
    if BothCities(q) then
      var stops := FoldedStopsTr(r);
      var f := IndexOf(stops, LowerTr(Trim(q.fromCity.value)));
      var t := IndexOf(stops, LowerTr(Trim(q.toCity.value)));
      (if f == -1 then 0 else f, if t == -1 then |stops| - 1 else t)
    else (0, |r.routeStations| + 1)
  }

  /** An active ticket of route `r` that the occupancy count considers. */
  predicate CountsAgainst(t: Ticket, r: Route, q: SearchQuery) {
    var w := SearchWindow(r, q);
    t.routeId == r.id && Active(t) && (!BothCities(q) || Overlaps(t.fromStopIndex, t.toStopIndex, w.0, w.1))
  }

  /** The distinct seats taken on the searched segment (on the whole route without both cities). */
  function Occupied(r: Route, ts: seq<Ticket>, q: SearchQuery): (seats: set<int>)
    ensures forall x :: x in seats <==> exists k :: 0 <= k < |ts| && CountsAgainst(ts[k], r, q) && ts[k].seatNumber == x
  {
    set k | 0 <= k < |ts| && CountsAgainst(ts[k], r, q) :: ts[k].seatNumber
  }

  /**
   * The per-route details of a search hit. The passenger's departure (arrival) is the
   * time of the first station whose Turkish-folded name contains the searched origin
   * (destination), else the route's own; the duration runs between those two times;
   * the price is the first matching override's, else the base price.
   */
  function Details(r: Route, ts: seq<Ticket>, q: SearchQuery): (d: RouteResult)
    ensures d.route == r && d.mainDepartureTime == r.departureTime
    ensures d.availableSeats == r.bus.seatCount - |Occupied(r, ts, q)|
    ensures var k := if Truthy(q.fromCity) then FindStation(r.routeStations, q.fromCity.value, true) else -1;
      d.departureTime == if k >= 0 then r.routeStations[k].time else r.departureTime
    ensures var k := if Truthy(q.toCity) then FindStation(r.routeStations, q.toCity.value, true) else -1;
      d.arrivalTime == if k >= 0 then r.routeStations[k].time else r.arrivalTime
    ensures d.duration == CalculateDuration(d.departureTime, d.arrivalTime)
    ensures var k := if BothCities(q) then FindSegmentPrice(r.prices, q.fromCity.value, q.toCity.value) else -1;
      d.price == if k >= 0 then r.prices[k].price else r.price
  {
    var k := if BothCities(q) then FindSegmentPrice(r.prices, q.fromCity.value, q.toCity.value) else -1;
    var price := if k >= 0 then r.prices[k].price else r.price;
    var dep := if Truthy(q.fromCity) then StationTimeOr(r, q.fromCity.value, true, r.departureTime) else r.departureTime;
    var arr := if Truthy(q.toCity) then StationTimeOr(r, q.toCity.value, true, r.arrivalTime) else r.arrivalTime;
    RouteResult(r, r.departureTime, dep, arr, price, r.bus.seatCount - |Occupied(r, ts, q)|,
      CalculateDuration(dep, arr))
  }

  /** With both cities, a seat counts as taken exactly when an active ticket blocks it on the searched range. */
  lemma OccupiedIsBlocked(r: Route, ts: seq<Ticket>, q: SearchQuery, seat: int)
    requires BothCities(q)
    ensures var w := SearchWindow(r, q);
      seat in Occupied(r, ts, q) <==> exists k :: 0 <= k < |ts| && Blocks(ts[k], r.id, seat, w.0, w.1)
  {
  }

  /** When both cities resolve, search and the seat map count over the same range. */
  lemma SearchWindowMatchesAvailability(r: Route, q: SearchQuery)
    requires BothCities(q)
    requires LowerTr(Trim(q.fromCity.value)) in FoldedStopsTr(r) && LowerTr(Trim(q.toCity.value)) in FoldedStopsTr(r)
    ensures SearchWindow(r, q) == AvailabilityWindow(r, q.fromCity, q.toCity)
  {
  }

  /** An upper-case ASCII letter other than `I`, alone, is kept by `trim()` and folded by the Turkish rules to its lower-case form. */
  lemma FoldTrLetter(c: char)
    requires 'A' <= c <= 'Z' && c != 'I'
    ensures LowerTr(Trim([c])) == [(c as int + 32) as char]
  {
    assert TrimStart([c]) == [c];
    assert TrimEnd([c]) == [c];
  }

  /** The stops of the example route A -> B -> C -> D, folded by the Turkish rules. */
  lemma ExampleTrStops()
    ensures FoldedStopsTr(ExampleRoute) == ["a", "b", "c", "d"]
    ensures LowerTr(Trim("B")) == "b" && LowerTr(Trim("X")) == "x"
  {
    var names := StopNames(ExampleRoute);
    assert names == ["A", "B", "C", "D"];
    FoldTrLetter('A');
    FoldTrLetter('B');
    FoldTrLetter('C');
    FoldTrLetter('D');
    FoldTrLetter('X');
    assert FoldAllTr(names[4..]) == [];
    assert FoldAllTr(names[3..]) == ["d"];
    assert FoldAllTr(names[2..]) == ["c", "d"];
    assert FoldAllTr(names[1..]) == ["b", "c", "d"];
    var stops: seq<string> := ["a", "b", "c", "d"];
    assert IndexOf(stops[1..], "b") == 0;
  }

  /**
   * When only one city resolves, the two fall back differently: search keeps the end
   * it found, the seat map takes the whole route.
   */
  lemma SearchWindowDiffersWhenOneCityMissing()
    ensures var q := SearchQuery(Some("B"), Some("X"), None, None, None, None, None, None);
      SearchWindow(ExampleRoute, q) == (1, 3) && AvailabilityWindow(ExampleRoute, q.fromCity, q.toCity) == (0, 3)
  {
    ExampleTrStops();
  }

  /**
   * With both cities given and every active ticket on a seat of the bus, the count a
   * search shows is the length of the seat map's free-seat list over the same range.
   */
  lemma {:induction false} AvailableSeatsMatchSeatMap(r: Route, ts: seq<Ticket>, q: SearchQuery)
    requires BothCities(q) && r.bus.seatCount >= 0
    requires forall k :: 0 <= k < |ts| && ts[k].routeId == r.id && Active(ts[k]) ==> 1 <= ts[k].seatNumber <= r.bus.seatCount
    ensures var w := SearchWindow(r, q);
      Details(r, ts, q).availableSeats == |FreeSeats(r, ts, w.0, w.1)|
  {
    var w := SearchWindow(r, q);
    var n := r.bus.seatCount;
    var occupied := Occupied(r, ts, q);
    var free := FreeSeats(r, ts, w.0, w.1);
    var all := SeatRange(n);
    var freeSet := set x | x in free;
    forall x ensures x in occupied <==> x in all && SeatBlocked(ts, r.id, x, w.0, w.1) {
      OccupiedIsBlocked(r, ts, q, x);
    }
    assert occupied <= all;
    assert freeSet == all - occupied;
    assert |all| == |occupied| + |all - occupied| by {
      assert all == occupied + (all - occupied);
    }
    IncreasingCard(free);
  }

  /** The seat numbers `1..n`. */
  function SeatRange(n: int): (s: set<int>)
    ensures forall x :: x in s <==> 1 <= x <= n
    ensures n >= 0 ==> |s| == n
    decreases if n < 0 then 0 else n
  {
    if n <= 0 then {}
    else
      var rest := SeatRange(n - 1);
      assert n !in rest;
      rest + {n}
  }

  /** A strictly increasing list has as many distinct elements as entries. */
  lemma {:induction false} IncreasingCard(s: seq<int>)
    requires forall i, j :: 0 <= i < j < |s| ==> s[i] < s[j]
    ensures |set x | x in s| == |s|
  {
    if s != [] {
      var rest := s[1..];
      IncreasingCard(rest);
      assert s[0] !in rest;
      assert (set x | x in s) == (set x | x in rest) + {s[0]};
    }
  }

  // ---------------------------------------------------------------------------
  // The search

  /** Earlier passenger departure first. */
  predicate UserDepartsNoLater(a: RouteResult, b: RouteResult) {
    a.departureTime <= b.departureTime
  }

  lemma UserDepartsNoLaterIsTotalPreorder()
    ensures TotalPreorder(UserDepartsNoLater)
  {
  }

  /** `routes.map(...)`: the details of each route, in order. */
  function DetailAll(rs: seq<Route>, ts: seq<Ticket>, q: SearchQuery): (ds: seq<RouteResult>)
    ensures |ds| == |rs|
    ensures forall i :: 0 <= i < |rs| ==> ds[i] == Details(rs[i], ts, q)
    ensures forall d :: d in ds ==> d.route in rs && d == Details(d.route, ts, q)
  {
    if rs == [] then [] else [Details(rs[0], ts, q)] + DetailAll(rs[1..], ts, q)
  }

  /** The search hits: the database page, filtered in memory, detailed, ordered by the passenger's departure. */
  function Hits(routes: seq<Route>, ts: seq<Ticket>, q: SearchQuery, now: int, tz: int): (data: seq<RouteResult>)
    ensures |data| <= OrDefault(q.limit, DefaultLimit)
    ensures forall d :: d in data ==>
      d.route in routes && WhereMatches(d.route, q, tz) && KeepRoute(d.route, q, now, tz) && d == Details(d.route, ts, q)
    ensures forall i, j :: 0 <= i < j < |data| ==> data[i].departureTime <= data[j].departureTime
    ensures forall r :: r in QueryPage(routes, q, tz) && KeepRoute(r, q, now, tz) ==> Details(r, ts, q) in data
    ensures multiset(data) == multiset(DetailAll(Filter(QueryPage(routes, q, tz), r => KeepRoute(r, q, now, tz)), ts, q))
  {
    var page := QueryPage(routes, q, tz);
    var kept := Filter(page, r => KeepRoute(r, q, now, tz));
    FilterMembers(page, r => KeepRoute(r, q, now, tz));
    var detailed := DetailAll(kept, ts, q);
    UserDepartsNoLaterIsTotalPreorder();
    var data := SortBy(detailed, UserDepartsNoLater);
    SortByMembers(detailed, UserDepartsNoLater);
    forall r | r in page && KeepRoute(r, q, now, tz) ensures Details(r, ts, q) in data {
      var i :| 0 <= i < |kept| && kept[i] == r;
      assert detailed[i] == Details(r, ts, q);
    }
    data
  }

  /**
   * The final ordering is stable: hits whose passenger departure is the same stay in the
   * order the database page gave them (departure, then price).
   */
  lemma HitsKeepPageOrderOnTies(routes: seq<Route>, ts: seq<Ticket>, q: SearchQuery, now: int, tz: int, t: int)
    ensures Filter(Hits(routes, ts, q, now, tz), (d: RouteResult) => d.departureTime == t) ==
      Filter(DetailAll(Filter(QueryPage(routes, q, tz), r => KeepRoute(r, q, now, tz)), ts, q), (d: RouteResult) => d.departureTime == t)
  {
    var detailed := DetailAll(Filter(QueryPage(routes, q, tz), r => KeepRoute(r, q, now, tz)), ts, q);
    UserDepartsNoLaterIsTotalPreorder();
    assert Hits(routes, ts, q, now, tz) == SortBy(detailed, UserDepartsNoLater);
    SortByStable(detailed, UserDepartsNoLater, (d: RouteResult) => d.departureTime == t);
  }

  /** `search`: the hits, with `total` and `totalPages` counted over the hits of this page. */
  function Search(routes: seq<Route>, ts: seq<Ticket>, q: SearchQuery, now: int, tz: int): (res: SearchResponse)
    ensures res.data == Hits(routes, ts, q, now, tz)
    ensures res.meta.page == OrDefault(q.page, DefaultPage) && res.meta.limit == OrDefault(q.limit, DefaultLimit)
    ensures res.meta.total == |res.data| <= res.meta.limit
    ensures res.meta.totalPages == CeilDiv(|res.data|, res.meta.limit)
  {
    var data := Hits(routes, ts, q, now, tz);
    var limit := OrDefault(q.limit, DefaultLimit);
    SearchResponse(data, Meta(|data|, OrDefault(q.page, DefaultPage), limit, CeilDiv(|data|, limit)))
  }

  /**
   * The page count counts only the hits of the current page, so it never exceeds one:
   * a client cannot learn that a second page exists.
   */
  lemma SearchHasAtMostOnePage(routes: seq<Route>, ts: seq<Ticket>, q: SearchQuery, now: int, tz: int)
    ensures Search(routes, ts, q, now, tz).meta.totalPages <= 1
  {
    var res := Search(routes, ts, q, now, tz);
    OnePageAtMost(res.meta.total, res.meta.limit);
  }
}
