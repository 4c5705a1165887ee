/**
 * The booking engine: stop-index resolution, the ordered booking guards, segment
 * pricing, role-dependent initial state, seat availability over a stop range, the
 * unguarded status changes and the PNR generator.
 *
 * `Decide` states the guard chain of a booking as a pure function of the route, the
 * existing tickets, the request, the caller's role and the clock; `TicketService.Create`
 * runs the same guards step by step against the store and is proved to agree with it.
 */
module TicketService {
  import opened Wrappers
  import opened Text
  import opened Domain
  import opened Store
  import opened Gateway
  import opened TicketDto

  datatype TicketError =
    | RouteNotFound
    | RouteInactive
    | RouteDeparted
    | InvalidSeatNumber(seatCount: int)
    | InvalidCity
    | InvertedRange
    | SalesClosed
    | SeatTaken(seatNumber: int)
    | SegmentNotSold
    | TicketNotFound
    | Forbidden
    | NotReserved

  /** The stop indices a booking resolves to and the price it is charged. */
  datatype Quote = Quote(fromIndex: int, toIndex: int, price: int)

  function Lookup<K, V>(m: map<K, V>, k: K): (o: Option<V>)
    ensures o.Some? <==> k in m
    ensures o.Some? ==> o.value == m[k]
  {
    if k in m then Some(m[k]) else None
  }

  // ---------------------------------------------------------------------------
  // Booking decision

  /** The time the passenger boards: the station before stop `fromIndex`, or the main departure. */
  function BoardingTime(r: Route, fromIndex: int): (t: int)
    ensures fromIndex <= 0 ==> t == r.departureTime
    ensures 0 < fromIndex <= |r.routeStations| ==> t == r.routeStations[fromIndex - 1].time
  {
    if fromIndex > 0 && fromIndex - 1 < |r.routeStations| then r.routeStations[fromIndex - 1].time
    else r.departureTime
  }

  /** A price override for exactly this city pair, compared with `toLowerCase()` and without trimming. */
  predicate ExactPriceMatch(p: RoutePrice, fromCity: string, toCity: string) {
    Lower(p.fromCity) == Lower(fromCity) && Lower(p.toCity) == Lower(toCity)
  }

  /** `prices.find(...)`: the first exactly matching override. */
  function FindExactPrice(prices: seq<RoutePrice>, fromCity: string, toCity: string): (o: Option<RoutePrice>)
    ensures o.None? <==> forall k :: 0 <= k < |prices| ==> !ExactPriceMatch(prices[k], fromCity, toCity)
    ensures o.Some? ==> o.value in prices && ExactPriceMatch(o.value, fromCity, toCity)
  {
    if prices == [] then None
    else if ExactPriceMatch(prices[0], fromCity, toCity) then Some(prices[0])
    else
      var rest := FindExactPrice(prices[1..], fromCity, toCity);
      assert forall k :: 1 <= k < |prices| ==> prices[k] == prices[1..][k - 1];
      rest
  }

  /** `ticket.findFirst(...)`: the first ticket holding the seat somewhere in `[from, to)`. */
  function FindConflict(ts: seq<Ticket>, routeId: string, seat: int, from: int, to: int): (o: Option<Ticket>)
    ensures o.None? <==> forall k :: 0 <= k < |ts| ==> !Blocks(ts[k], routeId, seat, from, to)
    ensures o.Some? ==> o.value in ts && Blocks(o.value, routeId, seat, from, to)
  {
    if ts == [] then None
    else if Blocks(ts[0], routeId, seat, from, to) then Some(ts[0])
    else
      var rest := FindConflict(ts[1..], routeId, seat, from, to);
      assert forall k :: 1 <= k < |ts| ==> ts[k] == ts[1..][k - 1];
      rest
  }

  /**
   * The booking guards in the order they fire: route missing, route inactive, customer
   * after departure, seat beyond capacity, unknown city, inverted range, customer inside
   * the 15-minute cutoff, seat conflict, segment not sold. On success, the resolved
   * indices and the price: the override's price when one matches, else the route price.
   */
  function Decide(route: Option<Route>, ts: seq<Ticket>, req: CreateTicketRequest, role: Role, now: int): (d: Result<Quote, TicketError>) {
    if route.None? then Failure(RouteNotFound)
    else
      var r := route.value;
      if !r.isActive then Failure(RouteInactive)
      else if role == Customer && r.departureTime < now then Failure(RouteDeparted)
      else if req.seatNumber > r.bus.seatCount then Failure(InvalidSeatNumber(r.bus.seatCount))
      else
        var stops := FoldedStops(r);
        var f := IndexOf(stops, Lower(Trim(req.fromCity)));
        var t := IndexOf(stops, Lower(Trim(req.toCity)));
        if f == -1 || t == -1 then Failure(InvalidCity)
        else if f >= t then Failure(InvertedRange)
        else DecideSegment(r, ts, req, role, now, f, t)
  }

  /** The guards after the cities resolve to stops `f < t`: cutoff, conflict, segment sale. */
  function DecideSegment(r: Route, ts: seq<Ticket>, req: CreateTicketRequest, role: Role, now: int, f: int, t: int): (d: Result<Quote, TicketError>) {
    if role == Customer && BoardingTime(r, f) < now + CutoffMs then Failure(SalesClosed)
    else if FindConflict(ts, req.routeId, req.seatNumber, f, t).Some? then Failure(SeatTaken(req.seatNumber))
    else
      match FindExactPrice(r.prices, req.fromCity, req.toCity)
      case Some(p) => if !p.isSold then Failure(SegmentNotSold) else Success(Quote(f, t, p.price))
      case None => Success(Quote(f, t, r.price))
  }

  /**
   * What an accepted booking guarantees: the route exists and is active, the seat is
   * within capacity, both cities resolve (to their first occurrence in the trimmed,
   * lower-cased stop list) in travel order, a customer is before departure and outside
   * the boarding cutoff, and no active ticket holds the seat anywhere in the range.
   */
  lemma DecideAccepts(route: Option<Route>, ts: seq<Ticket>, req: CreateTicketRequest, role: Role, now: int)
    requires Decide(route, ts, req, role, now).Success?
    ensures route.Some? && route.value.isActive && req.seatNumber <= route.value.bus.seatCount
    ensures var stops := FoldedStops(route.value);
      var q := Decide(route, ts, req, role, now).value;
      0 <= q.fromIndex < q.toIndex < |stops| &&
      q.fromIndex == IndexOf(stops, Lower(Trim(req.fromCity))) &&
      q.toIndex == IndexOf(stops, Lower(Trim(req.toCity)))
    ensures role == Customer ==>
      var q := Decide(route, ts, req, role, now).value;
      now <= route.value.departureTime && now + CutoffMs <= BoardingTime(route.value, q.fromIndex)
    ensures var q := Decide(route, ts, req, role, now).value;
      forall k :: 0 <= k < |ts| ==> !Blocks(ts[k], req.routeId, req.seatNumber, q.fromIndex, q.toIndex)
  {
    var r := route.value;
    var stops := FoldedStops(r);
    var f := IndexOf(stops, Lower(Trim(req.fromCity)));
    var t := IndexOf(stops, Lower(Trim(req.toCity)));
    assert Decide(route, ts, req, role, now) == DecideSegment(r, ts, req, role, now, f, t);
  }

  /**
   * Segment pricing: an accepted booking costs the first exactly matching override's
   * price, which is then on sale, or the route price when no override matches.
   */
  lemma DecidePrice(route: Option<Route>, ts: seq<Ticket>, req: CreateTicketRequest, role: Role, now: int)
    requires Decide(route, ts, req, role, now).Success?
    ensures var price := Decide(route, ts, req, role, now).value.price;
      match FindExactPrice(route.value.prices, req.fromCity, req.toCity)
      case Some(p) => p.isSold && price == p.price
      case None => price == route.value.price
  {
  }

  /**
   * The converse of `DecideAccepts` and `DecidePrice`: a booking that passes every guard
   * is accepted, on the first stops of its cities, at the first exact override's price
   * or else the route price.
   */
  lemma GuardsPassAccepted(route: Option<Route>, ts: seq<Ticket>, req: CreateTicketRequest, role: Role, now: int)
    requires route.Some? && route.value.isActive && req.seatNumber <= route.value.bus.seatCount
    requires role == Customer ==> now <= route.value.departureTime
    requires var stops := FoldedStops(route.value);
      Lower(Trim(req.fromCity)) in stops && Lower(Trim(req.toCity)) in stops &&
      IndexOf(stops, Lower(Trim(req.fromCity))) < IndexOf(stops, Lower(Trim(req.toCity)))
    requires role == Customer ==>
      now + CutoffMs <= BoardingTime(route.value, IndexOf(FoldedStops(route.value), Lower(Trim(req.fromCity))))
    requires var stops := FoldedStops(route.value);
      forall k :: 0 <= k < |ts| ==>
        !Blocks(ts[k], req.routeId, req.seatNumber, IndexOf(stops, Lower(Trim(req.fromCity))), IndexOf(stops, Lower(Trim(req.toCity))))
    requires var o := FindExactPrice(route.value.prices, req.fromCity, req.toCity); o.None? || o.value.isSold
    ensures var stops := FoldedStops(route.value);
      var o := FindExactPrice(route.value.prices, req.fromCity, req.toCity);
      Decide(route, ts, req, role, now) ==
        Success(Quote(IndexOf(stops, Lower(Trim(req.fromCity))), IndexOf(stops, Lower(Trim(req.toCity))),
                      if o.Some? then o.value.price else route.value.price))
  {
    var r := route.value;
    var stops := FoldedStops(r);
    var f := IndexOf(stops, Lower(Trim(req.fromCity)));
    var t := IndexOf(stops, Lower(Trim(req.toCity)));
    assert Decide(route, ts, req, role, now) == DecideSegment(r, ts, req, role, now, f, t);
  }

  /**
   * A segment closed to sale is never sold: when the first exactly matching override has
   * `isSold` false, the booking is refused whatever the seat's state.
   */
  lemma ClosedSegmentRefused(route: Option<Route>, ts: seq<Ticket>, req: CreateTicketRequest, role: Role, now: int)
    requires route.Some?
    requires var o := FindExactPrice(route.value.prices, req.fromCity, req.toCity); o.Some? && !o.value.isSold
    ensures Decide(route, ts, req, role, now).Failure?
  {
  }

  /** AGENT and ADMIN sales are issued confirmed and paid. */
  predicate IsAgentSale(role: Role) {
    role == Agent || role == Admin
  }

  /**
   * The ticket a successful booking writes. The owner is the caller only for a customer;
   * the issuer is always the caller; agent sales start CONFIRMED and PAID, every other
   * booking RESERVED and PENDING.
   */
  function NewTicket(id: nat, pnr: string, req: CreateTicketRequest, userId: string, role: Role, q: Quote): (t: Ticket)
    ensures t.id == id && t.pnrNumber == pnr && t.routeId == req.routeId && t.issuedById == userId
    ensures t.userId == Some(userId) <==> role == Customer
    ensures t.userId == None <==> role != Customer
    ensures (t.status == Confirmed && t.paymentStatus == Paid) <==> IsAgentSale(role)
    ensures (t.status == Reserved && t.paymentStatus == Pending) <==> !IsAgentSale(role)
    ensures Active(t)
    ensures t.seatNumber == req.seatNumber && t.fromStopIndex == q.fromIndex && t.toStopIndex == q.toIndex && t.price == q.price
  {
    Ticket(
      id, pnr, req.routeId,
      if role == Customer then Some(userId) else None,
      userId, req.fromCity, req.toCity, q.fromIndex, q.toIndex, req.seatNumber, req.gender, q.price,
      req.tcKimlikNo, req.userPhoneNumber, req.passengerName,
      if IsAgentSale(role) then Confirmed else Reserved,
      if IsAgentSale(role) then Paid else Pending,
      None, None)
  }

  /** The seat update a booking announces: confirmed for agent sales, reserved (with gender) otherwise. */
  function CreatedEvent(t: Ticket, role: Role, now: int): (e: SeatUpdatePayload)
    ensures e.routeId == t.routeId && e.seatNumber == t.seatNumber && e.timestamp == now
    ensures e.eventType == (if IsAgentSale(role) then SeatConfirmed else SeatReserved)
    ensures e.fromStopIndex == Some(t.fromStopIndex) && e.toStopIndex == Some(t.toStopIndex)
  {
    SeatUpdatePayload(
      t.routeId, t.seatNumber,
      if IsAgentSale(role) then SeatConfirmed else SeatReserved,
      Some(t.id), Some(t.pnrNumber), Some(t.fromStopIndex), Some(t.toStopIndex), now,
      Some(SeatUpdateMetadata(Some(t.fromCity), Some(t.toCity), Some(t.price),
        if IsAgentSale(role) then None else Some(t.gender))))
  }

  /** A booking that `Decide` accepts keeps the no-double-booking invariant. */
  lemma {:induction false} BookingKeepsNoDoubleBooking(
    route: Option<Route>, ts: seq<Ticket>, req: CreateTicketRequest, role: Role, now: int,
    id: nat, pnr: string, userId: string)
    requires NoDoubleBooking(ts)
    requires Decide(route, ts, req, role, now).Success?
    ensures NoDoubleBooking(ts + [NewTicket(id, pnr, req, userId, role, Decide(route, ts, req, role, now).value)])
  {
    var q := Decide(route, ts, req, role, now).value;
    var t := NewTicket(id, pnr, req, userId, role, q);
    forall k | 0 <= k < |ts| ensures !Clash(ts[k], t) {
      assert !Blocks(ts[k], req.routeId, req.seatNumber, q.fromIndex, q.toIndex);
    }
    NoDoubleBookingAppend(ts, t);
  }

  // ---------------------------------------------------------------------------
  // A worked example: route A -> B -> C -> D, seat 5 held from A to C.

  const ExampleRoute: Route := Route(
    "r1", "A", "D", [RouteStation("B", 1000, 0), RouteStation("C", 2000, 1)],
    0, 3000, 100, true, Bus("b1", 40, None, None), [])

  function ExampleTicket(status: TicketStatus): Ticket {
    Ticket(0, "VV00AAAAA", "r1", None, "agent", "A", "C", 0, 2, 5, Male, 100,
      None, "5321234567", "Ayse", status, Paid, None, None)
  }

  function ExampleRequest(fromCity: string, toCity: string): CreateTicketRequest {
    CreateTicketRequest("r1", fromCity, toCity, 5, Female, None, "5321234567", "Zeynep")
  }

  /** An upper-case ASCII letter alone is kept by `trim()` and folded to its lower-case form. */
  lemma FoldLetter(c: char)
    requires 'A' <= c <= 'Z'
    ensures Lower(Trim([c])) == [(c as int + 32) as char]
  {
    assert TrimStart([c]) == [c];
    assert TrimEnd([c]) == [c];
    assert Lower([c]) == LowerChar(c) + Lower([]);
  }

  /** The example's stops, trimmed and folded. */
  lemma ExampleStops()
    ensures FoldedStops(ExampleRoute) == ["a", "b", "c", "d"]
  {
    var names := StopNames(ExampleRoute);
    assert names == ["A", "B", "C", "D"];
    FoldLetter('A');
    FoldLetter('B');
    FoldLetter('C');
    FoldLetter('D');
    assert FoldAll(names[4..]) == [];
    assert FoldAll(names[3..]) == ["d"];
    assert FoldAll(names[2..]) == ["c", "d"];
    assert FoldAll(names[1..]) == ["b", "c", "d"];
  }

  /** How the example's cities resolve. */
  lemma ExampleIndices()
    ensures IndexOf(FoldedStops(ExampleRoute), Lower(Trim("B"))) == 1
    ensures IndexOf(FoldedStops(ExampleRoute), Lower(Trim("C"))) == 2
    ensures IndexOf(FoldedStops(ExampleRoute), Lower(Trim("D"))) == 3
  {
    ExampleStops();
    FoldLetter('B');
    FoldLetter('C');
    FoldLetter('D');
    var stops: seq<string> := ["a", "b", "c", "d"];
    assert IndexOf(stops[3..], "d") == 0;
    assert IndexOf(stops[2..], "c") == 0 && IndexOf(stops[2..], "d") == 1;
    assert IndexOf(stops[1..], "b") == 0 && IndexOf(stops[1..], "c") == 1 && IndexOf(stops[1..], "d") == 2;
  }

  /**
   * Adjacent segments share a seat: with seat 5 sold A to C, C to D can be booked, B to D
   * is refused as a conflict, and once the A to C ticket is cancelled B to D can be booked.
   */
  lemma AdjacentSegmentsShareSeat()
    ensures Decide(Some(ExampleRoute), [ExampleTicket(Confirmed)], ExampleRequest("C", "D"), Agent, 0) == Success(Quote(2, 3, 100))
    ensures Decide(Some(ExampleRoute), [ExampleTicket(Confirmed)], ExampleRequest("B", "D"), Agent, 0) == Failure(SeatTaken(5))
    ensures Decide(Some(ExampleRoute), [ExampleTicket(Cancelled)], ExampleRequest("B", "D"), Agent, 0) == Success(Quote(1, 3, 100))
  {
    ExampleAfterLeg();
    ExampleOverlappingLeg();
    ExampleAfterCancel();
  }

  lemma ExampleAfterLeg()
    ensures Decide(Some(ExampleRoute), [ExampleTicket(Confirmed)], ExampleRequest("C", "D"), Agent, 0) == Success(Quote(2, 3, 100))
  {
    ExampleIndices();
    var held := [ExampleTicket(Confirmed)];
    assert FindConflict(held, "r1", 5, 2, 3) == None by {
      assert !Blocks(held[0], "r1", 5, 2, 3);
    }
    assert Decide(Some(ExampleRoute), held, ExampleRequest("C", "D"), Agent, 0) ==
      DecideSegment(ExampleRoute, held, ExampleRequest("C", "D"), Agent, 0, 2, 3);
  }

  lemma ExampleOverlappingLeg()
    ensures Decide(Some(ExampleRoute), [ExampleTicket(Confirmed)], ExampleRequest("B", "D"), Agent, 0) == Failure(SeatTaken(5))
  {
    ExampleIndices();
    var held := [ExampleTicket(Confirmed)];
    assert FindConflict(held, "r1", 5, 1, 3).Some? by {
      assert Blocks(held[0], "r1", 5, 1, 3);
    }
    assert Decide(Some(ExampleRoute), held, ExampleRequest("B", "D"), Agent, 0) ==
      DecideSegment(ExampleRoute, held, ExampleRequest("B", "D"), Agent, 0, 1, 3);
  }

  lemma ExampleAfterCancel()
    ensures Decide(Some(ExampleRoute), [ExampleTicket(Cancelled)], ExampleRequest("B", "D"), Agent, 0) == Success(Quote(1, 3, 100))
  {
    ExampleIndices();
    var freed := [ExampleTicket(Cancelled)];
    assert FindConflict(freed, "r1", 5, 1, 3) == None by {
      assert !Blocks(freed[0], "r1", 5, 1, 3);
    }
    assert Decide(Some(ExampleRoute), freed, ExampleRequest("B", "D"), Agent, 0) ==
      DecideSegment(ExampleRoute, freed, ExampleRequest("B", "D"), Agent, 0, 1, 3);
  }

  // ---------------------------------------------------------------------------
  // Seat availability

  /** Some active ticket holds `seat` of route `routeId` inside `[from, to)`. */
  predicate SeatBlocked(ts: seq<Ticket>, routeId: string, seat: int, from: int, to: int) {
    exists k :: 0 <= k < |ts| && Blocks(ts[k], routeId, seat, from, to)
  }

  /**
   * The stop range availability is computed for: with both cities given and both folded
   * names on the route, the first stop of each; in every other case the whole route.
   */
  function AvailabilityWindow(r: Route, fromCity: Option<string>, toCity: Option<string>): (w: (int, int))
    ensures var stops := FoldedStopsTr(r);
      Truthy(fromCity) && Truthy(toCity) ==>
        var from := LowerTr(Trim(fromCity.value));
        var to := LowerTr(Trim(toCity.value));
        from in stops && to in stops ==>
          0 <= w.0 < |stops| && stops[w.0] == from && from !in stops[..w.0] &&
          0 <= w.1 < |stops| && stops[w.1] == to && to !in stops[..w.1]
    ensures var stops := FoldedStopsTr(r);
      !(Truthy(fromCity) && Truthy(toCity) &&
        LowerTr(Trim(fromCity.value)) in stops && LowerTr(Trim(toCity.value)) in stops) ==>
        w == (0, |stops| - 1)
  {
    var stops := FoldedStopsTr(r);
    if Truthy(fromCity) && Truthy(toCity) then
      var f := IndexOf(stops, LowerTr(Trim(fromCity.value)));
      var t := IndexOf(stops, LowerTr(Trim(toCity.value)));
      if f == -1 || t == -1 then (0, |stops| - 1) else (f, t)
    else (0, |stops| - 1)
  }

  /** The seats `lo..hi` that no active ticket of route `routeId` holds in `[from, to)`, ascending. */
  function FreeSeatsBetween(ts: seq<Ticket>, routeId: string, from: int, to: int, lo: int, hi: int): (s: seq<int>)
    decreases hi - lo
    ensures forall x :: x in s <==> lo <= x <= hi && !SeatBlocked(ts, routeId, x, from, to)
    ensures forall i, j :: 0 <= i < j < |s| ==> s[i] < s[j]
  {
    if lo > hi then []
    else
      var rest := FreeSeatsBetween(ts, routeId, from, to, lo + 1, hi);
      assert forall j :: 0 <= j < |rest| ==> lo < rest[j] by {
        forall j | 0 <= j < |rest| ensures lo < rest[j] {
          assert rest[j] in rest;
        }
      }
      if SeatBlocked(ts, routeId, lo, from, to) then rest else [lo] + rest
  }

  /** The free seats of a route over `[from, to)`. */
  function FreeSeats(r: Route, ts: seq<Ticket>, from: int, to: int): (s: seq<int>)
    ensures forall x :: x in s <==> 1 <= x <= r.bus.seatCount && !SeatBlocked(ts, r.id, x, from, to)
    ensures forall i, j :: 0 <= i < j < |s| ==> s[i] < s[j]
  {
    FreeSeatsBetween(ts, r.id, from, to, 1, r.bus.seatCount)
  }

  /** `getAvailableSeats`: the free seats over the requested (or whole) range, or not found. */
  function GetAvailableSeats(route: Option<Route>, ts: seq<Ticket>, fromCity: Option<string>, toCity: Option<string>): (r: Result<seq<int>, TicketError>)
    ensures route.None? <==> r == Failure(RouteNotFound)
    ensures route.Some? ==> r.Success?
    ensures route.Some? ==>
      var w := AvailabilityWindow(route.value, fromCity, toCity);
      (forall x :: x in r.value <==> 1 <= x <= route.value.bus.seatCount && !SeatBlocked(ts, route.value.id, x, w.0, w.1)) &&
      (forall i, j :: 0 <= i < j < |r.value| ==> r.value[i] < r.value[j])
  {
    if route.None? then Failure(RouteNotFound)
    else
      var w := AvailabilityWindow(route.value, fromCity, toCity);
      Success(FreeSeats(route.value, ts, w.0, w.1))
  }

  /**
   * Availability and booking agree: a seat within capacity is listed as free over
   * `[from, to)` exactly when the booking conflict check finds no ticket for it.
   */
  lemma FreeSeatsMatchConflictCheck(r: Route, ts: seq<Ticket>, seat: int, from: int, to: int)
    requires 1 <= seat <= r.bus.seatCount
    ensures seat in FreeSeats(r, ts, from, to) <==> FindConflict(ts, r.id, seat, from, to).None?
  {
  }

  /**
   * Cancelling an active ticket gives its seat back: under the invariant, the seat is
   * not free over the ticket's range before the cancellation and is free afterwards.
   */
  lemma {:induction false} CancelFreesSeat(r: Route, ts: seq<Ticket>, i: int, now: int)
    requires NoDoubleBooking(ts) && 0 <= i < |ts|
    requires Active(ts[i]) && ts[i].routeId == r.id && 1 <= ts[i].seatNumber <= r.bus.seatCount
    requires ts[i].fromStopIndex < ts[i].toStopIndex
    ensures ts[i].seatNumber !in FreeSeats(r, ts, ts[i].fromStopIndex, ts[i].toStopIndex)
    ensures ts[i].seatNumber in FreeSeats(r, ts[i := ts[i].(status := Cancelled, cancelledAt := Some(now))], ts[i].fromStopIndex, ts[i].toStopIndex)
  {
    var t := ts[i];
    var us := ts[i := t.(status := Cancelled, cancelledAt := Some(now))];
    assert Blocks(ts[i], r.id, t.seatNumber, t.fromStopIndex, t.toStopIndex);
    forall k | 0 <= k < |us| ensures !Blocks(us[k], r.id, t.seatNumber, t.fromStopIndex, t.toStopIndex) {
      if k != i {
        assert !Clash(ts[k], ts[i]);
        assert us[k] == ts[k];
      }
    }
  }

  // ---------------------------------------------------------------------------
  // PNR numbers

  const PnrAlphabet: string := "ABCDEFGHIJKLMNOPQRSTUVWXYZ0123456789"
  const PnrPrefix: string := "VV00"

  predicate IsPnrChar(c: char) {
    ('A' <= c <= 'Z') || ('0' <= c <= '9')
  }

  /** The PNR format: `VV00` followed by five characters from A-Z and 0-9. */
  predicate IsPnr(s: string) {
    |s| == 9 && s[..4] == PnrPrefix && forall k :: 4 <= k < 9 ==> IsPnrChar(s[k])
  }

  /** Five random draws, each an index into the alphabet. */
  predicate IsDraw(d: seq<int>) {
    |d| == 5 && forall k :: 0 <= k < 5 ==> 0 <= d[k] < |PnrAlphabet|
  }

  lemma PnrAlphabetChars()
    ensures |PnrAlphabet| == 36
    ensures forall k :: 0 <= k < |PnrAlphabet| ==> IsPnrChar(PnrAlphabet[k])
  {
  }

  /** The five characters one draw picks. */
  function RandomPart(d: seq<int>): (s: string)
    requires IsDraw(d)
    ensures |s| == 5 && forall k :: 0 <= k < 5 ==> IsPnrChar(s[k])
  {
    PnrAlphabetChars();
    seq(5, k requires 0 <= k < 5 => PnrAlphabet[d[k]])
  }

  /** The PNR candidate one draw produces. */
  function PnrOf(d: seq<int>): (pnr: string)
    requires IsDraw(d)
    ensures IsPnr(pnr)
  {
    var pnr := PnrPrefix + RandomPart(d);
    assert pnr[..4] == PnrPrefix;
    pnr
  }

  /** The random source yields well-formed draws and, eventually, an unused PNR. */
  predicate DrawsReachFreshPnr(draws: seq<seq<int>>, used: set<string>) {
    (forall k :: 0 <= k < |draws| ==> IsDraw(draws[k])) &&
    exists k :: 0 <= k < |draws| && PnrOf(draws[k]) !in used
  }

  /**
   * The guards of `create` run one after the other against the route and the tickets:
   * the first that fires decides the refusal; when none fires, the stop indices and price.
   */
  method CheckBooking(route: Option<Route>, ts: seq<Ticket>, req: CreateTicketRequest, role: Role, now: int)
    returns (d: Result<Quote, TicketError>)
    ensures d == Decide(route, ts, req, role, now)
  {
    if route.None? {
      return Failure(RouteNotFound);
    }
    var rt := route.value;
    if !rt.isActive {
      return Failure(RouteInactive);
    }
    if role == Customer && rt.departureTime < now {
      return Failure(RouteDeparted);
    }
    if req.seatNumber > rt.bus.seatCount {
      return Failure(InvalidSeatNumber(rt.bus.seatCount));
    }
    var fullStops := FoldedStops(rt);
    var fromIndex := IndexOf(fullStops, Lower(Trim(req.fromCity)));
    var toIndex := IndexOf(fullStops, Lower(Trim(req.toCity)));
    if fromIndex == -1 || toIndex == -1 {
      return Failure(InvalidCity);
    }
    if fromIndex >= toIndex {
      return Failure(InvertedRange);
    }
    assert Decide(route, ts, req, role, now) == DecideSegment(rt, ts, req, role, now, fromIndex, toIndex);
    var checkTime := rt.departureTime;
    if fromIndex > 0 && fromIndex - 1 < |rt.routeStations| {
      checkTime := rt.routeStations[fromIndex - 1].time;
    }
    if role == Customer && checkTime < now + CutoffMs {
      return Failure(SalesClosed);
    }
    var conflicting := FindConflict(ts, req.routeId, req.seatNumber, fromIndex, toIndex);
    if conflicting.Some? {
      return Failure(SeatTaken(req.seatNumber));
    }
    var price := rt.price;
    var segmentPrice := FindExactPrice(rt.prices, req.fromCity, req.toCity);
    if segmentPrice.Some? {
      if !segmentPrice.value.isSold {
        return Failure(SegmentNotSold);
      }
      price := segmentPrice.value.price;
    }
    d := Success(Quote(fromIndex, toIndex, price));
  }

  // ---------------------------------------------------------------------------
  // The service

  class TicketService {
    const db: Database
    const gateway: TicketGateway

    ghost predicate Valid()
      reads this, db, gateway
    {
      db.Valid() && gateway.Valid()
    }

    constructor(db0: Database, gateway0: TicketGateway)
      requires db0.Valid() && gateway0.Valid()
      ensures db == db0 && gateway == gateway0 && Valid()
    {
      db := db0;
      gateway := gateway0;
    }

    /**
     * `generatePNR`: draws five characters at a time until the candidate is not used by
     * any ticket. The result is the first unused candidate.
     */
    method GeneratePnr(draws: seq<seq<int>>) returns (pnr: string)
      requires DrawsReachFreshPnr(draws, Pnrs(db.tickets))
      ensures IsPnr(pnr) && pnr !in Pnrs(db.tickets)
      ensures exists k :: 0 <= k < |draws| && pnr == PnrOf(draws[k]) &&
                (forall j :: 0 <= j < k ==> PnrOf(draws[j]) in Pnrs(db.tickets))
    {
      var used := Pnrs(db.tickets);
      var taken := true;
      var attempt := 0;
      pnr := "";
      while taken
        invariant 0 <= attempt <= |draws|
        invariant forall j :: 0 <= j < attempt - 1 ==> PnrOf(draws[j]) in used
        invariant taken && 0 < attempt ==> PnrOf(draws[attempt - 1]) in used
        invariant taken ==> exists j :: attempt <= j < |draws| && PnrOf(draws[j]) !in used
        invariant !taken ==> 0 < attempt && pnr == PnrOf(draws[attempt - 1]) && pnr !in used
        decreases |draws| - attempt, taken
      {
        var d := draws[attempt];
        var randomPart := "";
        var i := 0;
        while i < 5
          invariant 0 <= i <= 5
          invariant randomPart == RandomPart(d)[..i]
        {
          randomPart := randomPart + [PnrAlphabet[d[i]]];
          i := i + 1;
        }
        assert randomPart == RandomPart(d);
        pnr := PnrPrefix + randomPart;
        assert pnr == PnrOf(d);
        taken := pnr in used;
        attempt := attempt + 1;
      }
    }

    /**
     * `create`: runs the booking guards; a refused booking changes nothing and announces
     * nothing, an accepted one appends the new ticket with a fresh PNR and announces it
     * to the route's subscribers. The store's invariant and no-double-booking are kept.
     */
    method Create(req: CreateTicketRequest, userId: string, role: Role, now: int, draws: seq<seq<int>>)
      returns (r: Result<Ticket, TicketError>)
      requires Valid()
      requires DrawsReachFreshPnr(draws, Pnrs(db.tickets))
      modifies db, gateway
      ensures Valid()
      ensures db.routes == old(db.routes) && db.buses == old(db.buses) && db.payments == old(db.payments)
      ensures gateway.connectedClients == old(gateway.connectedClients)
      ensures var d := Decide(Lookup(old(db.routes), req.routeId), old(db.tickets), req, role, now);
        match d
        case Failure(e) =>
          r == Failure(e) && db.tickets == old(db.tickets) && gateway.sent == old(gateway.sent)
        case Success(q) =>
          r.Success? && r.value == NewTicket(old(db.nextTicketId), r.value.pnrNumber, req, userId, role, q) &&
          IsPnr(r.value.pnrNumber) && r.value.pnrNumber !in Pnrs(old(db.tickets)) &&
          db.tickets == old(db.tickets) + [r.value] &&
          gateway.sent == old(gateway.sent) +
            [Delivery(RoomOf(req.routeId), CreatedEvent(r.value, role, now), old(gateway.Subscribers(req.routeId)))]
      ensures NoDoubleBooking(old(db.tickets)) ==> NoDoubleBooking(db.tickets)
    {
      var route := Lookup(db.routes, req.routeId);
      var d := CheckBooking(route, db.tickets, req, role, now);
      if d.Failure? {
        return Failure(d.error);
      }
      var fromIndex, toIndex, price := d.value.fromIndex, d.value.toIndex, d.value.price;

      var pnr := GeneratePnr(draws);
      var ticket := NewTicket(db.nextTicketId, pnr, req, userId, role, Quote(fromIndex, toIndex, price));
      assert req.routeId in db.routes by {
        DecideAccepts(route, db.tickets, req, role, now);
      }
      assert NoDoubleBooking(db.tickets) ==> NoDoubleBooking(db.tickets + [ticket]) by {
        if NoDoubleBooking(db.tickets) {
          BookingKeepsNoDoubleBooking(route, db.tickets, req, role, now, db.nextTicketId, pnr, userId);
        }
      }
      Record(ticket, role, now);
      r := Success(ticket);
    }

    /** The accepted branch of `create`: insert the ticket and announce it. */
    method Record(ticket: Ticket, role: Role, now: int)
      requires Valid()
      requires ticket.id == db.nextTicketId && ticket.routeId in db.routes && ticket.pnrNumber !in Pnrs(db.tickets)
      modifies db, gateway
      ensures Valid()
      ensures db.routes == old(db.routes) && db.buses == old(db.buses) && db.payments == old(db.payments)
      ensures gateway.connectedClients == old(gateway.connectedClients)
      ensures db.tickets == old(db.tickets) + [ticket]
      ensures gateway.sent == old(gateway.sent) +
        [Delivery(RoomOf(ticket.routeId), CreatedEvent(ticket, role, now), old(gateway.Subscribers(ticket.routeId)))]
    {
      db.AddTicket(ticket);
      var event := CreatedEvent(ticket, role, now);
      if IsAgentSale(role) {
        gateway.EmitSeatConfirmed(event);
      } else {
        gateway.EmitSeatReserved(event);
      }
    }

    /** `update`: only the owner or an ADMIN may change seat, passenger name, phone and gender. */
    method Update(id: nat, patch: TicketPatch, userId: string, role: Role) returns (r: Result<Ticket, TicketError>)
      requires Valid()
      modifies db
      ensures Valid()
      ensures db.routes == old(db.routes) && db.buses == old(db.buses) && db.payments == old(db.payments)
      ensures var i := FindTicket(old(db.tickets), id);
        if i == -1 then r == Failure(TicketNotFound) && db.tickets == old(db.tickets)
        else if old(db.tickets)[i].userId != Some(userId) && role != Admin then
          r == Failure(Forbidden) && db.tickets == old(db.tickets)
        else
          r == Success(Patched(old(db.tickets)[i], patch)) && db.tickets == old(db.tickets)[i := r.value]
    {
      var i := FindTicket(db.tickets, id);
      if i == -1 {
        return Failure(TicketNotFound);
      }
      var ticket := db.tickets[i];
      if ticket.userId != Some(userId) && role != Admin {
        return Failure(Forbidden);
      }
      var updated := Patched(ticket, patch);
      db.PutTicket(i, updated);
      r := Success(updated);
    }

    /** `confirm`: CONFIRMED and PAID, whatever the ticket's status was. */
    method Confirm(id: nat) returns (r: Result<Ticket, TicketError>)
      requires Valid()
      modifies db
      ensures Valid()
      ensures db.routes == old(db.routes) && db.buses == old(db.buses) && db.payments == old(db.payments)
      ensures var i := FindTicket(old(db.tickets), id);
        if i == -1 then r == Failure(TicketNotFound) && db.tickets == old(db.tickets)
        else r == Success(ConfirmedTicket(old(db.tickets)[i])) && db.tickets == old(db.tickets)[i := r.value]
    {
      var i := FindTicket(db.tickets, id);
      if i == -1 {
        return Failure(TicketNotFound);
      }
      var updated := ConfirmedTicket(db.tickets[i]);
      db.PutTicket(i, updated);
      r := Success(updated);
    }

    /** `suspend`: SUSPENDED with the suspension time, whatever the ticket's status was. */
    method Suspend(id: nat, now: int) returns (r: Result<Ticket, TicketError>)
      requires Valid()
      modifies db
      ensures Valid()
      ensures db.routes == old(db.routes) && db.buses == old(db.buses) && db.payments == old(db.payments)
      ensures var i := FindTicket(old(db.tickets), id);
        if i == -1 then r == Failure(TicketNotFound) && db.tickets == old(db.tickets)
        else
          r == Success(old(db.tickets)[i].(status := Suspended, suspendedAt := Some(now))) &&
          db.tickets == old(db.tickets)[i := r.value]
      ensures NoDoubleBooking(old(db.tickets)) ==> NoDoubleBooking(db.tickets)
    {
      var i := FindTicket(db.tickets, id);
      if i == -1 {
        return Failure(TicketNotFound);
      }
      var updated := db.tickets[i].(status := Suspended, suspendedAt := Some(now));
      if NoDoubleBooking(db.tickets) {
        NoDoubleBookingDeactivate(db.tickets, i, updated);
      }
      db.PutTicket(i, updated);
      r := Success(updated);
    }

    /** `cancel`: CANCELLED with the cancellation time, whatever the ticket's status was. */
    method Cancel(id: nat, now: int) returns (r: Result<Ticket, TicketError>)
      requires Valid()
      modifies db
      ensures Valid()
      ensures db.routes == old(db.routes) && db.buses == old(db.buses) && db.payments == old(db.payments)
      ensures var i := FindTicket(old(db.tickets), id);
        if i == -1 then r == Failure(TicketNotFound) && db.tickets == old(db.tickets)
        else
          r == Success(old(db.tickets)[i].(status := Cancelled, cancelledAt := Some(now))) &&
          db.tickets == old(db.tickets)[i := r.value]
      ensures NoDoubleBooking(old(db.tickets)) ==> NoDoubleBooking(db.tickets)
    {
      var i := FindTicket(db.tickets, id);
      if i == -1 {
        return Failure(TicketNotFound);
      }
      var updated := db.tickets[i].(status := Cancelled, cancelledAt := Some(now));
      if NoDoubleBooking(db.tickets) {
        NoDoubleBookingDeactivate(db.tickets, i, updated);
      }
      db.PutTicket(i, updated);
      r := Success(updated);
    }

    /**
     * `confirm` restricted to RESERVED tickets: a ticket in any other status is refused
     * and left as it is, so a cancelled or suspended ticket is never reactivated.
     */
    method ConfirmReserved(id: nat) returns (r: Result<Ticket, TicketError>)
      requires Valid()
      modifies db
      ensures Valid()
      ensures db.routes == old(db.routes) && db.buses == old(db.buses) && db.payments == old(db.payments)
      ensures var i := FindTicket(old(db.tickets), id);
        if i == -1 then r == Failure(TicketNotFound) && db.tickets == old(db.tickets)
        else if old(db.tickets)[i].status != Reserved then r == Failure(NotReserved) && db.tickets == old(db.tickets)
        else r == Success(ConfirmedTicket(old(db.tickets)[i])) && db.tickets == old(db.tickets)[i := r.value]
      ensures NoDoubleBooking(old(db.tickets)) ==> NoDoubleBooking(db.tickets)
    {
      var i := FindTicket(db.tickets, id);
      if i == -1 {
        return Failure(TicketNotFound);
      }
      if db.tickets[i].status != Reserved {
        return Failure(NotReserved);
      }
      var updated := ConfirmedTicket(db.tickets[i]);
      if NoDoubleBooking(db.tickets) {
        NoDoubleBookingSameSlot(db.tickets, i, updated);
      }
      db.PutTicket(i, updated);
      r := Success(updated);
    }

    /**
     * `update` with the seat change checked: moving a ticket to a seat that another
     * active ticket holds over an overlapping range is refused.
     */
    method UpdateChecked(id: nat, patch: TicketPatch, userId: string, role: Role) returns (r: Result<Ticket, TicketError>)
      requires Valid()
      modifies db
      ensures Valid()
      ensures db.routes == old(db.routes) && db.buses == old(db.buses) && db.payments == old(db.payments)
      ensures var i := FindTicket(old(db.tickets), id);
        if i == -1 then r == Failure(TicketNotFound) && db.tickets == old(db.tickets)
        else if old(db.tickets)[i].userId != Some(userId) && role != Admin then
          r == Failure(Forbidden) && db.tickets == old(db.tickets)
        else if SeatChangeClashes(old(db.tickets), i, patch) then
          r == Failure(SeatTaken(patch.seatNumber.value)) && db.tickets == old(db.tickets)
        else
          r == Success(Patched(old(db.tickets)[i], patch)) && db.tickets == old(db.tickets)[i := r.value]
      ensures NoDoubleBooking(old(db.tickets)) ==> NoDoubleBooking(db.tickets)
    {
      var i := FindTicket(db.tickets, id);
      if i == -1 {
        return Failure(TicketNotFound);
      }
      var ticket := db.tickets[i];
      if ticket.userId != Some(userId) && role != Admin {
        return Failure(Forbidden);
      }
      if SeatChangeClashes(db.tickets, i, patch) {
        return Failure(SeatTaken(patch.seatNumber.value));
      }
      var updated := Patched(ticket, patch);
      if NoDoubleBooking(db.tickets) {
        CheckedPatchKeepsNoDoubleBooking(db.tickets, i, patch);
      }
      db.PutTicket(i, updated);
      r := Success(updated);
    }
  }

  // ---------------------------------------------------------------------------
  // Ticket updates

  /** The fields `update` may change; an absent field is left as it is. */
  datatype TicketPatch = TicketPatch(
    seatNumber: Option<int>,
    passengerName: Option<string>,
    userPhoneNumber: Option<string>,
    gender: Option<Gender>)

  function Patched(t: Ticket, p: TicketPatch): (u: Ticket)
    ensures u.seatNumber == (if p.seatNumber.Some? then p.seatNumber.value else t.seatNumber)
    ensures u.passengerName == (if p.passengerName.Some? then p.passengerName.value else t.passengerName)
    ensures u.userPhoneNumber == (if p.userPhoneNumber.Some? then p.userPhoneNumber.value else t.userPhoneNumber)
    ensures u.gender == (if p.gender.Some? then p.gender.value else t.gender)
    ensures u.(seatNumber := t.seatNumber, passengerName := t.passengerName,
      userPhoneNumber := t.userPhoneNumber, gender := t.gender) == t
  {
    t.(seatNumber := if p.seatNumber.Some? then p.seatNumber.value else t.seatNumber,
       passengerName := if p.passengerName.Some? then p.passengerName.value else t.passengerName,
       userPhoneNumber := if p.userPhoneNumber.Some? then p.userPhoneNumber.value else t.userPhoneNumber,
       gender := if p.gender.Some? then p.gender.value else t.gender)
  }

  /** The ticket `confirm` writes. */
  function ConfirmedTicket(t: Ticket): (u: Ticket)
    ensures u.status == Confirmed && u.paymentStatus == Paid && Active(u)
    ensures u.(status := t.status, paymentStatus := t.paymentStatus) == t
  {
    t.(status := Confirmed, paymentStatus := Paid)
  }

  /** Another active ticket holds the seat the patch moves ticket `i` to, over an overlapping range. */
  predicate SeatChangeClashes(ts: seq<Ticket>, i: int, p: TicketPatch)
    requires 0 <= i < |ts|
  {
    p.seatNumber.Some? && Active(ts[i]) &&
    exists k :: 0 <= k < |ts| && k != i &&
      Blocks(ts[k], ts[i].routeId, p.seatNumber.value, ts[i].fromStopIndex, ts[i].toStopIndex)
  }

  /** A patch that passes the seat-change check keeps the no-double-booking invariant. */
  lemma {:induction false} CheckedPatchKeepsNoDoubleBooking(ts: seq<Ticket>, i: int, p: TicketPatch)
    requires NoDoubleBooking(ts) && 0 <= i < |ts|
    requires !SeatChangeClashes(ts, i, p)
    ensures NoDoubleBooking(ts[i := Patched(ts[i], p)])
  {
    var t := Patched(ts[i], p);
    var us := ts[i := t];
    forall a, b | 0 <= a < |us| && 0 <= b < |us| && a != b ensures !Clash(us[a], us[b]) {
      if a == i || b == i {
        var k := if a == i then b else a;
        assert t.status == ts[i].status && t.routeId == ts[i].routeId;
        assert t.fromStopIndex == ts[i].fromStopIndex && t.toStopIndex == ts[i].toStopIndex;
        if p.seatNumber.None? {
          assert !Clash(ts[k], ts[i]);
        }
        assert !Clash(us[k], t);
        ClashSymmetric(us[k], t);
      } else {
        assert !Clash(ts[a], ts[b]);
      }
    }
  }

  // ---------------------------------------------------------------------------
  // Two ways the unguarded writes break the invariant.

  const ResoldSeat: seq<Ticket> := [
    ExampleTicket(Cancelled),
    ExampleTicket(Reserved).(id := 1, pnrNumber := "VV00AAAAB")]

  /**
   * `confirm` as written reactivates a cancelled ticket whose seat was sold again over
   * the same range: the store has no double booking before and has one afterwards.
   */
  lemma ConfirmReactivatesResoldSeat()
    ensures NoDoubleBooking(ResoldSeat)
    ensures !NoDoubleBooking(ResoldSeat[0 := ConfirmedTicket(ResoldSeat[0])])
  {
    var us := ResoldSeat[0 := ConfirmedTicket(ResoldSeat[0])];
    assert Clash(us[0], us[1]);
  }

  /** Confirming only RESERVED tickets keeps the invariant. */
  lemma {:induction false} ConfirmReservedKeepsNoDoubleBooking(ts: seq<Ticket>, i: int)
    requires NoDoubleBooking(ts) && 0 <= i < |ts| && ts[i].status == Reserved
    ensures NoDoubleBooking(ts[i := ConfirmedTicket(ts[i])])
  {
    NoDoubleBookingSameSlot(ts, i, ConfirmedTicket(ts[i]));
  }

  const NeighbourSeats: seq<Ticket> := [
    ExampleTicket(Confirmed),
    ExampleTicket(Confirmed).(id := 1, pnrNumber := "VV00AAAAB", seatNumber := 6)]

  /**
   * `update` as written moves a ticket onto a seat another active ticket holds over the
   * same range: seat 6 is moved to seat 5, which is taken from A to C.
   */
  lemma UpdateMovesOntoTakenSeat()
    ensures NoDoubleBooking(NeighbourSeats)
    ensures var p := TicketPatch(Some(5), None, None, None);
      !NoDoubleBooking(NeighbourSeats[1 := Patched(NeighbourSeats[1], p)])
    ensures SeatChangeClashes(NeighbourSeats, 1, TicketPatch(Some(5), None, None, None))
  {
    var p := TicketPatch(Some(5), None, None, None);
    var us := NeighbourSeats[1 := Patched(NeighbourSeats[1], p)];
    assert Clash(us[0], us[1]);
    assert Blocks(NeighbourSeats[0], "r1", 5, 0, 2);
  }
}
