/**
 * The records the back end stores and the segmented-inventory vocabulary built on them.
 *
 * A route's stops are `[fromCity, station_1, ..., station_n, toCity]`; a ticket holds the
 * half-open stop-index range `[fromStopIndex, toStopIndex)` on one seat. Times are
 * integer milliseconds.
 */
module Domain {
  import opened Wrappers
  import opened Text

  datatype Role = Customer | Agent | Admin
  datatype Gender = Male | Female
  datatype TicketStatus = Reserved | Confirmed | Suspended | Cancelled
  datatype PaymentStatus = Pending | Paid | Refunded

  datatype Bus = Bus(id: string, seatCount: int, testLat: Option<real>, testLng: Option<real>)

  /** One intermediate stop of a route, with its scheduled time and its position. */
  datatype RouteStation = RouteStation(station: string, time: int, order: int)

  /** A per-segment price override; `isSold == false` closes that segment to sale. */
  datatype RoutePrice = RoutePrice(fromCity: string, toCity: string, price: int, isSold: bool)

  /** A route row together with the bus, stations and prices the services include with it. */
  datatype Route = Route(
    id: string,
    fromCity: string,
    toCity: string,
    routeStations: seq<RouteStation>,
    departureTime: int,
    arrivalTime: int,
    price: int,
    isActive: bool,
    bus: Bus,
    prices: seq<RoutePrice>)

  datatype Ticket = Ticket(
    id: nat,
    pnrNumber: string,
    routeId: string,
    userId: Option<string>,
    issuedById: string,
    fromCity: string,
    toCity: string,
    fromStopIndex: int,
    toStopIndex: int,
    seatNumber: int,
    gender: Gender,
    price: int,
    tcKimlikNo: Option<string>,
    userPhoneNumber: string,
    passengerName: string,
    status: TicketStatus,
    paymentStatus: PaymentStatus,
    suspendedAt: Option<int>,
    cancelledAt: Option<int>)

  const MinuteMs: int := 60 * 1000
  const HourMs: int := 60 * MinuteMs
  const DayMs: int := 24 * HourMs

  /** Sales and listings close this long before the passenger's boarding time. */
  const CutoffMs: int := 15 * MinuteMs

  /** A query parameter JavaScript treats as true: present and not the empty string. */
  predicate Truthy(o: Option<string>) {
    o.Some? && o.value != ""
  }

  // ---------------------------------------------------------------------------
  // Stops

  /** The stop names of a route, origin first and destination last. */
  function StopNames(r: Route): (s: seq<string>)
    ensures |s| == |r.routeStations| + 2
    ensures s[0] == r.fromCity && s[|s| - 1] == r.toCity
    ensures forall k :: 0 <= k < |r.routeStations| ==> s[k + 1] == r.routeStations[k].station
  {
    [r.fromCity] + seq(|r.routeStations|, k requires 0 <= k < |r.routeStations| => r.routeStations[k].station) + [r.toCity]
  }

  /** Each name trimmed and folded with `toLowerCase()`. */
  function FoldAll(names: seq<string>): (s: seq<string>)
    ensures |s| == |names|
  {
    if names == [] then [] else [Lower(Trim(names[0]))] + FoldAll(names[1..])
  }

  lemma {:induction false} FoldAllAt(names: seq<string>, k: int)
    requires 0 <= k < |names|
    ensures FoldAll(names)[k] == Lower(Trim(names[k]))
  {
    if k > 0 {
      FoldAllAt(names[1..], k - 1);
    }
  }

  /** Each name trimmed and folded with `toLocaleLowerCase('tr-TR')`. */
  function FoldAllTr(names: seq<string>): (s: seq<string>)
    ensures |s| == |names|
  {
    if names == [] then [] else [LowerTr(Trim(names[0]))] + FoldAllTr(names[1..])
  }

  lemma {:induction false} FoldAllTrAt(names: seq<string>, k: int)
    requires 0 <= k < |names|
    ensures FoldAllTr(names)[k] == LowerTr(Trim(names[k]))
  {
    if k > 0 {
      FoldAllTrAt(names[1..], k - 1);
    }
  }

  /** The stop names trimmed and folded with `toLowerCase()` (the booking path). */
  function FoldedStops(r: Route): (s: seq<string>)
    ensures |s| == |r.routeStations| + 2
  {
    FoldAll(StopNames(r))
  }

  /** The stop names trimmed and folded with `toLocaleLowerCase('tr-TR')` (availability and search). */
  function FoldedStopsTr(r: Route): (s: seq<string>)
    ensures |s| == |r.routeStations| + 2
  {
    FoldAllTr(StopNames(r))
  }

  // ---------------------------------------------------------------------------
  // Segments and seats

  /** A ticket holds its seat while it is RESERVED or CONFIRMED. */
  predicate Active(t: Ticket) {
    t.status == Reserved || t.status == Confirmed
  }

  /** The half-open ranges `[aFrom, aTo)` and `[bFrom, bTo)` overlap. */
  predicate Overlaps(aFrom: int, aTo: int, bFrom: int, bTo: int) {
    aFrom < bTo && aTo > bFrom
  }

  /** Ticket `t` holds `seat` of route `routeId` somewhere inside `[from, to)`. */
  predicate Blocks(t: Ticket, routeId: string, seat: int, from: int, to: int) {
    t.routeId == routeId && t.seatNumber == seat && Active(t) && Overlaps(t.fromStopIndex, t.toStopIndex, from, to)
  }

  /** Two tickets that sell the same seat over a common segment. */
  predicate Clash(a: Ticket, b: Ticket) {
    Blocks(a, b.routeId, b.seatNumber, b.fromStopIndex, b.toStopIndex) && Active(b)
  }

  /** The central invariant: no two active tickets share a seat over an overlapping range. */
  predicate NoDoubleBooking(ts: seq<Ticket>) {
    forall i, j :: 0 <= i < |ts| && 0 <= j < |ts| && i != j ==> !Clash(ts[i], ts[j])
  }

  /** Leg `k` (from stop `k` to stop `k + 1`) lies inside the range `[from, to)`. */
  predicate CoversLeg(from: int, to: int, k: int) {
    from <= k < to
  }

  /**
   * The overlap test is exactly "the two ranges share a stop-to-stop leg": a leg `k`
   * (from stop `k` to stop `k + 1`) lies in both. Adjacent ranges share no leg.
   */
  lemma {:induction false} OverlapsIffCommonLeg(aFrom: int, aTo: int, bFrom: int, bTo: int)
    requires aFrom < aTo && bFrom < bTo
    ensures Overlaps(aFrom, aTo, bFrom, bTo) <==> exists k :: CoversLeg(aFrom, aTo, k) && CoversLeg(bFrom, bTo, k)
  {
    if Overlaps(aFrom, aTo, bFrom, bTo) {
      var k := if aFrom < bFrom then bFrom else aFrom;
      assert CoversLeg(aFrom, aTo, k) && CoversLeg(bFrom, bTo, k);
    }
  }

  /** Clash is symmetric, so the invariant does not depend on the order of the ticket list. */
  lemma ClashSymmetric(a: Ticket, b: Ticket)
    ensures Clash(a, b) <==> Clash(b, a)
  {
  }

  /** Adding one ticket keeps the invariant exactly when it clashes with no existing ticket. */
  lemma {:induction false} NoDoubleBookingAppend(ts: seq<Ticket>, t: Ticket)
    requires NoDoubleBooking(ts)
    ensures NoDoubleBooking(ts + [t]) <==> forall i :: 0 <= i < |ts| ==> !Clash(ts[i], t)
  {
    var us := ts + [t];
    if forall i :: 0 <= i < |ts| ==> !Clash(ts[i], t) {
      forall i, j | 0 <= i < |us| && 0 <= j < |us| && i != j ensures !Clash(us[i], us[j]) {
        if j == |ts| {
          assert us[i] == ts[i];
        } else if i == |ts| {
          ClashSymmetric(us[i], us[j]);
          assert us[j] == ts[j];
        } else {
          assert us[i] == ts[i] && us[j] == ts[j];
        }
      }
    }
    if NoDoubleBooking(us) {
      forall i | 0 <= i < |ts| ensures !Clash(ts[i], t) {
        assert us[i] == ts[i] && us[|ts|] == t;
      }
    }
  }

  /** Replacing one ticket by an inactive one keeps the invariant. */
  lemma {:induction false} NoDoubleBookingDeactivate(ts: seq<Ticket>, i: int, t: Ticket)
    requires NoDoubleBooking(ts) && 0 <= i < |ts| && !Active(t)
    ensures NoDoubleBooking(ts[i := t])
  {
    var us := ts[i := t];
    forall a, b | 0 <= a < |us| && 0 <= b < |us| && a != b ensures !Clash(us[a], us[b]) {
      if a != i && b != i {
        assert us[a] == ts[a] && us[b] == ts[b];
      }
    }
  }

  /** Replacing one ticket by a copy with the same route, seat, range and activity keeps the invariant. */
  lemma {:induction false} NoDoubleBookingSameSlot(ts: seq<Ticket>, i: int, t: Ticket)
    requires NoDoubleBooking(ts) && 0 <= i < |ts|
    requires t.routeId == ts[i].routeId && t.seatNumber == ts[i].seatNumber
    requires t.fromStopIndex == ts[i].fromStopIndex && t.toStopIndex == ts[i].toStopIndex
    requires Active(t) == Active(ts[i])
    ensures NoDoubleBooking(ts[i := t])
  {
    var us := ts[i := t];
    forall a, b | 0 <= a < |us| && 0 <= b < |us| && a != b ensures !Clash(us[a], us[b]) {
      assert !Clash(ts[a], ts[b]);
    }
  }

  // ---------------------------------------------------------------------------
  // Lookups by key

  /** The position of the ticket with id `id`, or -1. */
  function FindTicket(ts: seq<Ticket>, id: nat): (r: int)
    ensures -1 <= r < |ts|
    ensures r >= 0 ==> ts[r].id == id && forall k :: 0 <= k < r ==> ts[k].id != id
    ensures r == -1 <==> forall k :: 0 <= k < |ts| ==> ts[k].id != id
  {
    if ts == [] then -1
    else if ts[0].id == id then 0
    else
      var k := FindTicket(ts[1..], id);
      if k == -1 then -1 else k + 1
  }

  /** The set of PNR numbers already issued. */
  function Pnrs(ts: seq<Ticket>): (r: set<string>)
    ensures forall k :: 0 <= k < |ts| ==> ts[k].pnrNumber in r
    ensures forall p :: p in r ==> exists k :: 0 <= k < |ts| && ts[k].pnrNumber == p
  {
    set k | 0 <= k < |ts| :: ts[k].pnrNumber
  }
}
