/**
 * A search result's card: the seats it shows as sold, the visitor's seat cart (at
 * most five seats), the hand-over to checkout, the full stop list and which of its
 * stops are highlighted.
 */
module RouteCard {
  import opened Wrappers
  import opened Domain
  import opened SeatMap
  import opened Checkout

  const MaxSeats: nat := 5

  /** The gender a sold seat is drawn with, which the seat list does not carry: even seats female. */
  function ParityGender(n: int): Gender {
    if n % 2 == 0 then Female else Male
  }

  /** `searchFrom || route.fromCity`. */
  function DisplayCity(search: Option<string>, own: string): (c: string)
    ensures Truthy(search) ==> c == search.value
    ensures !Truthy(search) ==> c == own
  {
    if Truthy(search) then search.value else own
  }

  /** Seats `1..k` missing from the availability list, ascending, each with its parity gender. */
  function SoldUpTo(k: int, available: seq<int>): (occ: seq<SeatPick>)
    ensures forall i :: 0 <= i < |occ| ==>
      1 <= occ[i].number <= k && occ[i].number !in available && occ[i].gender == ParityGender(occ[i].number)
    decreases k
  {
    if k <= 0 then []
    else
      var rest := SoldUpTo(k - 1, available);
      if k in available then rest else rest + [SeatPick(k, ParityGender(k))]
  }

  /** Every seat of `1..k` missing from the list is among the sold seats. */
  lemma {:induction false} SoldUpToComplete(k: int, available: seq<int>, n: int)
    requires 1 <= n <= k && n !in available
    ensures Picked(SoldUpTo(k, available), n)
    decreases k
  {
    var rest := SoldUpTo(k - 1, available);
    var occ := SoldUpTo(k, available);
    if n == k {
      assert occ[|rest|].number == k;
    } else {
      SoldUpToComplete(k - 1, available, n);
      var m :| 0 <= m < |rest| && rest[m].number == n;
      assert occ[m] == rest[m];
    }
  }

  /**
   * `occupiedSeats`: the seats of `1..seatCount` missing from the availability list;
   * nothing while that list has not arrived.
   */
  function OccupiedSeats(seatCount: int, available: Option<seq<int>>): (occ: seq<SeatPick>)
    ensures available.None? ==> occ == []
    ensures forall i :: 0 <= i < |occ| ==>
      1 <= occ[i].number <= seatCount && occ[i].number !in available.value && occ[i].gender == ParityGender(occ[i].number)
    ensures available.Some? ==> forall n :: 1 <= n <= seatCount && n !in available.value ==> Picked(occ, n)
  {
    if available.None? then []
    else
      var occ := SoldUpTo(seatCount, available.value);
      assert forall n :: 1 <= n <= seatCount && n !in available.value ==> Picked(occ, n) by {
        forall n | 1 <= n <= seatCount && n !in available.value ensures Picked(occ, n) {
          SoldUpToComplete(seatCount, available.value, n);
        }
      }
      occ
  }

  /** On the map, a seat of the bus is drawn available exactly when the availability list names it (nothing selected). */
  lemma {:induction false} AvailableIffListed(seatCount: int, available: seq<int>, n: int)
    requires 1 <= n <= seatCount
    ensures StatusOf(n, OccupiedSeats(seatCount, Some(available)), []) == Available <==> n in available
    ensures n !in available ==>
      StatusOf(n, OccupiedSeats(seatCount, Some(available)), []) == (if n % 2 == 0 then SoldFemale else SoldMale)
  {
    var occ := OccupiedSeats(seatCount, Some(available));
    assert !Picked([], n);
    if n !in available {
      var k := FindPick(occ, n);
      assert Picked(occ, n);
      assert occ[k].gender == ParityGender(n);
    } else {
      assert !Picked(occ, n);
    }
  }

  // ---------------------------------------------------------------------------
  // The seat cart

  /** `handleSeatSelect`: append the seat unless five are already chosen. */
  function AfterSelect(sel: seq<SeatPick>, seat: SeatPick): (r: seq<SeatPick>)
    ensures |sel| <= MaxSeats ==> |r| <= MaxSeats
    ensures |sel| >= MaxSeats ==> r == sel
    ensures |sel| < MaxSeats ==> |r| == |sel| + 1 && r[..|sel|] == sel && r[|sel|] == seat
  {
    if |sel| >= MaxSeats then sel else sel + [seat]
  }

  /** `handleSeatDeselect`: drop every pick of seat `n`, keeping the rest in order. */
  function Without(sel: seq<SeatPick>, n: int): (r: seq<SeatPick>)
    ensures |r| <= |sel|
    ensures !Picked(r, n)
    ensures forall p :: p in r <==> p in sel && p.number != n
  {
    if sel == [] then []
    else
      var rest := Without(sel[1..], n);
      if sel[0].number == n then rest else [sel[0]] + rest
  }

  lemma {:induction false} WithoutConcat(a: seq<SeatPick>, b: seq<SeatPick>, n: int)
    ensures Without(a + b, n) == Without(a, n) + Without(b, n)
  {
    if a != [] {
      assert (a + b)[0] == a[0] && (a + b)[1..] == a[1..] + b;
      WithoutConcat(a[1..], b, n);
    } else {
      assert a + b == b;
    }
  }

  /** Deselecting a seat that is not in the cart leaves the cart as it was. */
  lemma {:induction false} WithoutAbsent(sel: seq<SeatPick>, n: int)
    requires !Picked(sel, n)
    ensures Without(sel, n) == sel
  {
    if sel != [] {
      assert !Picked(sel[1..], n) by {
        forall m | 0 <= m < |sel| - 1 ensures sel[1..][m].number != n {
          assert sel[1..][m] == sel[m + 1];
        }
      }
      WithoutAbsent(sel[1..], n);
    }
  }

  /**
   * Picking a free seat and then clicking it again is a round trip: the seat shows as
   * selected in between, and the cart returns to what it was.
   */
  lemma {:induction false} SelectThenDeselect(sel: seq<SeatPick>, seat: SeatPick, occupied: seq<SeatPick>)
    requires |sel| < MaxSeats && !Picked(sel, seat.number)
    ensures StatusOf(seat.number, occupied, AfterSelect(sel, seat)) == Selected
    ensures HandleClick(StatusOf(seat.number, occupied, AfterSelect(sel, seat))) == DeselectSeat
    ensures Without(AfterSelect(sel, seat), seat.number) == sel
  {
    var after := AfterSelect(sel, seat);
    assert after[|sel|] == seat;
    WithoutConcat(sel, [seat], seat.number);
    WithoutAbsent(sel, seat.number);
    assert Without([seat], seat.number) == [] by {
      assert [seat][1..] == [];
    }
  }

  /** `selectedSeats.length * route.price`. */
  function CartTotal(sel: seq<SeatPick>, price: int): (total: int)
    ensures 0 <= price && |sel| <= MaxSeats ==> 0 <= total <= MaxSeats * price
  {
    assert 0 <= price && |sel| <= MaxSeats ==> |sel| * price <= MaxSeats * price by {
      if 0 <= price && |sel| <= MaxSeats {
        assert (MaxSeats - |sel|) * price >= 0;
      }
    }
    |sel| * price
  }

  /** The card's state: the cart and what it has written to the browser's storage. */
  class SeatCart {
    var selected: seq<SeatPick>
    var storage: Storage

    /** The cart never holds more than five seats. */
    predicate Valid()
      reads this
    {
      |selected| <= MaxSeats
    }

    constructor(st: Storage)
      ensures selected == [] && storage == st && Valid()
    {
      selected := [];
      storage := st;
    }

    /** Returns whether the five-seat alert was shown instead. */
    method Select(seat: SeatPick) returns (alerted: bool)
      requires Valid()
      modifies this`selected
      ensures Valid()
      ensures alerted <==> |old(selected)| >= MaxSeats
      ensures selected == AfterSelect(old(selected), seat)
    {
      alerted := |selected| >= MaxSeats;
      if !alerted {
        selected := selected + [seat];
      }
    }

    method Deselect(n: int)
      requires Valid()
      modifies this`selected
      ensures Valid()
      ensures selected == Without(old(selected), n)
    {
      selected := Without(selected, n);
    }

    /** `handleContinue`: with seats chosen, store them and the route for checkout and go there. */
    method Continue(routeId: string, price: int, displayFrom: string, displayTo: string) returns (navigated: bool)
      modifies this`storage
      ensures navigated <==> selected != []
      ensures navigated ==> storage == Storage(Some(selected), Some(routeId), Some(price), Some(displayFrom), Some(displayTo))
      ensures !navigated ==> storage == old(storage)
    {
      if |selected| == 0 {
        return false;
      }
      storage := Storage(Some(selected), Some(routeId), Some(price), Some(displayFrom), Some(displayTo));
      navigated := true;
    }
  }

  /**
   * The hand-over is faithful: checkout loaded from what `Continue` stored (for a
   * non-empty route id) has one blank form per chosen seat, shows the form, and its
   * total is the card's total.
   */
  lemma ContinueThenCheckout(sel: seq<SeatPick>, routeId: string, price: int, from: string, to: string)
    requires sel != [] && routeId != ""
    ensures var st := Storage(Some(sel), Some(routeId), Some(price), Some(from), Some(to));
      HasCheckoutData(st) &&
      InitialPassengers(st.selectedSeats.value) == InitialPassengers(sel) &&
      |InitialPassengers(sel)| == |sel| &&
      CheckoutTotal(sel, price) == CartTotal(sel, price) &&
      (from != "" ==> OrEmpty(st.fromCity) == from)
  {
  }

  // ---------------------------------------------------------------------------
  // The route view

  datatype Stop = Stop(station: string, time: Option<int>)

  /** `route.mainDepartureTime || route.departureTime`. */
  function StartTime(mainDeparture: Option<int>, departure: int): (t: int)
    ensures mainDeparture.Some? ==> t == mainDeparture.value
    ensures mainDeparture.None? ==> t == departure
  {
    if mainDeparture.Some? then mainDeparture.value else departure
  }

  /**
   * `fullStopList`: origin, the timed stations (or else the bare station names, or
   * nothing), destination.
   */
  function FullStopList(fromCity: string, startTime: int, routeStations: Option<seq<RouteStation>>,
                        stations: Option<seq<string>>, toCity: string, arrivalTime: int): (stops: seq<Stop>)
    ensures |stops| == 2 + (if routeStations.Some? then |routeStations.value| else if stations.Some? then |stations.value| else 0)
    ensures stops[0] == Stop(fromCity, Some(startTime)) && stops[|stops| - 1] == Stop(toCity, Some(arrivalTime))
    ensures routeStations.Some? ==> forall k :: 0 <= k < |routeStations.value| ==>
      stops[k + 1] == Stop(routeStations.value[k].station, Some(routeStations.value[k].time))
    ensures routeStations.None? && stations.Some? ==> forall k :: 0 <= k < |stations.value| ==>
      stops[k + 1] == Stop(stations.value[k], None)
  {
    var middle :=
      if routeStations.Some? then
        seq(|routeStations.value|, k requires 0 <= k < |routeStations.value| => Stop(routeStations.value[k].station, Some(routeStations.value[k].time)))
      else if stations.Some? then
        seq(|stations.value|, k requires 0 <= k < |stations.value| => Stop(stations.value[k], None))
      else [];
    [Stop(fromCity, Some(startTime))] + middle + [Stop(toCity, Some(arrivalTime))]
  }

  /** `findIndex(s => s.station === name)`: exact, case-sensitive. */
  function FindStop(stops: seq<Stop>, name: string): (k: int)
    ensures -1 <= k < |stops|
    ensures k >= 0 ==> stops[k].station == name
    ensures forall m :: 0 <= m < |stops| && (k == -1 || m < k) ==> stops[m].station != name
  {
    if stops == [] then -1
    else if stops[0].station == name then 0
    else
      var k := FindStop(stops[1..], name);
      if k == -1 then -1 else k + 1
  }

  datatype StopMark = StopMark(isStart: bool, isEnd: bool, isActive: bool, isPath: bool)

  /** How each stop of the route view is drawn for the passenger's leg. */
  function Marks(stops: seq<Stop>, displayFrom: string, displayTo: string): (ms: seq<StopMark>)
    ensures |ms| == |stops|
    ensures forall i :: 0 <= i < |ms| ==>
      (ms[i].isStart ==> stops[i].station == displayFrom) && (ms[i].isEnd ==> stops[i].station == displayTo) &&
      (ms[i].isPath ==> ms[i].isActive) && (ms[i].isActive && !ms[i].isPath ==> ms[i].isEnd)
  {
    var s := FindStop(stops, displayFrom);
    var e := FindStop(stops, displayTo);
    seq(|stops|, i => StopMark(i == s, i == e, s <= i <= e, s <= i < e))
  }

  /**
   * With both cities on the list, the marks follow the leg by name: a stop is the start
   * (the end) exactly when it is the first stop named after the boarding (alighting)
   * city; it is highlighted exactly when the boarding stop is at or before it and the
   * alighting stop at or after it; and it is on the drawn path exactly when the
   * alighting stop is strictly after it. A leg listed against travel order highlights
   * nothing.
   */
  lemma {:induction false} MarksFollowLeg(stops: seq<Stop>, displayFrom: string, displayTo: string, i: int)
    requires 0 <= i < |stops|
    requires displayFrom in Names(stops) && displayTo in Names(stops)
    ensures var ms := Marks(stops, displayFrom, displayTo);
      var s := FindStop(stops, displayFrom);
      var e := FindStop(stops, displayTo);
      (ms[i].isStart <==> i == s) && (ms[i].isEnd <==> i == e) &&
      (ms[i].isActive <==> s <= i <= e) && (ms[i].isPath <==> s <= i < e)
    ensures var ms := Marks(stops, displayFrom, displayTo);
      (ms[i].isStart <==> stops[i].station == displayFrom && displayFrom !in Names(stops[..i])) &&
      (ms[i].isEnd <==> stops[i].station == displayTo && displayTo !in Names(stops[..i])) &&
      (ms[i].isActive <==> displayFrom in Names(stops[..i + 1]) && displayTo !in Names(stops[..i])) &&
      (ms[i].isPath <==> displayFrom in Names(stops[..i + 1]) && displayTo !in Names(stops[..i + 1]))
    ensures FindStop(stops, displayTo) < FindStop(stops, displayFrom) ==> !Marks(stops, displayFrom, displayTo)[i].isActive
  {
    NamesHas(stops, displayFrom);
    NamesHas(stops, displayTo);
    FindStopInPrefix(stops, displayFrom, i);
    FindStopInPrefix(stops, displayFrom, i + 1);
    FindStopInPrefix(stops, displayTo, i);
    FindStopInPrefix(stops, displayTo, i + 1);
  }

  /** A name is among the first `j` stops exactly when its first stop comes before `j`. */
  lemma FindStopInPrefix(stops: seq<Stop>, name: string, j: int)
    requires 0 <= j <= |stops|
    ensures name in Names(stops[..j]) <==> 0 <= FindStop(stops, name) < j
  {
    var k := FindStop(stops, name);
    if 0 <= k < j {
      assert Names(stops[..j])[k] == name;
    }
    if name in Names(stops[..j]) {
      var m :| 0 <= m < j && Names(stops[..j])[m] == name;
      assert stops[m].station == name;
    }
  }

  /** When the boarding city is not on the list, every stop up to the alighting stop is highlighted. */
  lemma UnknownBoardingHighlightsPrefix(stops: seq<Stop>, displayFrom: string, displayTo: string, i: int)
    requires 0 <= i < |stops|
    requires forall m :: 0 <= m < |stops| ==> stops[m].station != displayFrom
    ensures Marks(stops, displayFrom, displayTo)[i].isActive <==> i <= FindStop(stops, displayTo)
  {
  }

  function Names(stops: seq<Stop>): (ns: seq<string>)
    ensures |ns| == |stops| && forall k :: 0 <= k < |stops| ==> ns[k] == stops[k].station
  {
    seq(|stops|, k requires 0 <= k < |stops| => stops[k].station)
  }

  lemma NamesHas(stops: seq<Stop>, name: string)
    requires name in Names(stops)
    ensures FindStop(stops, name) >= 0
  {
    var k :| 0 <= k < |stops| && Names(stops)[k] == name;
    assert stops[k].station == name;
  }
}
