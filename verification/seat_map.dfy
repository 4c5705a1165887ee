/**
 * The seat map shared by the booking site and the back office: the legacy grid builder
 * (rows of seat numbers with one aisle gap), the status a seat is drawn with, what a
 * click on it does, and the rendering of a designer-made custom layout.
 */
module SeatMap {
  import opened Wrappers
  import opened Domain

  datatype LayoutType = Layout21 | Layout22

  /** A grid entry: a seat number, or the aisle gap (`null`). */
  datatype Cell = Seat(number: int) | Aisle

  /** Seats per row: three for 2+1; four for 2+2 and for an unknown layout. */
  function SeatsPerRow(t: Option<LayoutType>): (n: int)
    ensures n == (if t == Some(Layout21) then 3 else 4)
  {
    if t == Some(Layout21) then 3 else 4
  }

  /** Seats right of the aisle. */
  function RightSeats(t: Option<LayoutType>): (n: nat)
    ensures n == SeatsPerRow(t) - 2
  {
    if t == Some(Layout21) then 1 else 2
  }

  /** `Math.ceil(seatCount / perRow)` for any integer seat count. */
  function RowCount(seatCount: int, t: Option<LayoutType>): int {
    -((-seatCount) / SeatsPerRow(t))
  }

  /** No rows for no seats; otherwise just enough rows to hold every seat. */
  lemma RowCountBounds(seatCount: int, t: Option<LayoutType>)
    ensures seatCount <= 0 ==> RowCount(seatCount, t) <= 0
    ensures seatCount > 0 ==> var rows := RowCount(seatCount, t);
      rows >= 1 && (rows - 1) * SeatsPerRow(t) < seatCount <= rows * SeatsPerRow(t)
  {
    var per := SeatsPerRow(t);
    assert -seatCount == ((-seatCount) / per) * per + (-seatCount) % per;
  }

  function Min(a: int, b: int): int {
    if a < b then a else b
  }

  function Max(a: int, b: int): int {
    if a < b then b else a
  }

  /** Up to `k` consecutive seats from `c`, stopping after seat `seatCount`. */
  function Run(c: int, k: nat, seatCount: int): (s: seq<Cell>)
    ensures |s| == Max(0, Min(k, seatCount - c + 1))
    ensures forall i :: 0 <= i < |s| ==> s[i] == Seat(c + i)
  {
    seq(Max(0, Min(k, seatCount - c + 1)), i => Seat(c + i))
  }

  /** The row built from seat `c`: two seats, the aisle, then one (2+1) or two seats. */
  function Row(c: int, seatCount: int, t: Option<LayoutType>): seq<Cell> {
    var left := Run(c, 2, seatCount);
    left + [Aisle] + Run(c + |left|, RightSeats(t), seatCount)
  }

  /** The number of seats in a row. */
  function SeatsIn(row: seq<Cell>): (n: nat)
    ensures n <= |row|
  {
    if row == [] then 0 else (if row[0].Seat? then 1 else 0) + SeatsIn(row[1..])
  }

  /** `n` rows, the first starting at seat `c`. */
  function Grid(n: nat, c: int, seatCount: int, t: Option<LayoutType>): seq<seq<Cell>>
    decreases n
  {
    if n == 0 then []
    else
      var row := Row(c, seatCount, t);
      [row] + Grid(n - 1, c + SeatsIn(row), seatCount, t)
  }

  /** The grid for a bus: `Math.ceil(seatCount / perRow)` rows from seat 1. */
  function Layout(seatCount: int, t: Option<LayoutType>): seq<seq<Cell>> {
    Grid(Max(0, RowCount(seatCount, t)), 1, seatCount, t)
  }

  /** Seat numbers `lo..hi`. */
  function Numbers(lo: int, hi: int): (s: seq<int>)
    ensures |s| == Max(0, hi - lo + 1)
    ensures forall i :: 0 <= i < |s| ==> s[i] == lo + i
  {
    seq(Max(0, hi - lo + 1), i => lo + i)
  }

  /** The seat numbers of a row, left to right. */
  function RowNumbers(row: seq<Cell>): seq<int> {
    if row == [] then [] else (if row[0].Seat? then [row[0].number] else []) + RowNumbers(row[1..])
  }

  /** The seat numbers of a grid, row by row. */
  function GridNumbers(g: seq<seq<Cell>>): seq<int> {
    if g == [] then [] else RowNumbers(g[0]) + GridNumbers(g[1..])
  }

  // ---------------------------------------------------------------------------
  // The grid builder

  /** `renderLayout`: `Math.ceil(seatCount / perRow)` rows, built by the nested loop. */
  method RenderLayout(seatCount: int, t: Option<LayoutType>) returns (layout: seq<seq<Cell>>)
    ensures layout == Layout(seatCount, t)
  {
    var rows := RowCount(seatCount, t);
    layout := BuildRows(Max(0, rows), seatCount, t);
  }

  /** The outer loop: `n` rows, each continuing from the seat after the previous row's last. */
  method BuildRows(n: nat, seatCount: int, t: Option<LayoutType>) returns (layout: seq<seq<Cell>>)
    ensures layout == Grid(n, 1, seatCount, t)
  {
    layout := [];
    var currentSeat := 1;
    var r := 0;
    while r < n
      invariant 0 <= r <= n
      invariant layout + Grid(n - r, currentSeat, seatCount, t) == Grid(n, 1, seatCount, t)
    {
      var rowSeats, next := BuildRow(currentSeat, seatCount, t);
      GridStep(layout, n - r, currentSeat, seatCount, t);
      layout := layout + [rowSeats];
      currentSeat := next;
      r := r + 1;
    }
  }

  /** Emitting the first of `n` rows leaves the other `n - 1` to build. */
  lemma GridStep(layout: seq<seq<Cell>>, n: nat, c: int, seatCount: int, t: Option<LayoutType>)
    requires n > 0
    ensures var row := Row(c, seatCount, t);
      (layout + [row]) + Grid(n - 1, c + SeatsIn(row), seatCount, t) == layout + Grid(n, c, seatCount, t)
  {
  }

  /** One pass of the outer loop: left seats, the gap, right seats; returns the next seat number. */
  method BuildRow(currentSeat: int, seatCount: int, t: Option<LayoutType>) returns (rowSeats: seq<Cell>, next: int)
    ensures rowSeats == Row(currentSeat, seatCount, t)
    ensures next == currentSeat + SeatsIn(rowSeats)
  {
    var left := PushSeats(2, currentSeat, seatCount);
    var mid := currentSeat + |left|;
    var right := PushSeats(RightSeats(t), mid, seatCount);
    rowSeats := left + [Aisle] + right;
    next := mid + |right|;
    RowSeatCount(currentSeat, seatCount, t);
  }

  /** `for (let i = 0; i < k; i++) if (currentSeat <= seatCount) rowSeats.push(currentSeat++)`. */
  method PushSeats(k: nat, from: int, seatCount: int) returns (pushed: seq<Cell>)
    ensures pushed == Run(from, k, seatCount)
  {
    pushed := [];
    var currentSeat := from;
    var i := 0;
    while i < k
      invariant 0 <= i <= k
      invariant pushed == Run(from, i, seatCount)
      invariant currentSeat == from + |pushed|
    {
      if currentSeat <= seatCount {
        pushed := pushed + [Seat(currentSeat)];
        currentSeat := currentSeat + 1;
      }
      i := i + 1;
    }
  }

  // ---------------------------------------------------------------------------
  // What the grid promises

  lemma {:induction false} SeatsInRun(c: int, k: nat, seatCount: int)
    ensures SeatsIn(Run(c, k, seatCount)) == |Run(c, k, seatCount)|
    ensures RowNumbers(Run(c, k, seatCount)) == Numbers(c, c + |Run(c, k, seatCount)| - 1)
    decreases k
  {
    var s := Run(c, k, seatCount);
    if s != [] {
      assert s[1..] == Run(c + 1, k - 1, seatCount);
      SeatsInRun(c + 1, k - 1, seatCount);
      NumbersConcat(c, c, c + |s| - 1);
    }
  }

  lemma {:induction false} CountsOfConcat(a: seq<Cell>, b: seq<Cell>)
    ensures SeatsIn(a + b) == SeatsIn(a) + SeatsIn(b)
    ensures RowNumbers(a + b) == RowNumbers(a) + RowNumbers(b)
  {
    if a != [] {
      assert (a + b)[0] == a[0];
      assert (a + b)[1..] == a[1..] + b;
      CountsOfConcat(a[1..], b);
    } else {
      assert a + b == b;
    }
  }

  /** Seats `lo..mid` followed by `mid+1..hi` are seats `lo..hi`. */
  lemma NumbersConcat(lo: int, mid: int, hi: int)
    requires lo - 1 <= mid <= hi
    ensures Numbers(lo, mid) + Numbers(mid + 1, hi) == Numbers(lo, hi)
  {
    var a, b := Numbers(lo, mid), Numbers(mid + 1, hi);
    assert forall i :: 0 <= i < |a + b| ==> (a + b)[i] == Numbers(lo, hi)[i] by {
      forall i | 0 <= i < |a + b| ensures (a + b)[i] == lo + i {
        if i >= |a| {
          assert (a + b)[i] == b[i - |a|];
        }
      }
    }
  }

  /** A row holds the seats from `c` on, at most one row's worth, and never past the last seat. */
  lemma {:induction false} RowSeatCount(c: int, seatCount: int, t: Option<LayoutType>)
    ensures SeatsIn(Row(c, seatCount, t)) == Max(0, Min(SeatsPerRow(t), seatCount - c + 1))
    ensures RowNumbers(Row(c, seatCount, t)) == Numbers(c, c + SeatsIn(Row(c, seatCount, t)) - 1)
  {
    var left := Run(c, 2, seatCount);
    var a := |left|;
    var right := Run(c + a, RightSeats(t), seatCount);
    var b := |right|;
    var row := Row(c, seatCount, t);
    assert row == left + [Aisle] + right;
    SeatsInRun(c, 2, seatCount);
    SeatsInRun(c + a, RightSeats(t), seatCount);
    RowOfRuns(left, right, c, a, b);
    RowWidth(c, seatCount, t);
  }

  /** Seats `c..c+a-1`, the aisle, then seats `c+a..c+a+b-1` make a row of seats `c..c+a+b-1`. */
  lemma RowOfRuns(left: seq<Cell>, right: seq<Cell>, c: int, a: nat, b: nat)
    requires SeatsIn(left) == a && RowNumbers(left) == Numbers(c, c + a - 1)
    requires SeatsIn(right) == b && RowNumbers(right) == Numbers(c + a, c + a + b - 1)
    ensures SeatsIn(left + [Aisle] + right) == a + b
    ensures RowNumbers(left + [Aisle] + right) == Numbers(c, c + SeatsIn(left + [Aisle] + right) - 1)
  {
    RowParts(left, right);
    NumbersConcat(c, c + a - 1, c + a + b - 1);
  }

  lemma {:induction false} RowParts(left: seq<Cell>, right: seq<Cell>)
    ensures SeatsIn(left + [Aisle] + right) == SeatsIn(left) + SeatsIn(right)
    ensures RowNumbers(left + [Aisle] + right) == RowNumbers(left) + RowNumbers(right)
  {
    CountsOfConcat(left, [Aisle]);
    CountsOfConcat(left + [Aisle], right);
    assert SeatsIn([Aisle]) == 0 && RowNumbers([Aisle]) == [] by {
      assert [Aisle][1..] == [];
    }
  }

  /** Up to two seats left of the aisle and the rest right of it: a row's worth, or what is left. */
  lemma RowWidth(c: int, seatCount: int, t: Option<LayoutType>)
    ensures var a := |Run(c, 2, seatCount)|;
      a + |Run(c + a, RightSeats(t), seatCount)| == Max(0, Min(SeatsPerRow(t), seatCount - c + 1))
  {
  }

  /**
   * Every row has exactly one aisle gap, after at most two seats, and holds at most
   * three seats (2+1) or four (2+2).
   */
  lemma {:induction false} RowShape(c: int, seatCount: int, t: Option<LayoutType>)
    ensures var row := Row(c, seatCount, t);
      exists p :: 0 <= p <= 2 && p < |row| && row[p] == Aisle && forall j :: 0 <= j < |row| && j != p ==> row[j].Seat?
    ensures SeatsIn(Row(c, seatCount, t)) <= SeatsPerRow(t)
  {
    var left := Run(c, 2, seatCount);
    var row := Row(c, seatCount, t);
    assert row[|left|] == Aisle;
    RowSeatCount(c, seatCount, t);
  }

  /** The rows from seat `c` continue exactly where each previous row stopped. */
  lemma {:induction false} GridCovers(n: nat, c: int, seatCount: int, t: Option<LayoutType>, hi: int)
    requires 1 <= c <= seatCount + 1 || (c == 1 && seatCount < 1)
    requires hi == Min(c + n * SeatsPerRow(t) - 1, seatCount)
    ensures GridNumbers(Grid(n, c, seatCount, t)) == Numbers(c, hi)
    decreases n
  {
    if n > 0 {
      var row := Row(c, seatCount, t);
      RowSeatCount(c, seatCount, t);
      var c' := c + SeatsIn(row);
      var hi' := Min(c' + (n - 1) * SeatsPerRow(t) - 1, seatCount);
      NextRow(c, SeatsIn(row), SeatsPerRow(t), n, seatCount, RowNumbers(row));
      GridCovers(n - 1, c', seatCount, t, hi');
      GridUnfold(n, c, seatCount, t);
    }
  }

  /** The seats of `n` rows are the first row's seats, then those of the rows after it. */
  lemma GridUnfold(n: nat, c: int, seatCount: int, t: Option<LayoutType>)
    requires n > 0
    ensures var row := Row(c, seatCount, t);
      GridNumbers(Grid(n, c, seatCount, t)) == RowNumbers(row) + GridNumbers(Grid(n - 1, c + SeatsIn(row), seatCount, t))
  {
    var g := Grid(n, c, seatCount, t);
    assert g[0] == Row(c, seatCount, t) && g[1..] == Grid(n - 1, c + SeatsIn(g[0]), seatCount, t);
  }

  /**
   * One step of `GridCovers`: a row's seats `c..c+s-1` followed by the seats of the
   * remaining `n - 1` rows are the seats of all `n` rows.
   */
  lemma NextRow(c: int, s: int, per: int, n: nat, seatCount: int, rowNums: seq<int>)
    requires n > 0 && per > 0
    requires 1 <= c <= seatCount + 1 || (c == 1 && seatCount < 1)
    requires s == Max(0, Min(per, seatCount - c + 1)) && rowNums == Numbers(c, c + s - 1)
    ensures 1 <= c + s <= seatCount + 1 || (c + s == 1 && seatCount < 1)
    ensures rowNums + Numbers(c + s, Min(c + s + (n - 1) * per - 1, seatCount)) == Numbers(c, Min(c + n * per - 1, seatCount))
  {
    var hi := Min(c + n * per - 1, seatCount);
    var hi' := Min(c + s + (n - 1) * per - 1, seatCount);
    assert (n - 1) * per == n * per - per;
    assert n * per >= per;
    if c + s - 1 <= hi {
      NumbersConcat(c, c + s - 1, hi);
      assert Numbers(c + s, hi') == Numbers(c + s, hi);
    }
  }

  lemma {:induction false} GridLength(n: nat, c: int, seatCount: int, t: Option<LayoutType>)
    ensures |Grid(n, c, seatCount, t)| == n
    decreases n
  {
    if n > 0 {
      GridLength(n - 1, c + SeatsIn(Row(c, seatCount, t)), seatCount, t);
    }
  }

  /** The grid lists seats 1 to `seatCount`, each once, in order, in `Math.ceil(seatCount / perRow)` rows. */
  lemma LayoutCoversAllSeats(seatCount: int, t: Option<LayoutType>)
    ensures |Layout(seatCount, t)| == Max(0, RowCount(seatCount, t))
    ensures GridNumbers(Layout(seatCount, t)) == Numbers(1, seatCount)
  {
    var n := Max(0, RowCount(seatCount, t));
    RowCountBounds(seatCount, t);
    GridLength(n, 1, seatCount, t);
    GridCovers(n, 1, seatCount, t, Min(1 + n * SeatsPerRow(t) - 1, seatCount));
  }

  // ---------------------------------------------------------------------------
  // Seat status and clicks

  datatype SeatStatus = Available | SoldMale | SoldFemale | Selected

  datatype SeatPick = SeatPick(number: int, gender: Gender)

  /** `picks.find(s => s.number === n)`: the first pick for seat `n`, or -1. */
  function FindPick(picks: seq<SeatPick>, n: int): (k: int)
    ensures -1 <= k < |picks|
    ensures k >= 0 ==> picks[k].number == n && forall m :: 0 <= m < k ==> picks[m].number != n
    ensures k == -1 <==> forall m :: 0 <= m < |picks| ==> picks[m].number != n
  {
    if picks == [] then -1
    else if picks[0].number == n then 0
    else
      var k := FindPick(picks[1..], n);
      if k == -1 then -1 else k + 1
  }

  predicate Picked(picks: seq<SeatPick>, n: int) {
    exists m :: 0 <= m < |picks| && picks[m].number == n
  }

  /**
   * The status a seat is drawn with: selected wins over sold, sold is split by the
   * gender of the first occupying pick, and anything else is available.
   */
  function StatusOf(n: int, occupied: seq<SeatPick>, selected: seq<SeatPick>): (s: SeatStatus)
    ensures s == Selected <==> Picked(selected, n)
    ensures s == SoldMale <==> !Picked(selected, n) && Picked(occupied, n) && occupied[FindPick(occupied, n)].gender == Male
    ensures s == SoldFemale <==> !Picked(selected, n) && Picked(occupied, n) && occupied[FindPick(occupied, n)].gender == Female
    ensures s == Available <==> !Picked(selected, n) && !Picked(occupied, n)
  {
    var occ := FindPick(occupied, n);
    var sel := FindPick(selected, n);
    assert sel == -1 <==> !Picked(selected, n);
    assert occ == -1 <==> !Picked(occupied, n);
    var status := if occ == -1 then Available else match occupied[occ].gender
      case Male => SoldMale
      case Female => SoldFemale;
    if sel != -1 then Selected else status
  }

  /** The button is disabled for a sold seat. */
  predicate Disabled(s: SeatStatus) {
    s == SoldMale || s == SoldFemale
  }

  datatype ClickEffect = OpenGenderPicker | DeselectSeat | NoEffect

  /** `handleClick`: an available seat opens the gender picker, a selected one is deselected. */
  function HandleClick(s: SeatStatus): (e: ClickEffect)
    ensures e == OpenGenderPicker <==> s == Available
    ensures e == DeselectSeat <==> s == Selected
    ensures Disabled(s) ==> e == NoEffect
  {
    if s == Available then OpenGenderPicker
    else if s == Selected then DeselectSeat
    else NoEffect
  }

  /** A seat someone else holds can be neither picked nor released from the map. */
  lemma OccupiedSeatInert(n: int, occupied: seq<SeatPick>, selected: seq<SeatPick>)
    requires Picked(occupied, n) && !Picked(selected, n)
    ensures Disabled(StatusOf(n, occupied, selected)) && HandleClick(StatusOf(n, occupied, selected)) == NoEffect
  {
  }

  // ---------------------------------------------------------------------------
  // Custom layouts

  /** One cell of a designer-made layout: its type name and, for seats, the seat number. */
  datatype LayoutCell = LayoutCell(id: string, cellType: string, seatNo: int)

  datatype Rendered = Spacer | DoorMark | SeatButton(number: int, status: SeatStatus)

  /** Empty cells, corridors and the driver's place are blank, doors are marked, every other cell is a seat. */
  predicate IsSeatCell(c: LayoutCell) {
    c.cellType != "EMPTY" && c.cellType != "CORRIDOR" && c.cellType != "DOOR" && c.cellType != "DRIVER"
  }

  function RenderCell(c: LayoutCell, occupied: seq<SeatPick>, selected: seq<SeatPick>): (r: Rendered)
    ensures r.SeatButton? <==> IsSeatCell(c)
    ensures r.SeatButton? ==> r.number == c.seatNo && r.status == StatusOf(c.seatNo, occupied, selected)
    ensures r == DoorMark <==> c.cellType == "DOOR"
  {
    if c.cellType == "EMPTY" || c.cellType == "CORRIDOR" then Spacer
    else if c.cellType == "DOOR" then DoorMark
    else if c.cellType == "DRIVER" then Spacer
    else SeatButton(c.seatNo, StatusOf(c.seatNo, occupied, selected))
  }

  /** `seats.map(...)`: one rendered cell per layout cell, in order. */
  function RenderCustom(cells: seq<LayoutCell>, occupied: seq<SeatPick>, selected: seq<SeatPick>): (rs: seq<Rendered>)
    ensures |rs| == |cells|
    ensures forall i :: 0 <= i < |cells| ==> rs[i] == RenderCell(cells[i], occupied, selected)
  {
    seq(|cells|, i requires 0 <= i < |cells| => RenderCell(cells[i], occupied, selected))
  }

  /** The seat buttons of a custom layout are exactly its seat cells, with their numbers. */
  lemma CustomSeatsAreSeatCells(cells: seq<LayoutCell>, occupied: seq<SeatPick>, selected: seq<SeatPick>, n: int)
    ensures (exists i :: 0 <= i < |cells| && RenderCustom(cells, occupied, selected)[i] == SeatButton(n, StatusOf(n, occupied, selected)))
      <==> exists i :: 0 <= i < |cells| && IsSeatCell(cells[i]) && cells[i].seatNo == n
  {
    var rs := RenderCustom(cells, occupied, selected);
    if exists i :: 0 <= i < |cells| && IsSeatCell(cells[i]) && cells[i].seatNo == n {
      var i :| 0 <= i < |cells| && IsSeatCell(cells[i]) && cells[i].seatNo == n;
      assert rs[i] == SeatButton(n, StatusOf(n, occupied, selected));
    }
  }

  /** What the bus component draws: a saved layout's cells, or the generated grid. */
  datatype BusView = CustomView(cells: seq<Rendered>) | GridView(rows: seq<seq<Cell>>)

  /**
   * `customLayout && customLayout.seats`: a saved layout that has a seat list is drawn
   * cell by cell, and the seat count and layout type are then ignored; without one the
   * grid generated from the seat count and layout type is drawn.
   */
  function ChooseView(customSeats: Option<seq<LayoutCell>>, seatCount: int, t: Option<LayoutType>,
                      occupied: seq<SeatPick>, selected: seq<SeatPick>): (v: BusView)
    ensures v.CustomView? <==> customSeats.Some?
    ensures v.CustomView? ==> |v.cells| == |customSeats.value|
    ensures v.CustomView? ==> forall i :: 0 <= i < |v.cells| ==> (v.cells[i].SeatButton? <==> IsSeatCell(customSeats.value[i]))
    ensures v.GridView? ==> v.rows == Layout(seatCount, t)
  {
    if customSeats.Some? then CustomView(RenderCustom(customSeats.value, occupied, selected))
    else GridView(Layout(seatCount, t))
  }
}
