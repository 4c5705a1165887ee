/**
 * The checkout page: what it reads back from the browser's storage, the passenger
 * forms it starts with, the digit-only inputs, the form rules checked before the
 * tickets are requested, and the total shown.
 */
module Checkout {
  import opened Wrappers
  import opened Text
  import opened Domain
  import opened SeatMap
  import opened TicketDto

  /** The storage keys the seat cart writes; a missing key is `None`. */
  datatype Storage = Storage(
    selectedSeats: Option<seq<SeatPick>>,
    routeId: Option<string>,
    routePrice: Option<int>,
    fromCity: Option<string>,
    toCity: Option<string>)

  const EmptyStorage := Storage(None, None, None, None, None)

  /** One passenger's part of the form. */
  datatype PassengerForm = PassengerForm(
    seatNumber: int,
    gender: Gender,
    tcKimlikNo: string,
    passengerName: string,
    userPhoneNumber: string)

  datatype CardForm = CardForm(cardHolderName: string, cardNumber: string, expiryDate: string, cvv: string)

  /** `storedX || ''`. */
  function OrEmpty(s: Option<string>): (r: string)
    ensures Truthy(s) ==> r == s.value
    ensures !Truthy(s) ==> r == ""
  {
    if Truthy(s) then s.value else ""
  }

  /** The checkout needs stored seats, a non-empty route id and a stored price. */
  predicate HasCheckoutData(st: Storage) {
    st.selectedSeats.Some? && Truthy(st.routeId) && st.routePrice.Some?
  }

  /** One blank passenger form per stored seat, with the seat's number and gender. */
  function InitialPassengers(seats: seq<SeatPick>): (ps: seq<PassengerForm>)
    ensures |ps| == |seats|
    ensures forall i :: 0 <= i < |seats| ==>
      ps[i].seatNumber == seats[i].number && ps[i].gender == seats[i].gender &&
      ps[i].tcKimlikNo == "" && ps[i].passengerName == "" && ps[i].userPhoneNumber == ""
  {
    seq(|seats|, i requires 0 <= i < |seats| => PassengerForm(seats[i].number, seats[i].gender, "", "", ""))
  }

  // ---------------------------------------------------------------------------
  // Inputs and rules

  /** `value.replace(/\D/g, '').slice(0, n)`: the input's digits, at most `n` of them. */
  function SanitizeDigits(input: string, n: nat): (r: string)
    ensures AllDigits(r) && |r| <= n
    ensures |r| == if |KeepDigits(input)| <= n then |KeepDigits(input)| else n
    ensures r == KeepDigits(input)[..|r|]
  {
    Take(KeepDigits(input), n)
  }

  /** Sanitizing is idempotent: a sanitized value comes back unchanged. */
  lemma {:induction false} SanitizeIdempotent(input: string, n: nat)
    ensures SanitizeDigits(SanitizeDigits(input, n), n) == SanitizeDigits(input, n)
  {
    var once := SanitizeDigits(input, n);
    assert KeepDigits(once) == once;
  }

  /** The identity number: exactly 11 digits. */
  predicate TcRule(s: string) {
    |s| == 11 && DigitString(s)
  }

  /** The phone number: exactly 10 digits, no leading 0 expected. */
  predicate PhoneRule(s: string) {
    |s| == 10 && DigitString(s)
  }

  /** Names (the passenger's, the card holder's): at least 3 characters. */
  predicate NameRule(s: string) {
    |s| >= 3
  }

  predicate PassengerValid(p: PassengerForm) {
    TcRule(p.tcKimlikNo) && NameRule(p.passengerName) && PhoneRule(p.userPhoneNumber)
  }

  /** A sanitized input meets the digit rule exactly when the typed text held enough digits. */
  lemma {:induction false} SanitizedInputValid(input: string)
    ensures TcRule(SanitizeDigits(input, 11)) <==> |KeepDigits(input)| >= 11
    ensures PhoneRule(SanitizeDigits(input, 10)) <==> |KeepDigits(input)| >= 10
  {
  }

  /** `0[1-9]` or `1[0-2]`. */
  predicate MonthDigits(a: char, b: char) {
    (a == '0' && '1' <= b <= '9') || (a == '1' && '0' <= b <= '2')
  }

  /** The regular expression `^(0[1-9]|1[0-2])\/?([0-9]{2})$`. */
  predicate ExpiryRule(s: string) {
    (|s| == 4 && MonthDigits(s[0], s[1]) && IsDigit(s[2]) && IsDigit(s[3])) ||
    (|s| == 5 && MonthDigits(s[0], s[1]) && s[2] == '/' && IsDigit(s[3]) && IsDigit(s[4]))
  }

  predicate CardValid(c: CardForm) {
    NameRule(c.cardHolderName) && 16 <= |c.cardNumber| <= 19 && ExpiryRule(c.expiryDate) && |c.cvv| == 3
  }

  /** The form passes when every passenger and the card pass. */
  predicate FormValid(ps: seq<PassengerForm>, card: CardForm) {
    (forall i :: 0 <= i < |ps| ==> PassengerValid(ps[i])) && CardValid(card)
  }

  function DigitValue(c: char): int {
    c as int - '0' as int
  }

  function DigitChar(d: int): char
    requires 0 <= d <= 9
  {
    (d + '0' as int) as char
  }

  /** The two-digit number written at `s[i..i+2]`. */
  function TwoDigits(s: string, i: nat): int
    requires i + 2 <= |s|
  {
    DigitValue(s[i]) * 10 + DigitValue(s[i + 1])
  }

  /** `MM/YY` for a month and a two-digit year. */
  function FormatExpiry(month: int, year: int): (s: string)
    requires 1 <= month <= 12 && 0 <= year < 100
    ensures |s| == 5 && s[2] == '/'
  {
    [DigitChar(month / 10), DigitChar(month % 10), '/', DigitChar(year / 10), DigitChar(year % 10)]
  }

  /** An accepted expiry date names a month from 1 to 12. */
  lemma ExpiryMonthInRange(s: string)
    requires ExpiryRule(s)
    ensures 1 <= TwoDigits(s, 0) <= 12
  {
  }

  /**
   * The rule accepts exactly the `MM/YY` dates (and their slash-less forms): every
   * month 1 to 12 and year 00 to 99 is accepted and read back, and every accepted
   * slashed date is one of them.
   */
  lemma {:induction false} ExpiryRoundTrip(month: int, year: int, s: string)
    requires 1 <= month <= 12 && 0 <= year < 100
    ensures ExpiryRule(FormatExpiry(month, year))
    ensures TwoDigits(FormatExpiry(month, year), 0) == month && TwoDigits(FormatExpiry(month, year), 3) == year
    ensures ExpiryRule(FormatExpiry(month, year)[..2] + FormatExpiry(month, year)[3..])
    ensures ExpiryRule(s) && |s| == 5 ==> s == FormatExpiry(TwoDigits(s, 0), TwoDigits(s, 3))
  {
    var f := FormatExpiry(month, year);
    assert month == (month / 10) * 10 + month % 10;
    assert year == (year / 10) * 10 + year % 10;
    var g := f[..2] + f[3..];
    assert g == [f[0], f[1], f[3], f[4]];
    if ExpiryRule(s) && |s| == 5 {
      var m, y := TwoDigits(s, 0), TwoDigits(s, 3);
      assert m / 10 == DigitValue(s[0]) && m % 10 == DigitValue(s[1]);
      assert y / 10 == DigitValue(s[3]) && y % 10 == DigitValue(s[4]);
      var e := FormatExpiry(m, y);
      assert e[0] == s[0] && e[1] == s[1] && e[3] == s[3] && e[4] == s[4];
    }
  }

  /** The total shown: seats times the unit price. */
  function CheckoutTotal(seats: seq<SeatPick>, price: int): (total: int)
    ensures price >= 0 ==> total >= 0
    ensures seats == [] ==> total == 0
    ensures |seats| == 1 ==> total == price
  {
    |seats| * price
  }

  // ---------------------------------------------------------------------------
  // Submitting

  /** The booking request sent for one passenger. */
  function RequestFor(routeId: string, fromCity: string, toCity: string, p: PassengerForm): RawCreateTicket {
    RawCreateTicket(routeId, fromCity, toCity, p.seatNumber, GenderName(p.gender), Some(p.tcKimlikNo),
      p.userPhoneNumber, p.passengerName)
  }

  /** `data.passengers.map(p => api.post('/tickets', ...))`: one request per passenger, in order. */
  function Requests(routeId: string, fromCity: string, toCity: string, ps: seq<PassengerForm>): (rs: seq<RawCreateTicket>)
    ensures |rs| == |ps|
    ensures forall i :: 0 <= i < |ps| ==>
      rs[i].seatNumber == ps[i].seatNumber && rs[i].routeId == routeId &&
      rs[i].fromCity == fromCity && rs[i].toCity == toCity && rs[i].passengerName == ps[i].passengerName
  {
    seq(|ps|, i requires 0 <= i < |ps| => RequestFor(routeId, fromCity, toCity, ps[i]))
  }

  /**
   * The page's rules are at least as strict as the server's: a form the page accepts,
   * for a well-formed route id and seats numbered from 1, yields requests that all pass
   * the booking-request validation with the same seat, gender and digits.
   */
  lemma {:induction false} AcceptedFormPassesServer(routeId: string, fromCity: string, toCity: string, ps: seq<PassengerForm>, card: CardForm, i: int)
    requires FormValid(ps, card) && IsUuid(routeId)
    requires 0 <= i < |ps| && ps[i].seatNumber >= 1
    ensures var r := ValidateCreateTicket(Requests(routeId, fromCity, toCity, ps)[i]);
      r.Success? && r.value.seatNumber == ps[i].seatNumber && r.value.gender == ps[i].gender &&
      r.value.tcKimlikNo == Some(ps[i].tcKimlikNo) && r.value.userPhoneNumber == ps[i].userPhoneNumber
  {
    var p := ps[i];
    assert PassengerValid(p);
    var raw := Requests(routeId, fromCity, toCity, ps)[i];
    assert raw == RequestFor(routeId, fromCity, toCity, p);
    assert StripSpaces(p.tcKimlikNo) == p.tcKimlikNo;
    assert StripSpaces(p.userPhoneNumber) == p.userPhoneNumber;
    assert ParseGender(raw.gender) == Some(p.gender) by {
      match p.gender
      case Male =>
      case Female =>
    }
    assert FailingFields(raw) == [];
  }

  // ---------------------------------------------------------------------------
  // The page

  /** The page's state: what it loaded, the passenger forms, and whether it sent the visitor home. */
  class CheckoutPage {
    var seats: seq<SeatPick>
    var routeId: Option<string>
    var routePrice: int
    var fromCity: string
    var toCity: string
    var passengers: seq<PassengerForm>
    var redirectedHome: bool

    /** The digit inputs only ever hold digits, at most 11 for the identity number and 10 for the phone. */
    predicate Sanitized()
      reads this
    {
      forall i :: 0 <= i < |passengers| ==>
        AllDigits(passengers[i].tcKimlikNo) && |passengers[i].tcKimlikNo| <= 11 &&
        AllDigits(passengers[i].userPhoneNumber) && |passengers[i].userPhoneNumber| <= 10
    }

    constructor()
      ensures seats == [] && routeId == None && routePrice == 0 && fromCity == "" && toCity == ""
      ensures passengers == [] && !redirectedHome && Sanitized()
    {
      seats, routeId, routePrice, fromCity, toCity := [], None, 0, "", "";
      passengers, redirectedHome := [], false;
    }

    /** The mount effect: load the stored checkout, or send the visitor home. */
    method Load(st: Storage)
      modifies this
      ensures HasCheckoutData(st) ==>
        seats == st.selectedSeats.value && routeId == st.routeId && routePrice == st.routePrice.value &&
        fromCity == OrEmpty(st.fromCity) && toCity == OrEmpty(st.toCity) &&
        passengers == InitialPassengers(st.selectedSeats.value) && redirectedHome == old(redirectedHome)
      ensures !HasCheckoutData(st) ==>
        redirectedHome && seats == old(seats) && routeId == old(routeId) && routePrice == old(routePrice) &&
        fromCity == old(fromCity) && toCity == old(toCity) && passengers == old(passengers)
      ensures old(Sanitized()) ==> Sanitized()
    {
      if HasCheckoutData(st) {
        seats := st.selectedSeats.value;
        routeId := st.routeId;
        routePrice := st.routePrice.value;
        fromCity := OrEmpty(st.fromCity);
        toCity := OrEmpty(st.toCity);
        passengers := InitialPassengers(seats);
      } else {
        redirectedHome := true;
      }
    }

    /** The page draws a form only once seats are loaded. */
    function ShowsForm(): (shown: bool)
      reads this
      ensures shown <==> |seats| > 0
    {
      |seats| != 0
    }

    /** Typing into passenger `i`'s identity-number input. */
    method TypeTc(i: int, input: string)
      requires 0 <= i < |passengers|
      modifies this`passengers
      ensures passengers == old(passengers)[i := old(passengers)[i].(tcKimlikNo := SanitizeDigits(input, 11))]
      ensures old(Sanitized()) ==> Sanitized()
    {
      passengers := passengers[i := passengers[i].(tcKimlikNo := SanitizeDigits(input, 11))];
    }

    /** Typing into passenger `i`'s phone input. */
    method TypePhone(i: int, input: string)
      requires 0 <= i < |passengers|
      modifies this`passengers
      ensures passengers == old(passengers)[i := old(passengers)[i].(userPhoneNumber := SanitizeDigits(input, 10))]
      ensures old(Sanitized()) ==> Sanitized()
    {
      passengers := passengers[i := passengers[i].(userPhoneNumber := SanitizeDigits(input, 10))];
    }

    /** The summary's total. */
    function Total(): (total: int)
      reads this
      ensures total == CheckoutTotal(seats, routePrice)
    {
      |seats| * routePrice
    }
  }

  /** Freshly loaded forms are sanitized: every digit input starts empty. */
  lemma InitialPassengersSanitized(seats: seq<SeatPick>, i: int)
    requires 0 <= i < |seats|
    ensures var p := InitialPassengers(seats)[i];
      AllDigits(p.tcKimlikNo) && AllDigits(p.userPhoneNumber) && !PassengerValid(p)
  {
  }
}
