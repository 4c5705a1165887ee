/**
 * The booking request and its field rules: whitespace is stripped from the TC identity
 * number and the phone number before they are checked, and every rule that fails is
 * reported (the validator collects all failures, not just the first).
 */
module TicketDto {
  import opened Wrappers
  import opened Text
  import opened Domain

  /** A booking request that passed validation. */
  datatype CreateTicketRequest = CreateTicketRequest(
    routeId: string,
    fromCity: string,
    toCity: string,
    seatNumber: int,
    gender: Gender,
    tcKimlikNo: Option<string>,
    userPhoneNumber: string,
    passengerName: string)

  /** The request body as received: the gender as its enum name, nothing stripped yet. */
  datatype RawCreateTicket = RawCreateTicket(
    routeId: string,
    fromCity: string,
    toCity: string,
    seatNumber: int,
    gender: string,
    tcKimlikNo: Option<string>,
    userPhoneNumber: string,
    passengerName: string)

  datatype Field = RouteIdField | SeatNumberField | GenderField | TcKimlikNoField | PhoneField

  predicate IsHexDigit(c: char) {
    ('0' <= c <= '9') || ('a' <= c <= 'f') || ('A' <= c <= 'F')
  }

  /** `@IsUUID()`: 8-4-4-4-12 hexadecimal digits separated by dashes. */
  predicate IsUuid(s: string) {
    |s| == 36 &&
    forall i :: 0 <= i < 36 ==> if i == 8 || i == 13 || i == 18 || i == 23 then s[i] == '-' else IsHexDigit(s[i])
  }

  /** `@IsEnum(Gender)`. */
  function ParseGender(s: string): (g: Option<Gender>)
    ensures g == Some(Male) <==> s == "MALE"
    ensures g == Some(Female) <==> s == "FEMALE"
  {
    if s == "MALE" then Some(Male) else if s == "FEMALE" then Some(Female) else None
  }

  function GenderName(g: Gender): string {
    match g
    case Male => "MALE"
    case Female => "FEMALE"
  }

  /** `@Length(n, n)` and `@Matches(/^\d+$/)` on a whitespace-stripped value. */
  predicate DigitsOfLength(s: string, n: nat) {
    |StripSpaces(s)| == n && DigitString(StripSpaces(s))
  }

  /** The fields whose rule fails, in declaration order. */
  function FailingFields(raw: RawCreateTicket): (fs: seq<Field>)
    ensures RouteIdField in fs <==> !IsUuid(raw.routeId)
    ensures SeatNumberField in fs <==> raw.seatNumber < 1
    ensures GenderField in fs <==> ParseGender(raw.gender).None?
    ensures TcKimlikNoField in fs <==> raw.tcKimlikNo.Some? && !DigitsOfLength(raw.tcKimlikNo.value, 11)
    ensures PhoneField in fs <==> !DigitsOfLength(raw.userPhoneNumber, 10)
  {
    (if IsUuid(raw.routeId) then [] else [RouteIdField]) +
    (if raw.seatNumber >= 1 then [] else [SeatNumberField]) +
    (if ParseGender(raw.gender).Some? then [] else [GenderField]) +
    (if raw.tcKimlikNo.None? || DigitsOfLength(raw.tcKimlikNo.value, 11) then [] else [TcKimlikNoField]) +
    (if DigitsOfLength(raw.userPhoneNumber, 10) then [] else [PhoneField])
  }

  /** Transform then validate: a request is accepted exactly when no field rule fails. */
  function ValidateCreateTicket(raw: RawCreateTicket): (r: Result<CreateTicketRequest, seq<Field>>)
    ensures r.Success? <==> FailingFields(raw) == []
    ensures r.Failure? ==> r.error == FailingFields(raw) && r.error != []
    ensures r.Success? ==>
      r.value.routeId == raw.routeId && r.value.seatNumber == raw.seatNumber && r.value.seatNumber >= 1 &&
      r.value.fromCity == raw.fromCity && r.value.toCity == raw.toCity &&
      r.value.passengerName == raw.passengerName &&
      GenderName(r.value.gender) == raw.gender &&
      r.value.userPhoneNumber == StripSpaces(raw.userPhoneNumber) &&
      r.value.tcKimlikNo == (if raw.tcKimlikNo.Some? then Some(StripSpaces(raw.tcKimlikNo.value)) else None) &&
      |r.value.userPhoneNumber| == 10 && AllDigits(r.value.userPhoneNumber) &&
      (r.value.tcKimlikNo.Some? <==> raw.tcKimlikNo.Some?) &&
      (r.value.tcKimlikNo.Some? ==> |r.value.tcKimlikNo.value| == 11 && AllDigits(r.value.tcKimlikNo.value))
  {
    var fs := FailingFields(raw);
    if fs != [] then Failure(fs)
    else
      assert RouteIdField !in fs && GenderField !in fs && PhoneField !in fs && TcKimlikNoField !in fs;
      Success(CreateTicketRequest(
        raw.routeId, raw.fromCity, raw.toCity, raw.seatNumber, ParseGender(raw.gender).value,
        if raw.tcKimlikNo.Some? then Some(StripSpaces(raw.tcKimlikNo.value)) else None,
        StripSpaces(raw.userPhoneNumber), raw.passengerName))
  }

  /** The body a client would send for an accepted request. */
  function AsRaw(req: CreateTicketRequest): RawCreateTicket {
    RawCreateTicket(req.routeId, req.fromCity, req.toCity, req.seatNumber, GenderName(req.gender),
      req.tcKimlikNo, req.userPhoneNumber, req.passengerName)
  }

  /** Validation is idempotent: resending an accepted request yields the same request. */
  lemma {:induction false} ValidateIdempotent(raw: RawCreateTicket)
    requires ValidateCreateTicket(raw).Success?
    ensures ValidateCreateTicket(AsRaw(ValidateCreateTicket(raw).value)) == ValidateCreateTicket(raw)
  {
    var req := ValidateCreateTicket(raw).value;
    var again := AsRaw(req);
    assert FailingFields(raw) == [];
    assert StripSpaces(req.userPhoneNumber) == req.userPhoneNumber;
    if req.tcKimlikNo.Some? {
      assert StripSpaces(req.tcKimlikNo.value) == req.tcKimlikNo.value;
    }
    assert ParseGender(again.gender) == Some(req.gender) by {
      match req.gender
      case Male =>
      case Female =>
    }
    assert FailingFields(again) == [];
  }
}
