/**
 * Payment and refund: the state guards in front of a payment, the mock card rule that
 * decides it, the write that confirms the ticket and records the payment, the refund
 * that cancels a paid ticket, and the payment history filter.
 *
 * Only the mock provider is modelled; the transaction id and the clock are parameters.
 */
module Payments {
  import opened Wrappers
  import opened Text
  import opened Domain
  import opened Store
  import opened Gateway

  datatype PaymentError =
    | TicketNotFound
    | NotOwnTicket          // "You can only pay for your own tickets"
    | AlreadyConfirmed      // "Ticket is already confirmed and paid"
    | TicketCancelled       // "Cannot pay for cancelled tickets"
    | TicketSuspended       // "Cannot pay for suspended tickets"
    | RefundNotAllowed      // "You can only refund your own tickets"
    | AlreadyRefunded       // "Ticket is already refunded"
    | NotPaid               // "Can only refund paid tickets"
    | RouteDeparted         // "Cannot refund tickets for departed routes"

  /** What the card processor answers. */
  datatype CardOutcome = Approved | Declined(errorMessage: string, errorCode: string)

  /** What `processPayment` returns when the guards pass. */
  datatype PaymentResponse =
    | PaymentSucceeded(ticket: Ticket, payment: Payment)
    | PaymentFailed(message: string, errorCode: string)

  /** What `refundPayment` returns. */
  datatype RefundReceipt = RefundReceipt(ticketId: nat, pnrNumber: string, refundAmount: int)

  /** One row of the payment history. */
  datatype HistoryEntry = HistoryEntry(
    ticketId: nat, pnrNumber: string, amount: int, currency: string, status: PaymentStatus,
    fromCity: string, toCity: string, passengerName: string, phone: string)

  const Currency: string := "TRY"
  const MockProvider: string := "mock"
  const FallbackFailureMessage: string := "Payment failed"

  // ---------------------------------------------------------------------------
  // The mock card rule

  /** `s.slice(-4)`: the last four characters, or the whole string when it is shorter. */
  function LastFour(s: string): (r: string)
    ensures |s| >= 4 ==> |r| == 4 && s == s[..|s| - 4] + r
    ensures |s| < 4 ==> r == s
  {
    if |s| >= 4 then s[|s| - 4..] else s
  }

  /** `processMockPayment`: whitespace is removed and the last four digits pick the answer. */
  function MockPayment(cardNumber: string): (o: CardOutcome)
    ensures o == Declined("Insufficient funds", "INSUFFICIENT_FUNDS") <==> LastFour(StripSpaces(cardNumber)) == "1111"
    ensures o == Declined("Invalid card number", "INVALID_CARD") <==> LastFour(StripSpaces(cardNumber)) == "2222"
    ensures o == Approved <==> LastFour(StripSpaces(cardNumber)) != "1111" && LastFour(StripSpaces(cardNumber)) != "2222"
  {
    var lastFourDigits := LastFour(StripSpaces(cardNumber));
    if lastFourDigits == "1111" then Declined("Insufficient funds", "INSUFFICIENT_FUNDS")
    else if lastFourDigits == "2222" then Declined("Invalid card number", "INVALID_CARD")
    else Approved
  }

  /** Removing the whitespace twice is the same as once. */
  lemma StripSpacesIdempotent(s: string)
    ensures StripSpaces(StripSpaces(s)) == StripSpaces(s)
  {
  }

  /**
   * The card rule ignores whitespace and everything but the last four digits: two card
   * numbers that agree there get the same answer.
   */
  lemma MockPaymentDependsOnLastFour(a: string, b: string)
    requires LastFour(StripSpaces(a)) == LastFour(StripSpaces(b))
    ensures MockPayment(a) == MockPayment(b)
  {
  }

  /** Spacing a card number differently never changes the answer. */
  lemma MockPaymentIgnoresSpaces(cardNumber: string)
    ensures MockPayment(StripSpaces(cardNumber)) == MockPayment(cardNumber)
  {
    StripSpacesIdempotent(cardNumber);
  }

  /** `paymentResult.errorMessage || 'Payment failed'`. */
  function FailureMessage(errorMessage: string): (m: string)
    ensures m != ""
    ensures errorMessage != "" ==> m == errorMessage
  {
    if errorMessage != "" then errorMessage else FallbackFailureMessage
  }

  // ---------------------------------------------------------------------------
  // Guards

  /** The guards of `processPayment`, in order: missing ticket, someone else's, then its status. */
  function PaymentCheck(t: Option<Ticket>, userId: string): Option<PaymentError> {
    if t.None? then Some(TicketNotFound)
    else if t.value.userId != Some(userId) then Some(NotOwnTicket)
    else if t.value.status == Confirmed then Some(AlreadyConfirmed)
    else if t.value.status == Cancelled then Some(TicketCancelled)
    else if t.value.status == Suspended then Some(TicketSuspended)
    else None
  }

  /** Only the owner's RESERVED ticket reaches the card processor. */
  lemma PaymentCheckPasses(t: Option<Ticket>, userId: string)
    ensures PaymentCheck(t, userId).None? <==> t.Some? && t.value.userId == Some(userId) && t.value.status == Reserved
  {
  }

  /**
   * The guards of `refundPayment`, in order: missing ticket, neither owner nor ADMIN,
   * already cancelled and refunded, not paid, route already departed.
   */
  function RefundCheck(t: Option<Ticket>, departureTime: int, userId: string, role: Role, now: int): Option<PaymentError> {
    if t.None? then Some(TicketNotFound)
    else if t.value.userId != Some(userId) && role != Admin then Some(RefundNotAllowed)
    else if t.value.status == Cancelled && t.value.paymentStatus == Refunded then Some(AlreadyRefunded)
    else if t.value.paymentStatus != Paid then Some(NotPaid)
    else if departureTime < now then Some(RouteDeparted)
    else None
  }

  /** A refund goes ahead exactly for a PAID ticket of a route not yet departed, asked by its owner or an ADMIN. */
  lemma RefundCheckPasses(t: Option<Ticket>, departureTime: int, userId: string, role: Role, now: int)
    ensures RefundCheck(t, departureTime, userId, role, now).None? <==>
      t.Some? && (t.value.userId == Some(userId) || role == Admin) && t.value.paymentStatus == Paid && now <= departureTime
  {
  }

  /** The ticket a successful refund writes. */
  function RefundedTicket(t: Ticket, now: int): (u: Ticket)
    ensures u.status == Cancelled && u.paymentStatus == Refunded && u.cancelledAt == Some(now) && !Active(u)
    ensures u.(status := t.status, paymentStatus := t.paymentStatus, cancelledAt := t.cancelledAt) == t
  {
    t.(status := Cancelled, paymentStatus := Refunded, cancelledAt := Some(now))
  }

  /** A ticket is refunded at most once: the refund guards reject a refunded ticket, whoever asks and whenever. */
  lemma {:induction false} SecondRefundRejected(t: Ticket, now: int, departureTime: int, userId: string, role: Role, later: int)
    ensures RefundCheck(Some(RefundedTicket(t, now)), departureTime, userId, role, later).Some?
  {
  }

  /** The payment record of a successful mock payment: the ticket's price, in TRY. */
  function PaymentRecord(t: Ticket, transactionId: string): (p: Payment)
    ensures p.ticketId == t.id && p.amount == t.price && p.currency == Currency
    ensures p.provider == MockProvider && p.status == Paid && p.transactionId == transactionId
  {
    Payment(t.id, transactionId, t.price, Currency, MockProvider, Paid)
  }

  /** The SEAT_CONFIRMED update a payment announces: no stop indices, no gender. */
  function PaidEvent(t: Ticket, now: int): (e: SeatUpdatePayload)
    ensures e.routeId == t.routeId && e.seatNumber == t.seatNumber && e.eventType == SeatConfirmed
    ensures e.ticketId == Some(t.id) && e.fromStopIndex.None? && e.toStopIndex.None?
  {
    SeatUpdatePayload(t.routeId, t.seatNumber, SeatConfirmed, Some(t.id), Some(t.pnrNumber), None, None, now,
      Some(SeatUpdateMetadata(Some(t.fromCity), Some(t.toCity), Some(t.price), None)))
  }

  // ---------------------------------------------------------------------------
  // History

  /** The tickets a caller sees in the payment history: PAID ones, and only their own unless ADMIN or AGENT. */
  predicate InHistory(t: Ticket, userId: string, role: Role) {
    (role == Admin || role == Agent || t.userId == Some(userId)) && t.paymentStatus == Paid
  }

  function Entry(t: Ticket): HistoryEntry {
    HistoryEntry(t.id, t.pnrNumber, t.price, Currency, t.paymentStatus, t.fromCity, t.toCity, t.passengerName, t.userPhoneNumber)
  }

  /** `getPaymentHistory`: one entry per visible ticket, in store order. */
  function PaymentHistory(ts: seq<Ticket>, userId: string, role: Role): (h: seq<HistoryEntry>)
    ensures |h| <= |ts|
    ensures forall k :: 0 <= k < |ts| && InHistory(ts[k], userId, role) ==> Entry(ts[k]) in h
    ensures forall e :: e in h ==> exists k :: 0 <= k < |ts| && InHistory(ts[k], userId, role) && e == Entry(ts[k])
  {
    if ts == [] then []
    else
      var rest := PaymentHistory(ts[1..], userId, role);
      assert forall k :: 1 <= k < |ts| ==> ts[k] == ts[1..][k - 1];
      if InHistory(ts[0], userId, role) then [Entry(ts[0])] + rest else rest
  }

  /** Every listed entry is PAID, and a customer's history lists only their own tickets. */
  lemma HistoryOnlyPaidOwn(ts: seq<Ticket>, userId: string, role: Role)
    ensures forall e :: e in PaymentHistory(ts, userId, role) ==> e.status == Paid && e.currency == Currency
    ensures role == Customer ==> forall e :: e in PaymentHistory(ts, userId, role) ==>
      exists k :: 0 <= k < |ts| && ts[k].id == e.ticketId && ts[k].userId == Some(userId)
  {
  }

  // ---------------------------------------------------------------------------
  // The service

  function TicketAt(ts: seq<Ticket>, id: nat): (o: Option<Ticket>)
    ensures o.Some? <==> FindTicket(ts, id) != -1
    ensures o.Some? ==> o.value == ts[FindTicket(ts, id)]
  {
    var i := FindTicket(ts, id);
    if i == -1 then None else Some(ts[i])
  }

  class PaymentService {
    const db: Database
    const gateway: TicketGateway

    ghost predicate Valid()
      reads this, db, gateway
    {
      db.Valid() && gateway.Valid()
    }

    constructor(db0: Database, gateway0: TicketGateway)
      requires db0.Valid() && gateway0.Valid()
      ensures db == db0 && gateway == gateway0 && Valid()
    {
      db := db0;
      gateway := gateway0;
    }

    /**
     * `processPayment` with the mock provider: a refused payment and a declined card
     * change nothing; an approved card confirms the ticket, records the payment and
     * announces SEAT_CONFIRMED.
     */
    method ProcessPayment(ticketId: nat, cardNumber: string, userId: string, transactionId: string, now: int)
      returns (r: Result<PaymentResponse, PaymentError>)
      requires Valid()
      modifies db, gateway
      ensures Valid()
      ensures db.routes == old(db.routes) && db.buses == old(db.buses)
      ensures gateway.connectedClients == old(gateway.connectedClients)
      ensures var t := TicketAt(old(db.tickets), ticketId);
        PaymentCheck(t, userId).Some? ==>
          r == Failure(PaymentCheck(t, userId).value) &&
          db.tickets == old(db.tickets) && db.payments == old(db.payments) && gateway.sent == old(gateway.sent)
      ensures var t := TicketAt(old(db.tickets), ticketId);
        PaymentCheck(t, userId).None? && MockPayment(cardNumber).Declined? ==>
          r == Success(PaymentFailed(FailureMessage(MockPayment(cardNumber).errorMessage), MockPayment(cardNumber).errorCode)) &&
          db.tickets == old(db.tickets) && db.payments == old(db.payments) && gateway.sent == old(gateway.sent)
      ensures var t := TicketAt(old(db.tickets), ticketId);
        PaymentCheck(t, userId).None? && MockPayment(cardNumber).Approved? ==>
          var i := FindTicket(old(db.tickets), ticketId);
          var paid := old(db.tickets)[i].(status := Confirmed, paymentStatus := Paid);
          r == Success(PaymentSucceeded(paid, PaymentRecord(old(db.tickets)[i], transactionId))) &&
          db.tickets == old(db.tickets)[i := paid] &&
          db.payments == old(db.payments) + [PaymentRecord(old(db.tickets)[i], transactionId)] &&
          gateway.sent == old(gateway.sent) +
            [Delivery(RoomOf(paid.routeId), PaidEvent(old(db.tickets)[i], now), old(gateway.Subscribers(paid.routeId)))]
      ensures NoDoubleBooking(old(db.tickets)) ==> NoDoubleBooking(db.tickets)
    {
      var i := FindTicket(db.tickets, ticketId);
      var ticket := if i == -1 then None else Some(db.tickets[i]);
      var check := PaymentCheck(ticket, userId);
      if check.Some? {
        return Failure(check.value);
      }
      PaymentCheckPasses(ticket, userId);
      var t := db.tickets[i];
      var outcome := MockPayment(cardNumber);
      if outcome.Declined? {
        return Success(PaymentFailed(FailureMessage(outcome.errorMessage), outcome.errorCode));
      }
      var paid, payment := Settle(i, transactionId, now);
      r := Success(PaymentSucceeded(paid, payment));
    }

    /** The approved branch of `processPayment`: confirm and mark paid, record the payment, announce it. */
    method Settle(i: int, transactionId: string, now: int) returns (paid: Ticket, payment: Payment)
      requires Valid() && 0 <= i < |db.tickets| && db.tickets[i].status == Reserved
      modifies db, gateway
      ensures Valid()
      ensures db.routes == old(db.routes) && db.buses == old(db.buses)
      ensures gateway.connectedClients == old(gateway.connectedClients)
      ensures paid == old(db.tickets)[i].(status := Confirmed, paymentStatus := Paid)
      ensures payment == PaymentRecord(old(db.tickets)[i], transactionId)
      ensures db.tickets == old(db.tickets)[i := paid] && db.payments == old(db.payments) + [payment]
      ensures gateway.sent == old(gateway.sent) +
        [Delivery(RoomOf(paid.routeId), PaidEvent(old(db.tickets)[i], now), old(gateway.Subscribers(paid.routeId)))]
      ensures NoDoubleBooking(old(db.tickets)) ==> NoDoubleBooking(db.tickets)
    {
      var t := db.tickets[i];
      paid := t.(status := Confirmed, paymentStatus := Paid);
      if NoDoubleBooking(db.tickets) {
        NoDoubleBookingSameSlot(db.tickets, i, paid);
      }
      payment := PaymentRecord(t, transactionId);
      db.PutTicket(i, paid);
      db.payments := db.payments + [payment];
      gateway.EmitSeatConfirmed(PaidEvent(t, now));
    }

    /**
     * `refundPayment`: after the guards, the ticket becomes CANCELLED and REFUNDED with
     * the cancellation time, and the whole price is reported as refunded.
     */
    method RefundPayment(ticketId: nat, userId: string, role: Role, now: int) returns (r: Result<RefundReceipt, PaymentError>)
      requires Valid()
      modifies db
      ensures Valid()
      ensures db.routes == old(db.routes) && db.buses == old(db.buses) && db.payments == old(db.payments)
      ensures var t := TicketAt(old(db.tickets), ticketId);
        var departure := if t.Some? then old(db.routes)[t.value.routeId].departureTime else 0;
        var check := RefundCheck(t, departure, userId, role, now);
        if check.Some? then r == Failure(check.value) && db.tickets == old(db.tickets)
        else
          var i := FindTicket(old(db.tickets), ticketId);
          r == Success(RefundReceipt(t.value.id, t.value.pnrNumber, t.value.price)) &&
          db.tickets == old(db.tickets)[i := RefundedTicket(t.value, now)]
      ensures NoDoubleBooking(old(db.tickets)) ==> NoDoubleBooking(db.tickets)
    {
      var i := FindTicket(db.tickets, ticketId);
      if i == -1 {
        return Failure(TicketNotFound);
      }
      var t := db.tickets[i];
      var departure := db.routes[t.routeId].departureTime;
      var check := RefundCheck(Some(t), departure, userId, role, now);
      if check.Some? {
        return Failure(check.value);
      }
      var refunded := RefundedTicket(t, now);
      if NoDoubleBooking(db.tickets) {
        NoDoubleBookingDeactivate(db.tickets, i, refunded);
      }
      db.PutTicket(i, refunded);
      r := Success(RefundReceipt(t.id, t.pnrNumber, t.price));
    }

    /** `getPaymentHistory`. */
    function GetPaymentHistory(userId: string, role: Role): (h: seq<HistoryEntry>)
      reads this, db
    {
      PaymentHistory(db.tickets, userId, role)
    }
  }
}
