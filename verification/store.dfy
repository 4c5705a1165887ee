/**
 * The persistent tables the services read and write, held in memory: routes (with the
 * bus, stations and prices included), buses, tickets in insertion order and payment
 * records. Ticket ids are drawn from a counter.
 */
module Store {
  import opened Domain

  /** A payment record written by a successful payment. */
  datatype Payment = Payment(
    ticketId: nat,
    transactionId: string,
    amount: int,
    currency: string,
    provider: string,
    status: PaymentStatus)

  class Database {
    var routes: map<string, Route>
    var buses: map<string, Bus>
    var tickets: seq<Ticket>
    var payments: seq<Payment>
    var nextTicketId: nat

    /**
     * What the database's keys and foreign keys guarantee: a route is stored under its
     * own id, every ticket refers to a stored route, and ticket ids and PNR numbers are
     * unique (ids below the counter).
     */
    ghost predicate Valid()
      reads this
    {
      (forall id :: id in routes ==> routes[id].id == id) &&
      (forall k :: 0 <= k < |tickets| ==> tickets[k].id < nextTicketId && tickets[k].routeId in routes) &&
      (forall i, j :: 0 <= i < |tickets| && 0 <= j < |tickets| && i != j ==>
        tickets[i].id != tickets[j].id && tickets[i].pnrNumber != tickets[j].pnrNumber)
    }

    constructor(routes0: map<string, Route>, buses0: map<string, Bus>)
      requires forall id :: id in routes0 ==> routes0[id].id == id
      ensures Valid()
      ensures routes == routes0 && buses == buses0 && tickets == [] && payments == []
    {
      routes := routes0;
      buses := buses0;
      tickets := [];
      payments := [];
      nextTicketId := 0;
    }

    /** `ticket.create`: a new row under the next id, for a stored route, with an unused PNR. */
    method AddTicket(t: Ticket)
      requires Valid()
      requires t.id == nextTicketId && t.routeId in routes
      requires forall k :: 0 <= k < |tickets| ==> tickets[k].pnrNumber != t.pnrNumber
      modifies this`tickets, this`nextTicketId
      ensures Valid()
      ensures tickets == old(tickets) + [t] && nextTicketId == old(nextTicketId) + 1
    {
      tickets := tickets + [t];
      nextTicketId := nextTicketId + 1;
    }

    /** A ticket row rewritten in place, keeping its id, PNR and route. */
    method PutTicket(i: nat, t: Ticket)
      requires Valid() && i < |tickets|
      requires t.id == tickets[i].id && t.pnrNumber == tickets[i].pnrNumber && t.routeId == tickets[i].routeId
      modifies this`tickets
      ensures Valid()
      ensures tickets == old(tickets)[i := t]
    {
      tickets := tickets[i := t];
    }

    /** A route row rewritten under its own id; the other tables are untouched. */
    method PutRoute(r: Route)
      requires Valid() && r.id in routes
      modifies this`routes
      ensures Valid()
      ensures routes == old(routes)[r.id := r]
    {
      routes := routes[r.id := r];
    }
  }
}
