# Ulusoy bus ticketing: a verified model of the seat inventory

This project models the core of the Ulusoy intercity bus ticketing system in Dafny. It covers the
back end's ticket, payment, route and tracking services, the seat-update gateway and the
booking-request validation, plus the pieces of the web front ends that depend on the same rules:
the seat map (customer and admin), the route card's seat cart, the checkout page, the search
widget's URL slugs, and the seed script's slugify and station classification.

The inventory is segmented. A route's stops are `[fromCity, stations…, toCity]`, numbered from 0.
A ticket holds one seat over the half-open stop range `[fromStopIndex, toStopIndex)`. While it is
RESERVED or CONFIRMED, it blocks that seat for every other range that shares a stop-to-stop leg
with it. Adjacent segments (A→C and C→D) can therefore sell the same seat. The central invariant
is `Domain.NoDoubleBooking`: no two active tickets hold the same seat of the same route over
overlapping ranges. Every state-changing ticket and payment operation is shown to keep it, except
the two operations listed under "## Findings".

Modules follow the program's structure:

- `Text`: JavaScript string operations.
- `Domain`: entities, stop lists and the invariant.
- `Store`: the database tables as a class.
- `Gateway`: the socket.io room registry.
- `TicketDto`: the booking request's validation rules.
- `TicketService`: booking, availability, PNR generation, and the status changes.
- `Payments`: the mock card processor, payment, refund and history.
- `Routes`: route create, update and listing, destinations, duration.
- `RouteSearch`: the search query and its in-memory filter.
- `Tracking`: following a bus.
- `SeatMap`: the bus seat grid.
- `RouteCard`: the seat cart and the stop list.
- `Checkout`: the payment page.
- `Slug`: slugify, the search URL and the seed's station type.
- `Sorting`: `filter` and the stable comparator sort.
- `Wrappers`: `Option` and `Result`.

Objects the source updates in place are classes whose methods state their whole new state:

- `Database`, `TicketGateway`, `TicketService`, `PaymentService` and `RouteService`;
- the route card's `SeatCart`, the `CheckoutPage` and the `SearchWidget`.

The clock (`now`), the time zone offset (`tz`), random draws and generated ids are parameters.

## Model

| member | source | states |
|---|---|---|
| Text.TrimSpec | ulusoy-back/src/modules/ticket/ticket.service.ts:66 | `trim()` keeps one contiguous part of the string, drops only whitespace around it, and leaves no whitespace at either end |
| Text.StripSpaces | ulusoy-back/src/modules/ticket/dto/create-ticket.dto.ts:24 | removing `\s` leaves no whitespace, never lengthens the string, and leaves a string without whitespace as it was |
| Text.StripSpacesIsFilter | ulusoy-back/src/modules/ticket/dto/create-ticket.dto.ts:24 | removing `\s` works piece by piece (the result for `a + b` is the result for `a` followed by the one for `b`) and keeps a single character exactly when it is not whitespace, so the result is the input's non-space characters in order; also `ulusoy-back/src/modules/payment/payment.service.ts:237` |
| Text.LowerTr | ulusoy-back/src/modules/ticket/ticket.service.ts:234 | Turkish lower-casing maps each character on its own and keeps the length, so folded stop names line up with the stops |
| Text.Upper | ulusoy-back/prisma/seed.ts:34 | locale-independent upper-casing maps each character on its own and keeps the length |
| Text.UpperTr | ulusoy-back/prisma/seed.ts:34 | Turkish upper-casing maps each character on its own (`i` to `İ`) and keeps the length |
| Text.Contains | ulusoy-back/src/modules/route/route.service.ts:247 | `includes` holds exactly when the substring occurs at some position |
| Text.IndexOf | ulusoy-back/src/modules/ticket/ticket.service.ts:68-69 | `indexOf` is -1 exactly for an absent element; otherwise it is the first position holding it |
| Text.KeepDigits | ulusoy-front/app/odeme/page.tsx:146 | removing `\D` yields only digits, never lengthens, and keeps an all-digit string unchanged |
| Text.KeepDigitsMembers | ulusoy-front/app/odeme/page.tsx:146 | removing `\D` drops no digit: a character is in the result exactly when it is a digit of the input |
| Text.KeepDigitsIsFilter | ulusoy-front/app/odeme/page.tsx:146 | removing `\D` works piece by piece and keeps a single character exactly when it is a digit, so the result is the input's digits in order |
| Text.Take | ulusoy-front/app/odeme/page.tsx:146 | `slice(0, n)` is the prefix of length `n`, or the whole string when it is shorter |
| Domain.StopNames | ulusoy-back/src/modules/ticket/ticket.service.ts:66 | the stop list is the origin, each station in order, then the destination |
| Domain.FoldAll | ulusoy-back/src/modules/ticket/ticket.service.ts:66 | folding keeps one entry per name (per-entry content in `FoldAllAt`) |
| Domain.FoldedStops | ulusoy-back/src/modules/ticket/ticket.service.ts:66 | the booking path's folded stop list has one entry per stop |
| Domain.FoldAllTr | ulusoy-back/src/modules/ticket/ticket.service.ts:234 | the Turkish folding keeps one entry per name (per-entry content in `FoldAllTrAt`) |
| Domain.FoldedStopsTr | ulusoy-back/src/modules/ticket/ticket.service.ts:234 | the availability path's folded stop list has one entry per stop |
| Domain.OverlapsIffCommonLeg | ulusoy-back/src/modules/ticket/ticket.service.ts:102-105 | the `from < otherTo && to > otherFrom` test holds exactly when both ranges contain a common stop-to-stop leg, so adjacent segments never conflict |
| Domain.ClashSymmetric | ulusoy-back/src/modules/ticket/ticket.service.ts:95-107 | the conflict relation is symmetric, so the invariant does not depend on ticket order |
| Domain.NoDoubleBookingAppend | ulusoy-back/src/modules/ticket/ticket.service.ts:95-113 | inserting a ticket keeps the invariant if and only if it clashes with no existing ticket |
| Domain.NoDoubleBookingDeactivate | ulusoy-back/src/modules/ticket/ticket.service.ts:359-365 | replacing a ticket by an inactive one (cancelled, suspended) keeps the invariant |
| Domain.NoDoubleBookingSameSlot | ulusoy-back/src/modules/payment/payment.service.ts:87-93 | rewriting a ticket without changing route, seat, range or activity keeps the invariant |
| Domain.FindTicket | ulusoy-back/src/modules/ticket/ticket.service.ts:302-311 | the lookup by id finds the first ticket with that id, and -1 exactly when none has it |
| Domain.Pnrs | ulusoy-back/src/modules/ticket/ticket.service.ts:392-396 | the set of issued PNRs is exactly the PNRs of the stored tickets |
| Store.Database.AddTicket | ulusoy-back/src/modules/ticket/ticket.service.ts:135-171 | an insert appends the row under the next id and keeps the keys unique and the route reference valid |
| Store.Database.PutTicket | ulusoy-back/src/modules/ticket/ticket.service.ts:343-347 | an update rewrites one row in place and keeps the database's key constraints |
| Store.Database.PutRoute | ulusoy-back/src/modules/route/route.service.ts:454-458 | a route update rewrites the row under its own id and keeps the constraints |
| Gateway.RoomOf | ulusoy-back/src/modules/ticket/ticket.gateway.ts:136 | a route's room is `route:` followed by the route id |
| Gateway.RoomOfInjective | ulusoy-back/src/modules/ticket/ticket.gateway.ts:135-143 | distinct routes have distinct rooms, so an update never reaches another route's subscribers |
| Gateway.WithSubscriber | ulusoy-back/src/modules/ticket/ticket.gateway.ts:64-67 | subscribing adds the client to that route's set (creating it if needed), leaves other routes alone and keeps every set non-empty |
| Gateway.SubscribeIdempotent | ulusoy-back/src/modules/ticket/ticket.gateway.ts:64-67 | subscribing twice equals subscribing once |
| Gateway.WithoutSubscriber | ulusoy-back/src/modules/ticket/ticket.gateway.ts:96-102 | unsubscribing removes only that client from that route, drops the route once empty, ignores an untracked route and keeps every set non-empty |
| Gateway.DisconnectedOnStep | ulusoy-back/src/modules/ticket/ticket.gateway.ts:35-42 | one iteration of the disconnect loop removes the client from one route, and removes the route when it empties |
| Gateway.Disconnected | ulusoy-back/src/modules/ticket/ticket.gateway.ts:31-43 | after disconnect the client is in no set, every other membership is kept, and no set is empty |
| Gateway.TicketGateway.constructor | ulusoy-back/src/modules/ticket/ticket.gateway.ts:25 | the registry starts empty |
| Gateway.TicketGateway.HandleSubscribeRoute | ulusoy-back/src/modules/ticket/ticket.gateway.ts:49-75 | a missing or empty route id is refused with no change; otherwise the client joins the route's set |
| Gateway.TicketGateway.HandleUnsubscribeRoute | ulusoy-back/src/modules/ticket/ticket.gateway.ts:81-110 | the same guard; otherwise the registry becomes `WithoutSubscriber` of the old one |
| Gateway.TicketGateway.HandleDisconnect | ulusoy-back/src/modules/ticket/ticket.gateway.ts:31-43 | the loop over the routes leaves exactly `Disconnected` of the old registry |
| Gateway.TicketGateway.GetConnectionStats | ulusoy-back/src/modules/ticket/ticket.gateway.ts:190-202 | one entry per tracked route, holding its subscriber count, which is at least one |
| Gateway.TicketGateway.EmitSeatUpdate | ulusoy-back/src/modules/ticket/ticket.gateway.ts:135-143 | the payload goes unchanged to its own route's room and reaches exactly that route's subscribers |
| Gateway.TicketGateway.EmitSeatReserved | ulusoy-back/src/modules/ticket/ticket.gateway.ts:148-150 | delivers like `EmitSeatUpdate` |
| Gateway.TicketGateway.EmitSeatConfirmed | ulusoy-back/src/modules/ticket/ticket.gateway.ts:155-157 | delivers like `EmitSeatUpdate` |
| Gateway.TicketGateway.EmitSeatSuspended | ulusoy-back/src/modules/ticket/ticket.gateway.ts:162-164 | delivers like `EmitSeatUpdate` |
| Gateway.TicketGateway.EmitSeatCancelled | ulusoy-back/src/modules/ticket/ticket.gateway.ts:169-171 | delivers like `EmitSeatUpdate` |
| Gateway.TicketGateway.EmitSeatAvailable | ulusoy-back/src/modules/ticket/ticket.gateway.ts:176-178 | delivers like `EmitSeatUpdate` |
| TicketDto.ParseGender | ulusoy-back/src/modules/ticket/dto/create-ticket.dto.ts:19-20 | only `MALE` and `FEMALE` are genders |
| TicketDto.FailingFields | ulusoy-back/src/modules/ticket/dto/create-ticket.dto.ts:5-37 | a field is reported exactly when its rule fails: uuid route id, seat ≥ 1, gender enum, optional 11-digit identity number, 10-digit phone (both after whitespace removal) |
| TicketDto.ValidateCreateTicket | ulusoy-back/src/modules/ticket/dto/create-ticket.dto.ts:5-37 | a request is accepted exactly when no rule fails; an accepted one carries the same route, cities, seat, gender and passenger name, and its phone and TC number are the raw values with whitespace removed, digit-only and of the right length; a refused one lists the failing fields |
| TicketDto.ValidateIdempotent | ulusoy-back/src/modules/ticket/dto/create-ticket.dto.ts:22-33 | re-validating an accepted request gives the same request |
| TicketService.Lookup | ulusoy-back/src/modules/ticket/ticket.service.ts:38-49 | the route lookup finds a route exactly when one is stored under the id |
| TicketService.BoardingTime | ulusoy-back/src/modules/ticket/ticket.service.ts:80-84 | boarding at the origin is the route's departure, boarding at stop `k > 0` is station `k - 1`'s time |
| TicketService.FindExactPrice | ulusoy-back/src/modules/ticket/ticket.service.ts:117-120 | finds an override matching both cities exactly (case-folded), or none exactly when no override matches |
| TicketService.FindConflict | ulusoy-back/src/modules/ticket/ticket.service.ts:95-107 | finds a ticket that blocks the seat on an overlapping range, and none exactly when no ticket does |
| TicketService.DecideAccepts | ulusoy-back/src/modules/ticket/ticket.service.ts:47-113 | an accepted booking has: an active route; a seat within capacity; both cities resolved to their first stop in travel order; for a customer, no departure yet and boarding at least 15 minutes ahead; no active ticket holding the seat in the range |
| TicketService.DecidePrice | ulusoy-back/src/modules/ticket/ticket.service.ts:115-127 | an accepted booking costs the first exact override's price, which is then on sale, or else the route price |
| TicketService.GuardsPassAccepted | ulusoy-back/src/modules/ticket/ticket.service.ts:47-127 | conversely, a booking that passes every guard (active route, seat in capacity, both cities on the route in travel order, a customer before departure and outside the cutoff, no blocking ticket, no closed override) is accepted on the cities' first stops at the override's or else the route's price |
| TicketService.ClosedSegmentRefused | ulusoy-back/src/modules/ticket/ticket.service.ts:122-125 | a segment whose first matching override is not on sale is never booked |
| TicketService.NewTicket | ulusoy-back/src/modules/ticket/ticket.service.ts:131-153 | a customer owns the ticket and the caller is always the issuer; agent and admin sales start CONFIRMED+PAID, the rest RESERVED+PENDING; the ticket is active with the quoted range and price |
| TicketService.CreatedEvent | ulusoy-back/src/modules/ticket/ticket.service.ts:173-211 | the announcement names the ticket's seat and range; it is SEAT_CONFIRMED for agent sales and SEAT_RESERVED otherwise |
| TicketService.BookingKeepsNoDoubleBooking | ulusoy-back/src/modules/ticket/ticket.service.ts:95-113 | every booking the guards accept keeps the no-double-booking invariant |
| TicketService.AdjacentSegmentsShareSeat | ulusoy-back/src/modules/ticket/ticket.service.ts:102-105 | with seat 5 sold A→C, C→D is accepted and B→D is refused; after cancelling A→C, B→D is accepted |
| TicketService.AvailabilityWindow | ulusoy-back/src/modules/ticket/ticket.service.ts:236-247 | with both cities given and both folded names among the Turkish-folded stops, each end is the first stop bearing that name; in every other case (a city missing, empty or not on the route) the range is the whole route, `0` to the last stop |
| TicketService.FreeSeatsBetween | ulusoy-back/src/modules/ticket/ticket.service.ts:249-256 | lists, ascending and once each, exactly the seats of `lo..hi` no active ticket holds in the range |
| TicketService.FreeSeats | ulusoy-back/src/modules/ticket/ticket.service.ts:249-256 | lists, ascending, exactly the bus's seats that no active ticket holds in the range |
| TicketService.GetAvailableSeats | ulusoy-back/src/modules/ticket/ticket.service.ts:216-257 | not found for a missing route; otherwise exactly the unblocked seats over the availability window, ascending |
| TicketService.FreeSeatsMatchConflictCheck | ulusoy-back/src/modules/ticket/ticket.service.ts:249-256 | a seat is listed free exactly when booking's conflict check finds nothing, so availability and booking agree |
| TicketService.CancelFreesSeat | ulusoy-back/src/modules/ticket/ticket.service.ts:359-365 | cancelling an active ticket turns its seat from taken into free over its own range |
| TicketService.PnrAlphabetChars | ulusoy-back/src/modules/ticket/ticket.service.ts:380 | the PNR alphabet has 36 characters, all in A-Z0-9 |
| TicketService.RandomPart | ulusoy-back/src/modules/ticket/ticket.service.ts:386-389 | five draws give five alphabet characters |
| TicketService.PnrOf | ulusoy-back/src/modules/ticket/ticket.service.ts:390 | every candidate is a well-formed PNR: `VV00` and five A-Z0-9 characters |
| TicketService.CheckBooking | ulusoy-back/src/modules/ticket/ticket.service.ts:47-127 | returns exactly `Decide`'s result: the guards run in source order and the first failing one decides the refusal |
| TicketService.TicketService.GeneratePnr | ulusoy-back/src/modules/ticket/ticket.service.ts:379-400 | the retry loop returns the first candidate no stored ticket uses, and it is well formed |
| TicketService.TicketService.Create | ulusoy-back/src/modules/ticket/ticket.service.ts:26-214 | a refused booking changes nothing and announces nothing; an accepted one appends `NewTicket` with a fresh PNR and announces it to the route's room; no double booking is kept |
| TicketService.TicketService.Record | ulusoy-back/src/modules/ticket/ticket.service.ts:135-211 | the insert and the announcement of an accepted booking |
| TicketService.TicketService.Update | ulusoy-back/src/modules/ticket/ticket.service.ts:326-340 | not found or forbidden (neither owner nor admin) change nothing; otherwise only seat, name, phone and gender are patched |
| TicketService.TicketService.Confirm | ulusoy-back/src/modules/ticket/ticket.service.ts:342-349 | the ticket becomes CONFIRMED and PAID whatever its status was; all else is kept |
| TicketService.TicketService.Suspend | ulusoy-back/src/modules/ticket/ticket.service.ts:351-357 | SUSPENDED with the time; the seat is released and no double booking is kept |
| TicketService.TicketService.Cancel | ulusoy-back/src/modules/ticket/ticket.service.ts:359-365 | CANCELLED with the time; the seat is released and no double booking is kept |
| TicketService.TicketService.ConfirmReserved | ulusoy-back/src/modules/ticket/ticket.service.ts:342-349 | corrected `confirm`: only a RESERVED ticket is confirmed, and no double booking is kept |
| TicketService.TicketService.UpdateChecked | ulusoy-back/src/modules/ticket/ticket.service.ts:326-340 | corrected `update`: a seat change onto a seat held over an overlapping range is refused, and no double booking is kept |
| TicketService.Patched | ulusoy-back/src/modules/ticket/ticket.service.ts:330-337 | the given fields are replaced and every other field (status, range, route, price, PNR) is kept |
| TicketService.ConfirmedTicket | ulusoy-back/src/modules/ticket/ticket.service.ts:345 | confirming sets CONFIRMED+PAID, makes the ticket active, and changes nothing else |
| TicketService.CheckedPatchKeepsNoDoubleBooking | ulusoy-back/src/modules/ticket/ticket.service.ts:326-340 | a patch that passes the seat-change check keeps the invariant |
| TicketService.ConfirmReactivatesResoldSeat | ulusoy-back/src/modules/ticket/ticket.service.ts:342-349 | a store without double booking gets one when a cancelled ticket whose seat was resold is confirmed |
| TicketService.ConfirmReservedKeepsNoDoubleBooking | ulusoy-back/src/modules/ticket/ticket.service.ts:342-349 | confirming a RESERVED ticket keeps the invariant |
| TicketService.UpdateMovesOntoTakenSeat | ulusoy-back/src/modules/ticket/ticket.service.ts:326-340 | a store without double booking gets one when a ticket is moved onto a seat held over the same range |
| Payments.LastFour | ulusoy-back/src/modules/payment/payment.service.ts:237-238 | `slice(-4)` is the last four characters, or the whole string when shorter |
| Payments.MockPayment | ulusoy-back/src/modules/payment/payment.service.ts:237-260 | last four digits 1111 means insufficient funds, 2222 means invalid card, anything else is approved |
| Payments.StripSpacesIdempotent | ulusoy-back/src/modules/payment/payment.service.ts:237 | stripping whitespace twice equals stripping once |
| Payments.MockPaymentDependsOnLastFour | ulusoy-back/src/modules/payment/payment.service.ts:237-260 | card numbers agreeing in their last four non-space characters get the same answer |
| Payments.MockPaymentIgnoresSpaces | ulusoy-back/src/modules/payment/payment.service.ts:237-260 | spacing a card number differently never changes the answer |
| Payments.FailureMessage | ulusoy-back/src/modules/payment/payment.service.ts:145 | a failed payment always has a message, the processor's own when it gave one |
| Payments.PaymentCheckPasses | ulusoy-back/src/modules/payment/payment.service.ts:54-74 | only the owner's RESERVED ticket reaches the card processor |
| Payments.RefundCheckPasses | ulusoy-back/src/modules/payment/payment.service.ts:372-391 | a refund proceeds exactly for a PAID ticket of a route not yet departed, asked for by its owner or an ADMIN |
| Payments.RefundedTicket | ulusoy-back/src/modules/payment/payment.service.ts:397-404 | a refunded ticket is CANCELLED, REFUNDED, stamped and inactive, and otherwise unchanged |
| Payments.SecondRefundRejected | ulusoy-back/src/modules/payment/payment.service.ts:380-382 | a refunded ticket can never be refunded again, by anyone, at any time |
| Payments.PaymentRecord | ulusoy-back/src/modules/payment/payment.service.ts:94-104 | the payment row carries the ticket's price in TRY, the mock provider, PAID and the transaction id |
| Payments.PaidEvent | ulusoy-back/src/modules/payment/payment.service.ts:108-122 | payment announces SEAT_CONFIRMED for the ticket's seat, without a range |
| Payments.PaymentHistory | ulusoy-back/src/modules/payment/payment.service.ts:313-362 | the history lists exactly the visible tickets' entries: PAID ones, only the caller's own unless ADMIN or AGENT |
| Payments.HistoryOnlyPaidOwn | ulusoy-back/src/modules/payment/payment.service.ts:317-321 | every entry is PAID in TRY, and a customer sees only their own tickets |
| Payments.TicketAt | ulusoy-back/src/modules/payment/payment.service.ts:42-58 | the ticket lookup finds the stored ticket with that id, or nothing exactly when none exists |
| Payments.PaymentService.constructor | ulusoy-back/src/modules/payment/payment.service.ts:21 | the service works on the given database and gateway |
| Payments.PaymentService.ProcessPayment | ulusoy-back/src/modules/payment/payment.service.ts:40-149 | a failed guard and a declined card change nothing and announce nothing; an approved card confirms and pays the ticket, records the payment and announces it; no double booking is kept |
| Payments.PaymentService.Settle | ulusoy-back/src/modules/payment/payment.service.ts:85-140 | the approved branch: the ticket is CONFIRMED+PAID, one payment is appended, one announcement is sent, the invariant is kept |
| Payments.PaymentService.RefundPayment | ulusoy-back/src/modules/payment/payment.service.ts:364-414 | a failed guard changes nothing; otherwise the ticket becomes `RefundedTicket` and the whole price is reported; the invariant is kept |
| Routes.Numbered | ulusoy-back/src/modules/route/route.service.ts:30-34 | each station row keeps its name and time, and its order is its position |
| Routes.PriceRows | ulusoy-back/src/modules/route/route.service.ts:444-450 | each override keeps its cities and price; `isSold` defaults to true |
| Routes.OrEmpty | ulusoy-back/src/modules/route/route.service.ts:34 | an absent list is empty, a given one is kept |
| Routes.NewRoute | ulusoy-back/src/modules/route/route.service.ts:36-56 | a created route carries the request's fields, the bus, is active, and has numbered stations and price rows |
| Routes.NewRouteStops | ulusoy-back/src/modules/route/route.service.ts:30-34 | a created route's stops are the origin, the given stations in order, then the destination |
| Routes.Updated | ulusoy-back/src/modules/route/route.service.ts:429-458 | each given field is overwritten, and the station and price lists are replaced wholesale when given |
| Routes.WithListsReplaced | ulusoy-back/src/modules/route/route.service.ts:431-452 | the state after the list rewrites, before the route row is written |
| Routes.StationUpdateShiftsStops | ulusoy-back/src/modules/route/route.service.ts:431-440 | inserting a station moves the stop that an existing stop index names |
| Routes.OrDefault | ulusoy-back/src/modules/route/route.service.ts:77-78 | an absent or zero page or limit takes the default |
| Routes.CeilDiv | ulusoy-back/src/modules/route/route.service.ts:128 | `Math.ceil(total / limit)` is the least page count that covers every row |
| Routes.OnePageAtMost | ulusoy-back/src/modules/route/route.service.ts:375 | no more rows than one page holds gives at most one page |
| Routes.PageOf | ulusoy-back/src/modules/route/route.service.ts:108-112 | `skip`/`take` gives the contiguous slice of at most `limit` rows starting at `(page-1)*limit`, empty past the end |
| Routes.PageOfSorted | ulusoy-back/src/modules/route/route.service.ts:108-112 | a page of a sorted list holds only its rows and is sorted |
| Routes.PagesCoverRows | ulusoy-back/src/modules/route/route.service.ts:77-79 | every row lies on exactly the page `k / limit + 1`, which is within `totalPages` |
| Routes.DepartsNoLaterIsTotalPreorder | ulusoy-back/src/modules/route/route.service.ts:108-110 | ordering by departure is a total preorder, so sorting by it is defined |
| Routes.FindAll | ulusoy-back/src/modules/route/route.service.ts:71-131 | the listing returns the default page and limit, counts every matching route, computes `totalPages` by ceiling, and its rows are exactly the page that `skip = (page - 1) * limit`, `take = limit` cuts from the matching routes sorted by departure |
| Routes.EveryMatchingRouteListed | ulusoy-back/src/modules/route/route.service.ts:77-79 | paging through the listing reaches every matching route: each one is on some page from 1 to `totalPages` |
| Routes.StopsAfter | ulusoy-back/src/modules/route/route.service.ts:495-502 | the stops after the city's first match (trimmed, Turkish folded), or none when the city is not on the route |
| Routes.Reachable | ulusoy-back/src/modules/route/route.service.ts:494-503 | a stop is a destination exactly when it follows the city on some route serving it |
| Routes.ReachableStep | ulusoy-back/src/modules/route/route.service.ts:494-503 | each route adds exactly the stops it contributes |
| Routes.AddNew | ulusoy-back/src/modules/route/route.service.ts:499-501 | adding to the set keeps it duplicate-free and gives the union |
| Routes.GetDestinations | ulusoy-back/src/modules/route/route.service.ts:478-506 | the result lists every reachable stop exactly once, sorted |
| Routes.AddRouteStops | ulusoy-back/src/modules/route/route.service.ts:494-503 | one pass of the route loop adds a serving route's stops and keeps no duplicates |
| Routes.SortedDistinct | ulusoy-back/src/modules/route/route.service.ts:505 | sorting a duplicate-free list keeps it duplicate-free, with the same elements |
| Routes.JsRem | ulusoy-back/src/modules/route/route.service.ts:515 | JavaScript's `%` takes the dividend's sign |
| Routes.CalculateDuration | ulusoy-back/src/modules/route/route.service.ts:512-517 | the hours are `Math.floor` of the difference (the difference lies in `[hours, hours + 1)` hours); the minutes lie in -60..59, are never negative for a forward difference, and never positive, with negative hours, for a backward one |
| Routes.DurationSplit | ulusoy-back/src/modules/route/route.service.ts:512-517 | for a forward difference, hours plus 0–59 minutes give the difference to the minute |
| Routes.DurationOneMinuteBack | ulusoy-back/src/modules/route/route.service.ts:512-517 | for a backward difference of one minute, the result is −1 h −1 min |
| Routes.RouteService.constructor | ulusoy-back/src/modules/route/route.service.ts:10 | the service works on the given database |
| Routes.RouteService.Create | ulusoy-back/src/modules/route/route.service.ts:12-69 | an unknown bus is refused, then an arrival not after departure; otherwise `NewRoute` is stored under the new id |
| Routes.RouteService.Update | ulusoy-back/src/modules/route/route.service.ts:409-459 | an unknown route is refused; an unknown bus is refused after the lists were rewritten; otherwise `Updated` is stored; tickets are untouched |
| Sorting.Filter | ulusoy-back/src/modules/route/route.service.ts:244 | `filter` never returns more elements than the input holds (which elements, and in what order, is stated by `FilterMembers` and `FilterIsFilter`) |
| Sorting.FilterMembers | ulusoy-back/src/modules/route/route.service.ts:244 | `filter` keeps exactly the elements that satisfy the predicate |
| Sorting.FilterIsFilter | ulusoy-back/src/modules/route/route.service.ts:244 | `filter` works piece by piece and keeps a single element exactly when it satisfies the predicate, so it keeps the satisfying elements with their order and multiplicity |
| Sorting.Insert | ulusoy-back/src/modules/route/route.service.ts:367 | insertion keeps a sorted list sorted and adds exactly the one element |
| Sorting.SortBy | ulusoy-back/src/modules/route/route.service.ts:367 | the comparator sort gives a sorted permutation of its input |
| Sorting.InsertStable | ulusoy-back/src/modules/route/route.service.ts:367 | inserting an element puts it before every element the comparator cannot tell apart from it |
| Sorting.SortByStable | ulusoy-back/src/modules/route/route.service.ts:367 | the sort is stable, as `Array.prototype.sort` is: elements the comparator cannot tell apart keep their input order |
| Sorting.StringLeIsTotalPreorder | ulusoy-back/src/modules/route/route.service.ts:505 | the string order used for destinations is total and transitive |
| RouteSearch.LocalMidnight | ulusoy-back/src/modules/route/route.service.ts:171-172 | `setHours(0,0,0,0)` is the local midnight at or before the time, less than a day before it |
| RouteSearch.DepartureThenPriceIsTotalPreorder | ulusoy-back/src/modules/route/route.service.ts:234-237 | departure-then-price ordering is a total preorder |
| RouteSearch.QueryPage | ulusoy-back/src/modules/route/route.service.ts:206-242 | the database returns exactly the page that `(page - 1) * limit` and `limit` cut from the routes matching the where clause, sorted by departure then price: at most `limit` matching routes in that order |
| RouteSearch.FindStation | ulusoy-back/src/modules/route/route.service.ts:247 | finds the first station whose folded name contains the folded city, or -1 when none does |
| RouteSearch.StationTimeOr | ulusoy-back/src/modules/route/route.service.ts:247-248 | the time of the first station naming the city; the fallback time when no station names it; also `ulusoy-back/src/modules/route/route.service.ts:329-339`: the passenger's departure and arrival times are found the same way |
| RouteSearch.FindSegmentPrice | ulusoy-back/src/modules/route/route.service.ts:270-273 | finds the first override whose cities contain both searched cities, or -1 when none does |
| RouteSearch.CustomerSeesOnlyOpenRoutes | ulusoy-back/src/modules/route/route.service.ts:251-266 | a customer only sees routes boarding at least 15 minutes ahead, within the searched day through 03:00 of the next |
| RouteSearch.ClosedOverrideHidesRoute | ulusoy-back/src/modules/route/route.service.ts:270-287 | with both cities given, a matching override that is not on sale hides the route, even when its end points match |
| RouteSearch.SearchWindow | ulusoy-back/src/modules/route/route.service.ts:295-305 | with both cities, each end of the range is the first stop whose folded name is the folded city; an unresolved boarding end falls back to the origin and an unresolved alighting end to the destination, each on its own; without both cities the range is the whole route |
| RouteSearch.Occupied | ulusoy-back/src/modules/route/route.service.ts:317-324 | the occupied set is exactly the seats of active tickets counted against the search range |
| RouteSearch.Details | ulusoy-back/src/modules/route/route.service.ts:292-364 | a hit reports its route and main departure; the passenger's departure (arrival) is the time of the first station whose Turkish-folded name contains the searched origin (destination), else the route's own; the duration runs between those times; the price is the first matching override's with both cities, else the base price; the seat count is the bus size minus the distinct occupied seats |
| RouteSearch.OccupiedIsBlocked | ulusoy-back/src/modules/route/route.service.ts:317-324 | with both cities, a seat is occupied exactly when an active ticket blocks it over the search range |
| RouteSearch.SearchWindowMatchesAvailability | ulusoy-back/src/modules/route/route.service.ts:298-305 | when both cities resolve, search and the seat map count over the same range |
| RouteSearch.SearchWindowDiffersWhenOneCityMissing | ulusoy-back/src/modules/route/route.service.ts:300-305 | when one city is missing, search keeps the resolved end (range 1–3) while the seat map takes the whole route (0–3) |
| RouteSearch.AvailableSeatsMatchSeatMap | ulusoy-back/src/modules/route/route.service.ts:359 | the count a search shows equals the length of the seat map's free list over the same range |
| RouteSearch.UserDepartsNoLaterIsTotalPreorder | ulusoy-back/src/modules/route/route.service.ts:367 | ordering by the passenger's departure is a total preorder |
| RouteSearch.DetailAll | ulusoy-back/src/modules/route/route.service.ts:292-365 | the i-th hit is the i-th route's details, one per route |
| RouteSearch.Hits | ulusoy-back/src/modules/route/route.service.ts:244-367 | a route of the queried page becomes a hit if and only if it passes the in-memory filter: every hit is such a route with its details, every such route's details are a hit, and the hits are exactly the kept routes' details counted with multiplicity; hits are ordered by the passenger's departure, at most `limit` of them |
| RouteSearch.HitsKeepPageOrderOnTies | ulusoy-back/src/modules/route/route.service.ts:367 | the final sort is stable: hits with the same passenger departure stay in the database page's order |
| RouteSearch.Search | ulusoy-back/src/modules/route/route.service.ts:369-377 | the response carries the hits, the default page and limit, and counts derived from this page's hits |
| RouteSearch.SearchHasAtMostOnePage | ulusoy-back/src/modules/route/route.service.ts:372-375 | `totalPages` never exceeds one |
| Tracking.FindStationNamed | ulusoy-back/src/modules/tracking/tracking.service.ts:38 | finds the first station equal to the city ignoring case, or -1 when none is |
| Tracking.Boarding | ulusoy-back/src/modules/tracking/tracking.service.ts:36-41 | boarding is the departure at the origin, else a matching station's time, and absent exactly when the route does not pass the city |
| Tracking.Arrival | ulusoy-back/src/modules/tracking/tracking.service.ts:44-48 | arrival is the route's own when the destination matches or no station does |
| Tracking.Status | ulusoy-back/src/modules/tracking/tracking.service.ts:68-87 | not started before the main departure; afterwards, passed exactly when boarding is behind now, else on the way |
| Tracking.Track | ulusoy-back/src/modules/tracking/tracking.service.ts:34-101 | lists exactly the followable routes, each with its status |
| Tracking.TrackKeepsOrder | ulusoy-back/src/modules/tracking/tracking.service.ts:34-101 | `filter` and `map` keep their input's order: routes given in ascending departure are listed in ascending departure |
| Tracking.SearchRoutes | ulusoy-back/src/modules/tracking/tracking.service.ts:8-104 | lists exactly the query's routes (active, departed at most a day ago) that are followable, each with its status, in ascending departure order as the query's `orderBy` gives them |
| Tracking.NotPassingExcluded | ulusoy-back/src/modules/tracking/tracking.service.ts:36-41 | a route that does not pass the city is never listed |
| Tracking.FollowableMatchesCity | ulusoy-back/src/modules/tracking/tracking.service.ts:13-23 | the in-memory filter implies the query's city condition |
| Tracking.ListedStatus | ulusoy-back/src/modules/tracking/tracking.service.ts:52-87 | a listed bus's status puts boarding within three hours of now, on the matching side |
| Tracking.GetBusLocation | ulusoy-back/src/modules/tracking/tracking.service.ts:106-163 | nothing for an unknown route; the test fix when both test coordinates are set; otherwise not started before departure, arrived after arrival, speed zero in both |
| Tracking.MovingSpeed | ulusoy-back/src/modules/tracking/tracking.service.ts:159 | a moving bus reports 85 to 94 km/h |
| Tracking.NotStartedAgrees | ulusoy-back/src/modules/tracking/tracking.service.ts:72-87 | the list's "not started" agrees with the location's |
| Tracking.ArrivedNotListed | ulusoy-back/src/modules/tracking/tracking.service.ts:44-58 | a bus followed to its own destination is never listed after arrival |
| SeatMap.SeatsPerRow | ulusoy-front/components/bus/BusLayout.tsx:164 | three seats per row for 2+1, four otherwise |
| SeatMap.RightSeats | ulusoy-front/components/bus/BusLayout.tsx:170-178 | two seats left of the aisle, the rest right of it |
| SeatMap.RowCountBounds | ulusoy-front/components/bus/BusLayout.tsx:164 | `Math.ceil(seatCount / perRow)` rows are just enough for every seat, and no rows for no seats; also `ulusoy-admin/src/app/components/BusLayout.tsx:161`: the admin map computes its rows the same way |
| SeatMap.Run | ulusoy-front/components/bus/BusLayout.tsx:171 | up to `k` consecutive seats, never past the last |
| SeatMap.RenderLayout | ulusoy-front/components/bus/BusLayout.tsx:163-182 | the grid built by the nested loop is the specified layout; also `ulusoy-admin/src/app/components/BusLayout.tsx:160-179`: the admin grid is built by the same loop |
| SeatMap.BuildRows | ulusoy-front/components/bus/BusLayout.tsx:168-180 | the outer loop builds `n` rows from seat 1 |
| SeatMap.BuildRow | ulusoy-front/components/bus/BusLayout.tsx:169-178 | one row, and the next seat is right after it |
| SeatMap.PushSeats | ulusoy-front/components/bus/BusLayout.tsx:171 | the guarded push loop emits a run of consecutive seats |
| SeatMap.RowSeatCount | ulusoy-front/components/bus/BusLayout.tsx:169-178 | a row holds consecutive seats, a row's worth or what is left |
| SeatMap.RowShape | ulusoy-front/components/bus/BusLayout.tsx:170-178 | every row has exactly one aisle, after at most two seats, and holds at most a row's worth; also `ulusoy-admin/src/app/components/BusLayout.tsx:167-174`: the admin rows have the same shape |
| SeatMap.GridCovers | ulusoy-front/components/bus/BusLayout.tsx:166-181 | each row continues exactly where the previous row stopped |
| SeatMap.GridLength | ulusoy-front/components/bus/BusLayout.tsx:168-180 | the loop emits one row per iteration |
| SeatMap.LayoutCoversAllSeats | ulusoy-front/components/bus/BusLayout.tsx:163-182 | the grid lists seats 1 to `seatCount`, each once and in order, in the computed number of rows; also `ulusoy-admin/src/app/components/BusLayout.tsx:163-178`: the same holds for the admin grid |
| SeatMap.FindPick | ulusoy-front/components/bus/BusLayout.tsx:139 | finds the first pick for the seat, or -1 exactly when there is none |
| SeatMap.StatusOf | ulusoy-front/components/bus/BusLayout.tsx:139-144 | selected beats sold, sold takes the first occupant's gender, and everything else is available; the grid layout (lines 207-211) and the admin map (`ulusoy-admin/src/app/components/BusLayout.tsx:136-141` and `195-199`) use the same rule |
| SeatMap.HandleClick | ulusoy-front/components/bus/BusLayout.tsx:27-33 | an available seat opens the gender picker, a selected one is released, and a disabled one does nothing; also `ulusoy-admin/src/app/components/BusLayout.tsx:18-24`: the admin map clicks the same way |
| SeatMap.OccupiedSeatInert | ulusoy-front/components/bus/BusLayout.tsx:40 | a seat someone else holds is disabled and clicking it has no effect; also `ulusoy-admin/src/app/components/BusLayout.tsx:48`: the same holds on the admin map |
| SeatMap.RenderCell | ulusoy-front/components/bus/BusLayout.tsx:124-155 | a cell is a seat button exactly when it is a seat cell, with its number and status; a door is marked |
| SeatMap.RenderCustom | ulusoy-front/components/bus/BusLayout.tsx:124-156 | one rendered cell per layout cell, in order |
| SeatMap.CustomSeatsAreSeatCells | ulusoy-front/components/bus/BusLayout.tsx:124-137 | a custom layout's seat buttons are exactly its seat cells; also `ulusoy-admin/src/app/components/BusLayout.tsx:121-134`: the same holds on the admin map |
| SeatMap.ChooseView | ulusoy-front/components/bus/BusLayout.tsx:96 | a saved layout with a seat list is drawn cell by cell (seat buttons exactly on seat cells), otherwise the generated grid of the seat count and layout type; also `ulusoy-admin/src/app/components/BusLayout.tsx:103` |
| RouteCard.DisplayCity | ulusoy-front/components/RouteCard.tsx:54-55 | the searched city when given, else the route's own |
| RouteCard.SoldUpTo | ulusoy-front/components/RouteCard.tsx:71-77 | every seat it lists is within range, not in the availability list, and drawn with the parity gender |
| RouteCard.SoldUpToComplete | ulusoy-front/components/RouteCard.tsx:71-75 | every seat in range missing from the list is listed as sold |
| RouteCard.OccupiedSeats | ulusoy-front/components/RouteCard.tsx:71-77 | the sold seats are exactly the bus's seats missing from the availability list, and none until the list arrives |
| RouteCard.AvailableIffListed | ulusoy-front/components/RouteCard.tsx:71-77 | a seat is drawn available exactly when the availability list names it; otherwise it is drawn sold, with even seats female |
| RouteCard.AfterSelect | ulusoy-front/components/RouteCard.tsx:79-85 | selecting appends the seat unless five are already chosen, so the cart never exceeds five |
| RouteCard.Without | ulusoy-front/components/RouteCard.tsx:87-89 | deselecting removes every pick of the seat and keeps the rest |
| RouteCard.WithoutConcat | ulusoy-front/components/RouteCard.tsx:88 | removal distributes over concatenation |
| RouteCard.WithoutAbsent | ulusoy-front/components/RouteCard.tsx:87-89 | deselecting a seat not in the cart changes nothing |
| RouteCard.SelectThenDeselect | ulusoy-front/components/RouteCard.tsx:79-89 | selecting a free seat shows it selected, the next click releases it, and the cart is as before |
| RouteCard.CartTotal | ulusoy-front/components/RouteCard.tsx:376 | the total is between 0 and five times the price |
| RouteCard.SeatCart.constructor | ulusoy-front/components/RouteCard.tsx:57 | the cart starts empty |
| RouteCard.SeatCart.Select | ulusoy-front/components/RouteCard.tsx:79-85 | the cart becomes `AfterSelect`; the alert shows exactly when five are already chosen |
| RouteCard.SeatCart.Deselect | ulusoy-front/components/RouteCard.tsx:87-89 | the cart becomes `Without` the seat |
| RouteCard.SeatCart.Continue | ulusoy-front/components/RouteCard.tsx:91-99 | with seats chosen, the seats, route, price and cities are stored and the page navigates; with none, nothing happens |
| RouteCard.ContinueThenCheckout | ulusoy-front/components/RouteCard.tsx:91-99 | the checkout loaded from what the cart stored has one form per seat and the same total |
| RouteCard.StartTime | ulusoy-front/components/RouteCard.tsx:101 | the main departure when known, else the departure |
| RouteCard.FullStopList | ulusoy-front/components/RouteCard.tsx:103-105 | the stop list is the origin, the timed stations (or bare names, or nothing), then the destination |
| RouteCard.FindStop | ulusoy-front/components/RouteCard.tsx:232-233 | finds the first stop with exactly that name, or -1 when none has it |
| RouteCard.Marks | ulusoy-front/components/RouteCard.tsx:232-239 | one mark per stop; a start (end) mark is on a stop named after the boarding (alighting) city; a stop on the path is highlighted, and a highlighted stop off the path is the end |
| RouteCard.MarksFollowLeg | ulusoy-front/components/RouteCard.tsx:232-239 | with both cities on the list, a stop is highlighted if and only if the boarding stop is at or before it and the alighting stop at or after it, is on the path if and only if the alighting stop is also strictly after it, and is the start (end) if and only if it is the first stop with the boarding (alighting) name; a reversed leg highlights nothing |
| RouteCard.UnknownBoardingHighlightsPrefix | ulusoy-front/components/RouteCard.tsx:232-239 | an unknown boarding city highlights every stop up to the alighting stop |
| Checkout.OrEmpty | ulusoy-front/app/odeme/page.tsx:66-67 | a stored city that JavaScript treats as true is kept, else the empty string |
| Checkout.InitialPassengers | ulusoy-front/app/odeme/page.tsx:70-77 | one blank form per stored seat, carrying its number and gender |
| Checkout.InitialPassengersSanitized | ulusoy-front/app/odeme/page.tsx:70-77 | fresh forms hold only digits (none) and are not yet valid |
| Checkout.SanitizeDigits | ulusoy-front/app/odeme/page.tsx:145-148 | the first `n` of the input's digits in order (all of them when fewer), the digits being given by `KeepDigits` and `KeepDigitsIsFilter` |
| Checkout.SanitizeIdempotent | ulusoy-front/app/odeme/page.tsx:145-148 | sanitizing a sanitized value leaves it unchanged |
| Checkout.SanitizedInputValid | ulusoy-front/app/odeme/page.tsx:20-22 | a sanitized identity number (phone) passes its rule exactly when the typed text held at least 11 (10) digits |
| Checkout.ExpiryMonthInRange | ulusoy-front/app/odeme/page.tsx:26 | an accepted expiry names a month from 1 to 12 |
| Checkout.ExpiryRoundTrip | ulusoy-front/app/odeme/page.tsx:26 | every `MM/YY` is accepted and read back, with or without the slash, and every accepted five-character date is one |
| Checkout.CheckoutTotal | ulusoy-front/app/odeme/page.tsx:253 | the total is not negative for a non-negative price, 0 for no seats, and the price for one seat |
| Checkout.Requests | ulusoy-front/app/odeme/page.tsx:88-99 | one request per passenger, in order, with the route, cities, seat and name |
| Checkout.AcceptedFormPassesServer | ulusoy-front/app/odeme/page.tsx:16-28 | a form the page accepts yields requests the server's validation accepts, with the same seat, gender and digits |
| Checkout.CheckoutPage.constructor | ulusoy-front/app/odeme/page.tsx:32-36 | the page starts with empty state |
| Checkout.CheckoutPage.Load | ulusoy-front/app/odeme/page.tsx:54-81 | complete stored data is loaded with one blank form per seat; incomplete data redirects home and changes nothing else |
| Checkout.CheckoutPage.ShowsForm | ulusoy-front/app/odeme/page.tsx:112 | the form is drawn exactly when seats are loaded |
| Checkout.CheckoutPage.TypeTc | ulusoy-front/app/odeme/page.tsx:145-148 | only that passenger's identity number changes, to the sanitized input, and inputs stay digit-only |
| Checkout.CheckoutPage.TypePhone | ulusoy-front/app/odeme/page.tsx:178-181 | only that passenger's phone changes, to the sanitized input, and inputs stay digit-only |
| Checkout.CheckoutPage.Total | ulusoy-front/app/odeme/page.tsx:253 | the summary shows `CheckoutTotal` of the loaded seats and price |
| Slug.Transliterate | ulusoy-front/components/SearchWidget.tsx:67-74 | each character is mapped through the Turkish letter table and the length is kept |
| Slug.Dashify | ulusoy-front/components/SearchWidget.tsx:76 | allowed characters are kept and every other character becomes a dash |
| Slug.Collapse | ulusoy-front/components/SearchWidget.tsx:77 | no two dashes remain adjacent; only dashes are dropped, so every other character survives in order; a dash remains exactly when the input had one; the first character is kept |
| Slug.TrimDashes | ulusoy-front/components/SearchWidget.tsx:78 | the result is one slice of the input at most two characters shorter; an end that is not a dash is kept; after collapsing, no dash remains at either end |
| Slug.Slugify | ulusoy-front/components/SearchWidget.tsx:66-79 | the result is a slug: only `[a-z0-9-]`, no double dash, no dash at either end; also `ulusoy-back/prisma/seed.ts:9-22`: the seed script's slugify is the same pipeline |
| Slug.SlugUnchanged | ulusoy-front/components/SearchWidget.tsx:66-79 | a slug passes through unchanged |
| Slug.SlugifyIdempotent | ulusoy-front/components/SearchWidget.tsx:66-79 | slugifying twice equals slugifying once; also `ulusoy-back/prisma/seed.ts:9-22`: the same holds for the seed's slugs |
| Slug.TurkishLetters | ulusoy-front/components/SearchWidget.tsx:67-73 | each Turkish letter and `I` slugify to their plain lower-case letter; also `ulusoy-back/prisma/seed.ts:10-13`: the seed's letter table maps the same way |
| Slug.SearchUrl | ulusoy-front/components/SearchWidget.tsx:81-86 | no navigation when a city or the date is empty; otherwise `/seferler/<from>/<to>/<date>` |
| Slug.UrlRoundTrip | ulusoy-front/components/SearchWidget.tsx:84 | both slugs and the date can be read back from the URL |
| Slug.NoSlashInSlug | ulusoy-front/components/SearchWidget.tsx:76-78 | a slug holds no `/` |
| Slug.SearchWidget.constructor | ulusoy-front/components/SearchWidget.tsx:23-25 | the given values are used, else Trabzon, Ankara and today |
| Slug.SearchWidget.Swap | ulusoy-front/components/SearchWidget.tsx:88-92 | the two cities are exchanged |
| Slug.SearchWidget.Search | ulusoy-front/components/SearchWidget.tsx:81-86 | navigates to `SearchUrl` of the current state |
| Slug.SearchWidget.SetDateAndSearch | ulusoy-front/components/SearchWidget.tsx:94-104 | the date is set and the search uses it immediately |
| Slug.SwappedUrl | ulusoy-front/components/SearchWidget.tsx:81-92 | swapping then searching reaches the reverse trip's URL |
| Slug.StationTypeOf | ulusoy-back/prisma/seed.ts:33-37 | as written: a rest facility exactly when the locale-independent upper-cased name contains `TESİS`, `PARK` or ` DT` |
| Slug.StationTypeOfTr | ulusoy-back/prisma/seed.ts:33-37 | corrected: the same test after Turkish upper-casing |
| Slug.LowerCaseFacilityRecognised | ulusoy-back/prisma/seed.ts:34-35 | with Turkish upper-casing, a name containing `tesis`, `park` or ` dt` is a rest facility |
| Slug.MixedCaseFacilityMissed | ulusoy-back/prisma/seed.ts:34-35 | as written, "Tesis" is classified as a city; the corrected test calls it a rest facility |

## Left out

- Suspended tickets: a SUSPENDED ticket does not block its seat, because the code counts only RESERVED and CONFIRMED tickets as holding one; the model follows it.
- Concurrency: the check-then-insert of a booking is not atomic in the source. Each operation is modelled as one atomic step.
- Transactions: the route update's list rewrites and the route write are not a transaction. The model keeps that order (`Routes.RouteService.Update`).
- Stop indices after a station update: existing tickets keep stop indices that then name other stops (`Routes.StationUpdateShiftsStops`). Re-indexing is not modelled because the source does none.
- Identifiers: ticket ids are natural numbers from a counter, and route ids and transaction ids are parameters; the source generates uuids. PNR draws, the tracking speed jitter, the clock and the time zone offset are parameters.
- Payments.PaymentHistory: keeps store order; the source orders by `updatedAt` descending, which the model does not carry.
- Payments.PaymentService.GetPaymentHistory: has no contract of its own; it returns `PaymentHistory` of the store.
- TicketService.Decide and TicketService.DecideSegment (ulusoy-back/src/modules/ticket/ticket.service.ts:26-128): have no contract of their own. They are the booking guards in order; `DecideAccepts`, `DecidePrice`, `GuardsPassAccepted` and `ClosedSegmentRefused` state what they guarantee, and `CheckBooking` is the step-by-step method proved equal to them.
- RouteSearch.WhereMatches (ulusoy-back/src/modules/route/route.service.ts:138-204): has no contract of its own. It is the search query's `where` clause; `QueryPage` states the page it selects.
- RouteSearch.CheckTime and RouteSearch.KeepRoute (ulusoy-back/src/modules/route/route.service.ts:244-288): have no contract of their own. They are the in-memory filter; `CustomerSeesOnlyOpenRoutes`, `ClosedOverrideHidesRoute` and `Hits` state what it keeps.
- Payments.PaymentCheck and Payments.RefundCheck (ulusoy-back/src/modules/payment/payment.service.ts:54-74 and 372-391): have no contract of their own. They are the guard chains; `PaymentCheckPasses` and `RefundCheckPasses` state exactly when they pass.
- Tracking.Followable (ulusoy-back/src/modules/tracking/tracking.service.ts:34-61): has no contract of its own. `Track`, `NotPassingExcluded`, `FollowableMatchesCity` and `ListedStatus` state what it admits.
- SeatMap.RowCount, SeatMap.Row, SeatMap.Grid and SeatMap.Layout (ulusoy-front/components/bus/BusLayout.tsx:164-182): have no contract of their own. `RowCountBounds`, `RowShape`, `GridCovers`, `GridLength` and `LayoutCoversAllSeats` state their shape, and `RenderLayout` is the loop proved equal to `Layout`.
- Checkout.CheckoutTotal: the contract states the sign and the zero- and one-seat cases, not the product.
- RouteCard.CartTotal: the contract states bounds only, not the product.
- Tracking.Arrival: the contract does not state which station time is used when an intermediate station matches the destination.
- Domain.FoldAll and Domain.FoldAllTr: their own contracts state only the length. The per-entry content is in `FoldAllAt` and `FoldAllTrAt`.
- Sorting: `localeCompare('tr')` is approximated by code-point order (`Sorting.StringLe`).
- Text.IsSpace: covers ASCII whitespace and the no-break space only. JavaScript's `trim()` and `\s` also match U+1680, U+2000 to U+200A, U+2028, U+2029, U+202F, U+205F, U+3000 and U+FEFF; strings holding those are trimmed and stripped less than in the source.
- Prices: prices are integers. The source declares them as JavaScript numbers and parses them with `parseFloat`, so fractional prices exist there; sums and products of prices are therefore exact here, and floating-point rounding is not modelled.
- Case folding: `Text.Lower`, `LowerTr`, `Upper` and `UpperTr` cover ASCII and the Turkish letters, not all of Unicode. The database's case-insensitive matching is modelled by `Lower`.
- The route type filter, captain and driver names, rest stops, `dateInfo` and date formatting in search results are not modelled.
- Tracking: the status label, the plate, coordinates and the interpolation of the bus position (floating point) are not modelled.
- Tracking window: the three-hour window is used as written, although a nearby comment speaks of 48 hours.
- Routes.CalculateDuration: negative durations are reachable: `update` writes departure and arrival times without checking their order, and station times are never ordered, so search can pass an arrival before the departure. The model reproduces their rounding as written (`Math.floor` on both parts, so one minute back reads as -1 h -1 min, `DurationOneMinuteBack`) and does not correct it.
- The iyzico provider, the artificial payment delay and transaction id generation are not modelled. Only the mock provider is.
- Not modelled: the gateway's `handleGetSeatAvailability` and `broadcast`, logging, HTTP and socket I/O, and the front end's fetches of stations, destinations and availability.
- Browser storage is modelled as already parsed values.
- Seat counts: a negative seat count yields no seats, matching `Array.from` with a negative length.
- Ticket `findAll`, `search`, `findOne` (beyond the id lookup `Domain.FindTicket`), `findByPNR`, `getUserTickets` and `getStats`; route `findOne` and `remove`; and the stubbed route methods are not modelled. They are plain reads with no rule beyond the database query.
- The seed script's upsert loop and data are not modelled; only its slugify and station classification are.

## Findings

| source | as written | input that shows it | evidently intended | confidence | as-written member | corrected member |
|---|---|---|---|---|---|---|
| ulusoy-back/src/modules/ticket/ticket.service.ts:342-349 | `confirm` sets CONFIRMED and PAID whatever the ticket's status | seat 5 sold A→C, cancelled, resold A→C to someone else; confirming the cancelled ticket makes two active tickets on seat 5 | only a RESERVED ticket is confirmed, so the invariant holds | not executed | TicketService.ConfirmReactivatesResoldSeat | TicketService.TicketService.ConfirmReserved, TicketService.ConfirmReservedKeepsNoDoubleBooking |
| ulusoy-back/src/modules/ticket/ticket.service.ts:326-340 | `update` writes a new seat number without a conflict check | seat 5 held A→C by one ticket, seat 6 A→C by another; patching the second to seat 5 double-books it | the seat change is checked as a booking would be | not executed | TicketService.UpdateMovesOntoTakenSeat | TicketService.TicketService.UpdateChecked, TicketService.CheckedPatchKeepsNoDoubleBooking |
| ulusoy-back/prisma/seed.ts:33-37 | `toUpperCase()` turns "Tesis" into "TESIS" with a plain `I`, which never contains the dotted `TESİS` the test looks for | the station name "Tesis" | names containing "tesis" in any case are rest facilities | not executed; the seed names may already be upper case | Slug.MixedCaseFacilityMissed, Slug.StationTypeOf | Slug.StationTypeOfTr, Slug.LowerCaseFacilityRecognised |
