/**
 * The real-time seat-update gateway: a registry from route id to the set of subscribed
 * client ids, changed by subscribe, unsubscribe and disconnect, and the seat-update
 * events addressed to the room of one route. Delivery is recorded as a log entry naming
 * the room and the clients registered for that route when the event was emitted.
 */
module Gateway {
  import opened Wrappers
  import opened Domain

  datatype SeatUpdateEventType = SeatReserved | SeatConfirmed | SeatSuspended | SeatCancelled | SeatAvailable

  datatype SeatUpdateMetadata = SeatUpdateMetadata(
    fromCity: Option<string>,
    toCity: Option<string>,
    price: Option<int>,
    gender: Option<Gender>)

  datatype SeatUpdatePayload = SeatUpdatePayload(
    routeId: string,
    seatNumber: int,
    eventType: SeatUpdateEventType,
    ticketId: Option<nat>,
    pnrNumber: Option<string>,
    fromStopIndex: Option<int>,
    toStopIndex: Option<int>,
    timestamp: int,
    metadata: Option<SeatUpdateMetadata>)

  /** What the gateway emits back to the client that sent a subscribe or unsubscribe message. */
  datatype Reply = ErrorReply(message: string) | SubscribedReply(routeId: string) | UnsubscribedReply(routeId: string)

  /** One `seat_update` emitted to a room, with the clients registered for it at that moment. */
  datatype Delivery = Delivery(room: string, payload: SeatUpdatePayload, recipients: set<string>)

  datatype ConnectionStats = ConnectionStats(totalRoutes: nat, routeDetails: map<string, nat>)

  const RouteIdRequired: string := "Route ID is required"

  /** The socket.io room of a route. */
  function RoomOf(routeId: string): (room: string)
    ensures |room| == |routeId| + 6 && room[..6] == "route:" && room[6..] == routeId
  {
    "route:" + routeId
  }

  /** Distinct routes have distinct rooms, so an update never reaches another route's room. */
  lemma RoomOfInjective(a: string, b: string)
    ensures RoomOf(a) == RoomOf(b) <==> a == b
  {
    if RoomOf(a) == RoomOf(b) {
      assert a == RoomOf(a)[6..] && b == RoomOf(b)[6..];
    }
  }

  /** The registry invariant: no route maps to an empty set. */
  predicate NoEmptySets(m: map<string, set<string>>) {
    forall r :: r in m ==> m[r] != {}
  }

  /** The registry after `client` subscribes to `routeId`. */
  function WithSubscriber(m: map<string, set<string>>, routeId: string, client: string): (r: map<string, set<string>>)
    ensures r.Keys == m.Keys + {routeId}
    ensures client in r[routeId]
    ensures forall c :: c in r[routeId] <==> c == client || (routeId in m && c in m[routeId])
    ensures forall k :: k in m && k != routeId ==> r[k] == m[k]
    ensures NoEmptySets(m) ==> NoEmptySets(r)
  {
    m[routeId := (if routeId in m then m[routeId] else {}) + {client}]
  }

  /** Subscribing twice is the same as subscribing once. */
  lemma SubscribeIdempotent(m: map<string, set<string>>, routeId: string, client: string)
    ensures WithSubscriber(WithSubscriber(m, routeId, client), routeId, client) == WithSubscriber(m, routeId, client)
  {
    var once := WithSubscriber(m, routeId, client);
    assert once[routeId] + {client} == once[routeId];
  }

  /** The registry after `client` unsubscribes from `routeId`. */
  function WithoutSubscriber(m: map<string, set<string>>, routeId: string, client: string): (r: map<string, set<string>>)
    ensures routeId !in m ==> r == m
    ensures routeId in r ==> client !in r[routeId] && forall c :: c in r[routeId] <==> c in m[routeId] && c != client
    ensures routeId in m && routeId !in r ==> m[routeId] <= {client}
    ensures r.Keys <= m.Keys && forall k :: k in m && k != routeId ==> k in r && r[k] == m[k]
    ensures NoEmptySets(m) ==> NoEmptySets(r)
  {
    if routeId in m then
      var rest := m[routeId] - {client};
      if rest == {} then m - {routeId} else m[routeId := rest]
    else m
  }

  /**
   * The registry after `client` disconnects, with only the routes in `done` visited so far:
   * a visited route loses `client` and disappears when that leaves it empty.
   */
  function DisconnectedOn(m: map<string, set<string>>, client: string, done: set<string>): map<string, set<string>> {
    map r | r in m && !(r in done && m[r] == {client}) :: if r in done then m[r] - {client} else m[r]
  }

  /** Visiting one more route removes `client` from it, and the route too when nothing else is left. */
  lemma DisconnectedOnStep(m: map<string, set<string>>, client: string, done: set<string>, routeId: string)
    requires routeId in m && routeId !in done
    ensures var cur := DisconnectedOn(m, client, done);
      var rest := m[routeId] - {client};
      DisconnectedOn(m, client, done + {routeId}) ==
        if client !in m[routeId] then cur
        else if rest == {} then cur - {routeId}
        else cur[routeId := rest]
  {
    var cur := DisconnectedOn(m, client, done);
    var next := DisconnectedOn(m, client, done + {routeId});
    var rest := m[routeId] - {client};
    var expected := if client !in m[routeId] then cur else if rest == {} then cur - {routeId} else cur[routeId := rest];
    assert rest == {} <==> m[routeId] <= {client};
    assert next.Keys == expected.Keys;
    assert forall r :: r in next ==> next[r] == expected[r];
  }

  /** The registry after `client` disconnects: the client is in no set, every other membership is kept. */
  function Disconnected(m: map<string, set<string>>, client: string): (r: map<string, set<string>>)
    ensures forall k :: k in r ==> client !in r[k]
    ensures forall k, c :: c != client ==> (k in r && c in r[k] <==> k in m && c in m[k])
    ensures NoEmptySets(m) ==> NoEmptySets(r)
  {
    var r := DisconnectedOn(m, client, m.Keys);
    assert forall k, c :: c != client && k in m && c in m[k] ==> k in r by {
      forall k, c | c != client && k in m && c in m[k] ensures k in r {
        assert m[k] != {client};
      }
    }
    r
  }

  class TicketGateway {
    var connectedClients: map<string, set<string>>
    var sent: seq<Delivery>

    ghost predicate Valid()
      reads this
    {
      NoEmptySets(connectedClients)
    }

    constructor()
      ensures Valid() && connectedClients == map[] && sent == []
    {
      connectedClients := map[];
      sent := [];
    }

    /** The clients an update for `routeId` reaches. */
    function Subscribers(routeId: string): set<string>
      reads this
    {
      if routeId in connectedClients then connectedClients[routeId] else {}
    }

    /** `subscribe_route`: a missing or empty route id is answered with an error and changes nothing. */
    method HandleSubscribeRoute(client: string, routeId: Option<string>) returns (reply: Reply)
      requires Valid()
      modifies this`connectedClients
      ensures Valid()
      ensures (routeId.None? || routeId.value == "") ==>
        reply == ErrorReply(RouteIdRequired) && connectedClients == old(connectedClients)
      ensures routeId.Some? && routeId.value != "" ==>
        reply == SubscribedReply(routeId.value) &&
        connectedClients == WithSubscriber(old(connectedClients), routeId.value, client)
    {
      if routeId.None? || routeId.value == "" {
        return ErrorReply(RouteIdRequired);
      }
      var id := routeId.value;
      if id !in connectedClients {
        connectedClients := connectedClients[id := {}];
      }
      connectedClients := connectedClients[id := connectedClients[id] + {client}];
      reply := SubscribedReply(id);
    }

    /** `unsubscribe_route`: same guard; an untracked route is left as it is. */
    method HandleUnsubscribeRoute(client: string, routeId: Option<string>) returns (reply: Reply)
      requires Valid()
      modifies this`connectedClients
      ensures Valid()
      ensures (routeId.None? || routeId.value == "") ==>
        reply == ErrorReply(RouteIdRequired) && connectedClients == old(connectedClients)
      ensures routeId.Some? && routeId.value != "" ==>
        reply == UnsubscribedReply(routeId.value) &&
        connectedClients == WithoutSubscriber(old(connectedClients), routeId.value, client)
    {
      if routeId.None? || routeId.value == "" {
        return ErrorReply(RouteIdRequired);
      }
      var id := routeId.value;
      if id in connectedClients {
        var clients := connectedClients[id] - {client};
        connectedClients := connectedClients[id := clients];
        if clients == {} {
          connectedClients := connectedClients - {id};
        }
      }
      reply := UnsubscribedReply(id);
    }

    /** `handleDisconnect`: visits every route and drops the client from it. */
    method HandleDisconnect(client: string)
      requires Valid()
      modifies this`connectedClients
      ensures Valid()
      ensures connectedClients == Disconnected(old(connectedClients), client)
    {
      ghost var m0 := connectedClients;
      ghost var done: set<string> := {};
      var pending := connectedClients.Keys;
      while pending != {}
        invariant pending !! done && pending + done == m0.Keys
        invariant connectedClients == DisconnectedOn(m0, client, done)
        decreases pending
      {
        var routeId :| routeId in pending;
        assert routeId in connectedClients && connectedClients[routeId] == m0[routeId];
        DisconnectedOnStep(m0, client, done, routeId);
        var clients := connectedClients[routeId];
        if client in clients {
          clients := clients - {client};
          if clients == {} {
            connectedClients := connectedClients - {routeId};
          } else {
            connectedClients := connectedClients[routeId := clients];
          }
        }
        pending := pending - {routeId};
        done := done + {routeId};
      }
    }

    /** `getConnectionStats`: one entry per tracked route, with its subscriber count. */
    function GetConnectionStats(): (s: ConnectionStats)
      reads this
      requires Valid()
      ensures s.totalRoutes == |connectedClients.Keys|
      ensures s.routeDetails.Keys == connectedClients.Keys
      ensures forall r :: r in s.routeDetails ==> s.routeDetails[r] == |connectedClients[r]| && s.routeDetails[r] >= 1
    {
      ConnectionStats(|connectedClients.Keys|, map r | r in connectedClients :: |connectedClients[r]|)
    }

    /** `emitSeatUpdate`: the payload goes, unchanged, to the room of its own route only. */
    method EmitSeatUpdate(payload: SeatUpdatePayload)
      modifies this`sent
      ensures sent == old(sent) + [Delivery(RoomOf(payload.routeId), payload, Subscribers(payload.routeId))]
    {
      sent := sent + [Delivery(RoomOf(payload.routeId), payload, Subscribers(payload.routeId))];
    }

    method EmitSeatReserved(payload: SeatUpdatePayload)
      modifies this`sent
      ensures sent == old(sent) + [Delivery(RoomOf(payload.routeId), payload, Subscribers(payload.routeId))]
    {
      EmitSeatUpdate(payload);
    }

    method EmitSeatConfirmed(payload: SeatUpdatePayload)
      modifies this`sent
      ensures sent == old(sent) + [Delivery(RoomOf(payload.routeId), payload, Subscribers(payload.routeId))]
    {
      EmitSeatUpdate(payload);
    }

    method EmitSeatSuspended(payload: SeatUpdatePayload)
      modifies this`sent
      ensures sent == old(sent) + [Delivery(RoomOf(payload.routeId), payload, Subscribers(payload.routeId))]
    {
      EmitSeatUpdate(payload);
    }

    method EmitSeatCancelled(payload: SeatUpdatePayload)
      modifies this`sent
      ensures sent == old(sent) + [Delivery(RoomOf(payload.routeId), payload, Subscribers(payload.routeId))]
    {
      EmitSeatUpdate(payload);
    }

    method EmitSeatAvailable(payload: SeatUpdatePayload)
      modifies this`sent
      ensures sent == old(sent) + [Delivery(RoomOf(payload.routeId), payload, Subscribers(payload.routeId))]
    {
      EmitSeatUpdate(payload);
    }
  }
}
