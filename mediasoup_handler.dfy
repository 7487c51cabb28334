/**
 * The `MediasoupHandler` class: the map from room id to room record and the
 * operations the signalling routes call on it. Engine work (creating routers,
 * transports, producers and consumers) is replaced by handles the caller supplies,
 * with ids the engine has not handed out before; `canConsume` is a function the
 * caller supplies; `close()` is recorded in `closed`.
 */
module Handler {
  import opened Results
  import opened Registry
  import opened Rooms

  /** The client's RTP capabilities, passed through to `canConsume` unread. */
  type RtpCapabilities = string

  /** The response of `transportProduce`. */
  datatype ProduceData = ProduceData(producerId: Id, producers: seq<ProducerInfo>)

  /** The `id` and `producerId` fields of the response of `transportConsume`. */
  datatype ConsumeParams = ConsumeParams(id: Id, producerId: Id)

  class MediasoupHandler {
    var worker: Option<Handle>
    var rooms: map<RoomId, Room>
    /** The engine objects whose `close()` the handler has called. */
    var closed: set<Id>
    /** The transport, producer and consumer ids the engine has handed out so far. */
    ghost var issued: set<Id>

    ghost predicate Valid()
      reads this
    {
      forall rid :: rid in rooms ==> RoomValid(rooms[rid], issued)
    }

    constructor()
      ensures Valid()
      ensures worker == None && rooms == map[] && closed == {} && issued == {}
    {
      worker := None;
      rooms := map[];
      closed := {};
      issued := {};
    }

    /** `makeWorker`, with the engine's new worker supplied; it returns that worker. */
    method MakeWorker(w: Handle) returns (r: Handle)
      requires Valid()
      modifies this`worker
      ensures Valid() && worker == Some(w) && r == w
    {
      worker := Some(w);
      r := w;
    }

    /**
     * `getOrCreateRouter`: reuse the room's router or, for a new room, take
     * `newRouter` from the engine; in both cases append `userId` to the peers.
     */
    method GetOrCreateRouter(roomId: RoomId, userId: UserId, newRouter: Handle) returns (r: Result<Handle, Error>)
      requires Valid()
      modifies this`rooms
      ensures Valid()
      ensures worker.None? ==> r == Err(WorkerMissing) && rooms == old(rooms)
      ensures worker.Some? && roomId in old(rooms) ==>
        var room := old(rooms)[roomId];
        r == Ok(room.router) && rooms == old(rooms)[roomId := room.(peers := room.peers + [userId])]
      ensures worker.Some? && roomId !in old(rooms) ==>
        r == Ok(newRouter) && rooms == old(rooms)[roomId := NewRoom(newRouter, userId)]
    {
      if worker.None? {
        return Err(WorkerMissing);
      }
      var router: Handle;
      var room: Room;
      if roomId in rooms {
        room := rooms[roomId];
        router := room.router;
      } else {
        router := newRouter;
        room := Room(router, [], None, None, None, None, []);
        assert room.peers + [userId] == [userId];
      }
      room := room.(peers := room.peers + [userId], router := router);
      rooms := rooms[roomId := room];
      return Ok(router);
    }

    /**
     * `createWebRtcTransport`: push `{userId, transport}` onto the chosen transport
     * registry, creating the list first if it is still undefined.
     */
    method CreateWebRtcTransport(roomId: RoomId, userId: UserId, transportType: Direction, transport: Handle)
      returns (r: Result<Handle, Error>)
      requires Valid() && transport.id !in issued
      modifies this`rooms, this`issued
      ensures Valid()
      ensures roomId !in old(rooms) ==> r == Err(RoomMissing) && rooms == old(rooms) && issued == old(issued)
      ensures roomId in old(rooms) ==>
        var room := old(rooms)[roomId];
        && r == Ok(transport)
        && issued == old(issued) + {transport.id}
        && rooms == old(rooms)[roomId := WithTransports(room, transportType,
                                           Some(Transports(room, transportType).GetOr([]) + [Entry(userId, transport)]))]
        && Find(Transports(rooms[roomId], transportType).value, transport.id, userId)
           == Some(|Transports(room, transportType).GetOr([])|)
    {
      if roomId !in rooms {
        return Err(RoomMissing);
      }
      var room := rooms[roomId];
      var registry := Transports(room, transportType).GetOr([]);
      var e := Entry(userId, transport);
      RegistryPushValid(Transports(room, transportType), e, issued);
      FindAppendedFresh(registry, e);
      room := WithTransports(room, transportType, Some(registry + [e]));
      forall rid | rid in rooms ensures RoomValid(rooms[rid], issued + {transport.id}) {
        RoomValidMonotone(rooms[rid], issued, {transport.id});
      }
      rooms := rooms[roomId := room];
      issued := issued + {transport.id};
      return Ok(transport);
    }

    /** `getTransport`: the caller's transport with the given id, from the chosen registry. */
    function GetTransport(roomId: RoomId, userId: UserId, serverTransportId: Id, transportType: Direction)
      : (r: Result<Handle, Error>)
      reads this
      ensures r.Ok? <==>
        && roomId in rooms
        && Transports(rooms[roomId], transportType).Some?
        && exists e :: e in Transports(rooms[roomId], transportType).value && Matches(e, serverTransportId, userId)
      ensures r.Ok? ==>
        r.value.id == serverTransportId && Entry(userId, r.value) in Transports(rooms[roomId], transportType).value
      ensures roomId !in rooms ==> r == Err(RoomMissing)
      ensures roomId in rooms && Transports(rooms[roomId], transportType).None? ==> r == Err(UndefinedRegistry)
      ensures roomId in rooms && Transports(rooms[roomId], transportType).Some? && r.Err? ==> r == Err(NoMatchingEntry)
    {
      if roomId !in rooms then Err(RoomMissing)
      else Lookup(Transports(rooms[roomId], transportType), serverTransportId, userId)
    }

    /**
     * `transportProduce`: find the caller's producer transport, list the other
     * peers' producers as they were, then push `{userId, producer}`.
     */
    method TransportProduce(roomId: RoomId, userId: UserId, serverTransportId: Id, producer: Handle)
      returns (r: Result<ProduceData, Error>)
      requires Valid() && producer.id !in issued
      modifies this`rooms, this`issued
      ensures Valid()
      ensures var t := old(GetTransport(roomId, userId, serverTransportId, ProducerTransports));
        t.Err? ==> r == Err(t.error) && rooms == old(rooms) && issued == old(issued)
      ensures var t := old(GetTransport(roomId, userId, serverTransportId, ProducerTransports));
        t.Ok? ==>
          var room := old(rooms)[roomId];
          var existing := room.producers.GetOr([]);
          && r == Ok(ProduceData(producer.id, OtherProducers(existing, userId)))
          && issued == old(issued) + {producer.id}
          && rooms == old(rooms)[roomId := room.(producers := Some(existing + [Entry(userId, producer)]))]
    {
      var t := GetTransport(roomId, userId, serverTransportId, ProducerTransports);
      if t.Err? {
        return Err(t.error);
      }
      var room := rooms[roomId];
      var existing := room.producers.GetOr([]);
      var oldProducers := OtherProducers(existing, userId);
      var e := Entry(userId, producer);
      RegistryPushValid(room.producers, e, issued);
      room := room.(producers := Some(existing + [e]));
      forall rid | rid in rooms ensures RoomValid(rooms[rid], issued + {producer.id}) {
        RoomValidMonotone(rooms[rid], issued, {producer.id});
      }
      rooms := rooms[roomId := room];
      issued := issued + {producer.id};
      return Ok(ProduceData(producer.id, oldProducers));
    }

    /**
     * `transportConsume`: find the caller's consumer transport, ask the room's
     * router whether it can consume, and if so push `{consumer, userId}` and install
     * the `producerclose` handler. A refusal is `Ok(None)`, the source's `undefined`.
     */
    method TransportConsume(roomId: RoomId, userId: UserId, serverTransportId: Id, rtpCapabilities: RtpCapabilities,
                            remoteProducerId: Id, canConsume: (Handle, Id, RtpCapabilities) -> bool, consumer: Handle)
      returns (r: Result<Option<ConsumeParams>, Error>)
      requires Valid() && consumer.id !in issued
      modifies this`rooms, this`issued
      ensures Valid()
      ensures var t := old(GetTransport(roomId, userId, serverTransportId, ConsumerTransports));
        t.Err? ==> r == Err(t.error) && rooms == old(rooms) && issued == old(issued)
      ensures var t := old(GetTransport(roomId, userId, serverTransportId, ConsumerTransports));
        t.Ok? && !canConsume(old(rooms)[roomId].router, remoteProducerId, rtpCapabilities) ==>
          r == Ok(None) && rooms == old(rooms) && issued == old(issued)
      ensures var t := old(GetTransport(roomId, userId, serverTransportId, ConsumerTransports));
        t.Ok? && canConsume(old(rooms)[roomId].router, remoteProducerId, rtpCapabilities) ==>
          var room := old(rooms)[roomId];
          && r == Ok(Some(ConsumeParams(consumer.id, remoteProducerId)))
          && issued == old(issued) + {consumer.id}
          && rooms == old(rooms)[roomId := room.(
               consumers := Some(room.consumers.GetOr([]) + [Entry(userId, consumer)]),
               rules := room.rules + [CloseRule(remoteProducerId, t.value.id, consumer.id)])]
    {
      if roomId !in rooms {
        return Err(RoomMissing);
      }
      var room := rooms[roomId];
      var t := GetTransport(roomId, userId, serverTransportId, ConsumerTransports);
      if t.Err? {
        return Err(t.error);
      }
      if !canConsume(room.router, remoteProducerId, rtpCapabilities) {
        return Ok(None);
      }
      var rule := CloseRule(remoteProducerId, t.value.id, consumer.id);
      var e := Entry(userId, consumer);
      RegistryPushValid(room.consumers, e, issued);
      room := room.(consumers := Some(room.consumers.GetOr([]) + [e]), rules := room.rules + [rule]);
      forall rid | rid in rooms ensures RoomValid(rooms[rid], issued + {consumer.id}) {
        RoomValidMonotone(rooms[rid], issued, {consumer.id});
      }
      rooms := rooms[roomId := room];
      issued := issued + {consumer.id};
      return Ok(Some(ConsumeParams(consumer.id, remoteProducerId)));
    }

    /**
     * The `producerclose` handler of a consumer: close its transport and drop it from
     * `consumerTransports`, then close the consumer and drop it from `consumers`.
     */
    method OnProducerClose(roomId: RoomId, rule: CloseRule)
      requires Valid() && roomId in rooms && rule in rooms[roomId].rules
      modifies this`rooms, this`closed
      ensures Valid()
      ensures rooms == old(rooms)[roomId := FireRule(old(rooms)[roomId], rule)]
      ensures closed == old(closed) + {rule.transportId, rule.consumerId}
    {
      var room := rooms[roomId];
      FireRuleValid(room, rule, issued);
      closed := closed + {rule.transportId};
      room := room.(consumerTransports := Some(Without(room.consumerTransports.value, ById(rule.transportId))));
      closed := closed + {rule.consumerId};
      room := room.(consumers := Some(Without(room.consumers.value, ById(rule.consumerId))));
      rooms := rooms[roomId := room];
    }

    /** `getConsumer`: the caller's consumer with the given id. */
    function GetConsumer(roomId: RoomId, userId: UserId, serverConsumerId: Id): (r: Result<Handle, Error>)
      reads this
      ensures r.Ok? <==>
        && roomId in rooms
        && rooms[roomId].consumers.Some?
        && exists e :: e in rooms[roomId].consumers.value && Matches(e, serverConsumerId, userId)
      ensures r.Ok? ==> r.value.id == serverConsumerId && Entry(userId, r.value) in rooms[roomId].consumers.value
      ensures roomId !in rooms ==> r == Err(RoomMissing)
      ensures roomId in rooms && rooms[roomId].consumers.None? ==> r == Err(UndefinedRegistry)
      ensures roomId in rooms && rooms[roomId].consumers.Some? && r.Err? ==> r == Err(NoMatchingEntry)
    {
      if roomId !in rooms then Err(RoomMissing)
      else Lookup(rooms[roomId].consumers, serverConsumerId, userId)
    }

    /** `removeItems`: close every record of `userId`, then return the others in order. */
    method RemoveItems(items: seq<Entry>, userId: UserId) returns (kept: seq<Entry>)
      modifies this`closed
      ensures closed == old(closed) + ClosedBy(items, userId)
      ensures kept == Without(items, ByUser(userId))
    {
      var i := 0;
      while i < |items|
        invariant 0 <= i <= |items|
        invariant closed == old(closed) + ClosedBy(items[..i], userId)
      {
        ClosedByExtend(old(closed), closed, items, i, userId);
        closed := closed + if items[i].userId == userId then {items[i].handle.id} else {};
        i := i + 1;
      }
      assert items[..i] == items;
      kept := Without(items, ByUser(userId));
    }

    /**
     * `clearUser`: strip the user from all four registries and from the peers,
     * returning the ids of the user's producers and the remaining peers. The room
     * entry itself always stays, and a throw part-way leaves the steps already
     * taken in place.
     */
    method ClearUser(roomId: RoomId, userId: UserId) returns (r: Result<ClearData, Error>)
      requires Valid()
      modifies this`rooms, this`closed
      ensures Valid()
      ensures rooms.Keys == old(rooms).Keys
      ensures roomId !in old(rooms) ==> r == Err(RoomMissing) && rooms == old(rooms) && closed == old(closed)
      ensures roomId in old(rooms) ==>
        var out := ClearUserRoom(old(rooms)[roomId], userId);
        r == out.result && rooms == old(rooms)[roomId := out.room] && closed == old(closed) + out.closedIds
    {
      if roomId !in rooms {
        return Err(RoomMissing);
      }
      ClearUserRoomValid(rooms[roomId], userId, issued);
      var room;
      room, r := ClearRoom(rooms[roomId], userId);
      rooms := rooms[roomId := room];
    }

    /** The steps of `clearUser` on the room record, in the source's order. */
    method ClearRoom(room: Room, userId: UserId) returns (after: Room, r: Result<ClearData, Error>)
      modifies this`closed
      ensures var out := ClearUserRoom(room, userId);
        after == out.room && r == out.result && closed == old(closed) + out.closedIds
    {
      after := room;
      if after.consumerTransports.None? {
        return after, Err(UndefinedRegistry);
      }
      var consumerTransports := RemoveItems(after.consumerTransports.value, userId);
      after := after.(consumerTransports := Some(consumerTransports));
      if after.producers.None? {
        return after, Err(UndefinedRegistry);
      }
      var producerIds := UserIds(after.producers.value, userId);
      if after.producerTransports.None? {
        return after, Err(UndefinedRegistry);
      }
      var producerTransports := RemoveItems(after.producerTransports.value, userId);
      after := after.(producerTransports := Some(producerTransports));
      if after.consumers.None? {
        return after, Err(UndefinedRegistry);
      }
      var consumers := RemoveItems(after.consumers.value, userId);
      after := after.(consumers := Some(consumers));
      var producers := RemoveItems(after.producers.value, userId);
      after := after.(producers := Some(producers));
      after := after.(peers := WithoutPeer(after.peers, userId));
      return after, Ok(ClearData(producerIds, after.peers));
    }
  }
}
