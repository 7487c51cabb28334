/**
 * One room record of the mediasoup handler (`RoomDetails`): the shared router, the
 * list of peers, the four registries and the `producerclose` handlers installed on
 * its consumers, together with the pure steps that `clearUser` and a
 * `producerclose` event apply to it.
 */
module Rooms {
  import opened Results
  import opened Registry

  type RoomId = string

  /** The `transportType` argument: which transport registry is meant. */
  datatype Direction = ProducerTransports | ConsumerTransports

  /**
   * The `producerclose` handler `transportConsume` attaches to a new consumer: when
   * producer `producerId` closes, it drops transport `transportId` and consumer
   * `consumerId` from the room.
   */
  datatype CloseRule = CloseRule(producerId: Id, transportId: Id, consumerId: Id)

  /**
   * A room record. A registry is `None` while it is still `undefined`, that is,
   * until the first record of its kind is pushed.
   */
  datatype Room = Room(
    router: Handle,
    peers: seq<UserId>,
    producerTransports: Option<seq<Entry>>,
    consumerTransports: Option<seq<Entry>>,
    producers: Option<seq<Entry>>,
    consumers: Option<seq<Entry>>,
    rules: seq<CloseRule>)

  /** The record a first join creates: the new router, the joining user, nothing else. */
  function NewRoom(router: Handle, userId: UserId): (r: Room)
    ensures r.router == router && r.peers == [userId] && r.rules == []
    ensures forall issued: set<Id> :: RoomValid(r, issued)
    ensures forall dir: Direction, id: Id, u: UserId :: Lookup(Transports(r, dir), id, u) == Err(UndefinedRegistry)
  {
    Room(router, [userId], None, None, None, None, [])
  }

  function Transports(room: Room, dir: Direction): Option<seq<Entry>> {
    match dir
    case ProducerTransports => room.producerTransports
    case ConsumerTransports => room.consumerTransports
  }

  function WithTransports(room: Room, dir: Direction, registry: Option<seq<Entry>>): Room {
    match dir
    case ProducerTransports => room.(producerTransports := registry)
    case ConsumerTransports => room.(consumerTransports := registry)
  }

  /** What the handler throws. */
  datatype Error =
    | WorkerMissing      // getOrCreateRouter before a worker was made
    | RoomMissing        // no room under the given roomId
    | UndefinedRegistry  // TypeError: a registry that was never initialised is dereferenced
    | NoMatchingEntry    // TypeError: `find` found nothing and its `undefined` is dereferenced

  /** `registry.find(matching id and user).<handle>`, with the two ways it throws. */
  function Lookup(registry: Option<seq<Entry>>, id: Id, userId: UserId): (r: Result<Handle, Error>)
    ensures r.Ok? <==> registry.Some? && exists e :: e in registry.value && Matches(e, id, userId)
    ensures r.Ok? ==> r.value.id == id && Entry(userId, r.value) in registry.value
    ensures registry.None? ==> r == Err(UndefinedRegistry)
    ensures registry.Some? && r.Err? ==> r == Err(NoMatchingEntry)
  {
    match registry
    case None => Err(UndefinedRegistry)
    case Some(items) =>
      match Find(items, id, userId)
      case None => Err(NoMatchingEntry)
      case Some(k) =>
        assert items[k] == Entry(userId, items[k].handle);
        Ok(items[k].handle)
  }

  /** After a push with a fresh id, the lookup by that id and owner returns the pushed handle. */
  lemma LookupAppendedFresh(items: seq<Entry>, e: Entry)
    requires FreshIn(items, e.handle.id)
    ensures Lookup(Some(items + [e]), e.handle.id, e.userId) == Ok(e.handle)
  {
    FindAppendedFresh(items, e);
  }

  /** How often `userId` is listed in `peers`. */
  function Occurrences(peers: seq<UserId>, userId: UserId): nat {
    if peers == [] then 0
    else (if peers[0] == userId then 1 else 0) + Occurrences(peers[1..], userId)
  }

  lemma {:induction false} OccurrencesAppend(a: seq<UserId>, b: seq<UserId>, userId: UserId)
    ensures Occurrences(a + b, userId) == Occurrences(a, userId) + Occurrences(b, userId)
  {
    if a == [] {
      assert a + b == b;
    } else {
      assert (a + b)[0] == a[0];
      assert (a + b)[1..] == a[1..] + b;
      OccurrencesAppend(a[1..], b, userId);
    }
  }

  /** A join appends without checking: a repeated join lists the user once more. */
  lemma JoinAddsOneCopy(peers: seq<UserId>, userId: UserId)
    ensures Occurrences(peers + [userId], userId) == Occurrences(peers, userId) + 1
  {
    OccurrencesAppend(peers, [userId], userId);
    assert [userId][1..] == [];
  }

  /** `peers.filter(peer => peer !== userId)`. */
  function WithoutPeer(peers: seq<UserId>, userId: UserId): (r: seq<UserId>)
    ensures forall p :: p in r <==> p in peers && p != userId
    ensures |r| + Occurrences(peers, userId) == |peers|
  {
    if peers == [] then []
    else if peers[0] == userId then WithoutPeer(peers[1..], userId)
    else [peers[0]] + WithoutPeer(peers[1..], userId)
  }

  /** Removing a peer removes every copy and keeps the other peers in order. */
  lemma {:induction false} WithoutPeerAppend(a: seq<UserId>, b: seq<UserId>, userId: UserId)
    ensures WithoutPeer(a + b, userId) == WithoutPeer(a, userId) + WithoutPeer(b, userId)
  {
    if a == [] {
      assert a + b == b;
    } else {
      assert (a + b)[0] == a[0];
      assert (a + b)[1..] == a[1..] + b;
      WithoutPeerAppend(a[1..], b, userId);
    }
  }

  /** However often a user joined, leaving lists them zero times. */
  lemma LeaveRemovesEveryCopy(peers: seq<UserId>, userId: UserId)
    ensures Occurrences(WithoutPeer(peers, userId), userId) == 0
  {
    var r := WithoutPeer(peers, userId);
    if Occurrences(r, userId) != 0 {
      OccurrencesMember(r, userId);
    }
  }

  lemma {:induction false} OccurrencesMember(peers: seq<UserId>, userId: UserId)
    requires Occurrences(peers, userId) != 0
    ensures userId in peers
  {
    if peers[0] != userId {
      OccurrencesMember(peers[1..], userId);
    }
  }

  /** `after` is `before` thinned by `sel`: defined, and holding exactly the unselected records. */
  ghost predicate Kept(before: Option<seq<Entry>>, after: Option<seq<Entry>>, sel: Selector) {
    before.Some? && after.Some? &&
    forall e :: e in after.value <==> e in before.value && !Selects(sel, e)
  }

  predicate AllRegistriesDefined(room: Room) {
    room.producerTransports.Some? && room.consumerTransports.Some? &&
    room.producers.Some? && room.consumers.Some?
  }

  /** The response of `clearUser`. */
  datatype ClearData = ClearData(producerIds: seq<Id>, receivePeers: seq<UserId>)

  /** The room after `clearUser` ran (to completion or to a throw), the ids it closed, and its result. */
  datatype ClearOutcome = ClearOutcome(room: Room, closedIds: set<Id>, result: Result<ClearData, Error>)

  /**
   * `clearUser` on a room that exists, step by step as the source runs it: consumer
   * transports, then the producer ids, producer transports, consumers, producers
   * and peers. A registry still `undefined` throws at its step, after the earlier
   * steps have already updated the room.
   */
  function ClearUserRoom(room: Room, userId: UserId): (out: ClearOutcome)
    ensures out.result.Ok? <==> AllRegistriesDefined(room)
    ensures out.result.Err? ==> out.result.error == UndefinedRegistry
    ensures out.room.router == room.router && out.room.rules == room.rules
  {
    match room.consumerTransports
    case None => ClearOutcome(room, {}, Err(UndefinedRegistry))
    case Some(ct) =>
      var r1 := room.(consumerTransports := Some(Without(ct, ByUser(userId))));
      var c1 := ClosedBy(ct, userId);
      match room.producers
      case None => ClearOutcome(r1, c1, Err(UndefinedRegistry))
      case Some(ps) =>
        var producerIds := UserIds(ps, userId);
        match room.producerTransports
        case None => ClearOutcome(r1, c1, Err(UndefinedRegistry))
        case Some(pt) =>
          var r2 := r1.(producerTransports := Some(Without(pt, ByUser(userId))));
          var c2 := c1 + ClosedBy(pt, userId);
          match room.consumers
          case None => ClearOutcome(r2, c2, Err(UndefinedRegistry))
          case Some(cs) =>
            var r3 := r2.(consumers := Some(Without(cs, ByUser(userId))),
                          producers := Some(Without(ps, ByUser(userId))),
                          peers := WithoutPeer(room.peers, userId));
            ClearOutcome(r3, c2 + ClosedBy(cs, userId) + ClosedBy(ps, userId),
                         Ok(ClearData(producerIds, r3.peers)))
  }

  /**
   * What `clearUser` leaves behind: on success no registry holds a record of the
   * user, the peers no longer list the user, the reported producer ids are the
   * user's producers from before, every engine object of the user was closed;
   * a throw leaves the peers and producers untouched.
   */
  lemma ClearUserRoomProperties(room: Room, userId: UserId)
    ensures var out := ClearUserRoom(room, userId);
      && (out.room.router == room.router && out.room.rules == room.rules)
      && (out.result.Ok? <==> AllRegistriesDefined(room))
      && (out.result.Err? ==>
        out.result.error == UndefinedRegistry && out.room.peers == room.peers && out.room.producers == room.producers)
      && (room.consumerTransports.Some? ==>
        Kept(room.consumerTransports, out.room.consumerTransports, ByUser(userId)))
      && (room.consumerTransports.None? ==> out.room == room && out.closedIds == {})
      && (out.result.Ok? ==>
        && Kept(room.producerTransports, out.room.producerTransports, ByUser(userId))
        && Kept(room.producers, out.room.producers, ByUser(userId))
        && Kept(room.consumers, out.room.consumers, ByUser(userId))
        && (forall p :: p in out.room.peers <==> p in room.peers && p != userId)
        && out.result.value.receivePeers == out.room.peers
        && out.result.value.producerIds == UserIds(room.producers.value, userId)
        && out.closedIds == ClosedBy(room.consumerTransports.value, userId) + ClosedBy(room.producerTransports.value, userId)
                            + ClosedBy(room.consumers.value, userId) + ClosedBy(room.producers.value, userId))
  {
  }

  /** A user who joined but never opened a consumer transport cannot be cleared: the throw comes first. */
  lemma ClearAfterBareJoinFails(router: Handle, userId: UserId)
    ensures ClearUserRoom(NewRoom(router, userId), userId).result == Err(UndefinedRegistry)
    ensures ClearUserRoom(NewRoom(router, userId), userId).room.peers == [userId]
  {
  }

  /** After a successful clear, no lookup for that user succeeds in any registry. */
  lemma ClearedUserHasNoRecords(room: Room, userId: UserId, id: Id)
    requires AllRegistriesDefined(room)
    ensures var after := ClearUserRoom(room, userId).room;
      && Lookup(after.producerTransports, id, userId) == Err(NoMatchingEntry)
      && Lookup(after.consumerTransports, id, userId) == Err(NoMatchingEntry)
      && Lookup(after.producers, id, userId) == Err(NoMatchingEntry)
      && Lookup(after.consumers, id, userId) == Err(NoMatchingEntry)
  {
  }

  /**
   * The `producerclose` handler: it filters the room's consumer transports by the
   * consumer's transport id and the room's consumers by the consumer's id.
   */
  function FireRule(room: Room, rule: CloseRule): (r: Room)
    requires room.consumerTransports.Some? && room.consumers.Some?
    ensures Kept(room.consumerTransports, r.consumerTransports, ById(rule.transportId))
    ensures Kept(room.consumers, r.consumers, ById(rule.consumerId))
    ensures r.router == room.router && r.peers == room.peers && r.rules == room.rules
    ensures r.producerTransports == room.producerTransports && r.producers == room.producers
  {
    room.(consumerTransports := Some(Without(room.consumerTransports.value, ById(rule.transportId))),
          consumers := Some(Without(room.consumers.value, ById(rule.consumerId))))
  }

  /**
   * With unique ids, the handler removes exactly the consumer's transport and exactly
   * the consumer, and every other record stays where it was.
   */
  lemma FireRuleRemovesExactlyOne(room: Room, rule: CloseRule, kt: nat, kc: nat)
    requires room.consumerTransports.Some? && room.consumers.Some?
    requires Unique(room.consumerTransports.value) && Unique(room.consumers.value)
    requires kt < |room.consumerTransports.value| && room.consumerTransports.value[kt].handle.id == rule.transportId
    requires kc < |room.consumers.value| && room.consumers.value[kc].handle.id == rule.consumerId
    ensures var ct, cs := room.consumerTransports.value, room.consumers.value;
      && FireRule(room, rule).consumerTransports == Some(ct[..kt] + ct[kt + 1..])
      && FireRule(room, rule).consumers == Some(cs[..kc] + cs[kc + 1..])
  {
    WithoutIdRemovesExactlyOne(room.consumerTransports.value, kt);
    WithoutIdRemovesExactlyOne(room.consumers.value, kc);
  }

  /** A handler changes nothing exactly when its transport and consumer records are already gone. */
  lemma FireRuleAgainIsNoop(room: Room, rule: CloseRule)
    requires room.consumerTransports.Some? && room.consumers.Some?
    ensures FireRule(room, rule) == room
        <==> FreshIn(room.consumerTransports.value, rule.transportId) && FreshIn(room.consumers.value, rule.consumerId)
  {
    if FreshIn(room.consumerTransports.value, rule.transportId) && FreshIn(room.consumers.value, rule.consumerId) {
      WithoutNothingSelected(room.consumerTransports.value, ById(rule.transportId));
      WithoutNothingSelected(room.consumers.value, ById(rule.consumerId));
    }
  }

  /** A registry is well formed: unique ids, all of them handed out by the engine. */
  predicate RegistryValid(registry: Option<seq<Entry>>, issued: set<Id>) {
    registry.Some? ==> Unique(registry.value) && forall e :: e in registry.value ==> e.handle.id in issued
  }

  /** The invariant of a room record; a handler exists only once both lists it filters are defined. */
  predicate RoomValid(room: Room, issued: set<Id>) {
    && RegistryValid(room.producerTransports, issued)
    && RegistryValid(room.consumerTransports, issued)
    && RegistryValid(room.producers, issued)
    && RegistryValid(room.consumers, issued)
    && (room.rules != [] ==> room.consumerTransports.Some? && room.consumers.Some?)
  }

  lemma RoomValidMonotone(room: Room, issued: set<Id>, more: set<Id>)
    requires RoomValid(room, issued)
    ensures RoomValid(room, issued + more)
  {
  }

  /** Pushing a record with a fresh id onto a registry, created if needed, keeps it well formed. */
  lemma RegistryPushValid(registry: Option<seq<Entry>>, e: Entry, issued: set<Id>)
    requires RegistryValid(registry, issued) && e.handle.id !in issued
    ensures RegistryValid(Some(registry.GetOr([]) + [e]), issued + {e.handle.id})
  {
    var items := registry.GetOr([]);
    UniqueAppend(items, e);
  }

  lemma {:induction false} RegistryWithoutValid(registry: Option<seq<Entry>>, sel: Selector, issued: set<Id>)
    requires registry.Some? && RegistryValid(registry, issued)
    ensures RegistryValid(Some(Without(registry.value, sel)), issued)
  {
    WithoutUnique(registry.value, sel);
  }

  lemma ClearUserRoomValid(room: Room, userId: UserId, issued: set<Id>)
    requires RoomValid(room, issued)
    ensures RoomValid(ClearUserRoom(room, userId).room, issued)
  {
    var sel := ByUser(userId);
    if room.producerTransports.Some? { RegistryWithoutValid(room.producerTransports, sel, issued); }
    if room.consumerTransports.Some? { RegistryWithoutValid(room.consumerTransports, sel, issued); }
    if room.producers.Some? { RegistryWithoutValid(room.producers, sel, issued); }
    if room.consumers.Some? { RegistryWithoutValid(room.consumers, sel, issued); }
  }

  lemma FireRuleValid(room: Room, rule: CloseRule, issued: set<Id>)
    requires RoomValid(room, issued) && room.consumerTransports.Some? && room.consumers.Some?
    ensures RoomValid(FireRule(room, rule), issued)
  {
    RegistryWithoutValid(room.consumerTransports, ById(rule.transportId), issued);
    RegistryWithoutValid(room.consumers, ById(rule.consumerId), issued);
  }
}
