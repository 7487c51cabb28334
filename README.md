# Mediasoup room registry, modelled in Dafny

This project models the room registry of the `MediasoupHandler` class of the video-call core. The class keeps a map from room id to a room record. Each record holds the room's router, the list of peers, and four registries: producer transports, consumer transports, producers and consumers. Each registry is a list of `{userId, handle}` records. The handler's operations are:

- join a room (`getOrCreateRouter`);
- open a transport (`createWebRtcTransport`);
- look up a transport or a consumer by id and owner (`getTransport`, `getConsumer`);
- produce a stream (`transportProduce`);
- consume a remote stream (`transportConsume`), which installs a `producerclose` handler;
- strip a user from the room (`removeItems`, `clearUser`).

Files:

- `results.dfy`: module `Results`, with `Option` for JavaScript's `undefined` and `Result` for a thrown error.
- `registry.dfy`: module `Registry`, the pure list logic. It covers `find` as the first matching index, `filter` through a `Selector`, and the ids a user owns. It also covers the `map`/`filter` comprehension that builds the `producers` reply of `transportProduce`. Lemmas prove membership, order, idempotence and uniqueness facts about these.
- `rooms.dfy`: module `Rooms`, with the room record and the error kinds. It has `ClearUserRoom`, the step-by-step effect of `clearUser` on one room, and `FireRule`, the effect of a `producerclose` handler on one room. A registry is `None` until its first record is pushed, as in the source. `RoomValid` is the invariant on a room record.
- `mediasoup_handler.dfy`: module `Handler`, with the class `MediasoupHandler`. Its `rooms` field is a `map` that the methods reassign. `closed` records every engine object whose `close()` the handler calls. The ghost field `issued` holds the ids the engine has handed out. Each mutating method states the whole new state in terms of the old one. `Valid()` requires every registry's ids to be unique and issued. It also requires that a room with an installed handler has both lists that handler filters.
- `scenario.dfy`: module `Scenario`, a client of these contracts. Two peers join, A produces, B consumes, A leaves, and B's handler fires. Every outcome is derived from the method contracts alone.

Engine objects are `Handle`s that carry only an id. The caller passes them in, and the requires clauses say their ids are fresh. `canConsume` is a function parameter that gets the room's router, the producer id and the capabilities.

Behaviour of the code that the model keeps, although a room registry would usually do otherwise:

- A join appends the user to `peers` every time, with no de-duplication (`Rooms.JoinAddsOneCopy`).
- `clearUser` never deletes the room entry, even when `peers` becomes empty (`ClearUser` keeps `rooms.Keys`).
- `clearUser` throws a `TypeError` (`UndefinedRegistry`) as soon as it reaches a registry that was never initialised. The earlier steps have already filtered and closed records by then. A user who joined a room where nobody has opened a consumer transport cannot be cleared and stays in `peers` (`Rooms.ClearAfterBareJoinFails`).
- A failed `find` is not a dedicated error in the source: dereferencing the `undefined` it returns throws. The model calls that `NoMatchingEntry`. Dereferencing a registry that is still undefined is `UndefinedRegistry`.
- Nothing checks that the user of a transport, producer or consumer is in `peers`.
- A refused `canConsume` returns `undefined`, modelled as `Ok(None)`, and registers nothing.

## Model

| member | source | states |
|---|---|---|
| `Registry.Without` | video-call-multiple-core/src/mediasoup_handler.js:363 | the filtered list holds exactly the records of the input that the selector does not pick, and is never longer |
| `Registry.WithoutAppend` | video-call-multiple-core/src/mediasoup_handler.js:363 | filtering distributes over concatenation, so the surviving records keep their original order |
| `Registry.WithoutNothingSelected` | video-call-multiple-core/src/mediasoup_handler.js:363 | a filter that matches no record returns the list unchanged |
| `Registry.WithoutIdempotent` | video-call-multiple-core/src/mediasoup_handler.js:363 | filtering a second time with the same selector changes nothing |
| `Registry.UniqueAppend` | video-call-multiple-core/src/mediasoup_handler.js:166-169 | pushing a record whose engine id is fresh keeps the registry's ids unique |
| `Registry.WithoutUnique` | video-call-multiple-core/src/mediasoup_handler.js:303-311 | filtering keeps the registry's ids unique |
| `Registry.UniqueTail` | video-call-multiple-core/src/mediasoup_handler.js:303-311 | dropping the first record of a registry with unique ids leaves the ids unique |
| `Registry.WithoutIdHead` | video-call-multiple-core/src/mediasoup_handler.js:303-311 | with unique ids, filtering by the first record's id removes that record and nothing else |
| `Registry.WithoutIdRemovesExactlyOne` | video-call-multiple-core/src/mediasoup_handler.js:303-311 | with unique ids, filtering by the id of the record at index k yields the list with exactly that record removed and the rest in order |
| `Registry.Find` | video-call-multiple-core/src/mediasoup_handler.js:189-193 | the result is the index of the first record with the given id and user; it is none exactly when no record matches |
| `Registry.FindAppendedFresh` | video-call-multiple-core/src/mediasoup_handler.js:189-193 | a record just pushed with a fresh id is the one `find` returns for that id and user |
| `Registry.FindAfterWithoutUser` | video-call-multiple-core/src/mediasoup_handler.js:378-395 | after a user's records are filtered out, `find` for that user finds nothing |
| `Registry.UserIds` | video-call-multiple-core/src/mediasoup_handler.js:384-386 | the ids are exactly those of the user's records, one per record, so they and the surviving records add up to the input |
| `Registry.ClosedBy` | video-call-multiple-core/src/mediasoup_handler.js:358-362 | the set of ids `removeItems` closes is the set of ids of the user's records |
| `Registry.ClosedByStep` | video-call-multiple-core/src/mediasoup_handler.js:358-362 | each `forEach` step closes the current record's id if the user owns it, and nothing else |
| `Registry.ClosedByExtend` | video-call-multiple-core/src/mediasoup_handler.js:358-362 | a set of ids equal to what previous steps closed, plus this step's id, equals what the one-longer prefix closes: the loop invariant of `removeItems` |
| `Registry.MapInfo` | video-call-multiple-core/src/mediasoup_handler.js:230-237 | the `map` stage with its callback gives, position by position, a summary exactly when the record belongs to another user, and that summary carries the record's producer id and owner; the caller's own records map to `undefined` |
| `Registry.OtherProducers` | video-call-multiple-core/src/mediasoup_handler.js:229-238 | the `oldProducers` list is never longer than the registry and never lists one of the caller's own producers |
| `Registry.Defined` | video-call-multiple-core/src/mediasoup_handler.js:238 | the `filter` stage keeps exactly the defined summaries |
| `Registry.DefinedAppend` | video-call-multiple-core/src/mediasoup_handler.js:238 | dropping undefined entries distributes over concatenation |
| `Registry.MapInfoAppend` | video-call-multiple-core/src/mediasoup_handler.js:230-237 | the `map` stage distributes over concatenation, position for position |
| `Registry.OtherProducersMembers` | video-call-multiple-core/src/mediasoup_handler.js:229-238 | a summary is in the `producers` reply exactly when some record of another user produced it |
| `Registry.OtherProducersAppend` | video-call-multiple-core/src/mediasoup_handler.js:229-238 | the reply for a concatenated registry is the concatenation of the replies |
| `Registry.Infos` | video-call-multiple-core/src/mediasoup_handler.js:232-235 | reference summary of a registry: one `{producerId, userId}` per record, position by position |
| `Registry.OtherProducersInOrder` | video-call-multiple-core/src/mediasoup_handler.js:229-238 | the map-then-filter reply equals the summaries of the registry filtered by the caller, so it is in registry order |
| `Registry.ProducingHidesOwn` | video-call-multiple-core/src/mediasoup_handler.js:229-240 | after the caller pushes a producer, the caller's reply is what it was before |
| `Registry.ProducingShowsToOthers` | video-call-multiple-core/src/mediasoup_handler.js:229-240 | after another peer pushes a producer, every remaining peer's reply gains exactly that producer's summary at the end |
| `Rooms.Lookup` | video-call-multiple-core/src/mediasoup_handler.js:189-195 | the lookup succeeds exactly when the registry is defined and holds a record with that id and user, and then returns that record's handle; otherwise it fails with `UndefinedRegistry` or `NoMatchingEntry` |
| `Rooms.LookupAppendedFresh` | video-call-multiple-core/src/mediasoup_handler.js:166-169 | after a push with a fresh id, the lookup by that id and owner returns the pushed handle, so `getTransport` finds a transport as soon as it is created |
| `Rooms.OccurrencesAppend` | video-call-multiple-core/src/mediasoup_handler.js:125 | the number of copies of a user in concatenated peer lists is the sum of the counts |
| `Rooms.JoinAddsOneCopy` | video-call-multiple-core/src/mediasoup_handler.js:125 | each join adds exactly one more copy of the user to `peers`, even when the user is already listed |
| `Rooms.WithoutPeer` | video-call-multiple-core/src/mediasoup_handler.js:397 | the new peer list holds exactly the other peers, and it is shorter by the number of copies of the user that were removed |
| `Rooms.WithoutPeerAppend` | video-call-multiple-core/src/mediasoup_handler.js:397 | removing a peer distributes over concatenation, so the other peers keep their order |
| `Rooms.OccurrencesMember` | video-call-multiple-core/src/mediasoup_handler.js:397 | a user counted at least once is in the list |
| `Rooms.NewRoom` | video-call-multiple-core/src/mediasoup_handler.js:115-128 | a first join's room holds the new router, the user once in `peers` and no handler; it is valid whatever ids were issued, and every transport lookup in it fails with `UndefinedRegistry` |
| `Rooms.LeaveRemovesEveryCopy` | video-call-multiple-core/src/mediasoup_handler.js:397 | however many times the user joined, no copy is left after the filter |
| `Rooms.ClearUserRoom` | video-call-multiple-core/src/mediasoup_handler.js:378-402 | one room's `clearUser`, in the source's step order: it succeeds exactly when all four registries are defined, otherwise it throws `UndefinedRegistry`; the router and the installed handlers are untouched (the rest is `Rooms.ClearUserRoomProperties`) |
| `Rooms.ClearUserRoomProperties` | video-call-multiple-core/src/mediasoup_handler.js:378-402 | `clearUser` succeeds exactly when all four registries are defined. On success no registry holds a record of the user, the others' records all remain, the user is gone from `peers`, `receivePeers` is the new `peers`, `producerIds` are the user's producer ids from before, and exactly the user's engine objects were closed. On a throw, `peers` and `producers` are untouched, and consumer transports are already filtered if they were defined |
| `Rooms.ClearAfterBareJoinFails` | video-call-multiple-core/src/mediasoup_handler.js:378-382 | in a room created by one join, `clearUser` throws `UndefinedRegistry` and the user stays in `peers` |
| `Rooms.ClearedUserHasNoRecords` | video-call-multiple-core/src/mediasoup_handler.js:378-395 | after a successful clear, every lookup of that user in any registry fails with `NoMatchingEntry` |
| `Rooms.FireRule` | video-call-multiple-core/src/mediasoup_handler.js:297-312 | the handler keeps exactly the consumer transports without the consumer's transport id and the consumers without the consumer's id, and changes nothing else in the room |
| `Rooms.FireRuleRemovesExactlyOne` | video-call-multiple-core/src/mediasoup_handler.js:301-311 | with unique ids, the handler removes exactly the consumer's transport record and exactly the consumer's record, and leaves all others in their original order |
| `Rooms.FireRuleAgainIsNoop` | video-call-multiple-core/src/mediasoup_handler.js:303-311 | a handler leaves the room unchanged exactly when its transport record and its consumer record are both already gone |
| `Rooms.RoomValidMonotone` | video-call-multiple-core/src/mediasoup_handler.js:166-169 | a valid room stays valid as the engine hands out more ids |
| `Rooms.RegistryPushValid` | video-call-multiple-core/src/mediasoup_handler.js:162-169 | pushing a record with a fresh id onto a registry, creating the list if it is undefined, keeps the registry valid |
| `Rooms.RegistryWithoutValid` | video-call-multiple-core/src/mediasoup_handler.js:363 | a filtered registry is still valid |
| `Rooms.ClearUserRoomValid` | video-call-multiple-core/src/mediasoup_handler.js:378-397 | `clearUser` keeps the room valid, however far it gets |
| `Rooms.FireRuleValid` | video-call-multiple-core/src/mediasoup_handler.js:303-311 | the `producerclose` handler keeps the room valid |
| `Handler.MediasoupHandler.constructor` | video-call-multiple-core/src/mediasoup_handler.js:71-79 | a new handler has no worker, no rooms, has closed nothing, and is valid |
| `Handler.MediasoupHandler.MakeWorker` | video-call-multiple-core/src/mediasoup_handler.js:85-97 | the worker is the engine's new worker, that worker is returned, and nothing else changes |
| `Handler.MediasoupHandler.GetOrCreateRouter` | video-call-multiple-core/src/mediasoup_handler.js:105-131 | without a worker it throws `WorkerMissing` and changes nothing. For an existing room it returns that room's router and sets `peers` to the old peers plus the user. Otherwise it creates a room with the new router, `peers == [userId]` and undefined registries. No other room changes |
| `Handler.MediasoupHandler.CreateWebRtcTransport` | video-call-multiple-core/src/mediasoup_handler.js:140-172 | a missing room throws `RoomMissing` and changes nothing. Otherwise it appends exactly one `{userId, transport}` to the chosen registry, creating it if undefined, and leaves the other registries, `peers` and other rooms unchanged. `find` on the new registry for the new id and the user returns the last position, the new record |
| `Handler.MediasoupHandler.GetTransport` | video-call-multiple-core/src/mediasoup_handler.js:181-196 | it succeeds exactly when the room exists, the chosen registry is defined and it holds a record with that id owned by the caller, and it returns that record's handle. Otherwise it fails with `RoomMissing`, `UndefinedRegistry` or `NoMatchingEntry` |
| `Handler.MediasoupHandler.TransportProduce` | video-call-multiple-core/src/mediasoup_handler.js:206-253 | a failed producer-transport lookup throws the same error and changes nothing. Otherwise it returns the new producer's id and the other peers' producers from before the push, then appends exactly `{userId, producer}` to `producers`, creating it if needed |
| `Handler.MediasoupHandler.TransportConsume` | video-call-multiple-core/src/mediasoup_handler.js:261-333 | a missing room or consumer transport throws and changes nothing. A refused `canConsume` yields `undefined` and changes nothing. Otherwise it appends exactly `{consumer, userId}` to `consumers`, installs the handler for this producer, transport and consumer, and returns `id` equal to the consumer's id and `producerId` equal to the remote producer id |
| `Handler.MediasoupHandler.OnProducerClose` | video-call-multiple-core/src/mediasoup_handler.js:297-312 | firing an installed handler closes its transport and consumer, and applies `FireRule` to that room and to no other |
| `Handler.MediasoupHandler.GetConsumer` | video-call-multiple-core/src/mediasoup_handler.js:341-355 | it succeeds exactly when the room exists, `consumers` is defined and it holds a record with that id owned by the caller, and it returns that record's handle. Otherwise it fails with `RoomMissing`, `UndefinedRegistry` or `NoMatchingEntry` |
| `Handler.MediasoupHandler.RemoveItems` | video-call-multiple-core/src/mediasoup_handler.js:357-366 | it closes exactly the ids of the user's records and returns the other records in their original order |
| `Handler.MediasoupHandler.ClearUser` | video-call-multiple-core/src/mediasoup_handler.js:372-403 | a missing room throws `RoomMissing` and changes nothing. Otherwise the room becomes `ClearUserRoom`'s room, with the result and closed ids that `Rooms.ClearUserRoomProperties` describes. Other rooms are unchanged and no room is ever removed |
| `Handler.MediasoupHandler.ClearRoom` | video-call-multiple-core/src/mediasoup_handler.js:378-402 | the imperative steps of `clearUser`, in the source's order, produce exactly `ClearUserRoom`'s room, result and closed ids |

## Left out

- Engine calls (`createWorker`, `createRouter`, `createWebRtcTransport`, `produce`, `consume`, `canConsume`, `connect`, `resume`, `close`) are a foreign library doing asynchronous I/O. They become handles that the caller supplies with fresh ids, a `canConsume` function parameter, and the `closed` set.
- An engine call that rejects or never completes is not modelled: every engine call is assumed to succeed.
- The `kind` and `rtpParameters` passed to `produce`, and those that `transportConsume` copies from the engine's consumer into its reply, are engine data passed through unread. They are not modelled.
- The worker's `died` handler, with its timer and `process.exit`, is process control.
- The `dtlsstatechange`, `close` and `transportclose` handlers only forward to an engine `close()` or log.
- The engine decides when `producerclose` fires. `OnProducerClose` may be called for any installed handler. It changes nothing exactly when that handler's transport record and consumer record are both already gone: `Rooms.FireRuleAgainIsNoop` proves both directions.
- OnProducerClose: allows a run the source does not have. Take two consumers of one user on one receive transport. When the first one's handler fires, `transport.close()` also closes the second consumer in the engine (mediasoup_handler.js:293, :301). The second handler then never fires, and its record stays in `consumers`. The model still lets the second rule fire and drop that record, because the engine's cascade of closes on a closed transport is not modelled.
- Logging is left out.
- Interleaving of concurrent requests at `await` points is left out: each operation runs to completion in the model.
- The static `getInstant` and the Express routes in video-call-multiple-core/src/server.js only unpack requests. The socket.io proxy in video-call-example/src/server.js is network I/O. video-call-multiple-core/src/config.js is static configuration. None of them is part of this model.
- The `type` argument of `removeItems` names the field that holds the handle. In the model every record keeps its handle in one field, so the argument is dropped.
- A room is a value in the map rather than a shared object. Handlers refer to their room by id. The two agree only in a sequential run, where the source never replaces a room object once it is created. With two concurrent first joins, both wait at the router creation (:115). The later `this.rooms.set` (:128) then replaces the first room with one that lists only the second user. Handlers bound to the replaced object are not modelled.
- Router and worker ids are not tracked for freshness: no registry holds them.

