/**
 * A client of the handler's contracts: two peers in one room, one producing and one
 * consuming, then the producer's owner leaving and the consumer's `producerclose`
 * handler firing. Every outcome below follows from the contracts alone; the room
 * record between the stages is written out in full.
 */
module Scenario {
  import opened Results
  import opened Registry
  import opened Rooms
  import opened Handler

  /** Room "r1" after A and B joined, A opened send transport tA and B receive transport tB. */
  const Joined := Room(Handle("router"), ["A", "B"],
                       Some([Entry("A", Handle("tA"))]), Some([Entry("B", Handle("tB"))]), None, None, [])

  /** Room "r1" after A produced p1 over tA. */
  const Produced := Joined.(producers := Some([Entry("A", Handle("p1"))]))

  /** Room "r1" after B consumed p1 through consumer c1 over tB. */
  const Streaming := Produced.(consumers := Some([Entry("B", Handle("c1"))]),
                               rules := [CloseRule("p1", "tB", "c1")])

  /** Room "r1" after A and B joined, before any transport was opened. */
  const Met := Room(Handle("router"), ["A", "B"], None, None, None, None, [])

  method Join() returns (h: MediasoupHandler)
    ensures fresh(h) && h.Valid() && h.rooms == map["r1" := Met] && h.issued == {}
  {
    h := new MediasoupHandler();
    var early := h.GetOrCreateRouter("r1", "A", Handle("router"));
    assert early == Err(WorkerMissing);

    var worker := h.MakeWorker(Handle("worker"));
    assert worker == Handle("worker");
    var routerA := h.GetOrCreateRouter("r1", "A", Handle("router"));
    assert h.rooms == map["r1" := NewRoom(Handle("router"), "A")];
    var routerB := h.GetOrCreateRouter("r1", "B", Handle("other-router"));
    assert ["A"] + ["B"] == ["A", "B"];
    assert routerA == routerB == Ok(Handle("router"));
  }

  /** Room "r1" after A opened send transport tA. */
  const Sending := Met.(producerTransports := Some([Entry("A", Handle("tA"))]))

  method OpenSend(h: MediasoupHandler)
    requires h.Valid() && h.rooms == map["r1" := Met] && h.issued == {}
    modifies h
    ensures h.Valid() && h.rooms == map["r1" := Sending] && h.issued == {"tA"}
  {
    ghost var before := h.rooms;
    var sendA := h.CreateWebRtcTransport("r1", "A", ProducerTransports, Handle("tA"));
    assert Transports(Met, ProducerTransports).GetOr([]) + [Entry("A", Handle("tA"))] == [Entry("A", Handle("tA"))];
    assert WithTransports(Met, ProducerTransports, Some([Entry("A", Handle("tA"))])) == Sending;
    assert h.rooms == before["r1" := Sending];
    assert before["r1" := Sending] == map["r1" := Sending];
  }

  method OpenReceive(h: MediasoupHandler)
    requires h.Valid() && h.rooms == map["r1" := Sending] && h.issued == {"tA"}
    modifies h
    ensures h.Valid() && h.rooms == map["r1" := Joined] && h.issued == {"tA", "tB"}
  {
    ghost var before := h.rooms;
    var recvB := h.CreateWebRtcTransport("r1", "B", ConsumerTransports, Handle("tB"));
    assert Transports(Sending, ConsumerTransports).GetOr([]) + [Entry("B", Handle("tB"))] == [Entry("B", Handle("tB"))];
    assert WithTransports(Sending, ConsumerTransports, Some([Entry("B", Handle("tB"))])) == Joined;
    assert h.rooms == before["r1" := Joined];
    assert before["r1" := Joined] == map["r1" := Joined];
  }

  method Produce(h: MediasoupHandler)
    requires h.Valid() && h.rooms == map["r1" := Joined] && h.issued == {"tA", "tB"}
    modifies h
    ensures h.Valid() && h.rooms == map["r1" := Produced] && h.issued == {"tA", "tB", "p1"}
  {
    var wrongTransport := h.TransportProduce("r1", "B", "tA", Handle("p0"));
    assert wrongTransport == Err(NoMatchingEntry);
    var produced := h.TransportProduce("r1", "A", "tA", Handle("p1"));
    assert [] + [Entry("A", Handle("p1"))] == [Entry("A", Handle("p1"))];
    assert produced == Ok(ProduceData("p1", []));
  }

  method Consume(h: MediasoupHandler)
    requires h.Valid() && h.rooms == map["r1" := Produced] && h.issued == {"tA", "tB", "p1"}
    modifies h
    ensures h.Valid() && h.rooms == map["r1" := Streaming]
  {
    var refused := h.TransportConsume("r1", "B", "tB", "caps", "p1",
                                      (r: Handle, p: Id, c: RtpCapabilities) => false, Handle("c0"));
    assert refused == Ok(None);
    var consumed := h.TransportConsume("r1", "B", "tB", "caps", "p1",
                                       (r: Handle, p: Id, c: RtpCapabilities) => true, Handle("c1"));
    assert consumed == Ok(Some(ConsumeParams("c1", "p1")));
    assert [] + [Entry("B", Handle("c1"))] == [Entry("B", Handle("c1"))];
    assert [] + [CloseRule("p1", "tB", "c1")] == [CloseRule("p1", "tB", "c1")];
  }

  /** Room "r1" after A left: only B's records, B's handler still installed. */
  const Left := Room(Handle("router"), ["B"], Some([]), Some([Entry("B", Handle("tB"))]),
                     Some([]), Some([Entry("B", Handle("c1"))]), [CloseRule("p1", "tB", "c1")])

  method Leave(h: MediasoupHandler)
    requires h.Valid() && h.rooms == map["r1" := Streaming]
    modifies h
    ensures h.Valid() && h.rooms == map["r1" := Left]
  {
    var found := h.GetConsumer("r1", "B", "c1");
    assert found == Ok(Handle("c1"));

    var a := ByUser("A");
    assert Without([Entry("A", Handle("tA"))], a) == [];
    assert Without([Entry("B", Handle("tB"))], a) == [Entry("B", Handle("tB"))];
    assert Without([Entry("A", Handle("p1"))], a) == [];
    assert Without([Entry("B", Handle("c1"))], a) == [Entry("B", Handle("c1"))];
    assert UserIds([Entry("A", Handle("p1"))], "A") == ["p1"];
    assert WithoutPeer(["A", "B"], "A") == ["B"];
    ghost var before := h.rooms;
    var left := h.ClearUser("r1", "A");
    assert left == Ok(ClearData(["p1"], ["B"]));
    assert h.rooms == before["r1" := Left];
    assert before["r1" := Left] == map["r1" := Left];
  }

  method Close(h: MediasoupHandler)
    requires h.Valid() && h.rooms == map["r1" := Left]
    modifies h
  {
    h.OnProducerClose("r1", CloseRule("p1", "tB", "c1"));
    assert h.rooms["r1"].consumers == Some([]) && h.rooms["r1"].consumerTransports == Some([]);
    var gone := h.GetConsumer("r1", "B", "c1");
    assert gone == Err(NoMatchingEntry);
  }
}
