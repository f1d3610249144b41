/**
 * Clients of the two workers that drive them through short event sequences and state
 * what the callers observe, using only the workers' contracts.
 */
module Scenarios {
  import opened Messages
  import History
  import Registry
  import ServiceWorker
  import LegacyServiceWorker

  /**
   * Ports 1, 2 and 3 connect; sending to port 1 throws during the first broadcast. Ports 2
   * and 3 still receive it, port 1 is dropped, and the next broadcast targets only 2 and 3.
   */
  method FailingPortIsolated(m1: Message, m2: Message) returns (first: seq<PortId>, second: seq<PortId>)
    requires m1.msgType == NewMessage && m2.msgType == NewMessage
    ensures first == [2, 3]
    ensures second == [2, 3]
  {
    var relay := new ServiceWorker.Relay();
    var _ := relay.Connect(1);
    var _ := relay.Connect(2);
    var _ := relay.Connect(3);
    assert relay.connections == [1, 2, 3];
    first := relay.OnMessage(m1, {1});
    assert first == Registry.Without([1, 2, 3], {1}) == [2, 3];
    second := relay.OnMessage(m2, {});
    assert second == Registry.Without([2, 3], {}) == [2, 3];
  }

  /**
   * A port that connects to a fresh worker: the current worker sends it nothing, the older
   * one answers its `INIT` with an empty `MESSAGE_HISTORY`.
   */
  method EmptyHandshakes(port: PortId) returns (current: Option<Outbound>, legacy: Option<Outbound>)
    ensures current == None
    ensures legacy == Some(MessageHistory([]))
  {
    var relay := new ServiceWorker.Relay();
    current := relay.Connect(port);
    var worker := new LegacyServiceWorker.Worker();
    legacy := worker.OnPortMessage(Init);
  }

  /**
   * Three messages are submitted and then the cache is requested: the response is the
   * three messages in submission order, and the request itself stores nothing.
   */
  method RequestAfterThree(m1: Message, m2: Message, m3: Message, request: Message)
    returns (response: Option<seq<Message>>, cached: seq<Message>)
    requires m1.msgType == NewMessage && m2.msgType == NewMessage && m3.msgType == NewMessage
    requires request.msgType == GetMessages
    ensures response == Some([m1, m2, m3])
    ensures cached == [m1, m2, m3]
  {
    var worker := new LegacyServiceWorker.Worker();
    var _ := worker.OnMessage(m1);
    var _ := worker.OnMessage(m2);
    var _ := worker.OnMessage(m3);
    assert worker.cache == History.Append(History.Append(History.Append([], m1), m2), m3) == [m1, m2, m3];
    assert request.msgType != NewMessage;
    response := worker.OnMessage(request);
    cached := worker.cache;
  }

  /**
   * A port that connects after a few messages, with nobody connected while they were sent,
   * receives them as one snapshot in order, and is then sent each later message itself.
   */
  method LateJoiner(m1: Message, m2: Message, m3: Message, port: PortId)
    returns (snapshot: Option<Outbound>, delivered: seq<PortId>)
    requires m1.msgType == NewMessage && m2.msgType == NewMessage && m3.msgType == NewMessage
    ensures snapshot == Some(MessageHistory([m1, m2]))
    ensures delivered == [port]
  {
    var relay := new ServiceWorker.Relay();
    var none := relay.OnMessage(m1, {});
    none := relay.OnMessage(m2, {});
    assert relay.history == History.Append(History.Append([], m1), m2) == [m1, m2];
    snapshot := relay.Connect(port);
    delivered := relay.OnMessage(m3, {});
    assert delivered == Registry.Without([port], {}) == [port];
  }
}
