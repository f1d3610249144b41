/**
 * The current background service worker: a bounded message history, the set of connected
 * ports, and a fan-out of every new message to all of them, dropping a port whose send fails.
 */
module ServiceWorker {
  import opened Messages
  import History
  import Registry

  class Relay {
    /** `messageHistory`: the latest messages, oldest first. */
    var history: seq<Message>
    /** `connections`: the connected ports, in the order the `Set` iterates them. */
    var connections: seq<PortId>

    ghost predicate Valid()
      reads this
    {
      |history| <= History.Capacity && Registry.NoDup(connections)
    }

    /** The worker starts with no history and no connections. */
    constructor ()
      ensures Valid()
      ensures history == [] && connections == []
    {
      history := [];
      connections := [];
    }

    /**
     * A port connects: it joins the collection and is sent one `MESSAGE_HISTORY` snapshot,
     * unless the history is empty, in which case it is sent nothing.
     */
    method Connect(port: PortId) returns (post: Option<Outbound>)
      requires Valid()
      modifies this
      ensures Valid()
      ensures connections == Registry.Add(old(connections), port)
      ensures history == old(history)
      ensures post.Some? <==> history != []
      ensures post.Some? ==> post.value == MessageHistory(history)
    {
      connections := Registry.Add(connections, port);
      if |history| > 0 {
        post := Some(MessageHistory(history));
      } else {
        post := None;
      }
    }

    /** A port disconnects: it leaves the collection; disconnecting again changes nothing. */
    method Disconnect(port: PortId)
      requires Valid()
      modifies this
      ensures Valid()
      ensures connections == Registry.Without(old(connections), {port})
      ensures port !in connections
      ensures history == old(history)
    {
      Registry.WithoutNoDup(connections, {port});
      connections := Registry.Without(connections, {port});
    }

    /**
     * A runtime message arrives. A `NEW_MESSAGE` is first appended to the history and then
     * broadcast; `failing` holds the ports whose `postMessage` throws during that broadcast.
     * The result lists the ports that received the message, in delivery order. Any other
     * message type changes nothing and reaches nobody.
     */
    method OnMessage(m: Message, failing: set<PortId>) returns (delivered: seq<PortId>)
      requires Valid()
      modifies this
      ensures Valid()
      ensures m.msgType != NewMessage ==>
        history == old(history) && connections == old(connections) && delivered == []
      ensures m.msgType == NewMessage ==>
        && history == History.Append(old(history), m)
        && history[|history| - 1] == m
        && delivered == Registry.Without(old(connections), failing)
        && connections == delivered
    {
      if m.msgType == NewMessage {
        Record(m);
        delivered := Broadcast(failing);
      } else {
        delivered := [];
      }
    }

    /** `push` the message, then `shift` the oldest one off when over capacity. */
    method Record(m: Message)
      requires Valid()
      modifies this
      ensures Valid()
      ensures history == History.Append(old(history), m)
      ensures connections == old(connections)
    {
      history := history + [m];
      if |history| > History.Capacity {
        history := history[1..];
      }
    }

    /**
     * `connections.forEach` over the ports present when the broadcast starts. A port whose
     * send throws is deleted from the live collection and the loop goes on with the next one.
     */
    method Broadcast(failing: set<PortId>) returns (delivered: seq<PortId>)
      requires Valid()
      modifies this
      ensures Valid()
      ensures delivered == Registry.Without(old(connections), failing)
      ensures connections == delivered
      ensures history == old(history)
    {
      var ports := connections;
      delivered := [];
      var i := 0;
      while i < |ports|
        invariant 0 <= i <= |ports|
        invariant delivered == Registry.Without(ports[..i], failing)
        invariant connections == delivered + ports[i..]
        invariant history == old(history)
      {
        var port := ports[i];
        if port in failing {
          // postMessage threw: the port is treated as dead and deleted.
          DropStep(ports, i, failing);
          connections := Registry.Without(connections, {port});
        } else {
          KeepStep(ports, i, failing);
          delivered := delivered + [port];
        }
        i := i + 1;
      }
      assert ports[..i] == ports;
      Registry.WithoutNoDup(ports, failing);
    }
  }

  /** Visiting a port whose send succeeds: it joins the delivered prefix. */
  lemma KeepStep(ports: seq<PortId>, i: nat, failing: set<PortId>)
    requires i < |ports| && ports[i] !in failing
    ensures Registry.Without(ports[..i + 1], failing) == Registry.Without(ports[..i], failing) + [ports[i]]
    ensures Registry.Without(ports[..i], failing) + ports[i..]
         == Registry.Without(ports[..i + 1], failing) + ports[i + 1..]
  {
    Registry.WithoutConcat(ports[..i], [ports[i]], failing);
    assert ports[..i + 1] == ports[..i] + [ports[i]];
    assert ports[i..] == [ports[i]] + ports[i + 1..];
  }

  /**
   * Visiting a port whose send throws: deleting it from the live collection leaves the
   * delivered prefix followed by the ports not yet visited.
   */
  lemma DropStep(ports: seq<PortId>, i: nat, failing: set<PortId>)
    requires Registry.NoDup(ports) && i < |ports| && ports[i] in failing
    ensures Registry.Without(ports[..i + 1], failing) == Registry.Without(ports[..i], failing)
    ensures Registry.Without(Registry.Without(ports[..i], failing) + ports[i..], {ports[i]})
         == Registry.Without(ports[..i + 1], failing) + ports[i + 1..]
  {
    var done := Registry.Without(ports[..i], failing);
    Registry.WithoutConcat(ports[..i], [ports[i]], failing);
    assert ports[..i + 1] == ports[..i] + [ports[i]];
    assert ports[i..] == [ports[i]] + ports[i + 1..];
    Distinct(ports, i);
    RemoveOne(done, ports[i], ports[i + 1..]);
  }

  /** In a sequence without duplicates, the port at `i` occurs neither before nor after `i`. */
  lemma Distinct(ports: seq<PortId>, i: nat)
    requires Registry.NoDup(ports) && i < |ports|
    ensures ports[i] !in ports[..i] && ports[i] !in ports[i + 1..]
  {
  }

  /** Deleting a port that occurs once, between `before` and `after`, closes the gap. */
  lemma RemoveOne(before: seq<PortId>, p: PortId, after: seq<PortId>)
    requires p !in before && p !in after
    ensures Registry.Without(before + ([p] + after), {p}) == before + after
  {
    Registry.WithoutConcat(before, [p] + after, {p});
    Registry.WithoutConcat([p], after, {p});
    Registry.WithoutAbsent(before, {p});
    Registry.WithoutAbsent(after, {p});
  }
}
