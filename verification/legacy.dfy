/**
 * The older background service worker: a bounded message cache that answers a
 * `GET_MESSAGES` request and replies to a port's `INIT` with the cache. It keeps no
 * connection collection and broadcasts nothing.
 */
module LegacyServiceWorker {
  import opened Messages
  import History

  class Worker {
    /** `messageCache`: the latest messages, oldest first. */
    var cache: seq<Message>

    ghost predicate Valid()
      reads this
    {
      |cache| <= History.Capacity
    }

    /** The worker starts with an empty cache. */
    constructor ()
      ensures Valid() && cache == []
    {
      cache := [];
    }

    /**
     * A runtime message arrives: a `NEW_MESSAGE` is stored, a `GET_MESSAGES` is answered
     * with the cache, and any other type is ignored without a response.
     */
    method OnMessage(m: Message) returns (response: Option<seq<Message>>)
      requires Valid()
      modifies this
      ensures Valid()
      ensures cache == if m.msgType == NewMessage then History.Append(old(cache), m) else old(cache)
      ensures response.Some? <==> m.msgType == GetMessages
      ensures response.Some? ==> response.value == old(cache)
    {
      if m.msgType == NewMessage {
        Store(m);
      }
      response := Respond(m);
    }

    /** `push` the message, then `shift` the oldest one off when over capacity. */
    method Store(m: Message)
      requires Valid()
      modifies this
      ensures Valid()
      ensures cache == History.Append(old(cache), m)
    {
      cache := cache + [m];
      if |cache| > History.Capacity {
        cache := cache[1..];
      }
    }

    /** `sendResponse(messageCache)` for a `GET_MESSAGES`; nothing for any other type. */
    method Respond(m: Message) returns (response: Option<seq<Message>>)
      ensures response.Some? <==> m.msgType == GetMessages
      ensures response.Some? ==> response.value == cache
    {
      if m.msgType == GetMessages {
        response := Some(cache);
      } else {
        response := None;
      }
    }

    /**
     * A message on a connected port, of which only the `type` is read: an `INIT` is
     * answered with exactly one `MESSAGE_HISTORY` carrying the cache, even when the cache
     * is empty; any other type gets no post.
     */
    method OnPortMessage(msgType: string) returns (post: Option<Outbound>)
      ensures post.Some? <==> msgType == Init
      ensures post.Some? ==> post.value == MessageHistory(cache)
    {
      if msgType == Init {
        post := Some(MessageHistory(cache));
      } else {
        post := None;
      }
    }
  }
}
