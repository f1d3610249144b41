# Message relay of the split-view extension, in Dafny

This project models the in-memory message relay that runs in the extension's background
service worker. The repository contains two versions of that worker, and both are modelled:

- `my-app/src/background/serviceWorker.js`, the current relay. It keeps `messageHistory`,
  the last 50 `NEW_MESSAGE`s, and `connections`, a `Set` of ports. A newly connected port is
  sent a `MESSAGE_HISTORY` snapshot when the history is not empty, and it is deleted again
  on disconnect. Every `NEW_MESSAGE` is appended to the history and then posted to every
  connected port. A port whose `postMessage` throws is deleted, and the loop goes on with
  the remaining ports.
- `my-app/public/background/serviceWorker.js`, the older worker. It keeps the same 50-message
  `messageCache`, answers `GET_MESSAGES` with the cache, and answers a port's `INIT` with a
  `MESSAGE_HISTORY`, even when the cache is empty. It has no connection collection and does
  no broadcast.

Layout:

- `messages.dfy` (module `Messages`): ports, messages, the `MESSAGE_HISTORY` post, `Option`.
- `history.dfy` (module `History`): the 50-entry capacity, the push-then-shift step
  `Append`, and lemmas showing that the buffer is a sliding window over every message seen.
- `registry.dfy` (module `Registry`): the `Set` of ports as a duplicate-free sequence in
  insertion order, because a JavaScript `Set` iterates in that order. It defines `Add`
  (`add`) and `Without` (`delete`, and the pruning done by a broadcast), with their lemmas.
- `relay.dfy` (module `ServiceWorker`): class `Relay`, the current worker. `Broadcast` is a
  loop over a snapshot of the port order that deletes failing ports from the live field.
- `legacy.dfy` (module `LegacyServiceWorker`): class `Worker`, the older worker. Its two
  replies are read-only methods.
- `scenarios.dfy` (module `Scenarios`): clients that drive both workers through short event
  sequences.

Abstractions:

- `port.postMessage` is either a success or a throw. A broadcast takes the set of ports
  whose send throws during that broadcast as a parameter.
- A port's identity is an integer.
- `Date.now()` timestamps are opaque integers.
- A posted history is a value: the host copies what is posted.

Behaviour of the code that the model keeps:

- Re-adding a port is a silent no-op, as `Set.add` is; there is no duplicate-id error.
- The current worker sends no snapshot to a port that connects while the history is empty.
- Only the older worker answers a history request (`GET_MESSAGES`).
- Message kinds are plain `type` strings, and unknown strings are ignored.
- A port message is looked at only for its `type`, so the older worker's port handler takes
  just that string.

## Model

| member | source | states |
|---|---|---|
| `History.Append` | my-app/src/background/serviceWorker.js:27-28 | the new message is the last entry; a history within capacity stays within 50 and becomes the latest 50 of the old history plus the message |
| `History.AppendAll` | my-app/src/background/serviceWorker.js:27-28 | any run of appends to a history of at most 50 entries leaves at most 50 |
| `History.AppendAllWindow` | my-app/src/background/serviceWorker.js:27-28 | appending a run to the window of an earlier stream gives the window of the whole stream, in arrival order with the oldest evicted first |
| `History.ReplayFromEmpty` | my-app/src/background/serviceWorker.js:2-28 | after N appends to the initial empty history it holds the last min(N, 50) messages oldest first, and all N when N <= 50 |
| `History.SixtyMessages` | my-app/public/background/serviceWorker.js:7-8 | messages M1..M60 leave exactly M11..M60 |
| `Registry.Add` | my-app/src/background/serviceWorker.js:7 | the port becomes a member, a present port leaves the collection unchanged, a new port is iterated last, no duplicates arise |
| `Registry.Without` | my-app/src/background/serviceWorker.js:19 | exactly the ports not dropped remain, and never more than there were |
| `Registry.WithoutNoDup` | my-app/src/background/serviceWorker.js:36 | deleting ports from a collection without duplicates leaves one without duplicates |
| `Registry.WithoutConcat` | my-app/src/background/serviceWorker.js:31-38 | pruning keeps the relative order of the remaining ports |
| `Registry.WithoutTwice` | my-app/src/background/serviceWorker.js:19 | deleting the same ports a second time is a no-op |
| `Registry.OccursOnce` | my-app/src/background/serviceWorker.js:31-34 | each registered port whose send does not throw is delivered to exactly once, every other port never |
| `ServiceWorker.Relay.constructor` | my-app/src/background/serviceWorker.js:2-3 | the worker starts with an empty history and no connections |
| `ServiceWorker.Relay.Connect` | my-app/src/background/serviceWorker.js:6-15 | the port is added with `Set` semantics; it gets one `MESSAGE_HISTORY` equal to the history iff the history is non-empty; the history is untouched |
| `ServiceWorker.Relay.Disconnect` | my-app/src/background/serviceWorker.js:18-20 | the port is no longer connected, all other ports stay in order, the history is untouched |
| `ServiceWorker.Relay.OnMessage` | my-app/src/background/serviceWorker.js:24-42 | a `NEW_MESSAGE` is appended (and is the last entry) before delivery to the ports not failing, which are exactly the surviving connections; any other type changes nothing and delivers nothing |
| `ServiceWorker.Relay.Record` | my-app/src/background/serviceWorker.js:27-28 | in-place push then shift equals `Append` and keeps at most 50 entries |
| `ServiceWorker.Relay.Broadcast` | my-app/src/background/serviceWorker.js:31-38 | every port present at the start not in the failing set receives the message in order; the connections become the old ones minus exactly the failing ports |
| `ServiceWorker.DropStep` | my-app/src/background/serviceWorker.js:36 | deleting the port being visited neither skips nor repeats a later port |
| `LegacyServiceWorker.Worker.constructor` | my-app/public/background/serviceWorker.js:2 | the cache starts empty |
| `LegacyServiceWorker.Worker.OnMessage` | my-app/public/background/serviceWorker.js:5-16 | a `NEW_MESSAGE` is appended within 50 entries; a `GET_MESSAGES` gets the cache as response and changes nothing; other types change nothing and get no response |
| `LegacyServiceWorker.Worker.Store` | my-app/public/background/serviceWorker.js:6-9 | in-place push then shift equals `Append` and keeps at most 50 entries |
| `LegacyServiceWorker.Worker.Respond` | my-app/public/background/serviceWorker.js:11-13 | a response exists iff the type is `GET_MESSAGES`, and it is exactly the current cache, which is not modified |
| `LegacyServiceWorker.Worker.OnPortMessage` | my-app/public/background/serviceWorker.js:19-28 | exactly one `MESSAGE_HISTORY` carrying the cache iff the port message is `INIT`, even for an empty cache; nothing else is posted and the cache is not touched |
| `Scenarios.FailingPortIsolated` | my-app/src/background/serviceWorker.js:31-38 | with ports 1, 2, 3 and port 1 failing, 2 and 3 receive the message and the next broadcast targets only 2 and 3 |
| `Scenarios.EmptyHandshakes` | my-app/src/background/serviceWorker.js:10-15 | on a fresh worker the current version posts no history while the older one posts an empty `MESSAGE_HISTORY` |
| `Scenarios.RequestAfterThree` | my-app/public/background/serviceWorker.js:5-16 | after three messages a `GET_MESSAGES` is answered with the three in order and stores nothing |
| `Scenarios.LateJoiner` | my-app/src/background/serviceWorker.js:6-38 | a port connecting after two messages gets exactly those two as a snapshot, then receives the next message by broadcast |

## Left out

- The Chrome transport: listener registration, `sendResponse` and the `return true` flag. The
  workers are modelled as objects whose methods are the event handlers.
- `console.log` output is not modelled.
- The handshake post in `onConnect` sits outside any `try`. The model treats it as always
  delivered, because the port has only just connected. If it did throw, the disconnect
  listener would not be registered; that case is not modelled.
- Concurrency: the host delivers one event at a time and every handler is synchronous, so
  each method runs to completion.
- `my-app/src/App.jsx` and `my-app/src/sidepanel.js` are not part of this model. They hold
  UI state, window geometry, a simulated reply timer and an unbounded re-send wrapper.
