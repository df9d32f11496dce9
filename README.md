# DisasterNet chat node, modelled in Dafny

DisasterNet runs a peer-to-peer chat node on top of libp2p and serves it to a
browser through a small HTTP API. Almost all networking is done by the
library. The node's own logic is in `backend/server.js`:

- an append-only in-memory message log that starts with a welcome line;
- the set of connected peer ids, fed by the `peer:connect` and
  `peer:disconnect` events;
- the inbound pub/sub handler, which drops echoes of the node's own messages;
- the replies of `GET /messages`, `GET /status`, `POST /reconnect` and
  `POST /send`;
- the fallback chain that dials a newly discovered peer: first WebSocket, then
  TCP, then by peer id;
- the start-up loop over the bootstrap addresses.

This project models that logic and proves what it promises.

Files:

- `wrappers.dfy`: `Option` and `Result` values.
- `js_text.dfy` (module `JsText`): the JavaScript string operations the node
  relies on, with their ECMAScript meaning. `trim` strips exactly the
  WhiteSpace and LineTerminator code points. `includes` is substring
  occurrence. `substring(0, n)` takes a prefix. A template literal renders a
  port as decimal digits.
- `dialing.dfy` (module `Dialing`): the discovery dial chain and the bootstrap
  loop.
  - Each library `dial` is replaced by the outcome it would have: it resolves
    to a connection, resolves to nothing, or throws with a message. A dial
    timeout is one more throw.
  - `DialDiscovered` follows the source's nested try/catch and its reassigned
    `connection` variable. It is proved equal to `DiscoveryChain`, a
    description of which dials happen under which conditions. The policy
    lemmas are about `DiscoveryChain`.
- `chat_node.dfy` (module `ChatNode`): the class `Node`, whose fields are the
  message log, the connected peers, the local peer id, the HTTP port and the
  optional bootstrap address. It has one method per handler, the pure reply
  derivations, and `StartNode` for process start-up.

Modelling choices:

- The connected-peer set is a JavaScript `Set`. `/status` returns it with
  `Array.from`, which lists it in insertion order. The model therefore keeps
  it as a duplicate-free sequence in insertion order. `AddPeer` and
  `RemovePeer` have set semantics.
- The body field `message` of `/send` is absent or a string.
- A bootstrap address counts as configured when it is present and non-empty.
  This is JavaScript truthiness, which both the start-up code and
  `/reconnect` test.
- An outcome the library reports is a parameter of the handler that awaits
  it. Where the node hands something to the library, the method returns it so
  that its contract can state it. This covers the payload `/send` publishes
  and the address `/reconnect` dials.
- In the source, `createNode` runs the bootstrap loop before the listeners
  that fill `connectedPeers` are registered. If libp2p reports the bootstrap
  connection's `peer:connect` event during that loop, as it does when the
  dial completes, the peer is missing from `connectedPeerIds` until a later
  reconnect adds it. The connection count in `/status` still includes it.
  `StartNode` states the part the node controls: it starts with no tracked
  peers, whatever the bootstrap dials gave.

## Model

| member | source | states |
|---|---|---|
| `ChatNode.Node.constructor` | backend/server.js:292-294 | The log starts as exactly the welcome line and no peer is tracked. |
| `ChatNode.BootstrapList` | backend/server.js:297 | Start-up dials at most one address. It dials one exactly when a bootstrap address is configured, that is present and non-empty, and then it dials that address. |
| `ChatNode.StartNode` | backend/server.js:174-180 | Start-up dials the configured bootstrap address, or nothing when none is configured, and records one result per dial. The new node's log is just the welcome line and its peer set is empty, whatever the dials gave. |
| `ChatNode.Node.OnPeerConnect` | backend/server.js:302-307 | A connect event adds the id to the tracked set. An id already present keeps its place. The set stays duplicate-free and the log does not change. |
| `ChatNode.Node.OnPeerDisconnect` | backend/server.js:309-314 | A disconnect event removes the id and keeps the other ids in order. The log does not change. |
| `ChatNode.AddPeer` | backend/server.js:304 | After `add`, the set holds the old ids plus the new one. Duplicate-freedom is kept, and adding a present id changes nothing. |
| `ChatNode.RemovePeer` | backend/server.js:311 | After `delete`, the set holds exactly the old ids other than the removed one. It never grows and stays duplicate-free. |
| `ChatNode.PeerEventsIdempotent` | backend/server.js:302-314 | Repeating a connect or a disconnect has no further effect. Disconnecting an id just connected for the first time restores the previous set. |
| `ChatNode.Node.OnPubsubMessage` | backend/server.js:316-321 | A message whose origin is the local peer id leaves the log unchanged. Any other origin appends its text as the new last line. The peer set does not change. |
| `ChatNode.Node.GetMessages` | backend/server.js:336 | `/messages` returns the whole log, which always starts with the welcome line. |
| `ChatNode.StatusReport` | backend/server.js:355-366 | If reading connections throws, the reply is 500 carrying the error text. Otherwise it is 200 with the peer id, the addresses, the connection count, the tracked ids and the log length. The status is `Connected` iff the count is positive and `Waiting for peers` iff it is zero. |
| `ChatNode.Node.GetStatus` | backend/server.js:339-367 | `/status` is `StatusReport` of the node's state. Its `connectedPeerIds` has no duplicates and holds exactly the tracked ids. Its `messages` field is at least 1. |
| `ChatNode.Node.Reconnect` | backend/server.js:370-394 | With no bootstrap address configured, the reply is 400 and nothing is dialled. Otherwise the configured address is dialled once and the reply comes from that dial's outcome. |
| `ChatNode.ReconnectReplyFor` | backend/server.js:378-393 | A dial that resolves gives 200, and `success` is true iff it resolved to a connection. A dial that throws gives 500 with `success` false and the error text. |
| `ChatNode.Node.Send` | backend/server.js:396-435 | A blank message is rejected with 400. Then nothing is stored or published. Otherwise the formatted line becomes the new last log line before publishing, the same line is published on the `disasternet-chat` topic, and the reply depends only on the publish outcome. |
| `ChatNode.IsBlankMessage` | backend/server.js:398 | `/send` refuses a message exactly when it is absent, empty or whitespace only, with whitespace as `trim` defines it. |
| `ChatNode.FormatMessage` | backend/server.js:399 | The stored line starts with `GuestUser-`, then the port's decimal digits, and ends with the text exactly as received. |
| `ChatNode.FormatMessageParses` | backend/server.js:399 | The stored line `GuestUser-<port>: <text>` can be split back into the port and the text. So two different senders or texts never produce the same line. |
| `ChatNode.PublishReply` | backend/server.js:405-434 | After a non-blank send, every outcome gives 200 with `success` true. `localOnly` is false iff publish succeeded, and a warning is present iff `localOnly`. The "shared once peers connect" warning is given iff the error text contains `NoPeersSubscribedToTopic`, and the "publish failed" warning for every other error. |
| `Dialing.WsAddresses` | backend/server.js:77 | The WebSocket list holds exactly the peer's addresses that contain `/ws`. Its head is the first such address in the peer's list. |
| `Dialing.TcpAddresses` | backend/server.js:78 | The TCP list holds exactly the peer's addresses that do not contain `/ws`. Its head is the first such address in the peer's list. |
| `Dialing.WithPeerId` | backend/server.js:86 | Encapsulating keeps the address as a prefix and ends with the peer id. An address containing `/ws` still contains it afterwards. |
| `Dialing.AddressSplit` | backend/server.js:77-78 | Together the two lists hold every address exactly as often as the peer lists it. |
| `Dialing.DialDiscovered` | backend/server.js:72-129 | The statement-by-statement dial chain, with its reassigned `connection` and its nested catches, does exactly what `DiscoveryChain` describes. It produces a report and never an error. |
| `Dialing.DiscoveryChain` | backend/server.js:83-110 | At most three dials are made, strictly in the order WebSocket, TCP, peer id. The WebSocket and TCP dials use the first address of their kind in the peer's list, with `/p2p/<peer id>` appended. The last dial uses the peer id itself. |
| `Dialing.DiscoveryFallbacks` | backend/server.js:83-110 | A WebSocket dial is made iff some address contains `/ws`. A TCP dial is made iff a TCP address exists and no WebSocket connection was obtained. A peer-id dial is made iff the TCP dial threw, so never without a TCP address. |
| `Dialing.DiscoveryResult` | backend/server.js:80-120 | The chain reports a connection iff one of the dials it made resolved to one. A hint is logged iff the peer-id dial was made and threw, and the hint is that error's classification. |
| `Dialing.ClassifyDiscoveryFailure` | backend/server.js:111-119 | An error containing `At least one protocol` is tagged as the protocol bug. One containing only `All multiaddr dials failed` is tagged as all dials failed. Anything else keeps its first 60 characters, or the whole message when it is shorter. |
| `Dialing.BootResultOf` | backend/server.js:197-260 | A bootstrap dial is recorded as connected, no connection, or failed, matching its outcome. It is failed with the known-bug hint iff the error contains `At least one protocol must be specified`. |
| `Dialing.DialBootstrapPeers` | backend/server.js:180-268 | Every configured address is dialled in list order. Entry i of the log is address i with the result of dial i, so a failure never stops the later dials. |
| `JsText.TrimEmptyIffBlank` | backend/server.js:398 | `s.trim() === ''` holds exactly when every character of `s` is ECMAScript whitespace or a line terminator. |
| `JsText.Trim` | backend/server.js:398 | `trim` returns a contiguous piece of the string that neither starts nor ends with whitespace. Only whitespace is removed around it. |
| `JsText.Includes` | backend/server.js:416 | `s.includes(t)` holds exactly when `t` occurs in `s` at some index. |
| `JsText.Prefix` | backend/server.js:118 | `substring(0, n)` is the first `n` characters, or the whole string when it is shorter. |
| `JsText.DecimalString` | backend/server.js:399 | The port renders as at least one decimal digit, with no leading zero. |
| `JsText.ParseDecimalString` | backend/server.js:399 | Reading the rendered port's digits back gives the port. |

## Left out

- libp2p node construction and configuration (backend/server.js:21-61): the transports, encryption, multiplexing, mDNS discovery, gossipsub, the connection manager and the start and settle delays. All of it is library behaviour.
- Timers: the 2 s delay before a discovery dial, the 2 s wait before bootstrap, the 5 s "taking longer" warning, the 30 s `Promise.race` dial timeout and the 30 s status interval (backend/server.js:72, 129, 178, 193-217, 324-334). A timed-out dial is modelled as a dial that threw.
- The ping check after a successful bootstrap dial (backend/server.js:223-237). It only logs.
- Dialing.BootResultOf: does not model a thrown value without a `message`, for which the source's own `error.message.includes` would throw inside the catch. Every modelled error carries text.
- The `knownPeers` field of `/status` (backend/server.js:342-353). It depends on the internal shape of the library's peer store.
- ChatNode.StatusReport: an error thrown by `getMultiaddrs` is not a separate input. The caller passes it as the failed connection reading, which gives the same 500 reply.
- UTF-8 encoding and decoding of pub/sub payloads (backend/server.js:15-16, 318, 407). It is the identity on strings here.
- `substring(0, 60)` counts UTF-16 code units in JavaScript. The model counts Unicode scalar values, which differs only for characters outside the Basic Multilingual Plane.
- ChatNode.Node.Reconnect: reports the configured address as dialled even when `multiaddr()` throws on it before any dial (backend/server.js:377). The reply is then the 500 of a thrown dial, as in the source.
- The outer `catch` of the discovery chain (backend/server.js:123-128). Every library call in the chain has its own inner `catch`, so no modelled outcome reaches it.
- A `/send` body whose `message` is a truthy non-string value. The source then throws on `.trim()`, and the async handler's promise rejects with nothing to handle it. What follows depends on versions: Express 4 never answers and Node 15 or later ends the process, while Express 5 replies 500.
- Logging, Express routing and CORS, yargs command-line parsing and `app.listen`.
- Interleaving of handlers at `await` points. Each handler is one atomic step, except that `/send` appends before it publishes.
- backend/p2p.js: an older bootstrap with no logic of its own beyond a bare dial loop.
- frontend/src/APP.tsx: React rendering and polling of `/messages`.
