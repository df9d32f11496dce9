/** The chat node's own state and HTTP handlers: the in-memory message log,
    the set of connected peer ids, the pub/sub and connection event handlers,
    and the replies of `/messages`, `/status`, `/reconnect` and `/send`.
    Library results (publish, dial, connection count, listening addresses) are
    parameters; each handler runs as one atomic step. */
module ChatNode {
  import opened Wrappers
  import opened JsText
  import opened Dialing

  /** The line the message log starts with. */
  const Welcome := "Welcome to the Node.js DisasterNet!"
  /** The one pub/sub topic the node subscribes and publishes to. */
  const Topic := "disasternet-chat"
  const SenderPrefix := "GuestUser-"
  const NoPeersErrorText := "NoPeersSubscribedToTopic"

  const EmptyMessageError := "Message cannot be empty."
  const PublishedMessage := "Message sent and published to P2P network"
  const NoPeersMessage := "Message stored locally (no peers connected yet)"
  const NoPeersWarning := "Message will be shared once peers connect"
  const PublishFailedMessage := "Message stored locally"
  const PublishFailedWarning := "P2P publish failed, but message is saved"

  const Connected := "Connected"
  const WaitingForPeers := "Waiting for peers"

  const NoBootstrapError := "No bootstrap peer configured"
  const ReconnectedMessage := "Reconnected to bootstrap peer"
  const NotReconnectedMessage := "Connection attempt completed but no connection established"
  const ReconnectFailedMessage := "Reconnection failed - this is expected due to libp2p v3 bug. Peers will discover each other via pubsub."

  /** What the awaited `pubsub.publish` call does: resolve, or throw an error
      with the given `message` (empty when the error has none). */
  datatype PublishOutcome = Published | PublishFailed(message: string)

  /** The reply of `POST /send`. */
  datatype SendReply =
    | SendRejected(error: string)
    | SendAccepted(success: bool, message: string, localOnly: bool, warning: Option<string>)
  {
    function Code(): nat {
      if SendRejected? then 400 else 200
    }
  }

  /** The reply of `GET /status`; the peer-store count is not part of it. */
  datatype StatusReply =
    | StatusOk(peerId: string, listeningAddresses: seq<string>, connectedPeers: nat,
               connectedPeerIds: seq<string>, messages: nat, status: string)
    | StatusFailed(error: string)
  {
    function Code(): nat {
      if StatusOk? then 200 else 500
    }
  }

  /** The reply of `POST /reconnect`. */
  datatype ReconnectReply =
    | NoBootstrap(error: string)
    | ReconnectDone(success: bool, message: string)
    | ReconnectFailed(success: bool, error: string, message: string)
  {
    function Code(): nat {
      match this
      case NoBootstrap(_) => 400
      case ReconnectDone(_, _) => 200
      case ReconnectFailed(_, _, _) => 500
    }
  }

  /** `!message || message.trim() === ''` for the `message` field of the
      request body, which is absent or a string: it holds exactly when the
      message is absent or made of whitespace only. */
  predicate IsBlankMessage(message: Option<string>): (b: bool)
    ensures b <==> message.None? || AllWhitespace(message.value)
  {
    if message.None? then true
    else
      TrimEmptyIffBlank(message.value);
      message.value == "" || Trim(message.value) == ""
  }

  /** The line stored and published for a message typed at this node: the
      sender name derived from the port, then the text exactly as received. */
  function FormatMessage(port: nat, text: string): (line: string)
    ensures |line| == |SenderPrefix| + |DecimalString(port)| + 2 + |text|
    ensures line[..|SenderPrefix|] == SenderPrefix
    ensures line[|line| - |text|..] == text
    ensures line[|SenderPrefix|..|SenderPrefix| + |DecimalString(port)|] == DecimalString(port)
  {
    SenderPrefix + DecimalString(port) + ": " + text
  }

  /** Splits a stored line into the sender's port and the text, when it has
      the shape `FormatMessage` gives it. */
  function ParseChatLine(line: string): Option<(nat, string)> {
    if |line| < |SenderPrefix| || line[..|SenderPrefix|] != SenderPrefix then None
    else
      var rest := line[|SenderPrefix|..];
      var digits := LeadingDigits(rest);
      var tail := rest[|digits|..];
      if digits == [] || |tail| < 2 || tail[..2] != ": " then None
      else Some((ParseDecimal(digits), tail[2..]))
  }

  /** The formatted line determines both the port and the text: distinct
      senders or texts never produce the same line. */
  lemma FormatMessageParses(port: nat, text: string)
    ensures ParseChatLine(FormatMessage(port, text)) == Some((port, text))
  {
    var d := DecimalString(port);
    var tail := ": " + text;
    var rest := d + tail;
    var line := SenderPrefix + rest;
    assert line == FormatMessage(port, text);
    assert line[..|SenderPrefix|] == SenderPrefix;
    assert line[|SenderPrefix|..] == rest;
    LeadingDigitsOfDigitsThen(d, tail);
    assert rest[|d|..] == tail;
    assert tail[..2] == ": " && tail[2..] == text;
    ParseDecimalString(port);
  }

  /** The reply `/send` gives once the message is stored, for each way the
      publish can end. */
  function PublishReply(outcome: PublishOutcome): (r: SendReply)
    ensures r.SendAccepted? && r.success && r.Code() == 200
    ensures !r.localOnly <==> outcome.Published?
    ensures r.warning.Some? <==> r.localOnly
    ensures r.warning == Some(NoPeersWarning) <==>
              outcome.PublishFailed? && exists i :: OccursAt(outcome.message, NoPeersErrorText, i)
    ensures r.warning == Some(PublishFailedWarning) <==>
              outcome.PublishFailed? && !exists i :: OccursAt(outcome.message, NoPeersErrorText, i)
  {
    match outcome
    case Published => SendAccepted(true, PublishedMessage, false, None)
    case PublishFailed(msg) =>
      if msg != "" && Includes(msg, NoPeersErrorText) then
        SendAccepted(true, NoPeersMessage, true, Some(NoPeersWarning))
      else
        SendAccepted(true, PublishFailedMessage, true, Some(PublishFailedWarning))
  }

  /** The `/status` reply for a connection count (or the error reading it
      raised), the listening addresses, the tracked peer ids and the log
      length. */
  function StatusReport(peerId: string, listening: seq<string>, connections: Result<nat, string>,
                        peerIds: seq<string>, logLength: nat): (r: StatusReply)
    ensures connections.Err? ==> r == StatusFailed(connections.error) && r.Code() == 500
    ensures connections.Ok? ==>
      && r.StatusOk? && r.Code() == 200
      && r.peerId == peerId && r.listeningAddresses == listening
      && r.connectedPeers == connections.value
      && r.connectedPeerIds == peerIds
      && r.messages == logLength
    ensures connections.Ok? ==> (r.status == Connected <==> connections.value > 0)
    ensures connections.Ok? ==> (r.status == WaitingForPeers <==> connections.value == 0)
  {
    match connections
    case Err(e) => StatusFailed(e)
    case Ok(n) =>
      StatusOk(peerId, listening, n, peerIds, logLength, if n > 0 then Connected else WaitingForPeers)
  }

  /** A bootstrap address counts as configured when it is present and not the
      empty string (JavaScript truthiness). */
  predicate IsConfigured(bootstrap: Option<string>) {
    bootstrap.Some? && bootstrap.value != ""
  }

  /** The list handed to start-up dialling: the configured address, alone,
      or nothing when none is configured. */
  function BootstrapList(bootstrap: Option<string>): (r: seq<string>)
    ensures |r| <= 1
    ensures r != [] <==> IsConfigured(bootstrap)
    ensures forall a :: a in r ==> bootstrap == Some(a) && a != ""
  {
    if IsConfigured(bootstrap) then [bootstrap.value] else []
  }

  /** The `/reconnect` reply once the bootstrap address was dialled. */
  function ReconnectReplyFor(outcome: DialOutcome): (r: ReconnectReply)
    ensures r.Code() == 200 <==> !outcome.Threw?
    ensures r.Code() == 500 <==> outcome.Threw?
    ensures r.ReconnectDone? ==> (r.success <==> outcome.Connected?)
    ensures r.ReconnectFailed? ==> !r.success && r.error == outcome.message
  {
    match outcome
    case Connected => ReconnectDone(true, ReconnectedMessage)
    case NoConnection => ReconnectDone(false, NotReconnectedMessage)
    case Threw(msg) => ReconnectFailed(false, msg, ReconnectFailedMessage)
  }

  /** No id occurs twice. */
  predicate NoDuplicates(s: seq<string>) {
    forall i, j :: 0 <= i < j < |s| ==> s[i] != s[j]
  }

  /** `Set.prototype.add` on a set kept in insertion order: an id already
      present keeps its place, a new one goes last. */
  function AddPeer(peers: seq<string>, id: string): (r: seq<string>)
    ensures forall x :: x in r <==> x in peers || x == id
    ensures NoDuplicates(peers) ==> NoDuplicates(r)
    ensures id in peers ==> r == peers
  {
    if id in peers then peers else peers + [id]
  }

  /** `Set.prototype.delete` on a set kept in insertion order: the other ids
      keep their relative order. */
  function RemovePeer(peers: seq<string>, id: string): (r: seq<string>)
    ensures forall x :: x in r <==> x in peers && x != id
    ensures |r| <= |peers|
    ensures NoDuplicates(peers) ==> NoDuplicates(r)
  {
    if peers == [] then []
    else
      var rest := RemovePeer(peers[1..], id);
      assert NoDuplicates(peers) ==> NoDuplicates(peers[1..]) && peers[0] !in peers[1..];
      (if peers[0] == id then [] else [peers[0]]) + rest
  }

  /** Connect and disconnect events are idempotent, and a disconnect undoes a
      connect of an id that was not yet connected. */
  lemma {:induction false} PeerEventsIdempotent(peers: seq<string>, id: string)
    ensures AddPeer(AddPeer(peers, id), id) == AddPeer(peers, id)
    ensures RemovePeer(RemovePeer(peers, id), id) == RemovePeer(peers, id)
    ensures id !in peers ==> RemovePeer(AddPeer(peers, id), id) == peers
  {
    RemoveAbsent(RemovePeer(peers, id), id);
    if id !in peers {
      RemoveAbsent(peers, id);
      RemoveAppend(peers, [id], id);
    }
  }

  lemma {:induction false} RemoveAbsent(peers: seq<string>, id: string)
    requires id !in peers
    ensures RemovePeer(peers, id) == peers
  {
    if peers != [] {
      RemoveAbsent(peers[1..], id);
    }
  }

  lemma {:induction false} RemoveAppend(a: seq<string>, b: seq<string>, id: string)
    ensures RemovePeer(a + b, id) == RemovePeer(a, id) + RemovePeer(b, id)
  {
    if a == [] {
      assert a + b == b;
    } else {
      assert (a + b)[1..] == a[1..] + b;
      RemoveAppend(a[1..], b, id);
    }
  }

  /** One chat node: its message log, the peers its connect/disconnect
      handlers track, and its fixed identity, HTTP port and bootstrap
      address. */
  class Node {
    var messages: seq<string>
    /** A JavaScript Set, kept as its insertion-ordered contents. */
    var connectedPeers: seq<string>
    const localId: string
    const port: nat
    const bootstrap: Option<string>

    /** The log always starts with the welcome line, and no peer id is
        tracked twice. */
    ghost predicate Valid()
      reads this
    {
      |messages| >= 1 && messages[0] == Welcome && NoDuplicates(connectedPeers)
    }

    /** The module state as the process creates it. */
    constructor (localId: string, port: nat, bootstrap: Option<string>)
      ensures Valid()
      ensures messages == [Welcome] && connectedPeers == []
      ensures this.localId == localId && this.port == port && this.bootstrap == bootstrap
    {
      this.localId := localId;
      this.port := port;
      this.bootstrap := bootstrap;
      messages := [Welcome];
      connectedPeers := [];
    }

    /** `peer:connect`: the id joins the tracked set; the log is untouched. */
    method OnPeerConnect(id: string)
      requires Valid()
      modifies this`connectedPeers
      ensures Valid()
      ensures connectedPeers == AddPeer(old(connectedPeers), id)
      ensures messages == old(messages)
    {
      if id !in connectedPeers {
        connectedPeers := connectedPeers + [id];
      }
    }

    /** `peer:disconnect`: the id leaves the tracked set; the log is
        untouched. */
    method OnPeerDisconnect(id: string)
      requires Valid()
      modifies this`connectedPeers
      ensures Valid()
      ensures connectedPeers == RemovePeer(old(connectedPeers), id)
      ensures messages == old(messages)
    {
      connectedPeers := RemovePeer(connectedPeers, id);
    }

    /** Inbound pub/sub `message`: an echo of this node's own publish is
        dropped, anything else is appended as it was received. */
    method OnPubsubMessage(from: string, text: string)
      requires Valid()
      modifies this`messages
      ensures Valid()
      ensures from == localId ==> messages == old(messages)
      ensures from != localId ==> messages == old(messages) + [text]
      ensures connectedPeers == old(connectedPeers)
    {
      if from == localId {
        return;
      }
      messages := messages + [text];
    }

    /** `GET /messages`: the whole log, oldest first. */
    method GetMessages() returns (r: seq<string>)
      requires Valid()
      ensures r == messages && |r| >= 1 && r[0] == Welcome
    {
      r := messages;
    }

    /** `GET /status`, given what the library reports. */
    method GetStatus(listening: seq<string>, connections: Result<nat, string>) returns (r: StatusReply)
      requires Valid()
      ensures r == StatusReport(localId, listening, connections, connectedPeers, |messages|)
      ensures r.StatusOk? ==> NoDuplicates(r.connectedPeerIds) && r.messages >= 1
      ensures r.StatusOk? ==> forall x :: x in r.connectedPeerIds <==> x in connectedPeers
    {
      r := StatusReport(localId, listening, connections, connectedPeers, |messages|);
    }

    /** `POST /reconnect`: without a bootstrap address nothing is dialled;
        otherwise that address is dialled once. `dialled` is the address
        handed to the library, if any. */
    method Reconnect(outcome: DialOutcome) returns (r: ReconnectReply, dialled: Option<string>)
      ensures !IsConfigured(bootstrap) ==> r == NoBootstrap(NoBootstrapError) && r.Code() == 400 && dialled == None
      ensures IsConfigured(bootstrap) ==> dialled == Some(bootstrap.value) && r == ReconnectReplyFor(outcome)
    {
      if !IsConfigured(bootstrap) {
        return NoBootstrap(NoBootstrapError), None;
      }
      dialled := Some(bootstrap.value);
      r := ReconnectReplyFor(outcome);
    }

    /** `POST /send`: a blank message is refused and nothing happens;
        otherwise the formatted line is appended first and then published on
        the topic, whose outcome only chooses the reply. `published` is the topic
        and payload handed to the library, if any. */
    method Send(message: Option<string>, outcome: PublishOutcome) returns (r: SendReply, published: Option<(string, string)>)
      requires Valid()
      modifies this`messages
      ensures Valid()
      ensures IsBlankMessage(message) ==>
        r == SendRejected(EmptyMessageError) && r.Code() == 400 && published == None && messages == old(messages)
      ensures !IsBlankMessage(message) ==>
        && messages == old(messages) + [FormatMessage(port, message.value)]
        && published == Some((Topic, FormatMessage(port, message.value)))
        && r == PublishReply(outcome)
      ensures connectedPeers == old(connectedPeers)
    {
      if IsBlankMessage(message) {
        return SendRejected(EmptyMessageError), None;
      }
      var line := FormatMessage(port, message.value);
      messages := messages + [line];
      published := Some((Topic, line));
      r := PublishReply(outcome);
    }
  }

  /** Process start-up: the bootstrap loop runs inside node creation, before
      the connect/disconnect listeners that feed `connectedPeers` exist, so a
      bootstrap connection is not tracked there. `bootOutcomes[i]` is what the
      i-th bootstrap dial gives. */
  method StartNode(localId: string, port: nat, bootstrap: Option<string>, bootOutcomes: seq<DialOutcome>)
    returns (node: Node, log: seq<BootAttempt>)
    requires |bootOutcomes| == |BootstrapList(bootstrap)|
    ensures fresh(node) && node.Valid()
    ensures node.messages == [Welcome] && node.connectedPeers == []
    ensures node.localId == localId && node.port == port && node.bootstrap == bootstrap
    ensures |log| == |BootstrapList(bootstrap)|
    ensures forall i :: 0 <= i < |log| ==>
              log[i] == BootAttempt(BootstrapList(bootstrap)[i], BootResultOf(bootOutcomes[i]))
  {
    log := DialBootstrapPeers(BootstrapList(bootstrap), bootOutcomes);
    node := new Node(localId, port, bootstrap);
  }
}
