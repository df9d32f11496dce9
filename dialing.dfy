/** The node's own connection policy around the networking library's `dial`:
    the fallback chain it runs for a freshly discovered peer and the loop over
    the configured bootstrap addresses at start-up. Each library call is
    replaced by the outcome it would have, supplied by the caller; a dial that
    times out is one more thrown error. */
module Dialing {
  import opened Wrappers
  import opened JsText

  /** What one awaited `node.dial(...)` amounts to: it resolves to a
      connection, resolves to a falsy value, or throws. A throw carries the
      error text that the catching handler reads: `message`, or the string
      form when that is empty, in the discovery chain; plain `message` in the
      bootstrap loop and in `/reconnect`. */
  datatype DialOutcome = Connected | NoConnection | Threw(message: string)

  /** One dial the node makes, tagged by the branch of the fallback chain that
      made it, with the exact address or peer id handed to the library. */
  datatype DialAttempt = ViaWebSocket(addr: string) | ViaTcp(addr: string) | ViaPeerId(id: string)

  /** The hint logged when the last-resort dial by peer id throws. */
  datatype FailureHint = ProtocolBug | AllDialsFailed | OtherFailure(excerpt: string)

  /** Everything one run of the discovery chain does: the dials in the order
      made, whether a connection was obtained, and the hint it logged. */
  datatype DiscoveryReport = DiscoveryReport(attempts: seq<DialAttempt>, connected: bool, hint: Option<FailureHint>)

  const WsMarker := "/ws"
  const ProtocolBugText := "At least one protocol"
  const AllDialsFailedText := "All multiaddr dials failed"
  const ExcerptLength: nat := 60

  /** The addresses whose text contains `/ws`, in their original order. */
  function WsAddresses(addrs: seq<string>): (r: seq<string>)
    ensures forall a :: a in r ==> a in addrs && Includes(a, WsMarker)
    ensures forall a :: a in addrs && Includes(a, WsMarker) ==> a in r
    ensures r != [] ==> exists k :: FirstWith(addrs, k, true) && r[0] == addrs[k]
  {
    if addrs == [] then []
    else
      var rest := WsAddresses(addrs[1..]);
      if Includes(addrs[0], WsMarker) then
        assert FirstWith(addrs, 0, true);
        [addrs[0]] + rest
      else
        FirstWithShift(addrs, true);
        rest
  }

  /** The remaining addresses, in their original order. */
  function TcpAddresses(addrs: seq<string>): (r: seq<string>)
    ensures forall a :: a in r ==> a in addrs && !Includes(a, WsMarker)
    ensures forall a :: a in addrs && !Includes(a, WsMarker) ==> a in r
    ensures r != [] ==> exists k :: FirstWith(addrs, k, false) && r[0] == addrs[k]
  {
    if addrs == [] then []
    else
      var rest := TcpAddresses(addrs[1..]);
      if !Includes(addrs[0], WsMarker) then
        assert FirstWith(addrs, 0, false);
        [addrs[0]] + rest
      else
        FirstWithShift(addrs, false);
        rest
  }

  /** `addrs[k]` is the first address whose `/ws` test gives `ws`. */
  ghost predicate FirstWith(addrs: seq<string>, k: int, ws: bool) {
    0 <= k < |addrs| && Includes(addrs[k], WsMarker) == ws
    && forall j :: 0 <= j < k ==> Includes(addrs[j], WsMarker) != ws
  }

  /** When the first address fails the test, the first one that passes is
      the first one of the rest, one place later. */
  lemma FirstWithShift(addrs: seq<string>, ws: bool)
    requires addrs != [] && Includes(addrs[0], WsMarker) != ws
    ensures forall k :: FirstWith(addrs[1..], k, ws) ==> FirstWith(addrs, k + 1, ws)
  {
    forall k | FirstWith(addrs[1..], k, ws) ensures FirstWith(addrs, k + 1, ws) {
      forall j | 0 <= j < k + 1 ensures Includes(addrs[j], WsMarker) != ws {
        if j > 0 { assert addrs[j] == addrs[1..][j - 1]; }
      }
    }
  }

  /** The two filters split the address list: every address lands in exactly
      one of them, as often as it occurs. */
  lemma {:induction false} AddressSplit(addrs: seq<string>)
    ensures multiset(WsAddresses(addrs)) + multiset(TcpAddresses(addrs)) == multiset(addrs)
  {
    if addrs != [] {
      AddressSplit(addrs[1..]);
      assert addrs == [addrs[0]] + addrs[1..];
    }
  }

  /** `addr.encapsulate('/p2p/' + peerId)`: the address is kept as it is,
      so a WebSocket address stays one, and the peer id is named at the end. */
  function WithPeerId(addr: string, peerId: string): (r: string)
    ensures |r| > |addr| + |peerId| && r[..|addr|] == addr && r[|r| - |peerId|..] == peerId
    ensures Includes(addr, WsMarker) ==> Includes(r, WsMarker)
  {
    var r := addr + ("/p2p/" + peerId);
    IncludedInLonger(addr, "/p2p/" + peerId, WsMarker);
    r
  }

  /** An occurrence in a string is still one after something is appended. */
  lemma IncludedInLonger(a: string, b: string, t: string)
    ensures Includes(a, t) ==> Includes(a + b, t)
  {
    if Includes(a, t) {
      var i :| OccursAt(a, t, i);
      assert (a + b)[i..i + |t|] == a[i..i + |t|];
      assert OccursAt(a + b, t, i);
    }
  }

  /** The hint chosen by substring for an error of the last-resort dial. */
  function ClassifyDiscoveryFailure(msg: string): (h: FailureHint)
    ensures h == ProtocolBug <==> exists i :: OccursAt(msg, ProtocolBugText, i)
    ensures h == AllDialsFailed <==>
              (!exists i :: OccursAt(msg, ProtocolBugText, i)) && exists i :: OccursAt(msg, AllDialsFailedText, i)
    ensures h.OtherFailure? ==> |h.excerpt| <= ExcerptLength && |h.excerpt| <= |msg| && h.excerpt == msg[..|h.excerpt|]
    ensures h.OtherFailure? ==> |h.excerpt| == if |msg| <= ExcerptLength then |msg| else ExcerptLength
  {
    if Includes(msg, ProtocolBugText) then ProtocolBug
    else if Includes(msg, AllDialsFailedText) then AllDialsFailed
    else OtherFailure(Prefix(msg, ExcerptLength))
  }

  /** The discovery chain described by which dials happen rather than by the
      order of statements: WebSocket when there is a `/ws` address; TCP when
      there is a TCP address and the WebSocket dial (if any) gave no
      connection; peer id only when that TCP dial threw. At most three dials
      are made, strictly in the order WebSocket, TCP, peer id, each with the
      first address of its kind and the peer id appended, or the peer id. */
  function DiscoveryChain(peerId: string, addrs: seq<string>, ws: DialOutcome, tcp: DialOutcome, byId: DialOutcome)
    : (r: DiscoveryReport)
    ensures |r.attempts| <= 3
    ensures forall i, j :: 0 <= i < j < |r.attempts| ==> Rank(r.attempts[i]) < Rank(r.attempts[j])
    ensures forall a :: a in r.attempts && a.ViaWebSocket? ==>
              exists k :: FirstWith(addrs, k, true) && a.addr == WithPeerId(addrs[k], peerId)
    ensures forall a :: a in r.attempts && a.ViaTcp? ==>
              exists k :: FirstWith(addrs, k, false) && a.addr == WithPeerId(addrs[k], peerId)
    ensures forall a :: a in r.attempts && a.ViaPeerId? ==> a.id == peerId
  {
    var wsAddrs := WsAddresses(addrs);
    var tcpAddrs := TcpAddresses(addrs);
    var wsTried := wsAddrs != [];
    var wsConnected := wsTried && ws.Connected?;
    var tcpTried := !wsConnected && tcpAddrs != [];
    var idTried := tcpTried && tcp.Threw?;
    DiscoveryReport(
      (if wsTried then [ViaWebSocket(WithPeerId(wsAddrs[0], peerId))] else [])
      + (if tcpTried then [ViaTcp(WithPeerId(tcpAddrs[0], peerId))] else [])
      + (if idTried then [ViaPeerId(peerId)] else []),
      wsConnected || (tcpTried && tcp.Connected?) || (idTried && byId.Connected?),
      if idTried && byId.Threw? then Some(ClassifyDiscoveryFailure(byId.message)) else None)
  }

  /** The delayed connection attempt for a discovered peer, statement by
      statement: `connection` is reassigned by each dial, every throw is caught
      where it happens, and nothing escapes. */
  method DialDiscovered(peerId: string, addrs: seq<string>, ws: DialOutcome, tcp: DialOutcome, byId: DialOutcome)
    returns (report: DiscoveryReport)
    ensures report == DiscoveryChain(peerId, addrs, ws, tcp, byId)
  {
    var wsAddrs := WsAddresses(addrs);
    var tcpAddrs := TcpAddresses(addrs);
    var attempts: seq<DialAttempt> := [];
    var connection := false;
    var hint: Option<FailureHint> := None;
    if |wsAddrs| > 0 {
      attempts := attempts + [ViaWebSocket(WithPeerId(wsAddrs[0], peerId))];
      if !ws.Threw? {
        connection := ws.Connected?;
      }
    }
    if !connection && |tcpAddrs| > 0 {
      attempts := attempts + [ViaTcp(WithPeerId(tcpAddrs[0], peerId))];
      if !tcp.Threw? {
        connection := tcp.Connected?;
      } else {
        attempts := attempts + [ViaPeerId(peerId)];
        if !byId.Threw? {
          connection := byId.Connected?;
        } else {
          hint := Some(ClassifyDiscoveryFailure(byId.message));
        }
      }
    }
    report := DiscoveryReport(attempts, connection, hint);
  }

  /** The rank of a dial in the fallback order. */
  function Rank(a: DialAttempt): nat {
    match a
    case ViaWebSocket(_) => 0
    case ViaTcp(_) => 1
    case ViaPeerId(_) => 2
  }

  /** Some address of the peer contains `/ws`. */
  ghost predicate HasWsAddress(addrs: seq<string>) {
    exists a :: a in addrs && Includes(a, WsMarker)
  }

  /** Some address of the peer does not contain `/ws`. */
  ghost predicate HasTcpAddress(addrs: seq<string>) {
    exists a :: a in addrs && !Includes(a, WsMarker)
  }

  lemma SplitNonEmpty(addrs: seq<string>)
    ensures WsAddresses(addrs) != [] <==> HasWsAddress(addrs)
    ensures TcpAddresses(addrs) != [] <==> HasTcpAddress(addrs)
  {
    var w := WsAddresses(addrs);
    var t := TcpAddresses(addrs);
    if w != [] { assert w[0] in w; }
    if t != [] { assert t[0] in t; }
  }

  /** The chain made a dial of the given rank. */
  ghost predicate Tried(attempts: seq<DialAttempt>, rank: nat) {
    exists a :: a in attempts && Rank(a) == rank
  }

  /** When each fallback is taken: WebSocket exactly when some address has
      `/ws`; TCP exactly when a TCP address exists and no connection was
      obtained yet; peer id exactly when the TCP dial threw, hence never
      without a TCP address. */
  lemma DiscoveryFallbacks(peerId: string, addrs: seq<string>, ws: DialOutcome, tcp: DialOutcome, byId: DialOutcome)
    ensures var r := DiscoveryChain(peerId, addrs, ws, tcp, byId);
      && (Tried(r.attempts, 0) <==> HasWsAddress(addrs))
      && (Tried(r.attempts, 1) <==> HasTcpAddress(addrs) && !(HasWsAddress(addrs) && ws.Connected?))
      && (Tried(r.attempts, 2) <==> Tried(r.attempts, 1) && tcp.Threw?)
      && (Tried(r.attempts, 2) ==> HasTcpAddress(addrs))
  {
    SplitNonEmpty(addrs);
    var r := DiscoveryChain(peerId, addrs, ws, tcp, byId);
    var w := WsAddresses(addrs);
    var t := TcpAddresses(addrs);
    var wsPart := if w != [] then [ViaWebSocket(WithPeerId(w[0], peerId))] else [];
    var tcpTried := !(w != [] && ws.Connected?) && t != [];
    var tcpPart := if tcpTried then [ViaTcp(WithPeerId(t[0], peerId))] else [];
    var idPart := if tcpTried && tcp.Threw? then [ViaPeerId(peerId)] else [];
    assert r.attempts == wsPart + tcpPart + idPart;
    forall k: nat ensures Tried(r.attempts, k) <==> Tried(wsPart, k) || Tried(tcpPart, k) || Tried(idPart, k) {
      if Tried(r.attempts, k) {
        var a :| a in r.attempts && Rank(a) == k;
        assert a in wsPart || a in tcpPart || a in idPart;
      }
    }
    if w != [] { assert wsPart[0] in wsPart; }
    if tcpTried { assert tcpPart[0] in tcpPart; }
    if tcpTried && tcp.Threw? { assert idPart[0] in idPart; }
  }

  /** The chain reports a connection exactly when one of the dials it made
      resolved to one, and it logs a hint exactly when the last-resort dial
      threw. */
  lemma DiscoveryResult(peerId: string, addrs: seq<string>, ws: DialOutcome, tcp: DialOutcome, byId: DialOutcome)
    ensures var r := DiscoveryChain(peerId, addrs, ws, tcp, byId);
      var outcome := (a: DialAttempt) => match a case ViaWebSocket(_) => ws case ViaTcp(_) => tcp case ViaPeerId(_) => byId;
      && (r.connected <==> exists a :: a in r.attempts && outcome(a).Connected?)
      && (r.hint.Some? <==> exists a :: a in r.attempts && a.ViaPeerId? && byId.Threw?)
      && (r.hint.Some? ==> byId.Threw? && r.hint.value == ClassifyDiscoveryFailure(byId.message))
  {
    var r := DiscoveryChain(peerId, addrs, ws, tcp, byId);
    if |r.attempts| > 0 {
      assert r.attempts[|r.attempts| - 1] in r.attempts;
    }
  }

  /** The hint logged for a bootstrap dial that threw. */
  datatype BootHint = KnownEncryptionBug | GenericDialFailure

  /** What the start-up loop makes of one bootstrap address. */
  datatype BootResult = BootConnected | BootNoConnection | BootFailed(hint: BootHint)

  datatype BootAttempt = BootAttempt(addr: string, result: BootResult)

  const EncryptionBugText := "At least one protocol must be specified"

  /** The try/catch around one bootstrap dial: the error never leaves it, and
      its text picks the hint. */
  function BootResultOf(outcome: DialOutcome): (r: BootResult)
    ensures r == BootConnected <==> outcome.Connected?
    ensures r == BootNoConnection <==> outcome.NoConnection?
    ensures r.BootFailed? <==> outcome.Threw?
    ensures r == BootFailed(KnownEncryptionBug) <==>
              outcome.Threw? && exists i :: OccursAt(outcome.message, EncryptionBugText, i)
  {
    match outcome
    case Connected => BootConnected
    case NoConnection => BootNoConnection
    case Threw(msg) =>
      BootFailed(if Includes(msg, EncryptionBugText) then KnownEncryptionBug else GenericDialFailure)
  }

  /** Dials each bootstrap address in list order; `outcomes[i]` is what the
      i-th dial gives. Every address is attempted whatever happened to the
      earlier ones. */
  method DialBootstrapPeers(addrs: seq<string>, outcomes: seq<DialOutcome>) returns (log: seq<BootAttempt>)
    requires |outcomes| == |addrs|
    ensures |log| == |addrs|
    ensures forall i :: 0 <= i < |addrs| ==> log[i] == BootAttempt(addrs[i], BootResultOf(outcomes[i]))
  {
    log := [];
    for i := 0 to |addrs|
      invariant |log| == i
      invariant forall k :: 0 <= k < i ==> log[k] == BootAttempt(addrs[k], BootResultOf(outcomes[k]))
    {
      log := log + [BootAttempt(addrs[i], BootResultOf(outcomes[i]))];
    }
  }
}
