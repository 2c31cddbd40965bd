/** The client's connection to the server: the status it shows, the socket
    it keeps, what it sends and which inbound frames it hands to the store.

    A hook remembers every socket it ever opened, oldest first; the last one
    is the current socket, and socket events are those of the current
    socket. */
module Socket {
  import opened Wrappers
  import opened JsonValues
  import opened Actions
  import opened Loading
  import opened Transport
  import opened Entities

  /** The status the user sees. */
  datatype ConnectionStatus = StatusConnecting | StatusOpen | StatusClosed

  /** `sockets[k]` is the ready state of the k-th socket the hook opened. */
  datatype Hook = Hook(status: ConnectionStatus, sockets: seq<ReadyState>)

  /** The status a socket's ready state is shown as. */
  function StatusOf(rs: ReadyState): ConnectionStatus {
    match rs
    case Connecting => StatusConnecting
    case Open => StatusOpen
    case _ => StatusClosed
  }

  /** `connect` (also `retryConnection`): a current socket that is open or
      still connecting is closed, the status becomes connecting and a new
      socket is opened and made current. */
  function Connect(h: Hook): (r: Hook)
    ensures r.status == StatusConnecting
    ensures |r.sockets| == |h.sockets| + 1 && r.sockets[|h.sockets|] == Connecting
    ensures forall k | 0 <= k < |h.sockets| - 1 :: r.sockets[k] == h.sockets[k]
    ensures |h.sockets| > 0 ==>
      var last := h.sockets[|h.sockets| - 1];
      r.sockets[|h.sockets| - 1] == (if last == Open || last == Connecting then Closing else last)
  {
    var prior := if h.sockets == [] then []
      else
        var last := h.sockets[|h.sockets| - 1];
        h.sockets[..|h.sockets| - 1] + [if last == Open || last == Connecting then Closing else last];
    Hook(StatusConnecting, prior + [Connecting])
  }

  /** The hook on mount: status connecting, then the first connection
      attempt. */
  function Mount(): (h: Hook)
    ensures h == Hook(StatusConnecting, [Connecting])
  {
    Connect(Hook(StatusConnecting, []))
  }

  /** What the current socket reports. A browser fires `open` only on a
      socket that is still connecting and `close` only on one that is not
      yet closed; an event that could not fire leaves everything as it is. */
  datatype SocketEvent = Opened | ClosedEvent | Errored

  /** The current socket's ready state. */
  function Current(h: Hook): ReadyState
    requires |h.sockets| > 0
  {
    h.sockets[|h.sockets| - 1]
  }

  /** Whether the event can fire on the current socket. */
  predicate CanFire(h: Hook, ev: SocketEvent) {
    |h.sockets| > 0 &&
    match ev
    case Opened => Current(h) == Connecting
    case ClosedEvent => Current(h) != Closed
    case Errored => true
  }

  /** The current socket's handlers: `onopen` sets the status to open,
      `onclose` sets it to closed, and `onerror` only logs. */
  function OnEvent(h: Hook, ev: SocketEvent): (r: Hook)
    ensures |r.sockets| == |h.sockets|
    ensures forall k | 0 <= k < |h.sockets| - 1 :: r.sockets[k] == h.sockets[k]
    ensures !CanFire(h, ev) || ev.Errored? ==> r == h
    ensures CanFire(h, ev) && ev.Opened? ==> r.status == StatusOpen && Current(r) == Open
    ensures CanFire(h, ev) && ev.ClosedEvent? ==> r.status == StatusClosed && Current(r) == Closed
  {
    if !CanFire(h, ev) then h
    else
      var last := |h.sockets| - 1;
      match ev
      case Opened => Hook(StatusOpen, h.sockets[last := Open])
      case ClosedEvent => Hook(StatusClosed, h.sockets[last := Closed])
      case Errored => h
  }

  /** `sendAction`: the action goes out only when the current socket is
      open; otherwise it is dropped, never queued. */
  function Send(h: Hook, a: Action): (sent: Option<Action>)
    ensures sent.Some? <==> |h.sockets| > 0 && Current(h) == Open
    ensures sent.Some? ==> sent.value == a
  {
    if |h.sockets| > 0 && h.sockets[|h.sockets| - 1] == Open then Some(a) else None
  }

  /** An inbound text frame: not JSON at all, or a parsed document. */
  datatype Frame = Garbage | Parsed(doc: Document)

  /** `onmessage`: the frame is handed to the store only when it parses to an
      object whose `settings` is truthy; anything else is ignored. */
  function Accept(f: Frame): (r: Option<Snapshot>)
    ensures r.Some? <==> f.Parsed? && Usable(Some(f.doc))
    ensures r.Some? ==> f.doc == Object(r.value)
  {
    if f.Parsed? && Usable(Some(f.doc)) then Some(f.doc.snapshot) else None
  }

  /** A server broadcast is always accepted. */
  lemma BroadcastAccepted(st: Store)
    ensures Accept(Parsed(Object(Encode(st)))) == Some(Encode(st))
  {
    assert Truthy(JObj(st.settings));
  }

  // ---------------------------------------------------------------------
  // The status tells the truth

  /** The shown status is the current socket's, the current socket is never
      half-closed, and every replaced socket is closing or closed. */
  predicate Consistent(h: Hook) {
    && |h.sockets| > 0
    && h.status == StatusOf(h.sockets[|h.sockets| - 1])
    && h.sockets[|h.sockets| - 1] != Closing
    && forall k | 0 <= k < |h.sockets| - 1 :: h.sockets[k] == Closing || h.sockets[k] == Closed
  }

  lemma MountConsistent()
    ensures Consistent(Mount())
  {
  }

  lemma ConnectConsistent(h: Hook)
    requires Consistent(h)
    ensures Consistent(Connect(h))
  {
  }

  lemma OnEventConsistent(h: Hook, ev: SocketEvent)
    requires Consistent(h)
    ensures Consistent(OnEvent(h, ev))
  {
  }

  /** While the hook is consistent, an action is sent exactly when the user
      sees the status open. */
  lemma SendIffShownOpen(h: Hook, a: Action)
    requires Consistent(h)
    ensures Send(h, a).Some? <==> h.status == StatusOpen
  {
  }

  /** A run of socket events, each of the hook's kind. */
  function Run(h: Hook, evs: seq<SocketEvent>): (r: Hook)
    ensures |r.sockets| == |h.sockets|
    decreases |evs|
  {
    if evs == [] then h else Run(OnEvent(h, evs[0]), evs[1..])
  }

  /** Events keep the hook consistent. */
  lemma {:induction false} RunConsistent(h: Hook, evs: seq<SocketEvent>)
    requires Consistent(h)
    ensures Consistent(Run(h, evs))
    decreases |evs|
  {
    if evs != [] {
      OnEventConsistent(h, evs[0]);
      RunConsistent(OnEvent(h, evs[0]), evs[1..]);
    }
  }

  /** There is no automatic reconnection: once the status is closed, no
      sequence of socket events brings it back; only `retryConnection`
      does. */
  lemma {:induction false} NoAutoReconnect(h: Hook, evs: seq<SocketEvent>)
    requires Consistent(h) && h.status == StatusClosed
    ensures Run(h, evs).status == StatusClosed
    ensures Run(h, evs).sockets[|h.sockets| - 1] == Closed
    decreases |evs|
  {
    if evs != [] {
      var h' := OnEvent(h, evs[0]);
      OnEventConsistent(h, evs[0]);
      assert h'.status == StatusClosed;
      NoAutoReconnect(h', evs[1..]);
    }
  }

  /** A retry is the only way out of the closed status. */
  lemma RetryReopens(h: Hook)
    requires Consistent(h) && h.status == StatusClosed
    ensures Connect(h).status == StatusConnecting
    ensures OnEvent(Connect(h), Opened).status == StatusOpen
  {
  }
}
