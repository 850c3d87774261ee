/**
  The SSH socket connection manager of the control panel's front end
  (the `useSshSocket` composable).

  The manager holds three pieces of shared state: an optional Socket.IO
  client socket (the handle), a transport-connectivity flag and an SSH
  session-readiness flag. Three caller operations (`connectSsh`,
  `disconnectSsh`, `setSshSessionReady`) and three transport events
  delivered to the handlers registered on each socket (`connect`,
  `disconnect`, `connect_error`) change that state.

  The state is an immutable record and every operation and every handler is a
  pure transition function. Vue's `ref`/`readonly` become private fields read
  through the accessor functions at the end of the module.
 */
module SshSocket {

  datatype Option<+T> = None | Some(value: T)

  /** The options every socket is created with (they are handed to the opaque
      Socket.IO constructor; what the library does with them is not modelled). */
  datatype IoOptions = IoOptions(withCredentials: bool, reconnectionAttempts: nat, timeoutMs: nat)

  const ConnectOptions: IoOptions := IoOptions(withCredentials := true, reconnectionAttempts := 3, timeoutMs := 10000)

  /** A Socket.IO client socket as the manager sees it: an identity, the
      options it was created with, and the library's `connected` bit. */
  datatype Socket = Socket(id: nat, options: IoOptions, connected: bool)

  /** The module-scoped state of the composable, plus two bookkeeping fields:
      `created` counts the sockets constructed so far (socket ids are
      0 .. created-1, in creation order) and `released` holds the ids of the
      sockets on which `disconnect()` has been called. */
  datatype State = State(
    handle: Option<Socket>,
    connected: bool,
    ready: bool,
    created: nat,
    released: set<nat>)

  /** The three transport events for which `connectSsh` registers a handler. */
  datatype EventKind = OnConnect | OnDisconnect | OnConnectError

  /** A transport event, tagged with the id of the socket that emitted it. */
  datatype Event = Event(source: nat, kind: EventKind)

  /** The state at module load: no socket, both flags false. */
  function Init(): (r: State)
    ensures r.handle.None? && !r.connected && !r.ready
    ensures r.created == 0 && r.released == {}
  {
    State(None, false, false, 0, {})
  }

  /** True when a socket is held and the library reports it connected. */
  predicate HeldConnected(s: State)
  {
    s.handle.Some? && s.handle.value.connected
  }

  /** The sockets that were created and never released. */
  function Live(s: State): set<nat>
  {
    set i | 0 <= i < s.created && i !in s.released
  }

  /** The bookkeeping invariant of the manager: sockets are numbered in
      creation order, the held socket is always the newest one, and every
      older socket has been released. */
  ghost predicate Valid(s: State)
  {
    && (s.handle.None? <==> s.created == 0)
    && (s.handle.Some? ==> s.handle.value.id == s.created - 1)
    && (forall i :: i in s.released ==> i < s.created)
    && (forall i :: 0 <= i < s.created - 1 ==> i in s.released)
  }

  lemma InitValid()
    ensures Valid(Init())
    ensures Live(Init()) == {}
  {
  }

  /** In a valid state at most one socket is live, and it is the held one. */
  lemma AtMostOneLive(s: State)
    requires Valid(s)
    ensures forall i :: i in Live(s) ==> s.handle.Some? && i == s.handle.value.id
    ensures |Live(s)| <= 1
  {
    if s.handle.Some? {
      assert Live(s) <= {s.handle.value.id};
      SubsetCardinality(Live(s), {s.handle.value.id});
    } else {
      assert Live(s) == {};
    }
  }

  lemma SubsetCardinality(a: set<nat>, b: set<nat>)
    requires a <= b
    ensures |a| <= |b|
  {
    assert b == a + (b - a);
  }

  /** Calls `disconnect()` on the socket: the library drops its connected bit
      and the manager's bookkeeping records it as released. */
  function Release(sock: Socket, released: set<nat>): (r: (Socket, set<nat>))
    ensures r.0.id == sock.id && r.0.options == sock.options && !r.0.connected
    ensures r.1 == released + {sock.id}
  {
    (sock.(connected := false), released + {sock.id})
  }

  /** `connectSsh`. When the held socket is connected only the connectivity
      flag is reaffirmed. Otherwise any held socket is released first and one
      new socket, created with `ConnectOptions` and not yet connected, becomes
      the handle; the call itself leaves both flags as they were. */
  function ConnectSsh(s: State): (r: State)
    // already connected: no socket created, handle and readiness kept
    ensures HeldConnected(s) ==>
      r.connected && r.handle == s.handle && r.ready == s.ready
      && r.created == s.created && r.released == s.released
    // otherwise: exactly one fresh socket, stored as the handle
    ensures !HeldConnected(s) ==>
      && r.created == s.created + 1
      && r.handle.Some? && r.handle.value.id == s.created
      && r.handle.value.options == ConnectOptions && !r.handle.value.connected
      && r.connected == s.connected && r.ready == s.ready
    // a socket that is replaced was released first; nothing else is released
    ensures !HeldConnected(s) && s.handle.Some? ==> r.released == s.released + {s.handle.value.id}
    ensures !HeldConnected(s) && s.handle.None? ==> r.released == s.released
    ensures Valid(s) ==> Valid(r)
    // in a valid state the new socket is fresh and the only live one
    ensures Valid(s) && !HeldConnected(s) ==> r.handle.value.id !in r.released && Live(r) == {r.handle.value.id}
  {
    if HeldConnected(s) then
      s.(connected := true)
    else
      var released := if s.handle.Some? then Release(s.handle.value, s.released).1 else s.released;
      var sock := Socket(s.created, ConnectOptions, false);
      var r := State(Some(sock), s.connected, s.ready, s.created + 1, released);
      assert Valid(s) ==> Live(r) == {sock.id} by {
        if Valid(s) {
          forall i | i in Live(r) ensures i == sock.id {
            // every socket older than the new one was released
            assert i < s.created ==> i in released;
          }
        }
      }
      r
  }

  /** `disconnectSsh`. Releases the held socket if there is one (the handle is
      kept, not cleared) and always ends with both flags false. */
  function DisconnectSsh(s: State): (r: State)
    ensures !r.connected && !r.ready
    ensures r.created == s.created
    ensures r.handle.None? <==> s.handle.None?
    ensures s.handle.Some? ==>
      r.handle.value.id == s.handle.value.id && !r.handle.value.connected
      && r.handle.value.options == s.handle.value.options
      && r.released == s.released + {s.handle.value.id}
    ensures s.handle.None? ==> r.released == s.released
    ensures Valid(s) ==> Valid(r) && Live(r) == {}
  {
    if s.handle.Some? then
      var (sock, released) := Release(s.handle.value, s.released);
      State(Some(sock), false, false, s.created, released)
    else
      State(None, false, false, s.created, s.released)
  }

  /** `setSshSessionReady(isReady)`: stores the readiness flag, with no check
      against the connectivity flag, and changes nothing else. */
  function SetSshSessionReady(s: State, isReady: bool): (r: State)
    ensures r.ready == isReady
    ensures r.handle == s.handle && r.connected == s.connected
    ensures r.created == s.created && r.released == s.released
  {
    s.(ready := isReady)
  }

  /** Records a new `connected` bit on the held socket when `id` names it;
      a socket that is no longer held is not visible to the manager. */
  function MarkSocket(handle: Option<Socket>, id: nat, connected: bool): (r: Option<Socket>)
    ensures r.None? <==> handle.None?
    ensures handle.Some? ==> r.value.id == handle.value.id && r.value.options == handle.value.options
    ensures handle.Some? && handle.value.id == id ==> r.value.connected == connected
    ensures handle.Some? && handle.value.id != id ==> r == handle
  {
    if handle.Some? && handle.value.id == id then Some(handle.value.(connected := connected)) else handle
  }

  /** The `connect` handler of socket `source`: the connectivity flag goes up;
      readiness and the bookkeeping are untouched. */
  function HandleConnect(s: State, source: nat): (r: State)
    ensures r.connected && r.ready == s.ready
    ensures r.created == s.created && r.released == s.released
    ensures r.handle.None? <==> s.handle.None?
    ensures s.handle.Some? ==> r.handle.value.id == s.handle.value.id
    ensures s.handle.Some? && s.handle.value.id == source ==> r.handle == Some(s.handle.value.(connected := true))
    ensures s.handle.Some? && s.handle.value.id != source ==> r.handle == s.handle
    ensures Valid(s) ==> Valid(r)
  {
    s.(connected := true, handle := MarkSocket(s.handle, source, true))
  }

  /** The reset shared by the `disconnect` and `connect_error` handlers of
      socket `source`: both flags go down, whichever socket emitted it. */
  function ResetOnLoss(s: State, source: nat): (r: State)
    ensures !r.connected && !r.ready
    ensures r.created == s.created && r.released == s.released
    ensures r.handle.None? <==> s.handle.None?
    ensures s.handle.Some? ==> r.handle.value.id == s.handle.value.id
    ensures s.handle.Some? && s.handle.value.id == source ==> r.handle == Some(s.handle.value.(connected := false))
    ensures s.handle.Some? && s.handle.value.id != source ==> r.handle == s.handle
    ensures Valid(s) ==> Valid(r)
  {
    s.(connected := false, ready := false, handle := MarkSocket(s.handle, source, false))
  }

  /** Delivers a transport event to the handler registered for its kind:
      `connect` raises connectivity and keeps readiness, the other two drop
      both flags. No event creates or releases a socket. */
  function HandleEvent(s: State, e: Event): (r: State)
    ensures e.kind == OnConnect ==> r.connected && r.ready == s.ready
    ensures e.kind != OnConnect ==> !r.connected && !r.ready
    ensures r.created == s.created && r.released == s.released
    ensures r.handle.None? <==> s.handle.None?
    // the held socket keeps its identity and options; its bit follows its own events only
    ensures s.handle.Some? ==> r.handle.value.id == s.handle.value.id && r.handle.value.options == s.handle.value.options
    ensures s.handle.Some? && s.handle.value.id != e.source ==> r.handle == s.handle
    ensures s.handle.Some? && s.handle.value.id == e.source ==> r.handle.value.connected == (e.kind == OnConnect)
    ensures Valid(s) ==> Valid(r)
  {
    match e.kind
    case OnConnect => HandleConnect(s, e.source)
    case OnDisconnect => ResetOnLoss(s, e.source)
    case OnConnectError => ResetOnLoss(s, e.source)
  }

  /** `disconnect` and `connect_error` have the same effect on the state. */
  lemma DisconnectAndErrorAgree(s: State, source: nat)
    ensures HandleEvent(s, Event(source, OnDisconnect)) == HandleEvent(s, Event(source, OnConnectError))
  {
  }

  /** The handlers never look at whether the event comes from the held
      socket: the shared flags end up the same whatever the source. */
  lemma FlagsIgnoreSource(s: State, kind: EventKind, a: nat, b: nat)
    ensures HandleEvent(s, Event(a, kind)).connected == HandleEvent(s, Event(b, kind)).connected
    ensures HandleEvent(s, Event(a, kind)).ready == HandleEvent(s, Event(b, kind)).ready
  {
  }

  /** `connectSsh` twice in a row while connected is the same as once, and
      creates no socket. */
  lemma ConnectIdempotentWhenConnected(s: State)
    requires HeldConnected(s)
    ensures ConnectSsh(ConnectSsh(s)) == ConnectSsh(s)
    ensures ConnectSsh(ConnectSsh(s)).created == s.created
  {
  }

  /** Before the handshake completes a second `connectSsh` is not idempotent:
      it releases the socket the first call created and creates another. */
  lemma DoubleConnectBeforeHandshake(s: State)
    requires !HeldConnected(s)
    ensures ConnectSsh(ConnectSsh(s)).created == s.created + 2
    ensures s.created in ConnectSsh(ConnectSsh(s)).released
    ensures ConnectSsh(ConnectSsh(s)).handle.value.id == s.created + 1
  {
  }

  /** While the flag agrees with the held socket's own bit, the write of
      `connected := true` on the early-return path of `connectSsh` changes
      nothing at all. */
  lemma ReaffirmIsNoOp(s: State)
    requires HeldConnected(s) && s.connected
    ensures ConnectSsh(s) == s
  {
  }

  /** `disconnectSsh` is idempotent. */
  lemma DisconnectIdempotent(s: State)
    ensures DisconnectSsh(DisconnectSsh(s)) == DisconnectSsh(s)
  {
  }

  // Read-only projections returned by the composable.

  function SshSocketHandle(s: State): Option<Socket>
  {
    s.handle
  }

  function IsSshSocketConnected(s: State): bool
  {
    s.connected
  }

  function IsSshSessionReady(s: State): bool
  {
    s.ready
  }
}
