/**
  Concrete runs of the SSH socket manager from its initial state, read back
  through the composable's read-only projections.
 */
module SshScenarios {

  import opened SshSocket
  import opened SshTraces

  /** Connect, handshake, session ready, then the transport drops. */
  lemma OpenReadyCloseScenario()
    ensures var s := Run(Init(), [Invoke(ConnectCall), Deliver(Event(0, OnConnect))]);
      IsSshSocketConnected(s) && !IsSshSessionReady(s)
    ensures var s := Run(Init(), [Invoke(ConnectCall), Deliver(Event(0, OnConnect)), Invoke(SetReadyCall(true))]);
      IsSshSocketConnected(s) && IsSshSessionReady(s)
    ensures var s := Run(Init(), [Invoke(ConnectCall), Deliver(Event(0, OnConnect)), Invoke(SetReadyCall(true)),
                                  Deliver(Event(0, OnDisconnect))]);
      !IsSshSocketConnected(s) && !IsSshSessionReady(s)
  {
  }

  /** The handshake times out (a `connect_error`); the next `connectSsh`
      releases the failed socket and creates a second one. */
  lemma TimeoutThenReconnectScenario()
    ensures var s := Run(Init(), [Invoke(ConnectCall), Deliver(Event(0, OnConnectError))]);
      !IsSshSocketConnected(s) && !IsSshSessionReady(s)
    ensures var s := Run(Init(), [Invoke(ConnectCall), Deliver(Event(0, OnConnectError)), Invoke(ConnectCall)]);
      SshSocketHandle(s) == Some(Socket(1, ConnectOptions, false)) && s.created == 2 && s.released == {0}
  {
  }

  /** `disconnectSsh` before any `connectSsh` fails nothing and leaves both
      flags false. */
  lemma DisconnectBeforeConnectScenario()
    ensures var s := Run(Init(), [Invoke(DisconnectCall)]);
      !IsSshSocketConnected(s) && !IsSshSessionReady(s) && SshSocketHandle(s).None?
  {
  }

  /** Readiness does not imply connectivity: `setSshSessionReady(true)` is
      accepted with no socket at all. */
  lemma ReadyWithoutConnectionReachable()
    ensures var s := Run(Init(), [Invoke(SetReadyCall(true))]);
      IsSshSessionReady(s) && !IsSshSocketConnected(s)
  {
  }

  /** Handlers are never unregistered and never check their socket: a late
      `disconnect` from a replaced socket clears the flags of the session on
      the socket now held, although that socket is still connected. A later
      `connectSsh` then only raises connectivity; readiness stays lost.
      Socket.IO itself does not emit events from a socket after `disconnect()`
      was called on it, so this run shows that the handlers have no guard on
      their socket, not a run the composable can go through. */
  lemma StaleEventClobbersSession()
    ensures var s := Run(Init(), [Invoke(ConnectCall), Invoke(ConnectCall), Deliver(Event(1, OnConnect)),
                                  Invoke(SetReadyCall(true)), Deliver(Event(0, OnDisconnect))]);
      !IsSshSocketConnected(s) && !IsSshSessionReady(s) && HeldConnected(s)
    ensures var s := Run(Init(), [Invoke(ConnectCall), Invoke(ConnectCall), Deliver(Event(1, OnConnect)),
                                  Invoke(SetReadyCall(true)), Deliver(Event(0, OnDisconnect)), Invoke(ConnectCall)]);
      IsSshSocketConnected(s) && !IsSshSessionReady(s) && s.created == 2
  {
  }
}
