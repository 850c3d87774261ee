# SSH socket connection manager

A Dafny model of the SSH socket composable `useSshSocket` of the HomeBrewFront control panel. It is the one
part of the front end with real behaviour. The composable keeps module-scoped state: an optional Socket.IO
client socket, a transport-connectivity flag (`isSshSocketConnected`) and an SSH session-readiness flag
(`isSshSessionReady`). It changes that state through three caller operations (`connectSsh`, `disconnectSsh`,
`setSshSessionReady`) and through three handlers that `connectSsh` registers on every socket it creates
(`connect`, `disconnect`, `connect_error`).

- `ssh_socket.dfy`, module `SshSocket`: the data model and one pure transition function per operation and
  per handler. The state is `State(handle, connected, ready, created, released)`. `created` counts the
  sockets constructed so far; sockets are numbered 0, 1, … in creation order. `released` holds the ids of
  the sockets on which `disconnect()` was called. A socket is `Socket(id, options, connected)`, where
  `connected` is the library's own bit. `Valid` is the bookkeeping invariant: the held socket is the newest
  one and every older socket was released.
- `ssh_traces.dfy`, module `SshTraces`: actions (a caller operation or an event delivered from a given
  socket), `Step`, `Run`, and lemmas that hold for every trace.
- `ssh_scenarios.dfy`, module `SshScenarios`: concrete runs from the initial state, read back through the
  read-only projections `SshSocketHandle`, `IsSshSocketConnected` and `IsSshSessionReady`.

Events carry the id of the socket that emitted them. The handlers are registered once per socket and never
removed, and they do not check that their socket is the held one. So an event from a replaced socket still
writes the shared flags. It only updates the `connected` bit of the handle when it comes from the held
socket.

Behaviour of the code worth noting:
- `connectSsh` with a connected socket still writes `connected := true`; it creates no socket and changes nothing else.
- `ready ⇒ connected` does not hold in every state, because `setSshSessionReady` sets the flag unconditionally
  (`ReadyWithoutConnectionReachable`). What holds instead: every step that lowers `connected` also lowers
  `ready` (`Step`, `LossClearsReadyAlongTrace`).
- `disconnectSsh` releases the socket but keeps it as the handle.
- Two `connectSsh` calls before the handshake completes create two sockets
  (`DoubleConnectBeforeHandshake`). Idempotence holds only while the held socket is connected.

## Model

| member | source | states |
|---|---|---|
| SshSocket.Init | src/composables/useSshSocket.ts:8-10 | Before any call there is no socket and both flags are false. |
| SshSocket.Release | src/composables/useSshSocket.ts:22-24 | Calling `disconnect()` on a socket keeps its identity and creation options, drops its connected bit and adds it to the released set. |
| SshSocket.ConnectSsh | src/composables/useSshSocket.ts:13-50 | If the held socket is connected, no socket is created, `connected` becomes true, and the handle and `ready` are kept. Otherwise the held socket, if any, is released, and exactly one fresh socket is created with the fixed options and stored as the handle. In that case the call leaves both flags alone. The bookkeeping invariant is preserved, and the new socket is then the only live one. |
| SshSocket.DisconnectSsh | src/composables/useSshSocket.ts:52-61 | Always ends with both flags false, also when no socket is held. The held socket is released and loses its connected bit, but it stays the handle. Afterwards no socket is live. |
| SshSocket.SetSshSessionReady | src/composables/useSshSocket.ts:63-65 | `ready` takes the given value, with no check against `connected`. Nothing else changes. |
| SshSocket.HandleConnect | src/composables/useSshSocket.ts:32-35 | A `connect` event raises `connected`, whichever socket sent it. It keeps `ready` and the bookkeeping. When the held socket sent the event, the handle becomes that same socket marked connected; otherwise the handle is untouched. |
| SshSocket.ResetOnLoss | src/composables/useSshSocket.ts:37-47 | A `disconnect` or `connect_error` event lowers both flags, whatever the prior state and whichever socket sent it. When the held socket sent the event, the handle becomes that same socket marked not connected; otherwise the handle is untouched. |
| SshSocket.HandleEvent | src/composables/useSshSocket.ts:32-47 | A `connect` event leaves `connected` true and `ready` as it was. A `disconnect` or `connect_error` event leaves both flags false. No event creates, releases or removes a socket, and the bookkeeping invariant is preserved. The held socket keeps its id and options; its connected bit follows its own events, and any other socket's event leaves the handle as it was. |
| SshSocket.AtMostOneLive | src/composables/useSshSocket.ts:21-30 | Because a replaced socket is always disconnected first, at most one socket is live, and it is the held one. |
| SshSocket.DisconnectAndErrorAgree | src/composables/useSshSocket.ts:37-47 | The `disconnect` and `connect_error` handlers have the same effect on the state. |
| SshSocket.FlagsIgnoreSource | src/composables/useSshSocket.ts:32-47 | The handlers have no guard on their socket. The flags they write do not depend on which socket emitted the event. |
| SshSocket.ConnectIdempotentWhenConnected | src/composables/useSshSocket.ts:14-19 | While the held socket is connected, a second `connectSsh` changes nothing and creates no socket. |
| SshSocket.DoubleConnectBeforeHandshake | src/composables/useSshSocket.ts:14-30 | If the held socket is not connected, two `connectSsh` calls create two sockets and release the first one. |
| SshSocket.ReaffirmIsNoOp | src/composables/useSshSocket.ts:14-18 | While the flag agrees with the held socket's connected bit, the early-return write `connected := true` changes nothing. |
| SshSocket.DisconnectIdempotent | src/composables/useSshSocket.ts:52-61 | A second `disconnectSsh` changes nothing. |
| SshTraces.Step | src/composables/useSshSocket.ts:13-65 | `connected` only goes down through `disconnectSsh`, a `disconnect` event or a `connect_error` event, and each of these also lowers `ready`. It only goes up through `connectSsh` or a `connect` event. One step creates at most one socket, and only a `connectSsh` step can. A released socket is never un-released. |
| SshTraces.RunPreservesValid | src/composables/useSshSocket.ts:13-61 | Any trace from a valid state keeps the bookkeeping invariant, so at most one socket is ever live. |
| SshTraces.RunCreatesOnlyOnConnect | src/composables/useSshSocket.ts:26-30 | Over a trace, the number of sockets created is at most the number of `connectSsh` calls. The released set only grows. |
| SshTraces.RunReady | src/composables/useSshSocket.ts:37-65 | After any trace, `ready` equals the last value written to it: the argument of `setSshSessionReady`, or false for a reset. If nothing wrote it, it keeps its initial value. |
| SshTraces.ReadyWitness | src/composables/useSshSocket.ts:37-65 | If `ready` is true after a trace, then either some `setSshSessionReady(true)` was followed by no further write of the flag, or the flag was true at the start and nothing in the trace wrote it. |
| SshTraces.ConnectedWitness | src/composables/useSshSocket.ts:13-61 | If `connected` is true after a trace, then either a `connectSsh` call or a `connect` event came after the last reset, or the flag was true at the start and nothing in the trace reset it. |
| SshTraces.FlagTracksHeldSocket | src/composables/useSshSocket.ts:9-47 | When every event comes from the socket held at the time, the connectivity flag equals the held socket's own connected bit after every trace that starts in agreement, so it tracks the transport's connection status. A late event from a replaced socket breaks this (`StaleEventClobbersSession`). |
| SshTraces.LossClearsReadyAlongTrace | src/composables/useSshSocket.ts:37-61 | At every point of every trace, a step that lowers `connected` also lowers `ready`. |
| SshTraces.ObservedThroughProjections | src/composables/useSshSocket.ts:67-74 | Read through the read-only projections after any trace: `isSshSessionReady` is the last value written to the readiness flag, a socket handle once exposed stays exposed, and after any `connectSsh` call a handle is exposed. |
| SshScenarios.OpenReadyCloseScenario | src/composables/useSshSocket.ts:67-74 | Connect, then a `connect` event, gives connected and not ready. `setSshSessionReady(true)` then gives connected and ready. A `disconnect` event then gives neither. |
| SshScenarios.TimeoutThenReconnectScenario | src/composables/useSshSocket.ts:43-49 | A `connect_error` after connecting lowers both flags. The next `connectSsh` releases socket 0 and holds a new socket 1. |
| SshScenarios.DisconnectBeforeConnectScenario | src/composables/useSshSocket.ts:52-61 | `disconnectSsh` with no socket held succeeds, leaves both flags false and leaves no handle. |
| SshScenarios.ReadyWithoutConnectionReachable | src/composables/useSshSocket.ts:63-65 | `ready` can be true while `connected` is false. |
| SshScenarios.StaleEventClobbersSession | src/composables/useSshSocket.ts:32-47 | A late `disconnect` event from a replaced socket clears both flags even though the held socket is still connected. A later `connectSsh` raises `connected` again, but `ready` stays false. |

## Left out

- The endpoint URL taken from the build environment (src/composables/useSshSocket.ts:5): this is configuration, and no branch depends on it.
- Socket.IO internals: the handshake, automatic reconnection (`reconnectionAttempts: 3`), the 10000 ms timeout and `withCredentials`. They are recorded as the constant `ConnectOptions` given to each new socket. What the library does with them appears only as events. A trace may contain any event from any socket, including events the real library would never emit for a released socket.
- The synchronous `disconnect` event that Socket.IO emits when `disconnect()` is called on a connected socket is not added by `DisconnectSsh`. It may appear as a separate event in a trace, and its reset gives the same flags as the call itself.
- The reason and error payloads of the `disconnect` and `connect_error` events, and the `console` logging: these are diagnostics only.
- Vue reactivity (`ref`, `readonly`): the state is an immutable record, and the projections are plain accessor functions.
- src/router/index.ts and src/main.ts: a static route table and app bootstrap with no logic.
