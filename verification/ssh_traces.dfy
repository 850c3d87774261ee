/**
  Traces of the SSH socket manager: the caller operations and transport
  events interleaved in the order the single event loop runs them, and the
  properties that hold along every such trace.

  Socket.IO's own behaviour (handshake, the three automatic reconnection
  attempts, the ten-second timeout) is not modelled: it shows up only as the
  events it causes, and a trace may contain any event from any socket.
 */
module SshTraces {

  import opened SshSocket

  /** A call a component makes on the composable. */
  datatype Call = ConnectCall | DisconnectCall | SetReadyCall(isReady: bool)

  /** One turn of the event loop: a caller operation or a delivered event. */
  datatype Action = Invoke(call: Call) | Deliver(event: Event)

  /** The actions that force both flags down: `disconnectSsh`, and the
      `disconnect` and `connect_error` events of any socket. */
  predicate Resets(a: Action)
  {
    a == Invoke(DisconnectCall) || (a.Deliver? && a.event.kind != OnConnect)
  }

  /** The actions that may raise the connectivity flag. */
  predicate MayConnect(a: Action)
  {
    a == Invoke(ConnectCall) || (a.Deliver? && a.event.kind == OnConnect)
  }

  function Step(s: State, a: Action): (r: State)
    // connectivity is lost only through a reset, and a reset also drops readiness
    ensures Resets(a) ==> !r.connected && !r.ready
    ensures s.connected && !r.connected ==> Resets(a)
    ensures !s.connected && r.connected ==> MayConnect(a)
    ensures Valid(s) ==> Valid(r)
    ensures s.created <= r.created <= s.created + (if a == Invoke(ConnectCall) then 1 else 0)
    ensures s.released <= r.released
    // a handle, once stored, is never cleared
    ensures s.handle.Some? ==> r.handle.Some?
  {
    match a
    case Invoke(ConnectCall) => ConnectSsh(s)
    case Invoke(DisconnectCall) => DisconnectSsh(s)
    case Invoke(SetReadyCall(b)) => SetSshSessionReady(s, b)
    case Deliver(e) => HandleEvent(s, e)
  }

  /** Runs the actions of `t` in order, starting from `s`. */
  function Run(s: State, t: seq<Action>): State
    decreases |t|
  {
    if t == [] then s else Run(Step(s, t[0]), t[1..])
  }

  lemma {:induction false} RunAppend(s: State, t: seq<Action>, a: Action)
    ensures Run(s, t + [a]) == Step(Run(s, t), a)
    decreases |t|
  {
    if t == [] {
      assert t + [a] == [a];
      assert [a][1..] == [];
    } else {
      assert (t + [a])[0] == t[0];
      assert (t + [a])[1..] == t[1..] + [a];
      RunAppend(Step(s, t[0]), t[1..], a);
    }
  }

  /** The bookkeeping invariant holds after every trace from a valid state,
      so at most one socket is ever live and it is the held one. */
  lemma {:induction false} RunPreservesValid(s: State, t: seq<Action>)
    requires Valid(s)
    ensures Valid(Run(s, t))
    ensures |Live(Run(s, t))| <= 1
    decreases |t|
  {
    if t == [] {
      AtMostOneLive(s);
    } else {
      RunPreservesValid(Step(s, t[0]), t[1..]);
    }
  }

  function CountConnectCalls(t: seq<Action>): nat
  {
    if t == [] then 0 else (if t[0] == Invoke(ConnectCall) then 1 else 0) + CountConnectCalls(t[1..])
  }

  /** Sockets are created only by `connectSsh`, at most one per call, and a
      released socket stays released. */
  lemma {:induction false} RunCreatesOnlyOnConnect(s: State, t: seq<Action>)
    ensures s.created <= Run(s, t).created <= s.created + CountConnectCalls(t)
    ensures s.released <= Run(s, t).released
    decreases |t|
  {
    if t != [] {
      RunCreatesOnlyOnConnect(Step(s, t[0]), t[1..]);
    }
  }

  /** The value an action writes into the readiness flag, if it writes one. */
  function ReadyWrite(a: Action): Option<bool>
  {
    if a.Invoke? && a.call.SetReadyCall? then Some(a.call.isReady)
    else if Resets(a) then Some(false)
    else None
  }

  /** Reference definition of the readiness flag after a trace: the last
      value written into it, or the initial value if nothing wrote it. */
  function LastReadyWrite(ready0: bool, t: seq<Action>): bool
    decreases |t|
  {
    if t == [] then ready0
    else match ReadyWrite(t[|t| - 1])
      case Some(b) => b
      case None => LastReadyWrite(ready0, t[..|t| - 1])
  }

  lemma {:induction false} RunReady(s: State, t: seq<Action>)
    ensures Run(s, t).ready == LastReadyWrite(s.ready, t)
    decreases |t|
  {
    if t != [] {
      var t', a := t[..|t| - 1], t[|t| - 1];
      assert t == t' + [a];
      RunAppend(s, t', a);
      RunReady(s, t');
    }
  }

  /** Readiness at the end of a trace was set by `setSshSessionReady(true)`
      with no later write of the flag, or was already set at the start and
      nothing in the trace wrote it. */
  lemma {:induction false} ReadyWitness(s: State, t: seq<Action>)
    requires Run(s, t).ready
    ensures
      || (exists i :: 0 <= i < |t| && t[i] == Invoke(SetReadyCall(true))
            && forall j :: i < j < |t| ==> ReadyWrite(t[j]).None?)
      || (s.ready && forall j :: 0 <= j < |t| ==> ReadyWrite(t[j]).None?)
    decreases |t|
  {
    if t != [] {
      var t', a := t[..|t| - 1], t[|t| - 1];
      assert t == t' + [a];
      RunAppend(s, t', a);
      if ReadyWrite(a).Some? {
        assert a == Invoke(SetReadyCall(true));
        assert t[|t| - 1] == a;
      } else {
        ReadyWitness(s, t');
        if exists i :: 0 <= i < |t'| && t'[i] == Invoke(SetReadyCall(true))
            && forall j :: i < j < |t'| ==> ReadyWrite(t'[j]).None? {
          var i :| 0 <= i < |t'| && t'[i] == Invoke(SetReadyCall(true))
            && forall j :: i < j < |t'| ==> ReadyWrite(t'[j]).None?;
          assert t[i] == t'[i];
          assert forall j :: i < j < |t| ==> ReadyWrite(t[j]).None? by {
            forall j | i < j < |t| ensures ReadyWrite(t[j]).None? {
              if j < |t'| { assert t[j] == t'[j]; }
            }
          }
        } else {
          assert forall j :: 0 <= j < |t| ==> ReadyWrite(t[j]).None? by {
            forall j | 0 <= j < |t| ensures ReadyWrite(t[j]).None? {
              if j < |t'| { assert t[j] == t'[j]; }
            }
          }
        }
      }
    }
  }

  /** Connectivity at the end of a trace was raised by a `connectSsh` call or
      a `connect` event after the last reset, or was already up at the start
      and nothing in the trace reset it. */
  lemma {:induction false} ConnectedWitness(s: State, t: seq<Action>)
    requires Run(s, t).connected
    ensures
      || (exists i :: 0 <= i < |t| && MayConnect(t[i]) && forall j :: i < j < |t| ==> !Resets(t[j]))
      || (s.connected && forall j :: 0 <= j < |t| ==> !Resets(t[j]))
    decreases |t|
  {
    if t != [] {
      var t', a := t[..|t| - 1], t[|t| - 1];
      assert t == t' + [a];
      RunAppend(s, t', a);
      if !Run(s, t').connected {
        assert MayConnect(t[|t| - 1]);
      } else {
        ConnectedWitness(s, t');
        if exists i :: 0 <= i < |t'| && MayConnect(t'[i]) && forall j :: i < j < |t'| ==> !Resets(t'[j]) {
          var i :| 0 <= i < |t'| && MayConnect(t'[i]) && forall j :: i < j < |t'| ==> !Resets(t'[j]);
          assert t[i] == t'[i];
          assert forall j :: i < j < |t| ==> !Resets(t[j]) by {
            forall j | i < j < |t| ensures !Resets(t[j]) {
              if j < |t'| { assert t[j] == t'[j]; }
            }
          }
        } else {
          assert forall j :: 0 <= j < |t| ==> !Resets(t[j]) by {
            forall j | 0 <= j < |t| ensures !Resets(t[j]) {
              if j < |t'| { assert t[j] == t'[j]; }
            }
          }
        }
      }
    }
  }

  /** Every event in `t` comes from the socket held when it is delivered,
      as it does when the library emits no event from a released socket. */
  predicate FromHeld(s: State, t: seq<Action>)
    decreases |t|
  {
    t == [] ||
    (&& (t[0].Deliver? ==> s.handle.Some? && t[0].event.source == s.handle.value.id)
     && FromHeld(Step(s, t[0]), t[1..]))
  }

  /** On traces whose events all come from the held socket, the connectivity
      flag always agrees with that socket's own `connected` bit: it tracks
      the connection status of the transport. `StaleEventClobbersSession`
      shows the agreement breaking once a replaced socket's event arrives. */
  lemma {:induction false} FlagTracksHeldSocket(s: State, t: seq<Action>)
    requires s.connected == HeldConnected(s)
    requires FromHeld(s, t)
    ensures Run(s, t).connected == HeldConnected(Run(s, t))
    decreases |t|
  {
    if t != [] {
      FlagTracksHeldSocket(Step(s, t[0]), t[1..]);
    }
  }

  /** Along any trace, every step that takes the connectivity flag down takes
      the readiness flag down with it. */
  lemma LossClearsReadyAlongTrace(s: State, t: seq<Action>)
    ensures forall i :: 0 <= i < |t| && Run(s, t[..i]).connected && !Run(s, t[..i + 1]).connected ==>
      !Run(s, t[..i + 1]).ready
  {
    forall i | 0 <= i < |t| && Run(s, t[..i]).connected && !Run(s, t[..i + 1]).connected
      ensures !Run(s, t[..i + 1]).ready
    {
      assert t[..i + 1] == t[..i] + [t[i]];
      RunAppend(s, t[..i], t[i]);
    }
  }

  /** What a component reading the composable's read-only projections sees
      after any trace: readiness is the last value written to it, and once a
      socket handle has been exposed it stays exposed. */
  lemma {:induction false} ObservedThroughProjections(s: State, t: seq<Action>)
    ensures IsSshSessionReady(Run(s, t)) == LastReadyWrite(s.ready, t)
    ensures SshSocketHandle(s).Some? ==> SshSocketHandle(Run(s, t)).Some?
    ensures Invoke(ConnectCall) in t ==> SshSocketHandle(Run(s, t)).Some?
    decreases |t|
  {
    RunReady(s, t);
    if t != [] {
      var t', a := t[..|t| - 1], t[|t| - 1];
      assert t == t' + [a];
      RunAppend(s, t', a);
      ObservedThroughProjections(s, t');
      if Invoke(ConnectCall) in t && a != Invoke(ConnectCall) {
        assert Invoke(ConnectCall) in t';
      }
    }
  }
}
