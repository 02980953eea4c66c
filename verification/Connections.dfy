/** Outgoing connection requests of sharing/nearby_connections_manager_impl.cc: the pending callbacks, their
    timers, the endpoints being disconnected, and the events of the connection layer, which may come in
    any order and whose callbacks may themselves disconnect.
 */
module Connections {
  import opened Wrappers

  datatype Status = Success | Error | Timeout | ResetStatus | UnknownStatus

  datatype Info = Info(incoming: bool, status: Status)

  datatype Answer = Answer(token: int, endpoint: int, connected: bool, status: Status)

  /** `timers` maps an endpoint to whether its timer has fired. History: the `answers` given to callbacks
      and `taken`, the tokens of the callbacks that became pending. */
  datatype Calls = Calls(pending: map<int, int>, timers: map<int, bool>, answers: seq<Answer>, taken: set<int>)

  // The requests that the connection layer has yet to answer: `inFlight` those made by Disconnect, whose
  // endpoints are `disconnecting`, and `resets` those made by Reset, whose answers do nothing.
  datatype Closing = Closing(disconnecting: set<int>, inFlight: seq<int>, resets: multiset<int>)

  datatype Manager = Manager(calls: Calls, info: map<int, Info>, closing: Closing, connections: set<int>,
                             advertising: bool)

  function NewManager(): Manager {
    Manager(Calls(map[], map[], [], {}), map[], Closing({}, [], multiset{}), {}, false)
  }

  // A callback is dropped when one is pending for the endpoint: emplace keeps the old entry.
  function Connect(m: Manager, endpoint: int, token: int): Manager {
    var c := m.calls;
    if endpoint in c.pending then m
    else m.(calls := c.(pending := c.pending[endpoint := token],
                        timers := if endpoint in c.timers then c.timers else c.timers[endpoint := false],
                        taken := c.taken + {token}))
  }

  function Disconnect(m: Manager, endpoint: int): Manager {
    if endpoint !in m.calls.pending && endpoint !in m.info then m
    else if endpoint in m.closing.disconnecting then m
    else m.(closing := Closing(m.closing.disconnecting + {endpoint}, m.closing.inFlight + [endpoint], m.closing.resets))
  }

  function SetStatus(info: map<int, Info>, endpoint: int, status: Status): map<int, Info> {
    if endpoint in info then info[endpoint := info[endpoint].(status := status)] else info
  }

  function OnTimedOut(m: Manager, endpoint: int): Manager {
    var m1 := m.(calls := m.calls.(timers := m.calls.timers[endpoint := true]),
                 info := if endpoint in m.calls.pending then SetStatus(m.info, endpoint, Timeout) else m.info);
    Disconnect(m1, endpoint)
  }

  function OnRequested(m: Manager, endpoint: int, status: Status): Manager {
    if endpoint !in m.calls.pending || status == Success then m
    else Disconnect(m.(info := SetStatus(m.info, endpoint, status)), endpoint)
  }

  function OnInitiated(m: Manager, endpoint: int, incoming: bool): Manager {
    if endpoint in m.info then m else m.(info := m.info[endpoint := Info(incoming, UnknownStatus)])
  }

  function Resolve(c: Calls, endpoint: int, connected: bool, status: Status): Calls
    requires endpoint in c.pending
  {
    Calls(c.pending - {endpoint}, c.timers - {endpoint},
          c.answers + [Answer(c.pending[endpoint], endpoint, connected, status)], c.taken)
  }

  // The callback runs while its endpoint is still pending; `reenter` is whether it disconnects.
  function AnswerPending(m: Manager, endpoint: int, connected: bool, status: Status, reenter: bool): Manager
    requires endpoint in m.calls.pending
  {
    var m1 := if reenter then Disconnect(m, endpoint) else m;
    m1.(calls := Resolve(m.calls, endpoint, connected, status))
  }

  function OnAccepted(m: Manager, endpoint: int, reenter: bool): Manager {
    if endpoint !in m.info then m
    else if m.info[endpoint].incoming then
      if m.advertising then m.(connections := m.connections + {endpoint}) else Disconnect(m, endpoint)
    else if endpoint !in m.calls.pending then Disconnect(m, endpoint)
    else AnswerPending(m.(connections := m.connections + {endpoint}), endpoint, true, Success, reenter)
  }

  function OnRejected(m: Manager, endpoint: int, status: Status, reenter: bool): Manager {
    var m1 := m.(info := m.info - {endpoint});
    if endpoint in m1.calls.pending then AnswerPending(m1, endpoint, false, status, reenter) else m1
  }

  function OnDisconnected(m: Manager, endpoint: int, reenter: bool): Manager {
    var status := if endpoint in m.info then m.info[endpoint].status else UnknownStatus;
    var m1 := m.(info := m.info - {endpoint});
    var m2 := if endpoint in m1.calls.pending then AnswerPending(m1, endpoint, false, status, reenter) else m1;
    m2.(connections := m2.connections - {endpoint})
  }

  function Remove(q: seq<int>, x: int): seq<int> {
    if q == [] then [] else if q[0] == x then q[1..] else [q[0]] + Remove(q[1..], x)
  }

  // The answer to a disconnect request: the posted task that runs OnDisconnected and then forgets it.
  function OnDisconnectDone(m: Manager, endpoint: int, reenter: bool): Manager {
    var m1 := OnDisconnected(m, endpoint, reenter);
    m1.(closing := Closing(m1.closing.disconnecting - {endpoint}, Remove(m1.closing.inFlight, endpoint),
                           m1.closing.resets))
  }

  predicate Enumerates(order: seq<int>, s: set<int>) {
    && (forall e :: e in order ==> e in s) && (forall e :: e in s ==> e in order)
    && (forall i, j :: 0 <= i < j < |order| ==> order[i] != order[j])
  }

  // Reset answers every pending callback, in the map's own order.
  function AnswerAll(m: Manager, order: seq<int>, reenter: bool): Manager
    requires Enumerates(order, m.calls.pending.Keys)
    decreases |order|
  {
    if order == [] then m
    else
      EnumeratesRest(order, m.calls.pending.Keys);
      var m1 := AnswerPending(m, order[0], false, ResetStatus, reenter);
      assert m1.calls.pending.Keys == m.calls.pending.Keys - {order[0]};
      AnswerAll(m1, order[1..], reenter)
  }

  lemma EnumeratesRest(order: seq<int>, s: set<int>)
    requires Enumerates(order, s) && order != []
    ensures order[0] in s && Enumerates(order[1..], s - {order[0]})
  {
    var first: int := order[0];
    assert first in order;
    forall e | e in s - {first} ensures e in order[1..] {
      assert e in order;
      var i :| 0 <= i < |order| && order[i] == e;
      assert order[1..][i - 1] == e;
    }
    forall e: int | e in order[1..] ensures e in s - {first} {
      assert e in order;
    }
  }

  lemma {:induction false} AnswerAllUnfolds(m: Manager, order: seq<int>, reenter: bool)
    requires Enumerates(order, m.calls.pending.Keys) && order != []
    ensures order[0] in m.calls.pending
    ensures var m1 := AnswerPending(m, order[0], false, ResetStatus, reenter);
            && Enumerates(order[1..], m1.calls.pending.Keys)
            && AnswerAll(m, order, reenter) == AnswerAll(m1, order[1..], reenter)
  {
    EnumeratesRest(order, m.calls.pending.Keys);
    var m1 := AnswerPending(m, order[0], false, ResetStatus, reenter);
    assert m1.calls.pending.Keys == m.calls.pending.Keys - {order[0]};
  }

  // Every connection is asked to close, whether or not it is being disconnected already; then all is
  // cleared but the pending callbacks and the endpoints being disconnected.
  function ClearForReset(m: Manager): Manager {
    m.(closing := m.closing.(resets := m.closing.resets + multiset(m.connections)),
       connections := {}, info := map[], advertising := false, calls := m.calls.(timers := map[]))
  }

  function DoReset(m: Manager, order: seq<int>, reenter: bool): Manager
    requires Enumerates(order, m.calls.pending.Keys)
  {
    AnswerAll(ClearForReset(m), order, reenter)
  }

  function OnResetRequestDone(m: Manager, endpoint: int): Manager {
    m.(closing := m.closing.(resets := m.closing.resets - multiset{endpoint}))
  }

  // ---------------------------------------------------------------- runs

  datatype Step =
    | ConnectCall(endpoint: int, token: int)
    | DisconnectCall(endpoint: int)
    | TimerFires(endpoint: int)
    | Requested(endpoint: int, status: Status)
    | Initiated(endpoint: int, incoming: bool)
    | Accepted(endpoint: int, reenter: bool)
    | Rejected(endpoint: int, status: Status, reenter: bool)
    | Disconnected(endpoint: int, reenter: bool)
    | DisconnectDone(endpoint: int, reenter: bool)
    | ResetRequestDone(endpoint: int)
    | Advertise(on: bool)
    | ResetCall(order: seq<int>, reenter: bool)

  // Tokens are fresh; a timer fires once, while its request is pending; a disconnect request is answered once.
  predicate Enabled(m: Manager, step: Step) {
    match step
    case ConnectCall(endpoint, token) => token !in m.calls.taken
    case TimerFires(endpoint) => endpoint in m.calls.timers && !m.calls.timers[endpoint]
    case DisconnectDone(endpoint, reenter) => endpoint in m.closing.inFlight
    case ResetRequestDone(endpoint) => endpoint in m.closing.resets
    case ResetCall(order, reenter) => Enumerates(order, m.calls.pending.Keys)
    case _ => true
  }

  function Next(m: Manager, step: Step): Manager {
    if !Enabled(m, step) then m else
    match step
    case ConnectCall(endpoint, token) => Connect(m, endpoint, token)
    case DisconnectCall(endpoint) => Disconnect(m, endpoint)
    case TimerFires(endpoint) => OnTimedOut(m, endpoint)
    case Requested(endpoint, status) => OnRequested(m, endpoint, status)
    case Initiated(endpoint, incoming) => OnInitiated(m, endpoint, incoming)
    case Accepted(endpoint, reenter) => OnAccepted(m, endpoint, reenter)
    case Rejected(endpoint, status, reenter) => OnRejected(m, endpoint, status, reenter)
    case Disconnected(endpoint, reenter) => OnDisconnected(m, endpoint, reenter)
    case DisconnectDone(endpoint, reenter) => OnDisconnectDone(m, endpoint, reenter)
    case ResetRequestDone(endpoint) => OnResetRequestDone(m, endpoint)
    case Advertise(on) => m.(advertising := on)
    case ResetCall(order, reenter) => DoReset(m, order, reenter)
  }

  function Exec(m: Manager, steps: seq<Step>): Manager {
    if steps == [] then m else Next(Exec(m, steps[..|steps| - 1]), steps[|steps| - 1])
  }

  // ---------------------------------------------------------------- what every run keeps

  function Times(answers: seq<Answer>, token: int): nat {
    if answers == [] then 0
    else Times(answers[..|answers| - 1], token) + if answers[|answers| - 1].token == token then 1 else 0
  }

  predicate IsPending(c: Calls, token: int) { exists e :: e in c.pending && c.pending[e] == token }

  // A token that became pending is pending still or has been answered exactly once; no other was answered.
  ghost predicate Once(c: Calls) {
    && (forall t :: Times(c.answers, t) == (if t in c.taken && !IsPending(c, t) then 1 else 0))
    && (forall e :: e in c.pending ==> c.pending[e] in c.taken)
    && (forall d, e :: d in c.pending && e in c.pending && d != e ==> c.pending[d] != c.pending[e])
  }

  // Each pending request has a timer running or a disconnect under way.
  ghost predicate Guarded(m: Manager) {
    && (forall e :: e in m.calls.pending ==>
          e in m.calls.timers && (!m.calls.timers[e] || e in m.closing.disconnecting))
    && (forall e :: e in m.calls.timers ==> e in m.calls.pending)
  }

  // Disconnect has at most one request in flight for an endpoint, namely for those marked so.
  ghost predicate OneEach(c: Closing) {
    && (forall e :: e in c.inFlight <==> e in c.disconnecting)
    && (forall i, j :: 0 <= i < j < |c.inFlight| ==> c.inFlight[i] != c.inFlight[j])
  }

  ghost predicate Inv(m: Manager) { Once(m.calls) && Guarded(m) && OneEach(m.closing) }

  lemma DisconnectKeeps(m: Manager, endpoint: int)
    requires OneEach(m.closing)
    ensures var m1 := Disconnect(m, endpoint);
            && m1.calls == m.calls && m1.info == m.info && OneEach(m1.closing)
            && m.closing.disconnecting <= m1.closing.disconnecting && m1.closing.resets == m.closing.resets
            && (endpoint in m.calls.pending ==> endpoint in m1.closing.disconnecting)
  {
  }

  lemma ResolveOnce(c: Calls, endpoint: int, connected: bool, status: Status)
    requires Once(c) && endpoint in c.pending
    ensures Once(Resolve(c, endpoint, connected, status))
  {
    var c1 := Resolve(c, endpoint, connected, status);
    assert c1.answers[..|c.answers|] == c.answers;
    forall t
      ensures Times(c1.answers, t) == (if t in c1.taken && !IsPending(c1, t) then 1 else 0)
    {
      assert Times(c1.answers, t) == Times(c.answers, t) + if c.pending[endpoint] == t then 1 else 0;
      if IsPending(c, t) && t != c.pending[endpoint] {
        var e :| e in c.pending && c.pending[e] == t;
        assert e in c1.pending && c1.pending[e] == t;
      }
    }
  }

  lemma AnswerPendingKeeps(m: Manager, endpoint: int, connected: bool, status: Status, reenter: bool)
    requires Once(m.calls) && OneEach(m.closing) && endpoint in m.calls.pending
    ensures var m1 := AnswerPending(m, endpoint, connected, status, reenter);
            Once(m1.calls) && OneEach(m1.closing) && (Guarded(m) ==> Guarded(m1))
  {
    DisconnectKeeps(m, endpoint);
    ResolveOnce(m.calls, endpoint, connected, status);
  }

  lemma ConnectKeeps(m: Manager, endpoint: int, token: int)
    requires Inv(m) && token !in m.calls.taken
    ensures Inv(Connect(m, endpoint, token))
  {
    var c, c1 := m.calls, Connect(m, endpoint, token).calls;
    if endpoint !in c.pending {
      forall t
        ensures Times(c1.answers, t) == (if t in c1.taken && !IsPending(c1, t) then 1 else 0)
      {
        assert Times(c.answers, t) == (if t in c.taken && !IsPending(c, t) then 1 else 0);
        assert c1.pending[endpoint] == token;
        assert t != token ==> (IsPending(c, t) <==> IsPending(c1, t)) by {
          if IsPending(c, t) {
            var e :| e in c.pending && c.pending[e] == t;
            assert e in c1.pending && c1.pending[e] == t;
          }
        }
      }
    }
  }

  lemma OnDisconnectedKeeps(m: Manager, endpoint: int, reenter: bool)
    requires Inv(m)
    ensures Inv(OnDisconnected(m, endpoint, reenter)) && endpoint !in OnDisconnected(m, endpoint, reenter).calls.pending
  {
    var m1 := m.(info := m.info - {endpoint});
    if endpoint in m1.calls.pending {
      var status := if endpoint in m.info then m.info[endpoint].status else UnknownStatus;
      AnswerPendingKeeps(m1, endpoint, false, status, reenter);
    }
  }

  lemma {:induction false} RemoveOne(q: seq<int>, x: int)
    requires forall i, j :: 0 <= i < j < |q| ==> q[i] != q[j]
    ensures forall e :: e in Remove(q, x) <==> e in q && e != x
    ensures forall i, j :: 0 <= i < j < |Remove(q, x)| ==> Remove(q, x)[i] != Remove(q, x)[j]
  {
    if q != [] {
      var first: int, r := q[0], Remove(q[1..], x);
      RemoveOne(q[1..], x);
      assert q == [first] + q[1..];
      assert first !in q[1..];
      assert forall j :: 0 <= j < |r| ==> r[j] in r && r[j] != first;
    }
  }

  lemma OnDisconnectDoneKeeps(m: Manager, endpoint: int, reenter: bool)
    requires Inv(m)
    ensures Inv(OnDisconnectDone(m, endpoint, reenter))
  {
    OnDisconnectedKeeps(m, endpoint, reenter);
    RemoveOne(OnDisconnected(m, endpoint, reenter).closing.inFlight, endpoint);
  }

  lemma {:induction false} AnswerAllKeeps(m: Manager, order: seq<int>, reenter: bool)
    requires Once(m.calls) && OneEach(m.closing) && Enumerates(order, m.calls.pending.Keys)
    ensures var m1 := AnswerAll(m, order, reenter);
            && Once(m1.calls) && OneEach(m1.closing)
            && m1.calls.pending == map[] && m1.calls.timers.Keys <= m.calls.timers.Keys
    decreases |order|
  {
    if order == [] {
      EmptyOrInhabited(m.calls.pending.Keys);
      assert m.calls.pending == map[];
    } else {
      EnumeratesRest(order, m.calls.pending.Keys);
      AnswerPendingKeeps(m, order[0], false, ResetStatus, reenter);
      var m1 := AnswerPending(m, order[0], false, ResetStatus, reenter);
      assert m1.calls.pending.Keys == m.calls.pending.Keys - {order[0]};
      AnswerAllKeeps(m1, order[1..], reenter);
    }
  }

  lemma NextKeeps(m: Manager, step: Step)
    requires Inv(m)
    ensures Inv(Next(m, step))
  {
    if !Enabled(m, step) { return; }
    match step
    case ConnectCall(endpoint, token) => ConnectKeeps(m, endpoint, token);
    case DisconnectCall(endpoint) => DisconnectKeeps(m, endpoint);
    case TimerFires(endpoint) => TimerKeeps(m, endpoint);
    case Requested(endpoint, status) => DisconnectKeeps(m.(info := SetStatus(m.info, endpoint, status)), endpoint);
    case Initiated(endpoint, incoming) =>
    case Accepted(endpoint, reenter) => AcceptedKeeps(m, endpoint, reenter);
    case Rejected(endpoint, status, reenter) =>
      if endpoint in m.calls.pending {
        AnswerPendingKeeps(m.(info := m.info - {endpoint}), endpoint, false, status, reenter);
      }
    case Disconnected(endpoint, reenter) => OnDisconnectedKeeps(m, endpoint, reenter);
    case DisconnectDone(endpoint, reenter) => OnDisconnectDoneKeeps(m, endpoint, reenter);
    case ResetRequestDone(endpoint) =>
    case Advertise(on) =>
    case ResetCall(order, reenter) =>
      var m1 := ClearForReset(m);
      assert forall t :: IsPending(m1.calls, t) <==> IsPending(m.calls, t);
      AnswerAllKeeps(m1, order, reenter);
  }

  lemma TimerKeeps(m: Manager, endpoint: int)
    requires Inv(m) && Enabled(m, TimerFires(endpoint))
    ensures Inv(OnTimedOut(m, endpoint)) && endpoint in OnTimedOut(m, endpoint).closing.disconnecting
  {
    var m1 := m.(calls := m.calls.(timers := m.calls.timers[endpoint := true]),
                 info := if endpoint in m.calls.pending then SetStatus(m.info, endpoint, Timeout) else m.info);
    assert forall t :: IsPending(m1.calls, t) <==> IsPending(m.calls, t);
    DisconnectKeeps(m1, endpoint);
  }

  lemma AcceptedKeeps(m: Manager, endpoint: int, reenter: bool)
    requires Inv(m)
    ensures Inv(OnAccepted(m, endpoint, reenter))
  {
    DisconnectKeeps(m, endpoint);
    if endpoint in m.calls.pending {
      AnswerPendingKeeps(m.(connections := m.connections + {endpoint}), endpoint, true, Success, reenter);
    }
  }

  // Main result, for every run: a callback that became pending has been answered exactly once when its
  // endpoint has left the map and not before; pending requests and timers go together; each has a timer
  // running or a disconnect under way; and Disconnect never has two requests in flight for an endpoint.
  lemma {:induction false} EveryRun(steps: seq<Step>)
    ensures Inv(Exec(NewManager(), steps))
  {
    if steps == [] {
      assert forall t :: !IsPending(NewManager().calls, t);
    } else {
      EveryRun(steps[..|steps| - 1]);
      NextKeeps(Exec(NewManager(), steps[..|steps| - 1]), steps[|steps| - 1]);
    }
  }

  // A callback is invoked in exactly the step that takes it off the pending map.
  lemma {:induction false} AnsweredWhenRemoved(m: Manager, step: Step, token: int)
    requires Inv(m) && IsPending(m.calls, token)
    ensures Times(Next(m, step).calls.answers, token) == 1 <==> !IsPending(Next(m, step).calls, token)
    ensures Times(Next(m, step).calls.answers, token) <= 1
  {
    NextKeeps(m, step);
    TakenStays(m, step);
    var e :| e in m.calls.pending && m.calls.pending[e] == token;
  }

  lemma {:induction false} AnswerAllTaken(m: Manager, order: seq<int>, reenter: bool)
    requires Enumerates(order, m.calls.pending.Keys)
    ensures AnswerAll(m, order, reenter).calls.taken == m.calls.taken
    decreases |order|
  {
    if order != [] {
      EnumeratesRest(order, m.calls.pending.Keys);
      var m1 := AnswerPending(m, order[0], false, ResetStatus, reenter);
      assert m1.calls.pending.Keys == m.calls.pending.Keys - {order[0]};
      AnswerAllTaken(m1, order[1..], reenter);
    }
  }

  lemma TakenStays(m: Manager, step: Step)
    ensures m.calls.taken <= Next(m, step).calls.taken
  {
    if step.ResetCall? && Enabled(m, step) {
      var m1 := ClearForReset(m);
      AnswerAllTaken(m1, step.order, step.reenter);
    }
  }

  // A callback is dropped, never to be invoked, exactly when its endpoint is already pending.
  lemma DroppedIffPending(m: Manager, endpoint: int, token: int)
    requires Inv(m) && token !in m.calls.taken
    ensures !IsPending(Connect(m, endpoint, token).calls, token) <==> endpoint in m.calls.pending
    ensures endpoint in m.calls.pending ==> Connect(m, endpoint, token) == m
  {
    if endpoint !in m.calls.pending {
      assert Connect(m, endpoint, token).calls.pending[endpoint] == token;
    }
  }

  // No request is left hanging: once its timer has fired, the answer to the disconnect request that is
  // then under way resolves it; the callback is told of the timeout exactly when the connection had been
  // initiated.
  lemma TimeoutResolves(m: Manager, endpoint: int, reenter: bool)
    requires Inv(m) && endpoint in m.calls.pending && !m.calls.timers[endpoint]
    ensures var m1 := Next(m, TimerFires(endpoint));
            && Enabled(m1, DisconnectDone(endpoint, reenter))
            && var m2 := Next(m1, DisconnectDone(endpoint, reenter));
               && endpoint !in m2.calls.pending
               && m2.calls.answers == m.calls.answers
                    + [Answer(m.calls.pending[endpoint], endpoint, false,
                              if endpoint in m.info then Timeout else UnknownStatus)]
  {
    TimerKeeps(m, endpoint);
  }

  ghost predicate Fired(m: Manager, endpoint: int, token: int) {
    && endpoint in m.calls.pending && m.calls.pending[endpoint] == token
    && endpoint in m.calls.timers && m.calls.timers[endpoint]
  }

  lemma FiredStays(m: Manager, step: Step, endpoint: int, token: int)
    requires Inv(m) && Fired(m, endpoint, token)
    ensures Fired(Next(m, step), endpoint, token) || !IsPending(Next(m, step).calls, token)
  {
    NextKeeps(m, step);
    if step.ResetCall? && Enabled(m, step) {
      AnswerAllEmpties(ClearForReset(m), step.order, step.reenter);
    }
  }

  lemma {:induction false} AnswerAllEmpties(m: Manager, order: seq<int>, reenter: bool)
    requires Enumerates(order, m.calls.pending.Keys)
    ensures AnswerAll(m, order, reenter).calls.pending == map[]
    decreases |order|
  {
    if order == [] {
      EmptyOrInhabited(m.calls.pending.Keys);
      assert m.calls.pending == map[];
    } else {
      AnswerAllUnfolds(m, order, reenter);
      AnswerAllEmpties(AnswerPending(m, order[0], false, ResetStatus, reenter), order[1..], reenter);
    }
  }

  lemma {:induction false} FiredOrAnswered(m: Manager, steps: seq<Step>, endpoint: int, token: int)
    requires Inv(m) && Fired(m, endpoint, token)
    ensures var m1 := Exec(m, steps);
            && Inv(m1) && token in m1.calls.taken
            && (Fired(m1, endpoint, token) || !IsPending(m1.calls, token))
  {
    if steps != [] {
      var init, step := steps[..|steps| - 1], steps[|steps| - 1];
      var g := Exec(m, init);
      FiredOrAnswered(m, init, endpoint, token);
      NextKeeps(g, step);
      TakenStays(g, step);
      if Fired(g, endpoint, token) {
        FiredStays(g, step, endpoint, token);
      } else {
        AnsweredStays(g, step, token);
      }
    }
  }

  lemma AnsweredStays(m: Manager, step: Step, token: int)
    requires Inv(m) && token in m.calls.taken && !IsPending(m.calls, token)
    ensures !IsPending(Next(m, step).calls, token)
  {
    if step.ResetCall? && Enabled(m, step) {
      AnswerAllEmpties(ClearForReset(m), step.order, step.reenter);
    }
  }

  // The same whatever happens in between: after any further steps the callback of a request whose timer has
  // fired has been answered once, or the answer to a disconnect request still in flight does so.
  lemma {:induction false} FiredTimerResolves(m: Manager, endpoint: int, steps: seq<Step>, reenter: bool)
    requires Inv(m) && endpoint in m.calls.pending && !m.calls.timers[endpoint]
    ensures var token, m1 := m.calls.pending[endpoint], Exec(Next(m, TimerFires(endpoint)), steps);
            || Times(m1.calls.answers, token) == 1
            || (Enabled(m1, DisconnectDone(endpoint, reenter))
                && Times(Next(m1, DisconnectDone(endpoint, reenter)).calls.answers, token) == 1)
  {
    var token, m0 := m.calls.pending[endpoint], Next(m, TimerFires(endpoint));
    TimerKeeps(m, endpoint);
    FiredOrAnswered(m0, steps, endpoint, token);
    var m1 := Exec(m0, steps);
    if Fired(m1, endpoint, token) {
      var m2 := Next(m1, DisconnectDone(endpoint, reenter));
      assert endpoint in m1.closing.inFlight;
      OnDisconnectedKeeps(m1, endpoint, reenter);
      assert IsPending(m1.calls, token);
      AnsweredWhenRemoved(m1, DisconnectDone(endpoint, reenter), token);
      assert !IsPending(m2.calls, token);
    }
  }

  // The status that a disconnection reports for the endpoint.
  function Reported(m: Manager, endpoint: int): Status {
    if endpoint in m.info then m.info[endpoint].status else UnknownStatus
  }

  predicate Refused(m: Manager, step: Step, endpoint: int) {
    step.Requested? && step.endpoint == endpoint && step.status != Success && endpoint in m.info
  }

  // The last status recorded since the timer fired in m: of a later refusal, else of the timeout.
  function Told(m: Manager, endpoint: int, steps: seq<Step>): Status {
    if steps == [] then if endpoint in m.info then Timeout else UnknownStatus
    else
      var init, step := steps[..|steps| - 1], steps[|steps| - 1];
      if Refused(Exec(Next(m, TimerFires(endpoint)), init), step, endpoint) then step.status
      else Told(m, endpoint, init)
  }

  lemma StillPendingStatus(m: Manager, step: Step, endpoint: int, token: int)
    requires Inv(m) && Fired(m, endpoint, token) && Fired(Next(m, step), endpoint, token)
    ensures Reported(Next(m, step), endpoint)
         == if Refused(m, step, endpoint) then step.status else Reported(m, endpoint)
  {
    if step.ResetCall? && Enabled(m, step) {
      AnswerAllEmpties(ClearForReset(m), step.order, step.reenter);
    }
  }

  lemma {:induction false} ToldIsReported(m: Manager, endpoint: int, steps: seq<Step>)
    requires Inv(m) && endpoint in m.calls.pending && !m.calls.timers[endpoint]
    ensures var token, m1 := m.calls.pending[endpoint], Exec(Next(m, TimerFires(endpoint)), steps);
            IsPending(m1.calls, token) ==>
              Fired(m1, endpoint, token) && Reported(m1, endpoint) == Told(m, endpoint, steps)
  {
    var token, m0 := m.calls.pending[endpoint], Next(m, TimerFires(endpoint));
    TimerKeeps(m, endpoint);
    if steps != [] && IsPending(Exec(m0, steps).calls, token) {
      var init, step := steps[..|steps| - 1], steps[|steps| - 1];
      var g := Exec(m0, init);
      FiredOrAnswered(m0, init, endpoint, token);
      FiredOrAnswered(m0, steps, endpoint, token);
      if !IsPending(g.calls, token) {
        AnsweredStays(g, step, token);
      }
      ToldIsReported(m, endpoint, init);
      StillPendingStatus(g, step, endpoint, token);
    }
  }

  // What the callback of a request whose timer has fired is told, after any further steps that leave it
  // pending, by the answer to the disconnect request or by a disconnection.
  lemma {:induction false} FiredTimerTells(m: Manager, endpoint: int, steps: seq<Step>, reenter: bool)
    requires Inv(m) && endpoint in m.calls.pending && !m.calls.timers[endpoint]
    ensures var token, m1 := m.calls.pending[endpoint], Exec(Next(m, TimerFires(endpoint)), steps);
            IsPending(m1.calls, token) ==>
              var answers := m1.calls.answers + [Answer(token, endpoint, false, Told(m, endpoint, steps))];
              && Enabled(m1, DisconnectDone(endpoint, reenter))
              && Next(m1, DisconnectDone(endpoint, reenter)).calls.answers == answers
              && Next(m1, Disconnected(endpoint, reenter)).calls.answers == answers
  {
    var token, m0 := m.calls.pending[endpoint], Next(m, TimerFires(endpoint));
    TimerKeeps(m, endpoint);
    ToldIsReported(m, endpoint, steps);
    FiredOrAnswered(m0, steps, endpoint, token);
  }

  // Without a refusal in between that is the timeout exactly when the connection had been initiated before the
  // timer fired, and otherwise an unknown status, even if it is initiated afterwards.
  lemma {:induction false} ToldTimeoutIff(m: Manager, endpoint: int, steps: seq<Step>)
    requires forall i :: 0 <= i < |steps| ==>
               !(steps[i].Requested? && steps[i].endpoint == endpoint && steps[i].status != Success)
    ensures Told(m, endpoint, steps) == Timeout <==> endpoint in m.info
    ensures Told(m, endpoint, steps) == UnknownStatus <==> endpoint !in m.info
  {
    if steps != [] {
      var init := steps[..|steps| - 1];
      assert forall i :: 0 <= i < |init| ==> init[i] == steps[i];
      ToldTimeoutIff(m, endpoint, init);
    }
  }
}
