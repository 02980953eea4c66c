/** The disconnect requests that sharing/nearby_connections_manager_impl.cc has in flight at the connection
    layer. Disconnect never makes a second one for an endpoint, but Reset does not look at its record.
 */
module DisconnectRequests {
  import opened Connections

  // All disconnect requests in flight for an endpoint, those of Reset included.
  function Requests(m: Manager, endpoint: int): nat {
    multiset(m.closing.inFlight)[endpoint] + m.closing.resets[endpoint]
  }

  // Whether a step calls Disconnect on the endpoint, directly or from a callback, to any effect.
  predicate Asks(m: Manager, step: Step, endpoint: int) {
    && endpoint !in m.closing.disconnecting
    && match step
       case DisconnectCall(e) => e == endpoint && (e in m.calls.pending || e in m.info)
       case TimerFires(e) => e == endpoint
       case Requested(e, status) => e == endpoint && e in m.calls.pending && status != Success
       case Accepted(e, reenter) =>
         && e == endpoint && e in m.info
         && (if m.info[e].incoming then !m.advertising else e !in m.calls.pending || reenter)
       case Rejected(e, status, reenter) => e == endpoint && e in m.calls.pending && reenter
       case Disconnected(e, reenter) => e == endpoint && e in m.calls.pending && reenter
       case ResetCall(order, reenter) => endpoint in m.calls.pending && reenter
       case _ => false
  }

  // Whether Reset closes the endpoint's connection.
  predicate Closes(m: Manager, step: Step, endpoint: int) {
    step.ResetCall? && endpoint in m.connections
  }

  function One(b: bool): nat { if b then 1 else 0 }

  lemma {:induction false} RemoveCounts(q: seq<int>, x: int, e: int)
    requires x in q
    ensures multiset(Remove(q, x))[e] == multiset(q)[e] - One(e == x)
  {
    assert q == [q[0]] + q[1..];
    if q[0] != x {
      RemoveCounts(q[1..], x, e);
      assert multiset(q) == multiset{q[0]} + multiset(q[1..]);
    }
  }

  lemma DisconnectCounts(m: Manager, endpoint: int, e: int)
    requires OneEach(m.closing)
    ensures Requests(Disconnect(m, endpoint), e) == Requests(m, e)
              + One(e == endpoint && e !in m.closing.disconnecting && (e in m.calls.pending || e in m.info))
  {
  }

  lemma AnswerPendingCounts(m: Manager, endpoint: int, connected: bool, status: Status, reenter: bool, e: int)
    requires OneEach(m.closing) && endpoint in m.calls.pending
    ensures Requests(AnswerPending(m, endpoint, connected, status, reenter), e)
         == Requests(m, e) + One(reenter && e == endpoint && e !in m.closing.disconnecting)
  {
    DisconnectCounts(m, endpoint, e);
  }

  lemma {:induction false} AnswerAllCounts(m: Manager, order: seq<int>, reenter: bool, e: int)
    requires Once(m.calls) && OneEach(m.closing) && Enumerates(order, m.calls.pending.Keys)
    ensures Requests(AnswerAll(m, order, reenter), e)
         == Requests(m, e) + One(reenter && e in m.calls.pending && e !in m.closing.disconnecting)
    decreases |order|
  {
    if order == [] {
    } else {
      AnswerAllUnfolds(m, order, reenter);
      AnswerPendingKeeps(m, order[0], false, ResetStatus, reenter);
      AnswerPendingCounts(m, order[0], false, ResetStatus, reenter, e);
      AnswerAllCounts(AnswerPending(m, order[0], false, ResetStatus, reenter), order[1..], reenter, e);
      DisconnectKeeps(m, order[0]);
    }
  }

  lemma ResetCounts(m: Manager, order: seq<int>, reenter: bool, e: int)
    requires Inv(m) && Enumerates(order, m.calls.pending.Keys)
    ensures Requests(DoReset(m, order, reenter), e) == Requests(m, e) + One(e in m.connections)
              + One(reenter && e in m.calls.pending && e !in m.closing.disconnecting)
  {
    var m1 := ClearForReset(m);
    assert forall t :: IsPending(m1.calls, t) <==> IsPending(m.calls, t);
    AnswerAllCounts(m1, order, reenter, e);
    assert multiset(m.connections)[e] == One(e in m.connections);
  }

  lemma TimerCounts(m: Manager, endpoint: int, e: int)
    requires Inv(m) && Enabled(m, TimerFires(endpoint))
    ensures Requests(OnTimedOut(m, endpoint), e) == Requests(m, e) + One(Asks(m, TimerFires(endpoint), e))
  {
    DisconnectCounts(m.(calls := m.calls.(timers := m.calls.timers[endpoint := true]),
                        info := SetStatus(m.info, endpoint, Timeout)), endpoint, e);
  }

  lemma RequestedCounts(m: Manager, endpoint: int, status: Status, e: int)
    requires Inv(m)
    ensures Requests(OnRequested(m, endpoint, status), e)
         == Requests(m, e) + One(Asks(m, Requested(endpoint, status), e))
  {
    DisconnectCounts(m.(info := SetStatus(m.info, endpoint, status)), endpoint, e);
  }

  lemma AcceptedCounts(m: Manager, endpoint: int, reenter: bool, e: int)
    requires Inv(m)
    ensures Requests(OnAccepted(m, endpoint, reenter), e)
         == Requests(m, e) + One(Asks(m, Accepted(endpoint, reenter), e))
  {
    DisconnectCounts(m, endpoint, e);
    if endpoint in m.calls.pending {
      AnswerPendingCounts(m.(connections := m.connections + {endpoint}), endpoint, true, Success, reenter, e);
    }
  }

  lemma RejectedCounts(m: Manager, endpoint: int, status: Status, reenter: bool, e: int)
    requires Inv(m)
    ensures Requests(OnRejected(m, endpoint, status, reenter), e)
         == Requests(m, e) + One(Asks(m, Rejected(endpoint, status, reenter), e))
  {
    if endpoint in m.calls.pending {
      AnswerPendingCounts(m.(info := m.info - {endpoint}), endpoint, false, status, reenter, e);
    }
  }

  lemma DisconnectDoneCounts(m: Manager, endpoint: int, reenter: bool, e: int)
    requires Inv(m) && endpoint in m.closing.inFlight
    ensures Requests(OnDisconnectDone(m, endpoint, reenter), e) == Requests(m, e) - One(e == endpoint)
  {
    OnDisconnectedCounts(m, endpoint, reenter, e);
    OnDisconnectedKeeps(m, endpoint, reenter);
    RemoveCounts(OnDisconnected(m, endpoint, reenter).closing.inFlight, endpoint, e);
  }

  // Every step accounts for the requests of every endpoint.
  lemma RequestsLedger(m: Manager, step: Step, e: int)
    requires Inv(m) && Enabled(m, step)
    ensures Requests(Next(m, step), e) == Requests(m, e) + One(Asks(m, step, e)) + One(Closes(m, step, e))
              - One((step.DisconnectDone? || step.ResetRequestDone?) && step.endpoint == e)
  {
    match step
    case DisconnectCall(endpoint) => DisconnectCounts(m, endpoint, e);
    case TimerFires(endpoint) => TimerCounts(m, endpoint, e);
    case Requested(endpoint, status) => RequestedCounts(m, endpoint, status, e);
    case Accepted(endpoint, reenter) => AcceptedCounts(m, endpoint, reenter, e);
    case Rejected(endpoint, status, reenter) => RejectedCounts(m, endpoint, status, reenter, e);
    case Disconnected(endpoint, reenter) => OnDisconnectedCounts(m, endpoint, reenter, e);
    case DisconnectDone(endpoint, reenter) => DisconnectDoneCounts(m, endpoint, reenter, e);
    case ResetCall(order, reenter) => ResetCounts(m, order, reenter, e);
    case _ =>
  }

  lemma OnDisconnectedCounts(m: Manager, endpoint: int, reenter: bool, e: int)
    requires Inv(m)
    ensures Requests(OnDisconnected(m, endpoint, reenter), e) == Requests(m, e)
              + One(reenter && e == endpoint && e in m.calls.pending && e !in m.closing.disconnecting)
    ensures m.closing.disconnecting <= OnDisconnected(m, endpoint, reenter).closing.disconnecting
  {
    if endpoint in m.calls.pending {
      var status := if endpoint in m.info then m.info[endpoint].status else UnknownStatus;
      AnswerPendingCounts(m.(info := m.info - {endpoint}), endpoint, false, status, reenter, e);
    }
  }

  /** A second request: Reset finds the endpoint connected although one is in flight, or Disconnect is asked
      while one of Reset's is, which may be the same Reset's. */
  predicate Collides(m: Manager, step: Step, e: int) {
    && Enabled(m, step)
    && (|| (Closes(m, step, e) && (e in m.closing.disconnecting || m.closing.resets[e] > 0))
        || (Asks(m, step, e) && (m.closing.resets[e] > 0 || Closes(m, step, e))))
  }

  lemma {:induction false} OwnRequests(q: seq<int>, e: int)
    requires forall i, j :: 0 <= i < j < |q| ==> q[i] != q[j]
    ensures multiset(q)[e] == One(e in q)
  {
    if q != [] {
      OwnRequests(q[1..], e);
      assert q == [q[0]] + q[1..];
      assert multiset(q) == multiset{q[0]} + multiset(q[1..]);
    }
  }

  lemma SecondRequestIff(m: Manager, step: Step, e: int)
    requires Inv(m) && Requests(m, e) <= 1
    ensures Requests(Next(m, step), e) > 1 <==> Collides(m, step, e)
  {
    OwnRequests(m.closing.inFlight, e);
    if Enabled(m, step) {
      RequestsLedger(m, step, e);
    }
  }

  // No prefix of the run leaves two requests in flight.
  ghost predicate NeverTwo(steps: seq<Step>, e: int) {
    && Requests(Exec(NewManager(), steps), e) <= 1
    && (steps != [] ==> NeverTwo(steps[..|steps| - 1], e))
  }

  ghost predicate NeverCollides(steps: seq<Step>, e: int) {
    steps != [] ==>
      && NeverCollides(steps[..|steps| - 1], e)
      && !Collides(Exec(NewManager(), steps[..|steps| - 1]), steps[|steps| - 1], e)
  }

  // Main result: a run never has two requests in flight for an endpoint exactly when no step of it collides.
  lemma {:induction false} SingleRequestsIff(steps: seq<Step>, e: int)
    ensures NeverTwo(steps, e) <==> NeverCollides(steps, e)
  {
    if steps != [] {
      var init, step := steps[..|steps| - 1], steps[|steps| - 1];
      SingleRequestsIff(init, e);
      EveryRun(init);
      if NeverTwo(init, e) {
        SecondRequestIff(Exec(NewManager(), init), step, e);
      }
    }
  }

  // Without Reset there is no collision; with it there can be: a connected endpoint is asked to disconnect,
  // and Reset comes before the answer.
  lemma {:induction false} NoResetNoCollision(steps: seq<Step>, e: int)
    requires forall i :: 0 <= i < |steps| ==> !steps[i].ResetCall?
    ensures Requests(Exec(NewManager(), steps), e) <= 1 && Exec(NewManager(), steps).closing.resets == multiset{}
  {
    if steps != [] {
      var init, step := steps[..|steps| - 1], steps[|steps| - 1];
      assert forall i :: 0 <= i < |init| ==> init[i] == steps[i];
      NoResetNoCollision(init, e);
      EveryRun(init);
      assert step == steps[|steps| - 1];
      OnlyResetAdds(Exec(NewManager(), init), step);
      SecondRequestIff(Exec(NewManager(), init), step, e);
    }
  }

  lemma OnlyResetAdds(m: Manager, step: Step)
    requires !step.ResetCall? && m.closing.resets == multiset{}
    ensures Next(m, step).closing.resets == multiset{}
    ensures forall e :: !Collides(m, step, e)
  {
  }

  lemma ResetCollides()
    ensures var m := Exec(NewManager(), [ConnectCall(1, 7), Initiated(1, false), Accepted(1, false), DisconnectCall(1),
                                         ResetCall([], false)]);
            Requests(m, 1) == 2
  {
    var run := [ConnectCall(1, 7), Initiated(1, false), Accepted(1, false), DisconnectCall(1)];
    ConnectedAndDisconnecting();
    assert (run + [ResetCall([], false)])[..4] == run;
    var m := Exec(NewManager(), run);
    assert Enumerates([], m.calls.pending.Keys);
    ResetCounts(m, [], false, 1);
    assert run + [ResetCall([], false)] == [ConnectCall(1, 7), Initiated(1, false), Accepted(1, false),
                                            DisconnectCall(1), ResetCall([], false)];
  }

  lemma ConnectedAndDisconnecting()
    ensures var run := [ConnectCall(1, 7), Initiated(1, false), Accepted(1, false), DisconnectCall(1)];
            var m := Exec(NewManager(), run);
            && Inv(m) && m.calls.pending == map[] && m.connections == {1}
            && m.closing == Closing({1}, [1], multiset{})
  {
    var run := [ConnectCall(1, 7), Initiated(1, false), Accepted(1, false), DisconnectCall(1)];
    EveryRun(run);
    var m1 := Next(NewManager(), run[0]);
    var m2 := Next(m1, run[1]);
    var m3 := Next(m2, run[2]);
    assert run[..3][..2] == run[..2] && run[..2][..1] == run[..1] && run[..1][..0] == [];
    assert Exec(NewManager(), run[..1]) == m1 && Exec(NewManager(), run[..2]) == m2;
    assert Exec(NewManager(), run[..3]) == m3;
    assert m3.calls.pending == map[] && 1 in m3.info && m3.connections == {1};
  }
}
