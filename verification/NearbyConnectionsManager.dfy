// The manager object behind Connections (sharing/nearby_connections_manager_impl.cc). A callback is a
// token; `disconnects` tells what it does when invoked.
module NearbyConnectionsManagers {
  import opened Wrappers
  import C = Connections

  class NearbyConnectionsManagerImpl {
    var pendingOutgoingConnections: map<int, int>
    var connectTimeoutTimers: map<int, bool>
    var connectionInfoMap: map<int, C.Info>
    var disconnectingEndpoints: set<int>
    var connections: set<int>
    var hasIncomingListener: bool
    // Requests to the connection layer that it has yet to answer.
    var disconnectRequests: seq<int>
    var resetRequests: multiset<int>
    var answers: seq<C.Answer>
    ghost var taken: set<int>

    ghost function Calls(): C.Calls
      reads this
    {
      C.Calls(pendingOutgoingConnections, connectTimeoutTimers, answers, taken)
    }

    ghost function State(): C.Manager
      reads this
    {
      C.Manager(Calls(), connectionInfoMap, C.Closing(disconnectingEndpoints, disconnectRequests, resetRequests),
                connections, hasIncomingListener)
    }

    constructor ()
      ensures State() == C.NewManager()
    {
      pendingOutgoingConnections, connectTimeoutTimers, connectionInfoMap := map[], map[], map[];
      disconnectingEndpoints, connections, hasIncomingListener := {}, {}, false;
      disconnectRequests, resetRequests, answers, taken := [], multiset{}, [], {};
    }

    method Connect(endpointId: int, callback: int)
      modifies this
      ensures State() == C.Connect(old(State()), endpointId, callback)
    {
      if endpointId in pendingOutgoingConnections {
        return;
      }
      pendingOutgoingConnections := pendingOutgoingConnections[endpointId := callback];
      taken := taken + {callback};
      if endpointId !in connectTimeoutTimers {
        connectTimeoutTimers := connectTimeoutTimers[endpointId := false];
      }
    }

    method OnConnectionTimedOut(endpointId: int)
      modifies this
      ensures State() == C.OnTimedOut(old(State()), endpointId)
    {
      connectTimeoutTimers := connectTimeoutTimers[endpointId := true];
      if endpointId in pendingOutgoingConnections {
        if endpointId in connectionInfoMap {
          connectionInfoMap := connectionInfoMap[endpointId := connectionInfoMap[endpointId].(status := C.Timeout)];
        }
      }
      Disconnect(endpointId);
    }

    method OnConnectionRequested(endpointId: int, status: C.Status)
      modifies this
      ensures State() == C.OnRequested(old(State()), endpointId, status)
    {
      if endpointId !in pendingOutgoingConnections {
        return;
      }
      if status != C.Success {
        if endpointId in connectionInfoMap {
          connectionInfoMap := connectionInfoMap[endpointId := connectionInfoMap[endpointId].(status := status)];
        }
        Disconnect(endpointId);
      }
    }

    method Disconnect(endpointId: int)
      modifies this`disconnectingEndpoints, this`disconnectRequests
      ensures State() == C.Disconnect(old(State()), endpointId)
    {
      if endpointId !in pendingOutgoingConnections && endpointId !in connectionInfoMap {
        return;
      }
      if endpointId in disconnectingEndpoints {
        return;
      }
      disconnectingEndpoints := disconnectingEndpoints + {endpointId};
      disconnectRequests := disconnectRequests + [endpointId];
    }

    method Invoke(endpointId: int, connected: bool, status: C.Status, disconnects: bool)
      requires endpointId in pendingOutgoingConnections
      modifies this`answers, this`disconnectingEndpoints, this`disconnectRequests
      ensures answers == old(answers)
                         + [C.Answer(pendingOutgoingConnections[endpointId], endpointId, connected, status)]
      ensures var m := if disconnects then C.Disconnect(old(State()), endpointId) else old(State());
              State() == m.(calls := Calls())
    {
      answers := answers + [C.Answer(pendingOutgoingConnections[endpointId], endpointId, connected, status)];
      if disconnects {
        Disconnect(endpointId);
      }
    }

    method OnConnectionInitiated(endpointId: int, isIncoming: bool)
      modifies this
      ensures State() == C.OnInitiated(old(State()), endpointId, isIncoming)
    {
      if endpointId !in connectionInfoMap {
        connectionInfoMap := connectionInfoMap[endpointId := C.Info(isIncoming, C.UnknownStatus)];
      }
    }

    method OnConnectionAccepted(endpointId: int, disconnects: bool)
      modifies this
      ensures State() == C.OnAccepted(old(State()), endpointId, disconnects)
    {
      if endpointId !in connectionInfoMap {
        return;
      }
      if connectionInfoMap[endpointId].incoming {
        if !hasIncomingListener {
          Disconnect(endpointId);
          return;
        }
        connections := connections + {endpointId};
      } else {
        if endpointId !in pendingOutgoingConnections {
          Disconnect(endpointId);
          return;
        }
        connections := connections + {endpointId};
        Invoke(endpointId, true, C.Success, disconnects);
        pendingOutgoingConnections := pendingOutgoingConnections - {endpointId};
        connectTimeoutTimers := connectTimeoutTimers - {endpointId};
      }
    }

    method OnConnectionRejected(endpointId: int, status: C.Status, disconnects: bool)
      modifies this
      ensures State() == C.OnRejected(old(State()), endpointId, status, disconnects)
    {
      connectionInfoMap := connectionInfoMap - {endpointId};
      if endpointId in pendingOutgoingConnections {
        Invoke(endpointId, false, status, disconnects);
        pendingOutgoingConnections := pendingOutgoingConnections - {endpointId};
        connectTimeoutTimers := connectTimeoutTimers - {endpointId};
      }
    }

    method OnDisconnected(endpointId: int, disconnects: bool)
      modifies this
      ensures State() == C.OnDisconnected(old(State()), endpointId, disconnects)
    {
      var connectionLayerStatus := C.UnknownStatus;
      if endpointId in connectionInfoMap {
        connectionLayerStatus := connectionInfoMap[endpointId].status;
      }
      connectionInfoMap := connectionInfoMap - {endpointId};
      if endpointId in pendingOutgoingConnections {
        Invoke(endpointId, false, connectionLayerStatus, disconnects);
        pendingOutgoingConnections := pendingOutgoingConnections - {endpointId};
        connectTimeoutTimers := connectTimeoutTimers - {endpointId};
      }
      connections := connections - {endpointId};
    }

    // What is posted when the connection layer answers a disconnect request.
    method OnDisconnectAnswered(endpointId: int, disconnects: bool)
      modifies this
      ensures State() == C.OnDisconnectDone(old(State()), endpointId, disconnects)
    {
      OnDisconnected(endpointId, disconnects);
      disconnectingEndpoints := disconnectingEndpoints - {endpointId};
      disconnectRequests := C.Remove(disconnectRequests, endpointId);
    }

    // Every connection is asked to close first; then the maps are cleared, the callbacks run over the
    // pending map in its order, and that map is cleared last.
    method Reset(order: seq<int>, disconnects: bool)
      requires C.Enumerates(order, pendingOutgoingConnections.Keys)
      modifies this
      ensures State() == C.DoReset(old(State()), order, disconnects)
    {
      DisconnectConnections();
      connections := {};
      connectionInfoMap := map[];
      hasIncomingListener := false;
      connectTimeoutTimers := map[];
      AnswerAllPending(order, disconnects);
      pendingOutgoingConnections := map[];
    }

    // Reset's loop over the connections; the answers to these requests do nothing.
    method DisconnectConnections()
      modifies this`resetRequests
      ensures resetRequests == old(resetRequests) + multiset(connections)
    {
      var rest := connections;
      while rest != {}
        invariant rest <= connections
        invariant resetRequests == old(resetRequests) + multiset(connections - rest)
        decreases |rest|
      {
        EmptyOrInhabited(rest);
        var endpointId :| endpointId in rest;
        resetRequests := resetRequests + multiset{endpointId};
        assert connections - (rest - {endpointId}) == (connections - rest) + {endpointId};
        rest := rest - {endpointId};
      }
      assert connections - rest == connections;
    }

    method OnResetRequestAnswered(endpointId: int)
      modifies this
      ensures State() == C.OnResetRequestDone(old(State()), endpointId)
    {
      resetRequests := resetRequests - multiset{endpointId};
    }

    // The state with only some of the pending callbacks left to answer.
    ghost function With(rest: map<int, int>): C.Manager
      reads this
    {
      State().(calls := C.Calls(rest, connectTimeoutTimers, answers, taken))
    }

    method AnswerAllPending(order: seq<int>, disconnects: bool)
      requires C.Enumerates(order, pendingOutgoingConnections.Keys) && connectTimeoutTimers == map[]
      modifies this`answers, this`disconnectingEndpoints, this`disconnectRequests
      ensures With(map[]) == C.AnswerAll(old(State()), order, disconnects)
    {
      ghost var rest := pendingOutgoingConnections;
      var todo := order;
      while todo != []
        invariant C.Enumerates(todo, rest.Keys)
        invariant forall e :: e in rest ==> e in pendingOutgoingConnections && rest[e] == pendingOutgoingConnections[e]
        invariant C.AnswerAll(With(rest), todo, disconnects) == C.AnswerAll(old(State()), order, disconnects)
        decreases |todo|
      {
        ghost var m := With(rest);
        C.AnswerAllUnfolds(m, todo, disconnects);
        Invoke(todo[0], false, C.ResetStatus, disconnects);
        rest := rest - {todo[0]};
        assert With(rest) == C.AnswerPending(m, todo[0], false, C.ResetStatus, disconnects);
        todo := todo[1..];
      }
      EmptyOrInhabited(rest.Keys);
      assert rest == map[];
    }
  }
}
