// The session object behind SessionLifetime (sharing/share_session.cc, with the overrides of
// sharing/outgoing_share_session.cc and sharing/incoming_share_session.cc selected by a flag, and the
// session part of the service's Reject and DoCancel).
module ShareSessions {
  import opened SessionLifetime

  class ShareSession {
    const isOutgoing: bool
    const selfShare: bool
    const attachmentPayloads: seq<int>
    var gotFinalStatus: bool
    var isCancelled: bool
    var disconnectStatus: Status
    var hasConnection: bool
    var pendingComplete: bool
    var disconnectionTimeout: bool
    var updates: seq<Status>
    var cancelRequests: seq<int>
    ghost var everConnected: bool

    ghost function State(): Session
      reads this
    {
      Session(isOutgoing, selfShare, attachmentPayloads, Client(gotFinalStatus, updates),
              Link(disconnectStatus, hasConnection, everConnected), Delay(pendingComplete, disconnectionTimeout),
              Cancels(isCancelled, cancelRequests))
    }

    constructor (isOutgoing: bool, selfShare: bool, attachmentPayloads: seq<int>)
      ensures State() == NewSession(isOutgoing, selfShare, attachmentPayloads)
    {
      this.isOutgoing, this.selfShare, this.attachmentPayloads := isOutgoing, selfShare, attachmentPayloads;
      gotFinalStatus, isCancelled, disconnectStatus, hasConnection := false, false, Unknown, false;
      pendingComplete, disconnectionTimeout, updates, cancelRequests, everConnected := false, false, [], [], false;
    }

    method UpdateTransferMetadata(status: Status)
      modifies this`gotFinalStatus, this`updates
      ensures Client(gotFinalStatus, updates) == Emit(old(Client(gotFinalStatus, updates)), status)
    {
      if gotFinalStatus {
        return;
      }
      gotFinalStatus := status.Final();
      updates := updates + [status];
    }

    // With a connection this is also IncomingShareSession::OnConnected.
    method OnConnectResult(connected: bool, timeout: bool) returns (ok: bool)
      modifies this
      ensures ok == connected
      ensures State() == if connected then Connect(old(State())) else ConnectFailed(old(State()), timeout)
    {
      if !connected {
        if timeout {
          disconnectStatus := TimedOut;
        } else {
          disconnectStatus := Failed;
        }
        UpdateTransferMetadata(disconnectStatus);
        return false;
      }
      disconnectStatus := Failed;
      hasConnection := true;
      everConnected := true;
      return true;
    }

    method ReadyForTransfer() returns (accept: bool)
      modifies this
      ensures State() == SessionLifetime.ReadyForTransfer(old(State()))
      ensures accept == (old(hasConnection) && selfShare)
    {
      if !hasConnection {
        return false;
      }
      disconnectStatus := Failed;
      if !selfShare {
        UpdateTransferMetadata(AwaitingLocalConfirmation);
        return false;
      }
      return true;
    }

    method DelayComplete()
      modifies this
      ensures State() == SessionLifetime.DelayComplete(old(State()))
    {
      pendingComplete := true;
      UpdateTransferMetadata(InProgress);
      disconnectionTimeout := true;
    }

    // The delayed-complete timer; the disconnection it then requests arrives as OnDisconnect.
    method OnDisconnectionTimeout()
      modifies this
      ensures State() == TimerFired(old(State()))
    {
      if disconnectionTimeout {
        disconnectionTimeout := false;
        pendingComplete := false;
      }
    }

    method OnConnectionDisconnected()
      modifies this
      ensures State() == SessionLifetime.OnConnectionDisconnected(old(State()))
    {
      if isOutgoing {
        disconnectionTimeout := false;
        if pendingComplete {
          UpdateTransferMetadata(Complete);
          pendingComplete := false;
        }
      }
    }

    method OnDisconnect()
      modifies this
      ensures State() == SessionLifetime.OnDisconnect(old(State()))
    {
      OnConnectionDisconnected();
      if disconnectStatus != Unknown {
        UpdateTransferMetadata(disconnectStatus);
      }
      hasConnection := false;
    }

    method CancelPayloads() returns (ok: bool)
      modifies this
      ensures State() == SessionLifetime.CancelPayloads(old(State()))
      ensures ok == !old(isCancelled)
    {
      if isCancelled {
        return false;
      }
      var i := 0;
      assert attachmentPayloads[..0] == [];
      while i < |attachmentPayloads|
        invariant 0 <= i <= |attachmentPayloads|
        invariant cancelRequests == old(cancelRequests) + attachmentPayloads[..i]
        invariant State() == old(State()).(cancels := Cancels(false, cancelRequests))
      {
        cancelRequests := cancelRequests + [attachmentPayloads[i]];
        i := i + 1;
      }
      assert attachmentPayloads[..i] == attachmentPayloads;
      isCancelled := true;
      return true;
    }

    // NearbySharingServiceImpl::Reject; false is the out-of-order answer.
    method Reject() returns (ok: bool)
      modifies this
      ensures State() == SessionLifetime.Reject(old(State()))
      ensures ok == old(hasConnection)
    {
      if !hasConnection {
        return false;
      }
      disconnectStatus := Unknown;
      UpdateTransferMetadata(Rejected);
      return true;
    }

    // NearbySharingServiceImpl::DoCancel.
    method DoCancel(isInitiatorOfCancellation: bool)
      modifies this
      ensures State() == SessionLifetime.DoCancel(old(State()), isInitiatorOfCancellation)
    {
      var ok := CancelPayloads();
      if !ok {
        return;
      }
      UpdateTransferMetadata(Cancelled);
      if hasConnection {
        if isInitiatorOfCancellation {
          disconnectStatus := Unknown;
        }
      }
    }
  }
}
