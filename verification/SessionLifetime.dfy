/** The life of a share session: the status latches of sharing/share_session.cc with its outgoing and
    incoming halves, and the reject and cancel flows of sharing/nearby_sharing_service_impl.cc.

    A client must see any number of non-final statuses and then one final status, whichever of abort,
    reject, cancel, failure, the delayed-complete timer and disconnection comes first.
 */
module SessionLifetime {
  datatype Status =
    | Unknown | Connecting | AwaitingLocalConfirmation | AwaitingRemoteAcceptance | InProgress
    | Complete | Failed | Rejected | Cancelled | TimedOut | MediaUnavailable | NotEnoughSpace
    | UnsupportedAttachmentType | DeviceAuthenticationFailed | IncompletePayloads
  {
    predicate Final() {
      !Unknown? && !Connecting? && !AwaitingLocalConfirmation? && !AwaitingRemoteAcceptance? && !InProgress?
    }
  }

  // The got-final latch and, as history, what the client saw.
  datatype Client = Client(gotFinal: bool, emitted: seq<Status>)

  // The status to report on disconnection, the connection and, as history, whether there ever was one.
  datatype Link = Link(disconnectStatus: Status, connected: bool, everConnected: bool)

  // A completed result waiting for the receiver to disconnect, and the timer that gives up on it.
  datatype Delay = Delay(pending: bool, timer: bool)

  // The cancellation latch and, as history, the payload cancellations.
  datatype Cancels = Cancels(isCancelled: bool, requests: seq<int>)

  datatype Session = Session(outgoing: bool, selfShare: bool, payloads: seq<int>,
                             client: Client, link: Link, delay: Delay, cancels: Cancels)

  function NewSession(outgoing: bool, selfShare: bool, payloads: seq<int>): Session {
    Session(outgoing, selfShare, payloads, Client(false, []), Link(Unknown, false, false), Delay(false, false),
            Cancels(false, []))
  }

  // UpdateTransferMetadata.
  function Emit(c: Client, status: Status): Client {
    if c.gotFinal then c else Client(status.Final(), c.emitted + [status])
  }

  function WithStatus(s: Session, status: Status): Session {
    s.(link := s.link.(disconnectStatus := status))
  }

  function Connect(s: Session): Session { s.(link := Link(Failed, true, true)) }

  // OnConnectResult without a connection; the status is also kept for a later disconnection.
  function ConnectFailed(s: Session, timeout: bool): Session {
    var status := if timeout then TimedOut else Failed;
    WithStatus(s, status).(client := Emit(s.client, status))
  }

  // IncomingShareSession::ReadyForTransfer.
  function ReadyForTransfer(s: Session): Session {
    if !s.link.connected then s
    else if s.selfShare then WithStatus(s, Failed)
    else WithStatus(s, Failed).(client := Emit(s.client, AwaitingLocalConfirmation))
  }

  function DelayComplete(s: Session): Session {
    s.(client := Emit(s.client, InProgress), delay := Delay(true, true))
  }

  function TimerFired(s: Session): Session {
    if s.delay.timer then s.(delay := Delay(false, false)) else s
  }

  function OnConnectionDisconnected(s: Session): Session {
    if !s.outgoing then s
    else s.(client := if s.delay.pending then Emit(s.client, Complete) else s.client, delay := Delay(false, false))
  }

  function OnDisconnect(s: Session): Session {
    var s1 := OnConnectionDisconnected(s);
    var status := s.link.disconnectStatus;
    s1.(client := if status != Unknown then Emit(s1.client, status) else s1.client,
        link := s.link.(connected := false))
  }

  // The service's Reject.
  function Reject(s: Session): Session {
    if !s.link.connected then s else WithStatus(s, Unknown).(client := Emit(s.client, Rejected))
  }

  function CancelPayloads(s: Session): Session {
    if s.cancels.isCancelled then s else s.(cancels := Cancels(true, s.cancels.requests + s.payloads))
  }

  // The service's DoCancel; the initiator of a cancellation wants no status from the disconnection.
  function DoCancel(s: Session, initiator: bool): Session {
    if s.cancels.isCancelled then s
    else
      var s1 := CancelPayloads(s).(client := Emit(s.client, Cancelled));
      if s.link.connected && initiator then WithStatus(s1, Unknown) else s1
  }

  // ---------------------------------------------------------------- runs

  datatype Step =
    | Report(status: Status)
    | Connected
    | ConnectionFailed(timeout: bool)
    | Ready
    | PayloadsComplete
    | DelayOver
    | RejectCall
    | CancelCall(initiator: bool)
    | Disconnected

  // Report covers every other status update, aborts and failure responses included. Only an outgoing
  // session delays completion; it never reports it directly (sharing/nearby_sharing_service_impl.cc:2948).
  predicate Possible(s: Session, step: Step) {
    match step
    case Report(status) => status != Unknown && !(s.outgoing && status == Complete)
    case ConnectionFailed(timeout) => s.outgoing
    case Ready => !s.outgoing
    case PayloadsComplete => s.outgoing
    case _ => true
  }

  function Next(s: Session, step: Step): Session {
    if !Possible(s, step) then s else
    match step
    case Report(status) => s.(client := Emit(s.client, status))
    case Connected => Connect(s)
    case ConnectionFailed(timeout) => ConnectFailed(s, timeout)
    case Ready => ReadyForTransfer(s)
    case PayloadsComplete => DelayComplete(s)
    case DelayOver => TimerFired(s)
    case RejectCall => Reject(s)
    case CancelCall(initiator) => DoCancel(s, initiator)
    case Disconnected => OnDisconnect(s)
  }

  function Exec(s: Session, steps: seq<Step>): Session {
    if steps == [] then s else Next(Exec(s, steps[..|steps| - 1]), steps[|steps| - 1])
  }

  // ---------------------------------------------------------------- one final status, and it is last

  function Finals(emitted: seq<Status>): nat {
    if emitted == [] then 0
    else Finals(emitted[..|emitted| - 1]) + if emitted[|emitted| - 1].Final() then 1 else 0
  }

  // What the client saw: no final status yet, or exactly one and it came last.
  ghost predicate Seen(c: Client) {
    && Finals(c.emitted) == (if c.gotFinal then 1 else 0)
    && (c.gotFinal ==> c.emitted != [] && c.emitted[|c.emitted| - 1].Final())
  }

  ghost predicate LinkOk(l: Link, gotFinal: bool) {
    && (l.everConnected ==> gotFinal || l.disconnectStatus != Unknown)
    && (l.connected ==> l.everConnected)
    && (l.disconnectStatus == Unknown || l.disconnectStatus == Failed || l.disconnectStatus == TimedOut)
  }

  ghost predicate Inv(s: Session) {
    && Seen(s.client)
    && LinkOk(s.link, s.client.gotFinal)
    && s.cancels.requests == (if s.cancels.isCancelled then s.payloads else [])
    && (!s.outgoing ==> s.delay == Delay(false, false))
    && (s.delay.pending ==> s.delay.timer)
  }

  lemma EmitSeen(c: Client, status: Status)
    requires Seen(c)
    ensures Seen(Emit(c, status))
  {
    assert (c.emitted + [status])[..|c.emitted|] == c.emitted;
  }

  lemma OnDisconnectKeeps(s: Session)
    requires Inv(s)
    ensures Inv(OnDisconnect(s))
  {
    EmitSeen(s.client, Complete);
    EmitSeen(OnConnectionDisconnected(s).client, s.link.disconnectStatus);
  }

  lemma CancelKeeps(s: Session, initiator: bool)
    requires Inv(s)
    ensures Inv(DoCancel(s, initiator))
  {
    assert [] + s.payloads == s.payloads;
    EmitSeen(s.client, Cancelled);
  }

  lemma RejectKeeps(s: Session)
    requires Inv(s)
    ensures Inv(Reject(s))
  {
    EmitSeen(s.client, Rejected);
  }

  lemma ReadyKeeps(s: Session)
    requires Inv(s)
    ensures Inv(ReadyForTransfer(s))
  {
    EmitSeen(s.client, AwaitingLocalConfirmation);
  }

  lemma ConnectFailedKeeps(s: Session, timeout: bool)
    requires Inv(s)
    ensures Inv(ConnectFailed(s, timeout))
  {
    EmitSeen(s.client, if timeout then TimedOut else Failed);
  }

  lemma NextKeeps(s: Session, step: Step)
    requires Inv(s)
    ensures Inv(Next(s, step))
  {
    match step
    case Report(status) => EmitSeen(s.client, status);
    case Connected =>
    case ConnectionFailed(timeout) => ConnectFailedKeeps(s, timeout);
    case Ready => ReadyKeeps(s);
    case PayloadsComplete => EmitSeen(s.client, InProgress);
    case DelayOver =>
    case RejectCall => RejectKeeps(s);
    case CancelCall(initiator) => CancelKeeps(s, initiator);
    case Disconnected => OnDisconnectKeeps(s);
  }

  lemma NextKeepsKind(s: Session, step: Step)
    ensures Next(s, step).outgoing == s.outgoing && Next(s, step).payloads == s.payloads
  {
  }

  lemma {:induction false} ExecKeeps(s: Session, steps: seq<Step>)
    requires Inv(s)
    ensures Inv(Exec(s, steps))
    ensures Exec(s, steps).outgoing == s.outgoing && Exec(s, steps).payloads == s.payloads
  {
    if steps != [] {
      var g, step := Exec(s, steps[..|steps| - 1]), steps[|steps| - 1];
      ExecKeeps(s, steps[..|steps| - 1]);
      NextKeeps(g, step);
      NextKeepsKind(g, step);
    }
  }

  // Main result: in every run the client sees at most one final status and nothing after it, each payload
  // is cancelled at most once, and if there ever was a connection exactly one final status has been seen
  // by the time OnDisconnect returns.
  lemma EveryRun(outgoing: bool, selfShare: bool, payloads: seq<int>, steps: seq<Step>)
    ensures var s := Exec(NewSession(outgoing, selfShare, payloads), steps);
            && Seen(s.client)
            && (s.cancels.requests == [] || s.cancels.requests == payloads)
            && (s.link.everConnected ==> Finals(OnDisconnect(s).client.emitted) == 1)
  {
    var s := Exec(NewSession(outgoing, selfShare, payloads), steps);
    ExecKeeps(NewSession(outgoing, selfShare, payloads), steps);
    OnDisconnectKeeps(s);
  }

  // Once the final status is out, nothing more reaches the client.
  lemma {:induction false} FinalIsSilent(s: Session, steps: seq<Step>)
    requires s.client.gotFinal
    ensures Exec(s, steps).client == s.client
  {
    if steps != [] {
      FinalIsSilent(s, steps[..|steps| - 1]);
      NextIsSilent(Exec(s, steps[..|steps| - 1]), steps[|steps| - 1]);
    }
  }

  lemma NextIsSilent(s: Session, step: Step)
    requires s.client.gotFinal
    ensures Next(s, step).client == s.client
  {
  }

  // ---------------------------------------------------------------- when an outgoing session completes

  // The last index of a step that decides whether a completed result is pending, if any.
  ghost predicate PendingAfter(steps: seq<Step>) {
    exists k :: 0 <= k < |steps| && steps[k] == PayloadsComplete && Undisturbed(steps, k)
  }

  ghost predicate Undisturbed(steps: seq<Step>, k: nat) {
    forall j :: k < j < |steps| ==> steps[j] != DelayOver && steps[j] != Disconnected
  }

  lemma {:induction false} PendingIff(s: Session, steps: seq<Step>)
    requires Inv(s) && s.outgoing && !s.delay.pending
    ensures Exec(s, steps).delay.pending <==> PendingAfter(steps)
  {
    if steps != [] {
      var n := |steps| - 1;
      var init, step := steps[..n], steps[n];
      PendingIff(s, init);
      ExecKeeps(s, init);
      NextPending(Exec(s, init), step);
      if step == PayloadsComplete {
        assert Undisturbed(steps, n);
      } else if step == DelayOver || step == Disconnected {
        assert forall k: nat :: k < n ==> !Undisturbed(steps, k);
      } else {
        assert forall k: nat :: k < n ==> (Undisturbed(steps, k) <==> Undisturbed(init, k));
        assert forall k :: 0 <= k < n ==> steps[k] == init[k];
      }
    }
  }

  lemma NextPending(s: Session, step: Step)
    requires Inv(s) && s.outgoing
    ensures Next(s, step).delay.pending <==>
            step == PayloadsComplete || (s.delay.pending && step != DelayOver && step != Disconnected)
  {
  }

  predicate Reports(c: Client, c1: Client, status: Status) { c1.emitted == c.emitted + [status] }

  // No step but a disconnection with a pending result makes an outgoing session report completion.
  lemma OnlyDisconnectCompletes(s: Session, step: Step)
    requires Inv(s) && s.outgoing
    ensures Reports(s.client, Next(s, step).client, Complete) <==>
            step == Disconnected && s.delay.pending && !s.client.gotFinal
  {
    var c, c1 := s.client, Next(s, step).client;
    if Reports(c, c1, Complete) {
      assert |c1.emitted| == |c.emitted| + 1 && c1.emitted[|c.emitted|] == Complete;
    }
  }

  // Main result: a disconnection after any run makes an outgoing session report completion exactly when
  // no final status was seen and all payloads completed after the last disconnection or elapsed delay.
  lemma CompletesIff(selfShare: bool, payloads: seq<int>, steps: seq<Step>)
    ensures var s := Exec(NewSession(true, selfShare, payloads), steps);
            Reports(s.client, OnDisconnect(s).client, Complete) <==> PendingAfter(steps) && !s.client.gotFinal
  {
    var s0 := NewSession(true, selfShare, payloads);
    PendingIff(s0, steps);
    ExecKeeps(s0, steps);
    OnlyDisconnectCompletes(Exec(s0, steps), Disconnected);
  }

  // A peer that never disconnects costs the sender the completion: the delay elapses, and the
  // disconnection it asks for then reports a failure.
  lemma ElapsedDelayFails(s: Session)
    requires Inv(s) && s.outgoing && !s.client.gotFinal && s.link.disconnectStatus == Failed
    ensures OnDisconnect(TimerFired(DelayComplete(s))).client.emitted == s.client.emitted + [InProgress, Failed]
    ensures OnDisconnect(DelayComplete(s)).client.emitted == s.client.emitted + [InProgress, Complete]
  {
  }
}
