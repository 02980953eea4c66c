// The objects behind OutgoingTransfer: the worker queue (sharing/worker_queue.h), the tracker
// (sharing/payload_tracker.cc), the status listeners of the connections manager
// (sharing/nearby_connections_manager_impl.cc) and the sending side of the outgoing session
// (sharing/outgoing_share_session.cc).
module OutgoingShareSessions {
  import opened Wrappers
  import PA = PayloadAccounting
  import opened OutgoingTransfer

  class WorkerQueue {
    var items: seq<PA.Update>
    var isScheduled: bool

    constructor ()
      ensures items == [] && !isScheduled
    {
      items, isScheduled := [], false;
    }

    method Queue(item: PA.Update)
      modifies this
      ensures items == old(items) + [item] && isScheduled
    {
      items := items + [item];
      isScheduled := true;
    }

    method ReadAll() returns (all: seq<PA.Update>)
      modifies this
      ensures all == old(items) && items == [] && !isScheduled
    {
      isScheduled := false;
      all := items;
      items := [];
    }
  }

  class PayloadTracker {
    const queue: WorkerQueue
    var payloadState: map<int, PA.Payload>
    var totalTransferSize: nat
    var confirmedTransferSize: nat
    var transferredAttachmentsCount: nat
    var lastUpdateProgress: nat
    var lastTransferredSize: nat

    ghost function State(): PA.Tracker
      reads this
    {
      PA.Tracker(payloadState, totalTransferSize, confirmedTransferSize, transferredAttachmentsCount,
                 lastUpdateProgress, lastTransferredSize)
    }

    constructor (files: seq<PA.Attachment>, texts: seq<PA.Attachment>, wifiCredentials: seq<PA.Attachment>,
                 attachmentPayloadMap: map<int, int>, queue: WorkerQueue)
      ensures this.queue == queue
      ensures State() == PA.NewTracker(files + texts + wifiCredentials, attachmentPayloadMap)
    {
      this.queue := queue;
      payloadState := map[];
      totalTransferSize, confirmedTransferSize, transferredAttachmentsCount := 0, 0, 0;
      lastUpdateProgress, lastTransferredSize := 0, 0;
      new;
      AddAttachments(files, attachmentPayloadMap, []);
      assert [] + files == files;
      AddAttachments(texts, attachmentPayloadMap, files);
      AddAttachments(wifiCredentials, attachmentPayloadMap, files + texts);
    }

    // The loop the constructor runs once per kind of attachment.
    method AddAttachments(attachments: seq<PA.Attachment>, attachmentPayloadMap: map<int, int>,
                          ghost before: seq<PA.Attachment>)
      requires State() == PA.NewTracker(before, attachmentPayloadMap)
      modifies this
      ensures State() == PA.NewTracker(before + attachments, attachmentPayloadMap)
    {
      assert before + attachments[..0] == before;
      var i := 0;
      while i < |attachments|
        invariant 0 <= i <= |attachments|
        invariant State() == PA.NewTracker(before + attachments[..i], attachmentPayloadMap)
      {
        var a := attachments[i];
        if a.id in attachmentPayloadMap {
          var p := attachmentPayloadMap[a.id];
          if p !in payloadState {
            payloadState := payloadState[p := PA.Payload(a.id, a.size, 0, PA.InProgress)];
          }
          totalTransferSize := totalTransferSize + a.size;
        }
        ghost var done := before + attachments[..i + 1];
        assert done[..|done| - 1] == before + attachments[..i];
        i := i + 1;
      }
      assert attachments[..i] == attachments;
    }

    method OnStatusUpdate(update: PA.Update)
      modifies queue
      ensures update.payload in payloadState ==> queue.items == old(queue.items) + [update] && queue.isScheduled
      ensures update.payload !in payloadState ==> unchanged(queue)
    {
      if update.payload !in payloadState {
        return;
      }
      queue.Queue(update);
    }

    method ProcessPayloadUpdate(update: PA.Update) returns (metadata: Option<PA.Metadata>)
      modifies this
      ensures State() == PA.Process(old(State()), update).0
      ensures metadata == PA.Process(old(State()), update).1
    {
      if update.payload !in payloadState {
        return None;
      }
      var state := payloadState[update.payload];
      if state.status != update.status {
        state := state.(status := update.status);
      }
      if state.status == PA.Success {
        transferredAttachmentsCount := transferredAttachmentsCount + 1;
        confirmedTransferSize := confirmedTransferSize + update.bytes;
      }
      if update.bytes > state.transferred {
        state := state.(transferred := update.bytes);
      }
      payloadState := payloadState[update.payload := state];
      assert State() == PA.Count(old(State()), update);
      metadata := OnTransferUpdate(state, update.speedDue);
    }

    method OnTransferUpdate(state: PA.Payload, speedDue: bool) returns (metadata: Option<PA.Metadata>)
      modifies this
      ensures State() == PA.Report(old(State()), state, speedDue).0
      ensures metadata == PA.Report(old(State()), state, speedDue).1
    {
      var n, k := |payloadState|, transferredAttachmentsCount;
      if k == n {
        return Some(PA.Metadata(PA.Complete, 100, 0, n, k, None));
      }
      if state.status == PA.Canceled {
        return Some(PA.Metadata(PA.Cancelled, 0, 0, n, k, None));
      }
      if state.status == PA.Failure {
        return Some(PA.Metadata(PA.Failed, 0, 0, n, k, None));
      }
      var transferred := confirmedTransferSize + if state.status == PA.Success then 0 else state.transferred;
      var progress := if totalTransferSize == 0 then 100 else 100 * transferred / totalTransferSize;
      if progress == lastUpdateProgress && state.status != PA.Success {
        return None;
      }
      if speedDue {
        lastTransferredSize := transferred;
      }
      lastUpdateProgress := progress;
      metadata := Some(PA.Metadata(PA.TransferInProgress, progress, transferred, n, k,
                                   Some(PA.Current(state.attachment, state.size, state.transferred))));
    }
  }

  class OutgoingShareSession {
    const tracker: PayloadTracker
    // The connections manager's payload status listeners; all of them are this session's tracker.
    var payloadStatusListeners: set<int>
    var textPayloads: seq<int>
    var filePayloads: seq<int>
    var wifiCredentialsPayloads: seq<int>
    var gotFinalStatus: bool
    var pendingCompleteMetadata: Option<PA.Metadata>
    var disconnecting: bool
    ghost var registered: set<int>
    ghost var won: map<int, nat>
    ghost var sent: seq<int>
    var emitted: seq<PA.Metadata>

    ghost function FlowState(): PA.Flow
      reads this, tracker, tracker.queue
    {
      PA.Flow(payloadStatusListeners, tracker.queue.items, tracker.queue.isScheduled, tracker.State(), registered, won)
    }

    ghost function State(): Sender
      reads this, tracker, tracker.queue
    {
      Sender(textPayloads, filePayloads, wifiCredentialsPayloads, FlowState(), gotFinalStatus,
             pendingCompleteMetadata, disconnecting, sent, emitted)
    }

    constructor (texts: seq<int>, files: seq<int>, wifis: seq<int>, tracker: PayloadTracker)
      requires tracker.queue.items == [] && !tracker.queue.isScheduled
      ensures this.tracker == tracker
      ensures State() == NewSender(texts, files, wifis, tracker.State())
    {
      this.tracker := tracker;
      textPayloads, filePayloads, wifiCredentialsPayloads := texts, files, wifis;
      payloadStatusListeners, gotFinalStatus, pendingCompleteMetadata, disconnecting := {}, false, None, false;
      registered, won, sent, emitted := {}, map[], [], [];
    }

    method ExtractNextPayload() returns (payload: Option<int>)
      modifies this
      ensures State() == Extract(old(State())).0 && payload == Extract(old(State())).1
    {
      if textPayloads != [] {
        payload := Some(textPayloads[|textPayloads| - 1]);
        textPayloads := textPayloads[..|textPayloads| - 1];
        return;
      }
      if filePayloads != [] {
        payload := Some(filePayloads[|filePayloads| - 1]);
        filePayloads := filePayloads[..|filePayloads| - 1];
        return;
      }
      if wifiCredentialsPayloads != [] {
        payload := Some(wifiCredentialsPayloads[|wifiCredentialsPayloads| - 1]);
        wifiCredentialsPayloads := wifiCredentialsPayloads[..|wifiCredentialsPayloads| - 1];
        return;
      }
      return None;
    }

    // With the manager's Send, which registers the listener.
    method SendNextPayload()
      modifies this
      ensures State() == SendNext(old(State()))
    {
      var payload := ExtractNextPayload();
      if payload.Some? {
        payloadStatusListeners := payloadStatusListeners + {payload.value};
        registered := registered + {payload.value};
        sent := sent + [payload.value];
      }
    }

    method UpdateTransferMetadata(metadata: PA.Metadata)
      modifies this
      ensures State() == Emit(old(State()), metadata)
    {
      if gotFinalStatus {
        return;
      }
      gotFinalStatus := metadata.status.Final();
      OnOutgoingTransferUpdate(metadata);
    }

    method OnOutgoingTransferUpdate(metadata: PA.Metadata)
      modifies this
      ensures var s := old(State()).(emitted := old(emitted) + [metadata]);
              State() == if CurrentIsFull(metadata) then SendNext(s) else s
    {
      emitted := emitted + [metadata];
      if metadata.current.Some? && metadata.current.value.transferred == metadata.current.value.total {
        SendNextPayload();
      }
    }

    method DelayComplete(metadata: PA.Metadata)
      modifies this
      ensures State() == OutgoingTransfer.DelayComplete(old(State()), metadata)
    {
      pendingCompleteMetadata := Some(metadata);
      UpdateTransferMetadata(metadata.(status := PA.TransferInProgress));
    }

    method ProcessPayloadTransferUpdates() returns (metadata: Option<PA.Metadata>)
      modifies this, tracker, tracker.queue
      ensures State() == old(State()).(flow := PA.Drain(old(FlowState())).0)
      ensures metadata == PA.Drain(old(FlowState())).1
    {
      ghost var start := FlowState().(scheduled := false);
      var updates := tracker.queue.ReadAll();
      metadata := None;
      while updates != []
        invariant tracker.queue.items == [] && !tracker.queue.isScheduled
        invariant State() == old(State()).(flow := FlowState())
        invariant PA.Batch(FlowState().(queue := updates), metadata) == PA.Batch(start, None)
        decreases |updates|
      {
        ghost var f := FlowState().(queue := updates);
        var u := updates[0];
        metadata := tracker.ProcessPayloadUpdate(u);
        if u.status == PA.Success && u.payload in tracker.payloadState {
          won := won[u.payload := u.bytes];
        }
        updates := updates[1..];
        assert (FlowState().(queue := updates), metadata) == PA.ProcessHead(f);
      }
    }

    // OnOutgoingPayloadTransferUpdates of the service, for this session.
    method OnOutgoingPayloadTransferUpdates()
      modifies this, tracker, tracker.queue
      ensures State() == OnUpdates(old(State()))
    {
      var metadata := ProcessPayloadTransferUpdates();
      if metadata == None {
        return;
      }
      if metadata.value.status == PA.Complete {
        DelayComplete(metadata.value);
        return;
      }
      UpdateTransferMetadata(metadata.value);
      if metadata.value.status.Final() && metadata.value.status != PA.Cancelled {
        disconnecting := true;
      }
    }

    // The manager's handling of a status update for a payload it has a listener for.
    method OnPayloadTransferUpdate(update: PA.Update)
      modifies this, tracker.queue
      ensures State() == NextPump(old(State()), Arrive(update))
    {
      if update.payload in payloadStatusListeners {
        if update.status.Terminal() {
          payloadStatusListeners := payloadStatusListeners - {update.payload};
        }
        tracker.OnStatusUpdate(update);
      }
    }

    method Cancel(payloadId: int)
      modifies this, tracker.queue
      ensures State() == NextPump(old(State()), Abandon(payloadId))
    {
      if payloadId in payloadStatusListeners {
        payloadStatusListeners := payloadStatusListeners - {payloadId};
        tracker.OnStatusUpdate(PA.Update(payloadId, PA.Canceled, 0, false));
      }
    }
  }
}
