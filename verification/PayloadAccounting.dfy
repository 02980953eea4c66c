/** Transfer accounting: the payload status listeners of sharing/nearby_connections_manager_impl.cc, the
    update queue of sharing/worker_queue.h and the tracker of sharing/payload_tracker.cc.

    The tracker adds up counters blindly, one success at a time. They are exact because the manager
    forgets a payload's listener at its first terminal status.
 */
module PayloadAccounting {
  import opened Wrappers
  import opened Sums

  datatype PayloadStatus = InProgress | Success | Failure | Canceled {
    predicate Terminal() { !InProgress? }
  }

  // `speedDue` is whether the clock asks for a new speed sample when the update is processed.
  datatype Update = Update(payload: int, status: PayloadStatus, bytes: nat, speedDue: bool)

  datatype Payload = Payload(attachment: int, size: nat, transferred: nat, status: PayloadStatus)

  datatype Current = Current(attachment: int, total: nat, transferred: nat)

  datatype TransferStatus = TransferInProgress | Complete | Cancelled | Failed {
    predicate Final() { !TransferInProgress? }
  }

  datatype Metadata = Metadata(status: TransferStatus, progress: nat, transferredBytes: nat,
                               totalAttachments: nat, transferredAttachments: nat, current: Option<Current>)

  datatype Tracker = Tracker(payloads: map<int, Payload>, total: nat, confirmed: nat, succeeded: nat,
                             lastProgress: nat, lastTransferred: nat)

  // ---------------------------------------------------------------- the tracker

  datatype Attachment = Attachment(id: int, size: nat)

  // One round of the constructor's loops; `emplace` keeps an existing entry.
  function Track(t: Tracker, a: Attachment, payloadOf: map<int, int>): Tracker {
    if a.id !in payloadOf then t
    else
      var p := payloadOf[a.id];
      t.(payloads := if p in t.payloads then t.payloads else t.payloads[p := Payload(a.id, a.size, 0, InProgress)],
         total := t.total + a.size)
  }

  // The constructor runs over files, texts and Wi-Fi credentials in turn.
  function NewTracker(attachments: seq<Attachment>, payloadOf: map<int, int>): Tracker {
    if attachments == [] then Tracker(map[], 0, 0, 0, 0, 0)
    else Track(NewTracker(attachments[..|attachments| - 1], payloadOf), attachments[|attachments| - 1], payloadOf)
  }

  function Max(a: nat, b: nat): nat { if a < b then b else a }

  predicate IsComplete(t: Tracker) { t.succeeded == |t.payloads| }

  function TotalTransferred(t: Tracker, p: Payload): nat {
    if p.status == Success then t.confirmed else t.confirmed + p.transferred
  }

  // The percentage as the source truncates it.
  function Progress(t: Tracker, p: Payload): nat {
    if t.total == 0 then 100 else 100 * TotalTransferred(t, p) / t.total
  }

  function Record(p: Payload, u: Update): Payload {
    p.(status := u.status, transferred := Max(p.transferred, u.bytes))
  }

  // The state change at the head of ProcessPayloadUpdate.
  function Count(t: Tracker, u: Update): Tracker
    requires u.payload in t.payloads
  {
    t.(payloads := t.payloads[u.payload := Record(t.payloads[u.payload], u)],
       succeeded := if u.status == Success then t.succeeded + 1 else t.succeeded,
       confirmed := if u.status == Success then t.confirmed + u.bytes else t.confirmed)
  }

  // OnTransferUpdate for the payload just updated.
  function Report(t: Tracker, p: Payload, speedDue: bool): (Tracker, Option<Metadata>) {
    var n := |t.payloads|;
    if IsComplete(t) then (t, Some(Metadata(Complete, 100, 0, n, t.succeeded, None)))
    else if p.status == Canceled then (t, Some(Metadata(Cancelled, 0, 0, n, t.succeeded, None)))
    else if p.status == Failure then (t, Some(Metadata(Failed, 0, 0, n, t.succeeded, None)))
    else if Progress(t, p) == t.lastProgress && p.status != Success then (t, None)
    else
      (t.(lastProgress := Progress(t, p),
          lastTransferred := if speedDue then TotalTransferred(t, p) else t.lastTransferred),
       Some(Metadata(TransferInProgress, Progress(t, p), TotalTransferred(t, p), n, t.succeeded,
                     Some(Current(p.attachment, p.size, p.transferred)))))
  }

  function Process(t: Tracker, u: Update): (Tracker, Option<Metadata>) {
    if u.payload !in t.payloads then (t, None)
    else
      var t1 := Count(t, u);
      Report(t1, t1.payloads[u.payload], u.speedDue)
  }

  // ---------------------------------------------------------------- listeners, queue and tracker together

  /** `registered` is every payload that ever had a listener and `won` the bytes each successful payload
      reported; both only record history. */
  datatype Flow = Flow(listeners: set<int>, queue: seq<Update>, scheduled: bool, tracker: Tracker,
                       registered: set<int>, won: map<int, nat>)

  function NewFlow(t: Tracker): Flow { Flow({}, [], false, t, {}, map[]) }

  function Register(f: Flow, payload: int): Flow {
    f.(listeners := f.listeners + {payload}, registered := f.registered + {payload})
  }

  // OnStatusUpdate: updates of untracked payloads are not queued; queueing schedules the reader once.
  function Enqueue(f: Flow, u: Update): Flow {
    if u.payload !in f.tracker.payloads then f else f.(queue := f.queue + [u], scheduled := true)
  }

  function Deliver(f: Flow, u: Update): Flow {
    if u.payload !in f.listeners then f
    else Enqueue(if u.status.Terminal() then f.(listeners := f.listeners - {u.payload}) else f, u)
  }

  function Cancel(f: Flow, payload: int): Flow {
    if payload !in f.listeners then f
    else Enqueue(f.(listeners := f.listeners - {payload}), Update(payload, Canceled, 0, false))
  }

  function ProcessHead(f: Flow): (Flow, Option<Metadata>)
    requires f.queue != []
  {
    var u := f.queue[0];
    var (t, m) := Process(f.tracker, u);
    (f.(queue := f.queue[1..], tracker := t,
        won := if u.status == Success && u.payload in t.payloads then f.won[u.payload := u.bytes] else f.won), m)
  }

  // A whole batch is processed and only its last result is kept.
  function Batch(f: Flow, last: Option<Metadata>): (Flow, Option<Metadata>)
    decreases |f.queue|
  {
    if f.queue == [] then (f, last) else var (f1, m) := ProcessHead(f); Batch(f1, m)
  }

  function Drain(f: Flow): (Flow, Option<Metadata>) {
    Batch(f.(scheduled := false), None)
  }

  // ---------------------------------------------------------------- exact counters

  ghost function Succeeded(t: Tracker): set<int> {
    set p | p in t.payloads && t.payloads[p].status == Success
  }

  ghost function Sizes(t: Tracker): map<int, nat> { map p | p in t.payloads :: t.payloads[p].size }

  ghost predicate Accounts(t: Tracker, won: map<int, nat>) {
    && won.Keys == Succeeded(t)
    && t.succeeded == |Succeeded(t)|
    && t.confirmed == Sum(won)
  }

  ghost predicate Exact(f: Flow) { Accounts(f.tracker, f.won) }

  // Every payload sees at most one terminal status, and nothing after it.
  ghost predicate TerminalOnce(f: Flow) {
    && f.listeners <= f.registered
    && (forall p :: p in f.listeners && p in f.tracker.payloads ==> !f.tracker.payloads[p].status.Terminal())
    && (forall p :: p in f.tracker.payloads && p !in f.registered ==> !f.tracker.payloads[p].status.Terminal())
    && (forall i :: 0 <= i < |f.queue| ==> Queued(f, f.queue[i]))
    && (forall i, j :: 0 <= i < j < |f.queue| && f.queue[i].payload == f.queue[j].payload ==>
          !f.queue[i].status.Terminal())
  }

  ghost predicate Queued(f: Flow, u: Update) {
    && u.payload in f.tracker.payloads && u.payload in f.registered
    && !f.tracker.payloads[u.payload].status.Terminal()
    && (u.payload in f.listeners ==> !u.status.Terminal())
  }

  ghost predicate FlowOk(f: Flow) {
    Exact(f) && TerminalOnce(f) && (f.queue != [] ==> f.scheduled)
  }

  lemma RegisterKeeps(f: Flow, payload: int)
    requires FlowOk(f) && payload !in f.registered
    ensures FlowOk(Register(f, payload))
  {
  }

  lemma DeliverKeeps(f: Flow, u: Update)
    requires FlowOk(f)
    ensures FlowOk(Deliver(f, u))
  {
  }

  lemma CancelKeeps(f: Flow, payload: int)
    requires FlowOk(f)
    ensures FlowOk(Cancel(f, payload))
  {
  }

  // Every payload reaches success at most once, so one more success means one more payload.
  lemma CountExact(t: Tracker, won: map<int, nat>, u: Update)
    requires Accounts(t, won) && u.payload in t.payloads && !t.payloads[u.payload].status.Terminal()
    ensures Accounts(Count(t, u), if u.status == Success then won[u.payload := u.bytes] else won)
  {
    var t1 := Count(t, u);
    if u.status == Success {
      assert Succeeded(t1) == Succeeded(t) + {u.payload};
      SumPut(won, u.payload, u.bytes);
    } else {
      assert Succeeded(t1) == Succeeded(t);
    }
  }

  lemma ReportKeepsAccounts(t: Tracker, won: map<int, nat>, p: Payload, speedDue: bool)
    requires Accounts(t, won)
    ensures Accounts(Report(t, p, speedDue).0, won)
  {
    assert Succeeded(Report(t, p, speedDue).0) == Succeeded(t);
  }

  lemma ProcessHeadExact(f: Flow)
    requires Exact(f) && f.queue != [] && Queued(f, f.queue[0])
    ensures Exact(ProcessHead(f).0)
  {
    var u, f1 := f.queue[0], ProcessHead(f).0;
    CountExact(f.tracker, f.won, u);
    ReportKeepsAccounts(Count(f.tracker, u), f1.won, Count(f.tracker, u).payloads[u.payload], u.speedDue);
  }

  lemma ProcessHeadTerminalOnce(f: Flow)
    requires TerminalOnce(f) && f.queue != []
    ensures TerminalOnce(ProcessHead(f).0)
  {
    var u, f1 := f.queue[0], ProcessHead(f).0;
    assert Queued(f, u);
    forall i | 0 <= i < |f1.queue| ensures Queued(f1, f1.queue[i]) {
      assert Queued(f, f.queue[i + 1]);
      assert f1.queue[i] == f.queue[i + 1];
    }
  }

  lemma {:induction false} BatchKeeps(f: Flow, last: Option<Metadata>)
    requires Exact(f) && TerminalOnce(f)
    ensures var f1 := Batch(f, last).0; Exact(f1) && TerminalOnce(f1) && f1.queue == []
    decreases |f.queue|
  {
    if f.queue != [] {
      ProcessHeadExact(f);
      ProcessHeadTerminalOnce(f);
      BatchKeeps(ProcessHead(f).0, ProcessHead(f).1);
    }
  }

  datatype Step = RegisterStep(payload: int) | DeliverStep(update: Update) | CancelStep(payload: int) | DrainStep

  // Each payload gets its listener once; everything else may come in any order.
  function Next(f: Flow, step: Step): Flow {
    match step
    case RegisterStep(p) => if p in f.registered then f else Register(f, p)
    case DeliverStep(u) => Deliver(f, u)
    case CancelStep(p) => Cancel(f, p)
    case DrainStep => Drain(f).0
  }

  function Exec(f: Flow, steps: seq<Step>): Flow {
    if steps == [] then f else Next(Exec(f, steps[..|steps| - 1]), steps[|steps| - 1])
  }

  lemma {:induction false} ExecKeeps(f: Flow, steps: seq<Step>)
    requires FlowOk(f)
    ensures FlowOk(Exec(f, steps))
  {
    if steps != [] {
      var g, step := Exec(f, steps[..|steps| - 1]), steps[|steps| - 1];
      ExecKeeps(f, steps[..|steps| - 1]);
      match step
      case RegisterStep(p) => if p !in g.registered { RegisterKeeps(g, p); }
      case DeliverStep(u) => DeliverKeeps(g, u);
      case CancelStep(p) => CancelKeeps(g, p);
      case DrainStep => BatchKeeps(g.(scheduled := false), None);
    }
  }

  lemma {:induction false} NewTrackerIdle(attachments: seq<Attachment>, payloadOf: map<int, int>)
    ensures var t := NewTracker(attachments, payloadOf);
            && t.confirmed == t.succeeded == t.lastTransferred == 0
            && (forall p :: p in t.payloads ==> t.payloads[p].status == InProgress && t.payloads[p].transferred == 0)
  {
    if attachments != [] {
      NewTrackerIdle(attachments[..|attachments| - 1], payloadOf);
    }
  }

  // Main result: for every sequence of registrations, status updates, cancellations and batches, the
  // success counter is the number of payloads in success state, the confirmed size is the sum of their
  // reported bytes, and completion is reported exactly when every tracked payload has succeeded.
  lemma EveryRun(attachments: seq<Attachment>, payloadOf: map<int, int>, steps: seq<Step>)
    ensures var f := Exec(NewFlow(NewTracker(attachments, payloadOf)), steps);
            && FlowOk(f)
            && (IsComplete(f.tracker) <==>
                  forall p :: p in f.tracker.payloads ==> f.tracker.payloads[p].status == Success)
  {
    var f0 := NewFlow(NewTracker(attachments, payloadOf));
    NewTrackerIdle(attachments, payloadOf);
    EmptyOrInhabited(Succeeded(f0.tracker));
    ExecKeeps(f0, steps);
    CompleteIffAllSucceeded(Exec(f0, steps));
  }

  lemma CompleteIffAllSucceeded(f: Flow)
    requires Exact(f)
    ensures IsComplete(f.tracker) <==>
              forall p :: p in f.tracker.payloads ==> f.tracker.payloads[p].status == Success
  {
    var t := f.tracker;
    assert |t.payloads| == |t.payloads.Keys|;
    var open := t.payloads.Keys - Succeeded(t);
    assert Succeeded(t) + open == t.payloads.Keys;
    assert |t.payloads.Keys| == |Succeeded(t)| + |open|;
    EmptyOrInhabited(open);
    assert forall p :: p in open <==> p in t.payloads && t.payloads[p].status != Success;
  }

  // The update that makes the last payload succeed is reported as completion, and no other is.
  lemma CompletionReportedIff(f: Flow)
    requires Exact(f) && TerminalOnce(f) && f.queue != []
    ensures ProcessHead(f).1.Some? && ProcessHead(f).1.value.status == Complete <==>
            (forall p :: p in f.tracker.payloads && p != f.queue[0].payload ==> f.tracker.payloads[p].status == Success)
            && f.queue[0].status == Success
  {
    assert Queued(f, f.queue[0]);
    ProcessHeadExact(f);
    CompleteIffAllSucceeded(ProcessHead(f).0);
    ReportedCompleteIff(f.tracker, f.queue[0]);
    AllSucceededAfter(f.tracker, f.queue[0]);
  }

  lemma ReportedCompleteIff(t: Tracker, u: Update)
    requires u.payload in t.payloads
    ensures Process(t, u).1.Some? && Process(t, u).1.value.status == Complete <==> IsComplete(Process(t, u).0)
    ensures Process(t, u).0.payloads == Count(t, u).payloads
  {
  }

  lemma AllSucceededAfter(t: Tracker, u: Update)
    requires u.payload in t.payloads
    ensures (forall p :: p in Count(t, u).payloads ==> Count(t, u).payloads[p].status == Success) <==>
            (forall p :: p in t.payloads && p != u.payload ==> t.payloads[p].status == Success) && u.status == Success
  {
    var after := Count(t, u).payloads;
    assert after[u.payload].status == u.status;
    assert forall p :: p in t.payloads && p != u.payload ==> after[p] == t.payloads[p];
  }
}
