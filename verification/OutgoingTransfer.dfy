/** The sender's pump: the payload vectors and transfer-update handling of sharing/outgoing_share_session.cc
    together with the update callback of sharing/nearby_sharing_service_impl.cc that sends the next payload.

    Updates arrive in batches and only the last result of a batch is looked at, yet no payload may be
    forgotten and none may be sent twice.
 */
module OutgoingTransfer {
  import opened Wrappers
  import opened PayloadAccounting

  // `sent` and `emitted` record history: payloads handed to the connection and client updates.
  datatype Sender = Sender(texts: seq<int>, files: seq<int>, wifis: seq<int>, flow: Flow, gotFinal: bool,
                           pendingComplete: Option<Metadata>, disconnecting: bool,
                           sent: seq<int>, emitted: seq<Metadata>)

  function NewSender(texts: seq<int>, files: seq<int>, wifis: seq<int>, t: Tracker): Sender {
    Sender(texts, files, wifis, NewFlow(t), false, None, false, [], [])
  }

  // ExtractNextPayload: texts, then files, then Wi-Fi credentials, each vector from its back.
  function Extract(s: Sender): (Sender, Option<int>) {
    if s.texts != [] then (s.(texts := s.texts[..|s.texts| - 1]), Some(s.texts[|s.texts| - 1]))
    else if s.files != [] then (s.(files := s.files[..|s.files| - 1]), Some(s.files[|s.files| - 1]))
    else if s.wifis != [] then (s.(wifis := s.wifis[..|s.wifis| - 1]), Some(s.wifis[|s.wifis| - 1]))
    else (s, None)
  }

  function SendNext(s: Sender): Sender {
    var (s1, next) := Extract(s);
    match next
    case None => s1
    case Some(p) => s1.(sent := s1.sent + [p], flow := Register(s1.flow, p))
  }

  // The check at the end of OnOutgoingTransferUpdate.
  predicate CurrentIsFull(m: Metadata) {
    m.current.Some? && m.current.value.transferred == m.current.value.total
  }

  // UpdateTransferMetadata and its callback.
  function Emit(s: Sender, m: Metadata): Sender {
    if s.gotFinal then s
    else
      var s1 := s.(gotFinal := m.status.Final(), emitted := s.emitted + [m]);
      if CurrentIsFull(m) then SendNext(s1) else s1
  }

  function DelayComplete(s: Sender, m: Metadata): Sender {
    Emit(s.(pendingComplete := Some(m)), m.(status := TransferInProgress))
  }

  // OnOutgoingPayloadTransferUpdates with the result of one batch.
  function React(s: Sender, result: Option<Metadata>): Sender {
    match result
    case None => s
    case Some(m) =>
      if m.status == Complete then DelayComplete(s, m)
      else
        var s1 := Emit(s, m);
        if m.status.Final() && m.status != Cancelled then s1.(disconnecting := true) else s1
  }

  function OnUpdates(s: Sender): Sender {
    var (f, result) := Drain(s.flow);
    React(s.(flow := f), result)
  }

  datatype PumpStep = Arrive(update: Update) | Abandon(payload: int) | RunQueue

  function NextPump(s: Sender, step: PumpStep): Sender {
    match step
    case Arrive(u) => s.(flow := Deliver(s.flow, u))
    case Abandon(p) => s.(flow := Cancel(s.flow, p))
    case RunQueue => OnUpdates(s)
  }

  // SendPayloads sends the first payload; every further one is triggered by an update.
  function Pump(s: Sender, steps: seq<PumpStep>): Sender {
    if steps == [] then SendNext(s) else NextPump(Pump(s, steps[..|steps| - 1]), steps[|steps| - 1])
  }

  // ---------------------------------------------------------------- each payload is sent at most once

  function Reversed(q: seq<int>): (r: seq<int>)
    ensures |r| == |q|
  {
    if q == [] then [] else [q[|q| - 1]] + Reversed(q[..|q| - 1])
  }

  function Unsent(s: Sender): seq<int> { Reversed(s.texts) + Reversed(s.files) + Reversed(s.wifis) }

  function Order(s: Sender): seq<int> { s.sent + Unsent(s) }

  lemma MoveHead(a: seq<int>, b: seq<int>)
    requires b != []
    ensures (a + [b[0]]) + b[1..] == a + b
  {
  }

  lemma HeadOf(x: int, r: seq<int>, b: seq<int>)
    ensures ([x] + r) + b == [x] + (r + b)
    ensures ([x] + r)[1..] == r
  {
  }

  lemma SendNextUnsent(s: Sender)
    ensures Unsent(s) == [] ==> SendNext(s) == s
    ensures Unsent(s) != [] ==> Unsent(SendNext(s)) == Unsent(s)[1..]
    ensures Unsent(s) != [] ==> Extract(s).1 == Some(Unsent(s)[0])
  {
    var t, f, w := Reversed(s.texts), Reversed(s.files), Reversed(s.wifis);
    if s.texts != [] {
      var x, r := s.texts[|s.texts| - 1], Reversed(s.texts[..|s.texts| - 1]);
      HeadOf(x, r, f);
      HeadOf(x, r + f, w);
      HeadOf(x, r + f + w, []);
    } else if s.files != [] {
      var x, r := s.files[|s.files| - 1], Reversed(s.files[..|s.files| - 1]);
      assert t + f == f && t + r == r;
      HeadOf(x, r, w);
      HeadOf(x, r + w, []);
    } else if s.wifis != [] {
      var x, r := s.wifis[|s.wifis| - 1], Reversed(s.wifis[..|s.wifis| - 1]);
      assert t + f == [] && [] + w == w && [] + r == r;
      HeadOf(x, r, []);
    }
  }

  // SendNext moves exactly the head of what is unsent to the end of what is sent.
  lemma SendNextTakesHead(s: Sender)
    ensures Order(SendNext(s)) == Order(s)
    ensures Unsent(SendNext(s)) == (if Unsent(s) == [] then [] else Unsent(s)[1..])
    ensures SendNext(s).sent == (if Unsent(s) == [] then s.sent else s.sent + [Unsent(s)[0]])
    ensures SendNext(s).flow == (if Unsent(s) == [] then s.flow else Register(s.flow, Unsent(s)[0]))
  {
    SendNextUnsent(s);
    if Unsent(s) != [] {
      MoveHead(s.sent, Unsent(s));
    }
  }

  ghost predicate NoRepeats(q: seq<int>) { forall i, j :: 0 <= i < j < |q| ==> q[i] != q[j] }

  ghost predicate Sane(s: Sender) {
    && FlowOk(s.flow)
    && NoRepeats(Order(s))
    && (forall p :: p in s.flow.registered <==> p in s.sent)
  }

  lemma HeadIsUnregistered(s: Sender)
    requires Sane(s) && Unsent(s) != []
    ensures Unsent(s)[0] !in s.flow.registered
  {
    var k := |s.sent|;
    assert Order(s)[k] == Unsent(s)[0];
    forall i | 0 <= i < k ensures s.sent[i] != Unsent(s)[0] {
      assert Order(s)[i] == s.sent[i];
    }
  }

  lemma SendNextSane(s: Sender)
    requires Sane(s)
    ensures Sane(SendNext(s))
  {
    SendNextTakesHead(s);
    if Unsent(s) != [] {
      HeadIsUnregistered(s);
      RegisterKeeps(s.flow, Unsent(s)[0]);
    }
  }

  // Sanity depends only on the vectors, the flow and what has been sent.
  lemma SanityFrame(s: Sender, s1: Sender)
    requires Sane(s) && s1.texts == s.texts && s1.files == s.files && s1.wifis == s.wifis
    requires s1.flow == s.flow && s1.sent == s.sent
    ensures Sane(s1) && Order(s1) == Order(s) && Unsent(s1) == Unsent(s)
  {
  }

  lemma EmitSane(s: Sender, m: Metadata)
    requires Sane(s)
    ensures Sane(Emit(s, m)) && Order(Emit(s, m)) == Order(s)
    ensures Emit(s, m).flow.tracker == s.flow.tracker
  {
    var s1 := s.(gotFinal := m.status.Final(), emitted := s.emitted + [m]);
    SanityFrame(s, s1);
    SendNextSane(s1);
    SendNextTakesHead(s1);
  }

  lemma ReactSane(s: Sender, result: Option<Metadata>)
    requires Sane(s)
    ensures Sane(React(s, result)) && Order(React(s, result)) == Order(s)
    ensures React(s, result).flow.tracker == s.flow.tracker
  {
    if result.Some? {
      var m := result.value;
      if m.status == Complete {
        var s1 := s.(pendingComplete := Some(m));
        SanityFrame(s, s1);
        EmitSane(s1, m.(status := TransferInProgress));
      } else {
        EmitSane(s, m);
        SanityFrame(Emit(s, m), React(s, result));
      }
    }
  }

  lemma DrainedSane(s: Sender)
    requires Sane(s)
    ensures var s1 := s.(flow := Drain(s.flow).0);
            && Sane(s1) && Order(s1) == Order(s) && s1.flow.queue == []
            && s1.flow.tracker.payloads.Keys == s.flow.tracker.payloads.Keys
  {
    var f := s.flow.(scheduled := false);
    BatchKeeps(f, None);
    BatchKeepsListeners(f, None);
  }

  lemma OnUpdatesSane(s: Sender)
    requires Sane(s)
    ensures Sane(OnUpdates(s)) && Order(OnUpdates(s)) == Order(s)
    ensures OnUpdates(s).flow.tracker == Drain(s.flow).0.tracker
  {
    DrainedSane(s);
    ReactSane(s.(flow := Drain(s.flow).0), Drain(s.flow).1);
  }

  lemma {:induction false} BatchKeepsListeners(f: Flow, last: Option<Metadata>)
    ensures Batch(f, last).0.listeners == f.listeners && Batch(f, last).0.registered == f.registered
    ensures Batch(f, last).0.tracker.payloads.Keys == f.tracker.payloads.Keys
    ensures Batch(f, last).0.scheduled == f.scheduled
    decreases |f.queue|
  {
    if f.queue != [] {
      BatchKeepsListeners(ProcessHead(f).0, ProcessHead(f).1);
    }
  }

  // Main result: in every run, whatever updates arrive, what has been sent is the beginning of one fixed
  // order (texts, files, Wi-Fi credentials, each last first), so no payload is sent twice or skipped.
  lemma {:induction false} EveryPumpRun(s: Sender, steps: seq<PumpStep>)
    requires Sane(s)
    ensures Sane(Pump(s, steps)) && Order(Pump(s, steps)) == Order(s)
  {
    if steps == [] {
      SendNextSane(s);
      SendNextTakesHead(s);
    } else {
      var init, step := steps[..|steps| - 1], steps[|steps| - 1];
      EveryPumpRun(s, init);
      var g := Pump(s, init);
      match step
      case Arrive(u) => DeliverKeeps(g.flow, u);
      case Abandon(p) => CancelKeeps(g.flow, p);
      case RunQueue => OnUpdatesSane(g);
    }
  }

  // ---------------------------------------------------------------- a batch keeps only its last result

  // The flow just before the last update of the batch is processed.
  function BeforeLast(f: Flow): Flow
    requires f.queue != []
    decreases |f.queue|
  {
    if |f.queue| == 1 then f else BeforeLast(ProcessHead(f).0)
  }

  lemma {:induction false} BatchIsLast(f: Flow, last: Option<Metadata>)
    requires f.queue != []
    ensures var g := BeforeLast(f);
            && g.queue == [f.queue[|f.queue| - 1]]
            && Batch(f, last) == ProcessHead(g)
    decreases |f.queue|
  {
    var f1 := ProcessHead(f).0;
    if |f.queue| == 1 {
      assert f1.queue == [];
    } else {
      BatchIsLast(f1, ProcessHead(f).1);
      assert f1.queue[|f1.queue| - 1] == f.queue[|f.queue| - 1];
    }
  }

  // A batch ends the session exactly when its last update is a failure or cancellation; an earlier
  // failure in the same batch is not seen.
  lemma BatchSurfacesLastFailureOnly(s: Sender)
    requires Sane(s) && s.flow.queue != [] && !s.gotFinal
    ensures var u := s.flow.queue[|s.flow.queue| - 1];
            OnUpdates(s).gotFinal <==> u.status == Failure || u.status == Canceled
  {
    var f := s.flow.(scheduled := false);
    var g := BeforeLast(f);
    BatchIsLast(f, None);
    BeforeLastOk(f);
    LastFailureIsFinal(g);
    ReactFinal(s.(flow := ProcessHead(g).0), ProcessHead(g).1);
  }

  lemma LastFailureIsFinal(g: Flow)
    requires Exact(g) && TerminalOnce(g) && g.queue != []
    ensures var m := ProcessHead(g).1;
            (m.Some? && m.value.status.Final() && m.value.status != Complete <==>
                g.queue[0].status == Failure || g.queue[0].status == Canceled)
  {
    var u, f1 := g.queue[0], ProcessHead(g).0;
    assert Queued(g, u);
    ProcessHeadExact(g);
    CompleteIffAllSucceeded(f1);
    assert f1.tracker.payloads[u.payload].status == u.status;
  }

  lemma ReactFinal(s: Sender, result: Option<Metadata>)
    requires !s.gotFinal
    ensures React(s, result).gotFinal <==>
            result.Some? && result.value.status.Final() && result.value.status != Complete
  {
  }

  // ---------------------------------------------------------------- a run that hides a failure

  // Two texts of ten bytes, the second to be sent first.
  const TWO_TEXTS :=
    Tracker(map[1 := Payload(1, 10, 0, InProgress), 2 := Payload(2, 10, 0, InProgress)], 20, 0, 0, 0, 0)

  const FULL := Update(1, InProgress, 10, false)
  const FAILS := Update(1, Failure, 0, false)
  const HALFWAY := Update(2, InProgress, 5, false)

  lemma TwoPayloads(t: Tracker)
    requires t.payloads.Keys == {1, 2}
    ensures |t.payloads| == 2
  {
    assert |t.payloads.Keys| == 2;
  }

  // All bytes of the first text are reported, so the second is sent.
  lemma FullSendsTheOther(s: Sender)
    requires s == NewSender([2, 1], [], [], TWO_TEXTS)
    ensures var s1 := OnUpdates(NextPump(SendNext(s), Arrive(FULL)));
            && s1.sent == [1, 2] && !s1.gotFinal && s1.pendingComplete == None && !s1.disconnecting
            && s1.flow.queue == [] && s1.flow.listeners == {1, 2}
            && s1.flow.tracker.payloads.Keys == {1, 2} && s1.flow.tracker.payloads[2] == TWO_TEXTS.payloads[2]
            && s1.flow.tracker.payloads[1].size == 10 && s1.flow.tracker.total == 20
            && s1.flow.tracker.succeeded == s1.flow.tracker.confirmed == 0 && s1.flow.tracker.lastProgress == 50
  {
    var s0 := NextPump(SendNext(s), Arrive(FULL));
    assert [2, 1][..1] == [2] && [2][..0] == [];
    assert s0.flow.queue == [FULL] && s0.texts == [2] && s0.sent == [1];
    var f := s0.flow.(scheduled := false);
    TwoPayloads(Count(f.tracker, FULL));
    var f1 := ProcessHead(f).0;
    assert f1.queue == [] && Batch(f, None) == ProcessHead(f);
  }

  // The first text fails and the second makes progress before the queue is read.
  lemma FailureIsOvertaken(s: Sender)
    requires !s.gotFinal && !s.disconnecting && s.flow.queue == [] && s.flow.listeners == {1, 2}
    requires s.flow.tracker.payloads.Keys == {1, 2} && s.flow.tracker.payloads[2] == TWO_TEXTS.payloads[2]
    requires s.flow.tracker.succeeded == s.flow.tracker.confirmed == 0
    requires s.flow.tracker.lastProgress == 50 && s.flow.tracker.total == 20
    ensures var s1 := OnUpdates(NextPump(NextPump(s, Arrive(FAILS)), Arrive(HALFWAY)));
            && !s1.gotFinal && !s1.disconnecting && s1.sent == s.sent
            && s1.flow.tracker.payloads.Keys == {1, 2} && s1.flow.tracker.payloads[1].status == Failure
            && s1.flow.listeners == {2}
  {
    var s0 := NextPump(NextPump(s, Arrive(FAILS)), Arrive(HALFWAY));
    assert s0.flow.queue == [FAILS, HALFWAY] && s0.flow.listeners == {2};
    var f := s0.flow.(scheduled := false);
    TwoPayloads(Count(f.tracker, FAILS));
    var (f1, m1) := ProcessHead(f);
    assert f1.queue == [HALFWAY] && f1.tracker.payloads.Keys == {1, 2};
    TwoPayloads(Count(f1.tracker, HALFWAY));
    var f2 := ProcessHead(f1).0;
    assert f2.queue == [] && Batch(f1, m1) == ProcessHead(f1);
  }

  // It does happen: the session ends up neither failed nor disconnecting although a text has failed.
  lemma FailureIsHidden()
    ensures var s := Pump(NewSender([2, 1], [], [], TWO_TEXTS),
                          [Arrive(FULL), RunQueue, Arrive(FAILS), Arrive(HALFWAY), RunQueue]);
            && s.flow.tracker.payloads.Keys == {1, 2} && s.flow.tracker.payloads[1].status == Failure
            && !s.gotFinal && !s.disconnecting && s.sent == [1, 2] && s.flow.listeners == {2}
  {
    var s := NewSender([2, 1], [], [], TWO_TEXTS);
    FullSendsTheOther(s);
    FailureIsOvertaken(OnUpdates(NextPump(SendNext(s), Arrive(FULL))));
    TwoSteps(s, Arrive(FULL), RunQueue);
    ThreeMore(s, [Arrive(FULL), RunQueue], Arrive(FAILS), Arrive(HALFWAY), RunQueue);
    assert [Arrive(FULL), RunQueue] + [Arrive(FAILS), Arrive(HALFWAY), RunQueue]
        == [Arrive(FULL), RunQueue, Arrive(FAILS), Arrive(HALFWAY), RunQueue];
  }

  lemma OneMore(s: Sender, steps: seq<PumpStep>, step: PumpStep)
    ensures Pump(s, steps + [step]) == NextPump(Pump(s, steps), step)
  {
    assert (steps + [step])[..|steps|] == steps;
  }

  lemma TwoSteps(s: Sender, a: PumpStep, b: PumpStep)
    ensures Pump(s, [a, b]) == NextPump(NextPump(SendNext(s), a), b)
  {
    OneMore(s, [], a);
    OneMore(s, [a], b);
    assert [] + [a] == [a] && [a] + [b] == [a, b];
  }

  lemma ThreeMore(s: Sender, steps: seq<PumpStep>, a: PumpStep, b: PumpStep, c: PumpStep)
    ensures Pump(s, steps + [a, b, c]) == NextPump(NextPump(NextPump(Pump(s, steps), a), b), c)
  {
    OneMore(s, steps, a);
    OneMore(s, steps + [a], b);
    OneMore(s, steps + [a] + [b], c);
    assert steps + [a, b, c] == steps + [a] + [b] + [c];
  }

  lemma {:induction false} BeforeLastOk(f: Flow)
    requires Exact(f) && TerminalOnce(f) && f.queue != []
    ensures Exact(BeforeLast(f)) && TerminalOnce(BeforeLast(f))
    ensures BeforeLast(f).registered == f.registered
    decreases |f.queue|
  {
    if |f.queue| > 1 {
      ProcessHeadExact(f);
      ProcessHeadTerminalOnce(f);
      BeforeLastOk(ProcessHead(f).0);
    }
  }

  // ---------------------------------------------------------------- the pump never stalls

  /** What the stall theorem asks of the connection layer: progress never exceeds the tracked size, and a
      payload ends in success with exactly that many bytes. */
  ghost predicate Behaved(t: Tracker, u: Update) {
    u.payload in t.payloads ==>
      && u.bytes <= t.payloads[u.payload].size
      && (u.status == InProgress || (u.status == Success && u.bytes == t.payloads[u.payload].size))
  }

  ghost predicate BehavedFlow(f: Flow) {
    && Exact(f) && TerminalOnce(f)
    && (forall i :: 0 <= i < |f.queue| ==> Behaved(f.tracker, f.queue[i]))
    && (forall p :: p in f.tracker.payloads ==> Moving(f.tracker.payloads[p]))
  }

  ghost predicate Moving(p: Payload) {
    p.transferred <= p.size && (p.status == InProgress || p.status == Success)
  }

  ghost predicate SentUnfinished(s: Sender, p: int) {
    p in s.sent && p in s.flow.tracker.payloads && s.flow.tracker.payloads[p].status != Success
  }

  ghost predicate Tracks(t: Tracker, ids: seq<int>) {
    forall p :: p in ids <==> p in t.payloads
  }

  ghost predicate AllSucceeded(t: Tracker) {
    forall p :: p in t.payloads ==> t.payloads[p].status == Success
  }

  ghost predicate Lively(s: Sender) {
    && Sane(s) && BehavedFlow(s.flow) && !s.gotFinal && s.sent != []
    && Tracks(s.flow.tracker, Order(s))
    && (Unsent(s) != [] ==> exists p :: SentUnfinished(s, p))
    && (AllSucceeded(s.flow.tracker) ==> s.pendingComplete.Some?)
  }

  lemma ProcessHeadBehaved(f: Flow)
    requires BehavedFlow(f) && f.queue != []
    ensures BehavedFlow(ProcessHead(f).0)
  {
    var u, f1 := f.queue[0], ProcessHead(f).0;
    assert Queued(f, u) && Behaved(f.tracker, u);
    ProcessHeadExact(f);
    ProcessHeadTerminalOnce(f);
    forall i | 0 <= i < |f1.queue| ensures Behaved(f1.tracker, f1.queue[i]) {
      assert Behaved(f.tracker, f.queue[i + 1]);
    }
  }

  lemma {:induction false} BeforeLastBehaved(f: Flow)
    requires BehavedFlow(f) && f.queue != []
    ensures BehavedFlow(BeforeLast(f))
    decreases |f.queue|
  {
    if |f.queue| > 1 {
      ProcessHeadBehaved(f);
      BeforeLastBehaved(ProcessHead(f).0);
    }
  }

  /** The outcome of a batch of behaved updates, by the status of its last update: success completes the
      transfer or triggers the next send, progress leaves that payload unfinished. */
  ghost predicate Decided(f: Flow, result: Option<Metadata>, u: Update) {
    && u.payload in f.registered && u.payload in f.tracker.payloads
    && (u.status == Success || u.status == InProgress)
    && (u.status == Success ==> result.Some?)
    && (u.status == Success && AllSucceeded(f.tracker) ==> result.value.status == Complete)
    && (u.status == Success && !AllSucceeded(f.tracker) ==>
          result.value.status == TransferInProgress && CurrentIsFull(result.value))
    && (u.status == InProgress ==> f.tracker.payloads[u.payload].status != Success)
    && (u.status == InProgress && result.Some? ==> result.value.status == TransferInProgress)
  }

  lemma {:induction false} LastUpdateDecides(f: Flow)
    requires BehavedFlow(f) && f.queue != []
    ensures BehavedFlow(Batch(f, None).0)
    ensures Decided(Batch(f, None).0, Batch(f, None).1, f.queue[|f.queue| - 1])
  {
    var g := BeforeLast(f);
    BatchIsLast(f, None);
    BeforeLastBehaved(f);
    ProcessHeadBehaved(g);
    HeadDecides(g);
  }

  lemma HeadDecides(g: Flow)
    requires BehavedFlow(g) && g.queue != []
    ensures Decided(ProcessHead(g).0, ProcessHead(g).1, g.queue[0])
  {
    var u, f1 := g.queue[0], ProcessHead(g).0;
    assert Queued(g, u) && Behaved(g.tracker, u);
    ProcessHeadExact(g);
    CompleteIffAllSucceeded(f1);
    assert f1.tracker.payloads[u.payload].status == u.status;
  }

  lemma SendNextLeavesOneUnfinished(s: Sender)
    requires Sane(s) && TerminalOnce(s.flow) && Tracks(s.flow.tracker, Order(s)) && Unsent(s) != []
    ensures SentUnfinished(SendNext(s), Unsent(s)[0])
  {
    SendNextTakesHead(s);
    HeadIsUnregistered(s);
    assert Unsent(s)[0] == Order(s)[|s.sent|];
  }

  lemma RegisterBehaved(f: Flow, p: int)
    requires BehavedFlow(f) && p !in f.registered
    ensures BehavedFlow(Register(f, p))
  {
  }

  lemma SendNextLively(s: Sender)
    requires Sane(s) && BehavedFlow(s.flow) && !s.gotFinal
    requires Tracks(s.flow.tracker, Order(s))
    requires s.sent != [] || Unsent(s) != []
    requires AllSucceeded(s.flow.tracker) ==> s.pendingComplete.Some?
    ensures Lively(SendNext(s))
  {
    if Unsent(s) == [] {
      SendNextUnsent(s);
      assert SendNext(s) == s;
    } else {
      var s1 := SendNext(s);
      SendNextSane(s);
      SendNextTakesHead(s);
      SendNextLeavesOneUnfinished(s);
      HeadIsUnregistered(s);
      RegisterBehaved(s.flow, Unsent(s)[0]);
      assert s1.flow.tracker == s.flow.tracker && s1.pendingComplete == s.pendingComplete && s1.gotFinal == s.gotFinal;
    }
  }

  lemma OnUpdatesLively(s: Sender)
    requires Lively(s)
    ensures Lively(OnUpdates(s))
  {
    var f := s.flow.(scheduled := false);
    if f.queue == [] {
      IdleBatchLively(s);
    } else {
      var (f1, result) := Batch(f, None);
      var s1 := s.(flow := f1);
      DrainedSane(s);
      LastUpdateDecides(f);
      TracksSame(s.flow.tracker, f1.tracker, Order(s));
      assert OnUpdates(s) == React(s1, result);
      ReactLively(s1, result, f.queue[|f.queue| - 1]);
    }
  }

  lemma TracksSame(t: Tracker, t1: Tracker, ids: seq<int>)
    requires Tracks(t, ids) && t1.payloads.Keys == t.payloads.Keys
    ensures Tracks(t1, ids)
  {
    assert forall p :: p in t1.payloads <==> p in t1.payloads.Keys;
  }

  lemma IdleBatchLively(s: Sender)
    requires Lively(s) && s.flow.queue == []
    ensures Lively(OnUpdates(s))
  {
    var s1 := OnUpdates(s);
    assert s1 == s.(flow := s.flow.(scheduled := false));
    if Unsent(s) != [] {
      var p :| SentUnfinished(s, p);
      assert SentUnfinished(s1, p);
    }
  }

  lemma ReactLively(s: Sender, result: Option<Metadata>, u: Update)
    requires Sane(s) && BehavedFlow(s.flow) && !s.gotFinal && s.sent != []
    requires Tracks(s.flow.tracker, Order(s)) && Decided(s.flow, result, u)
    ensures Lively(React(s, result))
  {
    var s1 := React(s, result);
    if u.status == InProgress {
      assert SentUnfinished(s, u.payload);
      assert !AllSucceeded(s.flow.tracker);
      if result.Some? {
        var s2 := s.(emitted := s.emitted + [result.value]);
        assert Sane(s2) && Order(s2) == Order(s);
        if CurrentIsFull(result.value) {
          SendNextLively(s2);
        } else {
          assert SentUnfinished(s2, u.payload);
        }
      }
    } else if AllSucceeded(s.flow.tracker) {
      var m := result.value;
      var s2 := s.(pendingComplete := Some(m), emitted := s.emitted + [m.(status := TransferInProgress)]);
      assert Sane(s2) && Order(s2) == Order(s);
      SendNextLively(s2);
      NothingLeftWhenAllSucceeded(s2);
    } else {
      var s2 := s.(emitted := s.emitted + [result.value]);
      assert Sane(s2) && Order(s2) == Order(s);
      SendNextLively(s2);
    }
  }

  lemma NothingLeftWhenAllSucceeded(s: Sender)
    requires Sane(s) && Tracks(s.flow.tracker, Order(s))
    ensures AllSucceeded(s.flow.tracker) ==> Unsent(s) == []
  {
    if Unsent(s) != [] {
      HeadIsUnregistered(s);
      assert Order(s)[|s.sent|] == Unsent(s)[0];
    }
  }

  lemma ArriveLively(s: Sender, u: Update)
    requires Lively(s) && Behaved(s.flow.tracker, u)
    ensures Lively(s.(flow := Deliver(s.flow, u)))
  {
    var s1 := s.(flow := Deliver(s.flow, u));
    DeliverKeeps(s.flow, u);
    assert Order(s1) == Order(s);
    if Unsent(s) != [] {
      var p :| SentUnfinished(s, p);
      assert SentUnfinished(s1, p);
    }
  }

  ghost predicate AllBehaved(t: Tracker, steps: seq<PumpStep>) {
    forall i :: 0 <= i < |steps| ==>
      !steps[i].Abandon? && (steps[i].Arrive? ==> Behaved(t, steps[i].update))
  }

  lemma {:induction false} PumpLively(s: Sender, steps: seq<PumpStep>)
    requires Lively(SendNext(s)) && AllBehaved(s.flow.tracker, steps)
    ensures Lively(Pump(s, steps))
    ensures SameShape(s.flow.tracker, Pump(s, steps).flow.tracker)
  {
    if steps == [] {
      SendNextTakesHead(s);
    } else {
      var init, step := steps[..|steps| - 1], steps[|steps| - 1];
      PumpLively(s, init);
      var g := Pump(s, init);
      if step.Arrive? {
        ArriveLively(g, step.update);
      } else {
        OnUpdatesLively(g);
        OnUpdatesShape(g);
      }
    }
  }

  ghost predicate SameShape(t: Tracker, t1: Tracker) {
    && t1.payloads.Keys == t.payloads.Keys
    && forall p :: p in t.payloads ==> t1.payloads[p].size == t.payloads[p].size
  }

  lemma {:induction false} BatchShape(f: Flow, last: Option<Metadata>)
    ensures SameShape(f.tracker, Batch(f, last).0.tracker)
    decreases |f.queue|
  {
    if f.queue != [] {
      BatchShape(ProcessHead(f).0, ProcessHead(f).1);
    }
  }

  lemma OnUpdatesShape(s: Sender)
    requires Sane(s)
    ensures SameShape(s.flow.tracker, OnUpdates(s).flow.tracker)
  {
    BatchShape(s.flow.(scheduled := false), None);
    OnUpdatesSane(s);
  }

  ghost predicate Untouched(t: Tracker) {
    && t.confirmed == t.succeeded == 0
    && forall p :: p in t.payloads ==> t.payloads[p].status == InProgress && t.payloads[p].transferred == 0
  }

  lemma StartLively(s: Sender)
    requires s == NewSender(s.texts, s.files, s.wifis, s.flow.tracker)
    requires Untouched(s.flow.tracker) && Tracks(s.flow.tracker, Unsent(s))
    requires NoRepeats(Unsent(s)) && Unsent(s) != []
    ensures Lively(SendNext(s))
  {
    EmptyOrInhabited(Succeeded(s.flow.tracker));
    assert Order(s) == Unsent(s);
    var p: int := Unsent(s)[0];
    assert p in Unsent(s);
    assert p in s.flow.tracker.payloads;
    SendNextLively(s);
  }

  ghost predicate SentAllSucceeded(s: Sender) {
    forall p :: p in s.sent ==> p in s.flow.tracker.payloads && s.flow.tracker.payloads[p].status == Success
  }

  // Main result: with distinct tracked payloads and behaved updates, whenever the queue is empty and all
  // sent payloads have succeeded, nothing is left unsent and completion is pending; while anything is
  // queued, its processing is scheduled.
  lemma {:induction false} NeverStalls(texts: seq<int>, files: seq<int>, wifis: seq<int>, t: Tracker,
                                       steps: seq<PumpStep>)
    requires Untouched(t) && AllBehaved(t, steps)
    requires var ids := Unsent(NewSender(texts, files, wifis, t)); ids != [] && NoRepeats(ids) && Tracks(t, ids)
    ensures var s := Pump(NewSender(texts, files, wifis, t), steps);
            && (s.flow.queue != [] ==> s.flow.scheduled)
            && (s.flow.queue == [] && SentAllSucceeded(s) ==> Unsent(s) == [] && s.pendingComplete.Some?)
  {
    var s0 := NewSender(texts, files, wifis, t);
    StartLively(s0);
    PumpLively(s0, steps);
    var s := Pump(s0, steps);
    if SentAllSucceeded(s) {
      assert !exists p :: SentUnfinished(s, p);
      assert Order(s) == s.sent;
    }
  }

  // ---------------------------------------------------------------- completion is honest

  ghost predicate Honest(s: Sender) {
    && (s.pendingComplete.Some? ==> AllSucceeded(s.flow.tracker))
    && forall i :: 0 <= i < |s.emitted| ==> s.emitted[i].status != Complete
  }

  // Once every payload has succeeded nothing can be queued any more.
  lemma NothingQueuedAfterSuccess(s: Sender)
    requires Sane(s) && s.flow.queue != []
    ensures !AllSucceeded(s.flow.tracker)
  {
    assert Queued(s.flow, s.flow.queue[0]);
  }

  lemma {:induction false} BatchCompletesHonestly(f: Flow)
    requires Exact(f) && TerminalOnce(f) && f.queue != []
    ensures Batch(f, None).1.Some? && Batch(f, None).1.value.status == Complete ==>
              AllSucceeded(Batch(f, None).0.tracker)
  {
    var g := BeforeLast(f);
    BatchIsLast(f, None);
    BeforeLastOk(f);
    assert Queued(g, g.queue[0]);
    ProcessHeadExact(g);
    CompleteIffAllSucceeded(ProcessHead(g).0);
  }

  lemma SendNextHonest(s: Sender)
    requires Honest(s)
    ensures Honest(SendNext(s))
  {
  }

  lemma EmitHonest(s: Sender, m: Metadata)
    requires Honest(s) && m.status != Complete
    ensures Honest(Emit(s, m))
  {
    SendNextHonest(s.(gotFinal := m.status.Final(), emitted := s.emitted + [m]));
  }

  lemma ReactHonest(s: Sender, result: Option<Metadata>)
    requires Honest(s)
    requires result.Some? && result.value.status == Complete ==> AllSucceeded(s.flow.tracker)
    ensures Honest(React(s, result))
  {
    if result.Some? {
      var m := result.value;
      if m.status == Complete {
        EmitHonest(s.(pendingComplete := Some(m)), m.(status := TransferInProgress));
      } else {
        EmitHonest(s, m);
      }
    }
  }

  lemma OnUpdatesHonest(s: Sender)
    requires Sane(s) && Honest(s)
    ensures Honest(OnUpdates(s))
  {
    var f := s.flow.(scheduled := false);
    if f.queue != [] {
      NothingQueuedAfterSuccess(s);
      BatchCompletesHonestly(f);
      ReactHonest(s.(flow := Batch(f, None).0), Batch(f, None).1);
    }
  }

  // Main result: in every run, whatever updates arrive and however batches hide them, completion is only
  // ever pending when every tracked payload has succeeded, and it is not reported before the session ends.
  lemma {:induction false} CompletionIsHonest(s: Sender, steps: seq<PumpStep>)
    requires Sane(s) && s.pendingComplete == None && s.emitted == []
    ensures Honest(Pump(s, steps))
  {
    if steps == [] {
      SendNextHonest(s);
    } else {
      var init, step := steps[..|steps| - 1], steps[|steps| - 1];
      CompletionIsHonest(s, init);
      EveryPumpRun(s, init);
      NextPumpHonest(Pump(s, init), step);
    }
  }

  lemma NextPumpHonest(s: Sender, step: PumpStep)
    requires Sane(s) && Honest(s)
    ensures Honest(NextPump(s, step))
  {
    match step
    case Arrive(u) => assert Deliver(s.flow, u).tracker == s.flow.tracker;
    case Abandon(p) => assert Cancel(s.flow, p).tracker == s.flow.tracker;
    case RunQueue => OnUpdatesHonest(s);
  }

  // ---------------------------------------------------------------- exactly when the pump does stall

  /** For updates of any size: after a batch that ends in a success short of completion, the next payload
      is sent exactly when the bytes recorded for that payload equal its tracked size. */
  lemma SuccessSendsNextIff(s: Sender)
    requires Sane(s) && !s.gotFinal && s.flow.queue != [] && Unsent(s) != []
    requires s.flow.queue[|s.flow.queue| - 1].status == Success
    requires !AllSucceeded(Drain(s.flow).0.tracker)
    ensures var u := s.flow.queue[|s.flow.queue| - 1];
            && u.payload in Drain(s.flow).0.tracker.payloads
            && var p := Drain(s.flow).0.tracker.payloads[u.payload];
               (OnUpdates(s).sent != s.sent <==> p.transferred == p.size)
  {
    var f := s.flow.(scheduled := false);
    var g := BeforeLast(f);
    BatchIsLast(f, None);
    BeforeLastOk(f);
    SuccessReport(g);
    ReactSendsIff(s.(flow := ProcessHead(g).0), ProcessHead(g).1.value);
  }

  lemma SuccessReport(g: Flow)
    requires Exact(g) && TerminalOnce(g) && g.queue != [] && g.queue[0].status == Success
    requires !AllSucceeded(ProcessHead(g).0.tracker)
    ensures var f1, u := ProcessHead(g).0, g.queue[0];
            && u.payload in f1.tracker.payloads
            && ProcessHead(g).1.Some? && ProcessHead(g).1.value.status == TransferInProgress
            && var p := f1.tracker.payloads[u.payload];
               ProcessHead(g).1.value.current == Some(Current(p.attachment, p.size, p.transferred))
  {
    assert Queued(g, g.queue[0]);
    ProcessHeadExact(g);
    CompleteIffAllSucceeded(ProcessHead(g).0);
  }

  lemma ReactSendsIff(s: Sender, m: Metadata)
    requires m.status == TransferInProgress && !s.gotFinal && Unsent(s) != []
    ensures React(s, Some(m)).sent != s.sent <==> CurrentIsFull(m)
  {
    SendNextTakesHead(s.(gotFinal := m.status.Final(), emitted := s.emitted + [m]));
  }

  // With nothing queued and no payload listened for, no step sends anything any more.
  lemma {:induction false} StallIsPermanent(s: Sender, step: PumpStep)
    requires s.flow.queue == [] && s.flow.listeners == {}
    ensures NextPump(s, step) == s.(flow := s.flow.(scheduled := NextPump(s, step).flow.scheduled))
  {
    if step.RunQueue? {
      assert Drain(s.flow) == (s.flow.(scheduled := false), None);
    }
  }

  /** It does happen. Wi-Fi credentials are tracked with the length of the SSID (four here) while the
      payload is the serialized password, so a second set of credentials is never sent. */
  lemma WifiCredentialsStall()
    ensures var t := Tracker(map[21 := Payload(1, 4, 0, InProgress), 22 := Payload(2, 4, 0, InProgress)],
                             8, 0, 0, 0, 0);
            var s := Pump(NewSender([], [], [21, 22], t), [Arrive(Update(22, Success, 20, true)), RunQueue]);
            && s.sent == [22] && Unsent(s) == [21] && s.pendingComplete == None
            && s.flow.queue == [] && s.flow.listeners == {}
  {
    var t := Tracker(map[21 := Payload(1, 4, 0, InProgress), 22 := Payload(2, 4, 0, InProgress)], 8, 0, 0, 0, 0);
    var u := Update(22, Success, 20, true);
    var s0 := NewSender([], [], [21, 22], t);
    var steps := [Arrive(u), RunQueue];
    var s2 := NextPump(SendNext(s0), Arrive(u));
    assert Pump(s0, steps) == NextPump(s2, RunQueue) by {
      assert steps[..1] == [Arrive(u)] && steps[..1][..0] == [];
      assert Pump(s0, steps[..1][..0]) == SendNext(s0);
    }
    assert s2.sent == [22] && s2.wifis == [21] && s2.flow.listeners == {} && s2.flow.queue == [u] by {
      assert s0.wifis[..1] == [21];
    }
    FullBatchOfOne(s2.flow, u);
    assert Reversed([21]) == [21];
  }

  lemma FullBatchOfOne(f: Flow, u: Update)
    requires f.queue == [u] && u == Update(22, Success, 20, true)
    requires f.tracker.payloads == map[21 := Payload(1, 4, 0, InProgress), 22 := Payload(2, 4, 0, InProgress)]
    requires f.tracker.succeeded == 0
    ensures var (f1, m) := Drain(f);
            && f1.queue == [] && f1.listeners == f.listeners
            && m.Some? && m.value.status == TransferInProgress && m.value.current == Some(Current(2, 4, 20))
  {
    var f0 := f.(scheduled := false);
    var f1 := ProcessHead(f0).0;
    assert f1.queue == [];
    assert Batch(f0, None) == ProcessHead(f0);
    assert |f1.tracker.payloads| == 2 by {
      assert f1.tracker.payloads.Keys == {21, 22};
    }
  }
}
