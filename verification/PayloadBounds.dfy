/** What the progress reports of sharing/payload_tracker.cc promise: bytes never exceed the total, and
    with payloads sent one after another the reported bytes never fall, so the unsigned subtraction
    behind the speed figure cannot wrap. */
module PayloadBounds {
  import opened Wrappers
  import opened Sums
  import opened PayloadAccounting

  // ---------------------------------------------------------------- the constructor's total

  ghost predicate Mapped(attachments: seq<Attachment>, payloadOf: map<int, int>, i: nat)
    requires i < |attachments|
  {
    attachments[i].id in payloadOf
  }

  // No two mapped attachments share a payload.
  ghost predicate Distinct(attachments: seq<Attachment>, payloadOf: map<int, int>) {
    forall i, j :: 0 <= i < j < |attachments| && Mapped(attachments, payloadOf, i)
                   && Mapped(attachments, payloadOf, j) ==>
      payloadOf[attachments[i].id] != payloadOf[attachments[j].id]
  }

  lemma {:induction false} TrackedPayloads(attachments: seq<Attachment>, payloadOf: map<int, int>)
    ensures forall p :: p in NewTracker(attachments, payloadOf).payloads ==>
              exists i :: 0 <= i < |attachments| && Mapped(attachments, payloadOf, i)
                          && payloadOf[attachments[i].id] == p
  {
    if attachments != [] {
      var init := attachments[..|attachments| - 1];
      TrackedPayloads(init, payloadOf);
      forall p | p in NewTracker(attachments, payloadOf).payloads
        ensures exists i :: 0 <= i < |attachments| && Mapped(attachments, payloadOf, i)
                            && payloadOf[attachments[i].id] == p
      {
        if p in NewTracker(init, payloadOf).payloads {
          var i :| 0 <= i < |init| && Mapped(init, payloadOf, i) && payloadOf[init[i].id] == p;
          assert Mapped(attachments, payloadOf, i);
        } else {
          assert Mapped(attachments, payloadOf, |attachments| - 1);
        }
      }
    }
  }

  lemma TrackSums(t: Tracker, a: Attachment, payloadOf: map<int, int>)
    requires a.id in payloadOf
    ensures payloadOf[a.id] !in t.payloads ==> Sum(Sizes(Track(t, a, payloadOf))) == Sum(Sizes(t)) + a.size
    ensures payloadOf[a.id] in t.payloads ==> Sizes(Track(t, a, payloadOf)) == Sizes(t)
  {
    var p := payloadOf[a.id];
    if p !in t.payloads {
      assert Sizes(Track(t, a, payloadOf)) == Sizes(t)[p := a.size];
      SumPut(Sizes(t), p, a.size);
    }
  }

  // The total covers the tracked sizes, and is exactly their sum when payloads are distinct.
  lemma {:induction false} TotalCoversSizes(attachments: seq<Attachment>, payloadOf: map<int, int>)
    ensures var t := NewTracker(attachments, payloadOf);
            && Sum(Sizes(t)) <= t.total
            && (Distinct(attachments, payloadOf) ==> t.total == Sum(Sizes(t)))
  {
    if attachments == [] {
      assert Sizes(NewTracker(attachments, payloadOf)) == map[];
    } else {
      var k := |attachments| - 1;
      var init, a := attachments[..k], attachments[k];
      TotalCoversSizes(init, payloadOf);
      if a.id in payloadOf {
        TrackSums(NewTracker(init, payloadOf), a, payloadOf);
        TrackedPayloads(init, payloadOf);
        if Distinct(attachments, payloadOf) {
          assert Distinct(init, payloadOf) by {
            forall i, j | 0 <= i < j < |init| && Mapped(init, payloadOf, i) && Mapped(init, payloadOf, j)
              ensures payloadOf[init[i].id] != payloadOf[init[j].id]
            {
              assert Mapped(attachments, payloadOf, i) && Mapped(attachments, payloadOf, j);
            }
          }
          if payloadOf[a.id] in NewTracker(init, payloadOf).payloads {
            var i :| 0 <= i < |init| && Mapped(init, payloadOf, i) && payloadOf[init[i].id] == payloadOf[a.id];
            assert Mapped(attachments, payloadOf, i) && Mapped(attachments, payloadOf, k);
          }
        }
      } else if Distinct(attachments, payloadOf) {
        forall i, j | 0 <= i < j < |init| && Mapped(init, payloadOf, i) && Mapped(init, payloadOf, j)
          ensures payloadOf[init[i].id] != payloadOf[init[j].id]
        {
          assert Mapped(attachments, payloadOf, i) && Mapped(attachments, payloadOf, j);
        }
      }
    }
  }

  // ---------------------------------------------------------------- bytes stay within the total

  ghost predicate WithinSizes(t: Tracker, won: map<int, nat>) {
    && Sum(Sizes(t)) <= t.total
    && (forall p :: p in t.payloads ==> t.payloads[p].transferred <= t.payloads[p].size)
    && (forall p :: p in t.payloads && p in won ==> won[p] <= t.payloads[p].size)
  }

  ghost predicate Fits(t: Tracker, u: Update) {
    u.payload in t.payloads ==> u.bytes <= t.payloads[u.payload].size
  }

  ghost predicate Within(f: Flow) {
    WithinSizes(f.tracker, f.won) && forall i :: 0 <= i < |f.queue| ==> Fits(f.tracker, f.queue[i])
  }

  ghost predicate Sound(t: Tracker, m: Option<Metadata>) {
    m.Some? ==> m.value.transferredBytes <= t.total && m.value.progress <= 100
  }

  lemma TransferredWithinTotal(t: Tracker, won: map<int, nat>, p: int)
    requires Accounts(t, won) && WithinSizes(t, won) && p in t.payloads
    ensures TotalTransferred(t, t.payloads[p]) <= t.total
  {
    if t.payloads[p].status == Success {
      SumMonotone(won, Sizes(t));
    } else {
      SumPut(won, p, t.payloads[p].transferred);
      SumMonotone(won[p := t.payloads[p].transferred], Sizes(t));
    }
  }

  lemma PercentWithin(part: nat, whole: nat)
    requires 0 < whole && part <= whole
    ensures 100 * part / whole <= 100
  {
    var q := 100 * part / whole;
    assert q * whole <= 100 * part;
    assert (q - 100) * whole <= 0;
  }

  lemma CountWithin(t: Tracker, won: map<int, nat>, u: Update)
    requires WithinSizes(t, won) && u.payload in t.payloads && Fits(t, u)
    ensures Sizes(Count(t, u)) == Sizes(t)
    ensures WithinSizes(Count(t, u), if u.status == Success then won[u.payload := u.bytes] else won)
  {
    assert Sizes(Count(t, u)) == Sizes(t);
  }

  lemma ReportSound(t: Tracker, won: map<int, nat>, p: int, speedDue: bool)
    requires Accounts(t, won) && WithinSizes(t, won) && p in t.payloads
    ensures WithinSizes(Report(t, t.payloads[p], speedDue).0, won)
    ensures Report(t, t.payloads[p], speedDue).0.total == t.total
    ensures Sizes(Report(t, t.payloads[p], speedDue).0) == Sizes(t)
    ensures Sound(t, Report(t, t.payloads[p], speedDue).1)
  {
    assert Sizes(Report(t, t.payloads[p], speedDue).0) == Sizes(t);
    TransferredWithinTotal(t, won, p);
    if t.total != 0 {
      PercentWithin(TotalTransferred(t, t.payloads[p]), t.total);
    }
  }

  lemma SameSizesFit(t: Tracker, t1: Tracker, u: Update)
    requires Sizes(t) == Sizes(t1) && Fits(t, u)
    ensures Fits(t1, u)
  {
    assert u.payload in t1.payloads ==> u.payload in Sizes(t1) && Sizes(t1)[u.payload] == t1.payloads[u.payload].size;
  }

  lemma ProcessHeadWithin(f: Flow)
    requires Exact(f) && TerminalOnce(f) && Within(f) && f.queue != []
    ensures Within(ProcessHead(f).0) && ProcessHead(f).0.tracker.total == f.tracker.total
    ensures Sizes(ProcessHead(f).0.tracker) == Sizes(f.tracker)
    ensures Sound(f.tracker, ProcessHead(f).1)
  {
    var u, f1 := f.queue[0], ProcessHead(f).0;
    assert Queued(f, u) && Fits(f.tracker, u);
    CountExact(f.tracker, f.won, u);
    CountWithin(f.tracker, f.won, u);
    ReportSound(Count(f.tracker, u), f1.won, u.payload, u.speedDue);
    forall i | 0 <= i < |f1.queue| ensures Fits(f1.tracker, f1.queue[i]) {
      assert Fits(f.tracker, f.queue[i + 1]);
      SameSizesFit(f.tracker, f1.tracker, f.queue[i + 1]);
    }
  }

  lemma {:induction false} BatchWithin(f: Flow, last: Option<Metadata>)
    requires Exact(f) && TerminalOnce(f) && Within(f) && Sound(f.tracker, last)
    ensures Within(Batch(f, last).0) && Batch(f, last).0.tracker.total == f.tracker.total
    ensures Sizes(Batch(f, last).0.tracker) == Sizes(f.tracker)
    ensures Sound(f.tracker, Batch(f, last).1)
    decreases |f.queue|
  {
    if f.queue != [] {
      ProcessHeadWithin(f);
      ProcessHeadExact(f);
      ProcessHeadTerminalOnce(f);
      BatchWithin(ProcessHead(f).0, ProcessHead(f).1);
    }
  }

  ghost predicate AllFit(t: Tracker, steps: seq<Step>) {
    forall i :: 0 <= i < |steps| && steps[i].DeliverStep? ==> Fits(t, steps[i].update)
  }

  lemma EnqueueWithin(f: Flow, u: Update)
    requires Within(f) && Fits(f.tracker, u)
    ensures Within(Enqueue(f, u)) && Enqueue(f, u).tracker == f.tracker
  {
  }

  ghost predicate SameSizes(f: Flow, g: Flow) {
    g.tracker.total == f.tracker.total && Sizes(g.tracker) == Sizes(f.tracker)
  }

  lemma RegisterWithin(f: Flow, payload: int)
    requires Within(f)
    ensures Within(Register(f, payload))
  {
  }

  lemma DeliverWithin(f: Flow, u: Update)
    requires Within(f) && Fits(f.tracker, u)
    ensures Within(Deliver(f, u)) && Deliver(f, u).tracker == f.tracker
  {
    EnqueueWithin(f, u);
    EnqueueWithin(f.(listeners := f.listeners - {u.payload}), u);
  }

  lemma CancelWithin(f: Flow, payload: int)
    requires Within(f)
    ensures Within(Cancel(f, payload)) && Cancel(f, payload).tracker == f.tracker
  {
    EnqueueWithin(f.(listeners := f.listeners - {payload}), Update(payload, Canceled, 0, false));
  }

  lemma NextWithin(f: Flow, step: Step)
    requires FlowOk(f) && Within(f) && (step.DeliverStep? ==> Fits(f.tracker, step.update))
    ensures Within(Next(f, step)) && SameSizes(f, Next(f, step))
  {
    match step
    case RegisterStep(p) => RegisterWithin(f, p);
    case DeliverStep(u) => DeliverWithin(f, u);
    case CancelStep(p) => CancelWithin(f, p);
    case DrainStep => BatchWithin(f.(scheduled := false), None);
  }

  lemma {:induction false} ExecWithin(f: Flow, steps: seq<Step>)
    requires FlowOk(f) && Within(f) && AllFit(f.tracker, steps)
    ensures Within(Exec(f, steps)) && SameSizes(f, Exec(f, steps))
  {
    if steps != [] {
      var init, step := steps[..|steps| - 1], steps[|steps| - 1];
      ExecWithin(f, init);
      ExecKeeps(f, init);
      if step.DeliverStep? {
        SameSizesFit(f.tracker, Exec(f, init).tracker, step.update);
      }
      NextWithin(Exec(f, init), step);
    }
  }

  // Main result: if no update reports more bytes than its payload's size then, whatever the
  // interleaving, every report has bytes within the total and progress within 0..100.
  lemma EveryReportIsSound(attachments: seq<Attachment>, payloadOf: map<int, int>, steps: seq<Step>)
    requires AllFit(NewTracker(attachments, payloadOf), steps)
    ensures var t := NewTracker(attachments, payloadOf);
            Sound(t, Drain(Exec(NewFlow(t), steps)).1)
  {
    var f0 := NewFlow(NewTracker(attachments, payloadOf));
    NewTrackerIdle(attachments, payloadOf);
    TotalCoversSizes(attachments, payloadOf);
    EveryRun(attachments, payloadOf, []);
    assert Exec(f0, []) == f0;
    ExecWithin(f0, steps);
    ExecKeeps(f0, steps);
    BatchWithin(Exec(f0, steps).(scheduled := false), None);
  }

  // ---------------------------------------------------------------- payloads sent one after another

  function ProcessAll(t: Tracker, updates: seq<Update>): Tracker {
    if updates == [] then t
    else Process(ProcessAll(t, updates[..|updates| - 1]), updates[|updates| - 1]).0
  }

  ghost predicate OneAfterAnother(t: Tracker, updates: seq<Update>) {
    && (forall i :: 0 <= i < |updates| ==>
          updates[i].payload in t.payloads && (updates[i].status == InProgress || updates[i].status == Success))
    && (forall i :: 0 < i < |updates| && updates[i].payload != updates[i - 1].payload ==>
          updates[i - 1].status == Success)
    && (forall i, j :: 0 <= i < j < |updates| && updates[i].payload == updates[j].payload ==>
          updates[i].bytes <= updates[j].bytes)
  }

  ghost predicate Fresh(t: Tracker) {
    t.lastTransferred == 0 && t.confirmed == 0 && forall p :: p in t.payloads ==> t.payloads[p].transferred == 0
  }

  // What the report after the last update counts as transferred.
  function Level(t: Tracker, updates: seq<Update>): nat
    requires updates != [] ==> updates[|updates| - 1].payload in ProcessAll(t, updates).payloads
  {
    var t1 := ProcessAll(t, updates);
    if updates == [] then t1.confirmed
    else TotalTransferred(t1, t1.payloads[updates[|updates| - 1].payload])
  }

  lemma {:induction false} ProcessAllKeys(t: Tracker, updates: seq<Update>)
    ensures ProcessAll(t, updates).payloads.Keys == t.payloads.Keys
  {
    if updates != [] {
      ProcessAllKeys(t, updates[..|updates| - 1]);
    }
  }

  lemma PrefixSequential(t: Tracker, updates: seq<Update>, k: nat)
    requires OneAfterAnother(t, updates) && k <= |updates|
    ensures OneAfterAnother(t, updates[..k])
  {
  }

  // A payload's recorded bytes were reported by some update of that payload.
  lemma {:induction false} RecordedBytes(t: Tracker, updates: seq<Update>, p: int)
    requires Fresh(t) && p in t.payloads
    ensures p in ProcessAll(t, updates).payloads
    ensures var b := ProcessAll(t, updates).payloads[p].transferred;
            b == 0 || exists i :: 0 <= i < |updates| && updates[i].payload == p && updates[i].bytes == b
  {
    ProcessAllKeys(t, updates);
    if updates != [] {
      var init, u := updates[..|updates| - 1], updates[|updates| - 1];
      RecordedBytes(t, init, p);
      var b0, b := ProcessAll(t, init).payloads[p].transferred, ProcessAll(t, updates).payloads[p].transferred;
      if b == b0 {
        if b != 0 {
          var i :| 0 <= i < |init| && init[i].payload == p && init[i].bytes == b;
          assert updates[i] == init[i];
        }
      } else {
        assert updates[|updates| - 1].payload == p && u.bytes == b;
      }
    }
  }

  lemma LevelRises(t: Tracker, updates: seq<Update>)
    requires Fresh(t) && OneAfterAnother(t, updates) && updates != []
    ensures updates[|updates| - 1].payload in ProcessAll(t, updates).payloads
    ensures var init := updates[..|updates| - 1];
            && (init != [] ==> init[|init| - 1].payload in ProcessAll(t, init).payloads)
            && Level(t, init) <= Level(t, updates)
  {
    var init, u := updates[..|updates| - 1], updates[|updates| - 1];
    ProcessAllKeys(t, updates);
    ProcessAllKeys(t, init);
    RecordedBytes(t, init, u.payload);
    if init != [] {
      assert init[|init| - 1] == updates[|updates| - 2];
      LastStatus(t, init);
    }
  }

  lemma {:induction false} LastStatus(t: Tracker, updates: seq<Update>)
    requires updates != [] && updates[|updates| - 1].payload in t.payloads
    ensures var u := updates[|updates| - 1];
            && u.payload in ProcessAll(t, updates).payloads
            && ProcessAll(t, updates).payloads[u.payload].status == u.status
  {
    ProcessAllKeys(t, updates[..|updates| - 1]);
  }

  lemma {:induction false} SampleBelowLevel(t: Tracker, updates: seq<Update>)
    requires Fresh(t) && OneAfterAnother(t, updates)
    ensures updates != [] ==> updates[|updates| - 1].payload in ProcessAll(t, updates).payloads
    ensures ProcessAll(t, updates).lastTransferred <= Level(t, updates)
  {
    if updates != [] {
      PrefixSequential(t, updates, |updates| - 1);
      SampleBelowLevel(t, updates[..|updates| - 1]);
      LevelRises(t, updates);
    }
  }

  lemma {:induction false} LevelRisesAt(t: Tracker, updates: seq<Update>, k: nat)
    requires Fresh(t) && OneAfterAnother(t, updates) && k < |updates|
    ensures k > 0 ==> updates[k - 1].payload in ProcessAll(t, updates[..k]).payloads
    ensures updates[k].payload in ProcessAll(t, updates[..k + 1]).payloads
    ensures Level(t, updates[..k]) <= Level(t, updates[..k + 1])
  {
    PrefixSequential(t, updates, k + 1);
    LevelRises(t, updates[..k + 1]);
    assert updates[..k + 1][..k] == updates[..k];
  }

  lemma {:induction false} LevelsRise(t: Tracker, updates: seq<Update>, j: nat, k: nat)
    requires Fresh(t) && OneAfterAnother(t, updates) && j <= k <= |updates|
    ensures j > 0 ==> updates[j - 1].payload in ProcessAll(t, updates[..j]).payloads
    ensures k > 0 ==> updates[k - 1].payload in ProcessAll(t, updates[..k]).payloads
    ensures Level(t, updates[..j]) <= Level(t, updates[..k])
    decreases k
  {
    if j < k {
      LevelsRise(t, updates, j, k - 1);
      LevelRisesAt(t, updates, k - 1);
    } else if k > 0 {
      LevelRisesAt(t, updates, k - 1);
    }
  }

  // The report made for updates[k].
  function ReportAt(t: Tracker, updates: seq<Update>, k: nat): Option<Metadata>
    requires k < |updates|
  {
    Process(ProcessAll(t, updates[..k]), updates[k]).1
  }

  lemma ReportIsLevel(t: Tracker, updates: seq<Update>, k: nat)
    requires k < |updates| && updates[k].payload in t.payloads
    ensures updates[k].payload in ProcessAll(t, updates[..k + 1]).payloads
    ensures var m := ReportAt(t, updates, k);
            m.Some? && m.value.status == TransferInProgress ==>
              m.value.transferredBytes == Level(t, updates[..k + 1])
  {
    ProcessAllKeys(t, updates[..k]);
    assert updates[..k + 1][..k] == updates[..k];
  }

  // Main result: with payloads one after another, each with non-decreasing bytes and ending in success,
  // reported bytes never decrease, and no report is below the bytes of the last speed sample.
  lemma {:induction false} ReportsNeverFall(t: Tracker, updates: seq<Update>, j: nat, k: nat)
    requires Fresh(t) && OneAfterAnother(t, updates) && j <= k < |updates|
    requires ReportAt(t, updates, j).Some? && ReportAt(t, updates, k).Some?
    requires ReportAt(t, updates, j).value.status == ReportAt(t, updates, k).value.status == TransferInProgress
    ensures ReportAt(t, updates, j).value.transferredBytes <= ReportAt(t, updates, k).value.transferredBytes
    ensures ProcessAll(t, updates[..k]).lastTransferred <= ReportAt(t, updates, k).value.transferredBytes
  {
    ReportIsLevel(t, updates, j);
    ReportIsLevel(t, updates, k);
    LevelsRise(t, updates, j + 1, k + 1);
    LevelsRise(t, updates, k, k + 1);
    PrefixSequential(t, updates, k);
    SampleBelowLevel(t, updates[..k]);
  }

  // ---------------------------------------------------------------- exactly when the subtraction wraps

  // Whether the speed is computed for this update, and the last sample subtracted from the new one.
  predicate TakesSample(t: Tracker, u: Update) {
    && u.payload in t.payloads && u.speedDue && (u.status == InProgress || u.status == Success)
    && !IsComplete(Count(t, u))
    && (u.status == Success || Progress(Count(t, u), Count(t, u).payloads[u.payload]) != t.lastProgress)
  }

  predicate Wraps(t: Tracker, u: Update) {
    TakesSample(t, u) && Process(t, u).1.Some? && Process(t, u).1.value.transferredBytes < t.lastTransferred
  }

  // What an update adds to the confirmed bytes, and what it counts on top of them.
  function Confirms(u: Update): nat { if u.status == Success then u.bytes else 0 }

  function OnTop(t: Tracker, u: Update): nat
    requires u.payload in t.payloads
  {
    if u.status == Success then 0 else Max(t.payloads[u.payload].transferred, u.bytes)
  }

  // The last sample of a run: the payload it came from, the bytes of it counted on top of the confirmed
  // ones, and the bytes confirmed since.
  datatype Sample = Sample(payload: int, onTop: nat, gained: nat)

  function LastSample(t: Tracker, updates: seq<Update>): Option<Sample> {
    if updates == [] then None
    else
      var init, u := updates[..|updates| - 1], updates[|updates| - 1];
      var t1, last := ProcessAll(t, init), LastSample(t, init);
      if TakesSample(t1, u) then Some(Sample(u.payload, OnTop(t1, u), 0))
      else if last == None || u.payload !in t1.payloads then last
      else Some(last.value.(gained := last.value.gained + Confirms(u)))
  }

  lemma SampledMeansReported(t: Tracker, u: Update)
    ensures TakesSample(t, u) <==>
            && u.payload in t.payloads && u.speedDue
            && Process(t, u).1.Some? && Process(t, u).1.value.status == TransferInProgress
    ensures TakesSample(t, u) ==> Process(t, u).1.value.transferredBytes == t.confirmed + Confirms(u) + OnTop(t, u)
    ensures Process(t, u).0.lastTransferred ==
            if TakesSample(t, u) then t.confirmed + Confirms(u) + OnTop(t, u) else t.lastTransferred
    ensures u.payload in t.payloads ==> Process(t, u).0.confirmed == t.confirmed + Confirms(u)
    ensures u.payload in t.payloads ==> Process(t, u).0.payloads == Count(t, u).payloads
  {
  }

  // The sample and what was confirmed since account for the tracker's counters.
  lemma {:induction false} SampleLedger(t: Tracker, updates: seq<Update>)
    requires Fresh(t)
    ensures var t1 := ProcessAll(t, updates);
            match LastSample(t, updates)
            case None => t1.lastTransferred == 0
            case Some(s) =>
              && t1.lastTransferred + s.gained == t1.confirmed + s.onTop
              && s.payload in t1.payloads && s.onTop <= t1.payloads[s.payload].transferred
  {
    if updates != [] {
      var init, u := updates[..|updates| - 1], updates[|updates| - 1];
      SampleLedger(t, init);
      SampledMeansReported(ProcessAll(t, init), u);
    }
  }

  // Main result: after any run the subtraction for the next update wraps exactly when a sample is due and
  // the bytes confirmed since the last one, with this update's, fall short of what that one counted on top.
  lemma WrapsIff(t: Tracker, updates: seq<Update>, u: Update)
    requires Fresh(t)
    ensures var t1, last := ProcessAll(t, updates), LastSample(t, updates);
            Wraps(t1, u) <==>
            TakesSample(t1, u) && last.Some? && last.value.gained + Confirms(u) + OnTop(t1, u) < last.value.onTop
  {
    SampleLedger(t, updates);
    SampledMeansReported(ProcessAll(t, updates), u);
  }

  // It takes two payloads, or a success that reports fewer bytes than its own payload's last sample.
  lemma {:induction false} WrapNeedsInterleaving(t: Tracker, updates: seq<Update>, u: Update)
    requires Fresh(t) && Wraps(ProcessAll(t, updates), u)
    ensures var s := LastSample(t, updates);
            s.Some? && (u.payload != s.value.payload || (u.status == Success && u.bytes < s.value.onTop))
  {
    SampleLedger(t, updates);
    WrapsIff(t, updates, u);
  }

  const PAIR := Tracker(map[11 := Payload(1, 10, 0, InProgress), 22 := Payload(2, 10, 0, InProgress)], 20, 0, 0, 0, 0)

  lemma PairIsNew()
    ensures NewTracker([Attachment(1, 10), Attachment(2, 10)], map[1 := 11, 2 := 22]) == PAIR
  {
    var both, payloadOf := [Attachment(1, 10), Attachment(2, 10)], map[1 := 11, 2 := 22];
    assert both[..1] == [Attachment(1, 10)] && both[..1][..0] == [];
    assert NewTracker(both[..1], payloadOf) == Track(NewTracker([], payloadOf), both[0], payloadOf);
    assert NewTracker(both, payloadOf) == Track(NewTracker(both[..1], payloadOf), both[1], payloadOf);
  }

  // Such states are reachable with both payloads within their sizes, by progress and by success.
  lemma WrapIsReachable(status: PayloadStatus)
    requires status == InProgress || status == Success
    ensures var t := NewTracker([Attachment(1, 10), Attachment(2, 10)], map[1 := 11, 2 := 22]);
            Wraps(ProcessAll(t, [Update(11, InProgress, 10, true)]), Update(22, status, 2, true))
  {
    PairIsNew();
    var first, second := Update(11, InProgress, 10, true), Update(22, status, 2, true);
    var t1 := Process(PAIR, first).0;
    assert [first][..0] == [] && ProcessAll(PAIR, []) == PAIR;
    assert ProcessAll(PAIR, [first]) == t1;
    assert PAIR.payloads.Keys == {11, 22};
    assert |Count(PAIR, first).payloads| == 2 by {
      assert Count(PAIR, first).payloads.Keys == {11, 22};
    }
    assert |Count(t1, second).payloads| == 2 by {
      assert Count(t1, second).payloads.Keys == {11, 22};
    }
  }
}
