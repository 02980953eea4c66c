/** Frame reading (sharing/incoming_frames_reader.cc over sharing/nearby_connection_impl.cc).

    A queue of typed read requests and a cache of frames that arrived out of turn sit on a FIFO
    connection. Callbacks run synchronously and may issue the next read, so the functions below are
    mutually recursive in the same way as the methods they specify (IncomingFramesReader.dfy).
 */
module FrameReader {
  import opened Wrappers

  type FrameType = int

  datatype Frame = Frame(frameType: FrameType, body: string)

  // What DecodeV1Frame makes of one received message.
  datatype Message = Undecodable | Decoded(frame: Frame)

  // A zero timeout means none.
  datatype Request = Request(frameType: Option<FrameType>, timeout: nat)

  /** `unread` and `armed` belong to the connection, `queue`, `cache` and `timer` to the reader.
      `reactions` is the caller's behaviour: the further reads that each of its callbacks issues, in
      turn. The last fields only record history: the messages that `arrived`, the frames `taken` from
      the connection, which were `accepted` because a request was pending or else `dropped`, the frames
      `delivered` to callbacks, and the type each was `asked` for. */
  datatype Reader = Reader(
    unread: seq<Message>, armed: bool,
    queue: seq<Request>, cache: seq<Frame>, timer: bool,
    reactions: seq<seq<Request>>,
    arrived: seq<Message>, taken: seq<Frame>, accepted: seq<Frame>, dropped: seq<Frame>,
    delivered: seq<Frame>, asked: seq<Option<FrameType>>)

  function Start(reactions: seq<seq<Request>>): Reader {
    Reader([], false, [], [], false, reactions, [], [], [], [], [], [])
  }

  // Unread messages plus callbacks still to react: every recursive call works towards the end of it.
  function Work(s: Reader): nat { |s.unread| + |s.reactions| }

  predicate Matches(r: Request, f: Frame) {
    r.frameType.None? || r.frameType.value == f.frameType
  }

  // Index of the first cached frame that answers the request, or the length of the cache.
  function FirstMatch(cache: seq<Frame>, r: Request): (i: nat)
    ensures i <= |cache|
    ensures i < |cache| ==> Matches(r, cache[i])
    ensures forall j :: 0 <= j < i ==> !Matches(r, cache[j])
  {
    if cache == [] || Matches(r, cache[0]) then 0 else 1 + FirstMatch(cache[1..], r)
  }

  // What Done makes of a request it takes from the queue to issue again.
  function Requeued(r: Request): Request {
    if r.timeout != 0 then r else Request(None, 0)
  }

  // ---------------------------------------------------------------- the calls, as functions

  function ReadFrame(s: Reader, r: Request): (s': Reader)
    ensures Work(s') <= Work(s)
    decreases Work(s), 4
  {
    if s.queue != [] then s.(queue := s.queue + [r])
    else
      var i := FirstMatch(s.cache, r);
      if i < |s.cache| then
        Callback(s.(cache := s.cache[..i] + s.cache[i + 1..],
                    delivered := s.delivered + [s.cache[i]], asked := s.asked + [r.frameType]))
      else
        ReadNext(s.(queue := [r], timer := s.timer || r.timeout != 0))
  }

  // One callback has run, with the reads that the caller issued inside it.
  function Callback(s: Reader): (s': Reader)
    ensures Work(s') <= Work(s)
    decreases Work(s), 1
  {
    if s.reactions == [] then s
    else IssueAll(s.(reactions := s.reactions[1..]), s.reactions[0])
  }

  function IssueAll(s: Reader, requests: seq<Request>): (s': Reader)
    ensures Work(s') <= Work(s)
    decreases Work(s), 7, |requests|
  {
    if requests == [] then s else IssueAll(ReadFrame(s, requests[0]), requests[1..])
  }

  function ReadNext(s: Reader): (s': Reader)
    ensures Work(s') <= Work(s)
    decreases Work(s), 3
  {
    if s.unread == [] then s.(armed := true) else OnData(s.(unread := s.unread[1..]), s.unread[0])
  }

  function OnData(s: Reader, m: Message): (s': Reader)
    ensures Work(s') <= Work(s)
    decreases Work(s), 6
  {
    if m.Undecodable? then ReadNext(s)
    else if s.queue == [] then s.(taken := s.taken + [m.frame], dropped := s.dropped + [m.frame])
    else if Matches(s.queue[0], m.frame) then Done(s, m.frame)
    else ReadNext(s.(cache := s.cache + [m.frame], taken := s.taken + [m.frame], accepted := s.accepted + [m.frame]))
  }

  // The front request leaves the queue and its callback gets the frame.
  function Delivered(s: Reader, f: Frame): Reader
    requires s.queue != []
  {
    s.(timer := false, queue := s.queue[1..], taken := s.taken + [f], accepted := s.accepted + [f],
       delivered := s.delivered + [f], asked := s.asked + [s.queue[0].frameType])
  }

  function Done(s: Reader, f: Frame): (s': Reader)
    requires s.queue != []
    ensures Work(s') <= Work(s)
    decreases Work(s), 5
  {
    var s1 := Callback(Delivered(s, f));
    if s1.queue == [] then s1
    else ReadFrame(s1.(queue := s1.queue[1..]), Requeued(s1.queue[0]))
  }

  // The failure callbacks of `n` requests that were swapped out of the queue.
  function FailAll(s: Reader, n: nat): Reader
    decreases n
  {
    if n == 0 then s else FailAll(Callback(s), n - 1)
  }

  function CloseAllPendingReads(s: Reader): Reader {
    FailAll(s.(queue := []), |s.queue|)
  }

  function OnTimeout(s: Reader): Reader {
    CloseAllPendingReads(s.(timer := false))
  }

  function WriteMessage(s: Reader, m: Message): Reader {
    var s1 := s.(arrived := s.arrived + [m]);
    if s.armed then OnData(s1.(armed := false), m) else s1.(unread := s.unread + [m])
  }

  // The connection goes away: a read that is still armed is answered with nothing.
  function Close(s: Reader): Reader {
    if s.armed then CloseAllPendingReads(s.(armed := false)) else s
  }

  // ---------------------------------------------------------------- the invariant

  function OfType(fs: seq<Frame>, t: FrameType): seq<Frame> {
    if fs == [] then []
    else if fs[0].frameType == t then [fs[0]] + OfType(fs[1..], t) else OfType(fs[1..], t)
  }

  function Frames(ms: seq<Message>): seq<Frame> {
    if ms == [] then []
    else if ms[0].Decoded? then [ms[0].frame] + Frames(ms[1..]) else Frames(ms[1..])
  }

  // Every frame that arrived was taken in order or is still in hand or unread, and every frame taken
  // was accepted or dropped.
  ghost predicate Accounted(s: Reader, inHand: seq<Message>) {
    && Frames(s.arrived) == s.taken + Frames(inHand + s.unread)
    && multiset(s.taken) == multiset(s.accepted) + multiset(s.dropped)
    && (s.dropped == [] ==> s.taken == s.accepted)
  }

  // The message in hand is skipped, accepted or dropped.
  lemma HandAccounted(s: Reader, m: Message)
    requires Accounted(s, [m])
    ensures m.Undecodable? ==> Accounted(s, [])
    ensures m.Decoded? ==> Accounted(s.(taken := s.taken + [m.frame], accepted := s.accepted + [m.frame]), [])
    ensures m.Decoded? ==> Accounted(s.(taken := s.taken + [m.frame], dropped := s.dropped + [m.frame]), [])
  {
    assert ([m] + s.unread)[1..] == s.unread && [] + s.unread == s.unread;
    if m.Decoded? {
      assert s.taken + ([m.frame] + Frames(s.unread)) == (s.taken + [m.frame]) + Frames(s.unread);
    }
  }

  // Within a type no frame is lost, duplicated or reordered.
  ghost predicate Fifo(s: Reader) {
    forall t :: OfType(s.accepted, t) == OfType(s.delivered, t) + OfType(s.cache, t)
  }

  // Typed reads carry a timeout and untyped ones do not, as the two ReadFrame overloads are used.
  predicate WellFormed(r: Request) { r.frameType.Some? <==> r.timeout != 0 }

  // A callback issues one further read or none.
  predicate OneAtMost(requests: seq<Request>) { requests == [] || (|requests| == 1 && WellFormed(requests[0])) }

  ghost predicate Disciplined(s: Reader) {
    && (forall i :: 0 <= i < |s.queue| ==> WellFormed(s.queue[i]))
    && (forall i :: 0 <= i < |s.reactions| ==> OneAtMost(s.reactions[i]))
  }

  // Every request was answered with a frame of the type it asked for.
  ghost predicate Answered(s: Reader) {
    && |s.asked| == |s.delivered|
    && forall i :: 0 <= i < |s.asked| ==> s.asked[i].Some? ==> s.delivered[i].frameType == s.asked[i].value
  }

  predicate NoCachedAnswer(s: Reader) {
    s.queue != [] ==> FirstMatch(s.cache, s.queue[0]) == |s.cache|
  }

  // No lost wake-up: a pending request is alone, its read is armed, and neither the connection nor the
  // cache holds anything that could answer it.
  ghost predicate Awake(s: Reader) {
    s.queue != [] ==> |s.queue| == 1 && s.armed && s.unread == [] && NoCachedAnswer(s)
  }

  ghost predicate Inv(s: Reader) {
    Accounted(s, []) && Fifo(s) && Answered(s) && Disciplined(s) && Awake(s) && (s.armed ==> s.unread == [])
  }

  lemma {:induction false} OfTypeConcat(a: seq<Frame>, b: seq<Frame>, t: FrameType)
    ensures OfType(a + b, t) == OfType(a, t) + OfType(b, t)
  {
    if a == [] {
      assert a + b == b;
    } else {
      assert (a + b)[1..] == a[1..] + b;
      OfTypeConcat(a[1..], b, t);
    }
  }

  lemma {:induction false} NoneOfType(fs: seq<Frame>, t: FrameType)
    requires forall i :: 0 <= i < |fs| ==> fs[i].frameType != t
    ensures OfType(fs, t) == []
  {
    if fs != [] {
      NoneOfType(fs[1..], t);
    }
  }

  // Taking the first match out of the cache takes the oldest cached frame of its type.
  lemma {:induction false} TakingKeepsFifo(s: Reader, r: Request)
    requires Fifo(s) && FirstMatch(s.cache, r) < |s.cache|
    ensures var i := FirstMatch(s.cache, r);
            Fifo(s.(cache := s.cache[..i] + s.cache[i + 1..], delivered := s.delivered + [s.cache[i]]))
  {
    var i := FirstMatch(s.cache, r);
    var before, f, after := s.cache[..i], s.cache[i], s.cache[i + 1..];
    assert s.cache == before + ([f] + after);
    forall t ensures OfType(s.accepted, t) == OfType(s.delivered + [f], t) + OfType(before + after, t) {
      assert OfType(s.accepted, t) == OfType(s.delivered, t) + OfType(s.cache, t);
      if f.frameType == t {
        NoneOfType(before, t);
      }
      MovingFirst(s.delivered, before, f, after, t);
    }
  }

  lemma {:induction false} MovingFirst(delivered: seq<Frame>, before: seq<Frame>, f: Frame, after: seq<Frame>,
                                       t: FrameType)
    requires f.frameType == t ==> OfType(before, t) == []
    ensures OfType(delivered, t) + OfType(before + ([f] + after), t)
         == OfType(delivered + [f], t) + OfType(before + after, t)
  {
    OfTypeConcat(delivered, [f], t);
    Without(before, f, after, t);
  }

  lemma {:induction false} Without(before: seq<Frame>, f: Frame, after: seq<Frame>, t: FrameType)
    requires f.frameType == t ==> OfType(before, t) == []
    ensures OfType(before + ([f] + after), t) == OfType([f], t) + OfType(before + after, t)
  {
    OfTypeConcat(before, [f] + after, t);
    OfTypeConcat([f], after, t);
    OfTypeConcat(before, after, t);
  }

  // A frame that answers the front request goes out ahead of nothing of its own type.
  lemma DeliveringKeepsFifo(s: Reader, f: Frame)
    requires Fifo(s) && s.queue != [] && NoCachedAnswer(s) && Matches(s.queue[0], f)
    ensures Fifo(Delivered(s, f))
  {
    forall t ensures OfType(s.accepted + [f], t) == OfType(s.delivered + [f], t) + OfType(s.cache, t) {
      OfTypeConcat(s.accepted, [f], t);
      OfTypeConcat(s.delivered, [f], t);
      if f.frameType == t {
        NoneOfType(s.cache, t);
      }
    }
  }

  lemma DeliveringKeeps(s: Reader, f: Frame)
    requires Accounted(s, [Decoded(f)]) && Fifo(s) && Answered(s) && Disciplined(s) && (s.armed ==> s.unread == [])
    requires s.queue != [] && NoCachedAnswer(s) && Matches(s.queue[0], f)
    ensures Ready(Delivered(s, f).(queue := []), [])
  {
    HandAccounted(s, Decoded(f));
    DeliveringKeepsFifo(s, f);
  }

  lemma CachingKeepsFifo(s: Reader, f: Frame)
    requires Fifo(s)
    ensures Fifo(s.(accepted := s.accepted + [f], cache := s.cache + [f]))
  {
    forall t ensures OfType(s.accepted + [f], t) == OfType(s.delivered, t) + OfType(s.cache + [f], t) {
      OfTypeConcat(s.accepted, [f], t);
      OfTypeConcat(s.cache, [f], t);
    }
  }

  lemma {:induction false} AppendNoMatch(cache: seq<Frame>, f: Frame, r: Request)
    requires FirstMatch(cache, r) == |cache| && !Matches(r, f)
    ensures FirstMatch(cache + [f], r) == |cache + [f]|
  {
    forall j | 0 <= j <= |cache| ensures !Matches(r, (cache + [f])[j]) {
    }
  }

  // What holds inside the recursion, where the front request's read has been consumed.
  ghost predicate Ready(s: Reader, inHand: seq<Message>) {
    && Accounted(s, inHand)
    && Fifo(s) && Answered(s) && Disciplined(s) && (s.armed ==> s.unread == []) && |s.queue| <= 1 && NoCachedAnswer(s)
  }

  lemma {:induction false} ReadFrameKeeps(s: Reader, r: Request)
    requires Ready(s, []) && s.queue == [] && WellFormed(r)
    ensures Inv(ReadFrame(s, r))
    decreases Work(s), 4
  {
    if FirstMatch(s.cache, r) < |s.cache| {
      var i := FirstMatch(s.cache, r);
      TakingKeepsFifo(s, r);
      CallbackKeeps(s.(cache := s.cache[..i] + s.cache[i + 1..],
                       delivered := s.delivered + [s.cache[i]], asked := s.asked + [r.frameType]));
    } else {
      ReadNextKeeps(s.(queue := [r], timer := s.timer || r.timeout != 0));
    }
  }

  lemma {:induction false} CallbackKeeps(s: Reader)
    requires Ready(s, []) && s.queue == []
    ensures Inv(Callback(s))
    decreases Work(s), 1
  {
    if s.reactions != [] && s.reactions[0] != [] {
      var s1, r := s.(reactions := s.reactions[1..]), s.reactions[0][0];
      ReadFrameKeeps(s1, r);
      assert IssueAll(s1, s.reactions[0]) == IssueAll(ReadFrame(s1, r), []);
    }
  }

  lemma {:induction false} ReadNextKeeps(s: Reader)
    requires Ready(s, [])
    ensures Inv(ReadNext(s))
    decreases Work(s), 3
  {
    if s.unread != [] {
      assert [s.unread[0]] + s.unread[1..] == [] + s.unread;
      OnDataKeeps(s.(unread := s.unread[1..]), s.unread[0]);
    }
  }

  lemma {:induction false} OnDataKeeps(s: Reader, m: Message)
    requires Ready(s, [m])
    ensures Inv(OnData(s, m))
    decreases Work(s), 6
  {
    HandAccounted(s, m);
    if m.Undecodable? {
      ReadNextKeeps(s);
    } else if s.queue != [] {
      if Matches(s.queue[0], m.frame) {
        DoneKeeps(s, m.frame);
      } else {
        CachingKeepsFifo(s, m.frame);
        AppendNoMatch(s.cache, m.frame, s.queue[0]);
        ReadNextKeeps(s.(cache := s.cache + [m.frame], taken := s.taken + [m.frame],
                         accepted := s.accepted + [m.frame]));
      }
    }
  }

  lemma {:induction false} DoneKeeps(s: Reader, f: Frame)
    requires Ready(s, [Decoded(f)]) && s.queue != [] && Matches(s.queue[0], f)
    ensures Inv(Done(s, f))
    decreases Work(s), 5
  {
    DeliveringKeeps(s, f);
    CallbackKeeps(Delivered(s, f));
    var s1 := Callback(Delivered(s, f));
    if s1.queue != [] {
      assert Requeued(s1.queue[0]) == s1.queue[0];
      ReadFrameKeeps(s1.(queue := s1.queue[1..]), s1.queue[0]);
    }
  }

  lemma {:induction false} FailOneKeeps(s: Reader, n: nat)
    requires Ready(s, []) && s.queue == [] && n <= 1
    ensures Inv(FailAll(s, n))
  {
    if n == 1 {
      CallbackKeeps(s);
      assert FailAll(s, 1) == FailAll(Callback(s), 0);
    }
  }

  // ---------------------------------------------------------------- runs

  datatype Step = Issue(request: Request) | Receive(message: Message) | Expire | CloseStep

  // One request at a time, and the timer fires only while it runs.
  predicate Enabled(s: Reader, step: Step) {
    match step
    case Issue(r) => s.queue == [] && WellFormed(r)
    case Expire => s.timer
    case _ => true
  }

  function Next(s: Reader, step: Step): Reader {
    if !Enabled(s, step) then s
    else
      match step
      case Issue(r) => ReadFrame(s, r)
      case Receive(m) => WriteMessage(s, m)
      case Expire => OnTimeout(s)
      case CloseStep => Close(s)
  }

  function Exec(s: Reader, steps: seq<Step>): Reader {
    if steps == [] then s else Next(Exec(s, steps[..|steps| - 1]), steps[|steps| - 1])
  }

  lemma {:induction false} FramesConcat(a: seq<Message>, b: seq<Message>)
    ensures Frames(a + b) == Frames(a) + Frames(b)
  {
    if a == [] {
      assert a + b == b;
    } else {
      assert (a + b)[1..] == a[1..] + b;
      FramesConcat(a[1..], b);
    }
  }

  lemma ArrivalAccounted(s: Reader, m: Message)
    requires Accounted(s, [])
    ensures Accounted(s.(arrived := s.arrived + [m], unread := s.unread + [m]), [])
    ensures s.unread == [] ==> Accounted(s.(arrived := s.arrived + [m]), [m])
  {
    assert [] + s.unread == s.unread && [] + (s.unread + [m]) == s.unread + [m] && [m] + [] == [m];
    FramesConcat(s.arrived, [m]);
    FramesConcat(s.unread, [m]);
    assert Frames([]) == [];
  }

  lemma NextKeeps(s: Reader, step: Step)
    requires Inv(s)
    ensures Inv(Next(s, step))
  {
    if Enabled(s, step) {
      match step
      case Issue(r) => ReadFrameKeeps(s, r);
      case Receive(m) =>
        ArrivalAccounted(s, m);
        if s.armed {
          OnDataKeeps(s.(armed := false, arrived := s.arrived + [m]), m);
        }
      case Expire => FailOneKeeps(s.(timer := false, queue := []), |s.queue|);
      case CloseStep =>
        if s.armed {
          FailOneKeeps(s.(armed := false, queue := []), |s.queue|);
        }
    }
  }

  // Main result: in every run in which the caller keeps one request outstanding, whatever it does in
  // its callbacks, frames of each type are delivered in order without loss or duplication, and a
  // pending request always has its read armed with nothing left that could answer it.
  lemma {:induction false} EveryRun(reactions: seq<seq<Request>>, steps: seq<Step>)
    requires forall i :: 0 <= i < |reactions| ==> OneAtMost(reactions[i])
    ensures var s := Exec(Start(reactions), steps);
            Accounted(s, []) && Fifo(s) && Answered(s) && Awake(s) && Inv(s)
  {
    if steps != [] {
      EveryRun(reactions, steps[..|steps| - 1]);
      NextKeeps(Exec(Start(reactions), steps[..|steps| - 1]), steps[|steps| - 1]);
    }
  }

  // ---------------------------------------------------------------- outside the discipline

  predicate Stalled(s: Reader) { s.queue != [] && !s.armed }

  // The reads that the next callback issues.
  function Reads(s: Reader): seq<Request> { if s.reactions == [] then [] else s.reactions[0] }

  // Requests at any time, from callbacks as many as they like; the timer still fires only while it runs.
  function FreeNext(s: Reader, step: Step): Reader {
    match step
    case Issue(r) => ReadFrame(s, r)
    case Receive(m) => WriteMessage(s, m)
    case Expire => if s.timer then OnTimeout(s) else s
    case CloseStep => Close(s)
  }

  function FreeRun(s: Reader, steps: seq<Step>): Reader {
    if steps == [] then s else FreeNext(FreeRun(s, steps[..|steps| - 1]), steps[|steps| - 1])
  }

  // A read is armed while a request is pending, and only with nothing unread.
  predicate Live(s: Reader) { (s.queue != [] ==> s.armed) && (s.armed ==> s.unread == []) }

  lemma {:induction false} ReadFrameLive(s: Reader, r: Request)
    requires Live(s)
    ensures Live(ReadFrame(s, r))
    decreases Work(s), 4
  {
    if s.queue == [] {
      var i := FirstMatch(s.cache, r);
      if i < |s.cache| {
        CallbackLive(s.(cache := s.cache[..i] + s.cache[i + 1..],
                        delivered := s.delivered + [s.cache[i]], asked := s.asked + [r.frameType]));
      } else {
        ReadNextLive(s.(queue := [r], timer := s.timer || r.timeout != 0));
      }
    }
  }

  lemma {:induction false} CallbackLive(s: Reader)
    requires Live(s)
    ensures Live(Callback(s))
    decreases Work(s), 1
  {
    if s.reactions != [] {
      IssueAllLive(s.(reactions := s.reactions[1..]), s.reactions[0]);
    }
  }

  lemma {:induction false} IssueAllLive(s: Reader, requests: seq<Request>)
    requires Live(s)
    ensures Live(IssueAll(s, requests))
    decreases Work(s), 7, |requests|
  {
    if requests != [] {
      ReadFrameLive(s, requests[0]);
      IssueAllLive(ReadFrame(s, requests[0]), requests[1..]);
    }
  }

  lemma {:induction false} ReadNextLive(s: Reader)
    requires |s.queue| <= 1 && (s.armed ==> s.unread == [])
    ensures Live(ReadNext(s))
    decreases Work(s), 3
  {
    if s.unread != [] {
      OnDataLive(s.(unread := s.unread[1..]), s.unread[0]);
    }
  }

  lemma {:induction false} OnDataLive(s: Reader, m: Message)
    requires |s.queue| <= 1 && (s.armed ==> s.unread == [])
    ensures Live(OnData(s, m))
    decreases Work(s), 6
  {
    if m.Undecodable? {
      ReadNextLive(s);
    } else if s.queue != [] {
      if Matches(s.queue[0], m.frame) {
        DoneLive(s, m.frame);
      } else {
        ReadNextLive(s.(cache := s.cache + [m.frame], taken := s.taken + [m.frame],
                        accepted := s.accepted + [m.frame]));
      }
    }
  }

  lemma {:induction false} DoneLive(s: Reader, f: Frame)
    requires |s.queue| == 1 && (s.armed ==> s.unread == [])
    ensures Live(Done(s, f))
    decreases Work(s), 5
  {
    CallbackLive(Delivered(s, f));
    var s1 := Callback(Delivered(s, f));
    if s1.queue != [] {
      ReadFrameLive(s1.(queue := s1.queue[1..]), Requeued(s1.queue[0]));
    }
  }

  lemma {:induction false} FailAllLive(s: Reader, n: nat)
    requires Live(s)
    ensures Live(FailAll(s, n))
    decreases n
  {
    if n > 0 {
      CallbackLive(s);
      FailAllLive(Callback(s), n - 1);
    }
  }

  // Behind a pending request, further ones only join the queue.
  lemma {:induction false} BusyIssueAll(s: Reader, requests: seq<Request>)
    requires s.queue != []
    ensures IssueAll(s, requests) == s.(queue := s.queue + requests)
    decreases |requests|
  {
    if requests == [] {
      assert s.queue + [] == s.queue;
    } else {
      var s1 := s.(queue := s.queue + [requests[0]]);
      assert ReadFrame(s, requests[0]) == s1;
      BusyIssueAll(s1, requests[1..]);
      assert s.queue + [requests[0]] + requests[1..] == s.queue + requests;
    }
  }

  lemma BusyCallback(s: Reader)
    requires s.queue != []
    ensures Callback(s) == s.(reactions := if s.reactions == [] then [] else s.reactions[1..],
                              queue := s.queue + Reads(s))
  {
    if s.reactions == [] {
      assert s.queue + [] == s.queue;
    } else {
      BusyIssueAll(s.(reactions := s.reactions[1..]), s.reactions[0]);
    }
  }

  // When a frame answers the front of a longer queue, Done issues the next request again. If yet
  // another request is waiting by then, that request goes to the back and no read is armed.
  lemma DoneBehindOthers(s: Reader, f: Frame)
    requires |s.queue| >= 2 && !s.armed
    ensures Stalled(Done(s, f)) <==> |s.queue| + |Reads(s)| >= 3
    ensures if Stalled(Done(s, f)) then !Done(s, f).timer else Live(Done(s, f))
  {
    BusyCallback(Delivered(s, f));
    var s1 := Callback(Delivered(s, f));
    var s2, r := s1.(queue := s1.queue[1..]), Requeued(s1.queue[0]);
    assert Done(s, f) == ReadFrame(s2, r);
    if s2.queue == [] {
      ReadFrameLive(s2, r);
    }
  }

  // The step that stalls a live reader: a frame that answers the front of at least two queued requests,
  // when with those the callback issues there are three.
  predicate Stalls(s: Reader, step: Step) {
    && step.Receive? && step.message.Decoded? && s.armed
    && |s.queue| >= 2 && Matches(s.queue[0], step.message.frame) && |s.queue| + |Reads(s)| >= 3
  }

  lemma ReceiveStallsIff(s: Reader, m: Message)
    requires Live(s)
    ensures var s1 := WriteMessage(s, m);
            if Stalls(s, Receive(m)) then Stalled(s1) && !s1.timer else Live(s1)
  {
    if s.armed {
      var sa := s.(armed := false, arrived := s.arrived + [m]);
      if |s.queue| <= 1 {
        OnDataLive(sa, m);
      } else if m.Decoded? && Matches(s.queue[0], m.frame) {
        DoneBehindOthers(sa, m.frame);
      } else if m.Decoded? {
        var sb := sa.(cache := s.cache + [m.frame], taken := s.taken + [m.frame], accepted := s.accepted + [m.frame]);
        assert OnData(sa, m) == ReadNext(sb) == sb.(armed := true);
      } else {
        assert OnData(sa, m) == ReadNext(sa) == sa.(armed := true);
      }
    }
  }

  lemma StepStallsIff(s: Reader, step: Step)
    requires Live(s)
    ensures var s1 := FreeNext(s, step);
            if Stalls(s, step) then Stalled(s1) && !s1.timer else Live(s1)
  {
    match step
    case Issue(r) => ReadFrameLive(s, r);
    case Receive(m) => ReceiveStallsIff(s, m);
    case Expire => FailAllLive(s.(timer := false, queue := []), |s.queue|);
    case CloseStep => FailAllLive(s.(armed := false, queue := []), |s.queue|);
  }

  // An armed reader is stalled by a frame for its first request exactly when that has others queued behind it
  // and, with the reads its callback issues, three requests are involved.
  lemma StallsExactlyWithThreeRequests(s: Reader, f: Frame)
    requires s.armed && s.unread == [] && s.queue != [] && Matches(s.queue[0], f)
    ensures Stalled(WriteMessage(s, Decoded(f))) <==> |s.queue| >= 2 && |s.queue| + |Reads(s)| >= 3
  {
    ReceiveStallsIff(s, Decoded(f));
  }

  // Some step of the run stalls the reader.
  predicate EverStalls(s: Reader, steps: seq<Step>) {
    && steps != []
    && var init := steps[..|steps| - 1];
       EverStalls(s, init) || Stalls(FreeRun(s, init), steps[|steps| - 1])
  }

  lemma {:induction false} FreeRunLive(reactions: seq<seq<Request>>, steps: seq<Step>)
    ensures var s := FreeRun(Start(reactions), steps);
            if EverStalls(Start(reactions), steps) then Stalled(s) && !s.timer else Live(s)
  {
    if steps != [] {
      var init := steps[..|steps| - 1];
      FreeRunLive(reactions, init);
      if EverStalls(Start(reactions), init) {
        StalledStep(FreeRun(Start(reactions), init), steps[|steps| - 1]);
      } else {
        StepStallsIff(FreeRun(Start(reactions), init), steps[|steps| - 1]);
      }
    }
  }

  // Main result: in every run, disciplined or not, a request is left pending without a read armed exactly when
  // some step answered the first of several queued requests with three involved.
  lemma StallsIff(reactions: seq<seq<Request>>, steps: seq<Step>)
    ensures Stalled(FreeRun(Start(reactions), steps)) <==> EverStalls(Start(reactions), steps)
  {
    FreeRunLive(reactions, steps);
  }

  // While a request is pending the timer runs only with a read armed.
  predicate TimerArmed(s: Reader) { s.timer && s.queue != [] ==> s.armed }

  lemma FreeRunTimer(reactions: seq<seq<Request>>, steps: seq<Step>)
    ensures TimerArmed(FreeRun(Start(reactions), steps))
  {
    FreeRunLive(reactions, steps);
  }

  lemma StalledStep(s: Reader, step: Step)
    requires Stalled(s) && !s.timer
    ensures var s1 := FreeNext(s, step);
            Stalled(s1) && !s1.timer && s1.delivered == s.delivered && s.queue <= s1.queue
  {
  }

  lemma {:induction false} StalledStays(s: Reader, steps: seq<Step>)
    requires Stalled(s) && !s.timer
    ensures var s1 := FreeRun(s, steps);
            Stalled(s1) && !s1.timer && s1.delivered == s.delivered && s.queue <= s1.queue
  {
    if steps != [] {
      StalledStays(s, steps[..|steps| - 1]);
      StalledStep(FreeRun(s, steps[..|steps| - 1]), steps[|steps| - 1]);
    }
  }

  // Main result: in no run, whatever is requested, arrives, expires or closes and whatever the callbacks do, does
  // a reader recover that has stalled: nothing is delivered any more and the pending requests stay pending.
  lemma StallIsPermanent(reactions: seq<seq<Request>>, before: seq<Step>, after: seq<Step>)
    requires Stalled(FreeRun(Start(reactions), before))
    ensures var s := FreeRun(Start(reactions), before); var s1 := FreeRun(s, after);
            Stalled(s1) && s1.delivered == s.delivered && s.queue <= s1.queue
  {
    FreeRunLive(reactions, before);
    StalledStays(FreeRun(Start(reactions), before), after);
  }

  lemma OneMore(s: Reader, steps: seq<Step>, step: Step)
    ensures FreeRun(s, steps + [step]) == FreeNext(FreeRun(s, steps), step)
  {
    assert (steps + [step])[..|steps|] == steps;
  }

  lemma {:induction false} Queued(s: Reader, steps: seq<Step>, r: Request)
    requires FreeRun(s, steps).queue != []
    ensures var s1 := FreeRun(s, steps); FreeRun(s, steps + [Issue(r)]) == s1.(queue := s1.queue + [r])
  {
    OneMore(s, steps, Issue(r));
  }

  lemma FirstRead(r: Request)
    requires r == Request(None, 0)
    ensures FreeRun(Start([]), [Issue(r)]) == Start([]).(queue := [r], armed := true)
  {
    assert [Issue(r)][..0] == [];
    assert FreeRun(Start([]), [Issue(r)]) == FreeNext(FreeRun(Start([]), []), Issue(r));
  }

  lemma ThreeReads(r: Request)
    requires r == Request(None, 0)
    ensures FreeRun(Start([]), [Issue(r), Issue(r), Issue(r)]) == Start([]).(queue := [r, r, r], armed := true)
  {
    var i := Issue(r);
    FirstRead(r);
    assert [i] + [i] == [i, i] && [i, i] + [i] == [i, i, i] && [r] + [r] == [r, r] && [r, r] + [r] == [r, r, r];
    Queued(Start([]), [i], r);
    Queued(Start([]), [i, i], r);
  }

  // Three reads issued at once and one frame for the first of them stall a new reader.
  lemma StallIsReachable()
    ensures var r := Request(None, 0); var f := Frame(1, "");
            var s := FreeRun(Start([]), [Issue(r), Issue(r), Issue(r), Receive(Decoded(f))]);
            Stalled(s) && s.queue == [r, r] && s.delivered == [f]
  {
    var r, f := Request(None, 0), Frame(1, "");
    var s := Start([]).(queue := [r, r, r], armed := true);
    ThreeReads(r);
    OneMore(Start([]), [Issue(r), Issue(r), Issue(r)], Receive(Decoded(f)));
    assert [Issue(r), Issue(r), Issue(r)] + [Receive(Decoded(f))]
        == [Issue(r), Issue(r), Issue(r), Receive(Decoded(f))];
    DoneWithThree(s.(armed := false, arrived := s.arrived + [Decoded(f)]), r, f);
    assert WriteMessage(s, Decoded(f)) == Done(s.(armed := false, arrived := s.arrived + [Decoded(f)]), f);
  }

  lemma {:induction false} DoneWithThree(s: Reader, r: Request, f: Frame)
    requires s.queue == [r, r, r] && r == Request(None, 0) && s.reactions == [] && !s.armed && s.delivered == []
    ensures Stalled(Done(s, f)) && Done(s, f).queue == [r, r] && Done(s, f).delivered == [f]
  {
    var s1 := Delivered(s, f);
    assert Callback(s1) == s1 && s1.queue == [r, r] && s1.queue[1..] == [r];
  }
}
