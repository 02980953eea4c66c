// The two objects behind FrameReader: the connection with its byte queue and single callback slot
// (sharing/nearby_connection_impl.cc) and the reader that sits on it (sharing/incoming_frames_reader.cc).
module FrameReaders {
  import opened Wrappers
  import opened FrameReader

  class NearbyConnectionImpl {
    var unread: seq<Message>
    // The reader whose Read is waiting for the next message.
    var readCallback: IncomingFramesReader?
    ghost var arrived: seq<Message>

    constructor ()
      ensures unread == [] && readCallback == null && arrived == []
    {
      unread, readCallback, arrived := [], null, [];
    }

    method Read(reader: IncomingFramesReader)
      requires reader.connection == this && reader.Valid()
      modifies this, reader
      ensures reader.Valid() && reader.State() == ReadNext(old(reader.State()))
      decreases Work(reader.State()), 2
    {
      if unread == [] {
        readCallback := reader;
        return;
      }
      var bytes := unread[0];
      unread := unread[1..];
      reader.OnDataReadFromConnection(bytes);
    }

    method WriteMessage(bytes: Message, ghost reader: IncomingFramesReader)
      requires reader.connection == this && reader.Valid()
      modifies this, reader
      ensures reader.Valid() && reader.State() == FrameReader.WriteMessage(old(reader.State()), bytes)
    {
      arrived := arrived + [bytes];
      if readCallback == null {
        unread := unread + [bytes];
        return;
      }
      var callback := readCallback;
      readCallback := null;
      callback.OnDataReadFromConnection(bytes);
    }

    // The destructor answers a waiting read with nothing.
    method Destroy(ghost reader: IncomingFramesReader)
      requires reader.connection == this && reader.Valid()
      modifies this, reader
      ensures reader.Valid() && reader.State() == Close(old(reader.State()))
    {
      var callback := readCallback;
      readCallback := null;
      if callback != null {
        callback.CloseAllPendingReads();
      }
    }
  }

  class IncomingFramesReader {
    const connection: NearbyConnectionImpl
    var readFrameInfoQueue: seq<Request>
    var cachedFrames: seq<Frame>
    var timeoutTimer: bool
    // What the caller does in each of its callbacks, in turn.
    var reactions: seq<seq<Request>>
    ghost var taken: seq<Frame>
    ghost var accepted: seq<Frame>
    ghost var dropped: seq<Frame>
    ghost var delivered: seq<Frame>
    ghost var asked: seq<Option<FrameType>>

    ghost predicate Valid()
      reads this, connection
    {
      connection.readCallback == null || connection.readCallback == this
    }

    ghost function State(): Reader
      reads this, connection
    {
      Reader(connection.unread, connection.readCallback != null, readFrameInfoQueue, cachedFrames, timeoutTimer,
             reactions, connection.arrived, taken, accepted, dropped, delivered, asked)
    }

    constructor (connection: NearbyConnectionImpl, reactions: seq<seq<Request>>)
      requires connection.unread == [] && connection.readCallback == null && connection.arrived == []
      ensures this.connection == connection && Valid() && State() == Start(reactions)
    {
      this.connection, this.reactions := connection, reactions;
      readFrameInfoQueue, cachedFrames, timeoutTimer := [], [], false;
      taken, accepted, dropped, delivered, asked := [], [], [], [], [];
    }

    // Both overloads of ReadFrame come here.
    method ProcessReadRequest(request: Request)
      requires Valid()
      modifies this, connection
      ensures Valid() && State() == ReadFrame(old(State()), request)
      decreases Work(State()), 4
    {
      if readFrameInfoQueue != [] {
        readFrameInfoQueue := readFrameInfoQueue + [request];
        return;
      }
      var cached := PopCachedFrame(request);
      if cached.Some? {
        delivered, asked := delivered + [cached.value], asked + [request.frameType];
        RunCallback();
        return;
      }
      readFrameInfoQueue := readFrameInfoQueue + [request];
      assert readFrameInfoQueue == [request];
      if request.timeout != 0 {
        timeoutTimer := true;
      }
      ReadNextFrame();
    }

    // The caller's code, run synchronously from inside one of its callbacks.
    method RunCallback()
      requires Valid()
      modifies this, connection
      ensures Valid() && State() == Callback(old(State()))
      decreases Work(State()), 1
    {
      if reactions != [] {
        var requests := reactions[0];
        reactions := reactions[1..];
        for i := 0 to |requests|
          invariant Valid() && Work(State()) < old(Work(State()))
          invariant IssueAll(State(), requests[i..]) == Callback(old(State()))
        {
          ProcessReadRequest(requests[i]);
        }
      }
    }

    method ReadNextFrame()
      requires Valid()
      modifies this, connection
      ensures Valid() && State() == ReadNext(old(State()))
      decreases Work(State()), 3
    {
      connection.Read(this);
    }

    method OnDataReadFromConnection(bytes: Message)
      requires Valid()
      modifies this, connection
      ensures Valid() && State() == OnData(old(State()), bytes)
      decreases Work(State()), 6
    {
      if bytes.Undecodable? {
        ReadNextFrame();
        return;
      }
      var frame := bytes.frame;
      if readFrameInfoQueue == [] {
        taken, dropped := taken + [frame], dropped + [frame];
        return;
      }
      var info := readFrameInfoQueue[0];
      if info.frameType.Some? && info.frameType.value != frame.frameType {
        cachedFrames := cachedFrames + [frame];
        taken, accepted := taken + [frame], accepted + [frame];
        ReadNextFrame();
        return;
      }
      Finish(frame);
    }

    // Done in the source.
    method Finish(frame: Frame)
      requires Valid() && readFrameInfoQueue != []
      modifies this, connection
      ensures Valid() && State() == Done(old(State()), frame)
      decreases Work(State()), 5
    {
      timeoutTimer := false;
      var info := readFrameInfoQueue[0];
      readFrameInfoQueue := readFrameInfoQueue[1..];
      taken, accepted := taken + [frame], accepted + [frame];
      delivered, asked := delivered + [frame], asked + [info.frameType];
      RunCallback();
      if readFrameInfoQueue == [] {
        return;
      }
      info := readFrameInfoQueue[0];
      readFrameInfoQueue := readFrameInfoQueue[1..];
      if info.timeout != 0 {
        ProcessReadRequest(info);
      } else {
        ProcessReadRequest(Request(None, 0));
      }
    }

    method CloseAllPendingReads()
      requires Valid()
      modifies this, connection
      ensures Valid() && State() == FrameReader.CloseAllPendingReads(old(State()))
    {
      var queue := readFrameInfoQueue;
      readFrameInfoQueue := [];
      while queue != []
        invariant Valid()
        invariant FailAll(State(), |queue|) == FrameReader.CloseAllPendingReads(old(State()))
        decreases |queue|
      {
        queue := queue[1..];
        RunCallback();
      }
    }

    method OnTimerFired()
      requires Valid()
      modifies this, connection
      ensures Valid() && State() == OnTimeout(old(State()))
    {
      timeoutTimer := false;
      CloseAllPendingReads();
    }

    method PopCachedFrame(request: Request) returns (frame: Option<Frame>)
      modifies this`cachedFrames
      ensures var i := FirstMatch(old(cachedFrames), request);
              if i < |old(cachedFrames)| then
                frame == Some(old(cachedFrames)[i])
                && cachedFrames == old(cachedFrames)[..i] + old(cachedFrames)[i + 1..]
              else frame == None && cachedFrames == old(cachedFrames)
    {
      if cachedFrames == [] {
        return None;
      }
      if request.frameType.None? {
        frame := Some(cachedFrames[0]);
        cachedFrames := cachedFrames[1..];
        return;
      }
      var i := 0;
      while i < |cachedFrames| && cachedFrames[i].frameType != request.frameType.value
        invariant i <= |cachedFrames|
        invariant forall j :: 0 <= j < i ==> !Matches(request, cachedFrames[j])
      {
        i := i + 1;
      }
      if i == |cachedFrames| {
        return None;
      }
      frame := Some(cachedFrames[i]);
      cachedFrames := cachedFrames[..i] + cachedFrames[i + 1..];
    }
  }
}
