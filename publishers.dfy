/** The client's bookkeeping of the webcam streams it publishes to the media
    server: `activePublishers` (stream name to peer connection and media
    stream), `myActiveStreams` (names this client started) and
    `activeStreamStatus` (name to a status word). The WebRTC negotiation and
    the WHIP request are reduced to whether publishing succeeded. */
module Publishers {
  import opened JsValues

  /** A WebRTC peer connection; only whether it was closed matters here. */
  class PeerConnection {
    var closed: bool

    constructor ()
      ensures !closed
    {
      closed := false;
    }
  }

  /** A captured media stream; only whether its tracks were stopped matters. */
  class MediaStream {
    var tracksStopped: bool

    constructor ()
      ensures !tracksStopped
    {
      tracksStopped := false;
    }
  }

  /** The `{ pc, stream }` value stored for an active stream. */
  datatype Publisher = Publisher(pc: PeerConnection, stream: MediaStream)

  /** The three collections together. */
  datatype Books = Books(active: map<string, Publisher>, mine: set<string>, status: map<string, string>)

  /** What the updates below keep: every active stream is one of ours, and
      every stream of ours has a status. */
  predicate BooksValid(b: Books) {
    b.active.Keys <= b.mine && b.mine <= b.status.Keys
  }

  /** A successful publish: the stream is stored, marked ours and
      "connected". */
  function Published(b: Books, name: string, p: Publisher): (b': Books)
    ensures BooksValid(b) ==> BooksValid(b')
    ensures name in b'.active && b'.active[name] == p && name in b'.mine && name in b'.status && b'.status[name] == "connected"
    ensures forall n :: n != name ==> (n in b'.active <==> n in b.active) && (n in b'.mine <==> n in b.mine)
  {
    Books(b.active[name := p], b.mine + {name}, b.status[name := "connected"])
  }

  /** A failed publish only records the status "error". */
  function PublishFailed(b: Books, name: string): (b': Books)
    ensures BooksValid(b) ==> BooksValid(b')
    ensures b'.active == b.active && b'.mine == b.mine && name in b'.status && b'.status[name] == "error"
  {
    b.(status := b.status[name := "error"])
  }

  /** Whether an ICE connection state schedules a reconnect. */
  predicate SchedulesReconnect(state: string) {
    state == "failed" || state == "disconnected"
  }

  /** The status an ICE connection state leaves: "failed" for a failed or
      disconnected connection, otherwise the state itself. */
  function IceUpdated(b: Books, name: string, state: string): (b': Books)
    ensures BooksValid(b) ==> BooksValid(b')
    ensures b'.active == b.active && b'.mine == b.mine
    ensures name in b'.status && b'.status[name] == (if SchedulesReconnect(state) then "failed" else state)
    ensures forall n :: n != name && n in b.status ==> n in b'.status && b'.status[n] == b.status[n]
  {
    b.(status := b.status[name := if SchedulesReconnect(state) then "failed" else state])
  }

  /** `stopPublishing(name)`: an active stream leaves all three collections;
      any other name changes nothing. */
  function Stopped(b: Books, name: string): (b': Books)
    ensures BooksValid(b) ==> BooksValid(b')
    ensures name !in b.active ==> b' == b
    ensures name in b.active ==>
      name !in b'.active && name !in b'.mine && name !in b'.status
      && b'.active.Keys == b.active.Keys - {name} && b'.mine == b.mine - {name}
      && b'.status.Keys == b.status.Keys - {name}
  {
    if name in b.active then Books(b.active - {name}, b.mine - {name}, b.status - {name})
    else b
  }

  /** `republishStream` before it publishes again: the old connection (if
      any) is dropped from `activePublishers` only. */
  function Dropped(b: Books, name: string): (b': Books)
    ensures BooksValid(b) ==> BooksValid(b')
    ensures name !in b'.active && b'.mine == b.mine && b'.status == b.status
  {
    b.(active := b.active - {name})
  }

  /** A republish that failed: the connection is gone, the status is
      "reconnect_failed" and the name is still one of ours. */
  function RepublishFailed(b: Books, name: string): (b': Books)
    ensures BooksValid(b) ==> BooksValid(b')
    ensures name !in b'.active && b'.mine == b.mine && name in b'.status && b'.status[name] == "reconnect_failed"
  {
    Dropped(b, name).(status := b.status[name := "reconnect_failed"])
  }

  /** Stopping is idempotent. */
  lemma StopTwice(b: Books, name: string)
    ensures Stopped(Stopped(b, name), name) == Stopped(b, name)
  {
  }

  /** A stream whose republish failed stays among "my streams" for good:
      stopping it is a no-op, so the ownership guard of `stopMyStream` keeps
      letting it through while nothing is ever stopped. */
  lemma FailedRepublishIsStranded(b: Books, name: string)
    requires BooksValid(b) && name in b.active
    ensures var b' := RepublishFailed(b, name);
      name in b'.mine && Stopped(b', name) == b'
  {
  }

  /** A publish followed by a stop removes the name everywhere, whatever the
      books held before. */
  lemma PublishThenStop(b: Books, name: string, p: Publisher)
    ensures var b' := Stopped(Published(b, name, p), name);
      name !in b'.active && name !in b'.mine && name !in b'.status
  {
  }

  /** How `stopMyStream` ended. */
  datatype StopResult = NoStream | NotMine | Declined | StreamStopped

  /** The publisher state of the client. */
  class StreamBooks {
    var activePublishers: map<string, Publisher>
    var myActiveStreams: set<string>
    var activeStreamStatus: map<string, string>

    function Current(): Books
      reads this`activePublishers, this`myActiveStreams, this`activeStreamStatus
    {
      Books(activePublishers, myActiveStreams, activeStreamStatus)
    }

    predicate Valid()
      reads this`activePublishers, this`myActiveStreams, this`activeStreamStatus
    {
      BooksValid(Current())
    }

    /** The peer connection stored under a name, as a set for frames. */
    function PcAt(name: string): set<PeerConnection>
      reads this`activePublishers
    {
      if name in activePublishers then {activePublishers[name].pc} else {}
    }

    /** The media stream stored under a name, as a set for frames. */
    function StreamAt(name: string): set<MediaStream>
      reads this`activePublishers
    {
      if name in activePublishers then {activePublishers[name].stream} else {}
    }

    constructor ()
      ensures Valid() && activePublishers == map[] && myActiveStreams == {} && activeStreamStatus == map[]
    {
      activePublishers := map[];
      myActiveStreams := {};
      activeStreamStatus := map[];
    }

    /** `getStreamStatus(name)`: the status, or "unknown" when there is none
        or it is the (falsy) empty string. */
    function GetStreamStatus(name: string): (s: string)
      reads this`activeStreamStatus
      ensures s != ""
      ensures name in activeStreamStatus && activeStreamStatus[name] != "" ==> s == activeStreamStatus[name]
      ensures name !in activeStreamStatus ==> s == "unknown"
    {
      if name in activeStreamStatus && activeStreamStatus[name] != "" then activeStreamStatus[name] else "unknown"
    }

    /** `publishStreamToMediaMTX(stream, name)`: a new peer connection is
        made; when the WHIP exchange succeeds (`ok`) it is stored with the
        stream and true is returned, otherwise the status becomes "error" and
        the error is rethrown. */
    method Publish(stream: MediaStream, name: string, ok: bool) returns (r: Outcome<bool>)
      requires Valid()
      modifies this`activePublishers, this`myActiveStreams, this`activeStreamStatus
      ensures Valid()
      ensures ok ==> (r == Returned(true) && name in activePublishers
        && activePublishers[name].stream == stream && fresh(activePublishers[name].pc)
        && !activePublishers[name].pc.closed
        && Current() == Published(old(Current()), name, activePublishers[name]))
      ensures !ok ==> r.Threw? && Current() == PublishFailed(old(Current()), name)
    {
      var pc := new PeerConnection();
      if !ok {
        activeStreamStatus := activeStreamStatus[name := "error"];
        return Threw("WHIP request failed");
      }
      activePublishers := activePublishers[name := Publisher(pc, stream)];
      myActiveStreams := myActiveStreams + {name};
      activeStreamStatus := activeStreamStatus[name := "connected"];
      r := Returned(true);
    }

    /** The `oniceconnectionstatechange` handler of the connection published
        under `name`; returns whether a reconnect timer was started. */
    method IceStateChanged(name: string, state: string) returns (reconnect: bool)
      requires Valid()
      modifies this`activeStreamStatus
      ensures Valid()
      ensures reconnect <==> SchedulesReconnect(state)
      ensures Current() == IceUpdated(old(Current()), name, state)
    {
      activeStreamStatus := activeStreamStatus[name := state];
      reconnect := false;
      if state == "failed" || state == "disconnected" {
        activeStreamStatus := activeStreamStatus[name := "failed"];
        reconnect := true;
      } else if state == "connected" {
        activeStreamStatus := activeStreamStatus[name := "connected"];
      }
    }

    /** `republishStream(name, stream)`: closes and drops the old connection,
        then publishes again; a failure is caught and recorded as
        "reconnect_failed". */
    method Republish(name: string, stream: MediaStream, ok: bool)
      requires Valid()
      modifies this`activePublishers, this`myActiveStreams, this`activeStreamStatus, PcAt(name)`closed
      ensures Valid()
      ensures forall p | p in old(PcAt(name)) :: p.closed
      ensures ok ==> (name in activePublishers && activePublishers[name].stream == stream
        && fresh(activePublishers[name].pc)
        && Current() == Published(Dropped(old(Current()), name), name, activePublishers[name]))
      ensures !ok ==> Current() == RepublishFailed(old(Current()), name)
    {
      if name in activePublishers {
        var pc := activePublishers[name].pc;
        pc.closed := true;
        activePublishers := activePublishers - {name};
      }
      ghost var dropped := Current();
      assert dropped == Dropped(old(Current()), name);
      var r := Publish(stream, name, ok);
      if r.Threw? {
        assert Current() == PublishFailed(dropped, name);
        activeStreamStatus := activeStreamStatus[name := "reconnect_failed"];
      }
    }

    /** The 3-second reconnect timer: it republishes only while the stream is
        still in `activePublishers`; returns whether it did. */
    method ReconnectFired(name: string, stream: MediaStream, ok: bool) returns (attempted: bool)
      requires Valid()
      modifies this`activePublishers, this`myActiveStreams, this`activeStreamStatus, PcAt(name)`closed
      ensures Valid()
      ensures attempted <==> name in old(activePublishers)
      ensures !attempted ==> Current() == old(Current())
      ensures attempted && !ok ==> Current() == RepublishFailed(old(Current()), name)
      ensures attempted && ok ==> (name in activePublishers && activePublishers[name].stream == stream
        && Current() == Published(old(Current()), name, activePublishers[name]))
    {
      attempted := name in activePublishers;
      if attempted {
        Republish(name, stream, ok);
        if ok {
          assert Published(Dropped(old(Current()), name), name, activePublishers[name])
            == Published(old(Current()), name, activePublishers[name]);
        }
      }
    }

    /** `stopPublishing(name)`: for an active stream, stops its tracks,
        closes its connection and removes the name from all three
        collections; otherwise nothing happens. */
    method StopPublishing(name: string)
      requires Valid()
      modifies this`activePublishers, this`myActiveStreams, this`activeStreamStatus
      modifies PcAt(name)`closed, StreamAt(name)`tracksStopped
      ensures Valid()
      ensures Current() == Stopped(old(Current()), name)
      ensures forall p | p in old(PcAt(name)) :: p.closed
      ensures forall s | s in old(StreamAt(name)) :: s.tracksStopped
    {
      if name in activePublishers {
        var pub := activePublishers[name];
        pub.stream.tracksStopped := true;
        pub.pc.closed := true;
        activePublishers := activePublishers - {name};
        myActiveStreams := myActiveStreams - {name};
        activeStreamStatus := activeStreamStatus - {name};
      }
    }

    /** `stopMyStream(unit)` on the unit's `streamName`: no name, or a name
        this client did not start, is refused; otherwise, once the user
        confirms, the stream is stopped. */
    method StopMyStream(streamName: JsValue, confirmed: bool) returns (r: StopResult)
      requires Valid()
      modifies this`activePublishers, this`myActiveStreams, this`activeStreamStatus
      modifies StreamAtValue(streamName)`tracksStopped, PcAtValue(streamName)`closed
      ensures Valid()
      ensures r == NoStream <==> !Truthy(streamName)
      ensures r == NotMine <==> Truthy(streamName) && !(streamName.Str? && streamName.s in old(myActiveStreams))
      ensures r == Declined <==> Truthy(streamName) && streamName.Str? && streamName.s in old(myActiveStreams) && !confirmed
      ensures r != StreamStopped ==> Current() == old(Current())
      ensures r == StreamStopped ==> Current() == Stopped(old(Current()), streamName.s)
    {
      if !Truthy(streamName) {
        return NoStream;
      }
      if !streamName.Str? || streamName.s !in myActiveStreams {
        return NotMine;
      }
      if !confirmed {
        return Declined;
      }
      StopPublishing(streamName.s);
      r := StreamStopped;
    }

    function PcAtValue(v: JsValue): set<PeerConnection>
      reads this`activePublishers
    {
      if v.Str? then PcAt(v.s) else {}
    }

    function StreamAtValue(v: JsValue): set<MediaStream>
      reads this`activePublishers
    {
      if v.Str? then StreamAt(v.s) else {}
    }
  }
}
