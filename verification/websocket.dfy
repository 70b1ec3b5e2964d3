/**
 * The socket handler of one connection: it binds the connection to the
 * channel named in the handshake query, registers that channel's sink,
 * routes every inbound event (file messages to file ingestion, every other
 * kind to the dispatcher under the connection's channel) and forwards to
 * the client the events of the channel's sink that carry its channel id.
 *
 * The inbound and outbound flows run concurrently in the source; here the
 * outbound subscription is taken right after the sink is registered and the
 * inbound frames are then handled one after another.
 */
module WebSocket {
  import opened Entity
  import opened Service
  import opened ChannelQuery

  /**
   * One inbound text frame together with the replies the foreign stores give
   * while it is handled. `payload` is `None` when the text does not decode to
   * an event.
   */
  datatype Frame = Frame(payload: Option<Event>, blob: BlobReply, saved: bool)

  /** How a connection ended up: its channel, how many frames were handled, what it was sent. */
  datatype Session = Session(channelId: string, handled: nat, delivered: seq<Event>)

  predicate IsFile(e: Event) {
    e.eventType == Some(FileMessage)
  }

  /** Handling the frame throws (bad JSON, or a file payload that does not decode), ending the inbound flow. */
  predicate Fails(f: Frame, decode: string -> Option<seq<bv8>>) {
    f.payload.None? || (IsFile(f.payload.value) && DecodeFileData(f.payload.value.fileData, decode).None?)
  }

  predicate AllHandled(frames: seq<Frame>, decode: string -> Option<seq<bv8>>) {
    forall j :: 0 <= j < |frames| ==> !Fails(frames[j], decode)
  }

  /** What one frame does on a connection bound to `c`: file messages to ingestion, the rest to the dispatcher. */
  function Route(s: Snapshot, c: string, f: Frame, decode: string -> Option<seq<bv8>>): Snapshot
    requires !Fails(f, decode)
  {
    var e := f.payload.value;
    if IsFile(e) then AfterFileMessage(s, e, DecodeFileData(e.fileData, decode).value, f.blob, f.saved)
    else AfterProcessEvent(s, e, c, f.saved)
  }

  /** The state after the frames are handled in order on a connection bound to `c`. */
  function Receive(s: Snapshot, c: string, frames: seq<Frame>, decode: string -> Option<seq<bv8>>): Snapshot
    requires AllHandled(frames, decode)
    decreases |frames|
  {
    if frames == [] then s
    else
      var n := |frames| - 1;
      assert AllHandled(frames[..n], decode) by {
        forall j | 0 <= j < n ensures !Fails(frames[..n][j], decode) {
          assert frames[..n][j] == frames[j];
        }
      }
      Route(Receive(s, c, frames[..n], decode), c, frames[n], decode)
  }

  // ---------------------------------------------------------------------------
  // Per-frame effects, as a reference for the fold above

  /** The event a frame makes the service emit and save: stamped, or the file event as ingested. */
  function Routed(c: string, f: Frame): Event
    requires f.payload.Some?
  {
    var e := f.payload.value;
    if IsFile(e) then FileResult(e, f.blob) else Stamp(e, c)
  }

  /** The channel whose sink a frame's event is emitted to: the connection's, or a file event's own. */
  function Target(c: string, f: Frame): Option<string> {
    match f.payload
    case None => None
    case Some(e) => if IsFile(e) then e.channelId else Some(c)
  }

  /** Whether a frame's event is saved to the event store. */
  predicate Saves(f: Frame) {
    match f.payload
    case None => false
    case Some(e) => if IsFile(e) then f.blob.Stored? && f.saved else IsPersisted(e.eventType) && f.saved
  }

  /** The events the frames emit to the sink of channel `d`, in frame order. */
  function PublishedTo(d: string, c: string, frames: seq<Frame>): seq<Event> {
    if frames == [] then []
    else
      var f := frames[|frames| - 1];
      PublishedTo(d, c, frames[..|frames| - 1]) + (if Target(c, f) == Some(d) then [Routed(c, f)] else [])
  }

  /** The events the frames save to the event store, in frame order. */
  function SavedBy(c: string, frames: seq<Frame>): seq<Event> {
    if frames == [] then []
    else
      var f := frames[|frames| - 1];
      SavedBy(c, frames[..|frames| - 1]) + (if Saves(f) then [Routed(c, f)] else [])
  }

  lemma RouteEffect(s: Snapshot, c: string, f: Frame, decode: string -> Option<seq<bv8>>)
    requires !Fails(f, decode)
    ensures var t := Route(s, c, f, decode);
            && t.store == s.store + (if Saves(f) then [Routed(c, f)] else [])
            && t.sinks.Keys == s.sinks.Keys
            && (forall d :: d in s.sinks ==>
                  t.sinks[d] == s.sinks[d] + (if Target(c, f) == Some(d) then [Routed(c, f)] else []))
            && (Isolated(s.sinks) ==> Isolated(t.sinks))
  {
    var e := f.payload.value;
    if IsFile(e) {
      if Isolated(s.sinks) {
        OperationsKeepSinksIsolated(s, e, c, DecodeFileData(e.fileData, decode).value, f.blob, f.saved);
      }
    } else {
      if Isolated(s.sinks) {
        OperationsKeepSinksIsolated(s, e, c, [], f.blob, f.saved);
      }
    }
  }

  /**
   * Handling frames appends exactly the saved events to the store, in frame
   * order, registers no sink, appends to every registered sink exactly the
   * events targeted at its channel, in frame order, and keeps sinks isolated.
   */
  lemma {:induction false} ReceiveEffect(s: Snapshot, c: string, frames: seq<Frame>, decode: string -> Option<seq<bv8>>)
    requires AllHandled(frames, decode)
    ensures var t := Receive(s, c, frames, decode);
            && t.store == s.store + SavedBy(c, frames)
            && t.sinks.Keys == s.sinks.Keys
            && (forall d :: d in s.sinks ==> t.sinks[d] == s.sinks[d] + PublishedTo(d, c, frames))
            && (Isolated(s.sinks) ==> Isolated(t.sinks))
  {
    if frames != [] {
      var n := |frames| - 1;
      var init, f := frames[..n], frames[n];
      assert AllHandled(init, decode) by {
        forall j | 0 <= j < n ensures !Fails(init[j], decode) {
          assert init[j] == frames[j];
        }
      }
      ReceiveEffect(s, c, init, decode);
      var m := Receive(s, c, init, decode);
      RouteEffect(m, c, f, decode);
    }
  }

  /** The id under which a frame's file is stored, if it is a file message the blob store accepts. */
  function StoredId(f: Frame): Option<string> {
    if f.payload.Some? && IsFile(f.payload.value) && f.blob.Stored? then Some(f.blob.fileId) else None
  }

  /** The ids the frames store files under. */
  function IdsOf(frames: seq<Frame>): (r: set<string>)
    ensures forall j :: 0 <= j < |frames| && StoredId(frames[j]).Some? ==> StoredId(frames[j]).value in r
    ensures forall id :: id in r ==> exists j :: 0 <= j < |frames| && StoredId(frames[j]) == Some(id)
  {
    if frames == [] then {}
    else
      var n := |frames| - 1;
      var init := frames[..n];
      assert forall j :: 0 <= j < n ==> init[j] == frames[j];
      IdsOf(init) + (match StoredId(frames[n]) case Some(id) => {id} case None => {})
  }

  /**
   * The blob store hands out ids it has never handed out before: each stored
   * frame's id is neither in `known` nor the id of an earlier frame.
   */
  predicate FreshIds(frames: seq<Frame>, known: set<string>) {
    if frames == [] then true
    else
      var init := frames[..|frames| - 1];
      && FreshIds(init, known)
      && (StoredId(frames[|frames| - 1]).Some? ==> StoredId(frames[|frames| - 1]).value !in known + IdsOf(init))
  }

  /**
   * With fresh ids, handling frames keeps every file stored before, adds a
   * file under each stored frame's id and no other, and each of those files
   * holds its frame's decoded bytes and filename at the end.
   */
  lemma {:induction false} ReceiveKeepsFiles(s: Snapshot, c: string, frames: seq<Frame>, decode: string -> Option<seq<bv8>>)
    requires AllHandled(frames, decode)
    requires FreshIds(frames, s.blobs.Keys)
    ensures var t := Receive(s, c, frames, decode);
            && t.blobs.Keys == s.blobs.Keys + IdsOf(frames)
            && (forall g :: g in s.blobs ==> t.blobs[g] == s.blobs[g])
            && (forall j :: 0 <= j < |frames| && StoredId(frames[j]).Some? ==>
                  var e := frames[j].payload.value;
                  t.blobs[StoredId(frames[j]).value] == Blob(DecodeFileData(e.fileData, decode).value, e.filename))
  {
    if frames != [] {
      var n := |frames| - 1;
      var init, f := frames[..n], frames[n];
      assert AllHandled(init, decode) by {
        forall j | 0 <= j < n ensures !Fails(init[j], decode) {
          assert init[j] == frames[j];
        }
      }
      ReceiveKeepsFiles(s, c, init, decode);
      var m := Receive(s, c, init, decode);
      var t := Route(m, c, f, decode);
      assert t == Receive(s, c, frames, decode);
      forall j | 0 <= j < |frames| && StoredId(frames[j]).Some?
        ensures var e := frames[j].payload.value;
                t.blobs[StoredId(frames[j]).value] == Blob(DecodeFileData(e.fileData, decode).value, e.filename)
      {
        if j < n {
          assert init[j] == frames[j];
          assert StoredId(f).Some? ==> StoredId(f).value != StoredId(frames[j]).value;
        }
      }
    }
  }

  /** Every non-file event a connection sends comes back on its own channel's sink, stamped. */
  lemma {:induction false} OwnEventsEchoed(c: string, frames: seq<Frame>, j: nat)
    requires j < |frames| && frames[j].payload.Some? && !IsFile(frames[j].payload.value)
    ensures Stamp(frames[j].payload.value, c) in PublishedTo(c, c, frames)
  {
    var n := |frames| - 1;
    if j < n {
      assert frames[..n][j] == frames[j];
      OwnEventsEchoed(c, frames[..n], j);
    }
  }

  /**
   * A file message is emitted to the sink of the channel id it arrived with,
   * not to the connection's: with another channel id it never reaches the
   * connection that sent it.
   */
  lemma FileFrameFollowsItsOwnChannel(c: string, d: string, f: Frame)
    requires f.payload.Some? && IsFile(f.payload.value) && f.payload.value.channelId == Some(d) && d != c
    ensures PublishedTo(c, c, [f]) == []
    ensures PublishedTo(d, c, [f]) == [FileResult(f.payload.value, f.blob)]
  {
    assert [f][..0] == [];
  }

  /** Well-formed chat messages whose saves succeed are all handled, and each is saved stamped, in order. */
  lemma {:induction false} ChatFramesAllSaved(c: string, frames: seq<Frame>, decode: string -> Option<seq<bv8>>)
    requires forall j :: 0 <= j < |frames| ==>
               frames[j].payload.Some? && frames[j].payload.value.eventType == Some(ChatMessage) && frames[j].saved
    ensures AllHandled(frames, decode)
    ensures |SavedBy(c, frames)| == |frames|
    ensures forall j :: 0 <= j < |frames| ==> SavedBy(c, frames)[j] == Stamp(frames[j].payload.value, c)
  {
    if frames != [] {
      var n := |frames| - 1;
      forall j | 0 <= j < n ensures frames[..n][j] == frames[j] { }
      ChatFramesAllSaved(c, frames[..n], decode);
    }
  }

  /** Five chat messages sent on one connection leave five events in the store. */
  lemma FiveChatMessagesStored(s: Snapshot, c: string, frames: seq<Frame>, decode: string -> Option<seq<bv8>>)
    requires |frames| == 5
    requires forall j :: 0 <= j < |frames| ==>
               frames[j].payload.Some? && frames[j].payload.value.eventType == Some(ChatMessage) && frames[j].saved
    ensures AllHandled(frames, decode)
    ensures |Receive(s, c, frames, decode).store| == |s.store| + 5
  {
    ChatFramesAllSaved(c, frames, decode);
    ReceiveEffect(s, c, frames, decode);
  }

  // ---------------------------------------------------------------------------
  // The outbound filter

  /**
   * The outbound flow: the events of the sink whose channel id equals `c`, in
   * sink order. An event without a channel id makes `equals` throw, which
   * ends the flow.
   */
  function Outbound(emitted: seq<Event>, c: string): (r: seq<Event>)
    ensures forall e :: e in r ==> e in emitted && e.channelId == Some(c)
    ensures |r| <= |emitted|
  {
    if emitted == [] then []
    else if emitted[0].channelId.None? then []
    else (if emitted[0].channelId == Some(c) then [emitted[0]] else []) + Outbound(emitted[1..], c)
  }

  /** When every event has a channel id, nothing of channel `c` is held back. */
  lemma {:induction false} OutboundComplete(emitted: seq<Event>, c: string)
    requires forall k :: 0 <= k < |emitted| ==> emitted[k].channelId.Some?
    ensures forall e :: e in emitted && e.channelId == Some(c) ==> e in Outbound(emitted, c)
  {
    if emitted != [] {
      OutboundComplete(emitted[1..], c);
      assert forall e :: e in emitted ==> e == emitted[0] || e in emitted[1..];
    }
  }

  /** Filtering distributes over emissions that arrive later. */
  lemma {:induction false} OutboundAppend(a: seq<Event>, b: seq<Event>, c: string)
    requires forall k :: 0 <= k < |a| ==> a[k].channelId.Some?
    ensures Outbound(a + b, c) == Outbound(a, c) + Outbound(b, c)
  {
    if a == [] {
      assert a + b == b;
    } else {
      var head := if a[0].channelId == Some(c) then [a[0]] else [];
      assert (a + b)[0] == a[0];
      assert (a + b)[1..] == a[1..] + b;
      assert Outbound(a + b, c) == head + Outbound(a[1..] + b, c);
      assert Outbound(a, c) == head + Outbound(a[1..], c);
      OutboundAppend(a[1..], b, c);
      assert head + (Outbound(a[1..], c) + Outbound(b, c)) == (head + Outbound(a[1..], c)) + Outbound(b, c);
    }
  }

  /** On a sink that only holds events of channel `c`, the filter forwards everything. */
  lemma {:induction false} OutboundOfOwnChannel(emitted: seq<Event>, c: string)
    requires forall k :: 0 <= k < |emitted| ==> emitted[k].channelId == Some(c)
    ensures Outbound(emitted, c) == emitted
  {
    if emitted != [] {
      OutboundOfOwnChannel(emitted[1..], c);
    }
  }

  // ---------------------------------------------------------------------------
  // The connection

  /**
   * `handle`: extracts the channel (a query-less URI throws before anything
   * happens), registers the channel's sink, subscribes to it, then handles
   * the frames in order until one throws. `delivered` is what the outbound
   * flow sends once the frames are handled.
   */
  method Handle(service: ChatServiceImpl, query: Option<string>, frames: seq<Frame>) returns (session: Option<Session>)
    requires service.Valid()
    modifies service, service.channelSinks.Values
    ensures service.Valid()
    ensures query.None? ==> session.None? && service.State() == old(service.State())
    ensures query.Some? ==> session.Some?
    ensures session.Some? ==>
              var c := session.value.channelId;
              var n := session.value.handled;
              && ExtractChannelId(query) == Some(c)
              && n <= |frames|
              && AllHandled(frames[..n], service.decodeBase64)
              && (n < |frames| ==> Fails(frames[n], service.decodeBase64))
              && c in service.channelSinks
              && service.State() == Receive(AfterGetChannelSink(old(service.State()), c), c, frames[..n], service.decodeBase64)
              && session.value.delivered == PublishedTo(c, c, frames[..n])
              && (forall e :: e in session.value.delivered ==> e.channelId == Some(c))
  {
    var channelId := ExtractChannelId(query);
    if channelId.None? {
      return None;
    }
    var c := channelId.value;
    var sink := service.GetChannelSink(c);
    var start := |sink.events|;
    ghost var registered := service.State();
    var handled := ReceiveFrames(service, c, frames);

    ReceiveEffect(registered, c, frames[..handled], service.decodeBase64);
    assert sink.events == registered.sinks[c] + PublishedTo(c, c, frames[..handled]);
    assert sink.events[start..] == PublishedTo(c, c, frames[..handled]);
    OutboundOfOwnChannel(sink.events[start..], c);
    session := Some(Session(c, handled, Outbound(sink.events[start..], c)));
  }

  /**
   * The inbound flow: each frame is decoded and routed, a file message to
   * `handleFileMessage` with its channel id as sent, any other event to
   * `processEvent` under the connection's channel; the first frame that
   * throws ends the flow.
   */
  method ReceiveFrames(service: ChatServiceImpl, c: string, frames: seq<Frame>) returns (handled: nat)
    requires service.Valid()
    modifies service, service.channelSinks.Values
    ensures service.Valid()
    ensures service.channelSinks == old(service.channelSinks)
    ensures handled <= |frames|
    ensures AllHandled(frames[..handled], service.decodeBase64)
    ensures handled < |frames| ==> Fails(frames[handled], service.decodeBase64)
    ensures service.State() == Receive(old(service.State()), c, frames[..handled], service.decodeBase64)
  {
    ghost var before := service.State();
    ghost var decode := service.decodeBase64;
    handled := 0;
    while handled < |frames|
      invariant handled <= |frames|
      invariant service.Valid()
      invariant service.channelSinks == old(service.channelSinks)
      invariant AllHandled(frames[..handled], decode)
      invariant service.State() == Receive(before, c, frames[..handled], decode)
    {
      var f := frames[handled];
      if f.payload.None? {
        break;
      }
      var event := f.payload.value;
      if event.eventType == Some(FileMessage) {
        var outcome := service.HandleFileMessage(event, f.blob, f.saved);
        if outcome.None? {
          break;
        }
      } else {
        var _ := service.ProcessEvent(event, c, f.saved);
      }
      assert frames[..handled + 1][..handled] == frames[..handled];
      handled := handled + 1;
    }
  }
}
