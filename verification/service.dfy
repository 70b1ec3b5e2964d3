/**
 * The chat service: a registry of one multicast sink per channel, the
 * dispatcher that stamps, persists and publishes events, and the file
 * ingestion that moves an uploaded file into the blob store.
 *
 * Each sink is modelled by the sequence of events emitted to it so far; a
 * subscriber sees the suffix emitted after it subscribed. The event
 * repository is an append-only sequence and the blob store a map from file
 * id to stored file. Both are foreign stores: whether a save succeeds, and
 * which id the blob store assigns, are inputs of the operations that use them.
 */
module Service {
  import opened Entity

  /** A stored file: its bytes and the filename it was stored under. */
  datatype Blob = Blob(bytes: seq<bv8>, filename: Option<string>)

  /** The reply of the blob store to one store request. */
  datatype BlobReply = Stored(fileId: string) | StoreFailed

  /** What the service has done so far: every sink's emissions, the event store, the blob store. */
  datatype Snapshot = Snapshot(sinks: map<string, seq<Event>>, store: seq<Event>, blobs: map<string, Blob>)

  /** The download route a stored file is referenced by. */
  const DownloadPrefix: string := "/api/events/download/"

  /** The kinds the dispatcher saves to the event store. */
  predicate IsPersisted(t: Option<Type>) {
    t == Some(ChatMessage) || t == Some(UserJoined) || t == Some(UserLeft)
  }

  /** The event after `setChannelId(channelId)`. */
  function Stamp(e: Event, channelId: string): Event {
    e.(channelId := Some(channelId))
  }

  /** The file event after `setFileData(null)`, `setMessage(prefix + fileId)` and `setId(fileId)`. */
  function Referenced(e: Event, fileId: string): Event {
    e.(fileData := None, message := Some(DownloadPrefix + fileId), id := Some(fileId))
  }

  /** The file event as it is when it is emitted, depending on the blob store's reply. */
  function FileResult(e: Event, reply: BlobReply): Event {
    match reply
    case Stored(fileId) => Referenced(e, fileId)
    case StoreFailed => e
  }

  /** Emission to the sink registered for `c`; without one the event is dropped. */
  function Publish(sinks: map<string, seq<Event>>, c: string, e: Event): map<string, seq<Event>> {
    if c in sinks then sinks[c := sinks[c] + [e]] else sinks
  }

  /** Base64 decoding of the file payload; a null payload throws like malformed text. */
  function DecodeFileData(fileData: Option<string>, decode: string -> Option<seq<bv8>>): Option<seq<bv8>> {
    match fileData
    case None => None
    case Some(text) => decode(text)
  }

  /** Every event a sink has emitted carries the channel id the sink is registered under. */
  ghost predicate Isolated(sinks: map<string, seq<Event>>) {
    forall c, e :: c in sinks && e in sinks[c] ==> e.channelId == Some(c)
  }

  /** The state after `getChannelSink(c)`: a new empty sink if `c` had none. */
  function AfterGetChannelSink(s: Snapshot, c: string): Snapshot {
    if c in s.sinks then s else s.(sinks := s.sinks[c := []])
  }

  /** The state after `processEvent(e, c)`, where `saved` tells whether the repository's save succeeds. */
  function AfterProcessEvent(s: Snapshot, e: Event, c: string, saved: bool): Snapshot {
    var stamped := Stamp(e, c);
    Snapshot(
      Publish(s.sinks, c, stamped),
      if IsPersisted(e.eventType) && saved then s.store + [stamped] else s.store,
      s.blobs)
  }

  /**
   * The state after `handleFileMessage(e)` once its payload decoded to
   * `bytes`: the blob store answers `reply`, the save of the rewritten event
   * succeeds when `saved`, and the event is emitted to the sink of its own
   * channel id whatever the outcome.
   */
  function AfterFileMessage(s: Snapshot, e: Event, bytes: seq<bv8>, reply: BlobReply, saved: bool): Snapshot {
    var out := FileResult(e, reply);
    Snapshot(
      if e.channelId.Some? then Publish(s.sinks, e.channelId.value, out) else s.sinks,
      if reply.Stored? && saved then s.store + [out] else s.store,
      if reply.Stored? then s.blobs[reply.fileId := Blob(bytes, e.filename)] else s.blobs)
  }

  /** The events of the store whose channel id is `c`, in store order. */
  function History(store: seq<Event>, c: string): (r: seq<Event>)
    ensures forall e :: e in r <==> e in store && e.channelId == Some(c)
    ensures |r| <= |store|
  {
    if store == [] then []
    else History(store[..|store| - 1], c)
         + (if store[|store| - 1].channelId == Some(c) then [store[|store| - 1]] else [])
  }

  // ---------------------------------------------------------------------------
  // Properties of the operations

  /**
   * `processEvent` stamps the channel, saves exactly the persisted kinds (a
   * file message never), and publishes only to an already registered sink,
   * leaving every other sink as it was.
   */
  lemma ProcessEventEffect(s: Snapshot, e: Event, c: string, saved: bool)
    ensures var t := AfterProcessEvent(s, e, c, saved);
            && Stamp(e, c).channelId == Some(c)
            && Stamp(e, c).(channelId := e.channelId) == e
            && (t.store == s.store + [Stamp(e, c)] <==> IsPersisted(e.eventType) && saved)
            && (t.store == s.store <==> !(IsPersisted(e.eventType) && saved))
            && (e.eventType == Some(FileMessage) ==> t.store == s.store)
            && (c !in s.sinks ==> t.sinks == s.sinks)
            && (c in s.sinks ==> t.sinks == s.sinks[c := s.sinks[c] + [Stamp(e, c)]])
            && t.sinks.Keys == s.sinks.Keys
            && t.blobs == s.blobs
  {
  }

  /** Two events processed on one channel end up in the store and in the sink in call order. */
  lemma ProcessEventTwiceKeepsOrder(s: Snapshot, e1: Event, e2: Event, c: string)
    requires IsPersisted(e1.eventType) && IsPersisted(e2.eventType)
    ensures var t := AfterProcessEvent(AfterProcessEvent(s, e1, c, true), e2, c, true);
            && t.store == s.store + [Stamp(e1, c), Stamp(e2, c)]
            && History(t.store, c) == History(s.store, c) + [Stamp(e1, c), Stamp(e2, c)]
            && (c in s.sinks ==> t.sinks[c] == s.sinks[c] + [Stamp(e1, c), Stamp(e2, c)])
  {
    var t1 := AfterProcessEvent(s, e1, c, true);
    var t := AfterProcessEvent(t1, e2, c, true);
    assert t1.store == s.store + [Stamp(e1, c)];
    assert t.store[..|t.store| - 1] == t1.store;
    assert t1.store[..|t1.store| - 1] == s.store;
  }

  /** `getChannelSink` registers at most one sink per channel and touches no other entry. */
  lemma GetChannelSinkOnce(s: Snapshot, c: string)
    ensures var t := AfterGetChannelSink(s, c);
            && c in t.sinks
            && t.sinks.Keys == s.sinks.Keys + {c}
            && (c in s.sinks ==> t == s)
            && (c !in s.sinks ==> t.sinks[c] == [])
            && (forall d :: d in s.sinks ==> t.sinks[d] == s.sinks[d])
            && t.store == s.store && t.blobs == s.blobs
            && AfterGetChannelSink(t, c) == t
  {
  }

  /**
   * A file message whose file is stored under `f` is rewritten to reference
   * the download route, keeps its channel, kind, nickname and filename, is
   * saved when the save succeeds, and the stored file holds the decoded bytes.
   * When `f` is a new id, as the blob store's generated ids are, every file
   * stored earlier is kept as it was.
   */
  lemma FileMessageStored(s: Snapshot, e: Event, bytes: seq<bv8>, f: string, saved: bool)
    ensures var out := FileResult(e, Stored(f));
            var t := AfterFileMessage(s, e, bytes, Stored(f), saved);
            && out.fileData == None
            && out.message == Some(DownloadPrefix + f)
            && out.id == Some(f)
            && out.channelId == e.channelId && out.eventType == e.eventType
            && out.nickname == e.nickname && out.filename == e.filename
            && t.blobs == s.blobs[f := Blob(bytes, e.filename)]
            && (t.store == s.store + [out] <==> saved)
            && (e.channelId.Some? ==> t.sinks == Publish(s.sinks, e.channelId.value, out))
            && (f !in s.blobs ==>
                  && t.blobs.Keys == s.blobs.Keys + {f}
                  && forall g :: g in s.blobs ==> t.blobs[g] == s.blobs[g])
  {
  }

  /** When the blob store fails, nothing is stored and the event is still emitted as it arrived. */
  lemma FileMessageStoreFailed(s: Snapshot, e: Event, bytes: seq<bv8>, saved: bool)
    ensures var t := AfterFileMessage(s, e, bytes, StoreFailed, saved);
            && t.store == s.store && t.blobs == s.blobs
            && (e.channelId.Some? ==> t.sinks == Publish(s.sinks, e.channelId.value, e))
            && (e.channelId.None? ==> t.sinks == s.sinks)
  {
  }

  /** No operation makes a sink emit an event of another channel. */
  lemma {:induction false} OperationsKeepSinksIsolated(s: Snapshot, e: Event, c: string, bytes: seq<bv8>, reply: BlobReply, saved: bool)
    requires Isolated(s.sinks)
    ensures Isolated(AfterGetChannelSink(s, c).sinks)
    ensures Isolated(AfterProcessEvent(s, e, c, saved).sinks)
    ensures Isolated(AfterFileMessage(s, e, bytes, reply, saved).sinks)
  {
    PublishKeepsIsolated(s.sinks, c, Stamp(e, c));
    if e.channelId.Some? {
      PublishKeepsIsolated(s.sinks, e.channelId.value, FileResult(e, reply));
    }
  }

  lemma PublishKeepsIsolated(sinks: map<string, seq<Event>>, c: string, e: Event)
    requires Isolated(sinks) && e.channelId == Some(c)
    ensures Isolated(Publish(sinks, c, e))
  {
    var t := Publish(sinks, c, e);
    forall d: string, x: Event | d in t && x in t[d] ensures x.channelId == Some(d) {
      if d == c && c in sinks {
        assert x in sinks[c] || x == e;
      }
    }
  }

  /** A saved event shows up at the end of its channel's history. */
  lemma {:induction false} SavedEventEndsHistory(s: Snapshot, e: Event, c: string)
    requires IsPersisted(e.eventType)
    ensures var t := AfterProcessEvent(s, e, c, true);
            History(t.store, c) == History(s.store, c) + [Stamp(e, c)]
  {
    var t := AfterProcessEvent(s, e, c, true);
    assert t.store[..|t.store| - 1] == s.store;
  }

  // ---------------------------------------------------------------------------
  // The imperative service

  /** A multicast sink, represented by every event emitted to it so far. */
  class Sink {
    var events: seq<Event>

    constructor ()
      ensures events == []
    {
      events := [];
    }

    /** `tryEmitNext`; emission to a registered sink is taken to succeed. */
    method EmitNext(e: Event)
      modifies this
      ensures events == old(events) + [e]
    {
      events := events + [e];
    }
  }

  class ChatServiceImpl {
    var channelSinks: map<string, Sink>
    var store: seq<Event>
    var blobs: map<string, Blob>
    /** The base64 decoder, an abstract partial function of the payload text. */
    const decodeBase64: string -> Option<seq<bv8>>

    ghost function Sinks(): map<string, seq<Event>>
      reads this, channelSinks.Values
    {
      map c | c in channelSinks :: channelSinks[c].events
    }

    ghost function State(): Snapshot
      reads this, channelSinks.Values
    {
      Snapshot(Sinks(), store, blobs)
    }

    /** One distinct sink per channel, and no sink holds another channel's event. */
    ghost predicate Valid()
      reads this, channelSinks.Values
    {
      && (forall c, d :: c in channelSinks && d in channelSinks && c != d ==> channelSinks[c] != channelSinks[d])
      && Isolated(Sinks())
    }

    constructor (decodeBase64: string -> Option<seq<bv8>>)
      ensures Valid()
      ensures State() == Snapshot(map[], [], map[])
      ensures this.decodeBase64 == decodeBase64
    {
      channelSinks := map[];
      store := [];
      blobs := map[];
      this.decodeBase64 := decodeBase64;
    }

    /** `computeIfAbsent`: the registered sink, or a new empty one registered under `channelId`. */
    method GetChannelSink(channelId: string) returns (sink: Sink)
      requires Valid()
      modifies this
      ensures Valid()
      ensures channelId in channelSinks && sink == channelSinks[channelId]
      ensures channelId in old(channelSinks) ==> channelSinks == old(channelSinks)
      ensures channelId !in old(channelSinks) ==> fresh(sink) && channelSinks == old(channelSinks)[channelId := sink]
      ensures State() == AfterGetChannelSink(old(State()), channelId)
    {
      if channelId in channelSinks {
        sink := channelSinks[channelId];
      } else {
        sink := new Sink();
        channelSinks := channelSinks[channelId := sink];
        assert Sinks() == old(Sinks())[channelId := []];
      }
    }

    /** Stamps the event with `channelId`, saves it if its kind is persisted, publishes it if a sink exists. */
    method ProcessEvent(event: Event, channelId: string, saved: bool) returns (stamped: Event)
      requires Valid()
      modifies this, channelSinks.Values
      ensures Valid()
      ensures channelSinks == old(channelSinks)
      ensures stamped == Stamp(event, channelId)
      ensures State() == AfterProcessEvent(old(State()), event, channelId, saved)
    {
      stamped := event.(channelId := Some(channelId));
      if event.eventType == Some(ChatMessage) || event.eventType == Some(UserJoined) || event.eventType == Some(UserLeft) {
        if saved {
          store := store + [stamped];
        }
      }
      EmitIfRegistered(channelId, stamped);
    }

    /**
     * Decodes the payload (a failure is `None`, before anything happens),
     * stores the file, rewrites and saves the event on success, and emits the
     * event to the sink of its own channel id in every case.
     */
    method HandleFileMessage(event: Event, reply: BlobReply, saved: bool) returns (outcome: Option<Event>)
      requires Valid()
      modifies this, channelSinks.Values
      ensures Valid()
      ensures channelSinks == old(channelSinks)
      ensures DecodeFileData(event.fileData, decodeBase64).None? ==> outcome.None? && State() == old(State())
      ensures DecodeFileData(event.fileData, decodeBase64).Some? ==>
                outcome == Some(FileResult(event, reply))
                && State() == AfterFileMessage(old(State()), event, DecodeFileData(event.fileData, decodeBase64).value, reply, saved)
    {
      var decoded := DecodeFileData(event.fileData, decodeBase64);
      if decoded.None? {
        return None;
      }
      var out := StoreFile(event, decoded.value, reply, saved);
      outcome := Some(out);
    }

    /** The store-rewrite-save pipeline that runs once the payload is decoded, then the emission on termination. */
    method StoreFile(event: Event, bytes: seq<bv8>, reply: BlobReply, saved: bool) returns (out: Event)
      requires Valid()
      modifies this, channelSinks.Values
      ensures Valid()
      ensures channelSinks == old(channelSinks)
      ensures out == FileResult(event, reply)
      ensures State() == AfterFileMessage(old(State()), event, bytes, reply, saved)
    {
      ghost var before := State();
      out := FileResult(event, reply);
      if reply.Stored? {
        blobs := blobs[reply.fileId := Blob(bytes, event.filename)];
        if saved {
          store := store + [out];
        }
      }
      assert Sinks() == before.sinks;
      if out.channelId.Some? {
        EmitIfRegistered(out.channelId.value, out);
        assert Sinks() == Publish(before.sinks, out.channelId.value, out);
      }
      ghost var after := AfterFileMessage(before, event, bytes, reply, saved);
      assert store == after.store && blobs == after.blobs;
    }

    /** `findByChannelId`: the channel's saved events in store order. */
    method GetMessagesByChannelId(channelId: string) returns (events: seq<Event>)
      ensures forall e :: e in events <==> e in store && e.channelId == Some(channelId)
      ensures events == History(store, channelId)
    {
      events := History(store, channelId);
    }

    /** `channelSinks.get(c)` and, when a sink is registered, `tryEmitNext(e)` on it. */
    method EmitIfRegistered(c: string, e: Event)
      requires Valid() && e.channelId == Some(c)
      modifies channelSinks.Values
      ensures Valid()
      ensures Sinks() == Publish(old(Sinks()), c, e)
    {
      PublishKeepsIsolated(Sinks(), c, e);
      if c in channelSinks {
        Emit(c, e);
      }
    }

    /** Appends `e` to the sink of `c`; every other sink keeps its emissions. */
    method Emit(c: string, e: Event)
      requires c in channelSinks
      requires forall x, y :: x in channelSinks && y in channelSinks && x != y ==> channelSinks[x] != channelSinks[y]
      modifies channelSinks[c]
      ensures Sinks() == old(Sinks())[c := old(Sinks())[c] + [e]]
    {
      var sink := channelSinks[c];
      sink.EmitNext(e);
      forall d | d in channelSinks && d != c ensures channelSinks[d].events == old(channelSinks[d].events) {
        assert channelSinks[d] != sink;
      }
    }
  }
}
