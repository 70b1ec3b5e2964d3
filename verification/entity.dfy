/**
 * The chat's data model: the closed set of event kinds and the event record
 * that is exchanged over the socket, persisted in the event store and
 * published to channel sinks. Every reference-typed field of the record may
 * be null, so each one is an Option here.
 */
module Entity {

  datatype Option<+T> = None | Some(value: T)

  /** The four kinds of event; the enumeration is closed. */
  datatype Type = ChatMessage | FileMessage | UserJoined | UserLeft

  /**
   * One chat event. `fileData` is the base64 text of an uploaded file and
   * `filename` its name; both are only set on inbound file messages.
   */
  datatype Event = Event(
    id: Option<string>,
    channelId: Option<string>,
    eventType: Option<Type>,
    message: Option<string>,
    nickname: Option<string>,
    filename: Option<string>,
    fileData: Option<string>)
}
