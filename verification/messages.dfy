/**
 * The parts of an inbound chat message the bot looks at, as optional
 * records, with the nil-safe getters of the protocol library: reading a
 * field through an absent record yields an absent record or `""`.
 */
module Messages {

  /**
   * A value that may be absent. In the protocol records it is a Go
   * pointer field, with `None` for nil, and the getters below spell out
   * what a nil read yields; the event loop also uses it for the exit
   * status of a run, `None` when the process never exits.
   */
  datatype Option<T> = None | Some(value: T)

  /** An image payload; `caption` is the text the sender typed under it. */
  datatype ImageMessage = ImageMessage(caption: Option<string>, url: Option<string>, mimetype: Option<string>)

  /** A video payload; an animated image (gif) is a video with `gifPlayback` set. */
  datatype VideoMessage = VideoMessage(
    caption: Option<string>, url: Option<string>, mimetype: Option<string>, gifPlayback: Option<bool>)

  /** The content of a message: at most one of each kind of payload. */
  datatype Message = Message(
    conversation: Option<string>,
    imageMessage: Option<ImageMessage>,
    videoMessage: Option<VideoMessage>,
    extendedTextMessage: Option<ExtendedTextMessage>)

  /** A text message, possibly a reply carrying the message it quotes. */
  datatype ExtendedTextMessage = ExtendedTextMessage(text: Option<string>, contextInfo: Option<ContextInfo>)

  datatype ContextInfo = ContextInfo(stanzaId: Option<string>, quotedMessage: Option<Message>)

  /** Metadata of a received message; `mediaType` tells the worker which payload to convert. */
  datatype MessageInfo = MessageInfo(id: string, sender: string, mediaType: string)

  /** A received message: its metadata and its (possibly absent) content. */
  datatype MessageEvent = MessageEvent(info: MessageInfo, message: Option<Message>)

  /** `Message.GetImageMessage`: nil for a nil message. */
  function GetImageMessage(m: Option<Message>): Option<ImageMessage> {
    if m.Some? then m.value.imageMessage else None
  }

  /** `Message.GetVideoMessage`: nil for a nil message. */
  function GetVideoMessage(m: Option<Message>): Option<VideoMessage> {
    if m.Some? then m.value.videoMessage else None
  }

  /** `Message.GetExtendedTextMessage`: nil for a nil message. */
  function GetExtendedTextMessage(m: Option<Message>): Option<ExtendedTextMessage> {
    if m.Some? then m.value.extendedTextMessage else None
  }

  /** `ExtendedTextMessage.GetContextInfo`: nil for a nil text message. */
  function GetContextInfo(x: Option<ExtendedTextMessage>): Option<ContextInfo> {
    if x.Some? then x.value.contextInfo else None
  }

  /** `ContextInfo.GetQuotedMessage`: nil when there is no context. */
  function GetQuotedMessage(c: Option<ContextInfo>): Option<Message> {
    if c.Some? then c.value.quotedMessage else None
  }

  /** `ImageMessage.GetCaption`: `""` for a nil image or a nil caption. */
  function GetImageCaption(i: Option<ImageMessage>): string {
    if i.Some? && i.value.caption.Some? then i.value.caption.value else ""
  }

  /** `VideoMessage.GetCaption`: `""` for a nil video or a nil caption. */
  function GetVideoCaption(v: Option<VideoMessage>): string {
    if v.Some? && v.value.caption.Some? then v.value.caption.value else ""
  }

  /** `ExtendedTextMessage.GetText`: `""` for a nil text message or a nil text. */
  function GetText(x: Option<ExtendedTextMessage>): string {
    if x.Some? && x.value.text.Some? then x.value.text.value else ""
  }
}
