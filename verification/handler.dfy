/**
 * `eventHandler`: what the bot does with one inbound event, and which
 * media a sticker request points at once a reply is resolved to the
 * message it quotes.
 */
module Handler {
  import opened Commands
  import opened Messages

  /** The event variants the handler tells apart; every other variant is `Unhandled`. */
  datatype Event =
    | ConnectFailure
    | ClientOutdated
    | StreamReplaced
    | OfflineSyncCompleted
    | MessageReceived(received: MessageEvent)
    | Unhandled

  /** What the conversion worker is started with: the resolved message and the reply flag. */
  datatype DispatchRequest = DispatchRequest(event: MessageEvent, replyTo: bool)

  /**
   * The effect of handling one event: print a line and exit the process,
   * print a line and carry on, do nothing, or start one conversion worker.
   */
  datatype Outcome =
    | Exit(line: string, code: int)
    | Log(line: string)
    | Ignore
    | Dispatch(request: DispatchRequest)

  const KilledLine := "Killing due to client related issues"
  const ReplacedLine := "Started another stream with the same device session"
  const SyncedLine := "Offline sync completed"

  /** The events after which the session can never become valid again. */
  predicate IsFatal(evt: Event) {
    evt.ConnectFailure? || evt.ClientOutdated?
  }

  /** The message a reply quotes, if the received message is a reply. */
  function QuotedMessage(e: MessageEvent): Option<Message> {
    GetQuotedMessage(GetContextInfo(GetExtendedTextMessage(e.message)))
  }

  function QuotedImage(e: MessageEvent): Option<ImageMessage> {
    GetImageMessage(QuotedMessage(e))
  }

  function QuotedVideo(e: MessageEvent): Option<VideoMessage> {
    GetVideoMessage(QuotedMessage(e))
  }

  /** The replying message's own text (not the caption of what it quotes). */
  function QuotedText(e: MessageEvent): (t: string)
    ensures t != "" ==> GetExtendedTextMessage(e.message).Some?
  {
    GetText(GetExtendedTextMessage(e.message))
  }

  /** The caption of the message's own image is a command. */
  function ImageMatch(e: MessageEvent): (b: bool)
    ensures b ==> GetImageMessage(e.message).Some?
  {
    CaptionIsCommand(GetImageCaption(GetImageMessage(e.message)))
  }

  /** The caption of the message's own video is a command. */
  function VideoMatch(e: MessageEvent): (b: bool)
    ensures b ==> GetVideoMessage(e.message).Some?
  {
    CaptionIsCommand(GetVideoCaption(GetVideoMessage(e.message)))
  }

  /** The message is a reply whose text is a command and whose quoted message has media. */
  predicate QuotedMatch(e: MessageEvent): (b: bool)
    ensures b ==> GetExtendedTextMessage(e.message).Some? && QuotedMessage(e).Some?
  {
    CaptionIsCommand(QuotedText(e)) && (QuotedImage(e).Some? || QuotedVideo(e).Some?)
  }

  /** The message asks for a sticker. */
  function IsStickerRequest(e: MessageEvent): (b: bool)
    ensures b ==> e.message.Some?
  {
    ImageMatch(e) || VideoMatch(e) || QuotedMatch(e)
  }

  /**
   * `r` differs from `e` at most in the media type and in one of its two
   * media payloads: the metadata, the text parts and the other payload
   * are those of `e`.
   */
  ghost predicate ChangesOnlyMedia(e: MessageEvent, r: MessageEvent) {
    && r.info.id == e.info.id
    && r.info.sender == e.info.sender
    && r.message.Some? == e.message.Some?
    && (r.message.Some? ==>
          && r.message.value.conversation == e.message.value.conversation
          && r.message.value.extendedTextMessage == e.message.value.extendedTextMessage)
    && (GetImageMessage(r.message) == GetImageMessage(e.message)
        || GetVideoMessage(r.message) == GetVideoMessage(e.message))
  }

  /**
   * The message the worker is given: for a reply that is a command about
   * quoted media, the quoted image (preferred) or else the quoted video
   * takes the place of the message's own payload of that kind; any other
   * message is passed on as it is. A quoted gif is a video here.
   */
  function Resolve(e: MessageEvent): (r: MessageEvent)
    ensures ChangesOnlyMedia(e, r)
    ensures !QuotedMatch(e) ==> r == e
    ensures QuotedMatch(e) && QuotedImage(e).Some? ==>
      && r.info.mediaType == "image"
      && GetImageMessage(r.message) == QuotedImage(e)
      && GetVideoMessage(r.message) == GetVideoMessage(e.message)
    ensures QuotedMatch(e) && QuotedImage(e).None? ==>
      && r.info.mediaType == "video"
      && GetVideoMessage(r.message) == QuotedVideo(e)
      && GetImageMessage(r.message) == GetImageMessage(e.message)
  {
    if QuotedMatch(e) then
      var content := e.message.value;
      if QuotedImage(e).Some? then
        MessageEvent(e.info.(mediaType := "image"), Some(content.(imageMessage := QuotedImage(e))))
      else
        MessageEvent(e.info.(mediaType := "video"), Some(content.(videoMessage := QuotedVideo(e))))
    else
      e
  }

  /**
   * `eventHandler` for one event: fatal events exit with status 1,
   * session notices are logged, a sticker request starts exactly one
   * worker with the resolved message and the reply flag, and everything
   * else is dropped.
   */
  function Classify(evt: Event, replyTo: bool): (o: Outcome)
    ensures o.Exit? <==> IsFatal(evt)
    ensures o.Exit? ==> o.code == 1
    ensures o.Log? <==> evt.StreamReplaced? || evt.OfflineSyncCompleted?
    ensures o.Dispatch? <==> evt.MessageReceived? && IsStickerRequest(evt.received)
    ensures o.Dispatch? ==> o.request.replyTo == replyTo && o.request.event == Resolve(evt.received)
  {
    match evt
    case ConnectFailure => Exit(KilledLine, 1)
    case ClientOutdated => Exit(KilledLine, 1)
    case StreamReplaced => Log(ReplacedLine)
    case OfflineSyncCompleted => Log(SyncedLine)
    case MessageReceived(e) =>
      if IsStickerRequest(e) then Dispatch(DispatchRequest(Resolve(e), replyTo)) else Ignore
    case Unhandled => Ignore
  }

  /** A message that asks for nothing is dropped without a trace. */
  lemma NonRequestIgnored(e: MessageEvent, replyTo: bool)
    requires !ImageMatch(e) && !VideoMatch(e) && !QuotedMatch(e)
    ensures Classify(MessageReceived(e), replyTo) == Ignore
  {
  }

  /** A command in reply to a message without image or video asks for nothing. */
  lemma QuotedMatchNeedsMedia(e: MessageEvent)
    requires QuotedImage(e).None? && QuotedVideo(e).None?
    ensures !QuotedMatch(e)
  {
  }

  /** Quoted media without a command in the reply text asks for nothing. */
  lemma QuotedMatchNeedsCommand(e: MessageEvent)
    requires !CaptionIsCommand(QuotedText(e))
    ensures !QuotedMatch(e)
  {
  }

  /**
   * A command in reply to an image dispatches that image, even when the
   * quoted message has a video as well.
   */
  lemma QuotedImagePreferred(e: MessageEvent, replyTo: bool)
    requires CaptionIsCommand(QuotedText(e))
    requires QuotedImage(e).Some?
    ensures Classify(MessageReceived(e), replyTo).Dispatch?
    ensures var r := Classify(MessageReceived(e), replyTo).request;
      && r.replyTo == replyTo
      && r.event.info.mediaType == "image"
      && GetImageMessage(r.event.message) == QuotedImage(e)
      && GetVideoMessage(r.event.message) == GetVideoMessage(e.message)
  {
  }

  /**
   * A command in reply to a video (or gif) without an image dispatches
   * that video, as a video.
   */
  lemma QuotedVideoFallback(e: MessageEvent, replyTo: bool)
    requires CaptionIsCommand(QuotedText(e))
    requires QuotedImage(e).None? && QuotedVideo(e).Some?
    ensures Classify(MessageReceived(e), replyTo).Dispatch?
    ensures var r := Classify(MessageReceived(e), replyTo).request;
      && r.replyTo == replyTo
      && r.event.info.mediaType == "video"
      && GetVideoMessage(r.event.message) == QuotedVideo(e)
      && GetImageMessage(r.event.message) == GetImageMessage(e.message)
  {
  }

  /** A message whose own caption is the command is dispatched as it was received. */
  lemma DirectMatchUnchanged(e: MessageEvent, replyTo: bool)
    requires ImageMatch(e) || VideoMatch(e)
    requires !QuotedMatch(e)
    ensures Classify(MessageReceived(e), replyTo) == Dispatch(DispatchRequest(e, replyTo))
  {
  }
}
