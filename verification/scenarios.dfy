/** Concrete messages and what the handler does with them. */
module Scenarios {
  import opened Text
  import opened Commands
  import opened Messages
  import opened Handler

  const ReceivedInfo := MessageInfo("3EB0", "2348000000000@s.whatsapp.net", "")
  const Clip := VideoMessage(Some("my clip"), Some("https://mmg/clip"), Some("video/mp4"), None)
  const Photo := ImageMessage(Some("stickerize"), Some("https://mmg/photo"), Some("image/jpeg"))

  /** A reply to a video, saying "stickerize": the video is substituted and dispatched. */
  lemma ReplyToVideoScenario(replyTo: bool)
    ensures var quoted := Message(None, None, Some(Clip), None);
      var reply := ExtendedTextMessage(Some("stickerize"), Some(ContextInfo(Some("3EA9"), Some(quoted))));
      var e := MessageEvent(ReceivedInfo, Some(Message(None, None, None, Some(reply))));
      var o := Classify(MessageReceived(e), replyTo);
      && o.Dispatch?
      && o.request.event.info.mediaType == "video"
      && o.request.event.message == Some(Message(None, None, Some(Clip), Some(reply)))
  {
    PhraseIsCommand("stickerize");
  }

  /**
   * A reply "Stickerize" to an animated image (a video played as a gif) is
   * dispatched with the media type "video": gifs are not told apart.
   */
  lemma ReplyToGifScenario(replyTo: bool)
    ensures var gif := Clip.(gifPlayback := Some(true));
      var reply := ExtendedTextMessage(Some(" Stickerize"), Some(ContextInfo(None, Some(Message(None, None, Some(gif), None)))));
      var e := MessageEvent(ReceivedInfo, Some(Message(None, None, None, Some(reply))));
      var o := Classify(MessageReceived(e), replyTo);
      && o.Dispatch?
      && o.request.replyTo == replyTo
      && o.request.event.info.mediaType == "video"
      && GetVideoMessage(o.request.event.message) == Some(gif)
  {
    assert ToLower("Stickerize") == "stickerize";
    assert " " + "Stickerize" + "" == " Stickerize";
    PaddedCommandMatches(" ", "Stickerize", "");
  }

  /** An image captioned "stickerize" is dispatched as it came. */
  lemma CaptionedImageScenario(replyTo: bool)
    ensures var e := MessageEvent(ReceivedInfo.(mediaType := "image"), Some(Message(None, Some(Photo), None, None)));
      Classify(MessageReceived(e), replyTo) == Dispatch(DispatchRequest(e, replyTo))
  {
    PhraseIsCommand("stickerize");
  }

  /**
   * A reply saying "hello" to an image is dropped, even though the quoted
   * image's own caption is "stickerize": only the reply's text counts.
   */
  lemma ReplyHelloScenario(replyTo: bool)
    ensures var quoted := Message(None, Some(Photo), None, None);
      var reply := ExtendedTextMessage(Some("hello"), Some(ContextInfo(Some("3EA9"), Some(quoted))));
      var e := MessageEvent(ReceivedInfo, Some(Message(None, None, None, Some(reply))));
      Classify(MessageReceived(e), replyTo) == Ignore
  {
  }

  /** A message with no content at all is dropped. */
  lemma EmptyMessageScenario(replyTo: bool)
    ensures Classify(MessageReceived(MessageEvent(ReceivedInfo, None)), replyTo) == Ignore
  {
  }
}
