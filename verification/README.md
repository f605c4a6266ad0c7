# whatsticker event handling, in Dafny

whatsticker is a WhatsApp bot that turns images, videos and gifs into
stickers. This project models the part of the bot that decides what to do
with each event the WhatsApp client delivers (`main.go`):

- the set of command phrases, `"stickerize"` and `"stickerize deven96"`;
- `captionIsCommand`: a caption is a command when, lower-cased and then
  trimmed of white space, it is one of the phrases;
- `eventHandler`:
  - connection failures and outdated clients print a line and exit with
    status 1;
  - a replaced stream and a completed offline sync only print a line;
  - a message starts one sticker worker when its image caption or its video
    caption is a command, or when its reply text is a command and it quotes
    an image or a video. In the quoted case the quoted image (preferred) or
    the quoted video takes the place of the message's own payload, and the
    media type becomes `"image"` or `"video"`. A quoted gif is a video.
  - everything else is ignored.

Layout:

- `text.dfy`: Go's `strings.TrimSpace`, with its full Unicode white-space
  set, and `strings.ToLower` on ASCII.
- `commands.dfy`: the phrases and `captionIsCommand`.
- `messages.dfy`: the protocol records the handler works on, an `Option`
  type for values that may be absent (their nil pointers, and the exit
  status of a run that never exits), and the nil-safe getters.
- `handler.dfy`: one event goes to one outcome (`Classify`). The message
  substitution is `Resolve`.
- `stream.dfy`: the client's loop over a sequence of events. Exiting the
  process ends the loop.
- `scenarios.dfy`: concrete messages taken through the handler.

Printing and `os.Exit` become `Outcome` values. `go handler.Run(...)`
becomes a `Dispatch` outcome that carries the resolved message and the
`-reply-to` flag. The flag is a parameter.

The phrase set `commands` (main.go:25-28) is the constant
`Commands.Phrases`; what it promises is stated by
`Commands.PhrasesAreNormal` and `Commands.PhraseIsCommand`.

The getters in `Messages` (`GetImageMessage`, `GetVideoMessage`,
`GetExtendedTextMessage`, `GetContextInfo`, `GetQuotedMessage`,
`GetImageCaption`, `GetVideoCaption`, `GetText`) define the protocol
library's nil-safe getters called at main.go:69-76: reading through a
nil record yields nil, or `""` for a string. What the handler relies on
is stated by the rows of `Handler.QuotedText`, `Handler.ImageMatch`,
`Handler.VideoMatch`, `Handler.QuotedMatch` and
`Scenarios.EmptyMessageScenario`.

Some helpers name a piece of `eventHandler` and carry no contract of
their own: `Handler.IsFatal` is the case list at main.go:60;
`Handler.QuotedMessage`, `Handler.QuotedImage` and `Handler.QuotedVideo`
are the locals `quotedMsg`, `quotedImage` and `quotedVideo` at
main.go:70-72; `Stream.Requests` is the sequence of `go handler.Run`
launches at main.go:95, one per dispatching event, in delivery order.
Their meaning is stated by `Handler.Classify`, `Handler.Resolve`,
`Stream.Deliver`, `Stream.RequestsCount` and `Stream.RequestsSound`.

The model follows the code on one point that is easy to misread.
The text checked for a quoted command is the reply's own text
(`extended.GetText()`). It is not the caption of the quoted media.

## Model

| member | source | states |
|---|---|---|
| Text.IsSpace | main.go:48 | white space (Go's `unicode.IsSpace` table) never includes an ASCII letter or digit, so trimming can never eat into a phrase |
| Text.ToLower | main.go:48 | lower-casing keeps the length of the string |
| Text.ToLowerSpec | main.go:48 | lower-casing leaves no ASCII capital, leaves every other character as it is, and turns each capital into the small letter of the same name |
| Text.TrimSpace | main.go:48 | trimming never lengthens a string, and a non-empty result neither starts nor ends with white space |
| Text.TrimSpaceSpec | main.go:48 | trimming removes only white space from both ends, and leaves a result that is empty or starts and ends with a non-space character |
| Text.SkipLeadingSpec | main.go:48 | the leading scan of TrimSpace stops at the first non-space character, and everything it passes is white space |
| Text.SkipTrailingSpec | main.go:48 | the trailing scan of TrimSpace stops after the last non-space character, and everything it passes is white space |
| Text.TrimSpacePadded | main.go:48 | a word with non-space ends, padded on both sides by any white space, trims back to exactly that word |
| Text.TrimSpaceIdempotent | main.go:48 | trimming an already trimmed string changes nothing |
| Text.TrimSpaceOfLower | main.go:48 | lower-casing and trimming commute, so the order used by captionIsCommand is immaterial |
| Text.ToLowerIdempotent | main.go:48 | lower-casing an already lower-cased string changes nothing |
| Text.ToLowerConcat | main.go:48 | lower-casing works character by character, so it distributes over concatenation |
| Text.ToLowerOfSpace | main.go:48 | lower-casing leaves white space as it is |
| Commands.Normalize | main.go:48 | the normal form of a caption is no longer than the caption and has no white space at either end |
| Commands.CaptionIsCommand | main.go:47-50 | a caption that is a command has at least 10 characters (the shorter phrase); the full characterisation is Commands.CaptionShape |
| Commands.PhrasesAreNormal | main.go:25-28 | every command phrase is already lower-case and has non-space ends, so each phrase can be matched |
| Commands.PhraseIsCommand | main.go:25-28 | each phrase, written as it is, is a command |
| Commands.CaptionShape | main.go:47-50 | a caption is a command if and only if it is white space, then a phrase in any letter case, then white space |
| Commands.MatchedCaptionIsPadded | main.go:47-50 | a matching caption yields the bounds of the phrase inside it, with only white space around it |
| Commands.PaddedCommandMatches | main.go:47-50 | a phrase in any letter case, padded with white space on either side, is a command |
| Commands.NormalizeIdempotent | main.go:47-50 | a normalised caption normalises to itself and matches exactly when the original does |
| Commands.UnpaddedCaptionLength | main.go:47-50 | normalising a caption with non-space ends keeps its length, so a matching one has 10 or 18 characters |
| Commands.ShortCommandExamples | main.go:47-50 | "Stickerize" and "  Stickerize " are commands |
| Commands.LongCommandExamples | main.go:25-28 | "stickerize deven96", bare and padded, is a command |
| Commands.ShoutedCommandExample | main.go:47-50 | an upper-case phrase followed by a newline is a command |
| Commands.NonCommandExamples | main.go:47-50 | a prefix of a phrase, the empty caption, a caption of only spaces, a doubled inner space and an unknown suffix are not commands |
| Handler.Resolve | main.go:81-94 | a quoted command about media replaces the image with the quoted image (type "image") or, with no quoted image, the video with the quoted video (type "video"); nothing else in the event changes, and any other message passes through as it is |
| Handler.Classify | main.go:58-98 | an event exits with status 1 if and only if it is a connect failure or an outdated client; it logs if and only if it is a replaced stream or a completed sync; it starts a worker if and only if it is a sticker request, and the worker gets the resolved message and the reply flag |
| Handler.QuotedText | main.go:73 | the text checked for a quoted command is non-empty only when the message is a text message (a reply) |
| Handler.ImageMatch | main.go:75 | an image match needs an image in the message itself: a nil image gives the empty caption, which is no command |
| Handler.VideoMatch | main.go:76 | a video match needs a video in the message itself |
| Handler.QuotedMatch | main.go:78-79 | a quoted match needs the message to be a text message that quotes another message |
| Handler.IsStickerRequest | main.go:75-81 | only a message with a body can ask for a sticker |
| Handler.NonRequestIgnored | main.go:75-81 | a message with no image match, no video match and no quoted match is ignored |
| Handler.QuotedMatchNeedsMedia | main.go:78-79 | a reply that quotes neither an image nor a video is never a quoted match |
| Handler.QuotedMatchNeedsCommand | main.go:73-79 | a reply whose own text is not a command is never a quoted match, whatever it quotes |
| Handler.QuotedImagePreferred | main.go:82-86 | a command quoting an image dispatches that image as "image", even if a video is quoted too, and keeps the message's own video |
| Handler.QuotedVideoFallback | main.go:87-92 | a command quoting a video and no image dispatches that video as "video" and keeps the message's own image |
| Handler.DirectMatchUnchanged | main.go:75-95 | a message whose own caption is a command, and that is not a quoted match, is dispatched exactly as it arrived |
| Scenarios.ReplyToVideoScenario | main.go:69-95 | a "stickerize" reply to a video dispatches that video with media type "video" |
| Scenarios.ReplyToGifScenario | main.go:87-95 | a padded, capitalised reply quoting a gif dispatches the gif as a video |
| Scenarios.CaptionedImageScenario | main.go:75-95 | an image captioned "stickerize" is dispatched unchanged |
| Scenarios.ReplyHelloScenario | main.go:78-81 | a "hello" reply to a captioned image is ignored |
| Scenarios.EmptyMessageScenario | main.go:68-81 | an event with no message body is ignored |
| Stream.Seen | main.go:60-62 | the events handled are a prefix of those delivered, with no exit before the last one, and they stop short of the end only at an exit |
| Stream.SeenUpTo | main.go:60-62 | with no exit among the first n events and an exit at event n, exactly the first n + 1 events are handled |
| Stream.RequestsStep | main.go:95 | handling one more event adds exactly the workers that event starts |
| Stream.RequestsAppend | main.go:95 | the workers started for two batches of events are those of the first batch followed by those of the second |
| Stream.Deliver | main.go:58-62 | the loop exits if and only if some event makes the handler exit, with that event's status, and it starts the workers of the handled events in order |
| Stream.RequestsCount | main.go:81-95 | the handler starts exactly one worker per sticker request, and none for any other event |
| Stream.RequestsSound | main.go:81-95 | every worker started carries the reply flag and the resolved form of a sticker request among the events |
| Stream.FirstFatal | main.go:60-62 | the position found is that of the first connect failure or outdated client, with none before it, or the end when there is none |
| Stream.SeenRequestsCount | main.go:58-98 | the workers started over the events the loop handles are one per sticker request among the events before the first fatal one (all events when none is fatal) |
| Stream.HandleEvents | main.go:58-98 | the bot exits, with status 1, if and only if a fatal event arrives; with none, it starts one worker per sticker request; every worker carries the reply flag |

## Left out

- `logger/main.go` is not part of this model. It is metrics and message-queue I/O.
- `loginNewClient`, `main` and `listenForCtrlC` are left out: QR login, flags, the SQLite device store and signal handling are I/O. The `-reply-to` flag is a parameter.
- `handler.Run` is not part of this model. The sticker conversion it performs happens in a goroutine, and the model records only what it is handed.
- Concurrency is left out. The client's delivery of events is modelled as one event at a time, in order, and the workers run concurrently with nothing the model observes.
- Printing and `os.Exit` are outcomes, not effects. The printed line is kept as a string.
- Text.ToLower: models only ASCII letters. Go's `strings.ToLower` also lowers non-ASCII letters, some of them to ASCII (U+0130 to `i`, the Kelvin sign U+212A to `k`). So a caption written with such letters can match in the bot and not in the model.
- Strings are sequences of code points. Invalid UTF-8 in a caption is not modelled.
- Only a part of the protocol records is modelled. The handler reads the captions, the reply text and the quoted message, and sets the media type. The gif flag is never read by the handler; it is kept only so that a scenario can show a quoted gif dispatched as a video. The url, mimetype, conversation, stanza id, message id and sender are payload the handler does not read. Handler.Resolve (through `ChangesOnlyMedia`) shows that the message id, the sender, the conversation and the text part with its stanza id are carried through unchanged, and the url and mimetype travel with the payload they belong to.
- Stream.HandleEvents: states the exit, the exit status, the reply flag of every worker and the worker count for a run with no fatal event. It does not state what message each worker is handed or in which order the workers start; Stream.Deliver states that the workers are `Requests(Seen(..))` in delivery order, and Stream.RequestsSound that each carries the resolved form of a sticker request. The worker count after a fatal event is stated by Stream.SeenRequestsCount.
