# Verified model of Servify's realtime client, capture pipeline and tools

This project models the parts of Servify whose guarantees hold only over whole runs, and proves them
in Dafny. `dafny verify dfyconfig.toml` checks everything.

**Realtime client.** The browser SDK (`sdk/packages/core/src`, shipped minified as
`apps/demo-sdk/servify-sdk.esm.js`, line 1) and the embeddable widget (`apps/demo-sdk/widget.js`).
Each is a state machine over events: a function `Step` gives the state after one event,
`StateAfter(h)` the state after a run `h`, and a class with the source's fields has one method per
handler, proved to do what `Step` says. What the client tells its listeners is a log in the state.

- `Streaming` - the assembler of streamed answers and the transport handlers that drive it.
- `Widget` - the widget's streaming bubble, remembered contents and catch-up, and its agreement with
  the assembler.
- `Session` - catch-up runs, the fingerprint window and the unread counter of the SDK session.
- `CatchUp` - that session against a server whose message table grows meanwhile, and what becomes of
  each stored message: its own live frame, its turn in a page, both, or neither.
- `WidgetCatchUp` - the same for the widget, whose catch-up runs overlap.
- `SendQueue` - chained sends, the frames they put out, and the echo each of them waits for, which the
  server sends over every connection of the session.
- `Reconnect` - backoff and what a disconnect leaves behind, in one connection manager of the SDK and in
  the widget.
- `Managers` - the session over all the managers it made.

**Microphone.** `Capture` is the start/stop protocol with a permission prompt in the middle; `Pcm` is
the conversion of float samples to little-endian 16-bit bytes. Sample positions and interpolated
values are exact reals.

**Load generator.** `Frames` is the hand-written WebSocket client over byte streams, proved against
a decoder and a frame relation written from sections 5.2 and 5.3 of RFC 6455. `YamlTree` and `Yaml`
are the configuration rewrite: the first on trees as values, the second on nodes in the heap, changed
in place.

**Tools and services.** `Base64Url` and `Jwt` issue, decode and check tokens (section 5 of RFC 4648,
RFC 7515, RFC 7519); HMAC and JSON are functions the module is given. `Knowledge` is the stateful
stand-in for the knowledge service, `Envelope` the admin panel's normaliser of list responses,
`SchemaParity` the comparison of two database schemas. `Common` and `Text` hold what they share.

## What was found

Where the code does not meet a property everywhere, the exact condition is proved.

- An empty terminal delta with no open stream leaves the assembler in a state no input leaves
  (`Streaming.StateReflectsFrames`, `Streaming.StuckForever`): after it no answer is shown
  (`Streaming.EmptyTerminalSilences`). The two streaming implementations agree if and only if that
  input, a final frame without text during an answer and a socket error during an answer do not occur
  (`Widget.ImplementationsAgree`); a run for each: `Widget.EmptyTerminalParts`,
  `Widget.EmptyFinalParts`, `Widget.SocketErrorParts`.
- A stream of empty deltas gets no end event on a lost connection
  (`Streaming.InterruptionCarriesAcceptedText`).
- Messages can be lost and shown twice. Catch-up deals with every stored message exactly once
  (`CatchUp.CatchUpIsExactlyOnce`), but it leaves out what has the key - sender and text - of a message
  rendered live among the last 200, and a live frame is shown whatever catch-up showed. So a message is
  lost if and only if its own frame never came and its key was in the window when its page was taken,
  and shown twice if and only if its frame came and the key was not (`CatchUp.LostOrRepeated`). Of two
  messages with one sender and one text the second is lost when its frame is missed
  (`CatchUp.EqualTextIsLost`, `CatchUp.MessageCanBeLost`); one caught up with before its frame comes is
  shown twice (`CatchUp.MessageCanBeShownTwice`). The store trims texts and live frames carry them as
  they were sent, so a message with space around it is shown twice even with its own frame in the window
  (`CatchUp.OwnFrameCounts`, `CatchUp.TrimmedIsShownAgain`, `CatchUp.LeadingSpaceIsShownAgain`).
- One connect deals with the rows up to a thousand beyond the cursor, ten pages of a hundred, and with no
  more even if nothing is wrong (`CatchUp.RunCatchesUp`, `CatchUp.ConnectCatchesUp`); the widget's run has
  no such bound (`WidgetCatchUp.ConnectCatchesUp`). A page of a hundred rows the client cannot read moves
  no cursor, so each remaining round of the run asks for it again (`CatchUp.UnreadablePageStalls`).
- In the widget nothing below a cursor is passed over, but it compares texts alone, of all it ever
  showed: a message is never shown if and only if it was not rendered on its own way and its text was
  known when its turn came in the first page that held it (`WidgetCatchUp.LostOrRepeated`, with the runs
  `WidgetCatchUp.EqualTextIsLost` and `WidgetCatchUp.FrameComesLate`).
- The window's keys join sender and text with a bar, so they can coincide for different messages when a
  sender has a bar in it (`Session.KeysCanCoincide`); the server's words have none
  (`Session.SuppressedWasShown`).
- The cursor filters nothing within a page: a page shows exactly its readable entries whose key is not
  in the window (`Session.PageServes`), so one that repeats an entry has it shown twice
  (`Session.RepeatingPageIsShownTwice`).
- The widget takes a text that is the name of a method every object has, such as `constructor`, for
  shown: catch-up never adds it (`Widget.InheritedNamesAreNeverAdded`), and any other text it has not
  shown yet it adds (`Widget.ShownUnlessInherited`); `Widget.InheritedNameIsLost` is a run.
- A send whose connection manager is gone when its turn comes is fulfilled although nothing was sent
  (`SendQueue.UnsentWhenDisconnected`, with the run in `SendQueue.FulfilledThoughUnsent`).
- The comment at `sdk/packages/core/src/websocket.ts:58-60` says a late echo cannot complete a later
  send. It can: a send is released by the echo of a given frame, its own or another's, if and only if
  that echo arrives, over whichever of the session's connections the frame went out, on the connection
  the send waits on and with the text it waits for (`SendQueue.ReleasedIffMet`). Such mix-ups can chain,
  each fulfilled send leaving its own echo behind. Every chain starts with a rejected send of that text,
  with the copy of an echo that belongs to another connection, with a second copy over the same one, or
  with somebody else's frame (`SendQueue.WhereMixUpsStart`); while the texts sent differ there is none
  (`SendQueue.DistinctTextsAreSafe`). Two runs: `SendQueue.LateEchoCompletesLaterSend`, after a timeout,
  and `SendQueue.CopyCompletesLaterSend`, in which nothing was rejected and nobody else sent anything.
- A disconnect is final - no socket is open or opens afterwards - if and only if no connect awaits its
  address, no timer but the last one armed is pending (in the widget, which cancels none, no timer at
  all), and no socket is left over but the one the client holds (`Reconnect.DisconnectIsFinal`). A run
  for each way to fail: `Reconnect.AwaitedAddressReopens`, `Reconnect.OlderTimerReopens`,
  `Reconnect.WidgetTimerReopens`, and `Reconnect.OrphanOpens`, where a second connect forgets a socket
  that opens after the disconnect. The session's disconnect reaches its newest manager only, so it is
  final if and only if, besides, every manager left behind is finished by itself
  (`Managers.SessionDisconnectIsFinal`); one that a send during backoff left behind reconnects beside the
  new one and stays open (`Managers.LeftBehindStaysOpen`).
- A stream acquired for an audio graph that then throws is neither held nor released: streams balance if
  and only if no graph failed under a live start, and contexts if and only if none failed after its
  context was made (`Capture.BalancedUnlessGraphFails`, with the run in `Capture.FailedGraphLeaks`).
- The handshake looks for 101 anywhere in the head (`Frames.MentionIsEnough`), and the frame reader
  ignores the mask bit (`Frames.MaskedFrameIsMisread`).
- The configuration rewrite is idempotent if and only if every section it enters has room for it: its
  children come in pairs, as those of every mapping do, or the keys to be set are there already. A
  section that is a sequence of odd length has none, and every run appends to it anew
  (`YamlTree.RewriteTwice`, `YamlTree.OddSectionGrows`). In a parsed document, whose mappings come in
  pairs, a setting is in force afterwards if and only if the sections on the way to it are mappings or
  absent, whatever the others are, and where its value goes there was a scalar or nothing
  (`YamlTree.ParsedRewriteLooksUp`): a mapping, list or alias there only has its text and tag overwritten
  (`YamlTree.OverwrittenNodeStays`).
- A token lives as long as asked for exactly while its lifetime in nanoseconds fits 64 bits
  (`Jwt.LifetimeIsExact`).
- Normalising a response twice is normalising it once exactly when the key of the normal form is among
  the keys tried, or there are no items (`Envelope.PaginatedTwice`, `Envelope.CountedTwice`). Panel
  and server count pages alike except for negative totals (`Envelope.PanelAgreesWithServer`).

## Model

| member | source | states |
|---|---|---|
| Streaming.LogIsWellOrdered | sdk/packages/core/src/streaming.ts:40-90 | over every run of deltas, finals and disconnects stream ids never decrease, an ended id never appears again, and each delta event's content extends the one before it under its id |
| Streaming.StreamNamesAreDistinct | sdk/packages/core/src/streaming.ts:78-84 | different stream numbers give different stream names |
| Streaming.StateReflectsFrames | sdk/packages/core/src/streaming.ts:13-90 | unless an empty terminal delta once came with no answer open, the state is a function of the frames: open iff a delta came since the last close, text of every delta through the first terminal one, terminal flag iff one came; otherwise the assembler is stuck |
| Streaming.StuckForever | sdk/packages/core/src/streaming.ts:40-69 | once stuck, no input changes the state or emits anything |
| Streaming.EmptyTerminalSilences | sdk/packages/core/src/streaming.ts:40-69 | whatever follows an empty terminal delta at the start, nothing is emitted |
| Streaming.SilentAfterTerminal | sdk/packages/core/src/streaming.ts:40-52 | after a terminal delta nothing is appended or emitted by any number of deltas until the stream is closed |
| Streaming.InterruptionCarriesAcceptedText | sdk/packages/core/src/streaming.ts:69-76 | a lost connection ends the open stream with exactly the text of all accepted deltas, terminal text included, and emits nothing if that text is empty |
| Streaming.DeltaShowsAcceptedText | sdk/packages/core/src/websocket.ts:410-426 | a delta event carries the whole text accepted so far; a delta after the terminal one emits nothing |
| Streaming.TerminalDeltaIsSilent | sdk/packages/core/src/streaming.ts:40-52 | whatever the run before, a terminal delta emits nothing, its text included |
| Streaming.FinalFrameEndsStream | sdk/packages/core/src/websocket.ts:429-434 | after any run a final frame emits the end of the open stream, not interrupted and with its id, and nothing if none is open |
| Streaming.AnswersAreNumbered | sdk/packages/core/src/streaming.ts:78-84 | in every run that is not stuck the open stream has the number of answers opened so far |
| Streaming.StreamingAssembler.OnDelta | sdk/packages/core/src/streaming.ts:40-52 | outcome and new state of a delta, for every state |
| Streaming.StreamingAssembler.CloseOnFinal | sdk/packages/core/src/streaming.ts:58-63 | the open stream's id is returned and the assembler reset; without one nothing changes |
| Streaming.StreamingAssembler.CloseOnDisconnect | sdk/packages/core/src/streaming.ts:69-76 | id and text of the open stream if it has text; the assembler is reset if a stream was open |
| Streaming.StreamingAssembler.AppendPart | sdk/packages/core/src/streaming.ts:78-84 | the text joins the open stream, which gets the next number if there was none |
| Streaming.StreamingAssembler.ResetParts | sdk/packages/core/src/streaming.ts:86-90 | parts, stream and terminal flag are cleared, the next number kept |
| Streaming.StreamTransport.HandleStreamDelta | sdk/packages/core/src/websocket.ts:410-426 | a malformed payload is ignored, an appended delta is announced with the cumulative text: the transport stays where its frames put it |
| Streaming.StreamTransport.CloseStreamOnFinal | sdk/packages/core/src/websocket.ts:429-434 | the final frame closes the stream and announces its end |
| Streaming.StreamTransport.CloseStreamOnDisconnect | sdk/packages/core/src/websocket.ts:437-443 | the lost connection closes the stream and announces the interruption with the partial text |
| Widget.BubbleStaysInPlace | apps/demo-sdk/widget.js:802-814 | over every run, catch-up included, the streaming bubble is a bot bubble of the list and shows the text received so far |
| Widget.FinalShowsText | apps/demo-sdk/widget.js:936-963 | after any run a final text takes the place of the streaming bubble, or is added if there is none, and is remembered |
| Widget.LossKeepsText | apps/demo-sdk/widget.js:802-814 | after any run a lost connection leaves the partial text where it stood, followed by the note, and remembers it; an empty bubble goes |
| Widget.MessageIsShown | apps/demo-sdk/widget.js:852-1007 | after any run an agent's text is added as the bot's, a notice as a system message, the visitor's own as the user's, and remembered; the streaming bubble is untouched |
| Widget.EmptyTextIsIgnored | apps/demo-sdk/widget.js:852-1007 | a frame or an input without text changes nothing |
| Widget.StepAgrees | apps/demo-sdk/widget.js:936-999 | from agreeing states one event keeps widget and assembler in agreement if and only if it is none of the three exceptions |
| Widget.ImplementationsAgree | apps/demo-sdk/widget.js:936-999 | over a whole run widget and assembler hold the same stream at every point if and only if no answer opens with an empty terminal delta, no open answer gets a final frame without text, and no socket error comes during an answer |
| Widget.EmptyTerminalParts | apps/demo-sdk/widget.js:985-999 | an empty terminal delta opens a bubble but no stream |
| Widget.EmptyFinalParts | apps/demo-sdk/widget.js:936-963 | a final frame without text closes the stream but not the bubble |
| Widget.SocketErrorParts | apps/demo-sdk/widget.js:914-919 | a socket error closes the bubble but not the stream |
| Widget.SameDecisions | apps/demo-sdk/widget.js:804-814 | while in agreement both ignore the same deltas and keep or discard the partial answer alike, with the same text |
| Widget.DisconnectRealigns | apps/demo-sdk/widget.js:914-919 | a lost connection brings the two back into agreement if and only if the assembler is not stuck |
| Widget.CatchUpNeverRepeats | apps/demo-sdk/widget.js:820-850 | under any number of overlapping catch-up runs no content is added that was remembered or added before |
| Widget.PageIsAbsorbed | apps/demo-sdk/widget.js:833-841 | the unknown contents of a page are appended in page order and every content of it is known afterwards |
| Widget.NovelIsShown | apps/demo-sdk/widget.js:833-841 | every content of a page that was not known is among those shown |
| Widget.InheritedNamesAreNeverAdded | apps/demo-sdk/widget.js:818-838 | over every run catch-up adds no content that is a name every object answers to |
| Widget.ShownUnlessInherited | apps/demo-sdk/widget.js:833-841 | a content of a page that was neither remembered nor added before is shown if and only if it is no such name |
| Widget.InheritedNameIsLost | apps/demo-sdk/widget.js:833-848 | a run that passes over an agent's "constructor" |
| Widget.EveryRunEnds | apps/demo-sdk/widget.js:824-850 | against a server that answers with ids above the cursor asked for, each run sends at most one request more than there are stored messages, whatever other runs do to the shared cursor |
| Widget.ConnectAsks | apps/demo-sdk/widget.js:922-923 | after any run a connect sends one request of a new run with the shared cursor |
| Widget.RunGoesOn | apps/demo-sdk/widget.js:842-848 | a page that reports more and has an id is followed by one request of the same run with the last id of the page; any other ends the run; the other requests stay |
| Widget.FailureEndsRun | apps/demo-sdk/widget.js:849-849 | a failed request ends its run and changes nothing else |
| Widget.ChatWidget.OnAiResponse | apps/demo-sdk/widget.js:936-963 | the final text is remembered and replaces the streaming bubble or is added; an empty one does nothing |
| Widget.ChatWidget.OnAiResponseDelta | apps/demo-sdk/widget.js:985-999 | a delta opens the bubble if needed and is appended unless the answer is done |
| Widget.ChatWidget.CloseStreamingOnDisconnect | apps/demo-sdk/widget.js:804-814 | a partial answer is kept, remembered and followed by the note; an empty bubble is removed |
| Widget.ChatWidget.OnAgentMessage | apps/demo-sdk/widget.js:1002-1007 | an agent's message is remembered and added |
| Widget.ChatWidget.OnNotification | apps/demo-sdk/widget.js:971-982 | a notice is remembered and added as a system message |
| Widget.ChatWidget.SendMsg | apps/demo-sdk/widget.js:852-856 | the visitor's text is added and remembered |
| Widget.ChatWidget.ReconcileMessages | apps/demo-sdk/widget.js:824-828 | one request goes out with the cursor of the moment |
| Widget.ChatWidget.ShowUnlessSeen | apps/demo-sdk/widget.js:834-841 | an entry is added and remembered unless its content is empty or known |
| Widget.ChatWidget.OnReconcilePage | apps/demo-sdk/widget.js:829-848 | a page is absorbed entry by entry, the cursor moves to its last id, and another page is asked for if there is more |
| Widget.ChatWidget.OnConnected | apps/demo-sdk/widget.js:922-923 | every connect starts a catch-up run of its own with the shared cursor |
| Widget.ChatWidget.OnReconcileFailure | apps/demo-sdk/widget.js:849-849 | a failed request changes nothing but that it is gone |
| WidgetCatchUp.AlwaysComplete | apps/demo-sdk/widget.js:824-850 | over every run of widget and growing server, overlapping catch-ups included, every message stored at or below the cursor, or the cursor of a request on its way, was handed to the widget |
| WidgetCatchUp.AlwaysKnown | apps/demo-sdk/widget.js:833-841 | over every run what was handed to the widget is known to it from then on |
| WidgetCatchUp.NothingBelowACursorIsMissing | apps/demo-sdk/widget.js:842-847 | what is stored at or below any cursor ever held was handed over and is known for ever after, though the cursor may move back |
| WidgetCatchUp.FinishedRunKnowsAll | apps/demo-sdk/widget.js:842-847 | a run that ends because nothing more is reported leaves every message the server had at its answer handed over and known |
| WidgetCatchUp.ConnectCatchesUp | apps/demo-sdk/widget.js:824-850 | from any run with nothing on its way a connect and an answer per fifty rows above the cursor leave no request out and every row of the table handed over and known |
| WidgetCatchUp.PageIsStretch | apps/server/internal/modules/conversation/delivery/visitor_messages_adapter.go:49-69 | a page is the stretch of at most 50 rows right above the cursor asked with, and `hasMore` says whether rows follow it |
| WidgetCatchUp.RenderShows | apps/demo-sdk/widget.js:936-1007 | a message's own frame, or its sending, ends in a bubble with its text and its sender's role, which is remembered |
| WidgetCatchUp.OnlyAnswersEndStreams | apps/demo-sdk/widget.js:936-1007 | of the messages on their own way only an AI's, a final frame, ends the streaming bubble |
| WidgetCatchUp.AddedOnce | apps/demo-sdk/widget.js:833-841 | over every run a message handed over was added once, by the first page that held it, unless its content was known when its turn came there; then never |
| WidgetCatchUp.AdditionShows | apps/demo-sdk/widget.js:833-841 | an addition is a bubble with the message's text and its sender's role: the visitor's as the user's, any other as the bot's |
| WidgetCatchUp.LostOrRepeated | apps/demo-sdk/widget.js:824-1007 | over every run a message at or below any cursor held is never shown iff it was not rendered on its own way and its content was known at its turn in that page; shown more than once iff rendered more than once, or rendered and unknown then |
| WidgetCatchUp.EqualTextIsLost | apps/demo-sdk/widget.js:833-841 | of any two messages with one text the second is lost in some run |
| WidgetCatchUp.FrameComesLate | apps/demo-sdk/widget.js:1002-1007 | a run in which a message caught up with is shown again by its frame |
| Session.ServerRowsParse | sdk/packages/core/src/sdk.ts:760-778 | an entry with a decimal id, a sender and a content is accepted with that number |
| Session.LooseIdsAreRead | sdk/packages/core/src/sdk.ts:768-772 | an id is read as the number its text begins with, signed or not, outer space and what follows aside; beyond the safe integers the entry is skipped |
| Session.UnreadableIsSkipped | sdk/packages/core/src/sdk.ts:764-775 | an entry that is no object, lacks an id, a sender or a content, or has an id without a digit is skipped |
| Session.SendersAgree | sdk/packages/core/src/sdk.ts:667-669 | the sender word of a live frame and the sender type of a caught-up entry map to each other |
| Session.WindowIsFifo | sdk/packages/core/src/sdk.ts:806-815 | over every run the window is exactly the last 200 admitted keys of messages rendered live, first in first out and without repeats |
| Session.ReinsertionKeepsAge | sdk/packages/core/src/sdk.ts:806-815 | a key rendered again while in a full window is still the next to leave |
| Session.UnreadIsAlwaysExact | sdk/packages/core/src/sdk.ts:675-702 | over every run the counter is zero while visible, otherwise the number of agent and AI messages shown, live or caught up, while hidden since last visible, and is what listeners were last told |
| Session.LiveMessageCounts | sdk/packages/core/src/sdk.ts:664-702 | after any run a live message is shown, and moves the counter by one, announced first, if and only if the session is hidden and an agent or an AI sent it |
| Session.MarksDecide | sdk/packages/core/src/sdk.ts:683-702 | after any run marking sets the visibility and nothing else, but that the counter is zero once visible, its change announced |
| Session.SuppressedKeyWasShown | sdk/packages/core/src/sdk.ts:739-740 | over every run the key of a message left out by catch-up is that of a message rendered live |
| Session.SuppressedWasShown | sdk/packages/core/src/sdk.ts:739-740 | if its sender has no bar in it, that message had the same sender and the same content |
| Session.KeysCanCoincide | sdk/packages/core/src/sdk.ts:806-815 | with a bar in the sender a message is left out that was never rendered |
| Session.RunsAreBounded | sdk/packages/core/src/sdk.ts:716-753 | at most one request is on its way, sent with the cursor as it still is; one more run queued at most, at most ten pages a run, and no more runs than connects |
| Session.RunGoesOn | sdk/packages/core/src/sdk.ts:725-744 | after any run a page that reports more, in a round before the tenth, is followed by exactly one request, of the next round, with the cursor that page left |
| Session.RunEnds | sdk/packages/core/src/sdk.ts:744-753 | a failure, a page without more or the tenth page ends the run; a connect that came meanwhile then starts its own with one request, and only then |
| Session.ConnectIsServed | sdk/packages/core/src/sdk.ts:716-722 | a connect while nothing is on its way sends the first request of a run; during a run it is kept for its end |
| Session.CursorNeverDecreases | sdk/packages/core/src/sdk.ts:736-738 | whatever the pages hold, the cursor never moves back |
| Session.PageServes | sdk/packages/core/src/sdk.ts:733-743 | whatever the server sends, a page shows exactly its readable entries whose key is not in the window, in page order |
| Session.RunServes | sdk/packages/core/src/sdk.ts:730-743 | over every run catch-up shows exactly those entries, page after page, and no others |
| Session.ShownAsOftenAsRepeated | sdk/packages/core/src/sdk.ts:733-743 | a page shows an id as often as it occurs among those entries: the cursor filters nothing |
| Session.RepeatingPageIsShownTwice | sdk/packages/core/src/sdk.ts:733-743 | a run in which a page with one entry twice has it shown twice |
| Session.ServifySession.HandleIncomingMessage | sdk/packages/core/src/sdk.ts:664-673 | a live message enters the window, counts as unread if hidden, and is shown |
| Session.ServifySession.TrackReconcileFingerprint | sdk/packages/core/src/sdk.ts:806-815 | the key is inserted and the oldest evicted down to 200 |
| Session.ServifySession.MarkSessionVisible | sdk/packages/core/src/sdk.ts:683-686 | visible, and the counter at zero |
| Session.ServifySession.MarkSessionHidden | sdk/packages/core/src/sdk.ts:689-691 | hidden, the counter unchanged |
| Session.ServifySession.ReconcileMissedMessages | sdk/packages/core/src/sdk.ts:716-722 | a call during a run is queued, otherwise it starts a run |
| Session.ServifySession.SendRequest | sdk/packages/core/src/sdk.ts:728-732 | a request goes out with the cursor of the moment |
| Session.ServifySession.TakeMessages | sdk/packages/core/src/sdk.ts:733-743 | the loop takes the entries of a page in order, unreadable ones aside |
| Session.ServifySession.OnReconcilePage | sdk/packages/core/src/sdk.ts:730-753 | the entries of a page are handled in order; then the next page is asked for, or the run ends and a queued call starts |
| Session.ServifySession.TakeParsed | sdk/packages/core/src/sdk.ts:736-742 | the cursor advances even when the fingerprint leaves the entry out; otherwise it is counted and shown |
| Session.ServifySession.SetUnreadCount | sdk/packages/core/src/sdk.ts:698-702 | listeners are told of a changed count only |
| CatchUp.CatchUpIsExactlyOnce | sdk/packages/core/src/sdk.ts:716-753 | over every run of client and growing server what catch-up dealt with is a prefix of the server's readable messages, each once and in order, with no gap |
| CatchUp.NoIdTwice | sdk/packages/core/src/sdk.ts:733-743 | the server ids dealt with strictly increase, so catch-up itself shows none twice |
| CatchUp.FinishedRunMissesNothing | sdk/packages/core/src/sdk.ts:744-744 | a run that ends because nothing more is reported has dealt with every readable message the server had when it answered |
| CatchUp.RunCatchesUp | sdk/packages/core/src/sdk.ts:716-753 | from any run with nothing in flight and only readable rows above the cursor, a connect and ten rounds of answer and delivery leave exactly the readable ones of the rows up to a thousand beyond the cursor dealt with, and the run over |
| CatchUp.ConnectCatchesUp | sdk/packages/core/src/sdk.ts:716-753 | with at most a thousand rows above the cursor, one connect deals with every readable row of the table |
| CatchUp.UnreadablePageStalls | sdk/packages/core/src/sdk.ts:733-747 | a page of a hundred unreadable rows moves neither cursor nor log, and the next request asks for it again until the tenth |
| CatchUp.PassedIsAccounted | sdk/packages/core/src/sdk.ts:733-743 | every readable message up to the cursor was shown by catch-up, or left out because a message with its key, itself or another, had been rendered live |
| CatchUp.FrameIsShown | sdk/packages/core/src/sdk.ts:664-673 | a message's own live frame is shown as it comes, whatever was shown before |
| CatchUp.PassedIsEmitted | sdk/packages/core/src/sdk.ts:664-743 | in every run each readable message up to the cursor was taken from a page at exactly one step, and was emitted once per live frame of its own, whose text is the one sent, and once more unless the key of the stored one was in the window at that step |
| CatchUp.LostOrRepeated | sdk/packages/core/src/sdk.ts:664-743 | it is lost iff its frame never came and its key was in the window then; shown twice, of one frame at most, iff the frame came and the key was not |
| CatchUp.EqualTextIsLost | sdk/packages/core/src/sdk.ts:739-740 | of any two messages with one sender and one text the second is lost in some run: the first was rendered live, the second's frame was missed |
| CatchUp.MessageCanBeLost | sdk/packages/core/src/sdk.ts:739-740 | such a run |
| CatchUp.MessageCanBeShownTwice | sdk/packages/core/src/sdk.ts:664-673 | a run in which catch-up shows a message and its frame shows it again |
| CatchUp.OwnFrameCounts | apps/server/internal/modules/conversation/application/service.go:349-349 | a message's own frame puts the key of the stored message into the window if and only if its sender's word is the same in both and its text was stored untrimmed |
| CatchUp.TrimmedIsShownAgain | apps/server/internal/modules/conversation/application/service.go:349-349 | any message whose text was trimmed is shown twice in some run with its own frame in the window |
| CatchUp.LeadingSpaceIsShownAgain | apps/server/internal/modules/conversation/application/service.go:349-349 | such a run for a visitor's text with a space before it |
| CatchUp.PageIsStretch | apps/server/internal/modules/conversation/delivery/visitor_messages_adapter.go:49-69 | a page is the stretch of at most 100 rows right above the cursor, and `hasMore` says whether rows follow it |
| CatchUp.AboveIsTail | apps/server/internal/modules/conversation/infra/gorm_repository.go:163-171 | rows above a cursor are a tail of the ascending table |
| SendQueue.SlotIsAlwaysOurs | sdk/packages/core/src/websocket.ts:207-249 | over every interleaving only the running call occupies a slot: that of the connection its frame went out on, with its content |
| SendQueue.PendingEchoIsNeverOverwritten | sdk/packages/core/src/websocket.ts:209-211 | whenever a call arms the slot, it is free |
| SendQueue.FailureFreesTheQueue | sdk/packages/core/src/websocket.ts:212-237 | a failed or timed-out send leaves every slot free and the next call begins |
| SendQueue.BeginConnectsFirst | sdk/packages/core/src/sdk.ts:262-285 | after any run the next call is rejected without a session, ready on the manager there is if that is connected, and otherwise connecting on a manager never made before |
| SendQueue.SendsAreSerialised | sdk/packages/core/src/sdk.ts:247-301 | frames reach the wire in call order, one per call; calls settle in that order, each once and after its own frame |
| SendQueue.FulfilledMeansEchoed | sdk/packages/core/src/websocket.ts:207-249 | a fulfilled send saw an echo of its content after its own frame on the same connection, or was never sent because no manager was left |
| SendQueue.UnsentWhenDisconnected | sdk/packages/core/src/sdk.ts:283-300 | a call is fulfilled unsent if and only if the manager is gone when it is about to transmit |
| SendQueue.FulfilledThoughUnsent | sdk/packages/core/src/sdk.ts:283-300 | a run in which a call is fulfilled and nothing is sent |
| SendQueue.EchoMatchesByContent | sdk/packages/core/src/websocket.ts:241-249 | an echo on the right connection releases the waiting call if and only if the contents are equal |
| SendQueue.EchoesAreExplained | sdk/packages/core/src/websocket.ts:207-249 | over every interleaving a call is released on the connection of its own frame, with its content; if by the echo of another frame, then of an earlier call with the same content, which had been rejected or released if its frame went out on the same connection |
| SendQueue.ReleasedIffMet | sdk/packages/core/src/websocket.ts:219-249 | over every run the echo of a given frame, the call's own, another's or a stranger's, released a call if and only if at some point it arrived over the connection the call waited on, with the content it waited for |
| SendQueue.WhereMixUpsStart | sdk/packages/core/src/websocket.ts:219-249 | whenever a call is released by an echo not its own, a call of that content on that connection was rejected, or the echo of a frame sent over another connection came, or a second copy over this one, or somebody else's frame |
| SendQueue.DistinctTextsAreSafe | sdk/packages/core/src/websocket.ts:241-249 | while the texts sent differ no call is released by another's echo, whatever arrives where and how often |
| SendQueue.LateEchoCompletesLaterSend | sdk/packages/core/src/websocket.ts:219-249 | a run: the first send of a text times out, and its echo fulfils the second |
| SendQueue.CopyCompletesLaterSend | apps/server/internal/platform/realtime/websocket_hub.go:275-286 | a run: the first send is fulfilled by its echo, whose copy over the session's next connection fulfils the second |
| SendQueue.Sender.SendMessage | sdk/packages/core/src/sdk.ts:249-260 | a call is chained behind those before it |
| SendQueue.Sender.DoSendMessage | sdk/packages/core/src/sdk.ts:262-285 | a call without session is rejected; without connection it connects first |
| SendQueue.Sender.SendWithEchoConfirmation | sdk/packages/core/src/websocket.ts:207-217 | the slot is armed and the frame sent; a send that throws clears the slot and rejects |
| SendQueue.Sender.ResolvePendingEcho | sdk/packages/core/src/websocket.ts:241-249 | an equal echo clears the slot and releases the call, whichever frame it answers |
| SendQueue.Sender.OnEchoTimeout | sdk/packages/core/src/websocket.ts:223-232 | a timeout clears the slot and rejects the call |
| SendQueue.Sender.OnConnectSettled | sdk/packages/core/src/sdk.ts:283-285 | a failed connect rejects the call, a successful one lets it transmit |
| SendQueue.Sender.OnPromiseSettled | sdk/packages/core/src/sdk.ts:287-300 | the echoed call is fulfilled and the next may begin |
| Reconnect.DelaysFollowTheLadder | sdk/packages/core/src/websocket.ts:347-359 | over every run, many sockets and timers included, the delays since the last open are the first steps of the backoff ladder, one per attempt and at most `maxAttempts` |
| Reconnect.DelaysNeverShrink | sdk/packages/core/src/contracts/reconnect.ts:24-28 | with a factor of at least one delays never shrink and respect the cap |
| Reconnect.DelayBacksOff | sdk/packages/core/src/contracts/reconnect.ts:24-28 | the first delay is the base, each next one the factor times the last, until the cap cuts it |
| Reconnect.DefaultWaits | sdk/packages/core/src/contracts/reconnect.ts:10-28 | five attempts wait 1, 2, 4, 8 and 16 seconds by default, 10 instead of 16 in the widget |
| Reconnect.ReconnectBudget | sdk/packages/core/src/websocket.ts:125-141 | over every run at most `maxAttempts` delays lie between two opens and add up to at most the whole ladder |
| Reconnect.TotalWaits | apps/demo-sdk/widget.js:101-122 | the widget waits at most 25 seconds between two opens, the SDK by default at most 31 |
| Reconnect.LadderIsClimbed | sdk/packages/core/src/websocket.ts:125-141 | for any policy and any number of attempts within its limit there is a run whose delays since the last open are all the steps of the ladder up to that number |
| Reconnect.BudgetsAreMet | apps/demo-sdk/widget.js:101-122 | runs of five failures that wait 25 seconds in the widget and 31 in the SDK: the bounds are met |
| Reconnect.SocketsStayInOrder | sdk/packages/core/src/websocket.ts:85-141 | over every run an open socket is a live one that was not closed by hand |
| Reconnect.DisconnectIsFinal | sdk/packages/core/src/websocket.ts:85-170 | after a disconnect no socket is open or opens without a new call to `connect` if and only if no connect awaited its address, no timer but the last one armed was pending (in the widget, none at all), and no socket was left but the one held |
| Reconnect.AwaitedAddressReopens | sdk/packages/core/src/websocket.ts:85-95 | a run that ends with an awaited address |
| Reconnect.OrphanOpens | sdk/packages/core/src/websocket.ts:89-113 | a run in which a socket a second connect forgot opens after the disconnect |
| Reconnect.OlderTimerReopens | sdk/packages/core/src/websocket.ts:347-359 | a run that ends with two timers pending, of which a disconnect cancels the last |
| Reconnect.WidgetTimerReopens | apps/demo-sdk/widget.js:111-118 | the widget: a run that ends with a timer nothing cancels |
| Reconnect.StaysShutIffFinished | sdk/packages/core/src/websocket.ts:85-141 | left to itself a manager stays shut if and only if nothing is pending, no socket is open or can open, and no closing one will ask for another |
| Reconnect.ConnectRevives | sdk/packages/core/src/websocket.ts:85-113 | after a disconnect a connect clears the manual flag and makes a new socket that can open, or none if making it fails |
| Reconnect.OpenSocketIsKept | sdk/packages/core/src/websocket.ts:88-90 | while the socket is open no connect, address or timer of the SDK replaces it |
| Reconnect.AddressFails | sdk/packages/core/src/websocket.ts:85-87 | a failed address ends that connect and changes nothing else |
| Reconnect.Connection.ConnectTo | apps/demo-sdk/widget.js:86-99 | the widget opens a socket at once, the SDK first awaits the address |
| Reconnect.Connection.OpenSocket | sdk/packages/core/src/websocket.ts:88-105 | an open socket is kept; otherwise the manual flag is cleared and a socket made |
| Reconnect.Connection.OnUrl | sdk/packages/core/src/websocket.ts:85-95 | only when the address is there is the manual flag cleared and a socket opened |
| Reconnect.Connection.OnOpen | sdk/packages/core/src/websocket.ts:107-113 | an opened socket resets the attempts |
| Reconnect.Connection.OnClose | sdk/packages/core/src/websocket.ts:125-141 | a closed socket schedules a reconnect unless closed by hand or out of attempts |
| Reconnect.Connection.ScheduleReconnect | sdk/packages/core/src/websocket.ts:347-359 | the attempt is counted and a timer armed with its delay |
| Reconnect.Connection.OnTimer | sdk/packages/core/src/websocket.ts:354-358 | a fired timer connects again |
| Reconnect.Connection.Disconnect | sdk/packages/core/src/websocket.ts:157-170 | the manual flag is set, the last timer cancelled if the client does so, the socket dropped |
| Reconnect.Connection.CloseSocket | sdk/packages/core/src/websocket.ts:163-169 | a socket closed by hand cannot open any more |
| Managers.SessionDisconnectIsFinal | sdk/packages/core/src/sdk.ts:135-208 | after the session's disconnect no socket of any manager it made is open or opens without a new connect if and only if the current one is safe to disconnect and every other is finished |
| Managers.RunsApart | sdk/packages/core/src/sdk.ts:135-208 | managers do not touch one another: after a disconnect each runs on by itself |
| Managers.LeftBehindStaysOpen | sdk/packages/core/src/sdk.ts:281-283 | a run in which a send during backoff leaves a manager behind that reopens beside the new one and outlives the disconnect |
| Capture.CaptureIsConserved | apps/admin/src/lib/voice.ts:103-190 | at every point of every interleaving one start at most is in flight, the session is active iff all five handles are set and otherwise none is, and every stream and context acquired was released, is held, or was dropped by a failed graph |
| Capture.DroppedAreLiveFailures | apps/admin/src/lib/voice.ts:123-158 | over every run as many streams were dropped as graphs failed under a live start, and as many contexts as failed after theirs was made |
| Capture.BalancedUnlessGraphFails | apps/admin/src/lib/voice.ts:123-158 | streams acquired are streams released plus the one held if and only if no graph failed under a live start; contexts likewise, if and only if none failed after its context was made |
| Capture.FailedGraphLeaks | apps/admin/src/lib/voice.ts:123-158 | a run in which a stream and a context are left over, and a stop does not release them |
| Capture.LiveUnlessOvertaken | apps/admin/src/lib/voice.ts:115-127 | a start goes live when permission arrives if and only if no stop came meanwhile; an overtaken one only releases its stream |
| Capture.FailedStartIsOver | apps/admin/src/lib/voice.ts:118-158 | after any run a refusal or a throwing graph under a live start leaves nothing in flight, active or held, and the next start is accepted |
| Capture.StopEndsAll | apps/admin/src/lib/voice.ts:161-189 | after any run a stop leaves nothing active or held, releases exactly what was held, and outdates every start in flight |
| Capture.MicCapture.StartCapture | apps/admin/src/lib/voice.ts:103-116 | a start while active or starting, or without support, is refused and changes nothing |
| Capture.MicCapture.OnPermission | apps/admin/src/lib/voice.ts:123-158 | a stale start stops its tracks; a current one sets all five handles and goes live |
| Capture.MicCapture.OnPermissionGraphThrows | apps/admin/src/lib/voice.ts:132-157 | a throwing audio graph leaves no handle set and the start no longer in flight |
| Capture.MicCapture.OnDenied | apps/admin/src/lib/voice.ts:118-122 | a refused permission ends the start and acquires nothing |
| Capture.MicCapture.StopCapture | apps/admin/src/lib/voice.ts:161-189 | the generation moves on, every handle is cleared, what was held is released |
| Pcm.QuantizeIsNearest | apps/admin/src/lib/voice.ts:18-30 | a sample within [-1, 1] becomes a nearest integer at full scale, any other the end it lies beyond; NaN counts as -1 |
| Pcm.FloatToPcm16 | apps/admin/src/lib/voice.ts:18-30 | the loop quantises every sample |
| Pcm.PositionInBounds | apps/admin/src/lib/voice.ts:43-50 | both source indices of every output sample are in bounds |
| Pcm.OutputLengthIsFloor | apps/admin/src/lib/voice.ts:43-44 | the output length is the largest that fits the input at the ratio |
| Pcm.OutputBetweenNeighbours | apps/admin/src/lib/voice.ts:46-52 | every rounded output sample lies between its two neighbouring inputs |
| Pcm.OutputInterpolates | apps/admin/src/lib/voice.ts:46-52 | every output sample is the value on the line between its two neighbours at its position, rounded to nearest with halves upwards |
| Pcm.RampIsResampled | apps/admin/src/lib/voice.ts:43-53 | an even ramp resamples to the rounded values of the same ramp |
| Pcm.ResampledInRange | apps/admin/src/lib/voice.ts:36-54 | resampling never leaves the range of its input |
| Pcm.WholeRatioDecimates | apps/admin/src/lib/voice.ts:46-52 | lowering the rate by a whole factor picks every k-th sample |
| Pcm.WholeFactorKeepsSamples | apps/admin/src/lib/voice.ts:46-52 | raising the rate by a whole factor keeps every input sample in place |
| Pcm.ResampleLinear | apps/admin/src/lib/voice.ts:36-54 | an error iff a rate is not positive; the input itself for equal rates or no samples; otherwise the interpolation |
| Pcm.Interpolate | apps/admin/src/lib/voice.ts:43-53 | the loop writes the interpolated sample at every position |
| Pcm.BytesRoundTrip | apps/admin/src/lib/voice.ts:57-64 | a little-endian reader of signed 16-bit numbers gets the samples back |
| Pcm.Pcm16ToLeBytes | apps/admin/src/lib/voice.ts:57-64 | the loop writes low byte before high byte for every sample |
| Pcm.PipelineIsSound | apps/admin/src/lib/voice.ts:139-145 | what goes out decodes to the resampled samples, all within [-32767, 32767]; at equal rates to the quantised input |
| Frames.ClientFrameRoundTrip | scripts/perfbench/main.go:671-697 | for every 4-bit opcode, mask and payload the RFC 6455 decoder recovers opcode and payload from the written bytes, whatever follows them |
| Frames.OnlyOneEncoding | scripts/perfbench/main.go:671-697 | an unfragmented frame the decoder accepts is what the writer writes for it: no other encoding exists |
| Frames.LengthFieldIsShortest | scripts/perfbench/main.go:675-685 | no length field with the same meaning is shorter than the written one |
| Frames.WireRoundTrip | scripts/perfbench/main.go:671-697 | any run of written frames decodes to their opcodes and payloads in order with nothing left over |
| Frames.ReadsServerFrame | scripts/perfbench/main.go:700-728 | the reader takes exactly one unmasked frame off the stream, in any length form, and returns its payload |
| Frames.ReadsOnlyServerFrames | scripts/perfbench/main.go:700-728 | whatever is read without a mask bit was one such frame |
| Frames.MaskedFrameIsMisread | scripts/perfbench/main.go:705-727 | of a masked frame the key and what follows is returned, and its last four bytes stay in the stream |
| Frames.ReadsFramesInOrder | scripts/perfbench/main.go:700-728 | repeated reads return the payloads of consecutive frames in order, nothing lost |
| Frames.UpgradeIsDetermined | scripts/perfbench/main.go:640-657 | outcome and bytes consumed of the handshake are determined by the stream |
| Frames.UpgradeSucceedsIff | scripts/perfbench/main.go:640-657 | the handshake succeeds if and only if the first empty line ends within 8192 bytes and what comes up to it mentions 101; it is too large if and only if more than 8192 bytes came without one |
| Frames.HandshakeThenFrames | scripts/perfbench/main.go:640-728 | after a head within 8192 bytes that mentions 101 the handshake can only succeed, consuming exactly the head, and the reads that follow return the payloads in order |
| Frames.MentionIsEnough | scripts/perfbench/main.go:652-656 | a status line that mentions 101 anywhere passes |
| Frames.WsConn.WriteFrame | scripts/perfbench/main.go:671-697 | the bytes appended to the stream are the encoded frame |
| Frames.WsConn.WriteHeader | scripts/perfbench/main.go:672-685 | the first byte with the final bit, and the masked length field in its shortest form |
| Frames.WsConn.AppendLength64 | scripts/perfbench/main.go:682-684 | the shifting loop appends the eight bytes of the length, highest first |
| Frames.WsConn.ReadFull | scripts/perfbench/main.go:702-704 | exactly the bytes asked for, or an error and an exhausted stream |
| Frames.WsConn.ReadLength64 | scripts/perfbench/main.go:718-721 | the shifting loop in a 64-bit register gives the number the eight bytes stand for |
| Frames.WsConn.ReadFrame | scripts/perfbench/main.go:700-728 | payload or error, and the rest of the stream, for every stream; a length of 2^63 or more cannot be allocated |
| Frames.WsConn.ReadUpgradeResponse | scripts/perfbench/main.go:640-657 | success iff the first empty line ends within 8192 bytes and the head mentions 101, consuming exactly to it; the three failures told apart |
| Frames.WsConn.Close | scripts/perfbench/main.go:730-732 | a close frame without payload is written |
| YamlTree.SetTwice | scripts/perfbench/main.go:815-835 | one setting made twice is made once if and only if the key was there or the children come in pairs |
| YamlTree.RewriteTwice | scripts/perfbench/main.go:756-778 | the rewrite is idempotent if and only if each section it enters has its children in pairs, as every mapping has, or the keys to be set already |
| YamlTree.TrailingSlashIsDropped | scripts/perfbench/main.go:771-775 | one slash at the end of the mock's address is dropped, and nothing else |
| YamlTree.OddSectionGrows | scripts/perfbench/main.go:756-835 | a document whose upload section is a sequence of one item is changed anew by the second run |
| YamlTree.UnfitUnder | scripts/perfbench/main.go:806-835 | making the settings of one section without that room twice is never making them once |
| YamlTree.RewriteLooksUp | scripts/perfbench/main.go:756-835 | what a targeted path finds is given exactly; the setting is in force - a scalar of its value and tag, or its node - if and only if every existing section on the way is a mapping and no other node than a scalar stood where its value goes; asked is only that the mappings on the way have room for its keys |
| YamlTree.ParsedRewriteLooksUp | scripts/perfbench/main.go:756-835 | the same with nothing asked but that the mappings of the document come in pairs |
| YamlTree.LimitsAreRelaxed | scripts/perfbench/main.go:756-759 | in a parsed document limiting is on at 100000 requests a minute and a burst of 10000, wherever mappings or nothing lead there and a scalar or nothing stood there |
| YamlTree.PathIsUnlimited | scripts/perfbench/main.go:760-766 | the path list is one entry for `/api/` with the same limits, spelled out node by node, whatever it was |
| YamlTree.UploadIsLocal | scripts/perfbench/main.go:768-769 | likewise uploads are kept locally |
| YamlTree.KnowledgeIsOff | scripts/perfbench/main.go:777-778 | likewise the knowledge provider is empty |
| YamlTree.ModelIsTheMocks | scripts/perfbench/main.go:771-775 | likewise, with a mock, the model's key is no real one and its address the mock's with `/v1`, a slash at its end dropped |
| YamlTree.OtherSectionsStay | scripts/perfbench/main.go:756-778 | any other section of the document is found as it was, and so is the model's without a mock |
| YamlTree.OverwrittenNodeStays | scripts/perfbench/main.go:815-824 | a mapping, list or alias where a value goes keeps its kind and children, and the setting is not in force |
| YamlTree.RewriteKeepsTheRest | scripts/perfbench/main.go:756-778 | with the children of its sections in pairs, nothing is moved, removed or changed but the targeted values, and new keys are only appended, at the top and along every path |
| YamlTree.LooksUp | scripts/perfbench/main.go:794-835 | for one section: the path of a setting finds nothing if a section on the way is no mapping, otherwise what the setting makes of the node found there before, whose kind a value keeps |
| YamlTree.SetUnderKeepsOthers | scripts/perfbench/main.go:806-835 | settings below one key leave every other key where it is and what it is |
| YamlTree.ExtendsTransitively | scripts/perfbench/main.go:826-835 | keeping the rest and appending composes over a run of settings |
| Yaml.MapGet | scripts/perfbench/main.go:794-804 | the node of the first pair with the key, in a mapping only |
| Yaml.MapGetOrCreate | scripts/perfbench/main.go:806-813 | the existing node as it is, or a new empty mapping in its place, all else unchanged |
| Yaml.MapSet | scripts/perfbench/main.go:815-824 | the value's text and tag are set in place, or a new scalar appended, all else unchanged |
| Yaml.MapSetNode | scripts/perfbench/main.go:826-835 | the value node is replaced, or a new pair appended, all else unchanged |
| Yaml.FindPair | scripts/perfbench/main.go:798-802 | the first pair with the key; an odd last child is none |
| Yaml.SetPaths | scripts/perfbench/main.go:760-766 | the path list with its one entry replaces the old one or is appended |
| Yaml.SetProvider | scripts/perfbench/main.go:768-769 | the provider of one section below the document is set, the section created if missing |
| Yaml.RelaxRateLimits | scripts/perfbench/main.go:756-766 | the rate-limit section of the tree in the heap becomes what the tree functions say |
| Yaml.UseMockModel | scripts/perfbench/main.go:771-775 | likewise the model section |
| Yaml.RewriteDocument | scripts/perfbench/main.go:756-778 | all sections in the order of the code, the model section only when there is a mock |
| Yaml.GenLoadTestConfig | scripts/perfbench/main.go:751-778 | refused without change iff there is no top-level mapping; otherwise the document in the heap becomes the rewritten tree, unshared as before, and nothing else changes |
| Base64Url.DecodeOfEncode | apps/server/cmd/cli/token.go:104-107 | decoding inverts encoding for all bytes, and only letters of the alphabet, no dot, are written |
| Base64Url.EncodeIsTheStandard | apps/server/cmd/cli/token.go:104-107 | the k-th letter is the entry of Table 2 of RFC 4648 for the six bits from bit 6k on, zeros after the last, and there are as many letters as the bits need |
| Base64Url.EncodeOfDecode | apps/server/cmd/cli/token_decode.go:91-99 | a string over the alphabet decodes unless one letter is left over, and encodes back to itself if and only if it carries no loose bits |
| Base64Url.AnyTextDecodes | apps/server/cmd/cli/token_decode.go:91-99 | of any text line breaks do not matter; without them it decodes if and only if it is letters of the alphabet and none is left over |
| Jwt.IssuedTokenParts | apps/server/cmd/cli/token.go:97-115 | a token splits into exactly three parts: encoded header, payload and signature |
| Jwt.IssuedTokenDecodes | apps/server/cmd/cli/token_decode.go:86-109 | decoding an issued token returns its header and payload |
| Jwt.IssuedTokenVerifies | apps/server/cmd/cli/token_decode.go:111-134 | an issued token has a valid signature under its secret, its time claims judged as issued; under another secret iff the keyed hashes coincide |
| Jwt.AnyTextIsJudged | apps/server/cmd/cli/token_decode.go:86-134 | of any text: the signature is valid iff there are three parts and the third decodes to the hash of the first two; each error iff its cause |
| Jwt.TamperedTokenVerifies | apps/server/cmd/cli/token_decode.go:112-124 | with header or payload exchanged the signature holds iff the keyed hash is unchanged |
| Jwt.IssuedTokenWindow | apps/server/cmd/cli/token_decode.go:136-160 | an issued token's time claims hold iff issue <= now and, unless it has no expiry, now < expiry |
| Jwt.AnyTokenWindow | apps/server/cmd/cli/token_decode.go:136-160 | of any token that decodes: whichever of `nbf`, `iat` and `exp` it carries, as numbers or numerals, the time claims hold iff nbf <= now, iat <= now and now < exp |
| Jwt.NoTimeIsInvalid | apps/server/cmd/cli/token_decode.go:136-160 | a time claim that is no number or numeral makes the time claims invalid |
| Jwt.LifetimeIsExact | apps/server/cmd/cli/token.go:76-78 | expiry is issue plus the minutes asked for if and only if their nanoseconds fit 64 bits |
| Jwt.ItemsOfJoined | apps/server/cmd/cli/token.go:52-63 | a list of names without commas or outer space comes back from its comma-separated form |
| Jwt.BlankListHasNoItems | apps/server/cmd/cli/token.go:52-52 | the guard before splitting decides nothing |
| Jwt.CollectItems | apps/server/cmd/cli/token.go:52-63 | the loop keeps the trimmed non-empty items in order |
| Jwt.BuildIdentity | apps/server/cmd/cli/token.go:40-51 | issue time, user id and subject; the subject given wins over the user id |
| Jwt.AddItems | apps/server/cmd/cli/token.go:52-63 | a list claim is there if and only if it has items, and all else is kept |
| Jwt.AddExpiry | apps/server/cmd/cli/token.go:76-78 | an expiry is there if and only if one is wanted, and all else is kept |
| Jwt.BuildPayload | apps/server/cmd/cli/token.go:39-78 | which claims a token gets, and their values, for all flags |
| Jwt.PayloadSays | apps/server/cmd/cli/token.go:39-78 | what the claims say to a reader of them: roles given come back as a list, blank lists are absent, subject and expiry as the flags ask, and no other claim |
| Knowledge.StoreHoldsWhatStands | infra/compose/weknora-mock/main.go:141-199 | in every reachable state the store holds exactly the documents of accepted uploads that no later request removed from their own base, each under its id |
| Knowledge.IdsAreFresh | infra/compose/weknora-mock/main.go:39-42 | no upload gets the id of an earlier one, removed or not |
| Knowledge.UploadsAreNumbered | infra/compose/weknora-mock/main.go:39-42 | the number of an id is one more than the uploads accepted before it, whatever was removed |
| Knowledge.SortingIsUnique | infra/compose/weknora-mock/main.go:237-244 | the order of ids does not depend on the map's |
| Knowledge.SelectedAreListed | infra/compose/weknora-mock/main.go:105-113 | the documents selected are exactly the listed ones of that base that match |
| Knowledge.SelectedHoldQuery | infra/compose/weknora-mock/main.go:105-113 | what is selected for a query are exactly the listed documents of that base in whose title and content the query occurs somewhere, case and outer space aside; all of them for a blank one |
| Knowledge.FoundUnlessCrowdedOut | infra/compose/weknora-mock/main.go:105-127 | a stored match is among the results if and only if fewer than the limit come before it in id order |
| Knowledge.UploadIsFound | infra/compose/weknora-mock/main.go:103-127 | in every run an uploaded document is found by a query that occurs in its text, case and outer space aside, if and only if the upload still stands and fewer than the limit of matches precede it |
| Knowledge.Mock.UploadDocument | infra/compose/weknora-mock/main.go:141-170 | a blank title is refused and uses up no id; otherwise the document is stored under a new id |
| Knowledge.Mock.NextId | infra/compose/weknora-mock/main.go:39-42 | the counter moves on and gives the id |
| Knowledge.Mock.RemoveDocument | infra/compose/weknora-mock/main.go:183-199 | removal under the wrong base, or of what is not there, changes nothing |
| Knowledge.Mock.SortedIds | infra/compose/weknora-mock/main.go:237-244 | every id once, in order |
| Knowledge.Mock.Scan | infra/compose/weknora-mock/main.go:104-127 | the loop with its early exit returns the first matches up to the limit |
| Knowledge.Mock.Search | infra/compose/weknora-mock/main.go:92-127 | an error iff no base is named; otherwise the first min(limit, matches) matches in id order, ten if the limit is not positive |
| Envelope.UnwrapCollectionEnvelope | apps/admin/src/services/_response.ts:20-31 | the loop ends on every JSON tree, at a value that is no envelope |
| Envelope.UnwrapReaches | apps/admin/src/services/_response.ts:20-31 | what is left is no envelope, unwrapping it again changes nothing, and a collection stays one |
| Envelope.LayersDoNotMatter | apps/admin/src/services/_response.ts:20-96 | any number of `{data: ...}` layers around a collection leaves both normal forms unchanged |
| Envelope.LayersAroundArray | apps/admin/src/services/_response.ts:20-96 | around a bare array they vanish if and only if there are none, `data` is among the keys tried, or the array is empty |
| Envelope.LooksInside | apps/admin/src/services/_response.ts:20-31 | an object is looked into exactly if its `data` is a record with `data`, `items` or `entries`; otherwise it is itself what is read |
| Envelope.BareArrayIsOnePage | apps/admin/src/services/_response.ts:49-96 | a bare array is one page of all its items |
| Envelope.FiguresAreRead | apps/admin/src/services/_response.ts:49-80 | of an object that is no envelope, which of its figures each figure of the normal form is, and what it falls back to: total on count and the items, page on 1, size on the items and the total, pages on the least count |
| Envelope.CountIsRead | apps/admin/src/services/_response.ts:82-96 | likewise for counted lists: count, then total, then the items |
| Envelope.PickArray | apps/admin/src/services/_response.ts:33-47 | the first of the keys that holds an array, or the array itself |
| Envelope.PaginatedTwice | apps/admin/src/services/_response.ts:49-80 | normalising twice is normalising once iff `data` is tried or there are no items |
| Envelope.CountedTwice | apps/admin/src/services/_response.ts:82-96 | likewise for counted lists and `items` |
| Envelope.PageCountIsLeast | apps/admin/src/services/_response.ts:65-68 | for whole numbers the fallback page count is the least p with p * size >= total |
| Envelope.PanelAgreesWithServer | apps/server/internal/handlers/app_market_handler.go:34-37 | panel and server count pages alike if and only if the total is not a negative one that is rounded the other way |
| SchemaParity.DifferIsInequality | apps/server/cmd/schema-parity/main.go:50-54 | the field by field comparison leaves out no field |
| SchemaParity.ReadColumns | apps/server/cmd/schema-parity/main.go:292-311 | the columns of model tables and no others, each as its last row has it |
| SchemaParity.DriftIsSymmetric | apps/server/cmd/schema-parity/main.go:241-263 | swapping the sides changes neither the drift nor its size |
| SchemaParity.FindingsAreTrue | apps/server/cmd/schema-parity/main.go:242-263 | a column is reported as missing on a side, or as different, exactly when it is |
| SchemaParity.NoDrift | apps/server/cmd/schema-parity/main.go:241-267 | no drift if and only if both sides have the same columns and agree off the allowlist, which excuses no one-sided column |
| SchemaParity.CountIsSize | apps/server/cmd/schema-parity/main.go:242-263 | counting along any order of a map gives the size of the set |
| SchemaParity.CompareShared | apps/server/cmd/schema-parity/main.go:242-257 | the first loop counts and reports the drift along its order, and the allowlisted mismatches |
| SchemaParity.CompareExtra | apps/server/cmd/schema-parity/main.go:258-263 | the second loop counts and reports the columns the other side lacks |
| SchemaParity.Compare | apps/server/cmd/schema-parity/main.go:241-267 | whatever the map orders: the count is the size of the drift, the report holds exactly the true findings, each once, success iff nothing drifted |
| SchemaParity.Run | apps/server/cmd/schema-parity/main.go:232-268 | success if and only if the two databases agree on every column of every model table off the allowlist |

## Left out

- Listeners that call back into the SDK while an event is being emitted: emitting is appending to a log.
- The JSON names of a catch-up page. The server's page struct declares none (`apps/server/internal/modules/conversation/delivery/visitor_messages_adapter.go:27-30`), so its handler writes `Messages` and `HasMore` where both clients read `messages` and `has_more`, and over the wire every page reads as empty or malformed. The catch-up results are about the documented contract, in which the names agree.
- Real clocks: timers, echoes, sockets and answers are events that may come at any time and in any order.
- Rows of the message table becoming visible out of id order, as when transactions that took their ids commit in another order: rows are stored with ascending ids, and the catch-up results hold for that.
- Everything of a message but its sender, content and server id: local ids, timestamps, attachments, metadata.
- The text of stream names in the state machine: streams are numbered, and one lemma says names are as distinct as numbers.
- A catch-up message id of the widget that is missing or falsy counts as absent.
- The widget's unread badge, citations, feedback bar, suggestions, voice and remote-assist frames.
- Token refresh, subprotocols and the connection state shown to the user; what a new connection manager forwards.
- The audio nodes of a capture, which are handles only; the conversion in the audio callback is modelled by itself.
- Floating-point rounding of sample positions and products: exact reals are used instead.
- The request the load generator sends to open a connection, the host and path taken from its address, TCP and TLS.
- Frames.WsConn.ReadFrame: a frame length below 2^63 that exceeds the memory there is is not modelled, because memory is not.
- YamlTree.RewriteKeepsTheRest: is stated for sections with their children in pairs, because in a sequence of odd length keys and values change places behind what is appended.
- Reading, parsing and writing the configuration file; that a parsed document is an unshared tree of nodes is a precondition, and what an alias points to is not part of the tree.
- JSON text and HMAC-SHA256; that JSON gives the claims back is a precondition of the token round trips, and numbers in claims are exact.
- Tags, metadata, highlights and scores of documents, the health and knowledge-base endpoints, HTTP; letters are lowered one by one by a given function.
- JavaScript's reading of a text as a number, which the normaliser is given as a function.
- Creating and migrating the two databases, database errors, and the wording of the drift report.
- HTTP handlers, admin service wrappers, configuration validation, generated code and build files, which would add only easy members.
