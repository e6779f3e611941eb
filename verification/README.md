# Maidan: a Dafny model of its delivery, retry and authority core

Maidan is a workspace server for people and agents. This project models the
parts of it that must not lose, repeat or leak anything, and proves what they
promise:

- **The notify floor** (`EventLog`, `NotifyFloor`, `NotifyRuns`,
  `NotifyRecovery`, `NotifyScan`, `NotifyListener`). Each replica keeps a
  high-water mark over an append-only event log whose rows may commit out of id
  order. The floor is modelled by cuts between its reads, so that other
  transactions commit in the middle of a drain. The same cuts are what the
  imperative `Drain`, `OnPointer` and `OnReconnect` are proved to follow.
- **Server-sent events** (`SseSpec`, `SseParser`, `SseStreams`, `SsePrinting`,
  `SseStandard`). The meaning of a byte stream is given by lines and frames; the
  incremental parser is proved to compute it under every chunking, to read back
  whatever a server prints, and compared with the standard's reading.
- **WebSocket subscriptions** (`WsCodec`, `WsMessages`). The frame printer and
  reader (sections 5.2 and 5.3 of RFC 6455), and fragment reassembly with
  control frames in between (sections 5.4 and 5.5 of RFC 6455), against a script
  of what the peer meant.
- **Following the log** (`EventPages`, `FollowLog`, `LiveEvents`). The server's
  page of readable events, the client's walk over pages, the cutover to a
  subscription and its live end, with commits before every read.
- **Idempotent retries and the seat board** (`Idempotency`, `RetryingSend`,
  `SeatBoard`, `SeatRuns`). One key per write over a network that loses, delays
  and repeats; then any number of seats claiming threads from a lease board over
  it.
- **Process trees** (`ProcessTree`). What a child process has started, through
  arbitrary snapshots of the process table.
- **Notification batching** (`Batching`), **token usage arithmetic** (`Usage`),
  **capabilities and delegation** (`Authority`) and **event visibility**
  (`Visibility`).

Code that mutates state in the original is a class or a method with a loop here,
proved against a specification function; theorems over whole runs are lemmas
about those functions. `Basics` holds the shared vocabulary. The clock,
randomness, UTF-8 checking, JSON encoding and decoding, the database's answers
and the network's faults are parameters, quantified over.

`dafny verify dfyconfig.toml` checks the whole project.

## Where the code does not do what its words say

Each of these has a lemma at an input that shows it, and the exact condition
under which the code does meet it.

- A fault-free pointer to the newest id brings the mark there if and only if that
  event decodes or the mark was already there (`Recovers`); one that does not
  decode keeps a lower mark one below it, in a world that a run reaches
  (`PoisonHoldsTheMark`, `PoisonReached`).
- The SSE size cap says it limits one event without a delimiter. It counts the
  pending bytes plus the whole next chunk, so it also refuses complete events
  (`CapSeesChunks`): a stream is refused if and only if some chunk exceeds the cap
  with what is pending when it comes, and all before it could be read
  (`CapExactly`).
- The client's reading of server-sent events parts from sections 9.2.5 and 9.2.6 of
  the WHATWG HTML standard in three ways. The standard takes a line that is just
  `data` for an empty data line, the client drops it (`BareLineDropped`); the
  standard strips a leading byte order mark, the client takes it for part of the
  first line (`MarkHidesData`). They collect the same frames if and only if no line
  is just `data` and no mark stands before a data line (`AgreeExactly`). The
  standard drops a last block without its blank line, which the client delivers on
  purpose (`UnclosedDelivered`): that differs if and only if a data line, ended or
  not, follows the last blank line (`EndExactly`). `StandardExactly` is all of it
  together, with the refusal of what is not UTF-8, where the standard substitutes;
  a stream at odds both in its lines and in its last block may come out the same
  (`DifferencesCancel`).
- `FollowLog` misses none of the events committed by its subscription, unless it
  is told of a truncated replay, if and only if each one at or below its cursor
  had committed by the read of its page, and its cursor is positive or there is
  none above it (the contract of `FollowLog`). The first fails for a row that
  commits late below rows already read, and the live end drops it too (the run
  `LateRow`); the second because a cursor of zero is left out of the subscribe
  frame, and the server replays only from a positive one (`CutoverCloses`, the run
  `ColdStart`).
- A derived token is bounded by its parent's expiry if and only if it was not
  minted, or minted until a time within it (`BoundedExactly`, and over whole chains
  `ExpiryOnlyShrinks`); with `token:admin` any time will do (`MintMayOutlive`).
- The server's state is its effects, one per key, if and only if answers that free
  a key changed nothing (`HonestExactly`); otherwise a retry runs on top of the
  first run (`FreedKeyRunsAgain`). The board's answers are of that kind
  (`BoardHonest`).
- A process in a remembered group is taken for a reaped tree's if and only if
  every look so far showed the group in use (`ReuseExactly`), so a group that
  empties and is taken again between two looks is not told apart (`UnseenReuse`).
- The seat runner waits between 0 and 60 seconds before a retry if and only if the
  `Retry-After` header is not `nan` and, without a header, its configured backoff
  is not negative, not `nan` and not doubled beyond the floats; otherwise it raises
  (`RetryWait`).

## Model

| member | source | states |
|---|---|---|
| EventLogs.PageOfIsPage | crates/maidan-bus/src/notify_floor.rs:43-48 | a page of a sorted log holds the rows above the cursor in id order, skips none, and when short has reached the end |
| EventLogs.EventLog.PageAfter | crates/maidan-bus/src/notify_floor.rs:43-48 | a page read meets the log as committed by then, or fails, and consumes one turn of the future |
| EventLogs.EventLog.Head | crates/maidan-bus/src/notify_floor.rs:40-41 | the head is the newest committed id, 0 for an empty log |
| EventLogs.EventLog.Get | crates/maidan-bus/src/notify_floor.rs:50 | a read of one event tells decodable, absent and unreadable apart |
| NotifyRuns.StepKeeps | crates/maidan-bus/src/notify_floor.rs:119-257 | every step of every replica (commit, lost notification, page read, event read, disconnect, reconnect) keeps: nothing decodable at or below the position is unpublished unless it had been passed when it committed; only committed ids are published; Ok plus Backfilled equals what was published |
| NotifyRuns.RunKeeps | crates/maidan-bus/src/notify_floor.rs:559-672 | the same over every finite run |
| NotifyRuns.BelowMeansPassed | crates/maidan-bus/src/notify_floor.rs:203-246 | an id counted as passed was committed, in this very run, at or below the replica's position at that moment |
| NotifyRuns.NothingOwedIsPassed | crates/maidan-bus/src/notify_floor.rs:119-257 | in every reachable world each replica published only committed events, and an unpublished decodable event at or below its mark had been passed when it committed, with its notification queued, in hand, lost, unreadable or sent before the replica listened |
| NotifyRuns.MarkNeverFalls | crates/maidan-bus/src/notify_floor.rs:203-257 | over every run a replica's mark never falls and what it published only grows |
| NotifyRecovery.CalmRun | crates/maidan-bus/src/notify_floor.rs:119-257 | through every read of a fault-free call the floor stays on course: published so far and where it stands match the log |
| NotifyRecovery.Recovers | crates/maidan-bus/src/notify_floor.rs:203-257 | after any history one fault-free reconnect publishes every decodable event above the old mark and leaves the mark at the newest id; one fault-free pointer does so up to its id, and brings the mark to it if and only if the event decodes or the mark was there |
| NotifyRecovery.EverythingArrives | crates/maidan-bus/src/notify_floor.rs:685-729 | after any history, once faults stop, calls among which a reconnect or a pointer to the newest id, and a pointer for each notification still queued or unread, leave every decodable committed event published, except one passed when it committed whose notification was lost or older than the replica |
| NotifyRecovery.PointerPublishes | crates/maidan-bus/src/notify_floor.rs:224-230 | a fault-free pointer publishes its own event, wherever the mark is |
| NotifyRecovery.CountersTell | crates/maidan-bus/src/notify_floor.rs:141-246 | over every call, with faults or without, the hydrate statistics count exactly what was read: each event by its result, each row passed as published or, if it does not decode, as failed |
| NotifyRecovery.PoisonHoldsTheMark | crates/maidan-bus/src/notify_floor.rs:226-245 | after any history, a fault-free pointer to a newest event that does not decode leaves the mark one below it |
| NotifyRecovery.PoisonReached | crates/maidan-bus/src/notify_floor.rs:226-245 | a run that reaches such a world, and the call |
| NotifyScan.DrainScans | crates/maidan-bus/src/notify_floor.rs:119-169 | on a log that stands still, a drain in pages of any size publishes exactly what one scan of the covered range does, also when a read stops it |
| NotifyScan.DecodedAscends | crates/maidan-bus/src/notify_floor.rs:119-121 | what a scan publishes is strictly ascending, so nothing twice |
| NotifyListener.Broadcast.Publish | crates/maidan-bus/src/notify_floor.rs:248-251 | publishing appends one event to what the replica delivered |
| NotifyListener.HydrateStats.Record | crates/maidan-bus/src/hydrate_stats.rs:34-44 | recording a result raises its own counter by one and no other |
| NotifyListener.PublishPage | crates/maidan-bus/src/notify_floor.rs:141-167 | a page publishes its decodable rows before the bound, counts the others as failed, and says whether the drain is complete |
| NotifyListener.DrainRound | crates/maidan-bus/src/notify_floor.rs:130-167 | one turn of the drain loop is one absorbed page of the model and leaves fewer rows above the cursor |
| NotifyListener.Drain | crates/maidan-bus/src/notify_floor.rs:119-169 | whatever commits or fails meanwhile, the drain is a path of the model's cuts; fault-free it completes; on a still log it publishes exactly one scan of its range; it terminates on commits still to come, then rows above the cursor |
| NotifyListener.DrainAdvances | crates/maidan-bus/src/notify_floor.rs:254-257 | an unbounded drain never ends below where it began |
| NotifyListener.NotifyFloor.Start | crates/maidan-bus/src/notify_floor.rs:180-195 | the floor starts at the head read then, and there is none if the head cannot be read |
| NotifyListener.NotifyFloor.Cover | crates/maidan-bus/src/notify_floor.rs:204-223 | the gap below a pointer is drained; what is covered is the pointer minus one when complete and what was reached otherwise |
| NotifyListener.NotifyFloor.Hydrate | crates/maidan-bus/src/notify_floor.rs:224-245 | the pointer's own event is always read, delivered if readable, and the mark rises only over what is covered |
| NotifyListener.NotifyFloor.OnPointer | crates/maidan-bus/src/notify_floor.rs:202-246 | a notification is one path of the model from idle to idle that never lowers the mark |
| NotifyListener.NotifyFloor.OnReconnect | crates/maidan-bus/src/notify_floor.rs:253-257 | a reconnect is one path of the model from idle to idle that never lowers the mark |
| NotifyListener.CalmCallRecovers | crates/maidan-bus/src/notify_floor.rs:203-257 | a call of the object that meets no fault and no commit ends with the recovered mark and everything decodable published |
| SseSpec.SplitsLikeLines | crates/maidan-a2a/src/client.rs:409-413 | replacing CRLF, then CR, then splitting on LF is splitting on all three terminators |
| SseSpec.FindEventStable | crates/maidan-a2a/src/client.rs:382-404 | more bytes never change an event already found |
| SseSpec.SegmentKeepsFrames | crates/maidan-a2a/src/client.rs:361-425 | cutting a stream into blocks and reading each gives the frames the stream means |
| SseSpec.SegmentAppends | crates/maidan-a2a/src/client.rs:342-379 | cutting what came so far, then the rest with what comes next, is cutting it all at once |
| SseParsers.ScanForEvent | crates/maidan-a2a/src/client.rs:383-404 | the index loop finds exactly the first event, or that there is none yet |
| SseParsers.ReadBlock | crates/maidan-a2a/src/client.rs:406-425 | a block gives the join of its data lines, nothing without data, and a refusal unless it is UTF-8 |
| SseParsers.SseParser.Push | crates/maidan-a2a/src/client.rs:342-350 | a chunk over the cap is refused and changes nothing; otherwise the complete events come out, the unread suffix is the abstract one, and the buffer is at most twice the cap |
| SseParsers.SseParser.DrainEvents | crates/maidan-a2a/src/client.rs:361-379 | compaction is invisible: what is pending is the rest of the cut |
| SseParsers.SseParser.Finish | crates/maidan-a2a/src/client.rs:352-359 | the trailing block is delivered without its blank line |
| SseStreams.ParseStream | crates/maidan-a2a/src/client.rs:315-329 | collecting a stream is feeding its chunks in order, up to the first refusal or transport failure |
| SseStreams.ChunkingIndependence | crates/maidan-a2a/src/client.rs:315-404 | for every byte stream and every cutting that never trips the cap, the parser delivers what the concatenation means, or the same refusal |
| SseStreams.CapExactly | crates/maidan-a2a/src/client.rs:342-347 | for every encoding check, chunks and lost chunks: refused for size if and only if some chunk exceeds the cap with what is pending when it comes, and everything before it arrived and could be read |
| SseStreams.CapSeesChunks | crates/maidan-a2a/src/client.rs:17-19 | the same bytes, all complete events, are refused in one chunk and accepted in two, whatever else the encoding check takes than the empty block |
| SseStreams.EncodingIsWhole | crates/maidan-a2a/src/client.rs:406-408 | when LF and CR are characters of their own, as in UTF-8, checking block by block accepts a stream if and only if the whole stream is well-formed |
| SseStandard.AgreeExactly | crates/maidan-a2a/src/client.rs:406-425 | the client and the WHATWG HTML standard collect the same frames if and only if no line is just `data` and no byte order mark stands before a data line |
| SseStandard.BareLineDropped | crates/maidan-a2a/src/client.rs:415-421 | a stream of one bare line is an empty frame by the standard and none here |
| SseStandard.MarkHidesData | crates/maidan-a2a/src/client.rs:406-421 | any data line behind a byte order mark is a frame by the standard and none here |
| SseStandard.EndExactly | crates/maidan-a2a/src/client.rs:352-359 | delivering the last block differs from dispatching on blank lines only if and only if a data line, ended or not, follows the last blank line |
| SseStandard.UnclosedDelivered | crates/maidan-a2a/src/client.rs:352-359 | any data line with its end but no blank line is delivered here and dropped by the standard |
| SseStandard.StandardExactly | crates/maidan-a2a/src/client.rs:315-425 | the client's meaning of a stream against the whole standard: when the last block is closed they agree if and only if the stream is well-encoded and its lines read the same; when it is and they do, if and only if the last block is closed |
| SseStandard.DifferencesCancel | crates/maidan-a2a/src/client.rs:315-425 | a stream with neither on which they agree all the same |
| SseStandard.StandardIsLine | crates/maidan-a2a/src/client.rs:415-421 | the test for the prefix `data:` is the rule for a field named `data`, name up to the first colon and one leading space of the value dropped, but for the line without a colon |
| SsePrinting.RoundTrip | crates/maidan-a2a/src/client.rs:382-425 | events printed with data lines with or without the optional space, comments and other fields anywhere and any mix of line endings read back as the data printed, under every chunking |
| SsePrinting.FramesComeBack | crates/maidan-a2a/src/client.rs:382-425 | any list of texts printed line by line, with anything else in between, comes back as that list |
| SsePrinting.PrintedLines | crates/maidan-a2a/src/client.rs:382-413 | printed lines read back as the same lines, whichever of LF, CRLF and CR ends each |
| SsePrinting.OtherFieldIsNoData | crates/maidan-a2a/src/client.rs:414-421 | a line whose name, up to its first colon, is not `data` adds nothing |
| WsCodec.MaskTwice | sdk/go/ws.go:373-378 | masking twice with one mask gives the payload back |
| WsCodec.Connection.WriteFrame | sdk/go/ws.go:382-412 | one whole masked frame is written, or nothing when there is no randomness |
| WsCodec.LengthHeader | sdk/go/ws.go:383-398 | the length is written in 7, 16 or 64 bits as its size calls for |
| WsCodec.HeadLayout | sdk/go/ws.go:382-400 | the head of a printed frame by section 5.2 of RFC 6455: FIN and opcode, mask bit and length, the longer lengths in the bytes after it |
| WsCodec.BodyLayout | sdk/go/ws.go:400-412 | the mask comes next, and each byte of the payload is combined with its byte of the mask bit by bit |
| WsCodec.XorBits | sdk/go/ws.go:373-378 | every bit of a masked byte is the exclusive or of the two bits |
| WsCodec.HighFirst | sdk/go/ws.go:352-366 | a length is read with its most significant byte first |
| WsCodec.BigEndianPrints | sdk/go/ws.go:352-366 | printing a length is the inverse of reading it, both ways |
| WsCodec.ParseStable | sdk/go/ws.go:338-380 | more bytes never change a frame already there |
| WsCodec.PrintReads | sdk/go/ws.go:338-412 | a printed frame reads back and consumes exactly its bytes, whatever follows, in all three length forms and under every mask |
| WsCodec.PrintIsShortest | sdk/go/ws.go:382-398 | whatever bytes read as a frame are at least as many as the printer writes |
| WsCodec.ByteReader.ReadFrame | sdk/go/ws.go:338-380 | reading in steps gives the frame the bytes hold and leaves the rest |
| WsMessages.Reassembles | sdk/go/ws.go:208-260 | for every script of fragmented messages and control frames anywhere between, the loop passes on the messages meant, in order, pings in order, and nothing after the end |
| WsMessages.AllHeard | sdk/go/ws.go:208-260 | a script that neither closes nor reports a stale cursor is heard whole: every event among its text messages and every ping, once |
| WsMessages.EveryFrame | sdk/go/ws.go:208-260 | for any frames at all, of any opcode and in any order: each passes on exactly the text message that it completes, each ping is seen, and only a close or a stale cursor ends the loop |
| WsMessages.BytesRun | sdk/go/ws.go:208-260 | reading printed frames from the stream is running over those frames; a stream that ends while open is an error |
| WsMessages.CutOff | sdk/go/ws.go:211-227 | any bytes cut off anywhere pass on a prefix of what the whole does |
| WsMessages.StreamHeard | sdk/go/ws.go:208-380 | end to end: any script, any masks, cut off at any byte, passes on a prefix of what was meant, and all of it when nothing is cut |
| WsMessages.Answer | sdk/go/ws.go:231-233 | a ping is answered by a pong with its own payload, after the earlier ones |
| WsMessages.Handle | sdk/go/ws.go:228-258 | one frame changes the loop's variables as the step function says |
| WsMessages.ReadLoop | sdk/go/ws.go:208-260 | the loop ends in the state its bytes determine, and the connection carries one pong per ping in order |
| EventPages.Store.ListMatching | crates/maidan-store/src/postgres/events.rs:193-238 | a store page of matching rows, or a failure |
| EventPages.Collect | crates/maidan-server/src/delivery.rs:96-108 | the readable rows of a store page up to a full answer, or to the first row whose visibility check fails; none before it fails |
| EventPages.ScanPage | crates/maidan-server/src/delivery.rs:81-111 | one store page makes an answer or a longer walk, which holds exactly the wanted rows that had committed by the read of their page |
| EventPages.ListEventsForShape | crates/maidan-server/src/delivery.rs:51-114 | the answer is sorted, readable, within the limit, holds exactly the wanted rows up to its last that had committed by the read of their store page, none of them unchecked, and is short only when nothing committed at the request is left, whatever commits between the store pages; it fails if one of its own store reads does, and otherwise only if a visibility check does |
| FollowLogs.PageSize | sdk/go/client.go:118-130 | the limit asked for is what the caller wants within 1 to 500, 500 above, 100 by default |
| FollowLogs.GetEvents | crates/maidan-server/src/routes/workspace.rs:1342-1380 | a negative cursor is refused; otherwise the page under the clamp of 1 to 500 |
| FollowLogs.Deliver | sdk/go/ws.go:162-167 | handing a page over moves the cursor to its last row |
| FollowLogs.Backfill | sdk/go/ws.go:135-171 | what is delivered is, in id order, exactly the wanted rows from the start to the cursor that had committed by the read of their page, also when a request fails; when it ends nothing committed at the start is left and none of its reads has failed; it terminates |
| FollowLogs.Feed | sdk/go/client.go:428-435 | a page goes to the callback up to and including the first row it refuses |
| FollowLogs.ListEventsAll | sdk/go/client.go:411-440 | the same walk, ended by the first row the callback refuses, by a failure, or complete |
| FollowLogs.ExactlyOnce | sdk/go/client.go:408-440 | on a log that stands still a complete walk is the wanted rows above the start, each once, in id order |
| FollowLogs.ShortIsLast | sdk/go/client.go:118-121 | asking for at most 500, a short page is the last |
| FollowLogs.AskingTooMuch | sdk/go/client.go:118-121 | asking for more, on every log with over 500 rows left the first page looks like the last |
| FollowLogs.CaughtUpHolds | crates/maidan-server/src/event_stream.rs:160-226 | a replay sends wanted rows above its cursor in order, and all of them when it read fewer than it may |
| FollowLogs.CaughtUpExactly | crates/maidan-server/src/event_stream.rs:160-226 | a replay, cut short or not, sends exactly the rows owed among the first 500 above its cursor |
| FollowLogs.CutoverCloses | crates/maidan-server/src/ws.rs:309-320 | an untruncated replay delivers everything above the cursor if and only if the cursor is positive or there is nothing |
| FollowLogs.Replay | crates/maidan-server/src/ws.rs:309-345 | the replay of a subscription is the function of the log and the cursor that `CutoverCloses` speaks of |
| FollowLogs.ColdStart | sdk/go/ws.go:58-60 | a run of `FollowLog` from zero that misses an event committed between its last page and its subscription |
| FollowLogs.LateRow | crates/maidan-server/src/event_stream.rs:299-304 | a run of `FollowLog` that ends with a positive cursor and misses a row committed below it after its page was read |
| FollowLogs.FollowLog | sdk/go/ws.go:133-182 | backfill plus replay hears nothing twice and in order and nothing committed at the start is missed; of what is committed at the subscription, untruncated, nothing is missed if and only if every such row at or below the cursor had committed by the read of its page, and the cursor is positive or there is none above it |
| LiveEvents.ForwardBusItems | crates/maidan-server/src/event_stream.rs:280-392 | the forwarding loop computes the stream its items determine |
| LiveEvents.ForwardedAscends | crates/maidan-server/src/event_stream.rs:297-350 | whatever the bus repeats, reorders or drops, what is forwarded ascends strictly from above the watermark |
| LiveEvents.LiveFollows | crates/maidan-server/src/ws.rs:284-333 | backfill, replay and live events are one strictly ascending sequence |
| LiveEvents.LiveExactly | crates/maidan-server/src/event_stream.rs:297-350 | over any mix of live items and lags whose replays were not cut short, an event is forwarded if and only if an item brings it from above the watermark at the start and above everything earlier items brought |
| LiveEvents.BroughtExactly | crates/maidan-server/src/event_stream.rs:297-343 | over any mix of items, an event that a live item or the log of an untruncated replay brings is forwarded if and only if it had been before or its id is above the watermark when the item comes |
| Idempotency.EmptyIsSound | scripts/test-mcp-fault-injection.py:72-84 | a server that has answered nothing is sound, so the rest holds of every run |
| Idempotency.ServeKeepsLedger | scripts/test-mcp-fault-injection.py:111-127 | keys and effects tell the same story: each key has exactly one effect, with its request and answer |
| Idempotency.ServeExplained | scripts/test-mcp-fault-injection.py:111-127 | the state is the effects applied once each in order, each answered as the application answers there |
| Idempotency.OncePerKey | crates/maidan-server/src/idempotency.rs:1-18 | whatever arrives, in whatever order and however often, a key has at most one effect and the state is exactly the effects |
| Idempotency.ServeSettles | crates/maidan-server/src/idempotency.rs:139-175 | an answer to a request under its own key is the answer of the key's one effect, or frees the key and there was none |
| Idempotency.ServeAnswers | scripts/test-mcp-fault-injection.py:111-127 | on every sound server a keyed write is refused with 422, and nothing changes, if its key has run another request; otherwise its answer settles that very request |
| Idempotency.RefusedExactly | scripts/test-mcp-fault-injection.py:117-118 | a keyed write gets that refusal if and only if its key has run another request, when the application does not give it itself |
| Idempotency.ServeReplays | scripts/test-mcp-fault-injection.py:119-122 | a write that has had its effect gets the answer of it again and changes nothing; one whose key has had none runs |
| Idempotency.ServeRuns | scripts/test-mcp-fault-injection.py:113-127 | without a key, and for what does not write, every request runs and no key is spent |
| Idempotency.AtMostOne | crates/maidan-server/src/idempotency.rs:3-10 | the count of effects of a key is at most one, and one if there is any |
| Idempotency.HonestExactly | crates/maidan-server/src/idempotency.rs:12-15 | every run leaves exactly the effects applied once each if and only if the application changes nothing when its answer frees a key |
| Idempotency.FreedKeyRunsAgain | crates/maidan-server/src/idempotency.rs:61-75 | a request whose answer frees its key runs again on top of the first run |
| RetryingSend.RetryDelay | sdk/go/client.go:142-153 | exactly what the server asked for, at most 60 seconds, when its header is at least zero; otherwise from half the doubling base up to the base |
| RetryingSend.Wire.RoundTrip | sdk/go/client.go:214-232 | one attempt over a network that may lose it, lose or cut its answer, answer in its place, or deliver other requests first, and exactly what the client sees of it |
| RetryingSend.Attempt | sdk/go/client.go:202-243 | an attempt keeps the server sound; the server's own answer settles the write, and only that is an answer the client does not retry |
| RetryingSend.Send | sdk/go/client.go:180-249 | for every fault schedule the write takes effect at most once and a success carries the answer of that one effect; the client asks again exactly while the reply calls for it and a try is left, waits after each as it says, and returns what the last reply makes of it; with fewer fates than tries, or fewer faults when the application gives no answer that is retried, it ends with the server's own answer |
| RetryingSend.SendTries | sdk/go/client.go:190-243 | the loop of tries: again exactly while the reply calls for it and a try is left |
| RetryingSend.WaitsAsAsked | sdk/go/client.go:142-153 | the client waits at least as long as the server asked for after each reply, and at most a minute each time |
| RetryingSend.FewFaults | sdk/go/client.go:172-179 | with fewer faults than tries the last reply is not one that is retried |
| RetryingSend.RetriedIsFreed | sdk/go/client.go:155-167 | every answer the client retries frees its key on the server, and of those that do it does not retry exactly 425, a conflict other than a key in flight, and the other server errors |
| RetryingSend.VerdictTells | sdk/go/client.go:234-247 | a success that is returned can be read, and only one that cannot is called unreadable |
| RetryingSend.BaseDoubles | sdk/go/client.go:151 | the base of the wait starts at half a second and doubles up to eight |
| RetryingSend.RetryWait | examples/seat-runner/seat_runner.py:237-245 | between 0 and 60 seconds, what the header says when it is in that range and the doubled backoff below a minute without one; sleeping raises if and only if the header is not a number, or there is none and the backoff is negative, not a number or doubled beyond the floats |
| RetryingSend.Write | examples/seat-runner/seat_runner.py:466-481 | the runner's write settles like the client's; it asks again exactly while the reply calls for it, an attempt is left and the wait can be slept, raises exactly when it cannot, and has slept the other waits |
| RetryingSend.WriteTries | examples/seat-runner/seat_runner.py:466-481 | the loop of tries, with the waits slept between them |
| SeatBoards.BoardHonest | scripts/test-mcp-fault-injection.py:143-174 | an answer of the board that frees its key changed nothing, and none looks like the refusal of a reused key |
| SeatBoards.RouteKeeps | scripts/test-mcp-fault-injection.py:134-174 | every request keeps: each thread in exactly one of queued, held, released; writes recorded only between the one claim of their lease and its release; no thread or lease claimed twice |
| SeatBoards.FencedExactly | scripts/test-mcp-fault-injection.py:143-168 | a fenced write is recorded if and only if, by the record, its lease was issued for its thread and the thread has not been released since; otherwise it is refused and nothing changes |
| SeatBoards.ClaimedExactly | scripts/test-mcp-fault-injection.py:134-141 | a claim takes the first queued thread under a lease never issued before; when none is queued the answer says so and nothing changes |
| SeatBoards.RouteKeepsOrder | scripts/test-mcp-fault-injection.py:134-141 | what was claimed, followed by what is queued, stays the same list |
| SeatBoards.FakeMaidan.TakeClaim | scripts/test-mcp-fault-injection.py:134-141 | the first queued thread goes out under a new lease |
| SeatBoards.FakeMaidan.Write | scripts/test-mcp-fault-injection.py:143-168 | a fenced write is recorded under the live lease or refused, and a release ends the lease |
| SeatBoards.FakeMaidan.RouteTo | scripts/test-mcp-fault-injection.py:150-174 | the route changes the board as the specification says |
| SeatBoards.FakeMaidan.Answers | scripts/test-mcp-fault-injection.py:111-127 | answering under a key is serving it: replay, refusal of a reused key, or a run kept or freed; replays are counted |
| SeatRuns.StepKeeps | examples/seat-runner/seat_runner.py:466-570 | every step of any seat, any arrival of any post and anything the rest of the world posts keep the board, the keys and what each seat believes in agreement |
| SeatRuns.RunKeeps | examples/seat-runner/seat_runner.py:490-570 | the same over every finite run |
| SeatRuns.ThreadsConserved | scripts/test-mcp-fault-injection.py:134-168 | in every run each thread is in exactly one place and the board knows no others |
| SeatRuns.ClaimsInOrder | scripts/test-mcp-fault-injection.py:134-141 | in every run threads are claimed in the order they were queued in |
| SeatRuns.WritesFenced | scripts/test-mcp-fault-injection.py:143-168 | in every run every recorded write is under the lease live at that moment |
| SeatRuns.OneClaimPerRun | examples/seat-runner/seat_runner.py:466-481 | two claims taken by posts of one run are the same effect, whatever happened to requests and answers; a claim the run learned of is that effect; and all its posts carry a key |
| SeatRuns.TriesBounded | examples/seat-runner/seat_runner.py:466-481 | in every run no seat makes more tries of a write than it is configured for |
| SeatRuns.LostIsRetried | examples/seat-runner/seat_runner.py:466-481 | a write is tried again exactly after no answer or a passing failure and while an attempt is left, under the same key and asking for nothing new |
| SeatRuns.SameRetries | examples/seat-runner/seat_runner.py:54-56 | the runner retries exactly the statuses that the client does |
| SeatRuns.ClaimDecides | examples/seat-runner/seat_runner.py:512-532 | in every run a seat that waits for its claim has one in hand if and only if it hears of it from the board, the one on record for that run, and goes on to acknowledge it; otherwise it is idle and has asked for nothing |
| SeatRuns.AckDecides | examples/seat-runner/seat_runner.py:533-555 | in every run a seat that waits for its acknowledgement runs the claim if and only if it hears from the board that it was acknowledged and is not stopping; otherwise it asks for the release with nothing run |
| SeatRuns.SeatsApart | examples/seat-runner/seat_runner.py:512-536 | no two seats ever hold the same thread |
| SeatRuns.RunningHolds | examples/seat-runner/seat_runner.py:533-561 | nothing runs without a claim acknowledged after it was taken, and the seat has not asked to release what it runs |
| SeatRuns.LearnedIsReleased | examples/seat-runner/seat_runner.py:512-570 | from the step that tells a seat of a claim on, in every run, the seat has the claim in hand or has posted its release |
| SeatRuns.ReleaseFollowsRun | examples/seat-runner/seat_runner.py:564-570 | however a run goes on from a seat running its claim, the seat has it in hand or has posted its release since, and every release of that run comes after |
| SeatRuns.WorkBegins | examples/seat-runner/seat_runner.py:512-555 | from every world a run reaches, with an idle seat and a queued thread, the run can go on to the seat running the first of them |
| SeatRuns.WorkEnds | examples/seat-runner/seat_runner.py:555-570 | from every world a run reaches, with a seat running a thread, the run can go on to its release as run, the thread released and the seat idle |
| SeatRuns.WorkGetsDone | examples/seat-runner/seat_runner.py:490-570 | for every queue with a thread and any seats there is a run in which the first thread is run and then released |
| ProcessTrees.Children | examples/seat-runner/seat_runner.py:330-332 | the children of every pid, each listed under its parent |
| ProcessTrees.Walk | examples/seat-runner/seat_runner.py:329-338 | the worklist finds exactly the descendants of a live root and terminates on any parent table |
| ProcessTrees.Tree.Scan | examples/seat-runner/seat_runner.py:323-347 | exactly the descendants of a root not yet reaped, remembered pids still in their group, and members of remembered groups; never the reaped root, never the runner's own group |
| ProcessTrees.Tree.Refresh | examples/seat-runner/seat_runner.py:349-357 | remembers the pids found and the live groups, reaped or not, and forgets the reaped root's group once nothing of the tree is in it |
| ProcessTrees.Tree.RootReaped | examples/seat-runner/seat_runner.py:318-321 | reaping is remembered and drops the root's pid |
| ProcessTrees.NeverReturns | examples/seat-runner/seat_runner.py:296-309 | once the root is reaped and a group forgotten, no process with that number in any later table enters, over every run |
| ProcessTrees.Forgets | examples/seat-runner/seat_runner.py:349-357 | a reaped tree forgets the root's group when it sees nothing of its own there, and any group with no process |
| ProcessTrees.RootGroupNeverReturns | examples/seat-runner/seat_runner.py:349-357 | both together: from the first look that finds the root's group empty it stays so for the tree |
| ProcessTrees.ReapedRootIsOut | examples/seat-runner/seat_runner.py:318-347 | once reaped the root's pid is never a member, over every run and whoever has it |
| ProcessTrees.ReuseExactly | examples/seat-runner/seat_runner.py:343-357 | a process in a group the reaped tree remembers is taken for its own if and only if it does not have the root's pid, the group is not the runner's, and every look so far kept the group |
| ProcessTrees.TrackedExactly | examples/seat-runner/seat_runner.py:311-357 | after any looks, before or after the root is reaped, a tree remembers a group if and only if it is the root's or a look showed a descendant there before the reaping, and no look since found it empty |
| ProcessTrees.MemberExactly | examples/seat-runner/seat_runner.py:296-357 | over every run and in every table: a process belongs to the tree if and only if it descends from a root not reaped or is in such a group, and is neither in the runner's group nor the reaped root's pid |
| ProcessTrees.GroupStays | examples/seat-runner/seat_runner.py:296-301 | a group in which a look found one of the tree's processes stays the tree's until a look finds it empty |
| ProcessTrees.ProcessStays | examples/seat-runner/seat_runner.py:296-301 | a process found once stays found while all tables show it in the same group, reparented or not |
| ProcessTrees.UnseenReuse | examples/seat-runner/seat_runner.py:343-345 | a group taken again between two looks is not told apart |
| Batching.GreedyIsSplit | crates/maidan-bus/src/resource_notify.rs:193-217 | the greedy batches concatenate to the input, none is empty, and every one of two or more fits by exact serialized length |
| Batching.GreedyIsOptimal | crates/maidan-bus/src/resource_notify.rs:193-217 | no order-preserving split with that property has fewer batches |
| Batching.ChunkWithinLimit | crates/maidan-bus/src/resource_notify.rs:198-217 | the running length count makes exactly the greedy split |
| Batching.StoppedAt | crates/maidan-bus/src/resource_notify.rs:170-182 | where publishing stops: at the first batch that is a lone oversized update, if any |
| Batching.Publish | crates/maidan-bus/src/resource_notify.rs:170-186 | everything goes out in order in the greedy batches, or everything before the first oversized update does |
| Usage.Add | sdk/go/usage.go:114-123 | the sum is exact or refused, exactly when it leaves int64 |
| Usage.Uncached | sdk/go/usage.go:125-136 | total minus tiers, refused exactly when the tiers exceed the total or overflow |
| Usage.InclusiveShape | sdk/go/usage.go:211-231 | input and cache tiers together are the provider's prompt total |
| Usage.BedrockDetails | sdk/go/usage.go:167-199 | each retention's writes are summed apart, and refused exactly when a detail is malformed or a sum overflows |
| Usage.USDMicros | sdk/go/usage.go:411-434 | the exact ceiling of the price, with both refusals exactly when they apply |
| Usage.RatesApply | sdk/go/usage.go:411-434 | each tier is billed at its own rate |
| Usage.BilledApart | sdk/go/usage.go:411-434 | billing n reports apart instead of together costs between 0 and n-1 micro-dollars more |
| Usage.BoundIsReached | sdk/go/usage.go:411-434 | for every n up to a million, n reports whose bills apart exceed the bill together by exactly n-1 |
| Authority.ValidateHeld | crates/maidan-auth/src/capability_set.rs:96-104 | accepted if and only if every capability is known and held |
| Authority.UniqueInOrder | crates/maidan-auth/src/capability_set.rs:106-124 | the loop removes repeats as the specification does |
| Authority.FirstsKeepOrder | crates/maidan-auth/src/capability_set.rs:106-124 | removing repeats keeps the order of first appearance |
| Authority.Attenuate | crates/maidan-auth/src/capability_set.rs:126-132 | granted if and only if the request is non-empty, known and held; then exactly the requested capabilities, each once |
| Authority.GrantIsAttenuation | crates/maidan-auth/src/capability_set.rs:134-161 | a progressive grant under a named set is attenuating by the intersection of holder and set, and by the whole set when nothing is requested |
| Authority.HeldSets | crates/maidan-auth/src/capability_set.rs:87-94 | the named sets held are exactly those held in full |
| Authority.WorkerSet | crates/maidan-auth/src/capability_set.rs:30-86 | the worker set is exactly the work that can be delegated, and neither it nor the default mint holds authority |
| Authority.AdminSet | crates/maidan-auth/src/capability_set.rs:30-86 | the admin set is exactly the worker set and the authority other than federation and approvals |
| Authority.AttenuateExpiry | crates/maidan-auth/src/capability_set.rs:163-182 | never past a bounded parent, never in the past, refused exactly then |
| Authority.DelegatedExpiry | crates/maidan-auth/src/capability_set.rs:184-215 | the narrowing of a local is the least of all ceilings |
| Authority.DelegatedUntil | crates/maidan-auth/src/capability_set.rs:184-215 | granted if and only if the request is in the future and below the grant, the parent and the longest lifetime |
| Authority.RecheckNeverRefuses | crates/maidan-server/src/routes/token.rs:304-319 | the second check of an attenuated grant, against the mint vocabulary, never refuses |
| Authority.AttenuatesExactly | crates/maidan-server/src/routes/token.rs:304-340 | when an attenuation is granted, and what it grants in full |
| Authority.DelegatesExactly | crates/maidan-server/src/routes/token.rs:400-447 | when a delegation is granted, and what it grants in full: the work among what is asked for, lent and held |
| Authority.MintsExactly | crates/maidan-server/src/routes/token.rs:56-91 | when a mint is granted, and what it grants in full: what is asked for, the named set, or the default |
| Authority.AuthorityOnlyShrinks | crates/maidan-server/src/routes/token.rs:56-447 | over every chain of attenuations, delegations and mints, capabilities are within every ancestor's, known, and each named once |
| Authority.DelegationEndsAuthority | crates/maidan-auth/src/context.rs:123-146 | after a delegated context no authority capability reappears, and only attenuations follow |
| Authority.ExpiryOnlyShrinks | crates/maidan-auth/src/capability_set.rs:163-215 | a credential bounds everything derived from it along a chain if and only if every mint on the way is until a time within its expiry |
| Authority.DelegationBoundsExpiry | crates/maidan-server/src/routes/token.rs:400-447 | after a delegation the grant's and the delegate's expiry bound everything that follows |
| Authority.BoundedExactly | crates/maidan-server/src/routes/token.rs:56-447 | a derived credential is bounded by its parent's expiry if and only if it was not minted, or minted until a time within it |
| Authority.MintMayOutlive | crates/maidan-server/src/routes/token.rs:56-91 | a mint hands out any held capability until any time, past the parent's expiry too |
| Visibility.EnsureDmParticipant | crates/maidan-auth/src/access.rs:91-109 | participation in the conversation behind a thread, exactly unless one of its reads failed |
| Visibility.AuthorizeThread | crates/maidan-auth/src/access.rs:133-157 | the scope and the access rule in one pass, exactly unless one of its reads failed |
| Visibility.CanAccessThread | crates/maidan-auth/src/access.rs:180-190 | forbidden becomes false, store errors stay errors |
| Visibility.TenantsApart | crates/maidan-auth/src/access.rs:133-157 | a thread of another workspace is refused to everyone who does not bypass the rule |
| Visibility.Readers | crates/maidan-auth/src/access.rs:91-157 | within a workspace exactly the two members of a conversation, the members of a group, the members of a private channel, or everyone may read |
| Visibility.PrivateChannelDenySet | crates/maidan-auth/src/access.rs:65-84 | exactly the private channels the caller is not in, the shared conversation channel left out |
| Visibility.DeniedIsHidden | crates/maidan-auth/src/access.rs:58-84 | a denied channel holds nothing the caller may read |
| Visibility.DeniedExactly | crates/maidan-auth/src/access.rs:58-84 | of the caller's workspace the deny set leaves out exactly the channels, other than the direct-message one, that are not shown |
| Visibility.ShownToAll | crates/maidan-auth/src/event_visibility.rs:55-87 | a caller that bypasses the rule sees everything, and an event of neither thread nor channel is shown to everyone |
| Visibility.ChannelLikeItsThreads | crates/maidan-auth/src/event_visibility.rs:60-99 | a channel's own events are shown exactly to those who may read its threads, and the direct-message channel's to nobody |
| Visibility.PreFilterKeepsMeaning | crates/maidan-auth/src/access.rs:55-64 | filtering by the deny set first and then by thread access equals thread access alone |
| Visibility.EventVisibility.AllowsIn | crates/maidan-auth/src/event_visibility.rs:49-99 | every answer, memoised or not, is the uncached rule's, exactly unless one of its own reads failed; that is an error that memoises nothing, and what is memoised is answered without a read |
| Visibility.EventVisibility.ReadChannel | crates/maidan-auth/src/event_visibility.rs:75-99 | the rule for a channel's own events, or the failure of one of its reads |
| Visibility.EventVisibility.AnswerAll | crates/maidan-auth/src/event_visibility.rs:38-87 | for any sequence of queries with any read failures, every answer given is the uncached rule's, and one is missing if and only if a read failed |

## Left out

- The Postgres LISTEN task, its probe and the SQL: input and output; only the order of LISTEN before the head read is kept.
- The sharded fan-out behind a publish: a replica's deliveries are one sequence.
- Inline notification payloads and their size limit: one check, no state.
- UTF-8 decoding and JSON: a block's encoding, an update's text and what a text message decodes to are parameters.
- The local `Close` of a subscription while its read loop runs, and a frame length too large for memory: the loop here ends on the peer's close, a stale cursor or the end of the stream.
- The WebSocket handshake and URL handling: no state to keep.
- `ThreadsService.ListAll`: the same walk as `ListEventsAll` with a thread id as its cursor.
- Pruned logs, durable consumer cursors and the at-least-once mode: the log here keeps every row and the follower brings its own cursor.
- LiveEvents.ForwardBusItems: the delivery cursor it persists for a durable consumer and a client that hangs up are not modelled.
- The server's single unfiltered read when there is neither a shape nor a visibility check: the same answer by one store page.
- RetryingSend.Send: only writes, since a read carries no key and changes nothing.
- Answers from something between a client and the server that look genuine: one in the server's place is a retryable status or not JSON.
- Request fingerprints by hash: a key holds the request itself, so collisions do not exist here.
- The lock lifetime and retention of idempotency keys, streamed and oversized answers: a key in the model is served at once and kept for good.
- A board request without a lease id: a seat always names one.
- Lease expiry on the board: the fault-injection double has none.
- Signals, grace periods and the kill loop of a process tree: only membership is modelled.
- Per-token quotas, workspaces and installations on derived tokens: capabilities and expiry only.
- The readers of single usage providers and the lists of unassigned reviews and human waits: straight-line field access and filters over what is modelled.
- Database failures inside a resource publish: publishing stops there, with nothing more to say.
