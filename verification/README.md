# Verified model of the TRID3NT client

A Dafny model of the parts of TRID3NT that decide what reaches the wire, the map and the reports, with
proofs of what they promise. `dafny verify dfyconfig.toml` checks all of it.

**The WebSocket client** (plugin/net/trid3nt_client.py). `FrameCodec` is the byte layout of a frame,
`ConnectionSpec` a machine on streams of bytes, silences and endings, `Sockets` the chunks TCP delivers,
and `WebSocket` the class with its buffer and loops, proved to do exactly what the machine does however
the bytes are cut. `Reassembly` shows the machine equal to an automaton on frames, `Messages` that the
automaton returns the text messages of every stream that is well formed under section 5.4 of RFC 6455,
`Refusals` where it refuses one, `CloseHandshake` what goes out and is reported when either side closes,
`Conservation` and `Upgrade` that no byte is lost on the way, and `WholeStream` joins the two.

**The session** (same file). `SessionSpec` is `AgentClient` call by call and `Session` the class proved
against it, on the numbered frames of `Submissions`, and `LinkRuns` shows that every connection of the
byte machine is one of the session's; `SessionReplies` says exactly when its calls return; `SessionRuns` and `HandshakeOrder` hold for every sequential run,
`Interleaving` for every schedule of concurrent senders and one flushing worker, and `Races` and
`Stragglers` give the exact conditions under which such schedules go wrong.

**The reconnect worker** (plugin/net/ws_bridge.py). `WorkerSpec` and `Worker` are specification and
class; `SignalTrace` gives the exact language of its signals, `WorkerRuns` which signals come of which
events, dials and stops, `Ladder` the waits.

**Coverage geometry** (contracts/trid3nt_contracts/coverage.py): `RayCast`, `Coverage`.
**The model checker** (scripts/model_check.py): `SeamModel`, `ModelCheck`, `Conformance`, `Rulebook`, on `Names`,
`Paths`, `DottedNames` and `TestLines`.
**Smaller cores**: `JsonField` and `JsonText`, `Ulid`, `BreakSeeding`; layers in `LayerSpec`, `LayerRuns`,
`LayerPlaces`, `Layers`; cards in `Gate`, `CardSpec`, `CardAnswers`, `Cards`. `Wrappers` and `Bits` are shared.

The model follows the code. Where that differs from what its documentation says or suggests, the
difference is a result here, with the exact condition:

- `close` can raise `ConnectionClosed`, and then one redial fails before it dials
  (`ConnectionSpec.CloseRaisesExactlyWhen`, `SessionRuns.OneRedialIsWasted`).
- The size guard of the upgrade depends on how TCP cut the answer
  (`Upgrade.HeadAcceptedUnderEveryChunking`).
- The first control frame inside a fragmented binary message is swallowed, so at most one ping goes
  unanswered (`Messages.OnlyTheFirstControlIsSwallowed`); a Close in that place is lost, code and echo
  (`Messages.CloseIsSeenBehindAControl`).
- `create_case` on a half-open connection overtakes the handshake (`HandshakeOrder.OrderHoldsExactly`).
- A sender that checks `connected` and acts later can leave a frame stranded on a healthy connection, send
  ahead of a handshake, overtake a queued frame (`Races`), or come behind a younger queued one
  (`Stragglers`), each under an exact condition on what is in progress.
- `json_field` raises where `json.dumps` fails on the value - keys, too many digits, a cycle, too much
  nesting, an object without a `str` - and `str` of the value raises as well or shows a lone surrogate
  (`JsonText.FieldRaisesExactlyOn`).
- An untouched settings gate overrides the suggested duration with what its box shows of it, unless that
  reads back as the suggestion (`CardSpec.UntouchedProceeds`).
- Of definitions that share a constructor only the last is checked (`Conformance.AuthorRuleIsExact`), and
  `foo.py` hides `foo/` from a forbid rule (`Conformance.SweepIsExact`).
- A duration override goes under `duration_hr` where the envelope names no key (`Gate.KeysAreNamed`).
- `set_case` adopts every stamped layer that clearing leaves in the project, which is what the case's own
  groups hold only if none strays (`LayerRuns.AdoptionIsTheCasesOwn`); a stray layer keeps the case's own
  row from being built (`LayerRuns.StrayBlocksItsRow`). And it removes whatever sits in another group named
  as the program's own, the user's layers included (`LayerRuns.ClearTakesForeignLayers`).

## Model

| member | source | states |
|---|---|---|
| FrameCodec.ApplyKeyInvolution | plugin/net/trid3nt_client.py:1136-1137 | masking twice with the same key gives the payload back (RFC 6455, section 5.3), for every key and payload |
| FrameCodec.BigEndianRoundTrip | plugin/net/trid3nt_client.py:1134-1135 | a length written big-endian in enough bytes is read back unchanged |
| FrameCodec.MinimalFormIsShortest | plugin/net/trid3nt_client.py:1130-1135 | the length form the writer chooses is the shortest that can carry the length (section 5.2) |
| FrameCodec.EncodeAllConcat | plugin/net/trid3nt_client.py:1138-1140 | frames written one after the other are the concatenation of their encodings |
| Reassembly.DecodeEncoded | plugin/net/trid3nt_client.py:1197-1219 | reading back an encoded frame, for every opcode, length form, masking and payload within the limit, whatever follows: same fin, opcode and payload, and exactly the tail is left |
| Reassembly.UniquelyDecodable | plugin/net/trid3nt_client.py:1197-1219 | the first n frames of a stream are determined by its bytes, and so is what follows them, whatever that is |
| Reassembly.EncodingsAreUnique | plugin/net/trid3nt_client.py:1197-1219 | a concatenation of frames can be cut into frames in one way only, their number included |
| Reassembly.WireStreamIsEncodeAll | plugin/net/trid3nt_client.py:1197-1219 | the stream the frame theorems speak of is the concatenated encodings |
| Reassembly.OneFrame | plugin/net/trid3nt_client.py:1154-1195 | on an encoded frame the loop of `recv` takes exactly the step the frame automaton takes |
| Reassembly.RunsFrames | plugin/net/trid3nt_client.py:1144-1195 | on any sequence of encoded frames the byte machine ends where the frame automaton ends, or goes on behind the last of them in the automaton's state |
| ConnectionSpec.ReadStep | plugin/net/trid3nt_client.py:1221-1253 | an exact read returns its n bytes and takes just those, or fails, or reports an expired wait only where the caller allows that; nothing but the stream changes |
| ConnectionSpec.CloseRaisesExactlyWhen | plugin/net/trid3nt_client.py:1106-1119 | `close` raises exactly when an open connection cannot write its Close frame: `_send_frame` raises `ConnectionClosed`, `close` only catches `OSError` |
| Sockets.ChunksAreInvisible | plugin/net/trid3nt_client.py:1235-1253 | the item stream of a connection depends on the bytes delivered and not on how TCP cut them |
| Sockets.Socket.SendAll | plugin/net/trid3nt_client.py:1139-1140 | a write appends all its bytes to the wire or fails |
| WebSocket.WebSocketConnection.constructor | plugin/net/trid3nt_client.py:1036-1050 | a fresh connection: nothing sent, empty buffer |
| WebSocket.WebSocketConnection.FinishUpgrade | plugin/net/trid3nt_client.py:1082-1104 | the header loop in place: same outcome, unread chunks and kept bytes as the pure split of the chunk list |
| WebSocket.WebSocketConnection.BuildHeader | plugin/net/trid3nt_client.py:1127-1134 | the header of a frame is that of section 5.2 in its minimal length form |
| WebSocket.WebSocketConnection.SendFrame | plugin/net/trid3nt_client.py:1124-1142 | the frame is written masked whatever key is drawn; the wire stays the preamble followed by the encodings of exactly the frames sent |
| WebSocket.WebSocketConnection.Close | plugin/net/trid3nt_client.py:1106-1119 | the whole new state of the connection, and whether it raises |
| WebSocket.WebSocketConnection.Pull | plugin/net/trid3nt_client.py:1235-1251 | one turn of the read loop leaves the stream what it was or is the outcome of the read |
| WebSocket.WebSocketConnection.ReadExact | plugin/net/trid3nt_client.py:1221-1253 | over any chunks, the buffered read does to buffer and unread chunks what the machine does to the stream |
| WebSocket.WebSocketConnection.ReadLength | plugin/net/trid3nt_client.py:1206-1211 | the extended length is read as the machine reads it |
| WebSocket.WebSocketConnection.ReadPayload | plugin/net/trid3nt_client.py:1214-1219 | key, payload and unmasking as the machine does them |
| WebSocket.WebSocketConnection.RecvFrame | plugin/net/trid3nt_client.py:1197-1219 | one frame, an expired wait before its first byte, or an error, as in the machine |
| WebSocket.WebSocketConnection.SkipBinary | plugin/net/trid3nt_client.py:1176-1183 | the loop over the rest of a binary message, which takes any frame for a continuation |
| WebSocket.WebSocketConnection.AnswerClose | plugin/net/trid3nt_client.py:1164-1175 | the Close handshake and the error it ends in, the case that the answering `close` raises included |
| WebSocket.WebSocketConnection.Recv | plugin/net/trid3nt_client.py:1144-1195 | the loop in place equals the machine on the whole state, and an expired wait leaves the buffer empty |
| Messages.RecvReturnsTheTexts | plugin/net/trid3nt_client.py:1144-1195 | main result: on every stream that is well formed under section 5.4 - text in any fragments, control frames anywhere, binary messages fragmented or not, any length form or masking - successive calls return exactly the text messages in order, then meet what comes behind; and exactly the pings that are not swallowed have been answered, in order |
| Messages.RecvReturnsTheTextsOnAnyChunking | plugin/net/trid3nt_client.py:1144-1253 | the same for every cut of the bytes into TCP chunks, with an empty buffer at the start |
| Messages.RecvUnit | plugin/net/trid3nt_client.py:1154-1195 | one unit of the stream: a text message ends the call right behind itself, anything else is passed over |
| Messages.BinaryEarlyEnd | plugin/net/trid3nt_client.py:1176-1183 | a control frame inside a binary message ends the skipping; the continuations left over are discarded and the later pings answered |
| Messages.TextRun | plugin/net/trid3nt_client.py:1185-1194 | the continuations of a text message, with the control frames between them, complete it |
| Messages.AnswersAreSent | plugin/net/trid3nt_client.py:1157-1162 | while writes succeed, every answer is one pong that echoes its ping |
| Messages.OnlyTheFirstControlIsSwallowed | plugin/net/trid3nt_client.py:1176-1183 | a fragmented binary message costs at most one answer: exactly the first control frame inside it, if that is a ping |
| Messages.CloseIsSeenBehindAControl | plugin/net/trid3nt_client.py:1163-1183 | a Close frame inside an unfinished binary message, in any dress and whatever follows: it is echoed and its code reported if and only if another control frame came before it in that message; else `recv` goes on behind it as on a connection that never carried it |
| Messages.InnerRun | plugin/net/trid3nt_client.py:1176-1183 | of the control frames inside a binary message the first is swallowed, and every ping behind it is answered |
| CloseHandshake.CloseIsAnswered | plugin/net/trid3nt_client.py:1163-1175 | main result: `recv` meets a Close frame on an open connection, in any dress, with any fragments collected and anything behind it: the first two bytes of its payload are echoed, then a Close with code 1000 goes out, each as far as its write succeeds; the error carries 256 times the first byte plus the second, or none for a shorter payload, and none where the second write failed; the socket is gone exactly where it succeeded |
| CloseHandshake.CloseAfterAFailedClose | plugin/net/trid3nt_client.py:1106-1119 | after a `close` that could not be written: the echo alone, and the peer's code all the same |
| CloseHandshake.CloseBehindAControl | plugin/net/trid3nt_client.py:1163-1183 | a Close inside a binary message behind another control frame: the pongs, the echo, the goodbye, and the code reported |
| CloseHandshake.CloseSaysGoodbye | plugin/net/trid3nt_client.py:1106-1119 | `close` on an open connection writes one Close frame, its code in two bytes and its reason cut at 120, and raises exactly where that write fails |
| Refusals.TextIsReturnedExactly | plugin/net/trid3nt_client.py:1184-1194 | a whole text message, however fragmented, is returned if it is within the limit and refused otherwise |
| Refusals.NothingLongerIsReturned | plugin/net/trid3nt_client.py:1189-1191 | whatever came, what is returned keeps to the limit |
| Refusals.TooLongFrame | plugin/net/trid3nt_client.py:1213-1215 | a frame longer than the limit is refused on its length, in any dress |
| Refusals.NewTextIsRefused | plugin/net/trid3nt_client.py:1185-1186 | a new text frame inside a text message is refused |
| Refusals.SilenceInsideIsALoss | plugin/net/trid3nt_client.py:1151-1154 | an expired wait, or the end of the stream, inside a text message is a lost connection and no timeout |
| Refusals.SilenceInsideBinaryIsALoss | plugin/net/trid3nt_client.py:1176-1183 | the same inside a binary message that is skipped |
| Refusals.SilenceBetweenIsATimeout | plugin/net/trid3nt_client.py:1151-1155 | between messages an expired wait is reported and costs nothing else |
| Upgrade.UpgradeConserves | plugin/net/trid3nt_client.py:1082-1091 | head, blank line, kept bytes and unread chunks are the socket's stream, and the cut is at the first blank line, for every chunking |
| Upgrade.EarlyHeadIsRead | plugin/net/trid3nt_client.py:1083-1091 | a head that ends early enough, or an answer short enough as a whole, is accepted whatever the chunks |
| Upgrade.LateHeadMayBeRefused | plugin/net/trid3nt_client.py:1088-1089 | past that bound some chunking of any longer answer makes the size guard fire |
| Upgrade.HeadAcceptedUnderEveryChunking | plugin/net/trid3nt_client.py:1083-1091 | for every answer with a blank line: it is accepted under every chunking if and only if the blank line starts by byte 61437 or the answer is at most 65536 bytes long |
| WholeStream.UpgradedConnectionReturnsTheTexts | plugin/net/trid3nt_client.py:1082-1195 | from the first byte of the socket: if the bytes are a head, its blank line and encoded frames, then under every chunking that is accepted the connection that begins with what the upgrade kept and left unread returns exactly the texts, in order |
| WholeStream.UpgradeStopsAt | plugin/net/trid3nt_client.py:1083-1091 | the head is what stands before the first blank line of all the bytes; kept and unread bytes together are what stands behind it |
| Conservation.TimeoutCostsNoText | plugin/net/trid3nt_client.py:1154-1160 | `recv` returns None only between messages: it has taken whole frames that were passed over, no text fragment among them, and the rest of the stream is untouched |
| Conservation.MessageLeavesTheRest | plugin/net/trid3nt_client.py:1185-1194 | a message leaves exactly the rest of the stream behind it |
| Conservation.FrameLeaves | plugin/net/trid3nt_client.py:1197-1219 | a frame takes a prefix of the stream, an expired wait only the wait |
| SessionRuns.EveryRunKeepsTheOrder | plugin/net/trid3nt_client.py:1306-1350 | main result: in every sequential run of connect, send, create, refresh, receive, loss and close, `connected` means an empty queue; the queueable frames put on the wire over all connections, followed by the queue, are the submission order minus the dropped frames, each there once; and none went out before its connection's handshake was complete |
| SessionRuns.StepKeeps | plugin/net/trid3nt_client.py:1306-1431 | every public call keeps the invariant of the ledger |
| SessionRuns.FlushKeeps | plugin/net/trid3nt_client.py:1731-1744 | a flush keeps the ledger wherever it fails: what was not sent is queued again in front |
| SessionRuns.EnqueueKeeps | plugin/net/trid3nt_client.py:1725-1729 | a full queue drops its oldest frames and the ledger says which |
| SessionRuns.HandshakeIsFourEvents | plugin/net/trid3nt_client.py:1316-1341 | a completed handshake is token sent, ack with a user id received, resume sent, session-state received, in this order |
| SessionRuns.OneRedialIsWasted | plugin/net/trid3nt_client.py:1310-1315 | a redial is wasted before it dials exactly on an open connection whose Close frame cannot be written, and at most once on it: whatever is called in between, the next redial gets through to the dial |
| SessionReplies.ConnectReturnsExactly | plugin/net/trid3nt_client.py:1306-1350 | main result: over a connection that opens and carries every write, `connect` returns if and only if an ack with a user id and behind it a session state come before any loss, Close, violation, deadline or the end, with only other types, junk and silence before each; where it raises, the flag is down |
| SessionReplies.ConnectDoes | plugin/net/trid3nt_client.py:1306-1362 | what it has done then: the flag is up, the queue empty, and the wire has carried the token, the resume, the old queue in order and one frame for each stored credential |
| SessionReplies.ReturnedMeansFlushed | plugin/net/trid3nt_client.py:1306-1350 | whatever the dial and the fates of its writes, `connect` returns only where the new connection has carried all that was queued, in order |
| SessionReplies.ConnectFailsEarly | plugin/net/trid3nt_client.py:1306-1315 | a dial that fails, or a farewell to the old connection that does, makes it raise with the flag down and the queue untouched |
| SessionReplies.WaitIs | plugin/net/trid3nt_client.py:1760-1782 | a wait drains everything up to the first envelope of the wanted type and returns that, or raises at what comes first that ends it; a lost connection lowers the flag |
| SessionReplies.CreateReturnsExactly | plugin/net/trid3nt_client.py:1375-1393 | `create_case` returns if and only if an opened case with an id comes first, other cases and types passed over |
| SessionReplies.IntentGoesOutOrWaits | plugin/net/trid3nt_client.py:1701-1723 | a frame that may be queued goes out at once where the client is connected and the write succeeds, and is the newest of the queue otherwise |
| SessionReplies.RefreshSends | plugin/net/trid3nt_client.py:1423-1431 | a refresh goes out while connected and never otherwise |
| SessionReplies.CloseDropsTheLink | plugin/net/trid3nt_client.py:1369-1373 | `close` lowers the flag, and returns exactly where the farewell lets the link go |
| HandshakeOrder.OrderSurvivesExactly | plugin/net/trid3nt_client.py:1316-1382 | call by call, both ways: `auth-token` then `session-resume` stay the first text frames of every connection unless `create_case` is called on a half-open one |
| HandshakeOrder.OrderHoldsExactly | plugin/net/trid3nt_client.py:1306-1393 | run by run: the two handshake frames are the first text frames on every connection if and only if no `create_case` of the run meets a half-open connection |
| HandshakeOrder.StepRemembers | plugin/net/trid3nt_client.py:1306-1431 | what a connection has carried stays at the head of its log through every call |
| HandshakeOrder.HandshakeFramesComeFirst | plugin/net/trid3nt_client.py:1306-1350 | in every run that creates cases only while connected the two handshake frames come first of all text frames on every connection |
| HandshakeOrder.CreateCanOvertakeResume | plugin/net/trid3nt_client.py:1375-1382 | the run in which they do not: the server never acknowledges the token and a case is created |
| Session.Link.SendText | plugin/net/trid3nt_client.py:1121-1142 | a write succeeds and is logged, or fails |
| Session.Link.Close | plugin/net/trid3nt_client.py:1106-1119 | the farewell of a connection and whether it raises |
| Session.Link.Recv | plugin/net/trid3nt_client.py:1144-1195 | what a wait brings, and what it leaves of the connection |
| LinkRuns.EveryConnectionIsALink | plugin/net/trid3nt_client.py:1106-1195 | main result: whatever sequence of sends, reads and closes a client makes on a connection in any state, whatever bytes come and whichever writes fail, some link of the session answers the same at every step; both end open or closed alike, with the same text messages sent in the same order |
| LinkRuns.OpenedConnectionIsADial | plugin/net/trid3nt_client.py:1066-1104 | so every connection just opened is one of those the session theorems dial |
| LinkRuns.RecvOnlyReads | plugin/net/trid3nt_client.py:1144-1195 | `recv` sends no text frame, and a connection it leaves in another state is one it closed and reported closed |
| Session.AgentClient.EnqueueRaw | plugin/net/trid3nt_client.py:1725-1729 | append, and cut the queue to its newest 50 |
| Session.AgentClient.Send | plugin/net/trid3nt_client.py:1701-1723 | a frame that may not be queued: sent, or raised with `connected` lowered |
| Session.AgentClient.SendQueueable | plugin/net/trid3nt_client.py:1701-1723 | a frame that may be queued: sent or queued, never raised |
| Session.AgentClient.FlushOutboundQueue | plugin/net/trid3nt_client.py:1731-1744 | the loop in place equals the recursive flush, its rollback included |
| Session.AgentClient.Receive | plugin/net/trid3nt_client.py:1751-1758 | a lost stream lowers `connected` |
| Session.AgentClient.WaitForReply | plugin/net/trid3nt_client.py:1760-1782 | the drain loop ends at the first reply of its kind, or when waiting is over |
| Session.AgentClient.RunHandshake | plugin/net/trid3nt_client.py:1316-1346 | the four steps of the handshake |
| Session.AgentClient.ConnectAndResume | plugin/net/trid3nt_client.py:1306-1350 | the whole call, as the machine has it, from lowering the flag to the credential push; like every public call it keeps the invariant of the runs |
| Session.AgentClient.CreateNewCase | plugin/net/trid3nt_client.py:1375-1393 | the blocking loop, cases without an id passed over |
| Session.AgentClient.RequestCaseListRefresh | plugin/net/trid3nt_client.py:1423-1431 | nothing is sent while disconnected |
| Session.AgentClient.CloseClient | plugin/net/trid3nt_client.py:1369-1373 | the flag is lowered even where closing raises |
| Interleaving.EveryAcceptedFrameIsInOnePlace | plugin/net/trid3nt_client.py:1701-1744 | main result: in every interleaving of any number of senders and one flushing worker, each frame accepted for queueing is in exactly one place, once - flushed, in flight, queued or dropped - and flushed, in-flight and queued frames together stand in acceptance order |
| Interleaving.StepKeepsLedger | plugin/net/trid3nt_client.py:1701-1744 | every atomic step keeps that ledger |
| Interleaving.StepBounds | plugin/net/trid3nt_client.py:1725-1744 | a frame is dropped only by an accept that leaves 50 newer ones queued; the queue is at most 50 after an accept and at most what was taken plus 50 after a rollback |
| Races.NothingStrandsIfTakesAreQuiet | plugin/net/trid3nt_client.py:1711-1723 | if every flush on a healthy connection starts with the flag up and no thread left over from before - none that waits to queue, whose send failed, or that may still fail on an older connection - no frame ever waits in the queue while the worker serves a healthy connection, whatever the flag says |
| Races.UnquietTakeCanStrand | plugin/net/trid3nt_client.py:1347-1348 | and from every flush that starts otherwise the flush can succeed in full and a frame be stranded behind it: the condition is exact |
| Races.FramesCanBeStranded | plugin/net/trid3nt_client.py:1347-1348 | such a flush is reachable |
| Races.NothingIsEarlyIfDialsAreQuiet | plugin/net/trid3nt_client.py:1310-1315 | if no sender, queueable or refreshing, is past its check when the connection is replaced, no frame of theirs reaches a connection before its handshake |
| Races.UnquietDialCanSendEarly | plugin/net/trid3nt_client.py:1711-1717 | and whenever one is, two steps send its frame ahead of the handshake: the condition is exact |
| Races.NothingIsOvertakenIfBeginsAreClear | plugin/net/trid3nt_client.py:1711-1717 | if every frame that finds the flag up finds the queue and the flush empty and no older queueable frame inside `_send`, no queued frame is overtaken on the wire by a younger one sent directly, in any schedule |
| Races.UnclearBeginCanOvertake | plugin/net/trid3nt_client.py:1711-1717 | and from every world in which one finds something ahead of it, some schedule lets it overtake: the condition is exact |
| Races.FramesCanBeOvertaken | plugin/net/trid3nt_client.py:1347-1348 | such a world is reachable |
| Stragglers.NothingStragglesIfTakesAreCaughtUp | plugin/net/trid3nt_client.py:1711-1717 | if no flush takes a frame younger than one whose thread is about to send it directly, no frame sent directly lands on the wire behind a younger queued one, in any schedule |
| Stragglers.LaggedTakeCanStraggle | plugin/net/trid3nt_client.py:1735-1744 | and from every flush that does, some schedule sends the older frame behind the younger: the condition is exact |
| Stragglers.FramesCanStraggle | plugin/net/trid3nt_client.py:1711-1717 | such a flush is reachable |
| Races.EveryWorldIsSane | plugin/net/trid3nt_client.py:1701-1744 | the bookkeeping those conditions rest on holds in every schedule |
| Races.EpochsCountDials | plugin/net/trid3nt_client.py:1310-1315 | connections are numbered as they are dialed, which is what tells a stale send |
| WorkerSpec.DelayWithinBase | plugin/net/trid3nt_client.py:944-950 | a delay lies between half its base and its base, for every jitter in [0, 1) |
| WorkerSpec.DelayFollowsJitter | plugin/net/trid3nt_client.py:947-950 | twice the wait is the base times one plus the jitter, to within a millisecond |
| Ladder.RungsNeverShrink | plugin/net/trid3nt_client.py:944-950 | the rungs go from 1500 ms by doubling to 5000 ms and stay there |
| Ulid.UlidRoundTrip | plugin/net/trid3nt_client.py:93-96 | 26 characters; decoding gives back the millisecond and the 80 random bits |
| Ulid.UlidSpelling | plugin/net/trid3nt_client.py:90-96 | a ULID holds digits and capitals, and no I, L, O or U |
| Ulid.UlidsSortByTime | plugin/net/trid3nt_client.py:93-96 | lexicographic order of ULIDs is order by millisecond first, whatever the random parts, and equal ULIDs have equal parts |
| Ulid.OrderIsNumeric | plugin/net/trid3nt_client.py:96 | for all numbers that fit, the characters order as the numbers do and are distinct |
| Ulid.DecodeChars | plugin/net/trid3nt_client.py:96 | decoding gives the number back modulo what the characters can hold |
| Gate.ConfirmPayload | plugin/net/trid3nt_client.py:1485-1502 | whatever decision and arguments a card hands over, what leaves passes the contract's validator |
| SignalTrace.EveryRunIsAWord | plugin/net/ws_bridge.py:58-130 | main result: for every behaviour of server, network, jitter and stop flag the worker's trace of signals and dials is in one regular language |
| SignalTrace.EveryWordIsARun | plugin/net/ws_bridge.py:58-130 | and that language is exact: every word of it is the trace of some behaviour |
| SignalTrace.RunDiscipline | plugin/net/ws_bridge.py:58-130 | so `agent_event` and `case_ready` come only after `connected`, `resumed` only after a `reconnecting` of the same outage, `closed` and `failed` last, and nothing is dialed after `auth_expired` |
| WorkerRuns.ServeIs | plugin/net/ws_bridge.py:93-103 | main result: while it serves the worker hands on one event for each event or case list that came before it was stopped, and none else; then it stops, crashes or redials as the first other outcome has it |
| WorkerRuns.BindIs | plugin/net/ws_bridge.py:132-153 | the startup pump hands on every event up to the case list; a case is bound unless a call of the pump raised, or the binding did |
| WorkerRuns.PumpIs | plugin/net/ws_bridge.py:139-146 | the pump in closed form: events, outcome and what is left |
| WorkerRuns.OutageIs | plugin/net/ws_bridge.py:107-124 | an outage in closed form: each failed dial announces the next try, at waits that climb and follow the jitter, and the first dial that does not fail ends it as its outcome says |
| WorkerRuns.ReadyRunIsExplained | plugin/net/ws_bridge.py:93-130 | in every run each dial is answered at once as its own outcome says, and nothing else brings about a `resumed`, an `auth_expired` or a rejection; a crash without a dial needs an event that raised |
| WorkerRuns.EndsBeforeReady | plugin/net/ws_bridge.py:72-88 | before a case is ready the run ends with `auth_expired` exactly where the first dial or the binding failed as an auth failure, and with `failed` on every other failure |
| WorkerRuns.ReadyRunEnds | plugin/net/ws_bridge.py:92-130 | every other run ends with `closed`, rejected exactly where the last redial was, crashed where the last redial crashed, and else only where an event did |
| WorkerRuns.ResumeCut | plugin/net/ws_bridge.py:93-124 | the stop only cuts a run short: had it come later, the trace would be the same or go on where this one ends |
| Worker.AgentWorker.Run | plugin/net/ws_bridge.py:58-130 | the imperative worker performs exactly the trace of the specification: a word of the language, whose waits climb the ladder |
| Worker.AgentWorker.MainLoop | plugin/net/ws_bridge.py:90-130 | the same for the outer loop, `reason` and `backoff_ms` as fields |
| Worker.AgentWorker.ServeLoop | plugin/net/ws_bridge.py:94-104 | the receive loop: how it ends, and that what is still to come completes the trace |
| Worker.AgentWorker.RedialLoop | plugin/net/ws_bridge.py:107-124 | the redial loop, which resets the ladder exactly on success |
| Worker.AgentWorker.ClimbRung | plugin/net/ws_bridge.py:108-112 | one rung: the delay slept, and a dial unless the sleep was cut short |
| Worker.AgentWorker.SleepInterruptible | plugin/net/ws_bridge.py:155-162 | the sliced sleep says whether it was stopped |
| Worker.AgentWorker.PumpStartup | plugin/net/ws_bridge.py:132-149 | the pump for the case list |
| Ladder.EveryRunClimbs | plugin/net/ws_bridge.py:90-124 | in every run each outage climbs the ladder from its floor, every delay within its rung |
| Ladder.OutageTotal | plugin/net/ws_bridge.py:107-124 | N redials, N at least 2, wait between 2500 N - 2750 and 5000 N - 5500 ms in total |
| Ladder.RunOutageTotal | plugin/net/ws_bridge.py:90-124 | the same for every outage of every run |
| RayCast.CastRay | contracts/trid3nt_contracts/coverage.py:209-217 | the loop computes the parity of the crossings of the closed outline |
| RayCast.CrossesOnLine | contracts/trid3nt_contracts/coverage.py:212-216 | an edge crosses exactly when its ends lie on both sides and the point is left of its line, whichever end the line is measured from |
| RayCast.CrossesEitherWay | contracts/trid3nt_contracts/coverage.py:212-216 | an edge crosses as much as its reverse |
| RayCast.SplitEdge | contracts/trid3nt_contracts/coverage.py:212-216 | an edge crosses as often, in parity, as its two parts |
| RayCast.RotationInvariant | contracts/trid3nt_contracts/coverage.py:209-217 | which vertex a ring starts at does not matter |
| RayCast.ReversalInvariant | contracts/trid3nt_contracts/coverage.py:209-217 | nor which way round it goes |
| RayCast.ClosingVertexInvariant | contracts/trid3nt_contracts/coverage.py:209-217 | nor whether the first vertex is repeated at the end |
| RayCast.CollinearVertexInvariant | contracts/trid3nt_contracts/coverage.py:209-217 | nor a further vertex on an edge |
| RayCast.ChordSplits | contracts/trid3nt_contracts/coverage.py:209-217 | a chord between any two vertices splits a ring into two whose answers add up by exclusive or |
| RayCast.BoxIsHalfOpen | contracts/trid3nt_contracts/coverage.py:209-217 | an axis-aligned box is exactly the half-open box |
| RayCast.BoxesTile | contracts/trid3nt_contracts/coverage.py:209-217 | so boxes side by side share no point and miss none |
| Coverage.AlongMinimises | contracts/trid3nt_contracts/coverage.py:201-206 | the clamped projection is the minimiser over the whole segment, one of length zero included |
| Coverage.EdgeBoundAt | contracts/trid3nt_contracts/coverage.py:187-198 | the distance to an edge is a lower bound over every point of it |
| Coverage.EdgeReached | contracts/trid3nt_contracts/coverage.py:187-198 | and it is attained at one of them |
| Coverage.RingApart | contracts/trid3nt_contracts/coverage.py:187-198 | the loop finds the least squared distance over all points of all edges, the closing edge included, and it is attained |
| Coverage.CoversPoint | contracts/trid3nt_contracts/coverage.py:146-151 | inside some ring, or a service |
| Coverage.ListStations | contracts/trid3nt_contracts/coverage.py:153-159 | the stations that the rings cover, in order |
| Coverage.CoveredIsListed | contracts/trid3nt_contracts/coverage.py:153-159 | every covered station is listed, behind just the covered ones before it |
| Coverage.ListedIsCovered | contracts/trid3nt_contracts/coverage.py:153-159 | and whatever is listed is a covered station, in that place |
| Coverage.NearestStation | contracts/trid3nt_contracts/coverage.py:161-169 | the first of the closest listed stations, none where none is listed |
| Coverage.OutlinesApart | contracts/trid3nt_contracts/coverage.py:183-184 | the least squared distance to all the outlines |
| Coverage.Distance | contracts/trid3nt_contracts/coverage.py:171-184 | zero off a service, else the nearest listed station, else zero inside a ring, else the nearest point of the outlines |
| Coverage.DistanceIsUnique | contracts/trid3nt_contracts/coverage.py:171-184 | that describes one number, and it is not negative |
| Coverage.ZeroDistance | contracts/trid3nt_contracts/coverage.py:171-184 | a surface is at distance zero exactly from what it covers and from its outlines |
| ModelCheck.Check | scripts/model_check.py:638-645 | main result: sound and complete, finding by finding - the report holds exactly the faults of the model against the tree |
| Conformance.CheckPasses | scripts/model_check.py:638-645 | the report is empty if and only if the model conforms: all names resolve, every requirement is satisfied and verified, every part and definition is bound, each end of a hop names every item it owes, every author is bound, every test exists, no forbidden edge exists |
| Rulebook.KeepsTheRules | scripts/model_check.py:638-645 | main result: the report is empty if and only if everything is declared and accounted for and the four rules hold, stated over the fields of the model and the tree alone |
| Rulebook.RuleAIs | scripts/model_check.py:402-454 | rule (a) in those terms: every end that does not pass a hop through names its items that are not optional, the second end only where the files differ |
| Rulebook.RuleCFollows | scripts/model_check.py:573-635 | rule (c) in those terms follows from the absence of its faults |
| Rulebook.RuleCSuffices | scripts/model_check.py:573-635 | and suffices for it |
| Rulebook.RuleDFollows | scripts/model_check.py:457-493 | rule (d) in those terms follows from the absence of its faults |
| Rulebook.RuleDSuffices | scripts/model_check.py:457-493 | and suffices for it |
| Conformance.ConformingIsClean | scripts/model_check.py:290-645 | a conforming model has no fault of any of the twenty-one kinds |
| Conformance.StructureClean | scripts/model_check.py:290-346 | no fault means that every name resolves and nothing is idle |
| Conformance.RulesClean | scripts/model_check.py:402-645 | no fault means that rules (a) to (d) hold |
| ModelCheck.StructureFindings | scripts/model_check.py:290-346 | exactly the structural faults |
| ModelCheck.PartFindings | scripts/model_check.py:294-306 | exactly the faults of the parts and their ports |
| ModelCheck.OneUse | scripts/model_check.py:307-326 | exactly the faults of one usage: definition, both ends, marks |
| ModelCheck.LineFindings | scripts/model_check.py:327-338 | exactly the faults of the satisfy and verify lines |
| ModelCheck.RequirementFindings | scripts/model_check.py:339-345 | exactly the requirements nobody satisfies or verifies |
| ModelCheck.InterfaceFindings | scripts/model_check.py:402-454 | exactly the faults of rule (a) |
| ModelCheck.NamedBy | scripts/model_check.py:406-412 | the cache is sound: what it returns is what the file at the path names |
| ModelCheck.EndItems | scripts/model_check.py:436-446 | exactly the required items an end does not name, none for an end that passes through |
| ModelCheck.AuthorFindings | scripts/model_check.py:457-493 | exactly the faults of rule (d); searching the text first loses no author |
| ModelCheck.Constructors | scripts/model_check.py:461-464 | a constructor is charged to the last definition, by name, that lists it |
| ModelCheck.Bindings | scripts/model_check.py:468-473 | the definitions each code line is bound to |
| ModelCheck.ProductModules | scripts/model_check.py:496-509 | exactly the product files below the top directories of the parts |
| ModelCheck.VerifyFindings | scripts/model_check.py:540-553 | exactly the faults of rule (b) |
| TestLines.LineIsClean | scripts/model_check.py:544-552 | a verify line `file::name` with or without parameters in brackets is free of faults if and only if the file exists and declares the test |
| TestLines.BareLineIsClean | scripts/model_check.py:544-552 | a line without a double colon names a file and the empty test |
| Names.PartitionCuts | scripts/model_check.py:544 | a text is cut at the first place where the separator starts, and the separator is lost |
| Names.PartitionWhole | scripts/model_check.py:544 | a text without the separator stays whole |
| TestLines.ResolvePosix | scripts/model_check.py:545 | a path written down and read again is the same |
| TestLines.ResolveConcat | scripts/model_check.py:545 | a path is read name by name between its slashes |
| TestLines.TopIsFirst | scripts/model_check.py:496-509 | the top directory of a code line is what stands before its first slash |
| ModelCheck.SweptModules | scripts/model_check.py:556-570 | exactly the files a prefix sweeps |
| ModelCheck.ForbidImportEdges | scripts/model_check.py:573-594 | exactly the import edges of the swept files |
| ModelCheck.DependencyFindings | scripts/model_check.py:615-631 | exactly the faults of rule (c) |
| Conformance.AuthorRuleIsExact | scripts/model_check.py:461-492 | the code applies rule (d) as written, on every model and every tree whose files name what they call, if and only if no two definitions share a constructor |
| Conformance.SharedAuthorEscapes | scripts/model_check.py:461-464 | where two do, a model and a tree of one file, whose text names its call, in which an author of the other goes unnoticed |
| DottedNames.UnderIsAncestry | scripts/model_check.py:634-635 | a prefix matches on a dot boundary only: it is ancestry between dotted names |
| DottedNames.SpellingsAgree | scripts/model_check.py:597-612 | however an import is spelled - plain, from the module, or relative at any depth - the edge to the same dotted name is recorded |
| DottedNames.NothingElseIsImported | scripts/model_check.py:597-612 | an import from a module, plain or relative, records the module and each name imported from it, a star none, and nothing else |
| DottedNames.PackageIsDirectory | scripts/model_check.py:573-594 | the relative imports of a file start from the directory it is in, a package's own file included |
| DottedNames.UnderIsBelow | scripts/model_check.py:556-570 | an importable file has a dotted name under a prefix exactly when it is the prefix's module file or lies below its directory |
| DottedNames.DottedParts | scripts/model_check.py:568-569 | the dotted name of an importable file has the parts of its path, a package going by its directory |
| Conformance.SweepIsExact | scripts/model_check.py:556-570 | a sweep never strays from its prefix, and it finds every importable module under it if and only if no module file stands beside a directory of its own name with modules in it |
| Conformance.CleanRuleHolds | scripts/model_check.py:615-635 | so a clean report means that no module under the importer imports anything under the imported prefix, for every rule whose sweep is not shadowed |
| Names.SplitJoin | scripts/model_check.py:559-568 | joining names free of the separator and splitting again gives them back |
| Names.JoinSplit | scripts/model_check.py:559-568 | and splitting and joining gives the text back |
| JsonField.ReportIsLongestPrefix | contracts/trid3nt_contracts/ws.py:382-395 | main result: the text reported is the longest prefix whose UTF-8 encoding fits the cap, less than one character short of it when it was cut; the flag says exactly whether the whole is longer, and the length is the whole's |
| JsonField.CutKeepsLongestPrefix | contracts/trid3nt_contracts/ws.py:394-395 | cutting the bytes at any cap and decoding leaves the longest prefix that fits, with at most 3 bytes lost |
| JsonField.TextRoundTrip | contracts/trid3nt_contracts/ws.py:391-395 | decoding inverts encoding on every text without surrogates (RFC 3629, section 3) |
| JsonField.OneShape | contracts/trid3nt_contracts/ws.py:391-395 | each character takes as few bytes as its number allows, its first byte tells how many, and the others start none (RFC 3629, section 3) |
| JsonField.PartVanishes | contracts/trid3nt_contracts/ws.py:395 | a character cut short leaves no trace |
| JsonText.FieldRaisesExactlyOn | contracts/trid3nt_contracts/ws.py:382-391 | "never raises" fails exactly on the values in which `json.dumps` cannot write something (keys it cannot sort or spell, a number of too many digits, a container inside itself, an object whose `str` raises, nesting too deep) while `str` of the value raises too (such a number or depth, an object whose `repr` raises) or brings a lone surrogate out of an object's own `repr`; the value itself may be such an object |
| JsonText.FieldRaises | contracts/trid3nt_contracts/ws.py:387-391 | three kinds of value that raise under every interpreter: a number of too many digits, an object without a `str`, and a dictionary of mixed keys with a lone surrogate in it |
| JsonText.DumpsEncodable | contracts/trid3nt_contracts/ws.py:388 | whatever is in a value, what `json.dumps` writes, if it does not raise, can be encoded |
| JsonText.ReprEncodable | contracts/trid3nt_contracts/ws.py:389-390 | of all that is in a value only the `repr` of foreign objects can bring a surrogate into its `str` |
| JsonText.DumpsRaises | contracts/trid3nt_contracts/ws.py:387-389 | `json.dumps` raises on exactly the values with something unwritable in them, at whatever depth |
| JsonText.ReprRaises | contracts/trid3nt_contracts/ws.py:390 | `repr` raises on exactly the values with something mute in them, keys included |
| LayerRuns.StampsStayUnique | plugin/render/layers.py:545-651 | main result: once a case is bound, no run of snapshots, case switches and user actions stamps an id on two layers, and every stamp stays among the ids handled |
| LayerRuns.ReplayAddsNothing | plugin/render/layers.py:630-651 | replaying a snapshot adds no layer and notes nothing, whatever the user deleted or moved in between |
| LayerRuns.ClearTakesForeignLayers | plugin/render/layers.py:558-578 | binding a case removes only layers in groups of the program that are not the case's own and changes no other; where QGIS does not raise it removes exactly those, and no such group is left |
| LayerRuns.ClearIsExact | plugin/render/layers.py:558-578 | whatever QGIS raises, short of not showing its tree: exactly the layers go that were in a foreign group whose removal got that far, exactly the foreign groups whose removal got to the end, and the rest keep their order and their layers |
| LayerRuns.AdoptionIsTheCasesOwn | plugin/render/layers.py:580-590 | where QGIS does not raise, the ids adopted are those the case's own groups hold if and only if no stamped layer outside the cleared groups strays from them |
| LayerRuns.StrayBlocksItsRow | plugin/render/layers.py:580-590 | where one does, the case's own row with its id is never built: until another case is bound only the stray layer bears that id, whatever snapshots come |
| LayerRuns.AdoptedIsNeverBuilt | plugin/render/layers.py:636-641 | no snapshot builds a layer for an id already handled |
| LayerRuns.UnreadAdoptionDuplicates | plugin/render/layers.py:580-590 | a binding that could not read the layers is harmless if and only if none is stamped: else one row stamps an id twice |
| LayerRuns.RowsKeep | plugin/render/layers.py:630-651 | a snapshot handles exactly its ids, notes each new one once, and moves no layer |
| LayerPlaces.LandsInItsGroup | plugin/render/layers.py:617-628 | a layer goes to the first group that bears the id of the case, else to the first of its name, else to a new one on top; that group bears the id from then on, and nothing else of the tree moves |
| LayerPlaces.StaysOutside | plugin/render/layers.py:794-817 | a layer whose placing raised is in the project and in no group |
| LayerPlaces.SnapshotRenames | plugin/render/layers.py:635-640 | after a snapshot every known layer has the last name the snapshot gives its id, and every other layer its own |
| LayerPlaces.GroupIsNamed | plugin/render/layers.py:545-553 | the group of a case is named after its title, or the first eight characters of its id |
| LayerRuns.BindKeeps | plugin/render/layers.py:545-556 | binding keeps stamps unique, and ties them to the ids handled exactly when adoption could read them or there are none |
| LayerRuns.PlaceKeeps | plugin/render/layers.py:794-817 | a layer that lands adds one layer and changes no other |
| Layers.LayerMaterializer.SetCase | plugin/render/layers.py:545-556 | the whole new state of materializer and project |
| Layers.LayerMaterializer.ClearStaleGroups | plugin/render/layers.py:558-578 | the loop in place, going on after each group that raises, leaves the project less all groups and layers that went |
| Layers.LayerMaterializer.AdoptExistingLayers | plugin/render/layers.py:580-590 | the stamps of all layers of the project, or none |
| Layers.LayerMaterializer.GroupForCase | plugin/render/layers.py:617-628 | the group by case id first, then by name, else a new one, stamped with the case |
| Layers.LayerMaterializer.AddLayer | plugin/render/layers.py:794-817 | the project with the layer, its stamp and its place |
| Layers.LayerMaterializer.RenameLoaded | plugin/render/layers.py:819-842 | every layer with the stamp, and no other, has the row's name |
| Layers.LayerMaterializer.HandleRow | plugin/render/layers.py:635-650 | one row: known ids are renamed, new ones handled and noted even where something raised |
| Layers.LayerMaterializer.Materialize | plugin/render/layers.py:630-651 | the loop in place equals the fold over the rows, notes included |
| CardSpec.AnsweredAtMostOnce | plugin/ui/cards.py:1030-1034 | for every sequence of clicks and edits a card sends at most one reply, after any keys it stores, and nothing once decided |
| CardSpec.EveryReplyIsLawful | plugin/ui/cards.py:1019-1034 | main result: for every card and every sequence of clicks and edits, all that is sent keeps the contract - confirmations pass the validator; a settings gate answers what the warning offers, with non-empty overrides of what moved; a form revises only editable rows that hold no key; a picker sends a candidate, or guidance, or neither |
| CardSpec.SupersededSendsNone | plugin/ui/cards.py:1377-1391 | a picker superseded before it was answered never sends anything |
| CardSpec.StepAnswersOnce | plugin/ui/cards.py:1030-1034 | one click: a reply decides the card, and only a reply or being superseded does |
| CardAnswers.EveryReplyHasItsClick | plugin/ui/cards.py:1019-1034 | what a card sends is what one click makes of the state that silent clicks left |
| CardAnswers.CodeAnswers | plugin/ui/cards.py:1158-1162 | for every run of clicks the code is allowed to run exactly where Run is the first of the two buttons clicked, and denied exactly where Deny is |
| CardAnswers.GateProceeds | plugin/ui/cards.py:1011-1025 | Proceed sends the resolution and duration chosen last, as far as they moved and narrowing is on offer, `proceed` where nothing moved and that is on offer, and nothing otherwise |
| CardAnswers.GateCancels | plugin/ui/cards.py:1027-1028 | Cancel cancels, whatever was chosen before |
| CardAnswers.FormSubmits | plugin/ui/cards.py:2095-2103 | submitting stores the keys typed last and revises the rows that moved, each to what its editor was set to last, or approves where none did |
| CardAnswers.FormCancels | plugin/ui/cards.py:2116-2120 | Cancel declines |
| CardAnswers.KeysAre | plugin/ui/cards.py:2105-2114 | a key is stored exactly where a row asks for one and something was typed, once and trimmed; the editors of all such rows are emptied, and no other |
| CardAnswers.PickerConfirms | plugin/ui/cards.py:1341-1357 | Confirm sends the candidate picked last, or the guidance typed last where the free text was chosen after it, trimmed; with nothing chosen it sends nothing |
| CardAnswers.PickerLeavesTheChoice | plugin/ui/cards.py:1359-1362 | the other button leaves the choice to the agent |
| CardSpec.TypedGuidanceIsSent | plugin/ui/cards.py:1329-1357 | what was typed is sent, trimmed, and not the candidate picked before |
| CardSpec.UntouchedProceeds | plugin/ui/cards.py:933-953 | whatever the format of the duration box, an untouched gate answers `proceed` wherever that is on offer if and only if no duration is suggested or the box reads back as the suggestion (or as nothing above zero) |
| CardSpec.UntouchedNarrows | plugin/ui/gate.py:413-436 | otherwise it narrows to the duration shown, or cannot be accepted where narrowing is not offered |
| CardSpec.DiaryGoesOn | plugin/ui/cards.py:1019-1034 | a widget that does what the step says writes one more click into its diary, and all that was ever sent keeps the promise |
| Cards.GateCardWidget.Proceed | plugin/ui/cards.py:1019-1025 | over the whole diary of the widget at most one reply, all of it lawful; a refused decision sends nothing |
| Cards.GateCardWidget.Cancel | plugin/ui/cards.py:1027-1028 | the same for Cancel |
| Cards.GateCardWidget.Commit | plugin/ui/cards.py:1030-1034 | the reply and the latch together, or nothing |
| Cards.CodeExecCard.Run | plugin/ui/cards.py:1158-1159 | run or deny, once over the widget's diary |
| Cards.FormCardWidget.Submit | plugin/ui/cards.py:2095-2103 | edits are read, then keys stored, then one reply sent, and no other over the widget's diary |
| Cards.FormCardWidget.StoreKeys | plugin/ui/cards.py:2105-2114 | each typed key is handed over once and its editor emptied |
| Cards.ToolCandidatesCard.Confirm | plugin/ui/cards.py:1341-1357 | one choice at most over the widget's diary, a candidate or guidance; nothing chosen decides nothing |
| Cards.ToolCandidatesCard.TypeText | plugin/ui/cards.py:1329-1333 | typing selects the free-text option |
| Cards.ToolCandidatesCard.LetAgentDecide | plugin/ui/cards.py:1359-1362 | leaves the choice to the agent, once |
| Cards.ToolCandidatesCard.MarkSuperseded | plugin/ui/cards.py:1377-1391 | superseding sends nothing and locks |
| BreakSeeding.TextComesBack | plugin/ui/cards.py:449-460 | deleting the zero-width spaces gives the text back if and only if it had none of its own |
| BreakSeeding.SeedIsLossless | plugin/ui/cards.py:449-460 | without zero-width spaces, output and input are the same text |
| BreakSeeding.StretchesAreShort | plugin/ui/cards.py:449-460 | no more than 24 characters stand together without white space or a zero-width space |
| BreakSeeding.ChunkBreaks | plugin/ui/cards.py:453-458 | a long token is broken behind every 24th character but the last, and nowhere else |
| BreakSeeding.SeedTokenByToken | plugin/ui/cards.py:449-460 | each token is broken by itself, and white space stays as it is |
| BreakSeeding.UntouchedExactlyWhenShort | plugin/ui/cards.py:449-460 | a text is left alone exactly when no run of it is longer than 24 |
| Gate.ResolveIsOnOffer | plugin/ui/gate.py:384-439 | a decision other than cancel is always one on offer: `narrow_scope`, with overrides, exactly when something moved, `proceed` exactly when nothing did, and a refusal otherwise |
| Gate.KeysAreNamed | plugin/ui/gate.py:403-425 | every override bears a key the envelope names, whatever the card's state, exactly when it has no time scale, names the key of its duration, or has its resolution under `duration_hr` |
| Gate.OverridesAreTheMoves | plugin/ui/gate.py:403-425 | the overrides are exactly the moves, each under its key with the value it was moved to; under a shared key the duration wins |
| Gate.ResolveParamSheetEdits | plugin/ui/gate.py:300-325 | the loop computes exactly the moves of the rows |
| Gate.EditsAreMoves | plugin/ui/gate.py:300-325 | an edit that is sent belongs to an editable row that holds no key, differs from what was shown, and is one of the row's options where it has any |
| Gate.MovesAreSent | plugin/ui/gate.py:300-325 | and every row that moved is sent: the option chosen, the number read, or the text, trimmed |
| Gate.TrimIs | plugin/ui/gate.py:313 | trimming cuts off white space at both ends, all of it and nothing else |
| Gate.LastOfItsName | plugin/ui/gate.py:304 | a name stands for the last row that bears it |
| Gate.ByName | plugin/ui/gate.py:304 | of rows with one name the last counts |
| Gate.RowIsOneOfThem | plugin/ui/gate.py:304 | the row a name stands for is one of the sheet's rows and bears that name |

## Left out

- TLS, DNS, the HTTP request and the SHA-1 of the accept key: `FinishUpgrade` takes the judgement of the head as a predicate.
- Decoding of text payloads with replacement characters: messages are the bytes of the text.
- Clocks: a wait that runs out, its deadline or the socket's timeout, is an item of the stream; how long it took is not modelled, nor is a timeout in the middle of a socket's delivery.
- Operating system randomness: masking keys, jitter and the random bits of a ULID are arbitrary inputs.
- Bytes on the wire of a write that fails halfway: a failed `sendall` leaves the wire as it was.
- JSON and envelopes: the session sees message types; error payloads, endpoint advertisement and the client's own case id are not part of it. `select_case`, `send_chat` and the other queueable verbs are one operation.
- The send lock: a frame goes out in one piece.
- Interleaving.EveryAcceptedFrameIsInOnePlace: one worker and one flush at a time, as the program has it; closing the client while senders run is not part of it.
- Races.NothingStrandsIfTakesAreQuiet: a connection counts as healthy until it is lost or a write on it was seen to fail; a frame queued behind such a write waits for the loss to be noticed.
- Races.NothingIsOvertakenIfBeginsAreClear: of direct sends that pass queued frames, the other way round in `Stragglers`; two direct sends may pass each other, and so may two threads on their way to the queue.
- HandshakeOrder.HandshakeFramesComeFirst: for runs that create only while connected; `OrderHoldsExactly` has the exact condition for all runs. The log holds text frames only; the pong for a ping may go out between them.
- The texts of signals and failures: `is_auth_failure` is part of how a dial or a call ends.
- Coverage.Distance: distances are compared by their squares, in degrees; the square root, the factor to kilometres, the rounding of floats and `math.cos` are not modelled, and the scale is any real.
- Coverage.ZeroDistance: for scales other than zero, which only the poles have.
- Parsing of the model notation and of Python: names, calls, tests and imports of a file are given. Files are UTF-8; on another encoding `check` raises.
- Conformance.AuthorRuleIsExact: for files whose text holds every name they call. Python folds identifiers by NFKC, so a call spelled with compatibility characters is not in the text under its name, and the text search of rule (d) passes over its author.
- ModelCheck.Check: the order of the report, which is sorted at the end, and repeated findings are not modelled; paths that are absolute or climb with two dots, and directories named like Python files, are not part of the tree.
- Conformance.SweepIsExact: for prefixes that spell a module and files Python can import; a file with a dot in its stem has a dotted name that means another module.
- Conformance.CleanRuleHolds: one way only, since an edge swept by one rule can offend another.
- LayerSpec.SetCase: styling, opacity, visibility, extents and the staging directory, and groups below the top level, are not modelled; a renamed or regrouped layer is a user action.
- `_ensure_group` raising after it made a group: the group would stay without its case.
- LayerRuns.StampsStayUnique: a user who copies a stamped layer copies its stamp; user actions here add only unstamped layers.
- JsonText.DumpsEncodable: of the text of `json.dumps` it is proved when there is none and that it can be encoded, not that it reads back.
- JsonText.FieldRaisesExactlyOn: instances of subclasses of the built-in types with methods of their own, objects that answer differently when asked twice, running out of memory, and the order of the sorted lines are not modelled.
- CardSpec.TypedGuidanceIsSent: states the confirm right after the typing.
- Spatial input cards, chart cards and everything drawn: user interface.
- CardSpec.UntouchedProceeds: the format of the duration box (six significant digits) is any function that shows zero as zero.
- The defensive row parsers, the HTTP fetch helpers, installers and settings: one-branch facts or I/O.
