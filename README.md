# Walkie-Talkie HAM: the shared whiteboard replica

This project models the shared whiteboard of the Walkie-Talkie HAM page
(`walkie-ham/app/js/main.js`). Each peer holds a local replica: an ordered stroke
`history`, a `redoStack` and the stroke being drawn. Local pointer and button
handlers change the replica and send `DRAW:` frames. The network handler
classifies every inbound frame (`DRAW:`, `AUDIO:`, `PRESENCE:PING`,
`PRESENCE:PONG`) and applies it without echoing. Playback of a burst of audio
chunks first lays the decoded 16-bit chunks end to end in one buffer; the model
covers that copy loop too.

Modules:

- `Json` (json.dfy): parsed JSON values, JavaScript property reads (`Member`),
  and the host's JSON library as a `Codec` of two functions. Two assumptions
  are made about that library, and each lemma states which ones it needs.
  `RoundTrips(c, v)` says that parsing the text written for `v` gives `v`
  back; a lemma assumes it only for the values it sends. `RejectsW(c)` says
  that text starting with `W` does not parse. `AssumptionsSatisfiable` shows
  that one codec can meet both for any finite list of values.
- `Frames` (frames.dfy): the frame texts the page sends and `Classify`, the
  branch-for-branch decision of `handleIncomingNetwork`, as a pure function to
  an `Action`.
- `Replica` (replica.dfy): the shared state as a `Board` value and its
  transitions (`Commit`, `Undo`, `Redo`, `Apply`, `Replies`). These functions
  are the specification. Local and remote handling are both stated through
  them.
- `App` (app.dfy): class `Whiteboard`, whose fields are the page's closure
  variables and whose methods are its handlers. Each method's postcondition
  ties the new fields and the new `outbox` (the frames handed to
  `sendNetwork`) to the `Replica` functions.
- `Playback` (playback.dfy): the offset-advancing copy loop of
  `playPcmBase64Chunks`, over `array<Int16>`.

Behaviour of the code that a reader might not expect, modelled as written:

- A snapshot replaces the history but keeps the redo stack.
- A remote stroke does not clear the redo stack. The local redo stack is
  cleared when a stroke is started (`StartDrawing`), not when it is committed.
  So the redo stack is not necessarily empty after a commit if remote frames
  arrive while drawing.
- `startDrawing` always records the point under the pointer. The zero-point
  guard in `stopDrawing` is modelled, but no stroke begun by `StartDrawing`
  reaches it.
- The history request sent on init, `DRAW:WHITEBOARD:GET_HISTORY`, gets no
  reply. See Findings.

## Model

| member | source | states |
|---|---|---|
| Json.Member | walkie-ham/app/js/main.js:355-357 | for the keys the handler reads (`type`, `payload`): reading from `null` throws; a non-object or an object without the key gives undefined; otherwise the stored value |
| Frames.FrameText | walkie-ham/app/js/main.js:350-351 | `obj.data`, or `obj` itself when that is falsy, goes on only as a string: an envelope with non-empty string data gives that string, a bare string gives itself, and a non-string or an envelope with empty data is dropped |
| Frames.PayloadOf | walkie-ham/app/js/main.js:357 | the `payload` of an action object is its stored value; a missing one is read as `null` |
| Frames.Snapshot | walkie-ham/app/js/main.js:364-366 | a snapshot body that parses to an array replaces the history with exactly that array, and only such a body does; a body that does not parse changes nothing |
| Frames.Fallback | walkie-ham/app/js/main.js:363-368 | in the catch block, a body with the `WHITEBOARD:HISTORY:` sub-tag is read as a snapshot of the rest of the body; a body without it is dropped |
| Frames.ClassifyDraw | walkie-ham/app/js/main.js:352-368 | a DRAW body never plays audio or touches presence; a body that does not parse, or parses to `null`, falls to the catch block; a stroke or a history request comes only from a parsed object with that `type`, the stroke carrying its `payload` |
| Frames.DrawTypeDispatch | walkie-ham/app/js/main.js:356-361 | for any codec, a parsed body whose `type` is `stroke`, `undo`, `redo`, `clear` or `WHITEBOARD:GET_HISTORY` gives its action; a body without `type` is dropped; reading `type` of `null` goes to the catch block |
| Frames.Classify | walkie-ham/app/js/main.js:349-387 | a frame whose data is not a string is ignored; only the exact text `PRESENCE:PING` draws a PONG, only `PRESENCE:PONG` marks the peer alive, and audio is played only for `AUDIO:` followed by the chunk |
| Frames.EditFrame | walkie-ham/app/js/main.js:74-128 | an edit frame is `DRAW:` followed by the JSON text of the action object |
| Frames.SnapshotFrame | walkie-ham/app/js/main.js:361 | a snapshot reply is `DRAW:` followed by the `WHITEBOARD:HISTORY:` sub-tag and the JSON text of the history array |
| Frames.EditBodyClassified | walkie-ham/app/js/main.js:354-360 | for any codec, a DRAW body that parses to the object an edit is encoded as is classified as that edit |
| Frames.EditFrameClassified | walkie-ham/app/js/main.js:352-360 | the frame sent for a local stroke, undo, redo or clear is classified by the peer as that same edit (stroke with its payload), for any codec that round-trips the action object |
| Frames.EditFrameInjective | walkie-ham/app/js/main.js:108-128 | distinct edit operations are sent as distinct frames, for any codec that round-trips both action objects |
| Frames.LiteralHistoryRequestIgnored | walkie-ham/app/js/main.js:352-368 | the body after `DRAW:` in `DRAW:WHITEBOARD:GET_HISTORY` is not JSON (it starts with `W`) and lacks the HISTORY sub-tag, so the frame is ignored |
| Frames.JsonHistoryRequestAnswered | walkie-ham/app/js/main.js:361 | a DRAW frame carrying the JSON object `{type: "WHITEBOARD:GET_HISTORY"}` asks for a snapshot, for any codec that round-trips that object |
| Frames.SnapshotFrameClassified | walkie-ham/app/js/main.js:361-366 | the snapshot reply fails JSON parsing, takes the catch path, and yields exactly the history that was sent, for any codec that rejects `W` text and round-trips the history |
| Frames.SnapshotBodyClassified | walkie-ham/app/js/main.js:352-366 | any `DRAW:WHITEBOARD:HISTORY:` frame whose tagged text does not parse and whose body parses to an array replaces the history with that array |
| Frames.PresenceFramesClassified | walkie-ham/app/js/main.js:374-378 | `PRESENCE:PING` is answered with PONG; `PRESENCE:PONG` marks the peer alive |
| Frames.AudioFrameClassified | walkie-ham/app/js/main.js:369-373 | `AUDIO:<chunk>` plays exactly `<chunk>` |
| Frames.DrawHistoryBranchUnreachable | walkie-ham/app/js/main.js:379-386 | every frame with the `DRAW:WHITEBOARD:HISTORY:` prefix already matched `DRAW:`, so the last branch never runs |
| Frames.UnknownFrameDropped | walkie-ham/app/js/main.js:350-386 | a text frame that is not `DRAW:`, not `AUDIO:` and not exactly PING or PONG falls through every branch (the snapshot branch included) and is ignored |
| Frames.MalformedDrawDropped | walkie-ham/app/js/main.js:354-368 | a DRAW body that does not parse and lacks the HISTORY sub-tag is ignored; so is one with an unknown `type` |
| Replica.Commit | walkie-ham/app/js/main.js:73 | the stroke is appended at the end of the history; the earlier history and the redo stack are unchanged |
| Replica.Undo | walkie-ham/app/js/main.js:108-110 | no change on an empty history; otherwise the last stroke moves onto the top of the redo stack and nothing else moves |
| Replica.Redo | walkie-ham/app/js/main.js:115-117 | no change on an empty redo stack; otherwise its top is appended to the history and nothing else moves |
| Replica.Apply | walkie-ham/app/js/main.js:356-366 | only edits and snapshots change the board; a remote stroke and a snapshot keep the redo stack; a snapshot's array becomes the history |
| Replica.Replies | walkie-ham/app/js/main.js:361-375 | at most one frame is sent, exactly for a history request or a PING; the reply to a PING is `PRESENCE:PONG`; the reply to a history request is a DRAW frame carrying the sub-tag and the JSON of the current history |
| Replica.UndoKeepsPool | walkie-ham/app/js/main.js:110 | undo keeps the multiset of strokes held by history and redo stack together |
| Replica.RedoKeepsPool | walkie-ham/app/js/main.js:117 | redo keeps the multiset of strokes held by history and redo stack together |
| Replica.UndoThenRedo | walkie-ham/app/js/main.js:108-117 | on a non-empty history, undo then redo restores history and redo stack exactly |
| Replica.RedoThenUndo | walkie-ham/app/js/main.js:108-117 | on a non-empty redo stack, redo then undo restores both exactly |
| Replica.UndoAfterCommit | walkie-ham/app/js/main.js:69-110 | undo right after a commit restores the history and puts the stroke on the redo stack |
| Replica.RemoteMatchesLocal | walkie-ham/app/js/main.js:352-360 | a received edit frame does to the board exactly what the sender's local handler did, and sends nothing back |
| Replica.NoEcho | walkie-ham/app/js/main.js:350-386 | a frame is sent while handling an inbound one only when that frame is exactly `PRESENCE:PING`, or a DRAW frame whose body parses to an object of `type` `WHITEBOARD:GET_HISTORY`; received edits are never echoed |
| Replica.PingAnsweredWithPong | walkie-ham/app/js/main.js:374-375 | a PING draws exactly one `PRESENCE:PONG` and leaves history and redo stack unchanged |
| Replica.NonEditFramesKeepBoard | walkie-ham/app/js/main.js:351-378 | non-string, audio and presence frames leave history and redo stack unchanged |
| Replica.StrokeTwice | walkie-ham/app/js/main.js:357 | the same stroke frame applied twice leaves two copies in the history; the redo stack is unchanged |
| Replica.SnapshotOverwrites | walkie-ham/app/js/main.js:364-366 | a snapshot replaces the receiver's history whatever it held; its redo stack is kept |
| Replica.CommitUndoRedoScenario | walkie-ham/app/js/main.js:69-121 | from an empty board: commit S1 gives [S1]/[]; undo gives []/[S1]; redo gives [S1]/[] |
| Replica.UndoTwiceScenario | walkie-ham/app/js/main.js:69-121 | [S1,S2] plus S3, undone twice, gives [S1]/[S3,S2]; one redo gives [S1,S2]/[S3] |
| App.AsWrittenJoinerGetsNoReply | walkie-ham/app/js/main.js:338-340 | as written, a late joiner's request makes the peer send nothing and change nothing, for any codec that rejects `W` text |
| App.LateJoinerCatchesUp | walkie-ham/app/js/main.js:338-366 | with the JSON request, the peer replies with a snapshot of its history and its own board is unchanged; the joiner's history then equals the peer's |
| App.InitFramesAsWritten | walkie-ham/app/js/main.js:338-340 | with more than one participant, the literal `DRAW:WHITEBOARD:GET_HISTORY` is sent, and nothing otherwise |
| App.InitFrames | walkie-ham/app/js/main.js:338-340 | the corrected init: with more than one participant, the JSON history request is sent, and nothing otherwise |
| Frames.JsonHistoryRequest | walkie-ham/app/js/main.js:339 | the corrected request is `DRAW:` followed by the JSON text of `{type: "WHITEBOARD:GET_HISTORY"}` |
| App.StrokeValue | walkie-ham/app/js/main.js:59-74 | the stroke object holds its id, colour, size and one `{x, y}` object per point, in order |
| App.Whiteboard.constructor | walkie-ham/app/js/main.js:26-29 | not drawing, no stroke, empty history and redo stack, nothing sent, white pen of size 4 |
| App.Whiteboard.SendNetwork | walkie-ham/app/js/main.js:328 | the frame is appended to the outbox |
| App.Whiteboard.StartDrawing | walkie-ham/app/js/main.js:56-61 | drawing starts; the redo stack is emptied; the open stroke holds only the point under the pointer; the history is unchanged |
| App.Whiteboard.MoveDrawing | walkie-ham/app/js/main.js:62-68 | while drawing, the point is appended to the open stroke; otherwise nothing changes |
| App.Whiteboard.StopDrawing | walkie-ham/app/js/main.js:69-78 | with no stroke in progress, nothing changes; a stroke with points is committed, sent as one DRAW stroke frame, and closed; drawing ends |
| App.Whiteboard.UndoClicked | walkie-ham/app/js/main.js:108-114 | the board becomes `Undo` of the old board; one undo frame is sent unless the history was empty |
| App.Whiteboard.RedoClicked | walkie-ham/app/js/main.js:115-121 | the board becomes `Redo` of the old board; one redo frame is sent unless the redo stack was empty |
| App.Whiteboard.ClearClicked | walkie-ham/app/js/main.js:122-128 | history and redo stack are empty; exactly one clear frame is sent |
| App.Whiteboard.UndoRedoDisabled | walkie-ham/app/js/main.js:130-133 | the values one `updateUndoRedo` call sets: each button is disabled exactly when pressing it would change nothing |
| App.Whiteboard.HandleIncoming | walkie-ham/app/js/main.js:349-387 | the board becomes `Apply` of the classified action; the frames sent are exactly its `Replies` |
| App.Whiteboard.OnInit | walkie-ham/app/js/main.js:333-343 | as the page does it: a session with more than one participant sends the literal history request; otherwise nothing is sent |
| Playback.Concat | walkie-ham/app/js/main.js:250-253 | the combined length is the sum of the chunk lengths |
| Playback.ChunkPlacement | walkie-ham/app/js/main.js:254-260 | sample i of chunk k sits at the sum of the lengths of chunks before k, plus i |
| Playback.SumLengths | walkie-ham/app/js/main.js:250-252 | the running total ends as the sum of the chunk lengths |
| Playback.CopyAt | walkie-ham/app/js/main.js:256-258 | the chunk lands at the offset; the buffer before and after it is untouched |
| Playback.CombineChunks | walkie-ham/app/js/main.js:250-260 | the buffer has the summed length and holds the chunks end to end, so by ChunkPlacement each chunk's samples sit at its running offset |

## Findings

| source | as written | input that shows it | evidently intended | confidence | as-written member | corrected member |
|---|---|---|---|---|---|---|
| walkie-ham/app/js/main.js:338-340 | on init with more than one participant, the page sends `DRAW:WHITEBOARD:GET_HISTORY`; the receiving handler (main.js:352-368) replies only to a JSON body whose `type` is `WHITEBOARD:GET_HISTORY` | two participants; the joiner sends the literal frame; the peer's `Classify` gives `Ignore`, so the peer sends nothing and the joiner's history stays as it was | the joiner receives the peer's history and adopts it | high; not executed | App.AsWrittenJoinerGetsNoReply | App.LateJoinerCatchesUp |

`App.Whiteboard.OnInit` sends the literal frame, as the page does. The
correction is made on the sending side: `App.InitFrames` sends `DRAW:`
followed by the JSON object `{"type":"WHITEBOARD:GET_HISTORY"}`
(`Frames.JsonHistoryRequest`). Peers running the handler as it is answer that
frame, so a fix on the sender works with them.

## Left out

- Canvas rendering (`resizeCanvas`, `redraw`, `drawStroke`) and pointer geometry (`getPosFromEvent`): the pointer position is a `Point` parameter. `redraw` replays the history and changes no replica state, but it can throw (next line).
- Stroke ids come from `Date.now()` and `Math.random()`: the id is a parameter of `StartDrawing`. The palette, night mode, gain sliders, status texts and LEDs are UI only.
- App.Whiteboard.UndoClicked, App.Whiteboard.RedoClicked: the model assumes `redraw` completes. A remote stroke whose points hold `null` (for example `{"points":[null]}`) is pushed by the handler, and `drawStroke` then throws on it. The page's undo and redo handlers would then stop after moving the stroke, without updating the buttons or sending the frame; the model states that the frame is sent.
- JSON.parse and JSON.stringify are the `Codec` parameter. Lemmas that depend on their behaviour assume only `RoundTrips` for the values they send and `RejectsW`. Numbers are reals, and JavaScript's number formatting is not modelled; the host's library round-trips only numbers that are finite doubles.
- App.Whiteboard.UndoRedoDisabled: the buttons' `disabled` flags are not fields of the model. The page does not always refresh them: `startDrawing` empties the redo stack without calling `updateUndoRedo`, so the redo button can stay enabled while pressing it does nothing.
- Frames.Snapshot: a snapshot body that parses to a JSON value other than an array is stored as the history by the page. The model cannot hold a non-array history and ignores such a snapshot.
- App.Whiteboard.ClearClicked, App.Whiteboard.UndoClicked, App.Whiteboard.RedoClicked: the frame sent is stated as `DRAW:` followed by JSON.stringify of `{type: ...}`. Its literal text, such as `DRAW:{"type":"clear"}`, depends on JSON.stringify, which the model takes as a parameter.
- Frames.PayloadOf: a stroke frame without a `payload` pushes `undefined` onto the history in the page. The model pushes `null`, which is what JSON.stringify sends for it in a snapshot.
- Audio capture and the push-to-talk handlers (`initAudio`, `onaudioprocess`, the `mousedown`/`mouseup` PTT handlers with their `isRecording` guard and `recordedChunks` reset): these are device acquisition and `await`-interleaved event handlers around foreign audio APIs.
- Float signal processing: `calculateDb`, `setVu`, the clamp, scale and Int16 truncation in `encodePcm16`, and the division by 32768 in playback. The playback buffer holds the raw 16-bit samples.
- Base64 and typed-array reinterpretation (`encodePcm16`, `decodeBase64ToInt16`): these are library calls. `CombineChunks` takes the decoded chunks.
- AudioContext setup, buffer playback and its completion callback.
- Presence timing: the 3-second PING interval and the 5-second PONG LED timeout are timers. The model classifies PONG (`PeerAlive`) but keeps no LED state.
- The Spixi SDK bindings (`safeSpixiSend`, `onNetworkData`, `fireOnLoad`): sending is an append to `outbox`. The sender's address is carried in `Inbound` and never used, as in the page.
