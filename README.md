# nex-board: a Dafny model of the display state machine and its command bridge

nex-board is a Bevy application that shows announcement texts scrolling across
a screen. This project models three parts of it:

- The **local scroll state machine** in `src/main.rs`:
  - a queue of texts with a cursor;
  - a scrolling flag and a scrolling speed;
  - the text entities, each tagged `TextScroll` and, once started, `ScrollingActive`;
  - the systems `setup`, `handle_mouse_click`, `text_scroll` and
    `check_text_completion`, and the width estimate `count_ascii` /
    `calc_text_offset` / `calc_speed`.
- The **command bridge** in `src/server.rs`:
  - the protocol enums;
  - the two bounded channels;
  - the per-tick dispatcher `handle_websocket_commands`;
  - the per-connection frame loop `handle_websocket`.
- The **spawn helpers** in `src/text_spawner.rs`, as effects on the command
  buffer and on the scrolling speed.

## Layout

- `wrappers.dfy`: `Option`.
- `ecs.dfy`, module `Ecs`. The entity model:
  - entities with an id, a text, a set of tags and an x position;
  - the deferred command buffer (`Spawn`, `Despawn`, `Insert`);
  - the query filters;
  - `ApplyAll`, which applies a buffer at a sync point, with lemmas on what
    applying despawns and inserts does.
- `board.dfy`, module `Board`. `src/main.rs`:
  - the class `World` holds the resources (`TextQueue`, `ScrollingState`,
    `ScrollingSpeed`), the entity list, the command buffer and the id
    allocator;
  - each system is a method whose `modifies` clause names the fields its
    Bevy parameters let it change.
- `text_spawner.dfy`, module `TextSpawner`. The newer revision's spawn helpers.
  The text metrics of that revision are a parameter.
- `server.dfy`, module `Server`. `src/server.rs`:
  - the dispatcher is specified by `Step` (one command) and `Drain`
    (every queued command, oldest first);
  - `HandleWebsocketCommands` is proved to leave exactly `Drain`'s result.

Bevy's `Commands` are deferred. A system reads the entity list as it was when
the system started and appends structural changes to `pending`.
`World.Flush` applies them. `World.Consistent` (part of `World.Valid`)
keeps the id discipline of the allocator: entity ids are distinct and below
`nextId`, and no buffered spawn reuses an id. Every method that buffers or
applies commands preserves it. This is why a despawn issued during a drain only
reaches texts that existed before the tick, and why two bulletins in one tick
leave both new texts showing (`Server.TwoBulletinsInOneTickShowBoth`).

`src/main.rs` and `src/server.rs` come from two revisions of the program, and
each file keeps its own tags and transitions:
- `main.rs` uses `ScrollingActive` and its own `spawn_text`;
- `server.rs` uses `Showing` and the helpers of `text_spawner.rs`.

Behaviour of the code that the model keeps:
- At index 0 the previous text of a bulletin is `texts[0]` itself, because
  `saturating_sub(1)` clamps at 0 (src/server.rs:197).
- At the last index the next text is empty (src/server.rs:201-203).
- At index `u32::MAX` the next-text index wraps to 0, as in a release build
  (src/server.rs:201).
- The response receiver is dropped as soon as `setup_websocket_server`
  returns (src/server.rs:82), so every response send fails. The model keeps
  this as `responseReceiverOpen == false` after `SetupWebsocketServer`, and
  `Server.DrainWithoutReceiverSendsNothing` proves that nothing is then
  buffered.

## Model

| member | source | states |
|---|---|---|
| Ecs.Select | src/main.rs:135-136 | A query filter keeps exactly the entities that satisfy its filter, and is empty when none does |
| Ecs.ApplyAllAppend | src/server.rs:171-177 | Applying two command batches one after the other is the same as applying their concatenation |
| Ecs.ApplyDespawns | src/server.rs:175-177 | After despawning a list of ids, an entity remains iff it was there and its id is not in the list |
| Ecs.ApplyInserts | src/main.rs:144-146 | Inserting a tag for a list of ids keeps the entity list's length and tags exactly the entities whose id is in the list |
| Ecs.ApplyKeepsIdsBelow | src/main.rs:168-174 | Applying the buffer keeps every entity id below the allocator |
| Ecs.SelectKeepsDistinct | src/main.rs:135-136 | A query result of entities with distinct ids again has distinct ids |
| Ecs.ApplyIds | src/main.rs:144-153 | Every id present after one command was present before, or is the id that command spawns |
| Ecs.ApplyKeepsDistinct | src/main.rs:144-153 | One command keeps entity ids distinct when its spawn, if any, has a fresh id |
| Ecs.WellFormedSpawn | src/main.rs:101-110 | Buffering a spawn with the allocator's next id keeps the id discipline and moves the allocator on by one |
| Ecs.WellFormedQueue | src/main.rs:144-153 | Buffering a despawn or a tag insert keeps the id discipline |
| Ecs.WellFormedFlush | src/main.rs:39-42 | Applying the whole buffer keeps ids distinct and below the allocator and leaves nothing buffered |
| Board.World.constructor | src/main.rs:16-38 | The resources before startup: the given queue with the cursor at 0, scrolling off, speed 0, no entities |
| Board.World.Flush | src/main.rs:39-42 | At the sync point the buffered commands are applied to the entities in order, the buffer is emptied, and the id discipline still holds |
| Board.Advance | src/main.rs:156 | Advancing the cursor stays below the queue length, moves to the next index, and wraps to 0 exactly from the last index |
| Board.AdvanceTimesRotates | src/main.rs:209 | k ≤ n advances from index i land on i + k, or on i + k − n once past the end |
| Board.FullCycle | src/main.rs:156 | n advances over a queue of n texts return to the starting index, and no fewer do |
| Board.CountAscii | src/main.rs:232-241 | The ASCII and non-ASCII counts add up to the number of characters |
| Board.CountAsciiClassifies | src/main.rs:233-239 | The ASCII count is the whole length iff every character is ASCII; the non-ASCII count is the whole length iff none is |
| Board.CountAsciiConcat | src/main.rs:233-240 | The fold is additive over concatenation |
| Board.WidthUnits | src/main.rs:244-245 | The width in units, 2·non-ASCII + ASCII, lies between n and 2n; it is n iff all characters are ASCII and 2n iff none are |
| Board.CalcTextOffset | src/main.rs:243-247 | The start offset lies between 990 + 290·n and 990 + 580·n for a text of n characters |
| Board.CalcSpeed | src/main.rs:249-251 | The speed times the duration equals the distance plus 1080, and is positive when that distance is |
| Board.FirstCrossed | src/main.rs:199-204 | The first active text, in query order, whose left edge has crossed; none iff no active text has crossed |
| Board.DefaultFirstText | src/main.rs:16-36 | The default queue has four texts; the first is 28 width units wide, starts at 9110 and scrolls at 3860 per second |
| Board.Scrolled | src/main.rs:124-126 | Active texts move left by the given distance; every other entity is unchanged |
| Board.ScrolledKeepsWellFormed | src/main.rs:124-126 | Moving texts keeps every id in place, so the id discipline still holds |
| Board.WaitingIdsExactly | src/main.rs:135 | With distinct ids, a text's id is among the waiting query's ids iff the text is waiting |
| Board.ClickStartsWaitingTexts | src/main.rs:144-146 | Once flushed, every waiting text is active, the others are unchanged, and no waiting text remains |
| Board.ClickReplacesActiveTexts | src/main.rs:151-174 | Once flushed, the active texts are gone and the spawned text is added; every other entity stays |
| Board.CompletionReplacesText | src/main.rs:206-221 | Once flushed, the completed text is gone and the next one is added; every other entity stays |
| Board.ScrollingText | src/main.rs:101-109 | The text this revision spawns is waiting, not tagged `Showing`, and starts at the computed offset |
| Board.DespawnEach | src/main.rs:151-153 | Buffers one despawn per id, in order |
| Board.InsertEach | src/main.rs:144-146 | Buffers one tag insert per id, in order |
| Board.SpawnText | src/main.rs:92-112 | Buffers one waiting text with a fresh id at the computed offset, and overwrites the speed with the one computed for this text and its duration |
| Board.Setup | src/main.rs:68-90 | Buffers the waiting text for the first entry of the queue and sets its speed |
| Board.Boot | src/main.rs:58-61 | After startup and the sync point: exactly one entity, the waiting text of the first entry; cursor 0; scrolling off |
| Board.HandleMouseClick | src/main.rs:129-182 | No press: nothing changes. Press while waiting: scrolling on and the waiting texts start, with the cursor kept and nothing spawned. Press while scrolling: the active texts are despawned, the cursor advances, scrolling stops and one waiting text for the new entry is spawned |
| Board.TextScrollSystem | src/main.rs:114-127 | Scrolling off: nothing moves. Scrolling on: exactly the active texts move left by speed × delta |
| Board.CheckTextCompletion | src/main.rs:184-230 | No crossed active text: nothing changes. Otherwise only the first crossed text is despawned; the cursor advances; scrolling stops; the next text is spawned waiting |
| Board.ClickThenSync | src/main.rs:129-182 | A click from an empty buffer, then the sync point. No press: the entities are unchanged. Press while waiting: every waiting text is now active, the rest are unchanged, and none is left waiting. Press while scrolling: exactly the non-active entities remain, plus one waiting text for the next entry |
| Board.CompletionThenSync | src/main.rs:184-230 | A completion check from an empty buffer, then the sync point. No crossed text: the entities are unchanged. Otherwise exactly the first crossed text is gone and the waiting text for the next entry has been added |
| Board.ClickAndCompletionInOneFrame | src/main.rs:129-230 | A click while a text is scrolling, then the completion check, in the same frame and with the first crossed text `done`: the world stays valid and stops scrolling, the cursor advances twice, two ids are used, and the buffer gains the click's despawns of every scrolling text and its waiting text, then the despawn of `done` and a second waiting text |
| Board.CrossedTextIsActive | src/main.rs:189-206 | The text the completion check picks is one of the world's scrolling entities, with an id below the next free one |
| Board.ClickThenCompletionBuffer | src/main.rs:149-221 | Applying the click's despawns of every scrolling text and its spawn, then the completion's despawn of one of those texts and its spawn, leaves exactly the entities that were not scrolling plus both spawned texts (both directions) |
| Board.CompleteText | src/main.rs:205-221 | One completed crossing: that text is despawned, the cursor advances, scrolling stops, and the waiting text for the next entry is buffered with a fresh id and its speed |
| TextSpawner.ShowingText | src/text_spawner.rs:18-28 | The helper's text is tagged `TextScroll` and `Showing`, is waiting (no `ScrollingActive`) and starts at the text offset |
| TextSpawner.StaticText | src/text_spawner.rs:38-46 | The static text is tagged `Showing` only, not `TextScroll`, and sits at the origin |
| TextSpawner.SpawnText | src/text_spawner.rs:8-31 | Buffers exactly one showing, waiting text with a fresh id, and overwrites the speed with the one computed from twice the offset and this text's duration; nothing is despawned and the cursor and flag are untouched |
| TextSpawner.SpawnStaticText | src/text_spawner.rs:33-48 | Buffers exactly one static text with a fresh id; the speed, cursor and flag are untouched |
| Server.Offer | src/server.rs:81-82 | A bounded send buffers the response iff the receiver exists and fewer than 100 are buffered; otherwise the buffer is unchanged |
| Server.WebSocketChannel.SetupWebsocketServer | src/server.rs:80-95 | Both channels start empty, and the response receiver is already gone |
| Server.WebSocketChannel.TryRecv | src/server.rs:171 | Takes the oldest queued command, or reports an empty channel and changes nothing |
| Server.WebSocketChannel.TrySend | src/server.rs:211 | Reports success iff the receiver exists and there is room, and buffers the response exactly then |
| Server.BingoState.Next | src/server.rs:222 | The engine's answer to its n-th call, and its draw count afterwards |
| Server.WrappingInc | src/server.rs:201 | `index + 1` on a `u32`: the successor below the largest value, 0 at the largest |
| Server.BulletinFor | src/server.rs:197-209 | The current text is the one at the index. The previous one is at index − 1, or the current text itself at index 0. The next one is at index + 1, or empty at the last index; at `u32::MAX` it is `texts[0]` |
| Server.DecimalText | src/server.rs:225 | At least one character, all decimal digits, no leading zero |
| Server.DecimalRoundTrip | src/server.rs:225 | The digits of a drawn number read back as that number |
| Server.Step | src/server.rs:172-254 | The per-command effects. Bulletin in range: clear the showing texts, spawn the entry's text, move the cursor, start scrolling, reply. Bulletin out of range: only clear. Bingo: clear and draw; on a draw, spawn the number and reply with the draw count mod 256. Countdown: only the reply. Always: the cursor stays in range, the buffer only grows, with despawns of pre-tick ids and at most one spawn with a fresh id |
| Server.SendFailureKeepsEffects | src/server.rs:211 | A failed send changes nothing but the response buffer; the command's other effects stand |
| Server.Drain | src/server.rs:171-255 | Draining never shrinks the buffer and never moves the allocator back |
| Server.DrainAppend | src/server.rs:171 | Draining is first-in first-out: draining a + b is draining a, then b |
| Server.DrainKeepsCursorInRange | src/server.rs:193 | Whatever is queued, the cursor stays inside the queue |
| Server.DrainWithoutReceiverSendsNothing | src/server.rs:82 | With the response receiver gone, no response is ever buffered |
| Server.DrainTouchesOnlyPreTickTexts | src/server.rs:169-177 | Every buffered despawn names a text the query saw when the system started, and every spawn uses an id handed out during the drain |
| Server.ApplyClearThenSpawn | src/server.rs:175-191 | Once applied, a clear then a spawn leaves exactly the uncleared entities plus the spawned one |
| Server.ShowingIdsOf | src/server.rs:169 | The query's ids cover every showing entity and are all below the allocator |
| Server.BulletinShowsOnlyItsText | src/server.rs:173-191 | After one valid bulletin and the sync point, its text is the only showing entity |
| Server.TwoBulletinsBuffer | src/server.rs:173-191 | Two valid bulletins buffer a clear then a spawn each, with consecutive fresh ids |
| Server.ClearSpawnTwice | src/server.rs:175-191 | Clearing the same ids around two fresh spawns keeps both spawned entities |
| Server.TwoBulletinsInOneTickShowBoth | src/server.rs:169-191 | Two valid bulletins in one tick leave both new texts showing after the sync point, because the second clear only reaches pre-tick texts |
| Server.HandleWebsocketCommands | src/server.rs:160-256 | Empties the command channel and leaves exactly the state that draining the queued commands, oldest first, specifies. The ids cleared are those of the world at the start of the system. It works on any queue, including an empty one, keeps the id discipline, and keeps the cursor in range when it was |
| Server.DispatchBulletin | src/server.rs:173-213 | The Bulletin arm has exactly the effect `Step` gives it |
| Server.DispatchBingo | src/server.rs:214-238 | The Bingo arm has exactly the effect `Step` gives it |
| Server.DispatchCountdown | src/server.rs:239-253 | The Countdown arm has exactly the effect `Step` gives it |
| Server.Run | src/server.rs:132-157 | A connection never forwards more commands than the frames it reads |
| Server.HandleWebsocket | src/server.rs:127-158 | The frame loop forwards and consumes exactly what `Run` specifies |
| Server.RunForwardsDecoded | src/server.rs:134-146 | Before any close or error, with the receiver present, every decodable text frame is forwarded, in order, and every frame is read |
| Server.RunSkipsIgnoredFrame | src/server.rs:142-151 | A text frame that does not decode, or a frame of another kind, is skipped without ending the loop |
| Server.RunStopsAtEnd | src/server.rs:147-155 | Nothing after a close frame or a receive error is forwarded |
| Server.RunStopsAtFailedSend | src/server.rs:136-140 | A decodable text frame whose send fails ends the loop: the session is the same whatever frames follow it |
| Server.RunWithoutReceiverForwardsNothing | src/server.rs:137-139 | Once the command receiver is gone, the first send fails and nothing is forwarded |

## Left out

- Floating point: offsets, speeds and positions are exact reals. f32
  rounding is not modelled.
- `Board.Duration`: durations are taken as positive. The loader does not
  check this: `TextSource.duration` is a plain `f32` read from the CSV
  (src/loader.rs:5-9, 28-30), and the dispatcher passes it on unchecked
  (src/server.rs:182-191). With a zero duration `calc_speed` gives an
  infinite f32 speed, and a negative one a negative speed. The model does
  not cover either case.
- Query order: a query is modelled as visiting entities in spawn order, with
  an insert leaving an entity in place. Bevy orders a query by archetype
  table. Inserting `ScrollingActive` moves an entity to another table, and a
  despawn moves a table's last row into the gap. So when several active
  texts have crossed, which one `Board.CheckTextCompletion` and
  `Board.CompletionThenSync` handle is the model's choice. Only "exactly one
  crossed active text is handled per tick" (the `break` at src/main.rs:227)
  carries over to the program.
- The text metrics of the newer revision (`crate::text::calc_text_offset`,
  `calc_speed`) are not part of this model. `TextMetrics` passes them in as
  functions.
- The text layout width of `check_text_completion` is a parameter
  (`layoutWidth`, by entity id).
- The clock's `delta_secs` is a parameter.
- The bingo engine (`crate::bingo`) is not part of this model. Its answers are
  taken as a function of the call count, and no draw or reset rule is assumed.
- The network: binding, routing and upgrade, and the Tokio runtime
  (src/server.rs:97-125). The channels are sequences.
- The command sender's wait when the channel is full is not modelled. The
  sequential model has no backpressure.
- JSON decoding and encoding (serde): decoding is the `parse` parameter, and
  the wire format of responses is not modelled.
- Rendering: fonts, colours, the camera (`Camera2d` spawn), asset loading,
  `NoFrustumCulling`. These are presentation only.
- The loader (`src/loader.rs`): file I/O and CSV/TOML parsing. The queue is
  taken as given.
- The loader does not guarantee a non-empty queue. An empty or header-only
  preset file yields `Ok` with no texts (src/loader.rs:18-31), and the demo
  text is substituted only on an error (src/loader.rs:43-54).
- `Board.World.constructor`, `Board.Boot` and the main.rs systems (through
  `World.Valid`) require a non-empty queue. `setup` indexes `texts[0]` and
  the cursor advance takes `% texts.len()`, so on an empty queue main.rs
  panics.
- `Server.HandleWebsocketCommands` needs only `World.Consistent` and copes
  with an empty queue.
- A despawn or tag insert aimed at an entity that no longer exists is a
  no-op. In Bevy it goes to the command error handler.
- `Server.WrappingInc` models the release build at `u32::MAX`, where the
  addition wraps and the next text is `texts[0]`. A debug build panics
  there instead, and the model does not capture that panic.
- The methods `Board.ClickThenSync` and `Board.CompletionThenSync` start from
  an empty command buffer, as after the previous sync point.
- The order of the `Update` systems within a frame is not modelled. Each
  system is a separate method.
- Whatever that order, `handle_mouse_click` and `check_text_completion` both
  see the entities as they were at the start of the frame, because their
  commands apply only at the sync point. A click on an active text that has
  also crossed the edge in the same frame therefore advances the cursor
  twice and leaves two waiting texts. `Board.ClickAndCompletionInOneFrame`
  states the buffer this produces with the click system run first, and
  `Board.ClickThenCompletionBuffer` what the sync point leaves from it. The
  other order is not stated.
- Logging (`println!`, `eprintln!`).
