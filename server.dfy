/**
 * The command bridge of the networked revision: the protocol datatypes, the
 * two channels between the network side and the update loop, the per-tick
 * dispatcher `handle_websocket_commands`, and the per-connection frame loop
 * `handle_websocket`.
 *
 * The dispatcher is specified by `Step` (one command) and `Drain` (every
 * queued command, first queued first), over a `Tick` value that collects the
 * state the dispatcher changes; the method is proved to leave exactly
 * `Drain`'s result. The bingo engine is not part of this model: its
 * successive answers are taken as a function of how often it was asked.
 */
module Server {
  import opened Wrappers
  import opened Ecs
  import opened Board
  import opened TextSpawner

  type U8 = n: int | 0 <= n < 0x100
  type U32 = n: int | 0 <= n < 0x1_0000_0000

  // ---------------------------------------------------------------------------
  // Protocol

  datatype BingoMethod = Next
  datatype CountdownMethod = Start

  /** An inbound command, as decoded from a text frame. */
  datatype WsCommand =
    | Bulletin(preset: string, index: U32)
    | Bingo(bingoMethod: BingoMethod)
    | Countdown(countdownMethod: CountdownMethod)

  datatype BulletinResponse = BulletinResponse(prevText: string, nowText: string, nextText: string)
  datatype BingoResponse = BingoResponse(current: U8, no: U8)
  datatype CountdownResponse = CountdownResponse(status: string)

  /** An outbound response; on the wire its variant is told apart only by its field names. */
  datatype WsResponse =
    | BulletinReply(bulletin: BulletinResponse)
    | BingoReply(bingo: BingoResponse)
    | CountdownReply(countdown: CountdownResponse)

  // ---------------------------------------------------------------------------
  // Channels

  /** Both channels are created with room for 100 messages. */
  const ChannelCapacity: nat := 100

  /** `try_send`: the message is buffered if the receiver still exists and there is room, and dropped otherwise. */
  function Offer(buffer: seq<WsResponse>, receiverOpen: bool, r: WsResponse): (b: seq<WsResponse>)
    ensures b == buffer || b == buffer + [r]
    ensures b == buffer + [r] <==> receiverOpen && |buffer| < ChannelCapacity
    ensures |buffer| <= ChannelCapacity ==> |b| <= ChannelCapacity
  {
    if receiverOpen && |buffer| < ChannelCapacity then buffer + [r] else buffer
  }

  /**
   * The update loop's ends of the two channels: the commands queued for it,
   * the responses buffered for the network side, and whether anyone still
   * holds the receiving end of the response channel.
   */
  class WebSocketChannel {
    var commands: seq<WsCommand>
    var responses: seq<WsResponse>
    var responseReceiverOpen: bool

    /** `setup_websocket_server`: the response receiver is dropped as soon as setup returns. */
    constructor SetupWebsocketServer()
      ensures commands == [] && responses == [] && !responseReceiverOpen
    {
      commands := [];
      responses := [];
      responseReceiverOpen := false;
    }

    /** `try_recv`: takes the oldest queued command, or reports an empty channel. */
    method TryRecv() returns (r: Option<WsCommand>)
      modifies this`commands
      ensures old(commands) == [] ==> r == None && commands == []
      ensures old(commands) != [] ==> r == Some(old(commands)[0]) && commands == old(commands)[1..]
    {
      if commands == [] {
        r := None;
      } else {
        r := Some(commands[0]);
        commands := commands[1..];
      }
    }

    /** `try_send` on the response channel. */
    method TrySend(response: WsResponse) returns (sent: bool)
      modifies this`responses
      ensures sent <==> responseReceiverOpen && |old(responses)| < ChannelCapacity
      ensures responses == Offer(old(responses), responseReceiverOpen, response)
    {
      sent := responseReceiverOpen && |responses| < ChannelCapacity;
      if sent {
        responses := responses + [response];
      }
    }
  }

  // ---------------------------------------------------------------------------
  // The bingo engine, as seen by the dispatcher

  /** What the engine's `next()` returns on one call, and its draw count afterwards. */
  datatype BingoAnswer = BingoAnswer(drawn: Option<U8>, indexAfter: nat)

  /** The engine's observable behaviour: its answer to the `calls`-th call is `answers(calls)`. */
  class BingoState {
    const answers: nat -> BingoAnswer
    var calls: nat
    var index: nat

    constructor (answers: nat -> BingoAnswer, index: nat)
      ensures this.answers == answers && calls == 0 && this.index == index
    {
      this.answers := answers;
      calls := 0;
      this.index := index;
    }

    method Next() returns (drawn: Option<U8>)
      modifies this`calls, this`index
      ensures drawn == answers(old(calls)).drawn
      ensures index == answers(old(calls)).indexAfter
      ensures calls == old(calls) + 1
    {
      drawn := answers(calls).drawn;
      index := answers(calls).indexAfter;
      calls := calls + 1;
    }
  }

  // ---------------------------------------------------------------------------
  // Response contents

  /** `texts.get(i).map(|t| t.content.clone()).unwrap_or_default()` */
  function ContentAt(texts: seq<TextSource>, i: nat): string {
    if i < |texts| then texts[i].content else ""
  }

  function SaturatingSub1(i: U32): U32 {
    if i == 0 then 0 else i - 1
  }

  /** `index + 1` on a `u32` in a release build: it wraps to 0 past the largest value. */
  function WrappingInc(i: U32): (r: U32)
    ensures i < 0xFFFF_FFFF ==> r == i + 1
    ensures i == 0xFFFF_FFFF ==> r == 0
  {
    (i + 1) % 0x1_0000_0000
  }

  /** The neighbour lookup of a bulletin: the previous text clamped at the front, no wrap-around at the back. */
  function BulletinFor(texts: seq<TextSource>, index: U32): (r: BulletinResponse)
    requires index < |texts|
    ensures r.nowText == texts[index].content
    ensures index > 0 ==> r.prevText == texts[index - 1].content
    ensures index == 0 ==> r.prevText == r.nowText
    ensures index < 0xFFFF_FFFF && index + 1 < |texts| ==> r.nextText == texts[index + 1].content
    ensures index < 0xFFFF_FFFF && index + 1 == |texts| ==> r.nextText == ""
    ensures index == 0xFFFF_FFFF ==> r.nextText == texts[0].content
  {
    BulletinResponse(ContentAt(texts, SaturatingSub1(index)), texts[index].content, ContentAt(texts, WrappingInc(index)))
  }

  function DigitChar(d: nat): (c: char)
    requires d < 10
    ensures '0' <= c <= '9' && c as int - '0' as int == d
  {
    "0123456789"[d]
  }

  /** `n.to_string()`: the decimal digits of `n`, without leading zeros. */
  function DecimalText(n: nat): (s: string)
    ensures |s| >= 1
    ensures forall i :: 0 <= i < |s| ==> '0' <= s[i] <= '9'
    ensures |s| > 1 ==> s[0] != '0'
    decreases n
  {
    if n < 10 then [DigitChar(n)] else DecimalText(n / 10) + [DigitChar(n % 10)]
  }

  /** The number a string of decimal digits denotes. */
  function DecimalValue(s: string): nat
    requires forall i :: 0 <= i < |s| ==> '0' <= s[i] <= '9'
    decreases |s|
  {
    if s == [] then 0
    else DecimalValue(s[..|s| - 1]) * 10 + (s[|s| - 1] as int - '0' as int)
  }

  /** The static text spawned for a drawn number reads back as that number. */
  lemma {:induction false} DecimalRoundTrip(n: nat)
    ensures DecimalValue(DecimalText(n)) == n
    decreases n
  {
    var s := DecimalText(n);
    if n >= 10 {
      DecimalRoundTrip(n / 10);
      assert s[..|s| - 1] == DecimalText(n / 10);
    }
  }

  // ---------------------------------------------------------------------------
  // The dispatcher, as a specification

  /** The state `handle_websocket_commands` changes. */
  datatype Tick = Tick(
    currentIndex: nat,
    isActive: bool,
    speed: real,
    pending: seq<EntityCommand>,
    nextId: nat,
    bingoCalls: nat,
    bingoIndex: nat,
    responses: seq<WsResponse>)

  /**
   * What the dispatcher reads and does not change: the queue, the ids the
   * `Showing` query saw when the system started, the configuration and text
   * geometry, the bingo engine's answers, and whether responses can be sent.
   */
  datatype Env = Env(
    texts: seq<TextSource>,
    showing: seq<nat>,
    config: Config,
    metrics: TextMetrics,
    answers: nat -> BingoAnswer,
    receiverOpen: bool)

  /** Applies one command. */
  function Step(env: Env, t: Tick, c: WsCommand): (r: Tick)
    ensures t.currentIndex < |env.texts| ==> r.currentIndex < |env.texts|
    ensures |t.pending| <= |r.pending| && r.pending[..|t.pending|] == t.pending
    ensures forall k :: |t.pending| <= k < |r.pending| ==>
      (r.pending[k].Despawn? && r.pending[k].target in env.showing)
      || (r.pending[k].Spawn? && r.pending[k].entity.id == t.nextId && k == |r.pending| - 1)
    ensures r.nextId == t.nextId || r.nextId == t.nextId + 1
    ensures r.responses == t.responses || (env.receiverOpen && |r.responses| == |t.responses| + 1 && r.responses[..|t.responses|] == t.responses)
    ensures c.Countdown? ==>
      r == t.(responses := Offer(t.responses, env.receiverOpen, CountdownReply(CountdownResponse("started"))))
    ensures c.Bulletin? && c.index >= |env.texts| ==>
      r == t.(pending := t.pending + Despawns(env.showing))
    ensures c.Bulletin? && c.index < |env.texts| ==>
      var src := env.texts[c.index];
      && r.currentIndex == c.index && r.isActive
      && r.pending == t.pending + Despawns(env.showing) + [Spawn(ShowingText(t.nextId, src.content, env.config, env.metrics))]
      && r.nextId == t.nextId + 1
      && r.speed == SpawnSpeed(src.content, src.duration, env.config, env.metrics)
      && r.bingoCalls == t.bingoCalls && r.bingoIndex == t.bingoIndex
      && r.responses == Offer(t.responses, env.receiverOpen, BulletinReply(BulletinFor(env.texts, c.index)))
    ensures c.Bingo? ==>
      var a := env.answers(t.bingoCalls);
      && r.currentIndex == t.currentIndex && r.isActive == t.isActive && r.speed == t.speed
      && r.bingoCalls == t.bingoCalls + 1 && r.bingoIndex == a.indexAfter
      && (a.drawn.None? ==>
            r.pending == t.pending + Despawns(env.showing) && r.nextId == t.nextId && r.responses == t.responses)
      && (a.drawn.Some? ==>
            && r.pending == t.pending + Despawns(env.showing) + [Spawn(StaticText(t.nextId, DecimalText(a.drawn.value)))]
            && r.nextId == t.nextId + 1
            && r.responses == Offer(t.responses, env.receiverOpen, BingoReply(BingoResponse(a.drawn.value, a.indexAfter % 0x100))))
  {
    match c
    case Bulletin(_, index) =>
      var cleared := t.(pending := t.pending + Despawns(env.showing));
      if index < |env.texts| then
        var src := env.texts[index];
        cleared.(
          pending := cleared.pending + [Spawn(ShowingText(t.nextId, src.content, env.config, env.metrics))],
          nextId := t.nextId + 1,
          speed := SpawnSpeed(src.content, src.duration, env.config, env.metrics),
          currentIndex := index,
          isActive := true,
          responses := Offer(t.responses, env.receiverOpen, BulletinReply(BulletinFor(env.texts, index))))
      else
        cleared
    case Bingo(_) =>
      var a := env.answers(t.bingoCalls);
      var drawn := t.(pending := t.pending + Despawns(env.showing), bingoCalls := t.bingoCalls + 1, bingoIndex := a.indexAfter);
      (match a.drawn
       case None => drawn
       case Some(number) =>
         drawn.(
           pending := drawn.pending + [Spawn(StaticText(t.nextId, DecimalText(number)))],
           nextId := t.nextId + 1,
           responses := Offer(t.responses, env.receiverOpen, BingoReply(BingoResponse(number, a.indexAfter % 0x100)))))
    case Countdown(_) =>
      t.(responses := Offer(t.responses, env.receiverOpen, CountdownReply(CountdownResponse("started"))))
  }

  /** A response that cannot be sent is dropped silently: everything else the command did still stands. */
  lemma SendFailureKeepsEffects(env: Env, t: Tick, c: WsCommand)
    ensures Step(env.(receiverOpen := false), t, c) == Step(env, t, c).(responses := t.responses)
  {
  }

  /** Applies every command of `cmds`, first queued first. */
  function Drain(env: Env, t: Tick, cmds: seq<WsCommand>): (r: Tick)
    ensures |t.pending| <= |r.pending| && t.nextId <= r.nextId
    decreases |cmds|
  {
    if cmds == [] then t else Drain(env, Step(env, t, cmds[0]), cmds[1..])
  }

  /** Draining two batches one after the other is draining their concatenation: commands take effect in queue order. */
  lemma {:induction false} DrainAppend(env: Env, t: Tick, a: seq<WsCommand>, b: seq<WsCommand>)
    ensures Drain(env, t, a + b) == Drain(env, Drain(env, t, a), b)
    decreases |a|
  {
    if a == [] {
      assert a + b == b;
    } else {
      assert (a + b)[0] == a[0];
      assert (a + b)[1..] == a[1..] + b;
      DrainAppend(env, Step(env, t, a[0]), a[1..], b);
    }
  }

  /** Whatever is queued, the queue cursor stays in range. */
  lemma {:induction false} DrainKeepsCursorInRange(env: Env, t: Tick, cmds: seq<WsCommand>)
    requires t.currentIndex < |env.texts|
    ensures Drain(env, t, cmds).currentIndex < |env.texts|
    decreases |cmds|
  {
    if cmds != [] {
      DrainKeepsCursorInRange(env, Step(env, t, cmds[0]), cmds[1..]);
    }
  }

  /** With the response receiver gone (as it is once setup returns), no response is ever buffered. */
  lemma {:induction false} DrainWithoutReceiverSendsNothing(env: Env, t: Tick, cmds: seq<WsCommand>)
    requires !env.receiverOpen
    ensures Drain(env, t, cmds).responses == t.responses
    decreases |cmds|
  {
    if cmds != [] {
      DrainWithoutReceiverSendsNothing(env, Step(env, t, cmds[0]), cmds[1..]);
    }
  }

  /**
   * The commands one drain adds to the buffer despawn only entities the
   * `Showing` query saw when the system started, and spawn only entities with
   * ids handed out during the drain.
   */
  lemma {:induction false} DrainTouchesOnlyPreTickTexts(env: Env, t: Tick, cmds: seq<WsCommand>)
    ensures var r := Drain(env, t, cmds);
      && t.nextId <= r.nextId
      && |t.pending| <= |r.pending| && r.pending[..|t.pending|] == t.pending
      && forall k :: |t.pending| <= k < |r.pending| ==>
           (r.pending[k].Despawn? && r.pending[k].target in env.showing)
           || (r.pending[k].Spawn? && t.nextId <= r.pending[k].entity.id < r.nextId)
    decreases |cmds|
  {
    if cmds != [] {
      var s := Step(env, t, cmds[0]);
      DrainTouchesOnlyPreTickTexts(env, s, cmds[1..]);
      var r := Drain(env, t, cmds);
      assert r == Drain(env, s, cmds[1..]);
      assert r.pending[..|s.pending|] == s.pending;
      forall k | |t.pending| <= k < |r.pending|
        ensures (r.pending[k].Despawn? && r.pending[k].target in env.showing)
             || (r.pending[k].Spawn? && t.nextId <= r.pending[k].entity.id < r.nextId)
      {
        if k < |s.pending| {
          assert r.pending[k] == s.pending[k];
        }
      }
      assert r.pending[..|t.pending|] == s.pending[..|t.pending|];
    }
  }

  /** Applying the despawns of a set of ids and then one spawn. */
  lemma ApplyClearThenSpawn(es: seq<Entity>, ids: seq<nat>, e: Entity)
    ensures forall x :: x in ApplyAll(es, Despawns(ids) + [Spawn(e)]) <==> (x in es && x.id !in ids) || x == e
  {
    ApplyAllAppend(es, Despawns(ids), [Spawn(e)]);
    ApplyDespawns(es, ids);
    var cleared := ApplyAll(es, Despawns(ids));
    assert ApplyAll(cleared, [Spawn(e)]) == ApplyAll(cleared + [e], []);
  }

  /** The ids the `Showing` query reports name exactly the showing entities, and they are all below the allocator. */
  lemma ShowingIdsOf(es: seq<Entity>, bound: nat)
    requires IdsBelow(es, bound)
    ensures forall e :: e in es && IsShowing(e) ==> e.id in Ids(ShowingTexts(es))
    ensures forall i :: i in Ids(ShowingTexts(es)) ==> i < bound
  {
    var shown := ShowingTexts(es);
    forall e | e in es && IsShowing(e) ensures e.id in Ids(shown) {
      assert e in shown;
      var j :| 0 <= j < |shown| && shown[j] == e;
      assert Ids(shown)[j] == e.id;
    }
    forall i | i in Ids(shown) ensures i < bound {
      var j :| 0 <= j < |Ids(shown)| && Ids(shown)[j] == i;
      assert shown[j] in es;
    }
  }

  /** One valid bulletin in a tick: once the buffer is applied, its text is the only one showing. */
  lemma BulletinShowsOnlyItsText(env: Env, t: Tick, es: seq<Entity>, preset: string, index: U32)
    requires env.showing == Ids(ShowingTexts(es)) && IdsBelow(es, t.nextId)
    requires index < |env.texts|
    ensures var r := Step(env, t, Bulletin(preset, index));
      var shown := ShowingText(t.nextId, env.texts[index].content, env.config, env.metrics);
      forall e :: e in ApplyAll(es, r.pending[|t.pending|..]) && IsShowing(e) <==> e == shown
  {
    var r := Step(env, t, Bulletin(preset, index));
    var shown := ShowingText(t.nextId, env.texts[index].content, env.config, env.metrics);
    assert r.pending[|t.pending|..] == Despawns(env.showing) + [Spawn(shown)];
    ApplyClearThenSpawn(es, env.showing, shown);
    ShowingIdsOf(es, t.nextId);
  }

  /** The buffer two valid bulletins leave: each clears the pre-tick showing texts, then spawns its own. */
  lemma TwoBulletinsBuffer(env: Env, t: Tick, p: string, i: U32, q: string, j: U32)
    requires i < |env.texts| && j < |env.texts|
    ensures var r := Drain(env, t, [Bulletin(p, i), Bulletin(q, j)]);
      var d := Despawns(env.showing);
      && r.pending[|t.pending|..]
           == (d + [Spawn(ShowingText(t.nextId, env.texts[i].content, env.config, env.metrics))])
            + (d + [Spawn(ShowingText(t.nextId + 1, env.texts[j].content, env.config, env.metrics))])
  {
    var s1 := Step(env, t, Bulletin(p, i));
    var s2 := Step(env, s1, Bulletin(q, j));
    assert [Bulletin(p, i), Bulletin(q, j)][1..] == [Bulletin(q, j)];
    assert Drain(env, s1, [Bulletin(q, j)]) == Drain(env, s2, []);
    assert Drain(env, t, [Bulletin(p, i), Bulletin(q, j)]) == s2;
  }

  /** Clearing the same ids twice around two spawns with fresh ids keeps both spawned entities. */
  lemma ClearSpawnTwice(es: seq<Entity>, ids: seq<nat>, first: Entity, second: Entity)
    requires first.id !in ids && second.id !in ids
    ensures var d := Despawns(ids);
      forall x :: x in ApplyAll(es, (d + [Spawn(first)]) + (d + [Spawn(second)])) <==>
        (x in es && x.id !in ids) || x == first || x == second
  {
    var d := Despawns(ids);
    ApplyAllAppend(es, d + [Spawn(first)], d + [Spawn(second)]);
    var mid := ApplyAll(es, d + [Spawn(first)]);
    ApplyClearThenSpawn(es, ids, first);
    ApplyClearThenSpawn(mid, ids, second);
  }

  /**
   * Two valid bulletins in one tick: the second one's despawns only reach the
   * texts that existed before the tick, so once the buffer is applied both new
   * texts are showing.
   */
  lemma TwoBulletinsInOneTickShowBoth(env: Env, t: Tick, es: seq<Entity>, p: string, i: U32, q: string, j: U32)
    requires env.showing == Ids(ShowingTexts(es)) && IdsBelow(es, t.nextId)
    requires i < |env.texts| && j < |env.texts|
    ensures var r := Drain(env, t, [Bulletin(p, i), Bulletin(q, j)]);
      var first := ShowingText(t.nextId, env.texts[i].content, env.config, env.metrics);
      var second := ShowingText(t.nextId + 1, env.texts[j].content, env.config, env.metrics);
      forall e :: e in ApplyAll(es, r.pending[|t.pending|..]) && IsShowing(e) <==> e == first || e == second
  {
    var first := ShowingText(t.nextId, env.texts[i].content, env.config, env.metrics);
    var second := ShowingText(t.nextId + 1, env.texts[j].content, env.config, env.metrics);
    TwoBulletinsBuffer(env, t, p, i, q, j);
    ShowingIdsOf(es, t.nextId);
    ClearSpawnTwice(es, env.showing, first, second);
  }

  // ---------------------------------------------------------------------------
  // The dispatcher

  function TickOf(w: World, bingo: BingoState, ch: WebSocketChannel): Tick
    reads w, bingo, ch
  {
    Tick(w.currentIndex, w.isActive, w.speed, w.pending, w.nextId, bingo.calls, bingo.index, ch.responses)
  }

  function EnvOf(w: World, showing: seq<nat>, config: Config, metrics: TextMetrics, bingo: BingoState, ch: WebSocketChannel): Env
    reads w, bingo, ch
  {
    Env(w.texts, showing, config, metrics, bingo.answers, ch.responseReceiverOpen)
  }

  /** The `Bulletin` arm: clear the showing texts; for an index in range, spawn its text, move the cursor, start scrolling and reply with its neighbours. */
  method DispatchBulletin(ch: WebSocketChannel, w: World, bingo: BingoState, showing: seq<nat>, config: Config, metrics: TextMetrics, preset: string, index: U32)
    requires w.Consistent()
    modifies ch`responses, w`currentIndex, w`isActive, w`speed, w`pending, w`nextId
    ensures w.Consistent()
    ensures TickOf(w, bingo, ch) == Step(EnvOf(w, showing, config, metrics, bingo, ch), old(TickOf(w, bingo, ch)), Bulletin(preset, index))
  {
    DespawnEach(w, showing);
    if index < |w.texts| {
      var source := w.texts[index];
      TextSpawner.SpawnText(w, source.content, source.duration, config, metrics);
      w.currentIndex := index;
      w.isActive := true;
      var sent := ch.TrySend(BulletinReply(BulletinFor(w.texts, index)));
    }
  }

  /** The `Bingo` arm: clear the showing texts and draw; a drawn number is shown as static text and replied with the draw count. */
  method DispatchBingo(ch: WebSocketChannel, w: World, bingo: BingoState, showing: seq<nat>, config: Config, metrics: TextMetrics, how: BingoMethod)
    requires w.Consistent()
    modifies ch`responses, w`pending, w`nextId, bingo`calls, bingo`index
    ensures w.Consistent()
    ensures TickOf(w, bingo, ch) == Step(EnvOf(w, showing, config, metrics, bingo, ch), old(TickOf(w, bingo, ch)), Bingo(how))
  {
    match how {
      case Next =>
        DespawnEach(w, showing);
        var drawn := bingo.Next();
        if drawn.Some? {
          SpawnStaticText(w, DecimalText(drawn.value));
          var sent := ch.TrySend(BingoReply(BingoResponse(drawn.value, bingo.index % 0x100)));
        }
    }
  }

  /** The `Countdown` arm: only the reply. */
  method DispatchCountdown(ch: WebSocketChannel, w: World, bingo: BingoState, showing: seq<nat>, config: Config, metrics: TextMetrics, how: CountdownMethod)
    modifies ch`responses
    ensures TickOf(w, bingo, ch) == Step(EnvOf(w, showing, config, metrics, bingo, ch), old(TickOf(w, bingo, ch)), Countdown(how))
  {
    match how {
      case Start =>
        var sent := ch.TrySend(CountdownReply(CountdownResponse("started")));
    }
  }

  /**
   * `handle_websocket_commands`: takes every queued command, oldest first,
   * until the channel is empty, and applies each; the ids of the showing texts
   * are those of the world as it was when the system started.
   */
  method HandleWebsocketCommands(ch: WebSocketChannel, w: World, bingo: BingoState, config: Config, metrics: TextMetrics)
    requires w.Consistent()
    modifies ch`commands, ch`responses
    modifies w`currentIndex, w`isActive, w`speed, w`pending, w`nextId
    modifies bingo`calls, bingo`index
    ensures w.Consistent()
    ensures old(w.Valid()) ==> w.Valid()
    ensures ch.commands == []
    ensures TickOf(w, bingo, ch) ==
      Drain(EnvOf(w, Ids(ShowingTexts(w.entities)), config, metrics, bingo, ch), old(TickOf(w, bingo, ch)), old(ch.commands))
  {
    var showing := Ids(ShowingTexts(w.entities));
    ghost var env := EnvOf(w, showing, config, metrics, bingo, ch);
    ghost var start := TickOf(w, bingo, ch);
    ghost var queued := ch.commands;
    ghost var taken := 0;
    while true
      invariant w.Consistent()
      invariant w.entities == old(w.entities)
      invariant EnvOf(w, showing, config, metrics, bingo, ch) == env
      invariant 0 <= taken <= |queued| && ch.commands == queued[taken..]
      invariant TickOf(w, bingo, ch) == Drain(env, start, queued[..taken])
      decreases |ch.commands|
    {
      var received := ch.TryRecv();
      if received.None? {
        break;
      }
      var command := received.value;
      ghost var before := TickOf(w, bingo, ch);
      match command {
        case Bulletin(preset, index) => DispatchBulletin(ch, w, bingo, showing, config, metrics, preset, index);
        case Bingo(how) => DispatchBingo(ch, w, bingo, showing, config, metrics, how);
        case Countdown(how) => DispatchCountdown(ch, w, bingo, showing, config, metrics, how);
      }
      assert queued[..taken + 1] == queued[..taken] + [command];
      DrainAppend(env, start, queued[..taken], [command]);
      assert Drain(env, before, [command]) == Drain(env, Step(env, before, command), []);
      taken := taken + 1;
    }
    assert queued[..taken] == queued;
    if start.currentIndex < |w.texts| {
      DrainKeepsCursorInRange(env, start, queued);
    }
  }

  // ---------------------------------------------------------------------------
  // The per-connection frame loop

  /** What one `recv` on the socket yields: a text frame, a close frame, any other frame, or an error. */
  datatype Frame = TextFrame(text: string) | CloseFrame | OtherFrame | ReceiveError

  /** The commands a connection forwarded, and how many frames it read before it stopped. */
  datatype Session = Session(forwarded: seq<WsCommand>, consumed: nat)

  predicate Ends(f: Frame) {
    f.CloseFrame? || f.ReceiveError?
  }

  /**
   * The frame loop over the frames a connection receives, with `parse` the
   * JSON decoder and `receiverOpen` whether the update loop still holds the
   * command channel's receiver (a send fails exactly when it does not).
   */
  function Run(frames: seq<Frame>, parse: string -> Option<WsCommand>, receiverOpen: bool): (r: Session)
    ensures |r.forwarded| <= r.consumed <= |frames|
    decreases |frames|
  {
    if frames == [] then Session([], 0)
    else
      var rest := Run(frames[1..], parse, receiverOpen);
      match frames[0]
      case TextFrame(text) =>
        (match parse(text)
         case Some(command) =>
           if receiverOpen then Session([command] + rest.forwarded, rest.consumed + 1) else Session([], 1)
         case None => Session(rest.forwarded, rest.consumed + 1))
      case OtherFrame => Session(rest.forwarded, rest.consumed + 1)
      case CloseFrame => Session([], 1)
      case ReceiveError => Session([], 1)
  }

  /** `handle_websocket`: forwards each decodable text frame; a close frame, a receive error or a failed send ends it. */
  method HandleWebsocket(frames: seq<Frame>, parse: string -> Option<WsCommand>, receiverOpen: bool)
    returns (forwarded: seq<WsCommand>, consumed: nat)
    ensures Session(forwarded, consumed) == Run(frames, parse, receiverOpen)
  {
    forwarded := [];
    var i := 0;
    while i < |frames|
      invariant 0 <= i <= |frames|
      invariant Run(frames, parse, receiverOpen) ==
        Session(forwarded + Run(frames[i..], parse, receiverOpen).forwarded, i + Run(frames[i..], parse, receiverOpen).consumed)
    {
      assert frames[i..][1..] == frames[i + 1..];
      match frames[i] {
        case TextFrame(text) =>
          match parse(text) {
            case Some(command) =>
              if !receiverOpen {
                consumed := i + 1;
                return;
              }
              forwarded := forwarded + [command];
            case None =>
          }
        case CloseFrame =>
          consumed := i + 1;
          return;
        case OtherFrame =>
        case ReceiveError =>
          consumed := i + 1;
          return;
      }
      i := i + 1;
    }
    consumed := i;
  }

  /** The decodable text frames, decoded, in arrival order. */
  function Decoded(frames: seq<Frame>, parse: string -> Option<WsCommand>): seq<WsCommand>
    decreases |frames|
  {
    if frames == [] then []
    else
      var rest := Decoded(frames[1..], parse);
      match frames[0]
      case TextFrame(text) => (match parse(text) case Some(c) => [c] + rest case None => rest)
      case _ => rest
  }

  /** Until the connection ends, a connection forwards exactly its decodable text frames, in order, and reads every frame. */
  lemma {:induction false} RunForwardsDecoded(frames: seq<Frame>, parse: string -> Option<WsCommand>)
    requires forall k :: 0 <= k < |frames| ==> !Ends(frames[k])
    ensures Run(frames, parse, true) == Session(Decoded(frames, parse), |frames|)
    decreases |frames|
  {
    if frames != [] {
      RunForwardsDecoded(frames[1..], parse);
    }
  }

  /** A frame that does not decode, or is neither text nor close, is skipped: the frames after it are still handled. */
  lemma {:induction false} RunSkipsIgnoredFrame(a: seq<Frame>, f: Frame, b: seq<Frame>, parse: string -> Option<WsCommand>, receiverOpen: bool)
    requires f.OtherFrame? || (f.TextFrame? && parse(f.text).None?)
    ensures Run(a + [f] + b, parse, receiverOpen).forwarded == Run(a + b, parse, receiverOpen).forwarded
    decreases |a|
  {
    if a == [] {
      assert a + [f] + b == [f] + b;
      assert ([f] + b)[1..] == b;
      assert a + b == b;
    } else {
      assert (a + [f] + b)[0] == a[0] && (a + [f] + b)[1..] == a[1..] + [f] + b;
      assert (a + b)[0] == a[0] && (a + b)[1..] == a[1..] + b;
      RunSkipsIgnoredFrame(a[1..], f, b, parse, receiverOpen);
    }
  }

  /** Nothing after a close frame or a receive error is forwarded. */
  lemma {:induction false} RunStopsAtEnd(a: seq<Frame>, f: Frame, b: seq<Frame>, parse: string -> Option<WsCommand>, receiverOpen: bool)
    requires Ends(f)
    ensures Run(a + [f] + b, parse, receiverOpen) == Run(a + [f], parse, receiverOpen)
    decreases |a|
  {
    if a == [] {
      assert a + [f] + b == [f] + b;
      assert a + [f] == [f];
    } else {
      assert (a + [f] + b)[0] == a[0] && (a + [f] + b)[1..] == a[1..] + [f] + b;
      assert (a + [f])[0] == a[0] && (a + [f])[1..] == a[1..] + [f];
      RunStopsAtEnd(a[1..], f, b, parse, receiverOpen);
    }
  }

  /** A decodable text frame whose send fails ends the loop: nothing after it is read or forwarded. */
  lemma {:induction false} RunStopsAtFailedSend(a: seq<Frame>, f: Frame, b: seq<Frame>, parse: string -> Option<WsCommand>)
    requires f.TextFrame? && parse(f.text).Some?
    ensures Run(a + [f] + b, parse, false) == Run(a + [f], parse, false)
    decreases |a|
  {
    if a == [] {
      assert a + [f] + b == [f] + b;
      assert a + [f] == [f];
    } else {
      assert (a + [f] + b)[0] == a[0] && (a + [f] + b)[1..] == a[1..] + [f] + b;
      assert (a + [f])[0] == a[0] && (a + [f])[1..] == a[1..] + [f];
      RunStopsAtFailedSend(a[1..], f, b, parse);
    }
  }

  /** Once the update loop has dropped the command receiver, nothing is forwarded. */
  lemma {:induction false} RunWithoutReceiverForwardsNothing(frames: seq<Frame>, parse: string -> Option<WsCommand>)
    ensures Run(frames, parse, false).forwarded == []
    decreases |frames|
  {
    if frames != [] {
      RunWithoutReceiverForwardsNothing(frames[1..], parse);
    }
  }
}
