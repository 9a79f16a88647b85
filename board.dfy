/**
 * The local scroll state machine of the display (the application crate
 * root): the text queue and its cursor, the scrolling flag and speed, the
 * width estimate of a text, the spawn helper of this revision, and the four
 * systems `setup`, `handle_mouse_click`, `text_scroll` and
 * `check_text_completion`.
 *
 * Every system reads the entity list as it was when the system started, and
 * structural changes go to the deferred command buffer (`pending`), applied
 * by `Flush`. Resources (`currentIndex`, `isActive`, `speed`) change at once.
 */
module Board {
  import opened Wrappers
  import opened Ecs

  /** A crossing duration in seconds. */
  type Duration = d: real | d > 0.0 witness 1.0

  /** One announcement of the queue. */
  datatype TextSource = TextSource(content: string, duration: Duration)

  /** The queue the application starts with. */
  const DefaultTexts: seq<TextSource> := [
    TextSource("大阪公立大学工業高等専門学校", 5.0),
    TextSource("学友会執行委員会 情報通信課", 8.0),
    TextSource("学友会執行委員会 総務課展示電気係", 5.0),
    TextSource("学友会執行委員会 音響課", 2.0)
  ]

  /**
   * The world of the application: the `TextQueue`, `ScrollingState` and
   * `ScrollingSpeed` resources, the spawned text entities in spawn order (which
   * the model takes as query order), the
   * command buffer, and the entity-id allocator the buffer reserves ids from.
   */
  class World {
    var texts: seq<TextSource>
    var currentIndex: nat
    var isActive: bool
    var speed: real
    var entities: seq<Entity>
    var pending: seq<EntityCommand>
    var nextId: nat

    /** The entities and the buffer follow the id discipline of the allocator. */
    ghost predicate Consistent()
      reads this
    {
      WellFormed(entities, pending, nextId)
    }

    /** The queue is non-empty, its cursor in range, and the entity ids are consistent. */
    ghost predicate Valid()
      reads this
    {
      && |texts| >= 1
      && currentIndex < |texts|
      && Consistent()
    }

    /** The resources inserted before startup: the queue at index 0, scrolling off, speed 0. */
    constructor (texts: seq<TextSource>)
      requires |texts| >= 1
      ensures Valid()
      ensures this.texts == texts && currentIndex == 0
      ensures !isActive && speed == 0.0
      ensures entities == [] && pending == [] && nextId == 0
    {
      this.texts := texts;
      currentIndex := 0;
      isActive := false;
      speed := 0.0;
      entities := [];
      pending := [];
      nextId := 0;
    }

    /** The sync point: the buffered commands are applied to the world, in order. */
    method Flush()
      requires Consistent()
      modifies this`entities, this`pending
      ensures Consistent()
      ensures entities == ApplyAll(old(entities), old(pending))
      ensures pending == []
    {
      WellFormedFlush(entities, pending, nextId);
      entities := ApplyAll(entities, pending);
      pending := [];
    }
  }

  // ---------------------------------------------------------------------------
  // The text queue cursor

  /** One step of the cursor, wrapping to the front after the last text. */
  function Advance(i: nat, n: nat): (r: nat)
    requires i < n
    ensures r < n
    ensures i + 1 < n ==> r == i + 1
    ensures i + 1 == n ==> r == 0
  {
    (i + 1) % n
  }

  function AdvanceTimes(i: nat, n: nat, k: nat): (r: nat)
    requires i < n
    ensures r < n
    decreases k
  {
    if k == 0 then i else Advance(AdvanceTimes(i, n, k - 1), n)
  }

  /** Within one round of the queue, `k` advances move the cursor `k` places, wrapping once. */
  lemma {:induction false} AdvanceTimesRotates(i: nat, n: nat, k: nat)
    requires i < n && k <= n
    ensures AdvanceTimes(i, n, k) == if i + k < n then i + k else i + k - n
    decreases k
  {
    if k > 0 {
      AdvanceTimesRotates(i, n, k - 1);
    }
  }

  /** As many advances as there are texts bring the cursor back where it started, and no fewer do. */
  lemma FullCycle(i: nat, n: nat)
    requires i < n
    ensures AdvanceTimes(i, n, n) == i
    ensures forall k :: 0 < k < n ==> AdvanceTimes(i, n, k) != i
  {
    AdvanceTimesRotates(i, n, n);
    forall k | 0 < k < n ensures AdvanceTimes(i, n, k) != i {
      AdvanceTimesRotates(i, n, k);
    }
  }

  // ---------------------------------------------------------------------------
  // Width estimate and speed

  predicate IsAscii(c: char) {
    c as int < 128
  }

  /** `(ascii, non_ascii)`: a left fold over the characters, counting each by `is_ascii`. */
  function CountAscii(s: string): (r: (nat, nat))
    ensures r.0 + r.1 == |s|
    decreases |s|
  {
    if s == [] then (0, 0)
    else
      var acc := CountAscii(s[..|s| - 1]);
      if IsAscii(s[|s| - 1]) then (acc.0 + 1, acc.1) else (acc.0, acc.1 + 1)
  }

  /** The first count is the whole length exactly when every character is ASCII, the second exactly when none is. */
  lemma {:induction false} CountAsciiClassifies(s: string)
    ensures CountAscii(s).0 == |s| <==> forall i :: 0 <= i < |s| ==> IsAscii(s[i])
    ensures CountAscii(s).1 == |s| <==> forall i :: 0 <= i < |s| ==> !IsAscii(s[i])
    decreases |s|
  {
    if s != [] {
      var front := s[..|s| - 1];
      CountAsciiClassifies(front);
      assert forall i :: 0 <= i < |front| ==> front[i] == s[i];
    }
  }

  /** The counts of a concatenation are the sums of the counts of its parts. */
  lemma {:induction false} CountAsciiConcat(a: string, b: string)
    ensures CountAscii(a + b) == (CountAscii(a).0 + CountAscii(b).0, CountAscii(a).1 + CountAscii(b).1)
    decreases |b|
  {
    if b == [] {
      assert a + b == a;
    } else {
      var ab := a + b;
      assert ab[..|ab| - 1] == a + b[..|b| - 1];
      assert ab[|ab| - 1] == b[|b| - 1];
      CountAsciiConcat(a, b[..|b| - 1]);
    }
  }

  /** `non_ascii * 2 + ascii`: the text's width in half-width character cells. */
  function WidthUnits(s: string): (u: nat)
    ensures |s| <= u <= 2 * |s|
    ensures u == |s| <==> forall i :: 0 <= i < |s| ==> IsAscii(s[i])
    ensures u == 2 * |s| <==> forall i :: 0 <= i < |s| ==> !IsAscii(s[i])
  {
    CountAsciiClassifies(s);
    var (ascii, nonAscii) := CountAscii(s);
    nonAscii * 2 + ascii
  }

  /** The spawn x-position: half the text's estimated pixel width plus half the window. */
  function CalcTextOffset(s: string): (r: real)
    ensures 990.0 + 290.0 * (|s| as real) <= r <= 990.0 + 580.0 * (|s| as real)
  {
    (WidthUnits(s) as real) * 580.0 / 2.0 + 1980.0 / 2.0
  }

  /** The speed that covers `w` plus the 1080-pixel screen in `d` seconds. */
  function CalcSpeed(w: real, d: Duration): (r: real)
    ensures r * d == w + 1080.0
    ensures w + 1080.0 > 0.0 ==> r > 0.0
  {
    (w + 1080.0) / d
  }

  /** The left-edge test of `check_text_completion`, given the laid-out width. */
  predicate LeftEdgeCrossed(e: Entity, width: real) {
    e.x + width / 2.0 + 1300.0 < 0.0
  }

  /** The position, among `es`, of the first text whose left edge has crossed. */
  function FirstCrossed(es: seq<Entity>, layoutWidth: nat -> real): (r: Option<nat>)
    ensures r.Some? ==> r.value < |es| && LeftEdgeCrossed(es[r.value], layoutWidth(es[r.value].id))
    ensures r.Some? ==> forall k :: 0 <= k < r.value ==> !LeftEdgeCrossed(es[k], layoutWidth(es[k].id))
    ensures r.None? <==> forall k :: 0 <= k < |es| ==> !LeftEdgeCrossed(es[k], layoutWidth(es[k].id))
    decreases |es|
  {
    if es == [] then None
    else if LeftEdgeCrossed(es[0], layoutWidth(es[0].id)) then Some(0)
    else
      match FirstCrossed(es[1..], layoutWidth)
      case None => None
      case Some(k) => Some(k + 1)
  }

  /** The entities after one `text_scroll` step of `dx`: active texts move left, nothing else changes. */
  function Scrolled(es: seq<Entity>, dx: real): (r: seq<Entity>)
    ensures |r| == |es|
    ensures forall k :: 0 <= k < |es| && IsActive(es[k]) ==> r[k] == es[k].(x := es[k].x - dx)
    ensures forall k :: 0 <= k < |es| && !IsActive(es[k]) ==> r[k] == es[k]
  {
    seq(|es|, k requires 0 <= k < |es| => if IsActive(es[k]) then es[k].(x := es[k].x - dx) else es[k])
  }

  /** Scrolling moves texts but keeps every id in place, so the id discipline still holds. */
  lemma ScrolledKeepsWellFormed(es: seq<Entity>, cs: seq<EntityCommand>, nextId: nat, dx: real)
    requires WellFormed(es, cs, nextId)
    ensures WellFormed(Scrolled(es, dx), cs, nextId)
  {
    var r := Scrolled(es, dx);
    assert forall k :: 0 <= k < |es| ==> r[k].id == es[k].id;
    assert Ids(r) == Ids(es);
  }

  // ---------------------------------------------------------------------------
  // Effects of the systems on the world, once their commands are applied

  /** With distinct ids, a scroll text's id is among the waiting query's ids exactly when it is waiting. */
  lemma WaitingIdsExactly(es: seq<Entity>)
    requires DistinctIds(es)
    ensures forall k :: 0 <= k < |es| ==> (es[k].id in Ids(Waiting(es)) <==> IsWaiting(es[k]))
  {
    var ids := Ids(Waiting(es));
    forall k | 0 <= k < |es|
      ensures es[k].id in ids <==> IsWaiting(es[k])
    {
      if IsWaiting(es[k]) {
        assert es[k] in Waiting(es);
        var j :| 0 <= j < |Waiting(es)| && Waiting(es)[j] == es[k];
        assert ids[j] == es[k].id;
      }
      if es[k].id in ids {
        var j :| 0 <= j < |ids| && ids[j] == es[k].id;
        var a := Waiting(es)[j];
        assert a in es;
        var p :| 0 <= p < |es| && es[p] == a;
        assert p == k;
      }
    }
  }

  /** A click while waiting: afterwards every scroll text carries `ScrollingActive`, and nothing else changed. */
  lemma ClickStartsWaitingTexts(es: seq<Entity>)
    requires DistinctIds(es)
    ensures var r := ApplyAll(es, Inserts(Ids(Waiting(es)), ScrollingActive));
      && |r| == |es|
      && (forall k :: 0 <= k < |es| && IsWaiting(es[k]) ==> r[k] == WithTag(es[k], ScrollingActive) && IsActive(r[k]))
      && (forall k :: 0 <= k < |es| && !IsWaiting(es[k]) ==> r[k] == es[k])
      && Waiting(r) == []
  {
    var ids := Ids(Waiting(es));
    var r := ApplyAll(es, Inserts(ids, ScrollingActive));
    ApplyInserts(es, ids, ScrollingActive);
    WaitingIdsExactly(es);
    forall k | 0 <= k < |r| ensures !IsWaiting(r[k]) {
      if IsWaiting(es[k]) {
        assert r[k] == WithTag(es[k], ScrollingActive);
      } else {
        assert r[k] == es[k];
      }
    }
  }

  /** A click while scrolling: afterwards the active texts are gone and the new text is there. */
  lemma ClickReplacesActiveTexts(es: seq<Entity>, spawned: Entity)
    requires DistinctIds(es)
    ensures var r := ApplyAll(es, Despawns(Ids(Active(es))) + [Spawn(spawned)]);
      forall e :: e in r <==> (e in es && !IsActive(e)) || e == spawned
  {
    var ids := Ids(Active(es));
    ApplyAllAppend(es, Despawns(ids), [Spawn(spawned)]);
    ApplyDespawns(es, ids);
    forall e | e in es
      ensures e.id in ids <==> IsActive(e)
    {
      if IsActive(e) {
        assert e in Active(es);
        var j :| 0 <= j < |Active(es)| && Active(es)[j] == e;
        assert ids[j] == e.id;
      }
      if e.id in ids {
        var j :| 0 <= j < |ids| && ids[j] == e.id;
        var a := Active(es)[j];
        assert a in es;
        var p :| 0 <= p < |es| && es[p] == a;
        var q :| 0 <= q < |es| && es[q] == e;
        assert p == q;
      }
    }
  }

  /** A completed crossing: afterwards that text is gone and the next one is there. */
  lemma CompletionReplacesText(es: seq<Entity>, done: Entity, spawned: Entity)
    ensures var r := ApplyAll(es, [Despawn(done.id), Spawn(spawned)]);
      forall e :: e in r <==> (e in es && e.id != done.id) || e == spawned
  {
    var r1 := Apply(es, Despawn(done.id));
    assert ApplyAll(es, [Despawn(done.id), Spawn(spawned)]) == ApplyAll(r1, [Spawn(spawned)]);
    assert ApplyAll(r1, [Spawn(spawned)]) == ApplyAll(r1 + [spawned], []);
  }

  /**
   * The first default announcement has 14 full-width characters, so `Boot`
   * on the default queue starts it 9110 units right of the centre, and it
   * crosses at 3860 units per second.
   */
  lemma DefaultFirstText()
    ensures |DefaultTexts| == 4
    ensures WidthUnits(DefaultTexts[0].content) == 28
    ensures CalcTextOffset(DefaultTexts[0].content) == 9110.0
    ensures CalcSpeed(CalcTextOffset(DefaultTexts[0].content) * 2.0, DefaultTexts[0].duration) == 3860.0
  {
    var s := DefaultTexts[0].content;
    assert |s| == 14;
    assert forall i :: 0 <= i < |s| ==> !IsAscii(s[i]);
  }

  // ---------------------------------------------------------------------------
  // Systems

  /** The scroll text this revision spawns: `TextScroll` only, at the estimated offset. */
  function ScrollingText(id: nat, text: string): (e: Entity)
    ensures IsWaiting(e) && !IsShowing(e)
    ensures e.id == id && e.text == text && e.x == CalcTextOffset(text)
  {
    Entity(id, text, {TextScroll}, CalcTextOffset(text))
  }

  /** `for entity in query { cmds.entity(entity).despawn() }` */
  method DespawnEach(w: World, ids: seq<nat>)
    requires w.Consistent()
    modifies w`pending
    ensures w.Consistent()
    ensures w.pending == old(w.pending) + Despawns(ids)
  {
    var i := 0;
    while i < |ids|
      invariant 0 <= i <= |ids|
      invariant w.pending == old(w.pending) + Despawns(ids[..i])
      invariant w.Consistent()
    {
      assert Despawns(ids[..i + 1]) == Despawns(ids[..i]) + [Despawn(ids[i])];
      WellFormedQueue(w.entities, w.pending, Despawn(ids[i]), w.nextId);
      w.pending := w.pending + [Despawn(ids[i])];
      i := i + 1;
    }
    assert ids[..i] == ids;
  }

  /** `for entity in query { cmds.entity(entity).insert(tag) }` */
  method InsertEach(w: World, ids: seq<nat>, tag: Tag)
    requires w.Consistent()
    modifies w`pending
    ensures w.Consistent()
    ensures w.pending == old(w.pending) + Inserts(ids, tag)
  {
    var i := 0;
    while i < |ids|
      invariant 0 <= i <= |ids|
      invariant w.pending == old(w.pending) + Inserts(ids[..i], tag)
      invariant w.Consistent()
    {
      assert Inserts(ids[..i + 1], tag) == Inserts(ids[..i], tag) + [Insert(ids[i], tag)];
      WellFormedQueue(w.entities, w.pending, Insert(ids[i], tag), w.nextId);
      w.pending := w.pending + [Insert(ids[i], tag)];
      i := i + 1;
    }
    assert ids[..i] == ids;
  }

  /** Queues one waiting scroll text and overwrites the speed with the one computed for it. */
  method SpawnText(w: World, text: string, duration: Duration)
    requires w.Consistent()
    modifies w`pending, w`nextId, w`speed
    ensures w.Consistent()
    ensures w.pending == old(w.pending) + [Spawn(ScrollingText(old(w.nextId), text))]
    ensures w.nextId == old(w.nextId) + 1
    ensures w.speed == CalcSpeed(CalcTextOffset(text) * 2.0, duration)
  {
    var textOffset := CalcTextOffset(text);
    WellFormedSpawn(w.entities, w.pending, Entity(w.nextId, text, {TextScroll}, textOffset), w.nextId);
    w.pending := w.pending + [Spawn(Entity(w.nextId, text, {TextScroll}, textOffset))];
    w.nextId := w.nextId + 1;
    w.speed := CalcSpeed(textOffset * 2.0, duration);
  }

  /** The startup system: the first text of the queue, waiting. */
  method Setup(w: World)
    requires w.Valid()
    modifies w`pending, w`nextId, w`speed
    ensures w.Valid()
    ensures w.pending == old(w.pending) + [Spawn(ScrollingText(old(w.nextId), w.texts[0].content))]
    ensures w.nextId == old(w.nextId) + 1
    ensures w.speed == CalcSpeed(CalcTextOffset(w.texts[0].content) * 2.0, w.texts[0].duration)
  {
    SpawnText(w, w.texts[0].content, w.texts[0].duration);
  }

  /** Startup as a whole: after `setup` and the sync point that follows it, one waiting text, for the first announcement. */
  method Boot(texts: seq<TextSource>) returns (w: World)
    requires |texts| >= 1
    ensures fresh(w) && w.Valid()
    ensures w.texts == texts && w.currentIndex == 0 && !w.isActive
    ensures w.entities == [ScrollingText(0, texts[0].content)] && w.pending == []
    ensures w.speed == CalcSpeed(CalcTextOffset(texts[0].content) * 2.0, texts[0].duration)
  {
    w := new World(texts);
    Setup(w);
    ghost var first := ScrollingText(0, texts[0].content);
    assert w.entities == [] && w.pending == [Spawn(first)];
    assert ApplyAll([], [Spawn(first)]) == ApplyAll([first], []);
    w.Flush();
  }

  /**
   * A left click while waiting starts every waiting text; a left click while
   * scrolling drops the active texts and queues the next announcement,
   * waiting. Without a click nothing changes.
   */
  method HandleMouseClick(w: World, leftJustPressed: bool)
    requires w.Valid()
    modifies w`isActive, w`currentIndex, w`pending, w`nextId, w`speed
    ensures w.Valid()
    ensures !leftJustPressed ==>
      && w.isActive == old(w.isActive) && w.currentIndex == old(w.currentIndex)
      && w.pending == old(w.pending) && w.nextId == old(w.nextId) && w.speed == old(w.speed)
    ensures leftJustPressed && !old(w.isActive) ==>
      && w.isActive
      && w.currentIndex == old(w.currentIndex)
      && w.pending == old(w.pending) + Inserts(Ids(Waiting(w.entities)), ScrollingActive)
      && w.nextId == old(w.nextId) && w.speed == old(w.speed)
    ensures leftJustPressed && old(w.isActive) ==>
      && !w.isActive
      && w.currentIndex == Advance(old(w.currentIndex), |w.texts|)
      && w.pending == old(w.pending) + Despawns(Ids(Active(w.entities)))
                      + [Spawn(ScrollingText(old(w.nextId), w.texts[w.currentIndex].content))]
      && w.nextId == old(w.nextId) + 1
      && w.speed == CalcSpeed(CalcTextOffset(w.texts[w.currentIndex].content) * 2.0, w.texts[w.currentIndex].duration)
  {
    if leftJustPressed {
      if !w.isActive {
        w.isActive := true;
        InsertEach(w, Ids(Waiting(w.entities)), ScrollingActive);
      } else {
        DespawnEach(w, Ids(Active(w.entities)));
        w.currentIndex := Advance(w.currentIndex, |w.texts|);
        w.isActive := false;
        SpawnText(w, w.texts[w.currentIndex].content, w.texts[w.currentIndex].duration);
      }
    }
  }

  /** While scrolling, every active text moves left by `speed * deltaSecs`; otherwise nothing moves. */
  method TextScrollSystem(w: World, deltaSecs: real)
    requires w.Valid()
    modifies w`entities
    ensures w.Valid()
    ensures w.isActive ==> w.entities == Scrolled(old(w.entities), old(w.speed) * deltaSecs)
    ensures !w.isActive ==> w.entities == old(w.entities)
  {
    if !w.isActive {
      return;
    }
    var dx := w.speed * deltaSecs;
    ghost var target := Scrolled(w.entities, dx);
    var i := 0;
    while i < |w.entities|
      invariant 0 <= i <= |w.entities| == |old(w.entities)|
      invariant forall k :: 0 <= k < i ==> w.entities[k] == target[k]
      invariant forall k :: i <= k < |w.entities| ==> w.entities[k] == old(w.entities)[k]
    {
      var e := w.entities[i];
      if IsActive(e) {
        w.entities := w.entities[i := e.(x := e.x - dx)];
      }
      i := i + 1;
    }
    assert w.entities == target;
    ScrolledKeepsWellFormed(old(w.entities), w.pending, w.nextId, dx);
  }

  /** The effect of one completed crossing: drop that text, advance the queue, stop scrolling, queue the next text. */
  method CompleteText(w: World, done: nat)
    requires w.Valid()
    modifies w`isActive, w`currentIndex, w`pending, w`nextId, w`speed
    ensures w.Valid()
    ensures !w.isActive
    ensures w.currentIndex == Advance(old(w.currentIndex), |w.texts|)
    ensures w.pending == old(w.pending) + [Despawn(done), Spawn(ScrollingText(old(w.nextId), w.texts[w.currentIndex].content))]
    ensures w.nextId == old(w.nextId) + 1
    ensures w.speed == CalcSpeed(CalcTextOffset(w.texts[w.currentIndex].content) * 2.0, w.texts[w.currentIndex].duration)
  {
    WellFormedQueue(w.entities, w.pending, Despawn(done), w.nextId);
    w.pending := w.pending + [Despawn(done)];
    w.currentIndex := Advance(w.currentIndex, |w.texts|);
    w.isActive := false;
    SpawnText(w, w.texts[w.currentIndex].content, w.texts[w.currentIndex].duration);
  }

  /**
   * Looks through the active texts in query order, and for the first whose
   * left edge has crossed (and only that one) drops it, advances the queue,
   * stops scrolling and queues the next announcement, waiting.
   */
  method CheckTextCompletion(w: World, layoutWidth: nat -> real)
    requires w.Valid()
    modifies w`isActive, w`currentIndex, w`pending, w`nextId, w`speed
    ensures w.Valid()
    ensures FirstCrossed(Active(w.entities), layoutWidth).None? ==>
      && w.isActive == old(w.isActive) && w.currentIndex == old(w.currentIndex)
      && w.pending == old(w.pending) && w.nextId == old(w.nextId) && w.speed == old(w.speed)
    ensures FirstCrossed(Active(w.entities), layoutWidth).Some? ==>
      var done := Active(w.entities)[FirstCrossed(Active(w.entities), layoutWidth).value];
      && !w.isActive
      && w.currentIndex == Advance(old(w.currentIndex), |w.texts|)
      && w.pending == old(w.pending)
                      + [Despawn(done.id), Spawn(ScrollingText(old(w.nextId), w.texts[w.currentIndex].content))]
      && w.nextId == old(w.nextId) + 1
      && w.speed == CalcSpeed(CalcTextOffset(w.texts[w.currentIndex].content) * 2.0, w.texts[w.currentIndex].duration)
  {
    var query := Active(w.entities);
    var i := 0;
    while i < |query|
      invariant 0 <= i <= |query|
      invariant forall k :: 0 <= k < i ==> !LeftEdgeCrossed(query[k], layoutWidth(query[k].id))
      invariant w.isActive == old(w.isActive) && w.currentIndex == old(w.currentIndex)
      invariant w.pending == old(w.pending) && w.nextId == old(w.nextId) && w.speed == old(w.speed)
    {
      var e := query[i];
      if LeftEdgeCrossed(e, layoutWidth(e.id)) {
        assert FirstCrossed(query, layoutWidth) == Some(i);
        CompleteText(w, e.id);
        break;
      }
      i := i + 1;
    }
  }

  // ---------------------------------------------------------------------------
  // Systems followed by the sync point that applies their commands

  /** `handle_mouse_click` from an empty buffer, then the sync point: its effect on the entities themselves. */
  method ClickThenSync(w: World, leftJustPressed: bool)
    requires w.Valid() && w.pending == []
    modifies w`isActive, w`currentIndex, w`pending, w`nextId, w`speed, w`entities
    ensures w.Valid() && w.pending == []
    ensures !leftJustPressed ==>
      && w.entities == old(w.entities) && w.isActive == old(w.isActive) && w.currentIndex == old(w.currentIndex)
    ensures leftJustPressed && !old(w.isActive) ==>
      && w.isActive && w.currentIndex == old(w.currentIndex) && w.nextId == old(w.nextId)
      && |w.entities| == |old(w.entities)|
      && (forall k :: 0 <= k < |w.entities| && IsWaiting(old(w.entities)[k]) ==>
            w.entities[k] == WithTag(old(w.entities)[k], ScrollingActive) && IsActive(w.entities[k]))
      && (forall k :: 0 <= k < |w.entities| && !IsWaiting(old(w.entities)[k]) ==> w.entities[k] == old(w.entities)[k])
      && Waiting(w.entities) == []
    ensures leftJustPressed && old(w.isActive) ==>
      && !w.isActive && w.currentIndex == Advance(old(w.currentIndex), |w.texts|)
      && forall e :: e in w.entities <==>
           (e in old(w.entities) && !IsActive(e)) || e == ScrollingText(old(w.nextId), w.texts[w.currentIndex].content)
  {
    ghost var es := w.entities;
    ghost var wasActive := w.isActive;
    ghost var id := w.nextId;
    HandleMouseClick(w, leftJustPressed);
    if leftJustPressed && !wasActive {
      ghost var cs := Inserts(Ids(Waiting(es)), ScrollingActive);
      assert w.pending == cs;
      ClickStartsWaitingTexts(es);
    } else if leftJustPressed {
      ghost var cs := Despawns(Ids(Active(es))) + [Spawn(ScrollingText(id, w.texts[w.currentIndex].content))];
      assert w.pending == cs;
      ClickReplacesActiveTexts(es, ScrollingText(id, w.texts[w.currentIndex].content));
    }
    w.Flush();
  }

  /** `check_text_completion` from an empty buffer, then the sync point: its effect on the entities themselves. */
  method CompletionThenSync(w: World, layoutWidth: nat -> real)
    requires w.Valid() && w.pending == []
    modifies w`isActive, w`currentIndex, w`pending, w`nextId, w`speed, w`entities
    ensures w.Valid() && w.pending == []
    ensures FirstCrossed(Active(old(w.entities)), layoutWidth).None? ==>
      && w.entities == old(w.entities) && w.isActive == old(w.isActive) && w.currentIndex == old(w.currentIndex)
    ensures FirstCrossed(Active(old(w.entities)), layoutWidth).Some? ==>
      var done := Active(old(w.entities))[FirstCrossed(Active(old(w.entities)), layoutWidth).value];
      && !w.isActive && w.currentIndex == Advance(old(w.currentIndex), |w.texts|)
      && forall e :: e in w.entities <==>
           (e in old(w.entities) && e.id != done.id) || e == ScrollingText(old(w.nextId), w.texts[w.currentIndex].content)
  {
    ghost var es := w.entities;
    ghost var id := w.nextId;
    CheckTextCompletion(w, layoutWidth);
    ghost var found := FirstCrossed(Active(es), layoutWidth);
    if found.Some? {
      ghost var done := Active(es)[found.value];
      ghost var next := ScrollingText(id, w.texts[w.currentIndex].content);
      assert w.pending == [Despawn(done.id), Spawn(next)];
      CompletionReplacesText(es, done, next);
    }
    w.Flush();
  }

  /** The text `check_text_completion` picks is an active entity of the world, spawned before now. */
  lemma CrossedTextIsActive(es: seq<Entity>, layoutWidth: nat -> real, nextId: nat)
    requires IdsBelow(es, nextId) && FirstCrossed(Active(es), layoutWidth).Some?
    ensures var done := Active(es)[FirstCrossed(Active(es), layoutWidth).value];
      done in es && IsActive(done) && done.id < nextId
  {
    var done := Active(es)[FirstCrossed(Active(es), layoutWidth).value];
    assert done in Active(es);
    var q :| 0 <= q < |es| && es[q] == done;
  }

  /** `after` holds exactly the entities of `before` that are not scrolling, plus `skipped` and `next`. */
  ghost predicate ActiveReplacedByTwo(before: seq<Entity>, after: seq<Entity>, skipped: Entity, next: Entity) {
    forall e :: e in after <==> (e in before && !IsActive(e)) || e == skipped || e == next
  }

  /**
   * Applying the buffer of a click while scrolling followed by the completion
   * of one of the scrolling texts leaves the texts that were not scrolling plus
   * both queued texts; the completion's despawn finds nothing left to remove.
   */
  lemma ClickThenCompletionBuffer(es: seq<Entity>, cs: seq<EntityCommand>, done: Entity, skipped: Entity, next: Entity)
    requires DistinctIds(es) && done in es && IsActive(done)
    requires skipped.id != done.id
    requires cs == Despawns(Ids(Active(es))) + [Spawn(skipped)] + [Despawn(done.id), Spawn(next)]
    ensures ActiveReplacedByTwo(es, ApplyAll(es, cs), skipped, next)
  {
    var clicked := Despawns(Ids(Active(es))) + [Spawn(skipped)];
    var completed := [Despawn(done.id), Spawn(next)];
    ApplyAllAppend(es, clicked, completed);
    ClickReplacesActiveTexts(es, skipped);
    CompletionReplacesText(ApplyAll(es, clicked), done, next);
    forall e | e in es && e.id == done.id ensures e == done {
      var p :| 0 <= p < |es| && es[p] == e;
      var q :| 0 <= q < |es| && es[q] == done;
      assert p == q;
    }
  }

  /**
   * A click while scrolling and a completion in the same frame. Both Update
   * systems see the entities as they were when the frame started, so both act:
   * the click despawns every scrolling text and queues `skipped`, the completion
   * despawns `done` again and queues `next`, and the cursor advances twice.
   * `ClickThenCompletionBuffer` states what the sync point then leaves.
   */
  method ClickAndCompletionInOneFrame(w: World, layoutWidth: nat -> real, ghost done: Entity, ghost skipped: Entity, ghost next: Entity)
    requires w.Valid() && w.isActive
    requires FirstCrossed(Active(w.entities), layoutWidth).Some?
    requires done == Active(w.entities)[FirstCrossed(Active(w.entities), layoutWidth).value]
    requires skipped == ScrollingText(w.nextId, w.texts[Advance(w.currentIndex, |w.texts|)].content)
    requires next == ScrollingText(w.nextId + 1, w.texts[Advance(Advance(w.currentIndex, |w.texts|), |w.texts|)].content)
    modifies w`isActive, w`currentIndex, w`pending, w`nextId, w`speed
    ensures w.Valid() && !w.isActive
    ensures w.currentIndex == Advance(Advance(old(w.currentIndex), |w.texts|), |w.texts|)
    ensures w.nextId == old(w.nextId) + 2
    ensures w.pending == old(w.pending) + Despawns(Ids(Active(w.entities))) + [Spawn(skipped)] + [Despawn(done.id), Spawn(next)]
  {
    HandleMouseClick(w, true);
    CheckTextCompletion(w, layoutWidth);
  }
}
