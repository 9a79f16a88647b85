/**
 * The spawn helpers of the networked revision. Both only queue a spawn in the
 * command buffer; `SpawnText` also overwrites the scrolling speed. The text
 * geometry of this revision (`calc_text_offset`, `calc_speed` of the `text`
 * module) is not part of this model and is taken as a pair of functions.
 */
module TextSpawner {
  import opened Ecs
  import opened Board

  /** The display configuration read at startup. */
  datatype Config = Config(textSize: real, windowWidth: real, cameraOffset: real)

  /** The text geometry: `textOffset(text, textSize, windowWidth)` and `speed(width, duration, windowWidth)`. */
  datatype TextMetrics = TextMetrics(
    textOffset: (string, real, real) -> real,
    speed: (real, Duration, real) -> real)

  function SpawnOffset(text: string, config: Config, metrics: TextMetrics): real {
    metrics.textOffset(text, config.textSize, config.windowWidth)
  }

  /** The text `spawn_text` queues: scrolling and showing, waiting, at its offset. */
  function ShowingText(id: nat, text: string, config: Config, metrics: TextMetrics): (e: Entity)
    ensures IsWaiting(e) && IsShowing(e) && e.tags == {TextScroll, Showing}
    ensures e.id == id && e.text == text && e.x == SpawnOffset(text, config, metrics)
  {
    Entity(id, text, {TextScroll, Showing}, SpawnOffset(text, config, metrics))
  }

  /** The text `spawn_static_text` queues: showing, never scrolling, at the origin. */
  function StaticText(id: nat, text: string): (e: Entity)
    ensures IsShowing(e) && !IsWaiting(e) && !IsActive(e) && e.tags == {Showing}
    ensures e.id == id && e.text == text && e.x == 0.0
  {
    Entity(id, text, {Showing}, 0.0)
  }

  /** The speed `spawn_text` stores: computed from twice the spawn offset and the text's own duration. */
  function SpawnSpeed(text: string, duration: Duration, config: Config, metrics: TextMetrics): real {
    metrics.speed(SpawnOffset(text, config, metrics) * 2.0, duration, config.windowWidth)
  }

  /** Queues one waiting, showing scroll text and replaces the previous speed by this text's. */
  method SpawnText(w: World, text: string, duration: Duration, config: Config, metrics: TextMetrics)
    requires w.Consistent()
    modifies w`pending, w`nextId, w`speed
    ensures w.Consistent()
    ensures w.pending == old(w.pending) + [Spawn(ShowingText(old(w.nextId), text, config, metrics))]
    ensures w.nextId == old(w.nextId) + 1
    ensures w.speed == SpawnSpeed(text, duration, config, metrics)
  {
    var textOffset := metrics.textOffset(text, config.textSize, config.windowWidth);
    WellFormedSpawn(w.entities, w.pending, Entity(w.nextId, text, {TextScroll, Showing}, textOffset), w.nextId);
    w.pending := w.pending + [Spawn(Entity(w.nextId, text, {TextScroll, Showing}, textOffset))];
    w.nextId := w.nextId + 1;
    w.speed := metrics.speed(textOffset * 2.0, duration, config.windowWidth);
  }

  /** Queues one showing, non-scrolling text at the origin; the speed is left alone. */
  method SpawnStaticText(w: World, text: string)
    requires w.Consistent()
    modifies w`pending, w`nextId
    ensures w.Consistent()
    ensures w.pending == old(w.pending) + [Spawn(StaticText(old(w.nextId), text))]
    ensures w.nextId == old(w.nextId) + 1
  {
    WellFormedSpawn(w.entities, w.pending, Entity(w.nextId, text, {Showing}, 0.0), w.nextId);
    w.pending := w.pending + [Spawn(Entity(w.nextId, text, {Showing}, 0.0))];
    w.nextId := w.nextId + 1;
  }
}
