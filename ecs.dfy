/**
 * The entity world the display runs on: text entities with their marker
 * components, and the deferred command buffer through which systems spawn,
 * despawn and tag entities. Commands pushed by a system become visible only
 * when the buffer is applied, so every query inside a system still sees the
 * world as it was when the system started.
 */
module Ecs {

  /** Marker components a displayed text can carry. */
  datatype Tag = TextScroll | ScrollingActive | Showing

  /** One displayed text: entity id, the string it renders, its marker components, its x translation. */
  datatype Entity = Entity(id: nat, text: string, tags: set<Tag>, x: real)

  /** A structural change queued in the command buffer. */
  datatype EntityCommand =
    | Spawn(entity: Entity)
    | Despawn(target: nat)
    | Insert(target: nat, tag: Tag)

  /** Query filter `With<TextScroll>, Without<ScrollingActive>`. */
  predicate IsWaiting(e: Entity) {
    TextScroll in e.tags && ScrollingActive !in e.tags
  }

  /** Query filter `With<TextScroll>, With<ScrollingActive>`. */
  predicate IsActive(e: Entity) {
    TextScroll in e.tags && ScrollingActive in e.tags
  }

  /** Query filter `With<Showing>`. */
  predicate IsShowing(e: Entity) {
    Showing in e.tags
  }

  /**
   * The entities a query with filter `p` visits. Query order is modelled as
   * spawn order (the order of the entity list); Bevy orders a query by
   * archetype table and promises no particular order.
   */
  function Select(es: seq<Entity>, p: Entity -> bool): (r: seq<Entity>)
    ensures |r| <= |es|
    ensures forall e :: e in r <==> e in es && p(e)
    ensures (forall k :: 0 <= k < |es| ==> !p(es[k])) ==> r == []
  {
    if es == [] then []
    else
      assert es == [es[0]] + es[1..];
      (if p(es[0]) then [es[0]] else []) + Select(es[1..], p)
  }

  function Waiting(es: seq<Entity>): seq<Entity> {
    Select(es, IsWaiting)
  }

  function Active(es: seq<Entity>): seq<Entity> {
    Select(es, IsActive)
  }

  function ShowingTexts(es: seq<Entity>): seq<Entity> {
    Select(es, IsShowing)
  }

  function Ids(es: seq<Entity>): seq<nat> {
    seq(|es|, k requires 0 <= k < |es| => es[k].id)
  }

  function Despawns(ids: seq<nat>): seq<EntityCommand> {
    seq(|ids|, k requires 0 <= k < |ids| => Despawn(ids[k]))
  }

  function Inserts(ids: seq<nat>, tag: Tag): seq<EntityCommand> {
    seq(|ids|, k requires 0 <= k < |ids| => Insert(ids[k], tag))
  }

  function WithTag(e: Entity, tag: Tag): Entity {
    e.(tags := e.tags + {tag})
  }

  /** Applies one queued command; a command aimed at an entity that is gone changes nothing. */
  function Apply(es: seq<Entity>, c: EntityCommand): seq<Entity> {
    match c
    case Spawn(e) => es + [e]
    case Despawn(id) => Select(es, (e: Entity) => e.id != id)
    case Insert(id, tag) =>
      seq(|es|, k requires 0 <= k < |es| => if es[k].id == id then WithTag(es[k], tag) else es[k])
  }

  /** Applies a whole command buffer, first command first. */
  function ApplyAll(es: seq<Entity>, cs: seq<EntityCommand>): seq<Entity>
    decreases |cs|
  {
    if cs == [] then es else ApplyAll(Apply(es, cs[0]), cs[1..])
  }

  predicate IdsBelow(es: seq<Entity>, bound: nat) {
    forall k :: 0 <= k < |es| ==> es[k].id < bound
  }

  predicate SpawnsBelow(cs: seq<EntityCommand>, bound: nat) {
    forall k :: 0 <= k < |cs| && cs[k].Spawn? ==> cs[k].entity.id < bound
  }

  predicate DistinctIds(es: seq<Entity>) {
    forall i, j :: 0 <= i < j < |es| ==> es[i].id != es[j].id
  }

  /** No spawn in the buffer reuses the id of an existing entity or of another spawn. */
  predicate FreshSpawns(es: seq<Entity>, cs: seq<EntityCommand>) {
    && (forall k :: 0 <= k < |cs| && cs[k].Spawn? ==> cs[k].entity.id !in Ids(es))
    && (forall k, l :: 0 <= k < l < |cs| && cs[k].Spawn? && cs[l].Spawn? ==> cs[k].entity.id != cs[l].entity.id)
  }

  /**
   * The id discipline of the world: ids are handed out from `nextId` upwards,
   * so every entity and every buffered spawn has an id below it, no two
   * entities share an id, and no buffered spawn reuses one.
   */
  predicate WellFormed(es: seq<Entity>, cs: seq<EntityCommand>, nextId: nat) {
    IdsBelow(es, nextId) && SpawnsBelow(cs, nextId) && DistinctIds(es) && FreshSpawns(es, cs)
  }

  /** Applying two buffers one after the other is applying their concatenation. */
  lemma {:induction false} ApplyAllAppend(es: seq<Entity>, a: seq<EntityCommand>, b: seq<EntityCommand>)
    ensures ApplyAll(es, a + b) == ApplyAll(ApplyAll(es, a), b)
    decreases |a|
  {
    if a == [] {
      assert a + b == b;
    } else {
      assert (a + b)[0] == a[0];
      assert (a + b)[1..] == a[1..] + b;
      ApplyAllAppend(Apply(es, a[0]), a[1..], b);
    }
  }

  /** A run of despawns removes exactly the entities whose id it names. */
  lemma {:induction false} ApplyDespawns(es: seq<Entity>, ids: seq<nat>)
    ensures forall e :: e in ApplyAll(es, Despawns(ids)) <==> e in es && e.id !in ids
    decreases |ids|
  {
    if ids != [] {
      assert Despawns(ids)[0] == Despawn(ids[0]);
      assert Despawns(ids)[1..] == Despawns(ids[1..]);
      ApplyDespawns(Apply(es, Despawn(ids[0])), ids[1..]);
      assert forall i :: i in ids <==> i == ids[0] || i in ids[1..];
    }
  }

  /** A run of inserts tags exactly the entities whose id it names, in place. */
  lemma {:induction false} ApplyInserts(es: seq<Entity>, ids: seq<nat>, tag: Tag)
    ensures |ApplyAll(es, Inserts(ids, tag))| == |es|
    ensures forall k :: 0 <= k < |es| ==>
      ApplyAll(es, Inserts(ids, tag))[k] == if es[k].id in ids then WithTag(es[k], tag) else es[k]
    decreases |ids|
  {
    if ids != [] {
      var es' := Apply(es, Insert(ids[0], tag));
      assert Inserts(ids, tag)[0] == Insert(ids[0], tag);
      assert Inserts(ids, tag)[1..] == Inserts(ids[1..], tag);
      ApplyInserts(es', ids[1..], tag);
      forall k | 0 <= k < |es|
        ensures ApplyAll(es, Inserts(ids, tag))[k] == if es[k].id in ids then WithTag(es[k], tag) else es[k]
      {
        assert es[k].id in ids <==> es[k].id == ids[0] || es[k].id in ids[1..];
        assert WithTag(WithTag(es[k], tag), tag) == WithTag(es[k], tag);
      }
    }
  }

  /** Applying a buffer whose spawns use ids below a bound keeps every id below it. */
  lemma {:induction false} ApplyKeepsIdsBelow(es: seq<Entity>, cs: seq<EntityCommand>, bound: nat)
    requires IdsBelow(es, bound) && SpawnsBelow(cs, bound)
    ensures IdsBelow(ApplyAll(es, cs), bound)
    decreases |cs|
  {
    if cs != [] {
      var es' := Apply(es, cs[0]);
      assert cs[0].Spawn? ==> cs[0].entity.id < bound;
      forall k | 0 <= k < |es'| ensures es'[k].id < bound {
        assert es'[k] in es' ;
        if cs[0].Despawn? {
          assert es'[k] in es;
        } else if cs[0].Spawn? {
          assert k < |es| ==> es'[k] == es[k];
        }
      }
      assert SpawnsBelow(cs[1..], bound) by {
        forall k | 0 <= k < |cs[1..]| && cs[1..][k].Spawn? ensures cs[1..][k].entity.id < bound {
          assert cs[1..][k] == cs[k + 1];
        }
      }
      ApplyKeepsIdsBelow(es', cs[1..], bound);
    }
  }

  /** A filter keeps ids distinct. */
  lemma {:induction false} SelectKeepsDistinct(es: seq<Entity>, p: Entity -> bool)
    requires DistinctIds(es)
    ensures DistinctIds(Select(es, p))
    decreases |es|
  {
    if es != [] {
      var tail := es[1..];
      assert DistinctIds(tail) by {
        forall i, j | 0 <= i < j < |tail| ensures tail[i].id != tail[j].id {
          assert tail[i] == es[i + 1] && tail[j] == es[j + 1];
        }
      }
      SelectKeepsDistinct(tail, p);
      var rest := Select(tail, p);
      if p(es[0]) {
        var r := [es[0]] + rest;
        assert Select(es, p) == r;
        forall j | 0 < j < |r| ensures r[0].id != r[j].id {
          assert rest[j - 1] in tail;
          var m :| 0 <= m < |tail| && tail[m] == rest[j - 1];
          assert es[m + 1] == r[j];
        }
      } else {
        assert Select(es, p) == rest;
      }
    }
  }

  /** Every id present after one command was present before, or is the id the command spawns. */
  lemma ApplyIds(es: seq<Entity>, c: EntityCommand)
    ensures forall i :: i in Ids(Apply(es, c)) ==> i in Ids(es) || (c.Spawn? && i == c.entity.id)
  {
    var r := Apply(es, c);
    forall i | i in Ids(r) ensures i in Ids(es) || (c.Spawn? && i == c.entity.id) {
      var j :| 0 <= j < |Ids(r)| && Ids(r)[j] == i;
      match c
      case Spawn(e) =>
        if j < |es| {
          assert Ids(es)[j] == i;
        }
      case Despawn(_) =>
        assert r[j] in r;
        var m :| 0 <= m < |es| && es[m] == r[j];
        assert Ids(es)[m] == i;
      case Insert(_, _) =>
        assert Ids(es)[j] == i;
    }
  }

  /** Applying one command keeps ids distinct when its spawn, if any, is fresh. */
  lemma ApplyKeepsDistinct(es: seq<Entity>, c: EntityCommand)
    requires DistinctIds(es)
    requires c.Spawn? ==> c.entity.id !in Ids(es)
    ensures DistinctIds(Apply(es, c))
  {
    match c
    case Spawn(e) =>
      var r := es + [e];
      forall i, j | 0 <= i < j < |r| ensures r[i].id != r[j].id {
        if j == |es| {
          assert Ids(es)[i] == r[i].id;
        }
      }
    case Despawn(id) =>
      SelectKeepsDistinct(es, (e: Entity) => e.id != id);
    case Insert(_, _) =>
  }

  /** Buffering a spawn with the next id keeps the id discipline and moves the allocator on. */
  lemma WellFormedSpawn(es: seq<Entity>, cs: seq<EntityCommand>, e: Entity, nextId: nat)
    requires WellFormed(es, cs, nextId) && e.id == nextId
    ensures WellFormed(es, cs + [Spawn(e)], nextId + 1)
  {
    var cs' := cs + [Spawn(e)];
    assert forall j :: 0 <= j < |Ids(es)| ==> Ids(es)[j] < nextId;
    forall k, l | 0 <= k < l < |cs'| && cs'[k].Spawn? && cs'[l].Spawn?
      ensures cs'[k].entity.id != cs'[l].entity.id
    {
      if l == |cs| {
        assert cs'[k] == cs[k];
      }
    }
  }

  /** Buffering a despawn or an insert keeps the id discipline. */
  lemma WellFormedQueue(es: seq<Entity>, cs: seq<EntityCommand>, c: EntityCommand, nextId: nat)
    requires WellFormed(es, cs, nextId) && !c.Spawn?
    ensures WellFormed(es, cs + [c], nextId)
  {
    var cs' := cs + [c];
    assert forall k :: 0 <= k < |cs| ==> cs'[k] == cs[k];
  }

  /** Applying the whole buffer keeps the id discipline and leaves nothing buffered. */
  lemma {:induction false} WellFormedFlush(es: seq<Entity>, cs: seq<EntityCommand>, nextId: nat)
    requires WellFormed(es, cs, nextId)
    ensures WellFormed(ApplyAll(es, cs), [], nextId)
    decreases |cs|
  {
    ApplyKeepsIdsBelow(es, cs, nextId);
    if cs != [] {
      var es' := Apply(es, cs[0]);
      var rest := cs[1..];
      ApplyKeepsDistinct(es, cs[0]);
      ApplyKeepsIdsBelow(es, [cs[0]], nextId);
      assert ApplyAll(es, [cs[0]]) == es';
      ApplyIds(es, cs[0]);
      assert SpawnsBelow(rest, nextId) by {
        forall k | 0 <= k < |rest| && rest[k].Spawn? ensures rest[k].entity.id < nextId {
          assert rest[k] == cs[k + 1];
        }
      }
      assert FreshSpawns(es', rest) by {
        forall k | 0 <= k < |rest| && rest[k].Spawn? ensures rest[k].entity.id !in Ids(es') {
          assert rest[k] == cs[k + 1];
          if cs[0].Spawn? {
            assert cs[0].entity.id != cs[k + 1].entity.id;
          }
        }
        forall k, l | 0 <= k < l < |rest| && rest[k].Spawn? && rest[l].Spawn?
          ensures rest[k].entity.id != rest[l].entity.id
        {
          assert rest[k] == cs[k + 1] && rest[l] == cs[l + 1];
        }
      }
      WellFormedFlush(es', rest, nextId);
    }
  }
}
