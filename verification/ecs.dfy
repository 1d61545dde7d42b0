/** The small part of the entity store that the job code relies on. */
module Ecs {
  import Wrappers

  /** An entity handle: a slot index plus the generation of that slot. */
  datatype Entity = Entity(index: nat, generation: nat)

  /** No element occurs twice. Query iteration never yields an entity twice. */
  predicate Distinct<T(==)>(xs: seq<T>)
  {
    forall i, j :: 0 <= i < j < |xs| ==> xs[i] != xs[j]
  }

  /** `order` is an iteration order of a query whose matching entities are `matching`:
      every matching entity is visited exactly once, and nothing else is visited. */
  predicate Visits(order: seq<Entity>, matching: set<Entity>)
  {
    && Distinct(order)
    && (forall i :: 0 <= i < |order| ==> order[i] in matching)
    && (forall e :: e in matching ==> e in order)
  }

  /** The entry of `e` is the same in `m` and `m'`: present in both with the same value,
      or absent from both. */
  ghost predicate Unchanged<V>(m: map<Entity, V>, m': map<Entity, V>, e: Entity)
  {
    (e in m <==> e in m') && (e in m ==> m[e] == m'[e])
  }

  /** Component lookup as an optional query item. */
  function Lookup<V>(m: map<Entity, V>, e: Entity): (r: Wrappers.Option<V>)
    ensures r.Some? <==> e in m
    ensures r.Some? ==> r.value == m[e]
  {
    if e in m then Wrappers.Some(m[e]) else Wrappers.None
  }

  /** Dropping the first element keeps a sequence distinct, and that element does not
      occur in the rest. */
  lemma DistinctTail<T>(xs: seq<T>)
    requires |xs| > 0 && Distinct(xs)
    ensures Distinct(xs[1..]) && xs[0] !in xs[1..]
  {
    var rest := xs[1..];
    forall a, b | 0 <= a < b < |rest|
      ensures rest[a] != rest[b]
    {
      assert rest[a] == xs[a + 1] && rest[b] == xs[b + 1];
    }
    forall j | 0 <= j < |rest|
      ensures rest[j] != xs[0]
    {
      assert rest[j] == xs[j + 1];
    }
  }
}
