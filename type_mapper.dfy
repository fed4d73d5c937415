/**
 * The dispatcher of `example/type_mapper.hpp`: an ordered table of (type, runtime key)
 * pairs and a first-match lookup of a runtime value in it.
 *
 * The C++ returns a `std::variant` of `std::type_identity` alternatives, one per mapping in
 * declaration order (preceded by `std::monostate` for `map`). The model returns the position
 * of the selected mapping, so the type a value selects is the `tag` at that position.
 */
module TypeMapper {
  import opened Wrappers

  /** `type_mapping<T, V>`: the runtime key `mapper` stands for the type `T`, here `tag`. */
  datatype TypeMapping<K, T> = TypeMapping(tag: T, mapper: K)

  /** `type_mapper`: the mappings in declaration order. Only the constructor sets them. */
  datatype Mapper<K, T> = Mapper(mappings: seq<TypeMapping<K, T>>)

  /** The message of the `runtime_error` that `static_map` throws. */
  const NoMappingFound: string := "No mapping found for the given value."

  /** Some mapping of `ms` has the key `value`. */
  predicate HasKey<K(==), T>(ms: seq<TypeMapping<K, T>>, value: K)
  {
    exists i | 0 <= i < |ms| :: ms[i].mapper == value
  }

  /** Position `i` holds the first mapping of `ms` whose key is `value`. */
  predicate IsFirstMatch<K(==), T>(ms: seq<TypeMapping<K, T>>, value: K, i: nat)
  {
    && i < |ms|
    && ms[i].mapper == value
    && forall j | 0 <= j < i :: ms[j].mapper != value
  }

  /** `skip_front`: the tuple without its first element; the rest keeps its order. */
  function SkipFront<K, T>(ms: seq<TypeMapping<K, T>>): (r: seq<TypeMapping<K, T>>)
    requires |ms| >= 1
    ensures [ms[0]] + r == ms
  {
    ms[1..]
  }

  /**
   * The private recursive `map`: compares with the first mapping, then looks in the rest and
   * shifts what it finds one alternative to the right. `None` is `std::monostate`.
   * The template needs at least one mapping.
   */
  function MapIn<K(==), T>(value: K, ms: seq<TypeMapping<K, T>>): (r: Option<nat>)
    requires |ms| >= 1
    ensures r.Some? ==> IsFirstMatch(ms, value, r.value)
    ensures r.None? <==> !HasKey(ms, value)
    decreases |ms|
  {
    if value == ms[0].mapper then Some(0)
    else if |ms| == 1 then None
    else
      var rest := SkipFront(ms);
      match MapIn(value, rest)
      case None =>
        assert forall i | 1 <= i < |ms| :: ms[i] == rest[i - 1];
        None
      case Some(i) =>
        assert forall j | 1 <= j <= i :: ms[j] == rest[j - 1];
        Some(i + 1)
  }

  /**
   * The private recursive `static_map`: as `MapIn`, but with no `std::monostate`; when the
   * last mapping does not match either, it throws.
   */
  function StaticMapIn<K(==), T>(value: K, ms: seq<TypeMapping<K, T>>): (r: Result<nat>)
    requires |ms| >= 1
    ensures r.Success? ==> MapIn(value, ms) == Some(r.value)
    ensures r.Failure? ==> MapIn(value, ms).None? && r.error == NoMappingFound
    decreases |ms|
  {
    if value == ms[0].mapper then Success(0)
    else if |ms| == 1 then Failure(NoMappingFound)
    else
      var i :- StaticMapIn(value, SkipFront(ms));
      Success(i + 1)
  }

  /** The public `map`, over all the mappings. */
  function Map<K(==), T>(m: Mapper<K, T>, value: K): (r: Option<nat>)
    requires |m.mappings| >= 1
    ensures r.Some? <==> HasKey(m.mappings, value)
    ensures r.Some? ==> IsFirstMatch(m.mappings, value, r.value)
  {
    MapIn(value, m.mappings)
  }

  /** The public `static_map`, over all the mappings. */
  function StaticMap<K(==), T>(m: Mapper<K, T>, value: K): (r: Result<nat>)
    requires |m.mappings| >= 1
    ensures r.Success? <==> HasKey(m.mappings, value)
    ensures r.Success? ==> Map(m, value) == Some(r.value)
    ensures r.Failure? ==> r.error == NoMappingFound
  {
    StaticMapIn(value, m.mappings)
  }

  /** An earlier mapping with an equal key shadows every later one. */
  lemma EarlierKeyShadows<K, T>(m: Mapper<K, T>, i: nat, j: nat)
    requires i < j < |m.mappings|
    requires m.mappings[i].mapper == m.mappings[j].mapper
    ensures Map(m, m.mappings[j].mapper) != Some(j)
  {
  }

  /** The keys of `ms` are pairwise distinct. */
  predicate DistinctKeys<K(==), T>(ms: seq<TypeMapping<K, T>>)
  {
    forall i, j | 0 <= i < j < |ms| :: ms[i].mapper != ms[j].mapper
  }

  /** With pairwise distinct keys, first match and any match agree: `map` finds every key where it is. */
  lemma DistinctKeysMapExactly<K, T>(m: Mapper<K, T>, value: K, i: nat)
    requires DistinctKeys(m.mappings)
    requires i < |m.mappings|
    ensures Map(m, value) == Some(i) <==> m.mappings[i].mapper == value
  {
  }
}
