/** The LRU caches used across the repository. What a full cache evicts depends on the order of past
    accesses; here every insertion comes with its own choice, so each statement covers all of them. */
module Lru {
  /** How many entries a cache holds, and which keys one insertion pushes out if it is full. */
  datatype Policy<!K> = Policy(capacity: nat, victims: set<K> -> set<K>)

  /** The new entry itself is never the one evicted, and a cache with room evicts nothing. */
  function Add<K, V>(cache: map<K, V>, policy: Policy<K>, key: K, value: V): map<K, V> {
    if key in cache || |cache| < policy.capacity then cache[key := value]
    else (cache - (policy.victims(cache.Keys) - {key}))[key := value]
  }

  /** Every entry after an insertion is the new one or was there before. */
  lemma AddKeeps<K, V>(cache: map<K, V>, policy: Policy<K>, key: K, value: V)
    ensures
      var after := Add(cache, policy, key, value);
      && key in after && after[key] == value
      && (forall k :: k in after && k != key ==> k in cache && after[k] == cache[k])
  {
  }

  /** Insertion into a cache of which nothing more is known than that it holds the new entry and makes
      up none. Within a loop each key is inserted once, so one such function stands for any choices. */
  type Insertion<!K, !V> = (map<K, V>, K, V) -> map<K, V>

  ghost predicate Evicting<K(!new), V(!new)>(insert: Insertion<K, V>) {
    forall cache, k, v :: OneInserted(cache, k, v, insert(cache, k, v))
  }

  ghost predicate OneInserted<K(!new), V(!new)>(cache: map<K, V>, key: K, value: V, after: map<K, V>) {
    key in after && after[key] == value && forall k :: k in after && k != key ==> k in cache && after[k] == cache[k]
  }

  /** The insertion of a bounded cache. */
  function Inserting<K, V>(policy: Policy<K>): Insertion<K, V> {
    (cache, k, v) => Add(cache, policy, k, v)
  }

  /** The bounded caches are of this kind, whatever they evict. */
  lemma AddIsEvicting<K(!new), V(!new)>(policy: Policy<K>)
    ensures Evicting(Inserting<K, V>(policy))
  {
    forall cache: map<K, V>, k, v ensures OneInserted(cache, k, v, Inserting<K, V>(policy)(cache, k, v)) {
      AddKeeps(cache, policy, k, v);
    }
  }
}
