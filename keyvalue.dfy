/**
 * The key-value store's primitives, over the typed maps that stand for one
 * family of keys each. A family of sets is a map from the key's parameters to a
 * set; like the store, it never keeps an empty set (SREM of the last member
 * deletes the key), so an absent key and an empty set read the same. A family
 * of integer counters is a map to int; GET of an absent counter reads as 0
 * wherever the bot writes `or 0`, and INCRBY/DECRBY/HINCRBY start from 0.
 */
module KeyValue {

  /** SMEMBERS */
  function Members<K, V>(m: map<K, set<V>>, k: K): set<V>
  {
    if k in m then m[k] else {}
  }

  /** The store keeps no empty set. */
  ghost predicate NoEmptySets<K, V>(m: map<K, set<V>>)
  {
    forall k :: k in m ==> m[k] != {}
  }

  /** SADD */
  function SAdd<K(!new), V>(m: map<K, set<V>>, k: K, v: V): (r: map<K, set<V>>)
    ensures Members(r, k) == Members(m, k) + {v}
    ensures forall k' :: k' != k ==> Members(r, k') == Members(m, k')
    ensures NoEmptySets(m) ==> NoEmptySets(r)
  {
    m[k := Members(m, k) + {v}]
  }

  /** SREM: removing the last member deletes the key. */
  function SRem<K(!new), V>(m: map<K, set<V>>, k: K, v: V): (r: map<K, set<V>>)
    ensures Members(r, k) == Members(m, k) - {v}
    ensures forall k' :: k' != k ==> Members(r, k') == Members(m, k')
    ensures NoEmptySets(m) ==> NoEmptySets(r)
  {
    var rest := Members(m, k) - {v};
    if rest == {} then m - {k} else m[k := rest]
  }

  /** GET of a counter, absent read as 0 (`int(redis.get(key) or 0)`). */
  function Count<K>(m: map<K, int>, k: K): int
  {
    if k in m then m[k] else 0
  }

  /** INCRBY (DECRBY is INCRBY of the negated amount). */
  function IncrBy<K(!new)>(m: map<K, int>, k: K, d: int): (r: map<K, int>)
    ensures k in r && Count(r, k) == Count(m, k) + d
    ensures forall k' :: k' != k ==> Count(r, k') == Count(m, k') && (k' in r <==> k' in m)
  {
    m[k := Count(m, k) + d]
  }

  /** Two increments of one counter are one increment by their sum. */
  lemma IncrByTwice<K(!new)>(m: map<K, int>, k: K, d1: int, d2: int)
    ensures IncrBy(IncrBy(m, k, d1), k, d2) == m[k := Count(m, k) + d1 + d2]
  {
    var once := IncrBy(m, k, d1);
    assert once[k := Count(once, k) + d2] == m[k := Count(m, k) + d1 + d2];
  }

  /** HGETALL of a hash of counters. */
  function Hash<K, F>(h: map<K, map<F, int>>, k: K): map<F, int>
  {
    if k in h then h[k] else map[]
  }

  /** HINCRBY */
  function HIncrBy<K(!new), F(!new)>(h: map<K, map<F, int>>, k: K, f: F, d: int): (r: map<K, map<F, int>>)
    ensures Count(Hash(r, k), f) == Count(Hash(h, k), f) + d
    ensures forall f' :: f' != f ==> Count(Hash(r, k), f') == Count(Hash(h, k), f')
    ensures forall k' :: k' != k ==> Hash(r, k') == Hash(h, k')
  {
    h[k := IncrBy(Hash(h, k), f, d)]
  }

  /** Adding a member twice is adding it once. */
  lemma SAddIdempotent<K(!new), V>(m: map<K, set<V>>, k: K, v: V)
    ensures SAdd(SAdd(m, k, v), k, v) == SAdd(m, k, v)
  {
    assert Members(SAdd(m, k, v), k) + {v} == Members(SAdd(m, k, v), k);
  }

  /** Adding a member that is already there changes nothing. */
  lemma SAddPresent<K(!new), V>(m: map<K, set<V>>, k: K, v: V)
    requires v in Members(m, k)
    ensures SAdd(m, k, v) == m
  {
    assert Members(m, k) + {v} == m[k];
  }

  /** A set that is not empty has a member to pick. */
  lemma NonEmptyHasMember<T>(s: set<T>) returns (x: T)
    requires s != {}
    ensures x in s
  {
    if forall y :: y !in s {
      assert false;
    }
    x :| x in s;
  }

  /** DECRBY on one counter then INCRBY on another: a transfer of `amount`. */
  function Transfer<K(!new)>(m: map<K, int>, from: K, to: K, amount: int): (r: map<K, int>)
    ensures forall k :: k != from && k != to ==> Count(r, k) == Count(m, k)
  {
    IncrBy(IncrBy(m, from, -amount), to, amount)
  }

  /**
   * A transfer moves `amount` from one counter to the other and conserves
   * their sum; a transfer to oneself changes nothing.
   */
  lemma TransferConserves<K(!new)>(m: map<K, int>, from: K, to: K, amount: int)
    ensures from != to ==> Count(Transfer(m, from, to, amount), from) == Count(m, from) - amount
    ensures from != to ==> Count(Transfer(m, from, to, amount), to) == Count(m, to) + amount
    ensures Count(Transfer(m, from, to, amount), from) + Count(Transfer(m, from, to, amount), to)
         == Count(m, from) + Count(m, to)
  {
    var mid := IncrBy(m, from, -amount);
    if from != to {
      assert Count(mid, to) == Count(m, to);
    }
  }

  /** No counter of the family is negative. */
  ghost predicate NoDebt<K>(m: map<K, int>)
  {
    forall k :: k in m ==> m[k] >= 0
  }

  /** A transfer of a non-negative amount the sender holds keeps every counter non-negative. */
  lemma TransferNoDebt<K(!new)>(m: map<K, int>, from: K, to: K, amount: int)
    requires NoDebt(m) && 0 <= amount <= Count(m, from)
    ensures NoDebt(Transfer(m, from, to, amount))
  {
    var r := Transfer(m, from, to, amount);
    TransferConserves(m, from, to, amount);
    forall k | k in r
      ensures r[k] >= 0
    {
      assert r[k] == Count(r, k);
    }
  }

  /** Adding a new member and removing it again restores the family. */
  lemma SRemUndoesSAdd<K(!new), V>(m: map<K, set<V>>, k: K, v: V)
    requires NoEmptySets(m) && v !in Members(m, k)
    ensures SRem(SAdd(m, k, v), k, v) == m
  {
    var r := SRem(SAdd(m, k, v), k, v);
    assert Members(r, k) == Members(m, k);
    forall k' | k' in r
      ensures k' in m && r[k'] == m[k']
    {
      assert Members(r, k') == Members(m, k');
    }
    forall k' | k' in m
      ensures k' in r
    {
      assert Members(r, k') == Members(m, k');
    }
  }

  /** HINCRBY by d then by -d restores every count of the family. */
  lemma HIncrByUndone<K(!new), F(!new)>(h: map<K, map<F, int>>, k: K, f: F, d: int)
    ensures forall k', f' :: Count(Hash(HIncrBy(HIncrBy(h, k, f, d), k, f, -d), k'), f') == Count(Hash(h, k'), f')
  {
    var once := HIncrBy(h, k, f, d);
    var twice := HIncrBy(once, k, f, -d);
    forall k', f'
      ensures Count(Hash(twice, k'), f') == Count(Hash(h, k'), f')
    {
      if k' == k && f' != f {
        assert Count(Hash(once, k), f') == Count(Hash(h, k), f');
      }
    }
  }

  /** HINCRBY -amount on one hash then HINCRBY +amount on another, same field. */
  function HTransfer<K(!new), F(!new)>(h: map<K, map<F, int>>, from: K, to: K, f: F, amount: int): (r: map<K, map<F, int>>)
    ensures forall k :: k != from && k != to ==> Hash(r, k) == Hash(h, k)
    ensures forall k, f' :: f' != f ==> Count(Hash(r, k), f') == Count(Hash(h, k), f')
  {
    HIncrBy(HIncrBy(h, from, f, -amount), to, f, amount)
  }

  /** A hash transfer moves `amount` of the field and conserves the pair's total. */
  lemma HTransferConserves<K(!new), F(!new)>(h: map<K, map<F, int>>, from: K, to: K, f: F, amount: int)
    ensures from != to ==> Count(Hash(HTransfer(h, from, to, f, amount), from), f) == Count(Hash(h, from), f) - amount
    ensures from != to ==> Count(Hash(HTransfer(h, from, to, f, amount), to), f) == Count(Hash(h, to), f) + amount
    ensures Count(Hash(HTransfer(h, from, to, f, amount), from), f) + Count(Hash(HTransfer(h, from, to, f, amount), to), f)
         == Count(Hash(h, from), f) + Count(Hash(h, to), f)
  {
    var mid := HIncrBy(h, from, f, -amount);
    if from != to {
      assert Hash(mid, to) == Hash(h, to);
    }
  }
}
