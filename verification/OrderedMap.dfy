/** Maps that keep the order in which keys were first set, as the source language's `Map` does. */
module OrderedMap {
  import opened Options

  datatype Entry<K, V> = Entry(key: K, value: V)

  function Get<K(==), V>(es: seq<Entry<K, V>>, key: K): Option<V> {
    if es == [] then None else if es[0].key == key then Some(es[0].value) else Get(es[1..], key)
  }

  /** A key that is there keeps its place. */
  function Put<K(==), V>(es: seq<Entry<K, V>>, key: K, value: V): seq<Entry<K, V>> {
    if es == [] then [Entry(key, value)]
    else if es[0].key == key then [Entry(key, value)] + es[1..]
    else [es[0]] + Put(es[1..], key, value)
  }

  function Delete<K(==), V>(es: seq<Entry<K, V>>, key: K): seq<Entry<K, V>> {
    if es == [] then [] else if es[0].key == key then es[1..] else [es[0]] + Delete(es[1..], key)
  }

  /** The entries whose value passes a test. */
  function Filter<K, V>(es: seq<Entry<K, V>>, keep: V -> bool): seq<Entry<K, V>> {
    if es == [] then [] else if keep(es[0].value) then [es[0]] + Filter(es[1..], keep) else Filter(es[1..], keep)
  }

  /** No key stands twice. */
  predicate Distinct<K(==), V>(es: seq<Entry<K, V>>) {
    es == [] || (Get(es[1..], es[0].key).None? && Distinct(es[1..]))
  }

  lemma {:induction false} PutSets<K, V>(es: seq<Entry<K, V>>, key: K, value: V, asked: K)
    requires Distinct(es)
    ensures Distinct(Put(es, key, value))
    ensures Get(Put(es, key, value), asked) == if asked == key then Some(value) else Get(es, asked)
    ensures |Put(es, key, value)| == if Get(es, key).Some? then |es| else |es| + 1
  {
    if es != [] && es[0].key != key {
      PutSets(es[1..], key, value, asked);
      PutSets(es[1..], key, value, es[0].key);
    }
  }

  lemma {:induction false} DeleteSets<K, V>(es: seq<Entry<K, V>>, key: K, asked: K)
    requires Distinct(es)
    ensures Distinct(Delete(es, key))
    ensures Get(Delete(es, key), asked) == if asked == key then None else Get(es, asked)
    ensures |Delete(es, key)| == if Get(es, key).Some? then |es| - 1 else |es|
    ensures Get(es, key).None? ==> Delete(es, key) == es
  {
    if es != [] && es[0].key != key {
      DeleteSets(es[1..], key, asked);
      DeleteSets(es[1..], key, es[0].key);
    }
  }

  lemma {:induction false} FilterGets<K, V>(es: seq<Entry<K, V>>, keep: V -> bool, asked: K)
    requires Distinct(es)
    ensures Get(Filter(es, keep), asked) ==
            if Get(es, asked).Some? && keep(Get(es, asked).value) then Get(es, asked) else None
  {
    if es != [] { FilterGets(es[1..], keep, asked); }
  }

  lemma {:induction false} FilterSets<K, V>(es: seq<Entry<K, V>>, keep: V -> bool)
    requires Distinct(es)
    ensures Distinct(Filter(es, keep))
    ensures |Filter(es, keep)| < |es| || Filter(es, keep) == es
  {
    if es != [] {
      FilterSets(es[1..], keep);
      FilterGets(es[1..], keep, es[0].key);
    }
  }

  /** The keys in their order. */
  function Keys<K, V>(es: seq<Entry<K, V>>): seq<K> { seq(|es|, i requires 0 <= i < |es| => es[i].key) }

  lemma KeysOf<K, V>(e: Entry<K, V>, es: seq<Entry<K, V>>)
    ensures Keys([e] + es) == [e.key] + Keys(es)
  {}

  lemma {:induction false} PutKeepsOrder<K, V>(es: seq<Entry<K, V>>, key: K, value: V)
    ensures Keys(Put(es, key, value)) == Keys(es) + if Get(es, key).Some? then [] else [key]
  {
    if es == [] {
      assert Keys([Entry(key, value)]) == [key];
    } else {
      assert es == [es[0]] + es[1..];
      KeysOf(es[0], es[1..]);
      if es[0].key == key {
        KeysOf(Entry(key, value), es[1..]);
      } else {
        PutKeepsOrder(es[1..], key, value);
        KeysOf(es[0], Put(es[1..], key, value));
      }
    }
  }

  /** `after` is `before` without one occurrence of `key`. */
  ghost predicate Without<K>(before: seq<K>, after: seq<K>, key: K) {
    exists i :: 0 <= i < |before| && before[i] == key && after == before[..i] + before[i + 1..]
  }

  lemma {:induction false} DeleteKeepsOrder<K, V>(es: seq<Entry<K, V>>, key: K)
    requires Get(es, key).Some?
    ensures Without(Keys(es), Keys(Delete(es, key)), key)
  {
    var keys, after := Keys(es), Keys(Delete(es, key));
    if es[0].key == key {
      assert keys[0] == key && after == keys[..0] + keys[1..];
    } else {
      DeleteKeepsOrder(es[1..], key);
      var i :| 0 <= i < |Keys(es[1..])| && Keys(es[1..])[i] == key &&
        Keys(Delete(es[1..], key)) == Keys(es[1..])[..i] + Keys(es[1..])[i + 1..];
      assert keys == [es[0].key] + Keys(es[1..]);
      assert after == [es[0].key] + Keys(Delete(es[1..], key));
      assert keys[i + 1] == key && after == keys[..i + 1] + keys[i + 2..];
    }
  }

  /** What passes a test stays in order. */
  lemma {:induction false} FilterKeepsOrder<K, V>(es: seq<Entry<K, V>>, keep: V -> bool, i: nat, j: nat)
    returns (k: nat, l: nat)
    requires i < j < |Filter(es, keep)|
    ensures k < l < |es| && es[k] == Filter(es, keep)[i] && es[l] == Filter(es, keep)[j]
  {
    if !keep(es[0].value) {
      k, l := FilterKeepsOrder(es[1..], keep, i, j);
      k, l := k + 1, l + 1;
    } else if i > 0 {
      k, l := FilterKeepsOrder(es[1..], keep, i - 1, j - 1);
      k, l := k + 1, l + 1;
    } else {
      l := FilterPicks(es[1..], keep, j - 1);
      k, l := 0, l + 1;
    }
  }

  lemma {:induction false} FilterPicks<K, V>(es: seq<Entry<K, V>>, keep: V -> bool, j: nat) returns (l: nat)
    requires j < |Filter(es, keep)|
    ensures l < |es| && es[l] == Filter(es, keep)[j]
  {
    if keep(es[0].value) && j == 0 {
      l := 0;
    } else {
      l := FilterPicks(es[1..], keep, if keep(es[0].value) then j - 1 else j);
      l := l + 1;
    }
  }
}
