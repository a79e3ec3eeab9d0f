/** Grouping a list by a key, in order of first appearance. */
module Grouping {

  /** The items of one key, in order. */
  function Members<T, K(==)>(items: seq<T>, key: T -> K, k: K): (members: seq<T>)
    ensures forall i :: 0 <= i < |members| ==> key(members[i]) == k
  {
    if items == [] then []
    else
      var last := items[|items| - 1];
      Members(items[..|items| - 1], key, k) + if key(last) == k then [last] else []
  }

  predicate Distinct<K(==)>(keys: seq<K>) {
    forall i, j :: 0 <= i < j < |keys| ==> keys[i] != keys[j]
  }

  /** The keys in order of first appearance. */
  function FirstKeys<T, K(==)>(items: seq<T>, key: T -> K): seq<K> {
    if items == [] then []
    else
      var before, k := FirstKeys(items[..|items| - 1], key), key(items[|items| - 1]);
      if k in before then before else before + [k]
  }

  lemma NoMembers<T, K>(key: T -> K, k: K)
    ensures Members([], key, k) == []
  {
  }

  lemma MembersGrow<T, K>(items: seq<T>, item: T, key: T -> K, k: K)
    ensures Members(items + [item], key, k) == Members(items, key, k) + if key(item) == k then [item] else []
  {
  }

  lemma FirstKeysGrow<T, K>(items: seq<T>, item: T, key: T -> K)
    ensures var before := FirstKeys(items, key);
            FirstKeys(items + [item], key) == if key(item) in before then before else before + [key(item)]
  {
  }

  lemma {:induction false} FirstKeysAreDistinct<T, K>(items: seq<T>, key: T -> K)
    ensures Distinct(FirstKeys(items, key))
  {
    if items != [] { FirstKeysAreDistinct(items[..|items| - 1], key); }
  }

  /** A key appears exactly if it has members. */
  lemma {:induction false} AppearsIffMembers<T, K>(items: seq<T>, key: T -> K, k: K)
    ensures k in FirstKeys(items, key) <==> Members(items, key, k) != []
  {
    if items != [] { AppearsIffMembers(items[..|items| - 1], key, k); }
  }

  lemma {:induction false} EveryKeyAppears<T, K>(items: seq<T>, key: T -> K)
    ensures forall i :: 0 <= i < |items| ==> key(items[i]) in FirstKeys(items, key)
  {
    if items != [] {
      var n := |items| - 1;
      EveryKeyAppears(items[..n], key);
      forall i | 0 <= i < n ensures key(items[i]) in FirstKeys(items, key) {
        assert items[..n][i] == items[i];
      }
    }
  }

  lemma {:induction false} MembersOccur<T, K>(items: seq<T>, key: T -> K, k: K)
    ensures forall i :: 0 <= i < |Members(items, key, k)| ==> Members(items, key, k)[i] in items
    ensures forall i :: 0 <= i < |items| && key(items[i]) == k ==> items[i] in Members(items, key, k)
  {
    if items != [] {
      MembersOccur(items[..|items| - 1], key, k);
      assert items == items[..|items| - 1] + [items[|items| - 1]];
    }
  }

  /** All members of some keys. */
  function Listed<T, K(==)>(items: seq<T>, key: T -> K, keys: seq<K>): seq<T> {
    if keys == [] then [] else Listed(items, key, keys[..|keys| - 1]) + Members(items, key, keys[|keys| - 1])
  }

  lemma {:induction false} ListedGrows<T, K>(items: seq<T>, item: T, key: T -> K, keys: seq<K>)
    requires Distinct(keys)
    ensures multiset(Listed(items + [item], key, keys))
            == multiset(Listed(items, key, keys)) + if key(item) in keys then multiset{item} else multiset{}
  {
    hide Members;
    if keys != [] {
      var n := |keys| - 1;
      ListedGrows(items, item, key, keys[..n]);
      MembersGrow(items, item, key, keys[n]);
      assert keys == keys[..n] + [keys[n]];
      assert keys[n] !in keys[..n];
    }
  }

  lemma {:induction false} NothingListed<T, K>(key: T -> K, keys: seq<K>)
    ensures Listed([], key, keys) == []
  {
    if keys != [] { NothingListed(key, keys[..|keys| - 1]); }
  }

  /** Distinct keys that cover a list hold each of its items exactly once. */
  lemma {:induction false} ListedIsAll<T, K>(items: seq<T>, key: T -> K, keys: seq<K>)
    requires Distinct(keys) && forall i :: 0 <= i < |items| ==> key(items[i]) in keys
    ensures multiset(Listed(items, key, keys)) == multiset(items)
  {
    hide Distinct, Listed;
    if items == [] {
      NothingListed(key, keys);
    } else {
      var n := |items| - 1;
      ListedIsAll(items[..n], key, keys);
      ListedGrows(items[..n], items[n], key, keys);
      assert items == items[..n] + [items[n]];
    }
  }

  /** Places in a list, in order. */
  predicate Increasing(places: seq<int>) {
    forall i, j :: 0 <= i < j < |places| ==> places[i] < places[j]
  }

  lemma OneMorePlace(places: seq<int>, n: int)
    requires Increasing(places) && forall k :: k in places ==> k < n
    ensures Increasing(places + [n])
  {
    var all := places + [n];
    forall i, j | 0 <= i < j < |all| ensures all[i] < all[j] {
      assert all[i] == places[i] && places[i] in places;
      if j < |places| { assert all[j] == places[j]; }
    }
  }

  /** A sum over items is the sum over the groups. */
  function Sum<T>(items: seq<T>, weight: T -> real): real {
    if items == [] then 0.0 else Sum(items[..|items| - 1], weight) + weight(items[|items| - 1])
  }

  function SumOfGroups<T, K(==)>(items: seq<T>, key: T -> K, keys: seq<K>, weight: T -> real): real {
    if keys == [] then 0.0
    else SumOfGroups(items, key, keys[..|keys| - 1], weight) + Sum(Members(items, key, keys[|keys| - 1]), weight)
  }

  lemma SumGrows<T>(items: seq<T>, item: T, weight: T -> real)
    ensures Sum(items + [item], weight) == Sum(items, weight) + weight(item)
  {
  }

  lemma {:induction false} SumOfGroupsGrows<T, K>(items: seq<T>, item: T, key: T -> K, keys: seq<K>, weight: T -> real)
    requires Distinct(keys)
    ensures SumOfGroups(items + [item], key, keys, weight)
            == SumOfGroups(items, key, keys, weight) + if key(item) in keys then weight(item) else 0.0
  {
    hide Members, Sum;
    if keys != [] {
      var n := |keys| - 1;
      SumOfGroupsGrows(items, item, key, keys[..n], weight);
      SumOfMembersGrows(items, item, key, keys[n], weight);
      assert keys == keys[..n] + [keys[n]];
      assert keys[n] !in keys[..n];
    }
  }

  lemma SumOfMembersGrows<T, K>(items: seq<T>, item: T, key: T -> K, k: K, weight: T -> real)
    ensures Sum(Members(items + [item], key, k), weight)
            == Sum(Members(items, key, k), weight) + if key(item) == k then weight(item) else 0.0
  {
    hide Members, Sum;
    MembersGrow(items, item, key, k);
    SumGrows(Members(items, key, k), item, weight);
    assert Members(items, key, k) + [] == Members(items, key, k);
  }

  lemma {:induction false} NothingSummed<T, K>(key: T -> K, keys: seq<K>, weight: T -> real)
    ensures SumOfGroups([], key, keys, weight) == 0.0
  {
    if keys != [] { NothingSummed(key, keys[..|keys| - 1], weight); }
  }

  /** Nothing is lost or counted twice. */
  lemma {:induction false} GroupsSumUp<T, K>(items: seq<T>, key: T -> K, keys: seq<K>, weight: T -> real)
    requires Distinct(keys) && forall i :: 0 <= i < |items| ==> key(items[i]) in keys
    ensures SumOfGroups(items, key, keys, weight) == Sum(items, weight)
  {
    hide Distinct, SumOfGroups;
    if items == [] {
      NothingSummed(key, keys, weight);
    } else {
      var n := |items| - 1;
      GroupsSumUp(items[..n], key, keys, weight);
      SumOfGroupsGrows(items[..n], items[n], key, keys, weight);
      assert items == items[..n] + [items[n]];
    }
  }
}
