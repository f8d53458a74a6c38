/** A JavaScript `Map` as the sequence of its entries: keys stay in the order of their first
    insertion, and setting a key that is present changes its value in place. */
module InsertionMap {
  datatype Entry<K, V> = Entry(key: K, value: V)

  function Keys<K, V>(m: seq<Entry<K, V>>): seq<K> {
    seq(|m|, i requires 0 <= i < |m| => m[i].key)
  }

  predicate Has<K(==), V>(m: seq<Entry<K, V>>, key: K) {
    key in Keys(m)
  }

  ghost predicate Valid<K, V>(m: seq<Entry<K, V>>) {
    forall i, j :: 0 <= i < j < |m| ==> m[i].key != m[j].key
  }

  function Position<K(==), V>(m: seq<Entry<K, V>>, key: K): (i: nat)
    ensures i <= |m| && (i < |m| ==> m[i].key == key)
    ensures forall j :: 0 <= j < i ==> m[j].key != key
    ensures i < |m| <==> Has(m, key)
  {
    if m == [] then 0
    else if m[0].key == key then (assert key == Keys(m)[0]; 0)
    else
      var i := Position(m[1..], key);
      assert Keys(m) == [m[0].key] + Keys(m[1..]);
      i + 1
  }

  function Set<K(==), V>(m: seq<Entry<K, V>>, key: K, value: V): seq<Entry<K, V>> {
    var i := Position(m, key);
    if i < |m| then m[i := Entry(key, value)] else m + [Entry(key, value)]
  }

  function Delete<K(==), V>(m: seq<Entry<K, V>>, key: K): seq<Entry<K, V>> {
    var i := Position(m, key);
    if i < |m| then m[..i] + m[i + 1..] else m
  }

  lemma SetKeys<K, V>(m: seq<Entry<K, V>>, key: K, value: V)
    ensures Keys(Set(m, key, value)) == if Has(m, key) then Keys(m) else Keys(m) + [key]
    ensures Valid(m) ==> Valid(Set(m, key, value))
    ensures Entry(key, value) in Set(m, key, value)
  {
    var i := Position(m, key);
    assert Set(m, key, value)[i] == Entry(key, value);
  }

  lemma DeleteKeys<K, V>(m: seq<Entry<K, V>>, key: K)
    requires Valid(m)
    ensures Valid(Delete(m, key)) && !Has(Delete(m, key), key)
    ensures |Delete(m, key)| == |m| - if Has(m, key) then 1 else 0
  {
    var i := Position(m, key);
    var d := Delete(m, key);
    assert forall j :: 0 <= j < |d| ==> d[j] == if j < i then m[j] else m[j + 1];
  }

  /** The value of a key, if there is one. */
  function ValueAt<K(==), V>(m: seq<Entry<K, V>>, key: K): seq<V> {
    var i := Position(m, key);
    if i < |m| then [m[i].value] else []
  }

  lemma PositionIs<K, V>(m: seq<Entry<K, V>>, i: nat, key: K)
    requires i < |m| && m[i].key == key && forall j :: 0 <= j < i ==> m[j].key != key
    ensures Position(m, key) == i
  {
    assert Keys(m)[i] == key;
  }

  lemma ValueAfterSet<K, V>(m: seq<Entry<K, V>>, key: K, value: V, at: K)
    ensures ValueAt(Set(m, key, value), at) == if key == at then [value] else ValueAt(m, at)
  {
    var i, s := Position(m, key), Set(m, key, value);
    var p := Position(m, at);
    if key == at {
      PositionIs(s, i, at);
    } else {
      assert Keys(s) == if i < |m| then Keys(m) else Keys(m) + [key];
      if p < |m| { PositionIs(s, p, at); }
    }
  }
}
