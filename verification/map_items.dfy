/**
 The items of a TinyMap (Tiny/Container/TinyMap.c): in insertion order, with keys
 compared over their first 256 characters. The functions Find, With and Without say
 what lookup, insertion and removal do to the sequence of items, and the lemmas relate
 them to a finite map. A key is the C string without its terminator.
 */
module MapItems {
  import opened Wrappers
  import opened Containers

  const MAX_KEY_LEN: nat := 256

  datatype Item<V> = Item(key: string, value: V)

  // What strncpy keeps of a key.
  function Clip(key: string): string {
    if |key| <= MAX_KEY_LEN then key else key[..MAX_KEY_LEN]
  }

  // strncmp(a, b, n) == 0, where a string ends where its sequence does.
  predicate SamePrefix(a: string, b: string, n: nat) {
    n == 0
    || (a == [] && b == [])
    || (a != [] && b != [] && a[0] == b[0] && SamePrefix(a[1..], b[1..], n - 1))
  }

  lemma {:induction false} SamePrefixIs(a: string, b: string, n: nat)
    ensures SamePrefix(a, b, n) <==>
            (if |a| <= n then a else a[..n]) == (if |b| <= n then b else b[..n])
  {
    if n != 0 && a != [] && b != [] {
      SamePrefixIs(a[1..], b[1..], n - 1);
      var p, q := if |a| <= n then a else a[..n], if |b| <= n then b else b[..n];
      var p', q' := if |a| - 1 <= n - 1 then a[1..] else a[1..][..n - 1], if |b| - 1 <= n - 1 then b[1..] else b[1..][..n - 1];
      assert p == [a[0]] + p' && q == [b[0]] + q';
      assert p[1..] == p' && q[1..] == q';
    }
  }

  // item_compare: go on while the keys differ.
  function Differs<V>(key: string): Item<V> -> bool {
    (item: Item<V>) => !SamePrefix(item.key, key, MAX_KEY_LEN)
  }

  function IndexOf<V>(items: seq<Item<V>>, key: string): (i: int)
    ensures -1 <= i < |items|
  {
    FirstStop(items, Differs(key))
  }

  function Find<V>(items: seq<Item<V>>, key: string): Option<V> {
    var i := IndexOf(items, key);
    if i < 0 then None else Some(items[i].value)
  }

  function With<V>(items: seq<Item<V>>, key: string, value: V): seq<Item<V>> {
    if IndexOf(items, key) < 0 then items + [Item(Clip(key), value)] else items
  }

  function Without<V>(items: seq<Item<V>>, key: string): seq<Item<V>> {
    Removed(items, IndexOf(items, key))
  }

  function Values<V>(items: seq<Item<V>>): (r: seq<V>)
    ensures |r| == |items| && forall i :: 0 <= i < |r| ==> r[i] == items[i].value
  {
    seq(|items|, i requires 0 <= i < |items| => items[i].value)
  }

  // The keys are clipped and pairwise different.
  predicate Keyed<V>(items: seq<Item<V>>) {
    && (forall i :: 0 <= i < |items| ==> |items[i].key| <= MAX_KEY_LEN)
    && (forall i, j :: 0 <= i < j < |items| ==> items[i].key != items[j].key)
  }

  lemma IndexOfMeans<V>(items: seq<Item<V>>, key: string)
    requires Keyed(items)
    ensures var i := IndexOf(items, key);
            if i < 0 then forall j :: 0 <= j < |items| ==> items[j].key != Clip(key)
            else items[i].key == Clip(key) && forall j :: 0 <= j < |items| && j != i ==> items[j].key != Clip(key)
  {
    FirstStopMeans(items, Differs(key));
    forall j | 0 <= j < |items|
      ensures Differs<V>(key)(items[j]) <==> items[j].key != Clip(key)
    {
      SamePrefixIs(items[j].key, key, MAX_KEY_LEN);
    }
  }

  // The finite map that a sequence of items stands for.
  function MapOf<V>(items: seq<Item<V>>): (m: map<string, V>)
    ensures forall k :: k in m ==> exists i :: 0 <= i < |items| && items[i].key == k
  {
    if items == [] then map[]
    else
      var l := |items| - 1;
      MapOf(items[..l])[items[l].key := items[l].value]
  }

  lemma {:induction false} MapOfAt<V>(items: seq<Item<V>>, i: nat)
    requires Keyed(items) && i < |items|
    ensures items[i].key in MapOf(items) && MapOf(items)[items[i].key] == items[i].value
  {
    if i < |items| - 1 {
      MapOfAt(items[..|items| - 1], i);
    }
  }

  lemma FindIsLookup<V>(items: seq<Item<V>>, key: string)
    requires Keyed(items)
    ensures Find(items, key) == if Clip(key) in MapOf(items) then Some(MapOf(items)[Clip(key)]) else None
  {
    hide MapOf, IndexOf;
    IndexOfMeans(items, key);
    var i := IndexOf(items, key);
    if i >= 0 {
      MapOfAt(items, i);
    }
  }

  lemma InsertKeeps<V>(items: seq<Item<V>>, key: string, value: V)
    requires Keyed(items)
    ensures Keyed(With(items, key, value))
    ensures MapOf(With(items, key, value)) ==
            if Clip(key) in MapOf(items) then MapOf(items) else MapOf(items)[Clip(key) := value]
  {
    hide IndexOf, MapOf;
    IndexOfMeans(items, key);
    var i := IndexOf(items, key);
    if i >= 0 {
      MapOfAt(items, i);
    } else {
      assert Clip(key) !in MapOf(items);
      MapOfAppended(items, Item(Clip(key), value));
    }
  }

  lemma MapOfAppended<V>(items: seq<Item<V>>, item: Item<V>)
    ensures MapOf(items + [item]) == MapOf(items)[item.key := item.value]
  {
    assert (items + [item])[..|items|] == items;
  }

  lemma EraseKeeps<V>(items: seq<Item<V>>, key: string)
    requires Keyed(items)
    ensures Keyed(Without(items, key))
    ensures MapOf(Without(items, key)) == MapOf(items) - {Clip(key)}
  {
    hide IndexOf, MapOf;
    IndexOfMeans(items, key);
    var p := IndexOf(items, key);
    if p >= 0 {
      RemovedAt(items, p);
      ErasedMap(items, p);
    } else {
      assert Clip(key) !in MapOf(items);
    }
  }

  // In a keyed sequence the map holds exactly the items.
  lemma MapOfHas<V>(items: seq<Item<V>>, k: string, v: V)
    requires Keyed(items)
    ensures k in MapOf(items) && MapOf(items)[k] == v <==> Item(k, v) in items
  {
    if k in MapOf(items) {
      var i :| 0 <= i < |items| && items[i].key == k;
      MapOfAt(items, i);
    }
    if Item(k, v) in items {
      var i :| 0 <= i < |items| && items[i] == Item(k, v);
      MapOfAt(items, i);
    }
  }

  lemma ErasedMap<V>(items: seq<Item<V>>, p: nat)
    requires p < |items| && Keyed(items) && Keyed(Removed(items, p))
    ensures MapOf(Removed(items, p)) == MapOf(items) - {items[p].key}
  {
    hide MapOf, Keyed, Removed;
    var m, r := MapOf(items), MapOf(Removed(items, p));
    forall k
      ensures k in r <==> k in m && k != items[p].key
      ensures k in r ==> r[k] == m[k]
    {
      ErasedAt(items, p, k);
    }
  }

  lemma ErasedAt<V>(items: seq<Item<V>>, p: nat, k: string)
    requires p < |items| && Keyed(items) && Keyed(Removed(items, p))
    ensures var m, r := MapOf(items), MapOf(Removed(items, p));
            && (k in r <==> k in m && k != items[p].key)
            && (k in r ==> r[k] == m[k])
  {
    hide MapOf, Keyed, Removed;
    var m, s := MapOf(items), Removed(items, p);
    var r := MapOf(s);
    if k in r {
      MapOfHas(s, k, r[k]);
      ErasedHas(items, p, Item(k, r[k]));
      MapOfHas(items, k, r[k]);
    }
    if k in m && k != items[p].key {
      MapOfHas(items, k, m[k]);
      ErasedHas(items, p, Item(k, m[k]));
      MapOfHas(s, k, m[k]);
    }
  }

  lemma ErasedHas<V>(items: seq<Item<V>>, p: nat, item: Item<V>)
    requires p < |items| && Keyed(items)
    ensures item in Removed(items, p) <==> item in items && item.key != items[p].key
  {
    RemovedAt(items, p);
    var s := Removed(items, p);
    if item in s {
      var j :| 0 <= j < |s| && s[j] == item;
      assert item == items[if j < p then j else j + 1];
    }
    if item in items && item.key != items[p].key {
      var j :| 0 <= j < |items| && items[j] == item;
      assert item == s[if j < p then j else j - 1];
    }
  }

  // ---- membership of values ----

  predicate Holds<V(==)>(items: seq<Item<V>>, v: V) {
    exists i :: 0 <= i < |items| && items[i].value == v
  }

  predicate Apart<V(==)>(items: seq<Item<V>>) {
    forall i, j :: 0 <= i < j < |items| ==> items[i].value != items[j].value
  }

  lemma HoldsWith<V>(items: seq<Item<V>>, key: string, v: V, w: V)
    requires Find(items, key).None?
    ensures Holds(With(items, key, v), w) <==> Holds(items, w) || w == v
  {
    hide IndexOf;
    var r := With(items, key, v);
    assert r == items + [Item(Clip(key), v)];
    assert r[|items|].value == v;
    if Holds(items, w) {
      var i :| 0 <= i < |items| && items[i].value == w;
      assert r[i].value == w;
    }
  }

  lemma HoldsRemoved<V>(items: seq<Item<V>>, p: nat, w: V)
    requires p < |items| && Apart(items)
    ensures Apart(Removed(items, p))
    ensures Holds(Removed(items, p), w) <==> Holds(items, w) && w != items[p].value
  {
    RemovedAt(items, p);
    var r := Removed(items, p);
    hide Removed;
    if Holds(items, w) && w != items[p].value {
      var i :| 0 <= i < |items| && items[i].value == w;
      var k := if i < p then i else i - 1;
      assert r[k] == items[i];
    }
    if Holds(r, w) {
      var i :| 0 <= i < |r| && r[i].value == w;
      var k := if i < p then i else i + 1;
      assert items[k] == r[i];
    }
  }

  lemma HoldsWithout<V>(items: seq<Item<V>>, key: string, w: V)
    requires Keyed(items) && Apart(items) && Find(items, key).Some?
    ensures Apart(Without(items, key))
    ensures Holds(Without(items, key), w) <==> Holds(items, w) && w != Find(items, key).value
    ensures Holds(items, Find(items, key).value)
  {
    IndexOfMeans(items, key);
    hide IndexOf, Keyed;
    var p := IndexOf(items, key);
    HoldsRemoved(items, p, w);
  }

  lemma HoldsSplit<V>(items: seq<Item<V>>, w: V)
    requires items != [] && Apart(items)
    ensures Holds(items, w) <==> Holds(items[..|items| - 1], w) || items[|items| - 1].value == w
    ensures !(Holds(items[..|items| - 1], w) && items[|items| - 1].value == w)
  {
    if Holds(items, w) {
      var i :| 0 <= i < |items| && items[i].value == w;
      assert i < |items| - 1 ==> items[..|items| - 1][i].value == w;
    }
  }

  // The keys alone.
  function KeySet<V>(items: seq<Item<V>>): set<string> {
    MapOf(items).Keys
  }

  lemma FindHas<V>(items: seq<Item<V>>, key: string)
    requires Keyed(items)
    ensures Find(items, key).Some? <==> Clip(key) in KeySet(items)
  {
    FindIsLookup(items, key);
    hide Find, MapOf, Keyed;
  }

  lemma OneMoreKey<V>(m: map<string, V>, k: string, v: V)
    ensures m[k := v].Keys == m.Keys + {k}
    ensures k in m ==> m.Keys + {k} == m.Keys
  {
  }

  lemma KeysWith<V>(items: seq<Item<V>>, key: string, value: V)
    requires Keyed(items)
    ensures KeySet(With(items, key, value)) == KeySet(items) + {Clip(key)}
  {
    InsertKeeps(items, key, value);
    var m, k := MapOf(items), Clip(key);
    assert MapOf(With(items, key, value)) == if k in m then m else m[k := value];
    hide *;
    OneMoreKey(m, k, value);
  }

  lemma KeysWithout<V>(items: seq<Item<V>>, key: string)
    requires Keyed(items)
    ensures KeySet(Without(items, key)) == KeySet(items) - {Clip(key)}
  {
    EraseKeeps(items, key);
    hide Without, MapOf, Keyed, Clip;
  }
}
