/**
 TinyMap (Tiny/Container/TinyMap.c): the class over a TinyList of items, and what
 holds after every run of its operations.
 */
module Maps {
  import opened Words
  import opened Wrappers
  import opened Containers
  import opened MapItems

  class TinyMap<V> {
    const list: TinyList<Item<V>>
    var listening: bool          // the user of the map has set a delete listener
    ghost var delivered: seq<V>  // the values it was called with

    ghost predicate Valid()
      reads this, list, list.nodes
    {
      list.Valid() && list.leaked == 0 && list.listening && Keyed(list.contents)
    }

    // The constructed list tells the map of each item it deletes.
    constructor ()
      ensures Valid() && list.contents == [] && !listening && delivered == []
      ensures fresh(list) && list.nodes == []
    {
      list := new TinyList();
      listening, delivered := false, [];
      new;
      list.SetDeleteListener();
    }

    method SetDeleteListener()
      requires Valid()
      modifies this`listening
      ensures Valid() && listening
    {
      listening := true;
    }

    // on_item_delete_listener, for the items deleted by one list operation.
    ghost method OnItemsDeleted(items: seq<Item<V>>)
      modifies this`delivered
      ensures delivered == if listening then old(delivered) + Values(items) else old(delivered)
    {
      if listening {
        delivered := delivered + Values(items);
      }
    }

    method FindKey(key: string) returns (index: int)
      requires Valid()
      ensures index == IndexOf(list.contents, key)
    {
      index := list.Foreach(Differs(key));
    }

    method GetCount() returns (count: nat)
      requires Valid()
      ensures count == |list.contents| % U32
    {
      count := list.GetCount();
    }

    method GetValueAt(index: nat) returns (value: Option<V>)
      requires Valid()
      ensures value == if index < |list.contents| then Some(list.contents[index].value) else None
    {
      var item := list.GetAt(index);
      if item.Some? {
        value := Some(item.value.value);
      } else {
        value := None;
      }
    }

    method GetValue(key: string) returns (value: Option<V>)
      requires Valid()
      ensures value == Find(list.contents, key)
    {
      var index := FindKey(key);
      if index >= 0 {
        var item := list.GetAt(index);
        value := Some(item.value.value);
      } else {
        value := None;
      }
    }

    method Insert(key: string, value: V) returns (ret: TinyRet)
      requires Valid()
      modifies list, list.nodes
      ensures Valid() && list.contents == With(old(list.contents), key, value)
      ensures ret == if Find(old(list.contents), key).None? then RetOk else ItemExist
      ensures forall n :: n in list.nodes ==> n in old(list.nodes) || fresh(n)
    {
      InsertKeeps(list.contents, key, value);
      var index := FindKey(key);
      if index < 0 {
        list.AddTail(Item(Clip(key), value));
        return RetOk;
      }
      ret := ItemExist;
    }

    method Erase(key: string) returns (ret: TinyRet)
      requires Valid()
      modifies this`delivered, list, list.nodes
      ensures Valid() && list.contents == Without(old(list.contents), key)
      ensures ret == if Find(old(list.contents), key).None? then NotFound else RetOk
      ensures delivered == match Find(old(list.contents), key)
                           case None => old(delivered)
                           case Some(v) => if listening then old(delivered) + [v] else old(delivered)
      ensures forall n :: n in list.nodes ==> n in old(list.nodes)
    {
      EraseKeeps(list.contents, key);
      var index := FindKey(key);
      if index < 0 {
        return NotFound;
      }
      ghost var item := list.contents[index];
      var _ := list.RemoveAt(index);
      OnItemsDeleted([item]);
      assert Values([item]) == [item.value];
      ret := RetOk;
    }

    method Clear()
      requires Valid()
      modifies this`delivered, list
      ensures Valid() && list.contents == []
      ensures delivered == if listening then old(delivered) + Values(old(list.contents)) else old(delivered)
    {
      ghost var items := list.contents;
      list.RemoveAll();
      OnItemsDeleted(items);
    }

    // Dispose of the map disposes of its list, which deletes every node.
    method Dispose()
      requires Valid()
      modifies this`delivered, list
      ensures Valid() && list.contents == []
      ensures delivered == if listening then old(delivered) + Values(old(list.contents)) else old(delivered)
    {
      ghost var items := list.contents;
      list.RemoveAll();
      OnItemsDeleted(items);
    }
  }

  // ---- runs ----

  datatype Op<V> = OpListen | OpInsert(key: string, value: V) | OpErase(key: string) | OpClear

  datatype State<V> = State(items: seq<Item<V>>, listening: bool, delivered: seq<V>)

  // The effect of one operation, as the class states it.
  function Step<V>(s: State<V>, op: Op<V>): State<V> {
    match op
    case OpListen => s.(listening := true)
    case OpInsert(key, value) => s.(items := With(s.items, key, value))
    case OpErase(key) =>
      s.(items := Without(s.items, key),
         delivered := match Find(s.items, key)
                      case None => s.delivered
                      case Some(v) => if s.listening then s.delivered + [v] else s.delivered)
    case OpClear =>
      s.(items := [], delivered := if s.listening then s.delivered + Values(s.items) else s.delivered)
  }

  function Run<V>(ops: seq<Op<V>>): State<V> {
    if ops == [] then State([], false, [])
    else Step(Run(ops[..|ops| - 1]), ops[|ops| - 1])
  }

  method Perform<V>(m: TinyMap<V>, op: Op<V>)
    requires m.Valid()
    modifies m, m.list, m.list.nodes
    ensures m.Valid()
    ensures State(m.list.contents, m.listening, m.delivered) ==
            Step(old(State(m.list.contents, m.listening, m.delivered)), op)
    ensures forall n :: n in m.list.nodes ==> n in old(m.list.nodes) || fresh(n)
  {
    hide MapOf, IndexOf, Keyed;
    if op.OpListen? {
      m.SetDeleteListener();
    } else if op.OpInsert? {
      var _ := m.Insert(op.key, op.value);
    } else if op.OpErase? {
      var _ := m.Erase(op.key);
    } else {
      m.Clear();
    }
  }

  // The same run on a Dafny map.
  function AbstractStep<V>(m: map<string, V>, op: Op<V>): map<string, V> {
    match op
    case OpListen => m
    case OpInsert(key, value) => if Clip(key) in m then m else m[Clip(key) := value]
    case OpErase(key) => m - {Clip(key)}
    case OpClear => map[]
  }

  function AbstractRun<V>(ops: seq<Op<V>>): map<string, V> {
    if ops == [] then map[] else AbstractStep(AbstractRun(ops[..|ops| - 1]), ops[|ops| - 1])
  }

  lemma StepRefines<V>(s: State<V>, op: Op<V>)
    requires Keyed(s.items)
    ensures Keyed(Step(s, op).items)
    ensures MapOf(Step(s, op).items) == AbstractStep(MapOf(s.items), op)
  {
    hide MapOf, IndexOf, Keyed, With, Without, Find;
    if op.OpInsert? {
      InsertKeeps(s.items, op.key, op.value);
    } else if op.OpErase? {
      EraseKeeps(s.items, op.key);
    } else if op.OpClear? {
      EmptyMap<V>();
    }
  }

  lemma EmptyMap<V>()
    ensures Keyed<V>([]) && MapOf<V>([]) == map[]
  {
  }

  /** After any run the keys are distinct and every lookup agrees with the abstract map. */
  lemma {:induction false} MapRefinement<V>(ops: seq<Op<V>>, key: string)
    ensures Keyed(Run(ops).items)
    ensures MapOf(Run(ops).items) == AbstractRun(ops)
    ensures Find(Run(ops).items, key) ==
            var k := if |key| <= 256 then key else key[..256];
            if k in AbstractRun(ops) then Some(AbstractRun(ops)[k]) else None
  {
    hide MapOf, IndexOf, Keyed, Find, Step, AbstractStep;
    if ops == [] {
      EmptyMap<V>();
    } else {
      MapRefinement(ops[..|ops| - 1], key);
      StepRefines(Run(ops[..|ops| - 1]), ops[|ops| - 1]);
    }
    FindIsLookup(Run(ops).items, key);
  }

  // For each item, the number of the operation that inserted it.
  function Origins<V>(ops: seq<Op<V>>): seq<nat> {
    if ops == [] then []
    else
      var l := |ops| - 1;
      var items := Run(ops[..l]).items;
      match ops[l]
      case OpListen => Origins(ops[..l])
      case OpInsert(key, _) => if IndexOf(items, key) < 0 then Origins(ops[..l]) + [l] else Origins(ops[..l])
      case OpErase(key) => Removed(Origins(ops[..l]), IndexOf(items, key))
      case OpClear => []
  }

  // No operation from number p on removes the key k.
  predicate Untouched<V>(ops: seq<Op<V>>, p: nat, k: string) {
    forall j {:trigger ops[j]} :: p <= j < |ops| ==> !ops[j].OpClear? && (ops[j].OpErase? ==> Clip(ops[j].key) != k)
  }

  // Each item stems from the operation at its place in `at`, and these places ascend.
  ghost predicate InOrder<V>(ops: seq<Op<V>>, items: seq<Item<V>>, at: seq<nat>) {
    && |at| == |items|
    && (forall i :: 0 <= i < |at| ==> Stems(ops, at[i], items[i]))
    && (forall i, j :: 0 <= i < j < |at| ==> at[i] < at[j])
  }

  ghost predicate Stems<V>(ops: seq<Op<V>>, p: nat, item: Item<V>) {
    && p < |ops|
    && ops[p].OpInsert? && Clip(ops[p].key) == item.key && ops[p].value == item.value
    && Untouched(ops, p + 1, item.key)
  }

  lemma StemsOn<V>(ops: seq<Op<V>>, p: nat, item: Item<V>)
    requires ops != [] && Stems(ops[..|ops| - 1], p, item)
    requires !ops[|ops| - 1].OpClear? && (ops[|ops| - 1].OpErase? ==> Clip(ops[|ops| - 1].key) != item.key)
    ensures Stems(ops, p, item)
  {
    var was := ops[..|ops| - 1];
    assert forall j :: 0 <= j < |was| ==> was[j] == ops[j];
  }

  lemma OrderAfterErase<V>(ops: seq<Op<V>>, was: seq<Item<V>>, at: seq<nat>)
    requires ops != [] && ops[|ops| - 1].OpErase? && Keyed(was) && InOrder(ops[..|ops| - 1], was, at)
    ensures var p := IndexOf(was, ops[|ops| - 1].key); InOrder(ops, Removed(was, p), Removed(at, p))
  {
    hide IndexOf, Stems, Keyed;
    var key := ops[|ops| - 1].key;
    IndexOfMeans(was, key);
    var p := IndexOf(was, key);
    forall i | 0 <= i < |was| && i != p
      ensures Stems(ops, at[i], was[i])
    {
      StemsOn(ops, at[i], was[i]);
    }
    if p >= 0 {
      RemovedOrder(ops, was, at, p);
    }
  }

  lemma RemovedOrder<V>(ops: seq<Op<V>>, was: seq<Item<V>>, at: seq<nat>, p: nat)
    requires p < |was| == |at|
    requires forall i :: 0 <= i < |was| && i != p ==> Stems(ops, at[i], was[i])
    requires forall i, j :: 0 <= i < j < |at| ==> at[i] < at[j]
    ensures InOrder(ops, Removed(was, p), Removed(at, p))
  {
    RemovedAt(was, p);
    RemovedAt(at, p);
    hide Stems, Removed;
    var items, at' := Removed(was, p), Removed(at, p);
    forall i | 0 <= i < |items|
      ensures Stems(ops, at'[i], items[i])
    {
      assert items[i] == was[if i < p then i else i + 1] && at'[i] == at[if i < p then i else i + 1];
    }
  }

  lemma OrderAfterOther<V>(ops: seq<Op<V>>, was: seq<Item<V>>, at: seq<nat>)
    requires ops != [] && !ops[|ops| - 1].OpErase? && !ops[|ops| - 1].OpClear?
    requires InOrder(ops[..|ops| - 1], was, at)
    ensures InOrder(ops, was, at) && forall i :: 0 <= i < |at| ==> at[i] < |ops| - 1
  {
    forall i | 0 <= i < |was|
      ensures Stems(ops, at[i], was[i])
    {
      StemsOn(ops, at[i], was[i]);
    }
  }

  lemma OrderAfterInsert<V>(ops: seq<Op<V>>, was: seq<Item<V>>, at: seq<nat>)
    requires ops != [] && ops[|ops| - 1].OpInsert? && InOrder(ops, was, at)
    requires forall i :: 0 <= i < |at| ==> at[i] < |ops| - 1
    ensures var op := ops[|ops| - 1];
            InOrder(ops, was + [Item(Clip(op.key), op.value)], at + [|ops| - 1])
  {
    NewStems(ops);
    hide Stems;
  }

  lemma NothingInOrder<V>(ops: seq<Op<V>>)
    ensures InOrder(ops, [], [])
  {
  }

  /** The items stand in the order in which operations put them there, and none was removed since. */
  lemma {:induction false} InsertionOrder<V>(ops: seq<Op<V>>)
    ensures InOrder(ops, Run(ops).items, Origins(ops))
  {
    hide IndexOf, Stems, Removed, InOrder, Keyed, Find;
    if ops == [] {
      NothingInOrder(ops);
    } else {
      var l := |ops| - 1;
      var was, at := Run(ops[..l]).items, Origins(ops[..l]);
      InsertionOrder(ops[..l]);
      MapRefinement(ops[..l], "");
      if ops[l].OpErase? {
        OrderAfterErase(ops, was, at);
      } else if ops[l].OpClear? {
        NothingInOrder(ops);
      } else {
        OrderAfterOther(ops, was, at);
        if ops[l].OpInsert? {
          OrderAfterInsert(ops, was, at);
        }
      }
    }
  }

  lemma NewStems<V>(ops: seq<Op<V>>)
    requires ops != [] && ops[|ops| - 1].OpInsert?
    ensures var op := ops[|ops| - 1]; Stems(ops, |ops| - 1, Item(Clip(op.key), op.value))
  {
  }

  // How often v was inserted with success, and how often it is in s.
  function Times<V(==)>(s: seq<V>, v: V): nat {
    if s == [] then 0 else Times(s[..|s| - 1], v) + if s[|s| - 1] == v then 1 else 0
  }

  lemma {:induction false} TimesSum<V>(s: seq<V>, t: seq<V>, v: V)
    ensures Times(s + t, v) == Times(s, v) + Times(t, v)
  {
    if t == [] {
      assert s + t == s;
    } else {
      assert (s + t)[..|s + t| - 1] == s + t[..|t| - 1];
      TimesSum(s, t[..|t| - 1], v);
    }
  }

  lemma TimesOne<V>(x: V, v: V)
    ensures Times([x], v) == if x == v then 1 else 0
  {
    assert [x][..0] == [];
  }

  lemma RemovedNone<V>(items: seq<Item<V>>, p: int)
    requires p < 0
    ensures Removed(items, p) == items
  {
  }

  lemma TimesRemoved<V>(items: seq<Item<V>>, p: nat, v: V)
    requires p < |items|
    ensures Times(Values(Removed(items, p)), v) == Times(Values(items), v) - if items[p].value == v then 1 else 0
  {
    var a, b := items[..p], items[p + 1..];
    assert Values(Removed(items, p)) == Values(a) + Values(b);
    assert Values(items) == (Values(a) + [items[p].value]) + Values(b);
    TimesSum(Values(a), Values(b), v);
    TimesSum(Values(a) + [items[p].value], Values(b), v);
    TimesSum(Values(a), [items[p].value], v);
    TimesOne(items[p].value, v);
  }

  function Inserted<V>(ops: seq<Op<V>>): seq<V> {
    if ops == [] then []
    else
      var l := |ops| - 1;
      Inserted(ops[..l]) +
      if ops[l].OpInsert? && Find(Run(ops[..l]).items, ops[l].key).None? then [ops[l].value] else []
  }

  // Without a delete listener, a value that is removed is told to nobody.
  predicate Unheard<V>(s: State<V>, op: Op<V>) {
    !s.listening && ((op.OpErase? && Find(s.items, op.key).Some?) || (op.OpClear? && s.items != []))
  }

  function Dropped<V>(s: State<V>, op: Op<V>): (r: seq<V>)
    ensures r != [] <==> Unheard(s, op)
  {
    if !Unheard(s, op) then []
    else if op.OpErase? then [Find(s.items, op.key).value]
    else Values(s.items)
  }

  // The values lost in this way.
  function Lost<V>(ops: seq<Op<V>>): seq<V> {
    if ops == [] then [] else Lost(ops[..|ops| - 1]) + Dropped(Run(ops[..|ops| - 1]), ops[|ops| - 1])
  }

  predicate HeardAt<V>(ops: seq<Op<V>>, n: nat)
    requires n < |ops|
  {
    !Unheard(Run(ops[..n]), ops[n])
  }

  // No operation of the run removes anything before a listener is set.
  predicate AllHeard<V>(ops: seq<Op<V>>) {
    forall n :: 0 <= n < |ops| ==> HeardAt(ops, n)
  }

  lemma StepDelivers<V>(s: State<V>, op: Op<V>, v: V)
    ensures Times(Step(s, op).delivered, v) + Times(Values(Step(s, op).items), v) + Times(Dropped(s, op), v) ==
            Times(s.delivered, v) + Times(Values(s.items), v)
            + Times(if op.OpInsert? && Find(s.items, op.key).None? then [op.value] else [], v)
  {
    assert Times([], v) == 0;
    hide IndexOf, Removed, Times;
    if op.OpInsert? && IndexOf(s.items, op.key) < 0 {
      assert Values(With(s.items, op.key, op.value)) == Values(s.items) + [op.value];
      TimesSum(Values(s.items), [op.value], v);
    } else if op.OpErase? {
      var p := IndexOf(s.items, op.key);
      if p >= 0 {
        TimesRemoved(s.items, p, v);
        TimesSum(s.delivered, [s.items[p].value], v);
        TimesOne(s.items[p].value, v);
      } else {
        RemovedNone(s.items, p);
      }
    } else if op.OpClear? {
      assert Values<V>([]) == [];
      TimesSum(s.delivered, Values(s.items), v);
    }
  }

  /**
   In every run each value inserted with success was delivered to the listener, is still in the
   map, or was removed unheard, exactly as often as it was inserted.
   */
  lemma {:induction false} DeliveredOnce<V>(ops: seq<Op<V>>, v: V)
    ensures Times(Inserted(ops), v) ==
            Times(Run(ops).delivered, v) + Times(Values(Run(ops).items), v) + Times(Lost(ops), v)
  {
    assert Values<V>([]) == [] && Times<V>([], v) == 0;
    hide Step, Find, Times, Dropped;
    if ops != [] {
      var l := |ops| - 1;
      var s, op := Run(ops[..l]), ops[l];
      DeliveredOnce(ops[..l], v);
      StepDelivers(s, op, v);
      TimesSum(Inserted(ops[..l]), if op.OpInsert? && Find(s.items, op.key).None? then [op.value] else [], v);
      TimesSum(Lost(ops[..l]), Dropped(s, op), v);
    }
  }

  lemma HeardBefore<V>(ops: seq<Op<V>>, n: nat)
    requires n < |ops| - 1
    ensures HeardAt(ops[..|ops| - 1], n) <==> HeardAt(ops, n)
  {
    hide Unheard, Run;
    assert ops[..|ops| - 1][..n] == ops[..n];
  }

  lemma AllHeardNext<V>(ops: seq<Op<V>>)
    requires ops != []
    ensures AllHeard(ops) <==> AllHeard(ops[..|ops| - 1]) && HeardAt(ops, |ops| - 1)
  {
    hide HeardAt;
    var l := |ops| - 1;
    forall n | 0 <= n < l && AllHeard(ops)
      ensures HeardAt(ops[..l], n)
    {
      HeardBefore(ops, n);
    }
    forall n | 0 <= n < |ops| && AllHeard(ops[..l]) && HeardAt(ops, l)
      ensures HeardAt(ops, n)
    {
      if n < l {
        HeardBefore(ops, n);
      }
    }
  }

  lemma {:induction false} LostNothing<V>(ops: seq<Op<V>>)
    ensures Lost(ops) == [] <==> AllHeard(ops)
  {
    if ops != [] {
      AllHeardNext(ops);
      assert HeardAt(ops, |ops| - 1) <==> Dropped(Run(ops[..|ops| - 1]), ops[|ops| - 1]) == [];
      hide Run, Dropped, AllHeard, HeardAt;
      LostNothing(ops[..|ops| - 1]);
    }
  }

  lemma {:induction false} TimesCounts<V>(s: seq<V>, v: V)
    ensures Times(s, v) == multiset(s)[v]
  {
    if s != [] {
      TimesCounts(s[..|s| - 1], v);
      assert s == s[..|s| - 1] + [s[|s| - 1]];
    }
  }

  lemma SumsCount<V>(a: seq<V>, b: seq<V>, c: seq<V>, d: seq<V>)
    requires forall v :: Times(a, v) == Times(b, v) + Times(c, v) + Times(d, v)
    ensures multiset(a) == multiset(b) + multiset(c) + multiset(d)
    ensures multiset(a) == multiset(b) + multiset(c) <==> d == []
  {
    forall v
      ensures multiset(a)[v] == multiset(b)[v] + multiset(c)[v] + multiset(d)[v]
    {
      TimesCounts(a, v);
      TimesCounts(b, v);
      TimesCounts(c, v);
      TimesCounts(d, v);
    }
    hide Times;
    if d != [] {
      assert d[0] in multiset(d);
      assert multiset(a)[d[0]] > (multiset(b) + multiset(c))[d[0]];
    }
  }

  /** The listener and the map account for every value exactly when nothing was removed before the
      listener was set. */
  lemma DeliveredExactly<V>(ops: seq<Op<V>>)
    ensures multiset(Inserted(ops)) == multiset(Run(ops).delivered) + multiset(Values(Run(ops).items))
            <==> AllHeard(ops)
  {
    hide Inserted, Run, Lost, AllHeard, Times;
    LostNothing(ops);
    forall v
      ensures Times(Inserted(ops), v) ==
              Times(Run(ops).delivered, v) + Times(Values(Run(ops).items), v) + Times(Lost(ops), v)
    {
      DeliveredOnce(ops, v);
    }
    SumsCount(Inserted(ops), Run(ops).delivered, Values(Run(ops).items), Lost(ops));
  }

  /** After Clear or Dispose nothing is left: each value has been delivered once per insertion, if and
      only if nothing was removed unheard. */
  lemma DeliveredAll<V>(ops: seq<Op<V>>)
    requires ops != [] && ops[|ops| - 1].OpClear?
    ensures multiset(Run(ops).delivered) == multiset(Inserted(ops)) <==> AllHeard(ops)
  {
    assert Values(Run(ops).items) == [];
    hide Inserted, Run, AllHeard;
    DeliveredExactly(ops);
  }

  /**
   The operations one by one on a new map over its linked list: each lookup finds what the
   finite map has under the key cut to 256 characters, and the items stand in the order of
   their insertions. The listener heard of every value as often as it was inserted and removed
   again exactly if nothing was removed before the listener was set.
   */
  method Serve<V>(ops: seq<Op<V>>) returns (m: TinyMap<V>)
    ensures fresh(m) && fresh(m.list) && m.Valid()
    ensures MapOf(m.list.contents) == AbstractRun(ops)
    ensures InOrder(ops, m.list.contents, Origins(ops))
    ensures multiset(Inserted(ops)) == multiset(m.delivered) + multiset(Values(m.list.contents)) <==> AllHeard(ops)
  {
    hide Step, MapOf, IndexOf, Keyed, InOrder, Times;
    m := new TinyMap();
    var i := 0;
    while i < |ops|
      invariant i <= |ops|
      invariant fresh(m) && fresh(m.list) && fresh(m.list.nodes) && m.Valid()
      invariant State(m.list.contents, m.listening, m.delivered) == Run(ops[..i])
    {
      assert ops[..i + 1][..i] == ops[..i];
      Perform(m, ops[i]);
      forall k | 0 <= k < |m.list.nodes|
        ensures fresh(m.list.nodes[k])
      {
        assert m.list.nodes[k] in m.list.nodes;
      }
      i := i + 1;
    }
    assert ops[..i] == ops;
    MapRefinement(ops, "");
    InsertionOrder(ops);
    DeliveredExactly(ops);
  }
}
