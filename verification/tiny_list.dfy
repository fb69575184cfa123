/**
 TinyList (Tiny/Container/TinyList.c): a doubly linked list on the heap with a
 cached size and an optional listener for deleted data.

 `contents` is the list as a sequence and `nodes` the heap nodes that hold it.
 `size` is a 32-bit unsigned counter. `leaked` counts the nodes that were
 allocated but never linked: InsertAfter does that for a position past the end.
 */
module Containers {
  import opened Words
  import opened Wrappers

  class TinyNode<T> {
    var prev: TinyNode?<T>
    var next: TinyNode?<T>
    var data: T

    constructor (data: T)
      ensures prev == null && next == null && this.data == data
    {
      prev, next := null, null;
      this.data := data;
    }
  }

  // What the operations do to the list seen as a sequence.
  function Removed<T>(s: seq<T>, pos: int): seq<T> {
    if 0 <= pos < |s| then s[..pos] + s[pos + 1..] else s
  }

  function Updated<T>(s: seq<T>, pos: int, data: T): seq<T> {
    if 0 <= pos < |s| then s[pos := data] else s
  }

  function InsertedAfter<T>(s: seq<T>, pos: int, data: T): seq<T> {
    if 0 <= pos < |s| then s[..pos + 1] + [data] + s[pos + 1..] else s
  }

  function At<T>(s: seq<T>, pos: int): Option<T> {
    if 0 <= pos < |s| then Some(s[pos]) else None
  }

  // The first position whose datum the visitor refuses, or -1.
  function FirstStop<T>(s: seq<T>, visit: T -> bool): (i: int)
    ensures -1 <= i < |s|
  {
    if s == [] then -1
    else
      var i := FirstStop(s[..|s| - 1], visit);
      if i >= 0 then i else if visit(s[|s| - 1]) then -1 else |s| - 1
  }

  lemma {:induction false} FirstStopIs<T>(s: seq<T>, visit: T -> bool, i: int)
    requires -1 <= i < |s|
    requires if i < 0 then forall k :: 0 <= k < |s| ==> visit(s[k])
             else !visit(s[i]) && forall k :: 0 <= k < i ==> visit(s[k])
    ensures FirstStop(s, visit) == i
  {
    if s != [] {
      FirstStopIs(s[..|s| - 1], visit, if i < |s| - 1 then i else -1);
    }
  }

  lemma {:induction false} FirstStopMeans<T>(s: seq<T>, visit: T -> bool)
    ensures var i := FirstStop(s, visit);
            if i < 0 then forall k :: 0 <= k < |s| ==> visit(s[k])
            else !visit(s[i]) && forall k :: 0 <= k < i ==> visit(s[k])
  {
    if s != [] {
      FirstStopMeans(s[..|s| - 1], visit);
    }
  }

  // The elements of s in the order they have after a removal or an insertion.
  lemma RemovedAt<T>(s: seq<T>, k: nat)
    requires k < |s|
    ensures |Removed(s, k)| == |s| - 1
    ensures forall i :: 0 <= i < |s| - 1 ==> Removed(s, k)[i] == if i < k then s[i] else s[i + 1]
  {
  }

  predicate Distinct<T(==)>(s: seq<T>) {
    forall i, j :: 0 <= i < j < |s| ==> s[i] != s[j]
  }

  lemma DistinctRemoved<T>(s: seq<T>, k: nat)
    requires k < |s| && Distinct(s)
    ensures Distinct(Removed(s, k))
  {
    RemovedAt(s, k);
  }

  lemma DistinctInserted<T>(s: seq<T>, k: nat, x: T)
    requires k < |s| && Distinct(s) && x !in s
    ensures Distinct(InsertedAfter(s, k, x))
  {
    var r := InsertedAfter(s, k, x);
    forall i, j | 0 <= i < j < |r|
      ensures r[i] != r[j]
    {
      assert r[i] == (if i <= k then s[i] else if i == k + 1 then x else s[i - 1]);
      assert r[j] == (if j <= k then s[j] else if j == k + 1 then x else s[j - 1]);
    }
  }

  lemma InsertedAt<T>(s: seq<T>, k: nat, x: T)
    requires k < |s|
    ensures |InsertedAfter(s, k, x)| == |s| + 1
    ensures forall i :: 0 <= i <= |s| ==>
              InsertedAfter(s, k, x)[i] == if i <= k then s[i] else if i == k + 1 then x else s[i - 1]
  {
  }

  // uint32_t arithmetic on size.
  function Wrap(n: int): nat {
    n % U32
  }

  lemma WrapUp(n: int)
    ensures Wrap(Wrap(n) + 1) == Wrap(n + 1)
  {
  }

  lemma WrapDown(n: int)
    ensures Wrap(Wrap(n) + U32 - 1) == Wrap(n - 1)
  {
  }

  // Linked both ways, from the first to the last.
  ghost predicate Chain<T>(nodes: seq<TinyNode<T>>)
    reads nodes
  {
    && (forall i {:trigger nodes[i].prev} :: 0 <= i < |nodes| ==>
          nodes[i].prev == if i == 0 then null else nodes[i - 1])
    && (forall i {:trigger nodes[i].next} :: 0 <= i < |nodes| ==>
          nodes[i].next == if i == |nodes| - 1 then null else nodes[i + 1])
  }

  // A chain, but for node k that its two neighbours step over.
  ghost predicate ChainBut<T>(nodes: seq<TinyNode<T>>, k: nat)
    reads nodes
  {
    && (forall i {:trigger nodes[i].prev} :: 0 <= i < |nodes| ==>
          nodes[i].prev == if i == k + 1 && k > 0 then nodes[k - 1]
                           else if i == 0 || i == k + 1 then null else nodes[i - 1])
    && (forall i {:trigger nodes[i].next} :: 0 <= i < |nodes| ==>
          nodes[i].next == if i == k - 1 && k + 1 < |nodes| then nodes[k + 1]
                           else if i == |nodes| - 1 || i == k - 1 then null else nodes[i + 1])
  }

  // A chain whose node k goes on to a node outside it, which goes on to the one after k.
  ghost predicate ChainVia<T>(nodes: seq<TinyNode<T>>, k: nat, via: TinyNode<T>)
    requires k < |nodes|
    reads nodes, via
  {
    && via.prev == nodes[k] && via.next == (if k == |nodes| - 1 then null else nodes[k + 1])
    && (forall i {:trigger nodes[i].prev} :: 0 <= i < |nodes| ==>
          nodes[i].prev == if i == k + 1 then via else if i == 0 then null else nodes[i - 1])
    && (forall i {:trigger nodes[i].next} :: 0 <= i < |nodes| ==>
          nodes[i].next == if i == k then via else if i == |nodes| - 1 then null else nodes[i + 1])
  }

  lemma Inserted<T>(nodes: seq<TinyNode<T>>, k: nat, via: TinyNode<T>)
    requires k < |nodes| && ChainVia(nodes, k, via)
    ensures Chain(InsertedAfter(nodes, k, via))
  {
    var r := InsertedAfter(nodes, k, via);
    InsertedAt(nodes, k, via);
    hide InsertedAfter;
    forall i | 0 <= i < |r|
      ensures r[i].next == if i == |r| - 1 then null else r[i + 1]
      ensures r[i].prev == if i == 0 then null else r[i - 1]
    {
      if i != k + 1 {
        var j := if i <= k then i else i - 1;
        assert r[i] == nodes[j];
      }
    }
  }

  // The data of the nodes are those of the sequence.
  ghost predicate Holding<T>(nodes: seq<TinyNode<T>>, contents: seq<T>)
    reads nodes
  {
    |contents| == |nodes| && forall i {:trigger nodes[i].data} :: 0 <= i < |nodes| ==> nodes[i].data == contents[i]
  }

  lemma HoldingInserted<T>(nodes: seq<TinyNode<T>>, contents: seq<T>, k: nat, via: TinyNode<T>)
    requires k < |nodes| && Holding(nodes, contents)
    ensures Holding(InsertedAfter(nodes, k, via), InsertedAfter(contents, k, via.data))
  {
    var r := InsertedAfter(nodes, k, via);
    InsertedAt(nodes, k, via);
    InsertedAt(contents, k, via.data);
    hide InsertedAfter;
    forall i | 0 <= i < |r|
      ensures r[i].data == InsertedAfter(contents, k, via.data)[i]
    {
      if i != k + 1 {
        var j := if i <= k then i else i - 1;
        assert r[i] == nodes[j];
      }
    }
  }

  lemma Bypassed<T>(nodes: seq<TinyNode<T>>, k: nat)
    requires k < |nodes| && ChainBut(nodes, k)
    ensures Chain(Removed(nodes, k))
  {
    RemovedAt(nodes, k);
    hide Removed;
    var r := Removed(nodes, k);
    forall i | 0 <= i < |r|
      ensures r[i].next == if i == |r| - 1 then null else r[i + 1]
      ensures r[i].prev == if i == 0 then null else r[i - 1]
    {
      assert r[i] == nodes[if i < k then i else i + 1];
      assert i > 0 ==> r[i - 1] == nodes[if i <= k then i - 1 else i];
      assert i < |r| - 1 ==> r[i + 1] == nodes[if i + 1 < k then i + 1 else i + 2];
    }
  }

  class TinyList<T> {
    var size: nat
    var first: TinyNode?<T>
    var listening: bool       // a delete listener is set
    ghost var deleted: seq<T>   // the data it was called with
    ghost var nodes: seq<TinyNode<T>>
    ghost var contents: seq<T>
    ghost var leaked: nat

    // The nodes are pairwise different and linked both ways, from first to the last one.
    ghost predicate Linked()
      reads this, nodes
    {
      && Distinct(nodes)
      && first == (if nodes == [] then null else nodes[0])
      && Chain(nodes)
    }

    ghost predicate Valid()
      reads this, nodes
    {
      Counted(0)
    }

    // Valid, but for `extra` nodes that are counted in size and not linked (yet, or any more).
    ghost predicate Counted(extra: nat)
      reads this, nodes
    {
      && Linked()
      && |contents| == |nodes|
      && (forall i {:trigger nodes[i].data} :: 0 <= i < |nodes| ==> nodes[i].data == contents[i])
      && size == Wrap(|contents| + leaked + extra)
    }

    constructor ()
      ensures Valid() && contents == [] && deleted == [] && leaked == 0 && !listening
      ensures nodes == []
    {
      size, first, listening := 0, null, false;
      deleted, nodes, contents, leaked := [], [], [], 0;
    }

    method SetDeleteListener()
      requires Valid()
      modifies this`listening
      ensures Valid() && listening
    {
      listening := true;
    }

    method NewNode(data: T) returns (node: TinyNode<T>)
      modifies this`size
      ensures fresh(node) && node.prev == null && node.next == null && node.data == data
      ensures size == Wrap(old(size) + 1)
    {
      node := new TinyNode(data);
      size := Wrap(size + 1);
    }

    // TinyNode_Delete: tell the listener, free the node, count it off.
    method DeleteNode(node: TinyNode<T>)
      modifies this`size, this`deleted
      ensures size == Wrap(old(size) + U32 - 1)
      ensures deleted == if listening then old(deleted) + [node.data] else old(deleted)
    {
      if listening {
        deleted := deleted + [node.data];
      }
      size := Wrap(size + U32 - 1);
    }

    method GetHead() returns (data: Option<T>)
      requires Valid()
      ensures data == At(contents, 0)
    {
      if first != null {
        data := Some(first.data);
      } else {
        data := None;
      }
    }

    // The walk to the last node that several operations begin with.
    method LastNode() returns (tail: TinyNode<T>, ghost k: nat)
      requires Valid() && first != null
      ensures |nodes| == k + 1 && tail == nodes[k]
    {
      tail, k := first, 0;
      while tail.next != null
        invariant 0 <= k < |nodes| && tail == nodes[k]
        decreases |nodes| - k
      {
        tail, k := tail.next, k + 1;
      }
    }

    method GetTail() returns (data: Option<T>)
      requires Valid()
      ensures data == At(contents, |contents| - 1)
    {
      if first == null {
        return None;
      }
      var tail, k := LastNode();
      data := Some(tail.data);
    }

    method GetTailPosition() returns (i: int)
      requires Valid()
      ensures i == |contents| - 1
    {
      if first == null {
        return -1;
      }
      var tail := first;
      i := 0;
      while tail.next != null
        invariant 0 <= i < |nodes| && tail == nodes[i]
        decreases |nodes| - i
      {
        tail, i := tail.next, i + 1;
      }
    }

    method AddHead(data: T)
      requires Valid()
      modifies this, nodes
      ensures Valid() && contents == [data] + old(contents)
      ensures leaked == old(leaked) && deleted == old(deleted) && listening == old(listening)
      ensures forall n :: n in nodes ==> n in old(nodes) || fresh(n)
    {
      hide Wrap;
      WrapUp(|contents| + leaked);
      var node := NewNode(data);
      var head := first;
      if head != null {
        node.next := head;
        head.prev := node;
      }
      first := node;
      node.prev := null;
      nodes, contents := [node] + nodes, [data] + contents;
    }

    method AddTail(data: T)
      requires Valid()
      modifies this, nodes
      ensures Valid() && contents == old(contents) + [data]
      ensures leaked == old(leaked) && deleted == old(deleted) && listening == old(listening)
      ensures forall n :: n in nodes ==> n in old(nodes) || fresh(n)
    {
      hide Wrap;
      WrapUp(|contents| + leaked);
      if first == null {
        var node := NewNode(data);
        first := node;
        nodes, contents := [node], [data];
        return;
      }
      hide Distinct;
      var tail, k := LastNode();
      var node := NewNode(data);
      Append(tail, node, k);
    }

    method Append(tail: TinyNode<T>, node: TinyNode<T>, ghost k: nat)
      requires Counted(1) && |nodes| == k + 1 && tail == nodes[k]
      requires node !in nodes && node.prev == null && node.next == null
      modifies this`nodes, this`contents, nodes, node
      ensures Valid() && contents == old(contents) + [node.data] && node.data == old(node.data)
      ensures nodes == old(nodes) + [node]
    {
      tail.next := node;
      node.prev := tail;
      nodes, contents := nodes + [node], contents + [node.data];
    }

    method RemoveHead()
      requires Valid()
      modifies this, nodes
      ensures Valid() && contents == Removed(old(contents), 0)
      ensures leaked == old(leaked) && listening == old(listening)
      ensures deleted == if listening && old(contents) != [] then old(deleted) + [old(contents[0])] else old(deleted)
      ensures forall n :: n in nodes ==> n in old(nodes)
    {
      hide Wrap;
      WrapDown(|contents| + leaked);
      if first == null {
        return;
      }
      var head := first;
      first := head.next;
      if head.next != null {
        head.next.prev := null;
      }
      nodes, contents := nodes[1..], contents[1..];
      DeleteNode(head);
    }

    // The pointer assignments that take node number k out of the list.
    method Bypass(node: TinyNode<T>, ghost k: nat)
      requires Linked() && k < |nodes| && node == nodes[k]
      modifies this`first, nodes
      ensures first == if k > 0 then old(first) else if |nodes| == 1 then null else nodes[1]
      ensures ChainBut(nodes, k)
      ensures forall i {:trigger nodes[i].data} :: 0 <= i < |nodes| ==> nodes[i].data == old(nodes[i].data)
    {
      if node.prev == null {
        first := node.next;
        if node.next != null {
          node.next.prev := null;
        }
      } else {
        node.prev.next := node.next;
        if node.next != null {
          node.next.prev := node.prev;
        }
      }
    }

    method Unlink(node: TinyNode<T>, ghost k: nat)
      requires Valid() && k < |nodes| && node == nodes[k]
      modifies this`first, this`nodes, this`contents, nodes
      ensures Counted(1) && contents == Removed(old(contents), k) && nodes == Removed(old(nodes), k)
      ensures node.data == old(node.data)
    {
      RemovedAt(nodes, k);
      RemovedAt(contents, k);
      DistinctRemoved(nodes, k);
      hide Removed, Distinct, Wrap, Chain, ChainBut;
      Bypass(node, k);
      Bypassed(nodes, k);
      nodes, contents := Removed(nodes, k), Removed(contents, k);
    }

    // TinyNode_Delete of a node that is no longer linked.
    method Discard(node: TinyNode<T>)
      requires Counted(1)
      modifies this`size, this`deleted
      ensures Valid()
      ensures deleted == if listening then old(deleted) + [node.data] else old(deleted)
    {
      DeleteNode(node);
    }

    method RemoveTail()
      requires Valid()
      modifies this, nodes
      ensures Valid() && contents == Removed(old(contents), |old(contents)| - 1)
      ensures leaked == old(leaked) && listening == old(listening)
      ensures deleted == if listening && old(contents) != [] then old(deleted) + [old(contents[|contents| - 1])] else old(deleted)
      ensures forall n :: n in nodes ==> n in old(nodes)
    {
      if first == null {
        return;
      }
      hide Chain, Distinct, Wrap;
      var tail, k := LastNode();
      CutTail(tail, k);
      Discard(tail);
    }

    method CutTail(tail: TinyNode<T>, ghost k: nat)
      requires Valid() && |nodes| == k + 1 && tail == nodes[k]
      modifies this`first, this`nodes, this`contents, nodes
      ensures Counted(1) && contents == Removed(old(contents), k) && nodes == Removed(old(nodes), k)
      ensures tail.data == old(tail.data)
    {
      if tail.prev != null {
        tail.prev.next := null;
      } else {
        first := null;
      }
      nodes, contents := nodes[..k], contents[..k];
    }

    method RemoveAt(pos: int) returns (ret: TinyRet)
      requires Valid()
      modifies this, nodes
      ensures Valid() && contents == Removed(old(contents), pos)
      ensures leaked == old(leaked) && listening == old(listening)
      ensures deleted == if listening && 0 <= pos < |old(contents)| then old(deleted) + [old(contents[pos])] else old(deleted)
      ensures forall n :: n in nodes ==> n in old(nodes)
      ensures ret == PositionInvalid  // even after removing a node
    {
      var i, node := 0, first;
      while node != null
        invariant 0 <= i <= |nodes| && node == if i == |nodes| then null else nodes[i]
        invariant unchanged(this) && unchanged(nodes)
        invariant 0 <= pos < |nodes| ==> i <= pos
        decreases |nodes| - i
      {
        if i == pos {
          Unlink(node, i);
          Discard(node);
          break;
        }
        node, i := node.next, i + 1;
      }
      ret := PositionInvalid;
    }

    // The source calls the delete listener here without checking that one is set.
    method SetAt(pos: int, data: T) returns (ret: TinyRet)
      requires Valid() && (0 <= pos < |contents| ==> listening)
      modifies this, nodes
      ensures Valid() && contents == Updated(old(contents), pos, data)
      ensures leaked == old(leaked) && listening == old(listening) && nodes == old(nodes)
      ensures deleted == if 0 <= pos < |old(contents)| then old(deleted) + [old(contents[pos])] else old(deleted)
      ensures ret == PositionInvalid  // even after replacing the data
    {
      var i, node := 0, first;
      if node == null {
        return PositionInvalid;
      }
      while node != null
        invariant 0 <= i <= |nodes| && node == if i == |nodes| then null else nodes[i]
        invariant unchanged(this) && unchanged(nodes)
        invariant 0 <= pos < |nodes| ==> i <= pos
        decreases |nodes| - i
      {
        if i == pos {
          deleted := deleted + [node.data];
          node.data := data;
          contents := contents[pos := data];
          break;
        }
        node, i := node.next, i + 1;
      }
      ret := PositionInvalid;
    }

    /** Past the end of a list that is not empty, the new node is counted and never linked. */
    method InsertAfter(pos: int, data: T) returns (ret: TinyRet)
      requires Valid()
      modifies this, nodes
      ensures Valid() && contents == InsertedAfter(old(contents), pos, data)
      ensures leaked == old(leaked) + if old(contents) != [] && !(0 <= pos < |old(contents)|) then 1 else 0
      ensures deleted == old(deleted) && listening == old(listening)
      ensures forall n :: n in nodes ==> n in old(nodes) || fresh(n)
      ensures ret == if 0 <= pos < |old(contents)| then RetOk else PositionInvalid
    {
      if first == null {
        return PositionInvalid;
      }
      var newNode := NewNode(data);
      var i, node := 0, first;
      while node != null
        invariant 0 <= i <= |nodes| && node == if i == |nodes| then null else nodes[i]
        invariant newNode !in nodes && fresh(newNode) && newNode.data == data
        invariant newNode.prev == null && newNode.next == null
        invariant Counted(1) && unchanged(nodes) && unchanged(`nodes) && unchanged(`contents) && unchanged(`leaked)
        invariant unchanged(`deleted) && unchanged(`listening)
        invariant 0 <= pos < |nodes| ==> i <= pos
        decreases |nodes| - i
      {
        if i == pos {
          LinkAfter(node, newNode, i);
          return RetOk;
        }
        node, i := node.next, i + 1;
      }
      leaked := leaked + 1;
      ret := PositionInvalid;
    }

    method LinkAfter(node: TinyNode<T>, newNode: TinyNode<T>, ghost k: nat)
      requires Counted(1) && k < |nodes| && node == nodes[k] && newNode !in nodes
      modifies this`nodes, this`contents, nodes, newNode
      ensures Valid() && contents == InsertedAfter(old(contents), k, newNode.data)
      ensures nodes == InsertedAfter(old(nodes), k, newNode)
      ensures newNode.data == old(newNode.data)
    {
      DistinctInserted(nodes, k, newNode);
      InsertedAt(nodes, k, newNode);
      Splice(node, newNode, k);
      Inserted(nodes, k, newNode);
      HoldingInserted(nodes, contents, k, newNode);
      hide InsertedAfter, Distinct, Chain, Wrap;
      nodes, contents := InsertedAfter(nodes, k, newNode), InsertedAfter(contents, k, newNode.data);
    }

    // The four pointers that make newNode the one after node.
    method Splice(node: TinyNode<T>, newNode: TinyNode<T>, ghost k: nat)
      requires Linked() && k < |nodes| && node == nodes[k] && newNode !in nodes
      modifies nodes, newNode
      ensures ChainVia(nodes, k, newNode) && newNode.data == old(newNode.data)
      ensures forall i {:trigger nodes[i].data} :: 0 <= i < |nodes| ==> nodes[i].data == old(nodes[i].data)
    {
      newNode.prev := node;
      newNode.next := node.next;
      if node.next != null {
        node.next.prev := newNode;
      }
      node.next := newNode;
    }

    method InsertBefore(pos: int, data: T) returns (ret: TinyRet)
      requires Valid()
      modifies this, nodes
      ensures Valid()
      ensures contents == if pos == 0 then [data] + old(contents) else InsertedAfter(old(contents), pos - 1, data)
      ensures leaked == old(leaked) + if pos != 0 && old(contents) != [] && !(0 < pos <= |old(contents)|) then 1 else 0
      ensures deleted == old(deleted) && listening == old(listening)
      ensures forall n :: n in nodes ==> n in old(nodes) || fresh(n)
      ensures ret == if pos == 0 || 0 < pos <= |old(contents)| then RetOk else PositionInvalid
    {
      if pos == 0 {
        AddHead(data);
        return RetOk;
      }
      ret := InsertAfter(pos - 1, data);
    }

    method GetAt(pos: int) returns (data: Option<T>)
      requires Valid()
      ensures data == At(contents, pos)
    {
      data := None;
      var i, node := 0, first;
      while node != null
        invariant 0 <= i <= |nodes| && node == if i == |nodes| then null else nodes[i]
        invariant data == if i <= pos then None else At(contents, pos)
        decreases |nodes| - i
      {
        if i == pos {
          data := Some(node.data);
        }
        node, i := node.next, i + 1;
      }
    }

    method GetNext(pos: int) returns (data: Option<T>)
      requires Valid()
      ensures data == At(contents, pos + 1)
    {
      data := GetAt(pos + 1);
    }

    method GetPrev(pos: int) returns (data: Option<T>)
      requires Valid()
      ensures data == At(contents, pos - 1)
    {
      data := GetAt(pos - 1);
    }

    // The position of the first datum the visitor stops at, or -1.
    method Foreach(visit: T -> bool) returns (i: int)
      requires Valid()
      ensures i == FirstStop(contents, visit)
    {
      i := 0;
      var iter := first;
      while true
        invariant 0 <= i <= |nodes| && iter == if i == |nodes| then null else nodes[i]
        invariant forall k :: 0 <= k < i ==> visit(contents[k])
        decreases |nodes| - i
      {
        if iter == null {
          FirstStopIs(contents, visit, -1);
          return -1;
        }
        if !visit(iter.data) {
          FirstStopIs(contents, visit, i);
          return;
        }
        iter, i := iter.next, i + 1;
      }
    }

    method GetCount() returns (count: nat)
      requires Valid()
      ensures count == Wrap(|contents| + leaked)
    {
      count := size;
    }

    method IsEmpty() returns (empty: bool)
      requires Valid()
      ensures empty <==> contents == []
    {
      empty := first == null;
    }

    method RemoveAll()
      requires Valid()
      modifies this
      ensures Valid() && contents == []
      ensures leaked == old(leaked) && listening == old(listening)
      ensures deleted == if listening then old(deleted) + old(contents) else old(deleted)
      ensures nodes == []
    {
      if first == null {
        return;
      }
      var iter := first;
      ghost var all, data := nodes, contents;
      first, nodes, contents := null, [], [];
      DeleteFrom(iter, all, data);
    }

    // Walk the chain that is no longer linked to the list, deleting every node.
    method DeleteFrom(start: TinyNode<T>, ghost all: seq<TinyNode<T>>, ghost data: seq<T>)
      requires |all| == |data| > 0 && start == all[0] && size == Wrap(|all| + leaked)
      requires forall j {:trigger all[j].next} :: 0 <= j < |all| ==> all[j].next == if j == |all| - 1 then null else all[j + 1]
      requires forall j :: 0 <= j < |all| ==> all[j].data == data[j]
      modifies this`size, this`deleted
      ensures size == Wrap(leaked)
      ensures deleted == if listening then old(deleted) + data else old(deleted)
    {
      hide Wrap;
      var iter: TinyNode?<T> := start;
      ghost var i := 0;
      while iter != null
        invariant 0 <= i <= |all| && iter == if i == |all| then null else all[i]
        invariant size == Wrap(|all| - i + leaked)
        invariant deleted == if listening then old(deleted) + data[..i] else old(deleted)
        decreases |all| - i
      {
        assert data[..i + 1] == data[..i] + [data[i]];
        WrapDown(|all| - i + leaked);
        var remove := iter;
        iter := iter.next;
        DeleteNode(remove);
        i := i + 1;
      }
      assert data[..i] == data;
    }
  }
}
