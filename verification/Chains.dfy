/** Singly linked lists as libril keeps them: nodes with a `p_next`, entered at the head, left from
    anywhere. */
module Chains {

  class Node<T> {
    var item: T
    var pNext: Node?<T>

    constructor (item: T, pNext: Node?<T>)
      ensures this.item == item && this.pNext == pNext
    {
      this.item, this.pNext := item, pNext;
    }
  }

  ghost function At<T>(chain: seq<Node<T>>, i: nat): Node?<T> {
    if i < |chain| then chain[i] else null
  }

  /** `head` leads through exactly these nodes to null. */
  ghost predicate Chained<T>(head: Node?<T>, chain: seq<Node<T>>)
    reads chain`pNext
  {
    && head == At(chain, 0)
    && (forall i {:trigger chain[i].pNext} :: 0 <= i < |chain| ==> chain[i].pNext == At(chain, i + 1))
    && forall i, j :: 0 <= i < j < |chain| ==> chain[i] != chain[j]
  }

  ghost predicate Carries<T>(chain: seq<Node<T>>, items: seq<T>)
    reads chain`item
  {
    |chain| == |items| && forall i :: 0 <= i < |chain| ==> chain[i].item == items[i]
  }

  /** `head` is a list of these items, held by these nodes. */
  ghost predicate Linked<T>(head: Node?<T>, chain: seq<Node<T>>, items: seq<T>)
    reads chain
  {
    Chained(head, chain) && Carries(chain, items)
  }

  function Without<T>(s: seq<T>, i: nat): seq<T>
    requires i < |s|
  {
    s[..i] + s[i + 1..]
  }

  lemma WithoutAt<T>(s: seq<T>, i: nat, j: nat)
    requires i < |s| && j < |s| - 1
    ensures Without(s, i)[j] == s[if j < i then j else j + 1]
  {
  }

  /** *ppCur = (*ppCur)->p_next, where `ppCur` is the link of `prev`, or the head when that is null. */
  method Unlink<T>(head: Node?<T>, prev: Node?<T>, cur: Node<T>, ghost chain: seq<Node<T>>, ghost items: seq<T>, ghost i: nat)
    returns (newHead: Node?<T>)
    requires Linked(head, chain, items) && i < |chain| && cur == chain[i]
    requires prev == if i == 0 then null else chain[i - 1]
    modifies chain`pNext
    ensures Linked(newHead, Without(chain, i), Without(items, i))
  {
    newHead := head;
    assert chain[i].pNext == At(chain, i + 1);
    if prev == null {
      newHead := cur.pNext;
    } else {
      prev.pNext := cur.pNext;
    }
    forall j | 0 <= j < |chain| - 1
      ensures Without(chain, i)[j] == chain[if j < i then j else j + 1]
      ensures Without(items, i)[j] == items[if j < i then j else j + 1]
    {
      WithoutAt(chain, i, j);
      WithoutAt(items, i, j);
    }
  }
}
