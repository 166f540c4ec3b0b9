/** Ril_queue on the heap, and the SAP socket's two queues on it. Each method is what one thread does while it
    holds the queue's mutex. */
module SapQueue {
  import opened Chains
  import opened SapSocket

  // SapSocketRequest, with the serial number of the header it carries
  datatype Entry = Entry(key: Key, serial: nat)

  class RilQueue {
    var front: Node?<Entry>
    ghost var chain: seq<Node<Entry>>
    ghost var items: seq<Entry>

    ghost predicate Valid()
      reads this, chain
    {
      Linked(front, chain, items)
    }

    constructor ()
      ensures Valid() && items == [] && chain == []
    {
      front, chain, items := null, [], [];
    }

    method Empty() returns (empty: bool)
      requires Valid()
      ensures empty <==> items == []
    {
      empty := front == null;
    }

    /** enqueue: at the front */
    method Enqueue(request: Entry)
      requires Valid()
      modifies this
      ensures Valid() && items == [request] + old(items) && fresh(set n | n in chain && n !in old(chain))
    {
      var node: Node<Entry>;
      if front == null {
        node := new Node(request, null);
      } else {
        node := new Node(request, front);
      }
      front := node;
      chain := [node] + chain;
      items := [request] + items;
    }

    /** dequeue: from the front, once its wait for a request is over */
    method Dequeue() returns (request: Entry)
      requires Valid() && items != []
      modifies this
      ensures Valid() && request == old(items)[0] && items == old(items)[1..] && chain == old(chain)[1..]
    {
      assert chain[0].pNext == At(chain, 1);
      request := front.item;
      if front.pNext != null {
        front := front.pNext;
      } else {
        front := null;
      }
      chain := chain[1..];
      items := items[1..];
    }

    /** The place of the first request with a key, or the length. */
    static ghost predicate IsFirst(q: seq<Entry>, key: Key, i: nat) {
      && i <= |q| && (i < |q| ==> q[i].key == key)
      && forall j :: 0 <= j < i ==> q[j].key != key
    }

    /** checkAndDequeue; `prev` is the node whose link `ppCur` points to, null for the front. */
    method CheckAndDequeue(key: Key) returns (ret: bool, ghost i: nat)
      requires Valid()
      modifies this, chain`pNext
      ensures Valid() && IsFirst(old(items), key, i) && ret == (i < |old(items)|)
      ensures items == if ret then Without(old(items), i) else old(items)
      ensures forall n :: n in chain ==> n in old(chain)
    {
      var prev: Node?<Entry> := null;
      var cur := front;
      i := 0;
      while cur != null && cur.item.key != key
        invariant i <= |chain| && cur == At(chain, i) && prev == if i == 0 then null else chain[i - 1]
        invariant forall j :: 0 <= j < i ==> items[j].key != key
        decreases |chain| - i
      {
        assert chain[i].pNext == At(chain, i + 1);
        prev := cur;
        cur := cur.pNext;
        i := i + 1;
      }
      ret := cur != null;
      if ret {
        front := Unlink(front, prev, cur, chain, items, i);
        chain := Without(chain, i);
        items := Without(items, i);
      }
    }
  }

  ghost function SerialsOf(items: seq<Entry>): (r: seq<nat>)
    ensures |r| == |items| && forall i :: 0 <= i < |r| ==> r[i] == items[i].serial
  {
    seq(|items|, i requires 0 <= i < |items| => items[i].serial)
  }

  ghost predicate Keyed(items: seq<Entry>, keys: seq<Key>) {
    forall i :: 0 <= i < |items| ==> items[i].serial < |keys| && keys[items[i].serial] == items[i].key
  }

  lemma KeyedWithout(items: seq<Entry>, keys: seq<Key>, i: nat)
    requires Keyed(items, keys) && i < |items|
    ensures Keyed(Without(items, i), keys) && SerialsOf(Without(items, i)) == Without(SerialsOf(items), i)
  {
  }

  class RilSapSocket {
    const dispatchQueue: RilQueue
    const pendingResponseQueue: RilQueue
    ghost var s: Sap

    ghost predicate Apart()
      reads dispatchQueue`chain, pendingResponseQueue`chain
    {
      && dispatchQueue != pendingResponseQueue
      && forall n :: n in dispatchQueue.chain ==> n !in pendingResponseQueue.chain
    }

    ghost predicate QueuesValid()
      reads dispatchQueue, pendingResponseQueue, dispatchQueue.chain, pendingResponseQueue.chain
    {
      Apart() && dispatchQueue.Valid() && pendingResponseQueue.Valid()
    }

    /** The queues hold what the state says. */
    ghost predicate Valid()
      reads this, dispatchQueue, pendingResponseQueue, dispatchQueue.chain, pendingResponseQueue.chain
    {
      && QueuesValid()
      && SerialsOf(dispatchQueue.items) == s.dispatch && Keyed(dispatchQueue.items, s.keys)
      && SerialsOf(pendingResponseQueue.items) == s.pending && Keyed(pendingResponseQueue.items, s.keys)
    }

    constructor ()
      ensures Valid() && s == EMPTY
    {
      dispatchQueue := new RilQueue();
      pendingResponseQueue := new RilQueue();
      s := EMPTY;
    }

    /** pushRecord, of a record that decodes to a header with this id and token */
    method PushRecord(key: Key, serial: nat)
      requires Valid() && serial == |s.keys|
      modifies this`s, dispatchQueue
      ensures Valid() && s == Next(old(s), Push(key))
    {
      dispatchQueue.Enqueue(Entry(key, serial));
      s := s.(dispatch := [serial] + s.dispatch, keys := s.keys + [key]);
    }

    /** processRequestsLoop, thread `i`: it gets a request */
    method TakeRequest(ghost i: nat) returns (request: Entry)
      requires Valid() && Enabled(s, Take(i))
      modifies this`s, dispatchQueue
      ensures Valid() && s == Next(old(s), Take(i)) && s.threads[i] == Holding(request.serial)
      ensures request.serial < |s.keys| && s.keys[request.serial] == request.key
    {
      request := dispatchQueue.Dequeue();
      assert request.serial == s.dispatch[0];
      s := s.(dispatch := s.dispatch[1..], threads := s.threads[i := Holding(s.dispatch[0])]);
    }

    /** dispatchRequest, thread `i`: the request pends before it is asked for */
    method FileRequest(ghost i: nat, request: Entry)
      requires Valid() && i < |s.threads| && s.threads[i] == Holding(request.serial)
      requires request.serial < |s.keys| && s.keys[request.serial] == request.key
      modifies this`s, pendingResponseQueue
      ensures Valid() && s == Next(old(s), File(i))
    {
      pendingResponseQueue.Enqueue(request);
      s := s.(pending := [request.serial] + s.pending, threads := s.threads[i := Filed(request.serial)]);
    }


    /** onRequestComplete: the request leaves the pending queue, and the other queue does not notice */
    method Unpend(key: Key) returns (found: bool, ghost i: nat)
      requires QueuesValid()
      modifies pendingResponseQueue, pendingResponseQueue.chain`pNext
      ensures QueuesValid() && dispatchQueue.items == old(dispatchQueue.items)
      ensures RilQueue.IsFirst(old(pendingResponseQueue.items), key, i) && found == (i < |old(pendingResponseQueue.items)|)
      ensures pendingResponseQueue.items ==
        if found then Without(old(pendingResponseQueue.items), i) else old(pendingResponseQueue.items)
    {
      ghost var chain := dispatchQueue.chain;
      assert forall j :: 0 <= j < |chain| ==> chain[j] in chain && chain[j] !in pendingResponseQueue.chain;
      found, i := pendingResponseQueue.CheckAndDequeue(key);
      assert forall j {:trigger chain[j].pNext} {:trigger chain[j].item} :: 0 <= j < |chain| ==>
          chain[j].pNext == old(chain[j].pNext) && chain[j].item == old(chain[j].item);
    }

    /** onRequestComplete; `found` is what checkAndDequeue answers */
    method OnRequestComplete(request: Entry) returns (found: bool)
      requires Valid() && Enabled(s, Complete(request.serial)) && s.keys[request.serial] == request.key
      modifies this`s, pendingResponseQueue, pendingResponseQueue.chain`pNext
      ensures Valid() && Known(old(s), old(s).pending) && s == Next(old(s), Complete(request.serial))
    {
      ghost var was := pendingResponseQueue.items;
      ghost var i;
      found, i := Unpend(request.key);
      PlaceIs(was, request.key, i);
      if found {
        KeyedWithout(was, s.keys, i);
      }
      s := s.(pending := if found then Without(s.pending, i) else s.pending, done := s.done + [request.serial]);
    }

    lemma PlaceIs(items: seq<Entry>, key: Key, i: nat)
      requires SerialsOf(items) == s.pending && Keyed(items, s.keys) && RilQueue.IsFirst(items, key, i)
      ensures Known(s, s.pending) && FirstWith(s, s.pending, key) == i
    {
      assert forall j :: 0 <= j < |s.pending| ==> s.pending[j] == items[j].serial;
      var f := FirstWith(s, s.pending, key);
      assert f < |items| ==> items[f].key == key;
      assert i < |items| ==> s.keys[s.pending[i]] == key;
    }
  }
}
