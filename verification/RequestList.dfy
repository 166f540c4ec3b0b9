/** The pending requests of ril.cpp on the heap: the list headed by `s_pendingRequests`. */
module RequestList {
  import opened Chains
  import opened EventModel
  import opened Rild

  /** A response as it goes out: after the word for "solicited". */
  datatype Reply = Reply(token: int, error: Errno)

  // RequestInfo, with the address it is at
  datatype RequestInfo = RequestInfo(addr: nat, token: int, local: bool, cancelled: bool)

  ghost function InfoOf(q: Request): RequestInfo {
    RequestInfo(q.addr, q.token, q.local, q.cancelled)
  }

  ghost function Infos(pending: seq<Request>): (r: seq<RequestInfo>)
    ensures |r| == |pending| && forall i :: 0 <= i < |r| ==> r[i] == InfoOf(pending[i])
  {
    seq(|pending|, i requires 0 <= i < |pending| => InfoOf(pending[i]))
  }

  lemma InfosWithout(pending: seq<Request>, i: nat)
    requires i < |pending|
    ensures Without(Infos(pending), i) == Infos(Without(pending, i))
  {
  }

  class PendingRequests {
    var head: Node?<RequestInfo>       // s_pendingRequests
    ghost var chain: seq<Node<RequestInfo>>
    ghost var g: Ledger

    ghost predicate Valid()
      reads this, chain
    {
      Linked(head, chain, Infos(g.pending))
    }

    constructor ()
      ensures Valid() && g == Ledger([], 0, {}, [], {})
    {
      head, chain, g := null, [], Ledger([], 0, {}, [], {});
    }

    /** processCommandBuffer and issueLocalRequest: a request at address `addr` enters at the head. */
    method Enter(addr: nat, token: int, local: bool, ghost link: Link) returns (pRI: Node<RequestInfo>)
      requires Valid()
      modifies this
      ensures Valid() && g == Rild.Enter(old(g), link, addr, token, local)
      ensures fresh(pRI) && chain == [pRI] + old(chain)
    {
      pRI := new Node(RequestInfo(addr, token, local, false), head);
      head := pRI;
      chain := [pRI] + chain;
      g := Rild.Enter(g, link, addr, token, local);
    }

    /** onCommandsSocketClosed */
    method CancelAll()
      requires Valid()
      modifies this`g, chain`item
      ensures Valid() && g == Rild.CancelAll(old(g))
    {
      var cur := head;
      ghost var i := 0;
      while cur != null
        invariant g == old(g) && chain == old(chain) && i <= |chain| && cur == At(chain, i) && Chained(head, chain)
        invariant |chain| == |g.pending|
        invariant forall j :: 0 <= j < |chain| ==>
          chain[j].item == InfoOf(if j < i then g.pending[j].(cancelled := true) else g.pending[j])
        decreases |chain| - i
      {
        assert chain[i].pNext == At(chain, i + 1);
        cur.item := cur.item.(cancelled := true);
        cur := cur.pNext;
        i := i + 1;
      }
      g := Rild.CancelAll(g);
    }

    lemma IndexOfIs(pending: seq<Request>, addr: nat, i: nat)
      requires i <= |pending| && (forall j :: 0 <= j < i ==> pending[j].addr != addr)
      requires i < |pending| ==> pending[i].addr == addr
      ensures IndexOf(pending, addr) == i
    {
    }

    /** checkAndDequeueRequestInfo: its walk; `prev` is the node whose link `ppCur` points to, null for the head. */
    method Find(addr: nat) returns (prev: Node?<RequestInfo>, found: Node?<RequestInfo>)
      requires Valid()
      ensures var i := IndexOf(g.pending, addr);
        found == At(chain, i) && prev == if i == 0 then null else chain[i - 1]
    {
      prev, found := null, head;
      ghost var i := 0;
      while found != null && found.item.addr != addr
        invariant i <= |chain| && found == At(chain, i) && prev == if i == 0 then null else chain[i - 1]
        invariant forall j :: 0 <= j < i ==> g.pending[j].addr != addr
        decreases |chain| - i
      {
        assert chain[i].pNext == At(chain, i + 1);
        prev := found;
        found := found.pNext;
        i := i + 1;
      }
      IndexOfIs(g.pending, addr, i);
    }

    /** checkAndDequeueRequestInfo */
    method CheckAndDequeue(addr: nat) returns (found: Node?<RequestInfo>)
      requires Valid()
      modifies this, chain`pNext
      ensures Valid()
      ensures var i := IndexOf(old(g).pending, addr);
        if i == |old(g).pending| then found == null && g == old(g)
        else found == old(chain)[i] && g == old(g).(pending := Without(old(g).pending, i))
    {
      var prev;
      prev, found := Find(addr);
      if found != null {
        Dequeue(prev, found, IndexOf(g.pending, addr));
      }
    }

    /** checkAndDequeueRequestInfo: what it does to the list */
    method Dequeue(prev: Node?<RequestInfo>, cur: Node<RequestInfo>, ghost i: nat)
      requires Valid() && i < |chain| && cur == chain[i] && prev == if i == 0 then null else chain[i - 1]
      modifies this, chain`pNext
      ensures Valid() && g == old(g).(pending := Without(old(g).pending, i))
    {
      InfosWithout(g.pending, i);
      head := Unlink(head, prev, cur, chain, Infos(g.pending), i);
      chain := Without(chain, i);
      g := g.(pending := Without(g.pending, i));
    }

    /** RIL_onRequestComplete: what is sent about the request `q` that was just taken off the list */
    method Answer(info: RequestInfo, error: Errno, fits: bool, fdCommand: int, ghost q: Request, ghost link: Link)
      returns (answer: Option<Reply>)
      requires Valid() && info == InfoOf(q) && fdCommand == link.fdCommand
      modifies this`g
      ensures Valid()
      ensures answer.Some? <==> !q.local && !q.cancelled && link.fdCommand >= 0 && fits
      ensures answer.None? ==> g == old(g)
      ensures answer.Some? ==>
          answer.value == Reply(q.token, error) &&
          g == old(g).(responses := old(g).responses + [Response(link.conn, q.token, Some(q.serial), error)])
    {
      answer := None;
      if !info.local && !info.cancelled && fdCommand >= 0 && fits {
        answer := Some(Reply(info.token, error));
        g := g.(responses := g.responses + [Response(link.conn, q.token, Some(q.serial), error)]);
      }
    }

    /** RIL_onRequestComplete; `answer` is what it sends to telephony */
    method OnRequestComplete(addr: nat, error: Errno, fits: bool, fdCommand: int, ghost link: Link)
      returns (answer: Option<Reply>)
      requires Valid() && fdCommand == link.fdCommand
      modifies this, chain`pNext
      ensures Valid() && g == Rild.OnRequestComplete(old(g), link, addr, error, fits)
      ensures answer.Some? <==> g.responses != old(g).responses
      ensures answer.Some? ==> answer.value == Reply(g.responses[|g.responses| - 1].token, error)
    {
      answer := None;
      var pRI := CheckAndDequeue(addr);
      if pRI != null {
        ghost var i := IndexOf(old(g).pending, addr);
        answer := Answer(pRI.item, error, fits, fdCommand, old(g).pending[i], link);
      }
    }
  }
}
