/** The circular doubly linked lists of ril_event.cpp: a sentinel and the events linked to it. */
module EventLists {
  import opened Time
  import opened EventModel
  import opened Sequences

  class Event {
    var next: Event?
    var prev: Event?
    var fd: int
    var index: int
    var persist: bool
    var timeout: TimeVal
    var func: int
    var param: int

    // init_list: a sentinel linked to itself
    constructor Sentinel()
      ensures Ring(this, []) && timeout == ZERO
    {
      fd, index, persist, timeout, func, param := -1, 0, false, ZERO, 0, 0;
      new;
      next, prev := this, this;
    }

    /** A ring stays one while the links of its elements do not change. */
    twostate lemma RingKept(s: seq<Event>)
      requires old(Ring(this, s))
      requires next == old(next) && prev == old(prev)
      requires forall i :: 0 <= i < |s| ==> s[i].next == old(s[i].next) && s[i].prev == old(s[i].prev)
      ensures Ring(this, s)
    {
      var c := Cycle(this, s);
      forall i | 0 <= i < |c|
        ensures c[i].next == old(c[i].next) && c[i].prev == old(c[i].prev)
      {
        assert 1 <= i <= |s| ==> c[i] == s[i - 1];
      }
    }

    ghost predicate Is(rec: Rec)
      reads this`fd, this`index, this`persist, this`timeout, this`func, this`param
    {
      && fd == rec.fd && index == rec.index && persist == rec.persist
      && timeout == rec.timeout && func == rec.func && param == rec.param
    }
  }

  /** The events of a list with its sentinel at both ends. */
  ghost function Cycle(h: Event, s: seq<Event>): (c: seq<Event>)
    ensures |c| == |s| + 2 && c[0] == h && c[|s| + 1] == h
    ensures forall i :: 0 <= i < |s| ==> c[i + 1] == s[i]
  {
    [h] + s + [h]
  }

  /** The events linked from sentinel `h` are those of `s`, in order, both ways round. */
  ghost predicate Ring(h: Event, s: seq<Event>)
    reads {h}`next, {h}`prev, (set e | e in s)`next, (set e | e in s)`prev
  {
    && h !in s && Distinct(s)
    && var c := Cycle(h, s);
       assert forall i :: 0 <= i < |c| ==> c[i] == h || c[i] in s;
       && (forall i {:trigger c[i].next} :: 0 <= i <= |s| ==> c[i].next == c[i + 1])
       && (forall i {:trigger c[i].prev} :: 1 <= i <= |s| + 1 ==> c[i].prev == c[i - 1])
  }

  /** Two lists that share nothing. */
  ghost predicate Apart(h: Event, s: seq<Event>, h': Event, s': seq<Event>) {
    h != h' && h !in s' && h' !in s && forall e :: e in s ==> e !in s'
  }

  /** addToList: links `ev` in front of `list`, the element at position `k`. */
  method AddToList(ev: Event, list: Event, ghost h: Event, ghost s: seq<Event>, ghost k: nat,
                   ghost other: Event, ghost others: seq<Event>)
    requires Ring(h, s) && k <= |s| && list == Cycle(h, s)[k + 1] && ev != h && ev !in s
    requires Ring(other, others) && Apart(h, s, other, others) && ev != other && ev !in others
    modifies ev`next, ev`prev, list`prev, {Cycle(h, s)[k]}`next
    ensures Ring(h, s[..k] + [ev] + s[k..]) && Ring(other, others)
  {
    ghost var c := Cycle(h, s);
    NextOthers(h, s, k);
    PrevOthers(h, s, k + 1);
    ev.next := list;
    ev.prev := list.prev;
    ev.prev.next := ev;
    list.prev := ev;
    NewMember(h, s, ev);
    Linked(h, s, k, ev);
    CycleApart(h, s, other, others);
    other.RingKept(others);
  }

  /** removeFromList: unlinks the element at position `k`, which leaves `rest`. */
  method RemoveFromList(ev: Event, ghost h: Event, ghost s: seq<Event>, ghost k: nat, ghost rest: seq<Event>,
                        ghost other: Event, ghost others: seq<Event>)
    requires Ring(h, s) && k < |s| && ev == s[k] && rest == s[..k] + s[k + 1..]
    requires Ring(other, others) && Apart(h, s, other, others)
    modifies ev`next, ev`prev, {Cycle(h, s)[k + 2]}`prev, {Cycle(h, s)[k]}`next
    ensures Ring(h, rest) && Ring(other, others)
    ensures ev.next == null && ev.prev == null
  {
    ghost var c := Cycle(h, s);
    NextOthers(h, s, k);
    NextOthers(h, s, k + 1);
    PrevOthers(h, s, k + 1);
    PrevOthers(h, s, k + 2);
    assert c[k + 1].next == c[k + 2] && c[k + 1].prev == c[k];
    ev.next.prev := ev.prev;
    ev.prev.next := ev.next;
    ev.next := null;
    ev.prev := null;
    Unlinked(h, s, k);
    CycleApart(h, s, other, others);
    other.RingKept(others);
  }

  lemma CycleApart(h: Event, s: seq<Event>, other: Event, others: seq<Event>)
    requires Apart(h, s, other, others)
    ensures forall i :: 0 <= i <= |s| + 1 ==> Cycle(h, s)[i] != other
    ensures forall i, j :: 0 <= i <= |s| + 1 && 0 <= j < |others| ==> Cycle(h, s)[i] != others[j]
  {
    var c := Cycle(h, s);
    forall i, j | 0 <= i <= |s| + 1 && 0 <= j < |others|
      ensures c[i] != others[j]
    {
      assert others[j] in others;
      assert 1 <= i <= |s| ==> c[i] == s[i - 1] && s[i - 1] in s;
    }
    assert forall i :: 1 <= i <= |s| ==> c[i] == s[i - 1] && s[i - 1] in s;
  }

  lemma NewMember(h: Event, s: seq<Event>, ev: Event)
    requires ev != h && ev !in s
    ensures forall i :: 0 <= i <= |s| + 1 ==> Cycle(h, s)[i] != ev
  {
  }

  /** The links of a ring with `ev` between the elements at `k` and `k + 1` of its cycle. */
  lemma Linked(h: Event, s: seq<Event>, k: nat, ev: Event)
    requires h !in s && ev != h && ev !in s && Distinct(s) && k <= |s|
    requires var c := Cycle(h, s);
             && ev.next == c[k + 1] && ev.prev == c[k] && c[k].next == ev && c[k + 1].prev == ev
             && (forall i {:trigger c[i].next} :: 0 <= i <= |s| && i != k ==> c[i].next == c[i + 1])
             && (forall i {:trigger c[i].prev} :: 1 <= i <= |s| + 1 && i != k + 1 ==> c[i].prev == c[i - 1])
    ensures Ring(h, s[..k] + [ev] + s[k..])
  {
    var c, d := Cycle(h, s), Cycle(h, s[..k] + [ev] + s[k..]);
    CycleInsert(h, s, k, ev);
    forall i | 0 <= i <= |s| + 1
      ensures d[i].next == d[i + 1]
    {
      assert i < k ==> c[i].next == c[i + 1];
      assert i > k + 1 ==> c[i - 1].next == c[i];
    }
    forall i | 1 <= i <= |s| + 2
      ensures d[i].prev == d[i - 1]
    {
      assert i <= k ==> c[i].prev == c[i - 1];
      assert i > k + 2 ==> c[i - 1].prev == c[i - 2];
    }
  }

  /** The links of a ring once the element at `k` has been bypassed. */
  lemma Unlinked(h: Event, s: seq<Event>, k: nat)
    requires h !in s && Distinct(s) && k < |s|
    requires var c := Cycle(h, s);
             && c[k].next == c[k + 2] && c[k + 2].prev == c[k]
             && (forall i {:trigger c[i].next} :: 0 <= i <= |s| && i != k && i != k + 1 ==> c[i].next == c[i + 1])
             && (forall i {:trigger c[i].prev} :: 1 <= i <= |s| + 1 && i != k + 1 && i != k + 2 ==> c[i].prev == c[i - 1])
    ensures Ring(h, s[..k] + s[k + 1..])
  {
    var c, d := Cycle(h, s), Cycle(h, s[..k] + s[k + 1..]);
    CycleRemove(h, s, k);
    forall i | 0 <= i <= |s| - 1
      ensures d[i].next == d[i + 1]
    {
      assert i < k ==> c[i].next == c[i + 1];
      assert i > k ==> c[i + 1].next == c[i + 2];
    }
    forall i | 1 <= i <= |s|
      ensures d[i].prev == d[i - 1]
    {
      assert i <= k ==> c[i].prev == c[i - 1];
      assert i > k + 1 ==> c[i + 1].prev == c[i];
    }
  }

  lemma CycleInsert(h: Event, s: seq<Event>, k: nat, ev: Event)
    requires k <= |s| && ev != h && h !in s && ev !in s && Distinct(s)
    ensures var c, d := Cycle(h, s), Cycle(h, s[..k] + [ev] + s[k..]);
            && (forall i :: 0 <= i < |d| ==> d[i] == if i <= k then c[i] else if i == k + 1 then ev else c[i - 1])
    ensures Distinct(s[..k] + [ev] + s[k..]) && h !in s[..k] + [ev] + s[k..]
  {
    InsertKeepsDistinct(h, s, k, ev);
    var t := s[..k] + [ev] + s[k..];
    forall i | 0 <= i < |s| + 3
      ensures Cycle(h, t)[i] == if i <= k then Cycle(h, s)[i] else if i == k + 1 then ev else Cycle(h, s)[i - 1]
    {
      CycleInsertAt(h, s, k, ev, i);
    }
  }

  lemma CycleInsertAt(h: Event, s: seq<Event>, k: nat, ev: Event, i: nat)
    requires k <= |s| && i < |s| + 3
    ensures Cycle(h, s[..k] + [ev] + s[k..])[i] ==
            if i <= k then Cycle(h, s)[i] else if i == k + 1 then ev else Cycle(h, s)[i - 1]
  {
    var t := s[..k] + [ev] + s[k..];
    if 0 < i <= |t| {
      InsertAt(s, k, ev, i - 1);
      assert Cycle(h, t)[i] == t[i - 1];
    }
  }

  lemma InsertKeepsDistinct(h: Event, s: seq<Event>, k: nat, ev: Event)
    requires k <= |s| && ev != h && h !in s && ev !in s && Distinct(s)
    ensures Distinct(s[..k] + [ev] + s[k..]) && h !in s[..k] + [ev] + s[k..]
  {
    var t := s[..k] + [ev] + s[k..];
    forall i | 0 <= i < |t|
      ensures t[i] == (if i < k then s[i] else if i == k then ev else s[i - 1])
    {
      InsertAt(s, k, ev, i);
    }
  }

  lemma CycleRemove(h: Event, s: seq<Event>, k: nat)
    requires k < |s| && h !in s && Distinct(s)
    ensures var c, d := Cycle(h, s), Cycle(h, s[..k] + s[k + 1..]);
            forall i :: 0 <= i < |d| ==> d[i] == if i <= k then c[i] else c[i + 1]
    ensures Distinct(s[..k] + s[k + 1..]) && h !in s[..k] + s[k + 1..]
  {
    RemoveKeepsDistinct(h, s, k);
    var t := s[..k] + s[k + 1..];
    forall i | 0 <= i < |s| + 1
      ensures Cycle(h, t)[i] == if i <= k then Cycle(h, s)[i] else Cycle(h, s)[i + 1]
    {
      CycleRemoveAt(h, s, k, i);
    }
  }

  lemma CycleRemoveAt(h: Event, s: seq<Event>, k: nat, i: nat)
    requires k < |s| && i < |s| + 1
    ensures Cycle(h, s[..k] + s[k + 1..])[i] == if i <= k then Cycle(h, s)[i] else Cycle(h, s)[i + 1]
  {
    var t := s[..k] + s[k + 1..];
    if 0 < i <= |t| {
      RemoveAt(s, k, i - 1);
      assert Cycle(h, t)[i] == t[i - 1];
    }
  }

  lemma RemoveKeepsDistinct(h: Event, s: seq<Event>, k: nat)
    requires k < |s| && h !in s && Distinct(s)
    ensures Distinct(s[..k] + s[k + 1..]) && h !in s[..k] + s[k + 1..]
  {
    var t := s[..k] + s[k + 1..];
    forall i | 0 <= i < |t|
      ensures t[i] == (if i < k then s[i] else s[i + 1])
    {
      RemoveAt(s, k, i);
    }
  }

  /** What is at a place of the list: an element, or the sentinel past them. */
  ghost function At(h: Event, s: seq<Event>, i: nat): Event {
    if i < |s| then s[i] else h
  }

  lemma AtIsCycle(h: Event, s: seq<Event>, i: nat)
    requires i <= |s|
    ensures At(h, s, i) == Cycle(h, s)[i + 1]
  {
  }

  lemma FirstAt(h: Event, s: seq<Event>)
    requires Ring(h, s)
    ensures h.next == At(h, s, 0) && (h.next == h <==> s == [])
  {
    assert Cycle(h, s)[0].next == Cycle(h, s)[1];
    AtIsCycle(h, s, 0);
    assert s != [] ==> s[0] in s;
  }

  lemma NextAt(h: Event, s: seq<Event>, i: nat)
    requires Ring(h, s) && i < |s|
    ensures s[i].next == At(h, s, i + 1) && (s[i].next == h <==> i + 1 == |s|)
  {
    assert Cycle(h, s)[i + 1].next == Cycle(h, s)[i + 2];
    AtIsCycle(h, s, i + 1);
    assert i + 1 < |s| ==> s[i + 1] in s;
  }

  lemma NextOthers(h: Event, s: seq<Event>, k: nat)
    requires h !in s && Distinct(s) && k <= |s|
    ensures forall i :: 0 <= i <= |s| && i != k ==> Cycle(h, s)[i] != Cycle(h, s)[k]
  {
  }

  lemma PrevOthers(h: Event, s: seq<Event>, k: nat)
    requires h !in s && Distinct(s) && 1 <= k <= |s| + 1
    ensures forall i :: 1 <= i <= |s| + 1 && i != k ==> Cycle(h, s)[i] != Cycle(h, s)[k]
  {
  }

  /** ril_timer_add: the walk along the list `s` to the first element that is not earlier, or to the sentinel */
  method FirstNotBefore(h: Event, time: TimeVal, ghost s: seq<Event>) returns (list: Event, ghost i: nat)
    requires Ring(h, s)
    ensures i <= |s| && list == At(h, s, i)
    ensures (forall j :: 0 <= j < i ==> Before(s[j].timeout, time)) && (i < |s| ==> !Before(s[i].timeout, time))
    ensures list != h ==> !Before(list.timeout, time)
  {
    FirstAt(h, s);
    list := h.next;
    i := 0;
    while Before(list.timeout, time) && list != h
      invariant i <= |s| && list == At(h, s, i) && (list == h <==> i == |s|)
      invariant forall j :: 0 <= j < i ==> Before(s[j].timeout, time)
      decreases |s| - i
    {
      NextAt(h, s, i);
      list := list.next;
      i := i + 1;
    }
  }
}
