/** ril_event.cpp on the heap: the watch table and the two linked lists, changed in place. Each method
    is one function of the source and takes the abstract state of EventModel through the step of that name. */
module EventHeap {
  import opened Time
  import opened EventModel
  import opened Sequences
  import opened EventProofs
  import opened EventLists
  import EventRuns

  datatype Selected = Interrupted | Failed | Readable(fds: set<int>)

  class RilEvents {
    const watchTable: array<Event?>
    var readFds: set<int>
    var nfds: int
    const timerList: Event
    const pendingList: Event

    /** The memory that callers use for their events. */
    ghost const memory: set<Event>
    ghost var st: State<Event>

    ghost predicate Separate() {
      timerList != pendingList && timerList !in memory && pendingList !in memory && watchTable.Length == MAX_FD_EVENTS
    }

    ghost predicate RecsMatch()
      reads this`st, memory
    {
      forall e :: e in st.recs ==> e in memory && e.Is(st.recs[e])
    }

    static ghost predicate SlotMatches(slot: Slot<Event>, ev: Event?) {
      match slot
      case Empty => ev == null
      case Holds(e) => ev == e
    }

    ghost predicate TableMatches()
      reads this`st, this`readFds, this`nfds, watchTable
    {
      && readFds == st.readFds && nfds == st.nfds
      && |st.table| == watchTable.Length
      && forall i :: 0 <= i < |st.table| ==> SlotMatches(st.table[i], watchTable[i])
    }

    ghost predicate InMemory(s: seq<Event>) {
      forall i :: 0 <= i < |s| ==> s[i] in memory
    }

    /** The two lists hold these events, in these orders. */
    ghost predicate ListsAre(timers: seq<Event>, pending: seq<Event>)
      reads {timerList, pendingList}`next, {timerList, pendingList}`prev, memory`next, memory`prev
    {
      && InMemory(timers) && InMemory(pending) && Separate()
      && Apart(timerList, timers, pendingList, pending)
      && Ring(timerList, timers) && Ring(pendingList, pending)
    }

    ghost predicate ListsMatch()
      reads this`st, {timerList, pendingList}`next, {timerList, pendingList}`prev, memory`next, memory`prev
    {
      ListsAre(Evs(st.timers), Pending(st))
    }

    /** The heap holds exactly the state `st`. */
    ghost predicate Linked()
      reads this, watchTable, timerList, pendingList, memory
    {
      Separate() && RecsMatch() && TableMatches() && ListsMatch()
    }

    // ril_event_init
    constructor (ghost memory: set<Event>, ghost clock: TimeVal)
      ensures Linked() && st == Start(clock) && this.memory == memory
      ensures fresh(watchTable) && fresh(timerList) && fresh(pendingList)
    {
      readFds, nfds := {}, 0;
      timerList := new Event.Sentinel();
      pendingList := new Event.Sentinel();
      watchTable := new Event?[MAX_FD_EVENTS](_ => null);
      this.memory := memory;
      st := Start(clock);
    }

    /** ril_event_set, whatever the lists */
    method Reset(ev: Event, fd: int, persist: bool, func: int, param: int)
      requires RecsMatch() && TableMatches() && ev in memory
      modifies this`st, ev
      ensures RecsMatch() && TableMatches() && st == EventModel.EventSet(old(st), ev, fd, persist, func, param)
    {
      ev.next, ev.prev, ev.timeout := null, null, ZERO;
      ev.fd, ev.index, ev.persist, ev.func, ev.param := fd, -1, persist, func, param;
      st := EventModel.EventSet(st, ev, fd, persist, func, param);
    }

    /** ril_event_set */
    method EventSet(ev: Event, fd: int, persist: bool, func: int, param: int)
      requires Linked() && ev in memory && !Queued(st, ev)
      modifies this`st, ev
      ensures Linked() && st == EventModel.EventSet(old(st), ev, fd, persist, func, param)
    {
      Reset(ev, fd, persist, func, param);
      timerList.RingKept(Evs(st.timers));
      pendingList.RingKept(Pending(st));
    }

    method SetIndex(ev: Event, index: int)
      requires RecsMatch() && ev in st.recs
      modifies this`st, ev`index
      ensures RecsMatch() && st == old(st).(recs := old(st).recs[ev := old(st).recs[ev].(index := index)])
    {
      ev.index := index;
      st := st.(recs := st.recs[ev := st.recs[ev].(index := index)]);
    }

    method SetSlot(i: nat, ev: Event?, ghost slot: Slot<Event>)
      requires TableMatches() && i < watchTable.Length && SlotMatches(slot, ev)
      modifies this`st, watchTable
      ensures TableMatches() && st == old(st).(table := old(st).table[i := slot])
    {
      watchTable[i] := ev;
      st := st.(table := st.table[i := slot]);
    }

    /** ril_event_add: the body of its loop */
    method FillSlot(ev: Event, i: nat)
      requires Separate() && RecsMatch() && TableMatches() && ev in st.recs && i < MAX_FD_EVENTS
      modifies this`st, this`readFds, this`nfds, watchTable, ev`index
      ensures RecsMatch() && TableMatches() && st == EventModel.FillSlot(old(st), ev, i)
    {
      SetSlot(i, ev, Holds(ev));
      SetIndex(ev, i);
      readFds := readFds + {ev.fd};
      nfds := if ev.fd >= nfds then ev.fd + 1 else nfds;
      st := st.(readFds := readFds, nfds := nfds);
    }

    /** ril_event_add */
    method EventAdd(ev: Event)
      requires Linked() && ev in st.recs
      modifies this`st, this`readFds, this`nfds, watchTable, ev`index
      ensures Linked() && st == EventModel.EventAdd(old(st), ev)
    {
      for i := 0 to MAX_FD_EVENTS
        invariant forall j :: 0 <= j < i ==> st.table[j].Holds?
      {
        if watchTable[i] == null {
          FillSlot(ev, i);
          timerList.RingKept(Evs(st.timers));
          pendingList.RingKept(Pending(st));
          return;
        }
      }
    }

    /** removeWatch up to its loop */
    method ClearSlot(ev: Event, index: nat)
      requires Separate() && RecsMatch() && TableMatches() && ev in st.recs && index < MAX_FD_EVENTS
      modifies this`st, this`readFds, watchTable, ev`index
      ensures RecsMatch() && TableMatches() && st == EventModel.ClearSlot(old(st), ev, index)
    {
      SetSlot(index, null, Empty);
      SetIndex(ev, -1);
      readFds := readFds - {ev.fd};
      st := st.(readFds := readFds);
    }

    /** removeWatch */
    method RemoveWatch(ev: Event, index: nat)
      requires Separate() && RecsMatch() && TableMatches()
      requires Known(st.recs, st.table) && ev in st.recs && index < MAX_FD_EVENTS
      modifies this`st, this`readFds, this`nfds, watchTable, ev`index
      ensures RecsMatch() && TableMatches() && st == EventModel.RemoveWatch(old(st), ev, index)
    {
      ClearSlot(ev, index);
      if ev.fd + 1 == nfds {
        var n := HighestFd();
        nfds := n + 1;
        st := st.(nfds := nfds);
      }
    }

    /** removeWatch: its loop over the table */
    method HighestFd() returns (n: int)
      requires Separate() && RecsMatch() && TableMatches() && Known(st.recs, st.table)
      ensures n == TopFd(st.recs, st.table)
    {
      n := 0;
      for i := 0 to MAX_FD_EVENTS
        invariant Known(st.recs, st.table[..i]) && n == TopFd(st.recs, st.table[..i])
      {
        var rev := watchTable[i];
        assert st.table[..i + 1][..i] == st.table[..i];
        if rev != null && rev.fd > n {
          n := rev.fd;
        }
      }
      assert st.table[..MAX_FD_EVENTS] == st.table;
    }

    /** removeWatch, which leaves the lists alone */
    method Unwatch(ev: Event, index: nat)
      requires Linked() && Known(st.recs, st.table) && ev in st.recs && index < MAX_FD_EVENTS
      modifies this`st, this`readFds, this`nfds, watchTable, ev`index
      ensures Linked() && st == EventModel.RemoveWatch(old(st), ev, index)
    {
      RemoveWatch(ev, index);
      timerList.RingKept(Evs(st.timers));
      pendingList.RingKept(Pending(st));
    }

    /** ril_event_del */
    method EventDel(ev: Event)
      requires Linked() && Known(st.recs, st.table) && ev in st.recs
      modifies this`st, this`readFds, this`nfds, watchTable, ev`index
      ensures Linked() && st == EventModel.EventDel(old(st), ev)
    {
      if ev.index < 0 || ev.index >= MAX_FD_EVENTS {
        return;
      }
      Unwatch(ev, ev.index);
    }

    // ---------- the lists, whatever the state ----------

    method InsertTimer(ev: Event, list: Event, ghost i: nat, ghost timers: seq<Event>, ghost pending: seq<Event>)
      requires ListsAre(timers, pending) && ev in memory && ev !in timers && ev !in pending
      requires i <= |timers| && list == Cycle(timerList, timers)[i + 1]
      modifies timerList`next, timerList`prev, memory`next, memory`prev
      ensures ListsAre(timers[..i] + [ev] + timers[i..], pending)
    {
      OneMoreApart(timers, pending, ev, i);
      AddToList(ev, list, timerList, timers, i, pendingList, pending);
    }

    lemma OneMoreApart(timers: seq<Event>, pending: seq<Event>, ev: Event, i: nat)
      requires InMemory(timers) && InMemory(pending) && Separate() && Apart(timerList, timers, pendingList, pending)
      requires ev in memory && ev !in pending && i <= |timers|
      ensures var t := timers[..i] + [ev] + timers[i..]; InMemory(t) && Apart(timerList, t, pendingList, pending)
    {
      assert forall e :: e in timers[..i] + [ev] + timers[i..] ==> e in timers || e == ev;
    }

    lemma RestTimersApart(timers: seq<Event>, pending: seq<Event>)
      requires InMemory(timers) && Apart(timerList, timers, pendingList, pending) && timers != [] && Distinct(timers)
      ensures InMemory(timers[1..]) && Apart(timerList, timers[1..], pendingList, pending)
      ensures timers[0] !in timers[1..] && timers[0] !in pending
    {
      assert forall i :: 0 <= i < |timers[1..]| ==> timers[1..][i] == timers[i + 1];
      assert timers[0] in timers;
    }

    method RemoveFirstTimer(ev: Event, ghost timers: seq<Event>, ghost pending: seq<Event>)
      requires ListsAre(timers, pending) && timers != [] && ev == timers[0]
      modifies timerList`next, timerList`prev, memory`next, memory`prev
      ensures ListsAre(timers[1..], pending) && ev !in timers[1..] && ev !in pending
    {
      RestTimersApart(timers, pending);
      DropFirst(timers);
      RemoveFromList(ev, timerList, timers, 0, timers[1..], pendingList, pending);
    }

    method AppendPending(ev: Event, ghost timers: seq<Event>, ghost pending: seq<Event>)
      requires ListsAre(timers, pending) && ev in memory && ev !in timers && ev !in pending
      modifies pendingList`next, pendingList`prev, memory`next, memory`prev
      ensures ListsAre(timers, pending + [ev])
    {
      AddToList(ev, pendingList, pendingList, pending, |pending|, timerList, timers);
      assert pending[..|pending|] + [ev] + pending[|pending|..] == pending + [ev];
    }

    lemma RestPendingApart(timers: seq<Event>, pending: seq<Event>)
      requires InMemory(pending) && Apart(timerList, timers, pendingList, pending) && pending != []
      ensures InMemory(pending[1..]) && Apart(timerList, timers, pendingList, pending[1..])
    {
      assert forall i :: 0 <= i < |pending[1..]| ==> pending[1..][i] == pending[i + 1];
    }

    method RemoveFirstPending(ev: Event, ghost timers: seq<Event>, ghost pending: seq<Event>)
      requires ListsAre(timers, pending) && pending != [] && ev == pending[0]
      modifies pendingList`next, pendingList`prev, memory`next, memory`prev
      ensures ListsAre(timers, pending[1..])
    {
      RestPendingApart(timers, pending);
      DropFirst(pending);
      RemoveFromList(ev, pendingList, pending, 0, pending[1..], timerList, timers);
    }

    // ---------- timers ----------

    /** ril_timer_add: the fields it sets */
    method SetDeadline(ev: Event, deadline: TimeVal)
      requires RecsMatch() && ev in st.recs
      modifies this`st, ev`fd, ev`timeout
      ensures RecsMatch() && st == old(st).(recs := old(st).recs[ev := old(st).recs[ev].(fd := -1, timeout := deadline)])
      ensures ev.timeout == deadline
    {
      ev.fd := -1;
      ev.timeout := deadline;
      st := st.(recs := st.recs[ev := st.recs[ev].(fd := -1, timeout := deadline)]);
    }

    /** ril_timer_add: the loop that keeps the list sorted */
    method PlaceFor(ev: Event) returns (list: Event, ghost i: nat)
      requires ListsMatch() && !Queued(st, ev)
      requires forall i :: 0 <= i < |st.timers| ==> st.timers[i].ev.timeout == st.timers[i].deadline
      ensures IsPlace(st.timers, ev.timeout, i) && list == Cycle(timerList, Evs(st.timers))[i + 1]
      ensures list != timerList ==> !Before(list.timeout, ev.timeout)
    {
      list, i := FirstNotBefore(timerList, ev.timeout, Evs(st.timers));
      AtIsCycle(timerList, Evs(st.timers), i);
    }

    /** ril_timer_add: the link made at that place */
    method EnterTimer(ev: Event, now: TimeVal) returns (ghost i: nat)
      requires ListsMatch() && ev in memory && !Queued(st, ev)
      requires forall i :: 0 <= i < |st.timers| ==> st.timers[i].ev.timeout == st.timers[i].deadline
      modifies this`st, timerList`next, timerList`prev, memory`next, memory`prev
      ensures ListsMatch() && IsPlace(old(st).timers, ev.timeout, i)
      ensures st == old(st).(timers := old(st).timers[..i] + [Due(ev, ev.timeout)] + old(st).timers[i..],
                             clock := now, added := old(st).added + multiset{Due(ev, ev.timeout)})
    {
      ghost var due := Due(ev, ev.timeout);
      var list;
      list, i := PlaceFor(ev);
      InsertTimer(ev, list, i, Evs(st.timers), Pending(st));
      InsertedEvs(st.timers, i, due);
      st := st.(timers := st.timers[..i] + [due] + st.timers[i..], clock := now, added := st.added + multiset{due});
    }

    /** ril_timer_add: the deadline is set while the event is on no list */
    method SetDeadlineApart(ev: Event, deadline: TimeVal)
      requires Linked() && ev in st.recs && !Queued(st, ev)
      modifies this`st, ev`fd, ev`timeout
      ensures Linked() && ev.timeout == deadline
      ensures st == old(st).(recs := old(st).recs[ev := old(st).recs[ev].(fd := -1, timeout := deadline)])
    {
      SetDeadline(ev, deadline);
    }

    /** ril_timer_add: the link is made, and nothing else changes */
    method Enlist(ev: Event, now: TimeVal) returns (ghost i: nat)
      requires Linked() && ev in memory && !Queued(st, ev)
      requires forall i :: 0 <= i < |st.timers| ==> st.timers[i].ev.timeout == st.timers[i].deadline
      modifies this`st, timerList`next, timerList`prev, memory`next, memory`prev
      ensures Linked() && IsPlace(old(st).timers, ev.timeout, i)
      ensures st == old(st).(timers := old(st).timers[..i] + [Due(ev, ev.timeout)] + old(st).timers[i..],
                             clock := now, added := old(st).added + multiset{Due(ev, ev.timeout)})
    {
      i := EnterTimer(ev, now);
    }

    /** ril_timer_add, with the clock reading it takes */
    method TimerAdd(ev: Event, delay: Option<TimeVal>, now: TimeVal)
      requires Linked() && ev in st.recs && !Queued(st, ev) && DuesMatch(st.recs, st.timers)
      modifies this`st, ev`fd, ev`timeout, timerList`next, timerList`prev, memory`next, memory`prev
      ensures Linked() && st == EventModel.TimerAdd(old(st), ev, delay, now)
    {
      if delay.Some? {
        QueuedDues(st, ev);
        SetDeadlineApart(ev, Plus(now, delay.value));
        ghost var i := Enlist(ev, now);
        assert st == TimerAddAt(old(st), ev, Plus(now, delay.value), now, i);
        InsertPosIs(old(st).timers, Plus(now, delay.value), i);
      }
    }

    /** The event `timer_list.next` points to. */
    ghost function FirstTimer(): Event
      reads this`st
    {
      if st.timers == [] then timerList else st.timers[0].ev
    }

    lemma FirstTimerIsNext()
      requires ListsMatch()
      ensures timerList.next == FirstTimer()
    {
      assert Cycle(timerList, Evs(st.timers))[0].next == Cycle(timerList, Evs(st.timers))[1];
    }

    /** processTimeouts: one round of its loop */
    method Expire(tev: Event) returns (next: Event)
      requires Linked() && st.timers != [] && tev == FirstTimer() && st.ready == []
      modifies this`st, timerList`next, timerList`prev, pendingList`next, pendingList`prev, memory`next, memory`prev
      ensures Linked() && st == MoveExpired(old(st), 1) && next == FirstTimer()
    {
      ghost var timers, pending := Evs(st.timers), Pending(st);
      assert Cycle(timerList, timers)[1].next == Cycle(timerList, timers)[2];
      next := tev.next;
      RemoveFirstTimer(tev, timers, pending);
      AppendPending(tev, timers[1..], pending);
      assert timers[1..] == Evs(st.timers[1..]);
      assert pending + [tev] == Evs(st.expired + st.timers[..1]) + st.ready;
      st := MoveExpired(st, 1);
    }

    /** processTimeouts: its loop */
    method ExpireOverdue(now: TimeVal) returns (ghost k: nat)
      requires Linked() && DuesMatch(st.recs, st.timers) && st.ready == []
      modifies this`st, timerList`next, timerList`prev, pendingList`next, pendingList`prev, memory`next, memory`prev
      ensures Linked() && IsExpiredCount(old(st).timers, now, k) && st == MoveExpired(old(st), k)
    {
      k := 0;
      FirstTimerIsNext();
      MoveNone(st);
      var tev := timerList.next;
      while tev != timerList && Before(tev.timeout, now)
        invariant Linked() && k <= |old(st).timers| && st == MoveExpired(old(st), k) && tev == FirstTimer()
        invariant forall j :: 0 <= j < k ==> Before(old(st).timers[j].deadline, now)
        decreases |old(st).timers| - k
      {
        MoveOneMore(old(st), k);
        tev := Expire(tev);
        k := k + 1;
      }
    }

    /** processTimeouts, with the clock reading it takes */
    method ProcessTimeouts(now: TimeVal)
      requires Linked() && DuesMatch(st.recs, st.timers) && st.ready == []
      modifies this`st, timerList`next, timerList`prev, pendingList`next, pendingList`prev, memory`next, memory`prev
      ensures Linked() && st == EventModel.ProcessTimeouts(old(st), now)
    {
      ghost var k := ExpireOverdue(now);
      ExpiredCountIs(old(st).timers, now, k);
      st := st.(polled := true, clock := now);
    }

    /** firePending: the node it takes off the list before calling back */
    method Unqueue(ev: Event)
      requires Linked() && Pending(st) != [] && ev == Pending(st)[0]
      modifies this`st, pendingList`next, pendingList`prev, memory`next, memory`prev
      ensures Linked() && st == Fire(old(st))
    {
      RemoveFirstPending(ev, Evs(st.timers), Pending(st));
      st := Fire(st);
      EventRuns.FireTakesHead(old(st));
    }

    // ---------- descriptors ----------

    /** processReadReadies: one readable event */
    method QueueReady(rev: Event, i: nat)
      requires Linked() && Known(st.recs, st.table) && i < MAX_FD_EVENTS && st.table[i] == Holds(rev)
      requires !Queued(st, rev)
      modifies this`st, this`readFds, this`nfds, watchTable, rev`index
      modifies pendingList`next, pendingList`prev, memory`next, memory`prev
      ensures Linked() && st == EventModel.QueueReady(old(st), i)
    {
      AppendPending(rev, Evs(st.timers), Pending(st));
      assert Pending(st) + [rev] == Evs(st.expired) + (st.ready + [rev]);
      st := st.(ready := st.ready + [rev]);
      if rev.persist == false {
        Unwatch(rev, i);
      }
    }

    /** The slots from `i` on hold events that are not queued yet. */
    ghost predicate ToScan(i: nat)
      reads this`st
    {
      && TableInv(st)
      && forall j :: i <= j < |st.table| && st.table[j].Holds? ==> !Queued(st, st.table[j].ev)
    }

    lemma QueuedOneKeepsTable(was: State<Event>, i: nat)
      requires TableInv(was) && i < |was.table| && was.table[i].Holds?
      ensures TableInv(EventModel.QueueReady(was, i))
    {
      var e := was.table[i].ev;
      if !was.recs[e].persist {
        RemoveKeepsTable(was.(ready := was.ready + [e]), e, i);
      }
    }

    lemma QueuedOneKeepsScan(was: State<Event>, i: nat)
      requires TableInv(was) && i < |was.table| && was.table[i].Holds?
      requires forall j :: i <= j < |was.table| && was.table[j].Holds? ==> !Queued(was, was.table[j].ev)
      requires st == EventModel.QueueReady(was, i)
      ensures ToScan(i + 1)
    {
      QueuedOneKeepsTable(was, i);
      forall j | i + 1 <= j < |st.table| && st.table[j].Holds?
        ensures !Queued(st, st.table[j].ev)
      {
        QueuedOneOnly(was, i, j);
      }
    }

    lemma QueuedOneOnly(was: State<Event>, i: nat, j: nat)
      requires TableInv(was) && i < j < |was.table| && was.table[i].Holds?
      ensures var now := EventModel.QueueReady(was, i);
        now.table[j] == was.table[j] &&
        (was.table[j].Holds? && !Queued(was, was.table[j].ev) ==> !Queued(now, was.table[j].ev))
    {
      assert was.table[j].Holds? ==> was.recs[was.table[j].ev].index == j;
      assert was.recs[was.table[i].ev].index == i;
    }

    /** processReadReadies: one round of its loop */
    method ScanSlot(rfds: set<int>, i: nat) returns (found: bool)
      requires Linked() && ToScan(i) && i < MAX_FD_EVENTS
      modifies this`st, this`readFds, this`nfds, watchTable, memory`index
      modifies pendingList`next, pendingList`prev, memory`next, memory`prev
      ensures Linked() && ToScan(i + 1) && found == ReadyAt(old(st), rfds, i)
      ensures st == if found then EventModel.QueueReady(old(st), i) else old(st)
    {
      var rev := watchTable[i];
      found := rev != null && rev.fd in rfds;
      if found {
        QueueReady(rev, i);
        QueuedOneKeepsScan(old(st), i);
      }
    }

    /** processReadReadies: its loop */
    method ScanTable(rfds: set<int>, count: int)
      requires Linked() && ToScan(0)
      modifies this`st, this`readFds, this`nfds, watchTable, memory`index
      modifies pendingList`next, pendingList`prev, memory`next, memory`prev
      ensures Linked() && st == ScanReady(old(st), rfds, count, 0)
    {
      var n, i := count, 0;
      while i < MAX_FD_EVENTS && n > 0
        invariant Linked() && i <= MAX_FD_EVENTS && ToScan(i)
        invariant ScanReady(st, rfds, n, i) == ScanReady(old(st), rfds, count, 0)
      {
        var found := ScanSlot(rfds, i);
        n := if found then n - 1 else n;
        i := i + 1;
      }
    }

    /** processReadReadies */
    method ProcessReadReadies(rfds: set<int>, count: int)
      requires Linked() && ToScan(0)
      modifies this`st, this`readFds, this`nfds, watchTable, memory`index
      modifies pendingList`next, pendingList`prev, memory`next, memory`prev
      ensures Linked() && st == EventModel.ProcessReadReadies(old(st), rfds, count)
    {
      ScanTable(rfds, count);
      st := st.(polled := false);
    }

    // ---------- callbacks ----------

    /** What a callback, or another thread, may do: one call of the API. */
    method Call(action: Action<Event>)
      requires Linked() && Inv(st) && Permitted(st, action) && action.ev in memory
      modifies this`st, this`readFds, this`nfds, watchTable, memory
      modifies timerList`next, timerList`prev, pendingList`next, pendingList`prev
      ensures Linked() && st == Perform(old(st), action)
    {
      match action
      case Set(ev, fd, persist, func, param) => EventSet(ev, fd, persist, func, param);
      case Add(ev) => EventAdd(ev);
      case Del(ev) => EventDel(ev);
      case AddTimer(ev, delay, now) => TimerAdd(ev, delay, now);
      case Free(ev) => st := st.(recs := st.recs - {ev});
    }

    ghost predicate ScriptInMemory(script: seq<Action<Event>>) {
      forall j :: 0 <= j < |script| ==> script[j].ev in memory
    }

    /** A callback: the calls it makes, in turn. */
    method Callback(script: seq<Action<Event>>)
      requires Linked() && Inv(st) && AllPermitted(st, script) && ScriptInMemory(script)
      modifies this`st, this`readFds, this`nfds, watchTable, memory
      modifies timerList`next, timerList`prev, pendingList`next, pendingList`prev
      ensures Linked() && st == PerformAll(old(st), script)
    {
      var i := 0;
      while i < |script|
        invariant Linked() && Inv(st) && i <= |script|
        invariant AllPermitted(st, script[i..]) && PerformAll(st, script[i..]) == PerformAll(old(st), script)
      {
        assert script[i..][1..] == script[i + 1..];
        ActionKeepsInv(st, script[i]);
        Call(script[i]);
        i := i + 1;
      }
    }

    /** The event `pending_list.next` points to. */
    ghost function FirstPending(): Event
      reads this`st
    {
      if Pending(st) == [] then pendingList else Pending(st)[0]
    }

    lemma FirstPendingIsNext()
      requires ListsMatch()
      ensures pendingList.next == FirstPending()
    {
      assert Cycle(pendingList, Pending(st))[0].next == Cycle(pendingList, Pending(st))[1];
    }

    lemma FiredKeeps(s: State<Event>, script: seq<Action<Event>>)
      requires Inv(s) && !s.polled && Pending(s) != [] && AllPermitted(Fire(s), script)
      ensures Inv(Fire(s)) && Inv(PerformAll(Fire(s), script)) && !PerformAll(Fire(s), script).polled
      ensures Pending(PerformAll(Fire(s), script)) == Pending(s)[1..]
    {
      StepKeepsInv(s, FireNext);
      EventRuns.FireTakesHead(s);
      EventRuns.ScriptKeepsPending(Fire(s), script);
      EventRuns.ScriptKeepsInv(Fire(s), script);
    }

    /** firePending: the successor is remembered, then the node goes */
    method TakeFirst(ev: Event) returns (next: Event)
      requires Linked() && Pending(st) != [] && ev == Pending(st)[0]
      modifies this`st, pendingList`next, pendingList`prev, memory`next, memory`prev
      ensures Linked() && st == Fire(old(st))
      ensures next == if |Pending(old(st))| == 1 then pendingList else Pending(old(st))[1]
    {
      assert Cycle(pendingList, Pending(st))[1].next == Cycle(pendingList, Pending(st))[2];
      next := ev.next;
      Unqueue(ev);
    }

    /** firePending: one round of its loop; the callback makes the calls of `script` */
    method FireFirst(ev: Event, script: seq<Action<Event>>) returns (next: Event)
      requires Linked() && Inv(st) && !st.polled && Pending(st) != [] && ev == FirstPending()
      requires AllPermitted(Fire(st), script) && ScriptInMemory(script)
      modifies this`st, this`readFds, this`nfds, watchTable, memory
      modifies timerList`next, timerList`prev, pendingList`next, pendingList`prev
      ensures Linked() && st == PerformAll(Fire(old(st)), script) && next == FirstPending()
    {
      FiredKeeps(st, script);
      next := TakeFirst(ev);
      Callback(script);
    }

    ghost predicate Fireable(s: State<Event>, scripts: seq<seq<Action<Event>>>, goal: State<Event>) {
      Inv(s) && !s.polled && Playable(s, scripts) && EventModel.FirePending(s, scripts) == goal
    }

    lemma NextRound(s: State<Event>, scripts: seq<seq<Action<Event>>>, k: nat, goal: State<Event>)
      requires k <= |scripts| && Fireable(s, scripts[k..], goal)
      ensures Pending(s) != [] <==> k < |scripts|
      ensures k == |scripts| ==> s == goal
      ensures k < |scripts| ==>
        && AllPermitted(Fire(s), scripts[k]) && Fireable(PerformAll(Fire(s), scripts[k]), scripts[k + 1..], goal)
    {
      if k < |scripts| {
        assert scripts[k..][1..] == scripts[k + 1..];
        FiredKeeps(s, scripts[k]);
      }
    }

    /** firePending: its loop */
    method FireAll(first: Event, scripts: seq<seq<Action<Event>>>, ghost goal: State<Event>)
      requires Linked() && Fireable(st, scripts, goal) && first == FirstPending()
      requires forall k :: 0 <= k < |scripts| ==> ScriptInMemory(scripts[k])
      modifies this`st, this`readFds, this`nfds, watchTable, memory
      modifies timerList`next, timerList`prev, pendingList`next, pendingList`prev
      ensures Linked() && st == goal
    {
      var ev, k := first, 0;
      NextRound(st, scripts, 0, goal);
      while ev != pendingList
        invariant Linked() && k <= |scripts| && Fireable(st, scripts[k..], goal) && ev == FirstPending()
        decreases |scripts| - k
      {
        NextRound(st, scripts, k, goal);
        ev := FireFirst(ev, scripts[k]);
        k := k + 1;
      }
      NextRound(st, scripts, k, goal);
    }

    /** firePending */
    method FirePending(scripts: seq<seq<Action<Event>>>)
      requires Linked() && Inv(st) && !st.polled && Playable(st, scripts)
      requires forall k :: 0 <= k < |scripts| ==> ScriptInMemory(scripts[k])
      modifies this`st, this`readFds, this`nfds, watchTable, memory
      modifies timerList`next, timerList`prev, pendingList`next, pendingList`prev
      ensures Linked() && Inv(st) && st == EventModel.FirePending(old(st), scripts)
      ensures Pending(st) == [] && st.fired == old(st).fired + Pending(old(st))
    {
      EventRuns.FirePendingFiresAll(st, scripts);
      FirstPendingIsNext();
      FireAll(pendingList.next, scripts, EventModel.FirePending(st, scripts));
    }

    /** calcNextTimeout, with the clock reading it takes */
    method CalcNextTimeout(now: TimeVal) returns (tv: Option<TimeVal>)
      requires Linked() && DuesMatch(st.recs, st.timers)
      ensures tv == EventModel.CalcNextTimeout(st, now)
    {
      FirstTimerIsNext();
      var tev := timerList.next;
      if tev == timerList {
        return None;
      }
      if Before(now, tev.timeout) {
        return Some(Minus(tev.timeout, now));
      }
      return Some(ZERO);
    }

    lemma NothingQueuedToScan()
      requires Inv(st) && st.ready == []
      ensures ToScan(0)
    {
      forall j | 0 <= j < |st.table| && st.table[j].Holds?
        ensures !Queued(st, st.table[j].ev)
      {
        var e := st.table[j].ev;
        assert OnWatch(st.recs, e);
        assert forall i :: 0 <= i < |st.timers| ==> st.timers[i].ev != e;
        assert forall i :: 0 <= i < |st.expired| ==> st.expired[i].ev != e;
      }
    }

    /** ril_event_loop: what follows a select that returned descriptors, up to firePending */
    method Poll(fds: set<int>, now: TimeVal)
      requires Linked() && Inv(st) && !st.polled && Pending(st) == [] && NotAfter(st.clock, now)
      modifies this`st, this`readFds, this`nfds, watchTable, memory
      modifies timerList`next, timerList`prev, pendingList`next, pendingList`prev
      ensures Linked() && Inv(st) && !st.polled && st == Polled(old(st), fds, now)
    {
      NothingPending(st);
      StepKeepsInv(st, Timeouts(now));
      ProcessTimeouts(now);
      NothingQueuedToScan();
      StepKeepsInv(st, Readies(fds, |fds|));
      ProcessReadReadies(fds, |fds|);
    }

    /** ril_event_loop up to select, which is given the timeout `tv` */
    method BeforeSelect(now: TimeVal) returns (tv: Option<TimeVal>)
      requires Linked() && DuesMatch(st.recs, st.timers)
      modifies this`st
      ensures Linked() && st == old(st).(clock := now) && tv == EventModel.CalcNextTimeout(old(st), now)
    {
      tv := CalcNextTimeout(now);
      st := st.(clock := now);
    }

    /** One iteration of ril_event_loop: clock readings `t0` and `t1`, and `selected` from select. */
    method Iterate(t0: TimeVal, selected: Selected, t1: TimeVal, scripts: seq<seq<Action<Event>>>)
      returns (tv: Option<TimeVal>, running: bool)
      requires Linked() && Inv(st) && !st.polled && Pending(st) == [] && NotAfter(st.clock, t0) && NotAfter(t0, t1)
      requires selected.Readable? ==> Playable(Polled(st.(clock := t0), selected.fds, t1), scripts)
      requires forall k :: 0 <= k < |scripts| ==> ScriptInMemory(scripts[k])
      modifies this`st, this`readFds, this`nfds, watchTable, memory
      modifies timerList`next, timerList`prev, pendingList`next, pendingList`prev
      ensures Linked() && Inv(st)
      ensures tv == EventModel.CalcNextTimeout(old(st), t0) && running == !selected.Failed?
      ensures selected.Readable? ==>
          st == EventModel.FirePending(Polled(old(st).(clock := t0), selected.fds, t1), scripts)
      ensures selected.Readable? ==>
          st.fired == old(st).fired + Evs(old(st).timers[..ExpiredCount(old(st).timers, t1)])
                      + ReadyList(old(st).recs, old(st).table, selected.fds, 0)
      ensures !selected.Readable? ==> st == old(st).(clock := t0)
    {
      TickKeepsInv(st, t0);
      tv := BeforeSelect(t0);
      running := !selected.Failed?;
      if selected.Readable? {
        EventRuns.IterationFires(st, selected.fds, t1, scripts);
        Poll(selected.fds, t1);
        FirePending(scripts);
      }
    }
  }
}
