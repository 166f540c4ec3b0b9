/** The telephony connection as it comes and goes, and one step of the daemon as a whole. */
module RildLifecycle {
  import opened Time
  import opened EventModel
  import opened EventProofs
  import opened Rild
  import opened RildSteps
  import opened RildProofs

  // ---------- a slot is left for telephony ----------

  lemma {:induction false} DistinctFit(s: seq<Ev>, bound: set<Ev>)
    requires Distinct(s) && forall i :: 0 <= i < |s| ==> s[i] in bound
    ensures |s| <= |bound|
  {
    if s == [] {
    } else {
      assert forall i :: 0 <= i < |s[1..]| ==> s[1..][i] == s[i + 1] && s[i + 1] != s[0];
      DistinctFit(s[1..], bound - {s[0]});
    }
  }

  lemma RoomForOne(l: State<Ev>)
    requires TableInv(l) && forall e :: OnWatch(l.recs, e) ==> Others(e)
    ensures FreeSlot(l.table) < MAX_FD_EVENTS
  {
    if FreeSlot(l.table) >= MAX_FD_EVENTS {
      var evs := seq(|l.table|, i requires 0 <= i < |l.table| => l.table[i].ev);
      var others := {WakeupEv, OtherEv(0), OtherEv(1), OtherEv(2), OtherEv(3), OtherEv(4), OtherEv(5)};
      forall i | 0 <= i < |evs|
        ensures evs[i] in others
      {
        assert OnWatch(l.recs, evs[i]);
      }
      assert forall i :: 0 <= i < |evs| ==> l.recs[evs[i]].index == i;
      DistinctFit(evs, others);
    }
  }

  // ---------- frames ----------

  /** `t` differs from `l` in what is watched, and in events that are no timers. */
  ghost predicate SameTimers(l: State<Ev>, t: State<Ev>) {
    && t.timers == l.timers && t.expired == l.expired && t.clock == l.clock
    && (forall a :: TimerEv(a) in l.recs <==> TimerEv(a) in t.recs)
    && (forall a :: TimerEv(a) in l.recs && TimerEv(a) in t.recs ==> t.recs[TimerEv(a)] == l.recs[TimerEv(a)])
  }

  lemma SameTimersKeep(l: State<Ev>, t: State<Ev>, w: Wake, ex: Option<nat>, held: bool)
    requires TimersInv(l, w, ex) && LockInv(l, w, held) && SameTimers(l, t)
    ensures TimersInv(t, w, ex) && LockInv(t, w, held)
  {
    assert forall e :: OnTimers(l, e) <==> OnTimers(t, e);
  }

  // ---------- the connection ----------

  lemma ListenWatched(l: State<Ev>, t: State<Ev>, k: Link, i: nat)
    requires LinkInv(l, k, true) && t.ready == l.ready && t.recs == l.recs[ListenEv := l.recs[ListenEv].(index := i)]
    ensures LinkInv(t, k, false)
  {
    assert forall e :: OnWatch(t.recs, e) <==> OnWatch(l.recs, e) || e == ListenEv;
  }

  lemma AddedTo(l: State<Ev>, e: Ev)
    requires |l.table| == MAX_FD_EVENTS && e in l.recs && !e.TimerEv? && FreeSlot(l.table) < MAX_FD_EVENTS
    ensures var t := EventAdd(l, e);
            SameTimers(l, t) && t.ready == l.ready && t.recs == l.recs[e := l.recs[e].(index := FreeSlot(l.table))]
  {
  }

  lemma CanListen(l: State<Ev>, k: Link)
    requires Inv(l) && LinkInv(l, k, true)
    ensures Permitted(l, Add(ListenEv)) && FreeSlot(l.table) < MAX_FD_EVENTS && |l.table| == MAX_FD_EVENTS
  {
    RoomForOne(l);
    WatchedIsOnWatch(l, ListenEv);
  }

  /** Nothing of telephony's is watched: listening again is permitted, and succeeds. */
  lemma ListenAgain(l: State<Ev>, k: Link)
    requires Inv(l) && LinkInv(l, k, true)
    ensures Permitted(l, Add(ListenEv))
    ensures Inv(EventAdd(l, ListenEv)) && LinkInv(EventAdd(l, ListenEv), k, false)
    ensures SameTimers(l, EventAdd(l, ListenEv))
  {
    CanListen(l, k);
    ActionKeepsInv(l, Add(ListenEv));
    AddedTo(l, ListenEv);
    ListenWatched(l, EventAdd(l, ListenEv), k, FreeSlot(l.table));
  }

  lemma Unlisted(l: State<Ev>, k: Link)
    requires Inv(l) && LinkInv(l, k, true)
    ensures !Queued(l, CommandsEv) && !Watched(l, CommandsEv)
  {
    WatchedIsOnWatch(l, CommandsEv);
    assert forall i :: 0 <= i < |l.timers| ==> Evs(l.timers)[i] != CommandsEv;
    assert forall i :: 0 <= i < |l.expired| ==> Evs(l.expired)[i] != CommandsEv;
  }

  lemma SetCommands(l: State<Ev>, k: Link, fd: int)
    requires Inv(l) && LinkInv(l, k, true)
    ensures var t := EventSet(l, CommandsEv, fd, true, 0, 0);
            Inv(t) && SameTimers(l, t) && !Watched(t, CommandsEv) && FreeSlot(t.table) < MAX_FD_EVENTS
  {
    Unlisted(l, k);
    RoomForOne(l);
    SetCommandsKeeps(l, fd);
  }

  lemma SetCommandsKeeps(l: State<Ev>, fd: int)
    requires Inv(l) && !Queued(l, CommandsEv) && !Watched(l, CommandsEv)
    ensures Inv(EventSet(l, CommandsEv, fd, true, 0, 0))
  {
    ActionKeepsInv(l, Set(CommandsEv, fd, true, 0, 0));
  }

  lemma AddCommands(l: State<Ev>, fd: int)
    requires Inv(l) && !Watched(l, CommandsEv) && FreeSlot(l.table) < MAX_FD_EVENTS && CommandsEv in l.recs
    requires l.recs[CommandsEv].fd == fd >= 0 && fd !in l.readFds
    ensures var t := EventAdd(l, CommandsEv);
            Inv(t) && SameTimers(l, t)
  {
    ActionKeepsInv(l, Add(CommandsEv));
    AddedTo(l, CommandsEv);
  }

  lemma CommandsWatched(l: State<Ev>, t: State<Ev>, k: Link, fd: int, i: nat)
    requires LinkInv(l, k, true) && fd >= 0 && fd != k.fdListen
    requires t.ready == l.ready && t.recs == l.recs[CommandsEv := Rec(fd, i, true, ZERO, 0, 0)]
    ensures LinkInv(t, k.(fdCommand := fd, conn := k.conn + 1), false)
  {
    assert forall e :: OnWatch(t.recs, e) <==> OnWatch(l.recs, e) || e == CommandsEv;
  }

  ghost function Watching(l: State<Ev>, fd: int): State<Ev> {
    EventAdd(EventSet(l, CommandsEv, fd, true, 0, 0), CommandsEv)
  }

  lemma ConnectKeepsLoop(l: State<Ev>, k: Link, fd: int)
    requires Inv(l) && LinkInv(l, k, true) && fd >= 0 && fd !in l.readFds
    ensures Inv(Watching(l, fd)) && SameTimers(l, Watching(l, fd))
  {
    SetCommands(l, k, fd);
    AddCommands(EventSet(l, CommandsEv, fd, true, 0, 0), fd);
  }

  lemma ConnectKeepsLink(l: State<Ev>, k: Link, fd: int)
    requires TableInv(l) && LinkInv(l, k, true) && fd >= 0 && fd != k.fdListen
    ensures LinkInv(Watching(l, fd), k.(fdCommand := fd, conn := k.conn + 1), false)
  {
    RoomForOne(l);
    var m := EventSet(l, CommandsEv, fd, true, 0, 0);
    AddedTo(m, CommandsEv);
    CommandsWatched(l, EventAdd(m, CommandsEv), k, fd, FreeSlot(m.table));
  }

  /** While nothing is connected every request from telephony is cancelled already. */
  lemma ConnectKeepsLedger(g: Ledger, k: Link, k': Link)
    requires LedgerInv(g, k) && k.fdCommand < 0
    ensures LedgerInv(g, k')
  {
    assert forall i :: 0 <= i < |g.pending| && PendingOk(g, k, g.pending[i]) ==> PendingOk(g, k', g.pending[i]);
  }

  lemma ListenKeeps(r: Ril, a: Accept)
    requires CoreInv(r, None, false, true) && CanAccept(r, a)
    ensures CoreInv(ListenCallback(r, a), None, false, false)
  {
    match a
    case AcceptFailed =>
      ListenAgain(r.loop, r.link);
      SameTimersKeep(r.loop, EventAdd(r.loop, ListenEv), r.wake, None, false);
    case Stranger =>
      ListenAgain(r.loop, r.link);
      SameTimersKeep(r.loop, EventAdd(r.loop, ListenEv), r.wake, None, false);
      CancelKeeps(r.ledger, r.link, r.link);
    case Phone(fd, greeting) =>
      ConnectKeepsLoop(r.loop, r.link, fd);
      ConnectKeepsLink(r.loop, r.link, fd);
      SameTimersKeep(r.loop, Connected(r, fd).loop, r.wake, None, false);
      ConnectKeepsLedger(r.ledger, r.link, Connected(r, fd).link);
      DoAllKeeps(Connected(r, fd), greeting, None, false);
  }

  lemma CommandsUnwatched(l: State<Ev>, t: State<Ev>, k: Link)
    requires LinkInv(l, k, false) && OnWatch(l.recs, CommandsEv) && CommandsEv !in l.ready
    requires t.ready == l.ready && t.recs == l.recs[CommandsEv := l.recs[CommandsEv].(index := -1)]
    ensures LinkInv(t, k.(fdCommand := -1), true)
  {
    assert forall e :: OnWatch(t.recs, e) <==> OnWatch(l.recs, e) && e != CommandsEv;
  }

  lemma DelCommands(l: State<Ev>)
    requires TableInv(l) && CommandsEv in l.recs
    ensures var t := EventDel(l, CommandsEv);
            SameTimers(l, t) && t.ready == l.ready && t.recs == l.recs[CommandsEv := l.recs[CommandsEv].(index := -1)]
  {
  }

  lemma HangUpKeepsLink(l: State<Ev>, k: Link)
    requires Inv(l) && LinkInv(l, k, false) && OnWatch(l.recs, CommandsEv) && CommandsEv !in l.ready
    ensures var t := EventDel(l, CommandsEv);
            Inv(t) && LinkInv(t, k.(fdCommand := -1), true) && SameTimers(l, t)
  {
    ActionKeepsInv(l, Del(CommandsEv));
    DelCommands(l);
    CommandsUnwatched(l, EventDel(l, CommandsEv), k);
  }

  lemma CloseKeeps(r: Ril)
    requires CoreInv(r, None, false, false) && OnWatch(r.loop.recs, CommandsEv) && CommandsEv !in r.loop.ready
    ensures CoreInv(CloseCommands(r), None, false, false)
  {
    var k := r.link.(fdCommand := -1);
    HangUpKeepsLink(r.loop, r.link);
    var m := EventDel(r.loop, CommandsEv);
    SameTimersKeep(r.loop, m, r.wake, None, false);
    ListenAgain(m, k);
    SameTimersKeep(m, EventAdd(m, ListenEv), r.wake, None, false);
    CancelKeeps(r.ledger, r.link, k);
  }

  lemma CommandsKeep(r: Ril, recs: seq<Record>, closes: bool)
    requires CoreInv(r, None, false, false) && OnWatch(r.loop.recs, CommandsEv) && CommandsEv !in r.loop.ready
    requires CanProcessAll(r, recs)
    ensures CoreInv(CommandsCallback(r, recs, closes), None, false, false)
  {
    ProcessAllKeeps(r, recs);
    if closes {
      CloseKeeps(ProcessRecords(r, recs));
    }
  }

  // ---------- timers fire ----------

  lemma FreeKeepsLink(l: State<Ev>, k: Link, addr: nat)
    requires LinkInv(l, k, false)
    ensures LinkInv(l.(recs := l.recs - {TimerEv(addr)}), k, false)
  {
    var t := l.(recs := l.recs - {TimerEv(addr)});
    assert forall e: Ev :: !e.TimerEv? ==> (OnWatch(l.recs, e) <==> OnWatch(t.recs, e));
  }

  lemma FreePermitted(r: Ril, addr: nat)
    requires Inv(r.loop) && TimersInv(r.loop, r.wake, Some(addr))
    ensures Permitted(r.loop, Free(TimerEv(addr)))
  {
    var e, l := TimerEv(addr), r.loop;
    WatchedIsOnWatch(l, e);
    assert forall i :: 0 <= i < |l.timers| ==> Evs(l.timers)[i] == l.timers[i].ev;
    assert forall i :: 0 <= i < |l.expired| ==> Evs(l.expired)[i] == l.expired[i].ev;
  }

  lemma TimerDoneKeepsTimers(r: Ril, addr: nat)
    requires TimersInv(r.loop, r.wake, Some(addr)) && WakeInv(r.wake) && LockInv(r.loop, r.wake, false)
    ensures var t := TimerDone(r, addr);
            TimersInv(t.loop, t.wake, None) && WakeInv(t.wake) && LockInv(t.loop, t.wake, false)
  {
    var t := TimerDone(r, addr);
    assert forall e :: OnTimers(r.loop, e) <==> OnTimers(t.loop, e);
  }

  /** The wake timer is the only one that ends the lock, and it does so late enough. */
  lemma TimerDoneKeeps(r: Ril, addr: nat)
    requires CoreInv(r, Some(addr), false, false)
    ensures CoreInv(TimerDone(r, addr), None, false, false)
  {
    FreePermitted(r, addr);
    ActionKeepsInv(r.loop, Free(TimerEv(addr)));
    FreeKeepsLink(r.loop, r.link, addr);
    TimerDoneKeepsTimers(r, addr);
  }

  // ---------- the loop takes an event off the pending list ----------

  ghost function Called(e: Ev): Option<nat> {
    if e.TimerEv? then Some(e.addr) else None
  }

  /** The event fired is on neither timer list afterwards; the others stay where they are. */
  lemma FireTakesTimer(l: State<Ev>)
    requires ListInv(l) && Pending(l) != []
    ensures forall e :: OnTimers(l, e) && e != Pending(l)[0] ==> OnTimers(Fire(l), e)
    ensures l.expired != [] ==> Pending(l)[0] == l.expired[0].ev && !OnTimers(Fire(l), l.expired[0].ev)
  {
    var t := Fire(l);
    forall e | OnTimers(l, e) && e != Pending(l)[0]
      ensures OnTimers(t, e)
    {
      if i :| 0 <= i < |l.expired| && l.expired[i].ev == e {
        assert Pending(l)[0] == Evs(l.expired)[0];
        assert t.expired[i - 1] == l.expired[i];
      }
    }
    if l.expired != [] {
      var all := Evs(l.timers) + Evs(l.expired) + l.ready;
      assert all[|l.timers|] == l.expired[0].ev;
      assert forall i :: 0 <= i < |l.timers| ==> all[i] == l.timers[i].ev;
      assert forall i :: 0 < i < |l.expired| ==> all[|l.timers| + i] == l.expired[i].ev;
    }
  }

  /** A timer is fired off the pending list only when overdue. */
  lemma FiredTimer(l: State<Ev>, w: Wake)
    requires ListInv(l) && OrderInv(l) && TimersInv(l, w, None) && Pending(l) != [] && Pending(l)[0].TimerEv?
    ensures var head := Pending(l)[0];
            l.expired != [] && head in l.recs && head.addr in w.infos && Before(l.recs[head].timeout, l.clock)
  {
    assert l.ready != [] ==> l.ready[0] in l.ready;
    assert l.expired != [] ==> Pending(l)[0] == l.expired[0].ev;
  }

  lemma FireKeepsTimers(l: State<Ev>, w: Wake)
    requires Inv(l) && TimersInv(l, w, None) && EventModel.Enabled(l, FireNext)
    ensures TimersInv(Fire(l), w, Called(Pending(l)[0]))
  {
    FireTakesTimer(l);
    if Pending(l)[0].TimerEv? {
      FiredTimer(l, w);
    }
  }

  lemma FireKeepsLock(l: State<Ev>, w: Wake)
    requires LockInv(l, w, false) && Pending(l) != []
    ensures LockInv(Fire(l), w, false)
  {
  }

  lemma ReadyHead(l: State<Ev>, e: Ev)
    requires Inv(l) && EventModel.Enabled(l, FireNext) && e in l.recs && l.recs[e].fd >= 0
    ensures Pending(l)[0] == e <==> l.expired == [] && l.ready[0] == e
    ensures e in Fire(l).ready <==> e in l.ready && e != Pending(l)[0]
  {
    var all := Evs(l.timers) + Evs(l.expired) + l.ready;
    assert l.expired != [] ==> Pending(l)[0] == l.expired[0].ev;
    forall i, j | 0 <= i < j < |l.ready|
      ensures l.ready[i] != l.ready[j]
    {
      assert all[|l.timers| + |l.expired| + i] == l.ready[i];
      assert all[|l.timers| + |l.expired| + j] == l.ready[j];
    }
  }

  lemma FireKeepsLink(l: State<Ev>, k: Link)
    requires Inv(l) && LinkInv(l, k, false) && EventModel.Enabled(l, FireNext)
    ensures LinkInv(Fire(l), k, Pending(l)[0] == ListenEv)
    ensures Pending(l)[0] == CommandsEv ==> OnWatch(l.recs, CommandsEv) && CommandsEv !in Fire(l).ready
  {
    ReadyHead(l, ListenEv);
    if CommandsEv in l.recs {
      ReadyHead(l, CommandsEv);
    } else {
      assert CommandsEv !in l.ready;
      NotPending(l, CommandsEv);
    }
  }

  lemma NotPending(l: State<Ev>, e: Ev)
    requires Inv(l) && EventModel.Enabled(l, FireNext) && e !in l.recs
    ensures Pending(l)[0] != e
  {
    QueuedIsKnown(l, e);
    assert l.expired != [] ==> Pending(l)[0] == Evs(l.expired)[0];
  }

  lemma FireKeeps(r: Ril)
    requires RilInv(r) && EventModel.Enabled(r.loop, FireNext)
    ensures CoreInv(r.(loop := Fire(r.loop)), Called(Pending(r.loop)[0]), false, Pending(r.loop)[0] == ListenEv)
  {
    StepKeepsInv(r.loop, FireNext);
    FireKeepsTimers(r.loop, r.wake);
    FireKeepsLock(r.loop, r.wake);
    FireKeepsLink(r.loop, r.link);
  }
}
