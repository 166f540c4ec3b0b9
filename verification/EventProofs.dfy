/** Safety of the RIL event loop over every run. */
module EventProofs {
  import opened Time
  import opened EventModel
  import opened Sequences

  // ---------- the watch table ----------

  lemma WatchedIsOnWatch<E>(s: State<E>, e: E)
    requires TableInv(s)
    ensures Watched(s, e) <==> OnWatch(s.recs, e)
  {
  }

  /** If the watched events and their descriptors stay, so does what is known of the fds. */
  lemma SameWatch<E>(s: State<E>, t: State<E>)
    requires FdInv(s) && t.readFds == s.readFds && t.nfds == s.nfds
    requires forall e :: OnWatch(s.recs, e) <==> OnWatch(t.recs, e)
    requires forall e :: OnWatch(s.recs, e) && OnWatch(t.recs, e) ==> t.recs[e].fd == s.recs[e].fd
    ensures FdInv(t)
  {
    forall fd
      ensures WatchesFd(s.recs, fd) <==> WatchesFd(t.recs, fd)
    {
      if WatchesFd(s.recs, fd) {
        var e :| OnWatch(s.recs, e) && s.recs[e].fd == fd;
        assert OnWatch(t.recs, e) && t.recs[e].fd == fd;
      }
      if WatchesFd(t.recs, fd) {
        var e :| OnWatch(t.recs, e) && t.recs[e].fd == fd;
        assert OnWatch(s.recs, e) && s.recs[e].fd == fd;
      }
    }
  }

  /** Changing the record of an event that is not watched changes nothing in the table. */
  lemma UnwatchedKeepsTable<E>(s: State<E>, t: State<E>, e: E)
    requires TableInv(s) && FdInv(s) && !Watched(s, e)
    requires t.table == s.table && t.readFds == s.readFds && t.nfds == s.nfds
    requires forall x :: x != e ==> (x in t.recs <==> x in s.recs)
    requires forall x :: x != e && x in s.recs ==> t.recs[x] == s.recs[x]
    requires e in t.recs ==> t.recs[e].index == -1
    ensures TableInv(t) && FdInv(t)
  {
    WatchedIsOnWatch(s, e);
    SameWatch(s, t);
  }

  lemma AddKeepsTable<E>(s: State<E>, e: E)
    requires TableInv(s) && FdInv(s) && Permitted(s, Add(e))
    ensures TableInv(EventAdd(s, e))
  {
    var t := EventAdd(s, e);
    WatchedIsOnWatch(s, e);
    forall x | OnWatch(s.recs, x)
      ensures s.recs[x].fd != s.recs[e].fd
    {
      assert WatchesFd(s.recs, s.recs[x].fd);
    }
  }

  lemma AddKeepsFds<E>(s: State<E>, e: E)
    requires TableInv(s) && FdInv(s) && Permitted(s, Add(e))
    ensures FdInv(EventAdd(s, e))
  {
    var t := EventAdd(s, e);
    WatchedIsOnWatch(s, e);
    if FreeSlot(s.table) < |s.table| {
      AddedFds(s.recs, e, FreeSlot(s.table));
    }
  }

  lemma AddedFds<E>(recs: map<E, Rec>, e: E, k: nat)
    requires e in recs && !OnWatch(recs, e)
    ensures forall fd :: WatchesFd(recs[e := recs[e].(index := k)], fd) <==> WatchesFd(recs, fd) || fd == recs[e].fd
  {
    var recs' := recs[e := recs[e].(index := k)];
    forall fd
      ensures WatchesFd(recs', fd) <==> WatchesFd(recs, fd) || fd == recs[e].fd
    {
      assert OnWatch(recs', e) && recs'[e].fd == recs[e].fd;
      if WatchesFd(recs, fd) {
        var x :| OnWatch(recs, x) && recs[x].fd == fd;
        assert OnWatch(recs', x) && recs'[x].fd == fd;
      }
      if WatchesFd(recs', fd) && fd != recs[e].fd {
        var x :| OnWatch(recs', x) && recs'[x].fd == fd;
        assert OnWatch(recs, x) && recs[x].fd == fd;
      }
    }
  }

  lemma RemoveKeepsTable<E>(s: State<E>, e: E, k: nat)
    requires TableInv(s) && k < |s.table| && s.table[k] == Holds(e)
    ensures TableInv(RemoveWatch(s, e, k))
  {
    var t := RemoveWatch(s, e, k);
    forall i | 0 <= i < |t.table| && t.table[i].Holds?
      ensures t.table[i].ev in t.recs && t.recs[t.table[i].ev].index == i
    {
      assert t.table[i] == s.table[i] && t.table[i].ev != e;
    }
    forall x | OnWatch(t.recs, x)
      ensures OnWatch(s.recs, x) && x != e && t.recs[x] == s.recs[x] && s.recs[x].index != k
    {
    }
  }

  lemma RemovedFds<E>(recs: map<E, Rec>, e: E)
    requires OnWatch(recs, e)
    requires forall x :: OnWatch(recs, x) && x != e ==> recs[x].fd != recs[e].fd
    ensures forall fd :: WatchesFd(recs[e := recs[e].(index := -1)], fd) <==> WatchesFd(recs, fd) && fd != recs[e].fd
  {
    var recs' := recs[e := recs[e].(index := -1)];
    forall fd
      ensures WatchesFd(recs', fd) <==> WatchesFd(recs, fd) && fd != recs[e].fd
    {
      if WatchesFd(recs, fd) && fd != recs[e].fd {
        var x :| OnWatch(recs, x) && recs[x].fd == fd;
        assert OnWatch(recs', x) && recs'[x].fd == fd;
      }
      if WatchesFd(recs', fd) {
        var x :| OnWatch(recs', x) && recs'[x].fd == fd;
        assert OnWatch(recs, x) && recs[x].fd == fd;
      }
    }
  }

  /** removeWatch recomputes the largest watched descriptor. */
  lemma TopFdIsTop<E>(s: State<E>)
    requires TableInv(s)
    ensures forall e :: OnWatch(s.recs, e) ==> s.recs[e].fd <= TopFd(s.recs, s.table)
    ensures TopFd(s.recs, s.table) == 0 || WatchesFd(s.recs, TopFd(s.recs, s.table))
  {
    var n := TopFd(s.recs, s.table);
    forall e | OnWatch(s.recs, e)
      ensures s.recs[e].fd <= n
    {
      assert s.table[s.recs[e].index].Holds?;
    }
    if n != 0 {
      var i :| 0 <= i < |s.table| && s.table[i].Holds? && s.recs[s.table[i].ev].fd == n;
      assert OnWatch(s.recs, s.table[i].ev);
    }
  }

  lemma RemoveTopFd<E>(s: State<E>, e: E, k: nat)
    requires TableInv(s) && FdInv(s) && k < |s.table| && s.table[k] == Holds(e)
    requires s.recs[e].fd + 1 == s.nfds
    ensures var t := RemoveWatch(s, e, k);
            && (forall x :: OnWatch(t.recs, x) ==> t.recs[x].fd < t.nfds)
            && 0 <= t.nfds && (t.nfds <= 1 || WatchesFd(t.recs, t.nfds - 1))
  {
    var t := RemoveWatch(s, e, k);
    RemoveKeepsTable(s, e, k);
    TopFdIsTop(t);
  }

  lemma RemoveOtherFd<E>(s: State<E>, e: E, k: nat)
    requires TableInv(s) && FdInv(s) && k < |s.table| && s.table[k] == Holds(e)
    requires s.recs[e].fd + 1 != s.nfds
    ensures var t := RemoveWatch(s, e, k);
            && (forall x :: OnWatch(t.recs, x) ==> t.recs[x].fd < t.nfds)
            && 0 <= t.nfds && (t.nfds <= 1 || WatchesFd(t.recs, t.nfds - 1))
  {
    var t := RemoveWatch(s, e, k);
    assert OnWatch(s.recs, e);
    RemovedFds(s.recs, e);
    forall x | OnWatch(t.recs, x)
      ensures t.recs[x].fd < t.nfds
    {
      assert OnWatch(s.recs, x) && t.recs[x] == s.recs[x];
    }
  }

  lemma RemoveKeepsFds<E>(s: State<E>, e: E, k: nat)
    requires TableInv(s) && FdInv(s) && k < |s.table| && s.table[k] == Holds(e)
    ensures FdInv(RemoveWatch(s, e, k))
  {
    if s.recs[e].fd + 1 == s.nfds {
      RemoveTopFd(s, e, k);
    } else {
      RemoveOtherFd(s, e, k);
    }
    assert OnWatch(s.recs, e);
    RemovedFds(s.recs, e);
  }

  lemma ActionKeepsTable<E>(s: State<E>, a: Action<E>)
    requires TableInv(s) && FdInv(s) && Permitted(s, a)
    ensures TableInv(Perform(s, a)) && FdInv(Perform(s, a))
  {
    var t := Perform(s, a);
    match a
    case Set(e, _, _, _, _) => UnwatchedKeepsTable(s, t, e);
    case Add(e) => AddKeepsTable(s, e); AddKeepsFds(s, e);
    case Del(e) =>
      var k := s.recs[e].index;
      if 0 <= k < MAX_FD_EVENTS {
        RemoveKeepsTable(s, e, k);
        RemoveKeepsFds(s, e, k);
      }
    case AddTimer(e, _, _) =>
      WatchedIsOnWatch(s, e);
      UnwatchedKeepsTable(s, t, e);
    case Free(e) => UnwatchedKeepsTable(s, t, e);
  }

  // ---------- the lists ----------

  lemma TimerAddKeepsLists<E>(s: State<E>, e: E, delay: TimeVal, now: TimeVal)
    requires ListInv(s) && e in s.recs && !Queued(s, e)
    ensures ListInv(TimerAdd(s, e, Some(delay), now))
  {
    var t := TimerAdd(s, e, Some(delay), now);
    QueuedDues(s, e);
    var due := Due(e, Plus(now, delay));
    var i := InsertPos(s.timers, due.deadline);
    InsertedEvs(s.timers, i, due);
    assert Evs(s.timers) + Evs(s.expired) + s.ready == Evs(s.timers) + (Evs(s.expired) + s.ready);
    InsertDistinct(Evs(s.timers), i, e, Evs(s.expired) + s.ready);
    assert Evs(t.timers) + Evs(t.expired) + t.ready == Evs(t.timers) + (Evs(s.expired) + s.ready);
  }

  lemma UnqueuedKeepsLists<E>(s: State<E>, t: State<E>, e: E)
    requires ListInv(s) && !Queued(s, e)
    requires t.timers == s.timers && t.expired == s.expired && t.ready == s.ready && t.polled == s.polled
    requires forall x :: x != e && x in s.recs ==> x in t.recs && t.recs[x] == s.recs[x]
    ensures ListInv(t)
  {
    QueuedDues(s, e);
  }

  lemma IndexKeepsLists<E>(s: State<E>, t: State<E>)
    requires ListInv(s)
    requires t.timers == s.timers && t.expired == s.expired && t.ready == s.ready && t.polled == s.polled
    requires forall x :: x in s.recs ==> x in t.recs && t.recs[x].fd == s.recs[x].fd && t.recs[x].timeout == s.recs[x].timeout
    ensures ListInv(t)
  {
  }

  lemma ActionKeepsLists<E>(s: State<E>, a: Action<E>)
    requires TableInv(s) && ListInv(s) && Permitted(s, a)
    ensures ListInv(Perform(s, a))
  {
    match a
    case Set(e, _, _, _, _) => UnqueuedKeepsLists(s, Perform(s, a), e);
    case Free(e) => UnqueuedKeepsLists(s, Perform(s, a), e);
    case Add(e) => IndexKeepsLists(s, EventAdd(s, e));
    case Del(e) => IndexKeepsLists(s, EventDel(s, e));
    case AddTimer(e, delay, now) =>
      if delay.Some? {
        TimerAddKeepsLists(s, e, delay.value, now);
      }
  }

  lemma QueuedDues<E>(s: State<E>, e: E)
    requires !Queued(s, e)
    ensures forall i :: 0 <= i < |s.timers| ==> s.timers[i].ev != e
    ensures forall i :: 0 <= i < |s.expired| ==> s.expired[i].ev != e
  {
    assert forall i :: 0 <= i < |s.timers| ==> Evs(s.timers)[i] == s.timers[i].ev;
    assert forall i :: 0 <= i < |s.expired| ==> Evs(s.expired)[i] == s.expired[i].ev;
  }

  ghost predicate IsPlace<E>(timers: seq<Due<E>>, deadline: TimeVal, i: nat) {
    && i <= |timers| && (forall j :: 0 <= j < i ==> Before(timers[j].deadline, deadline))
    && (i < |timers| ==> !Before(timers[i].deadline, deadline))
  }

  lemma InsertPosIs<E>(timers: seq<Due<E>>, deadline: TimeVal, i: nat)
    requires IsPlace(timers, deadline, i)
    ensures InsertPos(timers, deadline) == i
  {
  }

  lemma MoveOneMore<E>(s: State<E>, k: nat)
    requires k < |s.timers|
    ensures MoveExpired(MoveExpired(s, k), 1) == MoveExpired(s, k + 1)
  {
    assert s.timers[..k + 1] == s.timers[..k] + s.timers[k..][..1];
    assert s.expired + s.timers[..k + 1] == s.expired + s.timers[..k] + s.timers[k..][..1];
  }

  lemma MoveNone<E>(s: State<E>)
    ensures MoveExpired(s, 0) == s
  {
    assert s.expired + s.timers[..0] == s.expired;
  }

  ghost predicate IsExpiredCount<E>(timers: seq<Due<E>>, now: TimeVal, k: nat) {
    && k <= |timers| && (forall j :: 0 <= j < k ==> Before(timers[j].deadline, now))
    && (k < |timers| ==> !Before(timers[k].deadline, now))
  }

  lemma ExpiredCountIs<E>(timers: seq<Due<E>>, now: TimeVal, k: nat)
    requires IsExpiredCount(timers, now, k)
    ensures ExpiredCount(timers, now) == k
  {
  }

  lemma InsertedEvs<E>(dues: seq<Due<E>>, i: nat, due: Due<E>)
    requires i <= |dues|
    ensures Evs(dues[..i] + [due] + dues[i..]) == Evs(dues)[..i] + [due.ev] + Evs(dues)[i..]
  {
  }

  lemma InsertDistinct<T>(a: seq<T>, i: nat, x: T, b: seq<T>)
    requires i <= |a| && Distinct(a + b) && x !in a && x !in b
    ensures Distinct(a[..i] + [x] + a[i..] + b)
  {
    var r := a[..i] + [x] + a[i..] + b;
    var o := a + b;
    forall p, q | 0 <= p < q < |r|
      ensures r[p] != r[q]
    {
      var p', q' := if p < i then p else p - 1, if q < i then q else q - 1;
      assert p != i ==> r[p] == o[p'] && r[p] in o;
      assert q != i ==> r[q] == o[q'] && r[q] in o;
    }
  }

  // ---------- the order ----------

  lemma InsertSorted<E>(line: seq<Due<E>>, k: nat, due: Due<E>)
    requires Sorted(line) && k <= |line|
    requires forall j :: 0 <= j < k ==> NotAfter(line[j].deadline, due.deadline)
    requires k < |line| ==> NotAfter(due.deadline, line[k].deadline)
    ensures Sorted(line[..k] + [due] + line[k..])
    ensures multiset(line[..k] + [due] + line[k..]) == multiset(line) + multiset{due}
  {
    InsertBag(line, k, due);
    var r := line[..k] + [due] + line[k..];
    forall p, q | 0 <= p < q < |r|
      ensures NotAfter(r[p].deadline, r[q].deadline)
    {
      InsertAt(line, k, due, p);
      InsertAt(line, k, due, q);
      SortedAround(line, k, due, p, q);
    }
  }

  /** Of two places of the line with `due` put in at `k`, the earlier has the earlier deadline. */
  lemma SortedAround<E>(line: seq<Due<E>>, k: nat, due: Due<E>, p: nat, q: nat)
    requires Sorted(line) && k <= |line| && p < q <= |line|
    requires forall j :: 0 <= j < k ==> NotAfter(line[j].deadline, due.deadline)
    requires k < |line| ==> NotAfter(due.deadline, line[k].deadline)
    ensures var x, y := (if p < k then line[p] else if p == k then due else line[p - 1]),
                        (if q < k then line[q] else if q == k then due else line[q - 1]);
            NotAfter(x.deadline, y.deadline)
  {
    if p == k && q - 1 > k {
      assert NotAfter(line[k].deadline, line[q - 1].deadline);
    }
  }

  /** A timer goes after everything that has fired or expired, at its place among the others. */
  lemma InsertKeepsOrder<E>(s: State<E>, due: Due<E>, i: nat)
    requires OrderInv(s) && NotAfter(s.clock, due.deadline) && IsPlace(s.timers, due.deadline, i)
    ensures var line := s.shots + s.expired + (s.timers[..i] + [due] + s.timers[i..]);
            Sorted(line) && multiset(line) == s.added + multiset{due}
  {
    var head := s.shots + s.expired;
    var line := head + s.timers;
    var k := |head| + i;
    EarlierHead(s, due, i);
    assert k < |line| ==> line[k] == s.timers[i];
    InsertSorted(line, k, due);
    assert line[..k] + [due] + line[k..] == head + (s.timers[..i] + [due] + s.timers[i..]);
  }

  lemma EarlierHead<E>(s: State<E>, due: Due<E>, i: nat)
    requires OrderInv(s) && NotAfter(s.clock, due.deadline) && IsPlace(s.timers, due.deadline, i)
    ensures forall j :: 0 <= j < |s.shots + s.expired| + i ==> NotAfter(Timeline(s)[j].deadline, due.deadline)
  {
    var head := s.shots + s.expired;
    forall j | 0 <= j < |head| + i
      ensures NotAfter(Timeline(s)[j].deadline, due.deadline)
    {
      if j < |head| {
        assert Timeline(s)[j] == head[j];
      } else {
        assert Timeline(s)[j] == s.timers[j - |head|];
      }
    }
  }

  lemma TimerAddKeepsOrder<E>(s: State<E>, e: E, delay: TimeVal, now: TimeVal)
    requires OrderInv(s) && e in s.recs && NonNegative(delay) && NotAfter(s.clock, now)
    ensures OrderInv(TimerAdd(s, e, Some(delay), now))
  {
    DeadlineNotBeforeNow(now, delay);
    InsertKeepsOrder(s, Due(e, Plus(now, delay)), InsertPos(s.timers, Plus(now, delay)));
  }

  lemma SameOrder<E>(s: State<E>, t: State<E>)
    requires OrderInv(s)
    requires t.shots == s.shots && t.expired == s.expired && t.timers == s.timers
    requires t.clock == s.clock && t.shotAt == s.shotAt && t.added == s.added
    ensures OrderInv(t)
  {
  }

  lemma ActionKeepsOrder<E>(s: State<E>, a: Action<E>)
    requires TableInv(s) && OrderInv(s) && Permitted(s, a)
    ensures OrderInv(Perform(s, a))
  {
    if a.AddTimer? && a.delay.Some? {
      TimerAddKeepsOrder(s, a.ev, a.delay.value, a.now);
    } else {
      OthersKeepTimers(s, a);
      SameOrder(s, Perform(s, a));
    }
  }

  lemma OthersKeepTimers<E>(s: State<E>, a: Action<E>)
    requires TableInv(s) && Permitted(s, a) && !(a.AddTimer? && a.delay.Some?)
    ensures var t := Perform(s, a);
      && t.shots == s.shots && t.expired == s.expired && t.timers == s.timers
      && t.clock == s.clock && t.shotAt == s.shotAt && t.added == s.added
  {
  }

  // ---------- processTimeouts and firePending ----------

  lemma TimeoutsKeepLists<E>(s: State<E>, now: TimeVal)
    requires ListInv(s) && s.expired == [] && s.ready == []
    ensures ListInv(ProcessTimeouts(s, now))
  {
    var t := ProcessTimeouts(s, now);
    var k := ExpiredCount(s.timers, now);
    assert t.expired == s.timers[..k];
    assert Evs(s.timers) + Evs(s.expired) + s.ready == Evs(s.timers[..k]) + Evs(s.timers[k..]);
    Swapped(Evs(s.timers[..k]), Evs(s.timers[k..]));
    assert Evs(t.timers) + Evs(t.expired) + t.ready == Evs(s.timers[k..]) + Evs(s.timers[..k]);
  }

  lemma NothingPending<E>(s: State<E>)
    requires Pending(s) == []
    ensures s.expired == [] && s.ready == []
  {
    assert |Pending(s)| == |s.expired| + |s.ready|;
  }

  lemma MoveKeepsOrder<E>(s: State<E>, k: nat, now: TimeVal)
    requires OrderInv(s) && NotAfter(s.clock, now) && IsExpiredCount(s.timers, now, k)
    ensures OrderInv(MoveExpired(s, k).(polled := true, clock := now))
  {
    var expired := s.expired + s.timers[..k];
    assert s.timers == s.timers[..k] + s.timers[k..];
    assert s.shots + expired + s.timers[k..] == Timeline(s);
    forall i | 0 <= i < |expired|
      ensures Before(expired[i].deadline, now)
    {
      assert i >= |s.expired| ==> expired[i] == s.timers[i - |s.expired|];
    }
  }

  lemma TimeoutsKeepOrder<E>(s: State<E>, now: TimeVal)
    requires OrderInv(s) && NotAfter(s.clock, now)
    ensures OrderInv(ProcessTimeouts(s, now))
  {
    MoveKeepsOrder(s, ExpiredCount(s.timers, now), now);
  }

  lemma TimersSorted<E>(s: State<E>)
    requires OrderInv(s)
    ensures Sorted(s.timers)
  {
    var base := |s.shots + s.expired|;
    forall i, j | 0 <= i < j < |s.timers|
      ensures NotAfter(s.timers[i].deadline, s.timers[j].deadline)
    {
      assert Timeline(s)[base + i] == s.timers[i] && Timeline(s)[base + j] == s.timers[j];
    }
  }

  lemma Swapped<T>(a: seq<T>, b: seq<T>)
    requires Distinct(a + b)
    ensures Distinct(b + a)
  {
    forall p, q | 0 <= p < q < |b + a|
      ensures (b + a)[p] != (b + a)[q]
    {
      var p' := if p < |b| then |a| + p else p - |b|;
      var q' := if q < |b| then |a| + q else q - |b|;
      assert (a + b)[p'] == (b + a)[p] && (a + b)[q'] == (b + a)[q];
    }
  }

  lemma Shortened<T>(a: seq<T>, b: seq<T>)
    requires Distinct(a + b) && b != []
    ensures Distinct(a + b[1..])
  {
    assert forall i :: 0 <= i < |a + b[1..]| ==> (a + b[1..])[i] == (a + b)[if i < |a| then i else i + 1];
  }

  lemma FireKeepsLists<E>(s: State<E>)
    requires ListInv(s) && Enabled(s, FireNext)
    ensures ListInv(Fire(s))
  {
    var t := Fire(s);
    var all := Evs(s.timers) + Evs(s.expired) + s.ready;
    if s.expired != [] {
      assert Evs(t.expired) == Evs(s.expired)[1..];
      assert all == Evs(s.timers) + (Evs(s.expired) + s.ready);
      Shortened(Evs(s.timers), Evs(s.expired) + s.ready);
      assert (Evs(s.expired) + s.ready)[1..] == Evs(s.expired)[1..] + s.ready;
      assert Evs(t.timers) + Evs(t.expired) + t.ready == Evs(s.timers) + (Evs(s.expired)[1..] + s.ready);
    } else {
      Shortened(Evs(s.timers) + Evs(s.expired), s.ready);
    }
  }

  lemma FireKeepsTimeline<E>(s: State<E>)
    requires Pending(s) != []
    ensures Timeline(Fire(s)) == Timeline(s)
  {
    if s.expired != [] {
      assert s.expired == [s.expired[0]] + s.expired[1..];
    }
  }

  lemma FireKeepsOrder<E>(s: State<E>)
    requires OrderInv(s) && Enabled(s, FireNext)
    ensures OrderInv(Fire(s))
  {
    FireKeepsTimeline(s);
  }

  // ---------- processReadReadies ----------

  /** The events of slots `i` on whose descriptor is in `rfds`, in slot order. */
  ghost function ReadyList<E>(recs: map<E, Rec>, table: seq<Slot<E>>, rfds: set<int>, i: nat): seq<E>
    requires Known(recs, table) && i <= |table|
    decreases |table| - i
  {
    if i == |table| then []
    else if table[i].Holds? && recs[table[i].ev].fd in rfds then [table[i].ev] + ReadyList(recs, table, rfds, i + 1)
    else ReadyList(recs, table, rfds, i + 1)
  }

  lemma {:induction false} ReadyListFrame<E>(recs: map<E, Rec>, table: seq<Slot<E>>, recs': map<E, Rec>, table': seq<Slot<E>>,
                           rfds: set<int>, i: nat)
    requires Known(recs, table) && Known(recs', table') && i <= |table| == |table'|
    requires forall j :: i <= j < |table| ==> table[j] == table'[j]
    requires forall j :: i <= j < |table| && table[j].Holds? ==> recs[table[j].ev].fd == recs'[table[j].ev].fd
    ensures ReadyList(recs, table, rfds, i) == ReadyList(recs', table', rfds, i)
    decreases |table| - i
  {
    if i == |table| {
    } else {
      ReadyListFrame(recs, table, recs', table', rfds, i + 1);
    }
  }

  lemma {:induction false} ReadyListMembers<E>(s: State<E>, rfds: set<int>, i: nat)
    requires TableInv(s) && i <= |s.table|
    ensures forall e :: e in ReadyList(s.recs, s.table, rfds, i) ==>
                OnWatch(s.recs, e) && s.recs[e].index >= i && s.recs[e].fd in rfds
    ensures forall e :: OnWatch(s.recs, e) && s.recs[e].index >= i && s.recs[e].fd in rfds ==>
                e in ReadyList(s.recs, s.table, rfds, i)
    ensures Distinct(ReadyList(s.recs, s.table, rfds, i))
    decreases |s.table| - i
  {
    if i == |s.table| {
    } else {
      ReadyListMembers(s, rfds, i + 1);
    }
  }

  /** `t` is `s` after the events `taken` were queued: the non-persistent ones are no longer watched. */
  ghost predicate Took<E>(s: State<E>, taken: seq<E>, t: State<E>) {
    && t == s.(recs := t.recs, table := t.table, readFds := t.readFds, nfds := t.nfds, ready := s.ready + taken)
    && t.recs.Keys == s.recs.Keys
    && |t.table| == |s.table|
    && (forall e :: e in s.recs ==>
          t.recs[e] == if e in taken && !s.recs[e].persist then s.recs[e].(index := -1) else s.recs[e])
    && (forall j :: 0 <= j < |s.table| ==>
          t.table[j] == if s.table[j].Holds? && s.table[j].ev in taken && s.table[j].ev in s.recs
                           && !s.recs[s.table[j].ev].persist then Empty else s.table[j])
  }

  lemma QueueReadyKeepsTable<E>(s: State<E>, i: nat)
    requires TableInv(s) && FdInv(s) && i < |s.table| && s.table[i].Holds?
    ensures TableInv(QueueReady(s, i)) && FdInv(QueueReady(s, i))
  {
    var e := s.table[i].ev;
    var q := s.(ready := s.ready + [e]);
    SameWatch(s, q);
    if !s.recs[e].persist {
      RemoveKeepsTable(q, e, i);
      RemoveKeepsFds(q, e, i);
    }
  }

  lemma QueueReadyTakes<E>(s: State<E>, i: nat)
    requires TableInv(s) && i < |s.table| && s.table[i].Holds?
    ensures Took(s, [s.table[i].ev], QueueReady(s, i))
  {
    assert forall j :: 0 <= j < |s.table| && s.table[j].Holds? ==>
        (s.table[j].ev == s.table[i].ev <==> j == i);
  }

  lemma TookTwice<E>(s: State<E>, a: seq<E>, t: State<E>, b: seq<E>, u: State<E>)
    requires Took(s, a, t) && Took(t, b, u)
    ensures Took(s, a + b, u)
  {
    assert s.ready + a + b == s.ready + (a + b);
  }

  ghost function FirstN<T>(s: seq<T>, n: int): seq<T> {
    if n <= 0 then [] else if n <= |s| then s[..n] else s
  }

  lemma {:induction false} ScanKeepsTable<E>(s: State<E>, rfds: set<int>, n: int, i: nat)
    requires TableInv(s) && FdInv(s) && i <= |s.table|
    ensures TableInv(ScanReady(s, rfds, n, i)) && FdInv(ScanReady(s, rfds, n, i))
    decreases |s.table| - i
  {
    if i == |s.table| || n <= 0 {
    } else {
      if ReadyAt(s, rfds, i) {
        QueueReadyKeepsTable(s, i);
        ScanKeepsTable(QueueReady(s, i), rfds, n - 1, i + 1);
      } else {
        ScanKeepsTable(s, rfds, n, i + 1);
      }
    }
  }

  /** The scan takes the first `n` readable events at or after slot `i`, and no others. */
  lemma {:induction false} ScanTakes<E>(s: State<E>, rfds: set<int>, n: int, i: nat)
    requires TableInv(s) && FdInv(s) && i <= |s.table|
    ensures Took(s, FirstN(ReadyList(s.recs, s.table, rfds, i), n), ScanReady(s, rfds, n, i))
    decreases |s.table| - i, 1
  {
    if i == |s.table| || n <= 0 {
      ScanStops(s, rfds, n, i);
    } else if ReadyAt(s, rfds, i) {
      ScanTakesOne(s, rfds, n, i);
    } else {
      ScanTakes(s, rfds, n, i + 1);
    }
  }

  lemma {:induction false} ScanTakesOne<E>(s: State<E>, rfds: set<int>, n: int, i: nat)
    requires TableInv(s) && FdInv(s) && i < |s.table| && ReadyAt(s, rfds, i) && n > 0
    ensures Took(s, FirstN(ReadyList(s.recs, s.table, rfds, i), n), ScanReady(s, rfds, n, i))
    decreases |s.table| - i, 0
  {
    var t := QueueReady(s, i);
    QueueReadyKeepsTable(s, i);
    QueueReadyTakes(s, i);
    ScanTakes(t, rfds, n - 1, i + 1);
    NextSlots(s, t, rfds, i);
    var rest := ReadyList(s.recs, s.table, rfds, i + 1);
    TookTwice(s, [s.table[i].ev], t, FirstN(rest, n - 1), ScanReady(t, rfds, n - 1, i + 1));
    FirstNCons(s.table[i].ev, rest, n);
  }

  lemma FirstNCons<T>(x: T, rest: seq<T>, n: int)
    requires n > 0
    ensures [x] + FirstN(rest, n - 1) == FirstN([x] + rest, n)
  {
  }

  lemma ScanStops<E>(s: State<E>, rfds: set<int>, n: int, i: nat)
    requires Known(s.recs, s.table) && i <= |s.table| && (i == |s.table| || n <= 0)
    ensures Took(s, FirstN(ReadyList(s.recs, s.table, rfds, i), n), ScanReady(s, rfds, n, i))
  {
    assert FirstN(ReadyList(s.recs, s.table, rfds, i), n) == [];
    assert s.ready + [] == s.ready;
  }

  lemma NextSlots<E>(s: State<E>, t: State<E>, rfds: set<int>, i: nat)
    requires TableInv(s) && TableInv(t) && i < |s.table| && s.table[i].Holds? && Took(s, [s.table[i].ev], t)
    ensures ReadyList(t.recs, t.table, rfds, i + 1) == ReadyList(s.recs, s.table, rfds, i + 1)
  {
    forall j | i + 1 <= j < |s.table|
      ensures s.table[j] == t.table[j]
    {
      if s.table[j].Holds? {
        assert s.recs[s.table[j].ev].index == j && s.recs[s.table[i].ev].index == i;
      }
    }
    ReadyListFrame(s.recs, s.table, t.recs, t.table, rfds, i + 1);
  }

  lemma TookKeepsLists<E>(s: State<E>, taken: seq<E>, t: State<E>)
    requires TableInv(s) && ListInv(s) && s.ready == [] && Took(s, taken, t)
    requires Distinct(taken) && forall e :: e in taken ==> OnWatch(s.recs, e)
    ensures ListInv(t.(polled := false))
  {
    var front := Evs(s.timers) + Evs(s.expired);
    assert front + s.ready == front;
    forall i | 0 <= i < |front|
      ensures front[i] in s.recs && s.recs[front[i]].fd == -1
    {
      if i < |s.timers| {
        assert front[i] == s.timers[i].ev;
      } else {
        assert front[i] == s.expired[i - |s.timers|].ev;
      }
    }
    var all := front + t.ready;
    forall p, q | 0 <= p < q < |all|
      ensures all[p] != all[q]
    {
      if p < |front| <= q {
        assert all[q] == taken[q - |front|] && all[q] in taken;
      }
    }
  }

  lemma ReadiesKeepLists<E>(s: State<E>, rfds: set<int>, n: int)
    requires TableInv(s) && FdInv(s) && ListInv(s) && s.polled
    ensures ListInv(ProcessReadReadies(s, rfds, n))
  {
    ScanTakes(s, rfds, n, 0);
    ReadyListMembers(s, rfds, 0);
    TookKeepsLists(s, FirstN(ReadyList(s.recs, s.table, rfds, 0), n), ScanReady(s, rfds, n, 0));
  }

  // ---------- every run ----------

  lemma ActionKeepsInv<E>(s: State<E>, a: Action<E>)
    requires Inv(s) && Permitted(s, a)
    ensures Inv(Perform(s, a))
  {
    ActionKeepsTable(s, a);
    ActionKeepsLists(s, a);
    ActionKeepsOrder(s, a);
  }

  lemma TimeoutsKeepInv<E>(s: State<E>, now: TimeVal)
    requires Inv(s) && Enabled(s, Timeouts(now))
    ensures Inv(ProcessTimeouts(s, now))
  {
    NothingPending(s);
    TimeoutsKeepLists(s, now);
    TimeoutsKeepOrder(s, now);
  }

  lemma ReadiesKeepInv<E>(s: State<E>, rfds: set<int>, n: int)
    requires Inv(s) && s.polled
    ensures Inv(ProcessReadReadies(s, rfds, n))
  {
    ScanKeepsTable(s, rfds, n, 0);
    ScanTakes(s, rfds, n, 0);
    ReadiesKeepLists(s, rfds, n);
  }

  lemma TickKeepsInv<E>(s: State<E>, now: TimeVal)
    requires Inv(s) && NotAfter(s.clock, now)
    ensures Inv(s.(clock := now))
  {
    SameWatch(s, s.(clock := now));
  }

  /** What the loop keeps at every step, whoever takes it. */
  lemma StepKeepsInv<E>(s: State<E>, step: Step<E>)
    requires Inv(s) && Enabled(s, step)
    ensures Inv(Next(s, step))
  {
    match step
    case Act(a) => ActionKeepsInv(s, a);
    case Tick(now) => TickKeepsInv(s, now);
    case Timeouts(now) => TimeoutsKeepInv(s, now);
    case Readies(rfds, n) => ReadiesKeepInv(s, rfds, n);
    case FireNext => FireKeepsLists(s); FireKeepsOrder(s);
  }
}
