/** What the daemon keeps at every step: the wake lock and its timer, the single connection, the ledger. */
module RildProofs {
  import opened Chains
  import opened Time
  import opened EventModel
  import opened EventProofs
  import opened Rild
  import opened RildSteps

  ghost predicate OnTimers(l: State<Ev>, e: Ev) {
    (exists i :: 0 <= i < |l.timers| && l.timers[i].ev == e) || (exists i :: 0 <= i < |l.expired| && l.expired[i].ev == e)
  }

  /** Live timers, and only they, have an event, and it is on a list; but the one being called back (`ex`)
      is on none and overdue. */
  ghost predicate TimersInv(l: State<Ev>, w: Wake, ex: Option<nat>) {
    && (forall a :: a in w.infos ==> TimerEv(a) in l.recs)
    && (forall a :: a in w.infos && Some(a) != ex ==> OnTimers(l, TimerEv(a)))
    && (forall a :: TimerEv(a) in l.recs ==> a in w.infos && l.recs[TimerEv(a)].fd == -1 && l.recs[TimerEv(a)].index == -1)
    && (ex.Some? ==>
          && ex.value in w.infos && TimerEv(ex.value) in l.recs && !OnTimers(l, TimerEv(ex.value))
          && Before(l.recs[TimerEv(ex.value)].timeout, l.clock))
  }

  /** The remembered wake timer is live, and it is the only one that is not cancelled. */
  ghost predicate WakeInv(w: Wake) {
    && (w.last.Some? ==> w.last.value in w.infos && w.infos[w.last.value] == Info(WakeTimeout, 0))
    && (forall a :: a in w.infos && w.infos[a] == Info(WakeTimeout, 0) ==> w.last == Some(a))
  }

  /** The lock is held exactly on account of that timer or of a message being sent (`held`), unless a
      waking message has failed to marshal since it was last grabbed. */
  ghost predicate LockInv(l: State<Ev>, w: Wake, held: bool) {
    && (w.lock <==> (w.last.Some? || held) && w.clean)
    && (w.last.Some? ==>
          && w.lastAt.Some? && TimerEv(w.last.value) in l.recs
          && l.recs[TimerEv(w.last.value)].timeout == Plus(w.lastAt.value, WAKE_TIMEOUT))
    && (w.last.None? && w.lastAt.Some? ==> Before(Plus(w.lastAt.value, WAKE_TIMEOUT), l.clock))
  }

  ghost predicate Telephony(e: Ev) {
    e == ListenEv || e == CommandsEv
  }

  /** Exactly one of: listening, about to accept, connected. Not so while listenCallback runs (`between`). */
  ghost predicate LinkInv(l: State<Ev>, k: Link, between: bool) {
    && ListenEv in l.recs && !l.recs[ListenEv].persist && l.recs[ListenEv].fd == k.fdListen && k.fdListen >= 0
    && (CommandsEv in l.recs ==> l.recs[CommandsEv].persist && l.recs[CommandsEv].fd >= 0)
    && (forall e :: OnWatch(l.recs, e) ==> Telephony(e) || Others(e))
    && (forall e :: e in l.recs && e != ListenEv ==> l.recs[e].fd != k.fdListen)
    && (OnWatch(l.recs, CommandsEv) <==> k.fdCommand >= 0)
    && (OnWatch(l.recs, CommandsEv) ==> l.recs[CommandsEv].fd == k.fdCommand)
    && (CommandsEv in l.ready ==> OnWatch(l.recs, CommandsEv))
    && !(OnWatch(l.recs, ListenEv) && OnWatch(l.recs, CommandsEv))
    && !(OnWatch(l.recs, ListenEv) && ListenEv in l.ready)
    && !(ListenEv in l.ready && OnWatch(l.recs, CommandsEv))
    && (!between <==> OnWatch(l.recs, ListenEv) || ListenEv in l.ready || OnWatch(l.recs, CommandsEv))
  }

  ghost predicate LedgerInv(g: Ledger, k: Link) {
    && (forall i, j :: 0 <= i < j < |g.pending| ==>
          g.pending[i].addr != g.pending[j].addr && g.pending[i].serial != g.pending[j].serial)
    && (forall i :: 0 <= i < |g.pending| ==> PendingOk(g, k, g.pending[i]))
    && (forall i :: 0 <= i < |g.responses| ==> ResponseOk(g, g.responses[i]))
    && (forall i, j :: 0 <= i < |g.responses| && 0 <= j < |g.pending| ==>
          g.responses[i].serial != Some(g.pending[j].serial))
    && (forall i, j :: 0 <= i < j < |g.responses| && g.responses[i].serial.Some? ==>
          g.responses[i].serial != g.responses[j].serial)
    && (forall n :: n in g.muted ==> n < g.next)
  }

  ghost predicate PendingOk(g: Ledger, k: Link, q: Request) {
    && q.serial < g.next
    && (q.local || (q.conn, q.token) in g.received)
    && (q.local || q.cancelled ==> q.serial in g.muted)
    && (!q.local && !q.cancelled ==> q.conn == k.conn && k.fdCommand >= 0 && q.serial !in g.muted)
  }

  ghost predicate ResponseOk(g: Ledger, p: Response) {
    && (p.conn, p.token) in g.received
    && (p.serial.Some? ==> p.serial.value < g.next && p.serial.value !in g.muted)
  }

  ghost predicate CoreInv(r: Ril, ex: Option<nat>, held: bool, between: bool) {
    Inv(r.loop) && TimersInv(r.loop, r.wake, ex) && WakeInv(r.wake) && LockInv(r.loop, r.wake, held)
    && LinkInv(r.loop, r.link, between) && LedgerInv(r.ledger, r.link)
  }

  /** What holds between any two steps of the daemon. */
  ghost predicate RilInv(r: Ril) {
    CoreInv(r, None, false, false)
  }

  // ---------- timers ----------

  lemma QueuedIsKnown<E>(s: State<E>, e: E)
    requires TableInv(s) && ListInv(s) && e !in s.recs
    ensures !Queued(s, e) && !Watched(s, e)
  {
    assert forall i :: 0 <= i < |s.timers| ==> Evs(s.timers)[i] == s.timers[i].ev && s.timers[i].ev in s.recs;
    assert forall i :: 0 <= i < |s.expired| ==> Evs(s.expired)[i] == s.expired[i].ev && s.expired[i].ev in s.recs;
  }

  ghost function NewTimer(l: State<Ev>, addr: nat, delay: TimeVal, now: TimeVal): State<Ev> {
    TimerAdd(EventSet(l, TimerEv(addr), -1, false, 0, addr), TimerEv(addr), Some(delay), now)
  }

  lemma NewTimerKeepsLoop(l: State<Ev>, addr: nat, delay: TimeVal, now: TimeVal)
    requires Inv(l) && TimerEv(addr) !in l.recs && NotAfter(l.clock, now) && NonNegative(delay)
    ensures Inv(NewTimer(l, addr, delay, now))
  {
    var e := TimerEv(addr);
    QueuedIsKnown(l, e);
    ActionKeepsInv(l, Set(e, -1, false, 0, addr));
    ActionKeepsInv(EventSet(l, e, -1, false, 0, addr), AddTimer(e, Some(delay), now));
  }

  lemma NewTimerOnList(l: State<Ev>, addr: nat, delay: TimeVal, now: TimeVal)
    ensures var t := NewTimer(l, addr, delay, now);
      && OnTimers(t, TimerEv(addr))
      && (forall e :: OnTimers(l, e) ==> OnTimers(t, e))
      && (forall e :: OnTimers(t, e) ==> OnTimers(l, e) || e == TimerEv(addr))
      && t.recs == l.recs[TimerEv(addr) := Rec(-1, -1, false, Plus(now, delay), 0, addr)]
      && t.clock == now && t.table == l.table && t.ready == l.ready && t.readFds == l.readFds
  {
    var t := NewTimer(l, addr, delay, now);
    var i := InsertPos(l.timers, Plus(now, delay));
    assert t.timers[i].ev == TimerEv(addr);
    forall e | OnTimers(l, e)
      ensures OnTimers(t, e)
    {
      if j :| 0 <= j < |l.timers| && l.timers[j].ev == e {
        assert t.timers[if j < i then j else j + 1] == l.timers[j];
      }
    }
  }

  lemma NewTimerKeepsTimers(l: State<Ev>, w: Wake, w': Wake, addr: nat, delay: TimeVal, now: TimeVal, ex: Option<nat>)
    requires TimersInv(l, w, ex) && w'.infos.Keys == w.infos.Keys + {addr}
    requires TimerEv(addr) !in l.recs && NotAfter(l.clock, now)
    ensures TimersInv(NewTimer(l, addr, delay, now), w', ex)
  {
    NewTimerOnList(l, addr, delay, now);
  }

  /** internalRequestTimedCallback keeps the timers in order; the wake timer is none of its business. */
  lemma TimedKeepsTimers(r: Ril, callback: Callback, param: int, delay: Option<TimeVal>, addr: nat, now: TimeVal, ex: Option<nat>)
    requires Inv(r.loop) && TimersInv(r.loop, r.wake, ex) && WakeInv(r.wake) && FreshTimer(r, addr, now)
    requires delay.Some? ==> NonNegative(delay.value)
    requires callback.Vendor?
    ensures var t := RequestTimedCallback(r, callback, param, delay, addr, now);
            Inv(t.loop) && TimersInv(t.loop, t.wake, ex) && WakeInv(t.wake)
  {
    var relative := if delay.None? then ZERO else delay.value;
    var t := RequestTimedCallback(r, callback, param, delay, addr, now);
    NewTimerKeepsLoop(r.loop, addr, relative, now);
    NewTimerKeepsTimers(r.loop, r.wake, t.wake, addr, relative, now, ex);
  }

  lemma TimedKeepsLock(r: Ril, callback: Callback, param: int, delay: Option<TimeVal>, addr: nat, now: TimeVal, held: bool)
    requires LockInv(r.loop, r.wake, held) && FreshTimer(r, addr, now)
    ensures var t := RequestTimedCallback(r, callback, param, delay, addr, now);
            LockInv(t.loop, t.wake, held)
  {
    var relative := if delay.None? then ZERO else delay.value;
    NewTimerOnList(r.loop, addr, relative, now);
  }

  /** Timers come and go without telephony's events noticing. */
  lemma NewTimerKeepsLink(l: State<Ev>, k: Link, addr: nat, delay: TimeVal, now: TimeVal, between: bool)
    requires LinkInv(l, k, between) && TimerEv(addr) !in l.recs
    ensures LinkInv(NewTimer(l, addr, delay, now), k, between)
  {
    var t := NewTimer(l, addr, delay, now);
    NewTimerOnList(l, addr, delay, now);
    assert forall e :: OnWatch(t.recs, e) <==> OnWatch(l.recs, e);
  }

  // ---------- the wake lock ----------

  lemma RescheduleSetsTimer(r: Ril, m: Message)
    requires m.wakes
    ensures Reschedule(r, m).loop == NewTimer(r.loop, m.addr, WAKE_TIMEOUT, m.now)
    ensures Reschedule(r, m).wake.infos.Keys == r.wake.infos.Keys + {m.addr}
  {
  }

  lemma RescheduleKeepsTimers(r: Ril, m: Message, ex: Option<nat>)
    requires Inv(r.loop) && TimersInv(r.loop, r.wake, ex) && (m.wakes ==> FreshTimer(r, m.addr, m.now))
    ensures Inv(Reschedule(r, m).loop) && TimersInv(Reschedule(r, m).loop, Reschedule(r, m).wake, ex)
  {
    if m.wakes {
      RescheduleSetsTimer(r, m);
      NewTimerKeepsLoop(r.loop, m.addr, WAKE_TIMEOUT, m.now);
      NewTimerKeepsTimers(r.loop, r.wake, Reschedule(r, m).wake, m.addr, WAKE_TIMEOUT, m.now, ex);
    }
  }

  /** A waking message leaves one timer that is not cancelled: its own. */
  lemma RescheduleKeepsWake(r: Ril, m: Message)
    requires WakeInv(r.wake)
    ensures WakeInv(Reschedule(r, m).wake)
  {
  }

  lemma RescheduleKeepsLock(r: Ril, m: Message, held: bool)
    requires LockInv(r.loop, r.wake, held || m.wakes)
    ensures LockInv(Reschedule(r, m).loop, Reschedule(r, m).wake, held)
  {
    if m.wakes {
      NewTimerOnList(r.loop, m.addr, WAKE_TIMEOUT, m.now);
    }
  }

  lemma RescheduleKeepsLink(r: Ril, m: Message, between: bool)
    requires LinkInv(r.loop, r.link, between) && (m.wakes ==> FreshTimer(r, m.addr, m.now))
    ensures LinkInv(Reschedule(r, m).loop, r.link, between)
  {
    if m.wakes {
      NewTimerKeepsLink(r.loop, r.link, m.addr, WAKE_TIMEOUT, m.now, between);
    }
  }

  lemma SendKeeps(r: Ril, m: Message, ex: Option<nat>, held: bool, between: bool)
    requires CoreInv(r, ex, held, between) && CanSend(r, m)
    ensures CoreInv(Send(r, m), ex, held, between)
  {
    if m.known && m.marshals {
      var g := Grab(r, m);
      RescheduleKeepsTimers(g, m, ex);
      RescheduleKeepsWake(g, m);
      RescheduleKeepsLock(g, m, held);
      RescheduleKeepsLink(g, m, between);
    }
  }

  lemma {:induction false} SendAllKeeps(r: Ril, ms: seq<Message>, ex: Option<nat>, held: bool, between: bool)
    requires CoreInv(r, ex, held, between) && CanSendAll(r, ms)
    ensures CoreInv(SendAll(r, ms), ex, held, between)
    decreases |ms|
  {
    if ms == [] {
    } else {
      SendKeeps(r, ms[0], ex, held, between);
      SendAllKeeps(Send(r, ms[0]), ms[1..], ex, held, between);
    }
  }

  lemma AnnounceKeeps(r: Ril, m: Message, nested: seq<Message>, ex: Option<nat>, between: bool)
    requires CoreInv(r, ex, false, between) && CanAnnounce(r, m, nested)
    ensures CoreInv(OnUnsolicitedResponse(r, m, nested), ex, false, between)
  {
    if m.known && m.marshals {
      SendAllKeeps(Grab(r, m), nested, ex, m.wakes, between);
      var g := SendAll(Grab(r, m), nested);
      RescheduleKeepsTimers(g, m, ex);
      RescheduleKeepsWake(g, m);
      RescheduleKeepsLock(g, m, false);
      RescheduleKeepsLink(g, m, between);
    }
  }

  // ---------- the ledger ----------

  lemma RemoveKeepsPending(g: Ledger, k: Link, i: nat)
    requires LedgerInv(g, k) && i < |g.pending|
    ensures LedgerInv(g.(pending := Without(g.pending, i)), k)
    ensures forall j :: 0 <= j < |Without(g.pending, i)| ==> Without(g.pending, i)[j].serial != g.pending[i].serial
  {
    var p := Without(g.pending, i);
    assert forall j :: 0 <= j < |p| ==> p[j] == g.pending[if j < i then j else j + 1];
  }

  lemma CompleteKeeps(g: Ledger, k: Link, addr: nat, error: Errno, fits: bool)
    requires LedgerInv(g, k)
    ensures LedgerInv(OnRequestComplete(g, k, addr, error, fits), k)
  {
    var i := IndexOf(g.pending, addr);
    if i < |g.pending| {
      assert PendingOk(g, k, g.pending[i]);
      RemoveKeepsPending(g, k, i);
    }
  }

  lemma EnterKeeps(g: Ledger, k: Link, addr: nat, token: int, local: bool)
    requires LedgerInv(g, k) && !Live(g.pending, addr) && (local || k.fdCommand >= 0)
    ensures LedgerInv(Enter(g, k, addr, token, local), k)
  {
    var t := Enter(g, k, addr, token, local);
    forall i | 0 <= i < |t.pending|
      ensures PendingOk(t, k, t.pending[i])
      ensures i > 0 ==> t.pending[i] == g.pending[i - 1] && t.pending[i].addr != addr && t.pending[i].serial != g.next
    {
      if i > 0 {
        assert PendingOk(g, k, g.pending[i - 1]);
      }
    }
    forall i | 0 <= i < |t.responses|
      ensures ResponseOk(t, t.responses[i]) && t.responses[i].serial != Some(g.next)
    {
      assert ResponseOk(g, g.responses[i]);
    }
  }

  lemma CancelKeeps(g: Ledger, k: Link, k': Link)
    requires LedgerInv(g, k)
    ensures LedgerInv(CancelAll(g), k')
  {
    var t := CancelAll(g);
    forall i | 0 <= i < |t.pending|
      ensures PendingOk(t, k', t.pending[i])
    {
      assert PendingOk(g, k, g.pending[i]);
      assert g.pending[i].serial in Serials(g.pending);
    }
    forall i | 0 <= i < |t.responses|
      ensures ResponseOk(t, t.responses[i])
    {
      assert ResponseOk(g, g.responses[i]);
    }
    assert forall n :: n in t.muted && n !in g.muted ==> exists i :: 0 <= i < |g.pending| && g.pending[i].serial == n;
    assert forall i :: 0 <= i < |g.pending| ==> PendingOk(g, k, g.pending[i]);
  }

  // ---------- what the vendor RIL does ----------

  lemma TimesKeeps(r: Ril, e: Effect, ex: Option<nat>, between: bool)
    requires e.Times? && CoreInv(r, ex, false, between) && CanDo(r, e)
    ensures CoreInv(Do(r, e), ex, false, between)
  {
    TimedKeepsTimers(r, Vendor(e.id), e.param, e.delay, e.addr, e.now, ex);
    TimedKeepsLock(r, Vendor(e.id), e.param, e.delay, e.addr, e.now, false);
    NewTimerKeepsLink(r.loop, r.link, e.addr, if e.delay.None? then ZERO else e.delay.value, e.now, between);
  }

  lemma DoKeeps(r: Ril, e: Effect, ex: Option<nat>, between: bool)
    requires CoreInv(r, ex, false, between) && CanDo(r, e)
    ensures CoreInv(Do(r, e), ex, false, between)
  {
    match e
    case Completes(addr, error, fits) => CompleteKeeps(r.ledger, r.link, addr, error, fits);
    case Announces(m, nested) => AnnounceKeeps(r, m, nested, ex, between);
    case Times(_, _, _, _, _) => TimesKeeps(r, e, ex, between);
  }

  lemma {:induction false} DoAllKeeps(r: Ril, es: seq<Effect>, ex: Option<nat>, between: bool)
    requires CoreInv(r, ex, false, between) && CanDoAll(r, es)
    ensures CoreInv(DoAll(r, es), ex, false, between)
    decreases |es|
  {
    if es == [] {
    } else {
      DoKeeps(r, es[0], ex, between);
      DoAllKeeps(Do(r, es[0]), es[1..], ex, between);
    }
  }

  // ---------- commands ----------

  lemma RejectKeeps(g: Ledger, k: Link, token: int)
    requires LedgerInv(g, k)
    ensures LedgerInv(g.(received := g.received + {(k.conn, token)},
                         responses := g.responses + [Response(k.conn, token, None, GenericFailure)]), k)
    ensures LedgerInv(g.(received := g.received + {(k.conn, token)}), k)
  {
    var h := g.(received := g.received + {(k.conn, token)});
    assert forall i :: 0 <= i < |g.pending| && PendingOk(g, k, g.pending[i]) ==> PendingOk(h, k, g.pending[i]);
    assert forall i :: 0 <= i < |g.responses| && ResponseOk(g, g.responses[i]) ==> ResponseOk(h, g.responses[i]);
    assert LedgerInv(h, k);
    var p := Response(k.conn, token, None, GenericFailure);
    assert ResponseOk(h, p);
    AnswerKeeps(h, k, p);
  }

  lemma AnswerKeeps(g: Ledger, k: Link, p: Response)
    requires LedgerInv(g, k) && p.serial.None? && ResponseOk(g, p)
    ensures LedgerInv(g.(responses := g.responses + [p]), k)
  {
    var h := g.(responses := g.responses + [p]);
    assert forall i :: 0 <= i < |g.pending| && PendingOk(g, k, g.pending[i]) ==> PendingOk(h, k, g.pending[i]);
    assert forall i :: 0 <= i < |g.responses| && ResponseOk(g, g.responses[i]) ==> ResponseOk(h, h.responses[i]);
  }

  lemma ProcessKeeps(r: Ril, rec: Record)
    requires CoreInv(r, None, false, false) && r.link.fdCommand >= 0 && CanProcess(r, rec)
    ensures CoreInv(ProcessCommandBuffer(r, rec), None, false, false)
  {
    match rec
    case Malformed =>
    case Unsupported(token) => RejectKeeps(r.ledger, r.link, token);
    case Command(token, addr, effects) =>
      EnterKeeps(r.ledger, r.link, addr, token, false);
      DoAllKeeps(r.(ledger := Enter(r.ledger, r.link, addr, token, false)), effects, None, false);
  }

  lemma {:induction false} ProcessAllKeeps(r: Ril, recs: seq<Record>)
    requires CoreInv(r, None, false, false) && r.link.fdCommand >= 0 && CanProcessAll(r, recs)
    ensures CoreInv(ProcessRecords(r, recs), None, false, false)
    decreases |recs|
  {
    if recs == [] {
    } else {
      ProcessKeeps(r, recs[0]);
      ProcessAllKeeps(ProcessCommandBuffer(r, recs[0]), recs[1..]);
    }
  }
}
