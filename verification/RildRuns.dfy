/** What the daemon guarantees over whole runs: every handler is one step, and vendor threads, other
    components and the clock act between any two of them. */
module RildRuns {
  import opened Time
  import opened EventModel
  import opened EventProofs
  import opened EventRuns
  import opened Rild
  import opened RildSteps
  import opened RildProofs
  import opened RildLifecycle

  // ---------- other components ----------

  /** `t` differs from `l` in the event `e` of another component. */
  ghost predicate OnlyAbout(l: State<Ev>, t: State<Ev>, e: Ev) {
    && t.ready == l.ready && NotAfter(l.clock, t.clock)
    && (forall x :: x != e ==> (x in l.recs <==> x in t.recs))
    && (forall x :: x != e && x in l.recs && x in t.recs ==> t.recs[x] == l.recs[x])
    && (forall x :: x != e ==> (OnTimers(l, x) <==> OnTimers(t, x)))
  }

  lemma InsertedOnTimers(l: State<Ev>, t: State<Ev>, i: nat, due: Due<Ev>)
    requires i <= |l.timers| && t.expired == l.expired && t.timers == l.timers[..i] + [due] + l.timers[i..]
    ensures forall x :: x != due.ev ==> (OnTimers(l, x) <==> OnTimers(t, x))
  {
    forall x | x != due.ev && OnTimers(l, x)
      ensures OnTimers(t, x)
    {
      if j :| 0 <= j < |l.timers| && l.timers[j].ev == x {
        assert t.timers[if j < i then j else j + 1] == l.timers[j];
      }
    }
  }

  lemma OthersOnlyAbout(r: Ril, a: Action<Ev>)
    requires TableInv(r.loop) && OthersMay(r, a)
    ensures OnlyAbout(r.loop, Perform(r.loop, a), a.ev)
  {
    if a.AddTimer? && a.delay.Some? {
      TimerOnlyAbout(r, a);
    } else {
      CallOnlyAbout(r, a);
    }
  }

  lemma TimerOnlyAbout(r: Ril, a: Action<Ev>)
    requires TableInv(r.loop) && OthersMay(r, a) && a.AddTimer? && a.delay.Some?
    ensures OnlyAbout(r.loop, Perform(r.loop, a), a.ev)
  {
    var deadline := Plus(a.now, a.delay.value);
    InsertedOnTimers(r.loop, Perform(r.loop, a), InsertPos(r.loop.timers, deadline), Due(a.ev, deadline));
  }

  lemma CallOnlyAbout(r: Ril, a: Action<Ev>)
    requires TableInv(r.loop) && OthersMay(r, a) && !(a.AddTimer? && a.delay.Some?)
    ensures OnlyAbout(r.loop, Perform(r.loop, a), a.ev)
  {
    OthersKeepTimers(r.loop, a);
    assert forall x :: OnTimers(r.loop, x) <==> OnTimers(Perform(r.loop, a), x);
  }

  lemma OnlyAboutKeepsTimers(l: State<Ev>, t: State<Ev>, e: Ev, w: Wake)
    requires OnlyAbout(l, t, e) && Others(e) && TimersInv(l, w, None) && LockInv(l, w, false)
    ensures TimersInv(t, w, None) && LockInv(t, w, false)
  {
  }

  lemma OnlyAboutKeepsLink(l: State<Ev>, t: State<Ev>, e: Ev, k: Link)
    requires OnlyAbout(l, t, e) && Others(e) && LinkInv(l, k, false)
    requires e in t.recs ==> t.recs[e].fd != k.fdListen
    ensures LinkInv(t, k, false)
  {
  }

  lemma OthersKeepFd(r: Ril, a: Action<Ev>)
    requires TableInv(r.loop) && OthersMay(r, a) && LinkInv(r.loop, r.link, false)
    ensures var t := Perform(r.loop, a); a.ev in t.recs ==> t.recs[a.ev].fd != r.link.fdListen
  {
  }

  lemma OthersKeep(r: Ril, a: Action<Ev>)
    requires RilInv(r) && OthersMay(r, a)
    ensures RilInv(r.(loop := Perform(r.loop, a)))
  {
    var t := Perform(r.loop, a);
    ActionKeepsInv(r.loop, a);
    OthersOnlyAbout(r, a);
    OnlyAboutKeepsTimers(r.loop, t, a.ev, r.wake);
    OthersKeepFd(r, a);
    OnlyAboutKeepsLink(r.loop, t, a.ev, r.link);
  }

  // ---------- the loop ----------

  lemma PassesKeeps(r: Ril, now: TimeVal)
    requires RilInv(r) && NotAfter(r.loop.clock, now)
    ensures RilInv(r.(loop := Next(r.loop, Tick(now))))
  {
    TickKeepsInv(r.loop, now);
    var t := r.loop.(clock := now);
    assert forall e :: OnTimers(r.loop, e) <==> OnTimers(t, e);
  }

  lemma MovedOnTimers(l: State<Ev>, k: nat)
    requires k <= |l.timers|
    ensures forall e :: OnTimers(l, e) ==> OnTimers(MoveExpired(l, k), e)
  {
    var t := MoveExpired(l, k);
    forall e | OnTimers(l, e)
      ensures OnTimers(t, e)
    {
      if i :| 0 <= i < |l.expired| && l.expired[i].ev == e {
        assert t.expired[i] == l.expired[i];
      } else {
        var j :| 0 <= j < |l.timers| && l.timers[j].ev == e;
        if j < k {
          assert t.expired[|l.expired| + j] == l.timers[j];
        } else {
          assert t.timers[j - k] == l.timers[j];
        }
      }
    }
  }

  lemma ExpireKeepsTimers(l: State<Ev>, w: Wake, now: TimeVal)
    requires TimersInv(l, w, None) && LockInv(l, w, false) && NotAfter(l.clock, now)
    ensures TimersInv(ProcessTimeouts(l, now), w, None) && LockInv(ProcessTimeouts(l, now), w, false)
  {
    var m := MoveExpired(l, ExpiredCount(l.timers, now));
    MovedOnTimers(l, ExpiredCount(l.timers, now));
    assert forall e :: OnTimers(m, e) ==> OnTimers(ProcessTimeouts(l, now), e);
  }

  lemma ExpireKeeps(r: Ril, now: TimeVal)
    requires RilInv(r) && EventModel.Enabled(r.loop, Timeouts(now))
    ensures RilInv(r.(loop := ProcessTimeouts(r.loop, now)))
  {
    TimeoutsKeepInv(r.loop, now);
    ExpireKeepsTimers(r.loop, r.wake, now);
  }

  ghost function TakenBy(l: State<Ev>, rfds: set<int>, n: int): seq<Ev>
    requires Known(l.recs, l.table)
  {
    FirstN(ReadyList(l.recs, l.table, rfds, 0), n)
  }

  /** The scan takes watched events only. */
  lemma PollTakes(l: State<Ev>, rfds: set<int>, n: int)
    requires Inv(l) && l.polled
    ensures Took(l, TakenBy(l, rfds, n), ProcessReadReadies(l, rfds, n).(polled := true))
    ensures forall e :: e in TakenBy(l, rfds, n) ==> OnWatch(l.recs, e)
  {
    ScanTakes(l, rfds, n, 0);
    ReadyListMembers(l, rfds, 0);
    var all := ReadyList(l.recs, l.table, rfds, 0);
    assert forall e :: e in TakenBy(l, rfds, n) ==> e in all;
  }

  lemma TookKeepsTimers(l: State<Ev>, taken: seq<Ev>, t: State<Ev>, w: Wake)
    requires TimersInv(l, w, None) && LockInv(l, w, false) && Took(l, taken, t)
    requires forall e :: e in taken ==> OnWatch(l.recs, e)
    ensures TimersInv(t, w, None) && LockInv(t, w, false)
  {
    assert forall e :: OnTimers(l, e) <==> OnTimers(t, e);
    assert forall a :: TimerEv(a) in l.recs ==> t.recs[TimerEv(a)] == l.recs[TimerEv(a)];
  }

  lemma TookKeepsLink(l: State<Ev>, taken: seq<Ev>, t: State<Ev>, k: Link)
    requires LinkInv(l, k, false) && l.ready == [] && Took(l, taken, t)
    requires forall e :: e in taken ==> OnWatch(l.recs, e)
    ensures LinkInv(t, k, false)
  {
    assert forall e :: OnWatch(t.recs, e) <==> OnWatch(l.recs, e) && !(e in taken && !l.recs[e].persist);
  }

  lemma PollKeepsTimers(l: State<Ev>, rfds: set<int>, n: int, w: Wake)
    requires Inv(l) && l.polled && TimersInv(l, w, None) && LockInv(l, w, false)
    ensures var t := ProcessReadReadies(l, rfds, n); TimersInv(t, w, None) && LockInv(t, w, false)
  {
    var t := ProcessReadReadies(l, rfds, n);
    PollTakes(l, rfds, n);
    TookKeepsTimers(l, TakenBy(l, rfds, n), t.(polled := true), w);
    assert forall e :: OnTimers(t.(polled := true), e) <==> OnTimers(t, e);
  }

  lemma PollKeepsLink(l: State<Ev>, rfds: set<int>, n: int, k: Link)
    requires Inv(l) && l.polled && LinkInv(l, k, false)
    ensures LinkInv(ProcessReadReadies(l, rfds, n), k, false)
  {
    PollTakes(l, rfds, n);
    TookKeepsLink(l, TakenBy(l, rfds, n), ProcessReadReadies(l, rfds, n).(polled := true), k);
  }

  lemma PollKeeps(r: Ril, rfds: set<int>, n: int)
    requires RilInv(r) && r.loop.polled
    ensures RilInv(r.(loop := ProcessReadReadies(r.loop, rfds, n)))
  {
    ReadiesKeepInv(r.loop, rfds, n);
    PollKeepsTimers(r.loop, rfds, n, r.wake);
    PollKeepsLink(r.loop, rfds, n, r.link);
  }

  // ---------- every step ----------

  /** The side condition of a step is no restriction: every callback finds what it relies on. */
  lemma InvIsServiceable(r: Ril)
    requires RilInv(r)
    ensures Serviceable(r)
  {
    forall e | e in Pending(r.loop)
      ensures e in r.loop.recs
    {
      if e !in r.loop.recs {
        QueuedIsKnown(r.loop, e);
      }
    }
  }

  lemma CallBackKeeps(r: Ril, f: Fired)
    requires RilInv(r) && Serviceable(r) && CanFire(r, f)
    ensures RilInv(CallBack(r, f))
  {
    var head := Pending(r.loop)[0];
    var p := r.(loop := Fire(r.loop));
    FireKeeps(r);
    FireKeepsLink(r.loop, r.link);
    match f
    case ListenFired(a) => ListenKeeps(p, a);
    case CommandsFired(recs, closes) => CommandsKeep(p, recs, closes);
    case TimerFired(effects) =>
      assert head in Pending(r.loop);
      DoAllKeeps(p, effects, Some(head.addr), false);
      TimerDoneKeeps(DoAll(p, effects), head.addr);
    case _ =>
  }

  lemma LocalKeeps(r: Ril, addr: nat, effects: seq<Effect>)
    requires RilInv(r) && RilEnabled(r, Local(addr, effects))
    ensures RilInv(DoAll(r.(ledger := Enter(r.ledger, r.link, addr, -1, true)), effects))
  {
    EnterKeeps(r.ledger, r.link, addr, -1, true);
    DoAllKeeps(r.(ledger := Enter(r.ledger, r.link, addr, -1, true)), effects, None, false);
  }

  lemma RilStepKeepsInv(r: Ril, step: RilStep)
    requires RilInv(r) && Serviceable(r) && RilEnabled(r, step)
    ensures RilInv(RilNext(r, step))
  {
    match step
    case Vendors(e) => DoKeeps(r, e, None, false);
    case Local(addr, effects) => LocalKeeps(r, addr, effects);
    case Elsewhere(a) => OthersKeep(r, a);
    case Passes(now) => PassesKeeps(r, now);
    case Expire(now) => ExpireKeeps(r, now);
    case Poll(rfds, n) => PollKeeps(r, rfds, n);
    case Fires(f) => CallBackKeeps(r, f);
  }
}
