/** The guarantees of the daemon, over every run from its start. */
module RildTheorems {
  import opened Chains
  import opened Time
  import opened EventModel
  import opened EventNames
  import opened EventProofs
  import opened Rild
  import opened RildSteps
  import opened RildProofs
  import opened RildLifecycle
  import opened RildRuns

  ghost predicate RilStepTo(r: Ril, step: RilStep, t: Ril) {
    Serviceable(r) && RilEnabled(r, step) && t == RilNext(r, step)
  }

  /** `states[0]` is where the run starts, and step `i` leads from `states[i]` to `states[i + 1]`. */
  ghost predicate RilRun(states: seq<Ril>, steps: seq<RilStep>) {
    |states| == |steps| + 1 && forall i :: 0 <= i < |steps| ==> RilStepAt(states, steps, i)
  }

  ghost predicate RilStepAt(states: seq<Ril>, steps: seq<RilStep>, i: nat)
    requires i < |steps| && |states| == |steps| + 1
  {
    RilStepTo(states[i], steps[i], states[i + 1])
  }

  /** The loop as RIL_register finds it: only other components have used it since it was set up, and not the
      socket's descriptor. eventLoop's wakeup pipe is watched by then, or only later: s_started is broadcast before. */
  ghost predicate BeforeListen(l: State<Ev>, fdListen: int) {
    && (exists clock, calls :: Leads(EventModel.Start(clock), calls, l))
    && 0 <= fdListen && fdListen !in l.readFds
    && forall e :: e in l.recs ==> Others(e) && l.recs[e].fd != fdListen
  }

  lemma BeforeListenInv(l: State<Ev>, fdListen: int)
    requires BeforeListen(l, fdListen)
    ensures Inv(l)
  {
    var clock, calls :| Leads(EventModel.Start(clock), calls, l);
    EventRuns.StartInv<Ev>(clock);
    LeadsKeepsInv(EventModel.Start(clock), calls, l);
  }

  /** RIL_register starts listening. */
  ghost function RilStart(l: State<Ev>, fdListen: int): Ril {
    Ril(NewWatch(l, ListenEv, fdListen, false),
        Wake(map[], None, false, None, false),
        Link(fdListen, -1, 0),
        Ledger([], 0, {}, [], {}))
  }

  ghost predicate Starts(r: Ril) {
    exists l, fdListen :: BeforeListen(l, fdListen) && r == RilStart(l, fdListen)
  }

  ghost function NewWatch(l: State<Ev>, e: Ev, fd: int, persist: bool): State<Ev> {
    EventAdd(EventSet(l, e, fd, persist, 0, 0), e)
  }

  lemma NewWatchIs(l: State<Ev>, e: Ev, fd: int, persist: bool, i: nat)
    requires FreeSlot(l.table) == i < |l.table|
    ensures var t := NewWatch(l, e, fd, persist);
      && t.recs == l.recs[e := Rec(fd, i, persist, ZERO, 0, 0)] && t.readFds == l.readFds + {fd}
      && t.timers == l.timers && t.expired == l.expired && t.ready == l.ready && t.table == l.table[i := Holds(e)]
  {
  }

  lemma NewWatchKeepsInv(l: State<Ev>, e: Ev, fd: int, persist: bool)
    requires Inv(l) && e !in l.recs && fd >= 0 && fd !in l.readFds
    ensures Inv(NewWatch(l, e, fd, persist))
  {
    QueuedIsKnown(l, e);
    ActionKeepsInv(l, Set(e, fd, persist, 0, 0));
    ActionKeepsInv(EventSet(l, e, fd, persist, 0, 0), Add(e));
  }

  /** Both orders of startup are covered: nothing watched yet, and the wakeup pipe watched already. */
  lemma BothOrdersStart(clock: TimeVal, fdWakeup: int, fdListen: int)
    requires 0 <= fdWakeup && 0 <= fdListen && fdWakeup != fdListen
    ensures BeforeListen(EventModel.Start(clock), fdListen)
    ensures BeforeListen(NewWatch(EventModel.Start(clock), WakeupEv, fdWakeup, true), fdListen)
  {
    var s: State<Ev> := EventModel.Start(clock);
    assert Leads(s, [], s);
    NewWatchIs(s, WakeupEv, fdWakeup, true, 0);
    WakeupLeads(s, fdWakeup);
  }

  lemma WakeupLeads(s: State<Ev>, fdWakeup: int)
    requires exists clock :: s == EventModel.Start(clock)
    requires 0 <= fdWakeup
    ensures Leads(s, [Act(Set(WakeupEv, fdWakeup, true, 0, 0)), Act(Add(WakeupEv))], NewWatch(s, WakeupEv, fdWakeup, true))
  {
    var calls: seq<EventModel.Step<Ev>> := [Act(Set(WakeupEv, fdWakeup, true, 0, 0)), Act(Add(WakeupEv))];
    var t := EventSet(s, WakeupEv, fdWakeup, true, 0, 0);
    assert calls[1..] == [calls[1]] && [calls[1]][1..] == [];
    assert Leads(t, [calls[1]], EventAdd(t, WakeupEv));
  }

  lemma ListenKnows(l: State<Ev>, fdListen: int)
    requires BeforeListen(l, fdListen)
    ensures FreeSlot(l.table) < |l.table|
    ensures forall e :: OnTimers(l, e) ==> Others(e)
    ensures forall e :: e in l.ready ==> Others(e)
  {
    BeforeListenInv(l, fdListen);
    RoomForOne(l);
    assert forall i :: 0 <= i < |l.timers| ==> l.timers[i].ev in l.recs;
    assert forall i :: 0 <= i < |l.expired| ==> l.expired[i].ev in l.recs;
  }

  lemma StartLinkInv(l: State<Ev>, fdListen: int)
    requires BeforeListen(l, fdListen)
    ensures LinkInv(NewWatch(l, ListenEv, fdListen, false), Link(fdListen, -1, 0), false)
  {
    ListenKnows(l, fdListen);
    var t := NewWatch(l, ListenEv, fdListen, false);
    NewWatchIs(l, ListenEv, fdListen, false, FreeSlot(l.table));
    assert OnWatch(t.recs, ListenEv);
  }

  lemma StartTimersInv(l: State<Ev>, fdListen: int)
    requires BeforeListen(l, fdListen)
    ensures var t, w := NewWatch(l, ListenEv, fdListen, false), Wake(map[], None, false, None, false);
            TimersInv(t, w, None) && WakeInv(w) && LockInv(t, w, false)
  {
    ListenKnows(l, fdListen);
    NewWatchIs(l, ListenEv, fdListen, false, FreeSlot(l.table));
  }

  lemma NewRilInv(l: State<Ev>, w: Wake, k: Link)
    requires Inv(l) && TimersInv(l, w, None) && WakeInv(w) && LockInv(l, w, false) && LinkInv(l, k, false)
    ensures RilInv(Ril(l, w, k, Ledger([], 0, {}, [], {})))
  {
  }

  lemma RilStartInv(l: State<Ev>, fdListen: int)
    requires BeforeListen(l, fdListen)
    ensures RilInv(RilStart(l, fdListen))
  {
    BeforeListenInv(l, fdListen);
    NewWatchKeepsInv(l, ListenEv, fdListen, false);
    StartTimersInv(l, fdListen);
    StartLinkInv(l, fdListen);
    NewRilInv(NewWatch(l, ListenEv, fdListen, false), Wake(map[], None, false, None, false), Link(fdListen, -1, 0));
  }

  lemma StartKeeps(r: Ril)
    requires Starts(r)
    ensures RilInv(r)
  {
    var l, fdListen :| BeforeListen(l, fdListen) && r == RilStart(l, fdListen);
    RilStartInv(l, fdListen);
  }

  lemma RilStepToKeeps(r: Ril, step: RilStep, t: Ril)
    requires RilInv(r) && RilStepTo(r, step, t)
    ensures RilInv(t)
  {
    RilStepKeepsInv(r, step);
  }

  /** The daemon's invariant holds all along every run. */
  lemma {:induction false} RilRunKeepsInv(states: seq<Ril>, steps: seq<RilStep>, k: nat)
    requires RilRun(states, steps) && RilInv(states[0]) && k < |states|
    ensures RilInv(states[k])
  {
    if k == 0 {
    } else {
      RilRunKeepsInv(states, steps, k - 1);
      assert RilStepAt(states, steps, k - 1);
      RilStepToKeeps(states[k - 1], steps[k - 1], states[k]);
    }
  }

  lemma Reached(states: seq<Ril>, steps: seq<RilStep>, k: nat)
    requires RilRun(states, steps) && Starts(states[0]) && k < |states|
    ensures RilInv(states[k])
  {
    StartKeeps(states[0]);
    RilRunKeepsInv(states, steps, k);
  }

  // ---------- the wake lock ----------

  ghost predicate WakeTimer(r: Ril, a: nat) {
    a in r.wake.infos && r.wake.infos[a] == Info(WakeTimeout, 0)
  }

  /** At most one wake timer is not cancelled; it is the remembered one, not freed and on a list; and the
      lock is held only while there is one. */
  lemma OneWakeTimer(states: seq<Ril>, steps: seq<RilStep>, k: nat)
    requires RilRun(states, steps) && Starts(states[0]) && k < |states|
    ensures var r := states[k];
      && (forall a: nat :: WakeTimer(r, a) <==> r.wake.last == Some(a))
      && (r.wake.last.Some? ==> OnTimers(r.loop, TimerEv(r.wake.last.value)))
      && (r.wake.lock ==> r.wake.last.Some?)
  {
    Reached(states, steps, k);
  }

  /** The lock is held exactly while a wake timer is still to fire and no waking message has failed to marshal
      since it was last grabbed; and until 200 ms after the last message that set a timer, one is to fire. */
  lemma WakeLockLasts(states: seq<Ril>, steps: seq<RilStep>, k: nat)
    requires RilRun(states, steps) && Starts(states[0]) && k < |states|
    ensures var r := states[k];
      && (r.wake.lock <==> r.wake.last.Some? && r.wake.clean)
      && (r.wake.lastAt.Some? && NotAfter(r.loop.clock, Plus(r.wake.lastAt.value, TimeVal(0, 200000))) ==>
            (r.wake.lock <==> r.wake.clean))
  {
    Reached(states, steps, k);
  }

  /** Whatever the state, a waking message that fails to marshal ends the lock at once, though the timer of
      the message before it is still running; the next one that succeeds holds it again. */
  lemma FailedMessageEndsLock(r: Ril, m: Message, m': Message)
    requires RilInv(r) && m.known && m.wakes && !m.marshals
    requires m'.known && m'.wakes && m'.marshals
    ensures var t := Send(r, m);
      && RilInv(t) && !t.wake.lock && t.wake.last == r.wake.last && t.loop == r.loop
      && (CanSend(t, m') ==> RilInv(Send(t, m')) && Send(t, m').wake.lock && Send(t, m').wake.last == Some(m'.addr))
  {
    SendKeeps(r, m, None, false, false);
    if CanSend(Send(r, m), m') {
      SendKeeps(Send(r, m), m', None, false, false);
    }
  }

  // ---------- the connection ----------

  /** Telephony is listened for, or about to be accepted, or connected: exactly one of the three; and
      between two iterations of the loop exactly one of its two events is watched. */
  lemma SingleConnection(states: seq<Ril>, steps: seq<RilStep>, k: nat)
    requires RilRun(states, steps) && Starts(states[0]) && k < |states|
    ensures var r := states[k];
            var listens, accepts := OnWatch(r.loop.recs, ListenEv), ListenEv in r.loop.ready;
            var connected := OnWatch(r.loop.recs, CommandsEv);
      && (listens || accepts || connected) && !(listens && accepts) && !(listens && connected) && !(accepts && connected)
      && (r.link.fdCommand >= 0 <==> connected)
      && (Pending(r.loop) == [] ==> (listens <==> !connected))
  {
    Reached(states, steps, k);
  }

  /** The assertions at the head of listenCallback and processCommandsCallback hold: no client is connected
      when one is accepted, and commands are read from the client that is. */
  lemma CallbackAssertions(states: seq<Ril>, steps: seq<RilStep>, k: nat)
    requires RilRun(states, steps) && Starts(states[0]) && k < |steps| && steps[k].Fires?
    ensures var r := states[k];
      && (steps[k].fired.ListenFired? ==>
            r.link.fdCommand < 0 && ListenEv in r.loop.recs && r.loop.recs[ListenEv].fd == r.link.fdListen)
      && (steps[k].fired.CommandsFired? ==>
            CommandsEv in r.loop.recs && r.loop.recs[CommandsEv].fd == r.link.fdCommand)
  {
    Reached(states, steps, k);
    var r := states[k];
    assert RilStepAt(states, steps, k);
    FireKeepsLink(r.loop, r.link);
    ReadyHead(r.loop, ListenEv);
  }

  // ---------- responses ----------

  /** Each solicited response carries a token that was received on the connection it is sent on; a
      request gets at most one; those cancelled by a hang-up and those of the daemon itself get none. */
  lemma ResponsesAreSound(states: seq<Ril>, steps: seq<RilStep>, k: nat)
    requires RilRun(states, steps) && Starts(states[0]) && k < |states|
    ensures var g := states[k].ledger;
      && (forall i :: 0 <= i < |g.responses| ==> (g.responses[i].conn, g.responses[i].token) in g.received)
      && (forall i, j :: 0 <= i < j < |g.responses| && g.responses[i].serial.Some? ==>
            g.responses[i].serial != g.responses[j].serial)
      && (forall i :: 0 <= i < |g.responses| && g.responses[i].serial.Some? ==> g.responses[i].serial.value !in g.muted)
  {
    Reached(states, steps, k);
    var g := states[k].ledger;
    assert forall i :: 0 <= i < |g.responses| ==> ResponseOk(g, g.responses[i]);
  }

  ghost predicate LedgerGrows(g: Ledger, h: Ledger) {
    g.responses <= h.responses && g.muted <= h.muted && g.received <= h.received && g.next <= h.next
  }

  lemma {:induction false} SendAllKeepsLedger(r: Ril, ms: seq<Message>)
    ensures SendAll(r, ms).ledger == r.ledger
    decreases |ms|
  {
    if ms == [] {
    } else {
      SendAllKeepsLedger(Send(r, ms[0]), ms[1..]);
    }
  }

  lemma DoGrows(r: Ril, e: Effect)
    ensures LedgerGrows(r.ledger, Do(r, e).ledger)
  {
    if e.Announces? {
      SendAllKeepsLedger(Grab(r, e.m), e.nested);
    }
  }

  lemma {:induction false} DoAllGrows(r: Ril, es: seq<Effect>)
    ensures LedgerGrows(r.ledger, DoAll(r, es).ledger)
    decreases |es|
  {
    if es == [] {
    } else {
      DoGrows(r, es[0]);
      DoAllGrows(Do(r, es[0]), es[1..]);
    }
  }

  lemma {:induction false} ProcessGrows(r: Ril, recs: seq<Record>)
    ensures LedgerGrows(r.ledger, ProcessRecords(r, recs).ledger)
    decreases |recs|
  {
    if recs == [] {
    } else {
      if recs[0].Command? {
        DoAllGrows(r.(ledger := Enter(r.ledger, r.link, recs[0].addr, recs[0].token, false)), recs[0].effects);
      }
      ProcessGrows(ProcessCommandBuffer(r, recs[0]), recs[1..]);
    }
  }

  lemma StepGrows(r: Ril, step: RilStep, t: Ril)
    requires RilStepTo(r, step, t)
    ensures LedgerGrows(r.ledger, t.ledger)
  {
    var p := if step.Fires? then r.(loop := Fire(r.loop)) else r;
    match step
    case Vendors(e) => DoGrows(r, e);
    case Local(addr, effects) => DoAllGrows(r.(ledger := Enter(r.ledger, r.link, addr, -1, true)), effects);
    case Fires(CommandsFired(recs, closes)) => ProcessGrows(p, recs);
    case Fires(TimerFired(effects)) => DoAllGrows(p, effects);
    case Fires(ListenFired(Phone(fd, greeting))) => DoAllGrows(Connected(p, fd), greeting);
    case _ =>
  }

  lemma {:induction false} LedgerGrowsAlong(states: seq<Ril>, steps: seq<RilStep>, j: nat, k: nat)
    requires RilRun(states, steps) && j <= k < |states|
    ensures LedgerGrows(states[j].ledger, states[k].ledger)
    decreases k - j
  {
    if j == k {
    } else {
      LedgerGrowsAlong(states, steps, j, k - 1);
      assert RilStepAt(states, steps, k - 1);
      StepGrows(states[k - 1], steps[k - 1], states[k]);
    }
  }

  lemma HangUpMutes(r: Ril, step: RilStep, t: Ril, n: nat)
    requires RilStepTo(r, step, t) && step.Fires? && step.fired.CommandsFired? && step.fired.closes
    requires n in Serials(t.ledger.pending)
    ensures n in t.ledger.muted
  {
    var done := ProcessRecords(r.(loop := Fire(r.loop)), step.fired.recs).ledger;
    assert t.ledger == CancelAll(done);
    assert forall i :: 0 <= i < |t.ledger.pending| ==> t.ledger.pending[i].serial == done.pending[i].serial;
    assert n in Serials(done.pending);
  }

  lemma MutedGetNone(g: Ledger, k: Link, n: nat)
    requires LedgerInv(g, k) && n in g.muted
    ensures forall i :: 0 <= i < |g.responses| ==> g.responses[i].serial != Some(n)
  {
    assert forall i :: 0 <= i < |g.responses| ==> ResponseOk(g, g.responses[i]);
  }

  lemma HangUpMutesAt(states: seq<Ril>, steps: seq<RilStep>, j: nat, n: nat)
    requires RilRun(states, steps) && j < |steps|
    requires steps[j].Fires? && steps[j].fired.CommandsFired? && steps[j].fired.closes
    requires n in Serials(states[j + 1].ledger.pending)
    ensures n in states[j + 1].ledger.muted
  {
    assert RilStepAt(states, steps, j);
    HangUpMutes(states[j], steps[j], states[j + 1], n);
  }

  lemma StaysMuted(states: seq<Ril>, steps: seq<RilStep>, j: nat, k: nat, n: nat)
    requires RilRun(states, steps) && j <= k < |states| && n in states[j].ledger.muted
    ensures n in states[k].ledger.muted
  {
    LedgerGrowsAlong(states, steps, j, k);
  }

  lemma MutedStaySilent(states: seq<Ril>, steps: seq<RilStep>, k: nat, n: nat)
    requires RilRun(states, steps) && Starts(states[0]) && k < |states| && n in states[k].ledger.muted
    ensures forall i :: 0 <= i < |states[k].ledger.responses| ==> states[k].ledger.responses[i].serial != Some(n)
  {
    Reached(states, steps, k);
    MutedGetNone(states[k].ledger, states[k].link, n);
  }

  /** Once the connection closes, nothing that was pending then is ever answered, however often it completes. */
  lemma HangUpSilences(states: seq<Ril>, steps: seq<RilStep>, j: nat, k: nat, n: nat)
    requires RilRun(states, steps) && Starts(states[0]) && j < k < |states|
    requires steps[j].Fires? && steps[j].fired.CommandsFired? && steps[j].fired.closes
    requires n in Serials(states[j + 1].ledger.pending)
    ensures forall i :: 0 <= i < |states[k].ledger.responses| ==> states[k].ledger.responses[i].serial != Some(n)
  {
    HangUpMutesAt(states, steps, j, n);
    StaysMuted(states, steps, j + 1, k, n);
    MutedStaySilent(states, steps, k, n);
  }

  /** A completed request is answered exactly when it is not muted and the answer fits; telephony is
      connected then. Completing an address that is not pending changes nothing, and nothing else does. */
  lemma CompletionAnswers(g: Ledger, k: Link, addr: nat, error: Errno, fits: bool)
    requires LedgerInv(g, k)
    ensures var t := OnRequestComplete(g, k, addr, error, fits);
      && (t == g <==> !Live(g.pending, addr))
      && !Live(t.pending, addr)
      && (forall i :: 0 <= i < |g.pending| && g.pending[i].addr == addr ==>
            t.responses == g.responses + if g.pending[i].serial !in g.muted && fits
                                         then [Response(k.conn, g.pending[i].token, Some(g.pending[i].serial), error)] else [])
      && (forall i :: 0 <= i < |g.pending| && g.pending[i].addr == addr && g.pending[i].serial !in g.muted ==> k.fdCommand >= 0)
  {
    var i := IndexOf(g.pending, addr);
    if i < |g.pending| {
      assert PendingOk(g, k, g.pending[i]);
      var p := Without(g.pending, i);
      assert forall j :: 0 <= j < |p| ==> p[j] == g.pending[if j < i then j else j + 1];
      assert |p| == |g.pending| - 1;
    }
  }

  /** A completion repeated with no request allocated in between does nothing. */
  lemma SecondCompletionIsIgnored(g: Ledger, k: Link, addr: nat, error: Errno, fits: bool, error': Errno, fits': bool)
    requires LedgerInv(g, k)
    ensures var t := OnRequestComplete(g, k, addr, error, fits);
            OnRequestComplete(t, k, addr, error', fits') == t
  {
    CompletionAnswers(g, k, addr, error, fits);
  }

  // ---------- dispatchVoiceRadioTech ----------

  datatype RadioState =
    | RadioOff | RadioUnavailable
    | SimNotReady | SimLockedOrAbsent | SimReady
    | RuimNotReady | RuimReady | RuimLockedOrAbsent
    | NvNotReady | NvReady
    | RadioOn

  datatype RadioTech = Umts | OneXRtt

  // decodeVoiceRadioTechnology
  function DecodeVoiceRadioTechnology(state: RadioState): Option<RadioTech> {
    match state
    case SimNotReady | SimLockedOrAbsent | SimReady => Some(Umts)
    case RuimNotReady | RuimReady | RuimLockedOrAbsent | NvNotReady | NvReady => Some(OneXRtt)
    case _ => None
  }

  /** The states of a SIM mean UMTS, those of a RUIM or of no card 1xRTT, and the others nothing. */
  lemma TechByCard(state: RadioState)
    ensures DecodeVoiceRadioTechnology(state) == Some(Umts) <==>
            state == SimNotReady || state == SimLockedOrAbsent || state == SimReady
    ensures DecodeVoiceRadioTechnology(state).None? <==> state == RadioOff || state == RadioUnavailable || state == RadioOn
  {
  }

  /** dispatchVoiceRadioTech: what it does about the request at `addr`; `asked` are the vendor's effects
      when it is asked instead. */
  ghost function DispatchVoiceRadioTech(addr: nat, state: RadioState, asked: seq<Effect>): seq<Effect> {
    var early := if state.RadioUnavailable? || state.RadioOff?
                 then [Completes(addr, RadioNotAvailable, true)] else [];
    if state.RadioOn? then early + asked
    else early + [Completes(addr, if DecodeVoiceRadioTechnology(state).None? then GenericFailure else Success, true)]
  }

  lemma OneEffect(r: Ril, e: Effect)
    ensures DoAll(r, [e]) == Do(r, e)
  {
    assert [e][1..] == [];
  }

  lemma CompletesTwice(r: Ril, e: Effect, e': Effect)
    requires e.Completes? && e'.Completes? && e.addr == e'.addr && LedgerInv(r.ledger, r.link)
    ensures DoAll(r, [e, e']).ledger == OnRequestComplete(r.ledger, r.link, e.addr, e.error, e.fits)
  {
    assert [e, e'][1..] == [e'];
    OneEffect(Do(r, e), e');
    SecondCompletionIsIgnored(r.ledger, r.link, e.addr, e.error, e.fits, e'.error, e'.fits);
  }

  lemma VoiceRadioTechCompletes(r: Ril, addr: nat, state: RadioState, asked: seq<Effect>)
    requires LedgerInv(r.ledger, r.link) && !state.RadioOn?
    ensures var error := if state.RadioOff? || state.RadioUnavailable? then RadioNotAvailable else Success;
      DoAll(r, DispatchVoiceRadioTech(addr, state, asked)).ledger == OnRequestComplete(r.ledger, r.link, addr, error, true)
  {
    var es := DispatchVoiceRadioTech(addr, state, asked);
    if state.RadioOff? || state.RadioUnavailable? {
      assert es == [Completes(addr, RadioNotAvailable, true), Completes(addr, GenericFailure, true)];
      CompletesTwice(r, es[0], es[1]);
    } else {
      assert es == [Completes(addr, Success, true)];
      OneEffect(r, es[0]);
    }
  }

  /** With the radio off the request completes twice, and is answered once: "not available". With the radio on,
      and only then, the vendor is asked, and answers or not as it will. */
  lemma VoiceRadioTechAnswersOnce(r: Ril, token: int, addr: nat, state: RadioState, asked: seq<Effect>)
    requires LedgerInv(r.ledger, r.link) && r.link.fdCommand >= 0 && !Live(r.ledger.pending, addr)
    ensures var t := ProcessCommandBuffer(r, Command(token, addr, DispatchVoiceRadioTech(addr, state, asked)));
            var error := if state.RadioOff? || state.RadioUnavailable? then RadioNotAvailable else Success;
      if state.RadioOn? then t == ProcessCommandBuffer(r, Command(token, addr, asked))
      else
        && t.ledger.responses == r.ledger.responses + [Response(r.link.conn, token, Some(r.ledger.next), error)]
        && t.ledger.pending == r.ledger.pending
  {
    if state.RadioOn? {
      assert DispatchVoiceRadioTech(addr, state, asked) == asked;
    } else {
      EnterKeeps(r.ledger, r.link, addr, token, false);
      VoiceRadioTechCompletes(r.(ledger := Enter(r.ledger, r.link, addr, token, false)), addr, state, asked);
      FirstCompletion(r, token, addr, if state.RadioOff? || state.RadioUnavailable? then RadioNotAvailable else Success);
    }
  }

  lemma FirstCompletion(r: Ril, token: int, addr: nat, error: Errno)
    requires r.link.fdCommand >= 0
    ensures var entered := Enter(r.ledger, r.link, addr, token, false);
            var t := OnRequestComplete(entered, r.link, addr, error, true);
      && t.responses == r.ledger.responses + [Response(r.link.conn, token, Some(r.ledger.next), error)]
      && t.pending == r.ledger.pending
  {
    var entered := Enter(r.ledger, r.link, addr, token, false);
    assert IndexOf(entered.pending, addr) == 0;
    assert Without(entered.pending, 0) == r.ledger.pending;
  }
}
