/** Every step of the daemon is a run of the event loop, made of calls it permits; so the daemon can run on any
    event loop that is the same but for the names of its events. */
module RildLoop {
  import opened EventModel
  import opened EventNames
  import opened EventProofs
  import opened Rild
  import opened RildLifecycle
  import opened RildProofs
  import opened RildRuns
  import opened RildSteps
  import opened RildTheorems
  import opened Time

  // ---------- what the daemon asks of the loop ----------

  ghost function TimerCalls(addr: nat, delay: TimeVal, now: TimeVal): seq<Step<Ev>> {
    [Act(Set(TimerEv(addr), -1, false, 0, addr)), Act(AddTimer(TimerEv(addr), Some(delay), now))]
  }

  ghost function SendCalls(m: Message): seq<Step<Ev>> {
    if m.known && m.marshals && m.wakes then TimerCalls(m.addr, WAKE_TIMEOUT, m.now) else []
  }

  ghost function SendAllCalls(ms: seq<Message>): seq<Step<Ev>> {
    if ms == [] then [] else SendCalls(ms[0]) + SendAllCalls(ms[1..])
  }

  ghost function EffectCalls(e: Effect): seq<Step<Ev>> {
    match e
    case Completes(_, _, _) => []
    case Announces(m, nested) => if m.known && m.marshals then SendAllCalls(nested) + SendCalls(m) else []
    case Times(_, _, delay, addr, now) => TimerCalls(addr, if delay.None? then ZERO else delay.value, now)
  }

  ghost function EffectsCalls(es: seq<Effect>): seq<Step<Ev>> {
    if es == [] then [] else EffectCalls(es[0]) + EffectsCalls(es[1..])
  }

  ghost function RecordsCalls(recs: seq<Record>): seq<Step<Ev>> {
    if recs == [] then [] else
      (if recs[0].Command? then EffectsCalls(recs[0].effects) else []) + RecordsCalls(recs[1..])
  }

  ghost function AcceptCalls(a: Accept): seq<Step<Ev>> {
    match a
    case AcceptFailed => [Act(Add(ListenEv))]
    case Stranger => [Act(Add(ListenEv))]
    case Phone(fd, greeting) => [Act(Set(CommandsEv, fd, true, 0, 0)), Act(Add(CommandsEv))] + EffectsCalls(greeting)
  }

  ghost function CommandsCalls(recs: seq<Record>, closes: bool): seq<Step<Ev>> {
    RecordsCalls(recs) + if closes then [Act(Del(CommandsEv)), Act(Add(ListenEv))] else []
  }

  /** What the callback of the event `head` asks for. */
  ghost function CallbackCalls(head: Ev, f: Fired): seq<Step<Ev>> {
    match f
    case ListenFired(a) => AcceptCalls(a)
    case CommandsFired(recs, closes) => CommandsCalls(recs, closes)
    case TimerFired(effects) => EffectsCalls(effects) + [Act(Free(head))]
    case _ => []
  }

  /** The steps of the loop that make up a step of the daemon; `head` is the pending event it fires, if any. */
  ghost function LoopSteps(step: RilStep, head: Ev): seq<Step<Ev>> {
    match step
    case Vendors(e) => EffectCalls(e)
    case Local(_, effects) => EffectsCalls(effects)
    case Elsewhere(a) => [Act(a)]
    case Passes(now) => [Tick(now)]
    case Expire(now) => [Timeouts(now)]
    case Poll(rfds, n) => [Readies(rfds, n)]
    case Fires(f) => [FireNext] + CallbackCalls(head, f)
  }

  // ---------- one call, two calls ----------

  ghost predicate Ready(l: State<Ev>) {
    Known(l.recs, l.table) && |l.table| == MAX_FD_EVENTS
  }

  lemma OneLeads(l: State<Ev>, step: Step<Ev>)
    requires Ready(l) && EventModel.Enabled(l, step)
    ensures Leads(l, [step], Next(l, step))
  {
    assert [step][1..] == [];
  }

  lemma TwoLead(l: State<Ev>, step: Step<Ev>, step': Step<Ev>)
    requires Ready(l) && EventModel.Enabled(l, step)
    requires Ready(Next(l, step)) && EventModel.Enabled(Next(l, step), step')
    ensures Leads(l, [step, step'], Next(Next(l, step), step'))
  {
    OneLeads(Next(l, step), step');
    assert [step, step'][1..] == [step'];
  }

  // ---------- timers ----------

  lemma TimerLeads(l: State<Ev>, addr: nat, delay: TimeVal, now: TimeVal)
    requires Inv(l) && TimerEv(addr) !in l.recs && NotAfter(l.clock, now) && NonNegative(delay)
    ensures Leads(l, TimerCalls(addr, delay, now), NewTimer(l, addr, delay, now))
  {
    var e := TimerEv(addr);
    QueuedIsKnown(l, e);
    ActionKeepsInv(l, Set(e, -1, false, 0, addr));
    TwoLead(l, Act(Set(e, -1, false, 0, addr)), Act(AddTimer(e, Some(delay), now)));
  }

  lemma RescheduleLeads(r: Ril, m: Message)
    requires Inv(r.loop) && m.known && m.marshals && CanSend(r, m)
    ensures Leads(r.loop, SendCalls(m), Reschedule(r, m).loop)
  {
    if m.wakes {
      RescheduleSetsTimer(r, m);
      TimerLeads(r.loop, m.addr, WAKE_TIMEOUT, m.now);
    }
  }

  lemma SendLeads(r: Ril, m: Message)
    requires Inv(r.loop) && CanSend(r, m)
    ensures Leads(r.loop, SendCalls(m), Send(r, m).loop)
  {
    if m.known && m.marshals {
      RescheduleLeads(Grab(r, m), m);
    }
  }

  lemma {:induction false} SendAllLeads(r: Ril, ms: seq<Message>, ex: Option<nat>, held: bool, between: bool)
    requires CoreInv(r, ex, held, between) && CanSendAll(r, ms)
    ensures Leads(r.loop, SendAllCalls(ms), SendAll(r, ms).loop)
    decreases |ms|
  {
    if ms == [] {
    } else {
      var t := Send(r, ms[0]);
      SendLeads(r, ms[0]);
      SendKeeps(r, ms[0], ex, held, between);
      SendAllLeads(t, ms[1..], ex, held, between);
      LeadsOn(r.loop, SendCalls(ms[0]), t.loop, SendAllCalls(ms[1..]), SendAll(r, ms).loop);
    }
  }

  // ---------- effects ----------

  lemma AnnounceLeads(r: Ril, m: Message, nested: seq<Message>, ex: Option<nat>, between: bool)
    requires CoreInv(r, ex, false, between) && CanAnnounce(r, m, nested)
    ensures Leads(r.loop, EffectCalls(Announces(m, nested)), OnUnsolicitedResponse(r, m, nested).loop)
  {
    if m.known && m.marshals {
      var g := Grab(r, m);
      var t := SendAll(g, nested);
      SendAllLeads(g, nested, ex, m.wakes, between);
      SendAllKeeps(g, nested, ex, m.wakes, between);
      RescheduleLeads(t, m);
      LeadsOn(r.loop, SendAllCalls(nested), t.loop, SendCalls(m), Reschedule(t, m).loop);
    }
  }

  lemma EffectLeads(r: Ril, e: Effect, ex: Option<nat>, between: bool)
    requires CoreInv(r, ex, false, between) && CanDo(r, e)
    ensures Leads(r.loop, EffectCalls(e), Do(r, e).loop)
  {
    match e
    case Completes(_, _, _) =>
    case Announces(m, nested) => AnnounceLeads(r, m, nested, ex, between);
    case Times(_, _, delay, addr, now) => TimerLeads(r.loop, addr, if delay.None? then ZERO else delay.value, now);
  }

  lemma {:induction false} EffectsLead(r: Ril, es: seq<Effect>, ex: Option<nat>, between: bool)
    requires CoreInv(r, ex, false, between) && CanDoAll(r, es)
    ensures Leads(r.loop, EffectsCalls(es), DoAll(r, es).loop)
    decreases |es|
  {
    if es == [] {
    } else {
      var t := Do(r, es[0]);
      EffectLeads(r, es[0], ex, between);
      DoKeeps(r, es[0], ex, between);
      EffectsLead(t, es[1..], ex, between);
      LeadsOn(r.loop, EffectCalls(es[0]), t.loop, EffectsCalls(es[1..]), DoAll(r, es).loop);
    }
  }

  // ---------- the callbacks ----------

  lemma RecordLeads(r: Ril, rec: Record)
    requires CoreInv(r, None, false, false) && r.link.fdCommand >= 0 && CanProcess(r, rec)
    ensures Leads(r.loop, if rec.Command? then EffectsCalls(rec.effects) else [], ProcessCommandBuffer(r, rec).loop)
  {
    if rec.Command? {
      EnterKeeps(r.ledger, r.link, rec.addr, rec.token, false);
      EffectsLead(r.(ledger := Enter(r.ledger, r.link, rec.addr, rec.token, false)), rec.effects, None, false);
    }
  }

  lemma {:induction false} RecordsLead(r: Ril, recs: seq<Record>)
    requires CoreInv(r, None, false, false) && r.link.fdCommand >= 0 && CanProcessAll(r, recs)
    ensures Leads(r.loop, RecordsCalls(recs), ProcessRecords(r, recs).loop)
    decreases |recs|
  {
    if recs == [] {
    } else {
      var t := ProcessCommandBuffer(r, recs[0]);
      RecordLeads(r, recs[0]);
      ProcessKeeps(r, recs[0]);
      RecordsLead(t, recs[1..]);
      LeadsOn(r.loop, if recs[0].Command? then EffectsCalls(recs[0].effects) else [], t.loop,
              RecordsCalls(recs[1..]), ProcessRecords(r, recs).loop);
    }
  }

  lemma HangUpLeads(l: State<Ev>, k: Link)
    requires Inv(l) && LinkInv(l, k, false) && OnWatch(l.recs, CommandsEv) && CommandsEv !in l.ready
    ensures Leads(l, [Act(Del(CommandsEv)), Act(Add(ListenEv))], EventAdd(EventDel(l, CommandsEv), ListenEv))
  {
    HangUpKeepsLink(l, k);
    ListenAgain(EventDel(l, CommandsEv), k.(fdCommand := -1));
    TwoLead(l, Act(Del(CommandsEv)), Act(Add(ListenEv)));
  }

  lemma CommandsLead(r: Ril, recs: seq<Record>, closes: bool)
    requires CoreInv(r, None, false, false) && OnWatch(r.loop.recs, CommandsEv) && CommandsEv !in r.loop.ready
    requires CanProcessAll(r, recs)
    ensures Leads(r.loop, CommandsCalls(recs, closes), CommandsCallback(r, recs, closes).loop)
  {
    var t := ProcessRecords(r, recs);
    RecordsLead(r, recs);
    ProcessAllKeeps(r, recs);
    if closes {
      HangUpLeads(t.loop, t.link);
      LeadsOn(r.loop, RecordsCalls(recs), t.loop, [Act(Del(CommandsEv)), Act(Add(ListenEv))], CloseCommands(t).loop);
    } else {
      assert RecordsCalls(recs) + [] == RecordsCalls(recs);
    }
  }

  lemma ConnectLeads(l: State<Ev>, k: Link, fd: int)
    requires Inv(l) && LinkInv(l, k, true) && fd >= 0 && fd !in l.readFds
    ensures Leads(l, [Act(Set(CommandsEv, fd, true, 0, 0)), Act(Add(CommandsEv))], Watching(l, fd))
  {
    Unlisted(l, k);
    SetCommands(l, k, fd);
    TwoLead(l, Act(Set(CommandsEv, fd, true, 0, 0)), Act(Add(CommandsEv)));
  }

  lemma ListenLeads(r: Ril, a: Accept)
    requires CoreInv(r, None, false, true) && CanAccept(r, a)
    ensures Leads(r.loop, AcceptCalls(a), ListenCallback(r, a).loop)
  {
    if a.Phone? {
      var t := Connected(r, a.fd);
      ConnectLeads(r.loop, r.link, a.fd);
      ListenKeeps(r, Phone(a.fd, []));
      EffectsLead(t, a.greeting, None, false);
      LeadsOn(r.loop, [Act(Set(CommandsEv, a.fd, true, 0, 0)), Act(Add(CommandsEv))], t.loop,
              EffectsCalls(a.greeting), ListenCallback(r, a).loop);
    } else {
      ListenAgain(r.loop, r.link);
      OneLeads(r.loop, Act(Add(ListenEv)));
    }
  }

  lemma TimerFiredLeads(r: Ril, addr: nat, effects: seq<Effect>)
    requires CoreInv(r, Some(addr), false, false) && CanDoAll(r, effects)
    ensures Leads(r.loop, EffectsCalls(effects) + [Act(Free(TimerEv(addr)))], TimerDone(DoAll(r, effects), addr).loop)
  {
    var t := DoAll(r, effects);
    EffectsLead(r, effects, Some(addr), false);
    DoAllKeeps(r, effects, Some(addr), false);
    FreePermitted(t, addr);
    OneLeads(t.loop, Act(Free(TimerEv(addr))));
    LeadsOn(r.loop, EffectsCalls(effects), t.loop, [Act(Free(TimerEv(addr)))], TimerDone(t, addr).loop);
  }

  lemma CallbackLeads(r: Ril, f: Fired)
    requires RilInv(r) && Serviceable(r) && CanFire(r, f)
    ensures Leads(Fire(r.loop), CallbackCalls(Pending(r.loop)[0], f), CallBack(r, f).loop)
  {
    var p, head := r.(loop := Fire(r.loop)), Pending(r.loop)[0];
    FireKeeps(r);
    FireKeepsLink(r.loop, r.link);
    match f
    case ListenFired(a) => ListenLeads(p, a);
    case CommandsFired(recs, closes) => CommandsLead(p, recs, closes);
    case TimerFired(effects) =>
      assert head in Pending(r.loop);
      TimerFiredLeads(p, head.addr, effects);
    case _ =>
  }

  /** The event that a step fires, if it fires one. */
  ghost function Head(l: State<Ev>, step: RilStep): Ev {
    if step.Fires? && Pending(l) != [] then Pending(l)[0] else ListenEv
  }

  /** Each step of the daemon is a run of its event loop, which permits every call that is made on the way. */
  lemma StepLeads(r: Ril, step: RilStep, t: Ril)
    requires RilInv(r) && RilStepTo(r, step, t)
    ensures Leads(r.loop, LoopSteps(step, Head(r.loop, step)), t.loop)
  {
    match step
    case Vendors(e) => EffectLeads(r, e, None, false);
    case Local(addr, effects) =>
      EnterKeeps(r.ledger, r.link, addr, -1, true);
      EffectsLead(r.(ledger := Enter(r.ledger, r.link, addr, -1, true)), effects, None, false);
    case Elsewhere(a) => OneLeads(r.loop, Act(a));
    case Passes(now) => OneLeads(r.loop, Tick(now));
    case Expire(now) => OneLeads(r.loop, Timeouts(now));
    case Poll(rfds, n) => OneLeads(r.loop, Readies(rfds, n));
    case Fires(f) =>
      CallbackLeads(r, f);
      OneLeads(r.loop, FireNext);
      LeadsOn(r.loop, [FireNext], Fire(r.loop), CallbackCalls(Pending(r.loop)[0], f), t.loop);
  }

  ghost function LoopStepsAt(states: seq<Ril>, steps: seq<RilStep>, k: nat): seq<Step<Ev>>
    requires |states| == |steps| + 1 && k < |steps|
  {
    LoopSteps(steps[k], Head(states[k].loop, steps[k]))
  }

  ghost function Chunks(states: seq<Ril>, steps: seq<RilStep>, k: nat): (chunks: seq<seq<Step<Ev>>>)
    requires |states| == |steps| + 1 && k <= |steps|
    ensures |chunks| == k && forall i :: 0 <= i < k ==> chunks[i] == LoopStepsAt(states, steps, i)
  {
    seq(k, i requires 0 <= i < k => LoopStepsAt(states, steps, i))
  }

  /** The steps of the loop that make up the first `k` steps of a run. */
  ghost function RunLoopSteps(states: seq<Ril>, steps: seq<RilStep>, k: nat): seq<Step<Ev>>
    requires |states| == |steps| + 1 && k <= |steps|
  {
    Flat(Chunks(states, steps, k))
  }

  ghost function Loops(states: seq<Ril>, k: nat): (loops: seq<State<Ev>>)
    requires k < |states|
    ensures |loops| == k + 1 && forall i :: 0 <= i <= k ==> loops[i] == states[i].loop
  {
    seq(k + 1, i requires 0 <= i <= k => states[i].loop)
  }

  lemma LeadsAt(states: seq<Ril>, steps: seq<RilStep>, k: nat)
    requires RilRun(states, steps) && Starts(states[0]) && k < |steps|
    ensures Leads(states[k].loop, LoopStepsAt(states, steps, k), states[k + 1].loop)
  {
    Reached(states, steps, k);
    assert RilStepAt(states, steps, k);
    StepLeads(states[k], steps[k], states[k + 1]);
  }

  lemma RunLeads(states: seq<Ril>, steps: seq<RilStep>, k: nat)
    requires RilRun(states, steps) && Starts(states[0]) && k <= |steps|
    ensures LeadAlong(Loops(states, k), Chunks(states, steps, k))
  {
    forall i | 0 <= i < k
      ensures Leads(Loops(states, k)[i], Chunks(states, steps, k)[i], Loops(states, k)[i + 1])
    {
      LeadsAt(states, steps, i);
    }
  }

  /** Every run of the daemon can be followed on an event loop whose events have other names: it starts out the
      same, permits the same calls, and stays the same throughout. */
  lemma DaemonRunsOnAnyLoop<B>(states: seq<Ril>, steps: seq<RilStep>, k: nat, names: map<Ev, B>, loop: State<B>)
    returns (end: State<B>)
    requires RilRun(states, steps) && Starts(states[0]) && k <= |steps|
    requires Injective(names) && Same(states[0].loop, loop, names) && AllNamed(RunLoopSteps(states, steps, k), names)
    ensures Leads(loop, RenamedSteps(RunLoopSteps(states, steps, k), names), end) && Same(states[k].loop, end, names)
  {
    RunLeads(states, steps, k);
    LeadsAlong(Loops(states, k), Chunks(states, steps, k));
    end := SameLeads(states[0].loop, loop, names, RunLoopSteps(states, steps, k), states[k].loop);
  }
}
