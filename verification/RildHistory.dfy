/** What a run of the daemon has come to, read off its steps: which commands were refused and which tokens received,
    which connection is up, which timers the vendor still waits for. */
module RildHistory {
  import opened EventModel
  import opened Numbers
  import opened Rild
  import opened RildLifecycle
  import opened RildProofs
  import opened RildRuns
  import opened RildSteps
  import opened RildTheorems
  import opened Time

  // ---------- commands ----------

  /** What is sent for the records read on a connection without any request being made of it. */
  ghost function Refusals(conn: nat, recs: seq<Record>): seq<Response> {
    if recs == [] then [] else
      (if recs[0].Unsupported? then [Response(conn, recs[0].token, None, GenericFailure)] else []) + Refusals(conn, recs[1..])
  }

  /** The tokens of all that can be read as commands. */
  ghost function Tokens(conn: nat, recs: seq<Record>): set<(nat, int)> {
    if recs == [] then {} else
      (if recs[0].Malformed? then {} else {(conn, recs[0].token)}) + Tokens(conn, recs[1..])
  }

  /** The responses that belong to no request. */
  ghost function Unnumbered(ps: seq<Response>): seq<Response> {
    if ps == [] then [] else
      Unnumbered(ps[..|ps| - 1]) + if ps[|ps| - 1].serial.None? then [ps[|ps| - 1]] else []
  }

  lemma UnnumberedMore(ps: seq<Response>, p: Response)
    ensures Unnumbered(ps + [p]) == Unnumbered(ps) + if p.serial.None? then [p] else []
  {
    assert (ps + [p])[..|ps|] == ps;
  }

  /** The same tokens were received and the same commands refused. */
  ghost predicate SameHistory(g: Ledger, h: Ledger) {
    h.received == g.received && Unnumbered(h.responses) == Unnumbered(g.responses)
  }

  lemma DoKeepsHistory(r: Ril, e: Effect)
    ensures SameHistory(r.ledger, Do(r, e).ledger)
  {
    match e
    case Completes(addr, error, fits) => CompletionKeepsHistory(r.ledger, r.link, addr, error, fits);
    case Announces(m, nested) => SendAllKeepsLedger(Grab(r, m), nested);
    case Times(_, _, _, _, _) =>
  }

  lemma CompletionKeepsHistory(g: Ledger, k: Link, addr: nat, error: Errno, fits: bool)
    ensures SameHistory(g, OnRequestComplete(g, k, addr, error, fits))
  {
    var i := IndexOf(g.pending, addr);
    if i < |g.pending| {
      UnnumberedMore(g.responses, Response(k.conn, g.pending[i].token, Some(g.pending[i].serial), error));
      assert g.responses + [] == g.responses;
    }
  }

  lemma {:induction false} DoAllKeepsHistory(r: Ril, es: seq<Effect>)
    ensures SameHistory(r.ledger, DoAll(r, es).ledger)
    decreases |es|
  {
    if es == [] {
    } else {
      DoKeepsHistory(r, es[0]);
      DoAllKeepsHistory(Do(r, es[0]), es[1..]);
    }
  }

  /** From `g` to `h` these records were read on a connection. */
  ghost predicate HistoryBy(g: Ledger, conn: nat, recs: seq<Record>, h: Ledger) {
    && Unnumbered(h.responses) == Unnumbered(g.responses) + Refusals(conn, recs)
    && h.received == g.received + Tokens(conn, recs)
  }

  lemma RecordHistory(r: Ril, rec: Record)
    requires r.link.fdCommand >= 0
    ensures HistoryBy(r.ledger, r.link.conn, [rec], ProcessCommandBuffer(r, rec).ledger)
  {
    assert [rec][1..] == [];
    match rec
    case Malformed =>
    case Unsupported(token) => UnnumberedMore(r.ledger.responses, Response(r.link.conn, token, None, GenericFailure));
    case Command(token, addr, effects) =>
      DoAllKeepsHistory(r.(ledger := Enter(r.ledger, r.link, addr, token, false)), effects);
  }

  lemma HistoryOfTwo(g: Ledger, h: Ledger, h': Ledger, conn: nat, recs: seq<Record>)
    requires recs != [] && HistoryBy(g, conn, [recs[0]], h) && HistoryBy(h, conn, recs[1..], h')
    ensures HistoryBy(g, conn, recs, h')
  {
    FirstHistory(conn, recs);
  }

  lemma FirstHistory(conn: nat, recs: seq<Record>)
    requires recs != []
    ensures Refusals(conn, recs) == Refusals(conn, [recs[0]]) + Refusals(conn, recs[1..])
    ensures Tokens(conn, recs) == Tokens(conn, [recs[0]]) + Tokens(conn, recs[1..])
  {
    var first := [recs[0]];
    assert first[1..] == [] && Refusals(conn, []) == [] && Tokens(conn, []) == {};
  }

  /** While telephony is connected, each command that is not supported is refused with a generic failure, once, in the
      order they are read and whatever the others make the vendor do; and nothing else is refused. */
  lemma {:induction false} UnsupportedAreRefused(r: Ril, recs: seq<Record>)
    requires r.link.fdCommand >= 0
    ensures var t := ProcessRecords(r, recs);
      && Unnumbered(t.ledger.responses) == Unnumbered(r.ledger.responses) + Refusals(r.link.conn, recs)
      && t.ledger.received == r.ledger.received + Tokens(r.link.conn, recs)
    decreases |recs|
  {
    if recs == [] {
    } else {
      var t := ProcessCommandBuffer(r, recs[0]);
      RecordHistory(r, recs[0]);
      UnsupportedAreRefused(t, recs[1..]);
      HistoryOfTwo(r.ledger, t.ledger, ProcessRecords(t, recs[1..]).ledger, r.link.conn, recs);
    }
  }

  /** The records a step reads off the command socket. */
  ghost function ReadBy(step: RilStep): seq<Record> {
    if step.Fires? && step.fired.CommandsFired? then step.fired.recs else []
  }

  lemma QuietHistory(r: Ril, step: RilStep, t: Ril)
    requires RilStepTo(r, step, t) && !(step.Fires? && step.fired.CommandsFired?)
    ensures SameHistory(r.ledger, t.ledger)
  {
    var p := if step.Fires? then r.(loop := Fire(r.loop)) else r;
    match step
    case Vendors(e) => DoKeepsHistory(r, e);
    case Local(addr, effects) => DoAllKeepsHistory(r.(ledger := Enter(r.ledger, r.link, addr, -1, true)), effects);
    case Fires(TimerFired(effects)) => DoAllKeepsHistory(p, effects);
    case Fires(ListenFired(Phone(fd, greeting))) => DoAllKeepsHistory(Connected(p, fd), greeting);
    case _ =>
  }

  lemma CommandsHistory(r: Ril, step: RilStep, t: Ril)
    requires RilStepTo(r, step, t) && step.Fires? && step.fired.CommandsFired?
    requires ReadBy(step) != [] ==> r.link.fdCommand >= 0
    ensures HistoryBy(r.ledger, r.link.conn, ReadBy(step), t.ledger)
  {
    if ReadBy(step) != [] {
      UnsupportedAreRefused(r.(loop := Fire(r.loop)), step.fired.recs);
    }
  }

  lemma StepHistory(r: Ril, step: RilStep, t: Ril)
    requires RilStepTo(r, step, t) && (ReadBy(step) != [] ==> r.link.fdCommand >= 0)
    ensures HistoryBy(r.ledger, r.link.conn, ReadBy(step), t.ledger)
  {
    if step.Fires? && step.fired.CommandsFired? {
      CommandsHistory(r, step, t);
    } else {
      QuietHistory(r, step, t);
    }
  }

  ghost function RunRefusals(states: seq<Ril>, steps: seq<RilStep>, k: nat): seq<Response>
    requires RilRun(states, steps) && k < |states|
  {
    if k == 0 then [] else
      RunRefusals(states, steps, k - 1) + Refusals(states[k - 1].link.conn, ReadBy(steps[k - 1]))
  }

  ghost function RunTokens(states: seq<Ril>, steps: seq<RilStep>, k: nat): set<(nat, int)>
    requires RilRun(states, steps) && k < |states|
  {
    if k == 0 then {} else
      RunTokens(states, steps, k - 1) + Tokens(states[k - 1].link.conn, ReadBy(steps[k - 1]))
  }

  lemma ReadsWhileConnected(states: seq<Ril>, steps: seq<RilStep>, k: nat)
    requires RilRun(states, steps) && Starts(states[0]) && k < |steps|
    ensures RilStepTo(states[k], steps[k], states[k + 1])
    ensures ReadBy(steps[k]) != [] ==> states[k].link.fdCommand >= 0
  {
    Reached(states, steps, k);
    assert RilStepAt(states, steps, k);
    StepReadsConnected(states[k], steps[k], states[k + 1]);
  }

  lemma StepReadsConnected(r: Ril, step: RilStep, t: Ril)
    requires RilInv(r) && RilStepTo(r, step, t)
    ensures ReadBy(step) != [] ==> r.link.fdCommand >= 0
  {
    if ReadBy(step) != [] {
      FireKeepsLink(r.loop, r.link);
    }
  }

  /** In every run the responses that belong to no request are the refusals of what was read and is not supported, and
      the tokens received are those read, each with the connection of that time. */
  lemma {:induction false} RefusalsOfRun(states: seq<Ril>, steps: seq<RilStep>, k: nat)
    requires RilRun(states, steps) && Starts(states[0]) && k < |states|
    ensures Unnumbered(states[k].ledger.responses) == RunRefusals(states, steps, k)
    ensures states[k].ledger.received == RunTokens(states, steps, k)
  {
    if k == 0 {
      FreshHistory(states[0]);
    } else {
      RefusalsOfRun(states, steps, k - 1);
      ReadsWhileConnected(states, steps, k - 1);
      StepHistory(states[k - 1], steps[k - 1], states[k]);
    }
  }

  lemma FreshHistory(r: Ril)
    requires Starts(r)
    ensures r.ledger.responses == [] && r.ledger.received == {} && r.link.fdCommand == -1 && r.link.conn == 0
  {
  }

  // ---------- the connection ----------

  /** How many clients the first `k` steps accepted. */
  ghost function Accepted(steps: seq<RilStep>, k: nat): nat
    requires k <= |steps|
  {
    if k == 0 then 0 else Accepted(steps, k - 1) + One(Accepts(steps[k - 1]))
  }

  ghost predicate Accepts(step: RilStep) {
    step.Fires? && step.fired.ListenFired? && step.fired.accept.Phone?
  }

  ghost predicate HangsUp(step: RilStep) {
    step.Fires? && step.fired.CommandsFired? && step.fired.closes
  }

  /** The descriptor of the last of them, unless it has hung up since. */
  ghost function LastFd(steps: seq<RilStep>, k: nat): int
    requires k <= |steps|
  {
    if k == 0 then -1
    else if Accepts(steps[k - 1]) then steps[k - 1].fired.accept.fd
    else if HangsUp(steps[k - 1]) then -1
    else LastFd(steps, k - 1)
  }

  lemma StepLink(r: Ril, step: RilStep, t: Ril)
    requires RilStepTo(r, step, t)
    ensures t.link.fdListen == r.link.fdListen && t.link.conn == r.link.conn + One(Accepts(step))
    ensures t.link.fdCommand ==
            if Accepts(step) then step.fired.accept.fd else if HangsUp(step) then -1 else r.link.fdCommand
  {
  }

  /** In every run telephony is connected through what was accepted last, and not when that has hung up; and the
      connection's number is that of the clients accepted. */
  lemma {:induction false} ConnectionIsLast(states: seq<Ril>, steps: seq<RilStep>, k: nat)
    requires RilRun(states, steps) && Starts(states[0]) && k < |states|
    ensures states[k].link == Link(states[0].link.fdListen, LastFd(steps, k), Accepted(steps, k))
  {
    if k == 0 {
      FreshHistory(states[0]);
    } else {
      ConnectionIsLast(states, steps, k - 1);
      assert RilStepAt(states, steps, k - 1);
      StepLink(states[k - 1], steps[k - 1], states[k]);
    }
  }

  /** A client that is not the phone process leaves no pending request uncancelled, as a hang-up does. */
  lemma CancelledAtClose(r: Ril, step: RilStep, t: Ril)
    requires RilStepTo(r, step, t)
    requires HangsUp(step) || (step.Fires? && step.fired == ListenFired(Stranger))
    ensures forall i :: 0 <= i < |t.ledger.pending| ==> t.ledger.pending[i].cancelled
    ensures step.fired.ListenFired? ==> |t.ledger.pending| == |r.ledger.pending|
  {
  }

  // ---------- the vendor's timers ----------

  /** A timer is to call back with these, and not before then; it is not the wake timer. */
  ghost predicate Awaits(r: Ril, a: nat, info: Info, deadline: TimeVal) {
    && a in r.wake.infos && r.wake.infos[a] == info && r.wake.last != Some(a)
    && TimerEv(a) in r.loop.recs && r.loop.recs[TimerEv(a)].timeout == deadline
  }

  /** RIL_requestTimedCallback; without a time, at once. */
  lemma RequestIsAwaited(r: Ril, id: int, param: int, delay: Option<TimeVal>, a: nat, now: TimeVal)
    requires CanDo(r, Times(id, param, delay, a, now)) && r.wake.last != Some(a)
    ensures Awaits(Do(r, Times(id, param, delay, a, now)), a, Info(Vendor(id), param),
                   if delay.None? then Plus(now, TimeVal(0, 0)) else Plus(now, delay.value))
  {
  }

  lemma SendAwaits(r: Ril, m: Message, a: nat, info: Info, deadline: TimeVal)
    requires CanSend(r, m) && Awaits(r, a, info, deadline)
    ensures Awaits(Send(r, m), a, info, deadline)
  {
  }

  lemma {:induction false} SendAllAwaits(r: Ril, ms: seq<Message>, a: nat, info: Info, deadline: TimeVal)
    requires CanSendAll(r, ms) && Awaits(r, a, info, deadline)
    ensures Awaits(SendAll(r, ms), a, info, deadline)
    decreases |ms|
  {
    if ms == [] {
    } else {
      SendAwaits(r, ms[0], a, info, deadline);
      SendAllAwaits(Send(r, ms[0]), ms[1..], a, info, deadline);
    }
  }

  lemma DoAwaits(r: Ril, e: Effect, a: nat, info: Info, deadline: TimeVal)
    requires CanDo(r, e) && Awaits(r, a, info, deadline)
    ensures Awaits(Do(r, e), a, info, deadline)
  {
    if e.Announces? && e.m.known && e.m.marshals {
      SendAllAwaits(Grab(r, e.m), e.nested, a, info, deadline);
    }
  }

  lemma {:induction false} DoAllAwaits(r: Ril, es: seq<Effect>, a: nat, info: Info, deadline: TimeVal)
    requires CanDoAll(r, es) && Awaits(r, a, info, deadline)
    ensures Awaits(DoAll(r, es), a, info, deadline)
    decreases |es|
  {
    if es == [] {
    } else {
      DoAwaits(r, es[0], a, info, deadline);
      DoAllAwaits(Do(r, es[0]), es[1..], a, info, deadline);
    }
  }

  lemma {:induction false} ProcessAwaits(r: Ril, recs: seq<Record>, a: nat, info: Info, deadline: TimeVal)
    requires CanProcessAll(r, recs) && Awaits(r, a, info, deadline)
    ensures Awaits(ProcessRecords(r, recs), a, info, deadline)
    decreases |recs|
  {
    if recs == [] {
    } else {
      if recs[0].Command? {
        DoAllAwaits(r.(ledger := Enter(r.ledger, r.link, recs[0].addr, recs[0].token, false)), recs[0].effects, a, info, deadline);
      }
      ProcessAwaits(ProcessCommandBuffer(r, recs[0]), recs[1..], a, info, deadline);
    }
  }

  lemma PollAwaits(r: Ril, rfds: set<int>, n: int, a: nat, info: Info, deadline: TimeVal)
    requires Inv(r.loop) && r.loop.polled && Awaits(r, a, info, deadline)
    ensures Awaits(r.(loop := ProcessReadReadies(r.loop, rfds, n)), a, info, deadline)
  {
    PollTakes(r.loop, rfds, n);
  }

  lemma ElsewhereAwaits(r: Ril, act: Action<Ev>, a: nat, info: Info, deadline: TimeVal)
    requires TableInv(r.loop) && OthersMay(r, act) && Awaits(r, a, info, deadline)
    ensures Awaits(r.(loop := Perform(r.loop, act)), a, info, deadline)
  {
    OthersOnlyAbout(r, act);
  }

  /** The callback of the timer at `a` is the one that ends. */
  ghost predicate EndsTimer(r: Ril, step: RilStep, a: nat) {
    step.Fires? && Pending(r.loop) != [] && Pending(r.loop)[0] == TimerEv(a)
  }

  lemma FireAwaits(r: Ril, f: Fired, a: nat, info: Info, deadline: TimeVal)
    requires Serviceable(r) && CanFire(r, f) && Awaits(r, a, info, deadline) && Pending(r.loop)[0] != TimerEv(a)
    ensures Awaits(CallBack(r, f), a, info, deadline)
  {
    var p := r.(loop := Fire(r.loop));
    assert Awaits(p, a, info, deadline);
    match f
    case ListenFired(accept) => ListenAwaits(p, accept, a, info, deadline);
    case CommandsFired(recs, closes) => CommandsAwait(p, recs, closes, a, info, deadline);
    case TimerFired(effects) => DoAllAwaits(p, effects, a, info, deadline);
    case _ =>
  }

  lemma CommandsAwait(r: Ril, recs: seq<Record>, closes: bool, a: nat, info: Info, deadline: TimeVal)
    requires Known(r.loop.recs, r.loop.table) && |r.loop.table| == MAX_FD_EVENTS
    requires CommandsEv in r.loop.recs && ListenEv in r.loop.recs
    requires CanProcessAll(r, recs) && Awaits(r, a, info, deadline)
    ensures Awaits(CommandsCallback(r, recs, closes), a, info, deadline)
  {
    ProcessAwaits(r, recs, a, info, deadline);
    if closes {
      CloseAwaits(ProcessRecords(r, recs), a, info, deadline);
    }
  }

  lemma CloseAwaits(r: Ril, a: nat, info: Info, deadline: TimeVal)
    requires Known(r.loop.recs, r.loop.table) && |r.loop.table| == MAX_FD_EVENTS
    requires CommandsEv in r.loop.recs && ListenEv in r.loop.recs
    requires Awaits(r, a, info, deadline)
    ensures Awaits(CloseCommands(r), a, info, deadline)
  {
  }

  lemma ListenAwaits(r: Ril, accept: Accept, a: nat, info: Info, deadline: TimeVal)
    requires ListenEv in r.loop.recs && CanAccept(r, accept) && Awaits(r, a, info, deadline)
    ensures Awaits(ListenCallback(r, accept), a, info, deadline)
  {
    if accept.Phone? {
      DoAllAwaits(Connected(r, accept.fd), accept.greeting, a, info, deadline);
    }
  }

  lemma LoopStepAwaits(r: Ril, step: RilStep, t: Ril, a: nat, info: Info, deadline: TimeVal)
    requires Inv(r.loop) && RilStepTo(r, step, t) && Awaits(r, a, info, deadline)
    requires step.Elsewhere? || step.Passes? || step.Expire? || step.Poll?
    ensures Awaits(t, a, info, deadline)
  {
    match step
    case Elsewhere(act) => ElsewhereAwaits(r, act, a, info, deadline);
    case Poll(rfds, n) => PollAwaits(r, rfds, n, a, info, deadline);
    case _ =>
  }

  lemma VendorStepAwaits(r: Ril, step: RilStep, t: Ril, a: nat, info: Info, deadline: TimeVal)
    requires RilStepTo(r, step, t) && Awaits(r, a, info, deadline) && (step.Vendors? || step.Local?)
    ensures Awaits(t, a, info, deadline)
  {
    match step
    case Vendors(e) => DoAwaits(r, e, a, info, deadline);
    case Local(addr, effects) =>
      DoAllAwaits(r.(ledger := Enter(r.ledger, r.link, addr, -1, true)), effects, a, info, deadline);
  }

  lemma FireStepAwaits(r: Ril, step: RilStep, t: Ril, a: nat, info: Info, deadline: TimeVal)
    requires RilStepTo(r, step, t) && step.Fires? && Awaits(r, a, info, deadline) && !EndsTimer(r, step, a)
    ensures Awaits(t, a, info, deadline)
  {
    FireAwaits(r, step.fired, a, info, deadline);
  }

  lemma StepAwaits(r: Ril, step: RilStep, t: Ril, a: nat, info: Info, deadline: TimeVal)
    requires Inv(r.loop) && RilStepTo(r, step, t) && Awaits(r, a, info, deadline) && !EndsTimer(r, step, a)
    ensures Awaits(t, a, info, deadline)
  {
    if step.Fires? {
      FireStepAwaits(r, step, t, a, info, deadline);
    } else if step.Vendors? || step.Local? {
      VendorStepAwaits(r, step, t, a, info, deadline);
    } else {
      LoopStepAwaits(r, step, t, a, info, deadline);
    }
  }

  lemma RunStepAwaits(states: seq<Ril>, steps: seq<RilStep>, k: nat, a: nat, info: Info, deadline: TimeVal)
    requires RilRun(states, steps) && Starts(states[0]) && k < |steps|
    requires Awaits(states[k], a, info, deadline) && !EndsTimer(states[k], steps[k], a)
    ensures Awaits(states[k + 1], a, info, deadline)
  {
    LoopInvAt(states, steps, k);
    assert RilStepAt(states, steps, k);
    StepAwaits(states[k], steps[k], states[k + 1], a, info, deadline);
  }

  lemma LoopInvAt(states: seq<Ril>, steps: seq<RilStep>, k: nat)
    requires RilRun(states, steps) && Starts(states[0]) && k < |states|
    ensures Inv(states[k].loop)
  {
    Reached(states, steps, k);
  }

  /** In every run a timer that was requested keeps its callback, parameter and deadline until its own callback
      ends. */
  lemma {:induction false} TimersAreKept(states: seq<Ril>, steps: seq<RilStep>, j: nat, k: nat, a: nat, info: Info, deadline: TimeVal)
    requires RilRun(states, steps) && Starts(states[0]) && j <= k < |states| && Awaits(states[j], a, info, deadline)
    requires forall i :: j <= i < k ==> !EndsTimer(states[i], steps[i], a)
    ensures Awaits(states[k], a, info, deadline)
    decreases k - j
  {
    if j == k {
    } else {
      TimersAreKept(states, steps, j, k - 1, a, info, deadline);
      RunStepAwaits(states, steps, k - 1, a, info, deadline);
    }
  }

  /** It waits on a list all that time, and its deadline is past when it is called back. */
  lemma TimersComeDue(states: seq<Ril>, steps: seq<RilStep>, k: nat, a: nat, info: Info, deadline: TimeVal)
    requires RilRun(states, steps) && Starts(states[0]) && k < |states| && Awaits(states[k], a, info, deadline)
    ensures OnTimers(states[k].loop, TimerEv(a))
    ensures k < |steps| && EndsTimer(states[k], steps[k], a) ==> Before(deadline, states[k].loop.clock)
  {
    Reached(states, steps, k);
    AwaitedIsListed(states[k], a);
    if k < |steps| && EndsTimer(states[k], steps[k], a) {
      assert RilStepAt(states, steps, k);
      EndedIsDue(states[k], steps[k], states[k + 1], a);
    }
  }

  lemma EndedIsDue(r: Ril, step: RilStep, t: Ril, a: nat)
    requires RilInv(r) && RilStepTo(r, step, t) && EndsTimer(r, step, a)
    ensures TimerEv(a) in r.loop.recs && Before(r.loop.recs[TimerEv(a)].timeout, r.loop.clock)
  {
    FiredIsDue(r, a);
  }

  lemma AwaitedIsListed(r: Ril, a: nat)
    requires RilInv(r) && a in r.wake.infos
    ensures OnTimers(r.loop, TimerEv(a))
  {
  }

  lemma FiredIsDue(r: Ril, a: nat)
    requires RilInv(r) && EventModel.Enabled(r.loop, FireNext) && Pending(r.loop)[0] == TimerEv(a)
    ensures TimerEv(a) in r.loop.recs && Before(r.loop.recs[TimerEv(a)].timeout, r.loop.clock)
  {
    FireKeeps(r);
  }
}
