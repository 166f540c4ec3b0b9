/** Which completions a run answers to: an address is pending exactly from when a request enters at it
    until it completes, whatever else happens. */
module RildCompletions {
  import opened Chains
  import opened EventModel
  import opened Rild
  import opened RildProofs
  import opened RildSteps
  import opened RildTheorems

  // ---------- what happens to an address in a run ----------

  datatype Touch = Entered | Completed

  ghost function Touches(es: seq<Effect>, addr: nat): seq<Touch> {
    if es == [] then [] else
      (if es[0].Completes? && es[0].addr == addr then [Completed] else []) + Touches(es[1..], addr)
  }

  ghost function RecordTouches(recs: seq<Record>, addr: nat): seq<Touch> {
    if recs == [] then [] else
      (if recs[0].Command? then EntryTouches(recs[0].addr, recs[0].effects, addr) else []) + RecordTouches(recs[1..], addr)
  }

  /** A request enters at `entry`, and its handler has the effects `es`. */
  ghost function EntryTouches(entry: nat, es: seq<Effect>, addr: nat): seq<Touch> {
    (if entry == addr then [Entered] else []) + Touches(es, addr)
  }

  ghost function StepTouches(step: RilStep, addr: nat): seq<Touch> {
    match step
    case Vendors(e) => Touches([e], addr)
    case Local(entry, effects) => EntryTouches(entry, effects, addr)
    case Fires(ListenFired(Phone(_, greeting))) => Touches(greeting, addr)
    case Fires(CommandsFired(recs, _)) => RecordTouches(recs, addr)
    case Fires(TimerFired(effects)) => Touches(effects, addr)
    case _ => []
  }

  ghost function RunTouches(steps: seq<RilStep>, addr: nat): seq<Touch> {
    if steps == [] then [] else RunTouches(steps[..|steps| - 1], addr) + StepTouches(steps[|steps| - 1], addr)
  }

  /** Whether the last of them is an entry; `before` when there is none. */
  ghost function EndsEntered(before: bool, touches: seq<Touch>): bool {
    if touches == [] then before else touches[|touches| - 1] == Entered
  }

  lemma EndsOfTwo(before: bool, a: seq<Touch>, b: seq<Touch>)
    ensures EndsEntered(before, a + b) == EndsEntered(EndsEntered(before, a), b)
  {
    if b == [] {
      assert a + b == a;
    } else {
      assert (a + b)[|a + b| - 1] == b[|b| - 1];
    }
  }

  // ---------- pending is what the touches say ----------

  ghost predicate Apart(pending: seq<Request>) {
    forall i, j :: 0 <= i < j < |pending| ==> pending[i].addr != pending[j].addr
  }

  ghost predicate PendingAs(pending: seq<Request>, addr: nat, live: bool) {
    Apart(pending) && (Live(pending, addr) <==> live)
  }

  lemma CompletionEnds(g: Ledger, k: Link, done: nat, error: Errno, fits: bool, addr: nat)
    requires Apart(g.pending)
    ensures PendingAs(OnRequestComplete(g, k, done, error, fits).pending, addr, Live(g.pending, addr) && addr != done)
  {
    var i := IndexOf(g.pending, done);
    if i < |g.pending| {
      var p := Without(g.pending, i);
      assert |p| == |g.pending| - 1 && forall j :: 0 <= j < |p| ==> p[j] == g.pending[if j < i then j else j + 1];
      forall j | 0 <= j < |g.pending| && g.pending[j].addr == addr != done
        ensures Live(p, addr)
      {
        assert p[if j < i then j else j - 1] == g.pending[j];
      }
    }
  }

  lemma EntryStarts(g: Ledger, k: Link, entry: nat, token: int, local: bool, addr: nat)
    requires Apart(g.pending) && !Live(g.pending, entry)
    ensures PendingAs(Enter(g, k, entry, token, local).pending, addr, Live(g.pending, addr) || addr == entry)
  {
    var p := Enter(g, k, entry, token, local).pending;
    assert p[0].addr == entry && forall j :: 0 <= j < |g.pending| ==> p[j + 1] == g.pending[j];
    assert forall j :: 0 < j < |p| ==> p[j] == g.pending[j - 1];
  }

  lemma CancelKeepsPending(g: Ledger, addr: nat)
    requires Apart(g.pending)
    ensures PendingAs(CancelAll(g).pending, addr, Live(g.pending, addr))
  {
    assert forall i :: 0 <= i < |g.pending| ==> CancelAll(g).pending[i].addr == g.pending[i].addr;
  }

  lemma {:induction false} DoAllTouches(r: Ril, es: seq<Effect>, addr: nat)
    requires Apart(r.ledger.pending)
    ensures PendingAs(DoAll(r, es).ledger.pending, addr, EndsEntered(Live(r.ledger.pending, addr), Touches(es, addr)))
    decreases |es|
  {
    if es == [] {
    } else {
      var t := Do(r, es[0]);
      match es[0] {
        case Completes(done, error, fits) => CompletionEnds(r.ledger, r.link, done, error, fits, addr);
        case Announces(m, nested) => SendAllKeepsLedger(Grab(r, m), nested);
        case Times(_, _, _, _, _) =>
      }
      DoAllTouches(t, es[1..], addr);
      EndsOfTwo(Live(r.ledger.pending, addr), Touches([es[0]], addr), Touches(es[1..], addr));
      OneTouch(es[0], addr);
    }
  }

  lemma OneTouch(e: Effect, addr: nat)
    ensures Touches([e], addr) == if e.Completes? && e.addr == addr then [Completed] else []
  {
    assert [e][1..] == [];
  }

  /** A request enters, and its handler runs. */
  lemma EntryTouchesPending(r: Ril, entry: nat, token: int, local: bool, es: seq<Effect>, addr: nat)
    requires Apart(r.ledger.pending) && !Live(r.ledger.pending, entry)
    ensures var t := DoAll(r.(ledger := Enter(r.ledger, r.link, entry, token, local)), es);
      PendingAs(t.ledger.pending, addr, EndsEntered(Live(r.ledger.pending, addr), EntryTouches(entry, es, addr)))
  {
    EntryStarts(r.ledger, r.link, entry, token, local, addr);
    DoAllTouches(r.(ledger := Enter(r.ledger, r.link, entry, token, local)), es, addr);
    EndsOfTwo(Live(r.ledger.pending, addr), if entry == addr then [Entered] else [], Touches(es, addr));
  }

  lemma {:induction false} RecordsTouchPending(r: Ril, recs: seq<Record>, addr: nat)
    requires Apart(r.ledger.pending) && CanProcessAll(r, recs)
    ensures PendingAs(ProcessRecords(r, recs).ledger.pending, addr,
                      EndsEntered(Live(r.ledger.pending, addr), RecordTouches(recs, addr)))
    decreases |recs|
  {
    if recs == [] {
    } else {
      var first := if recs[0].Command? then EntryTouches(recs[0].addr, recs[0].effects, addr) else [];
      if recs[0].Command? {
        EntryTouchesPending(r, recs[0].addr, recs[0].token, false, recs[0].effects, addr);
      }
      RecordsTouchPending(ProcessCommandBuffer(r, recs[0]), recs[1..], addr);
      EndsOfTwo(Live(r.ledger.pending, addr), first, RecordTouches(recs[1..], addr));
    }
  }

  lemma CommandsTouchPending(r: Ril, recs: seq<Record>, closes: bool, addr: nat)
    requires Apart(r.ledger.pending) && CanProcessAll(r, recs)
    requires Known(r.loop.recs, r.loop.table) && |r.loop.table| == MAX_FD_EVENTS
    requires CommandsEv in r.loop.recs && ListenEv in r.loop.recs
    ensures PendingAs(CommandsCallback(r, recs, closes).ledger.pending, addr,
                      EndsEntered(Live(r.ledger.pending, addr), RecordTouches(recs, addr)))
  {
    RecordsTouchPending(r, recs, addr);
    if closes {
      CancelKeepsPending(ProcessRecords(r, recs).ledger, addr);
    }
  }

  lemma ListenTouchesPending(r: Ril, a: Accept, addr: nat)
    requires Apart(r.ledger.pending) && ListenEv in r.loop.recs
    ensures PendingAs(ListenCallback(r, a).ledger.pending, addr,
                      EndsEntered(Live(r.ledger.pending, addr), if a.Phone? then Touches(a.greeting, addr) else []))
  {
    match a
    case AcceptFailed =>
    case Stranger => CancelKeepsPending(r.ledger, addr);
    case Phone(fd, greeting) => DoAllTouches(Connected(r, fd), greeting, addr);
  }

  lemma VendorTouchesPending(r: Ril, e: Effect, addr: nat)
    requires Apart(r.ledger.pending)
    ensures PendingAs(Do(r, e).ledger.pending, addr, EndsEntered(Live(r.ledger.pending, addr), Touches([e], addr)))
  {
    OneEffect(r, e);
    DoAllTouches(r, [e], addr);
  }

  lemma StepTouchesPending(r: Ril, step: RilStep, t: Ril, addr: nat)
    requires Apart(r.ledger.pending) && RilStepTo(r, step, t)
    ensures PendingAs(t.ledger.pending, addr, EndsEntered(Live(r.ledger.pending, addr), StepTouches(step, addr)))
  {
    var p := if step.Fires? then r.(loop := Fire(r.loop)) else r;
    match step
    case Vendors(e) => VendorTouchesPending(r, e, addr);
    case Local(entry, effects) => EntryTouchesPending(r, entry, -1, true, effects, addr);
    case Fires(ListenFired(a)) => ListenTouchesPending(p, a, addr);
    case Fires(CommandsFired(recs, closes)) =>
      assert Pending(r.loop)[0] in Pending(r.loop);
      CommandsTouchPending(p, recs, closes, addr);
    case Fires(TimerFired(effects)) => DoAllTouches(p, effects, addr);
    case _ =>
  }

  lemma {:induction false} RunTouchesPending(states: seq<Ril>, steps: seq<RilStep>, k: nat, addr: nat)
    requires RilRun(states, steps) && states[0].ledger.pending == [] && k < |states|
    ensures PendingAs(states[k].ledger.pending, addr, EndsEntered(false, RunTouches(steps[..k], addr)))
  {
    if k == 0 {
    } else {
      RunTouchesPending(states, steps, k - 1, addr);
      assert RilStepAt(states, steps, k - 1);
      StepTouchesPending(states[k - 1], steps[k - 1], states[k], addr);
      assert steps[..k][..k - 1] == steps[..k - 1];
      EndsOfTwo(false, RunTouches(steps[..k - 1], addr), StepTouches(steps[k - 1], addr));
    }
  }

  lemma StartsEmpty(r: Ril)
    requires Starts(r)
    ensures r.ledger.pending == []
  {
  }

  lemma LiveIfEntered(states: seq<Ril>, steps: seq<RilStep>, k: nat, addr: nat)
    requires RilRun(states, steps) && states[0].ledger.pending == [] && k < |states|
    ensures Live(states[k].ledger.pending, addr) <==> EndsEntered(false, RunTouches(steps[..k], addr))
  {
    RunTouchesPending(states, steps, k, addr);
  }

  lemma CompletesIfPending(states: seq<Ril>, steps: seq<RilStep>, k: nat, addr: nat, error: Errno, fits: bool)
    requires RilRun(states, steps) && Starts(states[0]) && k < |states|
    ensures var r := states[k]; OnRequestComplete(r.ledger, r.link, addr, error, fits) != r.ledger <==> Live(r.ledger.pending, addr)
  {
    Reached(states, steps, k);
    CompletionAnswers(states[k].ledger, states[k].link, addr, error, fits);
  }

  /** At any point of any run a completion does something exactly if the last thing that happened to its
      address was that a request entered at it: a second one is ignored until the address is used again. */
  lemma CompletionsCountOnce(states: seq<Ril>, steps: seq<RilStep>, k: nat, addr: nat, error: Errno, fits: bool)
    requires RilRun(states, steps) && Starts(states[0]) && k < |states|
    ensures var r, touches := states[k], RunTouches(steps[..k], addr);
      OnRequestComplete(r.ledger, r.link, addr, error, fits) != r.ledger <==> touches != [] && touches[|touches| - 1] == Entered
  {
    StartsEmpty(states[0]);
    LiveIfEntered(states, steps, k, addr);
    CompletesIfPending(states, steps, k, addr, error, fits);
  }
}
