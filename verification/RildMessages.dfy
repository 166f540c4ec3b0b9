/** When exactly the wake lock is held: the last waking message of the run decides. */
module RildMessages {
  import opened EventModel
  import opened Rild
  import opened RildProofs
  import opened RildSteps
  import opened RildTheorems
  import opened Time

  // ---------- the messages of a run ----------

  /** What RIL_onUnsolicitedResponse is called with, in order: a message that cannot be marshalled makes no others. */
  ghost function Sent(m: Message, nested: seq<Message>): seq<Message> {
    [m] + if m.known && m.marshals then nested else []
  }

  ghost function MessagesOf(es: seq<Effect>): seq<Message> {
    if es == [] then [] else
      (if es[0].Announces? then Sent(es[0].m, es[0].nested) else []) + MessagesOf(es[1..])
  }

  ghost function RecordMessages(recs: seq<Record>): seq<Message> {
    if recs == [] then [] else
      (if recs[0].Command? then MessagesOf(recs[0].effects) else []) + RecordMessages(recs[1..])
  }

  ghost function StepMessages(step: RilStep): seq<Message> {
    match step
    case Vendors(e) => MessagesOf([e])
    case Local(_, effects) => MessagesOf(effects)
    case Fires(ListenFired(Phone(_, greeting))) => MessagesOf(greeting)
    case Fires(CommandsFired(recs, _)) => RecordMessages(recs)
    case Fires(TimerFired(effects)) => MessagesOf(effects)
    case _ => []
  }

  ghost function RunMessages(steps: seq<RilStep>): seq<Message> {
    if steps == [] then [] else RunMessages(steps[..|steps| - 1]) + StepMessages(steps[|steps| - 1])
  }

  // ---------- the last waking one ----------

  ghost predicate Waking(m: Message) {
    m.known && m.wakes
  }

  /** Whether the last waking message could be marshalled; `before` when there is none. */
  ghost function Verdict(before: bool, ms: seq<Message>): bool {
    if ms == [] then before
    else if Waking(ms[|ms| - 1]) then ms[|ms| - 1].marshals
    else Verdict(before, ms[..|ms| - 1])
  }

  ghost predicate LastWaking(ms: seq<Message>, i: nat) {
    i < |ms| && Waking(ms[i]) && forall j :: i < j < |ms| ==> !Waking(ms[j])
  }

  lemma {:induction false} VerdictIsLastWaking(ms: seq<Message>, i: nat, before: bool)
    requires LastWaking(ms, i)
    ensures Verdict(before, ms) == ms[i].marshals
  {
    if i == |ms| - 1 {
    } else {
      assert !Waking(ms[|ms| - 1]);
      VerdictIsLastWaking(ms[..|ms| - 1], i, before);
    }
  }

  lemma {:induction false} VerdictOfTwo(before: bool, ms: seq<Message>, ns: seq<Message>)
    ensures Verdict(before, ms + ns) == Verdict(Verdict(before, ms), ns)
  {
    if ns == [] {
      assert ms + ns == ms;
    } else {
      VerdictOfTwo(before, ms, ns[..|ns| - 1]);
      assert (ms + ns)[..|ms + ns| - 1] == ms + ns[..|ns| - 1];
    }
  }

  lemma VerdictOfOne(before: bool, m: Message)
    ensures Verdict(before, [m]) == if Waking(m) then m.marshals else before
  {
    assert [m][..0] == [];
  }

  // ---------- the history variable is that verdict ----------

  lemma {:induction false} SendAllVerdict(r: Ril, ms: seq<Message>)
    ensures SendAll(r, ms).wake.clean == Verdict(r.wake.clean, ms)
    decreases |ms|
  {
    if ms == [] {
    } else {
      SendAllVerdict(Send(r, ms[0]), ms[1..]);
      VerdictOfOne(r.wake.clean, ms[0]);
      VerdictOfTwo(r.wake.clean, [ms[0]], ms[1..]);
      assert [ms[0]] + ms[1..] == ms;
    }
  }

  lemma AnnounceVerdict(r: Ril, m: Message, nested: seq<Message>)
    ensures OnUnsolicitedResponse(r, m, nested).wake.clean == Verdict(r.wake.clean, Sent(m, nested))
  {
    VerdictOfOne(r.wake.clean, m);
    if m.known && m.marshals {
      SendAllVerdict(Grab(r, m), nested);
      VerdictOfTwo(r.wake.clean, [m], nested);
    } else {
      assert Sent(m, nested) == [m];
    }
  }

  lemma {:induction false} DoAllVerdict(r: Ril, es: seq<Effect>)
    ensures DoAll(r, es).wake.clean == Verdict(r.wake.clean, MessagesOf(es))
    decreases |es|
  {
    if es == [] {
    } else {
      var ms := if es[0].Announces? then Sent(es[0].m, es[0].nested) else [];
      if es[0].Announces? {
        AnnounceVerdict(r, es[0].m, es[0].nested);
      }
      DoAllVerdict(Do(r, es[0]), es[1..]);
      VerdictOfTwo(r.wake.clean, ms, MessagesOf(es[1..]));
    }
  }

  lemma {:induction false} ProcessVerdict(r: Ril, recs: seq<Record>)
    ensures ProcessRecords(r, recs).wake.clean == Verdict(r.wake.clean, RecordMessages(recs))
    decreases |recs|
  {
    if recs == [] {
    } else {
      var ms := if recs[0].Command? then MessagesOf(recs[0].effects) else [];
      if recs[0].Command? {
        DoAllVerdict(r.(ledger := Enter(r.ledger, r.link, recs[0].addr, recs[0].token, false)), recs[0].effects);
      }
      ProcessVerdict(ProcessCommandBuffer(r, recs[0]), recs[1..]);
      VerdictOfTwo(r.wake.clean, ms, RecordMessages(recs[1..]));
    }
  }

  lemma StepVerdict(r: Ril, step: RilStep, t: Ril)
    requires RilStepTo(r, step, t)
    ensures t.wake.clean == Verdict(r.wake.clean, StepMessages(step))
  {
    var p := if step.Fires? then r.(loop := Fire(r.loop)) else r;
    match step
    case Vendors(e) =>
      OneEffect(r, e);
      DoAllVerdict(r, [e]);
    case Local(addr, effects) => DoAllVerdict(r.(ledger := Enter(r.ledger, r.link, addr, -1, true)), effects);
    case Fires(ListenFired(Phone(fd, greeting))) => DoAllVerdict(Connected(p, fd), greeting);
    case Fires(CommandsFired(recs, closes)) => ProcessVerdict(p, recs);
    case Fires(TimerFired(effects)) => DoAllVerdict(p, effects);
    case _ =>
  }

  lemma {:induction false} RunVerdict(states: seq<Ril>, steps: seq<RilStep>, k: nat)
    requires RilRun(states, steps) && Starts(states[0]) && k < |states|
    ensures states[k].wake.clean == Verdict(false, RunMessages(steps[..k]))
  {
    if k == 0 {
    } else {
      RunVerdict(states, steps, k - 1);
      assert RilStepAt(states, steps, k - 1);
      StepVerdict(states[k - 1], steps[k - 1], states[k]);
      assert steps[..k][..k - 1] == steps[..k - 1];
      VerdictOfTwo(false, RunMessages(steps[..k - 1]), StepMessages(steps[k - 1]));
    }
  }

  ghost predicate LastWakingMarshals(ms: seq<Message>) {
    exists i: nat :: LastWaking(ms, i) && ms[i].marshals
  }

  lemma {:induction false} VerdictSaysSo(ms: seq<Message>)
    ensures Verdict(false, ms) <==> LastWakingMarshals(ms)
  {
    if i: nat :| LastWaking(ms, i) {
      VerdictIsLastWaking(ms, i, false);
      assert forall j: nat :: LastWaking(ms, j) ==> j == i;
    } else {
      NoneWaking(ms);
    }
  }

  lemma {:induction false} NoneWaking(ms: seq<Message>)
    requires !exists i: nat :: LastWaking(ms, i)
    ensures !Verdict(false, ms)
  {
    if ms == [] {
    } else {
      var n := |ms| - 1;
      assert !LastWaking(ms, n);
      forall i: nat | LastWaking(ms[..n], i)
        ensures false
      {
        assert LastWaking(ms, i);
      }
      NoneWaking(ms[..n]);
    }
  }

  /** In every run the lock is held exactly when a wake timer is still to fire and the last waking message
      could be marshalled; until 200 ms after the last one that could, that alone decides. */
  lemma MessagesDecideLock(states: seq<Ril>, steps: seq<RilStep>, k: nat)
    requires RilRun(states, steps) && Starts(states[0]) && k < |states|
    ensures var w, good := states[k].wake, LastWakingMarshals(RunMessages(steps[..k]));
      && (w.lock <==> w.last.Some? && good)
      && (w.lastAt.Some? && NotAfter(states[k].loop.clock, Plus(w.lastAt.value, TimeVal(0, 200000))) ==> (w.lock <==> good))
  {
    RunVerdict(states, steps, k);
    VerdictSaysSo(RunMessages(steps[..k]));
    WakeLockLasts(states, steps, k);
  }
}
