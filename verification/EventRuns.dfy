/** What the RIL event loop guarantees over whole runs: callbacks and other threads may call the API
    between any two steps of the loop. */
module EventRuns {
  import opened Time
  import opened EventModel
  import opened EventProofs
  import opened Sequences

  ghost predicate StepTo<E>(s: State<E>, step: Step<E>, t: State<E>) {
    && Known(s.recs, s.table) && |s.table| == MAX_FD_EVENTS
    && Enabled(s, step)
    && t == Next(s, step)
  }

  /** `states[0]` is where the run starts, and step `i` leads from `states[i]` to `states[i + 1]`. */
  ghost predicate Run<E>(states: seq<State<E>>, steps: seq<Step<E>>) {
    && |states| == |steps| + 1
    && forall i {:trigger steps[i]} :: 0 <= i < |steps| ==> StepTo(states[i], steps[i], states[i + 1])
  }

  lemma StartTable<E>(clock: TimeVal)
    ensures TableInv(Start<E>(clock)) && FdInv(Start<E>(clock))
  {
  }

  lemma StartLists<E>(clock: TimeVal)
    ensures ListInv(Start<E>(clock)) && OrderInv(Start<E>(clock))
  {
    assert Timeline(Start<E>(clock)) == [];
  }

  lemma StartInv<E>(clock: TimeVal)
    ensures Inv(Start<E>(clock))
  {
    StartTable<E>(clock);
    StartLists<E>(clock);
  }

  lemma StepToKeepsInv<E>(s: State<E>, step: Step<E>, t: State<E>)
    requires StepTo(s, step, t) && Inv(s)
    ensures Inv(t)
  {
    StepKeepsInv(s, step);
  }

  lemma {:induction false} RunKeepsInv<E>(states: seq<State<E>>, steps: seq<Step<E>>, k: nat)
    requires Run(states, steps) && Inv(states[0]) && k < |states|
    ensures Inv(states[k])
  {
    if k == 0 {
    } else {
      RunKeepsInv(states, steps, k - 1);
      StepToKeepsInv(states[k - 1], steps[k - 1], states[k]);
    }
  }

  /** Timers fire in order of their deadlines over the whole run, each strictly after its deadline;
      and every timer ever added has fired, or is on exactly one list, exactly once. */
  lemma TimersFireInDeadlineOrder<E>(states: seq<State<E>>, steps: seq<Step<E>>, clock: TimeVal, k: nat)
    requires Run(states, steps) && states[0] == Start(clock) && k < |states|
    ensures var s := states[k];
      && |s.shotAt| == |s.shots|
      && (forall i, j :: 0 <= i < j < |s.shots| ==> NotAfter(s.shots[i].deadline, s.shots[j].deadline))
      && (forall i :: 0 <= i < |s.shots| ==> Before(s.shots[i].deadline, s.shotAt[i]))
      && s.added == multiset(s.shots) + multiset(s.expired) + multiset(s.timers)
  {
    StartInv<E>(clock);
    RunKeepsInv(states, steps, k);
    var s := states[k];
    assert forall i :: 0 <= i < |s.shots| ==> Timeline(s)[i] == s.shots[i];
    assert multiset(Timeline(s)) == multiset(s.shots) + multiset(s.expired) + multiset(s.timers);
  }

  lemma {:induction false} HistoryGrows<E>(states: seq<State<E>>, steps: seq<Step<E>>, j: nat, k: nat)
    requires Run(states, steps) && j <= k < |states|
    ensures states[j].shots <= states[k].shots && states[j].shotAt <= states[k].shotAt
    ensures states[j].fired <= states[k].fired && states[j].added <= states[k].added
    decreases k - j
  {
    if j == k {
    } else {
      HistoryGrows(states, steps, j, k - 1);
      StepKeepsHistory(states[k - 1], steps[k - 1], states[k]);
    }
  }

  lemma ActionKeepsHistory<E>(s: State<E>, a: Action<E>)
    requires Known(s.recs, s.table) && |s.table| == MAX_FD_EVENTS && Permitted(s, a)
    ensures var t := Perform(s, a);
            t.shots == s.shots && t.shotAt == s.shotAt && t.fired == s.fired && s.added <= t.added
  {
  }

  lemma StepKeepsHistory<E>(s: State<E>, step: Step<E>, t: State<E>)
    requires StepTo(s, step, t)
    ensures s.shots <= t.shots && s.shotAt <= t.shotAt && s.fired <= t.fired && s.added <= t.added
  {
    if step.Readies? {
      ScanKeepsHistory(s, step.rfds, step.n, 0);
    } else if step.Act? {
      ActionKeepsHistory(s, step.action);
    }
  }

  lemma {:induction false} ScanKeepsHistory<E>(s: State<E>, rfds: set<int>, n: int, i: nat)
    requires Known(s.recs, s.table) && i <= |s.table|
    ensures var t := ScanReady(s, rfds, n, i);
            t.shots == s.shots && t.shotAt == s.shotAt && t.fired == s.fired && t.added == s.added && t.timers == s.timers
    decreases |s.table| - i
  {
    if i == |s.table| || n <= 0 {
    } else {
      if ReadyAt(s, rfds, i) {
        ScanKeepsHistory(QueueReady(s, i), rfds, n - 1, i + 1);
      } else {
        ScanKeepsHistory(s, rfds, n, i + 1);
      }
    }
  }

  lemma Overdue<E>(timers: seq<Due<E>>, now: TimeVal, k: nat)
    requires Sorted(timers) && IsExpiredCount(timers, now, k)
    ensures forall due :: due in timers[..k] ==> Before(due.deadline, now)
    ensures forall due :: due in timers[k..] ==> !Before(due.deadline, now)
    ensures timers == timers[..k] + timers[k..]
  {
  }

  /** One pass of processTimeouts moves exactly the overdue timers, in their order. */
  lemma OverdueTimersMove<E>(s: State<E>, now: TimeVal)
    requires Inv(s) && Enabled(s, Timeouts(now))
    ensures var t := ProcessTimeouts(s, now);
      && s.timers == t.expired + t.timers
      && (forall due :: due in t.expired ==> Before(due.deadline, now))
      && (forall due :: due in t.timers ==> !Before(due.deadline, now))
  {
    NothingPending(s);
    TimersSorted(s);
    Overdue(s.timers, now, ExpiredCount(s.timers, now));
    ExpiresPrefix(s, now);
  }

  lemma ExpiresPrefix<E>(s: State<E>, now: TimeVal)
    requires s.expired == []
    ensures var t, k := ProcessTimeouts(s, now), ExpiredCount(s.timers, now);
            t.expired == s.timers[..k] && t.timers == s.timers[k..]
  {
  }

  /** A pass of firePending: only callbacks, other threads and the clock act besides it. */
  ghost predicate Firing<E>(steps: seq<Step<E>>) {
    forall i :: 0 <= i < |steps| ==> steps[i].FireNext? || steps[i].Act? || steps[i].Tick?
  }

  /** Whatever the callbacks do, what has fired followed by what is still pending does not change; so a
      pass that empties the list fires what was pending, once each and in list order. */
  lemma {:induction false} PassFiresWhatWasPending<E>(states: seq<State<E>>, steps: seq<Step<E>>, k: nat)
    requires Run(states, steps) && Firing(steps) && k < |states|
    ensures states[k].fired + Pending(states[k]) == states[0].fired + Pending(states[0])
    ensures Pending(states[k]) == [] ==> states[k].fired == states[0].fired + Pending(states[0])
  {
    if k == 0 {
    } else {
      PassFiresWhatWasPending(states, steps, k - 1);
      var s, t := states[k - 1], states[k];
      assert StepTo(s, steps[k - 1], t);
      if steps[k - 1].FireNext? {
        FireTakesHead(s);
      }
    }
  }

  lemma FireTakesHead<E>(s: State<E>)
    requires Pending(s) != []
    ensures Fire(s).fired == s.fired + [Pending(s)[0]]
    ensures Pending(Fire(s)) == Pending(s)[1..]
    ensures Fire(s).fired + Pending(Fire(s)) == s.fired + Pending(s)
  {
    assert Pending(Fire(s)) == Pending(s)[1..];
  }

  /** No permitted call touches the pending list. */
  lemma ActionKeepsPending<E>(s: State<E>, a: Action<E>)
    requires Known(s.recs, s.table) && |s.table| == MAX_FD_EVENTS && Permitted(s, a)
    ensures var t := Perform(s, a);
            t.expired == s.expired && t.ready == s.ready && t.fired == s.fired && t.polled == s.polled
  {
  }

  lemma {:induction false} ScriptKeepsPending<E>(s: State<E>, script: seq<Action<E>>)
    requires AllPermitted(s, script)
    ensures var t := PerformAll(s, script);
            t.expired == s.expired && t.ready == s.ready && t.fired == s.fired && t.polled == s.polled
    decreases |script|
  {
    if script == [] {
    } else {
      ActionKeepsPending(s, script[0]);
      ScriptKeepsPending(Perform(s, script[0]), script[1..]);
    }
  }

  lemma {:induction false} ScriptKeepsInv<E>(s: State<E>, script: seq<Action<E>>)
    requires Inv(s) && AllPermitted(s, script)
    ensures Inv(PerformAll(s, script))
    decreases |script|
  {
    if script == [] {
    } else {
      ActionKeepsInv(s, script[0]);
      ScriptKeepsInv(Perform(s, script[0]), script[1..]);
    }
  }

  /** firePending as a whole: it empties the list and has fired what was on it, in list order. */
  lemma {:induction false} FirePendingFiresAll<E>(s: State<E>, scripts: seq<seq<Action<E>>>)
    requires Inv(s) && !s.polled && Playable(s, scripts)
    ensures var t := FirePending(s, scripts);
            Inv(t) && !t.polled && Pending(t) == [] && t.fired == s.fired + Pending(s)
    decreases |scripts|
  {
    if scripts == [] {
    } else {
      StepKeepsInv(s, FireNext);
      FireTakesHead(s);
      ScriptKeepsPending(Fire(s), scripts[0]);
      ScriptKeepsInv(Fire(s), scripts[0]);
      FirePendingFiresAll(PerformAll(Fire(s), scripts[0]), scripts[1..]);
    }
  }

  lemma {:induction false} DistinctInSet(s: seq<int>, bound: set<int>)
    requires Distinct(s) && forall x :: x in s ==> x in bound
    ensures |s| <= |bound|
  {
    if s == [] {
    } else {
      assert forall x :: x in s[1..] ==> x in s && x != s[0];
      DistinctInSet(s[1..], bound - {s[0]});
    }
  }

  lemma NoMoreThanReadable<E>(s: State<E>, events: seq<E>, rfds: set<int>)
    requires TableInv(s) && Distinct(events)
    requires forall e :: e in events ==> OnWatch(s.recs, e) && s.recs[e].fd in rfds
    ensures |events| <= |rfds|
  {
    assert forall i :: 0 <= i < |events| ==> events[i] in events;
    var fds := seq(|events|, i requires 0 <= i < |events| => s.recs[events[i]].fd);
    assert Distinct(fds);
    DistinctInSet(fds, rfds);
  }

  /** `n` is at least the number of readable events: the scan finds all of them. */
  lemma ScanFindsAll<E>(s: State<E>, rfds: set<int>, n: int)
    requires TableInv(s) && FdInv(s) && n >= |rfds|
    ensures Took(s, ReadyList(s.recs, s.table, rfds, 0), ScanReady(s, rfds, n, 0))
  {
    var all := ReadyList(s.recs, s.table, rfds, 0);
    ReadyListMembers(s, rfds, 0);
    NoMoreThanReadable(s, all, rfds);
    ScanTakes(s, rfds, n, 0);
    assert FirstN(all, n) == all;
  }

  /** With the count that select returns, the scan does not stop before it has seen every readable
      event: each is queued once, in slot order, and only the non-persistent ones stop being watched. */
  lemma ReadiesAreExact<E>(s: State<E>, rfds: set<int>, n: int)
    requires Inv(s) && s.polled && n >= |rfds|
    ensures var t := ProcessReadReadies(s, rfds, n);
      && t.ready == ReadyList(s.recs, s.table, rfds, 0) && Distinct(t.ready)
      && (forall e :: e in t.ready <==> OnWatch(s.recs, e) && s.recs[e].fd in rfds)
      && (forall e :: OnWatch(t.recs, e) <==>
            OnWatch(s.recs, e) && (s.recs[e].fd in rfds ==> s.recs[e].persist))
  {
    ScanFindsAll(s, rfds, n);
    ReadyListMembers(s, rfds, 0);
  }

  ghost predicate AllNormal<E>(timers: seq<Due<E>>) {
    forall i :: 0 <= i < |timers| ==> Normal(timers[i].deadline)
  }

  /** Clock readings and delays are normalised. */
  ghost predicate NormalInputs<E>(step: Step<E>) {
    step.Act? && step.action.AddTimer? && step.action.delay.Some? ==> Normal(step.action.delay.value) && Normal(step.action.now)
  }

  lemma StepKeepsNormal<E>(s: State<E>, step: Step<E>, t: State<E>)
    requires StepTo(s, step, t) && NormalInputs(step) && AllNormal(s.timers)
    ensures AllNormal(t.timers)
  {
    if step.Readies? {
      ScanKeepsHistory(s, step.rfds, step.n, 0);
    }
  }

  /** Then so are the deadlines of all waiting timers, in every run. */
  lemma {:induction false} DeadlinesStayNormal<E>(states: seq<State<E>>, steps: seq<Step<E>>, k: nat)
    requires Run(states, steps) && AllNormal(states[0].timers) && k < |states|
    requires forall i :: 0 <= i < |steps| ==> NormalInputs(steps[i])
    ensures AllNormal(states[k].timers)
  {
    if k == 0 {
    } else {
      DeadlinesStayNormal(states, steps, k - 1);
      StepKeepsNormal(states[k - 1], steps[k - 1], states[k]);
    }
  }

  /** calcNextTimeout on normalised times: the time to the earliest deadline, or zero if that is past. */
  lemma NextTimeoutIsExact<E>(s: State<E>, now: TimeVal)
    requires Inv(s) && Normal(now) && AllNormal(s.timers)
    ensures CalcNextTimeout(s, now).None? <==> s.timers == []
    ensures s.timers != [] ==>
      var tv := CalcNextTimeout(s, now).value;
      && Normal(tv)
      && (forall due :: due in s.timers ==> Micros(tv) == 0 || Micros(tv) <= Micros(due.deadline) - Micros(now))
      && exists due :: due in s.timers && Micros(tv) ==
           if Micros(due.deadline) > Micros(now) then Micros(due.deadline) - Micros(now) else 0
  {
    if s.timers != [] {
      var first := s.timers[0];
      MacrosAreMicros(now, first.deadline);
      MacrosAreMicros(first.deadline, now);
      assert first in s.timers;
      forall due | due in s.timers
        ensures Micros(first.deadline) <= Micros(due.deadline)
      {
        var i :| 0 <= i < |s.timers| && s.timers[i] == due;
        TimersSorted(s);
        MacrosAreMicros(due.deadline, first.deadline);
      }
    }
  }

  /** A timer with the same deadline as waiting ones goes before them: ties fire last in, first out. */
  lemma TiesFireLastInFirstOut<E>(s: State<E>, e: E, delay: TimeVal, now: TimeVal)
    requires Inv(s) && Permitted(s, AddTimer(e, Some(delay), now))
    ensures var t := TimerAdd(s, e, Some(delay), now);
            var deadline := Plus(now, delay);
            exists i :: && 0 <= i <= |s.timers|
              && t.timers == s.timers[..i] + [Due(e, deadline)] + s.timers[i..]
              && (forall j :: 0 <= j < |s.timers| ==> (j < i <==> Before(s.timers[j].deadline, deadline)))
  {
    var deadline := Plus(now, delay);
    var i := InsertPos(s.timers, deadline);
    TimersSorted(s);
    assert TimerAdd(s, e, Some(delay), now).timers == s.timers[..i] + [Due(e, deadline)] + s.timers[i..];
  }

  // ---------- the functions of the loop as runs ----------

  lemma RunsJoin<E>(a: seq<State<E>>, p: seq<Step<E>>, b: seq<State<E>>, q: seq<Step<E>>)
    requires Run(a, p) && Run(b, q) && a[|a| - 1] == b[0]
    ensures Run(a + b[1..], p + q) && (a + b[1..])[0] == a[0] && (a + b[1..])[|a + b[1..]| - 1] == b[|b| - 1]
  {
    var c, r := a + b[1..], p + q;
    assert forall i :: |a| - 1 <= i < |c| ==> c[i] == b[i - (|a| - 1)];
    forall i | 0 <= i < |r|
      ensures StepTo(c[i], r[i], c[i + 1])
    {
      if i < |p| {
        assert r[i] == p[i];
      } else {
        assert r[i] == q[i - |p|];
      }
    }
  }

  lemma StepIsRun<E>(s: State<E>, step: Step<E>, t: State<E>)
    requires StepTo(s, step, t)
    ensures Run([s, t], [step])
  {
  }

  lemma {:induction false} ScriptIsRun<E>(s: State<E>, script: seq<Action<E>>)
    returns (states: seq<State<E>>, steps: seq<Step<E>>)
    requires AllPermitted(s, script)
    ensures Run(states, steps) && states[0] == s && states[|states| - 1] == PerformAll(s, script)
    decreases |script|
  {
    states, steps := [s], [];
    if script == [] {
    } else {
      var t := Perform(s, script[0]);
      StepIsRun(s, Act(script[0]), t);
      var a, p := ScriptIsRun(t, script[1..]);
      RunsJoin([s, t], [Act(script[0])], a, p);
      states, steps := [s, t] + a[1..], [Act(script[0])] + p;
    }
  }

  lemma {:induction false} FirePendingIsRun<E>(s: State<E>, scripts: seq<seq<Action<E>>>)
    returns (states: seq<State<E>>, steps: seq<Step<E>>)
    requires Inv(s) && !s.polled && Playable(s, scripts)
    ensures Run(states, steps) && states[0] == s && states[|states| - 1] == FirePending(s, scripts)
    decreases |scripts|
  {
    states, steps := [s], [];
    if scripts == [] {
    } else {
      var f := Fire(s);
      var t := PerformAll(f, scripts[0]);
      StepKeepsInv(s, FireNext);
      ScriptKeepsPending(f, scripts[0]);
      ScriptKeepsInv(f, scripts[0]);
      StepIsRun(s, FireNext, f);
      var a, p := ScriptIsRun(f, scripts[0]);
      var b, q := FirePendingIsRun(t, scripts[1..]);
      var c, r := Appended([s, f], [FireNext], a, p);
      states, steps := Appended(c, r, b, q);
    }
  }

  lemma TwoStepsAreRun<E>(s: State<E>, step: Step<E>, t: State<E>, step': Step<E>, u: State<E>)
    requires StepTo(s, step, t) && StepTo(t, step', u)
    ensures Run([s, t, u], [step, step'])
  {
  }

  lemma PollKeepsInv<E>(s: State<E>, fds: set<int>, now: TimeVal)
    requires Inv(s) && Enabled(s, Timeouts(now))
    ensures Inv(ProcessTimeouts(s, now)) && Inv(Polled(s, fds, now))
  {
    TimeoutsKeepInv(s, now);
    ReadiesKeepInv(ProcessTimeouts(s, now), fds, |fds|);
  }

  lemma PollIsRun<E>(s: State<E>, fds: set<int>, now: TimeVal)
    requires Enabled(s, Timeouts(now)) && Known(s.recs, s.table) && |s.table| == MAX_FD_EVENTS
    ensures Run([s, ProcessTimeouts(s, now), Polled(s, fds, now)], [Timeouts(now), Readies(fds, |fds|)])
  {
    TwoStepsAreRun(s, Timeouts(now), ProcessTimeouts(s, now), Readies(fds, |fds|), Polled(s, fds, now));
  }

  /** One iteration of ril_event_loop is a run: what holds of every run holds of the loop. */
  lemma IterationIsRun<E>(s: State<E>, t0: TimeVal, fds: set<int>, t1: TimeVal, scripts: seq<seq<Action<E>>>)
    returns (states: seq<State<E>>, steps: seq<Step<E>>)
    requires Inv(s) && !s.polled && Pending(s) == [] && NotAfter(s.clock, t0) && NotAfter(t0, t1)
    requires Playable(Polled(s.(clock := t0), fds, t1), scripts)
    ensures Run(states, steps) && states[0] == s
    ensures states[|states| - 1] == FirePending(Polled(s.(clock := t0), fds, t1), scripts)
  {
    var a := s.(clock := t0);
    TickKeepsInv(s, t0);
    StepIsRun(s, Tick(t0), a);
    PollKeepsInv(a, fds, t1);
    PollIsRun(a, fds, t1);
    var b, q := [a, ProcessTimeouts(a, t1), Polled(a, fds, t1)], [Timeouts(t1), Readies(fds, |fds|)];
    RunsJoin([s, a], [Tick(t0)], b, q);
    var d, p := FirePendingIsRun(Polled(a, fds, t1), scripts);
    states, steps := Appended([s, a] + b[1..], [Tick(t0)] + q, d, p);
  }

  lemma PolledPending<E>(s: State<E>, fds: set<int>, now: TimeVal)
    requires Inv(s) && Enabled(s, Timeouts(now))
    ensures Pending(Polled(s, fds, now)) ==
            Evs(s.timers[..ExpiredCount(s.timers, now)]) + ReadyList(s.recs, s.table, fds, 0)
    ensures Polled(s, fds, now).fired == s.fired
  {
    var t := ProcessTimeouts(s, now);
    NothingPending(s);
    ExpiresPrefix(s, now);
    TimeoutsKeepInv(s, now);
    ReadiesAreExact(t, fds, |fds|);
    ScanKeepsLists(t, fds, |fds|, 0);
  }

  lemma {:induction false} ScanKeepsLists<E>(s: State<E>, rfds: set<int>, n: int, i: nat)
    requires Known(s.recs, s.table) && i <= |s.table|
    ensures var t := ScanReady(s, rfds, n, i); t.expired == s.expired && t.fired == s.fired
    decreases |s.table| - i
  {
    if i == |s.table| || n <= 0 {
    } else if ReadyAt(s, rfds, i) {
      ScanKeepsLists(QueueReady(s, i), rfds, n - 1, i + 1);
    } else {
      ScanKeepsLists(s, rfds, n, i + 1);
    }
  }

  /** What one iteration fires, whatever the callbacks do: the timers that were overdue, by their deadlines, and
      then the events whose descriptors were readable, by their slots. */
  lemma IterationFires<E>(s: State<E>, fds: set<int>, now: TimeVal, scripts: seq<seq<Action<E>>>)
    requires Inv(s) && Enabled(s, Timeouts(now)) && Playable(Polled(s, fds, now), scripts)
    ensures var t := FirePending(Polled(s, fds, now), scripts);
      && Pending(t) == []
      && t.fired == s.fired + Evs(s.timers[..ExpiredCount(s.timers, now)]) + ReadyList(s.recs, s.table, fds, 0)
  {
    PollKeepsInv(s, fds, now);
    PolledPending(s, fds, now);
    FirePendingFiresAll(Polled(s, fds, now), scripts);
    Regrouped(s.fired, Evs(s.timers[..ExpiredCount(s.timers, now)]), ReadyList(s.recs, s.table, fds, 0));
  }

  lemma Appended<E>(a: seq<State<E>>, p: seq<Step<E>>, b: seq<State<E>>, q: seq<Step<E>>)
    returns (c: seq<State<E>>, r: seq<Step<E>>)
    requires Run(a, p) && Run(b, q) && a[|a| - 1] == b[0]
    ensures Run(c, r) && c[0] == a[0] && c[|c| - 1] == b[|b| - 1]
  {
    RunsJoin(a, p, b, q);
    c, r := a + b[1..], p + q;
  }
}
