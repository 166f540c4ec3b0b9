/** What a run of the event loop knows of its events, read off the calls that were made: the last one about an event
    tells its callback and deadline, and the watch table has it in the slot it was given. */
module EventRecords {
  import opened EventModel
  import opened EventRuns
  import opened Time

  // ---------- records ----------

  /** An event, its place in the watch table aside. */
  datatype About = About(fd: int, persist: bool, timeout: TimeVal, func: int, param: int)

  /** What the calls so far come to: ril_event_set says it all, ril_timer_add sets the deadline and makes the event one
      without a descriptor, and a null time changes nothing. */
  ghost function LastCalls<E>(steps: seq<Step<E>>, e: E): Option<About> {
    if steps == [] then None else
      var before := LastCalls(steps[..|steps| - 1], e);
      match steps[|steps| - 1]
      case Act(Set(x, fd, persist, func, param)) =>
        if x == e then Some(About(fd, persist, TimeVal(0, 0), func, param)) else before
      case Act(Free(x)) => if x == e then None else before
      case Act(AddTimer(x, Some(delay), now)) =>
        if x == e && before.Some? then Some(before.value.(fd := -1, timeout := Plus(now, delay))) else before
      case _ => before
  }

  ghost function KnownOf<E>(s: State<E>, e: E): Option<About> {
    if e !in s.recs then None
    else Some(About(s.recs[e].fd, s.recs[e].persist, s.recs[e].timeout, s.recs[e].func, s.recs[e].param))
  }

  lemma {:induction false} ScanKeepsKnown<E>(s: State<E>, rfds: set<int>, n: int, i: nat, e: E)
    requires Known(s.recs, s.table) && i <= |s.table|
    ensures KnownOf(ScanReady(s, rfds, n, i), e) == KnownOf(s, e)
    decreases |s.table| - i
  {
    if i == |s.table| || n <= 0 {
    } else if ReadyAt(s, rfds, i) {
      ScanKeepsKnown(QueueReady(s, i), rfds, n - 1, i + 1, e);
    } else {
      ScanKeepsKnown(s, rfds, n, i + 1, e);
    }
  }

  lemma ActionKnown<E>(s: State<E>, a: Action<E>, t: State<E>, e: E)
    requires StepTo(s, Act(a), t)
    ensures KnownOf(t, e) ==
      match a
      case Set(x, fd, persist, func, param) =>
        if x == e then Some(About(fd, persist, TimeVal(0, 0), func, param)) else KnownOf(s, e)
      case Free(x) => if x == e then None else KnownOf(s, e)
      case AddTimer(x, Some(delay), now) =>
        if x == e then Some(KnownOf(s, e).value.(fd := -1, timeout := Plus(now, delay))) else KnownOf(s, e)
      case _ => KnownOf(s, e)
  {
  }

  lemma OthersKnow<E>(s: State<E>, step: Step<E>, t: State<E>, e: E)
    requires StepTo(s, step, t) && !step.Act?
    ensures KnownOf(t, e) == KnownOf(s, e)
  {
    if step.Readies? {
      ScanKeepsKnown(s, step.rfds, step.n, 0, e);
    }
  }

  /** In every run each event is known exactly as the calls about it so far left it, whatever else was done. */
  lemma {:induction false} RecordsAreLastCalls<E>(states: seq<State<E>>, steps: seq<Step<E>>, clock: TimeVal, k: nat, e: E)
    requires Run(states, steps) && states[0] == Start(clock) && k < |states|
    ensures KnownOf(states[k], e) == LastCalls(steps[..k], e)
  {
    if k == 0 {
    } else {
      RecordsAreLastCalls(states, steps, clock, k - 1, e);
      assert steps[..k][..k - 1] == steps[..k - 1];
      var step := steps[k - 1];
      if step.Act? {
        ActionKnown(states[k - 1], step.action, states[k], e);
      } else {
        OthersKnow(states[k - 1], step, states[k], e);
      }
    }
  }

  // ---------- timers ----------

  /** The timers that ril_timer_add was called for, each with the deadline it asked for. */
  ghost function AddedBy<E>(steps: seq<Step<E>>): multiset<Due<E>> {
    if steps == [] then multiset{} else
      AddedBy(steps[..|steps| - 1]) +
      match steps[|steps| - 1]
      case Act(AddTimer(e, Some(delay), now)) => multiset{Due(e, Plus(now, delay))}
      case _ => multiset{}
  }

  lemma StepAdds<E>(s: State<E>, step: Step<E>, t: State<E>)
    requires StepTo(s, step, t)
    ensures t.added == s.added +
      match step
      case Act(AddTimer(e, Some(delay), now)) => multiset{Due(e, Plus(now, delay))}
      case _ => multiset{}
  {
    if step.Readies? {
      ScanKeepsHistory(s, step.rfds, step.n, 0);
    }
  }

  lemma {:induction false} AddedAreAsked<E>(states: seq<State<E>>, steps: seq<Step<E>>, clock: TimeVal, k: nat)
    requires Run(states, steps) && states[0] == Start(clock) && k < |states|
    ensures states[k].added == AddedBy(steps[..k])
  {
    if k == 0 {
    } else {
      AddedAreAsked(states, steps, clock, k - 1);
      assert steps[..k][..k - 1] == steps[..k - 1];
      StepAdds(states[k - 1], steps[k - 1], states[k]);
    }
  }

  /** In every run the timers that were asked for have fired, or are on exactly one list, exactly once each; and there
      are no others. */
  lemma TimersAreWhatWasAsked<E>(states: seq<State<E>>, steps: seq<Step<E>>, clock: TimeVal, k: nat)
    requires Run(states, steps) && states[0] == Start(clock) && k < |states|
    ensures var s := states[k];
      AddedBy(steps[..k]) == multiset(s.shots) + multiset(s.expired) + multiset(s.timers)
  {
    AddedAreAsked(states, steps, clock, k);
    TimersFireInDeadlineOrder(states, steps, clock, k);
  }

  // ---------- the watch table ----------

  /** ril_event_add takes the first of the eight slots that is free; without one nothing happens. */
  lemma AddTakesFirstFree<E>(s: State<E>, e: E)
    requires |s.table| == 8 && e in s.recs
    ensures var t := EventAdd(s, e);
      if forall i :: 0 <= i < 8 ==> s.table[i].Holds? then t == s
      else
        exists i {:trigger s.table[i]} ::
          && 0 <= i < 8 && s.table[i].Empty? && (forall j :: 0 <= j < i ==> s.table[j].Holds?)
          && t.table == s.table[i := Holds(e)] && t.recs[e].index == i
  {
    var i := FreeSlot(s.table);
    if i < 8 {
      assert s.table[i].Empty?;
    }
  }

  /** ril_event_del empties the slot of the event, and no other; one that is not watched stays as it is. */
  lemma DelEmptiesSlot<E>(s: State<E>, e: E)
    requires TableInv(s) && e in s.recs
    ensures var t := EventDel(s, e);
      && (s.recs[e].index == -1 ==> t == s)
      && t.recs[e].index == -1 && |t.table| == 8
      && forall j :: 0 <= j < 8 ==> t.table[j] == if s.table[j] == Holds(e) then Empty else s.table[j]
  {
    forall j | 0 <= j < 8 && s.table[j] == Holds(e)
      ensures j == s.recs[e].index
    {
      assert s.table[j].ev == e;
    }
  }
}
