/** The event loop does not care what its events are called: under a renaming that keeps them apart, every call
    and every step is possible for the one exactly when it is for the other, and the two stay the same. */
module EventNames {
  import opened Time
  import opened EventModel
  import opened EventProofs

  ghost predicate Injective<A, B>(names: map<A, B>) {
    forall x, y :: x in names && y in names && names[x] == names[y] ==> x == y
  }

  ghost predicate SameEvs<A, B>(p: seq<A>, q: seq<B>, names: map<A, B>) {
    |p| == |q| && forall i :: 0 <= i < |p| ==> p[i] in names && q[i] == names[p[i]]
  }

  ghost predicate SameDues<A, B>(p: seq<Due<A>>, q: seq<Due<B>>, names: map<A, B>) {
    |p| == |q| && forall i :: 0 <= i < |p| ==> p[i].ev in names && q[i] == Due(names[p[i].ev], p[i].deadline)
  }

  ghost predicate SameSlot<A, B>(x: Slot<A>, y: Slot<B>, names: map<A, B>) {
    match x
    case Empty => y == Empty
    case Holds(e) => e in names && y == Holds(names[e])
  }

  ghost predicate SameTable<A, B>(p: seq<Slot<A>>, q: seq<Slot<B>>, names: map<A, B>) {
    |p| == |q| && forall i :: 0 <= i < |p| ==> SameSlot(p[i], q[i], names)
  }

  ghost predicate SameRecs<A, B>(p: map<A, Rec>, q: map<B, Rec>, names: map<A, B>) {
    && (forall e :: e in p ==> e in names && names[e] in q && q[names[e]] == p[e])
    && (forall e :: e in names && names[e] in q ==> e in p)
  }

  /** `t` is `s` with its events renamed: all that the loop works on, and what it has fired. */
  ghost predicate Same<A, B>(s: State<A>, t: State<B>, names: map<A, B>) {
    && SameRecs(s.recs, t.recs, names) && SameTable(s.table, t.table, names)
    && s.readFds == t.readFds && s.nfds == t.nfds && s.polled == t.polled && s.clock == t.clock
    && SameDues(s.timers, t.timers, names) && SameDues(s.expired, t.expired, names) && SameEvs(s.ready, t.ready, names)
    && SameDues(s.shots, t.shots, names) && s.shotAt == t.shotAt && SameEvs(s.fired, t.fired, names)
  }

  ghost function Renamed<A, B>(a: Action<A>, names: map<A, B>): Action<B>
    requires a.ev in names
  {
    match a
    case Set(e, fd, persist, func, param) => Set(names[e], fd, persist, func, param)
    case Add(e) => Add(names[e])
    case Del(e) => Del(names[e])
    case AddTimer(e, delay, now) => AddTimer(names[e], delay, now)
    case Free(e) => Free(names[e])
  }

  ghost predicate Named<A, B>(step: Step<A>, names: map<A, B>) {
    step.Act? ==> step.action.ev in names
  }

  ghost function RenamedStep<A, B>(step: Step<A>, names: map<A, B>): Step<B>
    requires Named(step, names)
  {
    match step
    case Act(a) => Act(Renamed(a, names))
    case Tick(now) => Tick(now)
    case Timeouts(now) => Timeouts(now)
    case Readies(rfds, n) => Readies(rfds, n)
    case FireNext => FireNext
  }

  // ---------- what is permitted ----------

  lemma SameMembers<A, B>(p: seq<A>, q: seq<B>, names: map<A, B>, e: A)
    requires Injective(names) && SameEvs(p, q, names) && e in names
    ensures e in p <==> names[e] in q
  {
    if e in p {
      var i :| 0 <= i < |p| && p[i] == e;
      assert q[i] == names[e];
    }
    if names[e] in q {
      var i :| 0 <= i < |q| && q[i] == names[e];
      assert names[p[i]] == names[e];
    }
  }

  lemma SameQueued<A, B>(s: State<A>, t: State<B>, names: map<A, B>, e: A)
    requires Injective(names) && Same(s, t, names) && e in names
    ensures Queued(s, e) <==> Queued(t, names[e])
  {
    SameMembers(Evs(s.timers), Evs(t.timers), names, e);
    SameMembers(Evs(s.expired), Evs(t.expired), names, e);
    SameMembers(s.ready, t.ready, names, e);
  }

  lemma SameWatched<A, B>(s: State<A>, t: State<B>, names: map<A, B>, e: A)
    requires Injective(names) && SameTable(s.table, t.table, names) && e in names
    ensures Watched(s, e) <==> Watched(t, names[e])
  {
    if Watched(s, e) {
      var i :| 0 <= i < |s.table| && s.table[i] == Holds(e);
      assert SameSlot(s.table[i], t.table[i], names);
    }
    if Watched(t, names[e]) {
      var i :| 0 <= i < |t.table| && t.table[i] == Holds(names[e]);
      assert SameSlot(s.table[i], t.table[i], names);
    }
  }

  lemma SamePermitted<A, B>(s: State<A>, t: State<B>, names: map<A, B>, a: Action<A>)
    requires Injective(names) && Same(s, t, names) && a.ev in names
    ensures Permitted(s, a) <==> Permitted(t, Renamed(a, names))
  {
    SameQueued(s, t, names, a.ev);
    SameWatched(s, t, names, a.ev);
  }

  lemma SameKnown<A, B>(p: map<A, Rec>, q: map<B, Rec>, table: seq<Slot<A>>, table': seq<Slot<B>>, names: map<A, B>)
    requires SameRecs(p, q, names) && SameTable(table, table', names) && Known(p, table)
    ensures Known(q, table')
  {
    forall i | 0 <= i < |table'| && table'[i].Holds?
      ensures table'[i].ev in q
    {
      assert SameSlot(table[i], table'[i], names);
    }
  }

  // ---------- the calls ----------

  lemma SameRecsPlus<A, B>(p: map<A, Rec>, q: map<B, Rec>, names: map<A, B>, e: A, rec: Rec)
    requires Injective(names) && SameRecs(p, q, names) && e in names
    ensures SameRecs(p[e := rec], q[names[e] := rec], names)
  {
  }

  lemma SameRecsMinus<A, B>(p: map<A, Rec>, q: map<B, Rec>, names: map<A, B>, e: A)
    requires Injective(names) && SameRecs(p, q, names) && e in names
    ensures SameRecs(p - {e}, q - {names[e]}, names)
  {
  }

  lemma {:induction false} SameFreeSlot<A, B>(p: seq<Slot<A>>, q: seq<Slot<B>>, names: map<A, B>)
    requires SameTable(p, q, names)
    ensures FreeSlot(p) == FreeSlot(q)
  {
    if p == [] {
    } else {
      assert SameSlot(p[0], q[0], names);
      SameFreeSlot(p[1..], q[1..], names);
    }
  }

  lemma SameTablePlus<A, B>(p: seq<Slot<A>>, q: seq<Slot<B>>, names: map<A, B>, i: nat, x: Slot<A>, y: Slot<B>)
    requires SameTable(p, q, names) && i < |p| && SameSlot(x, y, names)
    ensures SameTable(p[i := x], q[i := y], names)
  {
  }

  lemma SameAdd<A, B>(s: State<A>, t: State<B>, names: map<A, B>, e: A)
    requires Injective(names) && Same(s, t, names) && e in s.recs
    ensures Same(EventAdd(s, e), EventAdd(t, names[e]), names)
  {
    SameFreeSlot(s.table, t.table, names);
    var i := FreeSlot(s.table);
    if i < |s.table| {
      SameTablePlus(s.table, t.table, names, i, Holds(e), Holds(names[e]));
      SameRecsPlus(s.recs, t.recs, names, e, s.recs[e].(index := i));
    }
  }

  lemma {:induction false} SameTopFd<A, B>(p: map<A, Rec>, q: map<B, Rec>, table: seq<Slot<A>>, table': seq<Slot<B>>,
                                           names: map<A, B>)
    requires SameRecs(p, q, names) && SameTable(table, table', names) && Known(p, table) && Known(q, table')
    ensures TopFd(p, table) == TopFd(q, table')
  {
    if table == [] {
    } else {
      var last := |table| - 1;
      assert SameSlot(table[last], table'[last], names);
      assert forall i :: 0 <= i < last ==> table[..last][i] == table[i] && table'[..last][i] == table'[i];
      SameTopFd(p, q, table[..last], table'[..last], names);
    }
  }

  lemma SameClear<A, B>(s: State<A>, t: State<B>, names: map<A, B>, e: A, i: nat)
    requires Injective(names) && Same(s, t, names) && e in s.recs && i < |s.table|
    ensures Same(ClearSlot(s, e, i), ClearSlot(t, names[e], i), names)
  {
    SameTablePlus(s.table, t.table, names, i, Empty, Empty);
    SameRecsPlus(s.recs, t.recs, names, e, s.recs[e].(index := -1));
  }

  lemma SameRemove<A, B>(s: State<A>, t: State<B>, names: map<A, B>, e: A, i: nat)
    requires Injective(names) && Same(s, t, names) && e in s.recs && i < |s.table|
    requires Known(s.recs, s.table) && Known(t.recs, t.table)
    ensures Same(RemoveWatch(s, e, i), RemoveWatch(t, names[e], i), names)
  {
    SameClear(s, t, names, e, i);
    var c, d := ClearSlot(s, e, i), ClearSlot(t, names[e], i);
    SameTopFd(c.recs, d.recs, c.table, d.table, names);
  }

  lemma SameDel<A, B>(s: State<A>, t: State<B>, names: map<A, B>, e: A)
    requires Injective(names) && Same(s, t, names) && e in s.recs && |s.table| == MAX_FD_EVENTS
    requires Known(s.recs, s.table) && Known(t.recs, t.table)
    ensures Same(EventDel(s, e), EventDel(t, names[e]), names)
  {
    var i := s.recs[e].index;
    if 0 <= i < MAX_FD_EVENTS {
      SameRemove(s, t, names, e, i);
    }
  }

  lemma {:induction false} SamePlace<A, B>(p: seq<Due<A>>, q: seq<Due<B>>, names: map<A, B>, deadline: TimeVal)
    requires SameDues(p, q, names)
    ensures InsertPos(p, deadline) == InsertPos(q, deadline)
  {
    if p == [] {
    } else {
      SamePlace(p[1..], q[1..], names, deadline);
    }
  }

  lemma SameInserted<A, B>(p: seq<Due<A>>, q: seq<Due<B>>, names: map<A, B>, i: nat, due: Due<A>)
    requires SameDues(p, q, names) && i <= |p| && due.ev in names
    ensures SameDues(p[..i] + [due] + p[i..], q[..i] + [Due(names[due.ev], due.deadline)] + q[i..], names)
  {
  }

  lemma SameTimer<A, B>(s: State<A>, t: State<B>, names: map<A, B>, e: A, delay: TimeVal, now: TimeVal)
    requires Injective(names) && Same(s, t, names) && e in s.recs
    ensures Same(TimerAdd(s, e, Some(delay), now), TimerAdd(t, names[e], Some(delay), now), names)
  {
    var deadline := Plus(now, delay);
    var i := InsertPos(s.timers, deadline);
    SamePlace(s.timers, t.timers, names, deadline);
    SameInserted(s.timers, t.timers, names, i, Due(e, deadline));
    SameRecsPlus(s.recs, t.recs, names, e, s.recs[e].(fd := -1, timeout := deadline));
  }

  /** Every call of the API. */
  lemma SamePerform<A, B>(s: State<A>, t: State<B>, names: map<A, B>, a: Action<A>)
    requires Injective(names) && Same(s, t, names) && a.ev in names && Permitted(s, a)
    requires Known(s.recs, s.table) && |s.table| == MAX_FD_EVENTS
    ensures Known(t.recs, t.table) && |t.table| == MAX_FD_EVENTS && Permitted(t, Renamed(a, names))
    ensures Same(Perform(s, a), Perform(t, Renamed(a, names)), names)
  {
    SameKnown(s.recs, t.recs, s.table, t.table, names);
    SamePermitted(s, t, names, a);
    match a
    case Set(e, fd, persist, func, param) => SameRecsPlus(s.recs, t.recs, names, e, Rec(fd, -1, persist, ZERO, func, param));
    case Add(e) => SameAdd(s, t, names, e);
    case Del(e) => SameDel(s, t, names, e);
    case AddTimer(e, delay, now) => if delay.Some? { SameTimer(s, t, names, e, delay.value, now); }
    case Free(e) => SameRecsMinus(s.recs, t.recs, names, e);
  }

  // ---------- the loop ----------

  lemma {:induction false} SameExpired<A, B>(p: seq<Due<A>>, q: seq<Due<B>>, names: map<A, B>, now: TimeVal)
    requires SameDues(p, q, names)
    ensures ExpiredCount(p, now) == ExpiredCount(q, now)
  {
    if p == [] {
    } else {
      SameExpired(p[1..], q[1..], names, now);
    }
  }

  lemma SameTimeouts<A, B>(s: State<A>, t: State<B>, names: map<A, B>, now: TimeVal)
    requires Same(s, t, names)
    ensures Same(ProcessTimeouts(s, now), ProcessTimeouts(t, now), names)
  {
    SameExpired(s.timers, t.timers, names, now);
  }

  lemma SameQueueReady<A, B>(s: State<A>, t: State<B>, names: map<A, B>, i: nat)
    requires Injective(names) && Same(s, t, names) && i < |s.table| && s.table[i].Holds?
    requires Known(s.recs, s.table) && Known(t.recs, t.table)
    ensures t.table[i].Holds? && Same(QueueReady(s, i), QueueReady(t, i), names)
    ensures Known(QueueReady(s, i).recs, QueueReady(s, i).table)
    ensures Known(QueueReady(t, i).recs, QueueReady(t, i).table)
  {
    assert SameSlot(s.table[i], t.table[i], names);
    var e := s.table[i].ev;
    var q, r := s.(ready := s.ready + [e]), t.(ready := t.ready + [names[e]]);
    assert Same(q, r, names);
    if !s.recs[e].persist {
      SameRemove(q, r, names, e, i);
    }
  }

  lemma {:induction false} SameScan<A, B>(s: State<A>, t: State<B>, names: map<A, B>, rfds: set<int>, n: int, i: nat)
    requires Injective(names) && Same(s, t, names) && i <= |s.table|
    requires Known(s.recs, s.table) && Known(t.recs, t.table)
    ensures Same(ScanReady(s, rfds, n, i), ScanReady(t, rfds, n, i), names)
    decreases |s.table| - i
  {
    if i == |s.table| || n <= 0 {
    } else {
      assert SameSlot(s.table[i], t.table[i], names);
      if ReadyAt(s, rfds, i) {
        SameQueueReady(s, t, names, i);
        SameScan(QueueReady(s, i), QueueReady(t, i), names, rfds, n - 1, i + 1);
      } else {
        SameScan(s, t, names, rfds, n, i + 1);
      }
    }
  }

  lemma SameShot<A, B>(s: State<A>, t: State<B>, names: map<A, B>)
    requires Same(s, t, names) && s.expired != []
    ensures t.expired != [] && Same(Fire(s), Fire(t), names)
  {
  }

  lemma SameReady<A, B>(s: State<A>, t: State<B>, names: map<A, B>)
    requires Same(s, t, names) && s.expired == [] && s.ready != []
    ensures t.expired == [] && t.ready != [] && Same(Fire(s), Fire(t), names)
  {
  }

  lemma SameFire<A, B>(s: State<A>, t: State<B>, names: map<A, B>)
    requires Same(s, t, names) && Pending(s) != []
    ensures Pending(t) != [] && Same(Fire(s), Fire(t), names)
  {
    if s.expired != [] {
      SameShot(s, t, names);
    } else {
      SameReady(s, t, names);
    }
  }

  /** Every step of the loop, with whatever is called in between. */
  lemma SameNext<A, B>(s: State<A>, t: State<B>, names: map<A, B>, step: Step<A>)
    requires Injective(names) && Same(s, t, names) && Named(step, names)
    requires Known(s.recs, s.table) && |s.table| == MAX_FD_EVENTS
    ensures Enabled(s, step) <==> Enabled(t, RenamedStep(step, names))
    ensures Known(t.recs, t.table) && |t.table| == MAX_FD_EVENTS
    ensures Enabled(s, step) ==> Same(Next(s, step), Next(t, RenamedStep(step, names)), names)
  {
    SameKnown(s.recs, t.recs, s.table, t.table, names);
    match step
    case Act(a) =>
      SamePermitted(s, t, names, a);
      if Permitted(s, a) {
        SamePerform(s, t, names, a);
      }
    case Tick(now) =>
    case Timeouts(now) => SameTimeouts(s, t, names, now);
    case Readies(rfds, n) => SameScan(s, t, names, rfds, n, 0);
    case FireNext => if Pending(s) != [] { SameFire(s, t, names); }
  }

  // ---------- many steps ----------

  /** The steps, each enabled in turn, lead from `s` to `t`. */
  ghost predicate Leads<E>(s: State<E>, steps: seq<Step<E>>, t: State<E>)
    decreases |steps|
  {
    if steps == [] then t == s else
      && Known(s.recs, s.table) && |s.table| == MAX_FD_EVENTS && Enabled(s, steps[0])
      && Leads(Next(s, steps[0]), steps[1..], t)
  }

  lemma {:induction false} LeadsOn<E>(s: State<E>, p: seq<Step<E>>, t: State<E>, q: seq<Step<E>>, u: State<E>)
    requires Leads(s, p, t) && Leads(t, q, u)
    ensures Leads(s, p + q, u)
    decreases |p|
  {
    if p == [] {
      assert p + q == q;
    } else {
      assert (p + q)[0] == p[0] && (p + q)[1..] == p[1..] + q;
      LeadsOn(Next(s, p[0]), p[1..], t, q, u);
    }
  }

  ghost function Flat<T>(chunks: seq<seq<T>>): seq<T> {
    if chunks == [] then [] else Flat(chunks[..|chunks| - 1]) + chunks[|chunks| - 1]
  }

  ghost predicate LeadAlong<E>(states: seq<State<E>>, chunks: seq<seq<Step<E>>>) {
    |states| == |chunks| + 1 && forall i :: 0 <= i < |chunks| ==> Leads(states[i], chunks[i], states[i + 1])
  }

  lemma {:induction false} LeadsAlong<E>(states: seq<State<E>>, chunks: seq<seq<Step<E>>>)
    requires LeadAlong(states, chunks)
    ensures Leads(states[0], Flat(chunks), states[|chunks|])
    decreases |chunks|
  {
    if chunks == [] {
    } else {
      var n := |chunks| - 1;
      LeadsAlong(states[..n + 1], chunks[..n]);
      LeadsOn(states[0], Flat(chunks[..n]), states[n], chunks[n], states[n + 1]);
    }
  }

  lemma {:induction false} LeadsKeepsInv<E>(s: State<E>, steps: seq<Step<E>>, t: State<E>)
    requires Leads(s, steps, t) && Inv(s)
    ensures Inv(t)
    decreases |steps|
  {
    if steps == [] {
    } else {
      StepKeepsInv(s, steps[0]);
      LeadsKeepsInv(Next(s, steps[0]), steps[1..], t);
    }
  }

  ghost predicate AllNamed<A, B>(steps: seq<Step<A>>, names: map<A, B>) {
    forall i :: 0 <= i < |steps| ==> Named(steps[i], names)
  }

  ghost function RenamedSteps<A, B>(steps: seq<Step<A>>, names: map<A, B>): seq<Step<B>>
    requires AllNamed(steps, names)
  {
    seq(|steps|, i requires 0 <= i < |steps| => RenamedStep(steps[i], names))
  }

  lemma RenamedTail<A, B>(steps: seq<Step<A>>, names: map<A, B>)
    requires steps != [] && AllNamed(steps, names)
    ensures AllNamed(steps[1..], names) && Named(steps[0], names)
    ensures RenamedSteps(steps, names)[0] == RenamedStep(steps[0], names)
    ensures RenamedSteps(steps, names)[1..] == RenamedSteps(steps[1..], names)
  {
  }

  /** Whole runs. */
  lemma {:induction false} SameLeads<A, B>(s: State<A>, t: State<B>, names: map<A, B>, steps: seq<Step<A>>, s': State<A>)
    returns (t': State<B>)
    requires Injective(names) && Same(s, t, names) && AllNamed(steps, names) && Leads(s, steps, s')
    ensures Leads(t, RenamedSteps(steps, names), t') && Same(s', t', names)
    decreases |steps|
  {
    if steps == [] {
      t' := t;
    } else {
      RenamedTail(steps, names);
      SameNext(s, t, names, steps[0]);
      t' := SameLeads(Next(s, steps[0]), Next(t, RenamedStep(steps[0], names)), names, steps[1..], s');
    }
  }
}
