/** The SAP socket over whole runs: every interleaving of the reader, the dispatcher threads and the vendor's
    completions, from an empty socket. */
module SapRuns {
  import opened Chains
  import opened SapSocket

  ghost predicate StepTo(s: Sap, step: Step, t: Sap) {
    Known(s, s.pending) && Enabled(s, step) && t == Next(s, step)
  }

  ghost predicate Run(states: seq<Sap>, steps: seq<Step>) {
    && |states| == |steps| + 1 && states[0] == EMPTY
    && forall i {:trigger steps[i]} :: 0 <= i < |steps| ==> StepTo(states[i], steps[i], states[i + 1])
  }

  /** Step `i` is no completion with a look-alike ahead of its request. */
  ghost predicate ClearAt(states: seq<Sap>, steps: seq<Step>, i: nat)
    requires |states| == |steps| + 1 && i < |steps|
  {
    steps[i].Complete? ==> ClearFor(states[i], steps[i].n)
  }

  ghost predicate ClearFor(s: Sap, n: nat) {
    Known(s, s.pending) && n < |s.keys| && Clear(s, n)
  }

  ghost predicate ClearBefore(states: seq<Sap>, steps: seq<Step>, k: nat)
    requires |states| == |steps| + 1 && k < |states|
  {
    forall i :: 0 <= i < k ==> ClearAt(states, steps, i)
  }

  lemma EmptyKeeps()
    ensures SapInv(EMPTY) && NewestFirst(EMPTY)
  {
  }

  lemma {:induction false} ClearRunKeeps(states: seq<Sap>, steps: seq<Step>, k: nat)
    requires Run(states, steps) && k < |states| && ClearBefore(states, steps, k)
    ensures SapInv(states[k])
  {
    if k == 0 {
      EmptyKeeps();
    } else {
      ClearRunKeeps(states, steps, k - 1);
      assert ClearAt(states, steps, k - 1) && StepTo(states[k - 1], steps[k - 1], states[k]);
      StepKeeps(states[k - 1], steps[k - 1]);
    }
  }

  /** In every interleaving: all requests have been in one place each all along exactly if no completion so far
      found a look-alike ahead of its request. */
  lemma RunKeepsExactly(states: seq<Sap>, steps: seq<Step>, k: nat)
    requires Run(states, steps) && k < |states|
    ensures (forall i :: 0 <= i <= k ==> SapInv(states[i])) <==> ClearBefore(states, steps, k)
  {
    if ClearBefore(states, steps, k) {
      forall i | 0 <= i <= k
        ensures SapInv(states[i])
      {
        ClearRunKeeps(states, steps, i);
      }
    }
    if forall i :: 0 <= i <= k ==> SapInv(states[i]) {
      forall i | 0 <= i < k
        ensures ClearAt(states, steps, i)
      {
        assert StepTo(states[i], steps[i], states[i + 1]);
        assert SapInv(states[i]) && SapInv(states[i + 1]);
        StepKeeps(states[i], steps[i]);
      }
    }
  }

  /** It is so when no two requests outstanding together share id and token. */
  lemma {:induction false} DistinctKeysKeep(states: seq<Sap>, steps: seq<Step>, k: nat)
    requires Run(states, steps) && k < |states| && forall i :: 0 <= i < k ==> KeysDiffer(states[i])
    ensures ClearBefore(states, steps, k)
  {
    if k == 0 {
    } else {
      DistinctKeysKeep(states, steps, k - 1);
      ClearRunKeeps(states, steps, k - 1);
      assert StepTo(states[k - 1], steps[k - 1], states[k]);
      if steps[k - 1].Complete? {
        DistinctKeysAreClear(states[k - 1], steps[k - 1].n);
      }
      assert ClearAt(states, steps, k - 1);
    }
  }

  /** Queues and hands hold decoded requests only. */
  ghost predicate Decoded(s: Sap) {
    && Known(s, s.dispatch) && Known(s, s.pending)
    && forall i :: 0 <= i < |s.threads| && !s.threads[i].Idle? ==> s.threads[i].n < |s.keys|
  }

  lemma StepKeepsDecoded(s: Sap, step: Step)
    requires Decoded(s) && Enabled(s, step)
    ensures Decoded(Next(s, step))
  {
  }

  /** The side condition of a step is no restriction: every run can go on with every enabled step. */
  lemma {:induction false} RunGoesOn(states: seq<Sap>, steps: seq<Step>, k: nat)
    requires Run(states, steps) && k < |states|
    ensures Decoded(states[k])
    ensures forall step :: Enabled(states[k], step) ==> StepTo(states[k], step, Next(states[k], step))
  {
    if k == 0 {
    } else {
      RunGoesOn(states, steps, k - 1);
      assert StepTo(states[k - 1], steps[k - 1], states[k]);
      StepKeepsDecoded(states[k - 1], steps[k - 1]);
    }
  }

  /** The dispatch queue is in order from newest to oldest, whatever completes. */
  lemma {:induction false} RunKeepsNewestFirst(states: seq<Sap>, steps: seq<Step>, k: nat)
    requires Run(states, steps) && k < |states|
    ensures NewestFirst(states[k])
  {
    if k == 0 {
      EmptyKeeps();
    } else {
      RunKeepsNewestFirst(states, steps, k - 1);
      assert StepTo(states[k - 1], steps[k - 1], states[k]);
      StepKeepsNewestFirst(states[k - 1], steps[k - 1]);
    }
  }

  /** In every interleaving each decoded request is in exactly one place, and onRequest is called for it at
      most once: it has been when the request pends or is done, but for the moment after it was filed. */
  lemma OnePlaceEach(states: seq<Sap>, steps: seq<Step>, k: nat, n: nat)
    requires Run(states, steps) && k < |states| && ClearBefore(states, steps, k) && n < |states[k].keys|
    ensures var s := states[k];
      && Count(s.dispatch, n) + Held(s.threads, n) + Count(s.pending, n) + Count(s.done, n) + Count(s.lost, n) == 1
      && Count(s.asked, n) <= 1
      && (n in s.asked <==> (n in s.pending || n in s.done) && Unasked(s.threads, n) == 0)
  {
    ClearRunKeeps(states, steps, k);
    var s := states[k];
    assert Placed(s, n);
    CountIn(s.asked, n);
    CountIn(s.pending, n);
    CountIn(s.done, n);
  }

  /** When the queue is empty and the threads wait, every request that was not lost has reached onRequest,
      exactly once. */
  lemma AllAreAsked(states: seq<Sap>, steps: seq<Step>, k: nat, n: nat)
    requires Run(states, steps) && k < |states| && ClearBefore(states, steps, k) && n < |states[k].keys|
    requires states[k].dispatch == [] && forall i :: 0 <= i < |states[k].threads| ==> states[k].threads[i].Idle?
    requires n !in states[k].lost
    ensures Count(states[k].asked, n) == 1
  {
    ClearRunKeeps(states, steps, k);
    assert Placed(states[k], n);
    IdleHoldNothing(states[k].threads, n);
    CountIn(states[k].lost, n);
  }

  lemma {:induction false} IdleHoldNothing(threads: seq<Hand>, n: nat)
    requires forall i :: 0 <= i < |threads| ==> threads[i].Idle?
    ensures Held(threads, n) == 0 && Unasked(threads, n) == 0
  {
    if threads == [] {
    } else {
      IdleHoldNothing(threads[1..], n);
    }
  }

  /** A completion takes the request itself off the pending queue, and leaves the others in their order,
      exactly when no look-alike is ahead. */
  lemma CompletionKeepsOrder(states: seq<Sap>, steps: seq<Step>, k: nat)
    requires Run(states, steps) && k < |steps| && ClearBefore(states, steps, k) && steps[k].Complete?
    ensures ClearAt(states, steps, k) <==>
      exists i :: 0 <= i < |states[k].pending| && states[k].pending[i] == steps[k].n
        && states[k + 1].pending == Without(states[k].pending, i)
  {
    ClearRunKeeps(states, steps, k);
    assert StepTo(states[k], steps[k], states[k + 1]);
    var s, n := states[k], steps[k].n;
    AskedPends(s, n);
    forall i | 0 <= i < |s.pending| && s.pending[i] == n
      ensures Next(s, steps[k]).pending == Without(s.pending, i) <==> Clear(s, n)
    {
      CompleteTakesIts(s, n, i);
    }
  }

  // ---------- look-alikes ----------

  /** Two requests alike arrive, and one thread takes both, the newer first; so the older is filed ahead of
      it. Then the newer completes. */
  ghost function LookAlikes(key: Key): seq<Step> {
    [Push(key), Push(key), Spawn, Take(0), File(0), Ask(0), Take(0), File(0), Ask(0), Complete(1)]
  }

  /** With both outstanding: what waits, what the one thread does, what pends and what is done, what was asked. */
  ghost function Two(key: Key, dispatch: seq<nat>, hand: Hand, pending: seq<nat>, done: seq<nat>, asked: seq<nat>): Sap {
    Sap(dispatch, [hand], pending, done, [], asked, [key, key])
  }

  /** The state after the first `i` of them. */
  ghost function LookAlikeState(key: Key, i: nat): Sap {
    if i == 0 then EMPTY
    else if i == 1 then Sap([0], [], [], [], [], [], [key])
    else if i == 2 then Sap([1, 0], [], [], [], [], [], [key, key])
    else if i == 3 then Two(key, [1, 0], Idle, [], [], [])
    else if i == 4 then Two(key, [0], Holding(1), [], [], [])
    else if i == 5 then Two(key, [0], Filed(1), [1], [], [])
    else if i == 6 then Two(key, [0], Idle, [1], [], [1])
    else if i == 7 then Two(key, [], Holding(0), [1], [], [1])
    else if i == 8 then Two(key, [], Filed(0), [0, 1], [], [1])
    else if i == 9 then Two(key, [], Idle, [0, 1], [], [1, 0])
    else Two(key, [], Idle, [1], [1], [1, 0])
  }

  ghost function LookAlikeStates(key: Key): (states: seq<Sap>)
    ensures |states| == 11 && forall i :: 0 <= i < 11 ==> states[i] == LookAlikeState(key, i)
  {
    seq(11, i requires 0 <= i => LookAlikeState(key, i))
  }

  lemma BothArrive(key: Key)
    ensures StepTo(EMPTY, Push(key), LookAlikeState(key, 1))
    ensures StepTo(LookAlikeState(key, 1), Push(key), LookAlikeState(key, 2))
    ensures StepTo(LookAlikeState(key, 2), Spawn, LookAlikeState(key, 3))
  {
  }

  lemma FirstTaken(key: Key)
    ensures StepTo(Two(key, [1, 0], Idle, [], [], []), Take(0), Two(key, [0], Holding(1), [], [], []))
    ensures StepTo(Two(key, [0], Holding(1), [], [], []), File(0), Two(key, [0], Filed(1), [1], [], []))
    ensures StepTo(Two(key, [0], Filed(1), [1], [], []), Ask(0), Two(key, [0], Idle, [1], [], [1]))
  {
  }

  lemma SecondTaken(key: Key)
    ensures StepTo(Two(key, [0], Idle, [1], [], [1]), Take(0), Two(key, [], Holding(0), [1], [], [1]))
    ensures StepTo(Two(key, [], Holding(0), [1], [], [1]), File(0), Two(key, [], Filed(0), [0, 1], [], [1]))
    ensures StepTo(Two(key, [], Filed(0), [0, 1], [], [1]), Ask(0), Two(key, [], Idle, [0, 1], [], [1, 0]))
  {
  }

  lemma WrongOneTaken(key: Key)
    ensures var s := Two(key, [], Idle, [0, 1], [], [1, 0]);
      StepTo(s, Complete(1), Two(key, [], Idle, [1], [1], [1, 0])) && !Clear(s, 1)
  {
    var s := Two(key, [], Idle, [0, 1], [], [1, 0]);
    assert s.pending[1] == 1 && s.keys[s.pending[0]] == s.keys[1];
    assert FirstWith(s, s.pending, key) == 0;
    assert Without(s.pending, 0) == [1];
  }

  lemma InTwoPlaces(key: Key)
    ensures !SapInv(Two(key, [], Idle, [1], [1], [1, 0]))
  {
    var t := Two(key, [], Idle, [1], [1], [1, 0]);
    assert Count([1], 1) == 1;
    assert !Placed(t, 1);
  }

  lemma LookAlikeStep(key: Key, i: nat)
    requires i < 10
    ensures StepTo(LookAlikeState(key, i), LookAlikes(key)[i], LookAlikeState(key, i + 1))
  {
    if i < 3 {
      BothArrive(key);
    } else if i < 6 {
      FirstTaken(key);
    } else if i < 9 {
      SecondTaken(key);
    } else {
      WrongOneTaken(key);
    }
  }

  lemma LookAlikesRun(key: Key)
    ensures Run(LookAlikeStates(key), LookAlikes(key))
  {
    forall i | 0 <= i < 10
      ensures StepTo(LookAlikeStates(key)[i], LookAlikes(key)[i], LookAlikeStates(key)[i + 1])
    {
      LookAlikeStep(key, i);
    }
  }

  lemma OnlyLastCompletes(key: Key, i: nat)
    requires i < 10
    ensures LookAlikes(key)[i].Complete? <==> i == 9
    ensures LookAlikes(key)[9] == Complete(1)
  {
  }

  lemma LastIsNotClear(key: Key)
    ensures !ClearFor(LookAlikeState(key, 9), 1)
  {
    WrongOneTaken(key);
  }

  /** The proviso is needed: completing the newer takes the older off the queue and leaves the newer pending. */
  lemma LookAlikesGetMixedUp(key: Key) returns (states: seq<Sap>, steps: seq<Step>)
    ensures steps == LookAlikes(key) && Run(states, steps)
    ensures ClearBefore(states, steps, 9) && !ClearAt(states, steps, 9)
    ensures states[10].pending == [1] && states[10].done == [1] && states[10].threads == [Idle] && !SapInv(states[10])
  {
    states, steps := LookAlikeStates(key), LookAlikes(key);
    LookAlikesRun(key);
    LastIsNotClear(key);
    forall i | 0 <= i < 10
      ensures steps[i].Complete? <==> i == 9
    {
      OnlyLastCompletes(key, i);
    }
    InTwoPlaces(key);
  }
}
