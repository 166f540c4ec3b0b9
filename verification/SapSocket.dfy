/** The SAP socket of RilSapSocket.cpp: decoded requests wait in one queue, pass through the hands of a
    dispatcher thread, and wait in another until they complete. A request is its serial number, in order
    of arrival; `keys` is what the queue knows it by. */
module SapSocket {
  import opened Chains
  import opened Numbers

  // What checkAndDequeue compares
  datatype Key = Key(id: int, token: int)

  /** A dispatcher thread: waiting, holding what it took, or about to call onRequest for what it filed. */
  datatype Hand = Idle | Holding(n: nat) | Filed(n: nat)

  datatype Sap = Sap(
    dispatch: seq<nat>,          // dispatchQueue, front first
    threads: seq<Hand>,
    pending: seq<nat>,           // pendingResponseQueue, front first
    done: seq<nat>,              // history: completed, header freed
    lost: seq<nat>,              // history: dropped by dispatchRequest for want of memory
    asked: seq<nat>,             // history: calls of onRequest
    keys: seq<Key>)              // history: one per decoded request

  const EMPTY := Sap([], [], [], [], [], [], [])

  datatype Step =
    | Push(key: Key)             // pushRecord of a request that decodes
    | Spawn                      // onNewCommandConnect starts another thread
    | Take(i: nat)               // processRequestsLoop: dequeue
    | File(i: nat)               // dispatchRequest: enqueue on the pending queue
    | Lose(i: nat)               // dispatchRequest: out of memory
    | Ask(i: nat)                // dispatchRequest: onRequest
    | Complete(n: nat)           // onRequestComplete

  /** Where checkAndDequeue stops: the first request with the key, or the length. */
  function FirstWith(s: Sap, q: seq<nat>, key: Key): (i: nat)
    requires forall j :: 0 <= j < |q| ==> q[j] < |s.keys|
    ensures i <= |q|
    ensures i < |q| ==> s.keys[q[i]] == key
    ensures forall j :: 0 <= j < i ==> s.keys[q[j]] != key
    decreases |q|
  {
    if q == [] || s.keys[q[0]] == key then 0 else 1 + FirstWith(s, q[1..], key)
  }

  ghost predicate Known(s: Sap, q: seq<nat>) {
    forall j :: 0 <= j < |q| ==> q[j] < |s.keys|
  }

  predicate Enabled(s: Sap, step: Step) {
    match step
    case Push(_) => true
    case Spawn => true
    case Take(i) => i < |s.threads| && s.threads[i].Idle? && s.dispatch != []
    case File(i) => i < |s.threads| && s.threads[i].Holding?
    case Lose(i) => i < |s.threads| && s.threads[i].Holding?
    case Ask(i) => i < |s.threads| && s.threads[i].Filed?
    case Complete(n) => n < |s.keys| && n in s.asked && n !in s.done
  }

  ghost function Next(s: Sap, step: Step): Sap
    requires Enabled(s, step) && Known(s, s.pending)
  {
    match step
    case Push(key) => s.(dispatch := [|s.keys|] + s.dispatch, keys := s.keys + [key])
    case Spawn => s.(threads := s.threads + [Idle])
    case Take(i) => s.(dispatch := s.dispatch[1..], threads := s.threads[i := Holding(s.dispatch[0])])
    case File(i) => s.(pending := [s.threads[i].n] + s.pending, threads := s.threads[i := Filed(s.threads[i].n)])
    case Lose(i) => s.(lost := s.lost + [s.threads[i].n], threads := s.threads[i := Idle])
    case Ask(i) => s.(asked := s.asked + [s.threads[i].n], threads := s.threads[i := Idle])
    case Complete(n) =>
      var i := FirstWith(s, s.pending, s.keys[n]);
      s.(pending := if i < |s.pending| then Without(s.pending, i) else s.pending, done := s.done + [n])
  }

  // ---------- where every request is ----------

  /** How often `n` occurs. */
  ghost function Count(q: seq<nat>, n: nat): nat {
    if q == [] then 0 else One(q[0] == n) + Count(q[1..], n)
  }

  /** How many threads hold `n`. */
  ghost function Held(threads: seq<Hand>, n: nat): nat {
    if threads == [] then 0 else One(threads[0] == Holding(n)) + Held(threads[1..], n)
  }

  /** How many threads have filed `n` and not called onRequest for it yet. */
  ghost function Unasked(threads: seq<Hand>, n: nat): nat {
    if threads == [] then 0 else One(threads[0] == Filed(n)) + Unasked(threads[1..], n)
  }

  lemma {:induction false} CountBoth(p: seq<nat>, q: seq<nat>, n: nat)
    ensures Count(p + q, n) == Count(p, n) + Count(q, n)
  {
    if p == [] {
      assert p + q == q;
    } else {
      assert (p + q)[1..] == p[1..] + q;
      CountBoth(p[1..], q, n);
    }
  }

  lemma CountAdded(q: seq<nat>, x: nat, n: nat)
    ensures Count(q + [x], n) == Count(q, n) + One(x == n)
    ensures Count([x] + q, n) == Count(q, n) + One(x == n)
  {
    CountBoth(q, [x], n);
    CountBoth([x], q, n);
  }

  lemma CountWithout(q: seq<nat>, i: nat, n: nat)
    requires i < |q|
    ensures Count(Without(q, i), n) == Count(q, n) - One(q[i] == n)
  {
    CountBoth(q[..i], q[i + 1..], n);
    CountBoth(q[..i], q[i..], n);
    assert q == q[..i] + q[i..];
    assert q[i..][1..] == q[i + 1..];
  }

  lemma {:induction false} CountIn(q: seq<nat>, n: nat)
    ensures n in q <==> Count(q, n) > 0
  {
    if q == [] {
    } else {
      assert n in q <==> n == q[0] || n in q[1..];
      CountIn(q[1..], n);
    }
  }

  lemma {:induction false} HandChanges(threads: seq<Hand>, i: nat, h: Hand, n: nat)
    requires i < |threads|
    ensures Held(threads[i := h], n) == Held(threads, n) - One(threads[i] == Holding(n)) + One(h == Holding(n))
    ensures Unasked(threads[i := h], n) == Unasked(threads, n) - One(threads[i] == Filed(n)) + One(h == Filed(n))
  {
    if i > 0 {
      assert threads[i := h][1..] == threads[1..][i - 1 := h];
      HandChanges(threads[1..], i - 1, h, n);
    } else {
      assert threads[0 := h][1..] == threads[1..];
    }
  }

  lemma {:induction false} HandAdded(threads: seq<Hand>, n: nat)
    ensures Held(threads + [Idle], n) == Held(threads, n) && Unasked(threads + [Idle], n) == Unasked(threads, n)
  {
    if threads == [] {
      assert [Idle][1..] == [];
    } else {
      assert (threads + [Idle])[1..] == threads[1..] + [Idle];
      HandAdded(threads[1..], n);
    }
  }

  /** In how many places request `n` is. */
  ghost function Places(s: Sap, n: nat): nat {
    Count(s.dispatch, n) + Held(s.threads, n) + Count(s.pending, n) + Count(s.done, n) + Count(s.lost, n)
  }

  /** A decoded request is in exactly one place; and onRequest has been called for it, or is about to be,
      when it pends or is done. */
  ghost predicate Placed(s: Sap, n: nat) {
    && Places(s, n) == One(n < |s.keys|)
    && Count(s.asked, n) + Unasked(s.threads, n) == Count(s.pending, n) + Count(s.done, n)
  }

  ghost predicate SapInv(s: Sap) {
    forall n: nat :: Placed(s, n)
  }

  /** In the dispatch queue, in a thread's hands or pending. */
  ghost predicate Outstanding(s: Sap, n: nat) {
    Count(s.dispatch, n) + Held(s.threads, n) + Count(s.pending, n) > 0
  }

  /** No two outstanding requests have the same id and token. */
  ghost predicate KeysDiffer(s: Sap) {
    forall m: nat, n: nat :: Outstanding(s, m) && Outstanding(s, n) && m != n && m < |s.keys| && n < |s.keys| ==>
      s.keys[m] != s.keys[n]
  }

  /** No request with the same id and token as `n` is ahead of it on the pending queue. */
  ghost predicate Clear(s: Sap, n: nat)
    requires Known(s, s.pending) && n < |s.keys|
  {
    forall i, j :: 0 <= j < i < |s.pending| && s.pending[i] == n ==> s.keys[s.pending[j]] != s.keys[n]
  }

  /** A request that was asked for and has not completed pends. */
  lemma AskedPends(s: Sap, n: nat)
    requires SapInv(s) && Enabled(s, Complete(n))
    ensures n in s.pending
  {
    assert Placed(s, n);
    CountIn(s.asked, n);
    CountIn(s.done, n);
    CountIn(s.pending, n);
  }

  lemma PendsOnce(s: Sap, f: nat, i: nat)
    requires SapInv(s) && f < i < |s.pending|
    ensures s.pending[f] != s.pending[i]
  {
    var q, n := s.pending, s.pending[i];
    assert Placed(s, n);
    if q[f] == n {
      CountWithout(q, f, n);
      assert Without(q, f)[i - 1] == q[i];
      CountIn(Without(q, f), n);
    }
  }

  /** Completing takes exactly the request itself off the pending queue; the rest keep their order. This
      fails exactly when another request with the same id and token was filed after it. */
  lemma CompleteTakesIts(s: Sap, n: nat, i: nat)
    requires SapInv(s) && Enabled(s, Complete(n)) && i < |s.pending| && s.pending[i] == n
    requires Known(s, s.pending)
    ensures Next(s, Complete(n)).pending == Without(s.pending, i) <==> Clear(s, n)
    ensures Clear(s, n) <==> FirstWith(s, s.pending, s.keys[n]) == i
  {
    var f := FirstWith(s, s.pending, s.keys[n]);
    ClearMeansFirst(s, n, i);
    if f < i {
      PendsOnce(s, f, i);
      WithoutDiffer(s.pending, f, i);
    }
  }

  lemma ClearMeansFirst(s: Sap, n: nat, i: nat)
    requires SapInv(s) && i < |s.pending| && s.pending[i] == n < |s.keys| && Known(s, s.pending)
    ensures Clear(s, n) <==> FirstWith(s, s.pending, s.keys[n]) == i
  {
    forall k | 0 <= k < |s.pending| && s.pending[k] == n
      ensures k == i
    {
      if k != i {
        PendsOnce(s, if k < i then k else i, if k < i then i else k);
      }
    }
  }

  lemma WithoutDiffer(q: seq<nat>, f: nat, i: nat)
    requires f < i < |q| && q[f] != q[i]
    ensures Without(q, f) != Without(q, i)
  {
    CountWithout(q, f, q[f]);
    CountWithout(q, i, q[f]);
  }

  // ---------- steps ----------

  lemma QueuesKeep(s: Sap, step: Step, n: nat)
    requires Enabled(s, step) && Known(s, s.pending) && Placed(s, n) && (step.Push? || step.Spawn? || step.Take?)
    ensures Placed(Next(s, step), n)
  {
    match step
    case Push(key) => CountAdded(s.dispatch, |s.keys|, n);
    case Spawn => HandAdded(s.threads, n);
    case Take(i) => HandChanges(s.threads, i, Holding(s.dispatch[0]), n);
  }

  lemma HandsKeep(s: Sap, step: Step, n: nat)
    requires Enabled(s, step) && Known(s, s.pending) && Placed(s, n) && (step.File? || step.Lose? || step.Ask?)
    ensures Placed(Next(s, step), n)
  {
    var m := s.threads[step.i].n;
    HandChanges(s.threads, step.i, if step.File? then Filed(m) else Idle, n);
    CountAdded(s.pending, m, n);
    CountAdded(s.lost, m, n);
    CountAdded(s.asked, m, n);
  }

  lemma CompleteKeeps(s: Sap, n: nat)
    requires SapInv(s) && Enabled(s, Complete(n)) && Known(s, s.pending) && Clear(s, n)
    ensures SapInv(Next(s, Complete(n)))
  {
    AskedPends(s, n);
    var i :| 0 <= i < |s.pending| && s.pending[i] == n;
    CompleteTakesIts(s, n, i);
    forall m: nat
      ensures Placed(Next(s, Complete(n)), m)
    {
      assert Placed(s, m);
      CountWithout(s.pending, i, m);
      CountAdded(s.done, n, m);
    }
  }

  /** The request itself stays on the queue when another is taken for it. */
  lemma MixUpBreaks(s: Sap, n: nat)
    requires SapInv(s) && Enabled(s, Complete(n)) && Known(s, s.pending) && !Clear(s, n)
    ensures !Placed(Next(s, Complete(n)), n)
  {
    var i, j :| 0 <= j < i < |s.pending| && s.pending[i] == n && s.keys[s.pending[j]] == s.keys[n];
    var f := FirstWith(s, s.pending, s.keys[n]);
    assert f <= j;
    PendsOnce(s, f, i);
    CountWithout(s.pending, f, n);
    CountAdded(s.done, n, n);
    assert Placed(s, n);
  }

  lemma OthersKeep(s: Sap, step: Step)
    requires SapInv(s) && Enabled(s, step) && Known(s, s.pending) && !step.Complete?
    ensures SapInv(Next(s, step))
  {
    forall n: nat
      ensures Placed(Next(s, step), n)
    {
      assert Placed(s, n);
      if step.Push? || step.Spawn? || step.Take? {
        QueuesKeep(s, step, n);
      } else {
        HandsKeep(s, step, n);
      }
    }
  }

  /** Each step of any thread keeps every request in exactly one place; a completion does so exactly when no
      look-alike is ahead. */
  lemma StepKeeps(s: Sap, step: Step)
    requires SapInv(s) && Enabled(s, step) && Known(s, s.pending)
    ensures SapInv(Next(s, step)) <==> (step.Complete? ==> Clear(s, step.n))
  {
    if !step.Complete? {
      OthersKeep(s, step);
    } else if Clear(s, step.n) {
      CompleteKeeps(s, step.n);
    } else {
      MixUpBreaks(s, step.n);
    }
  }

  /** Distinct ids and tokens are enough for that. */
  lemma DistinctKeysAreClear(s: Sap, n: nat)
    requires SapInv(s) && KeysDiffer(s) && Known(s, s.pending) && n < |s.keys|
    ensures Clear(s, n)
  {
    forall i, j | 0 <= j < i < |s.pending| && s.pending[i] == n
      ensures s.keys[s.pending[j]] != s.keys[n]
    {
      PendsOnce(s, j, i);
      CountIn(s.pending, s.pending[j]);
      CountIn(s.pending, n);
      assert Outstanding(s, s.pending[j]) && Outstanding(s, n);
    }
  }

  /** The newest waiting request is dispatched first: the queue is last in, first out. */
  ghost predicate NewestFirst(s: Sap) {
    && (forall i :: 0 <= i < |s.dispatch| ==> s.dispatch[i] < |s.keys|)
    && (forall i, j :: 0 <= i < j < |s.dispatch| ==> s.dispatch[i] > s.dispatch[j])
  }

  lemma StepKeepsNewestFirst(s: Sap, step: Step)
    requires NewestFirst(s) && Enabled(s, step) && Known(s, s.pending)
    ensures NewestFirst(Next(s, step))
  {
  }
}
