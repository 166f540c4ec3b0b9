/** What becomes of messages over a run of the provider: they are handled in the order they were posted, a delayed
    one stays until it is due, and the flags and the network are what the last message about them says. */
module GpsMessages {
  import opened Chains
  import opened GpsWakeLock
  import opened Numbers

  // ---------- first in, first out ----------

  /** What a step puts into the handler's queue. */
  function PostedBy(s: Gps, step: Step): seq<Message>
    requires Enabled(s, step)
  {
    match step
    case Post(i) => [Message(s.sending[i], true)]
    case Due(i) => [Message(s.delayed[i], false)]
    case HandlerPost => [Message(s.doing.toSend[0], true)]
    case TaskPost(i) => [Message(Finished(s.tasks[i].kind), true)]
    case _ => []
  }

  /** What a step takes out of it, to handle it. */
  function HandledBy(s: Gps, step: Step): seq<Message>
    requires Enabled(s, step)
  {
    if step.Begin? then [s.queue[0]] else []
  }

  ghost function Posted(states: seq<Gps>, steps: seq<Step>, k: nat): seq<Message>
    requires Run(states, steps) && k <= |steps|
  {
    if k == 0 then [] else
      assert StepTo(states[k - 1], steps[k - 1], states[k]);
      Posted(states, steps, k - 1) + PostedBy(states[k - 1], steps[k - 1])
  }

  ghost function Handled(states: seq<Gps>, steps: seq<Step>, k: nat): seq<Message>
    requires Run(states, steps) && k <= |steps|
  {
    if k == 0 then [] else
      assert StepTo(states[k - 1], steps[k - 1], states[k]);
      Handled(states, steps, k - 1) + HandledBy(states[k - 1], steps[k - 1])
  }

  lemma StepQueue(s: Gps, step: Step)
    requires Enabled(s, step)
    ensures s.queue + PostedBy(s, step) == HandledBy(s, step) + Next(s, step).queue
  {
    if step.Begin? {
      assert s.queue == [s.queue[0]] + s.queue[1..];
    }
  }

  lemma Regroup(posted: seq<Message>, handled: seq<Message>, q: seq<Message>, p: seq<Message>, h: seq<Message>, q': seq<Message>)
    requires posted == handled + q && q + p == h + q'
    ensures posted + p == handled + h + q'
  {
    assert posted + p == handled + (q + p);
    assert handled + h + q' == handled + (h + q');
  }

  /** In every run the messages handled so far, and behind them those that wait, are the messages posted, in order. */
  lemma {:induction false} HandledInOrder(states: seq<Gps>, steps: seq<Step>, k: nat)
    requires Reached(states, steps, k)
    ensures Posted(states, steps, k) == Handled(states, steps, k) + states[k].queue
  {
    if k == 0 {
    } else {
      HandledInOrder(states, steps, k - 1);
      assert StepTo(states[k - 1], steps[k - 1], states[k]);
      StepQueue(states[k - 1], steps[k - 1]);
      Regroup(Posted(states, steps, k - 1), Handled(states, steps, k - 1), states[k - 1].queue,
              PostedBy(states[k - 1], steps[k - 1]), HandledBy(states[k - 1], steps[k - 1]), states[k].queue);
    }
  }

  // ---------- delayed messages ----------

  function Count(ws: seq<What>, w: What): nat {
    if ws == [] then 0 else One(ws[0] == w) + Count(ws[1..], w)
  }

  lemma {:induction false} CountMore(ws: seq<What>, v: What, w: What)
    ensures Count(ws + [v], w) == Count(ws, w) + One(v == w)
  {
    if ws == [] {
      assert [] + [v] == [v] && [v][1..] == [];
    } else {
      assert (ws + [v])[1..] == ws[1..] + [v];
      CountMore(ws[1..], v, w);
    }
  }

  lemma {:induction false} CountLess(ws: seq<What>, i: nat, w: What)
    requires i < |ws|
    ensures Count(ws, w) == Count(Without(ws, i), w) + One(ws[i] == w)
  {
    if i == 0 {
      assert Without(ws, 0) == ws[1..];
    } else {
      assert Without(ws, i)[1..] == Without(ws[1..], i - 1);
      CountLess(ws[1..], i - 1, w);
    }
  }

  /** A task ends that wants to be tried again: with the time, or with the data. */
  predicate WantsAgain(s: Gps, step: Step, w: What) {
    && step.TaskEnd? && step.i < |s.tasks| && step.again
    && (if s.tasks[step.i].kind == Ntp then w == InjectNtpTime else w == DownloadXtraData)
  }

  /** A delayed message is due. */
  predicate IsDue(s: Gps, step: Step, w: What) {
    step.Due? && step.i < |s.delayed| && s.delayed[step.i] == w
  }

  /** How often the message was delayed in the first `k` steps: by other components, or to try again. */
  ghost function Delays(states: seq<Gps>, steps: seq<Step>, w: What, k: nat): nat
    requires Run(states, steps) && k <= |steps|
  {
    if k == 0 then 0 else
      Delays(states, steps, w, k - 1) + One(steps[k - 1] == Delay(w)) + One(WantsAgain(states[k - 1], steps[k - 1], w))
  }

  ghost function Dues(states: seq<Gps>, steps: seq<Step>, w: What, k: nat): nat
    requires Run(states, steps) && k <= |steps|
  {
    if k == 0 then 0 else Dues(states, steps, w, k - 1) + One(IsDue(states[k - 1], steps[k - 1], w))
  }

  lemma StepDelays(s: Gps, step: Step, w: What)
    requires Enabled(s, step)
    ensures Count(Next(s, step).delayed, w) + One(IsDue(s, step, w)) ==
            Count(s.delayed, w) + One(step == Delay(w)) + One(WantsAgain(s, step, w))
  {
    match step
    case Delay(v) => CountMore(s.delayed, v, w);
    case Due(i) => CountLess(s.delayed, i, w);
    case TaskEnd(i, again) =>
      CountMore(s.delayed, InjectNtpTime, w);
      CountMore(s.delayed, DownloadXtraData, w);
      assert s.delayed + [] == s.delayed;
    case _ =>
  }

  /** In every run each message is delayed as often as it was posted so and has not come due since: once for each
      task that ended to be tried again, among others. */
  lemma {:induction false} DelayedUntilDue(states: seq<Gps>, steps: seq<Step>, w: What, k: nat)
    requires Reached(states, steps, k)
    ensures Count(states[k].delayed, w) + Dues(states, steps, w, k) == Delays(states, steps, w, k)
  {
    if k == 0 {
    } else {
      DelayedUntilDue(states, steps, w, k - 1);
      assert StepTo(states[k - 1], steps[k - 1], states[k]);
      StepDelays(states[k - 1], steps[k - 1], w);
    }
  }

  /** So a task that is to be tried again leaves its message delayed until a step puts that into the queue. */
  lemma {:induction false} RetryWaits(states: seq<Gps>, steps: seq<Step>, e: nat, w: What, k: nat)
    requires Reached(states, steps, k) && e < k && WantsAgain(states[e], steps[e], w)
    ensures w in states[k].delayed ||
            exists m {:trigger steps[m]} :: e < m < k && IsDue(states[m], steps[m], w)
              && states[m + 1].queue == states[m].queue + [Message(w, false)]
  {
    assert StepTo(states[k - 1], steps[k - 1], states[k]);
    if e == k - 1 {
      assert states[k].delayed == states[e].delayed + [w];
    } else {
      RetryWaits(states, steps, e, w, k - 1);
      if w in states[k - 1].delayed && w !in states[k].delayed {
        StaysUnlessDue(states[k - 1], steps[k - 1], w);
      }
    }
  }

  lemma StaysUnlessDue(s: Gps, step: Step, w: What)
    requires Enabled(s, step) && w in s.delayed
    ensures w in Next(s, step).delayed || IsDue(s, step, w)
  {
    if step.Due? && s.delayed[step.i] != w {
      var j :| 0 <= j < |s.delayed| && s.delayed[j] == w;
      var rest := Without(s.delayed, step.i);
      assert rest[if j < step.i then j else j - 1] == w;
    }
  }

  // ---------- what the handler sends ----------

  /** Taking on a message the handler goes on to send: for a network that is there, a retry for each kind that waits
      for it, the time first; for a message outside this model, what its handler sends; for others nothing. */
  lemma HandlerSends(s: Gps, extra: seq<What>)
    requires Enabled(s, Begin(extra))
    ensures var t, w := Next(s, Begin(extra)), s.queue[0].what;
      && t.doing.Handling? && t.doing.tracked == s.queue[0].tracked && !t.doing.sending
      && t.doing.toSend ==
           if w == UpdateNetworkState(true) && !s.shutdown then
             (if s.ntp == PendingNetwork then [InjectNtpTime] else [])
             + (if s.xtra == PendingNetwork then [DownloadXtraData] else [])
           else if w.OtherMessage? then extra else []
  {
    match s.queue[0].what
    case Finished(Ntp) =>
    case Finished(Xtra) =>
    case _ =>
  }

  // ---------- the last word ----------

  /** The handler takes on a message that asks for a kind. */
  predicate Asks(s: Gps, step: Step, k: Kind) {
    && step.Begin? && s.queue != []
    && match k
       case Ntp => s.queue[0].what == InjectNtpTime || (s.queue[0].what.UpdateNetworkState? && s.shutdown)
       case Xtra => s.queue[0].what == DownloadXtraData && s.supportsXtra
  }

  /** The handler takes on the message that a task of the kind is finished. */
  predicate Told(s: Gps, step: Step, k: Kind) {
    step.Begin? && s.queue != [] && s.queue[0].what == Finished(k)
  }

  /** Of these messages the last one, if any, said that a task is finished. */
  ghost predicate LastTold(states: seq<Gps>, steps: seq<Step>, kind: Kind, k: nat)
    requires Run(states, steps) && k <= |steps|
  {
    k > 0 && (Told(states[k - 1], steps[k - 1], kind)
              || (!Asks(states[k - 1], steps[k - 1], kind) && LastTold(states, steps, kind, k - 1)))
  }

  predicate IsIdle(s: Gps, k: Kind) {
    match k
    case Ntp => s.ntp == IdleState
    case Xtra => s.xtra == IdleState
  }

  lemma StepIdle(s: Gps, step: Step, k: Kind)
    requires Enabled(s, step)
    ensures IsIdle(Next(s, step), k) <==> Told(s, step, k) || (!Asks(s, step, k) && IsIdle(s, k))
  {
    if step.Begin? {
      BeginIdle(s, step.extra, k);
    }
  }

  lemma BeginIdle(s: Gps, extra: seq<What>, k: Kind)
    requires Enabled(s, Begin(extra))
    ensures IsIdle(Next(s, Begin(extra)), k) <==>
            Told(s, Begin(extra), k) || (!Asks(s, Begin(extra), k) && IsIdle(s, k))
  {
    match s.queue[0].what
    case Finished(Ntp) =>
    case Finished(Xtra) =>
    case _ =>
  }

  /** In every run a kind's flag says "idle" exactly when its last message was that a task is finished. */
  lemma {:induction false} IdleIsLastTold(states: seq<Gps>, steps: seq<Step>, kind: Kind, k: nat)
    requires Reached(states, steps, k)
    ensures IsIdle(states[k], kind) <==> LastTold(states, steps, kind, k)
  {
    if k == 0 {
    } else {
      IdleIsLastTold(states, steps, kind, k - 1);
      assert StepTo(states[k - 1], steps[k - 1], states[k]);
      StepIdle(states[k - 1], steps[k - 1], kind);
    }
  }

  /** What the last network update said, of those that do not fall through; at first there is no network. */
  ghost function LastUpdate(states: seq<Gps>, steps: seq<Step>, k: nat): bool
    requires Run(states, steps) && k <= |steps|
  {
    if k == 0 then false
    else
      var s, step := states[k - 1], steps[k - 1];
      if step.Begin? && s.queue != [] && s.queue[0].what.UpdateNetworkState? && !s.shutdown then s.queue[0].what.available
      else LastUpdate(states, steps, k - 1)
  }

  lemma {:induction false} NetworkIsLastUpdate(states: seq<Gps>, steps: seq<Step>, k: nat)
    requires Reached(states, steps, k)
    ensures states[k].network == LastUpdate(states, steps, k)
  {
    if k == 0 {
    } else {
      NetworkIsLastUpdate(states, steps, k - 1);
      assert StepTo(states[k - 1], steps[k - 1], states[k]);
    }
  }
}
