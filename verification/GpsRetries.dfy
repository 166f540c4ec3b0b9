/** What waits for the network is retried once it is there: while the network is up, a kind whose flag says that
    it waits has its retry on the way. This never fails for the time, and for the assistance data exactly when
    the retry comes up while that is not supported. */
module GpsRetries {
  import opened Chains
  import opened GpsWakeLock

  /** The network is there, and yet the kind waits for it. */
  predicate Waits(s: Gps, k: Kind) {
    s.network && Flag(s, k) == PendingNetwork
  }

  predicate Queues(q: seq<Message>, w: What) {
    exists i :: 0 <= i < |q| && q[i].what == w
  }

  /** Its retry is queued, or the handler is about to send it. */
  predicate Coming(s: Gps, k: Kind) {
    Queues(s.queue, RetryOf(k)) || (s.doing.Handling? && RetryOf(k) in s.doing.toSend)
  }

  predicate Retried(s: Gps, k: Kind) {
    Waits(s, k) ==> Coming(s, k)
  }

  /** The last retry for the assistance data comes up while that is not supported. */
  predicate Drops(s: Gps, step: Step) {
    && step.Begin? && Enabled(s, step) && Waits(s, Xtra)
    && s.queue[0].what == DownloadXtraData && !s.supportsXtra && !Queues(s.queue[1..], DownloadXtraData)
  }

  // ---------- steps ----------

  lemma QueuesMore(q: seq<Message>, m: Message, w: What)
    ensures Queues(q + [m], w) <==> Queues(q, w) || m.what == w
  {
    assert (q + [m])[|q|] == m && forall i :: 0 <= i < |q| ==> (q + [m])[i] == q[i];
  }

  lemma QueuesRest(q: seq<Message>, w: What)
    requires q != []
    ensures Queues(q, w) <==> q[0].what == w || Queues(q[1..], w)
  {
    assert forall i :: 0 < i < |q| ==> q[i] == q[1..][i - 1];
    assert forall i :: 0 <= i < |q| - 1 ==> q[1..][i] == q[i + 1];
  }

  lemma SentAreRetries(s: Gps, k: Kind)
    requires Flag(s, k) == PendingNetwork
    ensures RetryOf(k) in Retries(s)
  {
    if k == Xtra {
      assert Retries(s)[|Retries(s)| - 1] == DownloadXtraData;
    } else {
      assert Retries(s)[0] == InjectNtpTime;
    }
  }

  lemma BeginNtp(s: Gps, extra: seq<What>)
    requires Enabled(s, Begin(extra)) && Retried(s, Ntp)
    ensures Retried(Next(s, Begin(extra)), Ntp)
  {
    QueuesRest(s.queue, InjectNtpTime);
    if Flag(s, Ntp) == PendingNetwork {
      SentAreRetries(s, Ntp);
    }
  }

  lemma BeginXtra(s: Gps, extra: seq<What>)
    requires Enabled(s, Begin(extra)) && Retried(s, Xtra)
    ensures Retried(Next(s, Begin(extra)), Xtra) <==> !Drops(s, Begin(extra))
  {
    QueuesRest(s.queue, DownloadXtraData);
    if Flag(s, Xtra) == PendingNetwork {
      SentAreRetries(s, Xtra);
    }
  }

  lemma SendKeepsRetried(s: Gps, step: Step, k: Kind)
    requires Enabled(s, step) && Retried(s, k)
    requires step.HandlerAcquire? || step.HandlerPost? || step.End?
    ensures Retried(Next(s, step), k)
  {
    if step.HandlerPost? {
      var first := s.doing.toSend[0];
      QueuesMore(s.queue, Message(first, true), RetryOf(k));
      assert RetryOf(k) in s.doing.toSend ==> RetryOf(k) == first || RetryOf(k) in s.doing.toSend[1..];
    }
  }

  lemma OthersKeepRetried(s: Gps, step: Step, k: Kind)
    requires Enabled(s, step) && Retried(s, k)
    requires !step.Begin? && !step.HandlerAcquire? && !step.HandlerPost? && !step.End?
    ensures Retried(Next(s, step), k)
  {
    match step
    case Post(i) => QueuesMore(s.queue, Message(s.sending[i], true), RetryOf(k));
    case Due(i) => QueuesMore(s.queue, Message(s.delayed[i], false), RetryOf(k));
    case TaskPost(i) => QueuesMore(s.queue, Message(Finished(s.tasks[i].kind), true), RetryOf(k));
    case _ =>
  }

  lemma StepRetries(s: Gps, step: Step, k: Kind)
    requires Enabled(s, step) && Retried(s, k)
    ensures Retried(Next(s, step), k) <==> !(k == Xtra && Drops(s, step))
  {
    if step.Begin? {
      if k == Ntp {
        BeginNtp(s, step.extra);
      } else {
        BeginXtra(s, step.extra);
      }
    } else if step.HandlerAcquire? || step.HandlerPost? || step.End? {
      SendKeepsRetried(s, step, k);
    } else {
      OthersKeepRetried(s, step, k);
    }
  }

  // ---------- runs ----------

  ghost predicate NoneDrops(states: seq<Gps>, steps: seq<Step>, j: nat)
    requires |states| == |steps| + 1 && j <= |steps|
  {
    forall i :: 0 <= i < j ==> !Drops(states[i], steps[i])
  }

  lemma RunStepRetries(states: seq<Gps>, steps: seq<Step>, j: nat, k: Kind)
    requires Run(states, steps) && j < |steps| && Retried(states[j], k)
    ensures Retried(states[j + 1], k) <==> !(k == Xtra && Drops(states[j], steps[j]))
  {
    assert StepTo(states[j], steps[j], states[j + 1]);
    StepRetries(states[j], steps[j], k);
  }

  lemma {:induction false} RunRetries(states: seq<Gps>, steps: seq<Step>, j: nat, k: Kind)
    requires Reached(states, steps, j) && (k == Xtra ==> NoneDrops(states, steps, j))
    ensures Retried(states[j], k)
  {
    if j == 0 {
    } else {
      RunRetries(states, steps, j - 1, k);
      RunStepRetries(states, steps, j - 1, k);
    }
  }

  /** In every run: while the network is there, a time injection that waits for it has its retry on the way. */
  lemma NoTimeRetryIsLost(states: seq<Gps>, steps: seq<Step>, j: nat)
    requires Reached(states, steps, j)
    ensures states[j].network && states[j].ntp == PendingNetwork ==> Coming(states[j], Ntp)
  {
    RunRetries(states, steps, j, Ntp);
  }

  /** And the same all along for the assistance data exactly if no last retry came up while unsupported. */
  lemma DataRetriesExactly(states: seq<Gps>, steps: seq<Step>, j: nat)
    requires Reached(states, steps, j)
    ensures (forall i :: 0 <= i <= j ==> Retried(states[i], Xtra)) <==> NoneDrops(states, steps, j)
  {
    if NoneDrops(states, steps, j) {
      forall i | 0 <= i <= j
        ensures Retried(states[i], Xtra)
      {
        RunRetries(states, steps, i, Xtra);
      }
    }
    if forall i :: 0 <= i <= j ==> Retried(states[i], Xtra) {
      forall i | 0 <= i < j
        ensures !Drops(states[i], steps[i])
      {
        assert Retried(states[i], Xtra) && Retried(states[i + 1], Xtra);
        RunStepRetries(states, steps, i, Xtra);
      }
    }
  }

  // ---------- a retry that is lost ----------

  /** The network comes up, and both retries are sent; the time is injected, the other is dropped. */
  ghost function LosingSteps(): seq<Step> {
    [Acquire(UpdateNetworkState(true)), Post(0), Begin([]), HandlerAcquire, HandlerPost, HandlerAcquire, HandlerPost,
     End, Begin([]), End, Begin([])]
  }

  ghost function Up(queue: seq<Message>, doing: Doing, lock: int): Gps {
    INITIAL.(queue := queue, doing := doing, network := true, lock := lock)
  }

  ghost function TimeTaken(queue: seq<Message>, doing: Doing, lock: int): Gps {
    Up(queue, doing, lock).(tasks := [Task(Ntp, Running)], ntp := Downloading)
  }

  /** The state after the first `i` of them. */
  ghost function LosingState(i: nat): Gps {
    var time, data := Message(InjectNtpTime, true), Message(DownloadXtraData, true);
    if i == 0 then INITIAL
    else if i == 1 then INITIAL.(lock := 1, sending := [UpdateNetworkState(true)])
    else if i == 2 then INITIAL.(lock := 1, queue := [Message(UpdateNetworkState(true), true)])
    else if i == 3 then Up([], Handling(true, [InjectNtpTime, DownloadXtraData], false), 1)
    else if i == 4 then Up([], Handling(true, [InjectNtpTime, DownloadXtraData], true), 2)
    else if i == 5 then Up([time], Handling(true, [DownloadXtraData], false), 2)
    else if i == 6 then Up([time], Handling(true, [DownloadXtraData], true), 3)
    else if i == 7 then Up([time, data], Handling(true, [], false), 3)
    else if i == 8 then Up([time, data], Waiting, 2)
    else if i == 9 then TimeTaken([data], Handling(true, [], false), 3)
    else if i == 10 then TimeTaken([data], Waiting, 2)
    else TimeTaken([], Handling(true, [], false), 2)
  }

  ghost function LosingStates(): (states: seq<Gps>)
    ensures |states| == 12 && forall i :: 0 <= i < 12 ==> states[i] == LosingState(i)
  {
    seq(12, i requires 0 <= i => LosingState(i))
  }

  lemma NetworkComesUp(i: nat)
    requires i < 3
    ensures StepTo(LosingState(i), LosingSteps()[i], LosingState(i + 1))
  {
    var update: What := UpdateNetworkState(true);
    assert Without([update], 0) == [];
    assert Retries(INITIAL) == [InjectNtpTime, DownloadXtraData];
    assert [Message(update, true)][1..] == [];
  }

  lemma RetriesAreSent(i: nat)
    requires 3 <= i < 8
    ensures StepTo(LosingState(i), LosingSteps()[i], LosingState(i + 1))
  {
    var time, data := Message(InjectNtpTime, true), Message(DownloadXtraData, true);
    assert [InjectNtpTime, DownloadXtraData][1..] == [DownloadXtraData] && [DownloadXtraData][1..] == [];
    assert [] + [time] == [time] && [time] + [data] == [time, data];
  }

  lemma DataIsDropped(i: nat)
    requires 8 <= i < 11
    ensures StepTo(LosingState(i), LosingSteps()[i], LosingState(i + 1))
  {
  }

  /** A run at whose end the network is there and the data waits for it, with no retry on the way; so it is still
      when the data is supported next. */
  lemma DataRetryIsLost() returns (states: seq<Gps>, steps: seq<Step>)
    ensures Reached(states, steps, 11) && steps == LosingSteps()
    ensures Drops(states[10], steps[10]) && Waits(states[11], Xtra) && !Coming(states[11], Xtra)
    ensures var t := Next(states[11], Configure(true, false)); t.supportsXtra && Waits(t, Xtra) && !Coming(t, Xtra)
  {
    states, steps := LosingStates(), LosingSteps();
    forall i | 0 <= i < 11
      ensures StepTo(states[i], steps[i], states[i + 1])
    {
      if i < 3 {
        NetworkComesUp(i);
      } else if i < 8 {
        RetriesAreSent(i);
      } else {
        DataIsDropped(i);
      }
    }
  }
}
