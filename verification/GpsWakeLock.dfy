/** The message protocol of GpsLocationProvider: who holds its counted wake lock, and what the two pending
    flags mean. Posting a message takes two steps, acquiring the lock and enqueueing, on whatever thread. */
module GpsWakeLock {
  import opened Chains
  import opened Numbers

  datatype Kind = Ntp | Xtra

  // msg.what, as far as it matters here
  datatype What =
    | UpdateNetworkState(available: bool)
    | InjectNtpTime
    | DownloadXtraData
    | Finished(kind: Kind)
    | OtherMessage(code: int)

  /** A message in the handler's queue; `tracked` is arg2, set when the lock was acquired for it. */
  datatype Message = Message(what: What, tracked: bool)

  // STATE_PENDING_NETWORK, STATE_DOWNLOADING, STATE_IDLE
  datatype Pending = PendingNetwork | Downloading | IdleState

  /** A task on the thread pool: at work, between acquiring the lock and posting that it is finished, or
      about to give up its own lock. */
  datatype Phase = Running | Sending | Posted

  datatype Task = Task(kind: Kind, phase: Phase)

  /** The handler's thread; it may itself be sending messages while it handles one. */
  datatype Doing = Waiting | Handling(tracked: bool, toSend: seq<What>, sending: bool)

  datatype Gps = Gps(
    queue: seq<Message>,
    doing: Doing,
    sending: seq<What>,          // other threads, between acquire and enqueue
    tasks: seq<Task>,
    delayed: seq<What>,          // sendEmptyMessageDelayed, not due yet
    ntp: Pending,                // mInjectNtpTimePending
    xtra: Pending,               // mDownloadXtraDataPending
    network: bool,               // mNetworkAvailable
    supportsXtra: bool,
    shutdown: bool,              // BCM2076_GPS && isShutdown
    lock: int)                   // the wake lock's count

  const INITIAL := Gps([], Waiting, [], [], [], PendingNetwork, PendingNetwork, false, false, false, 0)

  function Flag(s: Gps, k: Kind): Pending {
    if k == Ntp then s.ntp else s.xtra
  }

  function SetFlag(s: Gps, k: Kind, p: Pending): Gps {
    if k == Ntp then s.(ntp := p) else s.(xtra := p)
  }

  // handleInjectNtpTime, handleDownloadXtraData
  function Start(s: Gps, k: Kind): Gps {
    if Flag(s, k) == Downloading then s
    else if s.network then SetFlag(s, k, Downloading).(lock := s.lock + 1, tasks := s.tasks + [Task(k, Running)])
    else SetFlag(s, k, PendingNetwork)
  }

  /** What handleUpdateNetworkState sends when the network is there. */
  function Retries(s: Gps): seq<What> {
    (if s.ntp == PendingNetwork then [InjectNtpTime] else []) + (if s.xtra == PendingNetwork then [DownloadXtraData] else [])
  }

  /** handleMessage up to its release; other messages may make the handler send `extra`. A network update
      falls through to the time injection while the chip is shut down. */
  function Handle(s: Gps, m: Message, extra: seq<What>): Gps {
    match m.what
    case UpdateNetworkState(available) =>
      if s.shutdown then Start(s, Ntp).(doing := Handling(m.tracked, [], false))
      else s.(network := available, doing := Handling(m.tracked, if available then Retries(s) else [], false))
    case InjectNtpTime => Start(s, Ntp).(doing := Handling(m.tracked, [], false))
    case DownloadXtraData => (if s.supportsXtra then Start(s, Xtra) else s).(doing := Handling(m.tracked, [], false))
    case Finished(k) => SetFlag(s, k, IdleState).(doing := Handling(m.tracked, [], false))
    case OtherMessage(_) => s.(doing := Handling(m.tracked, extra, false))
  }

  datatype Step =
    | Acquire(what: What)                  // sendMessage on another thread: acquire ...
    | Post(i: nat)                         // ... and enqueue
    | Delay(what: What)                    // another component posts a delayed message
    | Due(i: nat)                          // a delayed message becomes due
    | Begin(extra: seq<What>)              // handleMessage
    | HandlerAcquire                       // sendMessage on the handler's thread
    | HandlerPost
    | End                                  // handleMessage: its release
    | TaskAcquire(i: nat)                  // run: sendMessage(..._FINISHED)
    | TaskPost(i: nat)
    | TaskEnd(i: nat, again: bool)         // run: maybe a delayed retry; its release
    | Configure(supportsXtra: bool, shutdown: bool)

  /** Only a task says that it has finished. */
  predicate Plain(w: What) {
    !w.Finished?
  }

  predicate AllPlain(ws: seq<What>) {
    forall i :: 0 <= i < |ws| ==> Plain(ws[i])
  }

  predicate Enabled(s: Gps, step: Step) {
    match step
    case Acquire(w) => Plain(w)
    case Post(i) => i < |s.sending|
    case Delay(w) => Plain(w)
    case Due(i) => i < |s.delayed|
    case Begin(extra) => s.doing.Waiting? && s.queue != [] && AllPlain(extra)
    case HandlerAcquire => s.doing.Handling? && !s.doing.sending && s.doing.toSend != []
    case HandlerPost => s.doing.Handling? && s.doing.sending && s.doing.toSend != []
    case End => s.doing.Handling? && !s.doing.sending && s.doing.toSend == []
    case TaskAcquire(i) => i < |s.tasks| && s.tasks[i].phase == Running
    case TaskPost(i) => i < |s.tasks| && s.tasks[i].phase == Sending
    case TaskEnd(i, _) => i < |s.tasks| && s.tasks[i].phase == Posted
    case Configure(_, _) => true
  }

  function RetryOf(k: Kind): What {
    if k == Ntp then InjectNtpTime else DownloadXtraData
  }

  function Next(s: Gps, step: Step): Gps
    requires Enabled(s, step)
  {
    match step
    case Acquire(w) => s.(lock := s.lock + 1, sending := s.sending + [w])
    case Post(i) => s.(sending := Without(s.sending, i), queue := s.queue + [Message(s.sending[i], true)])
    case Delay(w) => s.(delayed := s.delayed + [w])
    case Due(i) => s.(delayed := Without(s.delayed, i), queue := s.queue + [Message(s.delayed[i], false)])
    case Begin(extra) => Handle(s.(queue := s.queue[1..]), s.queue[0], extra)
    case HandlerAcquire => s.(lock := s.lock + 1, doing := s.doing.(sending := true))
    case HandlerPost =>
      s.(queue := s.queue + [Message(s.doing.toSend[0], true)],
         doing := s.doing.(toSend := s.doing.toSend[1..], sending := false))
    case End => s.(doing := Waiting, lock := if s.doing.tracked then s.lock - 1 else s.lock)
    case TaskAcquire(i) => s.(lock := s.lock + 1, tasks := s.tasks[i := Task(s.tasks[i].kind, Sending)])
    case TaskPost(i) =>
      s.(queue := s.queue + [Message(Finished(s.tasks[i].kind), true)], tasks := s.tasks[i := Task(s.tasks[i].kind, Posted)])
    case TaskEnd(i, again) =>
      s.(lock := s.lock - 1, tasks := Without(s.tasks, i),
         delayed := s.delayed + if again then [RetryOf(s.tasks[i].kind)] else [])
    case Configure(supportsXtra, shutdown) => s.(supportsXtra := supportsXtra, shutdown := shutdown)
  }

  // ---------- who holds the lock ----------

  /** Queued messages for which the lock was acquired. */
  function Tracked(q: seq<Message>): nat {
    if q == [] then 0 else One(q[0].tracked) + Tracked(q[1..])
  }

  /** Queued announcements that a task of a kind is finished. */
  function Ends(q: seq<Message>, k: Kind): nat {
    if q == [] then 0 else One(q[0].what == Finished(k)) + Ends(q[1..], k)
  }

  /** Tasks that have acquired the lock for their announcement and not posted it. */
  function Announcing(ts: seq<Task>): nat {
    if ts == [] then 0 else One(ts[0].phase == Sending) + Announcing(ts[1..])
  }

  /** Tasks of a kind that have not posted their announcement. */
  function Unfinished(ts: seq<Task>, k: Kind): nat {
    if ts == [] then 0 else One(ts[0].kind == k && ts[0].phase != Posted) + Unfinished(ts[1..], k)
  }

  lemma {:induction false} QueueGrows(q: seq<Message>, m: Message, k: Kind)
    ensures Tracked(q + [m]) == Tracked(q) + One(m.tracked)
    ensures Ends(q + [m], k) == Ends(q, k) + One(m.what == Finished(k))
  {
    if q == [] {
      assert [m][1..] == [] && [] + [m] == [m];
    } else {
      assert (q + [m])[1..] == q[1..] + [m];
      QueueGrows(q[1..], m, k);
    }
  }

  lemma {:induction false} TaskAdded(ts: seq<Task>, t: Task, k: Kind)
    ensures Announcing(ts + [t]) == Announcing(ts) + One(t.phase == Sending)
    ensures Unfinished(ts + [t], k) == Unfinished(ts, k) + One(t.kind == k && t.phase != Posted)
  {
    if ts == [] {
      assert [t][1..] == [] && [] + [t] == [t];
    } else {
      assert (ts + [t])[1..] == ts[1..] + [t];
      TaskAdded(ts[1..], t, k);
    }
  }

  lemma {:induction false} TaskChanges(ts: seq<Task>, i: nat, t: Task, k: Kind)
    requires i < |ts|
    ensures Announcing(ts[i := t]) == Announcing(ts) - One(ts[i].phase == Sending) + One(t.phase == Sending)
    ensures Unfinished(ts[i := t], k) == Unfinished(ts, k) - One(ts[i].kind == k && ts[i].phase != Posted)
                                         + One(t.kind == k && t.phase != Posted)
  {
    if i > 0 {
      assert ts[i := t][1..] == ts[1..][i - 1 := t];
      TaskChanges(ts[1..], i - 1, t, k);
    } else {
      assert ts[0 := t][1..] == ts[1..];
    }
  }

  lemma {:induction false} TaskLeaves(ts: seq<Task>, i: nat, k: Kind)
    requires i < |ts| && ts[i].phase == Posted
    ensures Announcing(Without(ts, i)) == Announcing(ts) && Unfinished(Without(ts, i), k) == Unfinished(ts, k)
  {
    if i > 0 {
      assert Without(ts, i)[1..] == Without(ts[1..], i - 1);
      TaskLeaves(ts[1..], i - 1, k);
    } else {
      assert Without(ts, 0) == ts[1..];
    }
  }

  /** All the reasons to hold the lock. */
  function Holders(s: Gps): nat {
    Tracked(s.queue) + |s.sending| + |s.tasks| + Announcing(s.tasks)
    + One(s.doing.Handling? && s.doing.tracked) + One(s.doing.Handling? && s.doing.sending)
  }

  /** The flag of a kind says whether one of its tasks is at work or has its announcement queued. */
  predicate FlagInv(s: Gps, k: Kind) {
    Unfinished(s.tasks, k) + Ends(s.queue, k) == One(Flag(s, k) == Downloading)
  }

  /** The lock was acquired for every announcement. */
  predicate EndsTracked(q: seq<Message>) {
    forall i :: 0 <= i < |q| && q[i].what.Finished? ==> q[i].tracked
  }

  predicate GpsInv(s: Gps) {
    && s.lock == Holders(s) && EndsTracked(s.queue)
    && FlagInv(s, Ntp) && FlagInv(s, Xtra)
    && AllPlain(s.sending) && AllPlain(s.delayed) && (s.doing.Handling? ==> AllPlain(s.doing.toSend))
    && (s.doing.Handling? && s.doing.sending ==> s.doing.toSend != [])
  }

  // ---------- steps ----------

  lemma WithoutPlain(ws: seq<What>, i: nat)
    requires i < |ws| && AllPlain(ws)
    ensures AllPlain(Without(ws, i)) && Plain(ws[i])
  {
  }

  /** Starting a task, or not, leaves flags and lock as exact as they were. */
  lemma StartKeeps(s: Gps, k: Kind)
    requires FlagInv(s, Ntp) && FlagInv(s, Xtra) && s.lock == Holders(s)
    ensures var t := Start(s, k);
      && FlagInv(t, Ntp) && FlagInv(t, Xtra) && t.lock == Holders(t)
      && t == s.(ntp := t.ntp, xtra := t.xtra, lock := t.lock, tasks := t.tasks)
  {
    TaskAdded(s.tasks, Task(k, Running), Ntp);
    TaskAdded(s.tasks, Task(k, Running), Xtra);
  }

  /** The handler takes a message on: its lock, if any, is now the handler's. */
  function Taken(s: Gps): Gps
    requires s.queue != []
  {
    s.(queue := s.queue[1..], doing := Handling(s.queue[0].tracked, [], false))
  }

  lemma TakenKeeps(s: Gps)
    requires GpsInv(s) && s.queue != [] && s.doing.Waiting?
    ensures var t, w := Taken(s), s.queue[0].what;
      && t.lock == Holders(t) && EndsTracked(t.queue)
      && Unfinished(t.tasks, Ntp) + Ends(t.queue, Ntp) + One(w == Finished(Ntp)) == One(t.ntp == Downloading)
      && Unfinished(t.tasks, Xtra) + Ends(t.queue, Xtra) + One(w == Finished(Xtra)) == One(t.xtra == Downloading)
  {
    assert forall i :: 0 <= i < |s.queue[1..]| ==> s.queue[1..][i] == s.queue[i + 1];
  }

  lemma BeginStartKeeps(s: Gps, k: Kind)
    requires GpsInv(s) && s.queue != [] && s.doing.Waiting? && !s.queue[0].what.Finished?
    ensures GpsInv(Start(Taken(s), k))
  {
    TakenKeeps(s);
    StartKeeps(Taken(s), k);
  }

  lemma StartBeforeDoing(s: Gps, k: Kind, d: Doing)
    ensures Start(s, k).(doing := d) == Start(s.(doing := d), k)
  {
  }

  /** Whether a message makes the handler start a task. */
  predicate Starts(s: Gps, w: What, k: Kind) {
    if k == Ntp then w.InjectNtpTime? || (w.UpdateNetworkState? && s.shutdown) else w.DownloadXtraData? && s.supportsXtra
  }

  lemma BeginStarts(s: Gps, extra: seq<What>, k: Kind)
    requires GpsInv(s) && Enabled(s, Begin(extra)) && Starts(s, s.queue[0].what, k)
    ensures GpsInv(Next(s, Begin(extra)))
  {
    BeginStartKeeps(s, k);
    StartBeforeDoing(s.(queue := s.queue[1..]), k, Handling(s.queue[0].tracked, [], false));
  }

  lemma BeginFinishes(s: Gps, extra: seq<What>)
    requires GpsInv(s) && Enabled(s, Begin(extra)) && s.queue[0].what.Finished?
    ensures GpsInv(Next(s, Begin(extra)))
  {
    TakenKeeps(s);
    assert Next(s, Begin(extra)) == SetFlag(Taken(s), s.queue[0].what.kind, IdleState);
  }

  lemma BeginOther(s: Gps, extra: seq<What>)
    requires GpsInv(s) && Enabled(s, Begin(extra)) && !s.queue[0].what.Finished?
    requires !Starts(s, s.queue[0].what, Ntp) && !Starts(s, s.queue[0].what, Xtra)
    ensures GpsInv(Next(s, Begin(extra)))
  {
    TakenKeeps(s);
    var t := Next(s, Begin(extra));
    assert t == Taken(s).(network := t.network, doing := t.doing);
    assert AllPlain(t.doing.toSend);
  }

  lemma BeginKeeps(s: Gps, extra: seq<What>)
    requires GpsInv(s) && Enabled(s, Begin(extra))
    ensures GpsInv(Next(s, Begin(extra)))
  {
    if Starts(s, s.queue[0].what, Ntp) {
      BeginStarts(s, extra, Ntp);
    } else if Starts(s, s.queue[0].what, Xtra) {
      BeginStarts(s, extra, Xtra);
    } else if s.queue[0].what.Finished? {
      BeginFinishes(s, extra);
    } else {
      BeginOther(s, extra);
    }
  }

  lemma QueueStepKeeps(s: Gps, step: Step)
    requires GpsInv(s) && Enabled(s, step) && (step.Acquire? || step.Post? || step.Delay? || step.Due?)
    ensures GpsInv(Next(s, step))
  {
    if step.Post? {
      QueueGrows(s.queue, Message(s.sending[step.i], true), Ntp);
      QueueGrows(s.queue, Message(s.sending[step.i], true), Xtra);
      WithoutPlain(s.sending, step.i);
    } else if step.Due? {
      QueueGrows(s.queue, Message(s.delayed[step.i], false), Ntp);
      QueueGrows(s.queue, Message(s.delayed[step.i], false), Xtra);
      WithoutPlain(s.delayed, step.i);
    }
  }

  lemma HandlerStepKeeps(s: Gps, step: Step)
    requires GpsInv(s) && Enabled(s, step) && (step.HandlerAcquire? || step.HandlerPost? || step.End?)
    ensures GpsInv(Next(s, step))
  {
    if step.HandlerPost? {
      QueueGrows(s.queue, Message(s.doing.toSend[0], true), Ntp);
      QueueGrows(s.queue, Message(s.doing.toSend[0], true), Xtra);
    }
  }

  lemma TaskStepKeeps(s: Gps, step: Step)
    requires GpsInv(s) && Enabled(s, step) && (step.TaskAcquire? || step.TaskPost?)
    ensures GpsInv(Next(s, step))
  {
    var kind := s.tasks[step.i].kind;
    var t := Task(kind, if step.TaskAcquire? then Sending else Posted);
    TaskChanges(s.tasks, step.i, t, Ntp);
    TaskChanges(s.tasks, step.i, t, Xtra);
    QueueGrows(s.queue, Message(Finished(kind), true), Ntp);
    QueueGrows(s.queue, Message(Finished(kind), true), Xtra);
  }

  lemma TaskEndKeeps(s: Gps, i: nat, again: bool)
    requires GpsInv(s) && Enabled(s, TaskEnd(i, again))
    ensures GpsInv(Next(s, TaskEnd(i, again)))
  {
    TaskLeaves(s.tasks, i, Ntp);
    TaskLeaves(s.tasks, i, Xtra);
  }

  lemma StepKeeps(s: Gps, step: Step)
    requires GpsInv(s) && Enabled(s, step)
    ensures GpsInv(Next(s, step))
  {
    if step.Begin? {
      BeginKeeps(s, step.extra);
    } else if step.TaskEnd? {
      TaskEndKeeps(s, step.i, step.again);
    } else if step.TaskAcquire? || step.TaskPost? {
      TaskStepKeeps(s, step);
    } else if step.HandlerAcquire? || step.HandlerPost? || step.End? {
      HandlerStepKeeps(s, step);
    } else if !step.Configure? {
      QueueStepKeeps(s, step);
    }
  }

  // ---------- runs ----------

  predicate StepTo(s: Gps, step: Step, t: Gps) {
    Enabled(s, step) && t == Next(s, step)
  }

  /** `states[0]` is where the run starts, and step `i` leads from `states[i]` to `states[i + 1]`. */
  ghost predicate Run(states: seq<Gps>, steps: seq<Step>) {
    && |states| == |steps| + 1
    && forall i {:trigger steps[i]} :: 0 <= i < |steps| ==> StepTo(states[i], steps[i], states[i + 1])
  }

  lemma StepToKeeps(s: Gps, step: Step, t: Gps)
    requires GpsInv(s) && StepTo(s, step, t)
    ensures GpsInv(t)
  {
    StepKeeps(s, step);
  }

  lemma RunStep(states: seq<Gps>, steps: seq<Step>, k: nat)
    requires Run(states, steps) && k < |steps| && GpsInv(states[k])
    ensures GpsInv(states[k + 1])
  {
    StepToKeeps(states[k], steps[k], states[k + 1]);
  }

  lemma InitialInv()
    ensures GpsInv(INITIAL)
  {
    assert Holders(INITIAL) == 0;
  }

  lemma {:induction false} RunKeeps(states: seq<Gps>, steps: seq<Step>, k: nat)
    requires Run(states, steps) && GpsInv(states[0]) && k < |states|
    ensures GpsInv(states[k])
  {
    if k == 0 {
    } else {
      RunKeeps(states, steps, k - 1);
      RunStep(states, steps, k - 1);
    }
  }

  /** The state is that of a provider some time after its construction. */
  ghost predicate Reached(states: seq<Gps>, steps: seq<Step>, k: nat) {
    Run(states, steps) && states[0] == INITIAL && k < |states|
  }

  lemma ReachedIsSafe(states: seq<Gps>, steps: seq<Step>, k: nat)
    requires Reached(states, steps, k)
    ensures GpsInv(states[k])
  {
    InitialInv();
    RunKeeps(states, steps, k);
  }

  /** In every run the count of the wake lock is the number of tracked messages queued or being sent or
      handled, plus the tasks that have not ended. */
  lemma LockIsExact(states: seq<Gps>, steps: seq<Step>, k: nat)
    requires Reached(states, steps, k)
    ensures states[k].lock == Holders(states[k])
  {
    ReachedIsSafe(states, steps, k);
  }

  lemma FlagMeans(s: Gps, k: Kind)
    requires GpsInv(s)
    ensures Unfinished(s.tasks, k) + Ends(s.queue, k) == One(Flag(s, k) == Downloading)
    ensures Flag(s, k) == Downloading ==> s.lock > 0
  {
    assert FlagInv(s, k);
    UnfinishedAreTasks(s.tasks, k);
    EndsCount(s.queue, k);
  }

  /** A kind's flag is "downloading" exactly while one of its tasks is at work or its announcement waits in the
      queue; there is never more than one; and the lock is held all that time. */
  lemma FlagIsExact(states: seq<Gps>, steps: seq<Step>, j: nat, k: Kind)
    requires Reached(states, steps, j)
    ensures var s := states[j]; var n := Unfinished(s.tasks, k) + Ends(s.queue, k);
      n <= 1 && (Flag(s, k) == Downloading <==> n == 1) && (n == 1 ==> s.lock > 0)
  {
    ReachedIsSafe(states, steps, j);
    FlagMeans(states[j], k);
  }

  lemma {:induction false} UnfinishedAreTasks(ts: seq<Task>, k: Kind)
    ensures Unfinished(ts, k) <= |ts|
  {
    if ts == [] {
    } else {
      UnfinishedAreTasks(ts[1..], k);
    }
  }

  lemma {:induction false} EndsCount(q: seq<Message>, k: Kind)
    requires EndsTracked(q)
    ensures Ends(q, k) <= Tracked(q)
  {
    if q == [] {
    } else {
      assert forall i :: 0 <= i < |q[1..]| ==> q[1..][i] == q[i + 1];
      EndsCount(q[1..], k);
    }
  }

  /** No release finds the lock already free. */
  lemma ReleasesAreCovered(states: seq<Gps>, steps: seq<Step>, k: nat)
    requires Reached(states, steps, k) && k < |steps|
    requires steps[k].TaskEnd? || (steps[k].End? && states[k].doing.Handling? && states[k].doing.tracked)
    ensures states[k].lock > 0
  {
    ReachedIsSafe(states, steps, k);
    assert StepTo(states[k], steps[k], states[k + 1]);
  }
}
