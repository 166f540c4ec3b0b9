/** GpsLocationProvider itself, as far as the wake lock and the pending flags go: fields changed by the handler,
    by tasks and by callers of sendMessage. Every method keeps lock and flags exact, which is what makes each
    release of the counted lock legal. */
module GpsProvider {
  import opened Chains
  import opened GpsWakeLock
  import opened Numbers

  /** PowerManager.WakeLock, counted: releasing one that is not held is an error there. */
  class WakeLock {
    var count: nat

    constructor ()
      ensures count == 0
    {
      count := 0;
    }

    method Acquire()
      modifies this
      ensures count == old(count) + 1
    {
      count := count + 1;
    }

    method Release()
      requires count > 0
      modifies this
      ensures count == old(count) - 1
    {
      count := count - 1;
    }
  }

  class GpsLocationProvider {
    var queue: seq<Message>                  // of mHandler
    var doing: Doing                         // what mHandler's thread is at
    var sending: seq<What>                   // other threads inside sendMessage
    var tasks: seq<Task>                     // on AsyncTask.THREAD_POOL_EXECUTOR
    var delayed: seq<What>
    var mInjectNtpTimePending: Pending
    var mDownloadXtraDataPending: Pending
    var mNetworkAvailable: bool
    var mSupportsXtra: bool
    var shutdown: bool
    const mWakeLock: WakeLock

    ghost function State(): Gps
      reads this, mWakeLock
    {
      Gps(queue, doing, sending, tasks, delayed, mInjectNtpTimePending, mDownloadXtraDataPending,
          mNetworkAvailable, mSupportsXtra, shutdown, mWakeLock.count)
    }

    /** Between steps: lock, flags, tasks and announcements agree. */
    ghost predicate Valid()
      reads this, mWakeLock
    {
      GpsInv(State())
    }

    /** Tasks of a kind that are at work or whose announcement waits. */
    ghost function Active(k: Kind): nat
      reads this
    {
      Unfinished(tasks, k) + Ends(queue, k)
    }

    /** In the middle of handleMessage: lock and flags are exact. */
    ghost predicate Exact()
      reads this, mWakeLock
    {
      && mWakeLock.count == Holders(State())
      && Active(Ntp) == One(mInjectNtpTimePending == Downloading)
      && Active(Xtra) == One(mDownloadXtraDataPending == Downloading)
    }

    constructor ()
      ensures Valid() && fresh(mWakeLock) && State() == INITIAL
    {
      queue, doing, sending, tasks, delayed := [], Waiting, [], [], [];
      mInjectNtpTimePending, mDownloadXtraDataPending := PendingNetwork, PendingNetwork;
      mNetworkAvailable, mSupportsXtra, shutdown := false, false, false;
      mWakeLock := new WakeLock();
      new;
      assert State() == INITIAL;
      InitialInv();
    }

    /** handleInjectNtpTime: one more task exactly when the network is there and none is active */
    method HandleInjectNtpTime()
      requires Exact()
      modifies this`mInjectNtpTimePending, mWakeLock, this`tasks
      ensures Exact() && State() == Start(old(State()), Ntp)
      ensures tasks == old(tasks) + if mNetworkAvailable && old(Active(Ntp)) == 0 then [Task(Ntp, Running)] else []
      ensures Active(Ntp) == if mNetworkAvailable then 1 else old(Active(Ntp))
      ensures mWakeLock.count == old(mWakeLock.count) + |tasks| - |old(tasks)|
    {
      StartKeeps(State(), Ntp);
      if mInjectNtpTimePending != Downloading {
        if mNetworkAvailable {
          mInjectNtpTimePending := Downloading;
          mWakeLock.Acquire();
          tasks := tasks + [Task(Ntp, Running)];
          return;
        }
        mInjectNtpTimePending := PendingNetwork;
      }
    }

    /** handleDownloadXtraData: likewise */
    method HandleDownloadXtraData()
      requires Exact()
      modifies this`mDownloadXtraDataPending, mWakeLock, this`tasks
      ensures Exact() && State() == Start(old(State()), Xtra)
      ensures tasks == old(tasks) + if mNetworkAvailable && old(Active(Xtra)) == 0 then [Task(Xtra, Running)] else []
      ensures Active(Xtra) == if mNetworkAvailable then 1 else old(Active(Xtra))
      ensures mWakeLock.count == old(mWakeLock.count) + |tasks| - |old(tasks)|
    {
      StartKeeps(State(), Xtra);
      if mDownloadXtraDataPending != Downloading {
        if mNetworkAvailable {
          mDownloadXtraDataPending := Downloading;
          mWakeLock.Acquire();
          tasks := tasks + [Task(Xtra, Running)];
          return;
        }
        mDownloadXtraDataPending := PendingNetwork;
      }
    }

    /** handleUpdateNetworkState; `toSend` are the messages it sends next */
    method HandleUpdateNetworkState(available: bool) returns (toSend: seq<What>)
      modifies this`mNetworkAvailable
      ensures State() == old(State()).(network := available)
      ensures toSend == if available then Retries(old(State())) else []
      ensures toSend == (if available && mInjectNtpTimePending == PendingNetwork then [InjectNtpTime] else [])
                        + if available && mDownloadXtraDataPending == PendingNetwork then [DownloadXtraData] else []
    {
      mNetworkAvailable := available;
      toSend := [];
      if mNetworkAvailable {
        if mInjectNtpTimePending == PendingNetwork {
          toSend := toSend + [InjectNtpTime];
        }
        if mDownloadXtraDataPending == PendingNetwork {
          toSend := toSend + [DownloadXtraData];
        }
      }
    }

    /** handleMessage: the message leaves the queue, and its lock, if any, is now the handler's. */
    method TakeMessage() returns (msg: Message)
      requires Valid() && doing.Waiting? && queue != []
      modifies this`queue, this`doing
      ensures State() == Taken(old(State())) && msg == old(queue)[0]
      ensures !msg.what.Finished? ==> Exact()
    {
      TakenKeeps(State());
      msg := queue[0];
      queue := queue[1..];
      doing := Handling(msg.tracked, [], false);
    }

    /** What tasks there are in `t` and not in `s` are running, and of kinds that had none active. */
    static ghost predicate StartedAlone(s: Gps, t: Gps) {
      && s.tasks <= t.tasks
      && forall i :: |s.tasks| <= i < |t.tasks| ==>
           t.tasks[i].phase == Running && Unfinished(s.tasks, t.tasks[i].kind) + Ends(s.queue, t.tasks[i].kind) == 0
    }

    static lemma BeginTasks(s: Gps, extra: seq<What>)
      requires Enabled(s, Begin(extra))
      ensures var t, w := Next(s, Begin(extra)), s.queue[0].what;
        if Starts(s, w, Ntp) then t.tasks == Start(s, Ntp).tasks
        else if Starts(s, w, Xtra) then t.tasks == Start(s, Xtra).tasks else t.tasks == s.tasks
    {
    }

    static lemma NewTaskIsAlone(s: Gps, extra: seq<What>)
      requires GpsInv(s) && Enabled(s, Begin(extra))
      ensures StartedAlone(s, Next(s, Begin(extra)))
    {
      BeginTasks(s, extra);
      FlagMeans(s, Ntp);
      FlagMeans(s, Xtra);
    }

    /** handleMessage: a network update, which falls through while the chip is shut down */
    method DispatchUpdate(msg: Message, ghost extra: seq<What>, ghost s: Gps)
      requires Enabled(s, Begin(extra)) && State() == Taken(s) && msg == s.queue[0]
      requires msg.what.UpdateNetworkState? && Exact()
      modifies this`mInjectNtpTimePending, mWakeLock, this`tasks, this`doing, this`mNetworkAvailable
      ensures State() == Next(s, Begin(extra))
    {
      if shutdown {
        HandleInjectNtpTime();
      } else {
        var toSend := HandleUpdateNetworkState(msg.what.available);
        doing := doing.(toSend := toSend);
      }
    }

    /** handleMessage: its switch */
    method Dispatch(msg: Message, extra: seq<What>, ghost s: Gps)
      requires Enabled(s, Begin(extra)) && State() == Taken(s) && msg == s.queue[0]
      requires !msg.what.Finished? ==> Exact()
      modifies this`mInjectNtpTimePending, this`mDownloadXtraDataPending, mWakeLock, this`tasks
      modifies this`doing, this`mNetworkAvailable
      ensures State() == Next(s, Begin(extra))
    {
      match msg.what {
        case UpdateNetworkState(available) =>
          DispatchUpdate(msg, extra, s);
        case InjectNtpTime =>
          HandleInjectNtpTime();
        case DownloadXtraData =>
          if mSupportsXtra {
            HandleDownloadXtraData();
          }
        case Finished(Ntp) =>
          mInjectNtpTimePending := IdleState;
        case Finished(Xtra) =>
          mDownloadXtraDataPending := IdleState;
        case OtherMessage(_) =>
          doing := doing.(toSend := extra);
      }
    }

    /** handleMessage, up to its release; `extra` is what handlers outside this model send. A task starts only
        for a kind that has none active. */
    method HandleMessage(extra: seq<What>)
      requires Valid() && Enabled(State(), Begin(extra))
      modifies this, mWakeLock
      ensures Valid() && State() == Next(old(State()), Begin(extra))
      ensures StartedAlone(old(State()), State())
    {
      ghost var s := State();
      BeginKeeps(s, extra);
      NewTaskIsAlone(s, extra);
      var msg := TakeMessage();
      Dispatch(msg, extra, s);
    }

    /** handleMessage: its release, of a lock that was acquired for the message */
    method EndMessage()
      requires Valid() && Enabled(State(), End)
      modifies this`doing, mWakeLock
      ensures Valid() && State() == Next(old(State()), End)
      ensures mWakeLock.count == old(mWakeLock.count) - if old(doing).tracked then 1 else 0
    {
      StepKeeps(State(), End);
      if doing.tracked {
        mWakeLock.Release();
      }
      doing := Waiting;
    }

    /** sendMessage on the handler's own thread */
    method SendFromHandler()
      requires Valid() && Enabled(State(), HandlerAcquire)
      modifies this`doing, mWakeLock, this`queue
      ensures Valid() && queue == old(queue) + [Message(old(doing).toSend[0], true)]
      ensures doing == old(doing).(toSend := old(doing).toSend[1..]) && mWakeLock.count == old(mWakeLock.count) + 1
    {
      ghost var s := State();
      StepKeeps(s, HandlerAcquire);
      StepKeeps(Next(s, HandlerAcquire), HandlerPost);
      mWakeLock.Acquire();
      queue := queue + [Message(doing.toSend[0], true)];
      doing := doing.(toSend := doing.toSend[1..]);
    }

    /** sendMessage on another thread: its acquire ... */
    method AcquireToSend(what: What)
      requires Valid() && Plain(what)
      modifies mWakeLock, this`sending
      ensures Valid() && State() == Next(old(State()), Acquire(what))
      ensures mWakeLock.count == old(mWakeLock.count) + 1 && sending == old(sending) + [what]
    {
      StepKeeps(State(), Acquire(what));
      mWakeLock.Acquire();
      sending := sending + [what];
    }

    /** ... and its enqueue */
    method PostSent(i: nat)
      requires Valid() && Enabled(State(), Post(i))
      modifies this`sending, this`queue
      ensures Valid() && State() == Next(old(State()), Post(i))
      ensures queue == old(queue) + [Message(old(sending)[i], true)]
    {
      StepKeeps(State(), Post(i));
      queue := queue + [Message(sending[i], true)];
      sending := Without(sending, i);
    }

    /** run: the acquire of its sendMessage */
    method TaskAnnounces(i: nat)
      requires Valid() && Enabled(State(), TaskAcquire(i))
      modifies mWakeLock, this`tasks
      ensures Valid() && State() == Next(old(State()), TaskAcquire(i))
      ensures mWakeLock.count == old(mWakeLock.count) + 1
    {
      StepKeeps(State(), TaskAcquire(i));
      mWakeLock.Acquire();
      tasks := tasks[i := Task(tasks[i].kind, Sending)];
    }

    /** run: the enqueue of its sendMessage; its kind stays active until the handler takes that message */
    method TaskPosts(i: nat)
      requires Valid() && Enabled(State(), TaskPost(i))
      modifies this`queue, this`tasks
      ensures Valid() && State() == Next(old(State()), TaskPost(i))
      ensures Active(old(tasks)[i].kind) == old(Active(tasks[i].kind)) == 1
      ensures queue == old(queue) + [Message(Finished(old(tasks)[i].kind), true)]
    {
      ghost var k := tasks[i].kind;
      StepKeeps(State(), TaskPost(i));
      AtWork(tasks, i);
      FlagMeans(State(), k);
      FlagMeans(Next(State(), TaskPost(i)), k);
      queue := queue + [Message(Finished(tasks[i].kind), true)];
      tasks := tasks[i := Task(tasks[i].kind, Posted)];
    }

    static lemma {:induction false} AtWork(ts: seq<Task>, i: nat)
      requires i < |ts| && ts[i].phase != Posted
      ensures Unfinished(ts, ts[i].kind) > 0
    {
      if i == 0 {
      } else {
        AtWork(ts[1..], i - 1);
      }
    }

    static lemma EndLeavesActive(s: Gps, i: nat, again: bool)
      requires GpsInv(s) && Enabled(s, TaskEnd(i, again))
      ensures s.lock > 0 && GpsInv(Next(s, TaskEnd(i, again)))
      ensures Unfinished(Without(s.tasks, i), Ntp) == Unfinished(s.tasks, Ntp)
      ensures Unfinished(Without(s.tasks, i), Xtra) == Unfinished(s.tasks, Xtra)
    {
      TaskEndKeeps(s, i, again);
      TaskLeaves(s.tasks, i, Ntp);
      TaskLeaves(s.tasks, i, Xtra);
    }

    /** run: sendEmptyMessageDelayed, if it wants a retry */
    method MaybeRetry(kind: Kind, again: bool)
      modifies this`delayed
      ensures delayed == old(delayed) + if again then [RetryOf(kind)] else []
    {
      if again {
        delayed := delayed + [if kind == Ntp then InjectNtpTime else DownloadXtraData];
      }
    }

    /** run: its end, on a lock that is held */
    method EndTask(i: nat, again: bool)
      requires Enabled(State(), TaskEnd(i, again)) && mWakeLock.count > 0
      modifies this`delayed, mWakeLock, this`tasks
      ensures State() == Next(old(State()), TaskEnd(i, again))
    {
      MaybeRetry(tasks[i].kind, again);
      mWakeLock.Release();
      tasks := Without(tasks, i);
    }

    /** run: the delayed retry and the release of the lock the task was started with, which nobody misses */
    method TaskReleases(i: nat, again: bool)
      requires Valid() && Enabled(State(), TaskEnd(i, again))
      modifies this`delayed, mWakeLock, this`tasks
      ensures Valid() && State() == Next(old(State()), TaskEnd(i, again))
      ensures Active(Ntp) == old(Active(Ntp)) && Active(Xtra) == old(Active(Xtra))
      ensures delayed == old(delayed) +
        if again then [if old(tasks)[i].kind == Ntp then InjectNtpTime else DownloadXtraData] else []
      ensures mWakeLock.count == old(mWakeLock.count) - 1 && tasks == old(tasks[..i] + tasks[i + 1..])
    {
      EndLeavesActive(State(), i, again);
      EndTask(i, again);
    }
  }
}
