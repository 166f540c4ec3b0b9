/** The daemon as a state machine: its steps, when they can happen and what they lead to. */
module RildSteps {
  import opened Time
  import opened EventModel
  import opened Rild

  // ---------- steps ----------

  /** The callback of the next pending event, with its inputs. */
  datatype Fired =
    | WakeupFired                                         // processWakeupCallback
    | ListenFired(accept: Accept)                         // listenCallback
    | CommandsFired(recs: seq<Record>, closes: bool)      // processCommandsCallback
    | OtherFired
    | TimerFired(effects: seq<Effect>)                    // userTimerCallback

  datatype RilStep =
    | Vendors(effect: Effect)                             // a call of the vendor RIL from another thread
    | Local(addr: nat, effects: seq<Effect>)              // issueLocalRequest
    | Elsewhere(action: Action<Ev>)                       // another component uses the event loop
    | Passes(now: TimeVal)
    | Expire(now: TimeVal)                                // processTimeouts
    | Poll(rfds: set<int>, n: int)                        // processReadReadies
    | Fires(fired: Fired)                                 // one round of firePending

  ghost predicate Others(e: Ev) {
    e == WakeupEv || (e.OtherEv? && e.k < OTHER_WATCHERS)
  }

  /** Other components keep to their own events and to their own open descriptors. */
  ghost predicate OthersMay(r: Ril, a: Action<Ev>) {
    && Permitted(r.loop, a) && Others(a.ev)
    && (a.Set? ==> a.fd != r.link.fdListen)
  }

  ghost predicate Matches(e: Ev, f: Fired) {
    match f
    case WakeupFired => e == WakeupEv
    case ListenFired(_) => e == ListenEv
    case CommandsFired(_, _) => e == CommandsEv
    case OtherFired => e.OtherEv?
    case TimerFired(_) => e.TimerEv?
  }

  ghost predicate CanFire(r: Ril, f: Fired) {
    && EventModel.Enabled(r.loop, FireNext)
    && Matches(Pending(r.loop)[0], f)
    && var p := r.(loop := Fire(r.loop));
       match f
       case ListenFired(a) => CanAccept(p, a)
       case CommandsFired(recs, _) => CanProcessAll(p, recs)
       case TimerFired(effects) =>
         && CanDoAll(p, effects)
         && (effects != [] ==> Pending(r.loop)[0].addr in r.wake.infos && r.wake.infos[Pending(r.loop)[0].addr].callback.Vendor?)
       case _ => true
  }

  ghost predicate RilEnabled(r: Ril, step: RilStep) {
    match step
    case Vendors(e) => CanDo(r, e)
    case Local(addr, effects) =>
      !Live(r.ledger.pending, addr) && CanDoAll(r.(ledger := Enter(r.ledger, r.link, addr, -1, true)), effects)
    case Elsewhere(a) => OthersMay(r, a)
    case Passes(now) => EventModel.Enabled(r.loop, Tick(now))
    case Expire(now) => EventModel.Enabled(r.loop, Timeouts(now))
    case Poll(rfds, n) => EventModel.Enabled(r.loop, Readies(rfds, n))
    case Fires(f) => CanFire(r, f)
  }

  /** What the daemon relies on when it calls back. */
  ghost predicate Serviceable(r: Ril) {
    && Known(r.loop.recs, r.loop.table) && |r.loop.table| == MAX_FD_EVENTS
    && ListenEv in r.loop.recs
    && (CommandsEv in Pending(r.loop) ==> CommandsEv in r.loop.recs)
    && (forall a :: TimerEv(a) in Pending(r.loop) ==> a in r.wake.infos)
  }

  ghost function CallBack(r: Ril, f: Fired): Ril
    requires Serviceable(r) && CanFire(r, f)
  {
    var head := Pending(r.loop)[0];
    var p := r.(loop := Fire(r.loop));
    match f
    case WakeupFired => p
    case ListenFired(a) => ListenCallback(p, a)
    case CommandsFired(recs, closes) => assert head in Pending(r.loop); CommandsCallback(p, recs, closes)
    case OtherFired => p
    case TimerFired(effects) => assert head in Pending(r.loop); TimerDone(DoAll(p, effects), head.addr)
  }

  ghost function RilNext(r: Ril, step: RilStep): Ril
    requires Serviceable(r) && RilEnabled(r, step)
  {
    match step
    case Vendors(e) => Do(r, e)
    case Local(addr, effects) => DoAll(r.(ledger := Enter(r.ledger, r.link, addr, -1, true)), effects)
    case Elsewhere(a) => r.(loop := Perform(r.loop, a))
    case Passes(now) => r.(loop := Next(r.loop, Tick(now)))
    case Expire(now) => r.(loop := Next(r.loop, Timeouts(now)))
    case Poll(rfds, n) => r.(loop := Next(r.loop, Readies(rfds, n)))
    case Fires(f) => CallBack(r, f)
  }
}
