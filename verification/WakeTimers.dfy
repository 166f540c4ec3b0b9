/** The wake lock of ril.cpp on the heap: UserCallbackInfos whose `userParam` cancels them, and the pointer to
    the last wake timer's. The timers' events are EventHeap's business; here each method takes the history
    `w` through Rild's function of that name. */
module WakeTimers {
  import opened EventModel
  import opened Rild
  import opened Time

  class UserCallbackInfo {
    const addr: nat
    const callback: Callback
    var userParam: int

    constructor (addr: nat, callback: Callback, userParam: int)
      ensures this.addr == addr && this.callback == callback && this.userParam == userParam
    {
      this.addr, this.callback, this.userParam := addr, callback, userParam;
    }
  }

  lemma RescheduledWake(r: Ril, m: Message)
    requires m.wakes && (r.wake.last.Some? ==> r.wake.last.value in r.wake.infos)
    ensures Reschedule(r, m).wake ==
      var infos := r.wake.infos;
      var cancelled := if r.wake.last.None? then infos
                       else infos[r.wake.last.value := infos[r.wake.last.value].(userParam := 1)];
      r.wake.(infos := cancelled[m.addr := Info(WakeTimeout, 0)], last := Some(m.addr), lastAt := Some(m.now))
  {
  }

  class WakeLock {
    var lastWakeTimeoutInfo: UserCallbackInfo?   // s_last_wake_timeout_info
    var held: bool                               // what acquire_wake_lock and release_wake_lock last did
    ghost var infos: map<nat, UserCallbackInfo>
    ghost var w: Wake

    ghost predicate InfosMatch()
      reads this`infos, this`w, infos.Values
    {
      && infos.Keys == w.infos.Keys
      && forall a :: a in infos ==> infos[a].addr == a && w.infos[a] == Info(infos[a].callback, infos[a].userParam)
    }

    ghost predicate Valid()
      reads this, infos.Values
    {
      && InfosMatch() && held == w.lock
      && (if w.last.None? then lastWakeTimeoutInfo == null
          else w.last.value in infos && lastWakeTimeoutInfo == infos[w.last.value])
    }

    constructor ()
      ensures Valid() && w == Wake(map[], None, false, None, false)
    {
      lastWakeTimeoutInfo, held := null, false;
      infos, w := map[], Wake(map[], None, false, None, false);
    }

    /** internalRequestTimedCallback: the record, at address `addr` */
    method RequestTimedCallback(callback: Callback, param: int, addr: nat) returns (info: UserCallbackInfo)
      requires Valid() && addr !in infos
      modifies this`infos, this`w
      ensures Valid() && fresh(info) && infos == old(infos)[addr := info]
      ensures w == old(w).(infos := old(w).infos[addr := Info(callback, param)])
    {
      info := new UserCallbackInfo(addr, callback, param);
      infos := infos[addr := info];
      w := w.(infos := w.infos[addr := Info(callback, param)]);
    }

    /** RIL_onUnsolicitedResponse: grabPartialWakeLock */
    method GrabPartialWakeLock(m: Message, ghost r: Ril)
      requires Valid() && w == r.wake
      modifies this`held, this`w
      ensures Valid() && w == Grab(r, m).wake
    {
      if m.wakes {
        held := true;
        w := w.(lock := true, clean := true);
      }
    }

    /** RIL_onUnsolicitedResponse: error_exit */
    method ErrorExit(m: Message, ghost r: Ril)
      requires Valid() && w == r.wake
      modifies this`held, this`w
      ensures Valid() && w == GiveUp(r, m).wake
    {
      if m.wakes {
        held := false;
        w := w.(lock := false, clean := false);
      }
    }

    /** RIL_onUnsolicitedResponse: the previous timer is cancelled through its record */
    method CancelPrevious()
      requires Valid()
      modifies this`w, infos.Values`userParam
      ensures Valid()
      ensures w == if old(w).last.None? then old(w) else
        var a := old(w).last.value; old(w).(infos := old(w).infos[a := old(w).infos[a].(userParam := 1)])
    {
      if lastWakeTimeoutInfo != null {
        lastWakeTimeoutInfo.userParam := 1;
        w := w.(infos := w.infos[w.last.value := w.infos[w.last.value].(userParam := 1)]);
      }
    }

    /** RIL_onUnsolicitedResponse: the next timer is the one to remember */
    method RememberNext(addr: nat, now: TimeVal)
      requires Valid() && addr !in infos
      modifies this`infos, this`w, this`lastWakeTimeoutInfo
      ensures Valid()
      ensures w == old(w).(infos := old(w).infos[addr := Info(WakeTimeout, 0)], last := Some(addr), lastAt := Some(now))
    {
      lastWakeTimeoutInfo := RequestTimedCallback(WakeTimeout, 0, addr);
      w := w.(last := Some(addr), lastAt := Some(now));
    }

    /** RIL_onUnsolicitedResponse: its end */
    method ScheduleTimeout(m: Message, ghost r: Ril)
      requires Valid() && w == r.wake && (m.wakes ==> m.addr !in infos)
      modifies this, infos.Values`userParam
      ensures Valid() && w == Reschedule(r, m).wake
    {
      if m.wakes {
        RescheduledWake(r, m);
        CancelPrevious();
        RememberNext(m.addr, m.now);
      }
    }

    /** wakeTimeoutCallback */
    method WakeTimeoutCallback(param: int)
      requires Valid()
      modifies this`held, this`w
      ensures Valid() && w == old(w).(lock := old(w).lock && param != 0)
    {
      if param == 0 {
        held := false;
      }
      w := w.(lock := held);
    }

    /** userTimerCallback, when its callback is the library's own or has already made its calls */
    method UserTimerCallback(info: UserCallbackInfo, ghost r: Ril)
      requires Valid() && w == r.wake && info.addr in infos && infos[info.addr] == info
      modifies this
      ensures Valid() && w == TimerDone(r, info.addr).wake
    {
      if info.callback.WakeTimeout? {
        WakeTimeoutCallback(info.userParam);
      }
      Free(info);
    }

    /** userTimerCallback, after the callback: the record is forgotten and freed */
    method Free(info: UserCallbackInfo)
      requires Valid() && info.addr in infos && infos[info.addr] == info
      modifies this
      ensures Valid()
      ensures w == old(w).(infos := old(w).infos - {info.addr},
                           last := if old(w).last == Some(info.addr) then None else old(w).last)
    {
      if lastWakeTimeoutInfo != null && lastWakeTimeoutInfo == info {
        lastWakeTimeoutInfo := null;
        w := w.(last := None);
      }
      infos := infos - {info.addr};
      w := w.(infos := w.infos - {info.addr});
    }
  }
}
