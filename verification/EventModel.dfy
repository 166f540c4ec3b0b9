/** The RIL event loop as a state machine on values: every call of ril_event.cpp is a function of
    the state, and a run is a sequence of steps of the loop thread, of the callbacks it fires and
    of the other threads that use the API. `E` stands for the address of a `struct ril_event`. */
module EventModel {
  import opened Time

  const MAX_FD_EVENTS := 8

  /** The fields of a `struct ril_event`, list links aside. */
  datatype Rec = Rec(fd: int, index: int, persist: bool, timeout: TimeVal, func: int, param: int)

  datatype Slot<E> = Empty | Holds(ev: E)

  datatype Due<E> = Due(ev: E, deadline: TimeVal)

  datatype Option<T> = None | Some(value: T)

  datatype State<E> = State(
    recs: map<E, Rec>,          // every initialised event
    table: seq<Slot<E>>,        // watch_table
    readFds: set<int>,
    nfds: int,
    timers: seq<Due<E>>,        // timer_list
    expired: seq<Due<E>>,       // pending_list: first the expired timers ...
    ready: seq<E>,              // ... then the events whose descriptor is readable
    polled: bool,               // between processTimeouts and processReadReadies
    clock: TimeVal,             // latest reading of the monotonic clock
    added: multiset<Due<E>>,    // history: timers ever added
    shots: seq<Due<E>>,         // history: timers fired
    shotAt: seq<TimeVal>,       // history: clock at each of those
    fired: seq<E>)              // history: events fired, of either kind

  ghost function Evs<E>(dues: seq<Due<E>>): (r: seq<E>)
    ensures |r| == |dues|
    ensures forall i :: 0 <= i < |dues| ==> r[i] == dues[i].ev
  {
    seq(|dues|, i requires 0 <= i < |dues| => dues[i].ev)
  }

  ghost function Pending<E>(s: State<E>): seq<E> {
    Evs(s.expired) + s.ready
  }

  ghost predicate Queued<E>(s: State<E>, e: E) {
    e in Evs(s.timers) || e in Evs(s.expired) || e in s.ready
  }

  ghost predicate Watched<E>(s: State<E>, e: E) {
    Holds(e) in s.table
  }

  ghost function Start<E>(clock: TimeVal): State<E> {
    State(map[], seq(MAX_FD_EVENTS, _ => Empty), {}, 0, [], [], [], false, clock, multiset{}, [], [], [])
  }

  // ---------- API calls ----------

  /** The first empty slot, or the length of the table. */
  ghost function FreeSlot<E>(table: seq<Slot<E>>): (i: nat)
    ensures i <= |table|
    ensures i < |table| ==> table[i].Empty?
    ensures forall j :: 0 <= j < i ==> table[j].Holds?
  {
    if table == [] || table[0].Empty? then 0 else 1 + FreeSlot(table[1..])
  }

  ghost predicate Known<E>(recs: map<E, Rec>, table: seq<Slot<E>>) {
    forall i :: 0 <= i < |table| && table[i].Holds? ==> table[i].ev in recs
  }

  /** The recomputation loop of removeWatch: the largest watched descriptor, at least 0. */
  ghost function TopFd<E>(recs: map<E, Rec>, table: seq<Slot<E>>): (n: int)
    requires Known(recs, table)
    ensures n >= 0
    ensures forall i :: 0 <= i < |table| && table[i].Holds? ==> recs[table[i].ev].fd <= n
    ensures n == 0 || exists i :: 0 <= i < |table| && table[i].Holds? && recs[table[i].ev].fd == n
  {
    if table == [] then 0 else
      var last := |table| - 1;
      assert forall i :: 0 <= i < last ==> table[..last][i] == table[i];
      var n := TopFd(recs, table[..last]);
      if table[last].Holds? && recs[table[last].ev].fd > n then recs[table[last].ev].fd else n
  }

  ghost function ClearSlot<E>(s: State<E>, e: E, index: nat): State<E>
    requires e in s.recs && index < |s.table|
  {
    s.(table := s.table[index := Empty],
       recs := s.recs[e := s.recs[e].(index := -1)],
       readFds := s.readFds - {s.recs[e].fd})
  }

  ghost function RemoveWatch<E>(s: State<E>, e: E, index: nat): State<E>
    requires Known(s.recs, s.table) && e in s.recs && index < |s.table|
  {
    var c := ClearSlot(s, e, index);
    if s.recs[e].fd + 1 == s.nfds then c.(nfds := TopFd(c.recs, c.table) + 1) else c
  }

  ghost function EventSet<E>(s: State<E>, e: E, fd: int, persist: bool, func: int, param: int): State<E> {
    s.(recs := s.recs[e := Rec(fd, -1, persist, ZERO, func, param)])
  }

  ghost function FillSlot<E>(s: State<E>, e: E, i: nat): State<E>
    requires e in s.recs && i < |s.table|
  {
    s.(table := s.table[i := Holds(e)],
       recs := s.recs[e := s.recs[e].(index := i)],
       readFds := s.readFds + {s.recs[e].fd},
       nfds := if s.recs[e].fd >= s.nfds then s.recs[e].fd + 1 else s.nfds)
  }

  ghost function EventAdd<E>(s: State<E>, e: E): State<E>
    requires e in s.recs
  {
    var i := FreeSlot(s.table);
    if i == |s.table| then s else FillSlot(s, e, i)
  }

  ghost function EventDel<E>(s: State<E>, e: E): State<E>
    requires Known(s.recs, s.table) && e in s.recs && |s.table| == MAX_FD_EVENTS
  {
    var i := s.recs[e].index;
    if i < 0 || i >= MAX_FD_EVENTS then s else RemoveWatch(s, e, i)
  }

  /** Where ril_timer_add puts a deadline: before the first timer that is not earlier. */
  ghost function InsertPos<E>(timers: seq<Due<E>>, deadline: TimeVal): (i: nat)
    ensures i <= |timers|
    ensures forall j :: 0 <= j < i ==> Before(timers[j].deadline, deadline)
    ensures i < |timers| ==> !Before(timers[i].deadline, deadline)
  {
    if timers == [] || !Before(timers[0].deadline, deadline) then 0 else 1 + InsertPos(timers[1..], deadline)
  }

  ghost function TimerAddAt<E>(s: State<E>, e: E, deadline: TimeVal, now: TimeVal, i: nat): State<E>
    requires e in s.recs && i <= |s.timers|
  {
    s.(recs := s.recs[e := s.recs[e].(fd := -1, timeout := deadline)],
       timers := s.timers[..i] + [Due(e, deadline)] + s.timers[i..],
       clock := now,
       added := s.added + multiset{Due(e, deadline)})
  }

  ghost function TimerAdd<E>(s: State<E>, e: E, delay: Option<TimeVal>, now: TimeVal): State<E>
    requires e in s.recs
  {
    if delay.None? then s else
      var deadline := Plus(now, delay.value);
      TimerAddAt(s, e, deadline, now, InsertPos(s.timers, deadline))
  }

  // ---------- the loop ----------

  /** How many timers at the head of the list the loop of processTimeouts takes. */
  ghost function ExpiredCount<E>(timers: seq<Due<E>>, now: TimeVal): (k: nat)
    ensures k <= |timers|
    ensures forall j :: 0 <= j < k ==> Before(timers[j].deadline, now)
    ensures k < |timers| ==> !Before(timers[k].deadline, now)
  {
    if timers == [] || !Before(timers[0].deadline, now) then 0 else 1 + ExpiredCount(timers[1..], now)
  }

  ghost function MoveExpired<E>(s: State<E>, k: nat): State<E>
    requires k <= |s.timers|
  {
    s.(expired := s.expired + s.timers[..k], timers := s.timers[k..])
  }

  ghost function ProcessTimeouts<E>(s: State<E>, now: TimeVal): State<E> {
    MoveExpired(s, ExpiredCount(s.timers, now)).(polled := true, clock := now)
  }

  ghost predicate ReadyAt<E>(s: State<E>, rfds: set<int>, i: nat)
    requires Known(s.recs, s.table) && i < |s.table|
  {
    s.table[i].Holds? && s.recs[s.table[i].ev].fd in rfds
  }

  ghost function QueueReady<E>(s: State<E>, i: nat): State<E>
    requires Known(s.recs, s.table) && i < |s.table| && s.table[i].Holds?
  {
    var e := s.table[i].ev;
    var q := s.(ready := s.ready + [e]);
    if s.recs[e].persist then q else RemoveWatch(q, e, i)
  }

  /** The slots from `i` on, while `n` readable descriptors are still to be found. */
  ghost function ScanReady<E>(s: State<E>, rfds: set<int>, n: int, i: nat): State<E>
    requires Known(s.recs, s.table) && i <= |s.table|
    decreases |s.table| - i
  {
    if i == |s.table| || n <= 0 then s
    else if ReadyAt(s, rfds, i) then
      ScanReady(QueueReady(s, i), rfds, n - 1, i + 1)
    else ScanReady(s, rfds, n, i + 1)
  }

  ghost function ProcessReadReadies<E>(s: State<E>, rfds: set<int>, n: int): State<E>
    requires Known(s.recs, s.table)
  {
    ScanReady(s, rfds, n, 0).(polled := false)
  }

  /** firePending takes the head off the pending list; its callback runs as later steps. */
  ghost function Fire<E>(s: State<E>): State<E>
    requires Pending(s) != []
  {
    if s.expired != [] then
      s.(expired := s.expired[1..], shots := s.shots + [s.expired[0]], shotAt := s.shotAt + [s.clock],
         fired := s.fired + [s.expired[0].ev])
    else
      s.(ready := s.ready[1..], fired := s.fired + [s.ready[0]])
  }

  /** calcNextTimeout: `None` blocks select indefinitely. */
  ghost function CalcNextTimeout<E>(s: State<E>, now: TimeVal): Option<TimeVal> {
    if s.timers == [] then None
    else if Before(now, s.timers[0].deadline) then Some(Minus(s.timers[0].deadline, now))
    else Some(ZERO)
  }

  // ---------- steps and runs ----------

  datatype Action<E> =
    | Set(ev: E, fd: int, persist: bool, func: int, param: int)
    | Add(ev: E)
    | Del(ev: E)
    | AddTimer(ev: E, delay: Option<TimeVal>, now: TimeVal)
    | Free(ev: E)

  datatype Step<E> =
    | Act(action: Action<E>)
    | Tick(now: TimeVal)
    | Timeouts(now: TimeVal)
    | Readies(rfds: set<int>, n: int)
    | FireNext

  /** The state in which one iteration of ril_event_loop starts firing: `fds` is what select returned,
      and `now` the clock reading of processTimeouts. */
  ghost function Polled<E>(s: State<E>, fds: set<int>, now: TimeVal): State<E>
    requires Known(s.recs, s.table)
  {
    ProcessReadReadies(ProcessTimeouts(s, now), fds, |fds|)
  }

  /** What ril_event.cpp relies on its callers for. No call may touch an event that is still queued,
      descriptors watched together are distinct, and the clock does not run backwards. */
  ghost predicate Permitted<E>(s: State<E>, a: Action<E>) {
    match a
    case Set(e, _, _, _, _) => !Queued(s, e) && !Watched(s, e)
    case Add(e) => e in s.recs && !Watched(s, e) && s.recs[e].fd >= 0 && s.recs[e].fd !in s.readFds
    case Del(e) => e in s.recs
    case AddTimer(e, delay, now) =>
      && e in s.recs && !Queued(s, e) && !Watched(s, e) && NotAfter(s.clock, now)
      && (delay.Some? ==> NonNegative(delay.value))
    case Free(e) => !Queued(s, e) && !Watched(s, e)
  }

  ghost predicate Enabled<E>(s: State<E>, step: Step<E>) {
    match step
    case Act(a) => Permitted(s, a)
    case Tick(now) => NotAfter(s.clock, now)
    case Timeouts(now) => !s.polled && Pending(s) == [] && NotAfter(s.clock, now)
    case Readies(_, _) => s.polled
    case FireNext => !s.polled && Pending(s) != []
  }

  ghost function Perform<E>(s: State<E>, a: Action<E>): State<E>
    requires Known(s.recs, s.table) && |s.table| == MAX_FD_EVENTS && Permitted(s, a)
  {
    match a
    case Set(e, fd, persist, func, param) => EventSet(s, e, fd, persist, func, param)
    case Add(e) => EventAdd(s, e)
    case Del(e) => EventDel(s, e)
    case AddTimer(e, delay, now) => TimerAdd(s, e, delay, now)
    case Free(e) => s.(recs := s.recs - {e})
  }

  ghost function Next<E>(s: State<E>, step: Step<E>): State<E>
    requires Known(s.recs, s.table) && |s.table| == MAX_FD_EVENTS && Enabled(s, step)
  {
    match step
    case Act(a) => Perform(s, a)
    case Tick(now) => s.(clock := now)
    case Timeouts(now) => ProcessTimeouts(s, now)
    case Readies(rfds, n) => ProcessReadReadies(s, rfds, n)
    case FireNext => Fire(s)
  }

  ghost predicate AllPermitted<E>(s: State<E>, script: seq<Action<E>>)
    decreases |script|
  {
    if script == [] then true else
    && Known(s.recs, s.table) && |s.table| == MAX_FD_EVENTS && Permitted(s, script[0])
    && AllPermitted(Perform(s, script[0]), script[1..])
  }

  /** The calls one callback makes, in turn. */
  ghost function PerformAll<E>(s: State<E>, script: seq<Action<E>>): State<E>
    requires AllPermitted(s, script)
    decreases |script|
  {
    if script == [] then s else PerformAll(Perform(s, script[0]), script[1..])
  }

  /** One callback for each pending event, each keeping to what is permitted when it runs. */
  ghost predicate Playable<E>(s: State<E>, scripts: seq<seq<Action<E>>>)
    decreases |scripts|
  {
    if scripts == [] then Pending(s) == [] else
      && Pending(s) != [] && AllPermitted(Fire(s), scripts[0])
      && Playable(PerformAll(Fire(s), scripts[0]), scripts[1..])
  }

  /** firePending, when its callbacks make the calls `scripts`. */
  ghost function FirePending<E>(s: State<E>, scripts: seq<seq<Action<E>>>): State<E>
    requires Playable(s, scripts)
    decreases |scripts|
  {
    if scripts == [] then s else FirePending(PerformAll(Fire(s), scripts[0]), scripts[1..])
  }

  // ---------- invariant ----------

  ghost predicate OnWatch<E>(recs: map<E, Rec>, older e: E) {
    e in recs && recs[e].index != -1
  }

  /** An event's `index` is its slot, and descriptors watched together are distinct. */
  ghost predicate TableInv<E>(s: State<E>) {
    && |s.table| == MAX_FD_EVENTS
    && Known(s.recs, s.table)
    && (forall i :: 0 <= i < |s.table| && s.table[i].Holds? ==> s.recs[s.table[i].ev].index == i)
    && (forall e :: OnWatch(s.recs, e) ==>
          0 <= s.recs[e].index < |s.table| && s.table[s.recs[e].index] == Holds(e) && s.recs[e].fd >= 0)
    && (forall e, e' :: OnWatch(s.recs, e) && OnWatch(s.recs, e') && e != e' ==> s.recs[e].fd != s.recs[e'].fd)
  }

  /** Some watched event has descriptor `fd`. */
  ghost predicate WatchesFd<E>(recs: map<E, Rec>, fd: int) {
    exists e :: OnWatch(recs, e) && recs[e].fd == fd
  }

  /** readFds and nfds are what the watch table says they are. */
  ghost predicate FdInv<E>(s: State<E>) {
    && (forall fd :: fd in s.readFds <==> WatchesFd(s.recs, fd))
    && (forall e :: OnWatch(s.recs, e) ==> s.recs[e].fd < s.nfds)
    && 0 <= s.nfds
    && (s.nfds <= 1 || WatchesFd(s.recs, s.nfds - 1))
  }

  ghost predicate Distinct<T>(s: seq<T>) {
    forall i, j :: 0 <= i < j < |s| ==> s[i] != s[j]
  }

  ghost predicate DuesMatch<E>(recs: map<E, Rec>, dues: seq<Due<E>>) {
    forall i :: 0 <= i < |dues| ==>
      && dues[i].ev in recs && recs[dues[i].ev].fd == -1
      && recs[dues[i].ev].timeout == dues[i].deadline
  }

  /** Every event is on at most one list, at most once, and each list knows its events. */
  ghost predicate ListInv<E>(s: State<E>) {
    && Distinct(Evs(s.timers) + Evs(s.expired) + s.ready)
    && DuesMatch(s.recs, s.timers) && DuesMatch(s.recs, s.expired)
    && (forall e :: e in s.ready ==> e in s.recs && s.recs[e].fd >= 0)
    && (s.polled ==> s.ready == [])
  }

  /** All timers ever added, in firing order: fired ones, expired ones, waiting ones. */
  ghost function Timeline<E>(s: State<E>): seq<Due<E>> {
    s.shots + s.expired + s.timers
  }

  ghost predicate Sorted<E>(dues: seq<Due<E>>) {
    forall i, j :: 0 <= i < j < |dues| ==> NotAfter(dues[i].deadline, dues[j].deadline)
  }

  ghost predicate AllBefore<E>(dues: seq<Due<E>>, clock: TimeVal) {
    forall i :: 0 <= i < |dues| ==> Before(dues[i].deadline, clock)
  }

  /** Each timer fired when the clock had passed its deadline. */
  ghost predicate FiredLate<E>(shots: seq<Due<E>>, shotAt: seq<TimeVal>, clock: TimeVal) {
    && |shotAt| == |shots|
    && forall i :: 0 <= i < |shots| ==> Before(shots[i].deadline, shotAt[i]) && NotAfter(shotAt[i], clock)
  }

  ghost predicate OrderInv<E>(s: State<E>) {
    && Sorted(Timeline(s))
    && AllBefore(s.expired, s.clock)
    && FiredLate(s.shots, s.shotAt, s.clock)
    && s.added == multiset(Timeline(s))
  }

  ghost predicate Inv<E>(s: State<E>) {
    TableInv(s) && FdInv(s) && ListInv(s) && OrderInv(s)
  }
}
