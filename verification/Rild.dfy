/** ril.cpp on top of the event loop: the connection to telephony, the ledger of pending requests and
    the wake lock. Every handler is one atomic step; what sockets, malloc and the clock return are inputs. */
module Rild {
  import opened Chains
  import opened EventModel
  import opened Time

  // TIMEVAL_WAKE_TIMEOUT
  const WAKE_TIMEOUT := TimeVal(0, 200000)

  // RIL_Errno, as far as the library itself produces it
  datatype Errno = Success | RadioNotAvailable | GenericFailure | OtherErrno(code: int)

  /** Watchers besides telephony's own pair: with the wakeup pipe they leave one slot of the table. */
  const OTHER_WATCHERS := 6

  /** The `ril_event`s of the daemon; a timer's lives in its heap-allocated UserCallbackInfo. */
  datatype Ev = WakeupEv | ListenEv | CommandsEv | OtherEv(k: nat) | TimerEv(addr: nat)

  datatype Callback = WakeTimeout | Vendor(id: int)

  // UserCallbackInfo
  datatype Info = Info(callback: Callback, userParam: int)

  datatype Wake = Wake(
    infos: map<nat, Info>,       // live UserCallbackInfos by address
    last: Option<nat>,           // s_last_wake_timeout_info
    lock: bool,                  // the partial wake lock
    lastAt: Option<TimeVal>,     // history: clock when the last waking message set its timer
    clean: bool)                 // history: grabbed, and no waking message failed to marshal since

  datatype Link = Link(
    fdListen: int,
    fdCommand: int,
    conn: nat)                   // history: connections accepted so far

  // RequestInfo, with the connection it came from and a number that is never reused
  datatype Request = Request(addr: nat, serial: nat, conn: nat, token: int, local: bool, cancelled: bool)

  datatype Response = Response(conn: nat, token: int, serial: Option<nat>, error: Errno)

  datatype Ledger = Ledger(
    pending: seq<Request>,       // s_pendingRequests
    next: nat,                   // history: serial of the next request
    received: set<(nat, int)>,   // history: tokens received, by connection
    responses: seq<Response>,    // history: solicited responses sent
    muted: set<nat>)             // history: serials of requests that were local or got cancelled

  datatype Ril = Ril(loop: State<Ev>, wake: Wake, link: Link, ledger: Ledger)

  /** What every call of the vendor RIL leaves alone: the watch table, the pending list and the
      connection, and all events and timers stay allocated. */
  ghost predicate Grows(r: Ril, t: Ril) {
    && t.loop.table == r.loop.table && t.link == r.link
    && t.loop.expired == r.loop.expired && t.loop.ready == r.loop.ready && t.loop.polled == r.loop.polled
    && (forall e :: e in r.loop.recs ==> e in t.loop.recs)
    && (forall a :: a in r.wake.infos ==> a in t.wake.infos)
  }

  // ---------- timers and the wake lock ----------

  /** internalRequestTimedCallback: malloc returns `addr`, the clock reads `now`. */
  ghost function RequestTimedCallback(r: Ril, callback: Callback, param: int, delay: Option<TimeVal>,
                                      addr: nat, now: TimeVal): (t: Ril)
    ensures Grows(r, t)
  {
    var relative := if delay.None? then ZERO else delay.value;
    var loop := EventSet(r.loop, TimerEv(addr), -1, false, 0, addr);
    r.(loop := TimerAdd(loop, TimerEv(addr), Some(relative), now),
       wake := r.wake.(infos := r.wake.infos[addr := Info(callback, param)]))
  }

  /** An unsolicited message: a known code, whether it wakes, whether its payload can be marshalled. */
  datatype Message = Message(known: bool, wakes: bool, marshals: bool, addr: nat, now: TimeVal)

  ghost function Grab(r: Ril, m: Message): Ril {
    if m.wakes then r.(wake := r.wake.(lock := true, clean := true)) else r
  }

  // error_exit
  ghost function GiveUp(r: Ril, m: Message): Ril {
    r.(wake := r.wake.(lock := r.wake.lock && !m.wakes, clean := r.wake.clean && !m.wakes))
  }

  /** Cancels the previous wake timer and sets the next one. */
  ghost function Reschedule(r: Ril, m: Message): (t: Ril)
    ensures Grows(r, t)
  {
    if !m.wakes then r else
      var infos := r.wake.infos;
      var cancelled := if r.wake.last.Some? && r.wake.last.value in infos
                       then infos[r.wake.last.value := infos[r.wake.last.value].(userParam := 1)] else infos;
      var t := RequestTimedCallback(r.(wake := r.wake.(infos := cancelled)), WakeTimeout, 0, Some(WAKE_TIMEOUT), m.addr, m.now);
      t.(wake := t.wake.(last := Some(m.addr), lastAt := Some(m.now)))
  }

  /** RIL_onUnsolicitedResponse for a message that makes no further messages. */
  ghost function Send(r: Ril, m: Message): (t: Ril)
    ensures Grows(r, t)
  {
    if !m.known then r
    else if !m.marshals then GiveUp(Grab(r, m), m)
    else Reschedule(Grab(r, m), m)
  }

  ghost function SendAll(r: Ril, ms: seq<Message>): (t: Ril)
    ensures Grows(r, t)
    decreases |ms|
  {
    if ms == [] then r else SendAll(Send(r, ms[0]), ms[1..])
  }

  /** RIL_onUnsolicitedResponse; a radio state change sends `nested` messages on its way. */
  ghost function OnUnsolicitedResponse(r: Ril, m: Message, nested: seq<Message>): (t: Ril)
    ensures Grows(r, t)
  {
    if !m.known then r
    else if !m.marshals then GiveUp(Grab(r, m), m)
    else Reschedule(SendAll(Grab(r, m), nested), m)
  }

  /** userTimerCallback, after its callback has made its calls. */
  ghost function TimerDone(r: Ril, addr: nat): Ril
    requires addr in r.wake.infos
  {
    var info := r.wake.infos[addr];
    r.(loop := r.loop.(recs := r.loop.recs - {TimerEv(addr)}),
       wake := r.wake.(
         infos := r.wake.infos - {addr},
         last := if r.wake.last == Some(addr) then None else r.wake.last,
         lock := r.wake.lock && !(info.callback.WakeTimeout? && info.userParam == 0)))
  }

  // ---------- the request ledger ----------

  ghost predicate Live(pending: seq<Request>, addr: nat) {
    exists i :: 0 <= i < |pending| && pending[i].addr == addr
  }

  /** Where the walk of checkAndDequeueRequestInfo stops. */
  ghost function IndexOf(pending: seq<Request>, addr: nat): (i: nat)
    ensures i <= |pending|
    ensures i < |pending| ==> pending[i].addr == addr
    ensures forall j :: 0 <= j < i ==> pending[j].addr != addr
  {
    if pending == [] || pending[0].addr == addr then 0 else 1 + IndexOf(pending[1..], addr)
  }

  /** RIL_onRequestComplete for the token at `addr`; `fits` when the reply is small enough to be sent. */
  ghost function OnRequestComplete(g: Ledger, link: Link, addr: nat, error: Errno, fits: bool): Ledger {
    var i := IndexOf(g.pending, addr);
    if i == |g.pending| then g else
      var q := g.pending[i];
      var answers := !q.local && !q.cancelled && link.fdCommand >= 0 && fits;
      g.(pending := Without(g.pending, i),
         responses := g.responses + if answers then [Response(link.conn, q.token, Some(q.serial), error)] else [])
  }

  /** A request enters the list at its head. */
  ghost function Enter(g: Ledger, link: Link, addr: nat, token: int, local: bool): Ledger {
    g.(pending := [Request(addr, g.next, link.conn, token, local, false)] + g.pending,
       next := g.next + 1,
       received := if local then g.received else g.received + {(link.conn, token)},
       muted := if local then g.muted + {g.next} else g.muted)
  }

  ghost function Cancelled(pending: seq<Request>): (r: seq<Request>)
    ensures |r| == |pending|
    ensures forall i :: 0 <= i < |r| ==> r[i] == pending[i].(cancelled := true)
  {
    seq(|pending|, i requires 0 <= i < |pending| => pending[i].(cancelled := true))
  }

  ghost function Serials(pending: seq<Request>): set<nat> {
    set i | 0 <= i < |pending| :: pending[i].serial
  }

  // onCommandsSocketClosed
  ghost function CancelAll(g: Ledger): Ledger {
    g.(pending := Cancelled(g.pending), muted := g.muted + Serials(g.pending))
  }

  // ---------- what the vendor RIL may do, on any thread or inside a callback ----------

  datatype Effect =
    | Completes(addr: nat, error: Errno, fits: bool)
    | Announces(m: Message, nested: seq<Message>)
    | Times(id: int, param: int, delay: Option<TimeVal>, addr: nat, now: TimeVal)

  ghost function Do(r: Ril, e: Effect): (t: Ril)
    ensures Grows(r, t)
  {
    match e
    case Completes(addr, error, fits) => r.(ledger := OnRequestComplete(r.ledger, r.link, addr, error, fits))
    case Announces(m, nested) => OnUnsolicitedResponse(r, m, nested)
    case Times(id, param, delay, addr, now) => RequestTimedCallback(r, Vendor(id), param, delay, addr, now)
  }

  ghost function DoAll(r: Ril, es: seq<Effect>): (t: Ril)
    ensures Grows(r, t)
    decreases |es|
  {
    if es == [] then r else DoAll(Do(r, es[0]), es[1..])
  }

  // ---------- requests and connections ----------

  /** A record off the command socket; dispatching a command runs vendor code. */
  datatype Record =
    | Malformed
    | Unsupported(token: int)
    | Command(token: int, addr: nat, effects: seq<Effect>)

  ghost function ProcessCommandBuffer(r: Ril, rec: Record): (t: Ril)
    ensures Grows(r, t)
  {
    match rec
    case Malformed => r
    case Unsupported(token) =>
      var g := r.ledger;
      r.(ledger := g.(
           received := g.received + {(r.link.conn, token)},
           responses := g.responses + if r.link.fdCommand >= 0
                                      then [Response(r.link.conn, token, None, GenericFailure)] else []))
    case Command(token, addr, effects) =>
      DoAll(r.(ledger := Enter(r.ledger, r.link, addr, token, false)), effects)
  }

  ghost function ProcessRecords(r: Ril, recs: seq<Record>): (t: Ril)
    ensures Grows(r, t)
    decreases |recs|
  {
    if recs == [] then r else ProcessRecords(ProcessCommandBuffer(r, recs[0]), recs[1..])
  }

  /** The end of processCommandsCallback on end-of-stream or a fatal error. */
  ghost function CloseCommands(r: Ril): Ril
    requires Known(r.loop.recs, r.loop.table) && |r.loop.table| == MAX_FD_EVENTS
    requires CommandsEv in r.loop.recs && ListenEv in r.loop.recs
  {
    r.(loop := EventAdd(EventDel(r.loop, CommandsEv), ListenEv),
       link := r.link.(fdCommand := -1),
       ledger := CancelAll(r.ledger))
  }

  // processCommandsCallback
  ghost function CommandsCallback(r: Ril, recs: seq<Record>, closes: bool): Ril
    requires Known(r.loop.recs, r.loop.table) && |r.loop.table| == MAX_FD_EVENTS
    requires CommandsEv in r.loop.recs && ListenEv in r.loop.recs
  {
    var t := ProcessRecords(r, recs);
    if closes then CloseCommands(t) else t
  }

  /** What accept returns, and whether the peer is the phone process; `greeting` are the messages
      and other effects of onNewCommandConnect. */
  datatype Accept = AcceptFailed | Stranger | Phone(fd: int, greeting: seq<Effect>)

  // listenCallback
  ghost function ListenCallback(r: Ril, a: Accept): Ril
    requires ListenEv in r.loop.recs
  {
    match a
    case AcceptFailed => r.(loop := EventAdd(r.loop, ListenEv))
    case Stranger => r.(loop := EventAdd(r.loop, ListenEv), ledger := CancelAll(r.ledger))
    case Phone(fd, greeting) => DoAll(Connected(r, fd), greeting)
  }

  ghost function Connected(r: Ril, fd: int): Ril {
    r.(loop := EventAdd(EventSet(r.loop, CommandsEv, fd, true, 0, 0), CommandsEv),
       link := r.link.(fdCommand := fd, conn := r.link.conn + 1))
  }

  // ---------- what is given to a step ----------

  /** malloc returns memory that is not in use, and the clock does not run backwards. */
  ghost predicate FreshTimer(r: Ril, addr: nat, now: TimeVal) {
    TimerEv(addr) !in r.loop.recs && NotAfter(r.loop.clock, now)
  }

  ghost predicate CanSend(r: Ril, m: Message) {
    m.known && m.marshals && m.wakes ==> FreshTimer(r, m.addr, m.now)
  }

  ghost predicate CanSendAll(r: Ril, ms: seq<Message>)
    decreases |ms|
  {
    ms == [] || (CanSend(r, ms[0]) && CanSendAll(Send(r, ms[0]), ms[1..]))
  }

  ghost predicate CanAnnounce(r: Ril, m: Message, nested: seq<Message>) {
    m.known && m.marshals ==> CanSendAll(Grab(r, m), nested) && CanSend(SendAll(Grab(r, m), nested), m)
  }

  ghost predicate CanDo(r: Ril, e: Effect) {
    match e
    case Completes(_, _, _) => true
    case Announces(m, nested) => CanAnnounce(r, m, nested)
    case Times(_, _, delay, addr, now) => FreshTimer(r, addr, now) && (delay.Some? ==> NonNegative(delay.value))
  }

  ghost predicate CanDoAll(r: Ril, es: seq<Effect>)
    decreases |es|
  {
    es == [] || (CanDo(r, es[0]) && CanDoAll(Do(r, es[0]), es[1..]))
  }

  ghost predicate CanProcess(r: Ril, rec: Record) {
    rec.Command? ==>
      && !Live(r.ledger.pending, rec.addr)
      && CanDoAll(r.(ledger := Enter(r.ledger, r.link, rec.addr, rec.token, false)), rec.effects)
  }

  ghost predicate CanProcessAll(r: Ril, recs: seq<Record>)
    decreases |recs|
  {
    recs == [] || (CanProcess(r, recs[0]) && CanProcessAll(ProcessCommandBuffer(r, recs[0]), recs[1..]))
  }

  /** accept returns a descriptor that is not open. */
  ghost predicate CanAccept(r: Ril, a: Accept) {
    a.Phone? ==>
      && a.fd >= 0 && a.fd !in r.loop.readFds && a.fd != r.link.fdListen
      && CanDoAll(Connected(r, a.fd), a.greeting)
  }
}
