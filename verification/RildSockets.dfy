/** The telephony socket of ril.cpp in place: its two descriptors, its two events on the heap's event loop, and
    the linked list of its requests, which together show a state of the daemon. Each method is what a handler does
    to them: they show the daemon's next state afterwards. */
module RildSockets {
  import opened EventHeap
  import opened EventLists
  import opened EventModel
  import opened EventNames
  import opened RequestList
  import opened Rild
  import opened RildLifecycle
  import opened RildProofs
  import opened RildTheorems
  import Time

  datatype Accepted = Failed | Unknown | PhoneOn(fd: int)

  /** The input of Rild's listenCallback; what onNewCommandConnect then sends is not the socket's business. */
  function InputOf(a: Accepted): Accept {
    match a
    case Failed => AcceptFailed
    case Unknown => Stranger
    case PhoneOn(fd) => Phone(fd, [])
  }

  /** SocketListenParam, with s_commands_event, s_listen_event and s_pendingRequests */
  class Socket {
    const fdListen: int
    var fdCommand: int
    const commandsEvent: Event
    const listenEvent: Event
    const events: RilEvents
    const requests: PendingRequests

    /** Where each of the daemon's events is in memory; malloc gives a timer at one address the same place. */
    ghost const names: map<Ev, Event>

    constructor (fdListen: int, commandsEvent: Event, listenEvent: Event, events: RilEvents, requests: PendingRequests,
                 ghost names: map<Ev, Event>)
      ensures this.fdListen == fdListen && fdCommand == -1
      ensures this.commandsEvent == commandsEvent && this.listenEvent == listenEvent
      ensures this.events == events && this.requests == requests && this.names == names
    {
      this.fdListen, fdCommand := fdListen, -1;
      this.commandsEvent, this.listenEvent, this.events, this.requests := commandsEvent, listenEvent, events, requests;
      this.names := names;
    }

    ghost predicate Wired() {
      && Injective(names) && names.Values <= events.memory
      && CommandsEv in names && names[CommandsEv] == commandsEvent
      && ListenEv in names && names[ListenEv] == listenEvent
    }

    /** The heap's event loop is `l` but for the names. */
    ghost predicate Loops(l: State<Ev>)
      reads events, events.watchTable, events.timerList, events.pendingList, events.memory
    {
      Wired() && events.Linked() && Same(l, events.st, names)
    }

    ghost predicate Lists(g: Ledger)
      reads requests, requests.chain
    {
      requests.Valid() && requests.g == g
    }

    /** The heap is the state `r` of the daemon, as far as telephony's socket goes. */
    ghost predicate Shows(r: Ril)
      reads this`fdCommand, requests, requests.chain
      reads events, events.watchTable, events.timerList, events.pendingList, events.memory
    {
      Loops(r.loop) && Lists(r.ledger) && fdListen == r.link.fdListen && fdCommand == r.link.fdCommand
    }

    /** ril_event_add of the listen event */
    method Listen(ghost l: State<Ev>, ghost g: Ledger)
      requires Loops(l) && Lists(g) && ListenEv in l.recs
      modifies events`st, events`readFds, events`nfds, events.watchTable, listenEvent`index
      ensures Loops(EventModel.EventAdd(l, ListenEv)) && Lists(g)
    {
      SameAdd(l, events.st, names, ListenEv);
      events.EventAdd(listenEvent);
    }

    /** listenCallback: the commands event is set up ... */
    method SetUp(fd: int, ghost l: State<Ev>)
      requires Loops(l) && !Queued(l, CommandsEv)
      modifies events`st, commandsEvent
      ensures Loops(EventModel.EventSet(l, CommandsEv, fd, true, 0, 0))
    {
      SameQueued(l, events.st, names, CommandsEv);
      SameRecsPlus(l.recs, events.st.recs, names, CommandsEv, Rec(fd, -1, true, Time.ZERO, 0, 0));
      assert commandsEvent in names.Values;
      events.EventSet(commandsEvent, fd, true, 0, 0);
    }

    /** ... and watched */
    method WatchCommands(ghost l: State<Ev>)
      requires Loops(l) && CommandsEv in l.recs
      modifies events`st, events`readFds, events`nfds, events.watchTable, commandsEvent`index
      ensures Loops(EventModel.EventAdd(l, CommandsEv))
    {
      SameAdd(l, events.st, names, CommandsEv);
      events.EventAdd(commandsEvent);
    }

    /** ril_event_del of the commands event */
    method Unwatch(ghost l: State<Ev>)
      requires Loops(l) && CommandsEv in l.recs && Known(l.recs, l.table) && |l.table| == MAX_FD_EVENTS
      modifies events`st, events`readFds, events`nfds, events.watchTable, commandsEvent`index
      ensures Loops(EventModel.EventDel(l, CommandsEv))
    {
      SameKnown(l.recs, events.st.recs, l.table, events.st.table, names);
      SameDel(l, events.st, names, CommandsEv);
      events.EventDel(commandsEvent);
    }

    method Connect(fd: int, ghost l: State<Ev>, ghost g: Ledger)
      requires Loops(l) && Lists(g) && !Queued(l, CommandsEv)
      modifies events`st, events`readFds, events`nfds, events.watchTable, commandsEvent
      ensures Loops(Watching(l, fd)) && Lists(g)
    {
      SetUp(fd, l);
      WatchCommands(EventModel.EventSet(l, CommandsEv, fd, true, 0, 0));
    }

    /** processCommandsCallback: the commands event goes, and the listen event comes back. */
    method HangUp(ghost l: State<Ev>, ghost g: Ledger)
      requires Loops(l) && Lists(g) && CommandsEv in l.recs && Known(l.recs, l.table) && |l.table| == MAX_FD_EVENTS
      requires ListenEv in EventModel.EventDel(l, CommandsEv).recs
      modifies events`st, events`readFds, events`nfds, events.watchTable, commandsEvent`index, listenEvent`index
      ensures Loops(EventModel.EventAdd(EventModel.EventDel(l, CommandsEv), ListenEv)) && Lists(g)
    {
      Unwatch(l);
      Listen(EventModel.EventDel(l, CommandsEv), g);
    }

    /** onCommandsSocketClosed, which leaves the loop alone */
    method Cancel(ghost l: State<Ev>, ghost g: Ledger)
      requires Loops(l) && Lists(g)
      modifies requests`g, requests.chain`item
      ensures Loops(l) && Lists(Rild.CancelAll(g))
    {
      requests.CancelAll();
    }

    /** listenCallback, for a stranger and when accept failed */
    method Refuse(stranger: bool, ghost r: Ril)
      requires Shows(r) && ListenEv in r.loop.recs
      modifies requests`g, requests.chain`item
      modifies events`st, events`readFds, events`nfds, events.watchTable, listenEvent`index
      ensures Shows(Rild.ListenCallback(r, if stranger then Stranger else AcceptFailed))
    {
      ghost var g := r.ledger;
      if stranger {
        Cancel(r.loop, g);
        g := Rild.CancelAll(g);
      }
      Listen(r.loop, g);
    }

    /** listenCallback, for the phone process */
    method Admit(fd: int, ghost r: Ril)
      requires Shows(r) && !Queued(r.loop, CommandsEv)
      modifies this`fdCommand, events`st, events`readFds, events`nfds, events.watchTable, commandsEvent
      ensures Shows(Connected(r, fd))
    {
      fdCommand := fd;
      Connect(fd, r.loop, r.ledger);
    }

    /** What accepting needs of the loop: CanListenNow shows that it is there. */
    ghost predicate Acceptable(l: State<Ev>) {
      !Queued(l, CommandsEv) && ListenEv in l.recs
    }

    lemma CanListenNow(r: Ril)
      requires CoreInv(r, None, false, true)
      ensures Acceptable(r.loop)
    {
      Unlisted(r.loop, r.link);
    }

    /** listenCallback, up to onNewCommandConnect; it runs while nothing of telephony's is watched */
    method ListenCallback(accepted: Accepted, ghost r: Ril)
      requires Shows(r) && Acceptable(r.loop)
      modifies this`fdCommand, requests`g, requests.chain`item
      modifies events`st, events`readFds, events`nfds, events.watchTable, commandsEvent, listenEvent`index
      ensures Shows(Rild.ListenCallback(r, InputOf(accepted)))
    {
      if accepted.PhoneOn? {
        AdmitIs(accepted.fd, r);
        Admit(accepted.fd, r);
      } else {
        Refuse(accepted.Unknown?, r);
      }
    }

    lemma AdmitIs(fd: int, r: Ril)
      requires ListenEv in r.loop.recs
      ensures Rild.ListenCallback(r, InputOf(PhoneOn(fd))) == Connected(r, fd)
    {
    }

    /** What closing needs of the loop: CanCloseNow shows that it is there. */
    ghost predicate Closable(l: State<Ev>) {
      && CommandsEv in l.recs && Known(l.recs, l.table) && |l.table| == MAX_FD_EVENTS
      && ListenEv in l.recs && ListenEv in EventModel.EventDel(l, CommandsEv).recs
    }

    lemma CanCloseNow(r: Ril)
      requires RilInv(r) && OnWatch(r.loop.recs, CommandsEv)
      ensures Closable(r.loop)
    {
    }

    /** processCommandsCallback: its end, on end-of-stream or a fatal error */
    method CloseCommands(ghost r: Ril)
      requires Shows(r) && Closable(r.loop)
      modifies this`fdCommand, requests`g, requests.chain`item
      modifies events`st, events`readFds, events`nfds, events.watchTable, commandsEvent`index, listenEvent`index
      ensures Shows(Rild.CloseCommands(r))
    {
      fdCommand := -1;
      HangUpAndCancel(r.loop, r.ledger);
    }

    method HangUpAndCancel(ghost l: State<Ev>, ghost g: Ledger)
      requires Loops(l) && Lists(g) && Closable(l)
      modifies requests`g, requests.chain`item
      modifies events`st, events`readFds, events`nfds, events.watchTable, commandsEvent`index, listenEvent`index
      ensures Loops(EventModel.EventAdd(EventModel.EventDel(l, CommandsEv), ListenEv)) && Lists(Rild.CancelAll(g))
    {
      HangUp(l, g);
      Cancel(EventModel.EventAdd(EventModel.EventDel(l, CommandsEv), ListenEv), g);
    }

    /** startListen: the listen event is set up ... */
    method SetUpListen(ghost l: State<Ev>)
      requires Loops(l) && !Queued(l, ListenEv)
      modifies events`st, listenEvent
      ensures Loops(EventModel.EventSet(l, ListenEv, fdListen, false, 0, 0))
    {
      SameQueued(l, events.st, names, ListenEv);
      SameRecsPlus(l.recs, events.st.recs, names, ListenEv, Rec(fdListen, -1, false, Time.ZERO, 0, 0));
      assert listenEvent in names.Values;
      events.EventSet(listenEvent, fdListen, false, 0, 0);
    }

    /** ... and watched, whatever other components have done to the loop: the daemon's start */
    method Register(ghost l: State<Ev>)
      requires Loops(l) && BeforeListen(l, fdListen) && fdCommand == -1 && Lists(Ledger([], 0, {}, [], {}))
      modifies events`st, events`readFds, events`nfds, events.watchTable, listenEvent
      ensures Shows(RilStart(l, fdListen))
    {
      BeforeListenInv(l, fdListen);
      QueuedIsKnown(l, ListenEv);
      SetUpListen(l);
      Listen(EventModel.EventSet(l, ListenEv, fdListen, false, 0, 0), Ledger([], 0, {}, [], {}));
    }

    /** RIL_onRequestComplete, which leaves the loop alone; `answer` is what it sends to telephony */
    method OnRequestComplete(addr: nat, error: Errno, fits: bool, ghost r: Ril) returns (answer: Option<Reply>)
      requires Shows(r)
      modifies requests, requests.chain`pNext
      ensures Shows(Do(r, Completes(addr, error, fits)))
      ensures answer.Some? <==> Do(r, Completes(addr, error, fits)).ledger.responses != r.ledger.responses
    {
      answer := requests.OnRequestComplete(addr, error, fits, fdCommand, r.link);
    }
  }
}
