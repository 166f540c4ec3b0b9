/** What holds of the display over every run of operations from startup, and of the commands it issues. */
module DisplayProofs {
  import opened DisplayModel

  // ---------- what listeners and hardware have been told ----------

  /** What the last command of each kind said; `gone` when the cable went after the last one to the HDMI output;
      `output` is what that output came to, failures, power island and driver included; `asked` are the timings
      set since the last broadcast; `sound` while no command so far broke a rule of its kind. */
  datatype Seen = Seen(
    audio: bool, mipi: bool, hdmi: bool, gone: bool, hdcp: bool, output: bool, shown: Mode,
    video: VideoInfo, asked: seq<Timing>, sound: bool)

  const NOTHING_SEEN := Seen(false, false, false, false, false, false, NO_MODE, NO_VIDEO, [], true)

  predicate NewlyShows(before: Mode, m: Mode) {
    (m.clone && !before.clone) || (m.videoExt && !before.videoExt)
  }

  predicate Blanks(m: Mode) {
    !m.clone && !m.videoExt && m.overlayOff
  }

  /** A mode may be broadcast after another: never both screens, and a new one only after a blank. */
  predicate MayFollow(before: Mode, m: Mode) {
    !(m.clone && m.videoExt) && (NewlyShows(before, m) ==> Blanks(before))
  }

  /** The HDMI output was last commanded on, and the cable has not gone since. */
  predicate Showing(s: Seen) {
    s.hdmi && !s.gone
  }

  /** Since the last broadcast one timing was set: for extended video the video's own, for clone the one for that. */
  predicate Timed(s: Seen, m: Mode) {
    s.asked == [if m.videoExt then ForVideo(s.video.displayW, s.video.displayH, s.video.frameRate) else ForClone]
  }

  function See(s: Seen, c: Command): Seen {
    match c
    case VideoIs(video) => s.(video := video)
    case SetTiming(timing) => s.(asked := s.asked + [timing])
    case ModeChange(m) =>
      s.(shown := m, asked := [],
         sound := s.sound && MayFollow(s.shown, m) && (NewlyShows(s.shown, m) ==> Timed(s, m)))
    case MipiSet(on) => s.(mipi := on)
    case HdmiVideo(on, ok) =>
      s.(hdmi := on, gone := false, output := if ok then on else s.output, sound := s.sound && Showing(s) != on)
    case HdmiPowerOff(ok) => s.(output := s.output && !ok)
    case HdmiGone(darkens) => s.(gone := true, output := s.output && !darkens)
    case HdcpEnable(ok) => s.(hdcp := ok, sound := s.sound && !s.hdcp)
    case HdcpDisable(connected) => s.(hdcp := false, sound := s.sound && connected == s.audio)
    case AudioHotplug(plugged) => s.(audio := plugged, sound := s.sound && s.audio != plugged)
    case _ => s
  }

  lemma SeeHdmi(s: Seen, c: Command)
    ensures See(s, c).hdmi == if c.HdmiVideo? then c.on else s.hdmi
    ensures See(s, c).gone == (c.HdmiGone? || (s.gone && !c.HdmiVideo?))
  {
  }

  function Watch(s: Seen, commands: seq<Command>): Seen
    decreases |commands|
  {
    if commands == [] then s else Watch(See(s, commands[0]), commands[1..])
  }

  lemma {:induction false} WatchBoth(s: Seen, a: seq<Command>, b: seq<Command>)
    ensures Watch(s, a + b) == Watch(Watch(s, a), b)
    decreases |a|
  {
    if a == [] {
      assert a + b == b;
    } else {
      assert (a + b)[1..] == a[1..] + b;
      WatchBoth(See(s, a[0]), a[1..], b);
    }
  }

  /** The bits of the mode say what was last commanded of the panel, of HDCP and of audio, and for HDMI that its
      output was last commanded on and the cable has not gone since. Listeners were last shown that mode, but
      for the two bits that change without a broadcast. */
  predicate Tells(s: Seen, d: Display) {
    && s.sound
    && s.audio == d.mode.hdmiConnected && s.mipi == d.mode.mipiOn && Showing(s) == d.mode.hdmiOn && s.hdcp == d.mode.hdcpOn
    && s.shown.(mipiOn := d.mode.mipiOn, widiOn := d.mode.widiOn) == d.mode
    && s.video == d.video && s.asked == []
  }

  // ---------- one call of setHdmiMode_l ----------

  lemma SettleKeepsMode(d: Display, r: Reading)
    requires BitInv(d)
    ensures ModeInv(Settle(d, r))
  {
  }

  lemma WatchIf(s: Seen, b: bool, c: Command)
    ensures Watch(s, If(b, c)) == if b then See(s, c) else s
  {
    assert If(b, c) == [c] ==> If(b, c)[1..] == [];
  }

  lemma WatchOne(s: Seen, c: Command)
    ensures Watch(s, [c]) == See(s, c)
  {
  }

  lemma WatchTwo(s: Seen, c: Command, c': Command)
    ensures Watch(s, [c, c']) == See(See(s, c), c')
  {
    assert [c, c'][1..] == [c'];
    WatchOne(See(s, c), c');
  }

  /** What a call of setHdmiMode_l makes of the HDMI output. */
  predicate OutputAfter(output: bool, d: Display, r: Reading) {
    var on := MayOn(d, r.plug);
    if d.mode.hdmiConnected && r.plug == Disconnected then output && !r.darkens
    else if on != d.mode.hdmiOn && r.video then on
    else output
  }

  /** What is seen when MIPI has come up and the rest of setHdmiMode_l is still to be issued. */
  predicate TellsUp(s: Seen, d: Display, plug: Plug) {
    Tells(s, d.(mode := d.mode.(mipiOn := MipiUp(d, plug).mipiOn)))
  }

  lemma UnplugTells(s: Seen, d: Display, r: Reading)
    requires BitInv(d) && TellsUp(s, d, r.plug) && r.plug == Disconnected
    ensures Tells(Watch(s, UnplugCommands(d, r, MipiUp(d, r.plug))), Settle(d, r))
    ensures Watch(s, UnplugCommands(d, r, MipiUp(d, r.plug))).output == OutputAfter(s.output, d, r)
  {
    var m := MipiUp(d, r.plug);
    if !d.mode.hdmiConnected {
      WatchOne(s, ModeChange(m));
    } else {
      var target := SettledMode(d, r);
      var a, b := [AudioHotplug(false), HdcpDisable(false)], [ModeChange(target), HdmiGone(r.darkens)];
      assert UnplugCommands(d, r, m) == a + b;
      WatchBoth(s, a, b);
      WatchTwo(s, a[0], a[1]);
      WatchTwo(Watch(s, a), b[0], b[1]);
    }
  }

  lemma SwitchOffTells(s: Seen, d: Display, r: Reading)
    requires BitInv(d) && TellsUp(s, d, r.plug) && r.plug != Disconnected && d.hdmiPolicy == HdmiOnNotAllowed
    ensures Tells(Watch(s, SwitchOffCommands(d, r, MipiUp(d, r.plug).(hdmiConnected := true))), Settle(d, r))
    ensures Watch(s, SwitchOffCommands(d, r, MipiUp(d, r.plug).(hdmiConnected := true))).output == OutputAfter(s.output, d, r)
  {
    var m, target := MipiUp(d, r.plug).(hdmiConnected := true), SettledMode(d, r);
    var plug := d.connectStatus != r.plug && !d.mode.hdmiConnected;
    WatchIf(s, plug, AudioHotplug(true));
    var s1 := Watch(s, If(plug, AudioHotplug(true)));
    if !d.mode.hdmiOn {
      WatchBoth(s, If(plug, AudioHotplug(true)), [ModeChange(m)]);
      WatchOne(s1, ModeChange(m));
    } else {
      var off, b := If(d.mode.hdcpOn, HdcpDisable(true)), [ModeChange(target), HdmiVideo(false, r.video)];
      WatchBoth(s, If(plug, AudioHotplug(true)), off + b);
      WatchBoth(s1, off, b);
      WatchIf(s1, d.mode.hdcpOn, HdcpDisable(true));
      WatchTwo(Watch(s1, off), b[0], b[1]);
    }
  }

  lemma AlreadyTells(s: Seen, d: Display, r: Reading)
    requires BitInv(d) && TellsUp(s, d, r.plug) && MayOn(d, r.plug) && Already(d)
    ensures Tells(Watch(s, [ModeChange(MipiUp(d, r.plug).(hdmiConnected := true))]), Settle(d, r))
    ensures Watch(s, [ModeChange(MipiUp(d, r.plug).(hdmiConnected := true))]).output == OutputAfter(s.output, d, r)
  {
    WatchOne(s, ModeChange(MipiUp(d, r.plug).(hdmiConnected := true)));
  }

  lemma DropTells(s: Seen, d: Display)
    requires s.hdcp == d.mode.hdcpOn && (s.hdcp ==> s.audio)
    ensures Watch(s, If(d.mode.hdcpOn, HdcpDisable(true))) == s.(hdcp := false)
  {
    WatchIf(s, d.mode.hdcpOn, HdcpDisable(true));
  }

  lemma RetimeTells(s: Seen, timing: Timing, ok: bool)
    requires !s.hdcp && s.asked == []
    ensures Watch(s, [SetTiming(timing), HdcpEnable(ok)]) == s.(hdcp := ok, asked := [timing])
  {
    WatchTwo(s, SetTiming(timing), HdcpEnable(ok));
  }

  lemma RenewTells(s: Seen, d: Display, r: Reading)
    requires s.hdcp == d.mode.hdcpOn && (s.hdcp ==> s.audio) && s.asked == []
    ensures Watch(s, RenewCommands(d, r)) == s.(hdcp := r.hdcp, asked := [WantedTiming(d.video)])
  {
    var off, timing := If(d.mode.hdcpOn, HdcpDisable(true)), WantedTiming(d.video);
    WatchBoth(s, off, [SetTiming(timing), HdcpEnable(r.hdcp)]);
    DropTells(s, d);
    RetimeTells(s.(hdcp := false), timing, r.hdcp);
  }

  lemma BlankTells(s: Seen, d: Display, r: Reading, m: Mode)
    requires BitInv(d) && TellsUp(s, d, r.plug) && MayOn(d, r.plug) && !Already(d)
    ensures var t := Watch(s, PrepareCommands(d, r, m));
      t == s.(hdcp := r.hdcp, shown := SettledMode(d, r).(hdmiOn := d.mode.hdmiOn, overlayOff := true))
  {
    var blank := ModeChange(m.(clone := false, videoExt := false, overlayOff := true));
    var shown := ModeChange(SettledMode(d, r).(hdmiOn := d.mode.hdmiOn, overlayOff := true));
    var renew := RenewCommands(d, r);
    WatchBoth(s, [blank] + renew, [shown]);
    WatchBoth(s, [blank], renew);
    WatchOne(s, blank);
    RenewTells(See(s, blank), d, r);
    WatchOne(Watch(s, [blank] + renew), shown);
  }

  lemma ShowTells(s: Seen, d: Display, r: Reading)
    requires BitInv(d) && MayOn(d, r.plug) && !Already(d) && s.sound && s.mipi == SettledMode(d, r).mipiOn
    requires s.audio == d.mode.hdmiConnected && Showing(s) == d.mode.hdmiOn && s.hdcp == r.hdcp
    requires s.shown == SettledMode(d, r).(hdmiOn := d.mode.hdmiOn, overlayOff := true)
    requires s.video == d.video && s.asked == []
    ensures Tells(Watch(s, ShowCommands(d, r)), Settle(d, r))
    ensures Watch(s, ShowCommands(d, r)).output == OutputAfter(s.output, d, r)
  {
    var target := SettledMode(d, r);
    var on := [HdmiVideo(true, r.video), ModeChange(target.(overlayOff := true))];
    var onIf := if d.mode.hdmiOn then [] else on;
    WatchBoth(s, onIf + [ModeChange(target)], If(!d.mode.hdmiConnected, AudioHotplug(true)));
    WatchBoth(s, onIf, [ModeChange(target)]);
    WatchTwo(s, on[0], on[1]);
    WatchOne(Watch(s, onIf), ModeChange(target));
    WatchIf(Watch(s, onIf + [ModeChange(target)]), !d.mode.hdmiConnected, AudioHotplug(true));
  }

  lemma SwitchTells(s: Seen, d: Display, r: Reading)
    requires BitInv(d) && TellsUp(s, d, r.plug) && MayOn(d, r.plug) && !Already(d)
    ensures Tells(Watch(s, SwitchCommands(d, r, MipiUp(d, r.plug).(hdmiConnected := true))), Settle(d, r))
    ensures Watch(s, SwitchCommands(d, r, MipiUp(d, r.plug).(hdmiConnected := true))).output == OutputAfter(s.output, d, r)
  {
    var m := MipiUp(d, r.plug).(hdmiConnected := true);
    WatchBoth(s, PrepareCommands(d, r, m), ShowCommands(d, r));
    BlankTells(s, d, r, m);
    ShowTells(Watch(s, PrepareCommands(d, r, m)), d, r);
  }

  lemma CableTells(s: Seen, d: Display, r: Reading)
    requires BitInv(d) && TellsUp(s, d, r.plug)
    ensures Tells(Watch(s, CableCommands(d, r, MipiUp(d, r.plug))), Settle(d, r))
    ensures Watch(s, CableCommands(d, r, MipiUp(d, r.plug))).output == OutputAfter(s.output, d, r)
  {
    if r.plug == Disconnected {
      UnplugTells(s, d, r);
    } else if d.hdmiPolicy == HdmiOnNotAllowed {
      SwitchOffTells(s, d, r);
    } else if Already(d) {
      AlreadyTells(s, d, r);
    } else {
      SwitchTells(s, d, r);
    }
  }

  /** setHdmiMode_l: hardware, audio driver and listeners end up told exactly what the new mode says. */
  lemma SettleTells(s: Seen, d: Display, r: Reading)
    requires BitInv(d) && Tells(s, d)
    ensures Tells(Watch(s, HdmiCommands(d, r)), Settle(d, r))
    ensures Watch(s, HdmiCommands(d, r)).output == OutputAfter(s.output, d, r)
  {
    var m := MipiUp(d, r.plug);
    var up := If(m.mipiOn && !d.mode.mipiOn, MipiSet(true));
    WatchIf(s, m.mipiOn && !d.mode.mipiOn, MipiSet(true));
    WatchBoth(s, up, CableCommands(d, r, m));
    CableTells(Watch(s, up), d, r);
  }

  /** A second call that finds nothing changed changes nothing, and only repeats the mode to the listeners;
      whether HDCP could be enabled or the output switched does not matter any more. */
  lemma SecondCallIsIdle(d: Display, r: Reading, hdcp: bool, video: bool, darkens: bool)
    requires BitInv(d)
    ensures var t, r' := Settle(d, r), r.(hdcp := hdcp, video := video, darkens := darkens);
            Settle(t, r') == t && HdmiCommands(t, r') == [ModeChange(t.mode)]
  {
    SettleKeepsMode(d, r);
  }

  // ---------- every operation ----------

  lemma ForcedMipiTells(s: Seen, d: Display, policy: MipiPolicy)
    requires BitInv(d) && Tells(s, d)
    ensures Tells(Watch(s, ForcedMipiCommands(d, policy)), ForcedMipi(d, policy))
  {
    var on := policy == MipiOffNotAllowed;
    var up := If(d.mode.mipiOn != on, MipiSet(on));
    WatchBoth(s, up, [ModeChange(d.mode.(mipiOn := on))]);
    WatchIf(s, d.mode.mipiOn != on, MipiSet(on));
    WatchOne(Watch(s, up), ModeChange(d.mode.(mipiOn := on)));
  }

  lemma OpKeepsMode(d: Display, op: Op)
    requires ModeInv(d)
    ensures ModeInv(After(d, op))
  {
    match op
    case SetModePolicy(ForHdmi(hdmi), r) => SettleKeepsMode(d.(hdmiPolicy := hdmi), r);
    case PrepareForVideo(status, r) => SettleKeepsMode(d.(videoState := status, video := NO_VIDEO), r);
    case UpdateVideoInfo(info, r) => SettleKeepsMode(d.(video := info), r);
    case NotifyHotPlug(r, _) => SettleKeepsMode(d, r);
    case _ =>
  }

  lemma SettleKeepsPanel(d: Display, r: Reading)
    requires d.mipiOn ==> d.mode.mipiOn
    ensures Settle(d, r).mipiOn == Settle(d, r).mode.mipiOn <==> d.mipiOn == d.mode.mipiOn
  {
  }

  /** An attempt to switch MIPI off that the policy forbids while a video is shown; it is noted as a success. */
  predicate Spoils(d: Display, op: Op) {
    op == SetMipiMode(false) && d.mipiOn && d.mode.videoExt && !d.widiVideoExt && d.mipiPolicy == MipiOffNotAllowed
  }

  /** A call that sets the panel and its flag alike. */
  predicate Repairs(op: Op) {
    op == SetMipiMode(true) || (op.SetModePolicy? && op.policy.ForMipi?)
  }

  /** What the panel flag mMipiOn is worth: after a call it is the truth exactly if the call sets both, or it was
      the truth before and the call does not spoil it. */
  lemma PanelFlag(d: Display, op: Op)
    requires ModeInv(d) && (d.mipiOn ==> d.mode.mipiOn)
    ensures After(d, op).mipiOn == After(d, op).mode.mipiOn <==>
            Repairs(op) || (d.mipiOn == d.mode.mipiOn && !Spoils(d, op))
  {
    match op
    case SetModePolicy(ForHdmi(hdmi), r) => SettleKeepsPanel(d.(hdmiPolicy := hdmi), r);
    case PrepareForVideo(status, r) => SettleKeepsPanel(d.(videoState := status, video := NO_VIDEO), r);
    case UpdateVideoInfo(info, r) => SettleKeepsPanel(d.(video := info), r);
    case NotifyHotPlug(r, _) => SettleKeepsPanel(d, r);
    case _ =>
  }

  lemma HotPlugTells(s: Seen, d: Display, r: Reading, changed: bool)
    requires ModeInv(d) && Tells(s, d)
    ensures Tells(Watch(s, Commands(d, NotifyHotPlug(r, changed))), Settle(d, r))
    ensures Watch(s, Commands(d, NotifyHotPlug(r, changed))).output == OutputAfter(s.output, d, r)
  {
    SettleTells(s, d, r);
    HotPlugWatched(s, d, r, changed);
  }

  /** Resetting the scaling is none of what is watched for. */
  lemma HotPlugWatched(s: Seen, d: Display, r: Reading, changed: bool)
    ensures Watch(s, Commands(d, NotifyHotPlug(r, changed))) == Watch(s, HdmiCommands(d, r))
  {
    var reset := changed && Settle(d, r).connectStatus == HdmiConnected;
    WatchBoth(s, HdmiCommands(d, r), If(reset, ResetScaling));
    WatchIf(Watch(s, HdmiCommands(d, r)), reset, ResetScaling);
  }

  lemma PolicyTells(s: Seen, d: Display, hdmi: HdmiPolicy, r: Reading)
    requires ModeInv(d) && Tells(s, d)
    ensures var t := Watch(s, Commands(d, SetModePolicy(ForHdmi(hdmi), r)));
      Tells(t, Settle(d.(hdmiPolicy := hdmi), r)) && t.output == OutputAfter(s.output, d.(hdmiPolicy := hdmi), r)
  {
    SettleTells(s, d.(hdmiPolicy := hdmi), r);
  }

  lemma DroppedWatched(s: Seen, e: Display, status: int, r: Reading)
    ensures Watch(s, [VideoStatus(status), VideoIs(NO_VIDEO)] + HdmiCommands(e, r)) ==
            Watch(See(s, VideoIs(NO_VIDEO)), HdmiCommands(e, r))
  {
    WatchBoth(s, [VideoStatus(status), VideoIs(NO_VIDEO)], HdmiCommands(e, r));
    WatchTwo(s, VideoStatus(status), VideoIs(NO_VIDEO));
  }

  lemma UpdateTells(s: Seen, d: Display, info: VideoInfo, r: Reading)
    requires ModeInv(d) && Tells(s, d)
    ensures var t := Watch(s, Commands(d, UpdateVideoInfo(info, r)));
      Tells(t, Settle(d.(video := info), r)) && t.output == OutputAfter(s.output, d.(video := info), r)
  {
    WatchBoth(s, [VideoIs(info)], HdmiCommands(d.(video := info), r));
    WatchOne(s, VideoIs(info));
    SettleTells(See(s, VideoIs(info)), d.(video := info), r);
  }

  lemma PrepareTells(s: Seen, d: Display, status: int, r: Reading)
    requires ModeInv(d) && Tells(s, d)
    ensures Tells(Watch(s, Commands(d, PrepareForVideo(status, r))), After(d, PrepareForVideo(status, r)))
  {
    var e := d.(videoState := status, video := NO_VIDEO);
    WatchOne(s, VideoStatus(status));
    if d.videoState != status && status == VIDEO_UNPREPARED {
      DroppedWatched(s, e, status, r);
      SettleTells(See(s, VideoIs(NO_VIDEO)), e, r);
    }
  }

  lemma ModeInfoTells(s: Seen, d: Display, op: Op)
    requires ModeInv(d) && Tells(s, d) && op.SetHdmiModeInfo?
    ensures Tells(Watch(s, Commands(d, op)), d)
  {
    var c := Commands(d, op);
    assert c == [c[0], c[1]] + [c[2]];
    WatchBoth(s, [c[0], c[1]], [c[2]]);
    WatchTwo(s, c[0], c[1]);
    WatchOne(s, c[2]);
  }

  lemma MipiModeTells(s: Seen, d: Display, on: bool)
    requires ModeInv(d) && Tells(s, d) && (d.mipiOn ==> d.mode.mipiOn)
    ensures Tells(Watch(s, MipiModeCommands(d, on)), MipiMode(d, on))
  {
    WatchOne(s, MipiSet(true));
    WatchOne(s, ModeChange(d.mode));
    WatchIf(s, MayMipiOff(d), MipiSet(false));
  }

  lemma OpTells(s: Seen, d: Display, op: Op)
    requires ModeInv(d) && Tells(s, d) && (d.mipiOn ==> d.mode.mipiOn)
    ensures Tells(Watch(s, Commands(d, op)), After(d, op))
  {
    match op
    case SetModePolicy(ForHdmi(hdmi), r) => PolicyTells(s, d, hdmi, r);
    case SetModePolicy(ForMipi(mipi), _) => ForcedMipiTells(s, d, mipi);
    case SetMipiMode(on) => MipiModeTells(s, d, on);
    case PrepareForVideo(status, r) => PrepareTells(s, d, status, r);
    case UpdateVideoInfo(info, r) => UpdateTells(s, d, info, r);
    case NotifyHotPlug(r, changed) => HotPlugTells(s, d, r, changed);
    case SetHdmiModeInfo(_, _, _, _, _) => ModeInfoTells(s, d, op);
    case SetHdmiPowerOff(succeeds) => WatchOne(s, HdmiPowerOff(succeeds));
    case _ =>
  }

  // ---------- the HDMI output itself ----------

  /** What a call does to the HDMI output: nothing, or it switches it. */
  datatype Switched = Untouched | Lit | Dark

  /** The call reaches setHdmiMode_l. */
  predicate Settles(d: Display, op: Op) {
    match op
    case SetModePolicy(policy, _) => policy.ForHdmi?
    case PrepareForVideo(status, _) => d.videoState != status && status == VIDEO_UNPREPARED
    case UpdateVideoInfo(_, _) => true
    case NotifyHotPlug(_, _) => true
    case _ => false
  }

  function ReadingOf(d: Display, op: Op): Reading
    requires Settles(d, op)
  {
    match op
    case SetModePolicy(_, r) => r
    case PrepareForVideo(_, r) => r
    case UpdateVideoInfo(_, r) => r
    case NotifyHotPlug(r, _) => r
  }

  /** The call finds HDMI allowed, by the policy it may itself set, and the cable in. */
  predicate Lights(d: Display, op: Op)
    requires Settles(d, op)
  {
    var policy := if op.SetModePolicy? then op.policy.hdmi else d.hdmiPolicy;
    ReadingOf(d, op).plug != Disconnected && policy == HdmiOnAllowed
  }

  /** By what the call is given and finds, and the bits before it. */
  function SwitchedBy(d: Display, op: Op): Switched {
    if op == SetHdmiPowerOff(true) then Dark
    else if !Settles(d, op) then Untouched
    else
      var r := ReadingOf(d, op);
      if r.plug == Disconnected then if d.mode.hdmiConnected && r.darkens then Dark else Untouched
      else if Lights(d, op) == d.mode.hdmiOn || !r.video then Untouched
      else if Lights(d, op) then Lit else Dark
  }

  predicate Switch(output: bool, what: Switched) {
    if what == Untouched then output else what == Lit
  }

  lemma SettleSwitches(output: bool, d: Display, r: Reading)
    requires BitInv(d)
    ensures OutputAfter(output, d, r) == Switch(output, SwitchedBy(d, NotifyHotPlug(r, false)))
  {
  }

  lemma PrepareSwitches(s: Seen, d: Display, status: int, r: Reading)
    requires ModeInv(d) && Tells(s, d)
    ensures Watch(s, Commands(d, PrepareForVideo(status, r))).output ==
            Switch(s.output, SwitchedBy(d, PrepareForVideo(status, r)))
  {
    var e := d.(videoState := status, video := NO_VIDEO);
    WatchOne(s, VideoStatus(status));
    if d.videoState != status && status == VIDEO_UNPREPARED {
      DroppedWatched(s, e, status, r);
      SettleTells(See(s, VideoIs(NO_VIDEO)), e, r);
      SettleSwitches(s.output, e, r);
    }
  }

  lemma SeeOutput(s: Seen, c: Command)
    requires !c.HdmiVideo? && !c.HdmiPowerOff? && !c.HdmiGone?
    ensures See(s, c).output == s.output
  {
  }

  lemma {:induction false} NoVideoCommand(s: Seen, commands: seq<Command>)
    requires forall i :: 0 <= i < |commands| ==>
      !commands[i].HdmiVideo? && !commands[i].HdmiPowerOff? && !commands[i].HdmiGone?
    ensures Watch(s, commands).output == s.output
    decreases |commands|
  {
    if commands == [] {
    } else {
      SeeOutput(s, commands[0]);
      NoVideoCommand(See(s, commands[0]), commands[1..]);
    }
  }

  lemma PolicySwitches(s: Seen, d: Display, hdmi: HdmiPolicy, r: Reading)
    requires ModeInv(d) && Tells(s, d)
    ensures var op := SetModePolicy(ForHdmi(hdmi), r); Watch(s, Commands(d, op)).output == Switch(s.output, SwitchedBy(d, op))
  {
    PolicyTells(s, d, hdmi, r);
    SettleSwitches(s.output, d.(hdmiPolicy := hdmi), r);
  }

  lemma VideoSwitches(s: Seen, d: Display, info: VideoInfo, r: Reading)
    requires ModeInv(d) && Tells(s, d)
    ensures var op := UpdateVideoInfo(info, r); Watch(s, Commands(d, op)).output == Switch(s.output, SwitchedBy(d, op))
  {
    UpdateTells(s, d, info, r);
    SettleSwitches(s.output, d.(video := info), r);
  }

  lemma CableSwitches(s: Seen, d: Display, r: Reading, changed: bool)
    requires ModeInv(d) && Tells(s, d)
    ensures var op := NotifyHotPlug(r, changed); Watch(s, Commands(d, op)).output == Switch(s.output, SwitchedBy(d, op))
  {
    HotPlugTells(s, d, r, changed);
    SettleSwitches(s.output, d, r);
  }

  /** The other operations leave HDMI alone. */
  lemma OthersSwitchNothing(s: Seen, d: Display, op: Op)
    requires op.SetModePolicy? ==> !op.policy.ForHdmi?
    requires !op.PrepareForVideo? && !op.UpdateVideoInfo? && !op.NotifyHotPlug? && !op.SetHdmiPowerOff?
    ensures Watch(s, Commands(d, op)).output == s.output && SwitchedBy(d, op) == Untouched
  {
    NoVideoCommand(s, Commands(d, op));
  }

  /** Each call does to the output what its inputs and the bits before it say. */
  lemma OpSwitches(s: Seen, d: Display, op: Op)
    requires ModeInv(d) && Tells(s, d)
    ensures Watch(s, Commands(d, op)).output == Switch(s.output, SwitchedBy(d, op))
  {
    match op
    case SetModePolicy(ForHdmi(hdmi), r) => PolicySwitches(s, d, hdmi, r);
    case PrepareForVideo(status, r) => PrepareSwitches(s, d, status, r);
    case UpdateVideoInfo(info, r) => VideoSwitches(s, d, info, r);
    case NotifyHotPlug(r, changed) => CableSwitches(s, d, r, changed);
    case SetHdmiPowerOff(succeeds) => WatchOne(s, HdmiPowerOff(succeeds));
    case _ => OthersSwitchNothing(s, d, op);
  }

  /** The bit for HDMI goes on telling whether anything is put out, exactly unless the power is switched off
      under it, a switch of the output fails, or the driver goes on when a lit cable is pulled. */
  lemma OutputFlag(s: Seen, d: Display, op: Op)
    requires ModeInv(d) && Tells(s, d) && s.output == d.mode.hdmiOn
    ensures Watch(s, Commands(d, op)).output == After(d, op).mode.hdmiOn <==>
      && !(op == SetHdmiPowerOff(true) && d.mode.hdmiOn)
      && (Settles(d, op) && Lights(d, op) != d.mode.hdmiOn ==>
            var r := ReadingOf(d, op); if r.plug == Disconnected then r.darkens else r.video)
  {
    OpSwitches(s, d, op);
    OpLights(d, op);
  }

  lemma OpLights(d: Display, op: Op)
    requires ModeInv(d)
    ensures After(d, op).mode.hdmiOn == if Settles(d, op) then Lights(d, op) else d.mode.hdmiOn
  {
  }

  // ---------- runs ----------

  /** The display after a run of operations. */
  function AfterAll(d: Display, ops: seq<Op>): Display
    decreases |ops|
  {
    if ops == [] then d else AfterAll(After(d, ops[0]), ops[1..])
  }

  function AllCommands(d: Display, ops: seq<Op>): seq<Command>
    decreases |ops|
  {
    if ops == [] then [] else Commands(d, ops[0]) + AllCommands(After(d, ops[0]), ops[1..])
  }

  /** What is known between operations. */
  predicate DisplayInv(s: Seen, d: Display) {
    ModeInv(d) && Tells(s, d) && (d.mipiOn ==> d.mode.mipiOn)
  }

  lemma OpKeeps(s: Seen, d: Display, op: Op)
    requires DisplayInv(s, d)
    ensures DisplayInv(Watch(s, Commands(d, op)), After(d, op))
  {
    OpTells(s, d, op);
    OpKeepsMode(d, op);
  }

  lemma AllCommandsWatched(s: Seen, d: Display, ops: seq<Op>)
    requires ops != []
    ensures Watch(s, AllCommands(d, ops)) ==
            Watch(Watch(s, Commands(d, ops[0])), AllCommands(After(d, ops[0]), ops[1..]))
  {
    WatchBoth(s, Commands(d, ops[0]), AllCommands(After(d, ops[0]), ops[1..]));
  }

  lemma {:induction false} RunTells(s: Seen, d: Display, ops: seq<Op>)
    requires DisplayInv(s, d)
    ensures DisplayInv(Watch(s, AllCommands(d, ops)), AfterAll(d, ops))
    decreases |ops|
  {
    if ops == [] {
    } else {
      OpKeeps(s, d, ops[0]);
      AllCommandsWatched(s, d, ops);
      RunTells(Watch(s, Commands(d, ops[0])), After(d, ops[0]), ops[1..]);
    }
  }

  lemma StartTells(videoState: int, hdmiSupported: bool, r: Reading)
    ensures var d := Blank(videoState);
            DisplayInv(Watch(NOTHING_SEEN, InitCommands(d, hdmiSupported, r)), Initialized(d, hdmiSupported, r))
  {
    var d := Blank(videoState);
    if hdmiSupported {
      SettleTells(NOTHING_SEEN, d, r);
      SettleKeepsMode(d, r);
      WatchBoth(NOTHING_SEEN, HdmiCommands(d, r), ForcedMipiCommands(Settle(d, r), MipiOffNotAllowed));
      ForcedMipiTells(Watch(NOTHING_SEEN, HdmiCommands(d, r)), Settle(d, r), MipiOffNotAllowed);
    } else {
      ForcedMipiTells(NOTHING_SEEN, d, MipiOffNotAllowed);
    }
  }

  /** The display and everything it has issued, startup included. */
  function Final(videoState: int, hdmiSupported: bool, r: Reading, ops: seq<Op>): Display {
    AfterAll(Initialized(Blank(videoState), hdmiSupported, r), ops)
  }

  function Trace(videoState: int, hdmiSupported: bool, r: Reading, ops: seq<Op>): seq<Command> {
    var d := Blank(videoState);
    InitCommands(d, hdmiSupported, r) + AllCommands(Initialized(d, hdmiSupported, r), ops)
  }

  lemma TraceTells(videoState: int, hdmiSupported: bool, r: Reading, ops: seq<Op>)
    ensures DisplayInv(Watch(NOTHING_SEEN, Trace(videoState, hdmiSupported, r, ops)), Final(videoState, hdmiSupported, r, ops))
  {
    var d := Blank(videoState);
    StartTells(videoState, hdmiSupported, r);
    RunTells(Watch(NOTHING_SEEN, InitCommands(d, hdmiSupported, r)), Initialized(d, hdmiSupported, r), ops);
    WatchBoth(NOTHING_SEEN, InitCommands(d, hdmiSupported, r), AllCommands(Initialized(d, hdmiSupported, r), ops));
  }

  // ---------- the output over a run ----------

  function Switches(d: Display, ops: seq<Op>): seq<Switched>
    decreases |ops|
  {
    if ops == [] then [] else [SwitchedBy(d, ops[0])] + Switches(After(d, ops[0]), ops[1..])
  }

  /** The last of them that switches the output lights it. */
  predicate EndsLit(switches: seq<Switched>) {
    exists i: nat | i < |switches| :: LastLit(switches, i)
  }

  predicate NoneSwitch(switches: seq<Switched>) {
    forall i :: 0 <= i < |switches| ==> switches[i] == Untouched
  }

  predicate LastLit(switches: seq<Switched>, i: nat) {
    i < |switches| && switches[i] == Lit && forall j :: i < j < |switches| ==> switches[j] == Untouched
  }

  lemma LastLitPlus(first: Switched, rest: seq<Switched>, i: nat)
    ensures LastLit([first] + rest, i + 1) <==> LastLit(rest, i)
    ensures LastLit([first] + rest, 0) <==> first == Lit && NoneSwitch(rest)
  {
    var all := [first] + rest;
    assert all[0] == first && forall j :: 0 <= j < |rest| ==> all[j + 1] == rest[j];
  }

  lemma EndsLitPlus(first: Switched, rest: seq<Switched>)
    ensures EndsLit([first] + rest) <==> EndsLit(rest) || (first == Lit && NoneSwitch(rest))
  {
    var all := [first] + rest;
    LastLitPlus(first, rest, 0);
    if i: nat :| LastLit(rest, i) {
      LastLitPlus(first, rest, i);
    }
    if i: nat :| LastLit(all, i) {
      LastLitPlus(first, rest, if i == 0 then 0 else i - 1);
    }
  }

  lemma NoneSwitchPlus(first: Switched, rest: seq<Switched>)
    ensures NoneSwitch([first] + rest) <==> first == Untouched && NoneSwitch(rest)
  {
    var all := [first] + rest;
    assert all[0] == first && forall i :: 0 <= i < |rest| ==> all[i + 1] == rest[i];
  }

  lemma {:induction false} RunSwitches(s: Seen, d: Display, ops: seq<Op>)
    requires DisplayInv(s, d)
    ensures Watch(s, AllCommands(d, ops)).output <==>
            EndsLit(Switches(d, ops)) || (s.output && NoneSwitch(Switches(d, ops)))
    decreases |ops|
  {
    if ops == [] {
    } else {
      var t := Watch(s, Commands(d, ops[0]));
      OpKeeps(s, d, ops[0]);
      OpSwitches(s, d, ops[0]);
      AllCommandsWatched(s, d, ops);
      RunSwitches(t, After(d, ops[0]), ops[1..]);
      EndsLitPlus(SwitchedBy(d, ops[0]), Switches(After(d, ops[0]), ops[1..]));
      NoneSwitchPlus(SwitchedBy(d, ops[0]), Switches(After(d, ops[0]), ops[1..]));
    }
  }

  /** What startup does to the output. */
  function StartSwitch(hdmiSupported: bool, r: Reading): Switched {
    if hdmiSupported && r.plug != Disconnected && r.video then Lit else Untouched
  }

  lemma StartSwitches(videoState: int, hdmiSupported: bool, r: Reading)
    ensures Watch(NOTHING_SEEN, InitCommands(Blank(videoState), hdmiSupported, r)).output ==
            (StartSwitch(hdmiSupported, r) == Lit)
  {
    var d := Blank(videoState);
    var s := if hdmiSupported then Watch(NOTHING_SEEN, HdmiCommands(d, r)) else NOTHING_SEEN;
    var e := if hdmiSupported then Settle(d, r) else d;
    SettleTells(NOTHING_SEEN, d, r);
    WatchBoth(NOTHING_SEEN, HdmiCommands(d, r), ForcedMipiCommands(Settle(d, r), MipiOffNotAllowed));
    NoVideoCommand(s, ForcedMipiCommands(e, MipiOffNotAllowed));
  }

  /** From startup on, something is put out over HDMI exactly when the last call that switched the output, by
      a successful command, by power or by the cable, lit it. */
  lemma OutputIsLastSwitch(videoState: int, hdmiSupported: bool, r: Reading, ops: seq<Op>)
    ensures var d := Initialized(Blank(videoState), hdmiSupported, r);
      Watch(NOTHING_SEEN, Trace(videoState, hdmiSupported, r, ops)).output <==>
        EndsLit([StartSwitch(hdmiSupported, r)] + Switches(d, ops))
  {
    var b := Blank(videoState);
    var d := Initialized(b, hdmiSupported, r);
    StartTells(videoState, hdmiSupported, r);
    StartSwitches(videoState, hdmiSupported, r);
    RunSwitches(Watch(NOTHING_SEEN, InitCommands(b, hdmiSupported, r)), d, ops);
    WatchBoth(NOTHING_SEEN, InitCommands(b, hdmiSupported, r), AllCommands(d, ops));
    EndsLitPlus(StartSwitch(hdmiSupported, r), Switches(d, ops));
  }

  /** After startup and any operations, one more call of setHdmiMode_l leaves each bit as the cable, the
      policy and the video say. */
  lemma ModeIsDeclarative(videoState: int, hdmiSupported: bool, first: Reading, ops: seq<Op>, r: Reading)
    ensures var d := Final(videoState, hdmiSupported, first, ops);
            var m := After(d, NotifyHotPlug(r, false)).mode;
            var plugged, allowed, playing := r.plug != Disconnected, d.hdmiPolicy == HdmiOnAllowed, d.video.isPlaying;
      && (m.hdmiConnected <==> plugged)
      && (m.hdmiOn <==> plugged && allowed)
      && (m.videoExt <==> m.hdmiOn && playing)
      && (m.clone <==> m.hdmiOn && !playing)
      && (!(plugged && allowed && playing) ==> m.mipiOn)
      && (m.hdcpOn ==> m.hdmiOn)
      && (m.overlayOff ==> m.hdmiConnected && !m.videoExt) && (m.clone ==> m.overlayOff)
  {
    TraceTells(videoState, hdmiSupported, first, ops);
    SettleKeepsMode(Final(videoState, hdmiSupported, first, ops), r);
  }

  // ---------- the panel over a run ----------

  predicate NoneRepairs(ops: seq<Op>) {
    forall i :: 0 <= i < |ops| ==> !Repairs(ops[i])
  }

  /** Some call spoils the panel flag, and none repairs it later. */
  predicate Spoilt(d: Display, ops: seq<Op>)
    decreases |ops|
  {
    ops != [] && ((Spoils(d, ops[0]) && NoneRepairs(ops[1..])) || Spoilt(After(d, ops[0]), ops[1..]))
  }

  lemma {:induction false} PanelOverRun(s: Seen, d: Display, ops: seq<Op>)
    requires DisplayInv(s, d)
    ensures var t := AfterAll(d, ops);
      t.mipiOn == t.mode.mipiOn <==> !Spoilt(d, ops) && (d.mipiOn == d.mode.mipiOn || !NoneRepairs(ops))
    decreases |ops|
  {
    if ops == [] {
    } else {
      PanelFlag(d, ops[0]);
      OpKeeps(s, d, ops[0]);
      PanelOverRun(Watch(s, Commands(d, ops[0])), After(d, ops[0]), ops[1..]);
      assert NoneRepairs(ops) <==> !Repairs(ops[0]) && NoneRepairs(ops[1..]) by {
        assert forall i :: 0 <= i < |ops| - 1 ==> ops[1..][i] == ops[i + 1];
      }
    }
  }

  /** From startup on, mMipiOn says whether the panel is on exactly if no call has spoilt it since the last one
      that sets both. */
  lemma PanelIsLastRepair(videoState: int, hdmiSupported: bool, r: Reading, ops: seq<Op>)
    ensures var d := Final(videoState, hdmiSupported, r, ops);
      d.mipiOn == d.mode.mipiOn <==> !Spoilt(Initialized(Blank(videoState), hdmiSupported, r), ops)
  {
    StartTells(videoState, hdmiSupported, r);
    PanelOverRun(Watch(NOTHING_SEEN, InitCommands(Blank(videoState), hdmiSupported, r)),
                 Initialized(Blank(videoState), hdmiSupported, r), ops);
  }

  lemma AfterOne(d: Display, op: Op)
    ensures AfterAll(d, [op]) == After(d, op) && AllCommands(d, [op]) == Commands(d, op)
    ensures Switches(d, [op]) == [SwitchedBy(d, op)]
  {
    assert [op][1..] == [];
  }

  lemma AfterTwo(d: Display, a: Op, b: Op)
    ensures AfterAll(d, [a, b]) == After(After(d, a), b)
    ensures AllCommands(d, [a, b]) == Commands(d, a) + Commands(After(d, a), b)
    ensures Switches(d, [a, b]) == [SwitchedBy(d, a), SwitchedBy(After(d, a), b)]
  {
    assert [a, b][1..] == [b];
    AfterOne(After(d, a), b);
  }

  lemma AfterThree(d: Display, a: Op, b: Op, c: Op)
    ensures AfterAll(d, [a, b, c]) == After(After(After(d, a), b), c)
    ensures AllCommands(d, [a, b, c]) == Commands(d, a) + (Commands(After(d, a), b) + Commands(After(After(d, a), b), c))
    ensures Switches(d, [a, b, c]) ==
            [SwitchedBy(d, a), SwitchedBy(After(d, a), b), SwitchedBy(After(After(d, a), b), c)]
  {
    assert [a, b, c][1..] == [b, c];
    AfterTwo(After(d, a), b, c);
  }

  /** It can be spoilt: a video is shown, the policy comes to forbid it, and MIPI is switched off nevertheless. */
  lemma PanelFlagFails(videoState: int, r: Reading, info: VideoInfo)
    requires r.plug != Disconnected && info.isPlaying
    ensures var ops := [UpdateVideoInfo(info, r), SetModePolicy(ForMipi(MipiOffNotAllowed), r), SetMipiMode(false)];
            var d := Final(videoState, true, r, ops);
      d.mode.mipiOn && !d.mipiOn
  {
    var ops := [UpdateVideoInfo(info, r), SetModePolicy(ForMipi(MipiOffNotAllowed), r), SetMipiMode(false)];
    var d := Initialized(Blank(videoState), true, r);
    AfterThree(d, ops[0], ops[1], ops[2]);
  }

  // ---------- HDMI on that is not put out, and off that was never switched off ----------

  /** The bit for HDMI can be wrong: powered off, it goes on saying "on". */
  lemma OutputFlagFails(videoState: int, r: Reading)
    requires r.plug != Disconnected
    ensures var ops := [SetHdmiPowerOff(true)];
      Final(videoState, true, r, ops).mode.hdmiOn && !Watch(NOTHING_SEEN, Trace(videoState, true, r, ops)).output
  {
    var ops := [SetHdmiPowerOff(true)];
    var d := Initialized(Blank(videoState), true, r);
    AfterOne(d, ops[0]);
    OutputIsLastSwitch(videoState, true, r, ops);
    EndsLitPlus(StartSwitch(true, r), [Dark]);
    assert [Dark][0] == Dark;
  }

  predicate NeverOff(commands: seq<Command>) {
    forall i :: 0 <= i < |commands| ==> !commands[i].HdmiPowerOff? && (commands[i].HdmiVideo? ==> commands[i].on)
  }

  lemma NeverOffBoth(a: seq<Command>, b: seq<Command>)
    requires NeverOff(a) && NeverOff(b)
    ensures NeverOff(a + b)
  {
  }

  lemma CableNeverOff(d: Display, r: Reading, m: Mode)
    requires r.plug == Disconnected || d.hdmiPolicy == HdmiOnAllowed || !d.mode.hdmiOn
    ensures NeverOff(CableCommands(d, r, m))
  {
    var target := SettledMode(d, r);
    NeverOffBoth(PrepareCommands(d, r, m.(hdmiConnected := true)), ShowCommands(d, r));
  }

  /** setHdmiMode_l switches off only what is on, and only while the cable is in. */
  lemma HdmiNeverOff(d: Display, r: Reading)
    requires r.plug == Disconnected || d.hdmiPolicy == HdmiOnAllowed || !d.mode.hdmiOn
    ensures NeverOff(HdmiCommands(d, r))
  {
    var m := MipiUp(d, r.plug);
    CableNeverOff(d, r, m);
    NeverOffBoth(If(m.mipiOn && !d.mode.mipiOn, MipiSet(true)), CableCommands(d, r, m));
  }

  lemma {:induction false} NeverOffStaysOn(s: Seen, commands: seq<Command>)
    requires NeverOff(commands) && s.hdmi
    ensures Watch(s, commands).hdmi
    decreases |commands|
  {
    if commands == [] {
    } else {
      SeeHdmi(s, commands[0]);
      NeverOffStaysOn(See(s, commands[0]), commands[1..]);
    }
  }

  /** A cable that goes out and in again, with HDMI forbidden in between. */
  function Replugged(r: Reading, out: Reading): seq<Op> {
    [NotifyHotPlug(out, false), SetModePolicy(ForHdmi(HdmiOnNotAllowed), out), NotifyHotPlug(r, false)]
  }

  lemma ReplugNeverOff(d: Display, r: Reading, out: Reading)
    requires ModeInv(d) && d.mode.hdmiConnected && r.plug != Disconnected && out.plug == Disconnected
    ensures NeverOff(AllCommands(d, Replugged(r, out)))
    ensures var t := AfterAll(d, Replugged(r, out)); t.mode.hdmiConnected && !t.mode.hdmiOn
    ensures Switches(d, Replugged(r, out)) == [if out.darkens then Dark else Untouched, Untouched, Untouched]
  {
    var ops := Replugged(r, out);
    var d1 := After(d, ops[0]);
    var d2 := After(d1, ops[1]);
    AfterThree(d, ops[0], ops[1], ops[2]);
    HdmiNeverOff(d, out);
    HdmiNeverOff(d1.(hdmiPolicy := HdmiOnNotAllowed), out);
    HdmiNeverOff(d2, r);
    NeverOffBoth(Commands(d1, ops[1]), Commands(d2, ops[2]));
    NeverOffBoth(Commands(d, ops[0]), Commands(d1, ops[1]) + Commands(d2, ops[2]));
  }

  lemma StartIsOn(videoState: int, r: Reading)
    requires r.plug != Disconnected
    ensures var b := Blank(videoState);
      && NeverOff(InitCommands(b, true, r)) && Showing(Watch(NOTHING_SEEN, InitCommands(b, true, r)))
      && Initialized(b, true, r).mode.hdmiConnected
  {
    var b := Blank(videoState);
    StartTells(videoState, true, r);
    HdmiNeverOff(b, r);
    NeverOffBoth(HdmiCommands(b, r), ForcedMipiCommands(Settle(b, r), MipiOffNotAllowed));
  }

  lemma ReplugSwitches(first: Switched, darkens: bool)
    requires first != Dark
    ensures EndsLit([first] + [if darkens then Dark else Untouched, Untouched, Untouched]) <==> first == Lit && !darkens
  {
    var rest := [if darkens then Dark else Untouched, Untouched, Untouched];
    EndsLitPlus(first, rest);
    assert rest[0] == if darkens then Dark else Untouched;
    assert rest[1] == Untouched && rest[2] == Untouched;
  }

  /** The HDMI output can be off by the mode, with the cable in, without ever having been switched off: forbidden
      while the cable is out, it is not switched off when the cable comes back. Whether a picture is then put
      out is up to what the driver did when the cable went. */
  lemma OffIsNotCommanded(videoState: int, r: Reading, out: Reading)
    requires r.plug != Disconnected && out.plug == Disconnected
    ensures var d := Final(videoState, true, r, Replugged(r, out)); d.mode.hdmiConnected && !d.mode.hdmiOn
    ensures var trace := Trace(videoState, true, r, Replugged(r, out)); var seen := Watch(NOTHING_SEEN, trace);
      NeverOff(trace) && seen.hdmi && seen.gone && seen.output == (r.video && !out.darkens)
  {
    var b, ops := Blank(videoState), Replugged(r, out);
    var d := Initialized(b, true, r);
    var s := Watch(NOTHING_SEEN, InitCommands(b, true, r));
    StartTells(videoState, true, r);
    StartIsOn(videoState, r);
    ReplugNeverOff(d, r, out);
    NeverOffBoth(InitCommands(b, true, r), AllCommands(d, ops));
    WatchBoth(NOTHING_SEEN, InitCommands(b, true, r), AllCommands(d, ops));
    NeverOffStaysOn(s, AllCommands(d, ops));
    TraceTells(videoState, true, r, ops);
    OutputIsLastSwitch(videoState, true, r, ops);
    ReplugSwitches(StartSwitch(true, r), out.darkens);
  }

  // ---------- what that says about the trace ----------

  /** What has been seen when `j` commands are out. */
  function SeenAt(trace: seq<Command>, j: nat): Seen
    requires j <= |trace|
  {
    if j == 0 then NOTHING_SEEN else See(SeenAt(trace, j - 1), trace[j - 1])
  }

  lemma {:induction false} SeenAtIsWatch(trace: seq<Command>, j: nat)
    requires j <= |trace|
    ensures SeenAt(trace, j) == Watch(NOTHING_SEEN, trace[..j])
  {
    if j == 0 {
    } else {
      SeenAtIsWatch(trace, j - 1);
      assert trace[..j] == trace[..j - 1] + [trace[j - 1]];
      WatchBoth(NOTHING_SEEN, trace[..j - 1], [trace[j - 1]]);
      WatchOne(Watch(NOTHING_SEEN, trace[..j - 1]), trace[j - 1]);
    }
  }

  lemma SeeSound(s: Seen, c: Command)
    requires See(s, c).sound
    ensures s.sound
  {
  }

  lemma {:induction false} SoundBefore(trace: seq<Command>, j: nat, k: nat)
    requires j <= k <= |trace| && SeenAt(trace, k).sound
    ensures SeenAt(trace, j).sound
    decreases k - j
  {
    if j == k {
    } else {
      SeeSound(SeenAt(trace, k - 1), trace[k - 1]);
      SoundBefore(trace, j, k - 1);
    }
  }

  /** The end of the trace, and everything before it, is sound. */
  lemma WholeTrace(videoState: int, hdmiSupported: bool, r: Reading, ops: seq<Op>)
    ensures var trace := Trace(videoState, hdmiSupported, r, ops);
            DisplayInv(SeenAt(trace, |trace|), Final(videoState, hdmiSupported, r, ops))
  {
    var trace := Trace(videoState, hdmiSupported, r, ops);
    TraceTells(videoState, hdmiSupported, r, ops);
    SeenAtIsWatch(trace, |trace|);
    assert trace[..|trace|] == trace;
  }

  /** No command between `i` and `j` notifies audio. */
  predicate AudioQuiet(trace: seq<Command>, i: int, j: int) {
    forall k :: 0 <= k < |trace| && i < k < j ==> !trace[k].AudioHotplug?
  }

  lemma SeeAudio(s: Seen, c: Command)
    ensures See(s, c).audio == if c.AudioHotplug? then c.plugged else s.audio
  {
  }

  lemma {:induction false} AudioRemains(trace: seq<Command>, i: int, j: nat)
    requires -1 <= i <= j <= |trace| && (i >= 0 ==> i < j && trace[i].AudioHotplug?) && AudioQuiet(trace, i, j)
    ensures SeenAt(trace, j).audio == if i >= 0 then trace[i].plugged else SeenAt(trace, 0).audio
  {
    if j == 0 {
    } else {
      SeeAudio(SeenAt(trace, j - 1), trace[j - 1]);
      if i < j - 1 {
        AudioRemains(trace, i, j - 1);
      }
    }
  }

  lemma SeeSoundAudio(s: Seen, c: Command)
    requires See(s, c).sound && c.AudioHotplug?
    ensures s.audio != c.plugged
  {
  }

  lemma AudioDiffers(trace: seq<Command>, i: int, j: nat)
    requires SeenAt(trace, |trace|).sound && -1 <= i < j < |trace| && AudioQuiet(trace, i, j)
    requires trace[j].AudioHotplug? && (i >= 0 ==> trace[i].AudioHotplug?)
    ensures trace[j].plugged == if i >= 0 then !trace[i].plugged else true
  {
    SoundBefore(trace, j + 1, |trace|);
    SeeSoundAudio(SeenAt(trace, j), trace[j]);
    AudioRemains(trace, i, j);
  }

  /** Audio is told of plug and unplug in strict alternation, plug first. */
  lemma AudioAlternates(videoState: int, hdmiSupported: bool, r: Reading, ops: seq<Op>, i: int, j: nat)
    requires j < |Trace(videoState, hdmiSupported, r, ops)| && Trace(videoState, hdmiSupported, r, ops)[j].AudioHotplug?
    requires -1 <= i < j && AudioQuiet(Trace(videoState, hdmiSupported, r, ops), i, j)
    requires i >= 0 ==> Trace(videoState, hdmiSupported, r, ops)[i].AudioHotplug?
    ensures var trace := Trace(videoState, hdmiSupported, r, ops);
            trace[j].plugged == if i >= 0 then !trace[i].plugged else true
  {
    WholeTrace(videoState, hdmiSupported, r, ops);
    AudioDiffers(Trace(videoState, hdmiSupported, r, ops), i, j);
  }

  /** What audio was last told is what the mode says. */
  lemma AudioAgrees(videoState: int, hdmiSupported: bool, r: Reading, ops: seq<Op>, i: int)
    requires -1 <= i < |Trace(videoState, hdmiSupported, r, ops)|
    requires i >= 0 ==> Trace(videoState, hdmiSupported, r, ops)[i].AudioHotplug?
    requires AudioQuiet(Trace(videoState, hdmiSupported, r, ops), i, |Trace(videoState, hdmiSupported, r, ops)|)
    ensures Final(videoState, hdmiSupported, r, ops).mode.hdmiConnected ==
            (i >= 0 && Trace(videoState, hdmiSupported, r, ops)[i].plugged)
  {
    var trace := Trace(videoState, hdmiSupported, r, ops);
    WholeTrace(videoState, hdmiSupported, r, ops);
    AudioRemains(trace, i, |trace|);
  }

  /** No command between `i` and `j` is for the HDMI output. */
  predicate VideoQuiet(trace: seq<Command>, i: int, j: int) {
    forall k :: 0 <= k < |trace| && i < k < j ==> !trace[k].HdmiVideo?
  }

  /** The cable goes between `i` and `j`. */
  predicate GoneBetween(trace: seq<Command>, i: int, j: int) {
    exists k :: 0 <= k < |trace| && i < k < j && trace[k].HdmiGone?
  }

  lemma {:induction false} VideoRemains(trace: seq<Command>, i: int, j: nat)
    requires -1 <= i <= j <= |trace| && (i >= 0 ==> i < j && trace[i].HdmiVideo?) && VideoQuiet(trace, i, j)
    ensures SeenAt(trace, j).hdmi == if i >= 0 then trace[i].on else SeenAt(trace, 0).hdmi
    ensures SeenAt(trace, j).gone <==> GoneBetween(trace, i, j) || (i < 0 && SeenAt(trace, 0).gone)
  {
    if j == 0 {
    } else {
      SeeHdmi(SeenAt(trace, j - 1), trace[j - 1]);
      if i < j - 1 {
        VideoRemains(trace, i, j - 1);
        assert trace[j - 1].HdmiGone? ==> GoneBetween(trace, i, j);
      }
    }
  }

  /** HDMI is noted as on exactly if its output was last commanded on and the cable has not gone since; so what
      was last commanded is something else exactly if the cable has gone after a command to switch on. */
  lemma VideoAgrees(videoState: int, hdmiSupported: bool, r: Reading, ops: seq<Op>, i: int)
    requires -1 <= i < |Trace(videoState, hdmiSupported, r, ops)|
    requires i >= 0 ==> Trace(videoState, hdmiSupported, r, ops)[i].HdmiVideo?
    requires VideoQuiet(Trace(videoState, hdmiSupported, r, ops), i, |Trace(videoState, hdmiSupported, r, ops)|)
    ensures var trace, on := Trace(videoState, hdmiSupported, r, ops), Final(videoState, hdmiSupported, r, ops).mode.hdmiOn;
            var last, gone := i >= 0 && trace[i].on, GoneBetween(trace, i, |trace|);
      (on <==> last && !gone) && (last == on <==> !(last && gone))
  {
    var trace := Trace(videoState, hdmiSupported, r, ops);
    WholeTrace(videoState, hdmiSupported, r, ops);
    VideoRemains(trace, i, |trace|);
  }

  /** No command between `i` and `j` broadcasts a mode. */
  predicate ModeQuiet(trace: seq<Command>, i: int, j: int) {
    forall k :: 0 <= k < |trace| && i < k < j ==> !trace[k].ModeChange?
  }

  lemma SeeShown(s: Seen, c: Command)
    ensures See(s, c).shown == if c.ModeChange? then c.mode else s.shown
  {
  }

  lemma {:induction false} ShownRemains(trace: seq<Command>, i: int, j: nat)
    requires -1 <= i <= j <= |trace| && (i >= 0 ==> i < j && trace[i].ModeChange?) && ModeQuiet(trace, i, j)
    ensures SeenAt(trace, j).shown == if i >= 0 then trace[i].mode else SeenAt(trace, 0).shown
  {
    if j == 0 {
    } else {
      SeeShown(SeenAt(trace, j - 1), trace[j - 1]);
      if i < j - 1 {
        ShownRemains(trace, i, j - 1);
      }
    }
  }

  lemma SeeSoundMode(s: Seen, c: Command)
    requires See(s, c).sound && c.ModeChange?
    ensures MayFollow(s.shown, c.mode) && (NewlyShows(s.shown, c.mode) ==> Timed(s, c.mode))
  {
  }

  lemma ShownFollows(trace: seq<Command>, i: int, j: nat)
    requires SeenAt(trace, |trace|).sound && -1 <= i < j < |trace| && ModeQuiet(trace, i, j)
    requires trace[j].ModeChange? && (i >= 0 ==> trace[i].ModeChange?)
    ensures var before := if i >= 0 then trace[i].mode else NO_MODE;
      MayFollow(before, trace[j].mode) && (NewlyShows(before, trace[j].mode) ==> Timed(SeenAt(trace, j), trace[j].mode))
  {
    SoundBefore(trace, j + 1, |trace|);
    SeeSoundMode(SeenAt(trace, j), trace[j]);
    ShownRemains(trace, i, j);
  }

  /** Listeners were last shown the mode as it is, but for the two bits that change without a broadcast. */
  lemma ListenersAgree(videoState: int, hdmiSupported: bool, r: Reading, ops: seq<Op>, i: int)
    requires -1 <= i < |Trace(videoState, hdmiSupported, r, ops)|
    requires i >= 0 ==> Trace(videoState, hdmiSupported, r, ops)[i].ModeChange?
    requires ModeQuiet(Trace(videoState, hdmiSupported, r, ops), i, |Trace(videoState, hdmiSupported, r, ops)|)
    ensures var shown := if i >= 0 then Trace(videoState, hdmiSupported, r, ops)[i].mode else NO_MODE;
            var m := Final(videoState, hdmiSupported, r, ops).mode;
      && shown.hdmiConnected == m.hdmiConnected && shown.hdmiOn == m.hdmiOn && shown.clone == m.clone
      && shown.videoExt == m.videoExt && shown.videoPlaying == m.videoPlaying && shown.hdcpOn == m.hdcpOn
      && shown.overlayOff == m.overlayOff
  {
    var trace := Trace(videoState, hdmiSupported, r, ops);
    WholeTrace(videoState, hdmiSupported, r, ops);
    ShownRemains(trace, i, |trace|);
  }

  /** No broadcast shows both screens; and one that newly shows either directly follows a broadcast that
      shows neither, with the overlay off. The very first broadcast shows neither. */
  lemma BroadcastsSwitchThroughBlank(videoState: int, hdmiSupported: bool, r: Reading, ops: seq<Op>, i: int, j: nat)
    requires j < |Trace(videoState, hdmiSupported, r, ops)| && Trace(videoState, hdmiSupported, r, ops)[j].ModeChange?
    requires -1 <= i < j && ModeQuiet(Trace(videoState, hdmiSupported, r, ops), i, j)
    requires i >= 0 ==> Trace(videoState, hdmiSupported, r, ops)[i].ModeChange?
    ensures var trace := Trace(videoState, hdmiSupported, r, ops); var m := trace[j].mode;
      && !(m.clone && m.videoExt)
      && (if i < 0 then !m.clone && !m.videoExt else NewlyShows(trace[i].mode, m) ==> Blanks(trace[i].mode))
  {
    WholeTrace(videoState, hdmiSupported, r, ops);
    ShownFollows(Trace(videoState, hdmiSupported, r, ops), i, j);
  }

  // ---------- the timing a screen is shown with ----------

  /** The timings set between `i` and `j`. */
  function TimingsBetween(trace: seq<Command>, i: int, j: nat): seq<Timing>
    requires -1 <= i < j <= |trace|
    decreases j - i
  {
    if j - 1 == i then []
    else TimingsBetween(trace, i, j - 1) + if trace[j - 1].SetTiming? then [trace[j - 1].timing] else []
  }

  lemma SeeAsked(s: Seen, c: Command)
    ensures See(s, c).asked == if c.ModeChange? then [] else if c.SetTiming? then s.asked + [c.timing] else s.asked
    ensures See(s, c).video == if c.VideoIs? then c.video else s.video
  {
  }

  lemma {:induction false} AskedIsBetween(trace: seq<Command>, i: nat, j: nat)
    requires i < j <= |trace| && trace[i].ModeChange? && ModeQuiet(trace, i, j)
    ensures SeenAt(trace, j).asked == TimingsBetween(trace, i, j)
    decreases j - i
  {
    SeeAsked(SeenAt(trace, j - 1), trace[j - 1]);
    if j == i + 1 {
    } else {
      AskedIsBetween(trace, i, j - 1);
    }
  }

  lemma {:induction false} NoneBetween(trace: seq<Command>, i: int, j: nat)
    requires -1 <= i < j <= |trace| && TimingsBetween(trace, i, j) == []
    ensures forall k :: i < k < j ==> !trace[k].SetTiming?
    decreases j - i
  {
    if j == i + 1 {
    } else {
      NoneBetween(trace, i, j - 1);
    }
  }

  /** Exactly one timing is set between `i` and `j`: this one. */
  predicate OnlyTiming(trace: seq<Command>, i: int, j: int, timing: Timing) {
    exists k :: 0 <= k < |trace| && i < k < j && trace[k] == SetTiming(timing)
      && forall u :: 0 <= u < |trace| && i < u < j && u != k ==> !trace[u].SetTiming?
  }

  lemma {:induction false} OneBetween(trace: seq<Command>, i: int, j: nat, timing: Timing)
    requires -1 <= i < j <= |trace| && TimingsBetween(trace, i, j) == [timing]
    ensures OnlyTiming(trace, i, j, timing)
    decreases j - i
  {
    if j == i + 1 {
    } else if trace[j - 1].SetTiming? {
      var before := TimingsBetween(trace, i, j - 1);
      assert |before + [trace[j - 1].timing]| == |before| + 1;
      NoneBetween(trace, i, j - 1);
      assert trace[j - 1] == SetTiming(timing) by {
        assert (before + [trace[j - 1].timing])[0] == timing;
      }
    } else {
      OneBetween(trace, i, j - 1, timing);
    }
  }

  /** No video comes in between `v` and `j`. */
  predicate VideoStays(trace: seq<Command>, v: int, j: int) {
    forall k :: 0 <= k < |trace| && v < k < j ==> !trace[k].VideoIs?
  }

  lemma {:induction false} VideoIsLast(trace: seq<Command>, v: int, j: nat)
    requires -1 <= v <= j <= |trace| && (v >= 0 ==> v < j && trace[v].VideoIs?) && VideoStays(trace, v, j)
    ensures SeenAt(trace, j).video == if v >= 0 then trace[v].video else SeenAt(trace, 0).video
  {
    if j == 0 {
    } else {
      SeeAsked(SeenAt(trace, j - 1), trace[j - 1]);
      if v < j - 1 {
        VideoIsLast(trace, v, j - 1);
      }
    }
  }

  lemma StartsTimed(trace: seq<Command>, i: int, j: nat)
    requires SeenAt(trace, |trace|).sound && -1 <= i < j < |trace| && ModeQuiet(trace, i, j)
    requires trace[j].ModeChange? && (i >= 0 ==> trace[i].ModeChange?)
    requires i >= 0 && NewlyShows(trace[i].mode, trace[j].mode)
    ensures TimingsBetween(trace, i, j) == SeenAt(trace, j).asked && Timed(SeenAt(trace, j), trace[j].mode)
  {
    ShownFollows(trace, i, j);
    AskedIsBetween(trace, i, j);
  }

  /** From the blank to the broadcast that newly shows extended video exactly one timing is set: width, height and
      frame rate of the video that came in last. To the one that newly shows clone it is the timing for clone. */
  lemma ScreensAreTimed(videoState: int, hdmiSupported: bool, r: Reading, ops: seq<Op>, i: nat, j: nat, v: int)
    requires i < j < |Trace(videoState, hdmiSupported, r, ops)| && ModeQuiet(Trace(videoState, hdmiSupported, r, ops), i, j)
    requires var trace := Trace(videoState, hdmiSupported, r, ops);
      && trace[i].ModeChange? && trace[j].ModeChange? && NewlyShows(trace[i].mode, trace[j].mode)
      && -1 <= v < j && (v >= 0 ==> trace[v].VideoIs?) && VideoStays(trace, v, j)
    ensures var trace := Trace(videoState, hdmiSupported, r, ops);
      var video := if v >= 0 then trace[v].video else VideoInfo(false, false, 0, 0, 0, false);
      if trace[j].mode.videoExt then OnlyTiming(trace, i, j, ForVideo(video.displayW, video.displayH, video.frameRate))
      else trace[j].mode.clone && OnlyTiming(trace, i, j, ForClone)
  {
    var trace := Trace(videoState, hdmiSupported, r, ops);
    WholeTrace(videoState, hdmiSupported, r, ops);
    StartsTimed(trace, i, j);
    VideoIsLast(trace, v, j);
    OneBetween(trace, i, j, TimingsBetween(trace, i, j)[0]);
  }
}
