/** What single calls of MultiDisplayComposer come to, said of their inputs and of what goes out. */
module DisplayLaws {
  import opened DisplayModel
  import opened DisplayProofs

  // ---------- the video ----------

  /** The video is the one last handed in, and none once it is unprepared; and it is noted as it comes in. */
  lemma VideoComesIn(d: Display, info: VideoInfo, status: int, r: Reading)
    ensures After(d, UpdateVideoInfo(info, r)).video == info && Commands(d, UpdateVideoInfo(info, r))[0] == VideoIs(info)
    ensures var t, cs := After(d, PrepareForVideo(status, r)), Commands(d, PrepareForVideo(status, r));
      && t.videoState == status
      && t.video == (if status == 4 && d.videoState != 4 then VideoInfo(false, false, 0, 0, 0, false) else d.video)
      && (status == 4 && d.videoState != 4 ==> |cs| > 1 && cs[1] == VideoIs(t.video))
  {
  }

  /** Nothing else is about the video. */
  lemma OthersKeepVideo(d: Display, op: Op)
    requires !op.UpdateVideoInfo? && !op.PrepareForVideo?
    ensures After(d, op).video == d.video && After(d, op).videoState == d.videoState
  {
  }

  predicate Says(commands: seq<Command>, c: Command) {
    exists i :: 0 <= i < |commands| && commands[i] == c
  }

  /** Nothing about the status of the video, and no scaling is reset. */
  predicate Plain(commands: seq<Command>) {
    forall i :: 0 <= i < |commands| ==> !commands[i].VideoStatus? && !commands[i].ResetScaling?
  }

  lemma PlainBoth(a: seq<Command>, b: seq<Command>)
    requires Plain(a) && Plain(b)
    ensures Plain(a + b)
  {
  }

  lemma SwitchIsPlain(d: Display, r: Reading, m: Mode)
    ensures Plain(SwitchCommands(d, r, m))
  {
    var blank, shown := ModeChange(m.(clone := false, videoExt := false, overlayOff := true)),
                        ModeChange(SettledMode(d, r).(hdmiOn := d.mode.hdmiOn, overlayOff := true));
    PlainBoth(If(d.mode.hdcpOn, HdcpDisable(true)), [SetTiming(WantedTiming(d.video)), HdcpEnable(r.hdcp)]);
    PlainBoth([blank], RenewCommands(d, r));
    PlainBoth([blank] + RenewCommands(d, r), [shown]);
    PlainBoth(PrepareCommands(d, r, m), ShowCommands(d, r));
  }

  lemma SwitchOffIsPlain(d: Display, r: Reading, m: Mode)
    ensures Plain(SwitchOffCommands(d, r, m))
  {
  }

  lemma HdmiIsPlain(d: Display, r: Reading)
    ensures Plain(HdmiCommands(d, r))
  {
    var m := MipiUp(d, r.plug);
    SwitchIsPlain(d, r, m.(hdmiConnected := true));
    SwitchOffIsPlain(d, r, m.(hdmiConnected := true));
    PlainBoth(If(m.mipiOn && !d.mode.mipiOn, MipiSet(true)), CableCommands(d, r, m));
  }

  /** A changed video status is told to listeners before anything else, and nothing else is told as one. */
  lemma StatusIsTold(d: Display, status: int, r: Reading)
    ensures var cs := Commands(d, PrepareForVideo(status, r));
      if d.videoState == status then cs == []
      else cs != [] && cs[0] == VideoStatus(status) && forall i :: 1 <= i < |cs| ==> !cs[i].VideoStatus?
  {
    var e := d.(videoState := status, video := NO_VIDEO);
    HdmiIsPlain(e, r);
  }

  // ---------- the panel ----------

  /** Once extended video is newly shown the panel may be switched off, and goes off. */
  lemma ExtendedVideoLetsPanelOff(d: Display, info: VideoInfo, r: Reading)
    requires ModeInv(d) && !d.mode.videoExt && d.hdmiPolicy == HdmiOnAllowed && r.plug != Disconnected && info.isPlaying
    ensures var t := After(d, UpdateVideoInfo(info, r));
      && t.mode.videoExt && t.mode.mipiOn == d.mode.mipiOn
      && (t.mipiOn ==> Commands(t, SetMipiMode(false)) == [MipiSet(false)] && !After(t, SetMipiMode(false)).mode.mipiOn)
  {
  }

  /** Whenever a call leaves no video on HDMI the panel is on, and cannot be switched off but for WiDi. */
  lemma PanelStaysOn(d: Display, op: Op, on: bool)
    requires ModeInv(d) && Settles(d, op) && !After(d, op).mode.videoExt && !d.widiVideoExt
    ensures var t := After(d, op);
      t.mode.mipiOn && t.mipiPolicy == MipiOffNotAllowed && !Says(Commands(t, SetMipiMode(on)), MipiSet(false))
      && After(t, SetMipiMode(on)).mode.mipiOn
  {
    SettledPanel(d, op);
  }

  lemma SettledPanel(d: Display, op: Op)
    requires ModeInv(d) && Settles(d, op) && !After(d, op).mode.videoExt
    ensures After(d, op).mode.mipiOn && After(d, op).mipiPolicy == MipiOffNotAllowed
    ensures After(d, op).widiVideoExt == d.widiVideoExt
  {
  }

  /** The panel is not switched off under anything but extended video or WiDi: listeners are told the mode again, and
      that is all. */
  lemma PanelOffIsRefused(d: Display)
    requires d.mipiOn && !d.widiVideoExt && !d.mode.videoExt
    ensures After(d, SetMipiMode(false)) == d && Commands(d, SetMipiMode(false)) == [ModeChange(d.mode)]
  {
  }

  /** A policy for MIPI takes effect at once, on the panel too, and listeners are told; extended video that goes on
      keeps it. */
  lemma MipiPolicyTakesEffect(d: Display, policy: MipiPolicy, r: Reading)
    ensures var t := After(d, SetModePolicy(ForMipi(policy), r));
      t.mipiPolicy == policy && t.mode.mipiOn == t.mipiOn == (policy == MipiOffNotAllowed)
    ensures var t := After(d, SetModePolicy(ForMipi(policy), r));
      Commands(d, SetModePolicy(ForMipi(policy), r)) ==
        (if d.mode.mipiOn != t.mode.mipiOn then [MipiSet(t.mode.mipiOn)] else []) + [ModeChange(t.mode)]
    ensures d.mode.videoExt && d.video.isPlaying && MayOn(d, r.plug) ==>
            After(d, NotifyHotPlug(r, false)).mipiPolicy == d.mipiPolicy
  {
  }

  /** WiDi is what it was last said to be, and lets the panel go off whatever else is shown. */
  lemma WidiLetsPanelOff(d: Display)
    requires d.mipiOn
    ensures var t := After(d, NotifyWidi(true));
      t.mode.widiOn && Commands(t, SetMipiMode(false)) == [MipiSet(false)] && !After(t, SetMipiMode(false)).mode.mipiOn
    ensures !After(d, NotifyWidi(false)).mode.widiOn
  {
  }

  // ---------- HDCP and the cable ----------

  /** HDCP on a screen that is newly shown is what enabling it came to; on one that stays, what it was. */
  lemma HdcpIsRenewed(d: Display, r: Reading)
    requires ModeInv(d)
    ensures var m := After(d, NotifyHotPlug(r, false)).mode;
      && ((m.clone && !d.mode.clone) || (m.videoExt && !d.mode.videoExt) ==> m.hdcpOn == r.hdcp)
      && ((m.clone && d.mode.clone) || (m.videoExt && d.mode.videoExt) ==> m.hdcpOn == d.mode.hdcpOn)
      && (!m.clone && !m.videoExt ==> !m.hdcpOn)
  {
  }

  /** The kind of cable is noted as found, except while HDMI is forbidden and was already noted as connected. */
  lemma CableIsNoted(d: Display, r: Reading)
    ensures After(d, NotifyHotPlug(r, false)).connectStatus ==
      if r.plug != Disconnected && d.hdmiPolicy == HdmiOnNotAllowed && d.mode.hdmiConnected then d.connectStatus else r.plug
  {
  }

  /** Scaling is reset exactly for a changed device on a cable noted as HDMI's, and then last of all. */
  lemma ResetIsLast(d: Display, r: Reading, changed: bool)
    ensures var cs := Commands(d, NotifyHotPlug(r, changed));
      && (Says(cs, ResetScaling) <==> changed && After(d, NotifyHotPlug(r, changed)).connectStatus == HdmiConnected)
      && (Says(cs, ResetScaling) ==> cs[|cs| - 1] == ResetScaling)
  {
    HdmiIsPlain(d, r);
    var reset := changed && Settle(d, r).connectStatus == HdmiConnected;
    var cs := HdmiCommands(d, r) + If(reset, ResetScaling);
    if reset {
      assert cs[|HdmiCommands(d, r)|] == ResetScaling;
    } else {
      assert cs == HdmiCommands(d, r);
    }
  }
}
