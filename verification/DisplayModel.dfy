/** MultiDisplayComposer as values: what each operation makes of the display state, said declaratively, and
    the commands it issues on the way. */
module DisplayModel {

  /** The bits of mMode. */
  datatype Mode = Mode(
    mipiOn: bool,
    hdmiConnected: bool,
    hdmiOn: bool,
    clone: bool,
    videoExt: bool,
    widiOn: bool,
    videoPlaying: bool,
    hdcpOn: bool,
    overlayOff: bool)

  const NO_MODE := Mode(false, false, false, false, false, false, false, false, false)

  // What drm_hdmi_getConnectionStatus returns
  datatype Plug = Disconnected | HdmiConnected | DviConnected

  datatype MipiPolicy = MipiOffNotAllowed | MipiOffAllowed

  datatype HdmiPolicy = HdmiOnNotAllowed | HdmiOnAllowed

  // MDSVideoSourceInfo
  datatype VideoInfo = VideoInfo(
    isPlaying: bool, isProtected: bool, displayW: int, displayH: int, frameRate: int, isInterlaced: bool)

  const NO_VIDEO := VideoInfo(false, false, 0, 0, 0, false)

  const VIDEO_UNPREPARED := 4

  /** The fields of MultiDisplayComposer, once drm_init has succeeded. */
  datatype Display = Display(
    mode: Mode,
    mipiPolicy: MipiPolicy,
    hdmiPolicy: HdmiPolicy,
    mipiOn: bool,
    widiVideoExt: bool,
    connectStatus: Plug,
    video: VideoInfo,
    videoState: int)

  datatype Timing = ForClone | ForVideo(width: int, height: int, refresh: int)

  /** What goes out: to listeners, to the hardware, to the audio driver; and, noted among it, the videos that
      come in. */
  datatype Command =
    | VideoIs(video: VideoInfo)      // mVideo is set
    | ModeChange(mode: Mode)
    | VideoStatus(status: int)
    | SetTiming(timing: Timing)
    | SetModeInfo(width: int, height: int, refresh: int, interlace: int, ratio: int)
    | MipiSet(on: bool)
    | HdmiVideo(on: bool, succeeds: bool)
    | HdmiPowerOff(succeeds: bool)
    | HdmiGone(darkens: bool)        // drm_hdmi_onHdmiDisconnected, which frees the connector
    | HdcpEnable(succeeds: bool)
    | HdcpDisable(connected: bool)
    | AudioHotplug(plugged: bool)
    | ResetScaling

  /** What a call finds out: the cable, whether HDCP can be enabled and the HDMI output be switched, and whether
      the driver has stopped putting out a picture when it finds the cable gone, for which nobody asks it. */
  datatype Reading = Reading(plug: Plug, hdcp: bool, video: bool, darkens: bool)

  // ---------- setHdmiMode_l ----------

  predicate MayOn(d: Display, plug: Plug) {
    plug != Disconnected && d.hdmiPolicy == HdmiOnAllowed
  }

  /** The screen the call aims at is the one already shown. */
  predicate Already(d: Display) {
    if d.video.isPlaying then d.mode.videoExt else d.mode.clone
  }

  /** The declarative reading of setHdmiMode_l: every bit of the new mode from the cable, the policy and the video. */
  function SettledMode(d: Display, r: Reading): Mode {
    var on := MayOn(d, r.plug);
    Mode(
      d.mode.mipiOn || !(on && d.video.isPlaying),
      r.plug != Disconnected,
      on,
      on && !d.video.isPlaying,
      on && d.video.isPlaying,
      d.mode.widiOn,
      d.video.isPlaying,
      on && (if Already(d) then d.mode.hdcpOn else r.hdcp),
      if on then !d.video.isPlaying else r.plug != Disconnected && d.mode.overlayOff)
  }

  function Settle(d: Display, r: Reading): Display {
    var on, mode := MayOn(d, r.plug), SettledMode(d, r);
    d.(mode := mode,
       mipiPolicy := if !(on && d.video.isPlaying) then MipiOffNotAllowed
                     else if Already(d) then d.mipiPolicy else MipiOffAllowed,
       mipiOn := d.mipiOn || mode.mipiOn != d.mode.mipiOn,
       connectStatus := if !on && r.plug != Disconnected && d.mode.hdmiConnected then d.connectStatus else r.plug)
  }

  function If(b: bool, c: Command): seq<Command> {
    if b then [c] else []
  }

  /** Before the cable is looked at: the MIPI panel comes on unless a video goes out over HDMI. */
  function MipiUp(d: Display, plug: Plug): Mode {
    d.mode.(videoPlaying := d.video.isPlaying, mipiOn := d.mode.mipiOn || !(MayOn(d, plug) && d.video.isPlaying))
  }

  function WantedTiming(video: VideoInfo): Timing {
    if video.isPlaying then ForVideo(video.displayW, video.displayH, video.frameRate) else ForClone
  }

  /** The commands of setHdmiMode_l. */
  function HdmiCommands(d: Display, r: Reading): seq<Command> {
    var m := MipiUp(d, r.plug);
    If(m.mipiOn && !d.mode.mipiOn, MipiSet(true)) + CableCommands(d, r, m)
  }

  function CableCommands(d: Display, r: Reading, m: Mode): seq<Command> {
    if r.plug == Disconnected then UnplugCommands(d, r, m)
    else if d.hdmiPolicy == HdmiOnNotAllowed then SwitchOffCommands(d, r, m.(hdmiConnected := true))
    else if Already(d) then [ModeChange(m.(hdmiConnected := true))]
    else SwitchCommands(d, r, m.(hdmiConnected := true))
  }

  function UnplugCommands(d: Display, r: Reading, m: Mode): seq<Command> {
    if !d.mode.hdmiConnected then [ModeChange(m)]
    else [AudioHotplug(false), HdcpDisable(false), ModeChange(SettledMode(d, r)), HdmiGone(r.darkens)]
  }

  function SwitchOffCommands(d: Display, r: Reading, m: Mode): seq<Command> {
    If(d.connectStatus != r.plug && !d.mode.hdmiConnected, AudioHotplug(true)) +
    if !d.mode.hdmiOn then [ModeChange(m)]
    else If(d.mode.hdcpOn, HdcpDisable(true)) + [ModeChange(SettledMode(d, r)), HdmiVideo(false, r.video)]
  }

  function RenewCommands(d: Display, r: Reading): seq<Command> {
    If(d.mode.hdcpOn, HdcpDisable(true)) + [SetTiming(WantedTiming(d.video)), HdcpEnable(r.hdcp)]
  }

  /** The first half of a switch: listeners see a blank, HDCP is renewed, then the new screen. */
  function PrepareCommands(d: Display, r: Reading, m: Mode): seq<Command> {
    [ModeChange(m.(clone := false, videoExt := false, overlayOff := true))] +
    RenewCommands(d, r) +
    [ModeChange(SettledMode(d, r).(hdmiOn := d.mode.hdmiOn, overlayOff := true))]
  }

  /** The second half: HDMI comes on, the overlay if it may, and audio is told of a new cable. */
  function ShowCommands(d: Display, r: Reading): seq<Command> {
    var target := SettledMode(d, r);
    (if d.mode.hdmiOn then [] else [HdmiVideo(true, r.video), ModeChange(target.(overlayOff := true))]) +
    [ModeChange(target)] +
    If(!d.mode.hdmiConnected, AudioHotplug(true))
  }

  /** The switch between clone and extended video, by way of a mode that shows neither. */
  function SwitchCommands(d: Display, r: Reading, m: Mode): seq<Command> {
    PrepareCommands(d, r, m) + ShowCommands(d, r)
  }

  // ---------- the operations ----------

  datatype Policy = ForHdmi(hdmi: HdmiPolicy) | ForMipi(mipi: MipiPolicy) | Unknown

  datatype Op =
    | SetModePolicy(policy: Policy, reading: Reading)
    | SetMipiMode(on: bool)                                          // what threadLoop does on notifyMipi
    | PrepareForVideo(status: int, reading: Reading)
    | UpdateVideoInfo(info: VideoInfo, reading: Reading)
    | NotifyHotPlug(reading: Reading, deviceChanged: bool)
    | NotifyWidi(on: bool)
    | SetHdmiModeInfo(width: int, height: int, refresh: int, interlace: int, ratio: int)
    | SetHdmiPowerOff(succeeds: bool)

  /** setMipiMode_l leaves the panel alone unless switching off is allowed, and yet notes it as off. */
  predicate MayMipiOff(d: Display) {
    d.widiVideoExt || (d.mode.videoExt && d.mipiPolicy == MipiOffAllowed)
  }

  function MipiMode(d: Display, on: bool): Display {
    if d.mipiOn == on then d
    else if on then d.(mode := d.mode.(mipiOn := true), mipiOn := true)
    else if !d.widiVideoExt && !d.mode.videoExt then d
    else d.(mode := d.mode.(mipiOn := d.mode.mipiOn && !MayMipiOff(d)), mipiOn := false)
  }

  function MipiModeCommands(d: Display, on: bool): seq<Command> {
    if d.mipiOn == on then []
    else if on then [MipiSet(true)]
    else if !d.widiVideoExt && !d.mode.videoExt then [ModeChange(d.mode)]
    else If(MayMipiOff(d), MipiSet(false))
  }

  function ForcedMipi(d: Display, policy: MipiPolicy): Display {
    var on := policy == MipiOffNotAllowed;
    d.(mipiPolicy := policy, mode := d.mode.(mipiOn := on), mipiOn := on)
  }

  function ForcedMipiCommands(d: Display, policy: MipiPolicy): seq<Command> {
    var on := policy == MipiOffNotAllowed;
    If(d.mode.mipiOn != on, MipiSet(on)) + [ModeChange(d.mode.(mipiOn := on))]
  }

  /** The display after an operation. */
  function After(d: Display, op: Op): Display {
    match op
    case SetModePolicy(ForHdmi(hdmi), r) => Settle(d.(hdmiPolicy := hdmi), r)
    case SetModePolicy(ForMipi(mipi), _) => ForcedMipi(d, mipi)
    case SetModePolicy(Unknown, _) => d
    case SetMipiMode(on) => MipiMode(d, on)
    case PrepareForVideo(status, r) =>
      if d.videoState == status then d
      else if status == VIDEO_UNPREPARED then Settle(d.(videoState := status, video := NO_VIDEO), r)
      else d.(videoState := status)
    case UpdateVideoInfo(info, r) => Settle(d.(video := info), r)
    case NotifyHotPlug(r, _) => Settle(d, r)
    case NotifyWidi(on) => d.(widiVideoExt := on, mode := d.mode.(widiOn := on))
    case SetHdmiModeInfo(_, _, _, _, _) => d
    case SetHdmiPowerOff(_) => d
  }

  /** The commands an operation issues, in order. */
  function Commands(d: Display, op: Op): seq<Command> {
    match op
    case SetModePolicy(ForHdmi(hdmi), r) => HdmiCommands(d.(hdmiPolicy := hdmi), r)
    case SetModePolicy(ForMipi(mipi), _) => ForcedMipiCommands(d, mipi)
    case SetModePolicy(Unknown, _) => []
    case SetMipiMode(on) => MipiModeCommands(d, on)
    case PrepareForVideo(status, r) =>
      if d.videoState == status then []
      else if status == VIDEO_UNPREPARED then
        [VideoStatus(status), VideoIs(NO_VIDEO)] + HdmiCommands(d.(videoState := status, video := NO_VIDEO), r)
      else [VideoStatus(status)]
    case UpdateVideoInfo(info, r) => [VideoIs(info)] + HdmiCommands(d.(video := info), r)
    case NotifyHotPlug(r, changed) =>
      HdmiCommands(d, r) + If(changed && Settle(d, r).connectStatus == HdmiConnected, ResetScaling)
    case NotifyWidi(_) => []
    case SetHdmiModeInfo(w, h, refresh, interlace, ratio) =>
      [SetModeInfo(w, h, refresh, interlace, ratio), SetTiming(ForClone), ModeChange(d.mode)]
    case SetHdmiPowerOff(succeeds) => [HdmiPowerOff(succeeds)]
  }

  // ---------- startup ----------

  /** The constructor, before initialize_l; nothing sets mVideoState. */
  function Blank(videoState: int): Display {
    Display(NO_MODE, MipiOffNotAllowed, HdmiOnAllowed, true, false, Disconnected, NO_VIDEO, videoState)
  }

  /** initialize_l, when drm_init succeeds. */
  function Initialized(d: Display, hdmiSupported: bool, r: Reading): Display {
    ForcedMipi(if hdmiSupported then Settle(d, r) else d, MipiOffNotAllowed)
  }

  function InitCommands(d: Display, hdmiSupported: bool, r: Reading): seq<Command> {
    if hdmiSupported then HdmiCommands(d, r) + ForcedMipiCommands(Settle(d, r), MipiOffNotAllowed)
    else ForcedMipiCommands(d, MipiOffNotAllowed)
  }

  // ---------- invariant ----------

  /** The bits never contradict each other, whatever policy and video are about to be applied. */
  predicate BitInv(d: Display) {
    var m := d.mode;
    && (!m.hdmiConnected ==> d.connectStatus == Disconnected && !m.overlayOff && !m.hdmiOn)
    && (m.hdmiOn <==> m.clone || m.videoExt) && !(m.clone && m.videoExt)
    && (m.hdcpOn ==> m.hdmiOn)
    && (m.hdmiOn ==> (m.overlayOff <==> m.clone))
    && m.widiOn == d.widiVideoExt
  }

  /** They say what HDMI shows by the policy and the video. */
  predicate ModeInv(d: Display) {
    var m := d.mode;
    && BitInv(d)
    && (m.hdmiOn <==> m.hdmiConnected && d.hdmiPolicy == HdmiOnAllowed)
    && (m.videoExt <==> m.hdmiOn && d.video.isPlaying)
    && m.videoPlaying == d.video.isPlaying
  }
}
