/** MultiDisplayComposer itself: its fields changed step by step, each operation proved against DisplayModel. */
module DisplayComposer {
  import opened DisplayModel
  import opened Sequences

  datatype Status = NoError | Error

  class MultiDisplayComposer {
    var mDrmInit: bool
    var mMode: Mode
    var mMipiPolicy: MipiPolicy
    var mHdmiPolicy: HdmiPolicy
    var mMipiOn: bool
    var mWidiVideoExt: bool
    var mConnectStatus: Plug
    var mVideo: VideoInfo
    var mVideoState: int

    /** Everything issued so far: to listeners, hardware and audio driver. */
    ghost var trace: seq<Command>

    function State(): Display
      reads this
    {
      Display(mMode, mMipiPolicy, mHdmiPolicy, mMipiOn, mWidiVideoExt, mConnectStatus, mVideo, mVideoState)
    }

    ghost method Issue(command: Command)
      modifies this`trace
      ensures trace == old(trace) + [command]
    {
      trace := trace + [command];
    }

    /** setHdmiMode_l: the common part before the cable decides */
    method UpdateVideoAndMipi(plug: Plug)
      modifies this`mMode, this`mMipiPolicy, this`mMipiOn, this`trace
      ensures mMode == MipiUp(old(State()), plug)
      ensures mMipiPolicy == if MayOn(State(), plug) && mVideo.isPlaying then old(mMipiPolicy) else MipiOffNotAllowed
      ensures mMipiOn == (old(mMipiOn) || mMode.mipiOn != old(mMode.mipiOn))
      ensures trace == old(trace) + If(mMode.mipiOn && !old(mMode.mipiOn), MipiSet(true))
    {
      NoteVideo();
      MaybeTurnOnMipi(plug);
    }

    /** setHdmiMode_l: the MIPI panel comes on unless a video goes out over HDMI */
    method MaybeTurnOnMipi(plug: Plug)
      modifies this`mMode, this`mMipiPolicy, this`mMipiOn, this`trace
      ensures mMode == old(mMode).(mipiOn := old(mMode).mipiOn || !(MayOn(State(), plug) && mVideo.isPlaying))
      ensures mMipiPolicy == if MayOn(State(), plug) && mVideo.isPlaying then old(mMipiPolicy) else MipiOffNotAllowed
      ensures mMipiOn == (old(mMipiOn) || mMode.mipiOn != old(mMode.mipiOn))
      ensures trace == old(trace) + If(mMode.mipiOn && !old(mMode.mipiOn), MipiSet(true))
    {
      if plug == Disconnected || mHdmiPolicy == HdmiOnNotAllowed || !mVideo.isPlaying {
        TurnOnMipi();
      }
    }

    /** setHdmiMode_l: its first statement */
    method NoteVideo()
      modifies this`mMode
      ensures mMode == old(mMode).(videoPlaying := mVideo.isPlaying)
    {
      if mVideo.isPlaying {
        mMode := mMode.(videoPlaying := true);
      } else {
        mMode := mMode.(videoPlaying := false);
      }
    }

    /** setHdmiMode_l: MIPI comes on if it is off */
    method TurnOnMipi()
      modifies this`mMode, this`mMipiPolicy, this`mMipiOn, this`trace
      ensures mMode == old(mMode).(mipiOn := true) && mMipiPolicy == MipiOffNotAllowed
      ensures mMipiOn == (old(mMipiOn) || !old(mMode).mipiOn)
      ensures trace == old(trace) + If(!old(mMode).mipiOn, MipiSet(true))
    {
      mMipiPolicy := MipiOffNotAllowed;
      if !mMode.mipiOn {
        Issue(MipiSet(true));
        mMode := mMode.(mipiOn := true);
        mMipiOn := true;
      }
    }

    /** setHdmiMode_l: the cable is out */
    method Unplugged(ghost d: Display, ghost r: Reading)
      requires BitInv(d) && r.plug == Disconnected && mMode == MipiUp(d, r.plug)
      requires State() == d.(mode := mMode, mipiPolicy := MipiOffNotAllowed, mipiOn := mMipiOn)
      requires mMipiOn == (d.mipiOn || mMode.mipiOn != d.mode.mipiOn)
      modifies this`mMode, this`mConnectStatus, this`trace
      ensures State() == Settle(d, r)
      ensures trace == old(trace) + UnplugCommands(d, r, old(mMode))
    {
      if !mMode.hdmiConnected {
        Issue(ModeChange(mMode));
        mConnectStatus := Disconnected;
        return;
      }
      Issue(AudioHotplug(false));
      Issue(HdcpDisable(false));
      mMode := mMode.(hdmiConnected := false, hdmiOn := false, hdcpOn := false);
      mMode := mMode.(clone := false, videoExt := false, overlayOff := false);
      Issue(ModeChange(mMode));
      Issue(HdmiGone(r.darkens));
      mConnectStatus := Disconnected;
    }

    /** setHdmiMode_l: the cable is in, and HDMI must stay dark */
    method SwitchOff(plug: Plug, audio: bool, video: bool, ghost d: Display, ghost r: Reading)
      requires BitInv(d) && r.plug == plug != Disconnected && r.video == video && d.hdmiPolicy == HdmiOnNotAllowed
      requires mMode == MipiUp(d, plug).(hdmiConnected := true) && audio == !d.mode.hdmiConnected
      requires State() == d.(mode := mMode, mipiPolicy := MipiOffNotAllowed, mipiOn := mMipiOn)
      requires mMipiOn == (d.mipiOn || mMode.mipiOn != d.mode.mipiOn)
      requires mDrmInit
      modifies this`mMode, this`mConnectStatus, this`trace
      ensures State() == Settle(d, r)
      ensures trace == old(trace) + SwitchOffCommands(d, r, old(mMode))
    {
      if mConnectStatus != plug && audio && mDrmInit {
        Issue(AudioHotplug(true));
        mConnectStatus := plug;
      }
      if !mMode.hdmiOn {
        Issue(ModeChange(mMode));
        return;
      }
      if mMode.hdcpOn {
        Issue(HdcpDisable(true));
      }
      mMode := mMode.(hdcpOn := false, hdmiOn := false, clone := false, videoExt := false);
      Issue(ModeChange(mMode));
      Issue(HdmiVideo(false, video));
    }

    /** setHdmiMode_l: before the mode changes, HDCP is switched off */
    method DropHdcp()
      modifies this`mMode, this`trace
      ensures mMode == old(mMode).(hdcpOn := false)
      ensures trace == old(trace) + If(old(mMode).hdcpOn, HdcpDisable(true))
    {
      if mMode.hdcpOn {
        Issue(HdcpDisable(true));
        mMode := mMode.(hdcpOn := false);
      }
    }

    /** setHdmiMode_l: the timing is set, and HDCP tried again */
    method Retime(hdcp: bool)
      requires !mMode.hdcpOn
      modifies this`mMode, this`trace
      ensures mMode == old(mMode).(hdcpOn := hdcp)
      ensures trace == old(trace) + [SetTiming(WantedTiming(mVideo)), HdcpEnable(hdcp)]
      ensures trace[|old(trace)|] == SetTiming(
        if mVideo.isPlaying then ForVideo(mVideo.displayW, mVideo.displayH, mVideo.frameRate) else ForClone)
    {
      var timing := ForClone;
      if mVideo.isPlaying {
        timing := ForVideo(mVideo.displayW, mVideo.displayH, mVideo.frameRate);
      }
      Issue(SetTiming(timing));
      Issue(HdcpEnable(hdcp));
      if hdcp {
        mMode := mMode.(hdcpOn := true);
      }
    }

    method Renew(hdcp: bool, ghost d: Display, ghost r: Reading)
      requires r.hdcp == hdcp && mVideo == d.video && mMode.hdcpOn == d.mode.hdcpOn
      modifies this`mMode, this`trace
      ensures mMode == old(mMode).(hdcpOn := hdcp) && trace == old(trace) + RenewCommands(d, r)
    {
      ghost var was := trace;
      DropHdcp();
      Retime(hdcp);
      Regrouped(was, If(d.mode.hdcpOn, HdcpDisable(true)), [SetTiming(WantedTiming(d.video)), HdcpEnable(hdcp)]);
    }

    /** setHdmiMode_l: a blank, then the screen that fits the video; HDMI and overlay as they were */
    method Prepare(hdcp: bool, ghost d: Display, ghost r: Reading)
      requires BitInv(d) && MayOn(d, r.plug) && !Already(d) && r.hdcp == hdcp && mVideo == d.video
      requires mMode == MipiUp(d, r.plug).(hdmiConnected := true)
      modifies this`mMode, this`mMipiPolicy, this`trace
      ensures mMode == SettledMode(d, r).(hdmiOn := d.mode.hdmiOn, overlayOff := true)
      ensures mMipiPolicy == if mVideo.isPlaying then MipiOffAllowed else old(mMipiPolicy)
      ensures trace == old(trace) + PrepareCommands(d, r, old(mMode))
    {
      var transitionalMode := mMode.(clone := false, videoExt := false);
      transitionalMode := transitionalMode.(overlayOff := true);
      Issue(ModeChange(transitionalMode));
      Renew(hdcp, d, r);
      mMode := mMode.(overlayOff := true);
      if mVideo.isPlaying {
        mMode := mMode.(videoExt := true, clone := false);
        mMipiPolicy := MipiOffAllowed;
      } else {
        mMode := mMode.(videoExt := false, clone := true);
      }
      Issue(ModeChange(mMode));
    }

    /** setHdmiMode_l: HDMI comes on, then the overlay, and audio is told */
    method Show(audio: bool, video: bool, ghost d: Display, ghost r: Reading)
      requires BitInv(d) && MayOn(d, r.plug) && audio == !d.mode.hdmiConnected && r.video == video && mDrmInit
      requires mMode == SettledMode(d, r).(hdmiOn := d.mode.hdmiOn, overlayOff := true)
      modifies this`mMode, this`trace
      ensures mMode == SettledMode(d, r)
      ensures trace == old(trace) + ShowCommands(d, r)
    {
      if !mMode.hdmiOn {
        Issue(HdmiVideo(true, video));
        mMode := mMode.(hdmiOn := true);
        Issue(ModeChange(mMode));
      }
      if mMode.videoExt {
        mMode := mMode.(overlayOff := false);
      }
      Issue(ModeChange(mMode));
      if audio && mDrmInit {
        Issue(AudioHotplug(true));
      }
    }

    /** setHdmiMode_l: the cable is in, and HDMI may show something */
    method SwitchOn(plug: Plug, hdcp: bool, video: bool, audio: bool, ghost d: Display, ghost r: Reading)
      requires BitInv(d) && MayOn(d, plug) && r.plug == plug && r.hdcp == hdcp && r.video == video && audio == !d.mode.hdmiConnected
      requires mMode == MipiUp(d, plug).(hdmiConnected := true)
      requires State() == d.(mode := mMode, mipiOn := mMipiOn,
                             mipiPolicy := if d.video.isPlaying then d.mipiPolicy else MipiOffNotAllowed)
      requires mMipiOn == (d.mipiOn || mMode.mipiOn != d.mode.mipiOn)
      requires mDrmInit
      modifies this`mMode, this`mMipiPolicy, this`mConnectStatus, this`trace
      ensures State() == Settle(d, r)
      ensures trace == old(trace) + if Already(d) then [ModeChange(old(mMode))] else SwitchCommands(d, r, old(mMode))
    {
      mConnectStatus := plug;
      if mVideo.isPlaying && mMode.videoExt {
        Issue(ModeChange(mMode));
        return;
      } else if !mVideo.isPlaying && mMode.clone {
        Issue(ModeChange(mMode));
        return;
      }
      Prepare(hdcp, d, r);
      Show(audio, video, d, r);
    }

    /** setHdmiMode_l: what the cable decides */
    method ByCable(plug: Plug, hdcp: bool, video: bool, ghost d: Display, ghost r: Reading)
      requires BitInv(d) && r.plug == plug && r.hdcp == hdcp && r.video == video && mDrmInit && mMode == MipiUp(d, plug)
      requires State() == d.(mode := mMode, mipiOn := mMipiOn,
                             mipiPolicy := if MayOn(d, plug) && d.video.isPlaying then d.mipiPolicy else MipiOffNotAllowed)
      requires mMipiOn == (d.mipiOn || mMode.mipiOn != d.mode.mipiOn)
      modifies this`mMode, this`mMipiPolicy, this`mConnectStatus, this`trace
      ensures State() == Settle(d, r)
      ensures trace == old(trace) + CableCommands(d, r, old(mMode))
    {
      if plug == Disconnected {
        Unplugged(d, r);
        return;
      }
      var audio := !mMode.hdmiConnected;
      mMode := mMode.(hdmiConnected := true);
      if mHdmiPolicy == HdmiOnNotAllowed {
        SwitchOff(plug, audio, video, d, r);
        return;
      }
      SwitchOn(plug, hdcp, video, audio, d, r);
    }

    /** setHdmiMode_l; `plug`, `hdcp` and `video` are what the cable, drm_hdcp_enable_hdcp and the switching of
        the HDMI output answer */
    method SetHdmiMode(plug: Plug, hdcp: bool, video: bool, ghost darkens: bool)
      requires BitInv(State()) && mDrmInit
      modifies this`mMode, this`mMipiPolicy, this`mMipiOn, this`mConnectStatus, this`trace
      ensures State() == Settle(old(State()), Reading(plug, hdcp, video, darkens))
      ensures trace == old(trace) + HdmiCommands(old(State()), Reading(plug, hdcp, video, darkens))
    {
      ghost var d, r, was := State(), Reading(plug, hdcp, video, darkens), trace;
      UpdateVideoAndMipi(plug);
      ghost var m := mMode;
      ByCable(plug, hdcp, video, d, r);
      Regrouped(was, If(m.mipiOn && !d.mode.mipiOn, MipiSet(true)), CableCommands(d, r, m));
    }

    /** setModePolicy_l: MIPI is switched at once */
    method ForceMipi(policy: MipiPolicy)
      modifies this`mMode, this`mMipiPolicy, this`mMipiOn, this`trace
      ensures State() == ForcedMipi(old(State()), policy)
      ensures trace == old(trace) + ForcedMipiCommands(old(State()), policy)
    {
      mMipiPolicy := policy;
      if policy == MipiOffNotAllowed {
        if !mMode.mipiOn {
          Issue(MipiSet(true));
        }
        mMode := mMode.(mipiOn := true);
        mMipiOn := true;
      } else {
        if mMode.mipiOn {
          Issue(MipiSet(false));
        }
        mMode := mMode.(mipiOn := false);
        mMipiOn := false;
      }
      Issue(ModeChange(mMode));
    }

    /** setModePolicy_l */
    method SetModePolicyLocked(policy: Policy, r: Reading) returns (status: Status)
      requires BitInv(State()) && mDrmInit
      modifies this`mMode, this`mMipiPolicy, this`mHdmiPolicy, this`mMipiOn, this`mConnectStatus, this`trace
      ensures State() == After(old(State()), Op.SetModePolicy(policy, r))
      ensures trace == old(trace) + Commands(old(State()), Op.SetModePolicy(policy, r))
      ensures status == if policy.Unknown? then Error else NoError
    {
      match policy
      case ForHdmi(hdmi) =>
        mHdmiPolicy := hdmi;
        SetHdmiMode(r.plug, r.hdcp, r.video, r.darkens);
        return NoError;
      case ForMipi(mipi) =>
        ForceMipi(mipi);
        return NoError;
      case Unknown =>
        return Error;
    }

    /** setModePolicy */
    method SetModePolicy(policy: Policy, r: Reading) returns (status: Status)
      requires mDrmInit ==> ModeInv(State())
      modifies this`mMode, this`mMipiPolicy, this`mHdmiPolicy, this`mMipiOn, this`mConnectStatus, this`trace
      ensures !mDrmInit ==> status == Error && State() == old(State()) && trace == old(trace)
      ensures mDrmInit ==>
        && State() == After(old(State()), Op.SetModePolicy(policy, r))
        && trace == old(trace) + Commands(old(State()), Op.SetModePolicy(policy, r))
        && status == if policy.Unknown? then Error else NoError
    {
      if !mDrmInit {
        return Error;
      }
      status := SetModePolicyLocked(policy, r);
    }

    /** setMipiMode_l */
    method SetMipiMode(on: bool) returns (status: Status)
      modifies this`mMode, this`mMipiOn, this`trace
      ensures State() == After(old(State()), Op.SetMipiMode(on))
      ensures trace == old(trace) + Commands(old(State()), Op.SetMipiMode(on))
      ensures status == Error <==> !on && old(mMipiOn) && !mWidiVideoExt && !old(mMode).videoExt
    {
      if mMipiOn == on {
        return NoError;
      }
      if on {
        Issue(MipiSet(true));
        mMode := mMode.(mipiOn := true);
      } else {
        if !mWidiVideoExt {
          if !mMode.videoExt {
            Issue(ModeChange(mMode));
            return Error;
          }
          if mMipiPolicy == MipiOffAllowed {
            Issue(MipiSet(false));
            mMode := mMode.(mipiOn := false);
          }
        } else {
          Issue(MipiSet(false));
          mMode := mMode.(mipiOn := false);
        }
      }
      mMipiOn := on;
      return NoError;
    }

    /** prepareForVideo */
    method PrepareForVideo(videoStatus: int, r: Reading) returns (status: Status)
      requires mDrmInit ==> ModeInv(State())
      modifies this`mMode, this`mMipiPolicy, this`mMipiOn, this`mConnectStatus, this`mVideo, this`mVideoState, this`trace
      ensures !mDrmInit ==> status == Error && State() == old(State()) && trace == old(trace)
      ensures mDrmInit ==>
        && State() == After(old(State()), Op.PrepareForVideo(videoStatus, r))
        && trace == old(trace) + Commands(old(State()), Op.PrepareForVideo(videoStatus, r))
        && status == NoError
    {
      if !mDrmInit {
        return Error;
      }
      if mVideoState == videoStatus {
        return NoError;
      }
      ghost var was := trace;
      mVideoState := videoStatus;
      Issue(VideoStatus(videoStatus));
      if videoStatus == VIDEO_UNPREPARED {
        mVideo := NO_VIDEO;
        Issue(VideoIs(NO_VIDEO));
        ghost var d := State();
        assert trace == was + [VideoStatus(videoStatus), VideoIs(NO_VIDEO)];
        SetHdmiMode(r.plug, r.hdcp, r.video, r.darkens);
        Regrouped(was, [VideoStatus(videoStatus), VideoIs(NO_VIDEO)], HdmiCommands(d, r));
      }
      return NoError;
    }

    /** updateVideoInfo */
    method UpdateVideoInfo(info: VideoInfo, r: Reading) returns (status: Status)
      requires mDrmInit ==> ModeInv(State())
      modifies this`mMode, this`mMipiPolicy, this`mMipiOn, this`mConnectStatus, this`mVideo, this`trace
      ensures !mDrmInit ==> status == Error && State() == old(State()) && trace == old(trace)
      ensures mDrmInit ==>
        && State() == After(old(State()), Op.UpdateVideoInfo(info, r))
        && trace == old(trace) + Commands(old(State()), Op.UpdateVideoInfo(info, r))
        && status == NoError
    {
      if !mDrmInit {
        return Error;
      }
      ghost var was := trace;
      mVideo := info;
      Issue(VideoIs(info));
      ghost var d := State();
      SetHdmiMode(r.plug, r.hdcp, r.video, r.darkens);
      Regrouped(was, [VideoIs(info)], HdmiCommands(d, r));
      return NoError;
    }

    /** notifyHotPlug */
    method NotifyHotPlug(r: Reading, deviceChanged: bool) returns (status: Status)
      requires mDrmInit ==> ModeInv(State())
      modifies this`mMode, this`mMipiPolicy, this`mMipiOn, this`mConnectStatus, this`trace
      ensures !mDrmInit ==> status == Error && State() == old(State()) && trace == old(trace)
      ensures mDrmInit ==>
        && State() == After(old(State()), Op.NotifyHotPlug(r, deviceChanged))
        && trace == old(trace) + Commands(old(State()), Op.NotifyHotPlug(r, deviceChanged))
        && status == NoError
    {
      if !mDrmInit {
        return Error;
      }
      SetHdmiMode(r.plug, r.hdcp, r.video, r.darkens);
      if deviceChanged && mConnectStatus == HdmiConnected {
        Issue(ResetScaling);
      }
      return NoError;
    }

    /** notifyWidi */
    method NotifyWidi(on: bool) returns (status: Status)
      modifies this`mMode, this`mWidiVideoExt
      ensures !mDrmInit ==> status == Error && State() == old(State())
      ensures mDrmInit ==> State() == After(old(State()), Op.NotifyWidi(on))
      ensures mDrmInit ==> status == NoError && mWidiVideoExt == on && mMode == old(mMode).(widiOn := on)
    {
      if !mDrmInit {
        return Error;
      }
      mWidiVideoExt := on;
      if mWidiVideoExt {
        mMode := mMode.(widiOn := true);
      } else {
        mMode := mMode.(widiOn := false);
      }
      return NoError;
    }

    /** setHdmiModeInfo */
    method SetHdmiModeInfo(width: int, height: int, refresh: int, interlace: int, ratio: int) returns (status: Status)
      modifies this`trace
      ensures !mDrmInit ==> status == Error && trace == old(trace)
      ensures mDrmInit ==> trace == old(trace) + Commands(State(), Op.SetHdmiModeInfo(width, height, refresh, interlace, ratio))
      ensures mDrmInit ==>
        && status == NoError
        && trace == old(trace) + [Command.SetModeInfo(width, height, refresh, interlace, ratio),
                                  Command.SetTiming(ForClone), ModeChange(mMode)]
    {
      if !mDrmInit {
        return Error;
      }
      Issue(SetModeInfo(width, height, refresh, interlace, ratio));
      Issue(SetTiming(ForClone));
      Issue(ModeChange(mMode));
      return NoError;
    }

    /** setHdmiPowerOff; `succeeds` is what drm_hdmi_setHdmiPowerOff answers */
    method SetHdmiPowerOff(succeeds: bool) returns (status: Status)
      modifies this`trace
      ensures !mDrmInit ==> status == Error && trace == old(trace)
      ensures mDrmInit ==> trace == old(trace) + Commands(State(), Op.SetHdmiPowerOff(succeeds))
    {
      if !mDrmInit {
        return Error;
      }
      Issue(HdmiPowerOff(succeeds));
      return NoError;
    }

    /** initialize_l, once drm_init has succeeded */
    method Initialize(hdmiSupported: bool, r: Reading)
      requires mDrmInit && State().hdmiPolicy == HdmiOnAllowed && BitInv(State())
      modifies this`mMode, this`mMipiPolicy, this`mHdmiPolicy, this`mMipiOn, this`mConnectStatus, this`trace
      ensures State() == Initialized(old(State()), hdmiSupported, r)
      ensures trace == old(trace) + InitCommands(old(State()), hdmiSupported, r)
    {
      ghost var d, was := State(), trace;
      if hdmiSupported {
        var _ := SetModePolicyLocked(ForHdmi(HdmiOnAllowed), r);
        assert d.(hdmiPolicy := HdmiOnAllowed) == d;
        Regrouped(was, HdmiCommands(d, r), ForcedMipiCommands(Settle(d, r), MipiOffNotAllowed));
      }
      var _ := SetModePolicyLocked(ForMipi(MipiOffNotAllowed), r);
    }

    /** The constructor; nothing sets mVideoState, so it is whatever the memory held. */
    constructor (drmInit: bool, hdmiSupported: bool, r: Reading, videoState: int)
      ensures mDrmInit == drmInit
      ensures !drmInit ==> State() == Blank(videoState) && trace == []
      ensures drmInit ==>
        && State() == Initialized(Blank(videoState), hdmiSupported, r)
        && trace == InitCommands(Blank(videoState), hdmiSupported, r)
    {
      mDrmInit, mMode := drmInit, NO_MODE;
      mMipiPolicy, mHdmiPolicy := MipiOffNotAllowed, HdmiOnAllowed;
      mVideo, mVideoState := NO_VIDEO, videoState;
      mMipiOn, mWidiVideoExt, mConnectStatus := true, false, Disconnected;
      trace := [];
      new;
      assert State() == Blank(videoState);
      if drmInit {
        Initialize(hdmiSupported, r);
        Regrouped([], [], InitCommands(Blank(videoState), hdmiSupported, r));
      }
    }
  }
}
