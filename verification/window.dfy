/** The test window (MainWindow.xaml.cs): reads the signaling settings,
    starts and stops a session on the Start button, polls the controller's
    frame slots on the 10 ms refresh timer and turns the counts into frame
    rates on the 1 s timer.

    Message boxes, button enabling and the rendering of images are user
    interface and are not modelled; the window title, the FPS labels and the
    image each view shows are kept as fields. */
module Window {
  import opened Common
  import opened Text
  import opened Signaling
  import opened Controller

  const AppTitle: string := "\U{30C6}\U{30B9}\U{30C8}\U{30A2}\U{30D7}\U{30EA}"
  const WaitingStatus: string := "(\U{5F85}\U{6A5F}\U{4E2D})"
  const ConnectedStatus: string := "\U{7A3C}\U{50CD}\U{4E2D}"

  /** The window title for a status message (`SetStatus`). */
  function TitleOf(status: string): (r: string)
    ensures |r| == |AppTitle| + 1 + |status|
    ensures r[..|AppTitle|] == AppTitle && r[|AppTitle|] == ' ' && r[|AppTitle|+1..] == status
  {
    AppTitle + " " + status
  }

  /** The text of an FPS label for a count. */
  function FpsLabel(count: UInt32): (r: string)
    ensures |r| > 4 && r[..4] == "FPS "
    ensures AllDigits(r[4..]) && DigitsValue(r[4..]) == count
    ensures r[4] == '0' ==> r == "FPS 0"
  {
    NatToDecimalDigits(count);
    assert ("FPS " + NatToDecimal(count))[4..] == NatToDecimal(count);
    "FPS " + NatToDecimal(count)
  }

  /** One of the three settings read from `test.config`: `settings` is the
      file's `appSettings`, or `None` when opening the file throws. */
  function Setting(settings: Option<map<string, string>>, name: string): string
  {
    if settings.Some? && name in settings.value then settings.value[name] else ""
  }

  /** The signaling settings the window starts with. */
  function ContextOf(settings: Option<map<string, string>>): SigContext
  {
    SigContext(Setting(settings, "Url"), Setting(settings, "SigKey"), Setting(settings, "RoomId"))
  }

  /** The window refuses to run unless all three settings are non-empty. */
  predicate ConfigAccepted(context: SigContext)
  {
    context.url != "" && context.sigKey != "" && context.roomId != ""
  }

  /** A configuration is accepted exactly when the file could be opened and
      names all three settings with non-empty values. */
  lemma ConfigAcceptedIff(settings: Option<map<string, string>>)
    ensures ConfigAccepted(ContextOf(settings)) <==>
              (settings.Some? && (forall name :: name in ["Url", "SigKey", "RoomId"] ==>
                                    name in settings.value && settings.value[name] != ""))
  {
    if ConfigAccepted(ContextOf(settings)) {
      assert settings.Some?;
      forall name | name in ["Url", "SigKey", "RoomId"]
        ensures name in settings.value && settings.value[name] != ""
      {
        assert name == "Url" || name == "SigKey" || name == "RoomId";
      }
    }
  }

  /** The send and receive flags of the direction buttons, `Both` taking
      precedence over `Send` over `Receive`; `None` when none is checked. */
  function SelectDirection(both: bool, send: bool, receive: bool): (r: Option<(bool, bool)>)
    ensures r.None? <==> !both && !send && !receive
    ensures r == Some((true, true)) <==> both
    ensures r == Some((true, false)) <==> !both && send
    ensures r == Some((false, true)) <==> !both && !send && receive
  {
    if both then Some((true, true))
    else if send then Some((true, false))
    else if receive then Some((false, true))
    else None
  }

  /** Whether a click on Start with this selection gets as far as
      `ConnectSigServer`: a direction is selected and, when sending, the
      camera is ready. */
  predicate ReachesConnect(selection: Option<(bool, bool)>, hadSource: bool, source: Creation, track: Creation)
  {
    selection.Some? && (!selection.value.0 || DeviceReady(hadSource, source, track))
  }

  /** A session the window starts always has a transceiver that sends or
      receives. */
  lemma SelectedDirectionIsActive(both: bool, send: bool, receive: bool)
    requires SelectDirection(both, send, receive).Some?
    ensures var (s, r) := SelectDirection(both, send, receive).value;
            DirectionFromSendRecv(s, r) != Inactive
  {
  }

  class MainWindow {
    const controller: WebRTCController
    const context: SigContext
    /** `Application.Current.Shutdown()` was requested. */
    var shutdownRequested: bool
    var title: string
    var isRunning: bool
    /** Both the refresh and the FPS timer run. */
    var timersRunning: bool
    var localFps: UInt32
    var remoteFps: UInt32
    var localFpsLabel: string
    var remoteFpsLabel: string
    /** The images the two views show. */
    var localShown: Option<Frame>
    var remoteShown: Option<Frame>

    /** The controller keeps its invariant, and its `Error` and `Connected`
        stay this window's handlers. */
    predicate Valid()
      reads this, controller
    {
      controller.Valid() && controller.errorSet && controller.connectedSet
    }

    /** The constructor: a controller whose `Connected` and `Error` are
        this window's handlers, then the settings. */
    constructor (settings: Option<map<string, string>>)
      ensures Valid() && fresh(controller)
      ensures controller.errorSet && controller.connectedSet && controller.notices == []
      ensures controller.sigClient == null && !controller.hasPeer && !controller.hasVideoSource
      ensures context == ContextOf(settings)
      ensures shutdownRequested <==> !ConfigAccepted(context)
      ensures ConfigAccepted(context) ==> title == TitleOf("")
      ensures !isRunning && !timersRunning && localFps == 0 && remoteFps == 0
      ensures localShown.None? && remoteShown.None?
    {
      var c := new WebRTCController();
      c.connectedSet := true;
      c.errorSet := true;
      controller := c;
      context := ContextOf(settings);
      isRunning, timersRunning := false, false;
      localFps, remoteFps := 0, 0;
      localFpsLabel, remoteFpsLabel := "", "";
      localShown, remoteShown := None, None;
      title := "";
      new;
      if !ConfigAccepted(context) {
        shutdownRequested := true;
      } else {
        shutdownRequested := false;
        title := TitleOf("");
      }
    }

    /** What `Start` does: nothing when a session runs; otherwise the camera
        when sending, then a new signaling client when the camera is ready,
        and the session runs exactly when the client registered. */
    twostate predicate Started(send: bool, receive: bool, source: Creation, track: Creation,
                               opens: bool, clientId: int, registerFailure: Option<string>, ok: bool)
      reads this, controller, controller.sigClient
    {
      var reachesConnect := !old(isRunning) && (!send || DeviceReady(old(controller.hasVideoSource), source, track));
      (ok <==> reachesConnect && opens && registerFailure.None?)
      && isRunning == (old(isRunning) || ok)
      && timersRunning == (old(timersRunning) || ok)
      && title == (if ok then TitleOf(WaitingStatus) else old(title))
      && (old(isRunning) ==> unchanged(controller))
      && (!reachesConnect ==> controller.sigClient == old(controller.sigClient)
                              && controller.direction == old(controller.direction))
      && (reachesConnect ==>
            controller.sigClient != null && fresh(controller.sigClient)
            && controller.sigClient.context == context && controller.sigClient.isOpen == opens
            && controller.sigClient.sigErrorSet == controller.errorSet
            && controller.sigClient.candidateSet && controller.sigClient.sdpSet && controller.sigClient.acceptSet
            && controller.sigClient.sent == (if ok then [RegisterFrame(context.roomId, clientId, context.sigKey)] else [])
            && controller.direction == DirectionFromSendRecv(send, receive))
      && (!old(isRunning) && send ==> controller.DevicePrepared(source, track))
      && (!send ==> controller.hasVideoSource == old(controller.hasVideoSource)
                    && controller.hasLocalVideoTrack == old(controller.hasLocalVideoTrack)
                    && controller.calls == old(controller.calls))
      && controller.notices == old(controller.notices) && controller.hasPeer == old(controller.hasPeer)
      && controller.localImage == old(controller.localImage) && controller.remoteImage == old(controller.remoteImage)
    }

    /** What `Stop` does, given the client the controller held before: nothing
        when no session runs; otherwise the controller is torn down (the
        client closed, then the track, the source and the peer disposed),
        the timers stop and the counters, labels, views and title reset. */
    twostate predicate Stopped(client: SigClient?)
      reads this, controller, client
    {
      client == old(controller.sigClient) && !isRunning
      && (!old(isRunning) ==> unchanged(this) && unchanged(controller) && (client != null ==> unchanged(client)))
      && (old(isRunning) ==>
            controller.sigClient == null && !controller.hasPeer
            && !controller.hasVideoSource && !controller.hasLocalVideoTrack
            && !timersRunning && localFps == 0 && remoteFps == 0
            && localFpsLabel == FpsLabel(0) && remoteFpsLabel == FpsLabel(0)
            && localShown.None? && remoteShown.None? && title == TitleOf("")
            && controller.localImage.None? && controller.remoteImage.None?
            && controller.calls == old(controller.calls)
               + (if old(controller.hasLocalVideoTrack) then [DisposeLocalTrack] else [])
               + (if old(controller.hasVideoSource) then [DisposeVideoSource] else [])
               + (if old(controller.hasPeer) then [DisposePeer] else [])
            && (client != null ==>
                  !client.isOpen && !client.sigErrorSet && client.sent == old(client.sent)
                  && client.candidateSet == old(client.candidateSet) && client.sdpSet == old(client.sdpSet)
                  && client.acceptSet == old(client.acceptSet)))
    }

    /** `Start`: the camera first when sending, then the signaling server;
        the session runs only if both succeed. `source` and `track` are what
        the camera factories give, `opens` whether the socket opens,
        `registerFailure` whether the register frame fails to send. */
    method Start(send: bool, receive: bool, source: Creation, track: Creation,
                 opens: bool, clientId: int, registerFailure: Option<string>) returns (ok: bool)
      requires Valid()
      requires 0 <= clientId < 0x7FFF_FFFF
      modifies this`isRunning, this`timersRunning, this`title
      modifies controller`sigClient, controller`direction, controller`hasVideoSource, controller`hasLocalVideoTrack, controller`calls
      ensures Valid()
      ensures Started(send, receive, source, track, opens, clientId, registerFailure, ok)
    {
      if isRunning {
        return false;
      }
      if send {
        var ready := controller.CreateLocalVideoDevice(source, track);
        if !ready {
          return false;
        }
      }
      var connected := controller.ConnectSigServer(send, receive, context, opens, clientId, registerFailure);
      if !connected {
        return false;
      }
      timersRunning := true;
      title := TitleOf(WaitingStatus);
      isRunning := true;
      return true;
    }

    /** `Stop`: nothing when no session runs; otherwise tear the controller
        down, stop the timers and reset the counters, labels and views. */
    method Stop()
      requires Valid()
      modifies this`isRunning, this`timersRunning, this`title, this`localFps, this`remoteFps
      modifies this`localFpsLabel, this`remoteFpsLabel, this`localShown, this`remoteShown
      modifies controller`sigClient, controller`hasPeer, controller`hasVideoSource, controller`hasLocalVideoTrack
      modifies controller`localImage, controller`remoteImage, controller`calls, controller.sigClient
      ensures Valid() && Stopped(old(controller.sigClient))
    {
      if !isRunning {
        return;
      }
      controller.Destroy();
      timersRunning := false;
      localFpsLabel := FpsLabel(0);
      remoteFpsLabel := FpsLabel(0);
      localShown, remoteShown := None, None;
      remoteFps, localFps := 0, 0;
      title := TitleOf("");
      isRunning := false;
    }

    /** `OnStartButtonClick`: stops a running session; otherwise starts one
        in the selected direction and, if that fails, calls `Stop`, which
        does nothing then because no session is running. */
    method OnStartButtonClick(both: bool, sendChecked: bool, receiveChecked: bool,
                              source: Creation, track: Creation,
                              opens: bool, clientId: int, registerFailure: Option<string>)
      requires Valid()
      requires 0 <= clientId < 0x7FFF_FFFF
      modifies this`isRunning, this`timersRunning, this`title, this`localFps, this`remoteFps
      modifies this`localFpsLabel, this`remoteFpsLabel, this`localShown, this`remoteShown
      modifies controller`sigClient, controller`hasPeer, controller`hasVideoSource, controller`hasLocalVideoTrack
      modifies controller`localImage, controller`remoteImage, controller`calls, controller.sigClient
      modifies controller`direction
      ensures Valid()
      ensures old(isRunning) ==> Stopped(old(controller.sigClient))
      ensures !old(isRunning) && SelectDirection(both, sendChecked, receiveChecked).Some? ==>
                Started(SelectDirection(both, sendChecked, receiveChecked).value.0,
                        SelectDirection(both, sendChecked, receiveChecked).value.1,
                        source, track, opens, clientId, registerFailure, isRunning)
      ensures old(isRunning) ==> !isRunning && controller.sigClient == null && !controller.hasPeer
      ensures !old(isRunning) && SelectDirection(both, sendChecked, receiveChecked).None? ==>
                unchanged(this) && unchanged(controller)
      ensures !old(isRunning) ==>
                (isRunning <==> ReachesConnect(SelectDirection(both, sendChecked, receiveChecked),
                                               old(controller.hasVideoSource), source, track)
                                && opens && registerFailure.None?)
      ensures !old(isRunning) && !isRunning
              && ReachesConnect(SelectDirection(both, sendChecked, receiveChecked), old(controller.hasVideoSource), source, track) ==>
                controller.sigClient != null && fresh(controller.sigClient)
      ensures !old(isRunning) && !isRunning && sendChecked && !both
              && source == Created && track == Threw && !old(controller.hasVideoSource) ==>
                controller.hasVideoSource && !controller.hasLocalVideoTrack
    {
      if !isRunning {
        var selection := SelectDirection(both, sendChecked, receiveChecked);
        if selection.None? {
          return;
        }
        var (send, receive) := selection.value;
        var ok := Start(send, receive, source, track, opens, clientId, registerFailure);
        assert ok <==> ReachesConnect(selection, old(controller.hasVideoSource), source, track)
                       && opens && registerFailure.None?;
        if !ok {
          Stop();
        }
      } else {
        Stop();
      }
    }

    /** `OnRefreshTimer`: take each slot's frame, if any, show it and count
        it. `effect` is `Misc.ApplyEffect` when the effect box is checked. */
    method OnRefreshTimer(effect: Option<Frame -> Frame>)
      modifies controller`localImage, controller`remoteImage
      modifies this`localShown, this`remoteShown, this`localFps, this`remoteFps
      ensures controller.localImage.None? && controller.remoteImage.None?
      ensures localFps == (if old(controller.localImage).Some? then Increment(old(localFps)) else old(localFps))
      ensures remoteFps == (if old(controller.remoteImage).Some? then Increment(old(remoteFps)) else old(remoteFps))
      ensures localShown == (if old(controller.localImage).Some? then old(controller.localImage) else old(localShown))
      ensures remoteShown == match old(controller.remoteImage)
                             case None => old(remoteShown)
                             case Some(f) => Some(if effect.Some? then effect.value(f) else f)
    {
      var local := controller.GetLocalImage();
      if local.Some? {
        localShown := local;
        localFps := Increment(localFps);
      }
      var remote := controller.GetRemoteImage();
      if remote.Some? {
        var image := remote.value;
        if effect.Some? {
          image := effect.value(image);
        }
        remoteShown := Some(image);
        remoteFps := Increment(remoteFps);
      }
    }

    /** `OnFpsTimer`: show each count and start counting again. */
    method OnFpsTimer()
      modifies this`localFps, this`remoteFps, this`localFpsLabel, this`remoteFpsLabel
      ensures localFpsLabel == FpsLabel(old(localFps)) && remoteFpsLabel == FpsLabel(old(remoteFps))
      ensures localFps == 0 && remoteFps == 0
    {
      localFpsLabel := FpsLabel(localFps);
      localFps := 0;
      remoteFpsLabel := FpsLabel(remoteFps);
      remoteFps := 0;
    }

    /** `ErrorHandle`, run on the UI thread for every call of the
        controller's `Error` (`OnWebRTCError`): the session stops. */
    method ErrorHandle(message: string)
      requires Valid()
      modifies this`isRunning, this`timersRunning, this`title, this`localFps, this`remoteFps
      modifies this`localFpsLabel, this`remoteFpsLabel, this`localShown, this`remoteShown
      modifies controller`sigClient, controller`hasPeer, controller`hasVideoSource, controller`hasLocalVideoTrack
      modifies controller`localImage, controller`remoteImage, controller`calls, controller.sigClient
      ensures Valid() && Stopped(old(controller.sigClient))
      ensures old(isRunning) ==> controller.sigClient == null && !controller.hasPeer && !timersRunning
      ensures !old(isRunning) ==> unchanged(this) && unchanged(controller)
    {
      Stop();
    }

    /** `OnPeerConnected`, run on the UI thread for the controller's `Connected`. */
    method OnPeerConnected()
      modifies this`title
      ensures title == TitleOf(ConnectedStatus)
    {
      title := TitleOf(ConnectedStatus);
    }

    /** `OnWindowClose`. */
    method OnWindowClose()
      requires Valid()
      modifies this`isRunning, this`timersRunning, this`title, this`localFps, this`remoteFps
      modifies this`localFpsLabel, this`remoteFpsLabel, this`localShown, this`remoteShown
      modifies controller`sigClient, controller`hasPeer, controller`hasVideoSource, controller`hasLocalVideoTrack
      modifies controller`localImage, controller`remoteImage, controller`calls, controller.sigClient
      ensures Valid() && Stopped(old(controller.sigClient))
      ensures old(isRunning) ==> controller.sigClient == null && !controller.hasVideoSource && !controller.hasPeer
    {
      Stop();
    }
  }
}
