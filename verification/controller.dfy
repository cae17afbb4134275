/** The negotiation orchestrator (WebRTCController.cs): it owns the signaling
    client, the peer connection, the camera source and track, and the two
    single-frame slots the window polls.

    The media engine is not part of this model. Its objects are reduced to
    "present or null" flags; every call the controller makes into it is
    appended to the ghost log `calls`; whatever the engine decides (a
    creation that yields null or throws, an initialisation or a remote
    description that fails) is a parameter of the method. */
module Controller {
  import opened Common
  import opened Json
  import opened Signaling

  /** `Transceiver.Direction`. */
  datatype Direction = SendReceive | SendOnly | ReceiveOnly | Inactive

  /** `Transceiver.DirectionFromSendRecv`, a mapping of the media engine. */
  function DirectionFromSendRecv(send: bool, receive: bool): (d: Direction)
    ensures d == SendReceive <==> send && receive
    ensures d == SendOnly <==> send && !receive
    ensures d == ReceiveOnly <==> !send && receive
    ensures d == Inactive <==> !send && !receive
    ensures send ==> d == SendReceive || d == SendOnly
  {
    if send && receive then SendReceive
    else if send then SendOnly
    else if receive then ReceiveOnly
    else Inactive
  }

  /** One ICE server of a `PeerConnectionConfiguration`. */
  datatype PeerIceServer = PeerIceServer(urls: seq<Option<string>>, turnUserName: Option<string>, turnPassword: Option<string>)

  /** A video frame, opaque to the controller. */
  type Frame

  /** What an engine factory call gives back. */
  datatype Creation = Created | ReturnedNull | Threw

  /** A call into the media engine. A factory call is logged when it yields
      an object: a factory that returns null or throws leaves no entry. */
  datatype EngineCall =
    | CreateVideoSource
    | CreateLocalTrack
    | SubscribeLocalFrames
    | DisposeLocalTrack
    | DisposeVideoSource
    | CreatePeer
    | InitializePeer(iceServers: seq<PeerIceServer>)
    | AddVideoTransceiver(direction: Direction)
    | AttachLocalTrack(trackPresent: bool)
    | CreateOffer
    | CreateAnswer
    | SetRemoteDescription(message: SdpMessage)
    | AddIceCandidate(candidate: IceCandidate)
    | SubscribeRemoteFrames
    | MuteRemoteAudio
    | DisposePeer

  /** An invocation of the controller's `Error` or `Connected` delegate. */
  datatype Notice = ErrorNotice(message: string) | ConnectedNotice

  const RegisterResponseError: string := "Protocol Error (OnSigRegisterResponseReceived)"
  const SdpMessageError: string := "Protocol Error (OnSdpMessageReceived)"

  /** The configuration `OnSigRegisterResponseReceived` builds from an accept
      response: exactly one ICE server, taken from the first one offered, or
      `None` where the code throws on a null (the list, its first element or
      that element's urls). An empty list is `Some([])`. */
  function PeerConfiguration(response: SigRegisterResponse): (r: Option<seq<PeerIceServer>>)
    ensures r.Some? <==> (response.iceServers.Some? &&
                          (|response.iceServers.value| == 0 ||
                           (response.iceServers.value[0].Some? && response.iceServers.value[0].value.urls.Some?)))
    ensures r.Some? && |response.iceServers.value| > 0 ==>
              var server := response.iceServers.value[0].value;
              r.value == [PeerIceServer(server.urls.value, server.username, server.credential)]
    ensures r.Some? ==> |r.value| == (if |response.iceServers.value| == 0 then 0 else 1)
  {
    match response.iceServers
    case None => None
    case Some(servers) =>
      if |servers| == 0 then Some([])
      else
        match servers[0]
        case None => None
        case Some(server) =>
          match server.urls
          case None => None
          case Some(urls) => Some([PeerIceServer(urls, server.username, server.credential)])
  }

  /** The result of `CreateLocalVideoDevice`, from whether a source already
      exists and what the two factory calls give. */
  predicate DeviceReady(hadSource: bool, source: Creation, track: Creation)
  {
    hadSource || (source == Created && track == Created)
  }

  /** The engine calls of `OnSigRegisterResponseReceived` after the peer is
      initialised: the transceiver, the local track unless receive-only, and
      the offer when another client is already in the room. */
  function NegotiationCalls(direction: Direction, trackPresent: bool, isExistClient: bool): (r: seq<EngineCall>)
    ensures |r| > 0 && r[0] == AddVideoTransceiver(direction)
    ensures AttachLocalTrack(trackPresent) in r <==> direction != ReceiveOnly
    ensures CreateOffer in r <==> isExistClient
    ensures CreateAnswer !in r
    ensures |r| == 1 + (if direction != ReceiveOnly then 1 else 0) + (if isExistClient then 1 else 0)
    ensures forall c :: c in r ==> c == AddVideoTransceiver(direction) || c == AttachLocalTrack(trackPresent) || c == CreateOffer
    ensures isExistClient ==> r[|r| - 1] == CreateOffer
  {
    [AddVideoTransceiver(direction)]
      + (if direction != ReceiveOnly then [AttachLocalTrack(trackPresent)] else [])
      + (if isExistClient then [CreateOffer] else [])
  }

  class WebRTCController {
    var sigClient: SigClient?
    var hasPeer: bool
    var hasVideoSource: bool
    var hasLocalVideoTrack: bool
    var localImage: Option<Frame>
    var remoteImage: Option<Frame>
    var direction: Direction
    /** Whether the `Error` and `Connected` delegates are set. */
    var errorSet: bool
    var connectedSet: bool
    /** The calls made to those delegates, oldest first. */
    var notices: seq<Notice>
    /** Set when an exception escapes an `async void` handler, which the
        runtime reports as unhandled. */
    var faulted: bool
    ghost var calls: seq<EngineCall>

    /** A local track only exists on top of a camera source. */
    predicate Valid()
      reads this
    {
      hasLocalVideoTrack ==> hasVideoSource
    }

    constructor ()
      ensures Valid()
      ensures sigClient == null && !hasPeer && !hasVideoSource && !hasLocalVideoTrack
      ensures localImage.None? && remoteImage.None?
      ensures !errorSet && !connectedSet && notices == [] && !faulted && calls == []
    {
      sigClient := null;
      hasPeer, hasVideoSource, hasLocalVideoTrack := false, false, false;
      localImage, remoteImage := None, None;
      direction := Inactive;
      errorSet, connectedSet := false, false;
      notices := [];
      faulted := false;
      calls := [];
    }

    /** What `OnSdpMessageReceived` does to the controller: without a peer,
        or when the remote description is refused, one error and no
        answer; otherwise the description is set and an offer answered. */
    twostate predicate SdpHandled(message: SdpMessage, setRemoteFailure: bool)
      reads this
    {
      hasPeer == old(hasPeer) && faulted == old(faulted)
      && (!hasPeer ==> calls == old(calls))
      && (hasPeer ==> calls == old(calls) + [SetRemoteDescription(message)]
                               + (if !setRemoteFailure && message.sdpType == Offer then [CreateAnswer] else []))
      && notices == old(notices)
                    + (if errorSet && (!hasPeer || setRemoteFailure) then [ErrorNotice(SdpMessageError)] else [])
    }

    /** What `OnSigRegisterResponseReceived` does to the controller: an
        unusable configuration faults, an empty server list is one error,
        otherwise a new peer initialised with the first server followed by
        the negotiation calls unless initialisation fails. */
    twostate predicate ResponseHandled(response: SigRegisterResponse, initFailure: bool)
      reads this
    {
      var config := PeerConfiguration(response);
      if config.None? then
        faulted && hasPeer == old(hasPeer) && calls == old(calls) && notices == old(notices)
      else if config.value == [] then
        notices == old(notices) + (if errorSet then [ErrorNotice(RegisterResponseError)] else [])
        && hasPeer == old(hasPeer) && calls == old(calls) && faulted == old(faulted)
      else
        hasPeer && notices == old(notices) && faulted == (old(faulted) || initFailure)
        && calls == old(calls) + [CreatePeer, InitializePeer(config.value)]
                   + (if initFailure then [] else NegotiationCalls(direction, hasLocalVideoTrack, response.isExistClient))
    }

    /** What `CreateLocalVideoDevice` does to the camera handles: nothing
        when a source exists; otherwise each factory call that yields an
        object is logged, and a null track disposes the source again. */
    twostate predicate DevicePrepared(source: Creation, track: Creation)
      reads this
    {
      if old(hasVideoSource) then
        hasVideoSource && hasLocalVideoTrack == old(hasLocalVideoTrack) && calls == old(calls)
      else
        hasVideoSource == (source == Created && track != ReturnedNull)
        && hasLocalVideoTrack == (source == Created && track == Created)
        && calls == old(calls)
           + (if source == Created then [CreateVideoSource] else [])
           + (if source == Created && track == Created then [CreateLocalTrack, SubscribeLocalFrames] else [])
           + (if source == Created && track == ReturnedNull then [DisposeVideoSource] else [])
    }

    /** `ErrorHandle`. */
    method ErrorHandle(message: string)
      modifies this`notices
      ensures notices == old(notices) + (if errorSet then [ErrorNotice(message)] else [])
    {
      if errorSet {
        notices := notices + [ErrorNotice(message)];
      }
    }

    /** `ConnectSigServer`: a new client with all four delegates hooked (its
        `SigError` is this controller's `Error` as it stands now), then
        connect, then register only if the socket opened. */
    method ConnectSigServer(send: bool, receive: bool, context: SigContext,
                            opens: bool, clientId: int, registerFailure: Option<string>) returns (ok: bool)
      requires 0 <= clientId < 0x7FFF_FFFF
      modifies this`sigClient, this`direction
      ensures sigClient != null && fresh(sigClient)
      ensures sigClient.context == context && sigClient.isOpen == opens
      ensures sigClient.sigErrorSet == errorSet
      ensures sigClient.candidateSet && sigClient.sdpSet && sigClient.acceptSet
      ensures direction == DirectionFromSendRecv(send, receive)
      ensures ok <==> opens && registerFailure.None?
      ensures sigClient.sent == (if ok then [RegisterFrame(context.roomId, clientId, context.sigKey)] else [])
    {
      var client := new SigClient(context);
      client.sigErrorSet := errorSet;
      client.candidateSet := true;
      client.sdpSet := true;
      client.acceptSet := true;
      sigClient := client;
      direction := DirectionFromSendRecv(send, receive);
      var connected := client.Connect(opens);
      if !connected {
        return false;
      }
      ok := client.SendRegister(clientId, registerFailure);
    }

    /** `CreateLocalVideoDevice`: `source` and `track` are what the two
        factories give. A source that already exists is reported as ready
        without looking at the track; a track that comes back null disposes
        the source again; a track factory that throws leaves the source. */
    method CreateLocalVideoDevice(source: Creation, track: Creation) returns (ok: bool)
      requires Valid()
      modifies this`hasVideoSource, this`hasLocalVideoTrack, this`calls
      ensures Valid()
      ensures ok == DeviceReady(old(hasVideoSource), source, track)
      ensures DevicePrepared(source, track)
    {
      if hasVideoSource {
        return true;
      }
      if source == Threw {
        return false;
      }
      if source == ReturnedNull {
        hasVideoSource := false;
        return false;
      }
      hasVideoSource := true;
      calls := calls + [CreateVideoSource];
      if track == Threw {
        return false;
      }
      if track == ReturnedNull {
        hasLocalVideoTrack := false;
        calls := calls + [DisposeVideoSource];
        hasVideoSource := false;
        return false;
      }
      hasLocalVideoTrack := true;
      calls := calls + [CreateLocalTrack, SubscribeLocalFrames];
      return true;
    }

    /** `Destroy`: close the client, dispose what exists, clear every handle
        and both slots. */
    method Destroy()
      modifies this`sigClient, this`hasPeer, this`hasVideoSource, this`hasLocalVideoTrack
      modifies this`localImage, this`remoteImage, this`calls, sigClient
      ensures sigClient == null && !hasPeer && !hasVideoSource && !hasLocalVideoTrack
      ensures localImage.None? && remoteImage.None? && Valid()
      ensures old(sigClient) != null ==>
                !old(sigClient).sigErrorSet && !old(sigClient).isOpen
                && old(sigClient).sent == old(sigClient.sent)
                && old(sigClient).candidateSet == old(sigClient.candidateSet)
                && old(sigClient).sdpSet == old(sigClient.sdpSet)
                && old(sigClient).acceptSet == old(sigClient.acceptSet)
      ensures calls == old(calls)
                + (if old(hasLocalVideoTrack) then [DisposeLocalTrack] else [])
                + (if old(hasVideoSource) then [DisposeVideoSource] else [])
                + (if old(hasPeer) then [DisposePeer] else [])
    {
      if sigClient != null {
        sigClient.Close();
      }
      if hasLocalVideoTrack {
        calls := calls + [DisposeLocalTrack];
      }
      if hasVideoSource {
        calls := calls + [DisposeVideoSource];
      }
      if hasPeer {
        calls := calls + [DisposePeer];
      }
      sigClient := null;
      hasVideoSource := false;
      hasLocalVideoTrack := false;
      hasPeer := false;
      localImage := None;
      remoteImage := None;
    }

    /** `OnSigRegisterResponseReceived`. `initFailure` says whether
        `InitializeAsync` throws. */
    method OnSigRegisterResponseReceived(response: SigRegisterResponse, initFailure: bool)
      modifies this`hasPeer, this`calls, this`notices, this`faulted
      ensures ResponseHandled(response, initFailure)
    {
      var config := PeerConfiguration(response);
      if config.None? {
        faulted := true;
        return;
      }
      if config.value == [] {
        ErrorHandle(RegisterResponseError);
        return;
      }
      hasPeer := true;
      calls := calls + [CreatePeer, InitializePeer(config.value)];
      if initFailure {
        faulted := true;
        return;
      }
      calls := calls + [AddVideoTransceiver(direction)];
      if direction != ReceiveOnly {
        calls := calls + [AttachLocalTrack(hasLocalVideoTrack)];
      }
      if response.isExistClient {
        calls := calls + [CreateOffer];
      }
    }

    /** `OnSdpMessageReceived`: without a peer, or when the remote description
        is refused (`setRemoteFailure`), one error and no answer. */
    method OnSdpMessageReceived(message: SdpMessage, setRemoteFailure: bool)
      modifies this`calls, this`notices
      ensures SdpHandled(message, setRemoteFailure)
    {
      if !hasPeer {
        ErrorHandle(SdpMessageError);
        return;
      }
      calls := calls + [SetRemoteDescription(message)];
      if setRemoteFailure {
        ErrorHandle(SdpMessageError);
        return;
      }
      if message.sdpType == Offer {
        calls := calls + [CreateAnswer];
      }
    }

    /** `OnIceCandidateReceived`: handed to the peer only if there is one. */
    method OnIceCandidateReceived(candidate: IceCandidate)
      modifies this`calls
      ensures calls == old(calls) + (if hasPeer then [AddIceCandidate(candidate)] else [])
    {
      if hasPeer {
        calls := calls + [AddIceCandidate(candidate)];
      }
    }

    /** `OnIceCandidateReadytoSend`: forwarded to the signaling server, if any. */
    method OnIceCandidateReadytoSend(candidate: IceCandidate, failure: Option<string>)
      modifies sigClient
      ensures sigClient != null ==>
                sigClient.sent == old(sigClient.sent) + (if failure.None? then [CandidateFrame(candidate)] else [])
      ensures sigClient != null ==>
                sigClient.isOpen == old(sigClient.isOpen) && sigClient.sigErrorSet == old(sigClient.sigErrorSet)
                && sigClient.candidateSet == old(sigClient.candidateSet) && sigClient.sdpSet == old(sigClient.sdpSet)
                && sigClient.acceptSet == old(sigClient.acceptSet)
    {
      if sigClient != null {
        var _ := sigClient.SendIceCanditate(candidate, failure);
      }
    }

    /** `OnLocalSdpReadytoSend`: forwarded to the signaling server, if any. */
    method OnLocalSdpReadytoSend(message: SdpMessage, failure: Option<string>)
      modifies sigClient
      ensures sigClient != null ==>
                sigClient.sent == old(sigClient.sent) + (if failure.None? then [SdpFrame(message)] else [])
      ensures sigClient != null ==>
                sigClient.isOpen == old(sigClient.isOpen) && sigClient.sigErrorSet == old(sigClient.sigErrorSet)
                && sigClient.candidateSet == old(sigClient.candidateSet) && sigClient.sdpSet == old(sigClient.sdpSet)
                && sigClient.acceptSet == old(sigClient.acceptSet)
    {
      if sigClient != null {
        var _ := sigClient.SendSdpMessage(message, failure);
      }
    }

    /** `OnPeerConnected`. */
    method OnPeerConnected()
      modifies this`notices
      ensures notices == old(notices) + (if connectedSet then [ConnectedNotice] else [])
    {
      if connectedSet {
        notices := notices + [ConnectedNotice];
      }
    }

    /** `OnRemoteVideoTrackAdded`: the remote track's frames go to the remote slot. */
    method OnRemoteVideoTrackAdded()
      modifies this`calls
      ensures calls == old(calls) + [SubscribeRemoteFrames]
    {
      calls := calls + [SubscribeRemoteFrames];
    }

    /** `OnRemoteAudioTrackAdded`: remote audio is not played. */
    method OnRemoteAudioTrackAdded()
      modifies this`calls
      ensures calls == old(calls) + [MuteRemoteAudio]
    {
      calls := calls + [MuteRemoteAudio];
    }

    /** `OnLocalVideoFrameReady`: the newest frame replaces any unread one. */
    method OnLocalVideoFrameReady(frame: Frame)
      modifies this`localImage
      ensures localImage == Some(frame)
    {
      localImage := Some(frame);
    }

    /** `OnRemoteVideoFrameReady`. */
    method OnRemoteVideoFrameReady(frame: Frame)
      modifies this`remoteImage
      ensures remoteImage == Some(frame)
    {
      remoteImage := Some(frame);
    }

    /** `GetLocalImage`: take the held frame and leave the slot empty. */
    method GetLocalImage() returns (image: Option<Frame>)
      modifies this`localImage
      ensures image == old(localImage) && localImage.None?
    {
      image := localImage;
      localImage := None;
    }

    /** `GetRemoteImage`. */
    method GetRemoteImage() returns (image: Option<Frame>)
      modifies this`remoteImage
      ensures image == old(remoteImage) && remoteImage.None?
    {
      image := remoteImage;
      remoteImage := None;
    }

    /** A delegate call of the signaling client, delivered to the handler it
        was hooked to in `ConnectSigServer`: `SigError` is the window's error
        handler, the other three are this controller's methods. */
    method Deliver(event: Event, setRemoteFailure: bool, initFailure: bool)
      modifies this`hasPeer, this`calls, this`notices, this`faulted
      ensures event.SigError? ==> (notices == old(notices) + [ErrorNotice(event.message)]
                                    && calls == old(calls) && hasPeer == old(hasPeer) && faulted == old(faulted))
      ensures event.IceCandidateReceived? ==> (notices == old(notices) && hasPeer == old(hasPeer) && faulted == old(faulted)
                                                && calls == old(calls) + (if hasPeer then [AddIceCandidate(event.candidate)] else []))
      ensures event.SdpMessageReceived? ==> SdpHandled(event.sdp, setRemoteFailure)
      ensures event.SigRegisterResponseReceived? ==> ResponseHandled(event.response, initFailure)
    {
      match event {
        case SigError(message) =>
          notices := notices + [ErrorNotice(message)];
        case IceCandidateReceived(candidate) =>
          OnIceCandidateReceived(candidate);
        case SdpMessageReceived(message) =>
          OnSdpMessageReceived(message, setRemoteFailure);
        case SigRegisterResponseReceived(response) =>
          OnSigRegisterResponseReceived(response, initFailure);
      }
    }

    /** A text or binary frame arriving on the signaling socket, followed
        through the client to the handler its delegate call reaches. */
    method ReceiveSignal(isText: bool, data: string, parse: string -> Result<Json, string>,
                         pongFailure: Option<string>, setRemoteFailure: bool, initFailure: bool)
      requires sigClient != null
      modifies sigClient`sent, this`hasPeer, this`calls, this`notices, this`faulted
      ensures !isText ==> sigClient.sent == old(sigClient.sent) && notices == old(notices) && calls == old(calls)
                          && hasPeer == old(hasPeer) && faulted == old(faulted)
      ensures isText && sigClient.Deliver(EventOf(Dispatch(data, parse), pongFailure)).None? ==>
                notices == old(notices) && calls == old(calls) && hasPeer == old(hasPeer) && faulted == old(faulted)
      ensures isText && Dispatch(data, parse).Fail? && sigClient.sigErrorSet ==>
                notices == old(notices) + [ErrorNotice(Dispatch(data, parse).message)]
                && calls == old(calls) && hasPeer == old(hasPeer) && faulted == old(faulted)
      ensures isText && EventOf(Dispatch(data, parse), pongFailure).Some?
              && EventOf(Dispatch(data, parse), pongFailure).value.SigError? && sigClient.sigErrorSet ==>
                notices == old(notices) + [ErrorNotice(EventOf(Dispatch(data, parse), pongFailure).value.message)]
                && calls == old(calls) && hasPeer == old(hasPeer) && faulted == old(faulted)
      ensures isText && Dispatch(data, parse).CandidateIn? && sigClient.candidateSet ==>
                notices == old(notices) && hasPeer == old(hasPeer) && faulted == old(faulted)
                && calls == old(calls) + (if hasPeer then [AddIceCandidate(Dispatch(data, parse).candidate)] else [])
      ensures isText && Dispatch(data, parse).SdpIn? && sigClient.sdpSet ==>
                SdpHandled(Dispatch(data, parse).sdp, setRemoteFailure)
      ensures isText && Dispatch(data, parse).AcceptIn? && sigClient.acceptSet ==>
                ResponseHandled(Dispatch(data, parse).response, initFailure)
      ensures isText ==> (sigClient.sent == old(sigClient.sent)
                          + (if Dispatch(data, parse).PingIn? && pongFailure.None? then [PongFrame] else []))
    {
      var raised := sigClient.OnMessage(isText, data, parse, pongFailure);
      if raised.Some? {
        Deliver(raised.value, setRemoteFailure, initFailure);
      }
    }
  }
}
