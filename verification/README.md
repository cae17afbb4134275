# WebRTC test client: signaling, negotiation and the session window

This project models the core of a small Windows WebRTC test client:

- **The signaling client** (`SigClient`).
  - It sends hand-built JSON frames to a signaling server over a WebSocket: `register`, `candidate`, `offer`/`answer` and `pong`.
  - It classifies each inbound text frame by its `type` member and raises one of four delegates: `SigError`, `IceCandidateReceived`, `SdpMessageReceived` or `SigRegisterResponseReceived`. A `ping` is answered with a `pong` instead.
- **The controller** (`WebRTCController`).
  - It wires the signaling client to a peer connection.
  - It builds the peer configuration from the `accept` response, adds one video transceiver, and offers or answers.
  - It owns the camera source and track, and keeps the newest local and remote frame in two single-frame slots.
- **The window** (`MainWindow`).
  - It reads the signaling settings and starts or stops a session from the Start button.
  - It polls the frame slots on a 10 ms timer and turns the counts into frames per second on a 1 s timer.

Modules:

| module | file | content |
|---|---|---|
| `Common` | common.dfy | `Option`, `Result` |
| `Text` | text.dfy | .NET `String.Replace`, `int.ToString()`, `GetInt32`'s integer parsing, `uint` increment with wrap-around |
| `Json` | json.dfy | the parsed JSON value, the `JsonElement` accessors the client calls with the exceptions they throw, compact JSON text |
| `JsonText` | json_text.dfy | a reference reader for compact JSON text, with the proof that it reads every encoded value back; it stands for the server's parser when the outbound frames are checked |
| `Signaling` | signaling.dfy | the message records, SDP line-end escaping, inbound classification (`Dispatch`), the serializer for `accept`, the outbound frames, and `class SigClient` |
| `Controller` | controller.dfy | `class WebRTCController`, whose media-engine calls are kept in a ghost log |
| `Window` | window.dfy | `class MainWindow` |

Things outside the process enter as parameters:
- Whether the socket opens and whether a send throws.
- What the JSON parser returns.
- What the camera factories give.
- Whether the peer initialises or accepts a remote description.
- The random client id.

Every handler body that can throw is modelled with its error path:
- **`MessageHandle`**: everything it calls sits inside one `try`. That includes the pong send. The model returns `Fail` with the .NET message text.
- **`OnSigRegisterResponseReceived`**: an exception there escapes, because the method is `async void`. The controller's `faulted` flag records it. This happens on a null server list, a null first server, null urls, or a failed `InitializeAsync`.

Properties worth noting:
- Each outbound frame, read by the reference reader, denotes the object it is meant to send.
- A candidate or SDP frame this client sends is classified by the same client as the same candidate or message. The SDP case needs SDP text: printable characters plus CRLF.
- `Replace("\\r\\n", "\r\n")` undoes the outbound escaping only on text that holds no literal backslash-r-backslash-n, and the premise is necessary. On inbound SDP the JSON reader has already turned the escapes into CRLF. The value the `Replace` computes is unused, because the message is built from the raw text.
- The `"Protocol Error (accept)"` branch cannot be reached. A message whose `type` member was read is an object, so the serializer never returns null for it.
- After `Close`, the socket's close event no longer reaches the error handler, because `Close` clears `SigError` first.
- A failed start leaves state behind: the `Stop` that `OnStartButtonClick` calls does nothing, because the window never marked the session as running. So the new signaling client and any camera source stay in place. When the camera track factory throws, the source stays as well, and the next start reports the camera ready without a local track.

## Model

| member | source | states |
|---|---|---|
| Text.Increment | MainWindow.xaml.cs:179 | a `uint` `++`: one more below 2^32-1, and 0 after it |
| Text.ReplaceAbsent | SigClient.cs:171 | replacing a pattern that does not occur leaves the text unchanged |
| Text.NatToDecimalDigits | SigClient.cs:231 | the decimal text of a number is all digits, non-empty, with no leading zero, and spells the number |
| Text.ParseIntToDecimal | SigClient.cs:262 | the decimal text written for an `int` is a JSON integer token that `GetInt32` reads back as the same `int` |
| Json.Lookup | SigClient.cs:122 | absent exactly when no member has the name; otherwise the value of the last member with that name |
| Json.GetProperty | SigClient.cs:122 | succeeds exactly on an object that has the name, giving that member's value |
| Json.TryGetProperty | SigClient.cs:137 | succeeds exactly on an object; the result is the member's value or nothing when the name is absent |
| Json.GetString | SigClient.cs:122 | null exactly for a JSON null; the string exactly for a JSON string |
| Json.GetInt32 | SigClient.cs:147 | succeeds exactly on a number token that parses as an `int`, giving that value; another number token is a format error, and any other element throws the wrong-kind exception |
| Json.ToText | SigClient.cs:139 | a string element's text is its value, a number's its token, null's the empty string, a boolean's "True" or "False", and an object's or array's its JSON text |
| Json.EscapePlain | SigClient.cs:258 | text without quotes, backslashes or control characters is written into a JSON string literal unchanged |
| Signaling.TypeToString | SigClient.cs:286 | the wire name of an SDP type is "offer" for an offer and "answer" for an answer |
| Signaling.StringToType | SigClient.cs:175 | reading the two wire names gives the type whose wire name they are |
| Signaling.EscapeSdpLeavesNoCrlf | SigClient.cs:287 | no CRLF is left in escaped SDP |
| Signaling.UnescapeEscapeSdp | SigClient.cs:171 | unescaping escaped SDP gives the SDP back when it holds no literal backslash-r-backslash-n |
| Signaling.UnescapeEscapeNeedsPremise | SigClient.cs:287 | without that premise the round trip fails: a literal backslash-r-backslash-n comes back as CRLF |
| Signaling.UnescapeExample | SigClient.cs:171 | a wire text with one escaped line end comes back with one CRLF in its place |
| Signaling.EscapeSdpIsJsonEscape | SigClient.cs:287-288 | for SDP text, replacing CRLF by its escape is exactly JSON string escaping |
| Signaling.ParseFailure | SigClient.cs:204-207 | an exception caught in the message handler is always reported, and never with one of the fixed protocol-error texts |
| Signaling.Dispatch | SigClient.cs:115-208 | a frame is a ping exactly when its type is "ping"; a "candidate" frame gives the candidate branch, an "offer" or "answer" frame the SDP branch with that type, and an "accept" frame (an object) the serializer branch; a raised candidate, SDP or accept has the matching type; any other type fails; the accept error is never raised |
| Signaling.CandidateOutcome | SigClient.cs:128-167 | a candidate frame raises a candidate or fails, never anything else and never the accept error; it raises one exactly when `ice` re-parses to an object whose candidate reads as non-null, and then it is that candidate |
| Signaling.SdpMidOf | SigClient.cs:134-140 | succeeds exactly on an object; "0" when `sdpMid` is absent, otherwise that element's text |
| Signaling.SdpMlineIndexOf | SigClient.cs:142-148 | 0 when `sdpMLineIndex` is absent; when present, it succeeds exactly on a number token that parses as an `int`, giving that `int` |
| Signaling.ReadCandidate | SigClient.cs:150-166 | succeeds exactly on an object whose index reads and whose `candidate` is a string or JSON null; null gives no candidate, and a string gives the candidate with that content and the mid and index read as above |
| Signaling.SdpOutcome | SigClient.cs:168-180 | an offer or answer is raised exactly when `sdp` is present; its type is the frame's type and its content is the raw text of `sdp` |
| Signaling.AcceptOutcome | SigClient.cs:181-194 | an accept frame raises a response exactly when the serializer succeeds, and then it is the deserialized response; otherwise it fails, never with the accept error |
| Signaling.ReadNullableString | SigClient.cs:9-10 | the serializer gives null for a missing or null member and the string for a string member |
| Signaling.ReadBool | SigClient.cs:11-13 | the serializer gives true only for `true`, and false for `false` or a missing member |
| Signaling.ReadUrls | SigClient.cs:34 | an array converts exactly when every item is a string or null, item for item |
| Signaling.ReadIceServer | SigClient.cs:30-42 | null exactly for JSON null; succeeds exactly on null or on an object whose credential and user name are strings or null and whose `urls` is missing, null or an array of strings and nulls; the server carries those values, its urls null exactly when `urls` is missing or null, otherwise the array items read as nullable strings |
| Signaling.ReadIceServers | SigClient.cs:14 | an array of servers converts exactly when every item does, item for item |
| Signaling.DeserializeResponse | SigClient.cs:183-184 | null exactly for a JSON null; succeeds exactly on null or on an object whose two string properties are strings or null, whose three flags are booleans or missing, and whose `iceServers` is missing, null or an array of readable servers; the response carries the values read member by member, with `iceServers` null exactly when missing or null |
| Signaling.EventOf | SigClient.cs:195-207 | no delegate call exactly for a ping whose pong was sent; a failure raises `SigError` with its message, a failed pong `SigError` with the socket's message as a parse error; a candidate, SDP message or response goes to its own delegate with the same payload |
| Signaling.RegisterFrameDenotes | SigClient.cs:221-236 | the register frame reads as the object with type, room id, client id as a string, key and empty metadata |
| Signaling.CandidateFrameDenotes | SigClient.cs:255-265 | the candidate frame reads as the object with type "candidate" and the nested `ice` object |
| Signaling.SdpFrameDenotes | SigClient.cs:284-288 | the SDP frame reads as the object with the type and the original SDP content |
| Signaling.ReadCandidateOfIce | SigClient.cs:137-159 | the `ice` object this client writes is read back as the same candidate |
| Signaling.CandidateRoundTrip | SigClient.cs:255-265 | a candidate frame this client sends is classified by it as the same candidate |
| Signaling.SdpRoundTrip | SigClient.cs:284-288 | an SDP frame this client sends is classified by it as the same message |
| Signaling.PongFrameDenotes | SigClient.cs:197 | the pong reply reads as `{"type":"pong"}`, a type the client itself reports as unknown |
| Signaling.UnparsableIsReported | SigClient.cs:204-207 | a text the parser rejects fails with "Protocol Error (Parse:…)" and the parser's message |
| Signaling.MissingTypeIsReported | SigClient.cs:122 | an object without `type` fails as the missing-key exception |
| Signaling.NullTypeIsReported | SigClient.cs:124-127 | a null `type` fails with "Protocol Error (type)" |
| Signaling.UnknownTypeIsReported | SigClient.cs:199-202 | any other type fails with "Protocol Error (unknown type:…)" |
| Signaling.PingIsAnswered | SigClient.cs:195-198 | a ping is answered and raises nothing |
| Signaling.CandidateDefaults | SigClient.cs:134-148 | without `sdpMid` and `sdpMLineIndex` the candidate gets mid "0" and index 0 |
| Signaling.NullCandidateIsReported | SigClient.cs:163-166 | a null `candidate` fails with "Protocol Error (candidate)" |
| Signaling.SdpContentIsRaw | SigClient.cs:170-177 | a string `sdp` is passed on as it is, with the frame's type |
| Signaling.AcceptErrorUnreachable | SigClient.cs:186-193 | no frame fails with "Protocol Error (accept)" |
| Signaling.PlainAcceptIsRaised | SigClient.cs:181-196 | an accept frame holding only its type raises a response with that type and every other property at its default |
| Signaling.SigClient.constructor | SigClient.cs:66-106 | a client for the context, not open, nothing sent, no delegate set |
| Signaling.SigClient.Deliver | SigClient.cs:210-213 | a delegate call happens exactly when its delegate is set |
| Signaling.SigClient.Connect | SigClient.cs:108-113 | the result is whether the socket is open afterwards |
| Signaling.SigClient.MessageHandle | SigClient.cs:115-208 | the delegate call is the one `Dispatch` and `EventOf` give, if its delegate is set; a pong is sent exactly for a ping whose send succeeds |
| Signaling.SigClient.OnMessage | SigClient.cs:93-105 | a binary frame is ignored; a text frame is handled by `MessageHandle` |
| Signaling.SigClient.OnClose | SigClient.cs:79-84 | the socket is closed and "切断されました" goes to `SigError` if set |
| Signaling.SigClient.OnError | SigClient.cs:86-91 | "WebSocket Error" goes to `SigError` if set |
| Signaling.SigClient.Close | SigClient.cs:215-219 | `SigError` is cleared and the socket closed; the other delegates stay |
| Signaling.SigClient.Send | SigClient.cs:241-252 | a send succeeds exactly when the socket does not throw, and only then is the frame written |
| Signaling.SigClient.SendRegister | SigClient.cs:221-253 | the register frame for the context's room and key is written, unless the send throws |
| Signaling.SigClient.SendIceCanditate | SigClient.cs:255-282 | the candidate frame is written, unless the send throws |
| Signaling.SigClient.SendSdpMessage | SigClient.cs:284-305 | the SDP frame is written, unless the send throws |
| Controller.DirectionFromSendRecv | WebRTCController.cs:36 | send-and-receive exactly for both, send-only exactly for send alone, receive-only exactly for receive alone, inactive exactly for neither |
| Controller.PeerConfiguration | WebRTCController.cs:122-141 | defined exactly when the server list is present and, if non-empty, its first server and that server's urls are not null; then one ICE server with that server's urls, user name and credential |
| Controller.NegotiationCalls | WebRTCController.cs:156-167 | exactly these calls: a transceiver first, then the local track attached exactly when not receive-only, then one offer, last, exactly when another client exists; never an answer |
| Controller.WebRTCController.constructor | WebRTCController.cs:7-26 | no client, peer, source or track; empty slots; no delegate set |
| Controller.WebRTCController.ErrorHandle | WebRTCController.cs:115-118 | the message goes to `Error` if set |
| Controller.WebRTCController.ConnectSigServer | WebRTCController.cs:28-53 | a new client whose `SigError` is the current `Error` and whose other delegates are the controller's; direction set; register sent only if the socket opened; true exactly when both succeed |
| Controller.WebRTCController.CreateLocalVideoDevice | WebRTCController.cs:55-97 | ready at once if a source exists, with nothing changed; otherwise the source and track as the factories give them, the source disposed when the track is null and kept when the track factory throws; a factory call is logged when it yields an object |
| Controller.WebRTCController.Destroy | WebRTCController.cs:99-113 | the client closed with its other delegates kept; what exists disposed, track, source and peer in that order; every handle and both slots cleared |
| Controller.WebRTCController.OnSigRegisterResponseReceived | WebRTCController.cs:120-168 | a null list, first server or urls faults; an empty list raises "Protocol Error (OnSigRegisterResponseReceived)"; otherwise a new peer initialised with the first server, then the negotiation calls unless initialisation fails |
| Controller.WebRTCController.OnSdpMessageReceived | WebRTCController.cs:191-212 | without a peer, or when the remote description fails, "Protocol Error (OnSdpMessageReceived)"; otherwise the description is set and an offer is answered |
| Controller.WebRTCController.OnIceCandidateReceived | WebRTCController.cs:184-189 | the candidate reaches the peer exactly when there is one |
| Controller.WebRTCController.OnIceCandidateReadytoSend | WebRTCController.cs:170-175 | a local candidate is sent as a candidate frame when a client exists; the client's socket state and delegates stay |
| Controller.WebRTCController.OnLocalSdpReadytoSend | WebRTCController.cs:177-182 | a local offer or answer is sent as an SDP frame when a client exists; the client's socket state and delegates stay |
| Controller.WebRTCController.OnPeerConnected | WebRTCController.cs:214-219 | `Connected` is called if set |
| Controller.WebRTCController.OnRemoteVideoTrackAdded | WebRTCController.cs:231-234 | remote frames are routed to the remote slot |
| Controller.WebRTCController.OnRemoteAudioTrackAdded | WebRTCController.cs:236-239 | remote audio is not played |
| Controller.WebRTCController.OnLocalVideoFrameReady | WebRTCController.cs:256-263 | the newest local frame replaces any unread one |
| Controller.WebRTCController.OnRemoteVideoFrameReady | WebRTCController.cs:265-272 | the newest remote frame replaces any unread one |
| Controller.WebRTCController.GetLocalImage | WebRTCController.cs:274-285 | the held local frame is returned and the slot emptied, so each frame is taken at most once |
| Controller.WebRTCController.GetRemoteImage | WebRTCController.cs:286-297 | the held remote frame is returned and the slot emptied |
| Controller.WebRTCController.Deliver | WebRTCController.cs:30-34 | `SigError` reaches `Error`; a received candidate reaches the peer exactly when there is one; an SDP message and an accept response have exactly the effects of `OnSdpMessageReceived` and `OnSigRegisterResponseReceived` |
| Controller.WebRTCController.ReceiveSignal | SigClient.cs:93-105 | a binary frame changes nothing; a text frame sends a pong exactly for an answered ping; a delegate call that is not made changes nothing; every `SigError` call, a failed pong send included, appends its message to the notices, and a candidate, SDP message or response has its handler's effect |
| Window.TitleOf | MainWindow.xaml.cs:157-160 | the title is the application name, a space, then the status |
| Window.FpsLabel | MainWindow.xaml.cs:198 | "FPS " followed by decimal digits that spell the count, with no leading zero |
| Window.ConfigAcceptedIff | MainWindow.xaml.cs:45-61 | the settings are accepted exactly when the file opens and gives non-empty `Url`, `SigKey` and `RoomId` |
| Window.SelectDirection | MainWindow.xaml.cs:226-249 | nothing without a checked button; otherwise Both, then Send, then Receive, in that order of precedence |
| Window.SelectedDirectionIsActive | MainWindow.xaml.cs:226-251 | a direction the window starts with is never inactive |
| Window.MainWindow.constructor | MainWindow.xaml.cs:23-74 | the controller's `Connected` and `Error` are set; shutdown is requested exactly when the settings are not accepted |
| Window.MainWindow.Start | MainWindow.xaml.cs:76-124 | nothing if running; when sending, the camera first, with its flags and factory calls, and no connection attempt if it is not ready; without sending the camera stays; a new client with all four hooks (its `SigError` the controller's `Error`) once the camera is ready; running exactly when the socket opens and the register frame is sent, and then the waiting title; notices, peer and slots stay |
| Window.MainWindow.Stop | MainWindow.xaml.cs:126-155 | nothing when not running; otherwise the controller is destroyed (the old client closed with its other hooks and frames kept, both slots emptied, track, source and peer disposed in that order), the timers stop, and the counters, labels, views and title are reset; the wiring stays |
| Window.MainWindow.OnStartButtonClick | MainWindow.xaml.cs:222-260 | a click while running has all of Stop's effect; otherwise, with a direction chosen, all of Start's effect for that direction, and nothing without one; a failed start after the connect step leaves the new client in place, and a throwing track factory leaves the camera source |
| Window.MainWindow.OnRefreshTimer | MainWindow.xaml.cs:172-194 | each slot is emptied; a taken frame is shown (the remote one with the effect when it is on) and counted with `uint` wrap-around |
| Window.MainWindow.OnFpsTimer | MainWindow.xaml.cs:196-203 | each label shows its count, and the counts restart from 0 |
| Window.MainWindow.ErrorHandle | MainWindow.xaml.cs:162-170 | an error has all of Stop's effect: a running session is torn down, otherwise nothing changes |
| Window.MainWindow.OnPeerConnected | MainWindow.xaml.cs:217-220 | the title shows the connected status |
| Window.MainWindow.OnWindowClose | MainWindow.xaml.cs:205-210 | closing the window has all of Stop's effect: a running session is torn down, otherwise nothing changes |

## Left out

- The WebSocket transport, TLS 1.3 and the server URL: whether the socket opens and whether a send throws are parameters.
- Logging (`Logger.Trace`), the message boxes, button enabling, and the intermediate title while a session stops.
- JSON parsing is a parameter. The reference reader in `JsonText` reads objects, strings, integers and literals without whitespace, and no arrays or non-integer numbers. So the round-trip lemmas are stated for frames within that set.
- `JsonElement.ToString()` of an object or array returns the element's raw text. The model uses its compact encoding instead, so a candidate's `ice` object is re-parsed from compact text rather than from the original spacing.
- Signaling.DeserializeResponse reports the first conversion error in a fixed member order. The serializer reports the first one it meets in document order, and its error messages carry a JSON path that the model does not reproduce.
- The outbound builders do not escape their inputs. The frame lemmas require text without quotes, backslashes or control characters. For SDP they require printable text plus CRLF, so a tab is excluded.
- Signaling.SigClient.SendRegister: the client id comes from `Random.Next()` and is a parameter in [0, 2^31-1).
- Concurrency: the socket, engine and timer callbacks run on several threads. The locks around the frame slots and the deferral of window handlers through `Dispatcher.BeginInvoke` are collapsed into sequential calls.
- The `await` points in `Start` and `CreateLocalVideoDevice` are modelled as completing before the next click.
- The media engine is reduced to present/absent flags and a ghost log of the calls made to it. The conversion of frames to bitmaps, `Misc.ApplyEffect` (a parameter of `OnRefreshTimer`), renegotiation and ICE-state logging are not modelled.
- `AddIceCandidate`, `CreateAnswer`, `CreateOffer` and `Dispose` are taken not to throw.
- A peer connection replaced by a second `accept` is not disposed in the source. The model records only the new `CreatePeer`.
- Window.MainWindow.constructor: the window title when settings are rejected, and the initial FPS label text, come from the XAML layout, which is not part of this model.
- Text.IntToDecimal: C# formats the interpolated numbers with the current culture; the model writes a negative number with "-", as the invariant culture does.
- Reading the settings file is a parameter: either the file's settings or a failure to open it. A failure part-way through reading the three settings is not modelled.
