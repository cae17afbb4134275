/** The signaling client (SigClient.cs): the messages it builds, the way it
    classifies an inbound text frame, and the client object whose delegates
    and socket the rest of the program uses.

    JSON parsing (`JsonDocument.Parse`) is a library call: it enters as the
    parameter `parse`, which maps a text to the parsed value or to the text of
    the exception it throws. The WebSocket is a record of the frames
    written to it plus caller-chosen outcomes for each connect and send. */
module Signaling {
  import opened Common
  import opened Text
  import opened Json
  import JsonText

  // ---------------------------------------------------------------------
  // Data

  /** `SigContext`: where to connect and how to register. */
  datatype SigContext = SigContext(url: string, sigKey: string, roomId: string)

  /** `IceServer` as the serializer builds it; a JSON null or an absent
      member leaves a C# `null`, written `None`. */
  datatype IceServer = IceServer(
    credential: Option<string>,
    username: Option<string>,
    urls: Option<seq<Option<string>>>)

  /** `SigRegisterResponse`, the payload of an `accept` message. */
  datatype SigRegisterResponse = SigRegisterResponse(
    kind: Option<string>,
    connectionId: Option<string>,
    isExistClient: bool,
    isExistUser: bool,
    isInitiator: bool,
    iceServers: Option<seq<Option<IceServer>>>)

  /** `SdpMessageType` of the media engine. */
  datatype SdpMessageType = Offer | Answer

  /** `SdpMessage`: the kind of a session description and its text. */
  datatype SdpMessage = SdpMessage(sdpType: SdpMessageType, content: string)

  /** `IceCandidate`: media line id, media line index and the candidate line. */
  datatype IceCandidate = IceCandidate(sdpMid: string, sdpMlineIndex: Int32, content: string)

  /** `SdpMessage.TypeToString`. */
  function TypeToString(t: SdpMessageType): (r: string)
    ensures r == "offer" || r == "answer"
    ensures r == "offer" <==> t == Offer
  {
    match t
    case Offer => "offer"
    case Answer => "answer"
  }

  /** `SdpMessage.StringToType`, which the client calls only with "offer" or "answer". */
  function StringToType(s: string): (t: SdpMessageType)
    requires s == "offer" || s == "answer"
    ensures TypeToString(t) == s
  {
    if s == "offer" then Offer else Answer
  }

  // ---------------------------------------------------------------------
  // SDP line terminators on the wire

  const Crlf: string := "\r\n"
  const EscapedCrlf: string := "\\r\\n"

  /** What `SendSdpMessage` puts on the wire for an SDP text: every CRLF
      becomes the four characters backslash, r, backslash, n. */
  function EscapeSdp(content: string): string
  {
    Replace(content, Crlf, EscapedCrlf)
  }

  /** The inverse replacement that `MessageHandle` computes on an inbound `sdp` field. */
  function UnescapeSdp(wire: string): string
  {
    Replace(wire, EscapedCrlf, Crlf)
  }

  /** No CR is directly followed by LF. */
  predicate NoCrlf(s: string)
  {
    forall i :: 0 <= i < |s| - 1 ==> !(s[i] == '\r' && s[i + 1] == '\n')
  }

  /** One step of `EscapeSdp`: a leading CRLF becomes the escape, anything else is kept. */
  lemma EscapeSdpFirst(s: string)
    requires |s| > 0
    ensures |s| >= 2 && s[..2] == Crlf ==> EscapeSdp(s) == EscapedCrlf + EscapeSdp(s[2..])
    ensures !(|s| >= 2 && s[..2] == Crlf) ==> EscapeSdp(s) == [s[0]] + EscapeSdp(s[1..])
  {
    if |s| == 1 {
      assert EscapeSdp(s[1..]) == [];
      assert s == [s[0]];
    }
  }

  /** The escaped text carries no CRLF. */
  lemma {:induction false} EscapeSdpLeavesNoCrlf(content: string)
    ensures NoCrlf(EscapeSdp(content))
    decreases |content|
  {
    if |content| > 0 {
      var e := EscapeSdp(content);
      EscapeSdpFirst(content);
      if |content| >= 2 && content[..2] == Crlf {
        EscapeSdpLeavesNoCrlf(content[2..]);
        var t := EscapeSdp(content[2..]);
        forall i | 0 <= i < |e| - 1 ensures !(e[i] == '\r' && e[i + 1] == '\n') {
          if i >= 4 {
            assert e[i] == t[i - 4] && e[i + 1] == t[i - 3];
          }
        }
      } else {
        EscapeSdpLeavesNoCrlf(content[1..]);
        var t := EscapeSdp(content[1..]);
        forall i | 0 <= i < |e| - 1 ensures !(e[i] == '\r' && e[i + 1] == '\n') {
          if i == 0 {
            if content[0] == '\r' && |content| >= 2 {
              EscapeSdpFirst(content[1..]);
              assert content[..2] == [content[0], content[1]];
            }
          } else {
            assert e[i] == t[i - 1] && e[i + 1] == t[i];
          }
        }
      }
    }
  }

  /** An escaped text starts with the four-character escape only where the
      original text starts with CRLF or with those same four characters. */
  lemma EscapedStart(c: string)
    requires |EscapeSdp(c)| >= 4 && EscapeSdp(c)[..4] == EscapedCrlf
    ensures (|c| >= 2 && c[..2] == Crlf) || OccursAt(c, EscapedCrlf, 0)
  {
    var e := EscapeSdp(c);
    if |c| > 0 && !(|c| >= 2 && c[..2] == Crlf) {
      assert e[0] == '\\' && e[1] == 'r' && e[2] == '\\' && e[3] == 'n' by {
        assert e[..4][0] == e[0] && e[..4][1] == e[1] && e[..4][2] == e[2] && e[..4][3] == e[3];
      }
      EscapeSdpFirst(c);
      var e1 := EscapeSdp(c[1..]);
      assert e1 == e[1..];
      assert |c[1..]| > 0;
      EscapeSdpFirst(c[1..]);
      assert c[1..][0] == c[1];
      var e2 := EscapeSdp(c[2..]);
      assert e2 == e1[1..];
      assert |c[2..]| > 0;
      EscapeSdpFirst(c[2..]);
      assert c[2..][0] == c[2];
      var e3 := EscapeSdp(c[3..]);
      assert e3 == e2[1..];
      assert |c[3..]| > 0;
      EscapeSdpFirst(c[3..]);
      assert c[3..][0] == c[3];
      assert c[..4] == EscapedCrlf;
    }
  }

  lemma NoOccurrenceInSuffix(c: string, pattern: string, k: nat)
    requires k <= |c| && !Occurs(c, pattern)
    ensures !Occurs(c[k..], pattern)
  {
    forall i | 0 <= i <= |c[k..]| && OccursAt(c[k..], pattern, i) ensures false {
      assert c[k..][i..i + |pattern|] == c[i + k..i + k + |pattern|];
      assert OccursAt(c, pattern, i + k);
    }
  }

  /** Line 171's replacement undoes line 287's whenever the original text
      does not itself contain the four characters backslash-r-backslash-n. */
  lemma {:induction false} UnescapeEscapeSdp(content: string)
    requires !Occurs(content, EscapedCrlf)
    ensures UnescapeSdp(EscapeSdp(content)) == content
    decreases |content|
  {
    if |content| > 0 {
      EscapeSdpFirst(content);
      if |content| >= 2 && content[..2] == Crlf {
        var t := EscapeSdp(content[2..]);
        NoOccurrenceInSuffix(content, EscapedCrlf, 2);
        UnescapeEscapeSdp(content[2..]);
        var w := EscapedCrlf + t;
        assert w[..4] == EscapedCrlf && w[4..] == t;
        assert UnescapeSdp(w) == Crlf + UnescapeSdp(t);
        assert content == content[..2] + content[2..];
      } else {
        var t := EscapeSdp(content[1..]);
        NoOccurrenceInSuffix(content, EscapedCrlf, 1);
        UnescapeEscapeSdp(content[1..]);
        var w := [content[0]] + t;
        if |w| >= 4 && w[..4] == EscapedCrlf {
          EscapedStart(content);
          assert false;
        }
        if |w| >= 4 {
          assert w[1..] == t;
          assert UnescapeSdp(w) == [content[0]] + UnescapeSdp(t);
        } else {
          assert UnescapeSdp(t) == t;
        }
        assert content == [content[0]] + content[1..];
      }
    }
  }

  /** Without that condition the replacement is not undone: a text holding
      the four characters themselves comes back as a CRLF. */
  lemma UnescapeEscapeNeedsPremise()
    ensures EscapeSdp("\\r\\n") == "\\r\\n"
    ensures UnescapeSdp(EscapeSdp("\\r\\n")) == "\r\n"
  {
    assert EscapeSdp("n") == "n";
    assert EscapeSdp("\\n") == "\\n";
    assert EscapeSdp("r\\n") == "r\\n";
    assert EscapeSdp("\\r\\n") == "\\r\\n";
  }

  /** A prefix without backslashes cannot hold the escape: it is kept as it is. */
  lemma {:induction false} UnescapeKeepsPrefix(prefix: string, t: string)
    requires forall k :: 0 <= k < |prefix| ==> prefix[k] != '\\'
    ensures UnescapeSdp(prefix + t) == prefix + UnescapeSdp(t)
    decreases |prefix|
  {
    if |prefix| > 0 {
      var w := prefix + t;
      UnescapeKeepsPrefix(prefix[1..], t);
      assert w[1..] == prefix[1..] + t;
      if |w| >= 4 {
        assert w[..4][0] == prefix[0];
        assert UnescapeSdp(w) == [w[0]] + UnescapeSdp(w[1..]);
      } else {
        assert UnescapeSdp(prefix[1..] + t) == prefix[1..] + t;
        assert UnescapeSdp(t) == t;
      }
      calc {
        UnescapeSdp(w);
        [prefix[0]] + (prefix[1..] + UnescapeSdp(t));
        { assert prefix == [prefix[0]] + prefix[1..]; }
        prefix + UnescapeSdp(t);
      }
    } else {
      assert prefix + t == t;
    }
  }

  /** The escape itself becomes CRLF. */
  lemma UnescapeEscaped(t: string)
    ensures UnescapeSdp(EscapedCrlf + t) == Crlf + UnescapeSdp(t)
  {
    var w := EscapedCrlf + t;
    assert w[..4] == EscapedCrlf && w[4..] == t;
  }

  /** The wire value "a=foo\r\nb=bar" (with a literal backslash-r-backslash-n)
      is unescaped to two lines. */
  lemma UnescapeExample()
    ensures UnescapeSdp("a=foo\\r\\nb=bar") == "a=foo\r\nb=bar"
  {
    UnescapeSplit("a=foo", "b=bar");
    assert "a=foo\\r\\nb=bar" == "a=foo" + (EscapedCrlf + "b=bar");
    assert "a=foo\r\nb=bar" == "a=foo" + (Crlf + "b=bar");
  }

  /** Two backslash-free texts around one escape. */
  lemma UnescapeSplit(before: string, after: string)
    requires forall k :: 0 <= k < |before| ==> before[k] != '\\'
    requires forall k :: 0 <= k < |after| ==> after[k] != '\\'
    ensures UnescapeSdp(before + (EscapedCrlf + after)) == before + (Crlf + after)
  {
    UnescapeKeepsPrefix(after, []);
    assert after + [] == after;
    UnescapeEscaped(after);
    UnescapeKeepsPrefix(before, EscapedCrlf + after);
  }

  /** SDP text whose only control characters are CRLF line ends and which
      holds no quote or backslash: for it, escaping CRLF is the whole of JSON
      string escaping. */
  predicate IsSdpText(s: string)
    decreases |s|
  {
    s == [] ||
    (|s| >= 2 && s[..2] == Crlf && IsSdpText(s[2..])) ||
    (IsPlainChar(s[0]) && IsSdpText(s[1..]))
  }

  /** On such text the wire escape coincides with the JSON string escape. */
  lemma {:induction false} EscapeSdpIsJsonEscape(content: string)
    requires IsSdpText(content)
    ensures EscapeSdp(content) == EscapeString(content)
    decreases |content|
  {
    if content != [] {
      EscapeSdpFirst(content);
      if |content| >= 2 && content[..2] == Crlf {
        EscapeSdpIsJsonEscape(content[2..]);
        assert content[0] == '\r' && content[1] == '\n' by {
          assert content[..2][0] == content[0] && content[..2][1] == content[1];
        }
        assert content[1..][0] == '\n' && content[1..][1..] == content[2..];
        assert EscapeString(content[1..]) == "\\n" + EscapeString(content[2..]);
        assert EscapeString(content) == "\\r" + ("\\n" + EscapeString(content[2..]));
      } else {
        EscapeSdpIsJsonEscape(content[1..]);
      }
    }
  }

  // ---------------------------------------------------------------------
  // Inbound: what one text message leads to (MessageHandle)

  /** The effect of one inbound text message, before the delegates are consulted. */
  datatype Outcome =
    | Fail(message: string)                    // ErrorHandle(message)
    | CandidateIn(candidate: IceCandidate)     // IceCandidateReceived
    | SdpIn(sdp: SdpMessage)                   // SdpMessageReceived
    | AcceptIn(response: SigRegisterResponse)  // SigRegisterResponseReceived
    | PingIn                                   // answered with a pong frame

  const TypeError: string := "Protocol Error (type)"
  const CandidateError: string := "Protocol Error (candidate)"
  const AcceptError: string := "Protocol Error (accept)"

  /** The report of an exception caught at the end of `MessageHandle`. */
  function ParseFailure(e: Exception): (r: Outcome)
    ensures r.Fail? && r.message !in {TypeError, CandidateError, AcceptError}
  {
    var m := "Protocol Error (Parse:" + ExceptionMessage(e) + ")";
    assert m[16] == 'P';
    Fail(m)
  }

  function UnknownTypeError(t: string): string
  {
    "Protocol Error (unknown type:" + t + ")"
  }

  /** `root.GetProperty("type").GetString()`. */
  function TypeOf(root: Json): Result<Option<string>, Exception>
  {
    match GetProperty(root, "type")
    case Err(e) => Err(e)
    case Ok(element) => GetString(element)
  }

  /** The message's type, when the text parses and its `type` member is a string. */
  function MessageType(message: string, parse: string -> Result<Json, string>): Option<string>
  {
    match parse(message)
    case Err(_) => None
    case Ok(root) =>
      match TypeOf(root)
      case Ok(Some(t)) => Some(t)
      case _ => None
  }

  /** `MessageHandle`'s classification of one text message. */
  function Dispatch(message: string, parse: string -> Result<Json, string>): (r: Outcome)
    ensures r.PingIn? <==> MessageType(message, parse) == Some("ping")
    ensures r.CandidateIn? ==> MessageType(message, parse) == Some("candidate")
    ensures r.SdpIn? ==> MessageType(message, parse) == Some(TypeToString(r.sdp.sdpType))
    ensures r.AcceptIn? ==> MessageType(message, parse) == Some("accept")
    ensures (MessageType(message, parse) !in {Some("candidate"), Some("offer"), Some("answer"), Some("accept"), Some("ping")})
              ==> r.Fail?
    ensures r.Fail? ==> r.message != AcceptError
    ensures MessageType(message, parse) == Some("candidate") ==>
              r == CandidateOutcome(parse(message).value, parse)
    ensures MessageType(message, parse) == Some("offer") ==> r == SdpOutcome(parse(message).value, "offer")
    ensures MessageType(message, parse) == Some("answer") ==> r == SdpOutcome(parse(message).value, "answer")
    ensures MessageType(message, parse) == Some("accept") ==>
              parse(message).value.JObject? && r == AcceptOutcome(parse(message).value)
  {
    match parse(message)
    case Err(m) => ParseFailure(JsonError(m))
    case Ok(root) =>
      match TypeOf(root)
      case Err(e) => ParseFailure(e)
      case Ok(None) => Fail(TypeError)
      case Ok(Some(t)) =>
        if t == "candidate" then CandidateOutcome(root, parse)
        else if t == "offer" || t == "answer" then SdpOutcome(root, t)
        else if t == "accept" then AcceptOutcome(root)
        else if t == "ping" then PingIn
        else
          assert UnknownTypeError(t)[16] == 'u';
          Fail(UnknownTypeError(t))
  }

  /** The `candidate` branch: `ice` is turned back into text and parsed again. */
  function CandidateOutcome(root: Json, parse: string -> Result<Json, string>): (r: Outcome)
    ensures r.Fail? ==> r.message != AcceptError
    ensures !r.PingIn? && !r.SdpIn? && !r.AcceptIn?
    ensures r.CandidateIn? <==>
              (GetProperty(root, "ice").Ok? && parse(ToText(GetProperty(root, "ice").value)).Ok?
               && ReadCandidate(parse(ToText(GetProperty(root, "ice").value)).value).Ok?
               && ReadCandidate(parse(ToText(GetProperty(root, "ice").value)).value).value.Some?)
    ensures r.CandidateIn? ==>
              ReadCandidate(parse(ToText(GetProperty(root, "ice").value)).value) == Ok(Some(r.candidate))
  {
    match GetProperty(root, "ice")
    case Err(e) => ParseFailure(e)
    case Ok(ice) =>
      match parse(ToText(ice))
      case Err(m) => ParseFailure(JsonError(m))
      case Ok(iceRoot) =>
        match ReadCandidate(iceRoot)
        case Err(e) => ParseFailure(e)
        case Ok(None) => Fail(CandidateError)
        case Ok(Some(c)) => CandidateIn(c)
  }

  /** `sdpMid`: "0" when absent, otherwise the member's text. */
  function SdpMidOf(iceRoot: Json): (r: Result<string, Exception>)
    ensures r.Ok? <==> iceRoot.JObject?
    ensures iceRoot.JObject? && Lookup(iceRoot.members, "sdpMid").None? ==> r == Ok("0")
    ensures iceRoot.JObject? && Lookup(iceRoot.members, "sdpMid").Some? ==>
              r == Ok(ToText(Lookup(iceRoot.members, "sdpMid").value))
  {
    match TryGetProperty(iceRoot, "sdpMid")
    case Err(e) => Err(e)
    case Ok(None) => Ok("0")
    case Ok(Some(element)) => Ok(ToText(element))
  }

  /** `sdpMLineIndex`: 0 when absent, otherwise the member read as an Int32. */
  function SdpMlineIndexOf(iceRoot: Json): (r: Result<Int32, Exception>)
    requires iceRoot.JObject?
    ensures Lookup(iceRoot.members, "sdpMLineIndex").None? ==> r == Ok(0)
    ensures r.Ok? && Lookup(iceRoot.members, "sdpMLineIndex").Some? ==>
              Lookup(iceRoot.members, "sdpMLineIndex").value.JNumber? &&
              ParseInt32(Lookup(iceRoot.members, "sdpMLineIndex").value.raw) == Some(r.value)
    ensures Lookup(iceRoot.members, "sdpMLineIndex").Some? ==>
              (r.Ok? <==> Lookup(iceRoot.members, "sdpMLineIndex").value.JNumber? &&
                          ParseInt32(Lookup(iceRoot.members, "sdpMLineIndex").value.raw).Some?)
  {
    match Lookup(iceRoot.members, "sdpMLineIndex")
    case None => Ok(0)
    case Some(element) => GetInt32(element)
  }

  /** The three fields of an inbound candidate, or `None` when `candidate` is null. */
  function ReadCandidate(iceRoot: Json): (r: Result<Option<IceCandidate>, Exception>)
    ensures r.Ok? ==> iceRoot.JObject?
    ensures r.Ok? <==> (iceRoot.JObject? && SdpMlineIndexOf(iceRoot).Ok?
                        && Lookup(iceRoot.members, "candidate").Some?
                        && (Lookup(iceRoot.members, "candidate").value.JString?
                            || Lookup(iceRoot.members, "candidate").value.JNull?))
    ensures r == Ok(None) ==> Lookup(iceRoot.members, "candidate") == Some(JNull)
    ensures iceRoot.JObject? && SdpMlineIndexOf(iceRoot).Ok? && Lookup(iceRoot.members, "candidate") == Some(JNull) ==>
              r == Ok(None)
    ensures iceRoot.JObject? && SdpMlineIndexOf(iceRoot).Ok? && Lookup(iceRoot.members, "candidate").Some?
            && Lookup(iceRoot.members, "candidate").value.JString? ==>
              r == Ok(Some(IceCandidate(SdpMidOf(iceRoot).value, SdpMlineIndexOf(iceRoot).value,
                                        Lookup(iceRoot.members, "candidate").value.s)))
    ensures r.Ok? && r.value.Some? ==>
              Lookup(iceRoot.members, "candidate") == Some(JString(r.value.value.content))
              && SdpMidOf(iceRoot) == Ok(r.value.value.sdpMid)
              && SdpMlineIndexOf(iceRoot) == Ok(r.value.value.sdpMlineIndex)
  {
    match SdpMidOf(iceRoot)
    case Err(e) => Err(e)
    case Ok(mid) =>
      match SdpMlineIndexOf(iceRoot)
      case Err(e) => Err(e)
      case Ok(index) =>
        match GetProperty(iceRoot, "candidate")
        case Err(e) => Err(e)
        case Ok(element) =>
          match GetString(element)
          case Err(e) => Err(e)
          case Ok(None) => Ok(None)
          case Ok(Some(content)) => Ok(Some(IceCandidate(mid, index, content)))
  }

  /** The `offer`/`answer` branch. The unescaped text of line 171 is never
      used: the event carries the member's text as it is. */
  function SdpOutcome(root: Json, t: string): (r: Outcome)
    requires t == "offer" || t == "answer"
    ensures r.SdpIn? ==> TypeToString(r.sdp.sdpType) == t
    ensures r.SdpIn? <==> GetProperty(root, "sdp").Ok?
    ensures r.SdpIn? ==> r.sdp.content == ToText(GetProperty(root, "sdp").value)
    ensures r.Fail? ==> r.message != AcceptError
  {
    match GetProperty(root, "sdp")
    case Err(e) => ParseFailure(e)
    case Ok(element) =>
      var sdpStr := ToText(element);
      SdpIn(SdpMessage(StringToType(t), sdpStr))
  }

  /** The `accept` branch: `JsonSerializer.Deserialize<SigRegisterResponse>`. */
  function AcceptOutcome(root: Json): (r: Outcome)
    requires root.JObject?
    ensures r.Fail? || r.AcceptIn?
    ensures r.Fail? ==> r.message != AcceptError
    ensures r.AcceptIn? <==> DeserializeResponse(root).Ok?
    ensures r.AcceptIn? ==> DeserializeResponse(root) == Ok(Some(r.response))
  {
    match DeserializeResponse(root)
    case Err(e) => ParseFailure(e)
    case Ok(None) => Fail(AcceptError)
    case Ok(Some(response)) => AcceptIn(response)
  }

  // ---------------------------------------------------------------------
  // JsonSerializer: case-sensitive member names, a missing member leaves
  // the default (null or false), unknown members are ignored.

  function ConversionError(target: string): Exception
  {
    JsonError("The JSON value could not be converted to " + target + ".")
  }

  /** A `string` property: a string, or null for an absent or null member. */
  function ReadNullableString(members: seq<(string, Json)>, name: string): (r: Result<Option<string>, Exception>)
    ensures r == Ok(None) <==> Lookup(members, name) in {None, Some(JNull)}
    ensures forall s :: r == Ok(Some(s)) <==> Lookup(members, name) == Some(JString(s))
  {
    match Lookup(members, name)
    case None => Ok(None)
    case Some(JNull) => Ok(None)
    case Some(JString(s)) => Ok(Some(s))
    case Some(_) => Err(ConversionError("System.String"))
  }

  /** A `bool` property: false when absent; a null is an error for a value type. */
  function ReadBool(members: seq<(string, Json)>, name: string): (r: Result<bool, Exception>)
    ensures r == Ok(true) <==> Lookup(members, name) == Some(JBool(true))
    ensures r == Ok(false) <==> Lookup(members, name) in {None, Some(JBool(false))}
  {
    match Lookup(members, name)
    case None => Ok(false)
    case Some(JBool(b)) => Ok(b)
    case Some(_) => Err(ConversionError("System.Boolean"))
  }

  /** The elements of a `string[]`. */
  function ReadUrls(items: seq<Json>): (r: Result<seq<Option<string>>, Exception>)
    ensures r.Ok? <==> forall i :: 0 <= i < |items| ==> items[i].JString? || items[i].JNull?
    ensures r.Ok? ==> |r.value| == |items|
    ensures r.Ok? ==> forall i :: 0 <= i < |items| ==>
              r.value[i] == (if items[i].JNull? then None else Some(items[i].s))
    decreases |items|
  {
    if items == [] then Ok([])
    else
      var first: Result<Option<string>, Exception> :=
        match items[0]
        case JNull => Ok(None)
        case JString(s) => Ok(Some(s))
        case _ => Err(ConversionError("System.String"));
      match first
      case Err(e) => Err(e)
      case Ok(url) =>
        match ReadUrls(items[1..])
        case Err(e) => Err(e)
        case Ok(more) => Ok([url] + more)
  }

  /** One element of `IceServer[]`: null, or an object with the three properties. */
  function ReadIceServer(j: Json): (r: Result<Option<IceServer>, Exception>)
    ensures r == Ok(None) <==> j == JNull
    ensures r.Ok? <==> (j.JNull? ||
                        (j.JObject?
                         && ReadNullableString(j.members, "credential").Ok?
                         && ReadNullableString(j.members, "username").Ok?
                         && (Lookup(j.members, "urls") in {None, Some(JNull)}
                             || (Lookup(j.members, "urls").Some? && Lookup(j.members, "urls").value.JArray?
                                 && ReadUrls(Lookup(j.members, "urls").value.items).Ok?))))
    ensures r.Ok? && r.value.Some? ==>
              (j.JObject?
               && ReadNullableString(j.members, "credential") == Ok(r.value.value.credential)
               && ReadNullableString(j.members, "username") == Ok(r.value.value.username)
               && (r.value.value.urls.None? <==> Lookup(j.members, "urls") in {None, Some(JNull)}))
    ensures r.Ok? && r.value.Some? && r.value.value.urls.Some? ==>
              (Lookup(j.members, "urls").Some? && Lookup(j.members, "urls").value.JArray?
               && ReadUrls(Lookup(j.members, "urls").value.items) == Ok(r.value.value.urls.value))
  {
    match j
    case JNull => Ok(None)
    case JObject(members) =>
      (match ReadNullableString(members, "credential")
       case Err(e) => Err(e)
       case Ok(credential) =>
         match ReadNullableString(members, "username")
         case Err(e) => Err(e)
         case Ok(username) =>
           match Lookup(members, "urls")
           case None => Ok(Some(IceServer(credential, username, None)))
           case Some(JNull) => Ok(Some(IceServer(credential, username, None)))
           case Some(JArray(items)) =>
             (match ReadUrls(items)
              case Err(e) => Err(e)
              case Ok(urls) => Ok(Some(IceServer(credential, username, Some(urls)))))
           case Some(_) => Err(ConversionError("System.String[]")))
    case _ => Err(ConversionError("Test.IceServer"))
  }

  function ReadIceServers(items: seq<Json>): (r: Result<seq<Option<IceServer>>, Exception>)
    ensures r.Ok? <==> forall i :: 0 <= i < |items| ==> ReadIceServer(items[i]).Ok?
    ensures r.Ok? ==> |r.value| == |items|
    ensures r.Ok? ==> forall i :: 0 <= i < |items| ==> ReadIceServer(items[i]) == Ok(r.value[i])
    decreases |items|
  {
    if items == [] then Ok([])
    else
      match ReadIceServer(items[0])
      case Err(e) => Err(e)
      case Ok(server) =>
        match ReadIceServers(items[1..])
        case Err(e) => Err(e)
        case Ok(more) => Ok([server] + more)
  }

  /** `JsonSerializer.Deserialize<SigRegisterResponse>` of the message. */
  function DeserializeResponse(root: Json): (r: Result<Option<SigRegisterResponse>, Exception>)
    ensures r == Ok(None) <==> root == JNull
    ensures r.Ok? <==> (root.JNull? ||
                        (root.JObject?
                         && ReadNullableString(root.members, "type").Ok?
                         && ReadNullableString(root.members, "connectionId").Ok?
                         && ReadBool(root.members, "isExistClient").Ok?
                         && ReadBool(root.members, "isExistUser").Ok?
                         && ReadBool(root.members, "isInitiator").Ok?
                         && (Lookup(root.members, "iceServers") in {None, Some(JNull)}
                             || (Lookup(root.members, "iceServers").Some? && Lookup(root.members, "iceServers").value.JArray?
                                 && ReadIceServers(Lookup(root.members, "iceServers").value.items).Ok?))))
    ensures r.Ok? && r.value.Some? ==>
              (root.JObject?
               && ReadNullableString(root.members, "type") == Ok(r.value.value.kind)
               && ReadNullableString(root.members, "connectionId") == Ok(r.value.value.connectionId)
               && ReadBool(root.members, "isExistClient") == Ok(r.value.value.isExistClient)
               && ReadBool(root.members, "isExistUser") == Ok(r.value.value.isExistUser)
               && ReadBool(root.members, "isInitiator") == Ok(r.value.value.isInitiator)
               && (r.value.value.iceServers.None? <==> Lookup(root.members, "iceServers") in {None, Some(JNull)}))
    ensures r.Ok? && r.value.Some? && r.value.value.iceServers.Some? ==>
              (Lookup(root.members, "iceServers").Some? && Lookup(root.members, "iceServers").value.JArray?
               && ReadIceServers(Lookup(root.members, "iceServers").value.items) == Ok(r.value.value.iceServers.value))
  {
    match root
    case JNull => Ok(None)
    case JObject(ms) =>
      (match ReadNullableString(ms, "type")
       case Err(e) => Err(e)
       case Ok(kind) =>
         match ReadNullableString(ms, "connectionId")
         case Err(e) => Err(e)
         case Ok(connectionId) =>
           match ReadBool(ms, "isExistClient")
           case Err(e) => Err(e)
           case Ok(isExistClient) =>
             match ReadBool(ms, "isExistUser")
             case Err(e) => Err(e)
             case Ok(isExistUser) =>
               match ReadBool(ms, "isInitiator")
               case Err(e) => Err(e)
               case Ok(isInitiator) =>
                 var servers: Result<Option<seq<Option<IceServer>>>, Exception> :=
                   match Lookup(ms, "iceServers")
                   case None => Ok(None)
                   case Some(JNull) => Ok(None)
                   case Some(JArray(items)) =>
                     (match ReadIceServers(items)
                      case Err(e) => Err(e)
                      case Ok(list) => Ok(Some(list)))
                   case Some(_) => Err(ConversionError("Test.IceServer[]"));
                 match servers
                 case Err(e) => Err(e)
                 case Ok(iceServers) =>
                   Ok(Some(SigRegisterResponse(kind, connectionId, isExistClient, isExistUser, isInitiator, iceServers))))
    case _ => Err(ConversionError("Test.SigRegisterResponse"))
  }

  // ---------------------------------------------------------------------
  // Outbound messages, concatenated as the client writes them: field values
  // are inserted without JSON escaping.

  /** `SendRegister`'s text; `clientId` is the number it draws at random. */
  function RegisterFrame(roomId: string, clientId: int, sigKey: string): string
  {
    RegisterFrameText(roomId, IntToDecimal(clientId), sigKey)
  }

  function RegisterFrameText(roomId: string, id: string, sigKey: string): string
  {
    "{" + "\"type\":\"register\"" + "," + "\"roomId\":\"" + roomId + "\"" + ","
      + "\"clientId\":\"" + id + "\"" + "," + "\"key\":\"" + sigKey + "\"" + ","
      + "\"authnMetadata\":{}" + "}"
  }

  /** `SendIceCanditate`'s text: the candidate object nested under `ice`. */
  function CandidateFrame(c: IceCandidate): string
  {
    var ice := "{" + "\"candidate\":\"" + c.content + "\"" + "," + "\"sdpMid\":\"" + c.sdpMid + "\"" + ","
      + "\"sdpMLineIndex\":" + IntToDecimal(c.sdpMlineIndex) + "}";
    "{\"type\":\"candidate\",\"ice\":" + ice + "}"
  }

  /** `SendSdpMessage`'s text. */
  function SdpFrame(m: SdpMessage): string
  {
    "{\"type\":\"" + TypeToString(m.sdpType) + "\",\"sdp\":\"" + EscapeSdp(m.content) + "\"}"
  }

  /** The reply to a `ping`. */
  const PongFrame: string := "{\"type\":\"pong\"}"

  /** The objects the frames are meant to denote. */
  function RegisterObject(roomId: string, clientId: int, sigKey: string): Json
  {
    JObject([("type", JString("register")), ("roomId", JString(roomId)),
             ("clientId", JString(IntToDecimal(clientId))), ("key", JString(sigKey)),
             ("authnMetadata", JObject([]))])
  }

  function IceObject(c: IceCandidate): Json
  {
    JObject([("candidate", JString(c.content)), ("sdpMid", JString(c.sdpMid)),
             ("sdpMLineIndex", JNumber(IntToDecimal(c.sdpMlineIndex)))])
  }

  function CandidateObject(c: IceCandidate): Json
  {
    JObject([("type", JString("candidate")), ("ice", IceObject(c))])
  }

  function SdpObject(m: SdpMessage): Json
  {
    JObject([("type", JString(TypeToString(m.sdpType))), ("sdp", JString(m.content))])
  }

  // Encoding steps used to match the concatenations against `Encode`.

  lemma QuotePlain(s: string)
    requires IsPlainText(s)
    ensures Quote(s) == "\"" + s + "\""
  {
    EscapePlain(s);
  }

  lemma EncodeMembersCons(m: (string, Json), more: seq<(string, Json)>)
    requires more != []
    ensures EncodeMembers([m] + more) == Quote(m.0) + ":" + Encode(m.1) + "," + EncodeMembers(more)
  {
    assert ([m] + more)[0] == m && ([m] + more)[1..] == more;
  }

  lemma EncodeMembersOne(m: (string, Json))
    ensures EncodeMembers([m]) == Quote(m.0) + ":" + Encode(m.1)
  {
    assert [m][0] == m;
  }

  /** `int.ToString()` is a JSON integer token of plain characters. */
  lemma DecimalIsPlain(n: int)
    ensures IsPlainText(IntToDecimal(n)) && IsIntegerToken(IntToDecimal(n))
  {
    var m: nat := if n < 0 then -n else n;
    NatToDecimalDigits(m);
    var d := NatToDecimal(m);
    if n < 0 {
      var t := "-" + d;
      assert t[1..] == d;
      forall i | 0 <= i < |t| ensures IsPlainChar(t[i]) {
        if i > 0 { assert t[i] == d[i - 1]; }
      }
    }
  }

  /** Five members, each given by its text. */
  lemma FiveMembers(m0: (string, Json), m1: (string, Json), m2: (string, Json), m3: (string, Json), m4: (string, Json),
                    t0: string, t1: string, t2: string, t3: string, t4: string)
    requires Quote(m0.0) + ":" + Encode(m0.1) == t0 && Quote(m1.0) + ":" + Encode(m1.1) == t1
    requires Quote(m2.0) + ":" + Encode(m2.1) == t2 && Quote(m3.0) + ":" + Encode(m3.1) == t3
    requires Quote(m4.0) + ":" + Encode(m4.1) == t4
    ensures EncodeMembers([m0, m1, m2, m3, m4]) == t0 + "," + (t1 + "," + (t2 + "," + (t3 + "," + t4)))
  {
    EncodeMembersOne(m4);
    EncodeMembersCons(m3, [m4]);
    assert [m3] + [m4] == [m3, m4];
    EncodeMembersCons(m2, [m3, m4]);
    assert [m2] + [m3, m4] == [m2, m3, m4];
    EncodeMembersCons(m1, [m2, m3, m4]);
    assert [m1] + [m2, m3, m4] == [m1, m2, m3, m4];
    EncodeMembersCons(m0, [m1, m2, m3, m4]);
    assert [m0] + [m1, m2, m3, m4] == [m0, m1, m2, m3, m4];
  }

  /** Three members, each given by its text. */
  lemma ThreeMembers(m0: (string, Json), m1: (string, Json), m2: (string, Json), t0: string, t1: string, t2: string)
    requires Quote(m0.0) + ":" + Encode(m0.1) == t0 && Quote(m1.0) + ":" + Encode(m1.1) == t1
    requires Quote(m2.0) + ":" + Encode(m2.1) == t2
    ensures EncodeMembers([m0, m1, m2]) == t0 + "," + (t1 + "," + t2)
  {
    EncodeMembersOne(m2);
    EncodeMembersCons(m1, [m2]);
    assert [m1] + [m2] == [m1, m2];
    EncodeMembersCons(m0, [m1, m2]);
    assert [m0] + [m1, m2] == [m0, m1, m2];
  }

  /** Two members, each given by its text. */
  lemma TwoMembers(ms: seq<(string, Json)>, t0: string, t1: string)
    requires |ms| == 2
    requires Quote(ms[0].0) + ":" + Encode(ms[0].1) == t0
    requires Quote(ms[1].0) + ":" + Encode(ms[1].1) == t1
    ensures EncodeMembers(ms) == t0 + "," + t1
  {
    EncodeMembersOne(ms[1]);
    assert ms == [ms[0]] + [ms[1]];
    EncodeMembersCons(ms[0], [ms[1]]);
  }

  /** The register frame, regrouped as `EncodeMembers` nests its members. */
  lemma RegisterText(roomId: string, id: string, sigKey: string)
    ensures RegisterFrameText(roomId, id, sigKey) ==
      "{" + ("\"type\":\"register\"" + "," + (("\"roomId\":\"" + roomId + "\"") + ","
        + (("\"clientId\":\"" + id + "\"") + "," + (("\"key\":\"" + sigKey + "\"") + ","
        + "\"authnMetadata\":{}")))) + "}"
  {
  }

  /** The quoted names and values of the register members, written out. */
  lemma RegisterFlat(roomId: string, id: string, sigKey: string)
    ensures ("\"" + "type" + "\"") + ":" + ("\"" + "register" + "\"") == "\"type\":\"register\""
    ensures ("\"" + "roomId" + "\"") + ":" + ("\"" + roomId + "\"") == "\"roomId\":\"" + roomId + "\""
    ensures ("\"" + "clientId" + "\"") + ":" + ("\"" + id + "\"") == "\"clientId\":\"" + id + "\""
    ensures ("\"" + "key" + "\"") + ":" + ("\"" + sigKey + "\"") == "\"key\":\"" + sigKey + "\""
    ensures ("\"" + "authnMetadata" + "\"") + ":" + ("{" + "" + "}") == "\"authnMetadata\":{}"
  {
  }

  /** The members of the register object, each as the frame spells it. */
  lemma RegisterTypeMember()
    ensures Quote("type") + ":" + Encode(JString("register")) == "\"type\":\"register\""
  {
    assert IsPlainText("type") && IsPlainText("register");
    QuotePlain("type");
    QuotePlain("register");
    RegisterFlat("", "", "");
  }

  lemma RegisterRoomMember(roomId: string)
    requires IsPlainText(roomId)
    ensures Quote("roomId") + ":" + Encode(JString(roomId)) == "\"roomId\":\"" + roomId + "\""
  {
    assert IsPlainText("roomId");
    QuotePlain("roomId");
    QuotePlain(roomId);
    RegisterFlat(roomId, "", "");
  }

  lemma RegisterClientMember(id: string)
    requires IsPlainText(id)
    ensures Quote("clientId") + ":" + Encode(JString(id)) == "\"clientId\":\"" + id + "\""
  {
    assert IsPlainText("clientId");
    QuotePlain("clientId");
    QuotePlain(id);
    RegisterFlat("", id, "");
  }

  lemma RegisterKeyMember(sigKey: string)
    requires IsPlainText(sigKey)
    ensures Quote("key") + ":" + Encode(JString(sigKey)) == "\"key\":\"" + sigKey + "\""
  {
    assert IsPlainText("key");
    QuotePlain("key");
    QuotePlain(sigKey);
    RegisterFlat("", "", sigKey);
  }

  lemma RegisterMetadataMember()
    ensures Quote("authnMetadata") + ":" + Encode(JObject([])) == "\"authnMetadata\":{}"
  {
    assert IsPlainText("authnMetadata");
    QuotePlain("authnMetadata");
    assert EncodeMembers([]) == "";
    RegisterFlat("", "", "");
  }

  /** The register frame is the compact text of the register object. */
  lemma RegisterFrameEncodes(roomId: string, clientId: int, sigKey: string)
    requires IsPlainText(roomId) && IsPlainText(sigKey)
    ensures Encode(RegisterObject(roomId, clientId, sigKey)) == RegisterFrame(roomId, clientId, sigKey)
  {
    var id := IntToDecimal(clientId);
    DecimalIsPlain(clientId);
    RegisterTypeMember();
    RegisterRoomMember(roomId);
    RegisterClientMember(id);
    RegisterKeyMember(sigKey);
    RegisterMetadataMember();
    FiveMembers(("type", JString("register")), ("roomId", JString(roomId)), ("clientId", JString(id)),
                ("key", JString(sigKey)), ("authnMetadata", JObject([])),
                "\"type\":\"register\"", "\"roomId\":\"" + roomId + "\"", "\"clientId\":\"" + id + "\"",
                "\"key\":\"" + sigKey + "\"", "\"authnMetadata\":{}");
    RegisterText(roomId, id, sigKey);
  }

  /** The register frame reads back as the register object: `type`, `roomId`,
      `clientId` (a string of digits), `key` and an empty `authnMetadata`, in
      that order, when the room id and the key need no escaping. */
  lemma RegisterFrameDenotes(roomId: string, clientId: int, sigKey: string)
    requires IsPlainText(roomId) && IsPlainText(sigKey)
    ensures JsonText.ReadDocument(RegisterFrame(roomId, clientId, sigKey)) == Ok(RegisterObject(roomId, clientId, sigKey))
  {
    RegisterFrameEncodes(roomId, clientId, sigKey);
    JsonText.EncodableMembers(RegisterObject(roomId, clientId, sigKey).members);
    JsonText.EncodableMembers([]);
    JsonText.ReadDocumentEncoded(RegisterObject(roomId, clientId, sigKey));
  }

  // The candidate frame

  lemma CandidateFlat(content: string, mid: string, index: string, ice: string)
    ensures ("\"" + "candidate" + "\"") + ":" + ("\"" + content + "\"") == "\"candidate\":\"" + content + "\""
    ensures ("\"" + "sdpMid" + "\"") + ":" + ("\"" + mid + "\"") == "\"sdpMid\":\"" + mid + "\""
    ensures ("\"" + "sdpMLineIndex" + "\"") + ":" + index == "\"sdpMLineIndex\":" + index
    ensures ("\"" + "type" + "\"") + ":" + ("\"" + "candidate" + "\"") == "\"type\":\"candidate\""
    ensures ("\"" + "ice" + "\"") + ":" + ice == "\"ice\":" + ice
  {
  }

  lemma CandidateContentMember(content: string)
    requires IsPlainText(content)
    ensures Quote("candidate") + ":" + Encode(JString(content)) == "\"candidate\":\"" + content + "\""
  {
    assert IsPlainText("candidate");
    QuotePlain("candidate");
    QuotePlain(content);
    CandidateFlat(content, "", "", "");
  }

  lemma CandidateMidMember(mid: string)
    requires IsPlainText(mid)
    ensures Quote("sdpMid") + ":" + Encode(JString(mid)) == "\"sdpMid\":\"" + mid + "\""
  {
    assert IsPlainText("sdpMid");
    QuotePlain("sdpMid");
    QuotePlain(mid);
    CandidateFlat("", mid, "", "");
  }

  lemma CandidateIndexMember(index: string)
    ensures Quote("sdpMLineIndex") + ":" + Encode(JNumber(index)) == "\"sdpMLineIndex\":" + index
  {
    assert IsPlainText("sdpMLineIndex");
    QuotePlain("sdpMLineIndex");
    CandidateFlat("", "", index, "");
  }

  lemma CandidateTypeMember()
    ensures Quote("type") + ":" + Encode(JString("candidate")) == "\"type\":\"candidate\""
  {
    assert IsPlainText("type") && IsPlainText("candidate");
    QuotePlain("type");
    QuotePlain("candidate");
    CandidateFlat("", "", "", "");
  }

  lemma CandidateIceMember(ice: Json)
    ensures Quote("ice") + ":" + Encode(ice) == "\"ice\":" + Encode(ice)
  {
    assert IsPlainText("ice");
    QuotePlain("ice");
    CandidateFlat("", "", "", Encode(ice));
  }

  lemma CandidateText(content: string, mid: string, index: string)
    ensures "{" + "\"candidate\":\"" + content + "\"" + "," + "\"sdpMid\":\"" + mid + "\"" + ","
              + "\"sdpMLineIndex\":" + index + "}"
         == "{" + (("\"candidate\":\"" + content + "\"") + "," + (("\"sdpMid\":\"" + mid + "\"") + ","
              + ("\"sdpMLineIndex\":" + index))) + "}"
  {
  }

  lemma CandidateOuterText(ice: string)
    ensures "{\"type\":\"candidate\",\"ice\":" + ice + "}" == "{" + ("\"type\":\"candidate\"" + "," + ("\"ice\":" + ice)) + "}"
  {
  }

  /** The nested `ice` object is written as its compact text. */
  lemma IceObjectEncodes(c: IceCandidate)
    requires IsPlainText(c.content) && IsPlainText(c.sdpMid)
    ensures Encode(IceObject(c)) == "{" + "\"candidate\":\"" + c.content + "\"" + "," + "\"sdpMid\":\"" + c.sdpMid + "\"" + ","
              + "\"sdpMLineIndex\":" + IntToDecimal(c.sdpMlineIndex) + "}"
  {
    var index := IntToDecimal(c.sdpMlineIndex);
    CandidateContentMember(c.content);
    CandidateMidMember(c.sdpMid);
    CandidateIndexMember(index);
    ThreeMembers(("candidate", JString(c.content)), ("sdpMid", JString(c.sdpMid)), ("sdpMLineIndex", JNumber(index)),
                 "\"candidate\":\"" + c.content + "\"", "\"sdpMid\":\"" + c.sdpMid + "\"", "\"sdpMLineIndex\":" + index);
    CandidateText(c.content, c.sdpMid, index);
  }

  /** The candidate frame is the compact text of the candidate object. */
  lemma CandidateFrameEncodes(c: IceCandidate)
    requires IsPlainText(c.content) && IsPlainText(c.sdpMid)
    ensures Encode(CandidateObject(c)) == CandidateFrame(c)
  {
    IceObjectEncodes(c);
    var ice := Encode(IceObject(c));
    CandidateTypeMember();
    CandidateIceMember(IceObject(c));
    TwoMembers(CandidateObject(c).members, "\"type\":\"candidate\"", "\"ice\":" + ice);
    CandidateOuterText(ice);
  }

  lemma CandidateEncodable(c: IceCandidate)
    ensures JsonText.Encodable(IceObject(c)) && JsonText.Encodable(CandidateObject(c))
  {
    DecimalIsPlain(c.sdpMlineIndex);
    JsonText.EncodableMembers(IceObject(c).members);
    JsonText.EncodableMembers(CandidateObject(c).members);
  }

  /** The candidate frame reads back as the candidate object, `sdpMLineIndex` as a number. */
  lemma CandidateFrameDenotes(c: IceCandidate)
    requires IsPlainText(c.content) && IsPlainText(c.sdpMid)
    ensures JsonText.ReadDocument(CandidateFrame(c)) == Ok(CandidateObject(c))
  {
    CandidateFrameEncodes(c);
    CandidateEncodable(c);
    JsonText.ReadDocumentEncoded(CandidateObject(c));
  }

  lemma LookupOfTwo(a: (string, Json), b: (string, Json), key: string)
    ensures b.0 == key ==> Lookup([a, b], key) == Some(b.1)
    ensures b.0 != key && a.0 == key ==> Lookup([a, b], key) == Some(a.1)
  {
    assert [a, b][..1] == [a];
  }

  lemma LookupOfThree(a: (string, Json), b: (string, Json), c: (string, Json), key: string)
    ensures c.0 == key ==> Lookup([a, b, c], key) == Some(c.1)
    ensures c.0 != key && b.0 == key ==> Lookup([a, b, c], key) == Some(b.1)
    ensures c.0 != key && b.0 != key && a.0 == key ==> Lookup([a, b, c], key) == Some(a.1)
  {
    assert [a, b, c][..2] == [a, b];
    LookupOfTwo(a, b, key);
  }

  /** The fields of the nested `ice` object give back the candidate. */
  lemma ReadCandidateOfIce(c: IceCandidate)
    ensures ReadCandidate(IceObject(c)) == Ok(Some(c))
  {
    var a, b, d := ("candidate", JString(c.content)), ("sdpMid", JString(c.sdpMid)), ("sdpMLineIndex", JNumber(IntToDecimal(c.sdpMlineIndex)));
    assert IceObject(c).members == [a, b, d];
    LookupOfThree(a, b, d, "sdpMid");
    LookupOfThree(a, b, d, "sdpMLineIndex");
    LookupOfThree(a, b, d, "candidate");
    ParseIntToDecimal(c.sdpMlineIndex);
    assert SdpMidOf(IceObject(c)) == Ok(c.sdpMid);
    assert SdpMlineIndexOf(IceObject(c)) == Ok(c.sdpMlineIndex);
  }

  /** A candidate this client sends is classified, by a reader of its text,
      as that same candidate. */
  lemma CandidateRoundTrip(c: IceCandidate)
    requires IsPlainText(c.content) && IsPlainText(c.sdpMid)
    ensures Dispatch(CandidateFrame(c), JsonText.ReadDocument) == CandidateIn(c)
  {
    CandidateFrameDenotes(c);
    var root := CandidateObject(c);
    var ice := IceObject(c);
    LookupOfTwo(("type", JString("candidate")), ("ice", ice), "type");
    LookupOfTwo(("type", JString("candidate")), ("ice", ice), "ice");
    assert TypeOf(root) == Ok(Some("candidate"));
    CandidateEncodable(c);
    JsonText.ReadDocumentEncoded(ice);
    assert ToText(ice) == Encode(ice);
    ReadCandidateOfIce(c);
    assert CandidateOutcome(root, JsonText.ReadDocument) == CandidateIn(c);
  }

  // The SDP frame

  lemma SdpText(t: string, esc: string)
    ensures "{\"type\":\"" + t + "\",\"sdp\":\"" + esc + "\"}"
         == "{" + (("\"type\":\"" + t + "\"") + "," + ("\"sdp\":\"" + esc + "\"")) + "}"
  {
  }

  lemma SdpFlat(t: string, esc: string)
    ensures ("\"" + "type" + "\"") + ":" + ("\"" + t + "\"") == "\"type\":\"" + t + "\""
    ensures ("\"" + "sdp" + "\"") + ":" + ("\"" + esc + "\"") == "\"sdp\":\"" + esc + "\""
  {
  }

  lemma SdpTypeMember(t: SdpMessageType)
    ensures Quote("type") + ":" + Encode(JString(TypeToString(t))) == "\"type\":\"" + TypeToString(t) + "\""
  {
    assert IsPlainText("type") && IsPlainText("offer") && IsPlainText("answer");
    QuotePlain("type");
    QuotePlain(TypeToString(t));
    SdpFlat(TypeToString(t), "");
  }

  lemma SdpContentMember(content: string)
    requires IsSdpText(content)
    ensures Quote("sdp") + ":" + Encode(JString(content)) == "\"sdp\":\"" + EscapeSdp(content) + "\""
  {
    assert IsPlainText("sdp");
    QuotePlain("sdp");
    EscapeSdpIsJsonEscape(content);
    SdpFlat("", EscapeSdp(content));
  }

  /** The SDP frame is the compact text of the SDP object when the SDP text
      has CRLF line ends and no other character that JSON escapes. */
  lemma SdpFrameEncodes(m: SdpMessage)
    requires IsSdpText(m.content)
    ensures Encode(SdpObject(m)) == SdpFrame(m)
  {
    SdpTypeMember(m.sdpType);
    SdpContentMember(m.content);
    TwoMembers(SdpObject(m).members, "\"type\":\"" + TypeToString(m.sdpType) + "\"", "\"sdp\":\"" + EscapeSdp(m.content) + "\"");
    SdpText(TypeToString(m.sdpType), EscapeSdp(m.content));
  }

  lemma SdpFrameDenotes(m: SdpMessage)
    requires IsSdpText(m.content)
    ensures JsonText.ReadDocument(SdpFrame(m)) == Ok(SdpObject(m))
  {
    SdpFrameEncodes(m);
    JsonText.EncodableMembers(SdpObject(m).members);
    JsonText.ReadDocumentEncoded(SdpObject(m));
  }

  /** An offer or answer this client sends is classified, by a reader of its
      text, as the same message: the JSON reader itself turns the escaped line
      ends back into CRLF. */
  lemma SdpRoundTrip(m: SdpMessage)
    requires IsSdpText(m.content)
    ensures Dispatch(SdpFrame(m), JsonText.ReadDocument) == SdpIn(m)
  {
    SdpFrameDenotes(m);
    var root := SdpObject(m);
    var t := TypeToString(m.sdpType);
    LookupOfTwo(("type", JString(t)), ("sdp", JString(m.content)), "type");
    LookupOfTwo(("type", JString(t)), ("sdp", JString(m.content)), "sdp");
    assert TypeOf(root) == Ok(Some(t));
    assert StringToType(t) == m.sdpType;
    assert SdpOutcome(root, t) == SdpIn(m);
  }

  /** The pong reply reads back as `{"type":"pong"}`, a type the client itself
      does not know. */
  lemma PongFrameDenotes()
    ensures JsonText.ReadDocument(PongFrame) == Ok(JObject([("type", JString("pong"))]))
    ensures Dispatch(PongFrame, JsonText.ReadDocument) == Fail(UnknownTypeError("pong"))
  {
    PongFrameReads(JObject([("type", JString("pong"))]));
  }

  lemma PongFrameReads(j: Json)
    requires j == JObject([("type", JString("pong"))])
    ensures JsonText.ReadDocument(PongFrame) == Ok(j)
  {
    PongPlain();
    OneStringMember(j, "type", "pong");
    PongFlat();
    JsonText.ReadDocumentEncoded(j);
  }

  lemma PongPlain()
    ensures IsPlainText("type") && IsPlainText("pong")
  {
  }

  lemma PongFlat()
    ensures "{" + (("\"" + "type" + "\"") + ":" + ("\"" + "pong" + "\"")) + "}" == PongFrame
  {
  }

  /** An object of one plain string member is written as it reads. */
  lemma OneStringMember(j: Json, key: string, value: string)
    requires j == JObject([(key, JString(value))])
    requires IsPlainText(key) && IsPlainText(value)
    ensures Encode(j) == "{" + (("\"" + key + "\"") + ":" + ("\"" + value + "\"")) + "}"
  {
    QuotePlain(key);
    QuotePlain(value);
    EncodeMembersOne((key, JString(value)));
  }

  // ---------------------------------------------------------------------
  // The branches of MessageHandle, one by one

  /** A text the parser rejects is reported with the parser's message. */
  lemma UnparsableIsReported(message: string, parse: string -> Result<Json, string>, why: string)
    requires parse(message) == Err(why)
    ensures Dispatch(message, parse) == Fail("Protocol Error (Parse:" + why + ")")
  {
  }

  /** A missing `type` is reported as the dictionary's missing-key exception. */
  lemma MissingTypeIsReported(message: string, parse: string -> Result<Json, string>, members: seq<(string, Json)>)
    requires parse(message) == Ok(JObject(members))
    requires forall i :: 0 <= i < |members| ==> members[i].0 != "type"
    ensures Dispatch(message, parse) == ParseFailure(KeyNotFound)
  {
    assert Lookup(members, "type").None?;
  }

  /** A null `type` is reported as a type error. */
  lemma NullTypeIsReported(message: string, parse: string -> Result<Json, string>, root: Json)
    requires parse(message) == Ok(root) && GetProperty(root, "type") == Ok(JNull)
    ensures Dispatch(message, parse) == Fail(TypeError)
  {
  }

  /** A string `type` the client does not know is reported with its name. */
  lemma UnknownTypeIsReported(message: string, parse: string -> Result<Json, string>, t: string)
    requires MessageType(message, parse) == Some(t)
    requires t !in {"candidate", "offer", "answer", "accept", "ping"}
    ensures Dispatch(message, parse) == Fail(UnknownTypeError(t))
  {
  }

  /** `ping` is answered and raises nothing of its own. */
  lemma PingIsAnswered(message: string, parse: string -> Result<Json, string>)
    requires MessageType(message, parse) == Some("ping")
    ensures Dispatch(message, parse) == PingIn
  {
  }

  /** Absent `sdpMid` and `sdpMLineIndex` default to "0" and 0. */
  lemma CandidateDefaults(iceRoot: Json, content: string)
    requires iceRoot.JObject?
    requires forall i :: 0 <= i < |iceRoot.members| ==> iceRoot.members[i].0 !in {"sdpMid", "sdpMLineIndex"}
    requires Lookup(iceRoot.members, "candidate") == Some(JString(content))
    ensures ReadCandidate(iceRoot) == Ok(Some(IceCandidate("0", 0, content)))
  {
    assert Lookup(iceRoot.members, "sdpMid").None?;
    assert Lookup(iceRoot.members, "sdpMLineIndex").None?;
  }

  /** A null `candidate` is reported once as a candidate error. */
  lemma NullCandidateIsReported(message: string, parse: string -> Result<Json, string>, root: Json, iceRoot: Json)
    requires parse(message) == Ok(root) && TypeOf(root) == Ok(Some("candidate"))
    requires GetProperty(root, "ice").Ok? && parse(ToText(GetProperty(root, "ice").value)) == Ok(iceRoot)
    requires SdpMidOf(iceRoot).Ok? && SdpMlineIndexOf(iceRoot).Ok?
    requires Lookup(iceRoot.members, "candidate") == Some(JNull)
    ensures Dispatch(message, parse) == Fail(CandidateError)
  {
  }

  /** An `offer` or `answer` carries the `sdp` member's text unchanged. */
  lemma SdpContentIsRaw(message: string, parse: string -> Result<Json, string>, root: Json, sdp: string)
    requires parse(message) == Ok(root) && TypeOf(root).Ok? && TypeOf(root).value in {Some("offer"), Some("answer")}
    requires GetProperty(root, "sdp") == Ok(JString(sdp))
    ensures Dispatch(message, parse).SdpIn?
    ensures Dispatch(message, parse).sdp.content == sdp
    ensures TypeToString(Dispatch(message, parse).sdp.sdpType) == TypeOf(root).value.value
  {
  }

  /** The accept branch never reports a null response: the message is an
      object, so the serializer either builds a response or throws. */
  lemma AcceptErrorUnreachable(message: string, parse: string -> Result<Json, string>)
    ensures Dispatch(message, parse) != Fail(AcceptError)
  {
  }

  /** A bare accept object raises a response: the type is kept, every other
      property takes its default. */
  lemma PlainAcceptIsRaised(message: string, parse: string -> Result<Json, string>)
    requires parse(message) == Ok(JObject([("type", JString("accept"))]))
    ensures Dispatch(message, parse) == AcceptIn(SigRegisterResponse(Some("accept"), None, false, false, false, None))
  {
    var ms := [("type", JString("accept"))];
    assert Lookup(ms, "type") == Some(JString("accept"));
    assert Lookup(ms, "connectionId").None?;
    assert Lookup(ms, "isExistClient").None?;
    assert Lookup(ms, "isExistUser").None?;
    assert Lookup(ms, "isInitiator").None?;
    assert Lookup(ms, "iceServers").None?;
  }

  // ---------------------------------------------------------------------
  // The client object

  /** One invocation of a delegate of the client. */
  datatype Event =
    | SigError(message: string)
    | IceCandidateReceived(candidate: IceCandidate)
    | SdpMessageReceived(sdp: SdpMessage)
    | SigRegisterResponseReceived(response: SigRegisterResponse)

  /** The error a closed connection reports ("disconnected", in Japanese). */
  const ClosedMessage: string := "\U{5207}\U{65AD}\U{3055}\U{308C}\U{307E}\U{3057}\U{305F}"
  const SocketErrorMessage: string := "WebSocket Error"

  /** The delegate call `MessageHandle` makes for an outcome, whether or not
      that delegate is set; `pongFailure` is the message of the exception
      the pong send throws, if it does. */
  function EventOf(o: Outcome, pongFailure: Option<string>): (r: Option<Event>)
    ensures r.None? <==> o.PingIn? && pongFailure.None?
    ensures o.Fail? ==> r == Some(SigError(o.message))
    ensures o.PingIn? && pongFailure.Some? ==>
              r == Some(SigError(ParseFailure(SocketError(pongFailure.value)).message))
    ensures o.CandidateIn? ==> r == Some(IceCandidateReceived(o.candidate))
    ensures o.SdpIn? ==> r == Some(SdpMessageReceived(o.sdp))
    ensures o.AcceptIn? ==> r == Some(SigRegisterResponseReceived(o.response))
  {
    match o
    case Fail(m) => Some(SigError(m))
    case CandidateIn(c) => Some(IceCandidateReceived(c))
    case SdpIn(m) => Some(SdpMessageReceived(m))
    case AcceptIn(response) => Some(SigRegisterResponseReceived(response))
    case PingIn =>
      match pongFailure
      case None => None
      case Some(why) => Some(SigError(ParseFailure(SocketError(why)).message))
  }

  class SigClient {
    const context: SigContext
    /** `_webSocket.ReadyState == WebSocketState.Open`. */
    var isOpen: bool
    /** Whether each delegate is set (non-null). */
    var sigErrorSet: bool
    var candidateSet: bool
    var sdpSet: bool
    var acceptSet: bool
    /** The text frames written to the socket, oldest first. */
    var sent: seq<string>

    constructor (context: SigContext)
      ensures this.context == context && !isOpen && sent == []
      ensures !sigErrorSet && !candidateSet && !sdpSet && !acceptSet
    {
      this.context := context;
      isOpen := false;
      sigErrorSet, candidateSet, sdpSet, acceptSet := false, false, false, false;
      sent := [];
    }

    /** Whether the delegate an event goes to is set. */
    predicate Hooked(e: Event)
      reads this
    {
      match e
      case SigError(_) => sigErrorSet
      case IceCandidateReceived(_) => candidateSet
      case SdpMessageReceived(_) => sdpSet
      case SigRegisterResponseReceived(_) => acceptSet
    }

    /** `Delegate?.Invoke(...)`: the call happens only when the delegate is set. */
    function Deliver(e: Option<Event>): (r: Option<Event>)
      reads this
      ensures r.Some? <==> e.Some? && Hooked(e.value)
      ensures r.Some? ==> r == e
    {
      if e.Some? && Hooked(e.value) then e else None
    }

    /** `Connect`: the transport decides whether the socket opens. */
    method Connect(opens: bool) returns (ok: bool)
      modifies this`isOpen
      ensures isOpen == opens && ok == opens
    {
      isOpen := opens;
      ok := isOpen;
    }

    /** `MessageHandle`: at most one delegate call, and a pong frame only for a ping. */
    method MessageHandle(message: string, parse: string -> Result<Json, string>, pongFailure: Option<string>)
      returns (raised: Option<Event>)
      modifies this`sent
      ensures raised == Deliver(EventOf(Dispatch(message, parse), pongFailure))
      ensures sent == old(sent) + (if Dispatch(message, parse).PingIn? && pongFailure.None? then [PongFrame] else [])
    {
      var outcome := Dispatch(message, parse);
      var invoked: Option<Event>;
      match outcome {
        case Fail(m) =>
          invoked := Some(SigError(m));
        case CandidateIn(c) =>
          invoked := Some(IceCandidateReceived(c));
        case SdpIn(m) =>
          invoked := Some(SdpMessageReceived(m));
        case AcceptIn(response) =>
          invoked := Some(SigRegisterResponseReceived(response));
        case PingIn =>
          var ok := Send(PongFrame, pongFailure);
          if ok {
            invoked := None;
          } else {
            invoked := Some(SigError(ParseFailure(SocketError(pongFailure.value)).message));
          }
      }
      raised := Deliver(invoked);
    }

    /** The `OnMessage` handler: binary frames are ignored. */
    method OnMessage(isText: bool, data: string, parse: string -> Result<Json, string>, pongFailure: Option<string>)
      returns (raised: Option<Event>)
      modifies this`sent
      ensures !isText ==> raised == None && sent == old(sent)
      ensures isText ==> raised == Deliver(EventOf(Dispatch(data, parse), pongFailure))
      ensures isText ==> sent == old(sent) + (if Dispatch(data, parse).PingIn? && pongFailure.None? then [PongFrame] else [])
    {
      if !isText {
        return None;
      }
      raised := MessageHandle(data, parse, pongFailure);
    }

    /** The `OnClose` handler: the connection is gone. */
    method OnClose() returns (raised: Option<Event>)
      modifies this`isOpen
      ensures !isOpen
      ensures raised == Deliver(Some(SigError(ClosedMessage)))
    {
      isOpen := false;
      raised := Deliver(Some(SigError(ClosedMessage)));
    }

    /** The `OnError` handler. */
    method OnError() returns (raised: Option<Event>)
      ensures raised == Deliver(Some(SigError(SocketErrorMessage)))
    {
      raised := Deliver(Some(SigError(SocketErrorMessage)));
    }

    /** `Close`: `SigError` is cleared before the socket closes, so the close
        that follows reports nothing. */
    method Close()
      modifies this`sigErrorSet, this`isOpen
      ensures !sigErrorSet && !isOpen
      ensures candidateSet == old(candidateSet) && sdpSet == old(sdpSet) && acceptSet == old(acceptSet)
    {
      sigErrorSet := false;
      isOpen := false;
    }

    /** `_webSocket.Send` inside a `try`: the frame is written unless the send
        throws, and the result says which. */
    method Send(frame: string, failure: Option<string>) returns (ok: bool)
      modifies this`sent
      ensures ok <==> failure.None?
      ensures sent == old(sent) + (if ok then [frame] else [])
    {
      if failure.Some? {
        return false;
      }
      sent := sent + [frame];
      return true;
    }

    /** `SendRegister`; `clientId` is the value of `Random.Next()`. */
    method SendRegister(clientId: int, failure: Option<string>) returns (ok: bool)
      requires 0 <= clientId < 0x7FFF_FFFF
      modifies this`sent
      ensures ok <==> failure.None?
      ensures sent == old(sent) + (if ok then [RegisterFrame(context.roomId, clientId, context.sigKey)] else [])
    {
      var frame := RegisterFrame(context.roomId, clientId, context.sigKey);
      ok := Send(frame, failure);
    }

    /** `SendIceCanditate`. */
    method SendIceCanditate(candidate: IceCandidate, failure: Option<string>) returns (ok: bool)
      modifies this`sent
      ensures ok <==> failure.None?
      ensures sent == old(sent) + (if ok then [CandidateFrame(candidate)] else [])
    {
      ok := Send(CandidateFrame(candidate), failure);
    }

    /** `SendSdpMessage`. */
    method SendSdpMessage(message: SdpMessage, failure: Option<string>) returns (ok: bool)
      modifies this`sent
      ensures ok <==> failure.None?
      ensures sent == old(sent) + (if ok then [SdpFrame(message)] else [])
    {
      ok := Send(SdpFrame(message), failure);
    }
  }
}
