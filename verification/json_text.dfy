/** A reference reader for the compact JSON text that `Json.Encode` writes,
    and the proof that it reads every encoded value back. It stands for the
    JSON parser of whoever receives the client's frames: with it, the
    hand-concatenated messages of `Signaling` can be checked against the
    objects they are meant to denote. It reads objects, strings (every JSON
    escape), integers and the three literals, without whitespace; arrays and
    numbers with a fraction or exponent are outside what it reads. */
module JsonText {
  import opened Common
  import opened Text
  import opened Json

  /** The values this reader and `Encode` agree on. */
  predicate Encodable(j: Json)
    decreases j, 1
  {
    match j
    case JNumber(raw) => IsIntegerToken(raw)
    case JArray(_) => false
    case JObject(members) => MembersEncodable(members)
    case _ => true
  }

  predicate MembersEncodable(members: seq<(string, Json)>)
    decreases members, 0
  {
    members == [] ||
    var (_, value) := members[0];
    assert value < members[0];
    Encodable(value) && MembersEncodable(members[1..])
  }

  /** Text that cannot continue a number token. */
  predicate EndsToken(rest: string)
  {
    rest == [] || !IsDigit(rest[0])
  }

  // ---------------------------------------------------------------------
  // Reader: each function returns the value read and the text after it.

  /** The character denoted by an escape sequence; `s` is the text after the backslash. */
  function ReadEscape(s: string): (r: Option<(char, string)>)
    ensures r.Some? ==> |r.value.1| < |s|
  {
    if s == [] then None
    else if s[0] == '"' then Some(('"', s[1..]))
    else if s[0] == '\\' then Some(('\\', s[1..]))
    else if s[0] == '/' then Some(('/', s[1..]))
    else if s[0] == 'b' then Some(('\U{0008}', s[1..]))
    else if s[0] == 'f' then Some(('\U{000C}', s[1..]))
    else if s[0] == 'n' then Some(('\n', s[1..]))
    else if s[0] == 'r' then Some(('\r', s[1..]))
    else if s[0] == 't' then Some(('\t', s[1..]))
    else if s[0] == 'u' && |s| >= 5 && IsHexDigit(s[1]) && IsHexDigit(s[2]) && IsHexDigit(s[3]) && IsHexDigit(s[4]) then
      var v := 4096 * HexDigitValue(s[1]) + 256 * HexDigitValue(s[2]) + 16 * HexDigitValue(s[3]) + HexDigitValue(s[4]);
      // a lone UTF-16 surrogate denotes no character
      if 0xD800 <= v < 0xE000 then None else Some((v as char, s[5..]))
    else None
  }

  /** The characters of a string literal up to its closing quote; `s` is the text after the opening quote. */
  function ReadStringBody(s: string): (r: Option<(string, string)>)
    ensures r.Some? ==> |r.value.1| < |s|
    decreases |s|
  {
    if s == [] then None
    else if s[0] == '"' then Some(("", s[1..]))
    else if s[0] == '\\' then
      match ReadEscape(s[1..])
      case None => None
      case Some((c, rest)) =>
        (match ReadStringBody(rest)
         case None => None
         case Some((str, after)) => Some(([c] + str, after)))
    else if s[0] < ' ' then None
    else
      match ReadStringBody(s[1..])
      case None => None
      case Some((str, after)) => Some(([s[0]] + str, after))
  }

  /** The length of the run of digits that starts `s`. */
  function DigitRun(s: string): (n: nat)
    ensures n <= |s|
    decreases |s|
  {
    if s == [] || !IsDigit(s[0]) then 0 else 1 + DigitRun(s[1..])
  }

  function ReadNumber(s: string): (r: Option<(Json, string)>)
    ensures r.Some? ==> |r.value.1| < |s|
  {
    var sign := if |s| > 0 && s[0] == '-' then 1 else 0;
    var n := sign + DigitRun(s[sign..]);
    if IsIntegerToken(s[..n]) then Some((JNumber(s[..n]), s[n..])) else None
  }

  function ReadValue(s: string): (r: Option<(Json, string)>)
    ensures r.Some? ==> |r.value.1| < |s|
    decreases |s|, 3
  {
    if s == [] then None
    else if s[0] == '{' then ReadObject(s[1..])
    else if s[0] == '"' then
      (match ReadStringBody(s[1..])
       case None => None
       case Some((str, rest)) => Some((JString(str), rest)))
    else if s[0] == '-' || IsDigit(s[0]) then ReadNumber(s)
    else if |s| >= 4 && s[..4] == "null" then Some((JNull, s[4..]))
    else if |s| >= 4 && s[..4] == "true" then Some((JBool(true), s[4..]))
    else if |s| >= 5 && s[..5] == "false" then Some((JBool(false), s[5..]))
    else None
  }

  /** An object; `s` is the text after its opening brace. */
  function ReadObject(s: string): (r: Option<(Json, string)>)
    ensures r.Some? ==> |r.value.1| < |s|
    decreases |s|, 2
  {
    if |s| > 0 && s[0] == '}' then Some((JObject([]), s[1..]))
    else
      match ReadMembers(s)
      case None => None
      case Some((members, rest)) => Some((JObject(members), rest))
  }

  /** One or more members, separated by commas, and the closing brace. */
  function ReadMembers(s: string): (r: Option<(seq<(string, Json)>, string)>)
    ensures r.Some? ==> |r.value.1| < |s|
    decreases |s|, 1
  {
    match ReadMember(s)
    case None => None
    case Some((member, afterValue)) =>
      if afterValue == [] then None
      else if afterValue[0] == '}' then Some(([member], afterValue[1..]))
      else if afterValue[0] == ',' then
        (match ReadMembers(afterValue[1..])
         case None => None
         case Some((more, rest)) => Some(([member] + more, rest)))
      else None
  }

  /** One `"name":value` member. */
  function ReadMember(s: string): (r: Option<((string, Json), string)>)
    ensures r.Some? ==> |r.value.1| < |s|
    decreases |s|, 0
  {
    if s == [] || s[0] != '"' then None
    else
      match ReadStringBody(s[1..])
      case None => None
      case Some((key, afterKey)) =>
        if afterKey == [] || afterKey[0] != ':' then None
        else
          match ReadValue(afterKey[1..])
          case None => None
          case Some((value, afterValue)) => Some(((key, value), afterValue))
  }

  /** A whole document: one value and nothing after it. */
  function ReadDocument(s: string): Result<Json, string>
  {
    match ReadValue(s)
    case Some((j, rest)) => if rest == [] then Ok(j) else Err("unexpected text after the JSON value")
    case None => Err("invalid JSON")
  }

  // ---------------------------------------------------------------------
  // Round trip

  /** Reading the escaped form of one character gives the character back. */
  lemma ReadEscapedChar(c: char, tail: string)
    ensures ReadStringBody(EscapeChar(c) + tail) ==
      match ReadStringBody(tail)
      case None => None
      case Some((str, after)) => Some(([c] + str, after))
  {
    var input := EscapeChar(c) + tail;
    if IsPlainChar(c) {
      assert input[1..] == tail;
    } else if c < ' ' && c != '\n' && c != '\r' && c != '\t' && c != '\U{0008}' && c != '\U{000C}' {
      var hi, lo := HexDigit(c as int / 16), HexDigit(c as int % 16);
      assert input[1..] == ['u', '0', '0', hi, lo] + tail;
    } else {
      assert |EscapeChar(c)| == 2;
      assert input[1..] == [EscapeChar(c)[1]] + tail;
      assert input[1..][1..] == tail;
    }
  }

  /** A string literal's body, read back, is the string it escapes. */
  lemma {:induction false} ReadQuoted(s: string, rest: string)
    ensures ReadStringBody(EscapeString(s) + "\"" + rest) == Some((s, rest))
    decreases |s|
  {
    if s == [] {
      assert EscapeString(s) + "\"" + rest == "\"" + rest;
    } else {
      ReadQuoted(s[1..], rest);
      ReadEscapedChar(s[0], EscapeString(s[1..]) + "\"" + rest);
      assert EscapeString(s) + "\"" + rest == EscapeChar(s[0]) + (EscapeString(s[1..]) + "\"" + rest);
      assert [s[0]] + s[1..] == s;
    }
  }

  lemma {:induction false} DigitRunOfDigits(digits: string, rest: string)
    requires AllDigits(digits) && EndsToken(rest)
    ensures DigitRun(digits + rest) == |digits|
    decreases |digits|
  {
    if digits != [] {
      assert (digits + rest)[1..] == digits[1..] + rest;
      DigitRunOfDigits(digits[1..], rest);
    } else {
      assert digits + rest == rest;
    }
  }

  lemma ReadIntegerToken(raw: string, rest: string)
    requires IsIntegerToken(raw) && EndsToken(rest)
    ensures ReadNumber(raw + rest) == Some((JNumber(raw), rest))
  {
    var s := raw + rest;
    var sign := if |raw| > 0 && raw[0] == '-' then 1 else 0;
    assert s[sign..] == raw[sign..] + rest;
    DigitRunOfDigits(raw[sign..], rest);
    assert s[..|raw|] == raw;
    assert s[|raw|..] == rest;
  }

  /** Removing the opening character of `open + body + close + rest`. */
  lemma Enclosed(open: string, body: string, close: string, rest: string)
    requires |open| == 1
    ensures |open + body + close + rest| > 0 && (open + body + close + rest)[0] == open[0]
    ensures (open + body + close + rest)[1..] == body + close + rest
  {
    assert open + body + close + rest == open + (body + close + rest);
  }

  /** Every encodable value is read back from its encoding, whatever follows
      it (a number only needs a non-digit after it). */
  lemma {:induction false} ReadEncoded(j: Json, rest: string)
    requires Encodable(j) && EndsToken(rest)
    ensures ReadValue(Encode(j) + rest) == Some((j, rest))
    decreases j, 1
  {
    match j
    case JNull => ReadLiteral(j, rest);
    case JBool(_) => ReadLiteral(j, rest);
    case JNumber(raw) => ReadIntegerToken(raw, rest);
    case JString(str) => ReadEncodedString(str, rest);
    case JObject(members) =>
      if members != [] {
        ReadEncodedMembers(members, rest);
      }
      ReadEncodedObject(members, rest);
  }

  lemma ReadLiteral(j: Json, rest: string)
    requires j.JNull? || j.JBool?
    ensures ReadValue(Encode(j) + rest) == Some((j, rest))
  {
    var s := Encode(j) + rest;
    if j.JNull? {
      assert s[..4] == "null" && s[4..] == rest;
    } else if j.b {
      assert s[..4] == "true" && s[4..] == rest;
    } else {
      assert s[..4] != "null" && s[..4] != "true";
      assert s[..5] == "false" && s[5..] == rest;
    }
  }

  lemma ReadEncodedString(str: string, rest: string)
    ensures ReadValue(Encode(JString(str)) + rest) == Some((JString(str), rest))
  {
    ReadQuoted(str, rest);
    Enclosed("\"", EscapeString(str), "\"", rest);
  }

  /** An object is read back once its members are. */
  lemma ReadEncodedObject(members: seq<(string, Json)>, rest: string)
    requires members != [] ==> ReadMembers(EncodeMembers(members) + "}" + rest) == Some((members, rest))
    ensures ReadValue(Encode(JObject(members)) + rest) == Some((JObject(members), rest))
  {
    var body := EncodeMembers(members);
    Enclosed("{", body, "}", rest);
    if members == [] {
      assert body + "}" + rest == "}" + rest;
    } else {
      assert body[0] == '"';
    }
  }

  lemma {:induction false} ReadEncodedMember(key: string, value: Json, afterValue: string)
    requires Encodable(value) && EndsToken(afterValue)
    ensures ReadMember(Quote(key) + (":" + (Encode(value) + afterValue))) == Some(((key, value), afterValue))
    decreases value, 2
  {
    var afterKey := ":" + (Encode(value) + afterValue);
    Enclosed("\"", EscapeString(key), "\"", afterKey);
    ReadQuoted(key, afterKey);
    ReadEncoded(value, afterValue);
  }

  lemma {:induction false} ReadEncodedMembers(members: seq<(string, Json)>, rest: string)
    requires |members| > 0 && MembersEncodable(members)
    ensures ReadMembers(EncodeMembers(members) + "}" + rest) == Some((members, rest))
    decreases members, 1
  {
    var (key, value) := members[0];
    assert value < members[0];
    var s := EncodeMembers(members) + "}" + rest;
    if |members| > 1 {
      var more := EncodeMembers(members[1..]);
      var afterValue := "," + more + "}" + rest;
      EncodeMembersFirst(members, rest);
      ReadEncodedMember(key, value, afterValue);
      ReadEncodedMembers(members[1..], rest);
      Enclosed(",", more, "}", rest);
      ReadMembersNext(s, (key, value), afterValue, members[1..], rest);
      assert [(key, value)] + members[1..] == members;
    } else {
      var afterValue := "" + "}" + rest;
      EncodeMembersFirst(members, rest);
      ReadEncodedMember(key, value, afterValue);
      Enclosed("}", "", "", rest);
      ReadMembersLast(s, (key, value), afterValue, rest);
      assert members == [(key, value)];
    }
  }

  /** A member followed by a comma and more members. */
  lemma ReadMembersNext(s: string, member: (string, Json), afterValue: string, more: seq<(string, Json)>, rest: string)
    requires ReadMember(s) == Some((member, afterValue))
    requires |afterValue| > 0 && afterValue[0] == ','
    requires ReadMembers(afterValue[1..]) == Some((more, rest))
    ensures ReadMembers(s) == Some(([member] + more, rest))
  {
  }

  /** A member followed by the closing brace. */
  lemma ReadMembersLast(s: string, member: (string, Json), afterValue: string, rest: string)
    requires ReadMember(s) == Some((member, afterValue))
    requires |afterValue| > 0 && afterValue[0] == '}' && afterValue[1..] == rest
    ensures ReadMembers(s) == Some(([member], rest))
  {
  }

  lemma EncodeMembersFirst(members: seq<(string, Json)>, rest: string)
    requires |members| > 0
    ensures EncodeMembers(members) + "}" + rest ==
      Quote(members[0].0) + (":" + (Encode(members[0].1)
        + ((if |members| == 1 then "" else "," + EncodeMembers(members[1..])) + "}" + rest)))
  {
    var q, e := Quote(members[0].0), Encode(members[0].1);
    var tail := if |members| == 1 then "" else "," + EncodeMembers(members[1..]);
    assert EncodeMembers(members) == q + ":" + e + tail;
    Regroup(q, e, tail, rest);
  }

  lemma Regroup(q: string, e: string, tail: string, rest: string)
    ensures q + ":" + e + tail + "}" + rest == q + (":" + (e + (tail + "}" + rest)))
  {
  }

  /** An object is encodable when each of its member values is. */
  lemma {:induction false} EncodableMembers(members: seq<(string, Json)>)
    requires forall i :: 0 <= i < |members| ==> Encodable(members[i].1)
    ensures MembersEncodable(members)
    decreases |members|
  {
    if members != [] {
      EncodableMembers(members[1..]);
    }
  }

  /** The reader reads back every encodable value from its compact text. */
  lemma ReadDocumentEncoded(j: Json)
    requires Encodable(j)
    ensures ReadDocument(Encode(j)) == Ok(j)
  {
    ReadEncoded(j, "");
    assert Encode(j) + "" == Encode(j);
  }
}
