/** The parsed JSON document the client inspects, and the `JsonElement`
    accessors it calls on it (`GetProperty`, `TryGetProperty`, `GetString`,
    `GetInt32`, `ToString`), each with the exception it throws when the
    element is not of the kind it needs. Parsing itself is a library call and
    enters the model as a parameter (see `Signaling`). */
module Json {
  import opened Common
  import opened Text

  /** A JSON value. A number keeps its token text, as `JsonElement` does;
      object members keep their order and may repeat a name. */
  datatype Json =
    | JNull
    | JBool(b: bool)
    | JNumber(raw: string)
    | JString(s: string)
    | JArray(items: seq<Json>)
    | JObject(members: seq<(string, Json)>)

  /** `JsonValueKind`. */
  datatype Kind = ObjectKind | ArrayKind | StringKind | NumberKind | TrueKind | FalseKind | NullKind

  function KindOf(j: Json): Kind
  {
    match j
    case JNull => NullKind
    case JBool(b) => if b then TrueKind else FalseKind
    case JNumber(_) => NumberKind
    case JString(_) => StringKind
    case JArray(_) => ArrayKind
    case JObject(_) => ObjectKind
  }

  function KindName(k: Kind): string
  {
    match k
    case ObjectKind => "Object"
    case ArrayKind => "Array"
    case StringKind => "String"
    case NumberKind => "Number"
    case TrueKind => "True"
    case FalseKind => "False"
    case NullKind => "Null"
  }

  /** The exceptions that the accessors, the parser, the serializer and the
      socket can throw inside `MessageHandle`'s `try` block. */
  datatype Exception =
    | JsonError(message: string)                  // JsonException from the parser or the serializer
    | KeyNotFound                                 // GetProperty on a missing name
    | InvalidOperation(needed: Kind, actual: Kind) // an accessor used on the wrong kind of element
    | FormatError                                 // GetInt32 on a number that is not an Int32
    | SocketError(message: string)                // WebSocket.Send failed

  /** `Exception.Message`, with the wording of the .NET exception types. */
  function ExceptionMessage(e: Exception): string
  {
    match e
    case JsonError(m) => m
    case KeyNotFound => "The given key was not present in the dictionary."
    case InvalidOperation(needed, actual) =>
      "The requested operation requires an element of type '" + KindName(needed)
        + "', but the target element has type '" + KindName(actual) + "'."
    case FormatError => "One of the identified items was in an invalid format."
    case SocketError(m) => m
  }

  /** The value of the last member named `key`: when an object repeats a name,
      `JsonElement` and `JsonSerializer` both take the last occurrence. */
  function Lookup(members: seq<(string, Json)>, key: string): (r: Option<Json>)
    ensures r.None? <==> forall i :: 0 <= i < |members| ==> members[i].0 != key
    ensures r.Some? ==> exists i :: 0 <= i < |members| && members[i] == (key, r.value)
                         && forall k :: i < k < |members| ==> members[k].0 != key
    decreases |members|
  {
    if members == [] then None
    else if members[|members| - 1].0 == key then Some(members[|members| - 1].1)
    else Lookup(members[..|members| - 1], key)
  }

  /** `JsonElement.GetProperty(name)`. */
  function GetProperty(e: Json, name: string): (r: Result<Json, Exception>)
    ensures r.Ok? <==> e.JObject? && Lookup(e.members, name).Some?
    ensures r.Ok? ==> r.value == Lookup(e.members, name).value
  {
    match e
    case JObject(members) =>
      (match Lookup(members, name)
       case Some(v) => Ok(v)
       case None => Err(KeyNotFound))
    case _ => Err(InvalidOperation(ObjectKind, KindOf(e)))
  }

  /** `JsonElement.TryGetProperty(name, out value)`: `Ok(None)` when the
      name is absent; it throws only when `e` is not an object. */
  function TryGetProperty(e: Json, name: string): (r: Result<Option<Json>, Exception>)
    ensures r.Ok? <==> e.JObject?
    ensures r.Ok? ==> r.value == Lookup(e.members, name)
  {
    match e
    case JObject(members) => Ok(Lookup(members, name))
    case _ => Err(InvalidOperation(ObjectKind, KindOf(e)))
  }

  /** `JsonElement.GetString()`: the string, or `null` for a JSON null. */
  function GetString(e: Json): (r: Result<Option<string>, Exception>)
    ensures r == Ok(None) <==> e == JNull
    ensures forall s :: r == Ok(Some(s)) <==> e == JString(s)
  {
    match e
    case JString(s) => Ok(Some(s))
    case JNull => Ok(None)
    case _ => Err(InvalidOperation(StringKind, KindOf(e)))
  }

  /** `JsonElement.GetInt32()`. */
  function GetInt32(e: Json): (r: Result<Int32, Exception>)
    ensures r.Ok? <==> e.JNumber? && ParseInt32(e.raw).Some?
    ensures r.Ok? ==> ParseInt32(e.raw) == Some(r.value)
    ensures e.JNumber? && r.Err? ==> r.error == FormatError
    ensures !e.JNumber? ==> r == Err(InvalidOperation(NumberKind, KindOf(e)))
  {
    match e
    case JNumber(raw) =>
      (match ParseInt32(raw)
       case Some(v) => Ok(v)
       case None => Err(FormatError))
    case _ => Err(InvalidOperation(NumberKind, KindOf(e)))
  }

  // ---------------------------------------------------------------------
  // Compact text of a value

  predicate IsPlainChar(c: char)
  {
    c >= ' ' && c != '"' && c != '\\'
  }

  /** Text that needs no escaping inside a JSON string literal. */
  predicate IsPlainText(s: string)
  {
    forall i :: 0 <= i < |s| ==> IsPlainChar(s[i])
  }

  predicate IsHexDigit(c: char)
  {
    '0' <= c <= '9' || 'a' <= c <= 'f' || 'A' <= c <= 'F'
  }

  /** The lower-case hexadecimal digit for `d`. */
  function HexDigit(d: nat): (c: char)
    requires d < 16
    ensures IsHexDigit(c) && HexDigitValue(c) == d
  {
    if d < 10 then (d + '0' as int) as char else (d - 10 + 'a' as int) as char
  }

  function HexDigitValue(c: char): (d: nat)
    requires IsHexDigit(c)
    ensures d < 16
  {
    if '0' <= c <= '9' then c as int - '0' as int
    else if 'a' <= c <= 'f' then c as int - 'a' as int + 10
    else c as int - 'A' as int + 10
  }

  /** How a character is written inside a JSON string literal. */
  function EscapeChar(c: char): (r: string)
    ensures |r| > 0
    ensures IsPlainChar(c) <==> r == [c]
  {
    if c == '"' then "\\\""
    else if c == '\\' then "\\\\"
    else if c == '\n' then "\\n"
    else if c == '\r' then "\\r"
    else if c == '\t' then "\\t"
    else if c == '\U{0008}' then "\\b"
    else if c == '\U{000C}' then "\\f"
    else if c < ' ' then "\\u00" + [HexDigit(c as int / 16), HexDigit(c as int % 16)]
    else [c]
  }

  /** The body of a JSON string literal that denotes `s`. */
  function EscapeString(s: string): string
    decreases |s|
  {
    if s == [] then "" else EscapeChar(s[0]) + EscapeString(s[1..])
  }

  function Quote(s: string): string
  {
    "\"" + EscapeString(s) + "\""
  }

  /** The compact JSON text of a value: no whitespace, members and items in order. */
  function Encode(j: Json): string
    decreases j, 1
  {
    match j
    case JNull => "null"
    case JBool(b) => if b then "true" else "false"
    case JNumber(raw) => raw
    case JString(s) => Quote(s)
    case JArray(items) => "[" + EncodeItems(items) + "]"
    case JObject(members) => "{" + EncodeMembers(members) + "}"
  }

  function EncodeItems(items: seq<Json>): string
    decreases items, 0
  {
    if items == [] then ""
    else if |items| == 1 then Encode(items[0])
    else Encode(items[0]) + "," + EncodeItems(items[1..])
  }

  function EncodeMembers(members: seq<(string, Json)>): string
    decreases members, 0
  {
    if members == [] then ""
    else
      var (key, value) := members[0];
      assert value < members[0];
      if |members| == 1 then Quote(key) + ":" + Encode(value)
      else Quote(key) + ":" + Encode(value) + "," + EncodeMembers(members[1..])
  }

  /** `JsonElement.ToString()`: a string's value, "" for null, "True" or
      "False" for a boolean, and the JSON text of anything else. */
  function ToText(e: Json): (r: string)
    ensures e.JString? ==> r == e.s
    ensures e.JNumber? ==> r == e.raw
    ensures e.JNull? ==> r == ""
    ensures e.JBool? ==> r == (if e.b then "True" else "False")
    ensures e.JObject? || e.JArray? ==> r == Encode(e)
  {
    match e
    case JNull => ""
    case JBool(b) => if b then "True" else "False"
    case JString(s) => s
    case _ => Encode(e)
  }

  /** Plain text is written as it is. */
  lemma {:induction false} EscapePlain(s: string)
    requires IsPlainText(s)
    ensures EscapeString(s) == s
    decreases |s|
  {
    if s != [] {
      EscapePlain(s[1..]);
    }
  }
}
