/** JSON values as the client sends and receives them, `JSON.stringify` for request
    bodies, and the string-literal decoding a JSON reader applies to what it produces. */
module Json {
  import opened Wrappers
  import opened Strings

  /** Numbers are the integral numbers the client puts into bodies; objects keep their
      keys in insertion order, which is the order `JSON.stringify` writes them in. */
  datatype Json =
    | JNull
    | JBool(b: bool)
    | JNumber(n: int)
    | JString(s: string)
    | JArray(items: seq<Json>)
    | JObject(fields: seq<(string, Json)>)

  function HexDigitLower(d: nat): char
    requires d < 16
  {
    if d < 10 then (48 + d) as char else (87 + d) as char
  }

  /** How `JSON.stringify` writes one character inside a string literal. */
  function EscapeChar(c: char): string
  {
    if c == '"' then "\\\""
    else if c == '\\' then "\\\\"
    else if c == 8 as char then "\\b"
    else if c == 12 as char then "\\f"
    else if c == '\n' then "\\n"
    else if c == '\r' then "\\r"
    else if c == '\t' then "\\t"
    else if c < ' ' then "\\u00" + [HexDigitLower(c as int / 16), HexDigitLower(c as int % 16)]
    else [c]
  }

  function Escape(s: string): string
  {
    if s == [] then "" else EscapeChar(s[0]) + Escape(s[1..])
  }

  function Quote(s: string): string
  {
    "\"" + Escape(s) + "\""
  }

  /** `JSON.stringify(v)`, with no indentation. */
  function Stringify(v: Json): (t: string)
    ensures t != []
    ensures v.JString? ==> t[0] == '"' && t[|t| - 1] == '"'
    ensures v.JArray? ==> t[0] == '[' && t[|t| - 1] == ']'
    ensures v.JObject? ==> t[0] == '{' && t[|t| - 1] == '}'
  {
    match v
    case JNull => "null"
    case JBool(b) => if b then "true" else "false"
    case JNumber(n) => IntToString(n)
    case JString(s) => Quote(s)
    case JArray(items) =>
      "[" + Join(",", seq(|items|, i requires 0 <= i < |items| => Stringify(items[i]))) + "]"
    case JObject(fields) =>
      "{" + Join(",", seq(|fields|, i requires 0 <= i < |fields| => Quote(fields[i].0) + ":" + Stringify(fields[i].1))) + "}"
  }

  /** An empty object is written as "{}" and an empty array as "[]". */
  lemma StringifyEmpty()
    ensures Stringify(JObject([])) == "{}"
    ensures Stringify(JArray([])) == "[]"
  {
  }

  /** A property read on a decoded object; a repeated key reads its last value, as a
      JSON reader that overwrites earlier duplicates leaves it. */
  function Lookup(fields: seq<(string, Json)>, key: string): Option<Json>
  {
    if fields == [] then None
    else if fields[|fields| - 1].0 == key then Some(fields[|fields| - 1].1)
    else Lookup(fields[..|fields| - 1], key)
  }

  /** A key reads as absent exactly when no field carries it, and otherwise as the value
      of the last field that carries it. */
  lemma {:induction false} LookupFindsLast(fields: seq<(string, Json)>, key: string)
    ensures Lookup(fields, key).None? <==> forall i :: 0 <= i < |fields| ==> fields[i].0 != key
    ensures Lookup(fields, key).Some? ==>
              exists i :: 0 <= i < |fields| && fields[i] == (key, Lookup(fields, key).value)
                          && forall j :: i < j < |fields| ==> fields[j].0 != key
  {
    if fields != [] && fields[|fields| - 1].0 != key {
      var init := fields[..|fields| - 1];
      LookupFindsLast(init, key);
      if Lookup(init, key).Some? {
        var i :| 0 <= i < |init| && init[i] == (key, Lookup(init, key).value)
                 && forall j :: i < j < |init| ==> init[j].0 != key;
        assert fields[i] == init[i];
      }
    }
  }

  // ----- reading a string literal back -----

  function HexDigitValue(c: char): Option<nat>
  {
    if '0' <= c <= '9' then Some(c as int - 48)
    else if 'a' <= c <= 'f' then Some(c as int - 87)
    else if 'A' <= c <= 'F' then Some(c as int - 55)
    else None
  }

  /** The value of the four hex digits of a `\uXXXX` escape. */
  function Hex4Value(h: string): (r: Option<nat>)
    requires |h| == 4
    ensures r.Some? ==> r.value < 0x10000
  {
    match (HexDigitValue(h[0]), HexDigitValue(h[1]), HexDigitValue(h[2]), HexDigitValue(h[3]))
    case (Some(a), Some(b), Some(c), Some(d)) =>
      if a < 16 && b < 16 && c < 16 && d < 16 then Some(a * 4096 + b * 256 + c * 16 + d) else None
    case _ => None
  }

  /** Decodes the inside of a JSON string literal: raw quotes and control characters are
      refused, and every escape JSON defines is read, except that a `\u` escape naming a
      surrogate half is refused. */
  function Unescape(t: string): Option<string>
    decreases |t|
  {
    if t == [] then Some("")
    else if t[0] == '"' || t[0] < ' ' then None
    else if t[0] != '\\' then Cons(t[0], Unescape(t[1..]))
    else if |t| < 2 then None
    else if t[1] == '"' || t[1] == '\\' || t[1] == '/' then Cons(t[1], Unescape(t[2..]))
    else if t[1] == 'b' then Cons(8 as char, Unescape(t[2..]))
    else if t[1] == 'f' then Cons(12 as char, Unescape(t[2..]))
    else if t[1] == 'n' then Cons('\n', Unescape(t[2..]))
    else if t[1] == 'r' then Cons('\r', Unescape(t[2..]))
    else if t[1] == 't' then Cons('\t', Unescape(t[2..]))
    else if t[1] == 'u' && |t| >= 6 then
      match Hex4Value(t[2..6])
      case None => None
      case Some(v) => if 0xD800 <= v <= 0xDFFF then None else Cons(v as char, Unescape(t[6..]))
    else None
  }

  lemma HexDigitLowerValue(d: nat)
    requires d < 16
    ensures HexDigitValue(HexDigitLower(d)) == Some(d)
  {
  }

  lemma UnescapeEscapeChar(c: char, rest: string)
    ensures Unescape(EscapeChar(c) + rest) == Cons(c, Unescape(rest))
  {
    var t := EscapeChar(c) + rest;
    if c == '"' || c == '\\' || c == 8 as char || c == 12 as char || c == '\n' || c == '\r' || c == '\t' {
      assert t[2..] == rest;
    } else if c < ' ' {
      var n := c as int;
      HexDigitLowerValue(n / 16);
      HexDigitLowerValue(n % 16);
      assert t[2..6] == ['0', '0', HexDigitLower(n / 16), HexDigitLower(n % 16)];
      assert Hex4Value(t[2..6]) == Some(n);
      assert t[6..] == rest;
    } else {
      assert t[1..] == rest;
    }
  }

  /** Whatever string the client sends, a JSON reader gets exactly that string back. */
  lemma {:induction false} EscapeRoundTrip(s: string)
    ensures Unescape(Escape(s)) == Some(s)
  {
    if s != [] {
      UnescapeEscapeChar(s[0], Escape(s[1..]));
      EscapeRoundTrip(s[1..]);
      assert [s[0]] + s[1..] == s;
    }
  }
}
