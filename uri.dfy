/** Percent-encoding as the client uses it: `encodeURIComponent` for values spliced into
    paths and queries, and the application/x-www-form-urlencoded serializer behind
    `URLSearchParams.toString()`. Both write the UTF-8 bytes of every character outside a
    safe set as `%XX` with upper-case hex digits; the form serializer also writes a space
    as "+". */
module Uri {
  import opened Wrappers
  import opened Strings

  newtype byte = x: int | 0 <= x < 256

  /** The UTF-8 encoding of one Unicode scalar value. */
  function Utf8(c: char): (bs: seq<byte>)
    ensures 1 <= |bs| <= 4
    ensures (c as int < 0x80) <==> |bs| == 1
  {
    var n := c as int;
    if n < 0x80 then [n as byte]
    else if n < 0x800 then [(0xC0 + n / 64) as byte, (0x80 + n % 64) as byte]
    else if n < 0x10000 then
      [(0xE0 + n / 4096) as byte, (0x80 + n / 64 % 64) as byte, (0x80 + n % 64) as byte]
    else
      [(0xF0 + n / 262144) as byte, (0x80 + n / 4096 % 64) as byte,
       (0x80 + n / 64 % 64) as byte, (0x80 + n % 64) as byte]
  }

  function Utf8Encode(s: string): seq<byte>
  {
    if s == [] then [] else Utf8(s[0]) + Utf8Encode(s[1..])
  }

  predicate IsContinuation(b: byte)
  {
    0x80 <= b < 0xC0
  }

  /** Reads UTF-8 back, accepting only shortest forms, no surrogate halves and nothing
      above U+10FFFF. */
  function Utf8Decode(bs: seq<byte>): Option<string>
    decreases |bs|
  {
    if bs == [] then Some("")
    else
      var b0 := bs[0] as int;
      if b0 < 0x80 then Cons(b0 as char, Utf8Decode(bs[1..]))
      else if 0xC0 <= b0 < 0xE0 && |bs| >= 2 && IsContinuation(bs[1]) then
        var v := (b0 - 0xC0) * 64 + (bs[1] as int - 0x80);
        if v < 0x80 then None else Cons(v as char, Utf8Decode(bs[2..]))
      else if 0xE0 <= b0 < 0xF0 && |bs| >= 3 && IsContinuation(bs[1]) && IsContinuation(bs[2]) then
        var v := (b0 - 0xE0) * 4096 + (bs[1] as int - 0x80) * 64 + (bs[2] as int - 0x80);
        if v < 0x800 || 0xD800 <= v < 0xE000 then None else Cons(v as char, Utf8Decode(bs[3..]))
      else if 0xF0 <= b0 < 0xF8 && |bs| >= 4 && IsContinuation(bs[1]) && IsContinuation(bs[2])
              && IsContinuation(bs[3]) then
        var v := (b0 - 0xF0) * 262144 + (bs[1] as int - 0x80) * 4096
                 + (bs[2] as int - 0x80) * 64 + (bs[3] as int - 0x80);
        if v < 0x10000 || v > 0x10FFFF then None else Cons(v as char, Utf8Decode(bs[4..]))
      else None
  }

  lemma Utf8DecodeTwo(c: char, rest: seq<byte>)
    requires 0x80 <= c as int < 0x800
    ensures Utf8Decode(Utf8(c) + rest) == Cons(c, Utf8Decode(rest))
  {
    var n := c as int;
    var bs := Utf8(c) + rest;
    var b0, b1 := 0xC0 + n / 64, 0x80 + n % 64;
    assert bs[0] as int == b0 && bs[1] as int == b1;
    assert (b0 - 0xC0) * 64 + (b1 - 0x80) == n;
    assert bs[2..] == rest;
  }

  lemma Utf8DecodeThree(c: char, rest: seq<byte>)
    requires 0x800 <= c as int < 0x10000
    ensures Utf8Decode(Utf8(c) + rest) == Cons(c, Utf8Decode(rest))
  {
    var n := c as int;
    var bs := Utf8(c) + rest;
    var b0, b1, b2 := 0xE0 + n / 4096, 0x80 + n / 64 % 64, 0x80 + n % 64;
    assert bs[0] as int == b0 && bs[1] as int == b1 && bs[2] as int == b2;
    assert n / 64 == (n / 4096) * 64 + n / 64 % 64;
    assert n == (n / 64) * 64 + n % 64;
    assert (b0 - 0xE0) * 4096 + (b1 - 0x80) * 64 + (b2 - 0x80) == n;
    assert bs[3..] == rest;
  }

  lemma Utf8DecodeFour(c: char, rest: seq<byte>)
    requires 0x10000 <= c as int
    ensures Utf8Decode(Utf8(c) + rest) == Cons(c, Utf8Decode(rest))
  {
    var n := c as int;
    var bs := Utf8(c) + rest;
    var b0, b1, b2, b3 := 0xF0 + n / 262144, 0x80 + n / 4096 % 64, 0x80 + n / 64 % 64, 0x80 + n % 64;
    assert bs[0] as int == b0 && bs[1] as int == b1 && bs[2] as int == b2 && bs[3] as int == b3;
    assert n / 4096 == (n / 262144) * 64 + n / 4096 % 64;
    assert n / 64 == (n / 4096) * 64 + n / 64 % 64;
    assert n == (n / 64) * 64 + n % 64;
    assert (b0 - 0xF0) * 262144 + (b1 - 0x80) * 4096 + (b2 - 0x80) * 64 + (b3 - 0x80) == n;
    assert bs[4..] == rest;
  }

  lemma Utf8DecodeOne(c: char, rest: seq<byte>)
    ensures Utf8Decode(Utf8(c) + rest) == Cons(c, Utf8Decode(rest))
  {
    var n := c as int;
    if n < 0x80 {
      assert (Utf8(c) + rest)[1..] == rest;
    } else if n < 0x800 {
      Utf8DecodeTwo(c, rest);
    } else if n < 0x10000 {
      Utf8DecodeThree(c, rest);
    } else {
      Utf8DecodeFour(c, rest);
    }
  }

  /** UTF-8 decoding undoes UTF-8 encoding. */
  lemma {:induction false} Utf8RoundTrip(s: string)
    ensures Utf8Decode(Utf8Encode(s)) == Some(s)
  {
    if s != [] {
      Utf8DecodeOne(s[0], Utf8Encode(s[1..]));
      Utf8RoundTrip(s[1..]);
      assert [s[0]] + s[1..] == s;
    }
  }

  // ----- percent-encoding -----

  function HexUpper(d: nat): char
    requires d < 16
  {
    if d < 10 then (48 + d) as char else (55 + d) as char
  }

  predicate IsHexUpper(c: char)
  {
    '0' <= c <= '9' || 'A' <= c <= 'F'
  }

  function HexValue(c: char): nat
    requires IsHexUpper(c)
  {
    if c <= '9' then c as int - 48 else c as int - 55
  }

  lemma HexUpperValue(d: nat)
    requires d < 16
    ensures IsHexUpper(HexUpper(d)) && HexValue(HexUpper(d)) == d
  {
  }

  function PercentBytes(bs: seq<byte>): string
  {
    if bs == [] then ""
    else ['%', HexUpper(bs[0] as int / 16), HexUpper(bs[0] as int % 16)] + PercentBytes(bs[1..])
  }

  predicate IsAlphaNumeric(c: char)
  {
    'a' <= c <= 'z' || 'A' <= c <= 'Z' || '0' <= c <= '9'
  }

  /** The characters left as they are: by `encodeURIComponent` when `form` is false, by the
      form serializer when it is true. */
  predicate IsSafe(c: char, form: bool)
  {
    IsAlphaNumeric(c) || c in (if form then "*-._" else "-_.!~*'()")
  }

  function EncodeChar(c: char, form: bool): string
  {
    if IsSafe(c, form) then [c]
    else if form && c == ' ' then "+"
    else PercentBytes(Utf8(c))
  }

  /** `encodeURIComponent(s)` (form = false), or one name or value of
      `URLSearchParams.toString()` (form = true). */
  function PercentEncode(s: string, form: bool): string
  {
    if s == [] then "" else EncodeChar(s[0], form) + PercentEncode(s[1..], form)
  }

  /** `encodeURIComponent(s)`: the text decodes back to `s`, and it holds none of the
      characters that would end or split a query parameter. */
  function EncodeURIComponent(s: string): (e: string)
    ensures PercentDecode(e, false) == Some(s)
    ensures forall i :: 0 <= i < |e| ==> e[i] !in "&=#?/ "
  {
    PercentRoundTrip(s, false);
    PercentEncodeAlphabet(s, false);
    PercentEncode(s, false)
  }

  function FormEncode(s: string): string
  {
    PercentEncode(s, true)
  }

  /** `URLSearchParams.toString()` for the given name/value pairs, in order. */
  function SerializeParams(params: seq<(string, string)>): (q: string)
    ensures params == [] ==> q == ""
    // the query cannot end the URL's query part or add a path segment
    ensures forall c :: c in q ==> c !in "#?/ "
  {
    EncodedParamsAvoid(params);
    Join("&", seq(|params|, i requires 0 <= i < |params| => FormEncode(params[i].0) + "=" + FormEncode(params[i].1)))
  }

  /** What may appear in encoded text: safe characters, '%' with upper-case hex digits,
      and '+' in form encoding. */
  predicate InEncodedAlphabet(c: char, form: bool)
  {
    IsSafe(c, form) || c == '%' || IsHexUpper(c) || (form && c == '+')
  }

  lemma {:induction false} PercentBytesAlphabet(bs: seq<byte>, form: bool)
    ensures forall i :: 0 <= i < |PercentBytes(bs)| ==> InEncodedAlphabet(PercentBytes(bs)[i], form)
  {
    if bs != [] {
      PercentBytesAlphabet(bs[1..], form);
    }
  }

  /** The encoded text only holds characters of the encoded alphabet. In particular it never
      holds '&', '=', '#', '?', '/' or a space, so an encoded value cannot end the query
      parameter, the query or the path segment it is spliced into. */
  lemma {:induction false} PercentEncodeAlphabet(s: string, form: bool)
    ensures forall i :: 0 <= i < |PercentEncode(s, form)| ==> InEncodedAlphabet(PercentEncode(s, form)[i], form)
    ensures forall i :: 0 <= i < |PercentEncode(s, form)| ==> PercentEncode(s, form)[i] !in "&=#?/ "
  {
    if s != [] {
      PercentEncodeAlphabet(s[1..], form);
      PercentBytesAlphabet(Utf8(s[0]), form);
    }
  }

  /** Text made only of safe characters is left unchanged. */
  lemma {:induction false} PercentEncodeSafe(s: string, form: bool)
    requires forall i :: 0 <= i < |s| ==> IsSafe(s[i], form)
    ensures PercentEncode(s, form) == s
  {
    if s != [] {
      PercentEncodeSafe(s[1..], form);
      assert [s[0]] + s[1..] == s;
    }
  }

  // ----- percent-decoding -----

  /** The bytes that percent-encoded text stands for: `%XX` is one byte, "+" is a space in
      form encoding, and any other character stands for its own UTF-8 bytes. */
  function DecodeBytes(t: string, form: bool): Option<seq<byte>>
    decreases |t|
  {
    if t == [] then Some([])
    else if t[0] == '%' then
      if |t| >= 3 && IsHexUpper(t[1]) && IsHexUpper(t[2]) then
        match DecodeBytes(t[3..], form)
        case None => None
        case Some(rest) => Some([(HexValue(t[1]) * 16 + HexValue(t[2])) as byte] + rest)
      else None
    else
      match DecodeBytes(t[1..], form)
      case None => None
      case Some(rest) => Some((if form && t[0] == '+' then [0x20 as byte] else Utf8(t[0])) + rest)
  }

  /** `decodeURIComponent` (form = false), or the form decoder (form = true), restricted to
      upper-case hex digits. */
  function PercentDecode(t: string, form: bool): Option<string>
  {
    match DecodeBytes(t, form)
    case None => None
    case Some(bs) => Utf8Decode(bs)
  }

  lemma {:induction false} DecodePercentBytes(bs: seq<byte>, rest: string, form: bool)
    requires DecodeBytes(rest, form).Some?
    ensures DecodeBytes(PercentBytes(bs) + rest, form) == Some(bs + DecodeBytes(rest, form).value)
  {
    if bs != [] {
      var b := bs[0] as int;
      var t := PercentBytes(bs) + rest;
      DecodePercentBytes(bs[1..], rest, form);
      HexUpperValue(b / 16);
      HexUpperValue(b % 16);
      assert t[0] == '%' && t[1] == HexUpper(b / 16) && t[2] == HexUpper(b % 16);
      assert t[3..] == PercentBytes(bs[1..]) + rest;
      assert (HexValue(t[1]) * 16 + HexValue(t[2])) as byte == bs[0];
      var tail := DecodeBytes(rest, form).value;
      assert DecodeBytes(t[3..], form) == Some(bs[1..] + tail);
      assert [bs[0]] + (bs[1..] + tail) == bs + tail;
    } else {
      assert PercentBytes(bs) + rest == rest;
      assert bs + DecodeBytes(rest, form).value == DecodeBytes(rest, form).value;
    }
  }

  lemma {:induction false} DecodeBytesOfEncoding(s: string, form: bool)
    ensures DecodeBytes(PercentEncode(s, form), form) == Some(Utf8Encode(s))
  {
    if s != [] {
      var c := s[0];
      var rest := PercentEncode(s[1..], form);
      DecodeBytesOfEncoding(s[1..], form);
      if IsSafe(c, form) || (form && c == ' ') {
        assert (EncodeChar(c, form) + rest)[1..] == rest;
      } else {
        DecodePercentBytes(Utf8(c), rest, form);
      }
    }
  }

  /** No serialised pair holds '#', '?', '/' or a space, and neither does their join. */
  lemma EncodedParamsAvoid(params: seq<(string, string)>)
    ensures var parts := seq(|params|, i requires 0 <= i < |params| => FormEncode(params[i].0) + "=" + FormEncode(params[i].1));
      forall c :: c in Join("&", parts) ==> c !in "#?/ "
  {
    var parts := seq(|params|, i requires 0 <= i < |params| => FormEncode(params[i].0) + "=" + FormEncode(params[i].1));
    forall k | 0 <= k < |parts|
      ensures forall c :: c in parts[k] ==> c !in "#?/ "
    {
      var name, value := FormEncode(params[k].0), FormEncode(params[k].1);
      PercentEncodeAlphabet(params[k].0, true);
      PercentEncodeAlphabet(params[k].1, true);
      forall c | c in parts[k]
        ensures c !in "#?/ "
      {
        assert parts[k] == name + "=" + value;
        if c in name {
          var i :| 0 <= i < |name| && name[i] == c;
        } else if c in value {
          var i :| 0 <= i < |value| && value[i] == c;
        }
      }
    }
    JoinAvoids("&", parts, "#?/ ");
  }

  /** Decoding gives back exactly the text that was encoded. */
  lemma PercentRoundTrip(s: string, form: bool)
    ensures PercentDecode(PercentEncode(s, form), form) == Some(s)
  {
    DecodeBytesOfEncoding(s, form);
    Utf8RoundTrip(s);
  }
}
