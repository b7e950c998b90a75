/** The literal encoder the generator relies on: `JSON.stringify` over JSON
    values. Numbers are integers here (see README, "Left out"). */
module Json {
  import opened Wrappers
  import opened TextUtil

  datatype Json =
    | JNull
    | JBool(b: bool)
    | JNumber(n: int)
    | JString(s: string)
    | JArray(items: seq<Json>)
    | JObject(fields: seq<Field>)

  datatype Field = Field(key: string, value: Json)

  function HexDigit(d: nat): (c: char)
    requires d < 16
  {
    "0123456789abcdef"[d]
  }

  function HexValue(c: char): (r: Option<nat>)
    ensures r.Some? ==> r.value < 16
  {
    if '0' <= c <= '9' then Some(c as int - '0' as int)
    else if 'a' <= c <= 'f' then Some(c as int - 'a' as int + 10)
    else None
  }

  /** The escape JSON.stringify writes for one character of a string. */
  function EscapeChar(c: char): (e: string)
    ensures |e| >= 1
    ensures e[0] != '"'
    ensures e[0] == '\\' <==> |e| > 1
  {
    if c == '"' then "\\\""
    else if c == '\\' then "\\\\"
    else if c == '\U{8}' then "\\b"
    else if c == '\t' then "\\t"
    else if c == '\n' then "\\n"
    else if c == '\U{C}' then "\\f"
    else if c == '\r' then "\\r"
    else if c < ' ' then "\\u00" + [HexDigit(c as int / 16), HexDigit(c as int % 16)]
    else [c]
  }

  function Escape(s: string): (e: string)
    decreases |s|
  {
    if s == [] then [] else EscapeChar(s[0]) + Escape(s[1..])
  }

  /** `JSON.stringify` of a string. */
  function Quote(s: string): (q: string)
    ensures |q| >= 2 && q[0] == '"' && q[|q| - 1] == '"'
  {
    "\"" + Escape(s) + "\""
  }

  /** Reads back the body of a quoted string; the partner of `Escape`. */
  function Unescape(t: string): (r: Option<string>)
    decreases |t|
  {
    if t == [] then Some([])
    else if t[0] == '"' then None
    else if t[0] != '\\' then
      var rest :- Unescape(t[1..]);
      Some([t[0]] + rest)
    else if |t| < 2 then None
    else
      var simple :=
        if t[1] == '"' then Some('"')
        else if t[1] == '\\' then Some('\\')
        else if t[1] == 'b' then Some('\U{8}')
        else if t[1] == 't' then Some('\t')
        else if t[1] == 'n' then Some('\n')
        else if t[1] == 'f' then Some('\U{C}')
        else if t[1] == 'r' then Some('\r')
        else None;
      if simple.Some? then
        var rest :- Unescape(t[2..]);
        Some([simple.value] + rest)
      else if t[1] == 'u' && |t| >= 6 && t[2] == '0' && t[3] == '0'
           && HexValue(t[4]).Some? && HexValue(t[5]).Some? then
        var code := HexValue(t[4]).value * 16 + HexValue(t[5]).value;
        var rest :- Unescape(t[6..]);
        Some([code as char] + rest)
      else None
  }

  function Unquote(q: string): (r: Option<string>)
  {
    if |q| >= 2 && q[0] == '"' && q[|q| - 1] == '"' then Unescape(q[1..|q| - 1]) else None
  }

  lemma HexDigitValue(d: nat)
    requires d < 16
    ensures HexValue(HexDigit(d)) == Some(d)
  {
    assert "0123456789abcdef"[d] == HexDigit(d);
    if d < 10 { assert HexDigit(d) as int == '0' as int + d; }
    else { assert HexDigit(d) as int == 'a' as int + d - 10; }
  }

  /** A control character without a short escape comes back from `\u00XX`. */
  lemma ControlEscapeUnescape(c: char, tail: string, rest: string)
    requires c < ' ' && c != '\U{8}' && c != '\t' && c != '\n' && c != '\U{C}' && c != '\r'
    requires Unescape(tail) == Some(rest)
    ensures Unescape(EscapeChar(c) + tail) == Some([c] + rest)
  {
    var t := EscapeChar(c) + tail;
    var hi, lo := c as int / 16, c as int % 16;
    assert t[..6] == "\\u00" + [HexDigit(hi), HexDigit(lo)];
    HexDigitValue(hi);
    HexDigitValue(lo);
    assert t[6..] == tail;
    assert (hi * 16 + lo) as char == c;
  }

  lemma EscapeCharUnescape(c: char, tail: string, rest: string)
    requires Unescape(tail) == Some(rest)
    ensures Unescape(EscapeChar(c) + tail) == Some([c] + rest)
  {
    var t := EscapeChar(c) + tail;
    if c == '"' || c == '\\' || c == '\U{8}' || c == '\t' || c == '\n' || c == '\U{C}' || c == '\r' {
      assert t[2..] == tail;
    } else if c < ' ' {
      ControlEscapeUnescape(c, tail, rest);
    } else {
      assert t[1..] == tail;
    }
  }

  /** Escaping never loses information. */
  lemma {:induction false} UnescapeEscape(s: string)
    ensures Unescape(Escape(s)) == Some(s)
    decreases |s|
  {
    if s != [] {
      UnescapeEscape(s[1..]);
      EscapeCharUnescape(s[0], Escape(s[1..]), s[1..]);
      assert [s[0]] + s[1..] == s;
    }
  }

  /** The string encoder is injective, so distinct ids and class lists give
      distinct attribute values. */
  lemma QuoteInjective(s: string, t: string)
    ensures Unquote(Quote(s)) == Some(s)
    ensures Quote(s) == Quote(t) ==> s == t
  {
    var q := Quote(s);
    assert q[1..|q| - 1] == Escape(s);
    UnescapeEscape(s);
    if Quote(s) == Quote(t) {
      var r := Quote(t);
      assert r[1..|r| - 1] == Escape(t);
      UnescapeEscape(t);
    }
  }

  function NumberText(n: int): (s: string)
  {
    if n < 0 then "-" + Digits(-n) else Digits(n)
  }

  /** `JSON.stringify(v)`. */
  function Stringify(v: Json): (s: string)
    ensures |s| >= 1
    decreases v
  {
    match v
    case JNull => "null"
    case JBool(b) => if b then "true" else "false"
    case JNumber(n) => NumberText(n)
    case JString(s) => Quote(s)
    case JArray(items) =>
      "[" + Join(seq(|items|, i requires 0 <= i < |items| => Stringify(items[i])), ",") + "]"
    case JObject(fields) =>
      "{" + Join(seq(|fields|, i requires 0 <= i < |fields| =>
                   Quote(fields[i].key) + ":" + Stringify(fields[i].value)), ",") + "}"
  }

  /** The encodings "true" and "false", which the generator compares against,
      come from the two booleans and from nothing else. */
  lemma {:induction false} StringifyBoolean(v: Json)
    ensures Stringify(v) == "true" <==> v == JBool(true)
    ensures Stringify(v) == "false" <==> v == JBool(false)
  {
    match v
    case JNull =>
    case JBool(b) =>
    case JNumber(n) =>
      if n < 0 {
        assert Stringify(v)[0] == '-';
      } else {
        assert Stringify(v)[0] == Digits(n)[0];
      }
    case JString(s) =>
      assert Stringify(v)[0] == '"';
    case JArray(items) =>
      assert Stringify(v)[0] == '[';
    case JObject(fields) =>
      assert Stringify(v)[0] == '{';
  }
}
