/** The JSON text `json.Marshal` produces for a `Response`
    (src/models/user.go), which the registration handler sends as the body
    of every reply. Fields appear in declaration order under their `json`
    tags, `data` is `null` or a string, and strings are escaped as
    `encoding/json` does with HTML escaping on. A reader for that compact
    form is the encoder's partner. */
module Json {
  import opened Wrappers
  import opened Models
  import Hex
  import Seqs

  // ---------------------------------------------------------------------
  // Strings

  /** The escaped form of one character. */
  function EscapeChar(c: char): (e: string)
    ensures 0 < |e| && e[0] != '"'
    ensures e[0] == '\\' || (e == [c] && 0x20 <= c as int && c != '\\')
  {
    var n := c as int;
    if c == '"' || c == '\\' then ['\\', c]
    else if n == 0x08 then "\\b"
    else if n == 0x0C then "\\f"
    else if c == '\n' then "\\n"
    else if c == '\r' then "\\r"
    else if c == '\t' then "\\t"
    else if n < 0x20 || c == '<' || c == '>' || c == '&' then
      ['\\', 'u', '0', '0', Hex.Digit(n / 16), Hex.Digit(n % 16)]
    else if n == 0x2028 || n == 0x2029 then
      ['\\', 'u', '2', '0', '2', Hex.Digit(n % 16)]
    else [c]
  }

  function Escape(s: string): string {
    if |s| == 0 then "" else EscapeChar(s[0]) + Escape(s[1..])
  }

  /** A JSON string literal. */
  function Quote(s: string): string {
    "\"" + Escape(s) + "\""
  }

  /** The value of four hex digits. */
  function HexValue4(t: string): (v: nat)
    requires |t| == 4 && forall i :: 0 <= i < 4 ==> Hex.IsDigit(t[i])
    ensures v < 0x1_0000
  {
    4096 * Hex.DigitValue(t[0]) + 256 * Hex.DigitValue(t[1])
      + 16 * Hex.DigitValue(t[2]) + Hex.DigitValue(t[3])
  }

  /** Read one character of a string literal's contents: a plain character
      or an escape sequence. A closing quote, a raw control character, an
      unknown escape or a lone surrogate is refused. */
  function ReadChar(t: string): (r: Option<(char, string)>)
    ensures r.Some? ==> |r.value.1| < |t|
  {
    if |t| == 0 || t[0] == '"' || t[0] as int < 0x20 then None
    else if t[0] != '\\' then Some((t[0], t[1..]))
    else if |t| < 2 then None
    else match t[1]
      case '"' => Some(('"', t[2..]))
      case '\\' => Some(('\\', t[2..]))
      case '/' => Some(('/', t[2..]))
      case 'b' => Some((0x08 as char, t[2..]))
      case 'f' => Some((0x0C as char, t[2..]))
      case 'n' => Some(('\n', t[2..]))
      case 'r' => Some(('\r', t[2..]))
      case 't' => Some(('\t', t[2..]))
      case 'u' =>
        if |t| >= 6 && forall i :: 2 <= i < 6 ==> Hex.IsDigit(t[i]) then
          var v := HexValue4(t[2..6]);
          if v < 0xD800 || 0xE000 <= v then Some((v as char, t[6..])) else None
        else None
      case _ => None
  }

  /** Read the contents of a string literal up to and including its
      closing quote. */
  function ReadString(t: string): Option<(string, string)>
    decreases |t|
  {
    if |t| == 0 then None
    else if t[0] == '"' then Some(("", t[1..]))
    else match ReadChar(t)
      case None => None
      case Some((c, rest)) =>
        match ReadString(rest)
        case None => None
        case Some((s, after)) => Some(([c] + s, after))
  }

  function ReadQuoted(t: string): Option<(string, string)> {
    if |t| > 0 && t[0] == '"' then ReadString(t[1..]) else None
  }

  // ---------------------------------------------------------------------
  // The response object

  function EncodeData(d: Option<string>): string {
    match d
    case None => "null"
    case Some(x) => Quote(x)
  }

  function EncodeBool(b: bool): string {
    if b then "true" else "false"
  }

  /** `json.Marshal(response)`. */
  function EncodeResponse(r: Response): (b: string)
    ensures "{\"message\":\"" <= b && b[|b| - 1] == '}'
  {
    "{\"message\":" + Quote(r.message)
      + ",\"data\":" + EncodeData(r.data)
      + ",\"success\":" + EncodeBool(r.success)
      + ",\"error\":" + Quote(r.error)
      + "}"
  }

  /** Consume the literal `lit` at the front of `t`. */
  function Expect(lit: string, t: string): Option<string> {
    if lit <= t then Some(t[|lit|..]) else None
  }

  function ReadData(t: string): Option<(Option<string>, string)> {
    if "null" <= t then Some((None, t[4..]))
    else match ReadQuoted(t)
      case None => None
      case Some((x, rest)) => Some((Some(x), rest))
  }

  function ReadBool(t: string): Option<(bool, string)> {
    if "true" <= t then Some((true, t[4..]))
    else if "false" <= t then Some((false, t[5..]))
    else None
  }

  /** Read back a response in the compact form `EncodeResponse` writes. */
  function DecodeResponse(b: string): Option<Response> {
    var t1 :- Expect("{\"message\":", b);
    var m :- ReadQuoted(t1);
    var t2 :- Expect(",\"data\":", m.1);
    var d :- ReadData(t2);
    var t3 :- Expect(",\"success\":", d.1);
    var ok :- ReadBool(t3);
    var t4 :- Expect(",\"error\":", ok.1);
    var e :- ReadQuoted(t4);
    if e.1 == "}" then Some(Response(m.0, d.0, ok.0, e.0)) else None
  }

  // ---------------------------------------------------------------------
  // Lemmas

  lemma ReadEscapedChar(c: char, t: string)
    ensures ReadChar(EscapeChar(c) + t) == Some((c, t))
  {
    var e := EscapeChar(c);
    var u := e + t;
    var n := c as int;
    if |e| == 6 {
      assert u[2..6] == e[2..6];
      if n < 0x100 {
        assert HexValue4(u[2..6]) == 16 * (n / 16) + n % 16;
      } else {
        assert HexValue4(u[2..6]) == 0x2020 + n % 16;
      }
      assert u[6..] == t;
    } else if |e| == 2 {
      assert u[2..] == t;
    } else {
      assert u[1..] == t;
    }
  }

  /** The reader recovers an escaped string and stops at its closing quote. */
  lemma {:induction false} ReadEscaped(s: string, t: string)
    ensures ReadString(Escape(s) + "\"" + t) == Some((s, t))
    decreases |s|
  {
    if |s| == 0 {
      assert Escape(s) + "\"" + t == "\"" + t;
    } else {
      var rest := Escape(s[1..]) + "\"" + t;
      assert Escape(s) + "\"" + t == EscapeChar(s[0]) + rest;
      ReadEscapedChar(s[0], rest);
      ReadEscaped(s[1..], t);
      Seqs.HeadTail(s);
    }
  }

  lemma ReadQuotedOf(s: string, t: string)
    ensures ReadQuoted(Quote(s) + t) == Some((s, t))
  {
    assert Quote(s) + t == "\"" + (Escape(s) + "\"" + t);
    ReadEscaped(s, t);
  }

  lemma ExpectOf(lit: string, t: string)
    ensures Expect(lit, lit + t) == Some(t)
  {
    assert lit <= lit + t;
    assert (lit + t)[|lit|..] == t;
  }

  lemma ReadDataOf(d: Option<string>, t: string)
    ensures ReadData(EncodeData(d) + t) == Some((d, t))
  {
    match d
    case None =>
      assert ("null" + t)[4..] == t;
    case Some(x) =>
      ReadQuotedOf(x, t);
      assert !("null" <= Quote(x) + t) by {
        assert (Quote(x) + t)[0] == '"';
      }
  }

  lemma ReadBoolOf(b: bool, t: string)
    ensures ReadBool(EncodeBool(b) + t) == Some((b, t))
  {
    if b {
      assert ("true" + t)[4..] == t;
    } else {
      assert ("false" + t)[5..] == t;
      assert ("false" + t)[0] == 'f';
    }
  }

  /** The encoding regrouped so that each reader step sees its own part
      at the front. */
  function Tail(r: Response): string {
    ",\"data\":" + (EncodeData(r.data)
      + (",\"success\":" + (EncodeBool(r.success)
      + (",\"error\":" + (Quote(r.error) + "}")))))
  }

  lemma EncodeResponseRegrouped(r: Response)
    ensures EncodeResponse(r) == "{\"message\":" + (Quote(r.message) + Tail(r))
  {
    var a, b, c, d := "{\"message\":", Quote(r.message), ",\"data\":", EncodeData(r.data);
    var e, f, g, h, i := ",\"success\":", EncodeBool(r.success), ",\"error\":", Quote(r.error), "}";
    calc {
      EncodeResponse(r);
      a + b + c + d + e + f + g + h + i;
      { Seqs.Assoc(a + b + c + d + e + f + g, h, i); }
      a + b + c + d + e + f + g + (h + i);
      { Seqs.Assoc(a + b + c + d + e + f, g, h + i); }
      a + b + c + d + e + f + (g + (h + i));
      { Seqs.Assoc(a + b + c + d + e, f, g + (h + i)); }
      a + b + c + d + e + (f + (g + (h + i)));
      { Seqs.Assoc(a + b + c + d, e, f + (g + (h + i))); }
      a + b + c + d + (e + (f + (g + (h + i))));
      { Seqs.Assoc(a + b + c, d, e + (f + (g + (h + i)))); }
      a + b + c + (d + (e + (f + (g + (h + i)))));
      { Seqs.Assoc(a + b, c, d + (e + (f + (g + (h + i))))); }
      a + b + (c + (d + (e + (f + (g + (h + i))))));
      { Seqs.Assoc(a, b, c + (d + (e + (f + (g + (h + i)))))); }
      a + (b + (c + (d + (e + (f + (g + (h + i)))))));
    }
  }

  lemma DecodeTail(r: Response)
    ensures Expect(",\"data\":", Tail(r)).Some?
    ensures var t2 := Expect(",\"data\":", Tail(r)).value;
      && ReadData(t2).Some? && ReadData(t2).value.0 == r.data
      && var t3 := Expect(",\"success\":", ReadData(t2).value.1);
      && t3.Some? && ReadBool(t3.value) == Some((r.success, ",\"error\":" + (Quote(r.error) + "}")))
  {
    var t4 := Quote(r.error) + "}";
    var t3 := EncodeBool(r.success) + (",\"error\":" + t4);
    var t2 := EncodeData(r.data) + (",\"success\":" + t3);
    ExpectOf(",\"data\":", t2);
    ReadDataOf(r.data, ",\"success\":" + t3);
    ExpectOf(",\"success\":", t3);
    ReadBoolOf(r.success, ",\"error\":" + t4);
  }

  /** The body the handler sends reads back as the very response it
      encodes, whatever the strings contain. */
  lemma DecodeEncodedResponse(r: Response)
    ensures DecodeResponse(EncodeResponse(r)) == Some(r)
  {
    EncodeResponseRegrouped(r);
    ExpectOf("{\"message\":", Quote(r.message) + Tail(r));
    ReadQuotedOf(r.message, Tail(r));
    DecodeTail(r);
    ExpectOf(",\"error\":", Quote(r.error) + "}");
    ReadQuotedOf(r.error, "}");
  }

  /** Distinct responses are sent as distinct bodies. */
  lemma EncodeResponseInjective(r: Response, q: Response)
    requires EncodeResponse(r) == EncodeResponse(q)
    ensures r == q
  {
    DecodeEncodedResponse(r);
    DecodeEncodedResponse(q);
  }
}
