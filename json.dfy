/** `JSON.stringify` of an array of strings, as the enum renderer uses it
    (ast-to-drizzle.ts, `mapEnum`), with the escaping of section 7 of
    RFC 8259 as ECMAScript applies it, and a reader that parses the text
    back. Characters are Unicode scalar values, so no lone surrogate arises. */
module Json {
  import opened Wrappers
  import opened JsString

  function HexDigit(n: nat): (c: char)
    requires n < 16
  {
    if n < 10 then (48 + n) as char else (87 + n) as char
  }

  /** The value of a lower- or upper-case hexadecimal digit. */
  function HexValue(c: char): (r: Option<nat>)
    ensures r.Some? ==> r.value < 16
  {
    if '0' <= c <= '9' then Some(c as int - 48)
    else if 'a' <= c <= 'f' then Some(c as int - 87)
    else if 'A' <= c <= 'F' then Some(c as int - 55)
    else None
  }

  /** Four hexadecimal digits make a value below 0x10000. */
  lemma FourDigits(a: nat, b: nat, c: nat, d: nat)
    requires a < 16 && b < 16 && c < 16 && d < 16
    ensures ((a * 16 + b) * 16 + c) * 16 + d < 0x10000
  {
    assert a * 16 + b <= 255;
    assert (a * 16 + b) * 16 + c <= 4095;
  }

  lemma HexDigitValue(n: nat)
    requires n < 16
    ensures HexValue(HexDigit(n)) == Some(n)
  {
  }

  /** One character inside a JSON string: `"` and `\` are escaped, so are
      the control characters (by name where JSON has one, else as
      `\u00XX` in lower-case hex); everything else stands for itself. */
  function EscapeChar(c: char): (r: string)
    ensures |r| >= 1 && r[0] != '"'
  {
    if c == '"' then "\\\""
    else if c == '\\' then "\\\\"
    else if c == '\U{8}' then "\\b"
    else if c == '\t' then "\\t"
    else if c == '\n' then "\\n"
    else if c == '\U{C}' then "\\f"
    else if c == '\r' then "\\r"
    else if c < ' ' then "\\u00" + [HexDigit(c as int / 16), HexDigit(c as int % 16)]
    else [c]
  }

  function Escape(s: string): string {
    if s == [] then [] else EscapeChar(s[0]) + Escape(s[1..])
  }

  /** A string literal: the escaped text between double quotes. */
  function Quote(s: string): string {
    "\"" + Escape(s) + "\""
  }

  /** The items after the first: each a comma and a string literal. */
  function More(ws: seq<string>): string {
    if ws == [] then [] else "," + Quote(ws[0]) + More(ws[1..])
  }

  /** `JSON.stringify(values)` for an array of strings: the literals
      separated by commas, no spaces. */
  function StringifyStrings(vs: seq<string>): string {
    "[" + (if vs == [] then [] else Quote(vs[0]) + More(vs[1..])) + "]"
  }

  // ---------------------------------------------------------- the reader

  /** The character an escape sequence (or a plain character) at the start of
      `t` stands for, and how many characters it takes. */
  function DecodeOne(t: string): (r: Option<(char, nat)>)
    requires t != [] && t[0] != '"'
    ensures r.Some? ==> 1 <= r.value.1 <= |t|
  {
    if t[0] != '\\' then Some((t[0], 1))
    else if |t| < 2 then None
    else if t[1] == '"' then Some(('"', 2))
    else if t[1] == '\\' then Some(('\\', 2))
    else if t[1] == '/' then Some(('/', 2))
    else if t[1] == 'b' then Some(('\U{8}', 2))
    else if t[1] == 't' then Some(('\t', 2))
    else if t[1] == 'n' then Some(('\n', 2))
    else if t[1] == 'f' then Some(('\U{C}', 2))
    else if t[1] == 'r' then Some(('\r', 2))
    else if t[1] == 'u' && |t| >= 6 then
      match (HexValue(t[2]), HexValue(t[3]), HexValue(t[4]), HexValue(t[5]))
      case (Some(a), Some(b), Some(c), Some(d)) =>
        var v := ((a * 16 + b) * 16 + c) * 16 + d;
        FourDigits(a, b, c, d);
        if v < 0xD800 || 0xDFFF < v then Some((v as char, 6)) else None
      case _ => None
    else None
  }

  /** The body of a string literal up to its closing quote: the decoded
      text and what follows the quote. */
  function ReadBody(t: string): (r: Option<(string, string)>)
    ensures r.Some? ==> |r.value.1| < |t|
    decreases |t|
  {
    if t == [] then None
    else if t[0] == '"' then Some(([], t[1..]))
    else
      match DecodeOne(t)
      case None => None
      case Some((c, n)) =>
        match ReadBody(t[n..])
        case None => None
        case Some((s, rest)) => Some(([c] + s, rest))
  }

  /** The items of an array after its opening `["`. */
  function ReadItems(t: string): Option<seq<string>>
    decreases |t|
  {
    match ReadBody(t)
    case None => None
    case Some((v, rest)) =>
      if rest == "]" then Some([v])
      else if |rest| >= 2 && rest[0] == ',' && rest[1] == '"' then
        match ReadItems(rest[2..])
        case None => None
        case Some(vs) => Some([v] + vs)
      else None
  }

  /** A JSON array of strings without whitespace. */
  function ParseStrings(t: string): Option<seq<string>> {
    if t == "[]" then Some([])
    else if |t| >= 2 && t[0] == '[' && t[1] == '"' then ReadItems(t[2..])
    else None
  }

  // --------------------------------------------------------- round trips

  /** Each escape is read back as the character it stands for. */
  lemma DecodeEscapeChar(c: char, rest: string)
    ensures var t := EscapeChar(c) + rest;
      t != [] && t[0] != '"' && DecodeOne(t) == Some((c, |EscapeChar(c)|))
  {
    var t := EscapeChar(c) + rest;
    if c < ' ' && !(c == '\U{8}' || c == '\t' || c == '\n' || c == '\U{C}' || c == '\r') {
      var hi := c as int / 16;
      var lo := c as int % 16;
      assert t[0] == '\\' && t[1] == 'u' && t[2] == '0' && t[3] == '0';
      assert t[4] == HexDigit(hi) && t[5] == HexDigit(lo);
      HexDigitValue(hi);
      HexDigitValue(lo);
    } else {
      assert t[..|EscapeChar(c)|] == EscapeChar(c);
    }
  }

  /** An escaped body followed by a closing quote reads back as the
      original text. */
  lemma {:induction false} ReadEscaped(s: string, rest: string)
    ensures ReadBody(Escape(s) + "\"" + rest) == Some((s, rest))
    decreases |s|
  {
    var t := Escape(s) + "\"" + rest;
    if s == [] {
      assert t == "\"" + rest;
    } else {
      var e := EscapeChar(s[0]);
      var tail := Escape(s[1..]) + "\"" + rest;
      assert t == e + tail;
      DecodeEscapeChar(s[0], tail);
      assert t[|e|..] == tail;
      ReadEscaped(s[1..], rest);
      assert [s[0]] + s[1..] == s;
    }
  }

  lemma ReassocItem(x: string, y: string)
    ensures "," + ("\"" + x + "\"") + y + "]" == ",\"" + (x + "\"" + (y + "]"))
  {
  }

  lemma ReassocArray(x: string, y: string)
    ensures "[" + ("\"" + x + "\"" + y) + "]" == "[\"" + (x + "\"" + (y + "]"))
  {
  }

  /** The literals after an opening quote are read back in order. */
  lemma {:induction false} ReadItemsBack(v: string, ws: seq<string>)
    ensures ReadItems(Escape(v) + "\"" + (More(ws) + "]")) == Some([v] + ws)
    decreases |ws|
  {
    ReadEscaped(v, More(ws) + "]");
    if ws == [] {
      assert More(ws) + "]" == "]";
      assert [v] + ws == [v];
    } else {
      var next := Escape(ws[0]) + "\"" + (More(ws[1..]) + "]");
      ReassocItem(Escape(ws[0]), More(ws[1..]));
      var rest := More(ws) + "]";
      assert rest == ",\"" + next;
      assert rest[0] == ',' && rest[1] == '"' && rest[2..] == next;
      ReadItemsBack(ws[0], ws[1..]);
      assert [ws[0]] + ws[1..] == ws;
    }
  }

  /** Every array of strings is read back from its rendering, in order:
      the rendering loses no value and keeps their order. */
  lemma StringifyRoundTrip(vs: seq<string>)
    ensures ParseStrings(StringifyStrings(vs)) == Some(vs)
  {
    if vs == [] {
      assert StringifyStrings(vs) == "[]";
    } else {
      var body := Escape(vs[0]) + "\"" + (More(vs[1..]) + "]");
      ReassocArray(Escape(vs[0]), More(vs[1..]));
      var t := StringifyStrings(vs);
      assert t == "[\"" + body;
      assert t[0] == '[' && t[1] == '"' && t[2..] == body;
      assert t != "[]" by { assert |t| >= 4; }
      ReadItemsBack(vs[0], vs[1..]);
      assert [vs[0]] + vs[1..] == vs;
    }
  }
}
