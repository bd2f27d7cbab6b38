/**
 The string codec of the plugin's hand-written JSON layer: the escaper, the
 unescaper and the string literal parser of app/plugin/src/worker-api.cpp.
 */
module JsonCodec {
  import opened Common

  const BACKSPACE: char := '\U{0008}'
  const FORM_FEED: char := '\U{000C}'

  /** Writing `piece` to `out`; `rest` is what is still to be written. */
  function Extend(out: string, piece: string, ghost rest: string): (longer: string)
    ensures longer + rest == out + (piece + rest)
  {
    out + piece
  }

  // ----- Escaping ---------------------------------------------------------

  predicate IsControl(c: char) {
    c < ' '
  }

  /** The control characters that have a two-character escape. */
  predicate HasShortEscape(c: char) {
    c == BACKSPACE || c == FORM_FEED || c == '\n' || c == '\r' || c == '\t'
  }

  function HexDigit(n: int): (c: char)
    requires 0 <= n < 16
    ensures '0' <= c <= '9' || 'a' <= c <= 'f'
  {
    "0123456789abcdef"[n]
  }

  /** The six-character text of a control character without a short escape. */
  function UnicodeEscape(c: char): string
    requires IsControl(c)
  {
    ['\\', 'u', '0', '0', HexDigit(c as int / 16), HexDigit(c as int % 16)]
  }

  /** The characters written as a backslash and a letter. */
  predicate HasPair(c: char) {
    c == '"' || c == '\\' || HasShortEscape(c)
  }

  function PairLetter(c: char): char {
    if c == BACKSPACE then 'b'
    else if c == FORM_FEED then 'f'
    else if c == '\n' then 'n'
    else if c == '\r' then 'r'
    else if c == '\t' then 't'
    else c
  }

  function EscapeChar(c: char): (e: string)
    ensures e != ""
  {
    if HasPair(c) then ['\\', PairLetter(c)]
    else if IsControl(c) then UnicodeEscape(c)
    else [c]
  }

  function Escape(s: string): string {
    if s == "" then "" else EscapeChar(s[0]) + Escape(s[1..])
  }

  method JsonEscape(value: string) returns (out: string)
    ensures out == Escape(value)
  {
    out := "";
    var i := 0;
    while i < |value|
      invariant 0 <= i <= |value|
      invariant out + Escape(value[i..]) == Escape(value)
    {
      assert value[i..][1..] == value[i + 1..];
      out := Extend(out, EscapeChar(value[i]), Escape(value[i + 1..]));
      i := i + 1;
    }
  }

  // ----- Unescaping -------------------------------------------------------

  /** What a backslash and a letter stand for; other pairs are kept as they are. */
  function UnescapePair(c: char): string {
    if c == '"' || c == '\\' || c == '/' then [c]
    else if c == 'b' then [BACKSPACE]
    else if c == 'f' then [FORM_FEED]
    else if c == 'n' then ['\n']
    else if c == 'r' then ['\r']
    else if c == 't' then ['\t']
    else ['\\', c]
  }

  /** What is written when decoding goes on at position `i` of `s` with `out` already written. */
  function Unescape(s: string, i: nat, out: string): string
    requires i <= |s|
    decreases |s| - i
  {
    if i == |s| then out
    else if s[i] != '\\' || i + 1 == |s| then Unescape(s, i + 1, out + [s[i]])
    else Unescape(s, i + 2, out + UnescapePair(s[i + 1]))
  }

  method JsonUnescape(value: string) returns (out: string)
    ensures out == Unescape(value, 0, "")
  {
    out := "";
    var i := 0;
    while i < |value|
      invariant 0 <= i <= |value|
      invariant Unescape(value, i, out) == Unescape(value, 0, "")
    {
      if value[i] != '\\' || i + 1 >= |value| {
        out := out + [value[i]];
        i := i + 1;
      } else {
        out := out + UnescapePair(value[i + 1]);
        i := i + 2;
      }
    }
  }

  // ----- String literals --------------------------------------------------

  /** The position of the first quote from `i` on that no backslash protects. */
  function ClosingQuote(body: string, i: nat): (q: Option<nat>)
    ensures q.Some? ==> i <= q.value < |body| && body[q.value] == '"'
    decreases |body| - i
  {
    if i >= |body| then None
    else if body[i] == '"' then Some(i)
    else if body[i] == '\\' then
      if i + 1 >= |body| then None else ClosingQuote(body, i + 2)
    else ClosingQuote(body, i + 1)
  }

  /** The value of the string literal that starts at `pos`, and the position after it. */
  function ParseLiteral(body: string, pos: nat): (r: Option<(string, nat)>)
    ensures r.Some? ==> pos + 2 <= r.value.1 <= |body|
  {
    if pos >= |body| || body[pos] != '"' then None
    else match ClosingQuote(body, pos + 1)
         case None => None
         case Some(q) => Some((Unescape(body[pos + 1..q], 0, ""), q + 1))
  }

  /** `parse_json_string_at`. */
  method ParseJsonStringAt(body: string, pos: nat) returns (r: Option<(string, nat)>)
    ensures r == ParseLiteral(body, pos)
  {
    if pos >= |body| || body[pos] != '"' {
      return None;
    }
    var raw := "";
    var i := pos + 1;
    while i < |body|
      invariant pos + 1 <= i <= |body|
      invariant raw == body[pos + 1..i]
      invariant ClosingQuote(body, pos + 1) == ClosingQuote(body, i)
    {
      var ch := body[i];
      if ch == '\\' {
        if i + 1 >= |body| {
          return None;
        }
        assert body[pos + 1..i + 2] == body[pos + 1..i] + [ch, body[i + 1]];
        i := i + 1;
        raw := raw + [ch, body[i]];
      } else if ch == '"' {
        var value := JsonUnescape(raw);
        return Some((value, i + 1));
      } else {
        assert body[pos + 1..i + 1] == body[pos + 1..i] + [ch];
        raw := raw + [ch];
      }
      i := i + 1;
    }
    return None;
  }

  // ----- Exactness of the codec -------------------------------------------

  /** What survives the round trip: other control characters become their `\u00xx` text. */
  function ReadableChar(c: char): string {
    if IsControl(c) && !HasShortEscape(c) then UnicodeEscape(c) else [c]
  }

  function Readable(s: string): string {
    if s == "" then ""
    else ReadableChar(s[0]) + Readable(s[1..])
  }

  predicate OnlyShortControls(s: string) {
    forall c :: c in s && IsControl(c) ==> HasShortEscape(c)
  }

  /** Escaped text, split after its first character. */
  lemma EscapeParts(body: string, i: nat, s: string)
    requires s != "" && At(body, i, Escape(s))
    ensures var e, rest := EscapeChar(s[0]), Escape(s[1..]);
            At(body, i, e) && At(body, i + |e|, rest) && |Escape(s)| == |e| + |rest|
  {
    hide EscapeChar;
    AtConcat(body, i, EscapeChar(s[0]), Escape(s[1..]));
  }

  lemma QuoteCloses(body: string, i: nat)
    requires At(body, i, "\"")
    ensures ClosingQuote(body, i) == Some(i)
  {
    assert body[i] == "\""[0];
  }

  /** Escaped text never ends the literal it stands in. */
  lemma {:induction false} ClosingQuoteOfEscape(body: string, i: nat, s: string)
    requires At(body, i, Escape(s)) && At(body, i + |Escape(s)|, "\"")
    ensures ClosingQuote(body, i) == Some(i + |Escape(s)|)
    decreases s
  {
    hide EscapeChar, ClosingQuote, At;
    if s == "" {
      QuoteCloses(body, i);
    } else {
      hide Escape;
      var e := EscapeChar(s[0]);
      EscapeParts(body, i, s);
      EscapedCharIsScanned(body, i, s[0]);
      ClosingQuoteOfEscape(body, i + |e|, s[1..]);
    }
  }

  lemma EscapedCharIsScanned(body: string, i: nat, c: char)
    requires At(body, i, EscapeChar(c))
    ensures ClosingQuote(body, i) == ClosingQuote(body, i + |EscapeChar(c)|)
  {
    var e := EscapeChar(c);
    assert body[i] == e[0];
    if |e| == 6 {
      PlainIsScanned(body, i, e, 2);
      PlainIsScanned(body, i, e, 3);
      PlainIsScanned(body, i, e, 4);
      PlainIsScanned(body, i, e, 5);
    }
  }

  lemma PlainIsScanned(body: string, i: nat, part: string, k: nat)
    requires At(body, i, part) && k < |part| && part[k] != '"' && part[k] != '\\'
    ensures ClosingQuote(body, i + k) == ClosingQuote(body, i + k + 1)
  {
    AtIndex(body, i, part, k);
  }

  lemma {:induction false} UnescapeOfEscape(text: string, i: nat, s: string, out: string)
    requires At(text, i, Escape(s)) && i + |Escape(s)| == |text|
    ensures Unescape(text, i, out) == out + Readable(s)
    decreases s
  {
    if s == "" {
      assert out + Readable(s) == out;
    } else {
      var e, r := EscapeChar(s[0]), ReadableChar(s[0]);
      AtConcat(text, i, e, Escape(s[1..]));
      EscapedCharIsRead(text, i, s[0], out);
      UnescapeOfEscape(text, i + |e|, s[1..], out + r);
      AppendAssociates(out, r, Readable(s[1..]));
    }
  }

  lemma AppendAssociates(a: string, b: string, c: string)
    ensures (a + b) + c == a + (b + c)
  {
  }

  lemma EscapedCharIsRead(text: string, i: nat, c: char, out: string)
    requires At(text, i, EscapeChar(c))
    ensures Unescape(text, i, out) == Unescape(text, i + |EscapeChar(c)|, out + ReadableChar(c))
  {
    var e := EscapeChar(c);
    assert text[i] == e[0];
    if |e| == 2 {
      AtIndex(text, i, e, 1);
    } else if |e| == 6 {
      UnicodeEscapeIsRead(text, i, e, out);
    }
  }

  lemma UnicodeEscapeIsRead(text: string, i: nat, e: string, out: string)
    requires At(text, i, e) && |e| == 6 && e[0] == '\\' && e[1] == 'u'
    requires forall k :: 2 <= k < 6 ==> e[k] != '\\'
    ensures Unescape(text, i, out) == Unescape(text, i + 6, out + e)
  {
    AtIndex(text, i, e, 1);
    var out2 := out + e[..2];
    assert e[..2] == ['\\', 'u'];
    PlainIsRead(text, i, e, 2, out2);
    PlainIsRead(text, i, e, 3, out2 + [e[2]]);
    PlainIsRead(text, i, e, 4, out2 + [e[2]] + [e[3]]);
    PlainIsRead(text, i, e, 5, out2 + [e[2]] + [e[3]] + [e[4]]);
    assert out2 + [e[2]] + [e[3]] + [e[4]] + [e[5]] == out + e;
  }

  lemma PlainIsRead(text: string, i: nat, part: string, k: nat, out: string)
    requires At(text, i, part) && k < |part| && part[k] != '\\'
    ensures Unescape(text, i + k, out) == Unescape(text, i + k + 1, out + [part[k]])
  {
    AtIndex(text, i, part, k);
  }

  lemma {:induction false} ReadableIsIdentity(s: string)
    ensures |s| <= |Readable(s)|
    ensures Readable(s) == s <==> OnlyShortControls(s)
  {
    if s != "" {
      ReadableIsIdentity(s[1..]);
      assert s == [s[0]] + s[1..];
      assert OnlyShortControls(s) <==> (IsControl(s[0]) ==> HasShortEscape(s[0])) && OnlyShortControls(s[1..]);
      if !IsControl(s[0]) || HasShortEscape(s[0]) {
        assert Readable(s)[1..] == Readable(s[1..]);
      }
    }
  }

  /** The text of a string literal with the given content. */
  function Quoted(s: string): (q: string)
    ensures |q| == |Escape(s)| + 2 && q[0] == '"'
  {
    "\"" + Escape(s) + "\""
  }

  lemma QuotedParts(body: string, pos: nat, s: string)
    ensures At(body, pos, Quoted(s)) <==>
            At(body, pos, "\"") && At(body, pos + 1, Escape(s)) && At(body, pos + 1 + |Escape(s)|, "\"")
  {
    AtConcat(body, pos, "\"" + Escape(s), "\"");
    AtConcat(body, pos, "\"", Escape(s));
  }

  /**
   String codec exactness. Wherever quoted escaped text stands, parsing it consumes
   exactly the literal and gives the readable form of the text; that form is the
   text itself exactly when its control characters all have a short escape.
   */
  lemma LiteralRoundTrip(body: string, pos: nat, s: string)
    requires At(body, pos, Quoted(s))
    ensures ParseLiteral(body, pos) == Some((Readable(s), pos + |Quoted(s)|))
    ensures Readable(s) == s <==> OnlyShortControls(s)
  {
    hide Escape, Unescape, ClosingQuote, Readable, OnlyShortControls;
    var e := Escape(s);
    QuotedParts(body, pos, s);
    assert body[pos] == '"' by { assert body[pos] == "\""[0]; }
    assert ClosingQuote(body, pos + 1) == Some(pos + 1 + |e|) by { ClosingQuoteOfEscape(body, pos + 1, s); }
    assert body[pos + 1..pos + 1 + |e|] == e by { AtSlice(body, pos + 1, e); }
    assert Unescape(e, 0, "") == Readable(s) by {
      AtSlice(e, 0, e);
      UnescapeOfEscape(e, 0, s, "");
      assert "" + Readable(s) == Readable(s);
    }
    ReadableIsIdentity(s);
  }
}
