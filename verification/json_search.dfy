/**
 Member lookup of the plugin: a plain text search for the quoted key that is followed by
 a colon (`find_json_value_start`), and what the search meets in one string literal.
 */
module JsonSearch {
  import opened Common
  import opened JsonCodec

  // ----- The search as the code runs it -------------------------------------

  function SkipSpace(body: string, pos: nat): (p: nat)
    requires pos <= |body|
    ensures pos <= p <= |body|
    ensures p < |body| ==> !IsSpace(body[p])
    decreases |body| - pos
  {
    if pos < |body| && IsSpace(body[pos]) then SkipSpace(body, pos + 1) else pos
  }

  method SkipJsonWs(body: string, pos: nat) returns (p: nat)
    requires pos <= |body|
    ensures p == SkipSpace(body, pos)
  {
    p := pos;
    while p < |body| && IsSpace(body[p])
      invariant pos <= p <= |body|
      invariant SkipSpace(body, p) == SkipSpace(body, pos)
    {
      p := p + 1;
    }
  }

  function KeyToken(key: string): (token: string)
    ensures |token| == |key| + 2
  {
    "\"" + key + "\""
  }

  /**
   Where the value after the key starts, looking from `from` on. A quoted key without
   a colon after it is passed over as a whole.
   */
  function FindKey(body: string, key: string, from: nat): (p: Option<nat>)
    requires from <= |body|
    ensures p.Some? ==> from < p.value <= |body|
    decreases |body| - from
  {
    if from == |body| then None
    else if At(body, from, KeyToken(key)) then
      var after := SkipSpace(body, from + |KeyToken(key)|);
      if after < |body| && body[after] == ':' then Some(SkipSpace(body, after + 1))
      else FindKey(body, key, from + |KeyToken(key)|)
    else FindKey(body, key, from + 1)
  }

  /** `std::string::find`: the first position from `from` on where `part` stands. */
  method Find(body: string, part: string, from: nat) returns (r: Option<nat>)
    requires from <= |body|
    ensures r.Some? ==> from <= r.value && At(body, r.value, part)
    ensures forall q :: from <= q < (if r.Some? then r.value else |body| + 1) ==> !At(body, q, part)
  {
    var p := from;
    while p <= |body|
      invariant from <= p <= |body| + 1
      invariant forall q :: from <= q < p ==> !At(body, q, part)
    {
      if At(body, p, part) {
        return Some(p);
      }
      p := p + 1;
    }
    return None;
  }

  /** `find_json_value_start`. */
  method FindJsonValueStart(body: string, key: string) returns (r: Option<nat>)
    ensures r == FindKey(body, key, 0)
  {
    var token := KeyToken(key);
    var searchPos := 0;
    var hit := Find(body, token, 0);
    while hit.Some?
      invariant 0 <= searchPos <= |body|
      invariant hit.Some? ==> searchPos <= hit.value && At(body, hit.value, token)
      invariant forall q :: searchPos <= q < (if hit.Some? then hit.value else |body| + 1) ==> !At(body, q, token)
      invariant FindKey(body, key, searchPos) == FindKey(body, key, 0)
      decreases |body| - searchPos, hit.Some?
    {
      NoTokenNoHit(body, key, searchPos, hit.value);
      searchPos := hit.value;
      var pos := SkipJsonWs(body, searchPos + |token|);
      if pos < |body| && body[pos] == ':' {
        var start := SkipJsonWs(body, pos + 1);
        return Some(start);
      }
      searchPos := searchPos + |token|;
      hit := Find(body, token, searchPos);
    }
    NoTokenNoHit(body, key, searchPos, |body|);
    return None;
  }

  lemma {:induction false} NoTokenNoHit(body: string, key: string, a: nat, b: nat)
    requires a <= b <= |body|
    requires forall q :: a <= q < b ==> !At(body, q, KeyToken(key))
    ensures FindKey(body, key, a) == FindKey(body, key, b)
    decreases b - a
  {
    if a < b {
      NoTokenNoHit(body, key, a + 1, b);
    }
  }

  // ----- Keys and names -----------------------------------------------------

  /** A character that escaping leaves alone. */
  predicate Verbatim(c: char) {
    !IsControl(c) && c != '"' && c != '\\'
  }

  predicate Structural(c: char) {
    c == ',' || c == ':' || c == ']' || c == '}'
  }

  /** The keys the search is meant for: every identifier is one. */
  predicate SearchKey(key: string) {
    key != "" && !Structural(key[0]) && forall k :: 0 <= k < |key| ==> Verbatim(key[k])
  }

  /** The names that the text search takes for `key`: the key itself, or a name that ends in a quote and the key. */
  predicate NameMatches(name: string, key: string) {
    name == key || EndsWithQuoted(name, key)
  }

  predicate EndsWithQuoted(name: string, key: string) {
    |key| < |name| && name[|name| - |key| - 1] == '"' && name[|name| - |key|..] == key
  }

  // ----- One string literal -------------------------------------------------

  /** One step along a key and the quote behind it. */
  lemma KeyStep(body: string, i: nat, key: string)
    requires key != ""
    ensures At(body, i, key + "\"") <==> i < |body| && body[i] == key[0] && At(body, i + 1, key[1..] + "\"")
  {
    var first, rest := [key[0]], key[1..] + "\"";
    assert key + "\"" == first + rest;
    AtConcat(body, i, first, rest);
    AtChar(body, i, key[0]);
  }

  /** Inside a literal, the key and a closing quote stand where exactly the key is left. */
  lemma {:induction false} RestIsKey(body: string, i: nat, s: string, key: string)
    requires At(body, i, Escape(s)) && At(body, i + |Escape(s)|, "\"")
    requires forall k :: 0 <= k < |key| ==> Verbatim(key[k])
    ensures At(body, i, key + "\"") <==> s == key
    ensures s == key ==> |Escape(s)| == |key|
    decreases s
  {
    if s == "" {
      assert key == "" ==> key + "\"" == ['"'];
      AtChar(body, i, '"');
      if key != "" {
        KeyStep(body, i, key);
      }
    } else {
      hide Escape, EscapeChar;
      var e := EscapeChar(s[0]);
      EscapeParts(body, i, s);
      AtIndex(body, i, e, 0);
      FirstOfEscape(s[0]);
      if key == "" {
        assert key + "\"" == ['"'];
        AtChar(body, i, '"');
      } else {
        KeyStep(body, i, key);
        assert s == [s[0]] + s[1..] && key == [key[0]] + key[1..];
        if s[0] == key[0] {
          RestIsKey(body, i + 1, s[1..], key[1..]);
        }
      }
    }
  }

  /** A character stands for itself, or its escape starts with a backslash. */
  lemma FirstOfEscape(c: char)
    ensures if Verbatim(c) then EscapeChar(c) == [c] else EscapeChar(c)[0] == '\\'
  {
  }

  /** What may follow a string literal in printed text. */
  predicate Closed(body: string, end: nat) {
    end == |body| || (end < |body| && Structural(body[end]))
  }

  lemma TokenParts(body: string, q: nat, key: string)
    ensures At(body, q, KeyToken(key)) <==> q < |body| && body[q] == '"' && At(body, q + 1, key + "\"")
  {
    assert KeyToken(key) == "\"" + (key + "\"");
    AtConcat(body, q, "\"", key + "\"");
    AtChar(body, q, '"');
  }

  /** Dropping the first character keeps the ending of a name, unless the ending was the whole name. */
  lemma EndingOfTail(s: string, key: string)
    requires s != ""
    ensures EndsWithQuoted(s, key) <==> EndsWithQuoted(s[1..], key) || (s[0] == '"' && s[1..] == key)
  {
    if |key| + 1 < |s| {
      assert s[1..][|s| - 1 - |key|..] == s[|s| - |key|..];
    }
  }

  lemma ClosingQuoteStartsNoToken(body: string, q: nat, key: string)
    requires SearchKey(key) && Closed(body, q + 1)
    ensures !At(body, q, KeyToken(key))
  {
    TokenParts(body, q, key);
    KeyStep(body, q + 1, key);
  }

  lemma QuoteInEscapedChar(body: string, i: nat, c: char, q: nat)
    requires At(body, i, EscapeChar(c)) && i <= q < i + |EscapeChar(c)| && body[q] == '"'
    ensures c == '"' && q == i + 1
  {
    AtIndex(body, i, EscapeChar(c), q - i);
  }

  lemma EscapeOfQuote()
    ensures EscapeChar('"') == "\\\""
  {
  }

  lemma SearchKeyIsVerbatim(key: string)
    requires SearchKey(key)
    ensures forall k :: 0 <= k < |key| ==> Verbatim(key[k])
  {
  }

  /** After an escaped quote, a quoted key stands exactly where the key is all that is left. */
  lemma TokenAtEscapedQuote(body: string, i: nat, s: string, key: string)
    requires s != "" && s[0] == '"' && SearchKey(key)
    requires At(body, i, Escape(s)) && At(body, i + |Escape(s)|, "\"")
    ensures At(body, i + 1, KeyToken(key)) <==> s[1..] == key
    ensures s[1..] == key ==> |Escape(s)| == |key| + 2
  {
    hide Escape, EscapeChar, SearchKey, KeyToken;
    EscapeParts(body, i, s);
    EscapeOfQuote();
    AtIndex(body, i, EscapeChar(s[0]), 1);
    SearchKeyIsVerbatim(key);
    RestIsKey(body, i + 2, s[1..], key);
    TokenParts(body, i + 1, key);
  }

  /** Inside a literal, a quoted key can only end where the literal ends. */
  lemma {:induction false} TokenEndsTheLiteral(body: string, i: nat, s: string, key: string, q: nat)
    requires At(body, i, Escape(s)) && At(body, i + |Escape(s)|, "\"")
    requires SearchKey(key) && Closed(body, i + |Escape(s)| + 1)
    requires i <= q <= i + |Escape(s)| && At(body, q, KeyToken(key))
    ensures EndsWithQuoted(s, key) && q + |KeyToken(key)| == i + |Escape(s)| + 1
    decreases s
  {
    if s == "" {
      ClosingQuoteStartsNoToken(body, i, key);
      assert false;
    } else {
      hide Escape, EscapeChar, EndsWithQuoted, SearchKey, KeyToken, At, Closed;
      var e := EscapeChar(s[0]);
      EscapeParts(body, i, s);
      if q < i + |e| {
        TokenParts(body, q, key);
        QuoteInEscapedChar(body, i, s[0], q);
        TokenAtEscapedQuote(body, i, s, key);
      } else {
        TokenEndsTheLiteral(body, i + |e|, s[1..], key, q);
      }
      EndingOfTail(s, key);
    }
  }

  lemma {:induction false} EndingIsAToken(body: string, i: nat, s: string, key: string)
    requires At(body, i, Escape(s)) && At(body, i + |Escape(s)|, "\"")
    requires SearchKey(key) && EndsWithQuoted(s, key)
    ensures i + |KeyToken(key)| <= i + |Escape(s)| + 1
    ensures At(body, i + |Escape(s)| + 1 - |KeyToken(key)|, KeyToken(key))
    decreases s
  {
    assert s != "";
    hide Escape, EscapeChar, EndsWithQuoted, SearchKey, KeyToken, At;
    EndingOfTail(s, key);
    if EndsWithQuoted(s[1..], key) {
      EscapeParts(body, i, s);
      EndingIsAToken(body, i + |EscapeChar(s[0])|, s[1..], key);
    } else {
      TokenAtEscapedQuote(body, i, s, key);
    }
  }

  /**
   A whole literal: a quoted key stands in it exactly when the content matches, once,
   and then it ends where the literal ends.
   */
  lemma LiteralTokens(body: string, pos: nat, s: string, key: string)
    requires At(body, pos, Quoted(s)) && SearchKey(key) && Closed(body, pos + |Quoted(s)|)
    ensures forall q :: pos <= q < pos + |Quoted(s)| && At(body, q, KeyToken(key)) ==>
              NameMatches(s, key) && q + |KeyToken(key)| == pos + |Quoted(s)|
    ensures NameMatches(s, key) ==> |KeyToken(key)| <= |Quoted(s)|
                                    && At(body, pos + |Quoted(s)| - |KeyToken(key)|, KeyToken(key))
  {
    hide Escape, EndsWithQuoted, SearchKey, Closed;
    var n := |Escape(s)|;
    assert At(body, pos + 1, Escape(s)) && At(body, pos + 1 + n, "\"") by { QuotedParts(body, pos, s); }
    WholeLiteralIsKey(body, pos, s, key);
    forall q | pos < q < pos + n + 2 && At(body, q, KeyToken(key))
      ensures EndsWithQuoted(s, key) && q + |key| + 2 == pos + n + 2
    {
      TokenEndsTheLiteral(body, pos + 1, s, key, q);
    }
    if EndsWithQuoted(s, key) {
      EndingIsAToken(body, pos + 1, s, key);
    }
  }

  lemma WholeLiteralIsKey(body: string, pos: nat, s: string, key: string)
    requires At(body, pos, Quoted(s)) && SearchKey(key)
    ensures At(body, pos, KeyToken(key)) <==> s == key
    ensures s == key ==> |Escape(s)| == |key|
  {
    QuotedParts(body, pos, s);
    TokenParts(body, pos, key);
    RestIsKey(body, pos + 1, s, key);
  }

  /** Searching on through a literal that is not a member name, or whose name does not match. */
  lemma LiteralIsPassed(body: string, pos: nat, s: string, key: string)
    requires At(body, pos, Quoted(s)) && SearchKey(key) && Closed(body, pos + |Quoted(s)|)
    requires NameMatches(s, key) ==> !At(body, pos + |Quoted(s)|, ":")
    ensures FindKey(body, key, pos) == FindKey(body, key, pos + |Quoted(s)|)
  {
    var end := pos + |Quoted(s)|;
    LiteralTokens(body, pos, s, key);
    if NameMatches(s, key) {
      var q := end - |KeyToken(key)|;
      NoTokenNoHit(body, key, pos, q);
      assert At(body, end, ":") <==> end < |body| && body[end] == ":"[0];
      assert SkipSpace(body, end) == end;
    } else {
      NoTokenNoHit(body, key, pos, end);
    }
  }

  lemma MatchingNameIsFound(body: string, pos: nat, name: string, key: string)
    requires At(body, pos, Quoted(name)) && SearchKey(key) && NameMatches(name, key)
    requires At(body, pos + |Quoted(name)|, ":")
    ensures FindKey(body, key, pos) == Some(SkipSpace(body, pos + |Quoted(name)| + 1))
  {
    var end := pos + |Quoted(name)|;
    assert body[end] == ":"[0];
    LiteralTokens(body, pos, name, key);
    var q := end - |KeyToken(key)|;
    NoTokenNoHit(body, key, pos, q);
    assert SkipSpace(body, end) == end;
  }
}
