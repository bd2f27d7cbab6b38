/**
 The bracket matcher of app/plugin/src/worker-api.cpp, and the proof that it finds the
 end of every printed object and array.
 */
module JsonExtract {
  import opened Common
  import opened JsonCodec
  import opened JsonTree

  // ----- Bracket matching ----------------------------------------------------

  datatype Scan = Scan(depth: int, inString: bool, escaped: bool)

  /** One character of the scan: strings are skipped and one kind of bracket is counted. */
  function ScanChar(ch: char, open: char, close: char, s: Scan): Scan {
    if s.inString then
      if s.escaped then s.(escaped := false)
      else if ch == '\\' then s.(escaped := true)
      else if ch == '"' then s.(inString := false)
      else s
    else if ch == '"' then s.(inString := true)
    else if ch == open then s.(depth := s.depth + 1)
    else if ch == close then s.(depth := s.depth - 1)
    else s
  }

  /** The scan has just closed the bracket it started with. */
  predicate Closes(ch: char, open: char, close: char, s: Scan) {
    !s.inString && ch == close && ch != open && ch != '"' && s.depth == 1
  }

  function DelimiterEnd(body: string, i: nat, open: char, close: char, s: Scan): (end: Option<nat>)
    ensures end.Some? ==> i < end.value <= |body|
    decreases |body| - i
  {
    if i >= |body| then None
    else if Closes(body[i], open, close, s) then Some(i + 1)
    else DelimiterEnd(body, i + 1, open, close, ScanChar(body[i], open, close, s))
  }

  /** Where the bracket that opens at `start` is closed. */
  function MatchedEnd(body: string, start: nat, open: char, close: char): (end: Option<nat>)
    ensures end.Some? ==> start < end.value <= |body|
  {
    if start >= |body| || body[start] != open then None
    else DelimiterEnd(body, start, open, close, Scan(0, false, false))
  }

  /** `find_json_delimiter_end`. */
  method FindJsonDelimiterEnd(body: string, start: nat, open: char, close: char) returns (end: Option<nat>)
    ensures end == MatchedEnd(body, start, open, close)
  {
    if start >= |body| || body[start] != open {
      return None;
    }
    var depth, inString, escaped := 0, false, false;
    var i := start;
    while i < |body|
      invariant start <= i <= |body|
      invariant MatchedEnd(body, start, open, close) == DelimiterEnd(body, i, open, close, Scan(depth, inString, escaped))
    {
      var ch := body[i];
      if inString {
        if escaped {
          escaped := false;
        } else if ch == '\\' {
          escaped := true;
        } else if ch == '"' {
          inString := false;
        }
      } else if ch == '"' {
        inString := true;
      } else if ch == open {
        depth := depth + 1;
      } else if ch == close {
        depth := depth - 1;
        if depth == 0 {
          return Some(i + 1);
        }
      }
      i := i + 1;
    }
    return None;
  }

  /** The two kinds of brackets. */
  predicate Brackets(open: char, close: char) {
    (open == '{' && close == '}') || (open == '[' && close == ']')
  }

  function Outside(depth: int): Scan {
    Scan(depth, false, false)
  }

  function Inside(depth: int): Scan {
    Scan(depth, true, false)
  }

  lemma {:induction false} EscapeIsSkipped(body: string, i: nat, s: string, open: char, close: char, depth: int)
    requires At(body, i, Escape(s))
    ensures DelimiterEnd(body, i, open, close, Inside(depth)) ==
            DelimiterEnd(body, i + |Escape(s)|, open, close, Inside(depth))
    decreases s
  {
    if s != "" {
      var e := EscapeChar(s[0]);
      AtConcat(body, i, e, Escape(s[1..]));
      EscapedCharIsSkipped(body, i, s[0], open, close, depth);
      EscapeIsSkipped(body, i + |e|, s[1..], open, close, depth);
    }
  }

  lemma EscapedCharIsSkipped(body: string, i: nat, c: char, open: char, close: char, depth: int)
    requires At(body, i, EscapeChar(c))
    ensures DelimiterEnd(body, i, open, close, Inside(depth)) ==
            DelimiterEnd(body, i + |EscapeChar(c)|, open, close, Inside(depth))
  {
    var e := EscapeChar(c);
    AtIndex(body, i, e, 0);
    if |e| == 2 {
      PairIsSkipped(body, i, open, close, depth);
    } else if |e| == 6 {
      PairIsSkipped(body, i, open, close, depth);
      PlainIsSkipped(body, i, e, 2, open, close, depth);
      PlainIsSkipped(body, i, e, 3, open, close, depth);
      PlainIsSkipped(body, i, e, 4, open, close, depth);
      PlainIsSkipped(body, i, e, 5, open, close, depth);
    }
  }

  lemma PairIsSkipped(body: string, i: nat, open: char, close: char, depth: int)
    requires i + 1 < |body| && body[i] == '\\'
    ensures DelimiterEnd(body, i, open, close, Inside(depth)) == DelimiterEnd(body, i + 2, open, close, Inside(depth))
  {
    assert DelimiterEnd(body, i, open, close, Inside(depth)) == DelimiterEnd(body, i + 1, open, close, Scan(depth, true, true));
  }

  lemma PlainIsSkipped(body: string, i: nat, part: string, k: nat, open: char, close: char, depth: int)
    requires At(body, i, part) && k < |part| && part[k] != '"' && part[k] != '\\'
    ensures DelimiterEnd(body, i + k, open, close, Inside(depth)) == DelimiterEnd(body, i + k + 1, open, close, Inside(depth))
  {
    AtIndex(body, i, part, k);
  }

  lemma LiteralIsSkipped(body: string, pos: nat, s: string, open: char, close: char, depth: int)
    requires At(body, pos, Quoted(s)) && Brackets(open, close)
    ensures DelimiterEnd(body, pos, open, close, Outside(depth)) ==
            DelimiterEnd(body, QuotedEnd(pos, s), open, close, Outside(depth))
  {
    hide Escape;
    var n := |Escape(s)|;
    assert Has(body, pos, '"') && At(body, pos + 1, Escape(s)) && Has(body, pos + 1 + n, '"') by {
      QuotedParts(body, pos, s);
      AtChar(body, pos, '"');
      AtChar(body, pos + 1 + n, '"');
    }
    EscapeIsSkipped(body, pos + 1, s, open, close, depth);
    assert DelimiterEnd(body, pos + 1 + n, open, close, Inside(depth)) ==
           DelimiterEnd(body, pos + n + 2, open, close, Outside(depth));
  }

  /** Text without quotes and brackets is skipped. */
  lemma {:induction false} FlatIsSkipped(body: string, pos: nat, part: string, k: nat, open: char, close: char, depth: int)
    requires At(body, pos, part) && k <= |part| && Brackets(open, close)
    requires forall m :: 0 <= m < |part| ==> part[m] !in "\"[]{},:"
    ensures DelimiterEnd(body, pos + k, open, close, Outside(depth)) ==
            DelimiterEnd(body, pos + |part|, open, close, Outside(depth))
    decreases |part| - k
  {
    if k < |part| {
      AtIndex(body, pos, part, k);
      assert part[k] !in "\"[]{},:";
      FlatIsSkipped(body, pos, part, k + 1, open, close, depth);
    }
  }

  /** The depth after an opening bracket that may or may not be of the counted kind. */
  function Deeper(depth: int, c: char, open: char): int {
    if c == open then depth + 1 else depth
  }

  lemma SeparatorIsSkipped(body: string, pos: nat, c: char, open: char, close: char, depth: int)
    requires Has(body, pos, c) && (c == ',' || c == ':') && Brackets(open, close)
    ensures DelimiterEnd(body, pos, open, close, Outside(depth)) == DelimiterEnd(body, pos + 1, open, close, Outside(depth))
  {
  }

  lemma OpeningIsCounted(body: string, pos: nat, c: char, open: char, close: char, depth: int)
    requires Has(body, pos, c) && (c == '{' || c == '[') && Brackets(open, close)
    ensures DelimiterEnd(body, pos, open, close, Outside(depth)) ==
            DelimiterEnd(body, pos + 1, open, close, Outside(Deeper(depth, c, open)))
  {
  }

  lemma ClosingIsCounted(body: string, pos: nat, c: char, open: char, close: char, depth: int)
    requires Has(body, pos, c) && (c == '}' || c == ']') && Brackets(open, close) && depth >= 1
    ensures DelimiterEnd(body, pos, open, close, Outside(Deeper(depth, c, close))) ==
            DelimiterEnd(body, pos + 1, open, close, Outside(depth))
  {
  }

  /** Inside an open bracket, every printed value leaves the count as it was. */
  lemma {:induction false} ValueIsSkipped(body: string, pos: nat, j: Json, open: char, close: char, depth: int)
    requires Printed(body, pos, j) && Valid(j) && Brackets(open, close) && depth >= 1
    ensures DelimiterEnd(body, pos, open, close, Outside(depth)) ==
            DelimiterEnd(body, End(pos, j), open, close, Outside(depth))
    decreases j, 0
  {
    hide DelimiterEnd, LiteralText, Quoted;
    match j
    case Lit(text) => LitIsSkipped(body, pos, text, open, close, depth);
    case Str(s) => LiteralIsSkipped(body, pos, s, open, close, depth);
    case Arr(items) => ArrayIsSkipped(body, pos, items, open, close, depth);
    case Obj(members) => ObjectIsSkipped(body, pos, members, open, close, depth);
  }

  lemma LitIsSkipped(body: string, pos: nat, text: string, open: char, close: char, depth: int)
    requires At(body, pos, text) && LiteralText(text) && Brackets(open, close)
    ensures DelimiterEnd(body, pos, open, close, Outside(depth)) ==
            DelimiterEnd(body, pos + |text|, open, close, Outside(depth))
  {
    hide DelimiterEnd;
    LiteralTextIsPlain(text);
    FlatIsSkipped(body, pos, text, 0, open, close, depth);
  }

  lemma {:induction false} ArrayIsSkipped(body: string, pos: nat, items: Items, open: char, close: char, depth: int)
    requires Has(body, pos, '[') && PrintedItems(body, pos + 1, items) && Has(body, ItemsEnd(pos + 1, items), ']')
    requires ValidItems(items) && Brackets(open, close) && depth >= 1
    ensures DelimiterEnd(body, pos, open, close, Outside(depth)) ==
            DelimiterEnd(body, ItemsEnd(pos + 1, items) + 1, open, close, Outside(depth))
    decreases items, 1
  {
    hide DelimiterEnd, ItemsEnd, PrintedItems, ValidItems;
    OpeningIsCounted(body, pos, '[', open, close, depth);
    ItemsAreSkipped(body, pos + 1, items, open, close, Deeper(depth, '[', open));
    ClosingIsCounted(body, ItemsEnd(pos + 1, items), ']', open, close, depth);
  }

  lemma {:induction false} ObjectIsSkipped(body: string, pos: nat, members: Members, open: char, close: char, depth: int)
    requires Has(body, pos, '{') && PrintedMembers(body, pos + 1, members) && Has(body, MembersEnd(pos + 1, members), '}')
    requires ValidMembers(members) && Brackets(open, close) && depth >= 1
    ensures DelimiterEnd(body, pos, open, close, Outside(depth)) ==
            DelimiterEnd(body, MembersEnd(pos + 1, members) + 1, open, close, Outside(depth))
    decreases members, 1
  {
    hide DelimiterEnd, MembersEnd, PrintedMembers, ValidMembers;
    OpeningIsCounted(body, pos, '{', open, close, depth);
    MembersAreSkipped(body, pos + 1, members, open, close, Deeper(depth, '{', open));
    ClosingIsCounted(body, MembersEnd(pos + 1, members), '}', open, close, depth);
  }

  lemma {:induction false} ElementIsSkipped(body: string, pos: nat, j: Json, more: bool, open: char, close: char, depth: int)
    requires Printed(body, pos, j) && Valid(j) && Brackets(open, close) && depth >= 1
    requires more ==> Has(body, End(pos, j), ',')
    ensures DelimiterEnd(body, pos, open, close, Outside(depth)) ==
            DelimiterEnd(body, Next(End(pos, j), more), open, close, Outside(depth))
    decreases j, 1
  {
    ValueIsSkipped(body, pos, j, open, close, depth);
    if more {
      SeparatorIsSkipped(body, End(pos, j), ',', open, close, depth);
    }
  }

  lemma {:induction false} ItemsAreSkipped(body: string, pos: nat, items: Items, open: char, close: char, depth: int)
    requires PrintedItems(body, pos, items) && ValidItems(items) && Brackets(open, close) && depth >= 1
    ensures DelimiterEnd(body, pos, open, close, Outside(depth)) ==
            DelimiterEnd(body, ItemsEnd(pos, items), open, close, Outside(depth))
    decreases items, 0
  {
    if items.Items? {
      var next := Next(End(pos, items.item), items.rest.Items?);
      assert ItemsEnd(pos, items) == ItemsEnd(next, items.rest);
      ElementIsSkipped(body, pos, items.item, items.rest.Items?, open, close, depth);
      ItemsAreSkipped(body, next, items.rest, open, close, depth);
    }
  }

  lemma {:induction false} MembersAreSkipped(body: string, pos: nat, members: Members, open: char, close: char, depth: int)
    requires PrintedMembers(body, pos, members) && ValidMembers(members) && Brackets(open, close) && depth >= 1
    ensures DelimiterEnd(body, pos, open, close, Outside(depth)) ==
            DelimiterEnd(body, MembersEnd(pos, members), open, close, Outside(depth))
    decreases members, 0
  {
    if members.Members? {
      var at := ValueAt(pos, members.name);
      var next := Next(End(at, members.value), members.rest.Members?);
      assert MembersEnd(pos, members) == MembersEnd(next, members.rest);
      LiteralIsSkipped(body, pos, members.name, open, close, depth);
      SeparatorIsSkipped(body, QuotedEnd(pos, members.name), ':', open, close, depth);
      ElementIsSkipped(body, at, members.value, members.rest.Members?, open, close, depth);
      MembersAreSkipped(body, next, members.rest, open, close, depth);
    }
  }

  /**
   Brace matching: wherever an object is printed, inside any text whatsoever, the
   matcher returns exactly its end; for square brackets and arrays likewise.
   */
  lemma MatcherFindsTheEnd(body: string, pos: nat, j: Json)
    requires Printed(body, pos, j) && Valid(j)
    ensures j.Obj? ==> MatchedEnd(body, pos, '{', '}') == Some(End(pos, j))
    ensures j.Arr? ==> MatchedEnd(body, pos, '[', ']') == Some(End(pos, j))
  {
    match j
    case Obj(members) =>
      OpeningIsCounted(body, pos, '{', '{', '}', 0);
      MembersAreSkipped(body, pos + 1, members, '{', '}', 1);
    case Arr(items) =>
      OpeningIsCounted(body, pos, '[', '[', ']', 0);
      ItemsAreSkipped(body, pos + 1, items, '[', ']', 1);
    case _ =>
  }
}
