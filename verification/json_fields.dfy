/**
 The value extractors of app/plugin/src/worker-api.cpp. Each loop is proved against a
 function of the text, and on the text of any JSON tree that function is the value of
 the first matching member.
 */
module JsonFields {
  import opened Common
  import opened JsonCodec
  import opened JsonTree
  import opened JsonSearch
  import opened JsonLookup
  import opened JsonExtract

  // ----- Strings, numbers, booleans and objects -------------------------------

  function StringField(body: string, key: string): string {
    match FindKey(body, key, 0)
    case None => ""
    case Some(pos) =>
      match ParseLiteral(body, pos)
      case None => ""
      case Some(parsed) => parsed.0
  }

  method ExtractJsonString(body: string, key: string) returns (value: string)
    ensures value == StringField(body, key)
  {
    var pos := FindJsonValueStart(body, key);
    if pos.None? {
      return "";
    }
    var parsed := ParseJsonStringAt(body, pos.value);
    return match parsed case None => "" case Some(p) => p.0;
  }

  /** The digits that stand at `pos`. */
  function Digits(body: string, pos: nat): string
    decreases |body| - pos
  {
    if pos < |body| && IsDigit(body[pos]) then [body[pos]] + Digits(body, pos + 1) else ""
  }

  function NumberField(body: string, key: string): string {
    match FindKey(body, key, 0)
    case None => ""
    case Some(pos) => Digits(body, pos)
  }

  method ExtractJsonNumber(body: string, key: string) returns (digits: string)
    ensures digits == NumberField(body, key)
  {
    var start := FindJsonValueStart(body, key);
    if start.None? {
      return "";
    }
    var pos := start.value;
    var end := pos;
    while end < |body| && IsDigit(body[end])
      invariant pos <= end <= |body|
      invariant body[pos..end] + Digits(body, end) == Digits(body, pos)
    {
      assert body[pos..end + 1] == body[pos..end] + [body[end]];
      end := end + 1;
    }
    if end == pos {
      return "";
    }
    return body[pos..end];
  }

  predicate BoolField(body: string, key: string) {
    match FindKey(body, key, 0)
    case None => false
    case Some(pos) => At(body, pos, "true")
  }

  method ExtractJsonBool(body: string, key: string) returns (value: bool)
    ensures value == BoolField(body, key)
  {
    var pos := FindJsonValueStart(body, key);
    return pos.Some? && At(body, pos.value, "true");
  }

  function ObjectField(body: string, key: string): string {
    match FindKey(body, key, 0)
    case None => ""
    case Some(pos) =>
      match MatchedEnd(body, pos, '{', '}')
      case None => ""
      case Some(end) => body[pos..end]
  }

  method ExtractJsonObject(body: string, key: string) returns (text: string)
    ensures text == ObjectField(body, key)
  {
    var pos := FindJsonValueStart(body, key);
    if pos.None? || pos.value >= |body| || body[pos.value] != '{' {
      return "";
    }
    var end := FindJsonDelimiterEnd(body, pos.value, '{', '}');
    if end.None? {
      return "";
    }
    return body[pos.value..end.value];
  }

  // ----- Arrays of objects ----------------------------------------------------

  /** The texts of the objects that stand, one after the other, from `pos` on. */
  function ObjectTexts(body: string, pos: nat): seq<string>
    decreases |body| - pos
  {
    if pos >= |body| then []
    else
      var p := SkipSpace(body, pos);
      if p >= |body| || body[p] == ']' then []
      else if body[p] == ',' then ObjectTexts(body, p + 1)
      else if body[p] != '{' then []
      else match MatchedEnd(body, p, '{', '}')
           case None => []
           case Some(end) => [body[p..end]] + ObjectTexts(body, end)
  }

  function ObjectArrayField(body: string, key: string): seq<string> {
    match FindKey(body, key, 0)
    case None => []
    case Some(pos) => if Has(body, pos, '[') then ObjectTexts(body, pos + 1) else []
  }

  method ExtractJsonObjectArray(body: string, key: string) returns (objects: seq<string>)
    ensures objects == ObjectArrayField(body, key)
  {
    objects := [];
    var start := FindJsonValueStart(body, key);
    if start.None? || start.value >= |body| || body[start.value] != '[' {
      return;
    }
    var pos := start.value + 1;
    while pos < |body|
      invariant pos <= |body|
      invariant objects + ObjectTexts(body, pos) == ObjectTexts(body, start.value + 1)
      decreases |body| - pos
    {
      ghost var before := pos;
      pos := SkipJsonWs(body, pos);
      if pos >= |body| || body[pos] == ']' {
        break;
      }
      if body[pos] == ',' {
        pos := pos + 1;
        continue;
      }
      if body[pos] != '{' {
        break;
      }
      var end := FindJsonDelimiterEnd(body, pos, '{', '}');
      if end.None? {
        break;
      }
      objects := objects + [body[pos..end.value]];
      pos := end.value;
    }
  }

  // ----- Arrays of strings ----------------------------------------------------

  /** Adding one more string to the joined text. */
  function Append(joined: string, value: string): string {
    if joined != "" then joined + ", " + value else value
  }

  /** The joined text when reading goes on at `pos`. */
  function JoinTexts(body: string, pos: nat, joined: string): string
    decreases |body| - pos
  {
    if pos >= |body| then joined
    else
      var p := SkipSpace(body, pos);
      if p >= |body| || body[p] == ']' then joined
      else if body[p] == ',' then JoinTexts(body, p + 1, joined)
      else match ParseLiteral(body, p)
           case None => joined
           case Some(parsed) => JoinTexts(body, parsed.1, Append(joined, parsed.0))
  }

  function StringArrayField(body: string, key: string): string {
    match FindKey(body, key, 0)
    case None => ""
    case Some(pos) => if Has(body, pos, '[') then JoinTexts(body, pos + 1, "") else ""
  }

  method ExtractJsonStringArray(body: string, key: string) returns (joined: string)
    ensures joined == StringArrayField(body, key)
  {
    joined := "";
    var start := FindJsonValueStart(body, key);
    if start.None? || start.value >= |body| || body[start.value] != '[' {
      return;
    }
    joined := JoinFrom(body, start.value + 1);
  }

  method JoinFrom(body: string, start: nat) returns (joined: string)
    requires start <= |body|
    ensures joined == JoinTexts(body, start, "")
  {
    joined := "";
    var pos := start;
    while pos < |body|
      invariant pos <= |body|
      invariant JoinTexts(body, pos, joined) == JoinTexts(body, start, "")
      decreases |body| - pos
    {
      JoinTextsAfterSpace(body, pos, joined);
      pos := SkipJsonWs(body, pos);
      if pos >= |body| || body[pos] == ']' {
        break;
      }
      if body[pos] == ',' {
        pos := pos + 1;
        continue;
      }
      var parsed := ParseJsonStringAt(body, pos);
      if parsed.None? {
        break;
      }
      ghost var before := joined;
      if joined != "" {
        joined := joined + ", ";
      }
      joined := joined + parsed.value.0;
      assert joined == Append(before, parsed.value.0);
      pos := parsed.value.1;
    }
  }

  lemma JoinTextsAfterSpace(body: string, pos: nat, joined: string)
    requires pos <= |body|
    ensures JoinTexts(body, pos, joined) == JoinTexts(body, SkipSpace(body, pos), joined)
  {
  }

  // ----- What the extractors give on printed trees ----------------------------

  /** The first matching member of a reply, in document order. */
  function FirstMatch(j: Json, key: string): Option<Json> {
    match FirstNamed(Entries(j, 0), key, 0)
    case None => None
    case Some(e) => Some(e.value)
  }

  function LeadingDigits(text: string): string {
    if text != "" && IsDigit(text[0]) then [text[0]] + LeadingDigits(text[1..]) else ""
  }

  lemma {:induction false} DigitsOfText(body: string, pos: nat, text: string)
    requires At(body, pos, text) && (pos + |text| < |body| ==> !IsDigit(body[pos + |text|]))
    ensures Digits(body, pos) == LeadingDigits(text)
    decreases text
  {
    if text != "" {
      AtIndex(body, pos, text, 0);
      assert text == [text[0]] + text[1..];
      AtConcat(body, pos, [text[0]], text[1..]);
      DigitsOfText(body, pos + 1, text[1..]);
    }
  }

  /**
   The scalar extractors agree with the tree: a string member gives its readable form,
   a number its leading digits, a boolean its value and an object its own text; a member
   of any other kind, or no member, gives the empty text or false.
   */
  lemma ScalarFieldsOfATree(j: Json, key: string)
    requires Valid(j) && SearchKey(key)
    ensures var v := FirstMatch(j, key);
            && StringField(Print(j), key) == (if v.Some? && v.value.Str? then Readable(v.value.s) else "")
            && NumberField(Print(j), key) == (if v.Some? && v.value.Lit? then LeadingDigits(v.value.text) else "")
            && (BoolField(Print(j), key) <==> v == Some(Lit("true")))
            && ObjectField(Print(j), key) == (if v.Some? && v.value.Obj? then Print(v.value) else "")
  {
    hide Print, Entries, Valid, FindKey, FirstNamed, Printed, End, ParseLiteral, Readable, LeadingDigits, MatchedEnd;
    var body := Print(j);
    TextSearchIsTreeSearch(j, key);
    match FirstNamed(Entries(j, 0), key, 0)
    case None =>
    case Some(e) =>
      EntriesAreValid(j, 0);
      FirstNamedIsFirst(Entries(j, 0), key, 0);
      StringAt(body, e.at, e.value);
      NumberAt(body, e.at, e.value);
      BoolAt(body, e.at, e.value);
      ObjectAt(body, e.at, e.value);
  }

  lemma StringAt(body: string, pos: nat, j: Json)
    requires Printed(body, pos, j) && Valid(j)
    ensures ParseLiteral(body, pos) == if j.Str? then Some((Readable(j.s), End(pos, j))) else None
  {
    PrintedStarts(body, pos, j);
    if j.Str? {
      LiteralRoundTrip(body, pos, j.s);
    }
  }

  lemma NumberAt(body: string, pos: nat, j: Json)
    requires Printed(body, pos, j) && Valid(j) && AfterElement(body, End(pos, j))
    ensures Digits(body, pos) == if j.Lit? then LeadingDigits(j.text) else ""
  {
    PrintedStarts(body, pos, j);
    if j.Lit? {
      DigitsOfText(body, pos, j.text);
    }
  }

  lemma BoolAt(body: string, pos: nat, j: Json)
    requires Printed(body, pos, j) && Valid(j)
    ensures At(body, pos, "true") <==> j == Lit("true")
  {
    PrintedStarts(body, pos, j);
    if At(body, pos, "true") {
      AtIndex(body, pos, "true", 0);
    }
  }

  lemma ObjectAt(body: string, pos: nat, j: Json)
    requires Printed(body, pos, j) && Valid(j)
    ensures MatchedEnd(body, pos, '{', '}') == if j.Obj? then Some(End(pos, j)) else None
    ensures body[pos..End(pos, j)] == Print(j)
  {
    PrintedStarts(body, pos, j);
    MatcherFindsTheEnd(body, pos, j);
    PrintedIsAt(body, pos, j);
    AtSlice(body, pos, Print(j));
  }

  lemma {:induction false} EntriesAreValid(j: Json, pos: nat)
    requires Valid(j)
    ensures forall k :: 0 <= k < |Entries(j, pos)| ==> Valid(Entries(j, pos)[k].value)
    decreases j, 0
  {
    match j
    case Arr(items) => ItemEntriesAreValid(items, pos + 1);
    case Obj(members) => MemberEntriesAreValid(members, pos + 1);
    case _ =>
  }

  lemma {:induction false} ItemEntriesAreValid(items: Items, pos: nat)
    requires ValidItems(items)
    ensures forall k :: 0 <= k < |ItemEntries(items, pos)| ==> Valid(ItemEntries(items, pos)[k].value)
    decreases items, 0
  {
    if items.Items? {
      EntriesAreValid(items.item, pos);
      ItemEntriesAreValid(items.rest, Next(End(pos, items.item), items.rest.Items?));
    }
  }

  lemma {:induction false} MemberEntriesAreValid(members: Members, pos: nat)
    requires ValidMembers(members)
    ensures forall k :: 0 <= k < |MemberEntries(members, pos)| ==> Valid(MemberEntries(members, pos)[k].value)
    decreases members, 0
  {
    if members.Members? {
      var at := ValueAt(pos, members.name);
      EntriesAreValid(members.value, at);
      MemberEntriesAreValid(members.rest, Next(End(at, members.value), members.rest.Members?));
    }
  }

  /** The texts of the objects an array starts with. */
  function LeadingObjects(items: Items): seq<string> {
    if items.Items? && items.item.Obj? then [Print(items.item)] + LeadingObjects(items.rest) else []
  }

  lemma {:induction false} ObjectsAreSplit(body: string, pos: nat, items: Items)
    requires PrintedItems(body, pos, items) && ValidItems(items) && Has(body, ItemsEnd(pos, items), ']')
    ensures ObjectTexts(body, pos) == LeadingObjects(items)
    decreases items
  {
    if items.Items? {
      var end := End(pos, items.item);
      var next := Next(end, items.rest.Items?);
      assert ItemsEnd(pos, items) == ItemsEnd(next, items.rest);
      PrintedStarts(body, pos, items.item);
      assert SkipSpace(body, pos) == pos;
      if items.item.Obj? {
        ObjectAt(body, pos, items.item);
        assert ObjectTexts(body, pos) == [Print(items.item)] + ObjectTexts(body, end);
        assert ObjectTexts(body, end) == ObjectTexts(body, next);
        ObjectsAreSplit(body, next, items.rest);
      }
    }
  }

  /** The strings an array starts with, in readable form. */
  function LeadingStrings(items: Items): seq<string> {
    if items.Items? && items.item.Str? then [Readable(items.item.s)] + LeadingStrings(items.rest) else []
  }

  /** Strings joined by `, `, after the text `joined`. */
  function Join(joined: string, values: seq<string>): string
    decreases |values|
  {
    if values == [] then joined else Join(Append(joined, values[0]), values[1..])
  }

  lemma JoinStep(joined: string, first: string, rest: seq<string>)
    ensures Join(joined, [first] + rest) == Join(Append(joined, first), rest)
  {
    assert ([first] + rest)[1..] == rest;
  }

  lemma CommaIsJoined(body: string, end: nat, more: bool, joined: string)
    requires more ==> Has(body, end, ',')
    ensures JoinTexts(body, end, joined) == JoinTexts(body, Next(end, more), joined)
  {
  }

  lemma {:induction false} StringsAreJoined(body: string, pos: nat, items: Items, joined: string)
    requires PrintedItems(body, pos, items) && ValidItems(items) && Has(body, ItemsEnd(pos, items), ']')
    ensures JoinTexts(body, pos, joined) == Join(joined, LeadingStrings(items))
    decreases items
  {
    if items.Items? {
      var end := End(pos, items.item);
      var next := Next(end, items.rest.Items?);
      assert ItemsEnd(pos, items) == ItemsEnd(next, items.rest);
      PrintedStarts(body, pos, items.item);
      assert SkipSpace(body, pos) == pos;
      StringAt(body, pos, items.item);
      if items.item.Str? {
        var longer := Append(joined, Readable(items.item.s));
        assert JoinTexts(body, pos, joined) == JoinTexts(body, end, longer);
        CommaIsJoined(body, end, items.rest.Items?, longer);
        StringsAreJoined(body, next, items.rest, longer);
        JoinStep(joined, Readable(items.item.s), LeadingStrings(items.rest));
      }
    }
  }

  /**
   The array extractors agree with the tree: an array gives the exact texts of the
   objects it starts with, or its leading strings joined, and anything else gives nothing.
   */
  lemma ArrayFieldsOfATree(j: Json, key: string)
    requires Valid(j) && SearchKey(key)
    ensures var v := FirstMatch(j, key);
            && ObjectArrayField(Print(j), key) == (if v.Some? && v.value.Arr? then LeadingObjects(v.value.items) else [])
            && StringArrayField(Print(j), key) == (if v.Some? && v.value.Arr? then Join("", LeadingStrings(v.value.items)) else "")
  {
    hide Print, Entries, Valid, FindKey, FirstNamed, Printed, End, ObjectTexts, JoinTexts, LeadingObjects, LeadingStrings, Join;
    var body := Print(j);
    TextSearchIsTreeSearch(j, key);
    match FirstNamed(Entries(j, 0), key, 0)
    case None =>
    case Some(e) =>
      EntriesAreValid(j, 0);
      FirstNamedIsFirst(Entries(j, 0), key, 0);
      ArrayAt(body, e.at, e.value);
  }

  lemma ArrayAt(body: string, pos: nat, j: Json)
    requires Printed(body, pos, j) && Valid(j)
    ensures Has(body, pos, '[') <==> j.Arr?
    ensures j.Arr? ==> ObjectTexts(body, pos + 1) == LeadingObjects(j.items)
    ensures j.Arr? ==> JoinTexts(body, pos + 1, "") == Join("", LeadingStrings(j.items))
  {
    PrintedStarts(body, pos, j);
    if j.Arr? {
      ObjectsAreSplit(body, pos + 1, j.items);
      StringsAreJoined(body, pos + 1, j.items, "");
    }
  }
}
