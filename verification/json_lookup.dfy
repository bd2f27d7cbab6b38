/**
 Text search is tree search: on the compact text of any JSON tree, the plugin's lookup
 finds the first matching member in document order. The exact condition under which that
 is the member with exactly the name asked for.
 */
module JsonLookup {
  import opened Common
  import opened JsonCodec
  import opened JsonTree
  import opened JsonSearch

  // ----- Text search is tree search -----------------------------------------

  /** The first entry from index `k` on whose name matches. */
  function FirstNamed(entries: seq<Entry>, key: string, k: nat): Option<Entry>
    decreases |entries| - k
  {
    if k >= |entries| then None
    else if NameMatches(entries[k].name, key) then Some(entries[k])
    else FirstNamed(entries, key, k + 1)
  }

  lemma {:induction false} FirstNamedIsFirst(entries: seq<Entry>, key: string, from: nat)
    ensures FirstNamed(entries, key, from).None? ==>
              forall k :: from <= k < |entries| ==> !NameMatches(entries[k].name, key)
    ensures FirstNamed(entries, key, from).Some? ==>
              exists k :: from <= k < |entries| && entries[k] == FirstNamed(entries, key, from).value
                          && NameMatches(entries[k].name, key)
                          && forall m :: from <= m < k ==> !NameMatches(entries[m].name, key)
    decreases |entries| - from
  {
    if from < |entries| && !NameMatches(entries[from].name, key) {
      FirstNamedIsFirst(entries, key, from + 1);
    }
  }

  lemma {:induction false} FirstNamedInTail(a: seq<Entry>, b: seq<Entry>, key: string, k: nat)
    ensures FirstNamed(a + b, key, |a| + k) == FirstNamed(b, key, k)
    decreases |b| - k
  {
    if k < |b| {
      FirstNamedInTail(a, b, key, k + 1);
    }
  }

  lemma {:induction false} FirstNamedConcat(a: seq<Entry>, b: seq<Entry>, key: string, k: nat)
    requires k <= |a|
    ensures FirstNamed(a + b, key, k) == OrElse(FirstNamed(a, key, k), FirstNamed(b, key, 0))
    decreases |a| - k
  {
    if k == |a| {
      FirstNamedInTail(a, b, key, 0);
    } else {
      FirstNamedConcat(a, b, key, k + 1);
    }
  }

  // ----- The same search by recursion over the tree --------------------------

  function OrElse(first: Option<Entry>, second: Option<Entry>): Option<Entry> {
    if first.Some? then first else second
  }

  function Lookup(j: Json, pos: nat, key: string): Option<Entry>
    decreases j, 0
  {
    match j
    case Arr(items) => LookupItems(items, pos + 1, key)
    case Obj(members) => LookupMembers(members, pos + 1, key)
    case _ => None
  }

  function LookupItems(items: Items, pos: nat, key: string): Option<Entry>
    decreases items, 0
  {
    match items
    case NoItems => None
    case Items(item, rest) =>
      OrElse(Lookup(item, pos, key), LookupItems(rest, Next(End(pos, item), rest.Items?), key))
  }

  function LookupMembers(members: Members, pos: nat, key: string): Option<Entry>
    decreases members, 0
  {
    match members
    case NoMembers => None
    case Members(name, value, rest) =>
      var at := ValueAt(pos, name);
      if NameMatches(name, key) then Some(Entry(name, value, at))
      else OrElse(Lookup(value, at, key), LookupMembers(rest, Next(End(at, value), rest.Members?), key))
  }

  lemma {:induction false} LookupIsFirstNamed(j: Json, pos: nat, key: string)
    ensures Lookup(j, pos, key) == FirstNamed(Entries(j, pos), key, 0)
    decreases j, 0
  {
    match j
    case Arr(items) => LookupItemsIsFirstNamed(items, pos + 1, key);
    case Obj(members) => LookupMembersIsFirstNamed(members, pos + 1, key);
    case _ =>
  }

  lemma {:induction false} LookupItemsIsFirstNamed(items: Items, pos: nat, key: string)
    ensures LookupItems(items, pos, key) == FirstNamed(ItemEntries(items, pos), key, 0)
    decreases items, 0
  {
    if items.Items? {
      var next := Next(End(pos, items.item), items.rest.Items?);
      LookupIsFirstNamed(items.item, pos, key);
      LookupItemsIsFirstNamed(items.rest, next, key);
      FirstNamedConcat(Entries(items.item, pos), ItemEntries(items.rest, next), key, 0);
    }
  }

  lemma {:induction false} LookupMembersIsFirstNamed(members: Members, pos: nat, key: string)
    ensures LookupMembers(members, pos, key) == FirstNamed(MemberEntries(members, pos), key, 0)
    decreases members, 0
  {
    if members.Members? {
      var at := ValueAt(pos, members.name);
      var next := Next(End(at, members.value), members.rest.Members?);
      var inner, tail := Entries(members.value, at), MemberEntries(members.rest, next);
      LookupIsFirstNamed(members.value, at, key);
      LookupMembersIsFirstNamed(members.rest, next, key);
      FirstNamedConcat(inner, tail, key, 0);
      FirstNamedCons(Entry(members.name, members.value, at), inner + tail, key);
    }
  }

  lemma FirstNamedCons(e: Entry, tail: seq<Entry>, key: string)
    ensures FirstNamed([e] + tail, key, 0) == if NameMatches(e.name, key) then Some(e) else FirstNamed(tail, key, 0)
  {
    FirstNamedInTail([e], tail, key, 0);
  }

  // ----- The text search follows the tree ------------------------------------

  /** A stretch of text gives its first matching entry, or sends the search on to its end. */
  ghost predicate Searches(body: string, key: string, from: nat, found: Option<Entry>, end: nat)
    requires from <= |body| && end <= |body|
  {
    match found
    case Some(e) => FindKey(body, key, from) == Some(e.at)
    case None => FindKey(body, key, from) == FindKey(body, key, end)
  }

  /** Text without quotes is passed over. */
  lemma NoQuoteIsPassed(body: string, pos: nat, part: string, key: string)
    requires At(body, pos, part) && forall k :: 0 <= k < |part| ==> part[k] != '"'
    ensures FindKey(body, key, pos) == FindKey(body, key, pos + |part|)
  {
    forall q | pos <= q < pos + |part|
      ensures !At(body, q, KeyToken(key))
    {
      AtIndex(body, pos, part, q - pos);
      TokenParts(body, q, key);
    }
    NoTokenNoHit(body, key, pos, pos + |part|);
  }

  lemma CharIsPassed(body: string, pos: nat, c: char, key: string)
    requires Has(body, pos, c) && c != '"'
    ensures FindKey(body, key, pos) == FindKey(body, key, pos + 1)
  {
    TokenParts(body, pos, key);
  }

  /** The end of the text, a comma or a closing bracket follows a value. */
  predicate AfterValue(body: string, end: nat) {
    end == |body| || AfterElement(body, end)
  }

  lemma {:induction false} SearchValue(body: string, pos: nat, j: Json, key: string)
    requires Printed(body, pos, j) && Valid(j) && SearchKey(key) && AfterValue(body, End(pos, j))
    ensures Searches(body, key, pos, Lookup(j, pos, key), End(pos, j))
    decreases j, 0
  {
    match j
    case Lit(text) =>
      LiteralTextIsPlain(text);
      NoQuoteIsPassed(body, pos, text, key);
    case Str(s) =>
      assert !At(body, QuotedEnd(pos, s), ":") by { AtChar(body, QuotedEnd(pos, s), ':'); }
      LiteralIsPassed(body, pos, s, key);
    case Arr(items) =>
      CharIsPassed(body, pos, '[', key);
      CharIsPassed(body, ItemsEnd(pos + 1, items), ']', key);
      SearchItems(body, pos + 1, items, key);
    case Obj(members) =>
      CharIsPassed(body, pos, '{', key);
      CharIsPassed(body, MembersEnd(pos + 1, members), '}', key);
      SearchMembers(body, pos + 1, members, key);
  }

  /** A value and the comma after it, if another element follows. */
  lemma {:induction false} SearchElement(body: string, pos: nat, j: Json, more: bool, key: string)
    requires Printed(body, pos, j) && Valid(j) && SearchKey(key)
    requires if more then Has(body, End(pos, j), ',') else AfterElement(body, End(pos, j))
    ensures Searches(body, key, pos, Lookup(j, pos, key), Next(End(pos, j), more))
    decreases j, 1
  {
    SearchValue(body, pos, j, key);
    if more {
      CharIsPassed(body, End(pos, j), ',', key);
    }
  }

  lemma {:induction false} SearchItems(body: string, pos: nat, items: Items, key: string)
    requires PrintedItems(body, pos, items) && ValidItems(items) && SearchKey(key)
    requires AfterElement(body, ItemsEnd(pos, items))
    ensures Searches(body, key, pos, LookupItems(items, pos, key), ItemsEnd(pos, items))
    decreases items, 0
  {
    if items.Items? {
      var next := Next(End(pos, items.item), items.rest.Items?);
      assert ItemsEnd(pos, items) == ItemsEnd(next, items.rest);
      SearchElement(body, pos, items.item, items.rest.Items?, key);
      SearchItems(body, next, items.rest, key);
    }
  }

  lemma {:induction false} SearchMembers(body: string, pos: nat, members: Members, key: string)
    requires PrintedMembers(body, pos, members) && ValidMembers(members) && SearchKey(key)
    requires AfterElement(body, MembersEnd(pos, members))
    ensures Searches(body, key, pos, LookupMembers(members, pos, key), MembersEnd(pos, members))
    decreases members, 0
  {
    if members.Members? {
      var at := ValueAt(pos, members.name);
      var next := Next(End(at, members.value), members.rest.Members?);
      assert MembersEnd(pos, members) == MembersEnd(next, members.rest);
      SearchName(body, pos, members.name, members.value, key);
      SearchElement(body, at, members.value, members.rest.Members?, key);
      SearchMembers(body, next, members.rest, key);
    }
  }

  lemma SearchName(body: string, pos: nat, name: string, value: Json, key: string)
    requires At(body, pos, Quoted(name)) && Has(body, QuotedEnd(pos, name), ':')
    requires Printed(body, ValueAt(pos, name), value) && Valid(value) && SearchKey(key)
    ensures FindKey(body, key, pos) ==
            if NameMatches(name, key) then Some(ValueAt(pos, name)) else FindKey(body, key, ValueAt(pos, name))
  {
    var colon := QuotedEnd(pos, name);
    if NameMatches(name, key) {
      assert At(body, colon, ":") by { AtChar(body, colon, ':'); }
      MatchingNameIsFound(body, pos, name, key);
      PrintedStarts(body, colon + 1, value);
    } else {
      LiteralIsPassed(body, pos, name, key);
      CharIsPassed(body, colon, ':', key);
    }
  }

  lemma PrintedStarts(body: string, pos: nat, j: Json)
    requires Printed(body, pos, j) && Valid(j)
    ensures pos < |body| && !IsSpace(body[pos])
    ensures body[pos] == '"' <==> j.Str?
    ensures body[pos] == '[' <==> j.Arr?
    ensures body[pos] == '{' <==> j.Obj?
    ensures body[pos] != ',' && body[pos] != ']' && body[pos] != '}'
    ensures IsDigit(body[pos]) ==> j.Lit? && NumberText(j.text)
    ensures body[pos] == 't' ==> j == Lit("true")
  {
    match j
    case Lit(text) =>
      LiteralTextIsPlain(text);
      assert text[0] !in "\"[]{},:";
      AtIndex(body, pos, text, 0);
    case Str(s) => AtIndex(body, pos, Quoted(s), 0);
    case _ =>
  }

  // ----- Main results --------------------------------------------------------

  /**
   The lookup on a whole reply: for every tree and every search key, the position that
   `find_json_value_start` reports is where the value of the first matching member
   starts, and nothing is reported exactly when no member matches.
   */
  lemma TextSearchIsTreeSearch(j: Json, key: string)
    requires Valid(j) && SearchKey(key)
    ensures match FirstNamed(Entries(j, 0), key, 0)
            case Some(e) => FindKey(Print(j), key, 0) == Some(e.at) && Placed(Print(j), e)
            case None => FindKey(Print(j), key, 0) == None
  {
    var body := Print(j);
    AtSlice(body, 0, body);
    AtIsPrinted(body, 0, j);
    LookupIsFirstNamed(j, 0, key);
    SearchValue(body, 0, j, key);
    EntriesArePlaced(body, 0, j);
    FirstNamedIsFirst(Entries(j, 0), key, 0);
  }

  // ----- Exactly when the search is right --------------------------------------

  /** The entries stand after `lo`, not after `hi`, and each after the one before it. */
  predicate Ascending(entries: seq<Entry>, lo: nat, hi: nat) {
    && (forall k :: 0 <= k < |entries| ==> lo < entries[k].at <= hi)
    && (forall j, k :: 0 <= j < k < |entries| ==> entries[j].at < entries[k].at)
  }

  lemma AscendingConcat(a: seq<Entry>, b: seq<Entry>, lo: nat, mid: nat, hi: nat)
    requires Ascending(a, lo, mid) && Ascending(b, mid, hi) && lo <= mid <= hi
    ensures Ascending(a + b, lo, hi)
  {
  }

  /** Document order is the order of the positions. */
  lemma {:induction false} EntriesAscend(j: Json, pos: nat)
    ensures Ascending(Entries(j, pos), pos, End(pos, j))
    decreases j, 0
  {
    match j
    case Arr(items) => ItemEntriesAscend(items, pos + 1);
    case Obj(members) => MemberEntriesAscend(members, pos + 1);
    case _ =>
  }

  lemma {:induction false} ItemEntriesAscend(items: Items, pos: nat)
    ensures Ascending(ItemEntries(items, pos), pos, ItemsEnd(pos, items))
    decreases items, 0
  {
    if items.Items? {
      var end := End(pos, items.item);
      var next := Next(end, items.rest.Items?);
      EntriesAscend(items.item, pos);
      ItemEntriesAscend(items.rest, next);
      AscendingConcat(Entries(items.item, pos), ItemEntries(items.rest, next), pos, end, ItemsEnd(pos, items));
    }
  }

  lemma {:induction false} MemberEntriesAscend(members: Members, pos: nat)
    ensures Ascending(MemberEntries(members, pos), pos, MembersEnd(pos, members))
    decreases members, 0
  {
    if members.Members? {
      var at := ValueAt(pos, members.name);
      var end := End(at, members.value);
      var next, last := Next(end, members.rest.Members?), MembersEnd(pos, members);
      EntriesAscend(members.value, at);
      MemberEntriesAscend(members.rest, next);
      AscendingConcat(Entries(members.value, at), MemberEntries(members.rest, next), at, end, last);
      AscendingConcat([Entry(members.name, members.value, at)],
                      Entries(members.value, at) + MemberEntries(members.rest, next), pos, at, last);
    }
  }

  /** The first entry from index `k` on that is named exactly `key`. */
  function FirstExact(entries: seq<Entry>, key: string, k: nat): (first: Option<Entry>)
    ensures first.None? ==> forall m :: k <= m < |entries| ==> entries[m].name != key
    ensures first.Some? ==>
              exists m :: k <= m < |entries| && entries[m] == first.value && entries[m].name == key
                          && forall i :: k <= i < m ==> entries[i].name != key
    decreases |entries| - k
  {
    if k >= |entries| then None
    else if entries[k].name == key then Some(entries[k])
    else FirstExact(entries, key, k + 1)
  }

  /** No member whose name ends in a quote and the key precedes every member named `key`. */
  predicate Unmistaken(entries: seq<Entry>, key: string) {
    forall k :: 0 <= k < |entries| && EndsWithQuoted(entries[k].name, key) ==>
      exists m :: 0 <= m < k && entries[m].name == key
  }

  function Position(e: Option<Entry>): Option<nat> {
    match e
    case Some(entry) => Some(entry.at)
    case None => None
  }

  lemma FirstMatchIsExactIff(entries: seq<Entry>, key: string, lo: nat, hi: nat)
    requires Ascending(entries, lo, hi)
    ensures Position(FirstNamed(entries, key, 0)) == Position(FirstExact(entries, key, 0)) <==> Unmistaken(entries, key)
  {
    FirstNamedIsFirst(entries, key, 0);
    var found, exact := FirstNamed(entries, key, 0), FirstExact(entries, key, 0);
    if found.Some? {
      var i :| 0 <= i < |entries| && entries[i] == found.value && NameMatches(entries[i].name, key)
               && forall m :: 0 <= m < i ==> !NameMatches(entries[m].name, key);
      if entries[i].name != key {
        assert EndsWithQuoted(entries[i].name, key);
        assert forall m :: 0 <= m < i ==> entries[m].name != key;
      }
    }
  }

  /**
   The exact condition. For every tree and search key the lookup reports the value of the
   first member named exactly `key`, and nothing when there is none, if and only if no
   member whose name ends in a quote and the key precedes every member named `key`.
   */
  lemma LookupIsExactIffUnmistaken(j: Json, key: string)
    requires Valid(j) && SearchKey(key)
    ensures FindKey(Print(j), key, 0) == Position(FirstExact(Entries(j, 0), key, 0)) <==> Unmistaken(Entries(j, 0), key)
  {
    hide Entries, FindKey, FirstNamed, FirstExact, Unmistaken;
    TextSearchIsTreeSearch(j, key);
    EntriesAscend(j, 0);
    FirstMatchIsExactIff(Entries(j, 0), key, 0, End(0, j));
  }

  /**
   On replies whose member names hold no quote the search is right: it reports `p` exactly
   when `p` is where the value of the first member named `key` starts.
   */
  lemma QuoteFreeNamesAreFoundExactly(j: Json, key: string, p: nat)
    requires Valid(j) && SearchKey(key)
    requires forall k :: 0 <= k < |Entries(j, 0)| ==> '"' !in Entries(j, 0)[k].name
    ensures FindKey(Print(j), key, 0) == Some(p) <==>
            exists k :: 0 <= k < |Entries(j, 0)| && Entries(j, 0)[k].name == key && Entries(j, 0)[k].at == p
                        && forall m :: 0 <= m < k ==> Entries(j, 0)[m].name != key
  {
    hide Entries, FindKey, EndsWithQuoted;
    var entries := Entries(j, 0);
    LookupIsExactIffUnmistaken(j, key);
    EntriesAscend(j, 0);
    forall k | 0 <= k < |entries|
      ensures !EndsWithQuoted(entries[k].name, key)
    {
      EndingHoldsAQuote(entries[k].name, key);
    }
  }

  lemma EndingHoldsAQuote(name: string, key: string)
    ensures EndsWithQuoted(name, key) ==> '"' in name
  {
    if EndsWithQuoted(name, key) {
      assert name[|name| - |key| - 1] in name;
    }
  }

  /** A name with a quote in it can be mistaken for the key that follows the quote. */
  lemma QuotedNameIsMistaken()
    ensures var j := Obj(Members("x\"id", Lit("1"), Members("id", Lit("2"), NoMembers)));
            FindKey(Print(j), "id", 0).Some? &&
            At(Print(j), FindKey(Print(j), "id", 0).value, "1")
  {
    var j := Obj(Members("x\"id", Lit("1"), Members("id", Lit("2"), NoMembers)));
    assert Valid(j);
    TextSearchIsTreeSearch(j, "id");
    assert EndsWithQuoted("x\"id", "id");
    assert Entries(j, 0)[0].name == "x\"id";
  }
}
