/**
 JSON trees and the compact text the worker sends for them (RFC 8259, sections 4,
 5 and 7): no space between tokens, strings escaped as by the codec.
 */
module JsonTree {
  import opened Common
  import opened JsonCodec

  datatype Json =
    | Lit(text: string)
    | Str(s: string)
    | Arr(items: Items)
    | Obj(members: Members)

  datatype Items = NoItems | Items(item: Json, rest: Items)

  datatype Members = NoMembers | Members(name: string, value: Json, rest: Members)

  predicate NumberChar(c: char) {
    IsDigit(c) || c == '-' || c == '+' || c == '.' || c == 'e' || c == 'E'
  }

  /** Number literals are non-empty and use only the characters of RFC 8259, section 6. */
  predicate NumberText(text: string) {
    text != "" && forall k :: 0 <= k < |text| ==> NumberChar(text[k])
  }

  /** The literals of RFC 8259, section 3, and numbers. */
  predicate LiteralText(text: string) {
    text == "null" || text == "true" || text == "false" || NumberText(text)
  }

  lemma LiteralTextIsPlain(text: string)
    requires LiteralText(text)
    ensures text != "" && !IsSpace(text[0]) && forall k :: 0 <= k < |text| ==> text[k] !in "\"[]{},:"
    ensures IsDigit(text[0]) ==> NumberText(text)
    ensures text[0] == 't' ==> text == "true"
  {
    if NumberText(text) {
      assert NumberChar(text[0]);
      assert forall k :: 0 <= k < |text| ==> NumberChar(text[k]);
    }
  }

  predicate Valid(j: Json) {
    match j
    case Lit(text) => LiteralText(text)
    case Arr(items) => ValidItems(items)
    case Obj(members) => ValidMembers(members)
    case _ => true
  }

  predicate ValidItems(items: Items) {
    items.Items? ==> Valid(items.item) && ValidItems(items.rest)
  }

  predicate ValidMembers(members: Members) {
    members.Members? ==> Valid(members.value) && ValidMembers(members.rest)
  }

  function Print(j: Json): string
    decreases j, 0
  {
    match j
    case Lit(text) => text
    case Str(s) => Quoted(s)
    case Arr(items) => "[" + (PrintItems(items) + "]")
    case Obj(members) => "{" + (PrintMembers(members) + "}")
  }

  function PrintItems(items: Items): string
    decreases items, 0
  {
    match items
    case NoItems => ""
    case Items(item, rest) => Print(item) + (Comma(rest.Items?) + PrintItems(rest))
  }

  function PrintMembers(members: Members): string
    decreases members, 0
  {
    match members
    case NoMembers => ""
    case Members(name, value, rest) => PrintMember(name, value) + (Comma(rest.Members?) + PrintMembers(rest))
  }

  function PrintMember(name: string, value: Json): string
    decreases value, 1
  {
    Quoted(name) + (":" + Print(value))
  }

  /** The separator before the next element, if there is one. */
  function Comma(more: bool): string {
    if more then "," else ""
  }

  // ----- Printed trees, position by position ---------------------------------

  /** Where the text of a tree printed at `pos` ends. */
  function End(pos: nat, j: Json): (end: nat)
    ensures pos <= end
    decreases j, 0
  {
    match j
    case Lit(text) => pos + |text|
    case Str(s) => QuotedEnd(pos, s)
    case Arr(items) => ItemsEnd(pos + 1, items) + 1
    case Obj(members) => MembersEnd(pos + 1, members) + 1
  }

  function ItemsEnd(pos: nat, items: Items): (end: nat)
    ensures pos <= end
    decreases items, 0
  {
    match items
    case NoItems => pos
    case Items(item, rest) => ItemsEnd(Next(End(pos, item), rest.Items?), rest)
  }

  function MembersEnd(pos: nat, members: Members): (end: nat)
    ensures pos <= end
    decreases members, 0
  {
    match members
    case NoMembers => pos
    case Members(name, value, rest) => MembersEnd(Next(End(ValueAt(pos, name), value), rest.Members?), rest)
  }

  function QuotedEnd(pos: nat, s: string): nat {
    pos + |Quoted(s)|
  }

  /** Where the value of a member printed at `pos` starts: after the name and the colon. */
  function ValueAt(pos: nat, name: string): nat {
    QuotedEnd(pos, name) + 1
  }

  /** Where the next element starts: after the comma, if there is one. */
  function Next(end: nat, more: bool): nat {
    if more then end + 1 else end
  }

  /** The character `c` stands in `body` at `pos`. */
  predicate Has(body: string, pos: nat, c: char) {
    pos < |body| && body[pos] == c
  }

  /** The tree is printed in `body` from `pos` on. */
  predicate Printed(body: string, pos: nat, j: Json): (b: bool)
    ensures b ==> End(pos, j) <= |body|
    decreases j, 0
  {
    match j
    case Lit(text) => At(body, pos, text)
    case Str(s) => At(body, pos, Quoted(s))
    case Arr(items) =>
      Has(body, pos, '[') && PrintedItems(body, pos + 1, items) && Has(body, ItemsEnd(pos + 1, items), ']')
    case Obj(members) =>
      Has(body, pos, '{') && PrintedMembers(body, pos + 1, members) && Has(body, MembersEnd(pos + 1, members), '}')
  }

  predicate PrintedItems(body: string, pos: nat, items: Items): (b: bool)
    ensures b && items.Items? ==> ItemsEnd(pos, items) <= |body|
    decreases items, 0
  {
    match items
    case NoItems => true
    case Items(item, rest) =>
      && Printed(body, pos, item)
      && (rest.Items? ==> Has(body, End(pos, item), ','))
      && PrintedItems(body, Next(End(pos, item), rest.Items?), rest)
  }

  predicate PrintedMembers(body: string, pos: nat, members: Members): (b: bool)
    ensures b && members.Members? ==> MembersEnd(pos, members) <= |body|
    decreases members, 0
  {
    match members
    case NoMembers => true
    case Members(name, value, rest) =>
      && At(body, pos, Quoted(name))
      && Has(body, QuotedEnd(pos, name), ':')
      && Printed(body, ValueAt(pos, name), value)
      && (rest.Members? ==> Has(body, End(ValueAt(pos, name), value), ','))
      && PrintedMembers(body, Next(End(ValueAt(pos, name), value), rest.Members?), rest)
  }

  lemma AtWrapped(body: string, pos: nat, open: char, inner: string, close: char)
    requires At(body, pos, [open] + (inner + [close]))
    ensures Has(body, pos, open) && At(body, pos + 1, inner) && Has(body, pos + 1 + |inner|, close)
  {
    AtConcat(body, pos, [open], inner + [close]);
    AtConcat(body, pos + 1, inner, [close]);
    AtChar(body, pos, open);
    AtChar(body, pos + 1 + |inner|, close);
  }

  lemma AtElement(body: string, pos: nat, element: string, more: bool, rest: string)
    requires At(body, pos, element + (Comma(more) + rest))
    ensures At(body, pos, element) && (more ==> Has(body, pos + |element|, ','))
    ensures At(body, Next(pos + |element|, more), rest)
    ensures |element + (Comma(more) + rest)| == Next(|element|, more) + |rest|
  {
    AtConcat(body, pos, element, Comma(more) + rest);
    AtConcat(body, pos + |element|, Comma(more), rest);
    AtChar(body, pos + |element|, ',');
  }

  lemma AtMember(body: string, pos: nat, name: string, value: string)
    requires At(body, pos, name + (":" + value))
    ensures At(body, pos, name) && Has(body, pos + |name|, ':') && At(body, pos + |name| + 1, value)
  {
    AtConcat(body, pos, name, ":" + value);
    AtConcat(body, pos + |name|, ":", value);
    AtChar(body, pos + |name|, ':');
  }

  /** Where the text of a tree stands, the tree is printed, and ends where the text ends. */
  lemma {:induction false} AtIsPrinted(body: string, pos: nat, j: Json)
    requires At(body, pos, Print(j))
    ensures Printed(body, pos, j) && End(pos, j) == pos + |Print(j)|
    decreases j, 0
  {
    match j
    case Arr(items) =>
      AtWrapped(body, pos, '[', PrintItems(items), ']');
      AtIsPrintedItems(body, pos + 1, items);
    case Obj(members) =>
      AtWrapped(body, pos, '{', PrintMembers(members), '}');
      AtIsPrintedMembers(body, pos + 1, members);
    case _ =>
  }

  lemma {:induction false} AtIsPrintedItems(body: string, pos: nat, items: Items)
    requires At(body, pos, PrintItems(items))
    ensures PrintedItems(body, pos, items) && ItemsEnd(pos, items) == pos + |PrintItems(items)|
    decreases items, 0
  {
    if items.Items? {
      AtElement(body, pos, Print(items.item), items.rest.Items?, PrintItems(items.rest));
      AtIsPrinted(body, pos, items.item);
      AtIsPrintedItems(body, Next(End(pos, items.item), items.rest.Items?), items.rest);
    }
  }

  lemma {:induction false} AtIsPrintedMembers(body: string, pos: nat, members: Members)
    requires At(body, pos, PrintMembers(members))
    ensures PrintedMembers(body, pos, members) && MembersEnd(pos, members) == pos + |PrintMembers(members)|
    decreases members, 0
  {
    if members.Members? {
      AtElement(body, pos, PrintMember(members.name, members.value), members.rest.Members?, PrintMembers(members.rest));
      AtIsPrintedMember(body, pos, members.name, members.value);
      AtIsPrintedMembers(body, Next(End(ValueAt(pos, members.name), members.value), members.rest.Members?), members.rest);
    }
  }

  lemma {:induction false} AtIsPrintedMember(body: string, pos: nat, name: string, value: Json)
    requires At(body, pos, PrintMember(name, value))
    ensures At(body, pos, Quoted(name)) && Has(body, QuotedEnd(pos, name), ':')
    ensures Printed(body, ValueAt(pos, name), value)
    ensures End(ValueAt(pos, name), value) == pos + |PrintMember(name, value)|
    decreases value, 1
  {
    AtMember(body, pos, Quoted(name), Print(value));
    AtIsPrinted(body, ValueAt(pos, name), value);
  }

  lemma WrappedIsAt(body: string, pos: nat, open: char, inner: string, close: char)
    requires Has(body, pos, open) && At(body, pos + 1, inner) && Has(body, pos + 1 + |inner|, close)
    ensures At(body, pos, [open] + (inner + [close]))
  {
    AtChar(body, pos, open);
    AtChar(body, pos + 1 + |inner|, close);
    AtConcat(body, pos + 1, inner, [close]);
    AtConcat(body, pos, [open], inner + [close]);
  }

  lemma ElementIsAt(body: string, pos: nat, element: string, more: bool, rest: string)
    requires At(body, pos, element) && (more ==> Has(body, pos + |element|, ','))
    requires At(body, Next(pos + |element|, more), rest)
    ensures At(body, pos, element + (Comma(more) + rest))
    ensures |element + (Comma(more) + rest)| == Next(|element|, more) + |rest|
  {
    AtChar(body, pos + |element|, ',');
    AtConcat(body, pos + |element|, Comma(more), rest);
    AtConcat(body, pos, element, Comma(more) + rest);
  }

  lemma MemberIsAt(body: string, pos: nat, name: string, value: string)
    requires At(body, pos, name) && Has(body, pos + |name|, ':') && At(body, pos + |name| + 1, value)
    ensures At(body, pos, name + (":" + value))
  {
    AtChar(body, pos + |name|, ':');
    AtConcat(body, pos + |name|, ":", value);
    AtConcat(body, pos, name, ":" + value);
  }

  /** Where a tree is printed, its text stands. */
  lemma {:induction false} PrintedIsAt(body: string, pos: nat, j: Json)
    requires Printed(body, pos, j)
    ensures At(body, pos, Print(j)) && End(pos, j) == pos + |Print(j)|
    decreases j, 0
  {
    hide At, Quoted, Has, PrintItems, PrintMembers, PrintedItems, PrintedMembers, ItemsEnd, MembersEnd;
    match j
    case Arr(items) =>
      PrintedItemsAreAt(body, pos + 1, items);
      WrappedIsAt(body, pos, '[', PrintItems(items), ']');
    case Obj(members) =>
      PrintedMembersAreAt(body, pos + 1, members);
      WrappedIsAt(body, pos, '{', PrintMembers(members), '}');
    case _ =>
  }

  lemma {:induction false} PrintedItemsAreAt(body: string, pos: nat, items: Items)
    requires PrintedItems(body, pos, items) && pos <= |body|
    ensures At(body, pos, PrintItems(items)) && ItemsEnd(pos, items) == pos + |PrintItems(items)|
    decreases items, 0
  {
    if items.Items? {
      PrintedIsAt(body, pos, items.item);
      PrintedItemsAreAt(body, Next(End(pos, items.item), items.rest.Items?), items.rest);
      ElementIsAt(body, pos, Print(items.item), items.rest.Items?, PrintItems(items.rest));
    }
  }

  lemma {:induction false} PrintedMembersAreAt(body: string, pos: nat, members: Members)
    requires PrintedMembers(body, pos, members) && pos <= |body|
    ensures At(body, pos, PrintMembers(members)) && MembersEnd(pos, members) == pos + |PrintMembers(members)|
    decreases members, 0
  {
    if members.Members? {
      PrintedMemberIsAt(body, pos, members.name, members.value);
      PrintedMembersAreAt(body, Next(End(ValueAt(pos, members.name), members.value), members.rest.Members?), members.rest);
      ElementIsAt(body, pos, PrintMember(members.name, members.value), members.rest.Members?, PrintMembers(members.rest));
    }
  }

  lemma {:induction false} PrintedMemberIsAt(body: string, pos: nat, name: string, value: Json)
    requires At(body, pos, Quoted(name)) && Has(body, QuotedEnd(pos, name), ':')
    requires Printed(body, ValueAt(pos, name), value)
    ensures At(body, pos, PrintMember(name, value))
    ensures End(ValueAt(pos, name), value) == pos + |PrintMember(name, value)|
    decreases value, 1
  {
    PrintedIsAt(body, ValueAt(pos, name), value);
    MemberIsAt(body, pos, Quoted(name), Print(value));
  }

  // ----- Members in document order ------------------------------------------

  /** A member found in a printed tree: its name, its value and where the value's text starts. */
  datatype Entry = Entry(name: string, value: Json, at: nat)

  /** All members of a tree printed at `pos`, each before the members of its own value. */
  function Entries(j: Json, pos: nat): seq<Entry>
    decreases j, 0
  {
    match j
    case Arr(items) => ItemEntries(items, pos + 1)
    case Obj(members) => MemberEntries(members, pos + 1)
    case _ => []
  }

  function ItemEntries(items: Items, pos: nat): seq<Entry>
    decreases items, 0
  {
    match items
    case NoItems => []
    case Items(item, rest) => Entries(item, pos) + ItemEntries(rest, Next(End(pos, item), rest.Items?))
  }

  function MemberEntries(members: Members, pos: nat): seq<Entry>
    decreases members, 0
  {
    match members
    case NoMembers => []
    case Members(name, value, rest) =>
      var at := ValueAt(pos, name);
      [Entry(name, value, at)]
      + (Entries(value, at) + MemberEntries(rest, Next(End(at, value), rest.Members?)))
  }

  /** A comma or a closing bracket follows an element. */
  predicate AfterElement(body: string, end: nat) {
    end < |body| && (body[end] == ',' || body[end] == ']' || body[end] == '}')
  }

  /** The entry really stands where it says: its value is printed there, as an element. */
  predicate Placed(body: string, e: Entry) {
    Printed(body, e.at, e.value) && AfterElement(body, End(e.at, e.value))
  }

  predicate AllPlaced(body: string, entries: seq<Entry>) {
    forall k :: 0 <= k < |entries| ==> Placed(body, entries[k])
  }

  lemma AllPlacedConcat(body: string, a: seq<Entry>, b: seq<Entry>)
    requires AllPlaced(body, a) && AllPlaced(body, b)
    ensures AllPlaced(body, a + b)
  {
  }

  lemma AllPlacedCons(body: string, e: Entry, a: seq<Entry>, b: seq<Entry>)
    requires Placed(body, e) && AllPlaced(body, a) && AllPlaced(body, b)
    ensures AllPlaced(body, [e] + (a + b))
  {
  }

  lemma {:induction false} EntriesArePlaced(body: string, pos: nat, j: Json)
    requires Printed(body, pos, j)
    ensures AllPlaced(body, Entries(j, pos))
    decreases j, 0
  {
    match j
    case Arr(items) => ItemEntriesArePlaced(body, pos + 1, items);
    case Obj(members) => MemberEntriesArePlaced(body, pos + 1, members);
    case _ =>
  }

  lemma {:induction false} ItemEntriesArePlaced(body: string, pos: nat, items: Items)
    requires PrintedItems(body, pos, items)
    ensures AllPlaced(body, ItemEntries(items, pos))
    decreases items, 0
  {
    if items.Items? {
      var next := Next(End(pos, items.item), items.rest.Items?);
      EntriesArePlaced(body, pos, items.item);
      ItemEntriesArePlaced(body, next, items.rest);
      AllPlacedConcat(body, Entries(items.item, pos), ItemEntries(items.rest, next));
    }
  }

  lemma {:induction false} MemberEntriesArePlaced(body: string, pos: nat, members: Members)
    requires PrintedMembers(body, pos, members) && AfterElement(body, MembersEnd(pos, members))
    ensures AllPlaced(body, MemberEntries(members, pos))
    decreases members, 0
  {
    if members.Members? {
      var at := ValueAt(pos, members.name);
      var next := Next(End(at, members.value), members.rest.Members?);
      assert MembersEnd(pos, members) == MembersEnd(next, members.rest);
      EntriesArePlaced(body, at, members.value);
      MemberEntriesArePlaced(body, next, members.rest);
      AllPlacedCons(body, Entry(members.name, members.value, at),
                    Entries(members.value, at), MemberEntries(members.rest, next));
    }
  }
}
