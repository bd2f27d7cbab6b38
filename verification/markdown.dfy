/**
 The block renderer of scripts/build_docs_site.py. The text inside a block stays as it is,
 because inline markup and HTML escaping are not part of this model.
 */
module Markdown {
  import opened Text

  /** What the renderer emits, one entry for each piece of output. */
  datatype Tag =
    | Paragraph(lines: seq<string>)
    | ListStart
    | Item(text: string)
    | ListEnd
    | Heading(level: nat, title: string)
    | CodeStart
    | CodeLine(line: string)
    | CodeEnd

  type Output = seq<Tag>

  // ----- Lines ----------------------------------------------------------------------------

  datatype Kind = Fence | Blank | Title(level: nat, title: string) | Bullet(text: string) | Plain(text: string)

  function Hashes(s: string, i: nat): (n: nat)
    requires i <= |s|
    ensures i <= n <= |s| && (forall k :: i <= k < n ==> s[k] == '#') && (n < |s| ==> s[n] != '#')
    decreases |s| - i
  {
    if i < |s| && s[i] == '#' then Hashes(s, i + 1) else i
  }

  /** The kind of a line, decided on its stripped text in the order of the source. */
  function KindOf(line: string): Kind {
    var s := Strip(line);
    if |s| >= 3 && s[0] == s[1] == s[2] == '`' then Fence
    else if s == "" then Blank
    else
      var n := Hashes(s, 0);
      if 1 <= n <= 6 && n < |s| && Space(s[n]) then Title(n, StripLeft(s[n..]))
      else if |s| >= 2 && (s[0] == '-' || s[0] == '*') && Space(s[1]) then Bullet(StripLeft(s[1..]))
      else Plain(s)
  }

  // ----- Rendering, as a function -----------------------------------------------------------

  datatype State = State(output: Output, paragraph: seq<string>, listOpen: bool, codeOpen: bool)

  const START: State := State([], [], false, false)

  /** `flush_paragraph`. */
  function Flushed(s: State): State {
    if s.paragraph == [] then s else s.(output := s.output + [Paragraph(s.paragraph)], paragraph := [])
  }

  /** `close_list`. */
  function ListClosed(s: State): State {
    if s.listOpen then s.(output := s.output + [ListEnd], listOpen := false) else s
  }

  function Emit(s: State, tag: Tag): State {
    s.(output := s.output + [tag])
  }

  function Next(s: State, line: string): State {
    var kind := KindOf(line);
    if kind == Fence then
      var ended := ListClosed(Flushed(s));
      if s.codeOpen then Emit(ended, CodeEnd).(codeOpen := false) else Emit(ended, CodeStart).(codeOpen := true)
    else if s.codeOpen then Emit(s, CodeLine(line))
    else
      match kind
      case Title(level, title) => Emit(ListClosed(Flushed(s)), Heading(level, title))
      case Bullet(text) =>
        var flushed := Flushed(s);
        Emit(if s.listOpen then flushed else Emit(flushed, ListStart).(listOpen := true), Item(text))
      case Plain(text) => s.(paragraph := s.paragraph + [text])
      case _ => ListClosed(Flushed(s))
  }

  /** The state after the first `n` lines. */
  function After(lines: seq<string>, n: nat): State
    requires n <= |lines|
  {
    if n == 0 then START else Next(After(lines, n - 1), lines[n - 1])
  }

  /** `_markdown_to_html`. */
  function Rendered(lines: seq<string>): Output {
    var s := ListClosed(Flushed(After(lines, |lines|)));
    if s.codeOpen then s.output + [CodeEnd] else s.output
  }

  // ----- The renderer --------------------------------------------------------------------------

  class Renderer {
    var output: Output
    var paragraph: seq<string>
    var listOpen: bool
    var codeOpen: bool

    ghost function Now(): State
      reads this
    {
      State(output, paragraph, listOpen, codeOpen)
    }

    constructor ()
      ensures Now() == START
    {
      output, paragraph, listOpen, codeOpen := [], [], false, false;
    }

    method FlushParagraph()
      modifies this
      ensures Now() == Flushed(old(Now()))
    {
      if paragraph != [] {
        output := output + [Paragraph(paragraph)];
        paragraph := [];
      }
    }

    method CloseList()
      modifies this
      ensures Now() == ListClosed(old(Now()))
    {
      if listOpen {
        output := output + [ListEnd];
        listOpen := false;
      }
    }

    method Line(line: string)
      modifies this
      ensures Now() == Next(old(Now()), line)
    {
      hide KindOf;
      var kind := KindOf(line);
      if kind == Fence {
        FlushParagraph();
        CloseList();
        if codeOpen {
          output := output + [CodeEnd];
          codeOpen := false;
        } else {
          output := output + [CodeStart];
          codeOpen := true;
        }
        return;
      }
      if codeOpen {
        output := output + [CodeLine(line)];
        return;
      }
      if kind == Blank {
        FlushParagraph();
        CloseList();
        return;
      }
      if kind.Title? {
        FlushParagraph();
        CloseList();
        output := output + [Heading(kind.level, kind.title)];
        return;
      }
      if kind.Bullet? {
        FlushParagraph();
        if !listOpen {
          output := output + [ListStart];
          listOpen := true;
        }
        output := output + [Item(kind.text)];
        return;
      }
      paragraph := paragraph + [kind.text];
    }

    method Render(lines: seq<string>) returns (html: Output)
      requires Now() == START
      modifies this
      ensures html == Rendered(lines)
    {
      hide Next;
      var i := 0;
      while i < |lines|
        invariant 0 <= i <= |lines| && Now() == After(lines, i)
      {
        Line(lines[i]);
        i := i + 1;
      }
      FlushParagraph();
      CloseList();
      if codeOpen {
        output := output + [CodeEnd];
      }
      return output;
    }
  }

  // ----- Nesting ---------------------------------------------------------------------------------

  /** Where an output ends: outside all blocks, in a list, in a code block, or nowhere because it is badly nested. */
  datatype Place = Top | InList | InCode | Broken

  function Move(p: Place, t: Tag): Place {
    match p
    case Top =>
      if t.ListStart? then InList else if t.CodeStart? then InCode
      else if t.Paragraph? || t.Heading? then Top else Broken
    case InList => if t.Item? || t.Paragraph? then InList else if t.ListEnd? then Top else Broken
    case InCode => if t.CodeLine? then InCode else if t.CodeEnd? then Top else Broken
    case Broken => Broken
  }

  function PlaceAfter(o: Output): Place {
    if o == [] then Top else Move(PlaceAfter(o[..|o| - 1]), o[|o| - 1])
  }

  // ----- Content ------------------------------------------------------------------------------------

  /** A line of content, with what it becomes. */
  datatype Piece = Text(text: string) | ListText(text: string) | Titled(level: nat, title: string) | Code(line: string)

  function Texts(lines: seq<string>): seq<Piece> {
    seq(|lines|, i requires 0 <= i < |lines| => Text(lines[i]))
  }

  function PiecesOf(t: Tag): seq<Piece> {
    match t
    case Paragraph(lines) => Texts(lines)
    case Item(text) => [ListText(text)]
    case Heading(level, title) => [Titled(level, title)]
    case CodeLine(line) => [Code(line)]
    case _ => []
  }

  /** The content of an output, in order. */
  function Pieces(o: Output): seq<Piece> {
    if o == [] then [] else Pieces(o[..|o| - 1]) + PiecesOf(o[|o| - 1])
  }

  /** A fence line opens or closes code, whatever stands around it. */
  predicate CodeOpen(lines: seq<string>, n: nat)
    requires n <= |lines|
  {
    n > 0 && if KindOf(lines[n - 1]) == Fence then !CodeOpen(lines, n - 1) else CodeOpen(lines, n - 1)
  }

  /** What a line contributes; beside the line itself only the fences before it matter. */
  function Contribution(line: string, codeOpen: bool): seq<Piece> {
    var kind := KindOf(line);
    if kind == Fence then []
    else if codeOpen then [Code(line)]
    else
      match kind
      case Title(level, title) => [Titled(level, title)]
      case Bullet(text) => [ListText(text)]
      case Plain(text) => [Text(text)]
      case _ => []
  }

  function Contents(lines: seq<string>, n: nat): seq<Piece>
    requires n <= |lines|
  {
    if n == 0 then [] else Contents(lines, n - 1) + Contribution(lines[n - 1], CodeOpen(lines, n - 1))
  }

  /** A list is open after a bullet, until a blank line, a heading or a fence. */
  predicate ListOpen(lines: seq<string>, n: nat)
    requires n <= |lines|
  {
    n > 0 &&
    match KindOf(lines[n - 1])
    case Fence => false
    case Blank => CodeOpen(lines, n - 1) && ListOpen(lines, n - 1)
    case Title(_, _) => CodeOpen(lines, n - 1) && ListOpen(lines, n - 1)
    case Bullet(_) => !CodeOpen(lines, n - 1) || ListOpen(lines, n - 1)
    case Plain(_) => ListOpen(lines, n - 1)
  }

  function PlaceOf(s: State): Place {
    if s.codeOpen then InCode else if s.listOpen then InList else Top
  }

  /** The output is well nested up to here, and with the pending paragraph it holds the content so far. */
  predicate Good(s: State, contents: seq<Piece>) {
    && PlaceAfter(s.output) == PlaceOf(s)
    && (s.codeOpen ==> s.paragraph == [] && !s.listOpen)
    && Pieces(s.output) + Texts(s.paragraph) == contents
  }

  lemma Emitted(o: Output, t: Tag)
    ensures PlaceAfter(o + [t]) == Move(PlaceAfter(o), t) && Pieces(o + [t]) == Pieces(o) + PiecesOf(t)
  {
    assert (o + [t])[..|o|] == o;
  }

  lemma FlushedIsGood(s: State, contents: seq<Piece>)
    requires Good(s, contents)
    ensures Good(Flushed(s), contents) && Flushed(s).paragraph == []
  {
    hide PlaceAfter, Pieces;
    Emitted(s.output, Paragraph(s.paragraph));
  }

  lemma ClosedIsGood(s: State, contents: seq<Piece>)
    requires Good(s, contents)
    ensures Good(ListClosed(s), contents) && ListClosed(s).paragraph == s.paragraph && !ListClosed(s).listOpen
  {
    hide PlaceAfter, Pieces;
    Emitted(s.output, ListEnd);
    assert Pieces(s.output) + [] == Pieces(s.output);
  }

  /** Emitting a tag that fits, with no paragraph pending. */
  lemma EmitIsGood(s: State, contents: seq<Piece>, t: Tag, after: State)
    requires Good(s, contents) && s.paragraph == [] && after.output == s.output + [t] && after.paragraph == []
    requires PlaceOf(after) == Move(PlaceOf(s), t) && (after.codeOpen ==> !after.listOpen)
    ensures Good(after, contents + PiecesOf(t))
  {
    hide PlaceAfter, Pieces;
    Emitted(s.output, t);
    assert Texts([]) == [];
    assert Pieces(s.output) + [] == Pieces(s.output);
  }

  lemma NextIsGood(s: State, line: string, contents: seq<Piece>)
    requires Good(s, contents)
    ensures Good(Next(s, line), contents + Contribution(line, s.codeOpen))
  {
    hide PlaceAfter, Pieces, KindOf, Good;
    FlushedIsGood(s, contents);
    var flushed := Flushed(s);
    ClosedIsGood(flushed, contents);
    var ended, next := ListClosed(flushed), Next(s, line);
    assert contents + [] == contents;
    var kind := KindOf(line);
    if kind == Fence {
      EmitIsGood(ended, contents, if s.codeOpen then CodeEnd else CodeStart, next);
    } else if s.codeOpen {
      CodeHasNoParagraph(s, contents);
      EmitIsGood(s, contents, CodeLine(line), next);
    } else {
      match kind
      case Title(level, title) => EmitIsGood(ended, contents, Heading(level, title), next);
      case Bullet(text) =>
        if s.listOpen {
          EmitIsGood(flushed, contents, Item(text), next);
        } else {
          var begun := Emit(flushed, ListStart).(listOpen := true);
          EmitIsGood(flushed, contents, ListStart, begun);
          EmitIsGood(begun, contents, Item(text), next);
        }
      case Plain(text) => PlainIsGood(s, contents, text);
      case _ =>
    }
  }

  lemma CodeHasNoParagraph(s: State, contents: seq<Piece>)
    requires Good(s, contents) && s.codeOpen
    ensures s.paragraph == [] && !s.listOpen
  {
  }

  lemma PlainIsGood(s: State, contents: seq<Piece>, text: string)
    requires Good(s, contents) && !s.codeOpen
    ensures Good(s.(paragraph := s.paragraph + [text]), contents + [Text(text)])
  {
    hide PlaceAfter, Pieces;
    assert Texts(s.paragraph + [text]) == Texts(s.paragraph) + [Text(text)];
    assert Pieces(s.output) + (Texts(s.paragraph) + [Text(text)]) == Pieces(s.output) + Texts(s.paragraph) + [Text(text)];
  }

  lemma {:induction false} AfterIsGood(lines: seq<string>, n: nat)
    requires n <= |lines|
    ensures Good(After(lines, n), Contents(lines, n))
    ensures After(lines, n).codeOpen == CodeOpen(lines, n) && After(lines, n).listOpen == ListOpen(lines, n)
  {
    hide KindOf;
    if n > 0 {
      AfterIsGood(lines, n - 1);
      hide Good, PlaceAfter, Pieces;
      NextIsGood(After(lines, n - 1), lines[n - 1], Contents(lines, n - 1));
    }
  }

  /**
   For every input the output is well nested: lists and code blocks are closed, never open
   together, items stand in lists and code lines in code blocks. It holds exactly the
   content of the lines, in order.
   */
  lemma OutputIsNestedAndComplete(lines: seq<string>)
    ensures PlaceAfter(Rendered(lines)) == Top && Pieces(Rendered(lines)) == Contents(lines, |lines|)
  {
    hide KindOf, After, Contents, PlaceAfter, Pieces, Good, Flushed, ListClosed;
    var s, contents := After(lines, |lines|), Contents(lines, |lines|);
    AfterIsGood(lines, |lines|);
    FlushedIsGood(s, contents);
    ClosedIsGood(Flushed(s), contents);
    EndIsGood(ListClosed(Flushed(s)), contents);
    CodeStays(s);
  }

  lemma CodeStays(s: State)
    ensures ListClosed(Flushed(s)).codeOpen == s.codeOpen
  {
  }

  lemma EndIsGood(s: State, contents: seq<Piece>)
    requires Good(s, contents) && s.paragraph == [] && !s.listOpen
    ensures var o := if s.codeOpen then s.output + [CodeEnd] else s.output; PlaceAfter(o) == Top && Pieces(o) == contents
  {
    hide PlaceAfter, Pieces;
    Emitted(s.output, CodeEnd);
    assert Texts([]) == [] && Pieces(s.output) + [] == Pieces(s.output);
  }

  // ----- Paragraphs and lists ---------------------------------------------------------------------

  predicate PlainAt(lines: seq<string>, i: nat)
    requires i < |lines|
  {
    KindOf(lines[i]).Plain? && !CodeOpen(lines, i)
  }

  function ExtendLast(groups: seq<seq<string>>, text: string): seq<seq<string>> {
    if groups == [] then [[text]] else groups[|groups| - 1 := groups[|groups| - 1] + [text]]
  }

  /** The paragraphs the lines ask for: maximal runs of plain lines outside code. */
  function Runs(lines: seq<string>, n: nat): seq<seq<string>>
    requires n <= |lines|
  {
    if n == 0 then []
    else if !PlainAt(lines, n - 1) then Runs(lines, n - 1)
    else if n >= 2 && PlainAt(lines, n - 2) then ExtendLast(Runs(lines, n - 1), KindOf(lines[n - 1]).text)
    else Runs(lines, n - 1) + [[KindOf(lines[n - 1]).text]]
  }

  /** The lists the lines ask for: bullets outside code, as long as a list stays open. */
  function Bullets(lines: seq<string>, n: nat): seq<seq<string>>
    requires n <= |lines|
  {
    if n == 0 then []
    else if !KindOf(lines[n - 1]).Bullet? || CodeOpen(lines, n - 1) then Bullets(lines, n - 1)
    else if ListOpen(lines, n - 1) then ExtendLast(Bullets(lines, n - 1), KindOf(lines[n - 1]).text)
    else Bullets(lines, n - 1) + [[KindOf(lines[n - 1]).text]]
  }

  function ParagraphsOf(o: Output): seq<seq<string>> {
    if o == [] then []
    else
      var before := ParagraphsOf(o[..|o| - 1]);
      match o[|o| - 1]
      case Paragraph(lines) => before + [lines]
      case _ => before
  }

  /** The items of an output, list by list. */
  function ListsOf(o: Output): seq<seq<string>> {
    if o == [] then []
    else
      var before := ListsOf(o[..|o| - 1]);
      match o[|o| - 1]
      case ListStart => before + [[]]
      case Item(text) => ExtendLast(before, text)
      case _ => before
  }

  /** Some paragraph stands inside a list. */
  predicate Stray(o: Output) {
    o != [] && (Stray(o[..|o| - 1]) || (o[|o| - 1].Paragraph? && PlaceAfter(o[..|o| - 1]) == InList))
  }

  /** A plain line follows a list with no blank line, heading or fence in between. */
  predicate FollowsList(lines: seq<string>, i: nat)
    requires i < |lines|
  {
    PlainAt(lines, i) && ListOpen(lines, i)
  }

  predicate SomeFollows(lines: seq<string>, n: nat)
    requires n <= |lines|
  {
    n > 0 && (FollowsList(lines, n - 1) || SomeFollows(lines, n - 1))
  }

  lemma {:induction false} SomeFollowsIsSome(lines: seq<string>, n: nat)
    requires n <= |lines|
    ensures SomeFollows(lines, n) <==> exists i :: 0 <= i < n && FollowsList(lines, i)
  {
    hide FollowsList;
    if n > 0 {
      SomeFollowsIsSome(lines, n - 1);
    }
  }

  function Pending(paragraph: seq<string>): seq<seq<string>> {
    if paragraph == [] then [] else [paragraph]
  }

  /** What the state has to do with the lines before it. */
  ghost predicate Reflects(s: State, lines: seq<string>, n: nat)
    requires n <= |lines|
  {
    && ParagraphsOf(s.output) + Pending(s.paragraph) == Runs(lines, n)
    && (s.paragraph != [] <==> n > 0 && PlainAt(lines, n - 1))
    && ListsOf(s.output) == Bullets(lines, n)
    && (Stray(s.output) || (s.paragraph != [] && s.listOpen) <==> SomeFollows(lines, n))
  }

  lemma EmittedGroups(o: Output, t: Tag)
    ensures ParagraphsOf(o + [t]) == (if t.Paragraph? then ParagraphsOf(o) + [t.lines] else ParagraphsOf(o))
    ensures ListsOf(o + [t]) ==
            (if t.ListStart? then ListsOf(o) + [[]] else if t.Item? then ExtendLast(ListsOf(o), t.text) else ListsOf(o))
    ensures Stray(o + [t]) <==> Stray(o) || (t.Paragraph? && PlaceAfter(o) == InList)
  {
    assert (o + [t])[..|o|] == o;
  }

  /** The parts of `Reflects` that flushing and closing keep. */
  ghost predicate Keeps(s: State, t: State) {
    && ParagraphsOf(t.output) + Pending(t.paragraph) == ParagraphsOf(s.output) + Pending(s.paragraph)
    && ListsOf(t.output) == ListsOf(s.output)
    && (Stray(t.output) || (t.paragraph != [] && t.listOpen) <==> Stray(s.output) || (s.paragraph != [] && s.listOpen))
  }

  lemma FlushedKeeps(s: State)
    requires PlaceAfter(s.output) == PlaceOf(s) && (s.codeOpen ==> s.paragraph == [])
    ensures Keeps(s, Flushed(s)) && Flushed(s).paragraph == []
  {
    hide PlaceAfter, ParagraphsOf, ListsOf, Stray;
    EmittedGroups(s.output, Paragraph(s.paragraph));
  }

  lemma ClosedKeeps(s: State)
    requires s.paragraph == []
    ensures Keeps(s, ListClosed(s)) && ListClosed(s).paragraph == []
  {
    hide PlaceAfter, ParagraphsOf, ListsOf, Stray;
    EmittedGroups(s.output, ListEnd);
  }

  lemma EmitKeeps(s: State, t: Tag, after: State)
    requires s.paragraph == [] && after.output == s.output + [t] && after.paragraph == [] && !t.Paragraph? && !t.Item? && !t.ListStart?
    ensures Keeps(s, after)
  {
    hide PlaceAfter, ParagraphsOf, ListsOf, Stray;
    EmittedGroups(s.output, t);
  }

  lemma KeepsInARow(a: State, b: State, c: State)
    requires Keeps(a, b) && Keeps(b, c)
    ensures Keeps(a, c)
  {
  }

  /** A line that is neither a bullet nor plain, or that stands in code, adds no paragraph and no item. */
  lemma OtherLineKeeps(s: State, line: string, contents: seq<Piece>)
    requires Good(s, contents) && (s.codeOpen || !(KindOf(line).Bullet? || KindOf(line).Plain?))
    ensures Keeps(s, Next(s, line)) && Next(s, line).paragraph == []
  {
    hide PlaceAfter, KindOf, Pieces, Keeps;
    var next := Next(s, line);
    if KindOf(line) != Fence && s.codeOpen {
      EmitKeeps(s, CodeLine(line), next);
    } else {
      var flushed, ended := Flushed(s), ListClosed(Flushed(s));
      FlushedKeeps(s);
      ClosedKeeps(flushed);
      KeepsInARow(s, flushed, ended);
      if KindOf(line) == Fence {
        EmitKeeps(ended, if s.codeOpen then CodeEnd else CodeStart, next);
        KeepsInARow(s, ended, next);
      } else if KindOf(line).Title? {
        EmitKeeps(ended, Heading(KindOf(line).level, KindOf(line).title), next);
        KeepsInARow(s, ended, next);
      }
    }
  }

  lemma ExtendedLast(groups: seq<seq<string>>, last: seq<string>, text: string)
    ensures ExtendLast(groups + [last], text) == groups + [last + [text]]
    ensures ExtendLast(groups + [[]], text) == groups + [[text]]
  {
    var none: seq<string> := [];
    assert none + [text] == [text];
    assert (groups + [none])[|groups|] == none;
  }

  /** A bullet ends the paragraph and adds an item, to the open list or to a new one. */
  lemma BulletAddsItem(s: State, line: string, contents: seq<Piece>)
    requires Good(s, contents) && !s.codeOpen && KindOf(line).Bullet?
    ensures var next, text := Next(s, line), KindOf(line).text;
            && ParagraphsOf(next.output) == ParagraphsOf(s.output) + Pending(s.paragraph) && next.paragraph == []
            && ListsOf(next.output) == (if s.listOpen then ExtendLast(ListsOf(s.output), text) else ListsOf(s.output) + [[text]])
            && (Stray(next.output) <==> Stray(s.output) || (s.paragraph != [] && s.listOpen))
  {
    hide PlaceAfter, KindOf, Pieces, ParagraphsOf, ListsOf, Stray;
    var flushed := Flushed(s);
    FlushedKeeps(s);
    assert ParagraphsOf(flushed.output) + [] == ParagraphsOf(flushed.output);
    var text := KindOf(line).text;
    if s.listOpen {
      EmittedGroups(flushed.output, Item(text));
    } else {
      var begun := flushed.output + [ListStart];
      EmittedGroups(flushed.output, ListStart);
      EmittedGroups(begun, Item(text));
      ExtendedLast(ListsOf(flushed.output), [], text);
    }
  }

  lemma StartReflects(lines: seq<string>)
    ensures Reflects(START, lines, 0)
  {
  }

  lemma {:induction false} AfterReflects(lines: seq<string>, n: nat)
    requires n <= |lines|
    ensures Reflects(After(lines, n), lines, n)
  {
    hide Next, Good, Reflects;
    if n == 0 {
      StartReflects(lines);
    } else {
      AfterReflects(lines, n - 1);
      AfterIsGood(lines, n - 1);
      NextReflects(After(lines, n - 1), lines, n - 1);
    }
  }

  lemma NextReflects(s: State, lines: seq<string>, n: nat)
    requires n < |lines| && Reflects(s, lines, n) && Good(s, Contents(lines, n))
    requires s.codeOpen == CodeOpen(lines, n) && s.listOpen == ListOpen(lines, n)
    ensures Reflects(Next(s, lines[n]), lines, n + 1)
  {
    hide PlaceAfter, KindOf, Pieces, Contents, ParagraphsOf, ListsOf, Stray, CodeOpen, ListOpen, Next, ExtendLast, Reflects;
    var kind := KindOf(lines[n]);
    if s.codeOpen || !(kind.Bullet? || kind.Plain?) {
      OtherReflects(s, lines, n);
    } else if kind.Bullet? {
      BulletReflects(s, lines, n);
    } else {
      PlainReflects(s, lines, n);
    }
  }

  lemma OtherReflects(s: State, lines: seq<string>, n: nat)
    requires n < |lines| && Reflects(s, lines, n) && Good(s, Contents(lines, n))
    requires s.codeOpen == CodeOpen(lines, n) && s.listOpen == ListOpen(lines, n)
    requires s.codeOpen || !(KindOf(lines[n]).Bullet? || KindOf(lines[n]).Plain?)
    ensures Reflects(Next(s, lines[n]), lines, n + 1)
  {
    hide PlaceAfter, KindOf, Pieces, Contents, ParagraphsOf, ListsOf, Stray, CodeOpen, ListOpen, Next, ExtendLast, Good;
    OtherLineKeeps(s, lines[n], Contents(lines, n));
  }

  lemma BulletReflects(s: State, lines: seq<string>, n: nat)
    requires n < |lines| && Reflects(s, lines, n) && Good(s, Contents(lines, n)) && KindOf(lines[n]).Bullet?
    requires s.codeOpen == CodeOpen(lines, n) == false && s.listOpen == ListOpen(lines, n)
    ensures Reflects(Next(s, lines[n]), lines, n + 1)
  {
    hide PlaceAfter, KindOf, Pieces, Contents, ParagraphsOf, ListsOf, Stray, CodeOpen, ListOpen, Next, ExtendLast, Good;
    BulletAddsItem(s, lines[n], Contents(lines, n));
    assert ParagraphsOf(Next(s, lines[n]).output) + [] == ParagraphsOf(Next(s, lines[n]).output);
  }

  lemma PlainReflects(s: State, lines: seq<string>, n: nat)
    requires n < |lines| && Reflects(s, lines, n) && KindOf(lines[n]).Plain?
    requires s.codeOpen == CodeOpen(lines, n) == false && s.listOpen == ListOpen(lines, n)
    ensures Reflects(Next(s, lines[n]), lines, n + 1)
  {
    hide PlaceAfter, KindOf, Pieces, Contents, ParagraphsOf, ListsOf, Stray, CodeOpen, ListOpen, ExtendLast;
    var shown, text := ParagraphsOf(s.output), KindOf(lines[n]).text;
    if s.paragraph != [] {
      ExtendedLast(shown, s.paragraph, text);
    } else {
      assert shown + [] == shown;
      assert s.paragraph + [text] == [text];
    }
  }

  /**
   For every input, the paragraphs of the output are the maximal runs of plain lines, and
   its lists are the bullets as long as a list stays open. A paragraph stands inside a
   list if and only if some plain line follows a list with no blank line, heading or fence
   in between.
   */
  lemma BlocksAreExact(lines: seq<string>)
    ensures ParagraphsOf(Rendered(lines)) == Runs(lines, |lines|)
    ensures ListsOf(Rendered(lines)) == Bullets(lines, |lines|)
    ensures Stray(Rendered(lines)) <==> exists i :: 0 <= i < |lines| && FollowsList(lines, i)
  {
    hide KindOf, After, Contents, PlaceAfter, Pieces, ParagraphsOf, ListsOf, Stray, Runs, Bullets;
    var s := After(lines, |lines|);
    SomeFollowsIsSome(lines, |lines|);
    AfterIsGood(lines, |lines|);
    AfterReflects(lines, |lines|);
    FlushedKeeps(s);
    ClosedKeeps(Flushed(s));
    KeepsInARow(s, Flushed(s), ListClosed(Flushed(s)));
    EmittedGroups(ListClosed(Flushed(s)).output, CodeEnd);
    assert ParagraphsOf(ListClosed(Flushed(s)).output) + [] == ParagraphsOf(ListClosed(Flushed(s)).output);
  }

  /** For example, text right after a list item lands inside the list, as a paragraph of its own. */
  lemma TextAfterItemIsStray()
    ensures Rendered(["- a", "b"]) == [ListStart, Item("a"), Paragraph(["b"]), ListEnd]
    ensures Stray(Rendered(["- a", "b"]))
  {
    hide KindOf, PlaceAfter, Pieces, Stray, CodeOpen, ListOpen, Good, Reflects;
    var lines := ["- a", "b"];
    KindsInExample();
    assert After(lines, 0) == START;
    assert After(lines, 1) == Next(START, "- a") == State([ListStart, Item("a")], [], true, false);
    assert After(lines, 2) == Next(After(lines, 1), "b") == State([ListStart, Item("a")], ["b"], true, false);
    PlaceInExample();
    StrayInList([ListStart, Item("a")], Paragraph(["b"]), ListEnd);
    assert [ListStart, Item("a")] + [Paragraph(["b"]), ListEnd] == Rendered(lines);
  }

  lemma KindsInExample()
    ensures KindOf("- a") == Bullet("a") && KindOf("b") == Plain("b")
  {
    assert Strip("- a") == "- a" && Strip("b") == "b" && StripLeft(" a") == "a";
  }

  lemma StrayInList(o: Output, p: Tag, t: Tag)
    requires p.Paragraph? && PlaceAfter(o) == InList
    ensures Stray(o + [p, t])
  {
    EmittedGroups(o, p);
    EmittedGroups(o + [p], t);
    assert o + [p, t] == o + [p] + [t];
  }

  lemma PlaceInExample()
    ensures PlaceAfter([ListStart, Item("a")]) == InList
  {
    var none: Output := [];
    Emitted(none, ListStart);
    Emitted([ListStart], Item("a"));
    assert none + [ListStart] == [ListStart] && [ListStart] + [Item("a")] == [ListStart, Item("a")];
  }
}
