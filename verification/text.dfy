/** Python's text helpers: `strip`, `split` and `casefold`, and SQLite's LOWER and TRIM. */
module Text {

  /** `str.isspace` on one character. */
  predicate Space(c: char) {
    || c == ' ' || '\t' <= c <= '\r' || '\U{001C}' <= c <= '\U{001F}'
    || c == '\U{0085}' || c == '\U{00A0}' || c == '\U{1680}' || '\U{2000}' <= c <= '\U{200A}'
    || c == '\U{2028}' || c == '\U{2029}' || c == '\U{202F}' || c == '\U{205F}' || c == '\U{3000}'
  }

  function StripLeft(s: string): (r: string)
    ensures r != "" ==> !Space(r[0])
  {
    if s != "" && Space(s[0]) then StripLeft(s[1..]) else s
  }

  function StripRight(s: string): (r: string)
    ensures r != "" ==> !Space(r[|r| - 1])
    ensures |r| <= |s| && r == s[..|r|]
  {
    if s != "" && Space(s[|s| - 1]) then StripRight(s[..|s| - 1]) else s
  }

  /** `str.strip`. */
  function Strip(s: string): (r: string)
    ensures r != "" ==> !Space(r[0]) && !Space(r[|r| - 1])
  {
    StripRight(StripLeft(s))
  }

  /** SQLite's LOWER on one character: only ASCII letters change. */
  function LowerChar(c: char): char {
    if 'A' <= c <= 'Z' then (c as int + 32) as char else c
  }

  function Lower(s: string): (r: string)
    ensures |r| == |s| && forall i :: 0 <= i < |s| ==> r[i] == LowerChar(s[i])
  {
    seq(|s|, i requires 0 <= i < |s| => LowerChar(s[i]))
  }

  // ----- Case folding -------------------------------------------------------------------

  predicate NoSpace(s: string) {
    forall i :: 0 <= i < |s| ==> !Space(s[i])
  }

  /**
   What is known of `casefold`, character by character: ASCII letters become lower case, a
   space stays as it is, and any other character becomes some text without spaces.
   */
  ghost predicate Folding(f: char -> string) {
    forall c :: (c < '\U{0080}' ==> f(c) == [LowerChar(c)]) && if Space(c) then f(c) == [c] else f(c) != "" && NoSpace(f(c))
  }

  function AsciiFold(c: char): string {
    [LowerChar(c)]
  }

  /** Any such folding; the table of Unicode is one. */
  type Fold = f: char -> string | Folding(f) witness AsciiFold

  /** `str.casefold`. */
  function Folded(fold: Fold, s: string): string {
    if s == "" then "" else fold(s[0]) + Folded(fold, s[1..])
  }

  lemma Associate(a: string, b: string, c: string)
    ensures a + (b + c) == a + b + c
  {
  }

  lemma {:induction false} FoldedConcat(fold: Fold, a: string, b: string)
    ensures Folded(fold, a + b) == Folded(fold, a) + Folded(fold, b)
  {
    if a == "" {
      assert a + b == b;
    } else {
      var rest := a[1..];
      FoldedConcat(fold, rest, b);
      assert (a + b)[0] == a[0] && (a + b)[1..] == rest + b;
      Associate(fold(a[0]), Folded(fold, rest), Folded(fold, b));
    }
  }

  /** The characters of the text fold to what LOWER makes of them. */
  predicate FoldsAsLower(fold: Fold, s: string) {
    forall i :: 0 <= i < |s| ==> fold(s[i]) == [LowerChar(s[i])]
  }

  lemma {:induction false} FoldedIsLower(fold: Fold, s: string)
    requires FoldsAsLower(fold, s)
    ensures Folded(fold, s) == Lower(s)
  {
    if s != "" {
      FoldedIsLower(fold, s[1..]);
      assert Lower(s) == [LowerChar(s[0])] + Lower(s[1..]);
    }
  }

  // ----- Collapsed spaces ------------------------------------------------------------------

  /**
   `" ".join(s.split())`: runs of spaces become one blank, and none is left at the ends.
   `started` tells that some text came before, and `gap` that spaces came after it.
   */
  function Collapse(s: string, started: bool, gap: bool): string {
    if s == "" then ""
    else if Space(s[0]) then Collapse(s[1..], started, started)
    else (if gap then [' ', s[0]] else [s[0]]) + Collapse(s[1..], true, false)
  }

  function Collapsed(s: string): string {
    Collapse(s, false, false)
  }

  predicate Stripped(s: string) {
    s != "" ==> !Space(s[0]) && !Space(s[|s| - 1])
  }

  /** Every space in the text is a single blank between two other characters. */
  predicate SingleSpaced(s: string) {
    forall i :: 0 <= i < |s| && Space(s[i]) ==> s[i] == ' ' && i + 1 < |s| && !Space(s[i + 1])
  }

  lemma {:induction false} CollapseShrinks(s: string, started: bool, gap: bool)
    ensures |Collapse(s, started, gap)| <= |s| + if gap then 1 else 0
    ensures gap && s != "" && Space(s[0]) ==> |Collapse(s, started, gap)| <= |s|
  {
    hide Space;
    if s != "" {
      CollapseShrinks(s[1..], true, false);
      CollapseShrinks(s[1..], started, started);
    }
  }

  /**
   A text that ends in no space and keeps its length when it is collapsed: its spaces are
   single, and each of them has become a blank.
   */
  lemma {:induction false} CollapseKeepsLength(s: string, k: nat)
    requires k < |s| && !Space(s[|s| - 1]) && |Collapse(s, true, false)| == |s|
    ensures var c := Collapse(s, true, false)[k];
            if Space(s[k]) then c == ' ' && k + 1 < |s| && !Space(s[k + 1]) else c == s[k]
  {
    hide Space;
    if !Space(s[0]) {
      if k > 0 {
        CollapseKeepsLength(s[1..], k - 1);
      }
    } else {
      var rest := s[1..];
      CollapseShrinks(rest, true, true);
      assert Collapse(s, true, false) == [' ', s[1]] + Collapse(s[2..], true, false) by {
        assert !Space(rest[0]) && rest[1..] == s[2..];
      }
      if k > 1 {
        CollapseKeepsLength(s[2..], k - 2);
      }
    }
  }

  /** On a single-spaced text, collapsing changes nothing. */
  lemma {:induction false} CollapseOfSingleSpaced(s: string)
    requires SingleSpaced(s)
    ensures Collapse(s, true, false) == s
  {
    hide Space;
    if s != "" {
      if Space(s[0]) {
        CollapseOfSingleSpaced(s[2..]);
        assert Collapse(s, true, false) == [' ', s[1]] + Collapse(s[2..], true, false) by {
          assert s[1..][1..] == s[2..];
        }
      } else {
        CollapseOfSingleSpaced(s[1..]);
      }
    }
  }

  lemma {:induction false} CollapseOfConcat(word: string, rest: string, started: bool, gap: bool)
    requires word != "" && NoSpace(word)
    ensures Collapse(word + rest, started, gap) == (if gap then [' '] else []) + word + Collapse(rest, true, false)
  {
    hide Space;
    assert (word + rest)[1..] == word[1..] + rest;
    if |word| == 1 {
      assert word[1..] + rest == rest;
    } else {
      CollapseOfConcat(word[1..], rest, true, false);
      assert word == [word[0]] + word[1..];
    }
  }

  /** Case folding and collapsing commute. */
  lemma {:induction false} CollapseOfFolded(fold: Fold, s: string, started: bool, gap: bool)
    ensures Collapse(Folded(fold, s), started, gap) == Folded(fold, Collapse(s, started, gap))
  {
    hide Space, LowerChar;
    if s != "" {
      var rest := Folded(fold, s[1..]);
      if Space(s[0]) {
        assert Folded(fold, s) == [s[0]] + rest;
        CollapseOfFolded(fold, s[1..], started, started);
      } else {
        CollapseOfConcat(fold(s[0]), rest, started, gap);
        CollapseOfFolded(fold, s[1..], true, false);
        var head := if gap then [' ', s[0]] else [s[0]];
        FoldedConcat(fold, head, Collapse(s[1..], true, false));
        FoldedHead(fold, s[0]);
      }
    }
  }

  lemma FoldedHead(fold: Fold, c: char)
    ensures Folded(fold, [c]) == fold(c) && Folded(fold, [' ', c]) == [' '] + fold(c)
  {
    assert Space(' ') && [' ', c][1..] == [c] && [c][1..] == "";
  }

  // ----- Counting what is not a space ---------------------------------------------------------

  function Ink(s: string): nat {
    if s == "" then 0 else (if Space(s[0]) then 0 else 1) + Ink(s[1..])
  }

  lemma {:induction false} InkOfConcat(a: string, b: string)
    ensures Ink(a + b) == Ink(a) + Ink(b)
  {
    hide Space;
    if a == "" {
      assert a + b == b;
    } else {
      InkOfConcat(a[1..], b);
      assert (a + b)[1..] == a[1..] + b;
    }
  }

  lemma {:induction false} InkOfNoSpace(s: string)
    requires NoSpace(s)
    ensures Ink(s) == |s|
  {
    hide Space;
    if s != "" {
      InkOfNoSpace(s[1..]);
    }
  }

  lemma {:induction false} InkOfLower(s: string)
    ensures Ink(Lower(s)) == Ink(s)
  {
    if s != "" {
      InkOfLower(s[1..]);
      assert Lower(s)[1..] == Lower(s[1..]);
    }
  }

  lemma {:induction false} InkOfCollapse(s: string, started: bool, gap: bool)
    ensures Ink(Collapse(s, started, gap)) == Ink(s)
  {
    if s != "" {
      InkOfCollapse(s[1..], started, started);
      InkOfCollapse(s[1..], true, false);
      if !Space(s[0]) {
        var head := if gap then [' ', s[0]] else [s[0]];
        InkOfConcat(head, Collapse(s[1..], true, false));
        assert Ink([s[0]]) == 1 && [' ', s[0]][1..] == [s[0]];
      }
    }
  }

  /** Folding never loses ink, and gains none only if every character folds to one. */
  lemma {:induction false} InkOfFolded(fold: Fold, s: string)
    ensures Ink(Folded(fold, s)) >= Ink(s)
    ensures Ink(Folded(fold, s)) == Ink(s) ==> forall i :: 0 <= i < |s| ==> |fold(s[i])| == 1
  {
    hide Space, LowerChar;
    if s != "" {
      InkOfFolded(fold, s[1..]);
      InkOfConcat(fold(s[0]), Folded(fold, s[1..]));
      if Space(s[0]) {
        assert Ink([s[0]]) == 0;
      } else {
        InkOfNoSpace(fold(s[0]));
      }
      assert forall i :: 0 < i < |s| ==> s[i] == s[1..][i - 1];
    }
  }

  lemma {:induction false} FoldedOneByOne(fold: Fold, s: string, k: nat)
    requires k < |s| && forall i :: 0 <= i < |s| ==> |fold(s[i])| == 1
    ensures |Folded(fold, s)| == |s| && [Folded(fold, s)[k]] == fold(s[k])
  {
    if |s| > 1 {
      FoldedOneByOne(fold, s[1..], if k > 0 then k - 1 else 0);
    }
  }

  // ----- SQLite's TRIM ---------------------------------------------------------------------------

  /** SQLite's TRIM removes blanks only. */
  function TrimBlanksLeft(s: string): string {
    if s != "" && s[0] == ' ' then TrimBlanksLeft(s[1..]) else s
  }

  function TrimBlanksRight(s: string): string {
    if s != "" && s[|s| - 1] == ' ' then TrimBlanksRight(s[..|s| - 1]) else s
  }

  function TrimBlanks(s: string): string {
    TrimBlanksRight(TrimBlanksLeft(s))
  }
}
