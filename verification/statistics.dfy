/**
 The statistics of app/worker/odr_worker/statistics.py: result counts, the summary and
 the grouping of match rows by deck or opponent. Win rates are exact fractions, and the
 filters of the query are not part of this model.
 */
module Statistics {
  import opened Text

  datatype Outcome = Win | Loss | Draw | Unknown

  /** A match row, reduced to the field that is grouped on and the recorded result. */
  datatype Row = Row(title: string, result: string)

  datatype Counts = Counts(win: nat, loss: nat, draw: nat, unknown: nat) {
    function Known(): nat { win + loss + draw }

    function Total(): nat { Known() + unknown }

    function Plus(r: Outcome): Counts {
      match r
      case Win => this.(win := win + 1)
      case Loss => this.(loss := loss + 1)
      case Draw => this.(draw := draw + 1)
      case Unknown => this.(unknown := unknown + 1)
    }

    function Sum(other: Counts): Counts {
      Counts(win + other.win, loss + other.loss, draw + other.draw, unknown + other.unknown)
    }
  }

  const NONE: Counts := Counts(0, 0, 0, 0)

  /** `_normalize_result`. */
  function Normalized(fold: Fold, result: string): Outcome {
    var value := Folded(fold, Strip(result));
    if value == "win" then Win else if value == "loss" then Loss else if value == "draw" then Draw else Unknown
  }

  /** `_key`, with the key of an empty label. */
  function Key(fold: Fold, title: string): string {
    var key := Collapsed(Folded(fold, title));
    if key == "" then "unknown" else key
  }

  /** `_display_value`. */
  function Display(title: string): string {
    var shown := Collapsed(title);
    if shown == "" then "unknown" else shown
  }

  lemma FoldOfUnknown(fold: Fold)
    ensures Folded(fold, "unknown") == "unknown"
  {
    assert FoldsAsLower(fold, "unknown");
    FoldedIsLower(fold, "unknown");
    assert Lower("unknown") == "unknown";
  }

  lemma FoldedIsEmpty(fold: Fold, s: string)
    ensures Folded(fold, s) == "" <==> s == ""
  {
    hide Space, LowerChar;
    if s != "" {
      assert fold(s[0]) != "";
    }
  }

  /** The shown name of a label, case-folded, is its key. */
  lemma KeyOfDisplay(fold: Fold, title: string)
    ensures Folded(fold, Display(title)) == Key(fold, title)
  {
    CollapseOfFolded(fold, title, false, false);
    FoldOfUnknown(fold);
    FoldedIsEmpty(fold, Collapsed(title));
  }

  // ----- Counting ---------------------------------------------------------------------

  /** The counts of the first `n` rows, or of those among them with a given key. */
  function CountsOf(fold: Fold, rows: seq<Row>, n: nat): Counts
    requires n <= |rows|
  {
    if n == 0 then NONE else CountsOf(fold, rows, n - 1).Plus(Normalized(fold, rows[n - 1].result))
  }

  function CountsOfKey(fold: Fold, rows: seq<Row>, key: string, n: nat): Counts
    requires n <= |rows|
  {
    if n == 0 then NONE
    else if Key(fold, rows[n - 1].title) == key then CountsOfKey(fold, rows, key, n - 1).Plus(Normalized(fold, rows[n - 1].result))
    else CountsOfKey(fold, rows, key, n - 1)
  }

  lemma {:induction false} CountsCoverRows(fold: Fold, rows: seq<Row>, n: nat)
    requires n <= |rows|
    ensures CountsOf(fold, rows, n).Total() == n
  {
    hide Normalized;
    if n > 0 {
      CountsCoverRows(fold, rows, n - 1);
    }
  }

  /** `_result_counts`. */
  method ResultCounts(fold: Fold, rows: seq<Row>) returns (counts: Counts)
    ensures counts == CountsOf(fold, rows, |rows|) && counts.Total() == |rows|
  {
    hide Normalized;
    counts := NONE;
    var i := 0;
    while i < |rows|
      invariant 0 <= i <= |rows| && counts == CountsOf(fold, rows, i)
    {
      counts := counts.Plus(Normalized(fold, rows[i].result));
      i := i + 1;
    }
    CountsCoverRows(fold, rows, |rows|);
  }

  datatype SummaryRecord = SummaryRecord(total: nat, known: nat, unknown: nat, counts: Counts, winRate: real)

  function WinRate(counts: Counts): (rate: real)
    ensures 0.0 <= rate <= 1.0
    ensures rate == 1.0 <==> counts.Known() > 0 && counts.win == counts.Known()
  {
    if counts.Known() == 0 then 0.0 else counts.win as real / counts.Known() as real
  }

  /** `summary`. */
  method Summary(fold: Fold, rows: seq<Row>) returns (s: SummaryRecord)
    ensures s.total == |rows| && s.known + s.unknown == s.total
    ensures s.counts == CountsOf(fold, rows, |rows|) && s.known == s.counts.Known() && s.winRate == WinRate(s.counts)
  {
    var counts := ResultCounts(fold, rows);
    s := SummaryRecord(|rows|, counts.Known(), counts.unknown, counts, WinRate(counts));
  }

  // ----- Groups ------------------------------------------------------------------------

  datatype Group = Group(key: string, name: string, total: nat, counts: Counts)

  function FindGroup(groups: seq<Group>, key: string, k: nat): (place: nat)
    requires k <= |groups|
    ensures k <= place <= |groups|
    ensures place < |groups| ==> groups[place].key == key
    ensures forall j :: k <= j < place ==> groups[j].key != key
    decreases |groups| - k
  {
    if k == |groups| || groups[k].key == key then k else FindGroup(groups, key, k + 1)
  }

  /** The label of the first row with the key names the group. */
  function FirstLabel(fold: Fold, rows: seq<Row>, key: string, n: nat): string
    requires n <= |rows|
  {
    if n == 0 then ""
    else
      var before := FirstLabel(fold, rows, key, n - 1);
      if before == "" && Key(fold, rows[n - 1].title) == key then Display(rows[n - 1].title) else before
  }

  /** A group says exactly what the first `n` rows say about its key. */
  predicate Exact(fold: Fold, rows: seq<Row>, n: nat, g: Group)
    requires n <= |rows|
  {
    && g.total >= 1
    && g.counts == CountsOfKey(fold, rows, g.key, n)
    && g.total == g.counts.Total()
    && g.name == FirstLabel(fold, rows, g.key, n)
    && Folded(fold, g.name) == g.key
  }

  predicate KeysDistinct(groups: seq<Group>) {
    forall j, k :: 0 <= j < k < |groups| ==> groups[j].key != groups[k].key
  }

  predicate HasKey(groups: seq<Group>, key: string) {
    exists k :: 0 <= k < |groups| && groups[k].key == key
  }

  function Totals(groups: seq<Group>): nat {
    if groups == [] then 0 else groups[0].total + Totals(groups[1..])
  }

  function AllCounts(groups: seq<Group>): Counts {
    if groups == [] then NONE else groups[0].counts.Sum(AllCounts(groups[1..]))
  }

  /** The groups hold exactly what the first `n` rows say. */
  ghost predicate Grouped(fold: Fold, rows: seq<Row>, n: nat, groups: seq<Group>)
    requires n <= |rows|
  {
    && KeysDistinct(groups)
    && (forall k :: 0 <= k < |groups| ==> Exact(fold, rows, n, groups[k]))
    && (forall i :: 0 <= i < n ==> HasKey(groups, Key(fold, rows[i].title)))
    && Totals(groups) == n
    && AllCounts(groups) == CountsOf(fold, rows, n)
  }

  function Counted(g: Group, result: Outcome): Group {
    g.(total := g.total + 1, counts := g.counts.Plus(result))
  }

  function AddRow(fold: Fold, groups: seq<Group>, row: Row): seq<Group> {
    var key := Key(fold, row.title);
    var k := FindGroup(groups, key, 0);
    if k < |groups| then groups[k := Counted(groups[k], Normalized(fold, row.result))]
    else groups + [Counted(Group(key, Display(row.title), 0, NONE), Normalized(fold, row.result))]
  }

  lemma {:induction false} SumsOfUpdate(groups: seq<Group>, k: nat, r: Outcome)
    requires k < |groups|
    ensures var after := groups[k := Counted(groups[k], r)];
            Totals(after) == Totals(groups) + 1 && AllCounts(after) == AllCounts(groups).Plus(r)
  {
    var after := groups[k := Counted(groups[k], r)];
    if k == 0 {
      assert after[1..] == groups[1..];
    } else {
      assert after[1..] == groups[1..][k - 1 := Counted(groups[k], r)];
      SumsOfUpdate(groups[1..], k - 1, r);
    }
  }

  lemma {:induction false} SumsOfAppend(groups: seq<Group>, g: Group)
    ensures Totals(groups + [g]) == Totals(groups) + g.total
    ensures AllCounts(groups + [g]) == AllCounts(groups).Sum(g.counts)
  {
    if groups == [] {
      assert groups + [g] == [g];
    } else {
      assert (groups + [g])[1..] == groups[1..] + [g];
      SumsOfAppend(groups[1..], g);
    }
  }

  /** A key that no row has counts nothing. */
  lemma {:induction false} AbsentKeyCountsNothing(fold: Fold, rows: seq<Row>, key: string, n: nat)
    requires n <= |rows| && forall i :: 0 <= i < n ==> Key(fold, rows[i].title) != key
    ensures CountsOfKey(fold, rows, key, n) == NONE && FirstLabel(fold, rows, key, n) == ""
  {
    hide Key, Normalized, Display;
    if n > 0 {
      AbsentKeyCountsNothing(fold, rows, key, n - 1);
    }
  }

  lemma OtherRowKeepsGroup(fold: Fold, rows: seq<Row>, n: nat, g: Group)
    requires n < |rows| && Exact(fold, rows, n, g) && Key(fold, rows[n].title) != g.key
    ensures Exact(fold, rows, n + 1, g)
  {
    hide Key, Display, Normalized, Folded;
  }

  lemma OwnRowIsCounted(fold: Fold, rows: seq<Row>, n: nat, g: Group)
    requires n < |rows| && Exact(fold, rows, n, g) && Key(fold, rows[n].title) == g.key
    ensures Exact(fold, rows, n + 1, Counted(g, Normalized(fold, rows[n].result)))
  {
    hide Key, Display, Normalized;
    assert g.key != "" by {
      KeyIsNotEmpty(fold, rows[n].title);
    }
    assert g.name != "";
  }

  lemma KeyIsNotEmpty(fold: Fold, title: string)
    ensures Key(fold, title) != ""
  {
  }

  lemma FirstRowIsCounted(fold: Fold, rows: seq<Row>, n: nat)
    requires n < |rows| && forall i :: 0 <= i < n ==> Key(fold, rows[i].title) != Key(fold, rows[n].title)
    ensures var row := rows[n];
            Exact(fold, rows, n + 1, Counted(Group(Key(fold, row.title), Display(row.title), 0, NONE), Normalized(fold, row.result)))
  {
    hide Key, Display, Normalized;
    AbsentKeyCountsNothing(fold, rows, Key(fold, rows[n].title), n);
    KeyOfDisplay(fold, rows[n].title);
  }

  lemma AddRowKeepsKeys(fold: Fold, groups: seq<Group>, row: Row)
    requires KeysDistinct(groups)
    ensures var after := AddRow(fold, groups, row);
            && KeysDistinct(after) && HasKey(after, Key(fold, row.title))
            && (forall key :: HasKey(groups, key) ==> HasKey(after, key))
  {
    hide Key, Display, Normalized;
    var k, after := FindGroup(groups, Key(fold, row.title), 0), AddRow(fold, groups, row);
    assert after[k].key == Key(fold, row.title);
    assert forall j :: 0 <= j < |groups| ==> after[j].key == groups[j].key;
  }

  lemma AddRowIsGrouped(fold: Fold, rows: seq<Row>, n: nat, groups: seq<Group>)
    requires n < |rows| && Grouped(fold, rows, n, groups)
    ensures Grouped(fold, rows, n + 1, AddRow(fold, groups, rows[n]))
  {
    hide Key, Display, Normalized, Exact, HasKey, KeysDistinct, Totals, AllCounts;
    var row := rows[n];
    var key, r := Key(fold, row.title), Normalized(fold, row.result);
    var k := FindGroup(groups, key, 0);
    AddRowKeepsKeys(fold, groups, row);
    if k < |groups| {
      SumsOfUpdate(groups, k, r);
      OwnRowIsCounted(fold, rows, n, groups[k]);
    } else {
      SumsOfAppend(groups, Counted(Group(key, Display(row.title), 0, NONE), r));
      forall i | 0 <= i < n
        ensures Key(fold, rows[i].title) != key
      {
        KeyIsFound(groups, Key(fold, rows[i].title));
      }
      FirstRowIsCounted(fold, rows, n);
    }
    forall j | 0 <= j < |groups| && j != k
      ensures Exact(fold, rows, n + 1, groups[j])
    {
      if k < |groups| {
        KeyIsUnique(groups, j, k);
      }
      OtherRowKeepsGroup(fold, rows, n, groups[j]);
    }
  }

  lemma KeyIsFound(groups: seq<Group>, key: string)
    requires HasKey(groups, key)
    ensures FindGroup(groups, key, 0) < |groups|
  {
  }

  lemma KeyIsUnique(groups: seq<Group>, j: nat, k: nat)
    requires j < |groups| && k < |groups| && j != k && KeysDistinct(groups)
    ensures groups[j].key != groups[k].key
  {
  }

  // ----- Order ---------------------------------------------------------------------------

  /** Strings in the order of their characters. */
  predicate Below(a: string, b: string) {
    b != "" && (a == "" || a[0] < b[0] || (a[0] == b[0] && Below(a[1..], b[1..])))
  }

  lemma {:induction false} BelowIsTotal(a: string, b: string)
    ensures a == b || Below(a, b) || Below(b, a)
    ensures !(Below(a, b) && Below(b, a)) && (a == b ==> !Below(a, b))
  {
    if a != "" && b != "" && a[0] == b[0] {
      BelowIsTotal(a[1..], b[1..]);
      assert a == [a[0]] + a[1..] && b == [b[0]] + b[1..];
    }
  }

  lemma {:induction false} BelowIsTransitive(a: string, b: string, c: string)
    requires Below(a, b) && Below(b, c)
    ensures Below(a, c)
  {
    if a != "" && a[0] == b[0] == c[0] {
      BelowIsTransitive(a[1..], b[1..], c[1..]);
    }
  }

  /** The sort key: larger totals first, then names without regard to case. */
  predicate Precedes(fold: Fold, a: Group, b: Group) {
    a.total > b.total || (a.total == b.total && Below(Folded(fold, a.name), Folded(fold, b.name)))
  }

  predicate Ordered(fold: Fold, groups: seq<Group>) {
    forall j, k :: 0 <= j < k < |groups| ==> Precedes(fold, groups[j], groups[k])
  }

  lemma PrecedesIsTransitive(fold: Fold, a: Group, b: Group, c: Group)
    requires Precedes(fold, a, b) && Precedes(fold, b, c)
    ensures Precedes(fold, a, c)
  {
    if a.total == c.total {
      BelowIsTransitive(Folded(fold, a.name), Folded(fold, b.name), Folded(fold, c.name));
    }
  }

  function Insert(fold: Fold, g: Group, groups: seq<Group>): seq<Group> {
    if groups == [] || Precedes(fold, g, groups[0]) then [g] + groups else [groups[0]] + Insert(fold, g, groups[1..])
  }

  /** The library sort, on groups whose names differ: no two groups tie. */
  function Sorted(fold: Fold, groups: seq<Group>): seq<Group> {
    if groups == [] then [] else Insert(fold, groups[0], Sorted(fold, groups[1..]))
  }

  predicate NamesDiffer(fold: Fold, g: Group, groups: seq<Group>) {
    forall k :: 0 <= k < |groups| ==> Folded(fold, g.name) != Folded(fold, groups[k].name)
  }

  lemma OneOfTwoPrecedes(fold: Fold, a: Group, b: Group)
    requires Folded(fold, a.name) != Folded(fold, b.name)
    ensures Precedes(fold, a, b) || Precedes(fold, b, a)
  {
    BelowIsTotal(Folded(fold, a.name), Folded(fold, b.name));
  }

  lemma {:induction false} InsertIsOrdered(fold: Fold, g: Group, groups: seq<Group>)
    requires Ordered(fold, groups) && NamesDiffer(fold, g, groups)
    ensures Ordered(fold, Insert(fold, g, groups)) && multiset(Insert(fold, g, groups)) == multiset(groups) + multiset{g}
  {
    hide Folded, Precedes;
    if groups == [] {
    } else if Precedes(fold, g, groups[0]) {
      forall k | 0 < k < |groups|
        ensures Precedes(fold, g, groups[k])
      {
        PrecedesIsTransitive(fold, g, groups[0], groups[k]);
      }
    } else {
      var rest := groups[1..];
      assert groups == [groups[0]] + rest;
      InsertIsOrdered(fold, g, rest);
      OneOfTwoPrecedes(fold, g, groups[0]);
      forall x | x in Insert(fold, g, rest)
        ensures Precedes(fold, groups[0], x)
      {
        assert x in multiset(Insert(fold, g, rest));
      }
    }
  }

  lemma {:induction false} SortedIsOrdered(fold: Fold, groups: seq<Group>)
    requires forall j, k :: 0 <= j < k < |groups| ==> Folded(fold, groups[j].name) != Folded(fold, groups[k].name)
    ensures Ordered(fold, Sorted(fold, groups)) && multiset(Sorted(fold, groups)) == multiset(groups)
  {
    hide Folded, Insert;
    if groups != [] {
      var rest := groups[1..];
      assert groups == [groups[0]] + rest;
      SortedIsOrdered(fold, rest);
      forall k | 0 <= k < |Sorted(fold, rest)|
        ensures Folded(fold, groups[0].name) != Folded(fold, Sorted(fold, rest)[k].name)
      {
        assert Sorted(fold, rest)[k] in multiset(Sorted(fold, rest));
        var j :| 0 <= j < |rest| && rest[j] == Sorted(fold, rest)[k];
        assert rest[j] == groups[j + 1];
      }
      InsertIsOrdered(fold, groups[0], Sorted(fold, rest));
    }
  }

  lemma NamesOfGroups(fold: Fold, rows: seq<Row>, n: nat, groups: seq<Group>)
    requires n <= |rows| && Grouped(fold, rows, n, groups)
    ensures forall j, k :: 0 <= j < k < |groups| ==> Folded(fold, groups[j].name) != Folded(fold, groups[k].name)
  {
    hide Folded, Key;
    forall j, k | 0 <= j < k < |groups|
      ensures Folded(fold, groups[j].name) != Folded(fold, groups[k].name)
    {
      assert Exact(fold, rows, n, groups[j]) && Exact(fold, rows, n, groups[k]);
    }
  }

  lemma {:induction false} InsertKeepsSums(fold: Fold, g: Group, groups: seq<Group>)
    ensures Totals(Insert(fold, g, groups)) == g.total + Totals(groups)
    ensures AllCounts(Insert(fold, g, groups)) == g.counts.Sum(AllCounts(groups))
  {
    hide Precedes;
    if groups == [] || Precedes(fold, g, groups[0]) {
      assert Insert(fold, g, groups) == [g] + groups;
      assert ([g] + groups)[1..] == groups;
    } else {
      InsertKeepsSums(fold, g, groups[1..]);
      assert ([groups[0]] + Insert(fold, g, groups[1..]))[1..] == Insert(fold, g, groups[1..]);
    }
  }

  lemma {:induction false} SortKeepsSums(fold: Fold, groups: seq<Group>)
    ensures Totals(Sorted(fold, groups)) == Totals(groups) && AllCounts(Sorted(fold, groups)) == AllCounts(groups)
  {
    hide Insert;
    if groups != [] {
      SortKeepsSums(fold, groups[1..]);
      InsertKeepsSums(fold, groups[0], Sorted(fold, groups[1..]));
    }
  }

  /** Sorting the groups keeps what they say about the rows. */
  lemma SortedIsGrouped(fold: Fold, rows: seq<Row>, n: nat, groups: seq<Group>)
    requires n <= |rows| && Grouped(fold, rows, n, groups)
    ensures Grouped(fold, rows, n, Sorted(fold, groups)) && Ordered(fold, Sorted(fold, groups))
  {
    hide Key, Folded, Sorted, Totals, AllCounts, Below;
    NamesOfGroups(fold, rows, n, groups);
    SortedIsOrdered(fold, groups);
    SortKeepsSums(fold, groups);
    var all := Sorted(fold, groups);
    forall k | 0 <= k < |all|
      ensures Exact(fold, rows, n, all[k])
    {
      assert all[k] in multiset(all);
    }
    forall i | 0 <= i < n
      ensures HasKey(all, Key(fold, rows[i].title))
    {
      var k :| 0 <= k < |groups| && groups[k].key == Key(fold, rows[i].title);
      assert groups[k] in multiset(groups);
    }
    forall j, k | 0 <= j < k < |all|
      ensures all[j].key != all[k].key
    {
      assert Exact(fold, rows, n, all[j]) && Exact(fold, rows, n, all[k]) && Precedes(fold, all[j], all[k]);
      BelowIsTotal(Folded(fold, all[j].name), Folded(fold, all[k].name));
    }
  }

  lemma NothingIsGrouped(fold: Fold, rows: seq<Row>)
    ensures Grouped(fold, rows, 0, [])
  {
  }

  /**
   The right answer: the beginning of a list of groups that says exactly what the rows say
   (one group for every key, its total and its result counts those of the rows with the
   key, the totals summing to the number of rows and the counts to the summary's) and that
   is in strict order of the sort key.
   */
  ghost predicate Answers(fold: Fold, rows: seq<Row>, limit: nat, items: seq<Group>) {
    exists all: seq<Group> ::
      Grouped(fold, rows, |rows|, all) && Ordered(fold, all) && items == all[..if limit < |all| then limit else |all|]
  }

  /** `_group_match_rows`. */
  method GroupMatchRows(fold: Fold, rows: seq<Row>, limit: nat) returns (items: seq<Group>)
    ensures Answers(fold, rows, limit, items)
  {
    hide Key, Display, Normalized, Grouped, Ordered, Sorted;
    var groups := [];
    var i := 0;
    NothingIsGrouped(fold, rows);
    while i < |rows|
      invariant 0 <= i <= |rows| && Grouped(fold, rows, i, groups)
    {
      AddRowIsGrouped(fold, rows, i, groups);
      var key := Key(fold, rows[i].title);
      var k := FindGroup(groups, key, 0);
      if k == |groups| {
        groups := groups + [Counted(Group(key, Display(rows[i].title), 0, NONE), Normalized(fold, rows[i].result))];
      } else {
        groups := groups[k := Counted(groups[k], Normalized(fold, rows[i].result))];
      }
      i := i + 1;
    }
    SortedIsGrouped(fold, rows, |rows|, groups);
    var sorted := Sorted(fold, groups);
    items := sorted[..if limit < |sorted| then limit else |sorted|];
  }

  // ----- The answer is determined ------------------------------------------------------------

  lemma HeadIsIn(a: seq<Group>)
    ensures a == [] || a[0] in a
  {
  }

  lemma {:induction false} OrderedIsUnique(fold: Fold, a: seq<Group>, b: seq<Group>)
    requires Ordered(fold, a) && Ordered(fold, b) && forall g :: g in a <==> g in b
    ensures a == b
  {
    hide Precedes;
    HeadIsIn(a);
    HeadIsIn(b);
    if a != [] && b != [] {
      FirstIsFirst(fold, a, b);
      forall g
        ensures g in a[1..] <==> g in b[1..]
      {
        TailWithoutHead(fold, a, g);
        TailWithoutHead(fold, b, g);
      }
      OrderedIsUnique(fold, a[1..], b[1..]);
      assert a == [a[0]] + a[1..] && b == [b[0]] + b[1..];
    }
  }

  lemma PrecedesIsStrict(fold: Fold, a: Group, b: Group)
    ensures !(Precedes(fold, a, b) && Precedes(fold, b, a)) && !Precedes(fold, a, a)
  {
    BelowIsTotal(Folded(fold, a.name), Folded(fold, b.name));
    BelowIsTotal(Folded(fold, a.name), Folded(fold, a.name));
  }

  lemma FirstIsFirst(fold: Fold, a: seq<Group>, b: seq<Group>)
    requires a != [] && b != [] && Ordered(fold, a) && Ordered(fold, b) && a[0] in b && b[0] in a
    ensures a[0] == b[0]
  {
    hide Precedes;
    PrecedesIsStrict(fold, a[0], b[0]);
  }

  lemma TailWithoutHead(fold: Fold, a: seq<Group>, g: Group)
    requires a != [] && Ordered(fold, a)
    ensures g in a[1..] <==> g in a && g != a[0]
  {
    hide Precedes;
    PrecedesIsStrict(fold, a[0], a[0]);
    assert a == [a[0]] + a[1..];
  }

  /** The rows determine the groups and their order. */
  lemma GroupsAreDetermined(fold: Fold, rows: seq<Row>, a: seq<Group>, b: seq<Group>)
    requires Grouped(fold, rows, |rows|, a) && Ordered(fold, a) && Grouped(fold, rows, |rows|, b) && Ordered(fold, b)
    ensures a == b
  {
    hide Ordered, Grouped;
    forall g
      ensures g in a <==> g in b
    {
      if g in a {
        GroupIsShared(fold, rows, a, b, g);
      }
      if g in b {
        GroupIsShared(fold, rows, b, a, g);
      }
    }
    OrderedIsUnique(fold, a, b);
  }

  /** There is one right answer. */
  lemma AnswerIsDetermined(fold: Fold, rows: seq<Row>, limit: nat, a: seq<Group>, b: seq<Group>)
    requires Answers(fold, rows, limit, a) && Answers(fold, rows, limit, b)
    ensures a == b
  {
    hide Ordered, Grouped;
    var first: seq<Group> :|
      Grouped(fold, rows, |rows|, first) && Ordered(fold, first) && a == first[..if limit < |first| then limit else |first|];
    var second: seq<Group> :|
      Grouped(fold, rows, |rows|, second) && Ordered(fold, second) && b == second[..if limit < |second| then limit else |second|];
    GroupsAreDetermined(fold, rows, first, second);
  }

  lemma {:induction false} CountedKeyHasRow(fold: Fold, rows: seq<Row>, key: string, n: nat)
    requires n <= |rows| && CountsOfKey(fold, rows, key, n).Total() >= 1
    ensures exists i :: 0 <= i < n && Key(fold, rows[i].title) == key
  {
    hide Normalized, Key;
    if Key(fold, rows[n - 1].title) != key {
      CountedKeyHasRow(fold, rows, key, n - 1);
    }
  }

  lemma GroupIsShared(fold: Fold, rows: seq<Row>, a: seq<Group>, b: seq<Group>, g: Group)
    requires Grouped(fold, rows, |rows|, a) && Grouped(fold, rows, |rows|, b) && g in a
    ensures g in b
  {
    hide Key, Totals, AllCounts, KeysDistinct;
    assert Exact(fold, rows, |rows|, g);
    CountedKeyHasRow(fold, rows, g.key, |rows|);
    assert HasKey(b, g.key);
    var k :| 0 <= k < |b| && b[k].key == g.key;
    assert Exact(fold, rows, |rows|, b[k]);
  }
}
