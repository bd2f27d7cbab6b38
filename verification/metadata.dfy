/**
 The match rows of app/worker/odr_worker/metadata.py, as far as deck sequence numbers
 and recording sessions go. The other editable fields and the templates are not part of
 this model.
 */
module Metadata {
  import opened Common
  import opened Text

  /** A session of zero means that no recording is linked. */
  datatype Match = Match(id: nat, session: nat, deckName: string, deckNumber: nat)

  datatype MetadataError = PayloadInvalid | MatchNotFound | SessionMissing

  type Matches = seq<Match>

  const DECK_NAME_LIMIT: nat := 120

  // ----- Keys -------------------------------------------------------------------------

  /** `_deck_key` of a stored name: case-folded, and its inner spaces collapsed. */
  function DeckKey(fold: Fold, name: string): string {
    Collapsed(Folded(fold, name))
  }

  /** The key the SQL query computes for a stored name: `LOWER(TRIM(deck_name))`. */
  function SqlKey(name: string): string {
    Lower(TrimBlanks(name))
  }

  /** The names on which the two keys agree. */
  predicate Plain(fold: Fold, name: string) {
    SingleSpaced(name) && FoldsAsLower(fold, name)
  }

  lemma SqlKeyOfStripped(name: string)
    requires Stripped(name)
    ensures SqlKey(name) == Lower(name)
  {
  }

  lemma PlainKeysAgree(fold: Fold, name: string)
    requires Stripped(name) && Plain(fold, name)
    ensures SqlKey(name) == DeckKey(fold, name)
  {
    FoldedIsLower(fold, name);
    var t := Lower(name);
    assert SingleSpaced(t) by {
      assert forall i :: 0 <= i < |name| ==> (Space(t[i]) <==> Space(name[i]));
    }
    CollapseOfSingleSpaced(t);
  }

  /** Keys that agree have the same ink, so every character folds to one, and no space was lost. */
  lemma AgreeingKeysKeepLength(fold: Fold, name: string)
    requires Stripped(name) && name != "" && Lower(name) == DeckKey(fold, name)
    ensures var w := Collapse(name, true, false);
            && DeckKey(fold, name) == Folded(fold, w) && |w| == |name|
            && forall i :: 0 <= i < |w| ==> |fold(w[i])| == 1
  {
    hide Space, LowerChar, Lower;
    var w := Collapse(name, true, false);
    assert w == Collapsed(name);
    CollapseOfFolded(fold, name, false, false);
    InkOfLower(name);
    InkOfCollapse(name, true, false);
    InkOfFolded(fold, w);
    FoldedOneByOne(fold, w, 0) by {
      assert w != "";
    }
  }

  lemma AgreeingKeysArePlain(fold: Fold, name: string, k: nat)
    requires Stripped(name) && Lower(name) == DeckKey(fold, name) && k < |name|
    ensures fold(name[k]) == [LowerChar(name[k])]
    ensures Space(name[k]) ==> name[k] == ' ' && k + 1 < |name| && !Space(name[k + 1])
  {
    hide Collapse;
    var w := Collapse(name, true, false);
    AgreeingKeysKeepLength(fold, name);
    CollapseKeepsLength(name, k);
    FoldedOneByOne(fold, w, k);
    assert [Lower(name)[k]] == fold(w[k]);
  }

  /**
   On the stripped names that are stored, the two keys agree exactly when the name is
   single-spaced and each of its characters folds to what LOWER makes of it; otherwise
   the query never finds the row by its own key.
   */
  lemma KeysAgree(fold: Fold, name: string)
    requires Stripped(name)
    ensures SqlKey(name) == DeckKey(fold, name) <==> Plain(fold, name)
  {
    hide Folded, DeckKey, SqlKey, Lower, LowerChar, Space;
    assert SqlKey(name) == Lower(name) by {
      SqlKeyOfStripped(name);
    }
    if Plain(fold, name) {
      PlainKeysAgree(fold, name);
    }
    if SqlKey(name) == DeckKey(fold, name) {
      forall k | 0 <= k < |name|
        ensures fold(name[k]) == [LowerChar(name[k])]
      {
        AgreeingKeysArePlain(fold, name, k);
      }
      forall k | 0 <= k < |name| && Space(name[k])
        ensures name[k] == ' ' && k + 1 < |name| && !Space(name[k + 1])
      {
        AgreeingKeysArePlain(fold, name, k);
      }
    }
  }

  lemma KeyOfName(fold: Fold, name: string)
    requires Stripped(name) && name != ""
    ensures DeckKey(fold, name) != ""
  {
    CollapseOfFolded(fold, name, false, false);
    assert Collapse(name, false, false) != "";
  }

  // ----- Sequence numbers ----------------------------------------------------------------

  /** The largest number among the first `n` rows whose stored name has the key, one row aside. */
  function MaxNumber(rows: Matches, key: string, exclude: Option<nat>, n: nat): nat
    requires n <= |rows|
  {
    if n == 0 then 0
    else
      var before := MaxNumber(rows, key, exclude, n - 1);
      var row := rows[n - 1];
      if SqlKey(row.deckName) == key && Some(row.id) != exclude && row.deckNumber > before then row.deckNumber else before
  }

  /** `_next_deck_sequence_number`. */
  function NextDeckNumber(fold: Fold, rows: Matches, deckName: string, exclude: Option<nat>): nat {
    if DeckKey(fold, deckName) == "" then 0 else MaxNumber(rows, DeckKey(fold, deckName), exclude, |rows|) + 1
  }

  lemma {:induction false} MaxNumberBounds(rows: Matches, key: string, exclude: Option<nat>, n: nat, k: nat)
    requires k < n <= |rows| && SqlKey(rows[k].deckName) == key && Some(rows[k].id) != exclude
    ensures rows[k].deckNumber <= MaxNumber(rows, key, exclude, n)
  {
    if k < n - 1 {
      MaxNumberBounds(rows, key, exclude, n - 1, k);
    }
  }

  lemma {:induction false} MaxNumberOfPrefix(a: Matches, b: Matches, key: string, exclude: Option<nat>, n: nat)
    requires n <= |a| && n <= |b| && forall k :: 0 <= k < n ==> a[k] == b[k]
    ensures MaxNumber(a, key, exclude, n) == MaxNumber(b, key, exclude, n)
  {
    if n > 0 {
      MaxNumberOfPrefix(a, b, key, exclude, n - 1);
    }
  }

  // ----- Store operations -------------------------------------------------------------------

  function NextId(rows: Matches): nat {
    if rows == [] then 1 else rows[|rows| - 1].id + 1
  }

  predicate Sorted(rows: Matches) {
    (forall k :: 0 <= k < |rows| ==> rows[k].id >= 1) &&
    forall j, k :: 0 <= j < k < |rows| ==> rows[j].id < rows[k].id
  }

  function Find(rows: Matches, id: nat, k: nat): (place: Option<nat>)
    requires k <= |rows|
    ensures place.Some? ==> k <= place.value < |rows| && rows[place.value].id == id
    ensures place.None? ==> forall j :: k <= j < |rows| ==> rows[j].id != id
    decreases |rows| - k
  {
    if k == |rows| then None else if rows[k].id == id then Some(k) else Find(rows, id, k + 1)
  }

  function FindSession(rows: Matches, session: nat, k: nat): (place: Option<nat>)
    requires k <= |rows|
    ensures place.Some? ==> k <= place.value < |rows| && rows[place.value].session == session
    ensures place.None? ==> forall j :: k <= j < |rows| ==> rows[j].session != session
    decreases |rows| - k
  {
    if k == |rows| then None else if rows[k].session == session then Some(k) else FindSession(rows, session, k + 1)
  }

  /** The stored name of a payload field: stripped, and refused when too long. */
  function StoredName(deckName: string): Result<string, MetadataError> {
    var name := Strip(deckName);
    if |name| > DECK_NAME_LIMIT then Err(PayloadInvalid) else Ok(name)
  }

  function CreatedNamed(fold: Fold, rows: Matches, name: string): Match {
    Match(NextId(rows), 0, name, if name == "" then 0 else NextDeckNumber(fold, rows, name, None))
  }

  /** `create_match`; a payload without a deck name stores the empty name. */
  function Created(fold: Fold, rows: Matches, deckName: Option<string>): (Matches, Result<Match, MetadataError>) {
    match StoredName(match deckName case None => "" case Some(d) => d)
    case Err(e) => (rows, Err(e))
    case Ok(name) =>
      var row := CreatedNamed(fold, rows, name);
      (rows + [row], Ok(row))
  }

  /** The number a row gets when its name is edited. */
  function EditedNumber(fold: Fold, rows: Matches, row: Match, name: string): nat {
    if name == "" then 0
    else if DeckKey(fold, name) != DeckKey(fold, row.deckName) || row.deckNumber == 0
    then NextDeckNumber(fold, rows, name, Some(row.id))
    else row.deckNumber
  }

  /** `update_match`; `otherFields` tells that the payload edits some other field. */
  function Updated(fold: Fold, rows: Matches, id: nat, deckName: Option<string>, otherFields: bool)
    : (Matches, Result<Match, MetadataError>)
  {
    match StoredName(match deckName case None => "" case Some(d) => d)
    case Err(e) => (rows, Err(e))
    case Ok(name) =>
      if deckName.None? && !otherFields then (rows, Err(PayloadInvalid))
      else
        match Find(rows, id, 0)
        case None => (rows, Err(MatchNotFound))
        case Some(k) =>
          var row := if deckName.None? then rows[k]
                     else rows[k].(deckName := name, deckNumber := EditedNumber(fold, rows, rows[k], name));
          (rows[k := row], Ok(row))
  }

  /** `get_or_create_recording_match`: at most one row per session. */
  function Recorded(rows: Matches, session: nat): (Matches, Result<Match, MetadataError>) {
    if session == 0 then (rows, Err(SessionMissing))
    else
      match FindSession(rows, session, 0)
      case Some(k) => (rows, Ok(rows[k]))
      case None =>
        var row := Match(NextId(rows), session, "", 0);
        (rows + [row], Ok(row))
  }

  class MatchMetadataStore {
    const fold: Fold
    var rows: Matches

    constructor (fold: Fold)
      ensures rows == [] && this.fold == fold
    {
      this.fold := fold;
      rows := [];
    }

    method CreateMatch(deckName: Option<string>) returns (r: Result<Match, MetadataError>)
      modifies this
      ensures (rows, r) == Created(fold, old(rows), deckName)
    {
      var name := "";
      if deckName.Some? {
        name := Strip(deckName.value);
        if |name| > DECK_NAME_LIMIT {
          return Err(PayloadInvalid);
        }
      }
      var number := 0;
      if name != "" {
        number := NextDeckNumber(fold, rows, name, None);
      }
      var row := Match(NextId(rows), 0, name, number);
      rows := rows + [row];
      return Ok(row);
    }

    method UpdateMatch(id: nat, deckName: Option<string>, otherFields: bool) returns (r: Result<Match, MetadataError>)
      modifies this
      ensures (rows, r) == Updated(fold, old(rows), id, deckName, otherFields)
    {
      var name := "";
      if deckName.Some? {
        name := Strip(deckName.value);
        if |name| > DECK_NAME_LIMIT {
          return Err(PayloadInvalid);
        }
      }
      if deckName.None? && !otherFields {
        return Err(PayloadInvalid);
      }
      var place := Find(rows, id, 0);
      if place.None? {
        return Err(MatchNotFound);
      }
      var row := rows[place.value];
      if deckName.Some? {
        var number := row.deckNumber;
        if name == "" {
          number := 0;
        } else if DeckKey(fold, name) != DeckKey(fold, row.deckName) || row.deckNumber == 0 {
          number := NextDeckNumber(fold, rows, name, Some(id));
        }
        row := row.(deckName := name, deckNumber := number);
      }
      rows := rows[place.value := row];
      return Ok(row);
    }

    method GetOrCreateRecordingMatch(session: nat) returns (r: Result<Match, MetadataError>)
      modifies this
      ensures (rows, r) == Recorded(old(rows), session)
    {
      if session == 0 {
        return Err(SessionMissing);
      }
      var existing := FindSession(rows, session, 0);
      if existing.Some? {
        return Ok(rows[existing.value]);
      }
      var row := Match(NextId(rows), session, "", 0);
      rows := rows + [row];
      return Ok(row);
    }
  }

  // ----- Runs ----------------------------------------------------------------------------------

  datatype Event =
    | Create(deckName: Option<string>)
    | Update(id: nat, newName: Option<string>, otherFields: bool)
    | Record(session: nat)

  function Step(fold: Fold, rows: Matches, e: Event): Matches {
    match e
    case Create(deckName) => Created(fold, rows, deckName).0
    case Update(id, deckName, otherFields) => Updated(fold, rows, id, deckName, otherFields).0
    case Record(session) => Recorded(rows, session).0
  }

  function Run(fold: Fold, events: seq<Event>, n: nat): Matches
    requires n <= |events|
  {
    if n == 0 then [] else Step(fold, Run(fold, events, n - 1), events[n - 1])
  }

  /** The names an event stores are ones on which the two keys agree. */
  predicate CanonicalName(fold: Fold, deckName: Option<string>) {
    deckName.Some? && |Strip(deckName.value)| <= DECK_NAME_LIMIT ==>
      SqlKey(Strip(deckName.value)) == DeckKey(fold, Strip(deckName.value))
  }

  predicate Canonical(fold: Fold, e: Event) {
    match e
    case Create(deckName) => CanonicalName(fold, deckName)
    case Update(_, deckName, _) => CanonicalName(fold, deckName)
    case Record(_) => true
  }

  predicate AllCanonical(fold: Fold, events: seq<Event>) {
    forall i :: 0 <= i < |events| ==> Canonical(fold, events[i])
  }

  /** A named row has a positive number, an unnamed one has none, and the query sees the row's key. */
  predicate RowOk(fold: Fold, row: Match) {
    && Stripped(row.deckName)
    && (row.deckName == "" <==> row.deckNumber == 0)
    && SqlKey(row.deckName) == DeckKey(fold, row.deckName)
  }

  /** Two rows that play the same deck carry different numbers. */
  predicate Distinct(fold: Fold, a: Match, b: Match) {
    a.deckName != "" && DeckKey(fold, a.deckName) == DeckKey(fold, b.deckName) ==> a.deckNumber != b.deckNumber
  }

  predicate Invariant(fold: Fold, rows: Matches) {
    && Sorted(rows)
    && (forall k :: 0 <= k < |rows| ==> RowOk(fold, rows[k]))
    && (forall j, k :: 0 <= j < |rows| && 0 <= k < |rows| && j != k ==> Distinct(fold, rows[j], rows[k]))
  }

  /** The next number exceeds every number in use for the deck. */
  lemma NextNumberExceeds(fold: Fold, rows: Matches, name: string, exclude: Option<nat>, k: nat)
    requires k < |rows| && RowOk(fold, rows[k]) && Some(rows[k].id) != exclude
    requires DeckKey(fold, name) != "" && DeckKey(fold, rows[k].deckName) == DeckKey(fold, name)
    ensures rows[k].deckNumber < NextDeckNumber(fold, rows, name, exclude)
  {
    MaxNumberBounds(rows, DeckKey(fold, name), exclude, |rows|, k);
  }

  lemma AppendKeepsInvariant(fold: Fold, rows: Matches, row: Match)
    requires Invariant(fold, rows) && row.id == NextId(rows) && RowOk(fold, row)
    requires forall k :: 0 <= k < |rows| ==> Distinct(fold, rows[k], row) && Distinct(fold, row, rows[k])
    ensures Invariant(fold, rows + [row])
  {
    hide RowOk, Distinct;
    var after := rows + [row];
    forall k | 0 <= k < |after|
      ensures RowOk(fold, after[k])
    {
      assert after[k] == row || after[k] == rows[k];
    }
    forall j, k | 0 <= j < |after| && 0 <= k < |after| && j != k
      ensures Distinct(fold, after[j], after[k])
    {
      assert j < |rows| ==> after[j] == rows[j];
      assert k < |rows| ==> after[k] == rows[k];
    }
  }

  lemma ReplaceKeepsInvariant(fold: Fold, rows: Matches, k: nat, row: Match)
    requires Invariant(fold, rows) && k < |rows| && row.id == rows[k].id && RowOk(fold, row)
    requires forall j :: 0 <= j < |rows| && j != k ==> Distinct(fold, rows[j], row) && Distinct(fold, row, rows[j])
    ensures Invariant(fold, rows[k := row])
  {
  }

  lemma CreateKeepsInvariant(fold: Fold, rows: Matches, name: string)
    requires Invariant(fold, rows) && Stripped(name) && SqlKey(name) == DeckKey(fold, name)
    ensures Invariant(fold, rows + [CreatedNamed(fold, rows, name)])
  {
    var row := CreatedNamed(fold, rows, name);
    if name != "" {
      KeyOfName(fold, name);
      forall k | 0 <= k < |rows|
        ensures Distinct(fold, rows[k], row) && Distinct(fold, row, rows[k])
      {
        if DeckKey(fold, rows[k].deckName) == DeckKey(fold, name) {
          NextNumberExceeds(fold, rows, name, None, k);
        }
      }
    } else {
      forall k | 0 <= k < |rows|
        ensures Distinct(fold, rows[k], row)
      {
        if rows[k].deckName != "" {
          KeyOfName(fold, rows[k].deckName);
        }
      }
    }
    AppendKeepsInvariant(fold, rows, row);
  }

  lemma UpdateKeepsInvariant(fold: Fold, rows: Matches, k: nat, name: string)
    requires Invariant(fold, rows) && k < |rows| && Stripped(name) && SqlKey(name) == DeckKey(fold, name)
    ensures Invariant(fold, rows[k := rows[k].(deckName := name, deckNumber := EditedNumber(fold, rows, rows[k], name))])
  {
    var row := rows[k].(deckName := name, deckNumber := EditedNumber(fold, rows, rows[k], name));
    if name != "" {
      KeyOfName(fold, name);
    }
    forall j | 0 <= j < |rows| && j != k
      ensures Distinct(fold, rows[j], row) && Distinct(fold, row, rows[j])
    {
      if rows[j].deckName != "" {
        KeyOfName(fold, rows[j].deckName);
      }
      if name != "" && DeckKey(fold, rows[j].deckName) == DeckKey(fold, name) {
        if row.deckNumber != rows[k].deckNumber {
          NextNumberExceeds(fold, rows, name, Some(row.id), j);
        } else if DeckKey(fold, name) != DeckKey(fold, rows[k].deckName) || rows[k].deckNumber == 0 {
          NextNumberExceeds(fold, rows, name, Some(row.id), j);
        } else {
          KeyOfName(fold, name);
          assert Distinct(fold, rows[j], rows[k]) && Distinct(fold, rows[k], rows[j]);
        }
      }
    }
    ReplaceKeepsInvariant(fold, rows, k, row);
  }

  lemma StepKeepsInvariant(fold: Fold, rows: Matches, e: Event)
    requires Invariant(fold, rows) && Canonical(fold, e)
    ensures Invariant(fold, Step(fold, rows, e))
  {
    hide SqlKey, DeckKey, Invariant, Sorted, NextDeckNumber, EditedNumber, Recorded;
    EmptyNameIsCanonical(fold);
    match e
    case Create(deckName) =>
      var name := Strip(match deckName case None => "" case Some(d) => d);
      if |name| <= DECK_NAME_LIMIT {
        CreateKeepsInvariant(fold, rows, name);
      }
    case Update(id, deckName, otherFields) =>
      var place := Find(rows, id, 0);
      if place.Some? {
        if deckName.Some? && |Strip(deckName.value)| <= DECK_NAME_LIMIT {
          UpdateKeepsInvariant(fold, rows, place.value, Strip(deckName.value));
        } else if deckName.None? {
          assert rows[place.value := rows[place.value]] == rows;
        }
      }
    case Record(session) => RecordKeepsInvariant(fold, rows, session);
  }

  lemma EmptyNameIsCanonical(fold: Fold)
    ensures SqlKey("") == DeckKey(fold, "") && Strip("") == ""
  {
  }

  lemma RecordKeepsInvariant(fold: Fold, rows: Matches, session: nat)
    requires Invariant(fold, rows)
    ensures Invariant(fold, Recorded(rows, session).0)
  {
    hide FindSession;
    var row := Match(NextId(rows), session, "", 0);
    forall k | 0 <= k < |rows|
      ensures Distinct(fold, rows[k], row)
    {
      if rows[k].deckName != "" {
        KeyOfName(fold, rows[k].deckName);
      }
    }
    EmptyNameIsCanonical(fold);
    AppendKeepsInvariant(fold, rows, row);
  }

  lemma {:induction false} RunKeepsInvariant(fold: Fold, events: seq<Event>, n: nat)
    requires n <= |events| && AllCanonical(fold, events)
    ensures Invariant(fold, Run(fold, events, n))
  {
    if n > 0 {
      RunKeepsInvariant(fold, events, n - 1);
      StepKeepsInvariant(fold, Run(fold, events, n - 1), events[n - 1]);
    }
  }

  /**
   Deck numbers stay unique: after any creates and edits with names on which the two keys
   agree, matches of one deck carry pairwise distinct positive numbers, and the next
   number exceeds them all.
   */
  lemma DeckNumbersAreUnique(fold: Fold, events: seq<Event>, n: nat, j: nat, k: nat)
    requires n <= |events| && AllCanonical(fold, events) && j < |Run(fold, events, n)| && k < |Run(fold, events, n)| && j != k
    ensures var rows := Run(fold, events, n);
            && (rows[j].deckName != "" ==> rows[j].deckNumber >= 1)
            && (rows[j].deckName != "" && DeckKey(fold, rows[j].deckName) == DeckKey(fold, rows[k].deckName) ==>
                  && rows[j].deckNumber != rows[k].deckNumber
                  && rows[j].deckNumber < NextDeckNumber(fold, rows, rows[j].deckName, None))
  {
    RunKeepsInvariant(fold, events, n);
    var rows := Run(fold, events, n);
    assert RowOk(fold, rows[j]) && Distinct(fold, rows[j], rows[k]);
    if rows[j].deckName != "" {
      KeyOfName(fold, rows[j].deckName);
      NextNumberExceeds(fold, rows, rows[j].deckName, None, j);
    }
  }

  lemma EditedNumberIsStable(fold: Fold, rows: Matches, row: Match, name: string)
    requires Stripped(row.deckName) && (row.deckName == "" <==> row.deckNumber == 0) && Stripped(name)
    requires EditedNumber(fold, rows, row, name) != row.deckNumber
    ensures DeckKey(fold, name) != DeckKey(fold, row.deckName)
  {
    assert DeckKey(fold, "") == "";
    if row.deckName != "" {
      KeyOfName(fold, row.deckName);
    }
    if name != "" {
      KeyOfName(fold, name);
    }
  }

  lemma StepKeepsNumbers(fold: Fold, rows: Matches, e: Event, k: nat)
    requires k < |rows| && Sorted(rows) && RowOk(fold, rows[k])
    ensures var after := Step(fold, rows, e);
            && k < |after| && after[k].id == rows[k].id
            && (after[k].deckNumber != rows[k].deckNumber ==> DeckKey(fold, after[k].deckName) != DeckKey(fold, rows[k].deckName))
  {
    hide DeckKey, SqlKey, NextDeckNumber, EditedNumber;
    match e
    case Create(deckName) =>
      assert Created(fold, rows, deckName).0 == rows || Created(fold, rows, deckName).0[..|rows|] == rows;
    case Update(id, deckName, _) =>
      var place := Find(rows, id, 0);
      if deckName.Some? && place == Some(k) {
        var name := Strip(deckName.value);
        if EditedNumber(fold, rows, rows[k], name) != rows[k].deckNumber {
          EditedNumberIsStable(fold, rows, rows[k], name);
        }
      }
    case Record(session) =>
      assert Recorded(rows, session).0 == rows || Recorded(rows, session).0[..|rows|] == rows;
  }

  /** Deck numbers are stable: a step changes the number of a match only if it changes its deck key. */
  lemma DeckNumbersAreStable(fold: Fold, events: seq<Event>, n: nat, k: nat)
    requires n < |events| && AllCanonical(fold, events) && k < |Run(fold, events, n)|
    ensures var before, after := Run(fold, events, n), Run(fold, events, n + 1);
            && k < |after| && after[k].id == before[k].id
            && (after[k].deckNumber != before[k].deckNumber ==> DeckKey(fold, after[k].deckName) != DeckKey(fold, before[k].deckName))
  {
    RunKeepsInvariant(fold, events, n);
    StepKeepsNumbers(fold, Run(fold, events, n), events[n], k);
  }

  /**
   The exact condition, name by name: from any table, two matches created with the same
   deck name get different numbers if and only if the stored name is plain. With any other
   name the query never finds the first row, and the number repeats.
   */
  lemma CreatingTwiceIsUniqueExactly(fold: Fold, rows: Matches, name: string)
    requires Stripped(name) && name != ""
    ensures var first := CreatedNamed(fold, rows, name);
            var second := CreatedNamed(fold, rows + [first], name);
            first.deckNumber != second.deckNumber <==> Plain(fold, name)
  {
    hide DeckKey, SqlKey, Plain, Stripped;
    var first := CreatedNamed(fold, rows, name);
    var both := rows + [first];
    KeysAgree(fold, name);
    KeyOfName(fold, name);
    MaxNumberOfPrefix(rows, both, DeckKey(fold, name), None, |rows|);
    assert MaxNumber(both, DeckKey(fold, name), None, |both|) ==
           if SqlKey(name) == DeckKey(fold, name) then first.deckNumber else MaxNumber(rows, DeckKey(fold, name), None, |rows|);
  }

  // ----- Exactly which names keep numbers unique -------------------------------------------------

  ghost predicate UniqueNumbers(fold: Fold, rows: Matches) {
    forall j, k :: 0 <= j < k < |rows| ==> Distinct(fold, rows[j], rows[k])
  }

  predicate NameWithin(deckName: Option<string>, allowed: string -> bool) {
    deckName.Some? ==> allowed(deckName.value)
  }

  /** Every deck name that is sent is one of those allowed. */
  predicate NamesWithin(events: seq<Event>, allowed: string -> bool) {
    forall i :: 0 <= i < |events| ==>
      match events[i]
      case Create(deckName) => NameWithin(deckName, allowed)
      case Update(_, deckName, _) => NameWithin(deckName, allowed)
      case Record(_) => true
  }

  /** A name that is either refused as too long or stored as a plain one. */
  predicate Harmless(fold: Fold, deckName: string) {
    |Strip(deckName)| <= DECK_NAME_LIMIT ==> Plain(fold, Strip(deckName))
  }

  lemma HarmlessIsCanonical(fold: Fold, deckName: string)
    requires Harmless(fold, deckName)
    ensures CanonicalName(fold, Some(deckName))
  {
    hide SqlKey, DeckKey, Plain;
    KeysAgree(fold, Strip(deckName));
  }

  lemma HarmlessRunIsUnique(fold: Fold, events: seq<Event>, n: nat, allowed: string -> bool)
    requires n <= |events| && NamesWithin(events, allowed) && forall d :: allowed(d) ==> Harmless(fold, d)
    ensures UniqueNumbers(fold, Run(fold, events, n))
  {
    hide Harmless, CanonicalName, Run, Distinct, RowOk, Sorted;
    assert CanonicalName(fold, None) by {
      NoNameIsCanonical(fold);
    }
    forall d: string | allowed(d)
      ensures CanonicalName(fold, Some(d))
    {
      HarmlessIsCanonical(fold, d);
    }
    RunKeepsInvariant(fold, events, n);
  }

  lemma NoNameIsCanonical(fold: Fold)
    ensures CanonicalName(fold, None)
  {
  }

  /** Creating two matches with one harmful name gives both the same number. */
  lemma HarmfulNameRepeats(fold: Fold, deckName: string)
    requires !Harmless(fold, deckName)
    ensures !UniqueNumbers(fold, Run(fold, [Create(Some(deckName)), Create(Some(deckName))], 2))
  {
    hide DeckKey, SqlKey, Plain, NextDeckNumber;
    var events := [Create(Some(deckName)), Create(Some(deckName))];
    var name := Strip(deckName);
    EmptyNameIsCanonical(fold);
    KeysAgree(fold, name);
    var first := CreatedNamed(fold, [], name);
    var second := CreatedNamed(fold, [] + [first], name);
    CreatingTwiceIsUniqueExactly(fold, [], name);
    assert Run(fold, events, 1) == [] + [first];
    assert Run(fold, events, 2) == [first] + [second];
    assert !Distinct(fold, Run(fold, events, 2)[0], Run(fold, events, 2)[1]);
  }

  /**
   The exact condition for runs. Whatever deck names are allowed, the numbers stay unique
   in all runs if and only if each allowed name is plain once stripped, or refused as too
   long.
   */
  lemma DeckNumbersAreUniqueExactly(fold: Fold, allowed: string -> bool)
    ensures (forall events: seq<Event>, n: nat :: n <= |events| && NamesWithin(events, allowed) ==>
               UniqueNumbers(fold, Run(fold, events, n)))
            <==> (forall d :: allowed(d) ==> Harmless(fold, d))
  {
    hide Harmless, Run, UniqueNumbers;
    if d: string :| allowed(d) && !Harmless(fold, d) {
      HarmfulNameRepeats(fold, d);
      assert NamesWithin([Create(Some(d)), Create(Some(d))], allowed);
    } else {
      forall events: seq<Event>, n: nat | n <= |events| && NamesWithin(events, allowed)
        ensures UniqueNumbers(fold, Run(fold, events, n))
      {
        HarmlessRunIsUnique(fold, events, n, allowed);
      }
    }
  }

  /** Two matches created with the name from an empty table share their number. */
  ghost predicate Repeats(fold: Fold, deckName: string) {
    !UniqueNumbers(fold, Run(fold, [Create(Some(deckName)), Create(Some(deckName))], 2))
  }

  /**
   Ordinary names that repeat: two spaces in a row, an ideographic space, and a letter
   beyond ASCII that folds to another one, as upper-case and full-width letters do.
   */
  lemma NamesThatRepeat(fold: Fold, letter: char)
    requires !Space(letter) && fold(letter) != [LowerChar(letter)]
    ensures Repeats(fold, "a  b") && Repeats(fold, "a\U{3000}b") && Repeats(fold, [letter])
  {
    hide Run, UniqueNumbers;
    StripOfStripped("a  b");
    assert Space("a  b"[1]) && Space("a  b"[2]);
    StripOfStripped("a\U{3000}b");
    assert Space("a\U{3000}b"[1]) && "a\U{3000}b"[1] != ' ';
    StripOfStripped([letter]);
    assert [letter][0] == letter;
    HarmfulNameRepeats(fold, "a  b");
    HarmfulNameRepeats(fold, "a\U{3000}b");
    HarmfulNameRepeats(fold, [letter]);
  }

  lemma StripOfStripped(name: string)
    requires Stripped(name)
    ensures Strip(name) == name
  {
  }
}
