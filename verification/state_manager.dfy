/** `StateManager` and `InvoiceStateManager`: the ledgers that make the
    imports idempotent. Each ledger is a list of reservation ids kept as
    `sorted(list(set(ids)))`; marking an id adds it (and asks for a save),
    querying an id asks whether it is listed. Ids are trimmed first and an
    empty id is never marked nor reported as marked. The JSON file behind
    each ledger is replaced by the value it holds. */
module StateManager {
  import opened Base

  // ---------------------------------------------------------------------
  // Sorted id lists

  /** Increasing in Python's text order, hence free of duplicates. */
  predicate StrictlySorted(xs: seq<string>) {
    forall i, j :: 0 <= i < j < |xs| ==> LexLess(xs[i], xs[j])
  }

  /** `x` placed into a sorted list that lacks it. */
  function Insert(x: string, xs: seq<string>): (r: seq<string>)
    requires StrictlySorted(xs) && x !in xs
    ensures StrictlySorted(r)
    ensures forall y :: y in r <==> y == x || y in xs
    ensures |r| == |xs| + 1
  {
    if xs == [] then [x]
    else if LexLess(x, xs[0]) then
      assert forall j :: 0 < j < |xs| ==> LexLess(x, xs[j]) by {
        forall j | 0 < j < |xs| ensures LexLess(x, xs[j]) {
          LexLessTransitive(x, xs[0], xs[j]);
        }
      }
      [x] + xs
    else
      LexLessTotal(x, xs[0]);
      var rest := Insert(x, xs[1..]);
      assert forall y :: y in rest ==> LexLess(xs[0], y);
      [xs[0]] + rest
  }

  /** `sorted(list(set(xs)))`. */
  function SortedIds(xs: seq<string>): (r: seq<string>)
    ensures StrictlySorted(r)
    ensures forall y :: y in r <==> y in xs
  {
    if xs == [] then []
    else
      var r := SortedIds(xs[..|xs| - 1]);
      assert xs == xs[..|xs| - 1] + [xs[|xs| - 1]];
      if xs[|xs| - 1] in r then r else Insert(xs[|xs| - 1], r)
  }

  /** The head of a sorted list is below every other element. */
  lemma HeadIsLeast(a: seq<string>, y: string)
    requires StrictlySorted(a) && y in a
    ensures y == a[0] || LexLess(a[0], y)
  {
  }

  /** Two lists with the same elements are empty together. */
  lemma SameElementsEmpty(a: seq<string>, b: seq<string>)
    requires forall y :: y in a <==> y in b
    ensures a == [] <==> b == []
  {
    if a != [] {
      assert a[0] in b;
    }
    if b != [] {
      assert b[0] in a;
    }
  }

  /** A sorted duplicate-free list is determined by its elements: the
      ledger's stored form is unique. */
  lemma {:induction false} SortedUnique(a: seq<string>, b: seq<string>)
    requires StrictlySorted(a) && StrictlySorted(b)
    requires forall y :: y in a <==> y in b
    ensures a == b
  {
    SameElementsEmpty(a, b);
    if a != [] {
      assert a[0] in b;
      assert b[0] in a;
      HeadIsLeast(a, b[0]);
      HeadIsLeast(b, a[0]);
      if a[0] != b[0] {
        LexLessTransitive(a[0], b[0], a[0]);
        LexLessIrreflexive(a[0]);
        assert false;
      }
      forall y ensures y in a[1..] <==> y in b[1..] {
        LexLessIrreflexive(y);
        if y in a[1..] {
          assert y in b;
          HeadIsLeast(b, y);
        }
        if y in b[1..] {
          assert y in a;
          HeadIsLeast(a, y);
        }
      }
      SortedUnique(a[1..], b[1..]);
      assert a == [a[0]] + a[1..] && b == [b[0]] + b[1..];
    }
  }

  // ---------------------------------------------------------------------
  // One ledger

  /** The outcome of marking an id: the stored list afterwards and whether
      the file is written. */
  datatype Marking = Marking(ids: seq<string>, saved: bool)

  /** `mark_*`: trims the id; an empty id or one already listed changes
      nothing and writes nothing; a new id is added and the list is stored
      as `sorted(list(set(...)))` and saved. */
  function Mark(ids: seq<string>, raw: string): (r: Marking)
    ensures Strip(raw) == "" || Strip(raw) in ids ==> r == Marking(ids, false)
    ensures Strip(raw) != "" && Strip(raw) !in ids ==>
              r.saved && StrictlySorted(r.ids)
              && forall y :: y in r.ids <==> y in ids || y == Strip(raw)
  {
    var id := Strip(raw);
    if id == "" || id in ids then Marking(ids, false)
    else Marking(SortedIds(ids + [id]), true)
  }

  /** `already_*`: the trimmed id is non-empty and listed. */
  predicate Marked(ids: seq<string>, raw: string) {
    Strip(raw) != "" && Strip(raw) in ids
  }

  /** After marking, the id reads as marked exactly when it is non-empty,
      and every other id reads as before. */
  lemma MarkThenMarked(ids: seq<string>, raw: string, other: string)
    ensures Marked(Mark(ids, raw).ids, raw) <==> Strip(raw) != ""
    ensures Strip(other) != Strip(raw) ==> (Marked(Mark(ids, raw).ids, other) <==> Marked(ids, other))
  {
  }

  /** Marking the same id twice is the same as marking it once, and the
      second mark writes nothing. */
  lemma MarkTwice(ids: seq<string>, raw: string)
    ensures Mark(Mark(ids, raw).ids, raw) == Marking(Mark(ids, raw).ids, false)
  {
  }

  /** A saved ledger is always sorted and duplicate-free, whatever order
      the loaded list was in, and it is the one sorted list of its ids. */
  lemma SavedIsCanonical(ids: seq<string>, raw: string, stored: seq<string>)
    requires Mark(ids, raw).saved
    requires StrictlySorted(stored) && forall y :: y in stored <==> y in ids || y == Strip(raw)
    ensures Mark(ids, raw).ids == stored
  {
    SortedUnique(Mark(ids, raw).ids, stored);
  }

  /** A sorted ledger stays sorted under any mark. */
  lemma MarkKeepsSorted(ids: seq<string>, raw: string)
    requires StrictlySorted(ids)
    ensures StrictlySorted(Mark(ids, raw).ids)
  {
  }

  /** An empty or blank id is never marked, even if the loaded list holds
      an empty string. */
  lemma BlankNeverMarked(ids: seq<string>, raw: string)
    requires Blank(raw)
    ensures !Marked(ids, raw) && Mark(ids, raw) == Marking(ids, false)
  {
    StripEmptyIffBlank(raw);
  }

  // ---------------------------------------------------------------------
  // The two state managers

  /** `StateManager.state`: imported ids and ids whose notes are filled. */
  datatype State = State(importedIds: seq<string>, notesFilled: seq<string>)

  /** `StateManager._empty_state()`. */
  const EmptyState: State := State([], [])

  /** `mark_imported`: the notes ledger is untouched. */
  function MarkImported(st: State, raw: string): (r: (State, bool))
    ensures r.0.notesFilled == st.notesFilled
    ensures Marking(r.0.importedIds, r.1) == Mark(st.importedIds, raw)
  {
    var m := Mark(st.importedIds, raw);
    (st.(importedIds := m.ids), m.saved)
  }

  /** `mark_notes_filled`: the import ledger is untouched. */
  function MarkNotesFilled(st: State, raw: string): (r: (State, bool))
    ensures r.0.importedIds == st.importedIds
    ensures Marking(r.0.notesFilled, r.1) == Mark(st.notesFilled, raw)
  {
    var m := Mark(st.notesFilled, raw);
    (st.(notesFilled := m.ids), m.saved)
  }

  predicate AlreadyImported(st: State, raw: string) {
    Marked(st.importedIds, raw)
  }

  predicate NotesAlreadyFilled(st: State, raw: string) {
    Marked(st.notesFilled, raw)
  }

  /** Importing a reservation says nothing about its notes, and filling
      its notes says nothing about its import. */
  lemma LedgersIndependent(st: State, raw: string, q: string)
    ensures NotesAlreadyFilled(MarkImported(st, raw).0, q) == NotesAlreadyFilled(st, q)
    ensures AlreadyImported(MarkNotesFilled(st, raw).0, q) == AlreadyImported(st, q)
  {
  }

  /** `InvoiceStateManager.state`; only the first list is ever written. */
  datatype InvoiceState = InvoiceState(importedInvoiceIds: seq<string>, notesFilledInvoiceIds: seq<string>)

  const EmptyInvoiceState: InvoiceState := InvoiceState([], [])

  /** `mark_invoice_imported`. */
  function MarkInvoiceImported(st: InvoiceState, raw: string): (r: (InvoiceState, bool))
    ensures r.0.notesFilledInvoiceIds == st.notesFilledInvoiceIds
    ensures Marking(r.0.importedInvoiceIds, r.1) == Mark(st.importedInvoiceIds, raw)
  {
    var m := Mark(st.importedInvoiceIds, raw);
    (st.(importedInvoiceIds := m.ids), m.saved)
  }

  predicate InvoiceAlreadyImported(st: InvoiceState, raw: string) {
    Marked(st.importedInvoiceIds, raw)
  }

  /** The invoice ledger answers as the import ledger does. */
  lemma InvoiceMarkThenMarked(st: InvoiceState, raw: string)
    ensures InvoiceAlreadyImported(MarkInvoiceImported(st, raw).0, raw) <==> Strip(raw) != ""
    ensures MarkInvoiceImported(MarkInvoiceImported(st, raw).0, raw).1 == false
  {
    MarkThenMarked(st.importedInvoiceIds, raw, raw);
    MarkTwice(st.importedInvoiceIds, raw);
  }
}
