/** The transaction table: its sort state and the sorted copy of the list it
    displays, and the inline edit buffer with its save and cancel. */
module TransactionTable {
  import opened Common
  import opened Text
  import TransactionContext

  datatype Column = Date | Source | Amount | Category | Description | Type

  datatype Direction = Asc | Desc

  /** The value a column holds: text, or the number in the amount column. */
  datatype Key = Words(s: string) | Number(r: real)

  function KeyOf(t: Transaction, col: Column): Key
  {
    match col
    case Date => Words(t.date)
    case Source => Words(t.source)
    case Amount => Number(t.amount)
    case Category => Words(t.category)
    case Description => Words(t.description)
    case Type => Words(t.kind)
  }

  /** JavaScript's `<` on two values of one column. */
  predicate KeyLess(a: Key, b: Key)
  {
    match (a, b)
    case (Words(x), Words(y)) => LexLess(x, y)
    case (Number(x), Number(y)) => x < y
    case _ => false
  }

  lemma KeyLessOrder(a: Key, b: Key, c: Key)
    ensures !KeyLess(a, a)
    ensures KeyLess(a, b) && KeyLess(b, c) ==> KeyLess(a, c)
    ensures KeyLess(a, b) ==> !KeyLess(b, a)
  {
    if a.Words? {
      LexLessIrreflexive(a.s);
      if b.Words? && c.Words? && KeyLess(a, b) && KeyLess(b, c) {
        LexLessTransitive(a.s, b.s, c.s);
      }
      if b.Words? && KeyLess(a, b) {
        LexLessAsymmetric(a.s, b.s);
      }
    }
  }

  /** Two different values of one column are ordered one way or the other. */
  lemma KeyLessTotal(t: Transaction, u: Transaction, col: Column)
    requires KeyOf(t, col) != KeyOf(u, col)
    ensures KeyLess(KeyOf(t, col), KeyOf(u, col)) || KeyLess(KeyOf(u, col), KeyOf(t, col))
  {
    if col != Amount {
      LexLessTotal(KeyOf(t, col).s, KeyOf(u, col).s);
    }
  }

  /** The comparator of `sortedTransactions`: 0 with no sort column;
      otherwise 1 when `a` goes after `b` and -1 in every other case, equal
      values included. */
  function Compare(a: Transaction, b: Transaction, col: Option<Column>, dir: Direction): (r: int)
    ensures col.None? ==> r == 0
    ensures col.Some? && dir == Asc ==> (r == 1 <==> KeyLess(KeyOf(b, col.value), KeyOf(a, col.value)))
    ensures col.Some? && dir == Desc ==> (r == 1 <==> KeyLess(KeyOf(a, col.value), KeyOf(b, col.value)))
    ensures col.Some? ==> r == 1 || r == -1
  {
    match col
    case None => 0
    case Some(c) =>
      if dir == Asc then (if KeyLess(KeyOf(b, c), KeyOf(a, c)) then 1 else -1)
      else (if KeyLess(KeyOf(a, c), KeyOf(b, c)) then 1 else -1)
  }

  /** Insertion of one transaction before the first one it does not go
      after. */
  function Insert(t: Transaction, ts: seq<Transaction>, col: Option<Column>, dir: Direction): seq<Transaction>
  {
    if ts == [] then [t]
    else if Compare(t, ts[0], col, dir) <= 0 then [t] + ts
    else [ts[0]] + Insert(t, ts[1..], col, dir)
  }

  /** `[...transactions].sort(comparator)`: a sorted copy. */
  function SortedTransactions(ts: seq<Transaction>, col: Option<Column>, dir: Direction): seq<Transaction>
  {
    if ts == [] then [] else Insert(ts[0], SortedTransactions(ts[1..], col, dir), col, dir)
  }

  /** With no sort column the copy keeps the list's order. */
  lemma {:induction false} UnsortedKeepsOrder(ts: seq<Transaction>, dir: Direction)
    ensures SortedTransactions(ts, None, dir) == ts
  {
    if ts != [] {
      UnsortedKeepsOrder(ts[1..], dir);
      assert [ts[0]] + ts[1..] == ts;
    }
  }

  lemma {:induction false} InsertPermutes(t: Transaction, ts: seq<Transaction>, col: Option<Column>, dir: Direction)
    ensures multiset(Insert(t, ts, col, dir)) == multiset(ts) + multiset{t}
  {
    if ts != [] && Compare(t, ts[0], col, dir) > 0 {
      InsertPermutes(t, ts[1..], col, dir);
      assert ts == [ts[0]] + ts[1..];
    }
  }

  /** The sorted copy holds the same transactions, each as often. */
  lemma {:induction false} SortedPermutes(ts: seq<Transaction>, col: Option<Column>, dir: Direction)
    ensures multiset(SortedTransactions(ts, col, dir)) == multiset(ts)
  {
    if ts != [] {
      SortedPermutes(ts[1..], col, dir);
      InsertPermutes(ts[0], SortedTransactions(ts[1..], col, dir), col, dir);
      assert ts == [ts[0]] + ts[1..];
    }
  }

  /** `a` is shown strictly before `b` in the chosen direction. */
  predicate Before(a: Transaction, b: Transaction, col: Column, dir: Direction)
  {
    if dir == Asc then KeyLess(KeyOf(a, col), KeyOf(b, col)) else KeyLess(KeyOf(b, col), KeyOf(a, col))
  }

  ghost predicate StrictlySorted(ts: seq<Transaction>, col: Column, dir: Direction)
  {
    forall i, j :: 0 <= i < j < |ts| ==> Before(ts[i], ts[j], col, dir)
  }

  ghost predicate DistinctKeys(ts: seq<Transaction>, col: Column)
  {
    forall i, j :: 0 <= i < j < |ts| ==> KeyOf(ts[i], col) != KeyOf(ts[j], col)
  }

  lemma {:induction false} InsertMembers(t: Transaction, ts: seq<Transaction>, col: Option<Column>, dir: Direction)
    ensures forall x :: x in Insert(t, ts, col, dir) ==> x == t || x in ts
  {
    if ts != [] && Compare(t, ts[0], col, dir) > 0 {
      InsertMembers(t, ts[1..], col, dir);
    }
  }

  /** With distinct values, a transaction the comparator does not put after
      another is strictly before it. */
  lemma CompareBefore(a: Transaction, b: Transaction, col: Column, dir: Direction)
    requires KeyOf(a, col) != KeyOf(b, col)
    ensures Compare(a, b, Some(col), dir) <= 0 <==> Before(a, b, col, dir)
    ensures Compare(a, b, Some(col), dir) > 0 <==> Before(b, a, col, dir)
  {
    KeyLessTotal(a, b, col);
    KeyLessOrder(KeyOf(a, col), KeyOf(b, col), KeyOf(a, col));
  }

  lemma InsertSortedTail(t: Transaction, ts: seq<Transaction>, col: Column, dir: Direction)
    requires ts != [] && Before(ts[0], t, col, dir)
    requires StrictlySorted(ts, col, dir)
    requires StrictlySorted(Insert(t, ts[1..], Some(col), dir), col, dir)
    requires Compare(t, ts[0], Some(col), dir) > 0
    ensures StrictlySorted(Insert(t, ts, Some(col), dir), col, dir)
  {
    var ins := Insert(t, ts[1..], Some(col), dir);
    InsertMembers(t, ts[1..], Some(col), dir);
    forall x | x in ins ensures Before(ts[0], x, col, dir) {
      if x != t {
        var j :| 0 <= j < |ts[1..]| && ts[1..][j] == x;
        assert ts[j + 1] == x;
      }
    }
    var res := [ts[0]] + ins;
    assert res == Insert(t, ts, Some(col), dir);
    forall i, j | 0 <= i < j < |res| ensures Before(res[i], res[j], col, dir) {
      assert res[j] == ins[j - 1];
      if i > 0 {
        assert res[i] == ins[i - 1];
      } else {
        assert res[j] in ins;
      }
    }
  }

  lemma {:induction false} InsertSorted(t: Transaction, ts: seq<Transaction>, col: Column, dir: Direction)
    requires StrictlySorted(ts, col, dir)
    requires forall i :: 0 <= i < |ts| ==> KeyOf(ts[i], col) != KeyOf(t, col)
    ensures StrictlySorted(Insert(t, ts, Some(col), dir), col, dir)
  {
    if ts != [] {
      CompareBefore(t, ts[0], col, dir);
      if Compare(t, ts[0], Some(col), dir) <= 0 {
        var res := [t] + ts;
        forall i, j | 0 <= i < j < |res| ensures Before(res[i], res[j], col, dir) {
          if i == 0 {
            if j > 1 {
              KeyLessOrder(KeyOf(t, col), KeyOf(ts[0], col), KeyOf(ts[j - 1], col));
              KeyLessOrder(KeyOf(ts[j - 1], col), KeyOf(ts[0], col), KeyOf(t, col));
            }
          }
        }
      } else {
        InsertSorted(t, ts[1..], col, dir);
        InsertSortedTail(t, ts, col, dir);
      }
    }
  }

  /** With distinct values in the sort column, ascending order is strictly
      increasing and descending order strictly decreasing. */
  lemma {:induction false} SortedStrictly(ts: seq<Transaction>, col: Column, dir: Direction)
    requires DistinctKeys(ts, col)
    ensures StrictlySorted(SortedTransactions(ts, Some(col), dir), col, dir)
  {
    if ts != [] {
      var tail := ts[1..];
      SortedStrictly(tail, col, dir);
      var s := SortedTransactions(tail, Some(col), dir);
      SortedPermutes(tail, Some(col), dir);
      forall i | 0 <= i < |s| ensures KeyOf(s[i], col) != KeyOf(ts[0], col) {
        assert s[i] in multiset(tail);
        var j :| 0 <= j < |tail| && tail[j] == s[i];
        assert tail[j] == ts[j + 1];
      }
      InsertSorted(ts[0], s, col, dir);
    }
  }

  // ---------------------------------------------------------------------
  // Sort state

  function Flip(d: Direction): Direction
  {
    if d == Asc then Desc else Asc
  }

  /** `handleSort`: the same column flips the direction, another column is
      selected in ascending order. */
  function SortStep(col: Option<Column>, dir: Direction, clicked: Column): (r: (Option<Column>, Direction))
    ensures r.0 == Some(clicked)
    ensures col == Some(clicked) ==> r.1 != dir
    ensures col != Some(clicked) ==> r.1 == Asc
  {
    if col == Some(clicked) then (col, Flip(dir)) else (Some(clicked), Asc)
  }

  /** Clicking the sorted column twice restores its direction. */
  lemma SortStepTwice(dir: Direction, clicked: Column)
    ensures var (c1, d1) := SortStep(Some(clicked), dir, clicked);
      SortStep(c1, d1, clicked) == (Some(clicked), dir)
  {
  }

  /** Clicking a new column twice sorts it in descending order. */
  lemma SortStepNewTwice(col: Option<Column>, dir: Direction, clicked: Column)
    requires col != Some(clicked)
    ensures var (c1, d1) := SortStep(col, dir, clicked);
      SortStep(c1, d1, clicked) == (Some(clicked), Desc)
  {
  }

  // ---------------------------------------------------------------------
  // Edit buffer

  /** `editData`; `kind` is `None` once a save has reset the buffer without
      a `type` field. */
  datatype EditBuffer = EditBuffer(
    date: string, source: string, amount: string, category: string, description: string, kind: Option<string>)

  const ClearedBuffer: EditBuffer := EditBuffer("", "", "", "", "", Some(""))

  /** `i` is the position of the first transaction with the id. */
  ghost predicate FirstWithId(ts: seq<Transaction>, id: string, i: int)
  {
    0 <= i < |ts| && ts[i].id == id && forall j :: 0 <= j < i ==> ts[j].id != id
  }

  /** `transactions.find(t => t._id === id)`: the first transaction with the
      id, if any. */
  function FindById(ts: seq<Transaction>, id: string): (r: Option<Transaction>)
    ensures r.None? <==> forall i :: 0 <= i < |ts| ==> ts[i].id != id
    ensures r.Some? ==> exists i :: FirstWithId(ts, id, i) && ts[i] == r.value
  {
    if ts == [] then None
    else if ts[0].id == id then Some(ts[0])
    else
      var r := FindById(ts[1..], id);
      assert r.Some? ==> exists i :: FirstWithId(ts, id, i) && ts[i] == r.value by {
        if r.Some? {
          var i :| FirstWithId(ts[1..], id, i) && ts[1..][i] == r.value;
          assert FirstWithId(ts, id, i + 1);
        }
      }
      r
  }

  class TableState {
    var sortColumn: Option<Column>
    var sortDirection: Direction
    var editingIndex: Option<string>
    var editData: EditBuffer

    constructor()
      ensures sortColumn == None && sortDirection == Asc
      ensures editingIndex == None && editData == ClearedBuffer
    {
      sortColumn := None;
      sortDirection := Asc;
      editingIndex := None;
      editData := ClearedBuffer;
    }

    /** `handleSort`; the edit state is untouched. */
    method HandleSort(column: Column)
      modifies this
      ensures (sortColumn, sortDirection) == SortStep(old(sortColumn), old(sortDirection), column)
      ensures editingIndex == old(editingIndex) && editData == old(editData)
    {
      if sortColumn == Some(column) {
        sortDirection := if sortDirection == Asc then Desc else Asc;
      } else {
        sortColumn := Some(column);
        sortDirection := Asc;
      }
    }

    /** `handleEdit`: for an id in the list, the first transaction with that
        id fills the buffer, its amount as text; for any other id nothing
        changes. */
    method HandleEdit(ts: seq<Transaction>, id: string, show: real -> string)
      modifies this
      ensures sortColumn == old(sortColumn) && sortDirection == old(sortDirection)
      ensures FindById(ts, id).None? ==> editingIndex == old(editingIndex) && editData == old(editData)
      ensures FindById(ts, id).Some? ==>
        var t := FindById(ts, id).value;
        editingIndex == Some(id) && editData == EditBuffer(t.date, t.source, show(t.amount), t.category, t.description, Some(t.kind))
    {
      var found := FindById(ts, id);
      if found.Some? {
        var t := found.value;
        editingIndex := Some(id);
        editData := EditBuffer(t.date, t.source, show(t.amount), t.category, t.description, Some(t.kind));
      }
    }

    /** `handleSaveEdit`: with an edit in progress, sends the buffer with the
        currency signs stripped from the amount and the rest converted by
        `Number` (`toNumber`), to update the transaction being edited; then
        ends the edit and clears the buffer, this time without a type. With
        no edit in progress, nothing happens. */
    method HandleSaveEdit(store: TransactionContext.TransactionStore, toNumber: string -> Option<real>,
                          c: Completion<ServerRecord>)
      returns (sent: Option<(string, Draft)>)
      modifies this, store
      ensures sortColumn == old(sortColumn) && sortDirection == old(sortDirection)
      ensures old(editingIndex).None? ==>
        && sent.None? && editingIndex == None && editData == old(editData)
        && store.transactions == old(store.transactions)
      ensures old(editingIndex).Some? ==>
        && sent == Some((old(editingIndex).value, SaveDraft(old(editData), toNumber)))
        && editingIndex == None && editData == ClearedBuffer.(kind := None)
        && (Settle(c).Success? ==>
              store.transactions == TransactionContext.ReplaceById(old(store.transactions),
                TransactionContext.Normalize(Settle(c).value, DraftDescription(sent.value.1))))
        && (Settle(c).Failure? ==> store.transactions == old(store.transactions))
      ensures store.loading == old(store.loading) && store.error == old(store.error)
    {
      if editingIndex != None {
        var updated := SaveDraft(editData, toNumber);
        sent := Some((editingIndex.value, updated));
        store.Update(editingIndex.value, updated, c);
        editingIndex := None;
        editData := ClearedBuffer.(kind := None);
      } else {
        sent := None;
      }
    }

    /** `handleCancelEdit`: always ends the edit and clears the buffer. */
    method HandleCancelEdit()
      modifies this
      ensures editingIndex == None && editData == ClearedBuffer
      ensures sortColumn == old(sortColumn) && sortDirection == old(sortDirection)
    {
      editingIndex := None;
      editData := ClearedBuffer;
    }
  }

  /** `{...editData, amount: Number(editData.amount.replace(/[$₹]/g, ""))}`:
      the request body of a save; the number is read from the amount text
      without any currency sign. */
  function SaveDraft(b: EditBuffer, toNumber: string -> Option<real>): (d: Draft)
    ensures d.amount == Num(toNumber(StripCurrency(b.amount)))
    ensures d.date == b.date && d.source == b.source && d.category == b.category
    ensures d.description == Some(b.description) && d.kind == b.kind && d.stamp.None?
  {
    Draft(b.date, b.source, Num(toNumber(StripCurrency(b.amount))), b.category, Some(b.description), b.kind, None)
  }

  /** The amount text of a save is read once the signs are gone: a sign
      anywhere in it makes no difference to the number sent. */
  lemma SaveIgnoresCurrencySigns(b: EditBuffer, toNumber: string -> Option<real>, pre: string, post: string, sign: char)
    requires IsCurrencySign(sign)
    requires b.amount == pre + [sign] + post
    ensures SaveDraft(b, toNumber).amount == SaveDraft(b.(amount := pre + post), toNumber).amount
  {
    StripCurrencyAppend(pre + [sign], post);
    StripCurrencyAppend(pre, [sign]);
    StripCurrencyAppend(pre, post);
    assert [sign][1..] == [];
    assert StripCurrency([sign]) == [];
    assert StripCurrency(b.amount) == StripCurrency(pre + post);
  }
}
