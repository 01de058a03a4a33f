/** The transaction state container (`TransactionProvider`): the one
    authoritative list of transactions with its `loading` and `error` flags,
    changed only when a remote call completes. Each remote call is given by
    how it completed (`Completion`), in place of the `fetch`. */
module TransactionContext {
  import opened Common

  const LoadErrorMessage: string := "Could not load transactions. Check backend or network."

  /** `{...record, amount: Number(record.amount) || 0}`. */
  function CoerceRecord(r: ServerRecord): Transaction
  {
    Transaction(r.id, r.date, r.when, r.source, Coerce(r.amount), r.category, r.description, r.kind)
  }

  /** The list installed by a successful initial load: the server's records,
      in the server's order, each with its amount coerced to a number. */
  function LoadList(rs: seq<ServerRecord>): (ts: seq<Transaction>)
    ensures |ts| == |rs|
    ensures forall i :: 0 <= i < |rs| ==>
      && ts[i].id == rs[i].id && ts[i].date == rs[i].date && ts[i].when == rs[i].when
      && ts[i].source == rs[i].source && ts[i].category == rs[i].category
      && ts[i].description == rs[i].description && ts[i].kind == rs[i].kind
      && ts[i].amount == (if rs[i].amount.Some? then rs[i].amount.value else 0.0)
  {
    seq(|rs|, i requires 0 <= i < |rs| => CoerceRecord(rs[i]))
  }

  /** The record a successful create or update installs: the server's
      record with its amount coerced and its description taken from the
      server, else from the request body, else "". */
  function Normalize(r: ServerRecord, requested: string): (t: Transaction)
    ensures t.id == r.id && t.amount == Coerce(r.amount)
    ensures t.date == r.date && t.when == r.when && t.source == r.source
    ensures t.category == r.category && t.kind == r.kind
    ensures t.description == (if r.description != "" then r.description else requested)
  {
    var t := CoerceRecord(r);
    t.(description := OrElse(r.description, OrElse(requested, "")))
  }

  /** `prev.map(t => t._id === u._id ? u : t)`: every entry carrying the id
      of `u` is replaced by `u`; every other entry keeps its value and its
      position. */
  function ReplaceById(ts: seq<Transaction>, u: Transaction): (r: seq<Transaction>)
    ensures |r| == |ts|
    ensures forall i :: 0 <= i < |ts| ==> r[i] == (if ts[i].id == u.id then u else ts[i])
  {
    seq(|ts|, i requires 0 <= i < |ts| => if ts[i].id == u.id then u else ts[i])
  }

  /** An update whose id matches no entry changes nothing. */
  lemma ReplaceByIdNoMatch(ts: seq<Transaction>, u: Transaction)
    requires forall i :: 0 <= i < |ts| ==> ts[i].id != u.id
    ensures ReplaceById(ts, u) == ts
  {
  }

  /** `prev.filter(t => t._id !== id)`. */
  function RemoveById(ts: seq<Transaction>, id: string): (r: seq<Transaction>)
    ensures |r| <= |ts|
    ensures forall i :: 0 <= i < |r| ==> r[i].id != id
  {
    if ts == [] then []
    else RemoveById(ts[..|ts| - 1], id) + (if ts[|ts| - 1].id == id then [] else [ts[|ts| - 1]])
  }

  /** Removal works piece by piece: removing from a concatenation removes
      from each part and keeps the parts in order. With the one-entry case
      this says that the survivors keep their relative order. */
  lemma {:induction false} RemoveByIdAppend(a: seq<Transaction>, b: seq<Transaction>, id: string)
    ensures RemoveById(a + b, id) == RemoveById(a, id) + RemoveById(b, id)
    decreases |b|
  {
    if b == [] {
      assert a + b == a;
    } else {
      var n := |b| - 1;
      assert (a + b)[..|a + b| - 1] == a + b[..n];
      RemoveByIdAppend(a, b[..n], id);
    }
  }

  /** One entry survives removal exactly when its id differs. */
  lemma RemoveByIdSingle(t: Transaction, id: string)
    ensures RemoveById([t], id) == (if t.id == id then [] else [t])
  {
    assert [t][..0] == [];
  }

  /** Every entry whose id differs survives. */
  lemma {:induction false} RemoveByIdKeeps(ts: seq<Transaction>, id: string, i: nat)
    requires i < |ts| && ts[i].id != id
    ensures ts[i] in RemoveById(ts, id)
  {
    var n := |ts| - 1;
    if i < n {
      RemoveByIdKeeps(ts[..n], id, i);
    }
  }

  /** Deleting an id that no entry carries changes nothing. */
  lemma {:induction false} RemoveByIdAbsent(ts: seq<Transaction>, id: string)
    requires forall i :: 0 <= i < |ts| ==> ts[i].id != id
    ensures RemoveById(ts, id) == ts
  {
    if ts != [] {
      RemoveByIdAbsent(ts[..|ts| - 1], id);
    }
  }

  /** Deleting twice is deleting once. */
  lemma RemoveByIdIdempotent(ts: seq<Transaction>, id: string)
    ensures RemoveById(RemoveById(ts, id), id) == RemoveById(ts, id)
  {
    RemoveByIdAbsent(RemoveById(ts, id), id);
  }

  /** An update that completes after a delete of the same id finds nothing
      to replace: it does not bring the deleted entry back. */
  lemma UpdateAfterDelete(ts: seq<Transaction>, u: Transaction)
    ensures ReplaceById(RemoveById(ts, u.id), u) == RemoveById(ts, u.id)
    ensures forall i :: 0 <= i < |RemoveById(ts, u.id)| ==> RemoveById(ts, u.id)[i].id != u.id
  {
    ReplaceByIdNoMatch(RemoveById(ts, u.id), u);
  }

  class TransactionStore {
    var transactions: seq<Transaction>
    var loading: bool
    var error: Option<string>

    /** `useState([])`, `useState(true)`, `useState(null)`. */
    constructor()
      ensures transactions == [] && loading && error == None
    {
      transactions := [];
      loading := true;
      error := None;
    }

    /** The mount-time fetch: on success the list becomes the coerced
        server list and the error is cleared; on failure the list stays and
        the fixed message is set; `loading` is false afterwards either way. */
    method Load(c: Completion<seq<ServerRecord>>)
      modifies this
      ensures !loading
      ensures Settle(c).Success? ==> transactions == LoadList(Settle(c).value) && error == None
      ensures Settle(c).Failure? ==> transactions == old(transactions) && error == Some(LoadErrorMessage)
    {
      loading := true;
      match Settle(c) {
        case Success(data) =>
          transactions := LoadList(data);
          error := None;
        case Failure =>
          error := Some(LoadErrorMessage);
      }
      loading := false;
    }

    /** `addTransaction`: a confirmed create appends the normalized record;
        a failed one is only logged. Neither touches `loading` or `error`. */
    method Add(draft: Draft, c: Completion<ServerRecord>)
      modifies this
      ensures loading == old(loading) && error == old(error)
      ensures Settle(c).Success? ==>
        transactions == old(transactions) + [Normalize(Settle(c).value, DraftDescription(draft))]
      ensures Settle(c).Failure? ==> transactions == old(transactions)
    {
      match Settle(c)
      case Success(created) =>
        transactions := transactions + [Normalize(created, DraftDescription(draft))];
      case Failure =>
    }

    /** `updateTransaction`: a confirmed update replaces the entries whose id
        is the id of the record the server returned (the `id` argument only
        addresses the request); a failed one changes nothing. */
    method Update(id: string, data: Draft, c: Completion<ServerRecord>)
      modifies this
      ensures loading == old(loading) && error == old(error)
      ensures Settle(c).Success? ==>
        transactions == ReplaceById(old(transactions), Normalize(Settle(c).value, DraftDescription(data)))
      ensures Settle(c).Failure? ==> transactions == old(transactions)
    {
      match Settle(c)
      case Success(updated) =>
        transactions := ReplaceById(transactions, Normalize(updated, DraftDescription(data)));
      case Failure =>
    }

    /** `deleteTransaction`: the entries carrying `id` go only when the
        response is ok and its body parses as JSON; otherwise nothing
        changes. */
    method Delete(id: string, c: Completion<()>)
      modifies this
      ensures loading == old(loading) && error == old(error)
      ensures c.Response? && c.ok && c.body.Some? ==> transactions == RemoveById(old(transactions), id)
      ensures !(c.Response? && c.ok && c.body.Some?) ==> transactions == old(transactions)
    {
      match Settle(c)
      case Success(_) =>
        transactions := RemoveById(transactions, id);
      case Failure =>
    }
  }

  /** Mounting the provider: the initial state followed by the initial
      fetch. After a failed fetch the list is still the initial empty one. */
  method Mount(c: Completion<seq<ServerRecord>>) returns (store: TransactionStore)
    ensures !store.loading
    ensures Settle(c).Success? ==> store.transactions == LoadList(Settle(c).value) && store.error == None
    ensures Settle(c).Failure? ==> store.transactions == [] && store.error == Some(LoadErrorMessage)
  {
    store := new TransactionStore();
    store.Load(c);
  }
}
