/** The older income page: a list of entries kept in local storage, an
    append operation and four summary figures. */
module IncomePage {
  import opened Common

  datatype Stats = Stats(total: real, thisMonth: real, topSource: string, averageMonthly: real)

  /** `totalIncome`, `thisMonthIncome`, `topSource` and `averageMonthly`. */
  function PageStats(es: seq<Entry>): (s: Stats)
    ensures s.total == EntryTotal(es)
    ensures s.thisMonth == s.total
    ensures s.topSource == (if |es| > 0 then es[0].source else "")
    ensures |es| > 0 ==> s.averageMonthly * (|es| as real) == s.total
    ensures |es| == 0 ==> s.total == 0.0 && s.averageMonthly == 0.0
  {
    var total := EntryTotal(es);
    Stats(total, total, if |es| > 0 then es[0].source else "",
          if |es| > 0 then total / (|es| as real) else 0.0)
  }

  /** Adding an entry raises the total by its amount (0 when not numeric)
      and keeps the top source of a non-empty list. */
  lemma AddedEntryStats(es: seq<Entry>, e: Entry)
    ensures PageStats(es + [e]).total == PageStats(es).total + Coerce(e.amount)
    ensures |es| > 0 ==> PageStats(es + [e]).topSource == PageStats(es).topSource
    ensures |es| == 0 ==> PageStats(es + [e]).topSource == e.source
  {
    EntryTotalAppend(es, e);
  }

  class Page {
    var entries: seq<Entry>
    /** The "incomeEntries" storage item, once written. */
    var stored: Option<seq<Entry>>

    /** Mounting: the saved list, if there is one, replaces the empty
        initial list, and the write-back effect stores the current list. */
    constructor(saved: Option<seq<Entry>>)
      ensures entries == (if saved.Some? then saved.value else [])
      ensures stored == Some(entries)
    {
      entries := if saved.Some? then saved.value else [];
      stored := Some(entries);
    }

    /** `addIncome`: the new entry, its id replaced by `now`, goes last;
        earlier entries are unchanged; storage follows. */
    method AddIncome(newEntry: Entry, now: int)
      modifies this
      ensures entries == old(entries) + [newEntry.(id := now)]
      ensures stored == Some(entries)
    {
      entries := entries + [newEntry.(id := now)];
      stored := Some(entries);
    }
  }
}
