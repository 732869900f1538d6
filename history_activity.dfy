/**
 * `HistoryActivity`: the history screen. It loads every history row
 * newest first, shows their number, and lets three buttons narrow the list
 * to one status.
 */
module HistoryScreen {
  import opened Base
  import opened Text
  import opened Database

  const FILTER_ALL: string := "All"
  const TOTAL_PREFIX: string := "Total medicines taken: "

  /** The three filter buttons. */
  datatype FilterButton = AllButton | TakenButton | MissedButton

  /** The filter each button selects. */
  function FilterOf(button: FilterButton): (f: string)
    ensures f == FILTER_ALL <==> button == AllButton
    ensures f == STATUS_TAKEN <==> button == TakenButton
    ensures f == STATUS_MISSED <==> button == MissedButton
  {
    match button
    case AllButton => FILTER_ALL
    case TakenButton => STATUS_TAKEN
    case MissedButton => STATUS_MISSED
  }

  /** The button `updateFilterButtons` highlights for a filter; a filter none of them names highlights none. */
  function HighlightFor(filter: string): (r: Option<FilterButton>)
    ensures r.Some? <==> filter in {FILTER_ALL, STATUS_TAKEN, STATUS_MISSED}
    ensures r.Some? ==> FilterOf(r.value) == filter
  {
    if filter == FILTER_ALL then Some(AllButton)
    else if filter == STATUS_TAKEN then Some(TakenButton)
    else if filter == STATUS_MISSED then Some(MissedButton)
    else None
  }

  /** The items whose status is exactly `status`, in their original order. */
  function WithStatus(items: seq<HistoryItem>, status: string): (r: seq<HistoryItem>)
    ensures |r| <= |items|
  {
    if items == [] then []
    else
      var last := items[|items| - 1];
      WithStatus(items[..|items| - 1], status) + (if last.status == status then [last] else [])
  }

  /** An item is kept exactly when it is in the list and has the status; every kept item has it. */
  lemma {:induction false} WithStatusMembers(items: seq<HistoryItem>, status: string)
    ensures forall x :: x in WithStatus(items, status) <==> x in items && x.status == status
    ensures forall i :: 0 <= i < |WithStatus(items, status)| ==> WithStatus(items, status)[i].status == status
  {
    if items != [] {
      var init := items[..|items| - 1];
      WithStatusMembers(init, status);
      assert items == init + [items[|items| - 1]];
    }
  }

  /** Nothing is dropped exactly when every item already has the status. */
  lemma {:induction false} WithStatusKeepsAll(items: seq<HistoryItem>, status: string)
    ensures WithStatus(items, status) == items <==> forall i :: 0 <= i < |items| ==> items[i].status == status
  {
    if items != [] {
      var init := items[..|items| - 1];
      var last := items[|items| - 1];
      assert items == init + [last];
      WithStatusKeepsAll(init, status);
      if last.status == status {
        assert (forall i :: 0 <= i < |items| ==> items[i].status == status) <==>
               (forall i :: 0 <= i < |init| ==> init[i].status == status) by {
          forall i | 0 <= i < |init| ensures init[i] == items[i] { }
        }
        assert WithStatus(items, status) == items <==> WithStatus(init, status) == init by {
          if WithStatus(items, status) == items {
            assert WithStatus(init, status) == items[..|items| - 1];
          }
        }
      } else {
        assert WithStatus(items, status) != items by {
          assert |WithStatus(items, status)| <= |init|;
        }
        assert items[|items| - 1].status != status;
      }
    }
  }

  /** Filtering twice by the same status is filtering once. */
  lemma {:induction false} WithStatusIdempotent(items: seq<HistoryItem>, status: string)
    ensures WithStatus(WithStatus(items, status), status) == WithStatus(items, status)
  {
    WithStatusMembers(items, status);
    WithStatusKeepsAll(WithStatus(items, status), status);
  }

  /** The items of two statuses that differ never overlap, and together never outnumber the list. */
  lemma {:induction false} WithStatusDisjoint(items: seq<HistoryItem>, s1: string, s2: string)
    requires s1 != s2
    ensures |WithStatus(items, s1)| + |WithStatus(items, s2)| <= |items|
  {
    if items != [] {
      WithStatusDisjoint(items[..|items| - 1], s1, s2);
    }
  }

  /**
   * The count under "Total medicines taken" is the size of the whole
   * history, so a single "Missed" row makes it larger than the number of
   * doses taken.
   */
  lemma {:induction false} TotalIncludesMissed(items: seq<HistoryItem>)
    requires exists i :: 0 <= i < |items| && items[i].status == STATUS_MISSED
    ensures |WithStatus(items, STATUS_TAKEN)| < |items|
  {
    WithStatusDisjoint(items, STATUS_TAKEN, STATUS_MISSED);
    WithStatusMembers(items, STATUS_MISSED);
    var i :| 0 <= i < |items| && items[i].status == STATUS_MISSED;
    assert items[i] in WithStatus(items, STATUS_MISSED);
  }

  /** What the screen shows of the list it was last given. */
  datatype Shown = NothingShown | ShowsList(items: seq<HistoryItem>)

  class HistoryActivity {
    /** `allHistory`: null until the first `updateHistoryList`. */
    var allHistory: Option<seq<HistoryItem>>
    var currentFilter: string
    /** The list of the adapter attached to the recycler view, if any. */
    var shown: Shown
    var emptyStateVisible: bool
    var listVisible: bool
    var totalText: string
    var highlighted: Option<FilterButton>

    /** The fields as the activity is created, before `onCreate` loads the history. */
    constructor ()
      ensures allHistory == None && currentFilter == FILTER_ALL && shown == NothingShown
    {
      allHistory := None;
      currentFilter := FILTER_ALL;
      shown := NothingShown;
      emptyStateVisible := false;
      listVisible := true;
      totalText := [];
      highlighted := None;
    }

    /**
     * `updateHistoryList`: all history from the store, newest first; the
     * count shown is the number of rows of every status. An empty history
     * leaves the adapter as it was.
     */
    method UpdateHistoryList(db: DatabaseHelper, today: string)
      requires db.Valid()
      modifies this
      ensures allHistory.Some? && |allHistory.value| == |db.history|
      ensures forall i :: 0 <= i < |db.history| ==> allHistory.value[i] == ItemOf(NewestFirst(db.history)[i], today)
      ensures totalText == TOTAL_PREFIX + FormatInt(|db.history|)
      ensures emptyStateVisible <==> db.history == []
      ensures listVisible <==> db.history != []
      ensures shown == if db.history == [] then old(shown) else ShowsList(allHistory.value)
      ensures highlighted == HighlightFor(currentFilter) && currentFilter == old(currentFilter)
    {
      var items := db.GetAllHistory(today);
      allHistory := Some(items);
      var count := |items|;
      totalText := TOTAL_PREFIX + FormatInt(count);
      if count == 0 {
        emptyStateVisible := true;
        listVisible := false;
      } else {
        emptyStateVisible := false;
        listVisible := true;
        shown := ShowsList(items);
      }
      highlighted := HighlightFor(currentFilter);
    }

    /**
     * `filterHistory`: without loaded history nothing happens; "All" shows
     * the whole list, any other filter the items with exactly that status;
     * an empty result shows the empty state and keeps the adapter.
     */
    method FilterHistory()
      modifies this
      ensures allHistory == old(allHistory) && currentFilter == old(currentFilter)
      ensures totalText == old(totalText) && highlighted == old(highlighted)
      ensures old(allHistory).None? ==>
        shown == old(shown) && emptyStateVisible == old(emptyStateVisible) && listVisible == old(listVisible)
      ensures old(allHistory).Some? ==>
        var filtered := if currentFilter == FILTER_ALL then allHistory.value else WithStatus(allHistory.value, currentFilter);
        (emptyStateVisible <==> filtered == []) && (listVisible <==> filtered != []) &&
        shown == (if filtered == [] then old(shown) else ShowsList(filtered))
    {
      if allHistory.None? {
        return;
      }
      var all := allHistory.value;
      var filtered: seq<HistoryItem> := [];
      if currentFilter == FILTER_ALL {
        filtered := all;
      } else {
        var i := 0;
        while i < |all|
          invariant 0 <= i <= |all|
          invariant filtered == WithStatus(all[..i], currentFilter)
        {
          assert all[..i + 1][..i] == all[..i];
          if all[i].status == currentFilter {
            filtered := filtered + [all[i]];
          }
          i := i + 1;
        }
        assert all[..i] == all;
      }
      if filtered == [] {
        emptyStateVisible := true;
        listVisible := false;
      } else {
        emptyStateVisible := false;
        listVisible := true;
        shown := ShowsList(filtered);
      }
    }

    /** A filter button: `currentFilter` becomes that button's filter, it is highlighted, and the list is filtered. */
    method SelectFilter(button: FilterButton)
      modifies this
      ensures currentFilter == FilterOf(button) && highlighted == Some(button)
      ensures allHistory == old(allHistory) && totalText == old(totalText)
      ensures old(allHistory).None? ==>
        shown == old(shown) && emptyStateVisible == old(emptyStateVisible) && listVisible == old(listVisible)
      ensures old(allHistory).Some? ==>
        var filtered := if button == AllButton then allHistory.value else WithStatus(allHistory.value, FilterOf(button));
        (emptyStateVisible <==> filtered == []) && (listVisible <==> filtered != []) &&
        shown == (if filtered == [] then old(shown) else ShowsList(filtered))
    {
      currentFilter := FilterOf(button);
      highlighted := HighlightFor(currentFilter);
      FilterHistory();
    }
  }
}
