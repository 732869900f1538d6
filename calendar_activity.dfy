/**
 * `CalendarActivity`: picking a day looks up that day's history under a
 * "dd/MM/yyyy" key, counts its taken and missed doses, and shows the rows.
 */
module CalendarScreen {
  import opened Base
  import opened Text
  import opened Database
  import opened HistoryScreen

  /** `formatDate`: `String.format("%02d/%02d/%d", day, month, year)`. */
  function FormatDate(day: int, month: int, year: int): string {
    Pad2(day) + "/" + Pad2(month) + "/" + FormatInt(year)
  }

  /**
   * For a calendar date the key is three '/'-separated fields, day and month
   * two digits each, and each field reads back as the number it came from.
   */
  lemma {:induction false} FormatDateFields(day: int, month: int, year: int)
    requires 1 <= day <= 31 && 1 <= month <= 12 && 0 <= year < TWO_POW_31
    ensures Split(FormatDate(day, month, year), '/') == [Pad2(day), Pad2(month), FormatInt(year)]
    ensures |Pad2(day)| == 2 && |Pad2(month)| == 2
    ensures ParseInt(Pad2(day)) == Some(day) && ParseInt(Pad2(month)) == Some(month)
    ensures ParseInt(FormatInt(year)) == Some(year)
  {
    var a, b, c := Pad2(day), Pad2(month), FormatInt(year);
    assert '/' !in a by { assert AllDigits(a); }
    assert '/' !in b by { assert AllDigits(b); }
    assert '/' !in c by { assert AllDigits(c); }
    assert FormatDate(day, month, year) == a + ['/'] + b + ['/'] + c;
    SplitTriple(a, b, c, '/');
    ParsePad2(day);
    ParsePad2(month);
    ParseFormatInt(year);
  }

  /** Different calendar dates give different keys. */
  lemma {:induction false} FormatDateInjective(d1: int, m1: int, y1: int, d2: int, m2: int, y2: int)
    requires 1 <= d1 <= 31 && 1 <= m1 <= 12 && 0 <= y1 < TWO_POW_31
    requires 1 <= d2 <= 31 && 1 <= m2 <= 12 && 0 <= y2 < TWO_POW_31
    requires FormatDate(d1, m1, y1) == FormatDate(d2, m2, y2)
    ensures d1 == d2 && m1 == m2 && y1 == y2
  {
    FormatDateFields(d1, m1, y1);
    FormatDateFields(d2, m2, y2);
  }

  /** The line above the list: nothing recorded, or the total and the two counts. */
  datatype DayInfo = NoRecords | Summary(total: int, taken: int, missed: int)

  class CalendarActivity {
    /** `historyList`, the list handed to the day's adapter. */
    const historyList: JavaList<HistoryItem>
    var dayInfo: DayInfo
    var listVisible: bool
    var emptyStateVisible: bool

    /** `onCreate` starts with an empty list. */
    constructor ()
      ensures historyList.items == [] && fresh(historyList)
    {
      historyList := new JavaList();
      dayInfo := NoRecords;
      listVisible := true;
      emptyStateVisible := false;
    }

    /**
     * The date listener and `showTodayData`: the calendar's month counts
     * from 0, so one is added before the key is formatted. `dayHistory` is
     * the list the store's query by date returns for that key.
     */
    method SelectDate(dayOfMonth: int, month: int, year: int, dayHistory: JavaList<HistoryItem>, adapterClearsFirst: bool)
      returns (date: string)
      requires dayHistory != historyList
      modifies this, historyList
      ensures date == FormatDate(dayOfMonth, month + 1, year)
      ensures historyList.items ==
        if dayHistory.items == [] then old(historyList.items)
        else if adapterClearsFirst then []
        else dayHistory.items
      ensures dayInfo == if dayHistory.items == [] then NoRecords else DayCounts(dayHistory.items)
    {
      date := FormatDate(dayOfMonth, month + 1, year);
      ShowDayHistory(dayHistory, adapterClearsFirst);
    }

    /**
     * `showDayHistory`: an empty day shows the empty state and leaves the
     * list alone; otherwise the doses are counted, every status other than
     * exactly "Taken" as missed, and the list is replaced by the day's rows.
     * The list is then handed to the adapter's `updateList`, although the
     * adapter already holds that same list. The adapter's code is not part
     * of this model: `adapterClearsFirst` says whether its `updateList`
     * clears its list and then copies the argument in, as the medicine
     * list's adapter does. On the shared list, that leaves the list empty.
     */
    method ShowDayHistory(dayHistory: JavaList<HistoryItem>, adapterClearsFirst: bool)
      requires dayHistory != historyList
      modifies this, historyList
      ensures dayHistory.items == old(dayHistory.items)
      ensures dayHistory.items == [] ==>
        dayInfo == NoRecords && !listVisible && emptyStateVisible && historyList.items == old(historyList.items)
      ensures dayHistory.items != [] ==>
        dayInfo == DayCounts(dayHistory.items) && listVisible && !emptyStateVisible &&
        historyList.items == if adapterClearsFirst then [] else dayHistory.items
    {
      var day := dayHistory.items;
      if day == [] {
        dayInfo := NoRecords;
        listVisible := false;
        emptyStateVisible := true;
      } else {
        var taken, missed := CountDoses(day);
        dayInfo := Summary(|day|, taken, missed);
        historyList.Clear();
        historyList.AddAll(dayHistory);
        // adapter.updateList(historyList)
        if adapterClearsFirst {
          historyList.Clear();
          historyList.AddAll(historyList);
        }
        listVisible := true;
        emptyStateVisible := false;
      }
    }
  }

  /** The summary of a day: the rows, those "Taken", and all the others. */
  function DayCounts(day: seq<HistoryItem>): (r: DayInfo)
    ensures r.Summary? && r.total == |day| && r.taken + r.missed == r.total
    ensures r.taken == |WithStatus(day, STATUS_TAKEN)|
    ensures r.missed >= |WithStatus(day, STATUS_MISSED)|
  {
    WithStatusDisjoint(day, STATUS_TAKEN, STATUS_MISSED);
    Summary(|day|, |WithStatus(day, STATUS_TAKEN)|, |day| - |WithStatus(day, STATUS_TAKEN)|)
  }

  /** The counting loop of `showDayHistory`. */
  method CountDoses(day: seq<HistoryItem>) returns (taken: int, missed: int)
    ensures Summary(|day|, taken, missed) == DayCounts(day)
  {
    taken, missed := 0, 0;
    var i := 0;
    while i < |day|
      invariant 0 <= i <= |day|
      invariant taken == |WithStatus(day[..i], STATUS_TAKEN)| && taken + missed == i
    {
      assert day[..i + 1][..i] == day[..i];
      if day[i].status == STATUS_TAKEN {
        taken := taken + 1;
      } else {
        missed := missed + 1;
      }
      i := i + 1;
    }
    assert day[..i] == day;
  }
}
