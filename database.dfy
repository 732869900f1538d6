/**
 * `DatabaseHelper`: the "medicines" and "history" tables held in memory.
 * Rows are kept in ascending id order; each table has its AUTOINCREMENT
 * counter, the largest id it has ever handed out.
 */
module Database {
  import opened Base
  import opened MedicineRecord

  datatype MedicineRow = MedicineRow(id: int, details: Details, isActive: bool)

  /** A "history" row. The table has no date column. */
  datatype HistoryRow = HistoryRow(historyId: int, medicineName: string, time: string, status: string)

  /** The two statuses the app writes into the history. */
  const STATUS_TAKEN: string := "Taken"
  const STATUS_MISSED: string := "Missed"

  /** `HistoryItem`, the value the history queries hand out. */
  datatype HistoryItem = HistoryItem(medicineName: string, time: string, date: string, status: string)

  // ---------------------------------------------------------------------------
  // ORDER BY reminder_time: SQLite compares TEXT code point by code point.

  predicate TextLe(a: string, b: string) {
    a == [] || (b != [] && (a[0] < b[0] || (a[0] == b[0] && TextLe(a[1..], b[1..]))))
  }

  lemma {:induction false} TextLeTotal(a: string, b: string)
    ensures TextLe(a, b) || TextLe(b, a)
  {
    if a != [] && b != [] && a[0] == b[0] {
      TextLeTotal(a[1..], b[1..]);
    }
  }

  function TimeOf(r: MedicineRow): string {
    r.details.reminderTime
  }

  /** Non-decreasing `reminder_time` from each row to the next. */
  predicate SortedByTime(s: seq<MedicineRow>) {
    forall i :: 0 <= i < |s| - 1 ==> TextLe(TimeOf(s[i]), TimeOf(s[i + 1]))
  }

  /** Place `x` before the first row whose time is not below it, so rows with equal times keep their order. */
  function InsertByTime(x: MedicineRow, s: seq<MedicineRow>): (r: seq<MedicineRow>)
    ensures |r| == |s| + 1
    ensures r[0] == x || (s != [] && r[0] == s[0])
    ensures multiset(r) == multiset(s) + multiset{x}
  {
    if s == [] || TextLe(TimeOf(x), TimeOf(s[0])) then [x] + s
    else
      assert s == [s[0]] + s[1..];
      [s[0]] + InsertByTime(x, s[1..])
  }

  /** The result order of the query: a stable sort on `reminder_time`, ties left in id order. */
  function SortByTime(s: seq<MedicineRow>): seq<MedicineRow> {
    if s == [] then [] else InsertByTime(s[0], SortByTime(s[1..]))
  }

  lemma {:induction false} InsertByTimeSorted(x: MedicineRow, s: seq<MedicineRow>)
    requires SortedByTime(s)
    ensures SortedByTime(InsertByTime(x, s))
  {
    if s != [] && !TextLe(TimeOf(x), TimeOf(s[0])) {
      TextLeTotal(TimeOf(x), TimeOf(s[0]));
      InsertByTimeSorted(x, s[1..]);
      var rest := InsertByTime(x, s[1..]);
      assert InsertByTime(x, s) == [s[0]] + rest;
      assert TextLe(TimeOf(s[0]), TimeOf(rest[0]));
    }
  }

  /** The query's rows are ordered by time and are exactly the rows it was given. */
  lemma {:induction false} SortByTimeSpec(s: seq<MedicineRow>)
    ensures SortedByTime(SortByTime(s))
    ensures multiset(SortByTime(s)) == multiset(s)
    ensures |SortByTime(s)| == |s|
  {
    if s != [] {
      SortByTimeSpec(s[1..]);
      InsertByTimeSorted(s[0], SortByTime(s[1..]));
      assert s == [s[0]] + s[1..];
    }
  }

  /** `WHERE is_active = 1`. */
  function ActiveRows(s: seq<MedicineRow>): (r: seq<MedicineRow>)
    ensures forall x :: x in r <==> x in s && x.isActive
  {
    if s == [] then []
    else if s[0].isActive then [s[0]] + ActiveRows(s[1..])
    else ActiveRows(s[1..])
  }

  /** The rows `getAllMedicines` reads, in the order it reads them. */
  function ActiveByTime(s: seq<MedicineRow>): seq<MedicineRow> {
    SortByTime(ActiveRows(s))
  }

  /** `getAllMedicines` returns exactly the active rows, ordered by reminder time. */
  lemma {:induction false} ActiveByTimeSpec(s: seq<MedicineRow>)
    ensures SortedByTime(ActiveByTime(s))
    ensures forall x :: x in ActiveByTime(s) <==> x in s && x.isActive
    ensures multiset(ActiveByTime(s)) == multiset(ActiveRows(s))
    ensures |ActiveByTime(s)| == |ActiveRows(s)|
  {
    SortByTimeSpec(ActiveRows(s));
    forall x ensures x in ActiveByTime(s) <==> x in ActiveRows(s) {
      assert x in ActiveByTime(s) <==> x in multiset(ActiveByTime(s));
      assert x in ActiveRows(s) <==> x in multiset(ActiveRows(s));
    }
  }

  /** The `Medicine` built from a row: `cursor.getInt` narrows the id to a Java int. */
  function LoadedValue(r: MedicineRow): MedicineValue {
    MedicineValue(Wrap32(r.id), r.details, r.isActive)
  }

  // ---------------------------------------------------------------------------
  // Row-set helpers

  predicate IdsAscending(s: seq<MedicineRow>) {
    forall i, j :: 0 <= i < j < |s| ==> s[i].id < s[j].id
  }

  predicate HistoryIdsAscending(s: seq<HistoryRow>) {
    forall i, j :: 0 <= i < j < |s| ==> s[i].historyId < s[j].historyId
  }

  /** `DELETE ... WHERE id = ?`. */
  function WithoutId(s: seq<MedicineRow>, id: int): (r: seq<MedicineRow>)
    ensures forall x :: x in r <==> x in s && x.id != id
    ensures |r| <= |s|
  {
    if s == [] then []
    else if s[0].id == id then WithoutId(s[1..], id)
    else [s[0]] + WithoutId(s[1..], id)
  }

  lemma {:induction false} WithoutIdAscending(s: seq<MedicineRow>, id: int)
    requires IdsAscending(s)
    ensures IdsAscending(WithoutId(s, id))
  {
    if s != [] {
      WithoutIdAscending(s[1..], id);
      var rest := WithoutId(s[1..], id);
      forall x | x in rest ensures s[0].id < x.id {
        assert x in s[1..];
      }
    }
  }

  /** Deleting an id that no row has leaves the rows as they were. */
  lemma {:induction false} WithoutAbsentId(s: seq<MedicineRow>, id: int)
    requires forall x :: x in s ==> x.id != id
    ensures WithoutId(s, id) == s
  {
    if s != [] {
      assert s[0] in s;
      assert forall x :: x in s[1..] ==> x in s;
      WithoutAbsentId(s[1..], id);
      assert [s[0]] + s[1..] == s;
    }
  }

  /** Put a row with a new id where it belongs in id order. */
  function InsertById(s: seq<MedicineRow>, row: MedicineRow): (r: seq<MedicineRow>)
    ensures multiset(r) == multiset(s) + multiset{row}
    ensures |r| == |s| + 1
  {
    if s == [] || row.id < s[0].id then [row] + s
    else
      assert s == [s[0]] + s[1..];
      [s[0]] + InsertById(s[1..], row)
  }

  lemma {:induction false} InsertByIdAscending(s: seq<MedicineRow>, row: MedicineRow)
    requires IdsAscending(s)
    requires forall x :: x in s ==> x.id != row.id
    ensures IdsAscending(InsertById(s, row))
  {
    if s != [] && row.id >= s[0].id {
      assert forall x :: x in s[1..] ==> x in s;
      InsertByIdAscending(s[1..], row);
      var rest := InsertById(s[1..], row);
      forall x | x in rest ensures s[0].id < x.id {
        assert x in multiset(rest);
        if x != row {
          assert x in s[1..];
        }
      }
    }
  }

  /** The history rows newest first: the table read backwards. */
  function NewestFirst(s: seq<HistoryRow>): (r: seq<HistoryRow>)
    ensures |r| == |s|
    ensures forall i :: 0 <= i < |s| ==> r[i] == s[|s| - 1 - i]
  {
    if s == [] then [] else [s[|s| - 1]] + NewestFirst(s[..|s| - 1])
  }

  function ItemOf(r: HistoryRow, today: string): HistoryItem {
    HistoryItem(r.medicineName, r.time, today, r.status)
  }

  class DatabaseHelper {
    var medicines: seq<MedicineRow>
    var medicineSeq: int
    var history: seq<HistoryRow>
    var historySeq: int

    /** Ids ascend and none exceeds the table's AUTOINCREMENT counter. */
    predicate Valid()
      reads this
    {
      IdsAscending(medicines) && (forall r :: r in medicines ==> r.id <= medicineSeq) &&
      HistoryIdsAscending(history) && (forall r :: r in history ==> r.historyId <= historySeq)
    }

    /** `onCreate`: both tables empty. */
    constructor ()
      ensures Valid()
      ensures medicines == [] && history == [] && medicineSeq == 0 && historySeq == 0
    {
      medicines := [];
      medicineSeq := 0;
      history := [];
      historySeq := 0;
    }

    /** `onUpgrade`: both tables dropped and created again, their counters gone with them. */
    method OnUpgrade()
      modifies this
      ensures Valid()
      ensures medicines == [] && history == [] && medicineSeq == 0 && historySeq == 0
    {
      medicines := [];
      medicineSeq := 0;
      history := [];
      historySeq := 0;
    }

    /**
     * `addMedicine`: a new row under an id above every id handed out before,
     * holding the record's six fields and its active flag; returns the id.
     */
    method AddMedicine(medicine: Medicine) returns (id: int)
      requires Valid()
      modifies this
      ensures Valid()
      ensures id == old(medicineSeq) + 1 && medicineSeq == id
      ensures forall r :: r in old(medicines) ==> r.id < id
      ensures medicines == old(medicines) + [MedicineRow(id, medicine.Value().details, medicine.isActive)]
      ensures history == old(history) && historySeq == old(historySeq)
    {
      id := medicineSeq + 1;
      medicines := medicines + [MedicineRow(id, medicine.Value().details, medicine.isActive)];
      medicineSeq := id;
    }

    /**
     * `restoreMedicine`: inserts under the record's own id. An id already in
     * the table violates the primary key, and the insert is silently dropped.
     */
    method RestoreMedicine(medicine: Medicine)
      requires Valid()
      modifies this
      ensures Valid()
      ensures (exists r :: r in old(medicines) && r.id == medicine.id) ==> medicines == old(medicines) && medicineSeq == old(medicineSeq)
      ensures (forall r :: r in old(medicines) ==> r.id != medicine.id) ==>
        multiset(medicines) == multiset(old(medicines)) + multiset{MedicineRow(medicine.id, medicine.Value().details, medicine.isActive)} &&
        medicineSeq == (if medicine.id > old(medicineSeq) then medicine.id else old(medicineSeq))
      ensures history == old(history) && historySeq == old(historySeq)
    {
      if exists r :: r in medicines && r.id == medicine.id {
        return;
      }
      var row := MedicineRow(medicine.id, medicine.Value().details, medicine.isActive);
      InsertByIdAscending(medicines, row);
      medicines := InsertById(medicines, row);
      if medicine.id > medicineSeq {
        medicineSeq := medicine.id;
      }
      forall r | r in medicines ensures r.id <= medicineSeq {
        assert r in multiset(medicines);
      }
    }

    /**
     * `getAllMedicines`: one new `Medicine` per active row, in reminder-time
     * order (see ActiveByTimeSpec for what that order is).
     */
    method GetAllMedicines() returns (list: seq<Medicine>)
      ensures |list| == |ActiveByTime(medicines)|
      ensures forall i :: 0 <= i < |list| ==> list[i].Value() == LoadedValue(ActiveByTime(medicines)[i])
      ensures forall i :: 0 <= i < |list| ==> fresh(list[i])
    {
      var rows := ActiveByTime(medicines);
      list := [];
      var i := 0;
      while i < |rows|
        invariant 0 <= i <= |rows| && |list| == i
        invariant forall j :: 0 <= j < i ==> list[j].Value() == LoadedValue(rows[j])
        invariant forall j :: 0 <= j < i ==> fresh(list[j])
      {
        var r := rows[i];
        var m := new Medicine.Loaded(Wrap32(r.id), r.details.medicineName, r.details.dosage, r.details.instructions,
                                     r.details.reminderTime, r.details.reminderDate, r.details.frequency, r.isActive);
        list := list + [m];
        i := i + 1;
      }
    }

    /** `deleteMedicine`: the row with that id is gone, every other row stays; an absent id changes nothing. */
    method DeleteMedicine(id: int)
      requires Valid()
      modifies this
      ensures Valid()
      ensures medicines == WithoutId(old(medicines), id)
      ensures medicineSeq == old(medicineSeq) && history == old(history) && historySeq == old(historySeq)
    {
      WithoutIdAscending(medicines, id);
      medicines := WithoutId(medicines, id);
    }

    /** `getMedicineCount`: the number of active rows, which is the length of `getAllMedicines()`. */
    method GetMedicineCount() returns (count: int)
      ensures count == |ActiveRows(medicines)|
      ensures count == |ActiveByTime(medicines)|
    {
      ActiveByTimeSpec(medicines);
      count := |ActiveRows(medicines)|;
    }

    /** `addHistory`: one row appended under a fresh history id. */
    method AddHistory(medicineName: string, time: string, status: string)
      requires Valid()
      modifies this
      ensures Valid()
      ensures historySeq == old(historySeq) + 1
      ensures history == old(history) + [HistoryRow(historySeq, medicineName, time, status)]
      ensures medicines == old(medicines) && medicineSeq == old(medicineSeq)
    {
      historySeq := historySeq + 1;
      history := history + [HistoryRow(historySeq, medicineName, time, status)];
    }

    /**
     * The four-argument `addHistory` the restore screen calls. The history
     * table has no date column, so the date is not stored: the row is the
     * one the three-argument insert appends.
     */
    method AddHistoryDated(medicineName: string, date: string, time: string, status: string)
      requires Valid()
      modifies this
      ensures Valid()
      ensures historySeq == old(historySeq) + 1
      ensures history == old(history) + [HistoryRow(historySeq, medicineName, time, status)]
      ensures medicines == old(medicines) && medicineSeq == old(medicineSeq)
    {
      AddHistory(medicineName, time, status);
    }

    /**
     * `getAllHistory`: every row, newest (highest history id) first. The items
     * are built with the constructor that stamps them with today's date.
     */
    method GetAllHistory(today: string) returns (items: seq<HistoryItem>)
      requires Valid()
      ensures |items| == |history|
      ensures forall i :: 0 <= i < |items| ==> items[i] == ItemOf(NewestFirst(history)[i], today)
      ensures forall i, j :: 0 <= i < j < |items| ==> NewestFirst(history)[i].historyId > NewestFirst(history)[j].historyId
    {
      items := [];
      var i := 0;
      while i < |history|
        invariant 0 <= i <= |history| && |items| == i
        invariant forall j :: 0 <= j < i ==> items[j] == ItemOf(NewestFirst(history)[j], today)
      {
        items := items + [ItemOf(history[|history| - 1 - i], today)];
        i := i + 1;
      }
    }

    /** The store call the restore screen makes to empty the medicines table. */
    method DeleteAllMedicines()
      requires Valid()
      modifies this
      ensures Valid()
      ensures medicines == [] && medicineSeq == old(medicineSeq) && history == old(history) && historySeq == old(historySeq)
    {
      medicines := [];
    }

    /** The store call the settings screen makes to empty the history table. */
    method DeleteAllHistory()
      requires Valid()
      modifies this
      ensures Valid()
      ensures history == [] && historySeq == old(historySeq) && medicines == old(medicines) && medicineSeq == old(medicineSeq)
    {
      history := [];
    }
  }
}
