/**
 * `MedicineAdapter`: the list of medicines on the main screen. Its two
 * buttons record a dose as taken or missed, delete the medicine and drop
 * its row from the list; the list is shared with the screen, which
 * refills it through `updateList`.
 */
module MedicineAdapterView {
  import opened Base
  import opened Text
  import opened MedicineRecord
  import opened FireTime
  import opened Database
  import opened AddMedicineScreen

  /** `RecyclerView.NO_POSITION`: the row has been detached from the list. */
  const NO_POSITION: int := -1

  /** The list after the row at `pos` is removed, or unchanged when there is no position. */
  function RemovedAt<T>(items: seq<T>, pos: int): (r: seq<T>)
    requires pos == NO_POSITION || 0 <= pos < |items|
    ensures pos == NO_POSITION ==> r == items
    ensures pos != NO_POSITION ==>
      |r| == |items| - 1 &&
      (forall i :: 0 <= i < pos ==> r[i] == items[i]) &&
      (forall i :: pos <= i < |r| ==> r[i] == items[i + 1])
  {
    if pos == NO_POSITION then items else items[..pos] + items[pos + 1..]
  }

  /**
   * `formatTime(String)`: the first two ":"-separated parts read as hour and
   * minute and shown on a 12-hour clock; any text where that throws (fewer
   * than two parts, or a part that is not an `int`) is shown as it is.
   */
  function FormatTimeText(time24: string): (r: string)
    ensures ParseReminderTime(time24).None? ==> r == time24
    ensures ParseReminderTime(time24).Some? ==>
      r == FormatTime12(ParseReminderTime(time24).value.0, ParseReminderTime(time24).value.1)
  {
    match ParseReminderTime(time24)
    case None => time24
    case Some((hour, minute)) => FormatTime12(hour, minute)
  }

  /**
   * Every time the add and edit screens store is shown as the 12-hour text of
   * the picker's hour and minute, and that text reads back as the same time.
   */
  lemma {:induction false} StoredTimeDisplay(hour: int, minute: int)
    requires 0 <= hour < 24 && 0 <= minute < 60
    ensures FormatTimeText(TimeText(hour, minute)) == FormatTime12(hour, minute)
    ensures ParseTime12(FormatTimeText(TimeText(hour, minute))) == Some((hour, minute))
  {
    ParseTimeText(hour, minute);
    ParseFormatTime12(hour, minute);
  }

  class MedicineAdapter {
    /** The list the screen passed in; the adapter and the screen both hold it. */
    const medicineList: JavaList<Medicine>

    constructor (medicineList: JavaList<Medicine>)
      ensures this.medicineList == medicineList
    {
      this.medicineList := medicineList;
    }

    /** `getItemCount`. */
    method GetItemCount() returns (count: int)
      ensures count == |medicineList.items|
    {
      count := |medicineList.items|;
    }

    /**
     * `updateList`: the shared list is cleared, then filled from `newList`.
     * When `newList` is that same list, the clear has already emptied it.
     */
    method UpdateList(newList: JavaList<Medicine>)
      modifies medicineList
      ensures medicineList.items == if newList == medicineList then [] else old(newList.items)
    {
      medicineList.Clear();
      medicineList.AddAll(newList);
    }

    /**
     * The "Yes" of the mark-as-taken dialog: a "Taken" row with the
     * medicine's name and scheduled time is appended to the history, the
     * medicine is deleted from the store, and the row at the holder's
     * position leaves the list. No alarm table is in the frame: the
     * medicine's main alarm and pre-notice stay registered.
     */
    method MarkTaken(medicine: Medicine, pos: int, db: DatabaseHelper)
      requires db.Valid()
      requires pos == NO_POSITION || 0 <= pos < |medicineList.items|
      modifies db, medicineList
      ensures db.Valid()
      ensures db.history == old(db.history) + [HistoryRow(db.historySeq, medicine.medicineName, medicine.reminderTime, STATUS_TAKEN)]
      ensures db.historySeq == old(db.historySeq) + 1
      ensures db.medicines == WithoutId(old(db.medicines), medicine.id as int)
      ensures medicineList.items == RemovedAt(old(medicineList.items), pos)
    {
      db.AddHistory(medicine.medicineName, medicine.reminderTime, STATUS_TAKEN);
      db.DeleteMedicine(medicine.id as int);
      if pos != NO_POSITION {
        medicineList.RemoveAt(pos);
      }
    }

    /** The "Yes" of the mark-as-missed dialog: the same steps with the status "Missed". */
    method MarkMissed(medicine: Medicine, pos: int, db: DatabaseHelper)
      requires db.Valid()
      requires pos == NO_POSITION || 0 <= pos < |medicineList.items|
      modifies db, medicineList
      ensures db.Valid()
      ensures db.history == old(db.history) + [HistoryRow(db.historySeq, medicine.medicineName, medicine.reminderTime, STATUS_MISSED)]
      ensures db.historySeq == old(db.historySeq) + 1
      ensures db.medicines == WithoutId(old(db.medicines), medicine.id as int)
      ensures medicineList.items == RemovedAt(old(medicineList.items), pos)
    {
      db.AddHistory(medicine.medicineName, medicine.reminderTime, STATUS_MISSED);
      db.DeleteMedicine(medicine.id as int);
      if pos != NO_POSITION {
        medicineList.RemoveAt(pos);
      }
    }
  }
}
