/**
 * `AlarmScheduler`: registers a medicine's main alarm and its pre-notice in
 * the alarm table, after removing whatever was registered for it before.
 */
module Scheduler {
  import opened Base
  import opened MedicineRecord
  import opened AlarmTable
  import opened FireTime

  /** The Android API levels the scheduler tests against. */
  const KITKAT: int := 19
  const M: int := 23
  const S: int := 31

  /** The `set*` call the scheduler picks for the running API level. */
  function PrecisionFor(sdk: int): (p: Precision)
    ensures p == ExactAllowWhileIdle <==> sdk >= M
    ensures p == Exact <==> KITKAT <= sdk < M
    ensures p == Inexact <==> sdk < KITKAT
  {
    if sdk >= M then ExactAllowWhileIdle
    else if sdk >= KITKAT then Exact
    else Inexact
  }

  /** `canScheduleExactAlarms`: always allowed below API 31, otherwise the manager's permission. */
  function CanScheduleExactAlarms(sdk: int, hasManager: bool, permitted: bool): (r: bool)
    ensures sdk < S ==> r
    ensures sdk >= S ==> (r <==> hasManager && permitted)
  {
    if sdk >= S then hasManager && permitted else true
  }

  /** The extras both registrations carry. */
  function ExtrasOf(m: MedicineValue): Extras {
    Extras(Some(m.id), Some(m.details.medicineName), Some(m.details.dosage))
  }

  /** `cancelAllAlarmsForMedicine`: drop the main key and the pre-notice key of `id`. */
  function CancelTable(t: Table, id: int32): Table {
    t - {MainKey(id), PreNoticeKey(id)}
  }

  /** The table after a successful `scheduleMedicineAlarm(m)` with the alarm at `alarmTime`. */
  function ScheduleTable(t: Table, m: MedicineValue, alarmTime: int, now: int, p: Precision): Table {
    var cleared := CancelTable(t, m.id);
    var withPre :=
      if HasPreNotice(alarmTime, now)
      then cleared[PreNoticeKey(m.id) := AlarmEntry(PreNoticeTime(alarmTime), p, ExtrasOf(m))]
      else cleared;
    withPre[MainKey(m.id) := AlarmEntry(alarmTime, p, ExtrasOf(m))]
  }

  /** The stored time parses, so `scheduleMedicineAlarm` gets past its first lines. */
  predicate TimeParses(m: MedicineValue) {
    ParseReminderTime(m.details.reminderTime).Some?
  }

  /** The instant `scheduleMedicineAlarm` computes for `m`. */
  function AlarmTimeOf(m: MedicineValue, now: int): int
    requires TimeParses(m)
  {
    var (hour, minute) := ParseReminderTime(m.details.reminderTime).value;
    NextFireTime(now, hour, minute)
  }

  /** A medicine saved from the time picker is scheduled at the picker's hour and minute. */
  lemma {:induction false} AlarmTimeOfPicked(m: MedicineValue, now: int, hour: int, minute: int)
    requires 0 <= hour < 24 && 0 <= minute < 60
    requires m.details.reminderTime == TimeText(hour, minute)
    ensures TimeParses(m)
    ensures AlarmTimeOf(m, now) == NextFireTime(now, hour, minute)
  {
    ParseTimeText(hour, minute);
  }

  /**
   * The instant `scheduleMedicineAlarm` computes for each medicine at `now`,
   * or None where its stored time does not parse.
   */
  function SlotAt(now: int): MedicineValue -> Option<int> {
    m => if TimeParses(m) then Some(AlarmTimeOf(m, now)) else None
  }

  /**
   * Scheduling each of `ms` in turn, first to last, at the instants `slot`
   * gives; a medicine without one leaves the table as it was.
   */
  function ScheduleFold(t: Table, ms: seq<MedicineValue>, slot: MedicineValue -> Option<int>, now: int, p: Precision): Table
    decreases |ms|
  {
    if ms == [] then t
    else
      var last := ms[|ms| - 1];
      var before := ScheduleFold(t, ms[..|ms| - 1], slot, now, p);
      match slot(last)
      case Some(alarmTime) => ScheduleTable(before, last, alarmTime, now, p)
      case None => before
  }

  /** `scheduleMedicineAlarm` applied to each of `ms` in turn. */
  function ScheduleEach(t: Table, ms: seq<MedicineValue>, now: int, p: Precision): Table {
    ScheduleFold(t, ms, SlotAt(now), now, p)
  }

  datatype ScheduleOutcome =
    | Scheduled(alarmTime: int)
    /** The manager was null: the time was computed but nothing was registered. */
    | NoAlarmManager(alarmTime: int)
    /** `Integer.parseInt` or the index into the split time threw; nothing happened. */
    | BadReminderTime

  class AlarmScheduler {
    const manager: AlarmManager?
    const sdk: int

    constructor (manager: AlarmManager?, sdk: int)
      ensures this.manager == manager && this.sdk == sdk
    {
      this.manager := manager;
      this.sdk := sdk;
    }

    /**
     * `scheduleMedicineAlarm`: the stored time decides the alarm instant; the
     * medicine's old main and pre-notice entries are replaced by the new ones.
     */
    method ScheduleMedicineAlarm(medicine: Medicine, now: int) returns (outcome: ScheduleOutcome)
      modifies manager
      ensures !TimeParses(medicine.Value()) <==> outcome == BadReminderTime
      ensures outcome != BadReminderTime ==> TimeParses(medicine.Value()) && outcome.alarmTime == AlarmTimeOf(medicine.Value(), now)
      ensures outcome.NoAlarmManager? <==> manager == null && outcome != BadReminderTime
      ensures manager != null && outcome.Scheduled? ==>
        manager.entries == ScheduleTable(old(manager.entries), medicine.Value(), outcome.alarmTime, now, PrecisionFor(sdk))
      ensures manager != null && outcome == BadReminderTime ==> manager.entries == old(manager.entries)
    {
      if !TimeParses(medicine.Value()) {
        return BadReminderTime;
      }
      var alarmTime := AlarmTimeOf(medicine.Value(), now);
      if manager == null {
        return NoAlarmManager(alarmTime);
      }
      CancelAllAlarmsForMedicine(medicine.id);
      if HasPreNotice(alarmTime, now) {
        Schedule5MinuteReminder(medicine, alarmTime);
      }
      ScheduleMainAlarm(medicine, alarmTime);
      outcome := Scheduled(alarmTime);
    }

    method Schedule5MinuteReminder(medicine: Medicine, alarmTime: int)
      requires manager != null
      modifies manager
      ensures manager.entries == old(manager.entries)[PreNoticeKey(medicine.id) :=
        AlarmEntry(PreNoticeTime(alarmTime), PrecisionFor(sdk), ExtrasOf(medicine.Value()))]
    {
      manager.Set(PreNoticeKey(medicine.id), AlarmEntry(PreNoticeTime(alarmTime), PrecisionFor(sdk), ExtrasOf(medicine.Value())));
    }

    method ScheduleMainAlarm(medicine: Medicine, alarmTime: int)
      requires manager != null
      modifies manager
      ensures manager.entries == old(manager.entries)[MainKey(medicine.id) :=
        AlarmEntry(alarmTime, PrecisionFor(sdk), ExtrasOf(medicine.Value()))]
    {
      manager.Set(MainKey(medicine.id), AlarmEntry(alarmTime, PrecisionFor(sdk), ExtrasOf(medicine.Value())));
    }

    /** `cancelMedicineAlarm`: the public entry to the same cancellation. */
    method CancelMedicineAlarm(medicineId: int32)
      modifies manager
      ensures manager != null ==> manager.entries == CancelTable(old(manager.entries), medicineId)
    {
      CancelAllAlarmsForMedicine(medicineId);
    }

    method CancelAllAlarmsForMedicine(medicineId: int32)
      modifies manager
      ensures manager != null ==> manager.entries == CancelTable(old(manager.entries), medicineId)
    {
      if manager != null {
        manager.Cancel(MainKey(medicineId));
        manager.Cancel(PreNoticeKey(medicineId));
      }
    }
  }

  // ---------------------------------------------------------------------------
  // What a scheduling leaves in the table

  /**
   * After scheduling, the main key holds the alarm; the pre-notice key is
   * present exactly when six minutes remain, then five minutes earlier and
   * after `now`; every other key is as before.
   */
  lemma {:induction false} ScheduleTableEntries(t: Table, m: MedicineValue, alarmTime: int, now: int, p: Precision)
    ensures MainKey(m.id) in ScheduleTable(t, m, alarmTime, now, p)
    ensures ScheduleTable(t, m, alarmTime, now, p)[MainKey(m.id)] == AlarmEntry(alarmTime, p, ExtrasOf(m))
    ensures PreNoticeKey(m.id) in ScheduleTable(t, m, alarmTime, now, p) <==> HasPreNotice(alarmTime, now)
    ensures HasPreNotice(alarmTime, now) ==>
      var e := ScheduleTable(t, m, alarmTime, now, p)[PreNoticeKey(m.id)];
      e == AlarmEntry(alarmTime - PRE_NOTICE_LEAD_MS, p, ExtrasOf(m)) && now < e.fireAt < alarmTime
    ensures forall k :: k != MainKey(m.id) && k != PreNoticeKey(m.id) ==>
      (k in ScheduleTable(t, m, alarmTime, now, p) <==> k in t) &&
      (k in t ==> ScheduleTable(t, m, alarmTime, now, p)[k] == t[k])
  {
    KeysOfOneMedicineDistinct(m.id);
    PreNoticeRule(alarmTime, now);
  }

  /** Scheduling the same medicine twice at the same instant leaves the table as scheduling it once. */
  lemma {:induction false} ScheduleTableIdempotent(t: Table, m: MedicineValue, alarmTime: int, now: int, p: Precision)
    ensures ScheduleTable(ScheduleTable(t, m, alarmTime, now, p), m, alarmTime, now, p) == ScheduleTable(t, m, alarmTime, now, p)
  {
    var once := ScheduleTable(t, m, alarmTime, now, p);
    assert CancelTable(once, m.id) == CancelTable(t, m.id);
  }

  /** Scheduling after a cancel is the same as scheduling alone: the first thing scheduling does is that cancel. */
  lemma {:induction false} ScheduleAbsorbsCancel(t: Table, m: MedicineValue, alarmTime: int, now: int, p: Precision)
    ensures ScheduleTable(CancelTable(t, m.id), m, alarmTime, now, p) == ScheduleTable(t, m, alarmTime, now, p)
  {
    assert CancelTable(CancelTable(t, m.id), m.id) == CancelTable(t, m.id);
  }

  /**
   * Cancelling removes the main and pre-notice keys of `id` and nothing else:
   * in particular the repeat and the snooze of `id` stay registered.
   */
  lemma {:induction false} CancelTableKeeps(t: Table, id: int32)
    ensures MainKey(id) !in CancelTable(t, id) && PreNoticeKey(id) !in CancelTable(t, id)
    ensures forall k :: k != MainKey(id) && k != PreNoticeKey(id) ==>
      (k in CancelTable(t, id) <==> k in t) && (k in t ==> CancelTable(t, id)[k] == t[k])
    ensures AutoRepeatKey(id) in t ==> AutoRepeatKey(id) in CancelTable(t, id)
    ensures SnoozeKey(id) in t ==> SnoozeKey(id) in CancelTable(t, id)
  {
    KeysOfOneMedicineDistinct(id);
  }

  /** One more medicine with an instant: the fold over a prefix grows by one step. */
  lemma {:induction false} ScheduleFoldStep(t: Table, ms: seq<MedicineValue>, slot: MedicineValue -> Option<int>, k: nat, now: int, p: Precision)
    requires k < |ms| && slot(ms[k]).Some?
    ensures ScheduleFold(t, ms[..k + 1], slot, now, p) ==
      ScheduleTable(ScheduleFold(t, ms[..k], slot, now, p), ms[k], slot(ms[k]).value, now, p)
  {
    assert ms[..k + 1][..k] == ms[..k];
    assert ms[..k + 1][k] == ms[k];
  }

  /** One more medicine whose time parses: the table grows by exactly its scheduling. */
  lemma {:induction false} ScheduleEachStep(t: Table, ms: seq<MedicineValue>, k: nat, now: int, p: Precision)
    requires k < |ms| && TimeParses(ms[k])
    ensures ScheduleEach(t, ms[..k + 1], now, p) ==
      ScheduleTable(ScheduleEach(t, ms[..k], now, p), ms[k], AlarmTimeOf(ms[k], now), now, p)
  {
    assert SlotAt(now)(ms[k]) == Some(AlarmTimeOf(ms[k], now));
    ScheduleFoldStep(t, ms, SlotAt(now), k, now, p);
  }

  /** Every medicine given an instant has its main key registered, whichever of them share an id. */
  lemma {:induction false} ScheduleFoldHasMain(t: Table, ms: seq<MedicineValue>, slot: MedicineValue -> Option<int>, now: int, p: Precision)
    ensures forall i :: 0 <= i < |ms| && slot(ms[i]).Some? ==> MainKey(ms[i].id) in ScheduleFold(t, ms, slot, now, p)
    decreases |ms|
  {
    if ms != [] {
      var init := ms[..|ms| - 1];
      var last := ms[|ms| - 1];
      var before := ScheduleFold(t, init, slot, now, p);
      ScheduleFoldHasMain(t, init, slot, now, p);
      forall i | 0 <= i < |ms| && slot(ms[i]).Some?
        ensures MainKey(ms[i].id) in ScheduleFold(t, ms, slot, now, p)
      {
        if i < |init| {
          assert ms[i] == init[i];
        }
        if slot(last).Some? {
          ScheduleTableKeepsMains(before, last, slot(last).value, now, p, ms[i].id);
        }
      }
    }
  }

  /**
   * After scheduling a list of medicines every one whose time parses has a
   * main alarm, whichever of them share an id.
   */
  lemma {:induction false} ScheduleEachHasMain(t: Table, ms: seq<MedicineValue>, now: int, p: Precision)
    ensures forall i :: 0 <= i < |ms| && TimeParses(ms[i]) ==> MainKey(ms[i].id) in ScheduleEach(t, ms, now, p)
  {
    ScheduleFoldHasMain(t, ms, SlotAt(now), now, p);
    forall i | 0 <= i < |ms| && TimeParses(ms[i])
      ensures MainKey(ms[i].id) in ScheduleEach(t, ms, now, p)
    {
      assert SlotAt(now)(ms[i]).Some?;
    }
  }

  /** After scheduling `m`, its main key and every main key already present are registered. */
  lemma {:induction false} ScheduleTableKeepsMains(t: Table, m: MedicineValue, alarmTime: int, now: int, p: Precision, other: int32)
    ensures MainKey(other) in ScheduleTable(t, m, alarmTime, now, p) <==> other == m.id || MainKey(other) in t
  {
    if other == m.id {
      ScheduleTableEntries(t, m, alarmTime, now, p);
    } else {
      ScheduleTableOtherMedicine(t, m, alarmTime, now, p, other);
    }
  }

  /** Keys belonging to no medicine of the list keep their entries. */
  lemma {:induction false} ScheduleFoldKeepsOthers(t: Table, ms: seq<MedicineValue>, slot: MedicineValue -> Option<int>, now: int, p: Precision, k: AlarmKey)
    requires forall i :: 0 <= i < |ms| ==> k != MainKey(ms[i].id) && k != PreNoticeKey(ms[i].id)
    ensures k in ScheduleFold(t, ms, slot, now, p) <==> k in t
    ensures k in t ==> ScheduleFold(t, ms, slot, now, p)[k] == t[k]
    decreases |ms|
  {
    if ms != [] {
      var init := ms[..|ms| - 1];
      var last := ms[|ms| - 1];
      assert forall i :: 0 <= i < |init| ==> init[i] == ms[i];
      ScheduleFoldKeepsOthers(t, init, slot, now, p, k);
      if slot(last).Some? {
        ScheduleTableEntries(ScheduleFold(t, init, slot, now, p), last, slot(last).value, now, p);
      }
    }
  }

  /** Scheduling a list never touches the main or pre-notice key of a medicine outside it, nor any other key. */
  lemma {:induction false} ScheduleEachKeepsOthers(t: Table, ms: seq<MedicineValue>, now: int, p: Precision, k: AlarmKey)
    requires forall i :: 0 <= i < |ms| ==> k != MainKey(ms[i].id) && k != PreNoticeKey(ms[i].id)
    ensures k in ScheduleEach(t, ms, now, p) <==> k in t
    ensures k in t ==> ScheduleEach(t, ms, now, p)[k] == t[k]
  {
    ScheduleFoldKeepsOthers(t, ms, SlotAt(now), now, p, k);
  }

  /** Scheduling medicine `id` never touches the keys of a different medicine. */
  lemma {:induction false} ScheduleTableOtherMedicine(t: Table, m: MedicineValue, alarmTime: int, now: int, p: Precision, other: int32)
    requires other != m.id
    ensures MainKey(other) in ScheduleTable(t, m, alarmTime, now, p) <==> MainKey(other) in t
    ensures PreNoticeKey(other) in ScheduleTable(t, m, alarmTime, now, p) <==> PreNoticeKey(other) in t
  {
    ScheduleTableEntries(t, m, alarmTime, now, p);
    if other < m.id {
      Wrap32Distinct(other + 50000, m.id - other);
    } else {
      Wrap32Distinct(m.id + 50000, other - m.id);
    }
  }
}
