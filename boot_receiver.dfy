/**
 * `BootReceiver`: after a reboot the alarm table is empty, so five seconds
 * after BOOT_COMPLETED the app schedules every stored active medicine again.
 */
module BootReceiverHandler {
  import opened Base
  import opened AlarmTable
  import opened Effects
  import opened MedicineRecord
  import opened Database
  import opened Scheduler

  const ACTION_BOOT_COMPLETED: string := "android.intent.action.BOOT_COMPLETED"
  const BOOT_DELAY_MS: int := 5000

  /** `onReceive`: only the boot broadcast posts the recovery, and nothing else happens at once. */
  function OnReceive(action: Option<string>): (effects: seq<Effect>)
    ensures effects != [] <==> action == Some(ACTION_BOOT_COMPLETED)
    ensures effects != [] ==> effects == [PostDelayed(BOOT_DELAY_MS, RescheduleAfterBoot)]
  {
    if action == Some(ACTION_BOOT_COMPLETED) then [PostDelayed(BOOT_DELAY_MS, RescheduleAfterBoot)] else []
  }

  /** The medicines `getAllMedicines` hands back, as values. */
  function LoadedValues(rows: seq<MedicineRow>): (r: seq<MedicineValue>)
    ensures |r| == |rows|
    ensures forall i :: 0 <= i < |rows| ==> r[i] == LoadedValue(rows[i])
  {
    seq(|rows|, i requires 0 <= i < |rows| => LoadedValue(rows[i]))
  }

  /** How many medicines precede the first whose stored time does not parse. */
  function ParsablePrefix(ms: seq<MedicineValue>): (k: nat)
    ensures k <= |ms|
  {
    PrefixWhile(ms, TimeParses)
  }

  /**
   * The delayed recovery: the loop over `getAllMedicines` sits in one
   * `try`, so the first stored time that does not parse ends it, leaving
   * the medicines before it scheduled and those after it not.
   */
  method RescheduleAll(db: DatabaseHelper, scheduler: AlarmScheduler, now: int) returns (rescheduledCount: nat, completed: bool)
    modifies scheduler.manager
    ensures var ms := LoadedValues(ActiveByTime(db.medicines));
      rescheduledCount == ParsablePrefix(ms) && (completed <==> rescheduledCount == |ms|) &&
      (scheduler.manager != null ==>
         scheduler.manager.entries == ScheduleEach(old(scheduler.manager.entries), ms[..rescheduledCount], now, PrecisionFor(scheduler.sdk)))
  {
    var medicines := db.GetAllMedicines();
    rescheduledCount, completed := RescheduleEach(medicines, LoadedValues(ActiveByTime(db.medicines)), scheduler, now);
  }

  /** The loop itself, over the records `getAllMedicines` returned; `ms` are their values. */
  method RescheduleEach(medicines: seq<Medicine>, ghost ms: seq<MedicineValue>, scheduler: AlarmScheduler, now: int)
    returns (rescheduledCount: nat, completed: bool)
    requires |medicines| == |ms|
    requires forall i :: 0 <= i < |medicines| ==> medicines[i].Value() == ms[i]
    modifies scheduler.manager
    ensures rescheduledCount == ParsablePrefix(ms) && (completed <==> rescheduledCount == |ms|)
    ensures scheduler.manager != null ==>
      scheduler.manager.entries == ScheduleEach(old(scheduler.manager.entries), ms[..rescheduledCount], now, PrecisionFor(scheduler.sdk))
  {
    rescheduledCount := 0;
    while rescheduledCount < |medicines|
      invariant rescheduledCount <= ParsablePrefix(ms)
      invariant scheduler.manager != null ==>
        scheduler.manager.entries == ScheduleEach(old(scheduler.manager.entries), ms[..rescheduledCount], now, PrecisionFor(scheduler.sdk))
    {
      var scheduled := RescheduleOne(medicines[rescheduledCount], scheduler, now,
                                     if scheduler.manager != null then old(scheduler.manager.entries) else map[], ms, rescheduledCount);
      if !scheduled {
        completed := false;
        ParsablePrefixSpec(ms);
        return;
      }
      ParsablePrefixPast(ms, rescheduledCount);
      rescheduledCount := rescheduledCount + 1;
    }
    completed := true;
    assert ms[..rescheduledCount] == ms;
  }

  /** One turn of the loop: schedule the `k`-th medicine, or report that its time does not parse. */
  method RescheduleOne(medicine: Medicine, scheduler: AlarmScheduler, now: int,
                       ghost start: Table, ghost ms: seq<MedicineValue>, ghost k: nat)
    returns (scheduled: bool)
    requires k < |ms| && medicine.Value() == ms[k]
    requires scheduler.manager != null ==>
      scheduler.manager.entries == ScheduleEach(start, ms[..k], now, PrecisionFor(scheduler.sdk))
    modifies scheduler.manager
    ensures scheduled == TimeParses(ms[k])
    ensures scheduler.manager != null ==>
      scheduler.manager.entries == ScheduleEach(start, ms[..if scheduled then k + 1 else k], now, PrecisionFor(scheduler.sdk))
  {
    var outcome := scheduler.ScheduleMedicineAlarm(medicine, now);
    scheduled := outcome != BadReminderTime;
    if scheduled && scheduler.manager != null {
      ScheduleEachStep(start, ms, k, now, PrecisionFor(scheduler.sdk));
    }
  }

  /** Every medicine before `ParsablePrefix` parses, and the one at it (if any) does not. */
  lemma ParsablePrefixSpec(ms: seq<MedicineValue>)
    ensures forall i :: 0 <= i < ParsablePrefix(ms) ==> TimeParses(ms[i])
    ensures ParsablePrefix(ms) < |ms| ==> !TimeParses(ms[ParsablePrefix(ms)])
  {
    PrefixWhileSpec(ms, TimeParses);
  }

  /** A medicine inside the parsable prefix whose time parses does not end it. */
  lemma ParsablePrefixPast(ms: seq<MedicineValue>, k: nat)
    requires k < |ms| && k <= ParsablePrefix(ms) && TimeParses(ms[k])
    ensures k + 1 <= ParsablePrefix(ms)
  {
    ParsablePrefixSpec(ms);
  }

  /** After a complete recovery every active stored medicine has its main alarm registered again. */
  lemma {:induction false} RecoveryRegistersEveryMain(t: Table, rows: seq<MedicineRow>, now: int, p: Precision)
    requires ParsablePrefix(LoadedValues(ActiveByTime(rows))) == |ActiveByTime(rows)|
    ensures var ms := LoadedValues(ActiveByTime(rows));
      forall r :: r in rows && r.isActive ==> MainKey(Wrap32(r.id)) in ScheduleEach(t, ms, now, p)
  {
    var ms := LoadedValues(ActiveByTime(rows));
    ActiveByTimeSpec(rows);
    ParsablePrefixSpec(ms);
    ScheduleEachHasMain(t, ms, now, p);
    forall r | r in rows && r.isActive
      ensures MainKey(Wrap32(r.id)) in ScheduleEach(t, ms, now, p)
    {
      var i :| 0 <= i < |ActiveByTime(rows)| && ActiveByTime(rows)[i] == r;
      assert ms[i].id == Wrap32(r.id);
    }
  }
}
