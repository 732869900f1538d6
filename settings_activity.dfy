/**
 * `SettingsActivity`: the preference switches, the alarm-sound picker, and
 * backup and restore of both tables through a JSON document.
 */
module SettingsScreen {
  import opened Base
  import opened AlarmTable
  import opened MedicineRecord
  import opened FireTime
  import opened Database
  import opened Scheduler
  import opened AppSettings
  import SoundService

  const RINGTONE_REQUEST_CODE: int := 100
  const BACKUP_REQUEST_CODE: int := 1001
  const RESTORE_REQUEST_CODE: int := 1002
  const DEFAULT_SOUND: string := "default"

  // ---------------------------------------------------------------------------
  // onActivityResult

  /** Where `onActivityResult` sends a result. */
  datatype ResultRoute = StoreRingtone | RunBackup | RunRestore | IgnoreResult

  function RouteResult(requestCode: int, resultOk: bool, hasData: bool): (r: ResultRoute)
    ensures r == StoreRingtone <==> requestCode == RINGTONE_REQUEST_CODE && resultOk && hasData
    ensures r == RunBackup <==> requestCode == BACKUP_REQUEST_CODE && resultOk && hasData
    ensures r == RunRestore <==> requestCode == RESTORE_REQUEST_CODE && resultOk && hasData
    ensures !resultOk || !hasData ==> r == IgnoreResult
  {
    if !resultOk || !hasData then IgnoreResult
    else if requestCode == RINGTONE_REQUEST_CODE then StoreRingtone
    else if requestCode == BACKUP_REQUEST_CODE then RunBackup
    else if requestCode == RESTORE_REQUEST_CODE then RunRestore
    else IgnoreResult
  }

  /** The "alarmSoundUri" the picker's result is stored as: the URI, or "default" when none was picked. */
  function StoredSound(picked: Option<string>): string {
    if picked.Some? then picked.value else DEFAULT_SOUND
  }

  /**
   * What the alarm service plays after a pick (outside silent mode): the
   * picked URI, unless there is none or it is literally "default", in which
   * case the device's default alarm (or ringtone) sound.
   */
  lemma {:induction false} PickedSoundIsPlayed(p: Preferences, picked: Option<string>, hasDefaultAlarm: bool)
    requires !SilentMode(p)
    ensures var after := p.(alarmSoundUri := Some(StoredSound(picked)));
      SoundService.ChooseSound(after, hasDefaultAlarm) ==
        if picked.Some? && picked.value != DEFAULT_SOUND then Some(SoundService.CustomUri(picked.value))
        else if hasDefaultAlarm then Some(SoundService.DefaultAlarmUri)
        else Some(SoundService.DefaultRingtoneUri)
  {
  }

  // ---------------------------------------------------------------------------
  // The JSON objects of a backup

  /** A JSON object whose values are all strings. */
  type JsonObject = map<string, string>

  const MEDICINE_KEYS: set<string> := {"name", "dosage", "instructions", "time", "date", "frequency"}
  const HISTORY_KEYS: set<string> := {"medicine", "date", "time", "status"}

  /** The object `performBackup` writes for a medicine: six fields, no id and no active flag. */
  function MedicineJson(d: Details): (o: JsonObject)
    ensures o.Keys == MEDICINE_KEYS
  {
    map["name" := d.medicineName, "dosage" := d.dosage, "instructions" := d.instructions,
        "time" := d.reminderTime, "date" := d.reminderDate, "frequency" := d.frequency]
  }

  /** The six `getString` calls of `performRestore`; a missing key throws. */
  function MedicineFromJson(o: JsonObject): (r: Option<Details>)
    ensures r.Some? <==> MEDICINE_KEYS <= o.Keys
  {
    if MEDICINE_KEYS <= o.Keys
    then Some(Details(o["name"], o["dosage"], o["instructions"], o["time"], o["date"], o["frequency"]))
    else None
  }

  function HistoryJson(item: HistoryItem): (o: JsonObject)
    ensures o.Keys == HISTORY_KEYS
  {
    map["medicine" := item.medicineName, "date" := item.date, "time" := item.time, "status" := item.status]
  }

  function HistoryFromJson(o: JsonObject): (r: Option<HistoryItem>)
    ensures r.Some? <==> HISTORY_KEYS <= o.Keys
  {
    if HISTORY_KEYS <= o.Keys
    then Some(HistoryItem(o["medicine"], o["time"], o["date"], o["status"]))
    else None
  }

  /** A medicine's six fields come back from its object unchanged. */
  lemma {:induction false} MedicineJsonRoundTrip(d: Details)
    ensures MedicineFromJson(MedicineJson(d)) == Some(d)
  {
  }

  /** A history item's four fields come back from its object unchanged. */
  lemma {:induction false} HistoryJsonRoundTrip(item: HistoryItem)
    ensures HistoryFromJson(HistoryJson(item)) == Some(item)
  {
  }

  /** The backup document; an array that is missing makes `getJSONArray` throw. */
  datatype BackupDoc = BackupDoc(medicines: Option<seq<JsonObject>>, history: Option<seq<JsonObject>>)

  function BackupMedicines(rows: seq<MedicineRow>): (r: seq<JsonObject>)
    ensures |r| == |rows|
    ensures forall i :: 0 <= i < |rows| ==> r[i] == MedicineJson(rows[i].details)
  {
    seq(|rows|, i requires 0 <= i < |rows| => MedicineJson(rows[i].details))
  }

  function BackupHistory(rows: seq<HistoryRow>, today: string): (r: seq<JsonObject>)
    ensures |r| == |rows|
    ensures forall i :: 0 <= i < |rows| ==> r[i] == HistoryJson(ItemOf(rows[i], today))
  {
    seq(|rows|, i requires 0 <= i < |rows| => HistoryJson(ItemOf(rows[i], today)))
  }

  // ---------------------------------------------------------------------------
  // What a restore leaves behind

  predicate HasParsableTime(d: Details) {
    ParseReminderTime(d.reminderTime).Some?
  }

  /** The medicines read from the array before the first object with a key missing. */
  function RestoredDetails(objs: seq<JsonObject>): seq<Details> {
    ParsedWhile(objs, MedicineFromJson)
  }

  /** How many restored medicines are scheduled: those before the first whose time does not parse. */
  function ScheduledCount(objs: seq<JsonObject>): (k: nat)
    ensures k <= |RestoredDetails(objs)|
  {
    PrefixWhile(RestoredDetails(objs), HasParsableTime)
  }

  /** How many are stored: a medicine whose time does not parse is stored before scheduling it throws. */
  function StoredCount(objs: seq<JsonObject>): (n: nat)
    ensures ScheduledCount(objs) <= n <= |RestoredDetails(objs)|
  {
    if ScheduledCount(objs) < |RestoredDetails(objs)| then ScheduledCount(objs) + 1 else ScheduledCount(objs)
  }

  /** The rows the store hands out for restored medicines, counting on from `base`. */
  function RestoredRows(ds: seq<Details>, base: int): (r: seq<MedicineRow>)
    ensures |r| == |ds|
    ensures forall j :: 0 <= j < |ds| ==> r[j] == MedicineRow(base + 1 + j, ds[j], true)
  {
    seq(|ds|, j requires 0 <= j < |ds| => MedicineRow(base + 1 + j, ds[j], true))
  }

  /** The records the scheduler is given: id set to the store's id narrowed to an `int`. */
  function RestoredValues(ds: seq<Details>, base: int): (r: seq<MedicineValue>)
    ensures |r| == |ds|
    ensures forall j :: 0 <= j < |ds| ==> r[j] == MedicineValue(Wrap32(base + 1 + j), ds[j], true)
  {
    seq(|ds|, j requires 0 <= j < |ds| => MedicineValue(Wrap32(base + 1 + j), ds[j], true))
  }

  function RestoredHistoryItems(objs: seq<JsonObject>): seq<HistoryItem> {
    ParsedWhile(objs, HistoryFromJson)
  }

  /** The rows the four-argument `addHistory` appends, counting on from `base`; the items' dates are dropped. */
  function RestoredHistoryRows(items: seq<HistoryItem>, base: int): (r: seq<HistoryRow>)
    ensures |r| == |items|
    ensures forall j :: 0 <= j < |items| ==>
      r[j] == HistoryRow(base + 1 + j, items[j].medicineName, items[j].time, items[j].status)
  {
    seq(|items|, j requires 0 <= j < |items| =>
      HistoryRow(base + 1 + j, items[j].medicineName, items[j].time, items[j].status))
  }

  /** The object at a place the restore loop reaches, still inside the scheduled prefix, either fails or is the next restored medicine. */
  lemma {:induction false} RestoreLoopStep(objs: seq<JsonObject>, i: nat)
    requires i < |objs| && i <= ScheduledCount(objs)
    ensures MedicineFromJson(objs[i]).None? ==> i == ScheduledCount(objs) == StoredCount(objs)
    ensures MedicineFromJson(objs[i]).Some? ==>
      i < |RestoredDetails(objs)| && MedicineFromJson(objs[i]).value == RestoredDetails(objs)[i] &&
      (HasParsableTime(RestoredDetails(objs)[i]) ==> i < ScheduledCount(objs)) &&
      (!HasParsableTime(RestoredDetails(objs)[i]) ==> i == ScheduledCount(objs) && StoredCount(objs) == i + 1)
  {
    ParsedWhileSpec(objs, MedicineFromJson);
    PrefixWhileSpec(RestoredDetails(objs), HasParsableTime);
  }

  /** The loop ran off the end: every object was restored and scheduled. */
  lemma {:induction false} RestoreLoopEnd(objs: seq<JsonObject>)
    requires |objs| <= ScheduledCount(objs)
    ensures ScheduledCount(objs) == StoredCount(objs) == |RestoredDetails(objs)| == |objs|
  {
  }

  /** The history loop's step: an object either fails or is the next restored item. */
  lemma {:induction false} HistoryLoopStep(objs: seq<JsonObject>, i: nat)
    requires i < |objs| && i <= |RestoredHistoryItems(objs)|
    ensures HistoryFromJson(objs[i]).None? ==> i == |RestoredHistoryItems(objs)|
    ensures HistoryFromJson(objs[i]).Some? ==>
      i < |RestoredHistoryItems(objs)| && HistoryFromJson(objs[i]).value == RestoredHistoryItems(objs)[i]
  {
    ParsedWhileSpec(objs, HistoryFromJson);
  }

  // ---------------------------------------------------------------------------
  // Backup followed by restore

  /**
   * Restoring a backup gives back every backed-up medicine's six fields, in
   * the order they were backed up, each active under a new id; when all
   * their times parse, all of them are stored and scheduled.
   */
  lemma {:induction false} BackupRestoreMedicines(rows: seq<MedicineRow>, base: int)
    ensures var objs := BackupMedicines(rows);
      |RestoredDetails(objs)| == |rows| &&
      forall j :: 0 <= j < |rows| ==> RestoredRows(RestoredDetails(objs), base)[j] == MedicineRow(base + 1 + j, rows[j].details, true)
    ensures (forall j :: 0 <= j < |rows| ==> HasParsableTime(rows[j].details)) ==>
      ScheduledCount(BackupMedicines(rows)) == StoredCount(BackupMedicines(rows)) == |rows|
  {
    var objs := BackupMedicines(rows);
    ParsedWhileTotal(objs, MedicineFromJson);
    var ds := RestoredDetails(objs);
    forall j | 0 <= j < |rows| ensures ds[j] == rows[j].details {
      MedicineJsonRoundTrip(rows[j].details);
    }
    if forall j :: 0 <= j < |rows| ==> HasParsableTime(rows[j].details) {
      PrefixWhileAt(ds, HasParsableTime, |ds|);
    }
  }

  /**
   * Restoring a backup gives back each history row's name, time and status.
   * Every item read back carries the date the backup was made on (the only
   * date the history listing knows), and the store drops it. The rows are
   * appended newest first, so the history screen then lists them oldest
   * first: the order is reversed.
   */
  lemma {:induction false} BackupRestoreHistory(h: seq<HistoryRow>, today: string, base: int)
    ensures var items := RestoredHistoryItems(BackupHistory(NewestFirst(h), today));
      |items| == |h| &&
      (forall j :: 0 <= j < |items| ==> items[j].date == today) &&
      var restored := RestoredHistoryRows(items, base);
      forall j :: 0 <= j < |h| ==>
        NewestFirst(restored)[j].medicineName == h[j].medicineName &&
        NewestFirst(restored)[j].time == h[j].time &&
        NewestFirst(restored)[j].status == h[j].status
  {
    var objs := BackupHistory(NewestFirst(h), today);
    ParsedWhileTotal(objs, HistoryFromJson);
    var items := RestoredHistoryItems(objs);
    forall j | 0 <= j < |h| ensures items[j] == ItemOf(h[|h| - 1 - j], today) {
      HistoryJsonRoundTrip(ItemOf(NewestFirst(h)[j], today));
    }
  }

  // ---------------------------------------------------------------------------
  // The screen

  datatype RestoreOutcome = Restored | RestoreFailed

  class SettingsActivity {
    var prefs: Preferences
    var notificationsSwitch: bool
    var vibrationSwitch: bool
    var silentSwitch: bool

    /** Each switch shows its preference as the service reads it. */
    predicate Valid()
      reads this
    {
      notificationsSwitch == NotificationsEnabled(prefs) &&
      vibrationSwitch == VibrationEnabled(prefs) &&
      silentSwitch == SilentMode(prefs)
    }

    /** `onCreate` loads the switches from the preferences, with their defaults. */
    constructor (prefs: Preferences)
      ensures this.prefs == prefs && Valid()
    {
      this.prefs := prefs;
      notificationsSwitch := NotificationsEnabled(prefs);
      vibrationSwitch := VibrationEnabled(prefs);
      silentSwitch := SilentMode(prefs);
    }

    /** The notifications switch is set; its listener runs only when the state changes and stores the new state. */
    method SetNotificationsChecked(checked: bool)
      requires Valid()
      modifies this
      ensures Valid() && NotificationsEnabled(prefs) == checked
      ensures prefs == if old(notificationsSwitch) == checked then old(prefs) else old(prefs).(notificationsEnabled := Some(checked))
      ensures vibrationSwitch == old(vibrationSwitch) && silentSwitch == old(silentSwitch)
    {
      if notificationsSwitch != checked {
        notificationsSwitch := checked;
        prefs := prefs.(notificationsEnabled := Some(checked));
      }
    }

    /** The vibration switch is set, by the user or by the silent-mode listener. */
    method SetVibrationChecked(checked: bool)
      requires Valid()
      modifies this
      ensures Valid() && VibrationEnabled(prefs) == checked
      ensures prefs == if old(vibrationSwitch) == checked then old(prefs) else old(prefs).(vibrationEnabled := Some(checked))
      ensures notificationsSwitch == old(notificationsSwitch) && silentSwitch == old(silentSwitch)
    {
      if vibrationSwitch != checked {
        vibrationSwitch := checked;
        prefs := prefs.(vibrationEnabled := Some(checked));
      }
    }

    /**
     * The silent-mode switch: a change of state is stored, and switching it
     * on also switches vibration on; switching it off leaves vibration as it
     * was, and setting it to the state it already has changes nothing. With
     * silent mode on, the alarm service plays no sound.
     */
    method SetSilentChecked(checked: bool)
      requires Valid()
      modifies this
      ensures Valid() && SilentMode(prefs) == checked
      ensures old(silentSwitch) == checked ==> prefs == old(prefs)
      ensures old(silentSwitch) != checked && checked ==> VibrationEnabled(prefs)
      ensures !checked ==> prefs.vibrationEnabled == old(prefs.vibrationEnabled)
      ensures NotificationsEnabled(prefs) == old(NotificationsEnabled(prefs)) && prefs.alarmSoundUri == old(prefs.alarmSoundUri)
      ensures checked ==> forall h: bool :: SoundService.ChooseSound(prefs, h).None?
    {
      if silentSwitch != checked {
        silentSwitch := checked;
        prefs := prefs.(silentMode := Some(checked));
        if checked {
          SetVibrationChecked(true);
        }
      }
    }

    /** The ringtone picker's result: the picked URI is stored, or "default" when none came back. */
    method OnRingtonePicked(picked: Option<string>)
      modifies this
      ensures prefs == old(prefs).(alarmSoundUri := Some(StoredSound(picked)))
      ensures notificationsSwitch == old(notificationsSwitch) && vibrationSwitch == old(vibrationSwitch) && silentSwitch == old(silentSwitch)
    {
      if picked.Some? {
        prefs := prefs.(alarmSoundUri := Some(picked.value));
      } else {
        prefs := prefs.(alarmSoundUri := Some(DEFAULT_SOUND));
      }
    }
  }

  /** The "Delete" of the delete-history dialog. */
  method DeleteAllHistory(db: DatabaseHelper)
    requires db.Valid()
    modifies db
    ensures db.Valid() && db.history == [] && db.medicines == old(db.medicines)
  {
    db.DeleteAllHistory();
  }

  /**
   * `performBackup`: one object per medicine `getAllMedicines` returns
   * (active ones only, in reminder-time order) and one per history row
   * `getAllHistory` returns (newest first, each stamped with today's date).
   */
  method PerformBackup(db: DatabaseHelper, today: string) returns (doc: BackupDoc)
    requires db.Valid()
    ensures doc == BackupDoc(Some(BackupMedicines(ActiveByTime(db.medicines))), Some(BackupHistory(NewestFirst(db.history), today)))
  {
    var medicines := db.GetAllMedicines();
    var medicinesArray := MedicinesArray(medicines, ActiveByTime(db.medicines));
    var history := db.GetAllHistory(today);
    var historyArray := HistoryArray(history);
    assert historyArray == BackupHistory(NewestFirst(db.history), today);
    doc := BackupDoc(Some(medicinesArray), Some(historyArray));
  }

  /** The medicines loop of `performBackup`, over the records loaded from `rows`. */
  method MedicinesArray(medicines: seq<Medicine>, ghost rows: seq<MedicineRow>) returns (objs: seq<JsonObject>)
    requires |medicines| == |rows|
    requires forall i :: 0 <= i < |medicines| ==> medicines[i].Value() == LoadedValue(rows[i])
    ensures objs == BackupMedicines(rows)
  {
    objs := [];
    var i := 0;
    while i < |medicines|
      invariant 0 <= i <= |medicines|
      invariant objs == BackupMedicines(rows)[..i]
    {
      objs := objs + [MedicineJson(medicines[i].Value().details)];
      i := i + 1;
    }
    assert objs == BackupMedicines(rows);
  }

  /** The history loop of `performBackup`. */
  method HistoryArray(history: seq<HistoryItem>) returns (objs: seq<JsonObject>)
    ensures |objs| == |history|
    ensures forall i :: 0 <= i < |history| ==> objs[i] == HistoryJson(history[i])
  {
    objs := [];
    var i := 0;
    while i < |history|
      invariant 0 <= i <= |history| && |objs| == i
      invariant forall j :: 0 <= j < i ==> objs[j] == HistoryJson(history[j])
    {
      objs := objs + [HistoryJson(history[i])];
      i := i + 1;
    }
  }

  /**
   * `performRestore` after "Restore": the keys `cancelAllAlarms` cancels
   * are removed, both tables are emptied, then each medicine object is
   * stored as a new active record and scheduled, then each history object
   * is appended with its name, time and status (the history table has no
   * date column, so the item's date is dropped). The first missing key, missing array or
   * unparsable time stops everything that follows, and nothing done before
   * it is undone.
   */
  method PerformRestore(doc: BackupDoc, cancelled: set<AlarmKey>, db: DatabaseHelper, scheduler: AlarmScheduler, now: int)
    returns (outcome: RestoreOutcome)
    requires db.Valid()
    modifies db, scheduler.manager
    ensures db.Valid()
    ensures var objs := if doc.medicines.Some? then doc.medicines.value else [];
      db.medicines == RestoredRows(RestoredDetails(objs), old(db.medicineSeq))[..StoredCount(objs)] &&
      (scheduler.manager != null ==>
         scheduler.manager.entries ==
           ScheduleEach(old(scheduler.manager.entries) - cancelled,
                        RestoredValues(RestoredDetails(objs), old(db.medicineSeq))[..ScheduledCount(objs)], now, PrecisionFor(scheduler.sdk)))
    ensures var medicinesDone := doc.medicines.Some? && ScheduledCount(doc.medicines.value) == |doc.medicines.value|;
      db.history == (if medicinesDone && doc.history.Some?
                     then RestoredHistoryRows(RestoredHistoryItems(doc.history.value), old(db.historySeq))
                     else []) &&
      (outcome == Restored <==> medicinesDone && doc.history.Some? && |RestoredHistoryItems(doc.history.value)| == |doc.history.value|)
  {
    if scheduler.manager != null {
      scheduler.manager.CancelAll(cancelled);
    }
    db.DeleteAllMedicines();
    db.DeleteAllHistory();
    if doc.medicines.None? {
      return RestoreFailed;
    }
    var completed := RestoreMedicines(doc.medicines.value, db, scheduler, now);
    if !completed || doc.history.None? {
      return RestoreFailed;
    }
    completed := RestoreHistory(doc.history.value, db);
    outcome := if completed then Restored else RestoreFailed;
  }

  /** The medicines loop of `performRestore`. */
  method RestoreMedicines(objs: seq<JsonObject>, db: DatabaseHelper, scheduler: AlarmScheduler, now: int) returns (completed: bool)
    requires db.Valid()
    modifies db, scheduler.manager
    ensures db.Valid()
    ensures completed <==> ScheduledCount(objs) == |objs|
    ensures db.medicines == old(db.medicines) + RestoredRows(RestoredDetails(objs), old(db.medicineSeq))[..StoredCount(objs)]
    ensures db.history == old(db.history) && db.historySeq == old(db.historySeq)
    ensures scheduler.manager != null ==>
      scheduler.manager.entries ==
        ScheduleEach(old(scheduler.manager.entries), RestoredValues(RestoredDetails(objs), old(db.medicineSeq))[..ScheduledCount(objs)], now, PrecisionFor(scheduler.sdk))
  {
    ghost var ds := RestoredDetails(objs);
    ghost var base := db.medicineSeq;
    ghost var start := if scheduler.manager != null then scheduler.manager.entries else map[];
    ghost var rows0 := db.medicines;
    var i := 0;
    while i < |objs|
      invariant i <= ScheduledCount(objs)
      invariant db.Valid() && db.medicineSeq == base + i
      invariant db.medicines == rows0 + RestoredRows(ds, base)[..i]
      invariant db.history == old(db.history) && db.historySeq == old(db.historySeq)
      invariant scheduler.manager != null ==>
        scheduler.manager.entries == ScheduleEach(start, RestoredValues(ds, base)[..i], now, PrecisionFor(scheduler.sdk))
    {
      var more := RestoreStep(objs, i, db, scheduler, now, start, rows0, base);
      if !more {
        return false;
      }
      i := i + 1;
    }
    RestoreLoopEnd(objs);
    return true;
  }

  /**
   * One turn of the medicines loop: read the `i`-th object, store it and
   * schedule it. `more` is false where the loop stops: a missing key (nothing
   * stored) or a time that does not parse (stored, not scheduled).
   */
  method RestoreStep(objs: seq<JsonObject>, i: nat, db: DatabaseHelper, scheduler: AlarmScheduler, now: int,
                     ghost start: Table, ghost rows0: seq<MedicineRow>, ghost base: int)
    returns (more: bool)
    requires i < |objs| && i <= ScheduledCount(objs)
    requires db.Valid() && db.medicineSeq == base + i
    requires db.medicines == rows0 + RestoredRows(RestoredDetails(objs), base)[..i]
    requires scheduler.manager != null ==>
      scheduler.manager.entries == ScheduleEach(start, RestoredValues(RestoredDetails(objs), base)[..i], now, PrecisionFor(scheduler.sdk))
    modifies db, scheduler.manager
    ensures db.Valid() && db.history == old(db.history) && db.historySeq == old(db.historySeq)
    ensures more ==>
      i + 1 <= ScheduledCount(objs) && db.medicineSeq == base + i + 1 &&
      db.medicines == rows0 + RestoredRows(RestoredDetails(objs), base)[..i + 1] &&
      (scheduler.manager != null ==>
         scheduler.manager.entries == ScheduleEach(start, RestoredValues(RestoredDetails(objs), base)[..i + 1], now, PrecisionFor(scheduler.sdk)))
    ensures !more ==>
      ScheduledCount(objs) == i &&
      db.medicines == rows0 + RestoredRows(RestoredDetails(objs), base)[..StoredCount(objs)] &&
      (scheduler.manager != null ==>
         scheduler.manager.entries == ScheduleEach(start, RestoredValues(RestoredDetails(objs), base)[..i], now, PrecisionFor(scheduler.sdk)))
  {
    RestoreLoopStep(objs, i);
    var parsed := MedicineFromJson(objs[i]);
    if parsed.None? {
      return false;
    }
    ghost var ds := RestoredDetails(objs);
    more := RestoreOne(parsed.value, db, scheduler, now, start, rows0, RestoredRows(ds, base), RestoredValues(ds, base), i);
  }

  /** One turn of the medicines loop: store the `i`-th medicine as a new active record, then schedule it. */
  method RestoreOne(d: Details, db: DatabaseHelper, scheduler: AlarmScheduler, now: int,
                    ghost start: Table, ghost rows0: seq<MedicineRow>, ghost rows: seq<MedicineRow>, ghost ms: seq<MedicineValue>, ghost i: nat)
    returns (scheduled: bool)
    requires db.Valid()
    requires i < |rows| == |ms|
    requires rows[i] == MedicineRow(db.medicineSeq + 1, d, true)
    requires ms[i] == MedicineValue(Wrap32(db.medicineSeq + 1), d, true)
    requires db.medicines == rows0 + rows[..i]
    requires scheduler.manager != null ==> scheduler.manager.entries == ScheduleEach(start, ms[..i], now, PrecisionFor(scheduler.sdk))
    modifies db, scheduler.manager
    ensures db.Valid() && db.medicineSeq == old(db.medicineSeq) + 1
    ensures db.medicines == rows0 + rows[..i + 1]
    ensures db.history == old(db.history) && db.historySeq == old(db.historySeq)
    ensures scheduled == HasParsableTime(d)
    ensures scheduler.manager != null ==>
      scheduler.manager.entries == ScheduleEach(start, ms[..if scheduled then i + 1 else i], now, PrecisionFor(scheduler.sdk))
  {
    var medicine := new Medicine.Loaded(0, d.medicineName, d.dosage, d.instructions, d.reminderTime, d.reminderDate, d.frequency, true);
    var id := db.AddMedicine(medicine);
    assert rows[..i + 1] == rows[..i] + [rows[i]];
    medicine.SetId(Wrap32(id));
    var outcome := scheduler.ScheduleMedicineAlarm(medicine, now);
    scheduled := outcome != BadReminderTime;
    if scheduled && scheduler.manager != null {
      ScheduleEachStep(start, ms, i, now, PrecisionFor(scheduler.sdk));
    }
  }

  /** The history loop of `performRestore`: the four-argument `addHistory` per object. */
  method RestoreHistory(objs: seq<JsonObject>, db: DatabaseHelper) returns (completed: bool)
    requires db.Valid()
    modifies db
    ensures db.Valid()
    ensures completed <==> |RestoredHistoryItems(objs)| == |objs|
    ensures db.history == old(db.history) + RestoredHistoryRows(RestoredHistoryItems(objs), old(db.historySeq))
    ensures db.medicines == old(db.medicines) && db.medicineSeq == old(db.medicineSeq)
  {
    ghost var items := RestoredHistoryItems(objs);
    ghost var base := db.historySeq;
    var i := 0;
    while i < |objs|
      invariant i <= |items|
      invariant db.Valid() && db.historySeq == base + i
      invariant db.history == old(db.history) + RestoredHistoryRows(items, base)[..i]
      invariant db.medicines == old(db.medicines) && db.medicineSeq == old(db.medicineSeq)
    {
      HistoryLoopStep(objs, i);
      var parsed := HistoryFromJson(objs[i]);
      if parsed.None? {
        assert RestoredHistoryRows(items, base)[..i] == RestoredHistoryRows(items, base);
        return false;
      }
      var item := parsed.value;
      db.AddHistoryDated(item.medicineName, item.date, item.time, item.status);
      assert RestoredHistoryRows(items, base)[..i + 1] == RestoredHistoryRows(items, base)[..i] + [RestoredHistoryRows(items, base)[i]];
      i := i + 1;
    }
    assert RestoredHistoryRows(items, base)[..i] == RestoredHistoryRows(items, base);
    return true;
  }
}
