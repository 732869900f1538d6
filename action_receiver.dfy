/**
 * `NotificationActionReceiver.onReceive`: a button on an alarm
 * notification was pressed. It stops the ringing service, cancels the
 * alarm it believes is the auto-repeat, then records the dose as taken or
 * registers a snooze, and dismisses a notification.
 */
module ActionReceiverHandler {
  import opened Base
  import opened AlarmTable
  import opened Effects
  import opened Database
  import SoundService
  import AlarmReceiverHandler

  const ACTION_MARK_TAKEN: string := "ACTION_MARK_TAKEN"
  const ACTION_SNOOZE: string := "ACTION_SNOOZE"
  const SNOOZE_DELAY_MS: int := 300_000

  /** The guard: an action and an id other than the -1 default. */
  predicate Accepts(action: Option<string>, medicineId: Option<int32>) {
    action.Some? && IntExtra(medicineId, -1) != -1
  }

  /** The snooze registration: five minutes from now, exact, under the snooze key of `id`. */
  function SnoozeEntry(id: int32, name: Option<string>, dosage: Option<string>, now: int, sdk: int): AlarmEntry {
    AlarmEntry(now + SNOOZE_DELAY_MS, ExactPrecisionFor(sdk), Extras(Some(id), name, dosage))
  }

  /** The alarm table after an accepted action. */
  function ActionTable(t: Table, action: string, id: int32, name: Option<string>, dosage: Option<string>, now: int, sdk: int): Table {
    var cancelled := t - {CancelRepeatKey(id)};
    if action == ACTION_SNOOZE then cancelled[SnoozeKey(id) := SnoozeEntry(id, name, dosage, now, sdk)]
    else cancelled
  }

  method OnReceive(action: Option<string>, extras: Extras, now: int, clockText: string, sdk: int,
                   alarms: AlarmManager?, db: DatabaseHelper, service: SoundService.AlarmSoundService,
                   hasNotificationManager: bool)
    returns (effects: seq<Effect>)
    requires db.Valid()
    modifies alarms, db, service
    ensures db.Valid()
    ensures !Accepts(action, extras.medicineId) ==>
      effects == [] && unchanged(db, service) && (alarms != null ==> alarms.entries == old(alarms.entries))
    ensures Accepts(action, extras.medicineId) ==>
      var id := extras.medicineId.value;
      // the service is stopped (its onDestroy runs when it was running)
      (old(service.running) ==> !service.running && !service.Ringing() && service.pendingTimeouts == 0) &&
      (!old(service.running) ==> unchanged(service)) &&
      (alarms != null ==> alarms.entries == ActionTable(old(alarms.entries), action.value, id, extras.medicineName, extras.dosage, now, sdk)) &&
      effects == (if hasNotificationManager then [CancelNotification(id)] else [])
    // Marking taken deletes the medicine and, when there is a name, appends a "Taken" row.
    ensures Accepts(action, extras.medicineId) && action.value == ACTION_MARK_TAKEN ==>
      db.medicines == WithoutId(old(db.medicines), extras.medicineId.value) &&
      db.history == old(db.history) + (if extras.medicineName.Some?
                                       then [HistoryRow(db.historySeq, extras.medicineName.value, clockText, STATUS_TAKEN)]
                                       else [])
    // Every other action leaves the store alone; in particular the service's "I Took It" action.
    ensures action.Some? && action.value != ACTION_MARK_TAKEN ==>
      db.medicines == old(db.medicines) && db.history == old(db.history)
  {
    if !Accepts(action, extras.medicineId) {
      return [];
    }
    var id := extras.medicineId.value;
    service.Stop();
    // cancelAutoRepeat
    if alarms != null {
      alarms.Cancel(CancelRepeatKey(id));
    }
    if action.value == ACTION_MARK_TAKEN {
      // A null name violates the history table's NOT NULL column; the insert fails without throwing.
      if extras.medicineName.Some? {
        db.AddHistory(extras.medicineName.value, clockText, STATUS_TAKEN);
      }
      db.DeleteMedicine(id);
    } else if action.value == ACTION_SNOOZE {
      if alarms != null {
        alarms.Set(SnoozeKey(id), SnoozeEntry(id, extras.medicineName, extras.dosage, now, sdk));
      }
    }
    effects := if hasNotificationManager then [CancelNotification(id)] else [];
  }

  /**
   * Whatever the action, an auto-repeat registered for any medicine survives
   * it unchanged: the key cancelled as "the auto-repeat" is never one.
   */
  lemma {:induction false} ActionKeepsAutoRepeat(t: Table, action: string, id: int32, name: Option<string>, dosage: Option<string>, now: int, sdk: int, other: int32)
    requires AutoRepeatKey(other) in t
    ensures AutoRepeatKey(other) in ActionTable(t, action, id, name, dosage, now, sdk)
    ensures ActionTable(t, action, id, name, dosage, now, sdk)[AutoRepeatKey(other)] == t[AutoRepeatKey(other)]
  {
    CancelRepeatMissesEveryRepeat(id, other);
    SnoozeIsNeverAMain(id, other);
  }

  /** The main alarm and the pre-notice of every medicine also survive any action. */
  lemma {:induction false} ActionKeepsScheduledAlarms(t: Table, action: string, id: int32, name: Option<string>, dosage: Option<string>, now: int, sdk: int, other: int32)
    ensures MainKey(other) in ActionTable(t, action, id, name, dosage, now, sdk) <==> MainKey(other) in t
    ensures PreNoticeKey(other) in ActionTable(t, action, id, name, dosage, now, sdk) <==> PreNoticeKey(other) in t
  {
    CancelRepeatMissesEveryRepeat(id, other);
    SnoozeIsNeverAMain(id, other);
  }

  /** After a snooze the snooze key of `id` holds the five-minute entry, and the cancelled key is gone. */
  lemma {:induction false} SnoozeRegisters(t: Table, id: int32, name: Option<string>, dosage: Option<string>, now: int, sdk: int)
    ensures SnoozeKey(id) in ActionTable(t, ACTION_SNOOZE, id, name, dosage, now, sdk)
    ensures ActionTable(t, ACTION_SNOOZE, id, name, dosage, now, sdk)[SnoozeKey(id)].fireAt == now + SNOOZE_DELAY_MS
    ensures CancelRepeatKey(id) !in ActionTable(t, ACTION_SNOOZE, id, name, dosage, now, sdk)
  {
    KeysOfOneMedicineDistinct(id);
  }

  /**
   * The "I Took It" action the ringing service puts on its notification is
   * neither of the two actions handled here, so it takes the do-nothing path.
   */
  lemma {:induction false} TakenButtonIsNotHandled(t: Table, id: int32, name: Option<string>, dosage: Option<string>, now: int, sdk: int)
    ensures SoundService.ACTION_TAKEN != ACTION_MARK_TAKEN && SoundService.ACTION_TAKEN != ACTION_SNOOZE
    ensures ActionTable(t, SoundService.ACTION_TAKEN, id, name, dosage, now, sdk) == t - {CancelRepeatKey(id)}
  {
    assert SoundService.ACTION_TAKEN[7] != ACTION_MARK_TAKEN[7];
  }

  /** The notification dismissed is the service's foreground one, never the receiver's alarm notification. */
  lemma {:induction false} DismissMissesAlarmNotification(id: int32)
    ensures CancelNotification(id) != CancelNotification(AlarmReceiverHandler.AlarmNotificationId(id))
    ensures SoundService.ForegroundNotification(id, None, None).id == id
  {
    Wrap32Distinct(id, AlarmReceiverHandler.ALARM_NOTIFICATION_BASE);
  }
}
