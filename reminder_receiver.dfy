/**
 * `ReminderNotificationReceiver.onReceive`: the five-minute pre-notice
 * fires. It checks nothing, shows a self-dismissing notification and the
 * reminder dialog, and registers no further alarm.
 */
module ReminderReceiverHandler {
  import opened Base
  import opened Text
  import opened AlarmTable
  import opened Effects
  import AlarmReceiverHandler

  const REMINDER_NOTIFICATION_BASE: int := 2000
  const REMINDER_CHANNEL: string := "medicine_reminder_channel"
  /** Both wake locks are acquired for three minutes... */
  const REMINDER_WAKE_LOCK_MS: int := 180_000
  /** ...and their release is posted two seconds later. */
  const REMINDER_RELEASE_DELAY_MS: int := 2000
  /** The notification removes itself after five minutes. */
  const REMINDER_TIMEOUT_MS: int := 300_000

  /** The host call that throws, if any. A failing dialog start is caught where it happens. */
  datatype Fault = NoFault | WakeLockFails | ScreenWakeLockFails | NotifyFails | DialogFails

  function ReminderNotificationId(id: int32): int32 {
    Wrap32(REMINDER_NOTIFICATION_BASE + id)
  }

  function ReminderNotification(id: int32, name: Option<string>, dosage: Option<string>): Notification {
    Notification(ReminderNotificationId(id), REMINDER_CHANNEL,
                 Str(name) + " (" + Str(dosage) + ") - in 5 minutes!", true, false, Some(REMINDER_TIMEOUT_MS), [])
  }

  method OnReceive(extras: Extras, fault: Fault) returns (effects: seq<Effect>)
    // No guard: a missing id reads as 0 and a missing name prints as "null".
    ensures fault == NoFault ==>
      effects == [AcquireWakeLock(FullWakeLock, REMINDER_WAKE_LOCK_MS),
                  AcquireWakeLock(ScreenBrightWakeLock, REMINDER_WAKE_LOCK_MS),
                  Notify(ReminderNotification(IntExtra(extras.medicineId, 0), extras.medicineName, extras.dosage)),
                  ShowReminderDialog(extras.medicineName, extras.dosage),
                  PostDelayed(REMINDER_RELEASE_DELAY_MS, ReleaseReminderWakeLocks)]
    ensures fault == DialogFails ==>
      Notify(ReminderNotification(IntExtra(extras.medicineId, 0), extras.medicineName, extras.dosage)) in effects
    // The release is posted exactly when the full lock was taken, and is the last step.
    ensures PostDelayed(REMINDER_RELEASE_DELAY_MS, ReleaseReminderWakeLocks) in effects <==> AcquireWakeLock(FullWakeLock, REMINDER_WAKE_LOCK_MS) in effects
    ensures AcquireWakeLock(FullWakeLock, REMINDER_WAKE_LOCK_MS) in effects <==> fault != WakeLockFails
    ensures effects != [] ==> effects[|effects| - 1] == PostDelayed(REMINDER_RELEASE_DELAY_MS, ReleaseReminderWakeLocks)
    ensures forall e :: e in effects && e.Notify? ==>
      e.notification.autoCancel && e.notification.timeoutAfterMs == Some(REMINDER_TIMEOUT_MS) &&
      e.notification.id == ReminderNotificationId(IntExtra(extras.medicineId, 0))
    // Terminal: nothing is started that could ring or register again.
    ensures forall e :: e in effects ==> !e.StartAlarmService? && !e.StartForeground?
  {
    effects := [];
    var fullHeld := false;
    if fault != WakeLockFails {
      effects := effects + [AcquireWakeLock(FullWakeLock, REMINDER_WAKE_LOCK_MS)];
      fullHeld := true;
      if fault != ScreenWakeLockFails {
        effects := effects + [AcquireWakeLock(ScreenBrightWakeLock, REMINDER_WAKE_LOCK_MS)];
        var id := IntExtra(extras.medicineId, 0);
        if fault != NotifyFails {
          effects := effects + [Notify(ReminderNotification(id, extras.medicineName, extras.dosage))];
          if fault != DialogFails {
            effects := effects + [ShowReminderDialog(extras.medicineName, extras.dosage)];
          }
        }
      }
    }
    // finally
    if fullHeld {
      effects := effects + [PostDelayed(REMINDER_RELEASE_DELAY_MS, ReleaseReminderWakeLocks)];
    }
  }

  /** The pre-notice and the main alarm of one medicine use different notification ids... */
  lemma {:induction false} NotificationIdsDiffer(id: int32)
    ensures ReminderNotificationId(id) != AlarmReceiverHandler.AlarmNotificationId(id)
  {
    Wrap32Distinct(AlarmReceiverHandler.ALARM_NOTIFICATION_BASE + id, 1000);
  }

  /** ...but the pre-notice of `id` shares its id with the main alarm notification of `id + 1000`. */
  lemma {:induction false} PreNoticeSharesIdWithAnotherAlarm(id: int32)
    ensures ReminderNotificationId(id) == AlarmReceiverHandler.AlarmNotificationId(Wrap32(id + 1000))
  {
    var w := Wrap32(id + 1000);
    assert (id + 1000 - w) % TWO_POW_32 == 0;
    assert ((1000 + w) - (2000 + id)) % TWO_POW_32 == 0;
    WrapCongruent(1000 + w, 2000 + id);
  }
}
