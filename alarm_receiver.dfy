/**
 * `AlarmReceiver.onReceive`: the main alarm fires. After checking the
 * extras it holds a wake lock, shows the ongoing alarm notification and
 * starts the ringing service; a `finally` block posts the lock's release.
 */
module AlarmReceiverHandler {
  import opened Base
  import opened Text
  import opened AlarmTable
  import opened Effects

  const ALARM_NOTIFICATION_BASE: int := 1000
  const ALARM_CHANNEL: string := "alarm_channel"
  /** The receiver's wake lock is acquired for ten minutes... */
  const ALARM_WAKE_LOCK_MS: int := 600_000
  /** ...and its release is posted five seconds later. */
  const ALARM_RELEASE_DELAY_MS: int := 5000

  /** The host call that throws, if any. Failures inside `startAlarmService` are caught there. */
  datatype Fault = NoFault | WakeLockFails | NotifyFails | ServiceStartFails

  function AlarmNotificationId(id: int32): int32 {
    Wrap32(ALARM_NOTIFICATION_BASE + id)
  }

  /** The ongoing alarm notification, its text "name - dosage". */
  function AlarmNotification(id: int32, name: string, dosage: Option<string>): Notification {
    Notification(AlarmNotificationId(id), ALARM_CHANNEL, name + " - " + Str(dosage), false, true, None, [])
  }

  /** The guard: an id other than the -1 default, and a name. */
  predicate Accepts(extras: Extras) {
    IntExtra(extras.medicineId, -1) != -1 && extras.medicineName.Some?
  }

  method OnReceive(extras: Extras, fault: Fault) returns (effects: seq<Effect>)
    ensures !Accepts(extras) ==> effects == []
    ensures Accepts(extras) && fault == NoFault ==>
      effects == [AcquireWakeLock(FullWakeLock, ALARM_WAKE_LOCK_MS),
                  Notify(AlarmNotification(extras.medicineId.value, extras.medicineName.value, extras.dosage)),
                  StartAlarmService(extras),
                  PostDelayed(ALARM_RELEASE_DELAY_MS, ReleaseWakeLock)]
    // Whatever throws, a lock that was taken gets its release posted, as the last step.
    ensures AcquireWakeLock(FullWakeLock, ALARM_WAKE_LOCK_MS) in effects <==> PostDelayed(ALARM_RELEASE_DELAY_MS, ReleaseWakeLock) in effects
    ensures effects != [] ==> effects[|effects| - 1] == PostDelayed(ALARM_RELEASE_DELAY_MS, ReleaseWakeLock)
    ensures AcquireWakeLock(FullWakeLock, ALARM_WAKE_LOCK_MS) in effects <==> Accepts(extras) && fault != WakeLockFails
    // The service is started with exactly the extras received, and only after the notification.
    ensures forall e :: e in effects && e.StartAlarmService? ==> e.extras == extras
    ensures forall i :: 0 <= i < |effects| && effects[i].StartAlarmService? ==>
      i > 0 && effects[i - 1] == Notify(AlarmNotification(extras.medicineId.value, extras.medicineName.value, extras.dosage))
    ensures forall e :: e in effects && e.Notify? ==>
      e.notification == AlarmNotification(extras.medicineId.value, extras.medicineName.value, extras.dosage)
  {
    if !Accepts(extras) {
      return [];
    }
    var id := extras.medicineId.value;
    var name := extras.medicineName.value;
    effects := [];
    var held := false;
    if fault != WakeLockFails {
      effects := effects + [AcquireWakeLock(FullWakeLock, ALARM_WAKE_LOCK_MS)];
      held := true;
      if fault != NotifyFails {
        effects := effects + [Notify(AlarmNotification(id, name, extras.dosage))];
        // startAlarmService catches its own failure.
        if fault != ServiceStartFails {
          effects := effects + [StartAlarmService(Extras(Some(id), Some(name), extras.dosage))];
        }
      }
    }
    // finally
    if held {
      effects := effects + [PostDelayed(ALARM_RELEASE_DELAY_MS, ReleaseWakeLock)];
    }
  }
}
