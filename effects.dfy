/**
 * What the event handlers ask of the host beyond the alarm table and the
 * store: wake locks, notifications, service and activity starts, and
 * callbacks posted to run later. Each handler returns these in the order it
 * issues them.
 */
module Effects {
  import opened Base
  import opened AlarmTable

  datatype WakeLockKind = FullWakeLock | ScreenBrightWakeLock

  /** A callback posted with `Handler.postDelayed`. */
  datatype DelayedTask =
    | ReleaseWakeLock          // AlarmReceiver's lock
    | ReleaseReminderWakeLocks // ReminderNotificationReceiver's two locks
    | RescheduleAfterBoot      // BootReceiver's recovery loop

  /** A button on a notification: the broadcast action and its request code. */
  datatype NotificationAction = NotificationAction(action: string, requestCode: int32)

  datatype Notification = Notification(
    id: int32,
    channel: string,
    text: string,
    autoCancel: bool,
    ongoing: bool,
    timeoutAfterMs: Option<int>,
    actions: seq<NotificationAction>)

  datatype Effect =
    | AcquireWakeLock(kind: WakeLockKind, timeoutMs: int)
    | Notify(notification: Notification)
    | StartAlarmService(extras: Extras)
    | StartForeground(notification: Notification)
    | OpenMainActivity(medicineName: Option<string>, dosage: Option<string>)
    | ShowReminderDialog(medicineName: Option<string>, dosage: Option<string>)
    | PostDelayed(delayMs: int, task: DelayedTask)
    | StopAlarmService
    | CancelNotification(id: int32)

  /** `getIntExtra(name, default)`. */
  function IntExtra(stored: Option<int32>, default: int32): int32 {
    if stored.Some? then stored.value else default
  }
}
