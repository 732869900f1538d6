# MedTrack alarm engine and records, in Dafny

MedTrack is an Android medication-reminder app. This project models its
core and proves properties of the model. The core has two parts.

The **alarm trigger engine**:

- `AlarmScheduler` registers a medicine's main alarm and its five-minute pre-notice in the host alarm facility.
- `AlarmReceiver` rings when the main alarm fires.
- `AlarmSoundService` plays the sound for a minute and then arms an auto-repeat.
- `ReminderNotificationReceiver` shows the pre-notice.
- `NotificationActionReceiver` handles the Stop, Snooze and Taken buttons.
- `BootReceiver` reschedules everything after a reboot.

The **record keeping** around it:

- `DatabaseHelper` (the medicines and history tables) and the `Medicine` record.
- The add and edit screens' form checks.
- The medicine list's taken and missed buttons.
- History filtering and calendar counting.
- The settings screen: its switches, the ringtone picker, and backup and restore.

The host alarm facility is a map (`AlarmTable`). A key is the receiving
class, the intent action (or none) and the request code, which is how
Android identifies a `PendingIntent`. Registering a key again replaces its
entry, and cancelling removes it.

Request codes and notification ids are Java `int` sums, written with
explicit 32-bit wrap-around (`Base.Wrap32`). Instants are milliseconds, and a
day is a fixed 86 400 000 ms. `now`, the SDK level, the picker's fields and
the failing host call (if any) are parameters.

Event handlers come in two forms:

- Handlers that change the alarm table, the store or the service's fields are methods on those objects.
- Effects the model does not simulate are returned as an ordered `seq<Effect>`: wake locks, notifications, service and activity starts, and callbacks posted with `postDelayed`.

A delayed callback is a separate method, run as a later event (`AlarmSoundService.OnRingTimeout`, `BootReceiverHandler.RescheduleAll`).

What the proofs show about the source, in brief:

- The key `NotificationActionReceiver` cancels as "the auto-repeat" is `(AlarmReceiver, no action, id+10000)`. That is never the auto-repeat key `(AlarmReceiver, ALARM_TRIGGER, id+20000)`, so every action leaves the repeat armed (`CancelRepeatMissesEveryRepeat`, `ActionKeepsAutoRepeat`).
- The auto-repeat of medicine `id` *is* the main alarm key of medicine `id+20000` (`AutoRepeatIsAnotherMain`).
- The pre-notice notification of `id` has the same id as the alarm notification of `id+1000` (`PreNoticeSharesIdWithAnotherAlarm`).
- The service's "I Took It" button sends `ACTION_TAKEN`. The receiver handles only `ACTION_MARK_TAKEN` and `ACTION_SNOOZE`, so that button records nothing (`TakenButtonIsNotHandled`).
- `BootReceiver` and `performRestore` run their loops inside one `try`. The first stored time that does not parse ends the loop (`RescheduleAll`, `PerformRestore`). In a restore, that medicine has already been stored.
- Backup followed by restore keeps every medicine's six fields, but it reverses the order of the history. Every history item in the file is dated with the backup day, and the history table stores no date at all (`BackupRestoreHistory`).
- `onStartCommand` can run again while the service rings, for example when the auto-repeat or a snooze fires. It replaces the `ringtone` field without stopping the Ringtone there. From then on no stop reaches the earlier Ringtone, and it outlives the service (`RetriggerOutlivesService`).
- The history screen's "Total medicines taken" counts missed doses too (`TotalIncludesMissed`).

## Model

| member | source | states |
|---|---|---|
| AlarmTable.ExactPrecisionFor | app/src/main/java/com/AbdulPaito/medtrack/AlarmSoundService.java:216-228 | The service and the snooze use exact-while-idle from API 23 on and exact before it, and never the inexact `set` |
| AlarmTable.AlarmManager.Set | app/src/main/java/com/AbdulPaito/medtrack/AlarmScheduler.java:104-108 | Registering a key maps it to the new entry (replacing any old one) and leaves every other key alone |
| AlarmTable.AlarmManager.Cancel | app/src/main/java/com/AbdulPaito/medtrack/AlarmScheduler.java:190-218 | Cancelling removes exactly that key; an absent key is a no-op |
| AlarmTable.AlarmManager.CancelAll | app/src/main/java/com/AbdulPaito/medtrack/SettingsActivity.java:288-289 | `cancelAllAlarms` removes exactly the given set of keys |
| AlarmTable.KeysOfOneMedicineDistinct | app/src/main/java/com/AbdulPaito/medtrack/AlarmSoundService.java:197-208 | The main, pre-notice, auto-repeat, snooze and cancelled-repeat keys of one medicine are pairwise different, so arming the repeat replaces neither the main alarm nor the pre-notice |
| AlarmTable.CancelRepeatMissesEveryRepeat | app/src/main/java/com/AbdulPaito/medtrack/NotificationActionReceiver.java:104-117 | The key cancelled as "the auto-repeat" is no medicine's repeat, main or pre-notice key |
| AlarmTable.AutoRepeatIsAnotherMain | app/src/main/java/com/AbdulPaito/medtrack/AlarmSoundService.java:197-208 | The repeat key of `id` equals the main key of `id+20000` |
| AlarmTable.CancelRepeatIsAnotherSnooze | app/src/main/java/com/AbdulPaito/medtrack/NotificationActionReceiver.java:105-111 | The cancelled "repeat" key of `id` is the snooze key of `id+10000` |
| AlarmTable.SnoozeIsNeverAMain | app/src/main/java/com/AbdulPaito/medtrack/NotificationActionReceiver.java:70-80 | A snooze (no action) is never any medicine's main or repeat key, so snoozing again replaces only the earlier snooze |
| FireTime.ParseReminderTime | app/src/main/java/com/AbdulPaito/medtrack/AlarmScheduler.java:34-36 | A parsed time is pieces 0 and 1 of `split(":")` read by `Integer.parseInt` on ASCII digits; None where Java throws on such text |
| FireTime.ParseTimeText | app/src/main/java/com/AbdulPaito/medtrack/AddMedicineActivity.java:138-140 | Every "%02d:%02d" picker time parses back to the same hour and minute |
| FireTime.DayStart | app/src/main/java/com/AbdulPaito/medtrack/AlarmScheduler.java:39-44 | Midnight of `now`'s day is at most `now`, less than a day before it, and a whole number of days |
| FireTime.NextFireTimeBounds | app/src/main/java/com/AbdulPaito/medtrack/AlarmScheduler.java:34-49 | The main alarm is strictly after `now`, at most a day later, and exactly at hour:minute:00.000 |
| FireTime.TodayOrTomorrow | app/src/main/java/com/AbdulPaito/medtrack/AlarmScheduler.java:46-47 | Today's slot is kept iff it is strictly after `now`; otherwise it moves one day on |
| FireTime.PreNoticeRule | app/src/main/java/com/AbdulPaito/medtrack/AlarmScheduler.java:51-54 | With truncating division, a pre-notice is due iff at least six whole minutes remain; it is then 5 minutes before the alarm and at least a minute after `now` |
| Scheduler.PrecisionFor | app/src/main/java/com/AbdulPaito/medtrack/AlarmScheduler.java:112-133 | Exact-while-idle iff SDK >= M, exact iff KITKAT <= SDK < M, inexact iff SDK < KITKAT |
| Scheduler.CanScheduleExactAlarms | app/src/main/java/com/AbdulPaito/medtrack/AlarmScheduler.java:223-228 | Always true below S; from S on, true iff there is a manager and it grants the permission |
| Scheduler.AlarmTimeOfPicked | app/src/main/java/com/AbdulPaito/medtrack/AlarmScheduler.java:34-49 | A record saved from the picker is scheduled at the picker's hour and minute |
| Scheduler.AlarmScheduler.constructor | app/src/main/java/com/AbdulPaito/medtrack/AlarmScheduler.java:22-26 | The scheduler keeps the (possibly null) manager and the API level |
| Scheduler.AlarmScheduler.ScheduleMedicineAlarm | app/src/main/java/com/AbdulPaito/medtrack/AlarmScheduler.java:30-83 | An unparsable time changes nothing. A null manager registers nothing. Otherwise the table becomes `ScheduleTable` of the old one |
| Scheduler.AlarmScheduler.Schedule5MinuteReminder | app/src/main/java/com/AbdulPaito/medtrack/AlarmScheduler.java:88-134 | The pre-notice key now holds alarm-5 min with the medicine's extras; nothing else changes |
| Scheduler.AlarmScheduler.ScheduleMainAlarm | app/src/main/java/com/AbdulPaito/medtrack/AlarmScheduler.java:139-176 | The main key now holds the alarm with the medicine's extras; nothing else changes |
| Scheduler.AlarmScheduler.CancelMedicineAlarm | app/src/main/java/com/AbdulPaito/medtrack/AlarmScheduler.java:181-185 | The same as cancelling all of the medicine's alarms |
| Scheduler.AlarmScheduler.CancelAllAlarmsForMedicine | app/src/main/java/com/AbdulPaito/medtrack/AlarmScheduler.java:190-218 | Removes the main and pre-notice keys of the id, and does nothing with a null manager |
| Scheduler.ScheduleTableEntries | app/src/main/java/com/AbdulPaito/medtrack/AlarmScheduler.java:66-77 | After scheduling, the main key holds the alarm; the pre-notice key is present iff six minutes remain (then 5 min earlier, after `now`); every other key is as before |
| Scheduler.ScheduleTableIdempotent | app/src/main/java/com/AbdulPaito/medtrack/AlarmScheduler.java:66-77 | Scheduling twice at the same `now` gives the table scheduling once gives |
| Scheduler.ScheduleAbsorbsCancel | app/src/main/java/com/AbdulPaito/medtrack/AlarmScheduler.java:66 | Cancelling before scheduling changes nothing, because scheduling cancels first |
| Scheduler.CancelTableKeeps | app/src/main/java/com/AbdulPaito/medtrack/AlarmScheduler.java:190-218 | Cancel removes only the main and pre-notice keys; the repeat and snooze of that id stay |
| Scheduler.ScheduleTableOtherMedicine | app/src/main/java/com/AbdulPaito/medtrack/AlarmScheduler.java:98-108 | Scheduling one medicine never adds or removes another medicine's main or pre-notice key |
| Scheduler.ScheduleTableKeepsMains | app/src/main/java/com/AbdulPaito/medtrack/AlarmScheduler.java:140-151 | After scheduling `m`, a main key is present iff it is `m`'s or was present before |
| Scheduler.ScheduleFoldStep | app/src/main/java/com/AbdulPaito/medtrack/BootReceiver.java:34-37 | One more scheduled medicine extends the table of the prefix by exactly its scheduling |
| Scheduler.ScheduleEachStep | app/src/main/java/com/AbdulPaito/medtrack/BootReceiver.java:34-37 | The same step for medicines whose time parses |
| Scheduler.ScheduleFoldHasMain | app/src/main/java/com/AbdulPaito/medtrack/BootReceiver.java:34-37 | After scheduling a list in order, every medicine that had an instant has its main key, whichever ids repeat |
| Scheduler.ScheduleEachHasMain | app/src/main/java/com/AbdulPaito/medtrack/BootReceiver.java:34-37 | Every listed medicine whose time parses has its main key afterwards |
| Scheduler.ScheduleFoldKeepsOthers | app/src/main/java/com/AbdulPaito/medtrack/AlarmScheduler.java:190-218 | A key that is no listed medicine's main or pre-notice key keeps its entry through the whole list |
| Scheduler.ScheduleEachKeepsOthers | app/src/main/java/com/AbdulPaito/medtrack/SettingsActivity.java:296-314 | The same for the scheduling loops of boot recovery and restore |
| SoundService.ChooseSound | app/src/main/java/com/AbdulPaito/medtrack/AlarmSoundService.java:117-141 | No sound iff silent mode; a stored URI other than "default" is used as is; otherwise the default alarm sound, or the default ringtone iff there is none |
| SoundService.ForegroundActions | app/src/main/java/com/AbdulPaito/medtrack/AlarmSoundService.java:239-261 | Three buttons: Stop, Snooze and "I Took It", in that order |
| SoundService.WakeLocksAcquiredOnce | app/src/main/java/com/AbdulPaito/medtrack/AlarmSoundService.java:70-75 | Each wake lock is acquired iff it is not already held, always for 120 000 ms, and at most two are acquired |
| SoundService.ActionRequestCodesDistinct | app/src/main/java/com/AbdulPaito/medtrack/AlarmSoundService.java:239-269 | The request codes id*10+1, +2, +3 and +4 (with int wrap-around) are pairwise different |
| SoundService.AlarmSoundService.constructor | app/src/main/java/com/AbdulPaito/medtrack/AlarmSoundService.java:42-60 | A new service holds nothing, plays nothing and has nothing posted |
| SoundService.AlarmSoundService.OnStartCommand | app/src/main/java/com/AbdulPaito/medtrack/AlarmSoundService.java:63-101 | Always returns START_REDELIVER_INTENT. A null intent changes nothing. Otherwise the extras are taken over, the missing wake locks are acquired, the service goes to the foreground unless the id is 0, sound and vibration start as the preferences say, the app is opened and one more timeout is posted. A start while the earlier Ringtone plays orphans it |
| SoundService.AlarmSoundService.TakeOver | app/src/main/java/com/AbdulPaito/medtrack/AlarmSoundService.java:65-82 | The extras, the wake locks and the foreground notification, refused for id 0 |
| SoundService.AlarmSoundService.AcquireWakeLocks | app/src/main/java/com/AbdulPaito/medtrack/AlarmSoundService.java:70-75 | Both locks end up held; the effects are exactly the acquisitions of the locks not already held |
| SoundService.AlarmSoundService.StartAlarmSound | app/src/main/java/com/AbdulPaito/medtrack/AlarmSoundService.java:117-163 | Silent mode changes nothing. Otherwise a new Ringtone of the chosen sound replaces the field and plays. A Ringtone still playing in the field is not stopped and becomes orphaned |
| SoundService.AlarmSoundService.StartVibration | app/src/main/java/com/AbdulPaito/medtrack/AlarmSoundService.java:165-183 | Vibration starts iff "vibration_enabled" (default true) and the device has a vibrator |
| SoundService.AlarmSoundService.StopAlarmSound | app/src/main/java/com/AbdulPaito/medtrack/AlarmSoundService.java:185-193 | The Ringtone in the field stops if it plays, and vibration stops; orphaned Ringtones play on; nothing else changes |
| SoundService.AlarmSoundService.OnRingTimeout | app/src/main/java/com/AbdulPaito/medtrack/AlarmSoundService.java:92-96 | The delayed step: the field's Ringtone stops, the repeat key is set to now + 5 min, and the service stops, releasing its locks and its foreground notification; orphaned Ringtones play on |
| SoundService.AlarmSoundService.ScheduleAutoRepeat | app/src/main/java/com/AbdulPaito/medtrack/AlarmSoundService.java:195-230 | The repeat key (AlarmReceiver, ALARM_TRIGGER, id+20000) holds now + 300 000 ms, exact; nothing else changes |
| SoundService.AlarmSoundService.OnDestroy | app/src/main/java/com/AbdulPaito/medtrack/AlarmSoundService.java:328-342 | The field's Ringtone and vibration stop, every posted timeout is removed, both locks are released and the foreground notification goes with the service; orphaned Ringtones outlive the service |
| SoundService.RetriggerOutlivesService | app/src/main/java/com/AbdulPaito/medtrack/AlarmSoundService.java:63-96 | An alarm that fires again while the service rings, followed by the timeout, leaves the service stopped and the first Ringtone still playing |
| SoundService.AlarmSoundService.Stop | app/src/main/java/com/AbdulPaito/medtrack/NotificationActionReceiver.java:28-29 | `stopService` destroys a running service and leaves a stopped one alone; orphaned Ringtones play on either way |
| AlarmReceiverHandler.OnReceive | app/src/main/java/com/AbdulPaito/medtrack/AlarmReceiver.java:24-78 | An id of -1 or a null name gives no effects. Otherwise: lock, notification 1000+id with "name - dosage", service start with the same extras, release 5 s later. The release is posted, last, exactly when the lock was taken, whatever fails. No alarm is registered |
| ReminderReceiverHandler.OnReceive | app/src/main/java/com/AbdulPaito/medtrack/ReminderNotificationReceiver.java:25-78 | No guard (id defaults to 0): two locks, an auto-cancelling notification 2000+id that times out after 5 min, then the dialog. A failing dialog keeps the notification. The 2 s release is posted, last, iff the full lock was taken. Nothing rings or is registered |
| ReminderReceiverHandler.NotificationIdsDiffer | app/src/main/java/com/AbdulPaito/medtrack/ReminderNotificationReceiver.java:151 | The pre-notice id 2000+id differs from the alarm notification id 1000+id |
| ReminderReceiverHandler.PreNoticeSharesIdWithAnotherAlarm | app/src/main/java/com/AbdulPaito/medtrack/AlarmReceiver.java:165 | The pre-notice id of `id` equals the alarm notification id of `id+1000` |
| ActionReceiverHandler.OnReceive | app/src/main/java/com/AbdulPaito/medtrack/NotificationActionReceiver.java:19-117 | A null action or id -1 changes nothing. Otherwise the service is stopped, the id+10000 no-action key is removed and notification `id` is dismissed. Mark-taken deletes the medicine and appends a "Taken" row when there is a name. Snooze sets the snooze key to now + 5 min. Every other action leaves the store alone |
| ActionReceiverHandler.ActionKeepsAutoRepeat | app/src/main/java/com/AbdulPaito/medtrack/NotificationActionReceiver.java:32 | Whatever the action, every armed auto-repeat keeps its entry |
| ActionReceiverHandler.ActionKeepsScheduledAlarms | app/src/main/java/com/AbdulPaito/medtrack/NotificationActionReceiver.java:52-66 | Every medicine's main and pre-notice keys survive every action, mark-taken included |
| ActionReceiverHandler.SnoozeRegisters | app/src/main/java/com/AbdulPaito/medtrack/NotificationActionReceiver.java:68-102 | After a snooze the snooze key fires at now + 300 000 and the cancelled key is absent |
| ActionReceiverHandler.TakenButtonIsNotHandled | app/src/main/java/com/AbdulPaito/medtrack/NotificationActionReceiver.java:34-42 | ACTION_TAKEN is neither handled action, so it only removes the cancelled key |
| ActionReceiverHandler.DismissMissesAlarmNotification | app/src/main/java/com/AbdulPaito/medtrack/NotificationActionReceiver.java:45-49 | The dismissed notification `id` is the service's foreground notification, never the receiver's 1000+id |
| BootReceiverHandler.OnReceive | app/src/main/java/com/AbdulPaito/medtrack/BootReceiver.java:19-45 | Only BOOT_COMPLETED does anything: it posts the recovery 5000 ms later |
| BootReceiverHandler.LoadedValues | app/src/main/java/com/AbdulPaito/medtrack/database/DatabaseHelper.java:117-131 | One record per row, in order, with the id narrowed to an int |
| BootReceiverHandler.ParsablePrefix | app/src/main/java/com/AbdulPaito/medtrack/BootReceiver.java:26-42 | The prefix that parses is no longer than the list |
| BootReceiverHandler.ParsablePrefixSpec | app/src/main/java/com/AbdulPaito/medtrack/BootReceiver.java:26-42 | Every medicine before the cut parses, and the one at the cut does not |
| BootReceiverHandler.ParsablePrefixPast | app/src/main/java/com/AbdulPaito/medtrack/BootReceiver.java:34-37 | A parsable medicine inside the prefix does not end it |
| BootReceiverHandler.RescheduleAll | app/src/main/java/com/AbdulPaito/medtrack/BootReceiver.java:26-42 | The active medicines are scheduled in query order up to the first unparsable time. `rescheduledCount` is that number, and it equals the list length iff nothing threw |
| BootReceiverHandler.RescheduleEach | app/src/main/java/com/AbdulPaito/medtrack/BootReceiver.java:32-39 | The loop: count and table as above |
| BootReceiverHandler.RescheduleOne | app/src/main/java/com/AbdulPaito/medtrack/BootReceiver.java:35-36 | One turn schedules the medicine iff its time parses |
| BootReceiverHandler.RecoveryRegistersEveryMain | app/src/main/java/com/AbdulPaito/medtrack/BootReceiver.java:29-37 | After a complete recovery every active stored medicine has its main alarm again |
| Database.TextLeTotal | app/src/main/java/com/AbdulPaito/medtrack/database/DatabaseHelper.java:110-112 | The text order used by ORDER BY is total |
| Database.InsertByTime | app/src/main/java/com/AbdulPaito/medtrack/database/DatabaseHelper.java:110-112 | Inserting one row into a list adds exactly that row |
| Database.InsertByTimeSorted | app/src/main/java/com/AbdulPaito/medtrack/database/DatabaseHelper.java:110-112 | Inserting into a time-sorted list keeps it sorted |
| Database.SortByTimeSpec | app/src/main/java/com/AbdulPaito/medtrack/database/DatabaseHelper.java:110-112 | The sort's result is ordered by reminder_time and is a permutation of its input |
| Database.ActiveRows | app/src/main/java/com/AbdulPaito/medtrack/database/DatabaseHelper.java:110-112 | A row is kept iff it is active |
| Database.ActiveByTimeSpec | app/src/main/java/com/AbdulPaito/medtrack/database/DatabaseHelper.java:110-130 | `getAllMedicines` returns exactly the active rows, each once, in non-decreasing reminder_time |
| Database.WithoutId | app/src/main/java/com/AbdulPaito/medtrack/database/DatabaseHelper.java:138-142 | A row remains iff its id differs |
| Database.WithoutIdAscending | app/src/main/java/com/AbdulPaito/medtrack/database/DatabaseHelper.java:138-142 | Deleting keeps the ids ascending |
| Database.WithoutAbsentId | app/src/main/java/com/AbdulPaito/medtrack/database/DatabaseHelper.java:138-142 | Deleting an absent id is a no-op |
| Database.InsertById | app/src/main/java/com/AbdulPaito/medtrack/database/DatabaseHelper.java:93-106 | Inserting adds exactly the new row |
| Database.InsertByIdAscending | app/src/main/java/com/AbdulPaito/medtrack/database/DatabaseHelper.java:93-106 | Inserting a row with a new id keeps the ids ascending |
| Database.NewestFirst | app/src/main/java/com/AbdulPaito/medtrack/database/DatabaseHelper.java:172-173 | The history read backwards: element i is row n-1-i |
| Database.DatabaseHelper.constructor | app/src/main/java/com/AbdulPaito/medtrack/database/DatabaseHelper.java:42-64 | Both tables start empty with their counters at 0 |
| Database.DatabaseHelper.OnUpgrade | app/src/main/java/com/AbdulPaito/medtrack/database/DatabaseHelper.java:67-71 | Both tables are empty afterwards |
| Database.DatabaseHelper.AddMedicine | app/src/main/java/com/AbdulPaito/medtrack/database/DatabaseHelper.java:77-91 | The new row's id is above every id handed out before; the row holds the record's fields and active flag; history is untouched |
| Database.DatabaseHelper.RestoreMedicine | app/src/main/java/com/AbdulPaito/medtrack/database/DatabaseHelper.java:93-106 | Inserts under the record's own id. An id already present leaves the table as it was. The counter rises to cover the new id |
| Database.DatabaseHelper.GetAllMedicines | app/src/main/java/com/AbdulPaito/medtrack/database/DatabaseHelper.java:108-136 | One fresh record per active row, in reminder-time order |
| Database.DatabaseHelper.DeleteMedicine | app/src/main/java/com/AbdulPaito/medtrack/database/DatabaseHelper.java:138-142 | Exactly the rows with that id are removed |
| Database.DatabaseHelper.GetMedicineCount | app/src/main/java/com/AbdulPaito/medtrack/database/DatabaseHelper.java:144-153 | The count of active rows, which is the length of `getAllMedicines()` |
| Database.DatabaseHelper.AddHistory | app/src/main/java/com/AbdulPaito/medtrack/database/DatabaseHelper.java:159-167 | Appends exactly one row under a new, higher history id |
| Database.DatabaseHelper.AddHistoryDated | app/src/main/java/com/AbdulPaito/medtrack/SettingsActivity.java:320-325 | The four-argument insert: the same append as the three-argument one; the table has no date column, so the date is dropped |
| Database.DatabaseHelper.GetAllHistory | app/src/main/java/com/AbdulPaito/medtrack/database/DatabaseHelper.java:169-188 | Every row, newest (highest history id) first, each stamped with today's date |
| Database.DatabaseHelper.DeleteAllMedicines | app/src/main/java/com/AbdulPaito/medtrack/SettingsActivity.java:292 | The medicines table is empty; history is untouched |
| Database.DatabaseHelper.DeleteAllHistory | app/src/main/java/com/AbdulPaito/medtrack/SettingsActivity.java:142 | The history table is empty; medicines are untouched |
| MedicineRecord.Medicine.New | app/src/main/java/com/AbdulPaito/medtrack/database/Medicine.java:18-27 | The six fields as given, active, id 0 |
| MedicineRecord.Medicine.Loaded | app/src/main/java/com/AbdulPaito/medtrack/database/Medicine.java:30-40 | All eight arguments kept unchanged |
| MedicineRecord.Medicine.SetId | app/src/main/java/com/AbdulPaito/medtrack/database/Medicine.java:47-49 | Changes the id and nothing else |
| MedicineRecord.Medicine.SetMedicineName | app/src/main/java/com/AbdulPaito/medtrack/database/Medicine.java:55-57 | Changes the name and nothing else |
| MedicineRecord.Medicine.SetDosage | app/src/main/java/com/AbdulPaito/medtrack/database/Medicine.java:63-65 | Changes the dosage and nothing else |
| MedicineRecord.Medicine.SetInstructions | app/src/main/java/com/AbdulPaito/medtrack/database/Medicine.java:71-73 | Changes the instructions and nothing else |
| MedicineRecord.Medicine.SetReminderTime | app/src/main/java/com/AbdulPaito/medtrack/database/Medicine.java:79-81 | Changes the time and nothing else |
| MedicineRecord.Medicine.SetReminderDate | app/src/main/java/com/AbdulPaito/medtrack/database/Medicine.java:87-89 | Changes the date and nothing else |
| MedicineRecord.Medicine.SetFrequency | app/src/main/java/com/AbdulPaito/medtrack/database/Medicine.java:95-97 | Changes the frequency and nothing else |
| MedicineRecord.Medicine.SetActive | app/src/main/java/com/AbdulPaito/medtrack/database/Medicine.java:103-105 | Changes the active flag and nothing else |
| AddMedicineScreen.FrequencyOf | app/src/main/java/com/AbdulPaito/medtrack/AddMedicineActivity.java:143-159 | Daily gives "Daily" and 12h gives "Every 12 hours". Custom gives the trimmed text and fails iff that is empty. Nothing checked gives "Daily" |
| AddMedicineScreen.ValidateForm | app/src/main/java/com/AbdulPaito/medtrack/AddMedicineActivity.java:115-168 | The first failing check, in the order name, dosage, date, custom frequency, each iff the earlier ones pass. On success the stored fields are the trimmed texts, "HH:mm" and the frequency label |
| AddMedicineScreen.ValidatedTimeRoundTrip | app/src/main/java/com/AbdulPaito/medtrack/AddMedicineActivity.java:138-140 | The stored time of a validated form parses back to the picker's hour and minute |
| AddMedicineScreen.DisplayHourRule | app/src/main/java/com/AbdulPaito/medtrack/AddMedicineActivity.java:191-196 | The display hour is in 1..12, is 12 iff hour is 0 or 12, and names the 24-hour hour back with AM/PM |
| AddMedicineScreen.ParseTime12 | app/src/main/java/com/AbdulPaito/medtrack/AddMedicineActivity.java:191-196 | A time read back from the 12-hour text is a valid clock time |
| AddMedicineScreen.ParseFormatTime12 | app/src/main/java/com/AbdulPaito/medtrack/AddMedicineActivity.java:191-196 | The 12-hour text reads back as the hour and minute it came from, and says PM iff hour >= 12 |
| AddMedicineScreen.SaveMedicine | app/src/main/java/com/AbdulPaito/medtrack/AddMedicineActivity.java:114-186 | A failing check changes nothing. Otherwise one active row is added, and when its id is > 0 the alarm is scheduled under that id at the picker's time |
| AddMedicineScreen.StoreAndSchedule | app/src/main/java/com/AbdulPaito/medtrack/AddMedicineActivity.java:161-185 | Store, set the id, then schedule iff id > 0 |
| AddMedicineScreen.ScheduleSaved | app/src/main/java/com/AbdulPaito/medtrack/AddMedicineActivity.java:175-176 | A picker-made record is scheduled at the next occurrence of its hour and minute |
| EditMedicineScreen.PickerFor | app/src/main/java/com/AbdulPaito/medtrack/EditMedicineActivity.java:88-92 | The picker is left alone iff the time does not split into exactly two parts; when set, it holds the two parsed parts |
| EditMedicineScreen.RadioForLabel | app/src/main/java/com/AbdulPaito/medtrack/EditMedicineActivity.java:95-104 | "Daily" selects daily and "Every 12 hours" selects 12h; anything else selects custom, showing the text |
| EditMedicineScreen.LoadForm | app/src/main/java/com/AbdulPaito/medtrack/EditMedicineActivity.java:79-106 | The form shows the stored fields and the label's radio button; None iff parsing the time throws |
| EditMedicineScreen.LabelRoundTrip | app/src/main/java/com/AbdulPaito/medtrack/EditMedicineActivity.java:95-104 | Loading a label and saving it gives it back trimmed, or refuses to save when it trims to nothing |
| EditMedicineScreen.TrimmedLabelRoundTrip | app/src/main/java/com/AbdulPaito/medtrack/EditMedicineActivity.java:171-185 | A non-empty label with nothing to trim saves back unchanged |
| EditMedicineScreen.EditUnchangedRoundTrip | app/src/main/java/com/AbdulPaito/medtrack/EditMedicineActivity.java:79-192 | Opening a record the add screen could save and pressing Save unchanged stores the same six fields |
| EditMedicineScreen.ValidateTrimmedForm | app/src/main/java/com/AbdulPaito/medtrack/EditMedicineActivity.java:144-185 | A form of filled-in, already-trimmed fields passes and is stored as typed |
| EditMedicineScreen.PickerForTimeText | app/src/main/java/com/AbdulPaito/medtrack/EditMedicineActivity.java:88-92 | Every stored "HH:mm" puts the picker back on its hour and minute |
| EditMedicineScreen.UpdateMedicine | app/src/main/java/com/AbdulPaito/medtrack/EditMedicineActivity.java:143-205 | The same rejections as the add screen, changing nothing. Otherwise the six editable fields are overwritten (id and active flag kept), and the alarm is rescheduled iff rowsAffected > 0 |
| EditMedicineScreen.ApplyUpdate | app/src/main/java/com/AbdulPaito/medtrack/EditMedicineActivity.java:187-204 | The setters, then the reschedule iff rowsAffected > 0 |
| MedicineAdapterView.RemovedAt | app/src/main/java/com/AbdulPaito/medtrack/MedicineAdapter.java:79-83 | NO_POSITION leaves the list; otherwise exactly that element goes and the others keep their order |
| MedicineAdapterView.FormatTimeText | app/src/main/java/com/AbdulPaito/medtrack/MedicineAdapter.java:150-162 | Parsable "HH:mm" becomes the 12-hour text; anything that throws is shown unchanged |
| MedicineAdapterView.StoredTimeDisplay | app/src/main/java/com/AbdulPaito/medtrack/MedicineAdapter.java:150-162 | Every stored picker time is shown as its 12-hour text, which reads back as the same time |
| MedicineAdapterView.MedicineAdapter.constructor | app/src/main/java/com/AbdulPaito/medtrack/MedicineAdapter.java:26-29 | The adapter shares the list it is given |
| MedicineAdapterView.MedicineAdapter.GetItemCount | app/src/main/java/com/AbdulPaito/medtrack/MedicineAdapter.java:120-122 | The list's length |
| MedicineAdapterView.MedicineAdapter.UpdateList | app/src/main/java/com/AbdulPaito/medtrack/MedicineAdapter.java:125-129 | The list becomes `newList`, or empty when `newList` is the same list |
| MedicineAdapterView.MedicineAdapter.MarkTaken | app/src/main/java/com/AbdulPaito/medtrack/MedicineAdapter.java:67-90 | Appends (name, scheduled time, "Taken"), deletes the medicine by id and removes its row; no alarm is cancelled |
| MedicineAdapterView.MedicineAdapter.MarkMissed | app/src/main/java/com/AbdulPaito/medtrack/MedicineAdapter.java:93-116 | The same with "Missed" |
| HistoryScreen.FilterOf | app/src/main/java/com/AbdulPaito/medtrack/HistoryActivity.java:58-74 | Each button sets exactly "All", "Taken" or "Missed" |
| HistoryScreen.HighlightFor | app/src/main/java/com/AbdulPaito/medtrack/HistoryActivity.java:77-95 | A button is highlighted iff the filter is one of the three, and it is that filter's button |
| HistoryScreen.WithStatus | app/src/main/java/com/AbdulPaito/medtrack/HistoryActivity.java:124-129 | Filtering never lengthens the list |
| HistoryScreen.WithStatusMembers | app/src/main/java/com/AbdulPaito/medtrack/HistoryActivity.java:124-129 | An item is kept iff it is in the list and has exactly the status |
| HistoryScreen.WithStatusKeepsAll | app/src/main/java/com/AbdulPaito/medtrack/HistoryActivity.java:124-129 | Nothing is dropped iff every item has the status |
| HistoryScreen.WithStatusIdempotent | app/src/main/java/com/AbdulPaito/medtrack/HistoryActivity.java:124-129 | Filtering twice is filtering once |
| HistoryScreen.WithStatusDisjoint | app/src/main/java/com/AbdulPaito/medtrack/CalendarActivity.java:86-93 | Items of two different statuses together never outnumber the list |
| HistoryScreen.TotalIncludesMissed | app/src/main/java/com/AbdulPaito/medtrack/HistoryActivity.java:98-101 | With one "Missed" row the "Total medicines taken" count exceeds the taken doses |
| HistoryScreen.HistoryActivity.constructor | app/src/main/java/com/AbdulPaito/medtrack/HistoryActivity.java:29-30 | No history loaded, filter "All" |
| HistoryScreen.HistoryActivity.UpdateHistoryList | app/src/main/java/com/AbdulPaito/medtrack/HistoryActivity.java:97-115 | All history newest first; the count is of every row; the empty state shows iff there is none |
| HistoryScreen.HistoryActivity.FilterHistory | app/src/main/java/com/AbdulPaito/medtrack/HistoryActivity.java:117-142 | No loaded history does nothing. "All" shows the whole list, any other filter the items of that status, in order. The empty state shows iff the result is empty |
| HistoryScreen.HistoryActivity.SelectFilter | app/src/main/java/com/AbdulPaito/medtrack/HistoryActivity.java:58-74 | The button's filter is set and highlighted, then the list is filtered |
| CalendarScreen.FormatDateFields | app/src/main/java/com/AbdulPaito/medtrack/CalendarActivity.java:109-112 | The key is three '/'-separated fields, day and month two digits, each reading back as its number |
| CalendarScreen.FormatDateInjective | app/src/main/java/com/AbdulPaito/medtrack/CalendarActivity.java:109-112 | Different dates give different keys |
| CalendarScreen.CalendarActivity.constructor | app/src/main/java/com/AbdulPaito/medtrack/CalendarActivity.java:44 | The list starts empty |
| CalendarScreen.CalendarActivity.SelectDate | app/src/main/java/com/AbdulPaito/medtrack/CalendarActivity.java:53-66 | The key is formatted with the 0-based month plus one, then the day is shown, with the same outcome for the list |
| CalendarScreen.CalendarActivity.ShowDayHistory | app/src/main/java/com/AbdulPaito/medtrack/CalendarActivity.java:69-107 | An empty day shows the empty state and leaves the list. Otherwise the summary is `DayCounts`, and the list becomes the day's items, or empty when the adapter's `updateList` clears before copying |
| CalendarScreen.DayCounts | app/src/main/java/com/AbdulPaito/medtrack/CalendarActivity.java:86-96 | taken + missed = total; taken counts exactly "Taken"; missed counts every other status, so at least the "Missed" ones |
| CalendarScreen.CountDoses | app/src/main/java/com/AbdulPaito/medtrack/CalendarActivity.java:86-93 | The loop's counts are `DayCounts` |
| SettingsScreen.RouteResult | app/src/main/java/com/AbdulPaito/medtrack/SettingsActivity.java:197-221 | A ringtone, backup or restore result is acted on iff its request code matches, the result is OK and there is data |
| SettingsScreen.MedicineJson | app/src/main/java/com/AbdulPaito/medtrack/SettingsActivity.java:231-239 | Exactly the keys name, dosage, instructions, time, date and frequency; no id or active flag |
| SettingsScreen.MedicineFromJson | app/src/main/java/com/AbdulPaito/medtrack/SettingsActivity.java:298-308 | Reading succeeds iff all six keys are present |
| SettingsScreen.HistoryJson | app/src/main/java/com/AbdulPaito/medtrack/SettingsActivity.java:246-252 | Exactly the keys medicine, date, time and status |
| SettingsScreen.HistoryFromJson | app/src/main/java/com/AbdulPaito/medtrack/SettingsActivity.java:319-325 | Reading succeeds iff all four keys are present |
| SettingsScreen.BackupMedicines | app/src/main/java/com/AbdulPaito/medtrack/SettingsActivity.java:229-241 | One object per medicine, in order, of its six fields |
| SettingsScreen.BackupHistory | app/src/main/java/com/AbdulPaito/medtrack/SettingsActivity.java:244-254 | One object per history item, in order |
| SettingsScreen.ScheduledCount | app/src/main/java/com/AbdulPaito/medtrack/SettingsActivity.java:296-314 | The scheduled medicines are a prefix of those read |
| SettingsScreen.StoredCount | app/src/main/java/com/AbdulPaito/medtrack/SettingsActivity.java:309-313 | At least as many are stored as scheduled, and no more than were read |
| SettingsScreen.RestoredRows | app/src/main/java/com/AbdulPaito/medtrack/SettingsActivity.java:299-309 | Restored medicine j is stored active, under the j-th new id |
| SettingsScreen.RestoredValues | app/src/main/java/com/AbdulPaito/medtrack/SettingsActivity.java:309-313 | The scheduler sees restored medicine j under its new id narrowed to an int |
| SettingsScreen.RestoredHistoryRows | app/src/main/java/com/AbdulPaito/medtrack/SettingsActivity.java:318-326 | Restored item j is appended under the j-th new history id with its name, time and status; the date is dropped |
| SettingsScreen.RestoreLoopStep | app/src/main/java/com/AbdulPaito/medtrack/SettingsActivity.java:297-314 | At each object the loop stops (missing key: nothing stored; bad time: stored, not scheduled) or reads the next medicine |
| SettingsScreen.RestoreLoopEnd | app/src/main/java/com/AbdulPaito/medtrack/SettingsActivity.java:297 | A loop that ran to the end stored and scheduled every object |
| SettingsScreen.HistoryLoopStep | app/src/main/java/com/AbdulPaito/medtrack/SettingsActivity.java:318-326 | At each object the history loop stops or reads the next item |
| SettingsScreen.MedicineJsonRoundTrip | app/src/main/java/com/AbdulPaito/medtrack/SettingsActivity.java:233-238 | A medicine's six fields come back from its object |
| SettingsScreen.HistoryJsonRoundTrip | app/src/main/java/com/AbdulPaito/medtrack/SettingsActivity.java:248-251 | A history item's four fields come back from its object |
| SettingsScreen.BackupRestoreMedicines | app/src/main/java/com/AbdulPaito/medtrack/SettingsActivity.java:229-314 | Backup then restore gives back every backed-up medicine's six fields, in order, active under new ids. When all times parse, all are stored and scheduled |
| SettingsScreen.BackupRestoreHistory | app/src/main/java/com/AbdulPaito/medtrack/SettingsActivity.java:244-326 | Backup then restore keeps each row's name, time and status. Every item read back carries the backup day as its date, which the store drops. The newest-first listing comes back oldest first |
| SettingsScreen.SettingsActivity.constructor | app/src/main/java/com/AbdulPaito/medtrack/SettingsActivity.java:57-59 | The switches show the stored preferences with their defaults |
| SettingsScreen.SettingsActivity.SetNotificationsChecked | app/src/main/java/com/AbdulPaito/medtrack/SettingsActivity.java:62-66 | A change of state is stored; setting the current state stores nothing |
| SettingsScreen.SettingsActivity.SetVibrationChecked | app/src/main/java/com/AbdulPaito/medtrack/SettingsActivity.java:69-73 | The same for vibration |
| SettingsScreen.SettingsActivity.SetSilentChecked | app/src/main/java/com/AbdulPaito/medtrack/SettingsActivity.java:76-82 | A change is stored. Turning silent on also turns vibration on, and the service then plays no sound. Turning it off leaves vibration as it was |
| SettingsScreen.SettingsActivity.OnRingtonePicked | app/src/main/java/com/AbdulPaito/medtrack/SettingsActivity.java:200-209 | The picked URI is stored, or "default" when none came back |
| SettingsScreen.DeleteAllHistory | app/src/main/java/com/AbdulPaito/medtrack/SettingsActivity.java:135-147 | The history is empty; medicines are untouched |
| SettingsScreen.PerformBackup | app/src/main/java/com/AbdulPaito/medtrack/SettingsActivity.java:223-254 | The document holds the active medicines in query order and the history newest first, stamped with today |
| SettingsScreen.MedicinesArray | app/src/main/java/com/AbdulPaito/medtrack/SettingsActivity.java:229-240 | The medicines loop builds `BackupMedicines` |
| SettingsScreen.HistoryArray | app/src/main/java/com/AbdulPaito/medtrack/SettingsActivity.java:244-253 | The history loop builds one object per item, in order |
| SettingsScreen.PerformRestore | app/src/main/java/com/AbdulPaito/medtrack/SettingsActivity.java:274-333 | All alarms are cancelled first, then both tables are emptied. Medicines are stored and scheduled up to the first failure, and history is restored only if all medicines were. "Restored" iff nothing failed. Nothing is rolled back |
| SettingsScreen.RestoreMedicines | app/src/main/java/com/AbdulPaito/medtrack/SettingsActivity.java:296-314 | The medicines loop: `StoredCount` rows stored, `ScheduledCount` scheduled, completed iff all were scheduled |
| SettingsScreen.RestoreStep | app/src/main/java/com/AbdulPaito/medtrack/SettingsActivity.java:298-313 | One turn either extends both prefixes by one or stops at the count the specification gives |
| SettingsScreen.RestoreOne | app/src/main/java/com/AbdulPaito/medtrack/SettingsActivity.java:299-313 | The medicine is stored under a new id, then scheduled iff its time parses |
| SettingsScreen.RestoreHistory | app/src/main/java/com/AbdulPaito/medtrack/SettingsActivity.java:317-326 | The items read before the first missing key are appended; completed iff all were read |
| Base.Wrap32 | app/src/main/java/com/AbdulPaito/medtrack/AlarmScheduler.java:98-108 | A Java `int` sum: equal to the exact sum modulo 2^32, and the sum itself when it fits |
| Base.JavaDiv | app/src/main/java/com/AbdulPaito/medtrack/AlarmScheduler.java:51-54 | Java's `long` division, truncating toward zero for both signs |
| Text.Trim | app/src/main/java/com/AbdulPaito/medtrack/AddMedicineActivity.java:115-118 | `String.trim`: strips leading and trailing characters up to U+0020, and is empty iff every character is one |
| Text.ParsePad2 | app/src/main/java/com/AbdulPaito/medtrack/AddMedicineActivity.java:140 | A "%02d" field parses back to its number |
| Text.SplitPair | app/src/main/java/com/AbdulPaito/medtrack/AlarmScheduler.java:34 | `split` of two separator-free parts joined by the separator gives those two parts |

## Left out

- Timing and concurrency. Delays are effect records, and the callbacks they post are separate methods run later. A race between a posted callback and another event is not modelled.
- Audio, vibration hardware, notification rendering, channel creation, activity launches and the reminder dialog. These appear only as effect records or flags.
- SQLite itself: tables are in-memory sequences. An insert never fails, except where a NOT NULL column or a primary key makes it fail. So the add screen's "Error adding medicine" branch (id <= 0) is unreachable in the model.
- JSON text: a backup document is a value whose arrays may be missing. Each object is a map from key to string, so a value of the wrong type is not modelled. Reading and writing the file are left out, and so is the catch in `performBackup`.
- `Calendar`, `SimpleDateFormat`, `Locale`, time zones and DST: a day is a fixed 86 400 000 ms starting at a multiple of that length. The clock-derived "today" date string is a parameter.
- Methods the app calls that are not part of this model's sources. Their results are parameters, or they are given only the contract their names state:
  - `getMedicineById`: the edit screen's record is a parameter that may be null;
  - `updateMedicine`: `rowsAffected` is a parameter, and the store row is not changed;
  - `getHistoryByDate`: the day's list is a parameter;
  - `AlarmScheduler.cancelAllAlarms`: the set of keys it cancels is a parameter;
  - `deleteAllMedicines`, `deleteAllHistory` and the four-argument `addHistory`: modelled as store methods with those contracts.
- `HistoryAdapter`, `HistoryCalendarAdapter`, `MainActivity`, `ProfileActivity`, `StatisticsActivity`, `ReminderDialogActivity`, `ReminderListActivity`, `TestMainActivity`, `MedTrackApplication`, `NotificationHelper` and `BackgroundKeepAliveService`: UI, floating point or keep-alive plumbing, outside the alarm engine.
- `AlarmScheduler.requestExactAlarmPermission`: it only launches a settings screen.
- `AlarmSoundService.onBind` and the `Medicine` getters: the getters are the record's fields, read directly.
- Text the screens only display (toasts, dialog titles, the calendar's long date), except the notification texts and the history count.
- SettingsScreen.PerformRestore: the parse of the document text and its opening are not modelled. A restore whose file cannot be read or parsed is not covered; the model starts from a parsed document.
- CalendarScreen.CalendarActivity.ShowDayHistory: `HistoryCalendarAdapter` is not part of this model. Its `updateList` gets the list it already holds, so its effect on that shared list is the parameter `adapterClearsFirst`. With the clear-then-copy pattern of `MedicineAdapter.updateList` the list ends up empty; otherwise it holds the day's items. The same applies to CalendarScreen.CalendarActivity.SelectDate.
- SoundService.AlarmSoundService.StartAlarmSound: a Ringtone counts as playing until it is stopped. Below API 28 a Ringtone does not loop and ends on its own, which the model does not capture, so an orphaned Ringtone is a real concern only from API 28 on. Whether `RingtoneManager.getRingtone` returns null is not modelled either.
- Text.ParseInt: accepts only ASCII digits 0-9 after an optional sign. `Integer.parseInt` also accepts the decimal digits of other scripts, which the model reads as a failure.
- The history table has no date column: HistoryRow has no date, and the four-argument `addHistory` drops its date argument.
- BootReceiverHandler.RescheduleAll: the medicines list is read once, at the time of the delayed step; changes to the store between boot and that step are not modelled.
