/**
 * The host alarm facility as the app sees it. A registration is identified
 * the way a `PendingIntent` broadcast is: by the receiving class, the intent
 * action (or none) and the request code; the extras are carried but play no
 * part in the identity. Registering under a key that is already present
 * replaces that entry (`FLAG_UPDATE_CURRENT`), and cancelling removes it.
 */
module AlarmTable {
  import opened Base

  datatype Receiver = AlarmReceiverClass | ReminderNotificationReceiverClass

  const ALARM_TRIGGER: string := "com.AbdulPaito.medtrack.ALARM_TRIGGER"
  const REMINDER_TRIGGER: string := "com.AbdulPaito.medtrack.REMINDER_TRIGGER"

  datatype AlarmKey = AlarmKey(receiver: Receiver, action: Option<string>, requestCode: int32)

  /** `setExactAndAllowWhileIdle`, `setExact` or plain `set`. */
  datatype Precision = ExactAllowWhileIdle | Exact | Inexact

  /** The `medicine_id`, `medicine_name` and `dosage` extras of an intent; a null String extra is `None`. */
  datatype Extras = Extras(medicineId: Option<int32>, medicineName: Option<string>, dosage: Option<string>)

  datatype AlarmEntry = AlarmEntry(fireAt: int, precision: Precision, extras: Extras)

  type Table = map<AlarmKey, AlarmEntry>

  // The keys the app builds for medicine `id` (request-code sums are Java `int` sums).

  /** The main alarm (AlarmScheduler.scheduleMainAlarm). */
  function MainKey(id: int32): AlarmKey {
    AlarmKey(AlarmReceiverClass, Some(ALARM_TRIGGER), id)
  }

  /** The five-minute pre-notice (AlarmScheduler.schedule5MinuteReminder). */
  function PreNoticeKey(id: int32): AlarmKey {
    AlarmKey(ReminderNotificationReceiverClass, Some(REMINDER_TRIGGER), Wrap32(id + 50000))
  }

  /** The repeat the alarm service arms when nobody answers. */
  function AutoRepeatKey(id: int32): AlarmKey {
    AlarmKey(AlarmReceiverClass, Some(ALARM_TRIGGER), Wrap32(id + 20000))
  }

  /** The snoozed alarm, registered without an action. */
  function SnoozeKey(id: int32): AlarmKey {
    AlarmKey(AlarmReceiverClass, None, id)
  }

  /** The key the notification-action handler cancels, believing it to be the repeat. */
  function CancelRepeatKey(id: int32): AlarmKey {
    AlarmKey(AlarmReceiverClass, None, Wrap32(id + 10000))
  }

  /** The `setExact*` choice the alarm service and the snooze handler make, which never falls back to `set`. */
  function ExactPrecisionFor(sdk: int): (p: Precision)
    ensures p == ExactAllowWhileIdle <==> sdk >= 23
    ensures p != Inexact
  {
    if sdk >= 23 then ExactAllowWhileIdle else Exact
  }

  class AlarmManager {
    var entries: Table

    constructor ()
      ensures entries == map[]
    {
      entries := map[];
    }

    /** `set*` with a PendingIntent: the key now maps to the new entry, every other key is untouched. */
    method Set(key: AlarmKey, entry: AlarmEntry)
      modifies this
      ensures entries == old(entries)[key := entry]
    {
      entries := entries[key := entry];
    }

    /** `cancel`: the key is gone, every other key is untouched; cancelling an absent key does nothing. */
    method Cancel(key: AlarmKey)
      modifies this
      ensures entries == old(entries) - {key}
    {
      entries := entries - {key};
    }

    /** A run of `cancel` calls, one per key. */
    method CancelAll(keys: set<AlarmKey>)
      modifies this
      ensures entries == old(entries) - keys
    {
      entries := entries - keys;
    }
  }

  // ---------------------------------------------------------------------------
  // How the keys relate

  /** The five keys built for one medicine are pairwise different. */
  lemma {:induction false} KeysOfOneMedicineDistinct(id: int32)
    ensures MainKey(id) != PreNoticeKey(id) && MainKey(id) != AutoRepeatKey(id)
    ensures MainKey(id) != SnoozeKey(id) && MainKey(id) != CancelRepeatKey(id)
    ensures PreNoticeKey(id) != AutoRepeatKey(id) && PreNoticeKey(id) != SnoozeKey(id)
    ensures PreNoticeKey(id) != CancelRepeatKey(id) && AutoRepeatKey(id) != SnoozeKey(id)
    ensures AutoRepeatKey(id) != CancelRepeatKey(id) && SnoozeKey(id) != CancelRepeatKey(id)
  {
    Wrap32Distinct(id, 20000);
    Wrap32Distinct(id, 10000);
  }

  /** The key cancelled as "the repeat" is never a repeat key of any medicine: one has an action, the other none. */
  lemma {:induction false} CancelRepeatMissesEveryRepeat(id: int32, other: int32)
    ensures CancelRepeatKey(id) != AutoRepeatKey(other)
    ensures CancelRepeatKey(id) != MainKey(other) && CancelRepeatKey(id) != PreNoticeKey(other)
  {
  }

  /** The repeat of medicine `id` is the main alarm of medicine `id + 20000`, so arming one replaces the other. */
  lemma {:induction false} AutoRepeatIsAnotherMain(id: int32)
    ensures AutoRepeatKey(id) == MainKey(Wrap32(id + 20000))
  {
  }

  /** The key cancelled as "the repeat" of `id` is the snooze key of medicine `id + 10000`. */
  lemma {:induction false} CancelRepeatIsAnotherSnooze(id: int32)
    ensures CancelRepeatKey(id) == SnoozeKey(Wrap32(id + 10000))
  {
  }

  /** A snooze is registered without an action, so it is never the main alarm of any medicine. */
  lemma {:induction false} SnoozeIsNeverAMain(id: int32, other: int32)
    ensures SnoozeKey(id) != MainKey(other) && SnoozeKey(id) != AutoRepeatKey(other)
  {
  }
}
