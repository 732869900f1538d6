/**
 * `AlarmSoundService`: rings for a minute when an alarm fires, then arms a
 * repeat five minutes later and stops itself. Stopping the service (from a
 * notification button or from its own minute running out) drops the
 * callback still waiting to arm that repeat.
 */
module SoundService {
  import opened Base
  import opened Text
  import opened AlarmTable
  import opened Effects
  import opened AppSettings

  /** `Service.START_REDELIVER_INTENT`. */
  const START_REDELIVER_INTENT: int := 3
  /** Each of the service's wake locks is acquired for at most two minutes. */
  const SERVICE_WAKE_LOCK_MS: int := 120_000
  /** The sound plays this long before the service gives up. */
  const RING_MS: int := 60_000
  /** The unanswered alarm comes back this much later. */
  const AUTO_REPEAT_DELAY_MS: int := 300_000
  const ALARM_SERVICE_CHANNEL: string := "alarm_service_channel"

  const ACTION_STOP: string := "ACTION_STOP"
  const ACTION_SNOOZE: string := "ACTION_SNOOZE"
  const ACTION_TAKEN: string := "ACTION_TAKEN"

  datatype SoundSource = CustomUri(uri: string) | DefaultAlarmUri | DefaultRingtoneUri

  /** A `Ringtone` object: the sound it was made for and whether it is playing. */
  datatype Ringtone = Ringtone(source: SoundSource, playing: bool)

  /**
   * `startAlarmSound`'s choice: no sound in silent mode; a stored URI other
   * than "default" is used as is; otherwise the default alarm sound, or the
   * default ringtone when the device has no alarm sound.
   */
  function ChooseSound(prefs: Preferences, hasDefaultAlarm: bool): (r: Option<SoundSource>)
    ensures r.None? <==> SilentMode(prefs)
    ensures (r.Some? && r.value.CustomUri?) <==>
      !SilentMode(prefs) && prefs.alarmSoundUri.Some? && prefs.alarmSoundUri.value != "default"
    ensures r.Some? && r.value.CustomUri? ==> r.value.uri == prefs.alarmSoundUri.value
    ensures r == Some(DefaultRingtoneUri) <==>
      (!SilentMode(prefs) && !hasDefaultAlarm &&
       (prefs.alarmSoundUri.None? || prefs.alarmSoundUri.value == "default"))
  {
    if SilentMode(prefs) then None
    else if prefs.alarmSoundUri.Some? && prefs.alarmSoundUri.value != "default" then Some(CustomUri(prefs.alarmSoundUri.value))
    else if hasDefaultAlarm then Some(DefaultAlarmUri)
    else Some(DefaultRingtoneUri)
  }

  /** `createForegroundNotification`'s three buttons: Stop, Snooze and "I Took It". */
  function ForegroundActions(id: int32): (r: seq<NotificationAction>)
    ensures |r| == 3
    ensures r[0].action == ACTION_STOP && r[1].action == ACTION_SNOOZE && r[2].action == ACTION_TAKEN
  {
    [NotificationAction(ACTION_STOP, Wrap32(id * 10 + 1)),
     NotificationAction(ACTION_SNOOZE, Wrap32(id * 10 + 2)),
     NotificationAction(ACTION_TAKEN, Wrap32(id * 10 + 3))]
  }

  /** The request code of the notification's open-the-app intent. */
  function OpenAppRequestCode(id: int32): int32 {
    Wrap32(id * 10 + 4)
  }

  function ForegroundNotification(id: int32, name: Option<string>, dosage: Option<string>): Notification {
    Notification(id, ALARM_SERVICE_CHANNEL, Str(name) + " - " + Str(dosage), false, true, None, ForegroundActions(id))
  }

  /** The acquisitions `onStartCommand` makes, given which wake locks are already held. */
  function WakeLockAcquisitions(fullHeld: bool, screenHeld: bool): seq<Effect> {
    (if fullHeld then [] else [AcquireWakeLock(FullWakeLock, SERVICE_WAKE_LOCK_MS)]) +
    (if screenHeld then [] else [AcquireWakeLock(ScreenBrightWakeLock, SERVICE_WAKE_LOCK_MS)])
  }

  /**
   * A start acquires each lock exactly when it is not already held, each for
   * two minutes, and nothing else; a lock that is held is never acquired twice.
   */
  lemma {:induction false} WakeLocksAcquiredOnce(fullHeld: bool, screenHeld: bool)
    ensures AcquireWakeLock(FullWakeLock, SERVICE_WAKE_LOCK_MS) in WakeLockAcquisitions(fullHeld, screenHeld) <==> !fullHeld
    ensures AcquireWakeLock(ScreenBrightWakeLock, SERVICE_WAKE_LOCK_MS) in WakeLockAcquisitions(fullHeld, screenHeld) <==> !screenHeld
    ensures forall e :: e in WakeLockAcquisitions(fullHeld, screenHeld) ==> e.AcquireWakeLock? && e.timeoutMs == SERVICE_WAKE_LOCK_MS
    ensures |WakeLockAcquisitions(fullHeld, screenHeld)| <= 2
  {
    var full := if fullHeld then [] else [AcquireWakeLock(FullWakeLock, SERVICE_WAKE_LOCK_MS)];
    var screen := if screenHeld then [] else [AcquireWakeLock(ScreenBrightWakeLock, SERVICE_WAKE_LOCK_MS)];
    assert WakeLockAcquisitions(fullHeld, screenHeld) == full + screen;
    assert forall e :: e in full + screen <==> e in full || e in screen;
  }

  /** The four request codes the foreground notification uses for one medicine are pairwise different. */
  lemma {:induction false} ActionRequestCodesDistinct(id: int32)
    ensures var a := ForegroundActions(id);
      a[0].requestCode != a[1].requestCode && a[0].requestCode != a[2].requestCode &&
      a[1].requestCode != a[2].requestCode &&
      OpenAppRequestCode(id) != a[0].requestCode && OpenAppRequestCode(id) != a[1].requestCode &&
      OpenAppRequestCode(id) != a[2].requestCode
  {
    var b := id * 10;
    Wrap32Distinct(b + 1, 1);
    Wrap32Distinct(b + 1, 2);
    Wrap32Distinct(b + 1, 3);
    Wrap32Distinct(b + 2, 1);
    Wrap32Distinct(b + 2, 2);
    Wrap32Distinct(b + 3, 1);
  }

  class AlarmSoundService {
    /** The alarm manager `getSystemService` returns, possibly null. */
    const alarms: AlarmManager?
    const sdk: int

    var medicineId: int32
    var medicineName: Option<string>
    var dosage: Option<string>
    var wakeLockHeld: bool
    var screenWakeLockHeld: bool
    /** The notification the service runs in the foreground with, once `startForeground` succeeded. */
    var foreground: Option<Notification>
    /** The `ringtone` field: the Ringtone made by the latest `startAlarmSound`, if any. */
    var ringtone: Option<Ringtone>
    /**
     * Ringtones still playing that the field no longer refers to: a start
     * while the field's Ringtone plays overwrites the field, and nothing can
     * stop the earlier one afterwards.
     */
    var orphaned: seq<SoundSource>
    var vibrating: bool
    /** Minute-long timeouts posted by `onStartCommand` and not yet run or removed. */
    var pendingTimeouts: nat
    var running: bool

    /** `onCreate`: nothing held, nothing playing, nothing posted; the id at Java's default 0. */
    constructor (alarms: AlarmManager?, sdk: int)
      ensures this.alarms == alarms && this.sdk == sdk
      ensures medicineId == 0 && medicineName.None? && dosage.None?
      ensures !wakeLockHeld && !screenWakeLockHeld && foreground.None?
      ensures ringtone.None? && orphaned == [] && !vibrating && pendingTimeouts == 0 && running
    {
      this.alarms := alarms;
      this.sdk := sdk;
      medicineId := 0;
      medicineName := None;
      dosage := None;
      wakeLockHeld := false;
      screenWakeLockHeld := false;
      foreground := None;
      ringtone := None;
      orphaned := [];
      vibrating := false;
      pendingTimeouts := 0;
      running := true;
    }

    /** The Ringtone in the field is playing. */
    predicate Ringing()
      reads this
    {
      ringtone.Some? && ringtone.value.playing
    }

    /** Some sound of this service is playing, whether or not the field still refers to it. */
    predicate AnySoundPlaying()
      reads this
    {
      Ringing() || orphaned != []
    }

    /**
     * `onStartCommand`: with no intent nothing happens. Otherwise the extras
     * are taken over, each wake lock is acquired unless already held, the
     * service goes to the foreground (refused for notification id 0), sound
     * and vibration start, the app is opened and one more minute-long
     * timeout is posted.
     */
    method OnStartCommand(intent: Option<Extras>, prefs: Preferences, hasDefaultAlarm: bool, hasVibrator: bool)
      returns (code: int, effects: seq<Effect>)
      modifies this
      ensures code == START_REDELIVER_INTENT
      ensures intent.None? ==> effects == [] && unchanged(this)
      ensures intent.Some? ==>
        medicineId == IntExtra(intent.value.medicineId, -1) &&
        medicineName == intent.value.medicineName && dosage == intent.value.dosage
      ensures intent.Some? ==> wakeLockHeld && screenWakeLockHeld
      ensures intent.Some? ==>
        effects == WakeLockAcquisitions(old(wakeLockHeld), old(screenWakeLockHeld)) +
                   (if medicineId != 0 then [StartForeground(ForegroundNotification(medicineId, medicineName, dosage))] else []) +
                   [OpenMainActivity(medicineName, dosage)]
      ensures intent.Some? ==>
        foreground == (if medicineId != 0 then Some(ForegroundNotification(medicineId, medicineName, dosage)) else old(foreground))
      ensures intent.Some? ==>
        ringtone == (if SilentMode(prefs) then old(ringtone) else Some(Ringtone(ChooseSound(prefs, hasDefaultAlarm).value, true))) &&
        vibrating == (old(vibrating) || (VibrationEnabled(prefs) && hasVibrator))
      // A start while the earlier Ringtone still plays orphans it.
      ensures intent.Some? ==>
        orphaned == old(orphaned) + (if !SilentMode(prefs) && old(Ringing()) then [old(ringtone).value.source] else [])
      ensures intent.Some? ==> pendingTimeouts == old(pendingTimeouts) + 1 && running == old(running)
    {
      code := START_REDELIVER_INTENT;
      effects := [];
      if intent.None? {
        return;
      }
      var started := TakeOver(intent.value);
      StartAlarmSound(prefs, hasDefaultAlarm);
      StartVibration(prefs, hasVibrator);
      effects := started + [OpenMainActivity(medicineName, dosage)];
      pendingTimeouts := pendingTimeouts + 1;
    }

    /** The first steps of `onStartCommand` with an intent: its extras, the wake locks and the foreground notification. */
    method TakeOver(extras: Extras) returns (effects: seq<Effect>)
      modifies this
      ensures medicineId == IntExtra(extras.medicineId, -1) && medicineName == extras.medicineName && dosage == extras.dosage
      ensures wakeLockHeld && screenWakeLockHeld
      ensures effects == WakeLockAcquisitions(old(wakeLockHeld), old(screenWakeLockHeld)) +
                         (if medicineId != 0 then [StartForeground(ForegroundNotification(medicineId, medicineName, dosage))] else [])
      ensures foreground == (if medicineId != 0 then Some(ForegroundNotification(medicineId, medicineName, dosage)) else old(foreground))
      ensures ringtone == old(ringtone) && orphaned == old(orphaned) && vibrating == old(vibrating)
      ensures pendingTimeouts == old(pendingTimeouts) && running == old(running)
    {
      medicineId := IntExtra(extras.medicineId, -1);
      medicineName := extras.medicineName;
      dosage := extras.dosage;
      effects := AcquireWakeLocks();
      // startForeground throws for id 0; the exception is caught and logged.
      if medicineId != 0 {
        var n := ForegroundNotification(medicineId, medicineName, dosage);
        foreground := Some(n);
        effects := effects + [StartForeground(n)];
      }
    }

    /** Each lock is acquired for two minutes unless it is already held. */
    method AcquireWakeLocks() returns (effects: seq<Effect>)
      modifies this
      ensures wakeLockHeld && screenWakeLockHeld
      ensures effects == WakeLockAcquisitions(old(wakeLockHeld), old(screenWakeLockHeld))
      ensures medicineId == old(medicineId) && medicineName == old(medicineName) && dosage == old(dosage)
      ensures foreground == old(foreground) && ringtone == old(ringtone) && orphaned == old(orphaned)
      ensures vibrating == old(vibrating) && pendingTimeouts == old(pendingTimeouts) && running == old(running)
    {
      effects := [];
      if !wakeLockHeld {
        wakeLockHeld := true;
        effects := effects + [AcquireWakeLock(FullWakeLock, SERVICE_WAKE_LOCK_MS)];
      }
      if !screenWakeLockHeld {
        screenWakeLockHeld := true;
        effects := effects + [AcquireWakeLock(ScreenBrightWakeLock, SERVICE_WAKE_LOCK_MS)];
      }
    }

    /**
     * `startAlarmSound`: in silent mode nothing happens; otherwise a new
     * Ringtone for the chosen sound replaces the field and plays. The old
     * one is not stopped first: if it was playing, it goes on playing,
     * orphaned.
     */
    method StartAlarmSound(prefs: Preferences, hasDefaultAlarm: bool)
      modifies this
      ensures SilentMode(prefs) ==> unchanged(this)
      ensures !SilentMode(prefs) ==> ringtone == Some(Ringtone(ChooseSound(prefs, hasDefaultAlarm).value, true))
      ensures !SilentMode(prefs) ==> orphaned == old(orphaned) + (if old(Ringing()) then [old(ringtone).value.source] else [])
      ensures !SilentMode(prefs) ==> vibrating == old(vibrating) && pendingTimeouts == old(pendingTimeouts)
      ensures medicineId == old(medicineId) && medicineName == old(medicineName) && dosage == old(dosage)
      ensures wakeLockHeld == old(wakeLockHeld) && screenWakeLockHeld == old(screenWakeLockHeld)
      ensures foreground == old(foreground) && running == old(running)
    {
      var source := ChooseSound(prefs, hasDefaultAlarm);
      if source.None? {
        return;
      }
      if Ringing() {
        orphaned := orphaned + [ringtone.value.source];
      }
      ringtone := Some(Ringtone(source.value, true));
    }

    method StartVibration(prefs: Preferences, hasVibrator: bool)
      modifies this
      ensures vibrating == (old(vibrating) || (VibrationEnabled(prefs) && hasVibrator))
      ensures medicineId == old(medicineId) && medicineName == old(medicineName) && dosage == old(dosage)
      ensures wakeLockHeld == old(wakeLockHeld) && screenWakeLockHeld == old(screenWakeLockHeld)
      ensures foreground == old(foreground) && ringtone == old(ringtone) && orphaned == old(orphaned)
      ensures pendingTimeouts == old(pendingTimeouts) && running == old(running)
    {
      if !VibrationEnabled(prefs) {
        return;
      }
      if hasVibrator {
        vibrating := true;
      }
    }

    /**
     * `stopAlarmSound`: the Ringtone in the field is stopped if it plays, and
     * vibration is cancelled. Orphaned Ringtones are out of reach and play on.
     */
    method StopAlarmSound()
      modifies this
      ensures !Ringing() && !vibrating && orphaned == old(orphaned)
      ensures ringtone == if old(Ringing()) then Some(old(ringtone).value.(playing := false)) else old(ringtone)
      ensures medicineId == old(medicineId) && medicineName == old(medicineName) && dosage == old(dosage)
      ensures wakeLockHeld == old(wakeLockHeld) && screenWakeLockHeld == old(screenWakeLockHeld)
      ensures foreground == old(foreground)
      ensures pendingTimeouts == old(pendingTimeouts) && running == old(running)
    {
      if Ringing() {
        ringtone := Some(ringtone.value.(playing := false));
      }
      vibrating := false;
    }

    /**
     * The minute-long timeout: sound and vibration stop, the repeat is
     * registered five minutes after `now` under the medicine's repeat key,
     * and the service stops itself.
     */
    method OnRingTimeout(now: int)
      requires pendingTimeouts > 0
      modifies this, alarms
      ensures alarms != null ==> alarms.entries == old(alarms.entries)[AutoRepeatKey(medicineId) :=
        AlarmEntry(now + AUTO_REPEAT_DELAY_MS, ExactPrecisionFor(sdk), Extras(Some(medicineId), medicineName, dosage))]
      ensures medicineId == old(medicineId) && medicineName == old(medicineName) && dosage == old(dosage)
      ensures !Ringing() && !vibrating && pendingTimeouts == 0 && !running
      ensures orphaned == old(orphaned)
      ensures !wakeLockHeld && !screenWakeLockHeld && foreground.None?
    {
      pendingTimeouts := pendingTimeouts - 1;
      StopAlarmSound();
      ScheduleAutoRepeat(now);
      OnDestroy();
    }

    method ScheduleAutoRepeat(now: int)
      modifies alarms
      ensures alarms != null ==> alarms.entries == old(alarms.entries)[AutoRepeatKey(medicineId) :=
        AlarmEntry(now + AUTO_REPEAT_DELAY_MS, ExactPrecisionFor(sdk), Extras(Some(medicineId), medicineName, dosage))]
    {
      if alarms != null {
        alarms.Set(AutoRepeatKey(medicineId),
          AlarmEntry(now + AUTO_REPEAT_DELAY_MS, ExactPrecisionFor(sdk), Extras(Some(medicineId), medicineName, dosage)));
      }
    }

    /**
     * `onDestroy`: the field's Ringtone and the vibration stop, every posted
     * timeout is removed, both wake locks are released, and the system takes
     * the foreground notification down with the service. Orphaned Ringtones
     * outlive the service.
     */
    method OnDestroy()
      modifies this
      ensures !Ringing() && !vibrating && pendingTimeouts == 0 && !running
      ensures orphaned == old(orphaned)
      ensures !wakeLockHeld && !screenWakeLockHeld
      ensures medicineId == old(medicineId) && medicineName == old(medicineName) && dosage == old(dosage)
      // The system removes the notification of a destroyed foreground service.
      ensures foreground.None?
    {
      StopAlarmSound();
      pendingTimeouts := 0;
      wakeLockHeld := false;
      screenWakeLockHeld := false;
      running := false;
      foreground := None;
    }

    /** `Context.stopService` from another component: destroys the service only if it is running. */
    method Stop()
      modifies this
      ensures old(running) ==> !Ringing() && !vibrating && pendingTimeouts == 0 && !running && !wakeLockHeld && !screenWakeLockHeld
      ensures old(running) ==> foreground.None?
      ensures orphaned == old(orphaned)
      ensures !old(running) ==> unchanged(this)
      ensures medicineId == old(medicineId) && medicineName == old(medicineName) && dosage == old(dosage)
    {
      if running {
        OnDestroy();
      }
    }
  }

  /**
   * An alarm that fires again while the service still rings (the auto-repeat
   * or a snooze) and then times out: the service is gone, yet the Ringtone
   * of the first start is still playing.
   */
  method RetriggerOutlivesService(service: AlarmSoundService, extras: Extras, prefs: Preferences,
                                  hasDefaultAlarm: bool, hasVibrator: bool, now: int)
    requires service.Ringing() && !SilentMode(prefs)
    modifies service, service.alarms
    ensures !service.running && !service.Ringing() && service.AnySoundPlaying()
    ensures service.orphaned == old(service.orphaned) + [old(service.ringtone).value.source]
  {
    var code, effects := service.OnStartCommand(Some(extras), prefs, hasDefaultAlarm, hasVibrator);
    service.OnRingTimeout(now);
  }
}
