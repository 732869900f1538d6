/**
 * The "AppSettings" shared preferences the settings screen writes and the
 * alarm service reads. A key never written is `None`; readers supply the
 * same defaults the app does.
 */
module AppSettings {
  import opened Base

  datatype Preferences = Preferences(
    notificationsEnabled: Option<bool>,
    vibrationEnabled: Option<bool>,
    silentMode: Option<bool>,
    alarmSoundUri: Option<string>)

  /** `getBoolean(key, default)`. */
  function GetBoolean(stored: Option<bool>, default: bool): bool {
    if stored.Some? then stored.value else default
  }

  /** "vibration_enabled", on unless switched off. */
  function VibrationEnabled(p: Preferences): bool {
    GetBoolean(p.vibrationEnabled, true)
  }

  /** "silent_mode", off unless switched on. */
  function SilentMode(p: Preferences): bool {
    GetBoolean(p.silentMode, false)
  }

  /** "notifications_enabled", on unless switched off. */
  function NotificationsEnabled(p: Preferences): bool {
    GetBoolean(p.notificationsEnabled, true)
  }
}
