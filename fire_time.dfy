/**
 * The arithmetic part of `AlarmScheduler.scheduleMedicineAlarm`: reading the
 * stored "HH:mm", placing it today or tomorrow, and deciding whether there
 * is room for the five-minute pre-notice. Instants are milliseconds; a day
 * is a fixed 86 400 000 ms starting at a multiple of that length.
 */
module FireTime {
  import opened Base
  import opened Text

  const MINUTE_MS: int := 60_000
  const HOUR_MS: int := 3_600_000
  const DAY_MS: int := 86_400_000
  /** The pre-notice fires this long before the main alarm. */
  const PRE_NOTICE_LEAD_MS: int := 300_000
  /** The fewest whole minutes ahead for which a pre-notice is registered. */
  const PRE_NOTICE_MIN_MINUTES: int := 6

  /**
   * `split(":")` followed by `Integer.parseInt` of pieces 0 and 1; `None`
   * where Java throws (a piece is not a number, or there is no piece 1).
   */
  function ParseReminderTime(s: string): (r: Option<(int32, int32)>)
    ensures r.Some? ==> |Split(s, ':')| >= 2
    ensures r.Some? ==> ParseInt(Split(s, ':')[0]) == Some(r.value.0)
    ensures r.Some? ==> ParseInt(Split(s, ':')[1]) == Some(r.value.1)
  {
    var parts := Split(s, ':');
    if |parts| == 0 then None
    else
      match ParseInt(parts[0])
      case None => None
      case Some(hour) =>
        if |parts| < 2 then None
        else
          match ParseInt(parts[1])
          case None => None
          case Some(minute) => Some((hour, minute))
  }

  /** The text the add and edit screens store: `String.format("%02d:%02d", hour, minute)`. */
  function TimeText(hour: int, minute: int): string {
    Pad2(hour) + ":" + Pad2(minute)
  }

  /** Every time a picker can produce is read back as the same hour and minute. */
  lemma {:induction false} ParseTimeText(hour: int, minute: int)
    requires 0 <= hour < 24 && 0 <= minute < 60
    ensures ParseReminderTime(TimeText(hour, minute)) == Some((hour as int32, minute as int32))
  {
    var a, b := Pad2(hour), Pad2(minute);
    assert ':' !in a by {
      assert forall i :: 0 <= i < |a| ==> IsDigit(a[i]);
    }
    assert ':' !in b by {
      assert forall i :: 0 <= i < |b| ==> IsDigit(b[i]);
    }
    SplitPair(a, b, ':');
    assert TimeText(hour, minute) == a + [':'] + b;
    ParsePad2(hour);
    ParsePad2(minute);
  }

  /** Midnight of the day `now` falls in. */
  function DayStart(now: int): (r: int)
    ensures r <= now < r + DAY_MS
    ensures r % DAY_MS == 0
  {
    now - now % DAY_MS
  }

  /** Today's instant at `hour:minute:00.000`, out-of-range fields carrying over as a lenient Calendar does. */
  function TodayAt(now: int, hour: int, minute: int): int {
    DayStart(now) + hour * HOUR_MS + minute * MINUTE_MS
  }

  /** The main alarm's instant: today's slot, or the same slot a day later when today's is not after `now`. */
  function NextFireTime(now: int, hour: int, minute: int): int {
    var today := TodayAt(now, hour, minute);
    if today <= now then today + DAY_MS else today
  }

  /** `(alarmTime - now) / (60 * 1000)` with Java's truncating division. */
  function MinutesUntil(alarmTime: int, now: int): int {
    JavaDiv(alarmTime - now, MINUTE_MS)
  }

  function HasPreNotice(alarmTime: int, now: int): bool {
    MinutesUntil(alarmTime, now) >= PRE_NOTICE_MIN_MINUTES
  }

  function PreNoticeTime(alarmTime: int): int {
    alarmTime - PRE_NOTICE_LEAD_MS
  }

  /**
   * For a real clock time the alarm is strictly after `now`, at most a day
   * later, and exactly on `hour:minute:00.000` of its day.
   */
  lemma {:induction false} NextFireTimeBounds(now: int, hour: int, minute: int)
    requires 0 <= hour < 24 && 0 <= minute < 60
    ensures now < NextFireTime(now, hour, minute) <= now + DAY_MS
    ensures NextFireTime(now, hour, minute) % DAY_MS == hour * HOUR_MS + minute * MINUTE_MS
  {
    var d := DayStart(now);
    var offset := hour * HOUR_MS + minute * MINUTE_MS;
    assert 0 <= offset < DAY_MS;
    var r := NextFireTime(now, hour, minute);
    var k := d / DAY_MS;
    assert d == k * DAY_MS;
    if d + offset <= now {
      assert r == (k + 1) * DAY_MS + offset;
    } else {
      assert r == k * DAY_MS + offset;
    }
  }

  /** Today's slot is kept exactly when it is strictly in the future; otherwise tomorrow's is used. */
  lemma {:induction false} TodayOrTomorrow(now: int, hour: int, minute: int)
    ensures NextFireTime(now, hour, minute) == TodayAt(now, hour, minute) <==> TodayAt(now, hour, minute) > now
    ensures NextFireTime(now, hour, minute) == TodayAt(now, hour, minute) + DAY_MS <==> TodayAt(now, hour, minute) <= now
  {
  }

  /** A pre-notice is registered exactly when at least six minutes remain, and it then fires after `now`. */
  lemma {:induction false} PreNoticeRule(alarmTime: int, now: int)
    ensures HasPreNotice(alarmTime, now) <==> alarmTime - now >= 6 * MINUTE_MS
    ensures HasPreNotice(alarmTime, now) ==> now < PreNoticeTime(alarmTime) < alarmTime
    ensures HasPreNotice(alarmTime, now) ==> PreNoticeTime(alarmTime) - now >= MINUTE_MS
  {
    var diff := alarmTime - now;
    var q := JavaDiv(diff, MINUTE_MS);
    if diff >= 6 * MINUTE_MS {
      assert q * MINUTE_MS > diff - MINUTE_MS;
      assert q >= 6;
    } else if diff >= 0 {
      assert q * MINUTE_MS <= diff;
      assert q < 6;
    } else {
      assert q * MINUTE_MS < MINUTE_MS;
      assert q < 6;
    }
  }
}
