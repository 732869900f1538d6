/**
 * `AddMedicineActivity`: the form checks, the frequency choice, the stored
 * "HH:mm" time and the 12-hour display, and `saveMedicine`, which stores
 * the record and schedules its alarm. The edit screen shares the checks.
 */
module AddMedicineScreen {
  import opened Base
  import opened Text
  import opened MedicineRecord
  import opened FireTime
  import opened Database
  import opened Scheduler

  const DAILY: string := "Daily"
  const EVERY_12_HOURS: string := "Every 12 hours"

  /** Which frequency radio button is checked; the custom one carries its text field. */
  datatype FrequencyChoice = DailyChecked | TwelveHoursChecked | CustomChecked(customText: string) | NothingChecked

  /** The field that stops a save, in the order the screen checks them. */
  datatype FormError = MissingName | MissingDosage | MissingDate | MissingCustomFrequency

  /** What the form holds when "Save" is pressed: the text fields as typed, the picker and the radio group. */
  datatype FormInput = FormInput(
    name: string, dosage: string, instructions: string, date: string,
    hour: int, minute: int, choice: FrequencyChoice)

  /** The frequency label saved for the checked button; an empty custom text stops the save. */
  function FrequencyOf(choice: FrequencyChoice): (r: Result<string, FormError>)
    ensures r.Failure? <==> choice.CustomChecked? && Trim(choice.customText) == []
    ensures r.Failure? ==> r.error == MissingCustomFrequency
    ensures r.Success? && choice.CustomChecked? ==> r.value == Trim(choice.customText) && r.value != []
    ensures choice == TwelveHoursChecked <==> r == Success(EVERY_12_HOURS) && !choice.CustomChecked?
    ensures choice == DailyChecked || choice == NothingChecked ==> r == Success(DAILY)
  {
    match choice
    case DailyChecked => Success(DAILY)
    case TwelveHoursChecked => Success(EVERY_12_HOURS)
    case CustomChecked(text) => if Trim(text) == [] then Failure(MissingCustomFrequency) else Success(Trim(text))
    case NothingChecked => Success(DAILY)
  }

  /**
   * The checks `saveMedicine` (and `updateMedicine`) make before touching
   * anything, and the record fields they produce.
   */
  function ValidateForm(input: FormInput): (r: Result<Details, FormError>)
    ensures r == Failure(MissingName) <==> Trim(input.name) == []
    ensures r == Failure(MissingDosage) <==> Trim(input.name) != [] && Trim(input.dosage) == []
    ensures r == Failure(MissingDate) <==> Trim(input.name) != [] && Trim(input.dosage) != [] && Trim(input.date) == []
    ensures r == Failure(MissingCustomFrequency) <==>
      Trim(input.name) != [] && Trim(input.dosage) != [] && Trim(input.date) != [] && FrequencyOf(input.choice).Failure?
    ensures r.Success? ==>
      r.value.medicineName == Trim(input.name) && r.value.medicineName != [] &&
      r.value.dosage == Trim(input.dosage) && r.value.dosage != [] &&
      r.value.instructions == Trim(input.instructions) &&
      r.value.reminderDate == Trim(input.date) && r.value.reminderDate != [] &&
      r.value.reminderTime == TimeText(input.hour, input.minute) &&
      r.value.frequency == FrequencyOf(input.choice).value
  {
    if Trim(input.name) == [] then Failure(MissingName)
    else if Trim(input.dosage) == [] then Failure(MissingDosage)
    else if Trim(input.date) == [] then Failure(MissingDate)
    else
      match FrequencyOf(input.choice)
      case Failure(e) => Failure(e)
      case Success(frequency) =>
        Success(Details(Trim(input.name), Trim(input.dosage), Trim(input.instructions),
                        TimeText(input.hour, input.minute), Trim(input.date), frequency))
  }

  /** Every form that passes the checks stores a time the scheduler reads back as the picker's hour and minute. */
  lemma {:induction false} ValidatedTimeRoundTrip(input: FormInput)
    requires 0 <= input.hour < 24 && 0 <= input.minute < 60
    requires ValidateForm(input).Success?
    ensures ParseReminderTime(ValidateForm(input).value.reminderTime) == Some((input.hour as int32, input.minute as int32))
    ensures TimeParses(MedicineValue(0, ValidateForm(input).value, true))
  {
    ParseTimeText(input.hour, input.minute);
  }

  // ---------------------------------------------------------------------------
  // 12-hour display

  /** `hour % 12`, with 0 shown as 12. */
  function DisplayHour(hour: int): int {
    var h := JavaRem(hour, 12);
    if h == 0 then 12 else h
  }

  /** `String.format("%d:%02d %s", displayHour, minute, amPm)`. */
  function FormatTime12(hour: int, minute: int): string {
    FormatInt(DisplayHour(hour)) + ":" + Pad2(minute) + " " + (if hour >= 12 then "PM" else "AM")
  }

  /** The 24-hour hour that a 12-hour clock reading names. */
  function Hour24(displayHour: int, isPm: bool): int {
    displayHour % 12 + (if isPm then 12 else 0)
  }

  /** For a picker hour the display hour is 1..12, is 12 exactly at midnight and noon, and names the hour back. */
  lemma {:induction false} DisplayHourRule(hour: int)
    requires 0 <= hour < 24
    ensures 1 <= DisplayHour(hour) <= 12
    ensures DisplayHour(hour) == 12 <==> hour == 0 || hour == 12
    ensures Hour24(DisplayHour(hour), hour >= 12) == hour
  {
    if hour >= 12 {
      assert JavaRem(hour, 12) == hour - 12;
    } else {
      assert JavaRem(hour, 12) == hour;
    }
  }

  /** Reading "h:mm AM" or "h:mm PM" back as a 24-hour hour and a minute. */
  function ParseTime12(s: string): (r: Option<(int, int)>)
    ensures r.Some? ==> 0 <= r.value.0 < 24 && 0 <= r.value.1 < 60
  {
    if |s| < 3 || s[|s| - 3] != ' ' then None
    else
      var suffix := s[|s| - 2..];
      if suffix != "AM" && suffix != "PM" then None
      else
        var parts := Split(s[..|s| - 3], ':');
        if |parts| != 2 then None
        else
          match (ParseInt(parts[0]), ParseInt(parts[1]))
          case (Some(d), Some(m)) =>
            if 1 <= d <= 12 && 0 <= m < 60 then Some((Hour24(d, suffix == "PM"), m as int)) else None
          case _ => None
  }

  /** The 12-hour text loses nothing: it reads back as the hour and minute it was made from. */
  lemma {:induction false} ParseFormatTime12(hour: int, minute: int)
    requires 0 <= hour < 24 && 0 <= minute < 60
    ensures ParseTime12(FormatTime12(hour, minute)) == Some((hour, minute))
    ensures (FormatTime12(hour, minute)[|FormatTime12(hour, minute)| - 2..] == "PM") <==> hour >= 12
  {
    DisplayHourRule(hour);
    var d := DisplayHour(hour);
    var a := FormatInt(d);
    var b := Pad2(minute);
    var suffix := if hour >= 12 then "PM" else "AM";
    var s := FormatTime12(hour, minute);
    assert s == (a + [':'] + b) + [' '] + suffix;
    assert |suffix| == 2;
    assert s[|s| - 3] == ' ';
    assert s[|s| - 2..] == suffix;
    assert s[..|s| - 3] == a + [':'] + b;
    assert a == Dec(d);
    assert ':' !in a by { assert AllDigits(a); }
    assert ':' !in b by { assert AllDigits(b); }
    SplitPair(a, b, ':');
    ParseFormatInt(d);
    ParsePad2(minute);
  }

  // ---------------------------------------------------------------------------
  // saveMedicine

  /**
   * `saveMedicine`: a form that fails a check changes nothing; otherwise the
   * new active record is stored, and when the store returns a positive id
   * the record takes that id and its alarm is scheduled.
   */
  method SaveMedicine(input: FormInput, db: DatabaseHelper, scheduler: AlarmScheduler, now: int)
    returns (r: Result<int, FormError>)
    requires db.Valid()
    requires 0 <= input.hour < 24 && 0 <= input.minute < 60
    modifies db, scheduler.manager
    ensures db.Valid()
    ensures ValidateForm(input).Failure? ==>
      r == Failure(ValidateForm(input).error) && unchanged(db) &&
      (scheduler.manager != null ==> scheduler.manager.entries == old(scheduler.manager.entries))
    ensures ValidateForm(input).Success? ==>
      var details := ValidateForm(input).value;
      r.Success? && r.value == old(db.medicineSeq) + 1 &&
      db.medicines == old(db.medicines) + [MedicineRow(r.value, details, true)] &&
      db.history == old(db.history)
    ensures ValidateForm(input).Success? && scheduler.manager != null ==>
      var stored := MedicineValue(Wrap32(r.value), ValidateForm(input).value, true);
      scheduler.manager.entries ==
        if r.value > 0
        then ScheduleTable(old(scheduler.manager.entries), stored, NextFireTime(now, input.hour, input.minute), now, PrecisionFor(scheduler.sdk))
        else old(scheduler.manager.entries)
  {
    var form := ValidateForm(input);
    if form.Failure? {
      return Failure(form.error);
    }
    var id := StoreAndSchedule(form.value, input.hour, input.minute, db, scheduler, now);
    r := Success(id);
  }

  /** The part of `saveMedicine` after the checks: store the record, then schedule it under its new id. */
  method StoreAndSchedule(d: Details, hour: int, minute: int, db: DatabaseHelper, scheduler: AlarmScheduler, now: int)
    returns (id: int)
    requires db.Valid()
    requires 0 <= hour < 24 && 0 <= minute < 60
    requires d.reminderTime == TimeText(hour, minute)
    modifies db, scheduler.manager
    ensures db.Valid()
    ensures id == old(db.medicineSeq) + 1
    ensures db.medicines == old(db.medicines) + [MedicineRow(id, d, true)] && db.history == old(db.history)
    ensures scheduler.manager != null ==>
      scheduler.manager.entries ==
        if id > 0
        then ScheduleTable(old(scheduler.manager.entries), MedicineValue(Wrap32(id), d, true), NextFireTime(now, hour, minute), now, PrecisionFor(scheduler.sdk))
        else old(scheduler.manager.entries)
  {
    var medicine := new Medicine.New(d.medicineName, d.dosage, d.instructions, d.reminderTime, d.reminderDate, d.frequency);
    id := db.AddMedicine(medicine);
    if id > 0 {
      medicine.SetId(Wrap32(id));
      ScheduleSaved(medicine, scheduler, now, hour, minute);
    }
  }

  /** The scheduling step of `saveMedicine`, for a record whose time came from the picker. */
  method ScheduleSaved(medicine: Medicine, scheduler: AlarmScheduler, now: int, hour: int, minute: int)
    requires 0 <= hour < 24 && 0 <= minute < 60
    requires medicine.reminderTime == TimeText(hour, minute)
    modifies scheduler.manager
    ensures scheduler.manager != null ==>
      scheduler.manager.entries ==
        ScheduleTable(old(scheduler.manager.entries), medicine.Value(), NextFireTime(now, hour, minute), now, PrecisionFor(scheduler.sdk))
  {
    AlarmTimeOfPicked(medicine.Value(), now, hour, minute);
    var outcome := scheduler.ScheduleMedicineAlarm(medicine, now);
  }
}
