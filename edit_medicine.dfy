/**
 * `EditMedicineActivity`: the form is filled from a stored record, and
 * `updateMedicine` runs the add screen's checks, overwrites the six editable
 * fields of the record and reschedules its alarm when the store reports an
 * updated row.
 */
module EditMedicineScreen {
  import opened Base
  import opened Text
  import opened MedicineRecord
  import opened FireTime
  import opened Scheduler
  import opened AddMedicineScreen

  /** What `loadMedicineData` does to the time picker. */
  datatype PickerLoad =
    /** The stored time does not split into exactly two parts: the picker keeps the current time. */
    | KeepPicker
    | SetPicker(hour: int32, minute: int32)
    /** Two parts, but `Integer.parseInt` throws on one of them; nothing catches it. */
    | PickerThrows

  function PickerFor(reminderTime: string): (r: PickerLoad)
    ensures r.KeepPicker? <==> |Split(reminderTime, ':')| != 2
    ensures r.SetPicker? ==>
      ParseInt(Split(reminderTime, ':')[0]) == Some(r.hour) && ParseInt(Split(reminderTime, ':')[1]) == Some(r.minute)
  {
    var parts := Split(reminderTime, ':');
    if |parts| != 2 then KeepPicker
    else
      match (ParseInt(parts[0]), ParseInt(parts[1]))
      case (Some(hour), Some(minute)) => SetPicker(hour, minute)
      case _ => PickerThrows
  }

  /** The radio button `loadMedicineData` checks for a stored frequency label; any other label goes to the custom field. */
  function RadioForLabel(text: string): (r: FrequencyChoice)
    ensures r == DailyChecked <==> text == DAILY
    ensures r == TwelveHoursChecked <==> text == EVERY_12_HOURS
    ensures r.CustomChecked? <==> text != DAILY && text != EVERY_12_HOURS
    ensures r.CustomChecked? ==> r.customText == text
    ensures r != NothingChecked
  {
    if text == DAILY then DailyChecked
    else if text == EVERY_12_HOURS then TwelveHoursChecked
    else CustomChecked(text)
  }

  /**
   * The form `loadMedicineData` shows for a stored record, the picker
   * starting at `currentHour:currentMinute`; None where it throws.
   */
  function LoadForm(d: Details, currentHour: int, currentMinute: int): (r: Option<FormInput>)
    ensures r.None? <==> PickerFor(d.reminderTime).PickerThrows?
    ensures r.Some? ==>
      r.value.name == d.medicineName && r.value.dosage == d.dosage &&
      r.value.instructions == d.instructions && r.value.date == d.reminderDate &&
      r.value.choice == RadioForLabel(d.frequency)
    ensures r.Some? && PickerFor(d.reminderTime).KeepPicker? ==> r.value.hour == currentHour && r.value.minute == currentMinute
  {
    var form := FormInput(d.medicineName, d.dosage, d.instructions, d.reminderDate, currentHour, currentMinute, RadioForLabel(d.frequency));
    match PickerFor(d.reminderTime)
    case KeepPicker => Some(form)
    case SetPicker(hour, minute) => Some(form.(hour := hour, minute := minute))
    case PickerThrows => None
  }

  /** A string `trim` leaves alone. */
  predicate Trimmed(s: string) {
    s != [] ==> !IsTrimmable(s[0]) && !IsTrimmable(s[|s| - 1])
  }

  /**
   * Loading a frequency label and saving it again gives it back trimmed; a
   * label that trims to nothing is loaded into the custom field and then
   * refuses to save.
   */
  lemma {:induction false} LabelRoundTrip(text: string)
    ensures FrequencyOf(RadioForLabel(text)) ==
      if Trim(text) == [] then Failure(MissingCustomFrequency) else Success(Trim(text))
  {
    if text == DAILY || text == EVERY_12_HOURS {
      TrimOfTrimmed(text);
    }
  }

  /**
   * Opening a record the add screen could have saved and pressing "Update"
   * without touching anything saves exactly the same fields.
   */
  lemma {:induction false} EditUnchangedRoundTrip(d: Details, hour: int, minute: int, currentHour: int, currentMinute: int)
    requires 0 <= hour < 24 && 0 <= minute < 60 && d.reminderTime == TimeText(hour, minute)
    requires d.medicineName != [] && d.dosage != [] && d.reminderDate != [] && d.frequency != []
    requires Trimmed(d.medicineName) && Trimmed(d.dosage) && Trimmed(d.instructions)
    requires Trimmed(d.reminderDate) && Trimmed(d.frequency)
    ensures PickerFor(d.reminderTime) == SetPicker(hour as int32, minute as int32)
    ensures LoadForm(d, currentHour, currentMinute).Some?
    ensures ValidateForm(LoadForm(d, currentHour, currentMinute).value) == Success(d)
  {
    PickerForTimeText(hour, minute);
    var form := FormInput(d.medicineName, d.dosage, d.instructions, d.reminderDate, hour, minute, RadioForLabel(d.frequency));
    assert LoadForm(d, currentHour, currentMinute) == Some(form);
    TrimmedLabelRoundTrip(d.frequency);
    ValidateTrimmedForm(form, d.frequency);
  }

  /** A label with nothing to trim is saved back unchanged, whichever button it checks. */
  lemma {:induction false} TrimmedLabelRoundTrip(text: string)
    requires text != [] && Trimmed(text)
    ensures FrequencyOf(RadioForLabel(text)) == Success(text)
  {
    LabelRoundTrip(text);
    TrimOfTrimmed(text);
  }

  /** A form whose text fields are already trimmed and filled in passes the checks and is stored as typed. */
  lemma {:induction false} ValidateTrimmedForm(input: FormInput, frequency: string)
    requires input.name != [] && input.dosage != [] && input.date != []
    requires Trimmed(input.name) && Trimmed(input.dosage) && Trimmed(input.instructions) && Trimmed(input.date)
    requires FrequencyOf(input.choice) == Success(frequency)
    ensures ValidateForm(input) ==
      Success(Details(input.name, input.dosage, input.instructions, TimeText(input.hour, input.minute), input.date, frequency))
  {
    TrimOfTrimmed(input.name);
    TrimOfTrimmed(input.dosage);
    TrimOfTrimmed(input.instructions);
    TrimOfTrimmed(input.date);
    ValidateUntrimmedForm(input, frequency);
  }

  /** The checks on a form whose fields `trim` leaves alone. */
  lemma {:induction false} ValidateUntrimmedForm(input: FormInput, frequency: string)
    requires Trim(input.name) == input.name != [] && Trim(input.dosage) == input.dosage != []
    requires Trim(input.instructions) == input.instructions && Trim(input.date) == input.date != []
    requires FrequencyOf(input.choice) == Success(frequency)
    ensures ValidateForm(input) ==
      Success(Details(input.name, input.dosage, input.instructions, TimeText(input.hour, input.minute), input.date, frequency))
  {
  }

  /** The picker is set back to every time the add and edit screens store. */
  lemma {:induction false} PickerForTimeText(hour: int, minute: int)
    requires 0 <= hour < 24 && 0 <= minute < 60
    ensures PickerFor(TimeText(hour, minute)) == SetPicker(hour as int32, minute as int32)
  {
    var a, b := Pad2(hour), Pad2(minute);
    assert ':' !in a by {
      assert forall i :: 0 <= i < |a| ==> IsDigit(a[i]);
    }
    assert ':' !in b by {
      assert forall i :: 0 <= i < |b| ==> IsDigit(b[i]);
    }
    SplitPair(a, b, ':');
    ParsePad2(hour);
    ParsePad2(minute);
  }

  datatype UpdateOutcome =
    | Rejected(error: FormError)
    /** The checks passed but no record was loaded: the first setter dereferences null. */
    | NullMedicine
    /** The store reported no updated row; nothing is rescheduled. */
    | NotUpdated
    | Updated

  /**
   * `updateMedicine`: the checks come first and a failing one changes
   * nothing; then the six editable fields are overwritten (id and active
   * flag stay), and the alarm is rescheduled exactly when the store's
   * update reports a row.
   */
  method UpdateMedicine(medicine: Medicine?, input: FormInput, rowsAffected: int, scheduler: AlarmScheduler, now: int)
    returns (outcome: UpdateOutcome)
    requires 0 <= input.hour < 24 && 0 <= input.minute < 60
    modifies medicine, scheduler.manager
    ensures ValidateForm(input).Failure? ==> outcome == Rejected(ValidateForm(input).error)
    ensures ValidateForm(input).Success? && medicine == null ==> outcome == NullMedicine
    ensures ValidateForm(input).Failure? || medicine == null ==>
      (medicine != null ==> unchanged(medicine)) && (scheduler.manager != null ==> scheduler.manager.entries == old(scheduler.manager.entries))
    ensures ValidateForm(input).Success? && medicine != null ==>
      outcome == (if rowsAffected > 0 then Updated else NotUpdated) &&
      medicine.Value() == old(medicine.Value()).(details := ValidateForm(input).value) &&
      (scheduler.manager != null ==>
         scheduler.manager.entries ==
           if rowsAffected > 0
           then ScheduleTable(old(scheduler.manager.entries), medicine.Value(), NextFireTime(now, input.hour, input.minute), now, PrecisionFor(scheduler.sdk))
           else old(scheduler.manager.entries))
  {
    var form := ValidateForm(input);
    if form.Failure? {
      return Rejected(form.error);
    }
    if medicine == null {
      return NullMedicine;
    }
    outcome := ApplyUpdate(medicine, form.value, input.hour, input.minute, rowsAffected, scheduler, now);
  }

  /** The part of `updateMedicine` after the checks. */
  method ApplyUpdate(medicine: Medicine, d: Details, hour: int, minute: int, rowsAffected: int, scheduler: AlarmScheduler, now: int)
    returns (outcome: UpdateOutcome)
    requires 0 <= hour < 24 && 0 <= minute < 60 && d.reminderTime == TimeText(hour, minute)
    modifies medicine, scheduler.manager
    ensures outcome == (if rowsAffected > 0 then Updated else NotUpdated)
    ensures medicine.Value() == old(medicine.Value()).(details := d)
    ensures scheduler.manager != null ==>
      scheduler.manager.entries ==
        if rowsAffected > 0
        then ScheduleTable(old(scheduler.manager.entries), medicine.Value(), NextFireTime(now, hour, minute), now, PrecisionFor(scheduler.sdk))
        else old(scheduler.manager.entries)
  {
    medicine.SetMedicineName(d.medicineName);
    medicine.SetDosage(d.dosage);
    medicine.SetInstructions(d.instructions);
    medicine.SetReminderTime(d.reminderTime);
    medicine.SetReminderDate(d.reminderDate);
    medicine.SetFrequency(d.frequency);
    if rowsAffected > 0 {
      ScheduleSaved(medicine, scheduler, now, hour, minute);
      outcome := Updated;
    } else {
      outcome := NotUpdated;
    }
  }
}
