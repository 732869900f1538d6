/**
 * `Medicine`: the mutable record a screen fills in, the store hands out and
 * the scheduler reads.
 */
module MedicineRecord {
  import opened Base

  /** The six fields a user edits on the add and edit screens. */
  datatype Details = Details(
    medicineName: string,
    dosage: string,
    instructions: string,
    reminderTime: string,   // "HH:mm"
    reminderDate: string,
    frequency: string)

  /** A snapshot of a `Medicine` object's eight fields. */
  datatype MedicineValue = MedicineValue(id: int32, details: Details, isActive: bool)

  class Medicine {
    var id: int32
    var medicineName: string
    var dosage: string
    var instructions: string
    var reminderTime: string
    var reminderDate: string
    var frequency: string
    var isActive: bool

    function Value(): MedicineValue
      reads this
    {
      MedicineValue(id, Details(medicineName, dosage, instructions, reminderTime, reminderDate, frequency), isActive)
    }

    /** The constructor for a medicine not yet stored: active, and the id left at Java's default 0. */
    constructor New(medicineName: string, dosage: string, instructions: string,
                    reminderTime: string, reminderDate: string, frequency: string)
      ensures Value() == MedicineValue(0, Details(medicineName, dosage, instructions, reminderTime, reminderDate, frequency), true)
    {
      this.id := 0;
      this.medicineName := medicineName;
      this.dosage := dosage;
      this.instructions := instructions;
      this.reminderTime := reminderTime;
      this.reminderDate := reminderDate;
      this.frequency := frequency;
      this.isActive := true;
    }

    /** The constructor for a medicine loaded from the store: every argument kept as given. */
    constructor Loaded(id: int32, medicineName: string, dosage: string, instructions: string,
                       reminderTime: string, reminderDate: string, frequency: string, isActive: bool)
      ensures Value() == MedicineValue(id, Details(medicineName, dosage, instructions, reminderTime, reminderDate, frequency), isActive)
    {
      this.id := id;
      this.medicineName := medicineName;
      this.dosage := dosage;
      this.instructions := instructions;
      this.reminderTime := reminderTime;
      this.reminderDate := reminderDate;
      this.frequency := frequency;
      this.isActive := isActive;
    }

    // Each setter overwrites its own field and leaves the other seven alone.

    method SetId(id: int32)
      modifies this
      ensures Value() == old(Value()).(id := id)
    {
      this.id := id;
    }

    method SetMedicineName(medicineName: string)
      modifies this
      ensures Value() == old(Value()).(details := old(Value()).details.(medicineName := medicineName))
    {
      this.medicineName := medicineName;
    }

    method SetDosage(dosage: string)
      modifies this
      ensures Value() == old(Value()).(details := old(Value()).details.(dosage := dosage))
    {
      this.dosage := dosage;
    }

    method SetInstructions(instructions: string)
      modifies this
      ensures Value() == old(Value()).(details := old(Value()).details.(instructions := instructions))
    {
      this.instructions := instructions;
    }

    method SetReminderTime(reminderTime: string)
      modifies this
      ensures Value() == old(Value()).(details := old(Value()).details.(reminderTime := reminderTime))
    {
      this.reminderTime := reminderTime;
    }

    method SetReminderDate(reminderDate: string)
      modifies this
      ensures Value() == old(Value()).(details := old(Value()).details.(reminderDate := reminderDate))
    {
      this.reminderDate := reminderDate;
    }

    method SetFrequency(frequency: string)
      modifies this
      ensures Value() == old(Value()).(details := old(Value()).details.(frequency := frequency))
    {
      this.frequency := frequency;
    }

    method SetActive(active: bool)
      modifies this
      ensures Value() == old(Value()).(isActive := active)
    {
      this.isActive := active;
    }
  }
}
