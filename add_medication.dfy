/** The add-medication form (app/medications/add.tsx): the frequency and
    duration tables, the two selectors, the validator, and the record that
    saving the form writes. */
module AddMedication {
  import opened Js
  import opened Records
  import opened Storage
  import opened Schedule

  /** The form state. The supply and threshold are the text typed in. */
  datatype Form = Form(
    name: string,
    dosage: string,
    frequency: string,
    duration: string,
    startDate: int,
    times: seq<string>,
    notes: string,
    reminderEnabled: bool,
    refillReminder: bool,
    currentSupply: string,
    refillAt: string)

  /** A key of the error dictionary. */
  datatype Field = Name | Dosage | Frequency | Duration | CurrentSupply | RefillAt

  const NAME_REQUIRED: string := "Medication name is required"
  const DOSAGE_REQUIRED: string := "Dosage is required"
  const FREQUENCY_REQUIRED: string := "Frequency is required"
  const DURATION_REQUIRED: string := "Duration is required"
  const SUPPLY_REQUIRED: string := "Current supply is required for refill tracking"
  const THRESHOLD_REQUIRED: string := "Refill alert threshold is required"
  const THRESHOLD_TOO_HIGH: string := "Refill alert must be less than current supply"

  datatype FrequencyOption = FrequencyOption(id: string, text: string, times: seq<string>)

  const FREQUENCIES: seq<FrequencyOption> := [
    FrequencyOption("1", "Once daily", ["09:00"]),
    FrequencyOption("2", "Twice daily", ["09:00", "21:00"]),
    FrequencyOption("3", "Three times daily", ["09:00", "15:00", "21:00"]),
    FrequencyOption("4", "Four times daily", ["09:00", "13:00", "17:00", "21:00"]),
    FrequencyOption("5", "As needed", [])
  ]

  datatype DurationOption = DurationOption(id: string, text: string, value: int)

  const DURATIONS: seq<DurationOption> := [
    DurationOption("1", "7 days", 7),
    DurationOption("2", "14 days", 14),
    DurationOption("3", "30 days", 30),
    DurationOption("4", "90 days", 90),
    DurationOption("5", "Ongoing", -1)
  ]

  /** FREQUENCIES.find(f => f.label === freq) */
  function FindFrequency(options: seq<FrequencyOption>, freq: string): (r: Option<FrequencyOption>)
    ensures r.None? <==> forall k :: 0 <= k < |options| ==> options[k].text != freq
    ensures r.Some? ==> exists k :: 0 <= k < |options| && options[k] == r.value && r.value.text == freq
                                    && forall j :: 0 <= j < k ==> options[j].text != freq
  {
    if options == [] then None
    else if options[0].text == freq then Some(options[0])
    else FindFrequency(options[1..], freq)
  }

  /** selectedFreq?.times || []: an empty list is truthy, so a matching
      entry's list is taken as it is. */
  function FrequencyTimes(freq: string): (r: seq<string>)
    ensures (forall k :: 0 <= k < |FREQUENCIES| ==> FREQUENCIES[k].text != freq) ==> r == []
    ensures r != [] ==> exists k :: 0 <= k < |FREQUENCIES| && FREQUENCIES[k].text == freq && FREQUENCIES[k].times == r
  {
    match FindFrequency(FREQUENCIES, freq)
    case Some(f) => f.times
    case None => []
  }

  /** Each label of the table gives its own times: one to four doses a day
      for the daily entries and none for "As needed"; a label that is not
      in the table also gives none. */
  lemma FrequencyTimesTable()
    ensures FrequencyTimes("Once daily") == ["09:00"]
    ensures FrequencyTimes("Twice daily") == ["09:00", "21:00"]
    ensures FrequencyTimes("Three times daily") == ["09:00", "15:00", "21:00"]
    ensures FrequencyTimes("Four times daily") == ["09:00", "13:00", "17:00", "21:00"]
    ensures FrequencyTimes("As needed") == []
  {
    FrequencyRow(0);
    FrequencyRow(1);
    FrequencyRow(2);
    FrequencyRow(3);
    FrequencyRow(4);
  }

  /** Row k of the table is the first entry with its label, so its label
      selects its times. */
  lemma FrequencyRow(k: int)
    requires 0 <= k < |FREQUENCIES|
    ensures FrequencyTimes(FREQUENCIES[k].text) == FREQUENCIES[k].times
  {
    assert forall j :: 0 <= j < k ==> FREQUENCIES[j].text != FREQUENCIES[k].text;
  }

  /** A label that is not in the table gives no times. */
  lemma FrequencyTimesUnknown(freq: string)
    requires forall k :: 0 <= k < |FREQUENCIES| ==> FREQUENCIES[k].text != freq
    ensures FrequencyTimes(freq) == []
  {
  }

  /** handleFrequencySelect: stores the label and the table's times, and
      blanks a frequency error that is showing. */
  function SelectFrequency(form: Form, errors: map<Field, string>, freq: string): (r: (Form, map<Field, string>))
    ensures r.0.frequency == freq && r.0.times == FrequencyTimes(freq)
    ensures r.1.Keys == errors.Keys && (Frequency in r.1 ==> r.1[Frequency] == [])
  {
    (form.(frequency := freq, times := FrequencyTimes(freq)),
     if Frequency in errors && errors[Frequency] != [] then errors[Frequency := []] else errors)
  }

  /** handleDurationSelect: stores the label, not the number of days. */
  function SelectDuration(form: Form, errors: map<Field, string>, dur: string): (r: (Form, map<Field, string>))
    ensures r.0.duration == dur && r.0.times == form.times
    ensures r.1.Keys == errors.Keys && (Duration in r.1 ==> r.1[Duration] == [])
  {
    (form.(duration := dur),
     if Duration in errors && errors[Duration] != [] then errors[Duration := []] else errors)
  }

  /** Selecting writes only the selected field (and the times for a
      frequency), leaves no error message showing for it, and keeps every
      other error as it was. */
  lemma SelectorsSpec(form: Form, errors: map<Field, string>, choice: string)
    ensures var (f, e) := SelectFrequency(form, errors, choice);
      f.(frequency := form.frequency, times := form.times) == form
      && f.frequency == choice && f.times == FrequencyTimes(choice)
      && (Frequency in e ==> e[Frequency] == []) && e.Keys == errors.Keys
      && forall k :: k in errors && k != Frequency ==> e[k] == errors[k]
    ensures var (f, e) := SelectDuration(form, errors, choice);
      f.(duration := form.duration) == form && f.duration == choice
      && (Duration in e ==> e[Duration] == []) && e.Keys == errors.Keys
      && forall k :: k in errors && k != Duration ==> e[k] == errors[k]
  {
  }

  /** The rules validateForm checks, as one condition. */
  predicate FormAccepted(form: Form)
    ensures FormAccepted(form) ==> !AllWhitespace(form.name) && !AllWhitespace(form.dosage)
    ensures FormAccepted(form) && form.refillReminder ==> form.currentSupply != [] && form.refillAt != []
  {
    TrimEmptyIffBlank(form.name);
    TrimEmptyIffBlank(form.dosage);
    Trim(form.name) != [] && Trim(form.dosage) != [] && form.frequency != [] && form.duration != []
    && (form.refillReminder ==>
          form.currentSupply != [] && form.refillAt != []
          && !AtLeast(NumberOf(form.refillAt), NumberOf(form.currentSupply)))
  }

  /** validateForm: fills the error dictionary field by field and accepts
      the form when it stays empty. */
  method ValidateForm(form: Form) returns (errors: map<Field, string>, valid: bool)
    ensures Name in errors <==> Trim(form.name) == []
    ensures Dosage in errors <==> Trim(form.dosage) == []
    ensures Frequency in errors <==> form.frequency == []
    ensures Duration in errors <==> form.duration == []
    ensures CurrentSupply in errors <==> form.refillReminder && form.currentSupply == []
    ensures RefillAt in errors <==>
      form.refillReminder && (form.refillAt == [] || AtLeast(NumberOf(form.refillAt), NumberOf(form.currentSupply)))
    ensures Name in errors ==> errors[Name] == NAME_REQUIRED
    ensures Dosage in errors ==> errors[Dosage] == DOSAGE_REQUIRED
    ensures Frequency in errors ==> errors[Frequency] == FREQUENCY_REQUIRED
    ensures Duration in errors ==> errors[Duration] == DURATION_REQUIRED
    ensures CurrentSupply in errors ==> errors[CurrentSupply] == SUPPLY_REQUIRED
    ensures RefillAt in errors ==>
      errors[RefillAt] == if AtLeast(NumberOf(form.refillAt), NumberOf(form.currentSupply)) then THRESHOLD_TOO_HIGH else THRESHOLD_REQUIRED
    ensures valid <==> errors == map[]
    ensures valid <==> FormAccepted(form)
  {
    errors := CheckRequiredFields(form);
    if form.refillReminder {
      errors := CheckRefillFields(form, errors);
    }
    valid := |errors| == 0;
    if FormAccepted(form) {
      forall k: Field ensures k !in errors {
        assert k.Name? || k.Dosage? || k.Frequency? || k.Duration? || k.CurrentSupply? || k.RefillAt?;
      }
    }
  }

  /** The first four checks of validateForm: name and dosage must not be
      blank after trimming, frequency and duration must be chosen. */
  method CheckRequiredFields(form: Form) returns (newErrors: map<Field, string>)
    ensures CurrentSupply !in newErrors && RefillAt !in newErrors
    ensures Name in newErrors <==> Trim(form.name) == []
    ensures Dosage in newErrors <==> Trim(form.dosage) == []
    ensures Frequency in newErrors <==> form.frequency == []
    ensures Duration in newErrors <==> form.duration == []
    ensures Name in newErrors ==> newErrors[Name] == NAME_REQUIRED
    ensures Dosage in newErrors ==> newErrors[Dosage] == DOSAGE_REQUIRED
    ensures Frequency in newErrors ==> newErrors[Frequency] == FREQUENCY_REQUIRED
    ensures Duration in newErrors ==> newErrors[Duration] == DURATION_REQUIRED
  {
    newErrors := map[];
    if Trim(form.name) == [] {
      newErrors := newErrors[Name := NAME_REQUIRED];
    }
    if Trim(form.dosage) == [] {
      newErrors := newErrors[Dosage := DOSAGE_REQUIRED];
    }
    if form.frequency == [] {
      newErrors := newErrors[Frequency := FREQUENCY_REQUIRED];
    }
    if form.duration == [] {
      newErrors := newErrors[Duration := DURATION_REQUIRED];
    }
  }

  /** The refill block of validateForm: both entries are required, and a
      threshold that is not below the supply replaces the threshold's
      message, also when the threshold is blank. */
  method CheckRefillFields(form: Form, errors: map<Field, string>) returns (newErrors: map<Field, string>)
    requires CurrentSupply !in errors && RefillAt !in errors
    ensures forall k :: k != CurrentSupply && k != RefillAt ==> (k in newErrors <==> k in errors)
    ensures forall k :: k in errors ==> newErrors[k] == errors[k]
    ensures CurrentSupply in newErrors <==> form.currentSupply == []
    ensures CurrentSupply in newErrors ==> newErrors[CurrentSupply] == SUPPLY_REQUIRED
    ensures RefillAt in newErrors <==> form.refillAt == [] || AtLeast(NumberOf(form.refillAt), NumberOf(form.currentSupply))
    ensures RefillAt in newErrors ==>
      newErrors[RefillAt] == if AtLeast(NumberOf(form.refillAt), NumberOf(form.currentSupply)) then THRESHOLD_TOO_HIGH else THRESHOLD_REQUIRED
  {
    newErrors := errors;
    if form.currentSupply == [] {
      newErrors := newErrors[CurrentSupply := SUPPLY_REQUIRED];
    }
    if form.refillAt == [] {
      newErrors := newErrors[RefillAt := THRESHOLD_REQUIRED];
    }
    if AtLeast(NumberOf(form.refillAt), NumberOf(form.currentSupply)) {
      newErrors := newErrors[RefillAt := THRESHOLD_TOO_HIGH];
    }
  }

  /** With refill tracking off, the supply and threshold text is never
      looked at. */
  lemma {:induction false} RefillFieldsIgnoredWhenOff(form: Form, cs: string, ra: string)
    requires !form.refillReminder
    ensures FormAccepted(form.(currentSupply := cs, refillAt := ra)) == FormAccepted(form)
  {
  }

  /** An accepted form with refill tracking on and numeric entries has a
      threshold strictly below the supply; blank entries are rejected even
      though Number("") is 0. A threshold or supply that is not a number
      compares false and so passes the check. */
  lemma {:induction false} ThresholdBelowSupply(form: Form)
    ensures FormAccepted(form) && form.refillReminder && NumberOf(form.refillAt).Int? && NumberOf(form.currentSupply).Int?
            ==> NumberOf(form.refillAt).value < NumberOf(form.currentSupply).value
    ensures form.refillReminder && (form.currentSupply == [] || form.refillAt == []) ==> !FormAccepted(form)
    ensures Trim(form.name) != [] && Trim(form.dosage) != [] && form.frequency != [] && form.duration != []
            && form.refillReminder && form.currentSupply != [] && form.refillAt != []
            && (NumberOf(form.refillAt).NaN? || NumberOf(form.currentSupply).NaN?)
            ==> FormAccepted(form)
  {
  }

  /** The record handleSave writes: the form's fields, the supply entered
      (0 when blank) as both current and total supply, the threshold (0
      when blank), and the id and colour that were drawn at random. */
  function BuildMedication(form: Form, id: Id, color: string): (r: Medication)
    ensures r.currentSupply == r.totalSupply
    ensures r.id == id && r.color == color && r.lastRefillDate.None?
    ensures r.name == form.name && r.dosage == form.dosage && r.frequency == form.frequency
            && r.duration == form.duration && r.startDate == form.startDate && r.times == form.times
            && r.notes == form.notes && r.reminderEnabled == form.reminderEnabled && r.refillReminder == form.refillReminder
    ensures form.currentSupply == [] ==> r.currentSupply == Int(0)
    ensures form.refillAt == [] ==> r.refillAt == Int(0)
  {
    var supply := if form.currentSupply != [] then NumberOf(form.currentSupply) else Int(0);
    Medication(id, form.name, form.dosage, form.frequency, form.duration, form.startDate, form.times,
               form.notes, form.reminderEnabled, form.refillReminder,
               supply, supply,
               if form.refillAt != [] then NumberOf(form.refillAt) else Int(0),
               color, None)
  }

  /** A new record starts full: its current supply is its total, both are
      0 when the supply was left blank or blank-like, and the threshold is 0
      when it was left blank. The supply invariant holds at creation exactly
      when the entered supply is blank or a non-negative number, so a
      negative or non-numeric entry yields a record outside the bounds. */
  lemma {:induction false} NewRecordSupply(form: Form, id: Id, color: string)
    ensures var m := BuildMedication(form, id, color);
      m.currentSupply == m.totalSupply
      && (AllWhitespace(form.currentSupply) ==> m.currentSupply == Int(0))
      && (form.refillAt == [] ==> m.refillAt == Int(0))
      && (SupplyInBounds(m) <==> AllWhitespace(form.currentSupply) || (NumberOf(form.currentSupply).Int? && NumberOf(form.currentSupply).value >= 0))
      && m.lastRefillDate.None? && m.id == id && m.color == color && m.duration == form.duration
  {
    NumberOfSpec(form.currentSupply, []);
  }

  /** Every duration on offer is positive except "Ongoing", whose value is
      -1. */
  lemma DurationValues()
    ensures forall k :: 0 <= k < |DURATIONS| ==> (DURATIONS[k].value > 0 <==> k != 4)
    ensures DURATIONS[4].text == "Ongoing" && DURATIONS[4].value == -1
  {
  }

  /** The labels the form stores read back as their table value, except
      "Ongoing", which reads back as NaN rather than -1. */
  lemma {:induction false} DurationLabelsParse()
    ensures DurationDays(DURATIONS[0].text) == Some(DURATIONS[0].value)
    ensures DurationDays(DURATIONS[1].text) == Some(DURATIONS[1].value)
    ensures DurationDays(DURATIONS[2].text) == Some(DURATIONS[2].value)
    ensures DurationDays(DURATIONS[3].text) == Some(DURATIONS[3].value)
    ensures DurationDays(DURATIONS[4].text).None?
  {
    SevenDaysLabel();
    FourteenDaysLabel();
    ThirtyDaysLabel();
    NinetyDaysLabel();
    OngoingLabel();
  }

  lemma {:induction false} FourteenDaysLabel()
    ensures DurationDays(DURATIONS[1].text) == Some(DURATIONS[1].value)
  {
    TwoDigitLabel("14 days", "14", 14);
  }

  lemma {:induction false} ThirtyDaysLabel()
    ensures DurationDays(DURATIONS[2].text) == Some(DURATIONS[2].value)
  {
    TwoDigitLabel("30 days", "30", 30);
  }

  lemma {:induction false} NinetyDaysLabel()
    ensures DurationDays(DURATIONS[3].text) == Some(DURATIONS[3].value)
  {
    TwoDigitLabel("90 days", "90", 90);
  }

  lemma {:induction false} OngoingLabel()
    ensures DurationDays(DURATIONS[4].text).None?
  {
    FirstWordOfOngoing();
    assert TrimStart("Ongoing") == "Ongoing";
  }

  /** A two-digit label "<d1d2> days" reads back as 10 * d1 + d2. */
  lemma {:induction false} TwoDigitLabel(text: string, digits: string, value: int)
    requires |digits| == 2 && AllDigits(digits)
    requires text == digits + " days"
    requires value == (digits[0] as int - '0' as int) * 10 + (digits[1] as int - '0' as int)
    ensures DurationDays(text) == Some(value)
  {
    DaysLabelParses(text, digits);
    var first := digits[..1];
    assert first[..0] == [] && first[0] == digits[0];
    assert DigitsValue(first) == digits[0] as int - '0' as int;
  }

  /** handleSave: validate, then store the new record; an invalid form
      writes nothing. */
  method HandleSave(store: Store, form: Form, id: Id, color: string) returns (saved: bool)
    modifies store
    ensures saved <==> FormAccepted(form)
    ensures store.State() == if saved then Persisted(old(store.medications) + [BuildMedication(form, id, color)], old(store.doses))
                             else old(store.State())
  {
    var errors, valid := ValidateForm(form);
    if !valid {
      return false;
    }
    var medicationData := BuildMedication(form, id, color);
    store.AddMedication(medicationData);
    return true;
  }

  /** A medication saved with the "Ongoing" duration is never listed on
      the home screen: the label's first word is not a number. */
  lemma {:induction false} SavedOngoingNeverActive(form: Form, id: Id, color: string, today: int)
    requires form.duration == DURATIONS[4].text
    ensures !IsActiveToday(BuildMedication(form, id, color), today)
  {
    OngoingLabelNeverActive(BuildMedication(form, id, color), today);
  }
}
