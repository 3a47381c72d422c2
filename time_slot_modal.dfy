/**
 * The add/edit time-slot dialog: three text fields (seats and the two
 * "HH:MM" times), filled from the slot being edited or left empty, and the
 * submit that turns them into a slot on the base date.
 *
 * A `type="time"` input holds "" or a 24-hour "HH:MM" text, so the time
 * fields are kept to those values; the seats field is free text read with
 * `parseInt`.
 */
module TimeSlotModal {
  import opened Wrappers
  import opened Strings
  import opened Clock

  /** `initialValues`: the slot being edited. */
  datatype Initial = Initial(seats: int, startTime: Instant, endTime: Instant)

  /** What `onSubmit` receives; `seats` is None when `parseInt` gives NaN. */
  datatype SlotInput = SlotInput(seats: Option<int>, startTime: Instant, endTime: Instant)

  /** Submit either does nothing, throws on `initialValues!` when editing
   *  without initial values, or calls `onSubmit(slot)` and then `onClose()`. */
  datatype SubmitResult = Ignored | Crashed | Submitted(slot: SlotInput)

  /** A value a time field can hold. */
  predicate TimeField(s: string)
  {
    s == "" || IsTimeValue(s)
  }

  /** The three field values the dialog starts from, and resets to: the
   *  initial slot's seats and 24-hour times, or empty fields. */
  function InitialFields(initial: Option<Initial>): (r: (string, string, string))
    ensures TimeField(r.1) && TimeField(r.2)
    ensures initial.None? ==> r == ("", "", "")
    ensures initial.Some? ==>
      ParseInt(r.0) == Some(initial.value.seats) &&
      r.1 != "" && ParseTime(r.1) == (HourOf(initial.value.startTime), MinuteOf(initial.value.startTime)) &&
      r.2 != "" && ParseTime(r.2) == (HourOf(initial.value.endTime), MinuteOf(initial.value.endTime))
  {
    match initial
    case None => ("", "", "")
    case Some(iv) =>
      ParseIntToString(iv.seats);
      ParseFormatTime(iv.startTime);
      ParseFormatTime(iv.endTime);
      (IntToString(iv.seats), FormatTime(iv.startTime), FormatTime(iv.endTime))
  }

  /** The slot built from filled fields: `parseInt(seats)`, and each time
   *  applied with `setHours(h, m, 0, 0)` to a copy of `base`. Both ends
   *  lie on the day of `base` at the hour and minute typed. */
  function SlotOf(seats: string, startTime: string, endTime: string, base: Instant): (r: SlotInput)
    requires IsTimeValue(startTime) && IsTimeValue(endTime)
    ensures r.seats == ParseInt(seats)
    ensures DayStart(r.startTime) == DayStart(base) && DayStart(r.endTime) == DayStart(base)
    ensures (HourOf(r.startTime), MinuteOf(r.startTime)) == ParseTime(startTime)
    ensures (HourOf(r.endTime), MinuteOf(r.endTime)) == ParseTime(endTime)
  {
    var (sh, sm) := ParseTime(startTime);
    var (eh, em) := ParseTime(endTime);
    SetHoursFields(base, sh, sm);
    SetHoursFields(base, eh, em);
    SlotInput(ParseInt(seats), SetHours(base, sh, sm), SetHours(base, eh, em))
  }

  /** Opening an existing slot and saving it unchanged gives back its seats
   *  and start, and its end's hour and minute on the start's day: the same
   *  end whenever the slot starts and ends on one day. */
  lemma EditRoundTrip(iv: Initial)
    ensures var (seats, startTime, endTime) := InitialFields(Some(iv));
      var r := SlotOf(seats, startTime, endTime, iv.startTime);
      r.seats == Some(iv.seats) && r.startTime == iv.startTime &&
      r.endTime == SetHours(iv.startTime, HourOf(iv.endTime), MinuteOf(iv.endTime)) &&
      (DayStart(iv.endTime) == DayStart(iv.startTime) ==> r.endTime == iv.endTime)
  {
    var (seats, startTime, endTime) := InitialFields(Some(iv));
    var r := SlotOf(seats, startTime, endTime, iv.startTime);
    SetHoursOwn(iv.startTime);
    SetHoursOwn(iv.endTime);
  }

  /** The dialog does not compare the ends: an end before the start is
   *  passed on as it is. */
  lemma EndBeforeStartPasses(base: Instant)
    ensures SlotOf("1", "10:00", "09:00", base).endTime < SlotOf("1", "10:00", "09:00", base).startTime
  {
    assert "10:00"[..2] == "10" && "10:00"[3..] == "00";
    assert "09:00"[..2] == "09" && "09:00"[3..] == "00";
    SplitTime("10:00");
    SplitTime("09:00");
  }

  class TimeSlotDialog {
    var seats: string
    var startTime: string
    var endTime: string
    const isEditing: bool
    const initialValues: Option<Initial>
    const selectedDate: Option<Instant>

    /** The time fields hold what a time input can hold. */
    predicate Valid()
      reads this
    {
      TimeField(startTime) && TimeField(endTime)
    }

    /** The guard of `handleSubmit`, which is also the submit button's
     *  `disabled` condition. */
    predicate Disabled()
      reads this
    {
      seats == "" || startTime == "" || endTime == "" || (!isEditing && selectedDate.None?)
    }

    constructor(isEditing: bool, initialValues: Option<Initial>, selectedDate: Option<Instant>)
      ensures Valid()
      ensures this.isEditing == isEditing && this.initialValues == initialValues && this.selectedDate == selectedDate
      ensures (seats, startTime, endTime) == InitialFields(initialValues)
    {
      this.isEditing := isEditing;
      this.initialValues := initialValues;
      this.selectedDate := selectedDate;
      var fields := InitialFields(initialValues);
      seats := fields.0;
      startTime := fields.1;
      endTime := fields.2;
    }

    /** The effect run when the dialog opens or closes, or its initial
     *  values change: the fields return to their initial values. */
    method ResetEffect()
      modifies this
      ensures Valid()
      ensures (seats, startTime, endTime) == InitialFields(initialValues)
    {
      var fields := InitialFields(initialValues);
      seats := fields.0;
      startTime := fields.1;
      endTime := fields.2;
    }

    method SetSeats(value: string)
      modifies this
      requires Valid()
      ensures Valid()
      ensures seats == value && startTime == old(startTime) && endTime == old(endTime)
    {
      seats := value;
    }

    method SetStartTime(value: string)
      modifies this
      requires Valid() && TimeField(value)
      ensures Valid()
      ensures startTime == value && seats == old(seats) && endTime == old(endTime)
    {
      startTime := value;
    }

    method SetEndTime(value: string)
      modifies this
      requires Valid() && TimeField(value)
      ensures Valid()
      ensures endTime == value && seats == old(seats) && startTime == old(startTime)
    {
      endTime := value;
    }

    /** `handleSubmit`. A blocked submit changes nothing and calls nothing.
     *  Otherwise the slot is built on the initial start's day when editing
     *  and on the selected date when adding; after an add the fields are
     *  emptied, after an edit they keep their values. */
    method Submit() returns (result: SubmitResult)
      modifies this
      requires Valid()
      ensures Valid()
      ensures old(Disabled()) ==> result == Ignored && unchanged(this)
      ensures !old(Disabled()) && isEditing && initialValues.None? ==> result == Crashed && unchanged(this)
      ensures !old(Disabled()) && !(isEditing && initialValues.None?) ==>
        var base := if isEditing then initialValues.value.startTime else selectedDate.value;
        result == Submitted(SlotOf(old(seats), old(startTime), old(endTime), base)) &&
        (if isEditing then unchanged(this) else seats == "" && startTime == "" && endTime == "")
    {
      if seats == "" || startTime == "" || endTime == "" || (!isEditing && selectedDate.None?) {
        return Ignored;
      }
      if isEditing && initialValues.None? {
        return Crashed;
      }
      var base := if isEditing then initialValues.value.startTime else selectedDate.value;
      result := Submitted(SlotOf(seats, startTime, endTime, base));
      if !isEditing {
        seats := "";
        startTime := "";
        endTime := "";
      }
    }
  }
}
