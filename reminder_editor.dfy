/**
 * The arithmetic of the reminder screens: the pending/completed lists, a card's
 * status colour, the editor's 12-hour clock and its conversion to and from the
 * 24-hour clock, the month grid of the date picker, and the time picker wheel.
 */
module ReminderEditor {
  import opened CivilTime
  import opened Text
  import opened Models
  import Optional
  import Notifications
  import Store

  // ---------------------------------------------------------------------------
  // Pending and completed lists
  // ---------------------------------------------------------------------------

  /** `pendingReminders`: the incomplete reminders, in store order. */
  function Pending(rs: seq<Reminder>): (r: seq<Reminder>)
    ensures forall x :: x in r ==> x in rs && !x.isComplete
    ensures forall x :: x in rs && !x.isComplete ==> x in r
  {
    if rs == [] then []
    else if !rs[0].isComplete then [rs[0]] + Pending(rs[1..])
    else Pending(rs[1..])
  }

  /** `completedReminders`: the complete reminders, in store order. */
  function Completed(rs: seq<Reminder>): (r: seq<Reminder>)
    ensures forall x :: x in r ==> x in rs && x.isComplete
    ensures forall x :: x in rs && x.isComplete ==> x in r
  {
    if rs == [] then []
    else if rs[0].isComplete then [rs[0]] + Completed(rs[1..])
    else Completed(rs[1..])
  }

  /**
   * The two lists partition the store: together they hold every reminder exactly
   * as often as the store does.
   */
  lemma {:induction false} PendingCompletedPartition(rs: seq<Reminder>)
    ensures multiset(Pending(rs)) + multiset(Completed(rs)) == multiset(rs)
    ensures |Pending(rs)| + |Completed(rs)| == |rs|
  {
    if rs != [] {
      PendingCompletedPartition(rs[1..]);
      assert rs == [rs[0]] + rs[1..];
    }
  }

  /** Each list keeps the store's order. */
  lemma {:induction false} PendingCompletedOrder(rs: seq<Reminder>)
    ensures IsSubsequence(Pending(rs), rs) && IsSubsequence(Completed(rs), rs)
  {
    if rs != [] {
      PendingCompletedOrder(rs[1..]);
      var p, c := Pending(rs[1..]), Completed(rs[1..]);
      if rs[0].isComplete {
        assert p != [] ==> p[0] in p && p[0] != rs[0];
      } else {
        assert c != [] ==> c[0] in c && c[0] != rs[0];
      }
    }
  }

  // ---------------------------------------------------------------------------
  // Card status
  // ---------------------------------------------------------------------------

  datatype StatusColor = Green | Red | Accent

  /** `isPastDue`: not complete and due strictly before `now`. */
  predicate IsPastDue(r: Reminder, now: int) {
    !r.isComplete && r.date < now
  }

  /** `statusColor`: completion wins over lateness, lateness over the default accent. */
  function Status(r: Reminder, now: int): (c: StatusColor)
    ensures c == Green <==> r.isComplete
    ensures c == Red <==> IsPastDue(r, now)
    ensures c == Accent <==> !r.isComplete && now <= r.date
  {
    if r.isComplete then Green
    else if IsPastDue(r, now) then Red
    else Accent
  }

  /** A card only turns red with time: once red, it stays red at every later moment. */
  lemma StatusRedStays(r: Reminder, now: int, later: int)
    requires Status(r, now) == Red && now <= later
    ensures Status(r, later) == Red
  {
  }

  // ---------------------------------------------------------------------------
  // 12-hour and 24-hour clocks
  // ---------------------------------------------------------------------------

  /** The wheel's hour for a 24-hour clock hour, as the editor computes it on appearing. */
  function DisplayHour(hour: int): (h: int)
    ensures 0 <= hour <= 23 ==> 1 <= h <= 12
    ensures 0 <= hour <= 23 ==> h % 12 == hour % 12
  {
    if hour > 12 then hour - 12 else if hour == 0 then 12 else hour
  }

  /** The 24-hour clock hour a 12-hour clock reading denotes: 12 AM is midnight, 12 PM is noon. */
  function Hour24(selectedHour: int, isAM: bool): int {
    selectedHour % 12 + (if isAM then 0 else 12)
  }

  /** `saveReminder`'s hour conversion on its local variable. */
  method SaveHour(selectedHour: int, isAM: bool) returns (hour: int)
    ensures 1 <= selectedHour <= 12 ==> hour == Hour24(selectedHour, isAM) && 0 <= hour <= 23
  {
    hour := selectedHour;
    if !isAM && hour != 12 {
      hour := hour + 12;
    } else if isAM && hour == 12 {
      hour := 0;
    }
  }

  /** Loading an hour into the editor and saving it again gives back the same hour. */
  lemma HourRoundTrip(hour: int)
    requires 0 <= hour <= 23
    ensures Hour24(DisplayHour(hour), hour < 12) == hour
  {
  }

  /** Every wheel reading is the display of exactly one 24-hour clock hour. */
  lemma WheelRoundTrip(selectedHour: int, isAM: bool)
    requires 1 <= selectedHour <= 12
    ensures var hour := Hour24(selectedHour, isAM);
      0 <= hour <= 23 && DisplayHour(hour) == selectedHour && (hour < 12 <==> isAM)
  {
  }

  /** `formatTime()`: the hour, a colon, the minute padded to two digits, a space and AM or PM. */
  function FormatTime(selectedHour: int, selectedMinute: int, isAM: bool): (s: string)
    ensures EndsWith(s, if isAM then " AM" else " PM")
  {
    var s := IntToString(selectedHour) + ":" + ZeroPad2(selectedMinute) + " " + (if isAM then "AM" else "PM");
    assert s[|s| - 3..] == " " + (if isAM then "AM" else "PM");
    s
  }

  /**
   * For wheel values, the label is one or two hour digits, a colon, exactly two
   * minute digits that read back as the minute, and the AM/PM marker.
   */
  lemma {:induction false} FormatTimeLayout(selectedHour: int, selectedMinute: int, isAM: bool)
    requires 1 <= selectedHour <= 12 && 0 <= selectedMinute <= 59
    ensures var s := FormatTime(selectedHour, selectedMinute, isAM);
      7 <= |s| <= 8 && s[|s| - 6] == ':' && s[..|s| - 6] == IntToString(selectedHour) &&
      AllDigits(s[|s| - 5..|s| - 3]) && DigitsValue(s[|s| - 5..|s| - 3]) == selectedMinute
  {
    var s := FormatTime(selectedHour, selectedMinute, isAM);
    var h := IntToString(selectedHour);
    assert s == h + ":" + ZeroPad2(selectedMinute) + " " + (if isAM then "AM" else "PM");
    assert |h| <= 2 by {
      if selectedHour >= 10 {
        assert NatToString(selectedHour) == NatToString(selectedHour / 10) + [DigitChar(selectedHour % 10)];
      }
    }
    assert s[|s| - 5..|s| - 3] == ZeroPad2(selectedMinute);
    assert s[..|s| - 6] == h;
  }

  /** Different wheel settings render differently: `FormatTime` loses nothing. */
  lemma {:induction false} FormatTimeInjective(h1: int, m1: int, a1: bool, h2: int, m2: int, a2: bool)
    requires 1 <= h1 <= 12 && 0 <= m1 <= 59 && 1 <= h2 <= 12 && 0 <= m2 <= 59
    requires FormatTime(h1, m1, a1) == FormatTime(h2, m2, a2)
    ensures h1 == h2 && m1 == m2 && a1 == a2
  {
    var s := FormatTime(h1, m1, a1);
    FormatTimeLayout(h1, m1, a1);
    FormatTimeLayout(h2, m2, a2);
    assert s[|s| - 2] == (if a1 then 'A' else 'P');
    assert s[|s| - 2] == (if a2 then 'A' else 'P');
    NatToStringRoundTrip(h1);
    NatToStringRoundTrip(h2);
  }

  // ---------------------------------------------------------------------------
  // The month grid
  // ---------------------------------------------------------------------------

  /** The first moment of the month that contains `t`. */
  function MonthStart(t: int): int {
    DaysFromCivil(Year(t), Month(t), 1) * SecondsPerDay
  }

  /**
   * The shape of `daysInMonth` for the month of `t`: one blank per weekday before
   * the first of the month (Sunday first), then the start of each day of the month.
   */
  ghost predicate IsMonthGrid(t: int, days: seq<Optional.Option<int>>) {
    var lead := Weekday(MonthStart(t)) - 1;
    var length := MonthLength(Year(t), Month(t));
    |days| == lead + length &&
    (forall i :: 0 <= i < lead ==> days[i] == Optional.None) &&
    (forall d :: 0 <= d < length ==> days[lead + d] == Optional.Some(MonthStart(t) + d * SecondsPerDay))
  }

  /** `daysInMonth` for `currentMonth`, built by appending as the view does. */
  method DaysInMonth(currentMonth: int) returns (days: seq<Optional.Option<int>>)
    ensures IsMonthGrid(currentMonth, days)
  {
    days := [];
    var length := MonthLength(Year(currentMonth), Month(currentMonth));
    var firstDay := DaysFromCivil(Year(currentMonth), Month(currentMonth), 1) * SecondsPerDay;
    var firstWeekday := Weekday(firstDay);
    for i := 1 to firstWeekday
      invariant |days| == i - 1
      invariant forall j :: 0 <= j < |days| ==> days[j] == Optional.None
    {
      days := days + [Optional.None];
    }
    for day := 1 to length + 1
      invariant |days| == firstWeekday - 1 + day - 1
      invariant forall j :: 0 <= j < firstWeekday - 1 ==> days[j] == Optional.None
      invariant forall d :: 0 <= d < day - 1 ==>
        days[firstWeekday - 1 + d] == Optional.Some(firstDay + d * SecondsPerDay)
    {
      days := days + [Optional.Some(firstDay + (day - 1) * SecondsPerDay)];
    }
  }

  /** The start of day `k` falls on day `k`, on the weekday Foundation numbers `(k + 4) % 7 + 1`. */
  lemma DayStart(k: int)
    ensures DayNumber(k * SecondsPerDay) == k
    ensures Weekday(k * SecondsPerDay) == (k + 4) % 7 + 1
  {
  }

  lemma {:induction false} ModAddRight(a: int, d: int)
    ensures (a % 7 + d) % 7 == (a + d) % 7
  {
    assert a + d == (a % 7 + d) + 7 * (a / 7);
  }

  /** The grid position of the start of the `d`-th day after the first of the month. */
  lemma {:induction false} GridCell(t: int, d: int)
    ensures var first := DaysFromCivil(Year(t), Month(t), 1);
      MonthStart(t) + d * SecondsPerDay == (first + d) * SecondsPerDay &&
      DayNumber(MonthStart(t) + d * SecondsPerDay) == first + d &&
      (Weekday(MonthStart(t)) - 1 + d) % 7 == Weekday(MonthStart(t) + d * SecondsPerDay) - 1
  {
    var first := DaysFromCivil(Year(t), Month(t), 1);
    assert MonthStart(t) + d * SecondsPerDay == (first + d) * SecondsPerDay;
    DayStart(first);
    DayStart(first + d);
    ModAddRight(first + 4, d);
  }

  /**
   * In a month grid laid out in rows of seven, every date stands in the column of
   * its weekday, and consecutive dates fall on consecutive days.
   */
  lemma {:induction false} MonthGridColumns(t: int, days: seq<Optional.Option<int>>)
    requires IsMonthGrid(t, days)
    ensures forall i :: 0 <= i < |days| && days[i].Some? ==> i % 7 == Weekday(days[i].value) - 1
    ensures forall i :: 0 <= i < |days| - 1 && days[i].Some? ==>
      days[i + 1].Some? && DayNumber(days[i + 1].value) == DayNumber(days[i].value) + 1
  {
    var lead := Weekday(MonthStart(t)) - 1;
    forall i | 0 <= i < |days| && days[i].Some?
      ensures i % 7 == Weekday(days[i].value) - 1
      ensures i < |days| - 1 ==> days[i + 1].Some? && DayNumber(days[i + 1].value) == DayNumber(days[i].value) + 1
    {
      var d := i - lead;
      assert days[lead + d] == days[i];
      GridCell(t, d);
      if i < |days| - 1 {
        assert days[lead + (d + 1)] == days[i + 1];
        GridCell(t, d + 1);
      }
    }
  }

  // ---------------------------------------------------------------------------
  // The time picker wheel
  // ---------------------------------------------------------------------------

  /** The step after `v` on a dial that runs from `lo` to `hi` and wraps around. */
  function CycleNext(v: int, lo: int, hi: int): int
    requires lo <= v <= hi
  {
    lo + (v - lo + 1) % (hi - lo + 1)
  }

  /** The step before `v` on the same dial. */
  function CyclePrev(v: int, lo: int, hi: int): int
    requires lo <= v <= hi
  {
    lo + (v - lo + hi - lo) % (hi - lo + 1)
  }

  lemma {:induction false} ModOfSmall(x: int, n: int)
    requires 0 <= x < n
    ensures x % n == x && (x + n) % n == x
  {
    assert x + n == 1 * n + x;
  }

  /** One step forward is the next number, except that the upper bound wraps to the lower. */
  lemma {:induction false} CycleNextValue(v: int, lo: int, hi: int)
    requires lo <= v <= hi
    ensures CycleNext(v, lo, hi) == if v == hi then lo else v + 1
  {
    if v == hi {
      ModOfSmall(0, hi - lo + 1);
    } else {
      ModOfSmall(v - lo + 1, hi - lo + 1);
    }
  }

  /** One step back is the previous number, except that the lower bound wraps to the upper. */
  lemma {:induction false} CyclePrevValue(v: int, lo: int, hi: int)
    requires lo <= v <= hi
    ensures CyclePrev(v, lo, hi) == if v == lo then hi else v - 1
  {
    if v == lo {
      ModOfSmall(hi - lo, hi - lo + 1);
    } else {
      ModOfSmall(v - lo - 1, hi - lo + 1);
    }
  }

  /** Stepping forward and then back, or back and then forward, returns to the start. */
  lemma {:induction false} CycleUndo(v: int, lo: int, hi: int)
    requires lo <= v <= hi
    ensures lo <= CycleNext(v, lo, hi) <= hi && CyclePrev(CycleNext(v, lo, hi), lo, hi) == v
    ensures lo <= CyclePrev(v, lo, hi) <= hi && CycleNext(CyclePrev(v, lo, hi), lo, hi) == v
  {
    CycleNextValue(v, lo, hi);
    CyclePrevValue(v, lo, hi);
    CyclePrevValue(CycleNext(v, lo, hi), lo, hi);
    CycleNextValue(CyclePrev(v, lo, hi), lo, hi);
  }

  /** Swift's `Int.max`. */
  const IntMax: int := 0x7FFF_FFFF_FFFF_FFFF

  /** `filter { "0123456789".contains($0) }`: the decimal digits of `s`, in order. */
  function DigitsOnly(s: string): (r: string)
    ensures AllDigits(r) && |r| <= |s|
  {
    if s == [] then [] else (if IsDigit(s[0]) then [s[0]] else []) + DigitsOnly(s[1..])
  }

  /** Non-digit characters do not change what the filter keeps. */
  lemma {:induction false} DigitsOnlySkips(a: string, c: char, b: string)
    requires !IsDigit(c)
    ensures DigitsOnly(a + [c] + b) == DigitsOnly(a + b)
  {
    if a == [] {
      assert ([c] + b)[1..] == b;
      assert a + [c] + b == [c] + b && a + b == b;
    } else {
      assert (a + [c] + b)[1..] == a[1..] + [c] + b;
      assert (a + b)[1..] == a[1..] + b;
      DigitsOnlySkips(a[1..], c, b);
    }
  }

  lemma {:induction false} DigitsOnlyOfDigits(s: string)
    requires AllDigits(s)
    ensures DigitsOnly(s) == s
  {
    if s != [] {
      DigitsOnlyOfDigits(s[1..]);
    }
  }

  /** `Int(s)` on a string of digits: nothing for the empty string or a value beyond `Int.max`. */
  function ParseInt(s: string): (r: Optional.Option<int>)
    requires AllDigits(s)
    ensures r.Some? <==> s != [] && DigitsValue(s) <= IntMax
    ensures r.Some? ==> 0 <= r.value == DigitsValue(s)
  {
    if s == [] || DigitsValue(s) > IntMax then Optional.None else Optional.Some(DigitsValue(s))
  }

  /** The text field's contents for `value`, zero-padded to two digits when `padZero` is set. */
  function Rendered(value: int, padZero: bool): (s: string)
    ensures s != []
  {
    if padZero then ZeroPad2(value) else IntToString(value)
  }

  /** The field's text reads back as the value it shows. */
  lemma {:induction false} RenderedRoundTrip(value: int, padZero: bool)
    requires 0 <= value <= IntMax && (padZero ==> value < 100)
    ensures AllDigits(Rendered(value, padZero))
    ensures ParseInt(DigitsOnly(Rendered(value, padZero))) == Optional.Some(value)
  {
    NatToStringRoundTrip(value);
    DigitsOnlyOfDigits(Rendered(value, padZero));
  }

  /**
   * `TimePickerWheel`: a value bound to the editor, a closed range and the
   * zero-padding flag. The bound value is the wheel's own field here.
   */
  class TimePicker {
    var value: int
    const lower: int
    const upper: int
    const padZero: bool

    predicate InRange()
      reads this
    {
      lower <= value <= upper
    }

    constructor (value: int, lower: int, upper: int, padZero: bool)
      requires lower <= upper
      ensures this.value == value && this.lower == lower && this.upper == upper && this.padZero == padZero
    {
      this.value, this.lower, this.upper, this.padZero := value, lower, upper, padZero;
    }

    /** `increment()`: one step up, from the upper bound (or beyond) back to the lower. */
    method Increment()
      requires lower <= upper
      modifies this`value
      ensures old(value) >= upper ==> value == lower
      ensures old(value) < upper ==> value == old(value) + 1
      ensures old(InRange()) ==> InRange() && value == CycleNext(old(value), lower, upper)
    {
      value := if value >= upper then lower else value + 1;
      if old(InRange()) {
        CycleNextValue(old(value), lower, upper);
      }
    }

    /** `decrement()`: one step down, from the lower bound (or below) round to the upper. */
    method Decrement()
      requires lower <= upper
      modifies this`value
      ensures old(value) <= lower ==> value == upper
      ensures old(value) > lower ==> value == old(value) - 1
      ensures old(InRange()) ==> InRange() && value == CyclePrev(old(value), lower, upper)
    {
      value := if value <= lower then upper else value - 1;
      if old(InRange()) {
        CyclePrevValue(old(value), lower, upper);
      }
    }

    /**
     * The text field's getter: for a value inside a non-negative range that
     * fits the field, the digits of the text parse back to the value.
     */
    function Text(): (s: string)
      reads this
      ensures s != []
      ensures InRange() && 0 <= lower && upper <= IntMax && (padZero ==> upper < 100) ==>
        AllDigits(s) && ParseInt(DigitsOnly(s)) == Optional.Some(value)
    {
      if InRange() && 0 <= lower && upper <= IntMax && (padZero ==> upper < 100) then
        RenderedRoundTrip(value, padZero);
        Rendered(value, padZero)
      else
        Rendered(value, padZero)
    }

    /**
     * The text field's setter: the digits of the typed text are parsed, and the
     * value changes only if that gives a number inside the range.
     */
    method SetText(newValue: string)
      modifies this`value
      ensures var p := ParseInt(DigitsOnly(newValue));
        value == if p.Some? && lower <= p.value <= upper then p.value else old(value)
      ensures old(InRange()) ==> InRange()
    {
      var filtered := DigitsOnly(newValue);
      var parsed := ParseInt(filtered);
      if parsed.Some? {
        if lower <= parsed.value && parsed.value <= upper {
          value := parsed.value;
        }
      }
    }
  }

  // ---------------------------------------------------------------------------
  // The editor
  // ---------------------------------------------------------------------------

  /**
   * `ReminderEditorView`'s state: the reminder being edited (if any) and the
   * fields the form binds to.
   */
  class Editor {
    const reminder: Optional.Option<Reminder>
    var title: string
    var selectedDate: int
    var selectedHour: int
    var selectedMinute: int
    var isAM: bool
    var hasDate: bool
    var hasTime: bool
    var repeatInterval: RepeatInterval
    var earlyReminder: EarlyReminderChoice
    var currentMonth: int

    /** The wheels' ranges: 1 to 12 for the hour, 0 to 59 for the minute. */
    predicate WheelsInRange()
      reads this
    {
      1 <= selectedHour <= 12 && 0 <= selectedMinute <= 59
    }

    /** The editor's initial state, before it appears: the declared defaults. */
    constructor (reminder: Optional.Option<Reminder>, now: int)
      ensures this.reminder == reminder && WheelsInRange()
      ensures title == "" && selectedDate == now && selectedHour == 12 && selectedMinute == 0 && isAM
      ensures hasDate && hasTime && repeatInterval == Never && earlyReminder == None && currentMonth == now
    {
      this.reminder := reminder;
      title, selectedDate, selectedHour, selectedMinute, isAM := "", now, 12, 0, true;
      hasDate, hasTime, repeatInterval, earlyReminder, currentMonth := true, true, Never, None, now;
    }

    /**
     * `onAppear`: an existing reminder's fields are copied into the form and its time
     * is shown on the 12-hour wheels; a new reminder starts one hour from `now`.
     */
    method OnAppear(now: int)
      modifies this
      ensures WheelsInRange()
      ensures reminder.Some? ==>
        var r := reminder.value;
        title == r.title && selectedDate == r.date && hasDate == r.hasDate && hasTime == r.hasTime &&
        repeatInterval == r.repeatInterval && earlyReminder == r.earlyReminder &&
        selectedHour == DisplayHour(Hour(r.date)) && selectedMinute == Minute(r.date) && isAM == (Hour(r.date) < 12)
      ensures reminder.None? ==>
        title == old(title) && selectedDate == old(selectedDate) && hasDate == old(hasDate) &&
        hasTime == old(hasTime) && repeatInterval == old(repeatInterval) && earlyReminder == old(earlyReminder) &&
        selectedHour == DisplayHour(Hour(now + 3600)) && selectedMinute == Minute(now + 3600) &&
        isAM == (Hour(now + 3600) < 12)
      ensures currentMonth == old(currentMonth)
    {
      var hour: int;
      if reminder.Some? {
        var r := reminder.value;
        title := r.title;
        selectedDate := r.date;
        hasDate := r.hasDate;
        hasTime := r.hasTime;
        repeatInterval := r.repeatInterval;
        earlyReminder := r.earlyReminder;
        hour := Hour(r.date);
        selectedMinute := Minute(r.date);
      } else {
        hour := Hour(now + 3600);
        selectedMinute := Minute(now + 3600);
      }
      selectedHour := if hour > 12 then hour - 12 else (if hour == 0 then 12 else hour);
      isAM := hour < 12;
    }

    /**
     * `formatTime()` of the editor's wheels: the label ends in the AM/PM marker
     * and, with the wheels in range, shows the hour, a colon and the minute as
     * exactly two digits.
     */
    function TimeLabel(): (s: string)
      reads this
      ensures EndsWith(s, if isAM then " AM" else " PM")
      ensures WheelsInRange() ==>
        7 <= |s| <= 8 && s[|s| - 6] == ':' && s[..|s| - 6] == IntToString(selectedHour) &&
        AllDigits(s[|s| - 5..|s| - 3]) && DigitsValue(s[|s| - 5..|s| - 3]) == selectedMinute
    {
      if WheelsInRange() then
        FormatTimeLayout(selectedHour, selectedMinute, isAM);
        FormatTime(selectedHour, selectedMinute, isAM)
      else
        FormatTime(selectedHour, selectedMinute, isAM)
    }

    /**
     * `saveReminder()`: the selected day at the wheels' time becomes the date; an
     * existing reminder is updated, otherwise a new one is added under `newId`.
     */
    method SaveReminder(store: Store.DataManager, newId: Uuid, now: int) returns (finalDate: int)
      requires store.Valid() && WheelsInRange()
      requires reminder.None? ==> newId !in Store.IdSet(store.reminders)
      modifies store`reminders, store`pending
      ensures store.Valid()
      ensures DayNumber(finalDate) == DayNumber(selectedDate)
      ensures Hour(finalDate) == Hour24(selectedHour, isAM) && Minute(finalDate) == selectedMinute && Second(finalDate) == 0
      ensures reminder.None? ==>
        store.reminders == [NewReminder(newId, title, finalDate, Optional.None, hasDate, hasTime, repeatInterval, earlyReminder)] + old(store.reminders) &&
        store.pending == Notifications.Reconcile(old(store.pending), store.reminders[0], now)
      ensures reminder.Some? && Store.ReminderIndex(old(store.reminders), reminder.value.id).Some? ==>
        var i := Store.ReminderIndex(old(store.reminders), reminder.value.id).value;
        var r := old(store.reminders)[i];
        store.reminders == old(store.reminders)[i := Reminder(r.id, title, finalDate, r.isComplete, r.noteId,
                                                               hasDate, hasTime, repeatInterval, earlyReminder)] &&
        store.pending == Notifications.Reconcile(old(store.pending), store.reminders[i], now)
      ensures reminder.Some? && Store.ReminderIndex(old(store.reminders), reminder.value.id).None? ==>
        store.reminders == old(store.reminders) && store.pending == old(store.pending)
    {
      var hour := SaveHour(selectedHour, isAM);
      finalDate := AtTimeOfDay(selectedDate, hour, selectedMinute, 0);
      if reminder.Some? {
        store.UpdateReminder(reminder.value.id, title, finalDate, hasDate, hasTime, repeatInterval, earlyReminder, now);
      } else {
        store.AddReminder(newId, title, finalDate, hasDate, hasTime, repeatInterval, earlyReminder, Optional.None, now);
      }
    }
  }

  /**
   * Opening a reminder in the editor and saving it unchanged keeps its day, hour
   * and minute, dropping only the seconds.
   */
  lemma {:induction false} EditKeepsTime(date: int)
    ensures var hour := Hour(date);
      AtTimeOfDay(date, Hour24(DisplayHour(hour), hour < 12), Minute(date), 0) == date - Second(date)
  {
    HourRoundTrip(Hour(date));
    var s := SecondOfDay(date);
    assert s == Hour(date) * SecondsPerHour + Minute(date) * SecondsPerMinute + Second(date);
  }
}
