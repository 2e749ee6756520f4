/**
 * How `scheduleNotification(for:)` turns a reminder into notification requests:
 * the effective time, the calendar fields a trigger matches for each repeat
 * interval, the main and early requests and the "repeating or in the future"
 * guard. The notification centre's pending requests are a map from identifier
 * to request; `Reconcile` is what one call does to that map.
 */
module Notifications {
  import opened CivilTime
  import opened Models
  import Optional

  // ---------------------------------------------------------------------------
  // Requests
  // ---------------------------------------------------------------------------

  /** `DateComponents`: the calendar fields a trigger matches; absent fields match anything. */
  datatype DateComponents = DateComponents(
    year: Optional.Option<int>,
    month: Optional.Option<int>,
    day: Optional.Option<int>,
    hour: Optional.Option<int>,
    minute: Optional.Option<int>,
    weekday: Optional.Option<int>)

  /** `UNCalendarNotificationTrigger`. */
  datatype Trigger = CalendarTrigger(dateMatching: DateComponents, repeats: bool)

  /** `UNNotificationRequest`, with the content's title and body. */
  datatype Request = Request(identifier: string, title: string, body: string, trigger: Trigger)

  /** The identifier of a reminder's main notification: its UUID string. */
  function MainId(id: Uuid): string {
    id
  }

  /** The identifier of a reminder's early notification: its UUID string followed by "-early". */
  function EarlyId(id: Uuid): string {
    id + "-early"
  }

  /** The two identifiers a reminder may own in the notification centre. */
  predicate OwnedBy(k: string, id: Uuid) {
    k == MainId(id) || k == EarlyId(id)
  }

  /** The identifiers of distinct reminders never clash, and main and early identifiers never clash. */
  lemma {:induction false} IdentifiersDistinct(a: Uuid, b: Uuid)
    ensures MainId(a) != EarlyId(b)
    ensures MainId(a) == MainId(b) <==> a == b
    ensures EarlyId(a) == EarlyId(b) <==> a == b
    ensures a != b ==> forall k :: !(OwnedBy(k, a) && OwnedBy(k, b))
  {
    if EarlyId(a) == EarlyId(b) {
      assert a == EarlyId(a)[..36] && b == EarlyId(b)[..36];
    }
  }

  /** Both identifiers of a reminder start with its 36-character UUID string. */
  lemma OwnerPrefix(k: string, id: Uuid)
    requires OwnedBy(k, id)
    ensures |k| >= 36 && k[..36] == id
  {
  }

  // ---------------------------------------------------------------------------
  // Times and trigger fields
  // ---------------------------------------------------------------------------

  /**
   * The time the reminder is due: its date when it has a time, otherwise 09:00:00
   * on the same calendar day.
   */
  function EffectiveTime(r: Reminder): (t: int)
    ensures r.hasTime ==> t == r.date
    ensures !r.hasTime ==> DayNumber(t) == DayNumber(r.date) && Hour(t) == 9 && Minute(t) == 0 && Second(t) == 0
  {
    if r.hasTime then r.date else AtTimeOfDay(r.date, 9, 0, 0)
  }

  /** The base time of the early warning: the effective time minus the chosen offset. */
  function EarlyTime(r: Reminder): (t: int)
    ensures t <= EffectiveTime(r)
    ensures t == EffectiveTime(r) <==> r.earlyReminder == None
    ensures EffectiveTime(r) - t <= 3600
  {
    EffectiveTime(r) - r.earlyReminder.TimeInterval()
  }

  /**
   * `getComponents(from:interval:)`: a one-off trigger matches year, month, day,
   * hour and minute; a daily one hour and minute; a weekly one weekday, hour and
   * minute; a monthly one day, hour and minute.
   */
  function Components(t: int, interval: RepeatInterval): (c: DateComponents)
    ensures c.hour == Optional.Some(Hour(t)) && c.minute == Optional.Some(Minute(t))
    ensures c.year.Some? <==> interval == Never
    ensures c.month.Some? <==> interval == Never
    ensures c.day.Some? <==> interval == Never || interval == Monthly
    ensures c.weekday.Some? <==> interval == Weekly
    ensures c.year.Some? ==> c.year.value == Year(t) && c.month.value == Month(t)
    ensures c.day.Some? ==> c.day.value == Day(t)
    ensures c.weekday.Some? ==> c.weekday.value == Weekday(t)
  {
    var none := Optional.None;
    match interval
    case Never =>
      DateComponents(Optional.Some(Year(t)), Optional.Some(Month(t)), Optional.Some(Day(t)),
                     Optional.Some(Hour(t)), Optional.Some(Minute(t)), none)
    case Daily =>
      DateComponents(none, none, none, Optional.Some(Hour(t)), Optional.Some(Minute(t)), none)
    case Weekly =>
      DateComponents(none, none, none, Optional.Some(Hour(t)), Optional.Some(Minute(t)), Optional.Some(Weekday(t)))
    case Monthly =>
      DateComponents(none, none, Optional.Some(Day(t)), Optional.Some(Hour(t)), Optional.Some(Minute(t)), none)
  }

  /** A daily trigger is the same for every day at that time of day. */
  lemma {:induction false} DailyComponentsRecur(t: int, days: int)
    ensures Components(t + days * SecondsPerDay, Daily) == Components(t, Daily)
  {
    assert SecondOfDay(t + days * SecondsPerDay) == SecondOfDay(t) by {
      assert t + days * SecondsPerDay == (DayNumber(t) + days) * SecondsPerDay + SecondOfDay(t);
    }
  }

  /** A weekly trigger is the same for the same time of day in every other week. */
  lemma {:induction false} WeeklyComponentsRecur(t: int, weeks: int)
    ensures Components(t + weeks * 7 * SecondsPerDay, Weekly) == Components(t, Weekly)
  {
    var t' := t + weeks * 7 * SecondsPerDay;
    assert t' == (DayNumber(t) + 7 * weeks) * SecondsPerDay + SecondOfDay(t);
    assert DayNumber(t') == DayNumber(t) + 7 * weeks && SecondOfDay(t') == SecondOfDay(t);
    assert (DayNumber(t) + 7 * weeks + 4) % 7 == (DayNumber(t) + 4) % 7;
  }

  /** Whether the reminder's triggers repeat: exactly when its interval is not `.never`. */
  function Repeats(r: Reminder): bool {
    r.repeatInterval != Never
  }

  /** The main request: the brand title, the reminder's title as body, triggered at the effective time. */
  function MainRequest(r: Reminder): (q: Request)
    ensures q.identifier == MainId(r.id)
    ensures q.title == "Px Reminder" && q.body == r.title
    ensures q.trigger.dateMatching == Components(EffectiveTime(r), r.repeatInterval)
    ensures q.trigger.repeats <==> r.repeatInterval != Never
  {
    Request(MainId(r.id), "Px Reminder", r.title,
            CalendarTrigger(Components(EffectiveTime(r), r.repeatInterval), Repeats(r)))
  }

  /** The early request: "Upcoming: " and the title, "In " and the offset's label, triggered at the early time. */
  function EarlyRequest(r: Reminder): (q: Request)
    ensures q.identifier == EarlyId(r.id)
    ensures q.title == "Upcoming: " + r.title && q.body == "In " + r.earlyReminder.RawValue()
    ensures q.trigger.dateMatching == Components(EarlyTime(r), r.repeatInterval)
    ensures q.trigger.repeats == MainRequest(r).trigger.repeats
  {
    Request(EarlyId(r.id), "Upcoming: " + r.title, "In " + r.earlyReminder.RawValue(),
            CalendarTrigger(Components(EarlyTime(r), r.repeatInterval), Repeats(r)))
  }

  // ---------------------------------------------------------------------------
  // Scheduling
  // ---------------------------------------------------------------------------

  /** The eligibility check: only an incomplete reminder with a date is ever scheduled. */
  predicate Schedulable(r: Reminder) {
    !r.isComplete && r.hasDate
  }

  /**
   * Every request scheduling may leave pending for `r`, whatever the clock says:
   * the main one when `r` is eligible, and the early one too when it has an offset.
   */
  function Candidates(r: Reminder): (m: map<string, Request>)
    ensures forall k :: k in m ==> OwnedBy(k, r.id)
    ensures MainId(r.id) in m <==> Schedulable(r)
    ensures EarlyId(r.id) in m <==> Schedulable(r) && r.earlyReminder != None
    ensures MainId(r.id) in m ==> m[MainId(r.id)] == MainRequest(r)
    ensures EarlyId(r.id) in m ==> m[EarlyId(r.id)] == EarlyRequest(r)
  {
    IdentifiersDistinct(r.id, r.id);
    if !Schedulable(r) then map[]
    else if r.earlyReminder == None then map[MainId(r.id) := MainRequest(r)]
    else map[MainId(r.id) := MainRequest(r), EarlyId(r.id) := EarlyRequest(r)]
  }

  /**
   * The requests one call submits at time `now`: a candidate is added only if its
   * trigger repeats or its base time is strictly after `now`.
   */
  function Submitted(r: Reminder, now: int): (m: map<string, Request>)
    ensures forall k :: k in m ==> k in Candidates(r) && m[k] == Candidates(r)[k]
    ensures MainId(r.id) in m <==> Schedulable(r) && (Repeats(r) || EffectiveTime(r) > now)
    ensures EarlyId(r.id) in m <==> Schedulable(r) && r.earlyReminder != None && (Repeats(r) || EarlyTime(r) > now)
  {
    var c := Candidates(r);
    map k | k in c && (Repeats(r) || (if k == MainId(r.id) then EffectiveTime(r) else EarlyTime(r)) > now) :: c[k]
  }

  /**
   * `scheduleNotification(for: r)` on the pending requests: both of `r`'s
   * identifiers are cancelled first, then what `Submitted` allows is added.
   * Requests of every other reminder are left as they were.
   */
  function Reconcile(pending: map<string, Request>, r: Reminder, now: int): (p: map<string, Request>)
    ensures forall k :: !OwnedBy(k, r.id) ==> (k in p <==> k in pending) && (k in p ==> p[k] == pending[k])
    ensures forall k :: OwnedBy(k, r.id) ==> (k in p <==> k in Submitted(r, now)) && (k in p ==> p[k] == Submitted(r, now)[k])
  {
    (pending - {MainId(r.id), EarlyId(r.id)}) + Submitted(r, now)
  }

  /**
   * `Reconcile` as the app performs it, one step at a time: remove both
   * identifiers; stop for an ineligible reminder; insert the main request if the
   * guard allows; then insert the early request if there is an offset and the
   * guard allows.
   */
  function Stepwise(pending: map<string, Request>, r: Reminder, now: int): map<string, Request> {
    var base := pending - {MainId(r.id), EarlyId(r.id)};
    var withMain := if Repeats(r) || EffectiveTime(r) > now then base[MainId(r.id) := MainRequest(r)] else base;
    var withEarly := if r.earlyReminder != None && (Repeats(r) || EarlyTime(r) > now)
                     then withMain[EarlyId(r.id) := EarlyRequest(r)] else withMain;
    if Schedulable(r) then withEarly else base
  }

  /** The two descriptions of one scheduling call agree. */
  lemma {:induction false} ReconcileStepwise(pending: map<string, Request>, r: Reminder, now: int)
    ensures Reconcile(pending, r, now) == Stepwise(pending, r, now)
  {
    var p, q := Reconcile(pending, r, now), Stepwise(pending, r, now);
    forall k ensures (k in p <==> k in q) && (k in p ==> p[k] == q[k]) {
      StepwiseAt(pending, r, now, k);
    }
    SameEntries(p, q);
  }

  /** The step-by-step form at a single identifier. */
  lemma {:induction false} StepwiseAt(pending: map<string, Request>, r: Reminder, now: int, k: string)
    ensures var p, q := Reconcile(pending, r, now), Stepwise(pending, r, now);
      (k in p <==> k in q) && (k in p ==> p[k] == q[k])
  {
    IdentifiersDistinct(r.id, r.id);
    var base := pending - {MainId(r.id), EarlyId(r.id)};
    if k == MainId(r.id) {
      assert k !in base;
      assert k in Submitted(r, now) ==> Submitted(r, now)[k] == MainRequest(r);
    } else if k == EarlyId(r.id) {
      assert k !in base;
      assert k in Submitted(r, now) ==> Submitted(r, now)[k] == EarlyRequest(r);
    } else {
      assert (k in base <==> k in pending) && (k in base ==> base[k] == pending[k]);
    }
  }

  /** A complete or undated reminder has no pending request after scheduling. */
  lemma ReconcileIneligible(pending: map<string, Request>, r: Reminder, now: int)
    requires !Schedulable(r)
    ensures MainId(r.id) !in Reconcile(pending, r, now) && EarlyId(r.id) !in Reconcile(pending, r, now)
  {
  }

  /** Without an early offset, no early request is pending for the reminder after scheduling. */
  lemma ReconcileNoEarly(pending: map<string, Request>, r: Reminder, now: int)
    requires r.earlyReminder == None
    ensures EarlyId(r.id) !in Reconcile(pending, r, now)
  {
  }

  /** Scheduling the same reminder twice at the same time gives the same pending requests as once. */
  lemma ReconcileIdempotent(pending: map<string, Request>, r: Reminder, now: int)
    ensures Reconcile(Reconcile(pending, r, now), r, now) == Reconcile(pending, r, now)
  {
  }

  /**
   * Cancel-then-recompute: what the reminder owns after scheduling does not depend
   * on what was pending before.
   */
  lemma ReconcileForgetsPrevious(p1: map<string, Request>, p2: map<string, Request>, r: Reminder, now: int)
    ensures forall k :: OwnedBy(k, r.id) ==>
      (k in Reconcile(p1, r, now) <==> k in Reconcile(p2, r, now)) &&
      (k in Reconcile(p1, r, now) ==> Reconcile(p1, r, now)[k] == Reconcile(p2, r, now)[k])
  {
  }

  /** Scheduling two different reminders gives the same result in either order. */
  lemma {:induction false} ReconcileCommutes(pending: map<string, Request>, a: Reminder, b: Reminder, now: int)
    requires a.id != b.id
    ensures Reconcile(Reconcile(pending, a, now), b, now) == Reconcile(Reconcile(pending, b, now), a, now)
  {
    var x, y := Reconcile(Reconcile(pending, a, now), b, now), Reconcile(Reconcile(pending, b, now), a, now);
    forall k ensures (k in x <==> k in y) && (k in x ==> x[k] == y[k]) {
      ReconcileCommutesAt(pending, a, b, now, k);
    }
    SameEntries(x, y);
  }

  /** Two maps with the same entries at every key are equal. */
  lemma {:induction false} SameEntries(x: map<string, Request>, y: map<string, Request>)
    requires forall k :: (k in x <==> k in y) && (k in x ==> x[k] == y[k])
    ensures x == y
  {
    assert x.Keys == y.Keys;
  }

  lemma {:induction false} ReconcileCommutesAt(pending: map<string, Request>, a: Reminder, b: Reminder, now: int, k: string)
    requires a.id != b.id
    ensures var x, y := Reconcile(Reconcile(pending, a, now), b, now), Reconcile(Reconcile(pending, b, now), a, now);
      (k in x <==> k in y) && (k in x ==> x[k] == y[k])
  {
    IdentifiersDistinct(a.id, b.id);
    var pa, pb := Reconcile(pending, a, now), Reconcile(pending, b, now);
    var x, y := Reconcile(pa, b, now), Reconcile(pb, a, now);
    if OwnedBy(k, a.id) {
      assert !OwnedBy(k, b.id);
      assert (k in x <==> k in pa) && (k in x ==> x[k] == pa[k]);
      assert (k in y <==> k in Submitted(a, now)) && (k in y ==> y[k] == Submitted(a, now)[k]);
    } else if OwnedBy(k, b.id) {
      assert (k in y <==> k in pb) && (k in y ==> y[k] == pb[k]);
      assert (k in x <==> k in Submitted(b, now)) && (k in x ==> x[k] == Submitted(b, now)[k]);
    } else {
      assert (k in x <==> k in pending) && (k in x ==> x[k] == pending[k]);
      assert (k in y <==> k in pending) && (k in y ==> y[k] == pending[k]);
    }
  }

  /** For a one-off reminder, an early request is only ever submitted alongside the main one. */
  lemma EarlyImpliesMain(r: Reminder, now: int)
    requires !Repeats(r)
    requires EarlyId(r.id) in Submitted(r, now)
    ensures MainId(r.id) in Submitted(r, now)
  {
  }

  /**
   * The converse fails: a one-off reminder due within its early offset gets its main
   * request while the early one is silently dropped.
   */
  lemma EarlyDroppedNearDue(r: Reminder, now: int)
    requires Schedulable(r) && !Repeats(r) && r.earlyReminder != None
    requires now < EffectiveTime(r) <= now + r.earlyReminder.TimeInterval()
    ensures MainId(r.id) in Submitted(r, now) && EarlyId(r.id) !in Submitted(r, now)
  {
  }
}
