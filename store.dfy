/**
 * `DataManager`: the in-memory notes, reminders and chat history, updated in
 * place by the CRUD methods, together with the notification centre's pending
 * requests, which the reminder methods keep in step through
 * `scheduleNotification(for:)`. Persistence to user defaults is not modelled:
 * every `save*` call is a no-op here.
 *
 * The invariant `Valid` says that reminder ids are unique and that every pending
 * request is one that a stored, eligible reminder would schedule, with exactly
 * that content: no request is orphaned, and a complete or undated reminder has
 * none.
 */
module Store {
  import opened Models
  import opened Notifications
  import Optional

  // ---------------------------------------------------------------------------
  // Reminder collections
  // ---------------------------------------------------------------------------

  /** The ids of the reminders in `rs`. */
  function IdSet(rs: seq<Reminder>): set<string> {
    if rs == [] then {} else {rs[0].id} + IdSet(rs[1..])
  }

  lemma {:induction false} IdSetMember(rs: seq<Reminder>, i: nat)
    requires i < |rs|
    ensures rs[i].id in IdSet(rs)
  {
    if i > 0 {
      IdSetMember(rs[1..], i - 1);
    }
  }

  /** No two reminders of `rs` share an id. */
  predicate UniqueIds(rs: seq<Reminder>) {
    rs == [] || (rs[0].id !in IdSet(rs[1..]) && UniqueIds(rs[1..]))
  }

  /** `firstIndex(where: { $0.id == id })`. */
  function ReminderIndex(rs: seq<Reminder>, id: Uuid): (i: Optional.Option<nat>)
    ensures i.Some? ==> i.value < |rs| && rs[i.value].id == id
    ensures i.Some? ==> forall j :: 0 <= j < i.value ==> rs[j].id != id
    ensures i.None? <==> id !in IdSet(rs)
  {
    if rs == [] then Optional.None
    else if rs[0].id == id then Optional.Some(0)
    else
      match ReminderIndex(rs[1..], id)
      case Some(j) => Optional.Some(j + 1)
      case None => Optional.None
  }

  /** `removeAll { $0.id == id }`: the reminders with another id, in their order. */
  function WithoutReminder(rs: seq<Reminder>, id: Uuid): (r: seq<Reminder>)
    ensures |r| <= |rs|
    ensures id !in IdSet(r)
    ensures IdSet(r) == IdSet(rs) - {id}
  {
    if rs == [] then []
    else if rs[0].id == id then WithoutReminder(rs[1..], id)
    else [rs[0]] + WithoutReminder(rs[1..], id)
  }

  /**
   * Removing by id keeps exactly the reminders with another id, unchanged, as
   * often as the list holds them and in their original order.
   */
  lemma {:induction false} WithoutReminderKeepsOthers(rs: seq<Reminder>, id: Uuid)
    ensures var r := WithoutReminder(rs, id);
      IsSubsequence(r, rs) &&
      (forall k :: 0 <= k < |r| ==> r[k].id != id) &&
      (forall x: Reminder :: x.id != id ==> multiset(r)[x] == multiset(rs)[x])
  {
    WithoutReminderOrder(rs, id);
    WithoutReminderCounts(rs, id);
  }

  lemma {:induction false} WithoutReminderOrder(rs: seq<Reminder>, id: Uuid)
    ensures var r := WithoutReminder(rs, id);
      IsSubsequence(r, rs) && forall k :: 0 <= k < |r| ==> r[k].id != id
  {
    if rs != [] {
      var t := WithoutReminder(rs[1..], id);
      WithoutReminderOrder(rs[1..], id);
      if rs[0].id != id {
        assert ([rs[0]] + t)[1..] == t;
      } else if t != [] {
        assert t[0] != rs[0];
      }
    }
  }

  lemma {:induction false} WithoutReminderCounts(rs: seq<Reminder>, id: Uuid)
    ensures forall x: Reminder :: x.id != id ==> multiset(WithoutReminder(rs, id))[x] == multiset(rs)[x]
  {
    if rs != [] {
      WithoutReminderCounts(rs[1..], id);
      assert rs == [rs[0]] + rs[1..];
    }
  }

  /** Removing an absent id changes nothing. */
  lemma {:induction false} WithoutAbsent(rs: seq<Reminder>, id: Uuid)
    requires id !in IdSet(rs)
    ensures WithoutReminder(rs, id) == rs
  {
    if rs != [] {
      WithoutAbsent(rs[1..], id);
    }
  }

  lemma {:induction false} UniqueAfterRemove(rs: seq<Reminder>, id: Uuid)
    requires UniqueIds(rs)
    ensures UniqueIds(WithoutReminder(rs, id))
  {
    if rs != [] {
      UniqueAfterRemove(rs[1..], id);
    }
  }

  lemma {:induction false} UniqueAfterReplace(rs: seq<Reminder>, i: nat, x: Reminder)
    requires i < |rs| && rs[i].id == x.id && UniqueIds(rs)
    ensures UniqueIds(rs[i := x]) && IdSet(rs[i := x]) == IdSet(rs)
  {
    if i > 0 {
      assert rs[i := x][1..] == rs[1..][i - 1 := x];
      UniqueAfterReplace(rs[1..], i - 1, x);
    }
  }

  // ---------------------------------------------------------------------------
  // Which requests the store can justify
  // ---------------------------------------------------------------------------

  /** The candidate requests of all stored reminders. */
  function AllCandidates(rs: seq<Reminder>): (m: map<string, Request>)
    ensures forall k :: k in m ==> |k| >= 36 && k[..36] in IdSet(rs)
  {
    if rs == [] then map[]
    else
      var c := Candidates(rs[0]);
      assert forall k :: k in c ==> |k| >= 36 && k[..36] == rs[0].id by {
        forall k | k in c ensures |k| >= 36 && k[..36] == rs[0].id {
          OwnerPrefix(k, rs[0].id);
        }
      }
      c + AllCandidates(rs[1..])
  }

  /**
   * With unique ids, the requests stored reminder `rs[i]` owns in `AllCandidates`
   * are exactly its own candidates.
   */
  lemma {:induction false} AllCandidatesAt(rs: seq<Reminder>, i: nat)
    requires UniqueIds(rs) && i < |rs|
    ensures forall k :: OwnedBy(k, rs[i].id) ==>
      (k in AllCandidates(rs) <==> k in Candidates(rs[i])) &&
      (k in Candidates(rs[i]) ==> AllCandidates(rs)[k] == Candidates(rs[i])[k])
  {
    if i == 0 {
      forall k | OwnedBy(k, rs[0].id) ensures k !in AllCandidates(rs[1..]) {
        OwnerPrefix(k, rs[0].id);
      }
    } else {
      AllCandidatesAt(rs[1..], i - 1);
      IdSetMember(rs[1..], i - 1);
      forall k | OwnedBy(k, rs[i].id) ensures k !in Candidates(rs[0]) {
        IdentifiersDistinct(rs[0].id, rs[i].id);
      }
    }
  }

  /** Replacing a reminder by one with the same id changes nothing the others own. */
  lemma {:induction false} AllCandidatesReplace(rs: seq<Reminder>, i: nat, x: Reminder)
    requires i < |rs| && rs[i].id == x.id
    ensures forall k :: !OwnedBy(k, x.id) ==>
      (k in AllCandidates(rs[i := x]) <==> k in AllCandidates(rs)) &&
      (k in AllCandidates(rs) ==> AllCandidates(rs[i := x])[k] == AllCandidates(rs)[k])
  {
    if i > 0 {
      assert rs[i := x][1..] == rs[1..][i - 1 := x];
      AllCandidatesReplace(rs[1..], i - 1, x);
    }
  }

  /** Removing the reminders with one id changes nothing the others own. */
  lemma {:induction false} AllCandidatesRemove(rs: seq<Reminder>, id: Uuid)
    ensures forall k :: !OwnedBy(k, id) ==>
      (k in AllCandidates(WithoutReminder(rs, id)) <==> k in AllCandidates(rs)) &&
      (k in AllCandidates(rs) ==> AllCandidates(WithoutReminder(rs, id))[k] == AllCandidates(rs)[k])
  {
    if rs != [] {
      AllCandidatesRemove(rs[1..], id);
      if rs[0].id != id {
        assert WithoutReminder(rs, id) == [rs[0]] + WithoutReminder(rs[1..], id);
        assert ([rs[0]] + WithoutReminder(rs[1..], id))[1..] == WithoutReminder(rs[1..], id);
      }
    }
  }

  /** Every pending request is a candidate of the stored reminders, with the same content. */
  ghost predicate Backed(pending: map<string, Request>, rs: seq<Reminder>) {
    forall k :: k in pending ==> k in AllCandidates(rs) && pending[k] == AllCandidates(rs)[k]
  }

  /** `Backed`, except possibly for the two identifiers of reminder `id`. */
  ghost predicate BackedOutside(pending: map<string, Request>, rs: seq<Reminder>, id: Uuid) {
    forall k :: k in pending && !OwnedBy(k, id) ==> k in AllCandidates(rs) && pending[k] == AllCandidates(rs)[k]
  }

  /** Scheduling a stored reminder leaves every pending request backed. */
  lemma {:induction false} ScheduleKeepsBacked(pending: map<string, Request>, rs: seq<Reminder>, i: nat, now: int)
    requires UniqueIds(rs) && i < |rs|
    requires BackedOutside(pending, rs, rs[i].id)
    ensures Backed(Reconcile(pending, rs[i], now), rs)
  {
    AllCandidatesAt(rs, i);
  }

  /** Cancelling both identifiers of `id` leaves every pending request backed. */
  lemma CancelKeepsBacked(pending: map<string, Request>, rs: seq<Reminder>, id: Uuid)
    requires BackedOutside(pending, rs, id)
    ensures Backed(pending - {MainId(id), EarlyId(id)}, rs)
  {
  }

  /** After an in-place edit of reminder `x.id`, the other reminders' requests stay backed. */
  lemma {:induction false} BackedAfterReplace(pending: map<string, Request>, rs: seq<Reminder>, i: nat, x: Reminder)
    requires i < |rs| && rs[i].id == x.id
    requires Backed(pending, rs)
    ensures BackedOutside(pending, rs[i := x], x.id)
  {
    AllCandidatesReplace(rs, i, x);
  }

  /** After removing reminder `id`, the other reminders' requests stay backed. */
  lemma {:induction false} BackedAfterRemove(pending: map<string, Request>, rs: seq<Reminder>, id: Uuid)
    requires Backed(pending, rs)
    ensures BackedOutside(pending, WithoutReminder(rs, id), id)
  {
    AllCandidatesRemove(rs, id);
  }

  /** After inserting a reminder with a fresh id in front, the old requests stay backed. */
  lemma {:induction false} BackedAfterInsert(pending: map<string, Request>, rs: seq<Reminder>, x: Reminder)
    requires x.id !in IdSet(rs)
    requires Backed(pending, rs)
    ensures BackedOutside(pending, [x] + rs, x.id)
  {
    assert ([x] + rs)[1..] == rs;
  }

  /** No orphans: every pending identifier belongs to a stored reminder. */
  lemma PendingHasOwner(pending: map<string, Request>, rs: seq<Reminder>, k: string)
    requires Backed(pending, rs) && k in pending
    ensures |k| >= 36 && k[..36] in IdSet(rs)
  {
  }

  /**
   * In a consistent store, a complete or undated reminder has no pending request,
   * one without an early offset has no early request, and each pending request of
   * a reminder is the one its current fields describe.
   */
  lemma {:induction false} PendingOfStored(pending: map<string, Request>, rs: seq<Reminder>, i: nat)
    requires UniqueIds(rs) && Backed(pending, rs) && i < |rs|
    ensures !Schedulable(rs[i]) ==> MainId(rs[i].id) !in pending && EarlyId(rs[i].id) !in pending
    ensures rs[i].earlyReminder == None ==> EarlyId(rs[i].id) !in pending
    ensures MainId(rs[i].id) in pending ==> pending[MainId(rs[i].id)] == MainRequest(rs[i])
    ensures EarlyId(rs[i].id) in pending ==> pending[EarlyId(rs[i].id)] == EarlyRequest(rs[i])
  {
    PendingKey(pending, rs, i, MainId(rs[i].id));
    PendingKey(pending, rs, i, EarlyId(rs[i].id));
  }

  /** One identifier of a stored reminder: pending only as one of its own candidates. */
  lemma {:induction false} PendingKey(pending: map<string, Request>, rs: seq<Reminder>, i: nat, k: string)
    requires UniqueIds(rs) && Backed(pending, rs) && i < |rs| && OwnedBy(k, rs[i].id)
    ensures k in pending ==> k in Candidates(rs[i]) && pending[k] == Candidates(rs[i])[k]
  {
    AllCandidatesAt(rs, i);
    if k in pending {
      assert k in AllCandidates(rs) && pending[k] == AllCandidates(rs)[k];
    }
  }

  // ---------------------------------------------------------------------------
  // Note collections
  // ---------------------------------------------------------------------------

  /** `firstIndex(where: { $0.id == id })` over notes. */
  function NoteIndex(ns: seq<Note>, id: Uuid): (i: Optional.Option<nat>)
    ensures i.Some? ==> i.value < |ns| && ns[i.value].id == id
    ensures i.Some? ==> forall j :: 0 <= j < i.value ==> ns[j].id != id
    ensures i.None? ==> forall j :: 0 <= j < |ns| ==> ns[j].id != id
  {
    if ns == [] then Optional.None
    else if ns[0].id == id then Optional.Some(0)
    else
      match NoteIndex(ns[1..], id)
      case Some(j) => Optional.Some(j + 1)
      case None => Optional.None
  }

  /** `removeAll { $0.id == id }` over notes. */
  function WithoutNote(ns: seq<Note>, id: Uuid): (r: seq<Note>)
    ensures forall n :: n in r ==> n in ns && n.id != id
    ensures forall n :: n in ns && n.id != id ==> n in r
  {
    if ns == [] then []
    else if ns[0].id == id then WithoutNote(ns[1..], id)
    else [ns[0]] + WithoutNote(ns[1..], id)
  }

  /**
   * Removing a note by id keeps exactly the notes with another id, unchanged,
   * as often as the list holds them and in their original order.
   */
  lemma {:induction false} WithoutNoteKeepsOthers(ns: seq<Note>, id: Uuid)
    ensures var r := WithoutNote(ns, id);
      IsSubsequence(r, ns) &&
      (forall k :: 0 <= k < |r| ==> r[k].id != id) &&
      (forall x: Note :: x.id != id ==> multiset(r)[x] == multiset(ns)[x])
  {
    if ns != [] {
      var t := WithoutNote(ns[1..], id);
      WithoutNoteKeepsOthers(ns[1..], id);
      assert ns == [ns[0]] + ns[1..];
      if ns[0].id != id {
        assert ([ns[0]] + t)[1..] == t;
      } else if t != [] {
        assert t[0] != ns[0];
      }
    }
  }

  // ---------------------------------------------------------------------------
  // The AI context
  // ---------------------------------------------------------------------------

  /** One note's block of the context; dates are rendered by `formatted`. */
  function NoteBlock(n: Note, formatted: int -> string): string {
    "Title: " + n.title + "\n" + "Content: " + n.content + "\n" + "Last updated: " + formatted(n.updatedAt) + "\n\n"
  }

  /** The completion mark of a reminder's line. */
  function StatusTag(r: Reminder): string {
    if r.isComplete then "[Complete]" else "[Pending]"
  }

  /** One reminder's line of the context, with its due date and completion mark. */
  function ReminderLine(r: Reminder, formatted: int -> string): string {
    "- " + r.title + " (Due: " + formatted(r.date) + ") " + StatusTag(r) + "\n"
  }

  function NoteBlocks(ns: seq<Note>, formatted: int -> string): string {
    if ns == [] then "" else NoteBlocks(ns[..|ns| - 1], formatted) + NoteBlock(ns[|ns| - 1], formatted)
  }

  function ReminderLines(rs: seq<Reminder>, formatted: int -> string): string {
    if rs == [] then "" else ReminderLines(rs[..|rs| - 1], formatted) + ReminderLine(rs[|rs| - 1], formatted)
  }

  lemma {:induction false} NoteBlocksSnoc(prefix: string, ns: seq<Note>, i: nat, formatted: int -> string)
    requires i < |ns|
    ensures prefix + NoteBlocks(ns[..i + 1], formatted) == prefix + NoteBlocks(ns[..i], formatted) + NoteBlock(ns[i], formatted)
  {
    assert ns[..i + 1][..i] == ns[..i];
  }

  lemma {:induction false} ReminderLinesSnoc(prefix: string, rs: seq<Reminder>, i: nat, formatted: int -> string)
    requires i < |rs|
    ensures prefix + ReminderLines(rs[..i + 1], formatted) == prefix + ReminderLines(rs[..i], formatted) + ReminderLine(rs[i], formatted)
  {
    assert rs[..i + 1][..i] == rs[..i];
  }

  const NotesHeader: string := "Here are the user's notes:\n\n"
  const RemindersHeader: string := "\nHere are the user's reminders:\n\n"

  /** `getNotesContext()`: a header, one block per note, a second header, one line per reminder. */
  function NotesContext(ns: seq<Note>, rs: seq<Reminder>, formatted: int -> string): string {
    NotesHeader + NoteBlocks(ns, formatted) + RemindersHeader + ReminderLines(rs, formatted)
  }

  /** The first loop of `getNotesContext()`: one block per note, appended in order. */
  method AppendNoteBlocks(prefix: string, ns: seq<Note>, formatted: int -> string) returns (context: string)
    ensures context == prefix + NoteBlocks(ns, formatted)
  {
    context := prefix;
    for i := 0 to |ns|
      invariant context == prefix + NoteBlocks(ns[..i], formatted)
    {
      var note := ns[i];
      var block := "Title: " + note.title + "\n" + "Content: " + note.content + "\n"
                   + "Last updated: " + formatted(note.updatedAt) + "\n\n";
      assert block == NoteBlock(note, formatted);
      NoteBlocksSnoc(prefix, ns, i, formatted);
      context := context + block;
    }
    assert ns[..|ns|] == ns;
  }

  /** The second loop of `getNotesContext()`: one line per reminder, appended in order. */
  method AppendReminderLines(prefix: string, rs: seq<Reminder>, formatted: int -> string) returns (context: string)
    ensures context == prefix + ReminderLines(rs, formatted)
  {
    context := prefix;
    for i := 0 to |rs|
      invariant context == prefix + ReminderLines(rs[..i], formatted)
    {
      var reminder := rs[i];
      var line := ReminderLine(reminder, formatted);
      ReminderLinesSnoc(prefix, rs, i, formatted);
      context := context + line;
    }
    assert rs[..|rs|] == rs;
  }

  // ---------------------------------------------------------------------------
  // The store
  // ---------------------------------------------------------------------------

  class DataManager {
    var notes: seq<Note>
    var reminders: seq<Reminder>
    var chatMessages: seq<ChatMessage>
    /** The notification centre's pending requests, by identifier. */
    var pending: map<string, Request>

    ghost predicate Valid()
      reads this
    {
      UniqueIds(reminders) && Backed(pending, reminders)
    }

    /** An empty store with nothing pending (loading saved data is not modelled). */
    constructor ()
      ensures Valid()
      ensures notes == [] && reminders == [] && chatMessages == [] && pending == map[]
    {
      notes, reminders, chatMessages, pending := [], [], [], map[];
    }

    // --- Notes ---------------------------------------------------------------

    /** `addNote`: the new note goes in front. */
    method AddNote(id: Uuid, title: string, content: string, emoji: Optional.Option<string>, now: int, pick: nat)
      requires pick < |Emojis|
      modifies this`notes
      ensures notes == [NewNote(id, content, now, pick, title, emoji)] + old(notes)
    {
      var note := NewNote(id, content, now, pick, title, emoji);
      notes := [note] + notes;
    }

    /**
     * `updateNote`: the first note with that id gets the new title and content, the
     * new emoji only if one is given, and `now` as its update time; nothing happens
     * if no note has that id.
     */
    method UpdateNote(id: Uuid, title: string, content: string, emoji: Optional.Option<string>, now: int)
      modifies this`notes
      ensures NoteIndex(old(notes), id).None? ==> notes == old(notes)
      ensures NoteIndex(old(notes), id).Some? ==>
        var i := NoteIndex(old(notes), id).value;
        var n := old(notes)[i];
        notes == old(notes)[i := Note(n.id, title, content, n.createdAt, now, if emoji.Some? then emoji.value else n.emoji)]
    {
      var index := NoteIndex(notes, id);
      if index.Some? {
        var i := index.value;
        notes := notes[i := notes[i].(title := title)];
        notes := notes[i := notes[i].(content := content)];
        if emoji.Some? {
          notes := notes[i := notes[i].(emoji := emoji.value)];
        }
        notes := notes[i := notes[i].(updatedAt := now)];
      }
    }

    /** `deleteNote`: every note with that id is removed. */
    method DeleteNote(id: Uuid)
      modifies this`notes
      ensures notes == WithoutNote(old(notes), id)
      ensures IsSubsequence(notes, old(notes)) && forall k :: 0 <= k < |notes| ==> notes[k].id != id
      ensures forall x: Note :: x.id != id ==> multiset(notes)[x] == multiset(old(notes))[x]
    {
      WithoutNoteKeepsOthers(notes, id);
      notes := WithoutNote(notes, id);
    }

    // --- Notifications -------------------------------------------------------

    /**
     * `scheduleNotification(for: r)`: cancel both identifiers, stop if `r` is complete
     * or undated, then add the main and early requests the guard lets through.
     */
    method ScheduleNotification(r: Reminder, now: int)
      modifies this`pending
      ensures pending == Reconcile(old(pending), r, now)
    {
      ReconcileStepwise(pending, r, now);
      ghost var base := pending - {MainId(r.id), EarlyId(r.id)};
      pending := pending - {MainId(r.id), EarlyId(r.id)};
      if r.isComplete {
        return;
      }
      if !r.hasDate {
        return;
      }
      var baseDate := r.date;
      if !r.hasTime {
        baseDate := CivilTime.AtTimeOfDay(r.date, 9, 0, 0);
      }
      assert baseDate == EffectiveTime(r);
      var repeats := r.repeatInterval != Never;
      var trigger := CalendarTrigger(Components(baseDate, r.repeatInterval), repeats);
      var request := Request(MainId(r.id), "Px Reminder", r.title, trigger);
      assert request == MainRequest(r);
      if repeats || baseDate > now {
        pending := pending[request.identifier := request];
      }
      assert pending == if Repeats(r) || EffectiveTime(r) > now then base[MainId(r.id) := MainRequest(r)] else base;
      if r.earlyReminder != None {
        var earlyDate := baseDate - r.earlyReminder.TimeInterval();
        var earlyTrigger := CalendarTrigger(Components(earlyDate, r.repeatInterval), repeats);
        var earlyRequest := Request(EarlyId(r.id), "Upcoming: " + r.title, "In " + r.earlyReminder.RawValue(), earlyTrigger);
        assert earlyDate == EarlyTime(r) && earlyRequest == EarlyRequest(r);
        if repeats || earlyDate > now {
          pending := pending[earlyRequest.identifier := earlyRequest];
        }
      }
    }

    // --- Reminders -----------------------------------------------------------

    /** `addReminder`: a new, incomplete reminder goes in front and is scheduled. */
    method AddReminder(id: Uuid, title: string, date: int, hasDate: bool, hasTime: bool,
                       repeatInterval: RepeatInterval, earlyReminder: EarlyReminderChoice,
                       noteId: Optional.Option<Uuid>, now: int)
      requires Valid() && id !in IdSet(reminders)
      modifies this`reminders, this`pending
      ensures Valid()
      ensures reminders == [NewReminder(id, title, date, noteId, hasDate, hasTime, repeatInterval, earlyReminder)] + old(reminders)
      ensures pending == Reconcile(old(pending), reminders[0], now)
    {
      var reminder := NewReminder(id, title, date, noteId, hasDate, hasTime, repeatInterval, earlyReminder);
      BackedAfterInsert(pending, reminders, reminder);
      reminders := [reminder] + reminders;
      ScheduleNotification(reminder, now);
      ScheduleKeepsBacked(old(pending), reminders, 0, now);
    }

    /**
     * `updateReminder`: the first reminder with that id gets the new title, date, flags,
     * interval and offset (its id, completion and note link are kept) and is
     * rescheduled; nothing happens if no reminder has that id.
     */
    method UpdateReminder(id: Uuid, title: string, date: int, hasDate: bool, hasTime: bool,
                          repeatInterval: RepeatInterval, earlyReminder: EarlyReminderChoice, now: int)
      requires Valid()
      modifies this`reminders, this`pending
      ensures Valid()
      ensures ReminderIndex(old(reminders), id).None? ==>
        reminders == old(reminders) && pending == old(pending)
      ensures ReminderIndex(old(reminders), id).Some? ==>
        var i := ReminderIndex(old(reminders), id).value;
        var r := old(reminders)[i];
        reminders == old(reminders)[i := Reminder(r.id, title, date, r.isComplete, r.noteId,
                                                  hasDate, hasTime, repeatInterval, earlyReminder)] &&
        pending == Reconcile(old(pending), reminders[i], now)
    {
      var index := ReminderIndex(reminders, id);
      if index.Some? {
        var i := index.value;
        var updated := reminders[i].(title := title, date := date, hasDate := hasDate, hasTime := hasTime,
                                     repeatInterval := repeatInterval, earlyReminder := earlyReminder);
        UniqueAfterReplace(reminders, i, updated);
        BackedAfterReplace(pending, reminders, i, updated);
        reminders := reminders[i := updated];
        ScheduleNotification(reminders[i], now);
        ScheduleKeepsBacked(old(pending), reminders, i, now);
      }
    }

    /**
     * `toggleReminder`: flips completion of the first reminder with that id; a
     * reminder that became complete has both identifiers cancelled, one that became
     * incomplete is rescheduled.
     */
    method ToggleReminder(id: Uuid, now: int)
      requires Valid()
      modifies this`reminders, this`pending
      ensures Valid()
      ensures ReminderIndex(old(reminders), id).None? ==>
        reminders == old(reminders) && pending == old(pending)
      ensures ReminderIndex(old(reminders), id).Some? ==>
        var i := ReminderIndex(old(reminders), id).value;
        reminders == old(reminders)[i := old(reminders)[i].(isComplete := !old(reminders)[i].isComplete)] &&
        pending == if reminders[i].isComplete then old(pending) - {MainId(id), EarlyId(id)}
                   else Reconcile(old(pending), reminders[i], now)
    {
      var index := ReminderIndex(reminders, id);
      if index.Some? {
        var i := index.value;
        var toggled := reminders[i].(isComplete := !reminders[i].isComplete);
        UniqueAfterReplace(reminders, i, toggled);
        BackedAfterReplace(pending, reminders, i, toggled);
        reminders := reminders[i := toggled];
        if reminders[i].isComplete {
          pending := pending - {MainId(id), EarlyId(id)};
          CancelKeepsBacked(old(pending), reminders, id);
        } else {
          ScheduleNotification(reminders[i], now);
          ScheduleKeepsBacked(old(pending), reminders, i, now);
        }
      }
    }

    /** `deleteReminder`: every reminder with that id is removed and both identifiers cancelled. */
    method DeleteReminder(id: Uuid)
      requires Valid()
      modifies this`reminders, this`pending
      ensures Valid()
      ensures reminders == WithoutReminder(old(reminders), id)
      ensures IsSubsequence(reminders, old(reminders)) && forall k :: 0 <= k < |reminders| ==> reminders[k].id != id
      ensures forall x: Reminder :: x.id != id ==> multiset(reminders)[x] == multiset(old(reminders))[x]
      ensures pending == old(pending) - {MainId(id), EarlyId(id)}
    {
      WithoutReminderKeepsOthers(reminders, id);
      UniqueAfterRemove(reminders, id);
      BackedAfterRemove(pending, reminders, id);
      reminders := WithoutReminder(reminders, id);
      pending := pending - {MainId(id), EarlyId(id)};
      CancelKeepsBacked(old(pending), reminders, id);
    }

    // --- Chat ------------------------------------------------------------------

    /** `addChatMessage`: the message is appended, stamped with `now`. */
    method AddChatMessage(id: Uuid, content: string, isUser: bool, now: int)
      modifies this`chatMessages
      ensures chatMessages == old(chatMessages) + [NewChatMessage(id, content, isUser, now)]
    {
      var message := NewChatMessage(id, content, isUser, now);
      chatMessages := chatMessages + [message];
    }

    /** `clearChat`: the history becomes empty. */
    method ClearChat()
      modifies this`chatMessages
      ensures chatMessages == []
    {
      chatMessages := [];
    }

    // --- AI context --------------------------------------------------------------

    /** `getNotesContext()`, with dates rendered by `formatted`. */
    method GetNotesContext(formatted: int -> string) returns (context: string)
      ensures context == NotesContext(notes, reminders, formatted)
    {
      context := NotesHeader;
      context := AppendNoteBlocks(context, notes, formatted);
      context := context + RemindersHeader;
      context := AppendReminderLines(context, reminders, formatted);
    }
  }
}
