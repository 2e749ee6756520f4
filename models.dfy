/**
 * The app's records: notes, reminders with their repeat and early-warning
 * choices, and chat messages, with the derived note title and body and the
 * defaults their initialisers fill in.
 */
module Models {
  import opened Text
  import Optional

  // ---------------------------------------------------------------------------
  // Identifiers
  // ---------------------------------------------------------------------------

  predicate IsUpperHexDigit(c: char) {
    ('0' <= c <= '9') || ('A' <= c <= 'F')
  }

  /** The form of `UUID().uuidString`: 8-4-4-4-12 upper-case hexadecimal digits. */
  predicate IsUuidString(s: string) {
    |s| == 36 &&
    forall i :: 0 <= i < |s| ==>
      if i == 8 || i == 13 || i == 18 || i == 23 then s[i] == '-' else IsUpperHexDigit(s[i])
  }

  type Uuid = s: string | IsUuidString(s) witness "00000000-0000-0000-0000-000000000000"

  // ---------------------------------------------------------------------------
  // Reminder choices
  // ---------------------------------------------------------------------------

  datatype RepeatInterval = Never | Daily | Weekly | Monthly {
    function RawValue(): string {
      match this
      case Never => "Never"
      case Daily => "Daily"
      case Weekly => "Weekly"
      case Monthly => "Monthly"
    }
  }

  datatype EarlyReminderChoice = None | FiveMinutes | FifteenMinutes | ThirtyMinutes | OneHour {

    /** The human label, which is also the stored raw value. */
    function RawValue(): string {
      match this
      case None => "None"
      case FiveMinutes => "5 min before"
      case FifteenMinutes => "15 min before"
      case ThirtyMinutes => "30 min before"
      case OneHour => "1 hour before"
    }

    /** Position in the declaration order of the cases. */
    function Ordinal(): nat {
      match this
      case None => 0
      case FiveMinutes => 1
      case FifteenMinutes => 2
      case ThirtyMinutes => 3
      case OneHour => 4
    }

    /** How many seconds before the reminder the early warning fires. */
    function TimeInterval(): (seconds: int)
      ensures seconds == 0 <==> this == None
      ensures 0 <= seconds <= 3600 && seconds % 300 == 0
    {
      match this
      case None => 0
      case FiveMinutes => 300
      case FifteenMinutes => 900
      case ThirtyMinutes => 1800
      case OneHour => 3600
    }
  }

  /** The offsets grow strictly with the order in which the choices are declared. */
  lemma TimeIntervalIncreasing(a: EarlyReminderChoice, b: EarlyReminderChoice)
    requires a.Ordinal() < b.Ordinal()
    ensures a.TimeInterval() < b.TimeInterval()
  {
  }

  // ---------------------------------------------------------------------------
  // Reminder
  // ---------------------------------------------------------------------------

  /** A reminder; `date` is in seconds since 1970-01-01T00:00:00. */
  datatype Reminder = Reminder(
    id: Uuid,
    title: string,
    date: int,
    isComplete: bool,
    noteId: Optional.Option<Uuid>,
    hasDate: bool,
    hasTime: bool,
    repeatInterval: RepeatInterval,
    earlyReminder: EarlyReminderChoice)

  /** `Reminder.init`: a new reminder is never complete; the flags and choices default as in the app. */
  function NewReminder(id: Uuid, title: string, date: int, noteId: Optional.Option<Uuid> := Optional.None,
                       hasDate: bool := true, hasTime: bool := true,
                       repeatInterval: RepeatInterval := Never,
                       earlyReminder: EarlyReminderChoice := None): (r: Reminder)
    ensures !r.isComplete
    ensures r.id == id && r.title == title && r.date == date && r.noteId == noteId
    ensures r.hasDate == hasDate && r.hasTime == hasTime
    ensures r.repeatInterval == repeatInterval && r.earlyReminder == earlyReminder
  {
    Reminder(id, title, date, false, noteId, hasDate, hasTime, repeatInterval, earlyReminder)
  }

  /** With only the required arguments, a reminder is dated, timed, one-off and without early warning. */
  lemma NewReminderDefaults(id: Uuid, title: string, date: int)
    ensures var r := NewReminder(id, title, date);
      r.hasDate && r.hasTime && r.repeatInterval == Never && r.earlyReminder == None &&
      r.noteId == Optional.None && !r.isComplete
  {
  }

  // ---------------------------------------------------------------------------
  // Note
  // ---------------------------------------------------------------------------

  datatype Note = Note(
    id: Uuid,
    title: string,
    content: string,
    createdAt: int,
    updatedAt: int,
    emoji: string)

  /** The pool a note's emoji is drawn from when none is given. */
  const Emojis: seq<string> := [
    "\U{1F4DD}", "\U{1F4D3}", "\U{1F4D2}", "\U{1F4D4}", "\U{1F4D5}", "\U{1F4D7}", "\U{1F4D8}", "\U{1F4D9}",
    "\U{1F4DA}", "\U{1F4DC}", "\U{1F4C4}", "\U{1F4C1}", "\U{1F4C2}", "\U{1F5C2}\U{FE0F}", "\U{1F4CC}",
    "\U{1F4CD}", "\U{1F4CE}", "\U{1F58A}\U{FE0F}", "\U{1F58B}\U{FE0F}", "\U{2712}\U{FE0F}", "\U{1F9E0}",
    "\U{1F4A1}", "\U{2728}", "\U{1F3AF}", "\U{1F3A8}", "\U{1F47E}", "\U{1F680}", "\U{2B50}\U{FE0F}",
    "\U{1F525}", "\U{1F48E}"]

  /**
   * `Note.init`: both timestamps are `now`; an explicit emoji is kept verbatim,
   * otherwise the emoji at the randomly drawn index `pick` of the pool is used.
   */
  function NewNote(id: Uuid, content: string, now: int, pick: nat,
                   title: string := "", emoji: Optional.Option<string> := Optional.None): (n: Note)
    requires pick < |Emojis|
    ensures n.id == id && n.title == title && n.content == content
    ensures n.createdAt == now && n.updatedAt == now
    ensures emoji.Some? ==> n.emoji == emoji.value
    ensures emoji.None? ==> n.emoji in Emojis
  {
    Note(id, title, content, now, now, emoji.GetOr(Emojis[pick]))
  }

  /** The title argument defaults to the empty string. */
  lemma NewNoteDefaultTitle(id: Uuid, content: string, now: int, pick: nat)
    requires pick < |Emojis|
    ensures NewNote(id, content, now, pick).title == ""
  {
  }

  /**
   * The emoji index for a legacy note stored without one: a non-negative hash of
   * the note's id, reduced modulo the size of the pool.
   */
  function LegacyEmojiIndex(hash: nat): (i: nat)
    ensures i < |Emojis|
    ensures (hash - i) % |Emojis| == 0
  {
    hash % |Emojis|
  }

  /** `Note.init(from:)`'s emoji: the stored one if present, else the pool entry at the hashed index. */
  function DecodedEmoji(stored: Optional.Option<string>, hash: nat): (e: string)
    ensures stored.Some? ==> e == stored.value
    ensures stored.None? ==> e in Emojis && e == Emojis[LegacyEmojiIndex(hash)]
  {
    if stored.Some? then stored.value else Emojis[LegacyEmojiIndex(hash)]
  }

  /** The first line of the content: everything before the first newline character. */
  function FirstLine(content: string): (line: string)
    ensures !HasInClass(line, Newlines)
    ensures line == content[..FirstInClass(content, Newlines)]
  {
    SplitAtFirst(content, Newlines);
    BeforeFirstInClass(content, Newlines);
    Split(content, Newlines)[0]
  }

  /**
   * `displayTitle`: the first line with surrounding spaces removed, cut to 50
   * characters, or "New Note" when that line is blank.
   */
  function DisplayTitle(n: Note): (r: string)
    ensures 1 <= |r| <= 50
    ensures AllInClass(FirstLine(n.content), Whitespaces) ==> r == "New Note"
    ensures !AllInClass(FirstLine(n.content), Whitespaces) ==>
      var t := Trim(FirstLine(n.content), Whitespaces);
      r == t[..if |t| < 50 then |t| else 50]
  {
    var trimmed := Trim(FirstLine(n.content), Whitespaces);
    if trimmed == [] then "New Note" else trimmed[..if |trimmed| < 50 then |trimmed| else 50]
  }

  /** The title only depends on the text before the first newline. */
  lemma {:induction false} DisplayTitleOfFirstLine(n: Note, rest: string)
    requires !HasInClass(n.content, Newlines)
    ensures DisplayTitle(n.(content := n.content + "\n" + rest)) == DisplayTitle(n)
  {
    var c := n.content + "\n" + rest;
    assert c[..|n.content|] == n.content;
    FirstInClassAt(c, Newlines, |n.content|);
    FirstInClassNone(n.content, Newlines);
    assert FirstLine(c) == FirstLine(n.content);
  }

  /**
   * "New Note" is not reserved for blank notes: a note whose first line reads
   * "New Note" gets the same title although its first line is not blank.
   */
  lemma {:induction false} DisplayTitleNotInjective(n: Note)
    requires n.content == "New Note"
    ensures DisplayTitle(n) == "New Note" && !AllInClass(FirstLine(n.content), Whitespaces)
  {
    var s := n.content;
    forall i | 0 <= i < |s| ensures !IsNewline(s[i]) && (!IsSpace(s[i]) || i == 3) {
      assert i == 0 || i == 1 || i == 2 || i == 3 || i == 4 || i == 5 || i == 6 || i == 7;
    }
    FirstInClassNone(s, Newlines);
    assert FirstLine(s) == s;
    TrimOfTrimmed(s, Whitespaces);
    assert !InClass(s[0], Whitespaces);
  }

  /**
   * `bodyContent`: empty when the content is a single line; otherwise the text after
   * the first newline, with every newline character normalised to "\n" and
   * surrounding whitespace and newlines trimmed.
   */
  function BodyContent(n: Note): (r: string)
    ensures var i := FirstInClass(n.content, Newlines);
      (i == |n.content| ==> r == "") &&
      (i < |n.content| ==> r == Trim(Replace(n.content[i + 1..], Newlines, '\n'), WhitespacesAndNewlines))
  {
    var lines := Split(n.content, Newlines);
    SplitAtFirst(n.content, Newlines);
    FirstInClassSpec(n.content, Newlines);
    CountPositive(n.content, Newlines);
    if |lines| > 1 then
      JoinSplit(n.content[FirstInClass(n.content, Newlines) + 1..], Newlines, '\n');
      Trim(Join(lines[1..], "\n"), WhitespacesAndNewlines)
    else ""
  }

  // ---------------------------------------------------------------------------
  // Chat message
  // ---------------------------------------------------------------------------

  datatype ChatMessage = ChatMessage(id: Uuid, content: string, isUser: bool, timestamp: int)

  /** `ChatMessage.init`: stamped with the current time. */
  function NewChatMessage(id: Uuid, content: string, isUser: bool, now: int): (m: ChatMessage)
    ensures m.id == id && m.content == content && m.isUser == isUser && m.timestamp == now
  {
    ChatMessage(id, content, isUser, now)
  }

  // ---------------------------------------------------------------------------
  // Collections
  // ---------------------------------------------------------------------------

  /** `a` is `b` with some elements left out, the rest in the same order. */
  predicate IsSubsequence<T(==)>(a: seq<T>, b: seq<T>) {
    if a == [] then true
    else if b == [] then false
    else if a[0] == b[0] then IsSubsequence(a[1..], b[1..])
    else IsSubsequence(a, b[1..])
  }
}
