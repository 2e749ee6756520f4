# PIXS reminder, note and assistant logic in Dafny

PIXS is a macOS menu-bar app for notes, reminders and a chat assistant. This
project models the parts of it that are logic rather than presentation:

- **`Store`** (`store.dfy`): the `DataManager` object. Its notes, reminders and
  chat history are sequences that the CRUD methods update in place. The
  notification centre's pending requests are a map from identifier to request,
  and `ScheduleNotification` updates that map step by step, as
  `scheduleNotification(for:)` does. The class invariant `Valid` says two things:
  reminder ids are unique, and every pending request is exactly the request that
  some stored, eligible reminder would schedule. So there are no orphaned
  triggers, and a complete or undated reminder has none. Every reminder method
  preserves it.
- **`Notifications`** (`notifications.dfy`): what one scheduling call does, as
  functions.
  - The effective time is 09:00 on the reminder's day when it has no time.
  - The calendar fields a trigger matches depend on the repeat interval.
  - There is a main request and an "-early" request.
  - A request is submitted only if it repeats or its time is strictly after now.
  - `Reconcile` is the whole call on the pending map. The lemmas about it cover
    idempotence, independence from what was pending before, commutation between
    reminders, and what happens to ineligible reminders.
- **`Models`** (`models.dfy`): the records and their initialisers with their
  defaults, the early-warning offsets, a note's display title and body text, and
  the legacy-emoji fallback.
- **`ReminderEditor`** (`reminder_editor.dfy`): the arithmetic of the reminder
  screens.
  - The pending/completed split.
  - The card status colour.
  - The 12-hour wheels and their conversion to and from the 24-hour clock.
  - The `H:MM AM` label.
  - The month grid of the date picker.
  - The time-picker wheel as a class: wrap-around stepping and the digit-filtering
    text setter.
  - The editor's load and save.
- **`NoteEditor`** (`note_editor.dfy`): a card's preview text, and the note
  editor's save guard, emoji field, formatting buttons and save.
- **`Assistant`** (`offline_assistant.dfy`): the reply used when no API key is
  set. It is an ordered keyword classifier over the lower-cased message, answered
  from counts of `"Title:"` and `"[Pending]"` in the notes context.
- **`HexColor`** (`hex_color.dfy`): the integer channels `Color(hex:)` extracts
  from a 3-, 6- or 8-digit hexadecimal string.
- **`Text`**, **`CivilTime`** and **`Optional`** are supporting modules.
  - `Text` covers the Foundation string operations the app uses: character sets,
    trimming, splitting on a set, `contains`, occurrence counting, ASCII
    lower-casing and decimal rendering.
  - `CivilTime` is a fixed UTC Gregorian calendar on integer seconds since
    1970-01-01. Weekdays are numbered 1 (Sunday) to 7, as Foundation does.
  - `Optional` is an option type.

Time is an integer number of seconds. The current time (`Date()`) is the
parameter `now`. A new record's UUID is a parameter (`id`/`newId`), and so is the
index of the randomly drawn note emoji (`pick`).

## Model

| member | source | states |
|---|---|---|
| Models.EarlyReminderChoice.TimeInterval | PIXS/Models.swift:75-83 | the early offset is 0 exactly for `.none`; otherwise it is between 0 and 3600 seconds and a multiple of five minutes |
| Models.TimeIntervalIncreasing | PIXS/Models.swift:68-83 | the offsets increase strictly in the order the cases are declared |
| Models.NewReminder | PIXS/Models.swift:100-112 | a new reminder is never complete; every other field is the argument given |
| Models.NewReminderDefaults | PIXS/Models.swift:100-102 | with only id, title and date, a reminder is dated, timed, `.never`, without early warning and without a note link |
| Models.NewNote | PIXS/Models.swift:31-38 | both timestamps are `now`; an explicit emoji is kept verbatim, otherwise the emoji is one from the pool |
| Models.NewNoteDefaultTitle | PIXS/Models.swift:31 | the title defaults to the empty string |
| Models.LegacyEmojiIndex | PIXS/Models.swift:54-55 | for a non-negative hash, the index is a valid pool index congruent to the hash |
| Models.DecodedEmoji | PIXS/Models.swift:50-56 | a stored emoji is kept; a missing one is the pool entry at the hashed index |
| Models.FirstLine | PIXS/Models.swift:14 | the first line is the content up to its first newline character, and contains no newline |
| Models.DisplayTitle | PIXS/Models.swift:13-17 | the title is 1 to 50 characters long; it is "New Note" when the first line is blank, otherwise the space-trimmed first line cut to 50 characters |
| Models.DisplayTitleOfFirstLine | PIXS/Models.swift:13-17 | text after the first newline never changes the title |
| Models.DisplayTitleNotInjective | PIXS/Models.swift:16 | the title "New Note" does not imply a blank first line: content "New Note" has that title too |
| Models.BodyContent | PIXS/Models.swift:20-26 | the body is empty for single-line content; otherwise it is the text after the first newline, with newline characters normalised to "\n", trimmed of whitespace and newlines |
| Models.NewChatMessage | PIXS/Models.swift:122-127 | a message keeps its content and sender and is stamped with `now` |
| Notifications.IdentifiersDistinct | PIXS/DataManager.swift:204 | a main identifier never equals an early one; distinct reminders never share an identifier |
| Notifications.OwnerPrefix | PIXS/DataManager.swift:158 | both identifiers of a reminder begin with its 36-character UUID string |
| Notifications.EffectiveTime | PIXS/DataManager.swift:175-178 | the effective time is the date when the reminder has a time; otherwise it is the same calendar day at 09:00:00 |
| Notifications.EarlyTime | PIXS/DataManager.swift:215 | the early time is at most an hour before the effective time, and equals it exactly when there is no early warning |
| Notifications.Components | PIXS/DataManager.swift:181-197 | hour and minute are always set; year and month only for `.never`; day for `.never` and `.monthly`; weekday only for `.weekly`; each set field is the calendar field of the time |
| Notifications.DailyComponentsRecur | PIXS/DataManager.swift:190-191 | a daily trigger is the same for the same time on any other day |
| Notifications.WeeklyComponentsRecur | PIXS/DataManager.swift:192-193 | a weekly trigger is the same for the same time in any other week |
| Notifications.MainRequest | PIXS/DataManager.swift:165-204 | the main request has the UUID as identifier, "Px Reminder" as title and the reminder's title as body; it triggers at the effective time and repeats exactly when the interval is not `.never` |
| Notifications.EarlyRequest | PIXS/DataManager.swift:214-224 | the early request has identifier UUID + "-early", title "Upcoming: " + title and body "In " + the offset's label; it triggers at the early time with the main request's `repeats` |
| Notifications.Candidates | PIXS/DataManager.swift:160-224 | an eligible reminder (incomplete and dated) can own a main request, plus an early request when it has an offset; an ineligible one owns nothing |
| Notifications.Submitted | PIXS/DataManager.swift:206-230 | the main request is submitted iff the reminder is eligible and (repeats or its effective time is after now); the early request iff eligible, with an offset, and (repeats or its early time is after now) |
| Notifications.Reconcile | PIXS/DataManager.swift:155-232 | requests of other reminders are untouched; the reminder's two identifiers end up holding exactly what `Submitted` allows |
| Notifications.ReconcileStepwise | PIXS/DataManager.swift:155-232 | `Reconcile` equals the app's sequence: remove both identifiers, stop if ineligible, add the main request if the guard allows, then the early one if there is an offset and its guard allows |
| Notifications.ReconcileIneligible | PIXS/DataManager.swift:158-163 | after scheduling a complete or undated reminder, neither of its identifiers is pending |
| Notifications.ReconcileNoEarly | PIXS/DataManager.swift:214 | without an early offset, no early request is pending after scheduling |
| Notifications.ReconcileIdempotent | PIXS/DataManager.swift:155-232 | scheduling the same reminder twice at the same time gives the same pending map as scheduling it once |
| Notifications.ReconcileForgetsPrevious | PIXS/DataManager.swift:158 | what a reminder owns after scheduling does not depend on what was pending before |
| Notifications.ReconcileCommutes | PIXS/DataManager.swift:155-232 | scheduling two reminders with different ids gives the same result in either order |
| Notifications.EarlyImpliesMain | PIXS/DataManager.swift:207-226 | for a one-off reminder, an early request is submitted only together with the main one |
| Notifications.EarlyDroppedNearDue | PIXS/DataManager.swift:214-226 | the converse fails: a one-off reminder due within its offset gets the main request and loses the early one |
| Store.ReminderIndex | PIXS/DataManager.swift:118 | the index of the first reminder with that id, or none exactly when no reminder has it |
| Store.WithoutReminder | PIXS/DataManager.swift:146 | removing by id leaves exactly the other ids |
| Store.WithoutReminderKeepsOthers | PIXS/DataManager.swift:146 | the reminders kept are an order-preserving subsequence of the list, none has the id, and each reminder with another id is kept, unchanged, as often as the list holds it |
| Store.WithoutAbsent | PIXS/DataManager.swift:146 | removing an absent id changes nothing |
| Store.UniqueAfterRemove | PIXS/DataManager.swift:146 | removal keeps ids unique |
| Store.UniqueAfterReplace | PIXS/DataManager.swift:118-124 | an in-place edit that keeps the id keeps ids unique and the id set unchanged |
| Store.AllCandidatesAt | PIXS/DataManager.swift:155-232 | with unique ids, the requests a stored reminder can own among all candidates are exactly its own candidates |
| Store.ScheduleKeepsBacked | PIXS/DataManager.swift:155-232 | scheduling a stored reminder leaves every pending request justified by a stored reminder |
| Store.PendingHasOwner | PIXS/DataManager.swift:155-232 | no orphans: every pending identifier starts with the id of a stored reminder |
| Store.PendingOfStored | PIXS/DataManager.swift:158-226 | in a consistent store, a complete or undated reminder has nothing pending, and one without an offset has no early request; a pending request is exactly the one the reminder's current fields describe |
| Store.NoteIndex | PIXS/DataManager.swift:92 | the index of the first note with that id, or none when no note has it |
| Store.WithoutNote | PIXS/DataManager.swift:104 | the notes kept are exactly those with another id |
| Store.WithoutNoteKeepsOthers | PIXS/DataManager.swift:104 | the notes kept are an order-preserving subsequence of the list, none has the id, and each note with another id is kept, unchanged, as often as the list holds it |
| Store.AppendNoteBlocks | PIXS/DataManager.swift:251-255 | the loop appends one "Title/Content/Last updated" block per note, in order |
| Store.AppendReminderLines | PIXS/DataManager.swift:258-260 | the loop appends one line per reminder, in order, ending in "[Complete]" or "[Pending]" |
| Store.DataManager.AddNote | PIXS/DataManager.swift:85-89 | the new note is inserted at the front |
| Store.DataManager.UpdateNote | PIXS/DataManager.swift:91-101 | only the first note with the id changes: title, content and update time are set, and the emoji changes only if one is given; nothing changes if the id is absent |
| Store.DataManager.DeleteNote | PIXS/DataManager.swift:103-106 | every note with the id is removed; the others stay, unchanged, in their order and multiplicity |
| Store.DataManager.ScheduleNotification | PIXS/DataManager.swift:155-232 | the step-by-step remove-then-add leaves the pending map equal to `Reconcile` |
| Store.DataManager.AddReminder | PIXS/DataManager.swift:110-115 | a new, incomplete reminder is inserted at the front and scheduled; the store stays consistent |
| Store.DataManager.UpdateReminder | PIXS/DataManager.swift:117-129 | the first reminder with the id gets the new title, date, flags, interval and offset, keeping id, completion and note link, and is rescheduled; nothing changes if the id is absent; the store stays consistent |
| Store.DataManager.ToggleReminder | PIXS/DataManager.swift:131-143 | completion flips; a reminder that became complete has both identifiers cancelled, one that became incomplete is rescheduled; the store stays consistent |
| Store.DataManager.DeleteReminder | PIXS/DataManager.swift:145-149 | every reminder with the id is removed, the others stay, unchanged, in their order and multiplicity, and both identifiers are cancelled; the store stays consistent |
| Store.DataManager.AddChatMessage | PIXS/DataManager.swift:236-240 | the message is appended |
| Store.DataManager.ClearChat | PIXS/DataManager.swift:242-245 | the history becomes empty |
| Store.DataManager.GetNotesContext | PIXS/DataManager.swift:249-263 | the context is the notes header, the note blocks, the reminders header and the reminder lines |
| ReminderEditor.Pending | PIXS/RemindersView.swift:12-14 | exactly the incomplete reminders |
| ReminderEditor.Completed | PIXS/RemindersView.swift:16-18 | exactly the complete reminders |
| ReminderEditor.PendingCompletedPartition | PIXS/RemindersView.swift:12-18 | the two lists together hold every reminder exactly as often as the store does |
| ReminderEditor.PendingCompletedOrder | PIXS/RemindersView.swift:12-18 | each list keeps the store's order |
| ReminderEditor.Status | PIXS/RemindersView.swift:219-223 | green iff complete; red iff past due (incomplete and due before now); accent otherwise |
| ReminderEditor.StatusRedStays | PIXS/RemindersView.swift:246-248 | a card that is red stays red at every later time |
| ReminderEditor.DisplayHour | PIXS/RemindersView.swift:495 | a 24-hour clock hour shows as 1 to 12, congruent modulo 12 |
| ReminderEditor.SaveHour | PIXS/RemindersView.swift:549-551 | a wheel hour 1 to 12 with AM/PM becomes an hour 0 to 23, with 12 AM as midnight and 12 PM as noon |
| ReminderEditor.HourRoundTrip | PIXS/RemindersView.swift:495-497 | loading any hour 0 to 23 into the wheels and saving it gives back the same hour |
| ReminderEditor.WheelRoundTrip | PIXS/RemindersView.swift:549-551 | saving any wheel setting and loading it again gives back the same setting |
| ReminderEditor.FormatTime | PIXS/RemindersView.swift:544-546 | the label ends in " AM" or " PM" as `isAM` says |
| ReminderEditor.FormatTimeLayout | PIXS/RemindersView.swift:545 | for wheel values the label is the hour, a colon, exactly two digits reading as the minute, and the marker |
| ReminderEditor.FormatTimeInjective | PIXS/RemindersView.swift:544-546 | different wheel settings give different labels |
| ReminderEditor.DaysInMonth | PIXS/RemindersView.swift:520-533 | one blank per weekday before the first of the month, then the start of each day of the month in order |
| ReminderEditor.MonthGridColumns | PIXS/RemindersView.swift:520-533 | in rows of seven, every date stands in its weekday's column, and consecutive cells are consecutive days |
| ReminderEditor.CycleNextValue | PIXS/RemindersView.swift:740 | stepping up gives the next number, with the upper bound wrapping to the lower |
| ReminderEditor.CyclePrevValue | PIXS/RemindersView.swift:746 | stepping down gives the previous number, with the lower bound wrapping to the upper |
| ReminderEditor.CycleUndo | PIXS/RemindersView.swift:738-748 | both steps stay in range, and each undoes the other |
| ReminderEditor.DigitsOnly | PIXS/RemindersView.swift:711 | the filter keeps only decimal digits |
| ReminderEditor.DigitsOnlySkips | PIXS/RemindersView.swift:711 | a non-digit character anywhere does not change the filtered text |
| ReminderEditor.ParseInt | PIXS/RemindersView.swift:712 | parsing digits fails exactly on the empty string or a value beyond `Int.max`; otherwise it gives their value |
| ReminderEditor.Rendered | PIXS/RemindersView.swift:709 | the field's text is never empty |
| ReminderEditor.RenderedRoundTrip | PIXS/RemindersView.swift:709-712 | the text the field shows for a value parses back to that value |
| ReminderEditor.TimePicker.Increment | PIXS/RemindersView.swift:738-742 | from the upper bound or beyond the value wraps to the lower bound, otherwise it goes up by one; an in-range value stays in range |
| ReminderEditor.TimePicker.Decrement | PIXS/RemindersView.swift:744-748 | from the lower bound or below the value wraps to the upper bound, otherwise it goes down by one; an in-range value stays in range |
| ReminderEditor.TimePicker.Text | PIXS/RemindersView.swift:709 | the text is never empty, and for a value inside a non-negative range that fits the field, its digits parse back to the value |
| ReminderEditor.TimePicker.SetText | PIXS/RemindersView.swift:710-719 | the value becomes the parsed digits only when they parse and are in range, and is unchanged otherwise; an in-range value stays in range |
| ReminderEditor.Editor.constructor | PIXS/RemindersView.swift:271-283 | the form's declared defaults: 12:00 AM, dated, timed, `.never`, no early warning |
| ReminderEditor.Editor.OnAppear | PIXS/RemindersView.swift:483-505 | an existing reminder's fields are copied and its time is put on the 12-hour wheels; a new reminder's wheels show one hour from now; the wheels end in range |
| ReminderEditor.Editor.TimeLabel | PIXS/RemindersView.swift:544-546 | the label ends in " AM" or " PM" as the wheel says; with the wheels in range it is the hour, a colon and the minute as exactly two digits that read back as the minute |
| ReminderEditor.Editor.SaveReminder | PIXS/RemindersView.swift:548-580 | the saved date is the selected day at the wheels' 24-hour time, on the whole minute; an existing reminder is updated, otherwise a new one is added, and the reminder's notification requests are rescheduled; a missing reminder leaves reminders and requests unchanged; the store stays consistent |
| ReminderEditor.EditKeepsTime | PIXS/RemindersView.swift:548-557 | opening a reminder and saving it unchanged keeps its day, hour and minute, dropping only seconds |
| NoteEditor.PreviewText | PIXS/NotesView.swift:96-103 | the body if there is one, else the content; empty exactly when the content is empty |
| NoteEditor.OnNewLineShape | PIXS/NotesView.swift:305-328 | the old content is kept as a prefix and the inserted text ends the note; exactly one newline is inserted iff the content was non-empty and did not end in "\n"; the inserted text always starts a line |
| NoteEditor.Editor.constructor | PIXS/NotesView.swift:198-199 | the editor starts with empty content and the memo emoji |
| NoteEditor.Editor.OnAppear | PIXS/NotesView.swift:281-285 | an existing note's content and emoji are loaded |
| NoteEditor.Editor.CanSave | PIXS/NotesView.swift:203-205 | saving is possible iff the content holds a character other than whitespace and newlines |
| NoteEditor.Editor.EmojiChanged | PIXS/NotesView.swift:231-235 | a value longer than one character is cut to its last character; the field ends with at most one |
| NoteEditor.Editor.InsertFormatting | PIXS/NotesView.swift:305-315 | prefix, placeholder and suffix go at the end on their own line |
| NoteEditor.Editor.InsertAtNewLine | PIXS/NotesView.swift:318-328 | the prefix goes at the end on its own line |
| NoteEditor.Editor.SaveNote | PIXS/NotesView.swift:292-300 | nothing happens unless `canSave`; otherwise the note is updated or added with an empty title and the field's emoji |
| Assistant.SearchWords | PIXS/AIService.swift:125 | the candidates are words longer than three characters, without whitespace |
| Assistant.LongWords | PIXS/AIService.swift:125 | exactly the parts longer than three characters are kept |
| Assistant.FirstFound | PIXS/AIService.swift:126-130 | the first word, in message order, that the context contains and that is not a stop word |
| Assistant.Classify | PIXS/AIService.swift:97-130 | the first rule that applies wins, in the order note count, reminders, summary, keyword: each rule is chosen exactly when its condition holds and no earlier one does, the keyword rule exactly when the search finds a reportable word, and the fallback exactly when nothing applies |
| Assistant.OfflineResponse | PIXS/AIService.swift:93-134 | every reply is non-empty |
| Assistant.Chat | PIXS/AIService.swift:16-20 | with an empty key the reply is the offline one; otherwise it is the remote model's |
| Assistant.NoteCountReplySays | PIXS/AIService.swift:97-103 | the "no notes" reply exactly for a count of zero; otherwise the reply states the count, is plural iff the count is not one, and has the collector remark iff the count exceeds three |
| Assistant.PendingReplySays | PIXS/AIService.swift:106-113 | the all-caught-up reply exactly when no "[Pending]" occurs; otherwise the reply states the count |
| Assistant.NoteCountFirst | PIXS/AIService.swift:97-103 | a how-many-notes question gets the note count even if it also mentions reminders |
| Assistant.SummaryGrouping | PIXS/AIService.swift:116 | the summary condition groups as summary or summarize or (what and note): "summary" or "summarize" alone suffices, "what" needs "note", "what" alone does not |
| Assistant.SummaryGroupingWitness | PIXS/AIService.swift:116 | "summary" with no "note" is a summary request and "what" alone is not, so the other grouping would answer differently |
| Assistant.KeywordReplyNamesFoundWord | PIXS/AIService.swift:125-130 | a keyword reply names a word longer than three characters, found in the lower-cased context, that is not a stop word |
| Text.Occurrences | PIXS/AIService.swift:98 | the count of a separator is positive exactly when the text contains it |
| Text.Trim | PIXS/Models.swift:15 | trimming gives the empty string exactly when every character is in the set; otherwise it starts and ends outside the set |
| Text.TrimIsInfix | PIXS/Models.swift:15 | the trimmed string is a contiguous slice of the input, and everything cut from either end is in the set |
| Text.Lowercase | PIXS/AIService.swift:94 | each character is lower-cased in place |
| CivilTime.AtTimeOfDay | PIXS/DataManager.swift:177 | the result is on the same day, at the given hour, minute and second |
| CivilTime.Weekday | PIXS/RemindersView.swift:524 | the weekday is 1 to 7 |
| CivilTime.MonthLength | PIXS/RemindersView.swift:522 | a month has 28 to 31 days |
| HexColor.ScanHex | PIXS/DesignSystem.swift:615 | the scanned value is below 16 to the power of the string's length |
| HexColor.ScanAllHex | PIXS/DesignSystem.swift:615 | on a string of hex digits the scanner reads all of it |
| HexColor.Layout | PIXS/DesignSystem.swift:615-626 | every channel is 0 to 255; a length other than 3, 6 or 8 gives (255, 0, 0, 0); alpha is 255 unless the length is 8 |
| HexColor.Decode | PIXS/DesignSystem.swift:612-626 | every channel is 0 to 255 |
| HexColor.PrefixIgnored | PIXS/DesignSystem.swift:613 | a leading "#" or other non-alphanumeric character does not change the colour |
| HexColor.SuffixIgnored | PIXS/DesignSystem.swift:613 | a trailing non-alphanumeric character does not change the colour |
| HexColor.ThreeDigits | PIXS/DesignSystem.swift:619 | three digits give opaque channels, each digit doubled into a byte ("F80" reads as 0xFF, 0x88, 0x00) |
| HexColor.SixDigits | PIXS/DesignSystem.swift:621 | six digits give opaque red, green and blue from consecutive digit pairs |
| HexColor.EightDigits | PIXS/DesignSystem.swift:623 | eight digits give alpha, red, green and blue from consecutive digit pairs |

## Left out

- Persistence is not modelled: `UserDefaults`, JSON coding, `loadData` and the welcome note. Every `save*` call is a no-op, and the store starts empty.
- The notification centre's asynchrony, completion handlers, errors and permission requests are not modelled. The centre is a map that removal and addition update at once. Both `Date()` reads in one scheduling call are the same `now`.
- `Calendar.current`, time zones and daylight saving are replaced by a fixed UTC Gregorian calendar. The `?? reminder.date` and `components.hour ?? 12` fallbacks cannot fire there.
- CivilTime.CivilFromDays: the round trip with `DaysFromCivil` is not proved. The month grid is stated through `DaysFromCivil`.
- `DateFormatter`, `RelativeDateTimeFormatter` and `Date.formatted()` are left out. `getNotesContext` takes the date rendering as a parameter `formatted`. The cards' date labels are not modelled.
- The network path of `chat` is not modelled: URLSession, the Gemini request and response parsing, and the timeout. Its reply is the input `remoteReply`.
- Concurrency (`Task`, `MainActor`, `asyncAfter`), animations and every SwiftUI view body are left out.
- The floating-point conversion of the colour channels is left out.
- UUID generation, the random emoji draw and `hashValue` are inputs (`id`/`newId`, `pick`, `hash`).
- Store.DataManager.AddReminder: requires that the new id is not already stored. The app draws it fresh from `UUID()`.
- Characters are Unicode scalars, not grapheme clusters. So an emoji made of several scalars counts as more than one character in `EmojiChanged`, which keeps its last scalar. Lower-casing and the alphanumeric set cover ASCII only.
- HexColor.ScanHex: the scanner's clamp on `UInt64` overflow is not modelled. The scanned value is used only for 3, 6 or 8 digits, which never overflow.
- ReminderEditor.SaveHour: its result is stated only for wheel hours 1 to 12, the wheel's range.
- ReminderEditor.TimePicker: the `@Binding` to the editor's state is the wheel's own `value` field.
