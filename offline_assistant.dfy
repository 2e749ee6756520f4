/**
 * The assistant's reply when no API key is set: an ordered set of keyword rules
 * over the lower-cased message, answered from counts taken in the notes context.
 * With a key, the reply comes from the remote model, which is an input here.
 */
module Assistant {
  import opened Text
  import Optional

  // ---------------------------------------------------------------------------
  // Rules
  // ---------------------------------------------------------------------------

  /** Which rule answers a message. */
  datatype Rule = NoteCount | PendingReminders | Summary | Keyword(word: string) | Fallback

  predicate AsksNoteCount(lower: string) {
    Contains(lower, "how many") && Contains(lower, "note")
  }

  predicate AsksReminders(lower: string) {
    Contains(lower, "reminder") || Contains(lower, "task") || Contains(lower, "todo")
  }

  /** The summary condition, with `&&` binding tighter than `||`. */
  predicate AsksSummary(lower: string) {
    Contains(lower, "summary") || Contains(lower, "summarize") || (Contains(lower, "what") && Contains(lower, "note"))
  }

  /** The search candidates: whitespace-separated words of more than three characters, in order. */
  function SearchWords(lower: string): (ws: seq<string>)
    ensures forall i :: 0 <= i < |ws| ==> |ws[i]| > 3 && !HasInClass(ws[i], Whitespaces)
  {
    SplitPartsClean(lower, Whitespaces);
    LongWords(Split(lower, Whitespaces))
  }

  /** `filter { $0.count > 3 }`. */
  function LongWords(parts: seq<string>): (ws: seq<string>)
    ensures forall i :: 0 <= i < |ws| ==> |ws[i]| > 3 && ws[i] in parts
    ensures forall w :: w in parts && |w| > 3 ==> w in ws
  {
    if parts == [] then []
    else (if |parts[0]| > 3 then [parts[0]] else []) + LongWords(parts[1..])
  }

  /** A search word is reported when the context contains it and it is not a stop word. */
  predicate Reportable(word: string, lowerContext: string) {
    Contains(lowerContext, word) && word != "note" && word != "about" && word != "what"
  }

  /** The search loop: the first reportable word, in message order. */
  function FirstFound(words: seq<string>, lowerContext: string): (r: Optional.Option<nat>)
    ensures r.Some? ==> r.value < |words| && Reportable(words[r.value], lowerContext)
    ensures r.Some? ==> forall j :: 0 <= j < r.value ==> !Reportable(words[j], lowerContext)
    ensures r.None? ==> forall j :: 0 <= j < |words| ==> !Reportable(words[j], lowerContext)
  {
    if words == [] then Optional.None
    else if Reportable(words[0], lowerContext) then Optional.Some(0)
    else
      match FirstFound(words[1..], lowerContext)
      case Some(i) => Optional.Some(i + 1)
      case None => Optional.None
  }

  /** The rule that answers `message`: the first one whose condition holds, in the app's order. */
  function Classify(message: string, context: string): (r: Rule)
    ensures var lower := Lowercase(message);
      (r == NoteCount <==> AsksNoteCount(lower)) &&
      (r == PendingReminders <==> !AsksNoteCount(lower) && AsksReminders(lower)) &&
      (r == Summary <==> !AsksNoteCount(lower) && !AsksReminders(lower) && AsksSummary(lower))
    ensures var lower := Lowercase(message);
      var found := FirstFound(SearchWords(lower), Lowercase(context));
      (r.Keyword? <==> !AsksNoteCount(lower) && !AsksReminders(lower) && !AsksSummary(lower) && found.Some?) &&
      (r == Fallback <==> !AsksNoteCount(lower) && !AsksReminders(lower) && !AsksSummary(lower) && found.None?)
    ensures r.Keyword? ==>
      var ws := SearchWords(Lowercase(message));
      var found := FirstFound(ws, Lowercase(context));
      found.Some? && r.word == ws[found.value] && |r.word| > 3 && Reportable(r.word, Lowercase(context))
  {
    var lower := Lowercase(message);
    if AsksNoteCount(lower) then NoteCount
    else if AsksReminders(lower) then PendingReminders
    else if AsksSummary(lower) then Summary
    else
      var ws := SearchWords(lower);
      match FirstFound(ws, Lowercase(context))
      case Some(i) => Keyword(ws[i])
      case None => Fallback
  }

  // ---------------------------------------------------------------------------
  // Replies
  // ---------------------------------------------------------------------------

  const NoNotesReply: string := "You don't have any notes yet. " + "Create one by tapping 'New Note'! \U{1F4DD}"
  const CollectorSuffix: string := "Quite the collector! \U{1F4DA}"
  const CaughtUpReply: string := "No pending reminders! " + "You're all caught up. \U{1F389}"
  const NothingToSummarizeReply: string := "No notes to summarize yet. Start capturing your thoughts! \U{2728}"
  const OfflineReply: string :=
    "I'm in offline mode. Add your free Gemini API key in Settings to unlock full AI features! \U{1F916}\n\nGet one at: aistudio.google.com/app/apikey"

  /** How many notes the context lists: the occurrences of "Title:". */
  function NoteTotal(context: string): nat {
    Occurrences(context, "Title:")
  }

  /** How many pending reminders the context lists: the occurrences of "[Pending]". */
  function PendingTotal(context: string): nat {
    Occurrences(context, "[Pending]")
  }

  function NoteCountReply(count: nat): string {
    if count == 0 then NoNotesReply
    else "You have " + NatToString(count) + " note" + (if count == 1 then "" else "s") + ". "
         + (if count > 3 then CollectorSuffix else "")
  }

  function PendingReply(context: string): string {
    if Contains(context, "[Pending]") then
      var n := PendingTotal(context);
      "You have " + NatToString(n) + " pending reminder" + (if n == 1 then "" else "s")
      + ". Check the Reminders tab to see them! \U{23F0}"
    else CaughtUpReply
  }

  function SummaryReply(count: nat): string {
    if count == 0 then NothingToSummarizeReply
    else "You have " + NatToString(count) + " notes. Add your Gemini API key in Settings to get AI-powered summaries and search! \U{1F511}"
  }

  function KeywordReply(word: string): string {
    "I found '" + word + "' in your notes! \U{1F50D} For detailed AI analysis, add your Gemini API key in Settings."
  }

  /** The reply each rule gives, from the counts in the context. */
  function RuleReply(rule: Rule, context: string): (reply: string)
    ensures reply != []
  {
    match rule
    case NoteCount => NoteCountReply(NoteTotal(context))
    case PendingReminders => PendingReply(context)
    case Summary => SummaryReply(NoteTotal(context))
    case Keyword(w) => KeywordReply(w)
    case Fallback => OfflineReply
  }

  /** `offlineResponse(for:context:)`: the reply of the rule that answers the message. */
  function OfflineResponse(message: string, context: string): (reply: string)
    ensures reply != []
  {
    RuleReply(Classify(message, context), context)
  }

  /**
   * `chat(message:context:)`: without an API key the offline reply, otherwise what
   * the remote model answered (`remoteReply`).
   */
  function Chat(apiKey: string, message: string, context: string, remoteReply: string): (reply: string)
    ensures apiKey == [] ==> reply == OfflineResponse(message, context)
    ensures apiKey != [] ==> reply == remoteReply
  {
    if apiKey == [] then OfflineResponse(message, context) else remoteReply
  }

  // ---------------------------------------------------------------------------
  // What the replies say
  // ---------------------------------------------------------------------------

  lemma FixedRepliesStart()
    ensures |NoNotesReply| > 4 && NoNotesReply[4] == 'd'
    ensures |CaughtUpReply| > 0 && CaughtUpReply[0] == 'N'
  {
  }

  /**
   * The note-count reply: the "no notes" message exactly when the count is zero;
   * otherwise it states the count, in the plural unless it is one, and adds the
   * collector remark exactly when the count exceeds three.
   */
  lemma {:induction false} NoteCountReplySays(count: nat)
    ensures NoteCountReply(count) == NoNotesReply <==> count == 0
    ensures count > 0 ==>
      var r := NoteCountReply(count);
      var head := "You have " + NatToString(count) + " note";
      StartsWith(r, head) && DigitsValue(NatToString(count)) == count &&
      (r[|head|] == 's' <==> count != 1) &&
      (EndsWith(r, CollectorSuffix) <==> count > 3)
  {
    NatToStringRoundTrip(count);
    if count > 0 {
      NoteCountReplyParts(count);
      NoteCountReplyEnd(count);
    }
  }

  /** A non-zero count's reply: the head naming the count, then the plural "s" unless it is one. */
  lemma {:induction false} NoteCountReplyParts(count: nat)
    requires count > 0
    ensures var r := NoteCountReply(count);
      var head := "You have " + NatToString(count) + " note";
      |r| > |head| && r[..|head|] == head && (r[|head|] == 's' <==> count != 1) && r != NoNotesReply
  {
    var r := NoteCountReply(count);
    var head := "You have " + NatToString(count) + " note";
    var tail := (if count == 1 then "" else "s") + ". " + (if count > 3 then CollectorSuffix else "");
    assert r == head + tail;
    assert r[..|head|] == head;
    assert r[|head|] == tail[0];
    FixedRepliesStart();
    assert r[4] == head[4] == 'h';
  }

  /** A non-zero count's reply ends with the collector remark exactly when the count exceeds three. */
  lemma {:induction false} NoteCountReplyEnd(count: nat)
    requires count > 0
    ensures EndsWith(NoteCountReply(count), CollectorSuffix) <==> count > 3
  {
    var r := NoteCountReply(count);
    var front := "You have " + NatToString(count) + " note" + (if count == 1 then "" else "s") + ". ";
    if count > 3 {
      assert r == front + CollectorSuffix;
      assert r[|r| - |CollectorSuffix|..] == CollectorSuffix;
    } else {
      assert r == front;
      assert r[|r| - 1] == ' ';
      assert CollectorSuffix[|CollectorSuffix| - 1] != ' ';
    }
  }

  /** The reminder reply is the all-caught-up message exactly when no "[Pending]" occurs in the context. */
  lemma {:induction false} PendingReplySays(context: string)
    ensures PendingReply(context) == CaughtUpReply <==> PendingTotal(context) == 0
    ensures PendingTotal(context) > 0 ==>
      StartsWith(PendingReply(context), "You have " + NatToString(PendingTotal(context)) + " pending reminder")
  {
    var r := PendingReply(context);
    if PendingTotal(context) > 0 {
      var head := "You have " + NatToString(PendingTotal(context)) + " pending reminder";
      assert r[..|head|] == head;
      FixedRepliesStart();
      assert r[0] == 'Y';
    }
  }

  /**
   * Rule order: a question about how many notes is answered with the note count
   * even when it also mentions reminders or asks for a summary.
   */
  lemma NoteCountFirst(message: string, context: string)
    requires AsksNoteCount(Lowercase(message))
    ensures OfflineResponse(message, context) == NoteCountReply(NoteTotal(context))
  {
  }

  /**
   * The summary condition groups as `summary || summarize || (what && note)`:
   * "summary" or "summarize" alone suffices, "what" needs "note" beside it, and
   * "what" without "note", "summary" or "summarize" is not a summary request.
   */
  lemma SummaryGrouping(lower: string)
    ensures Contains(lower, "summary") || Contains(lower, "summarize") ==> AsksSummary(lower)
    ensures Contains(lower, "what") && Contains(lower, "note") ==> AsksSummary(lower)
    ensures (Contains(lower, "what") && !Contains(lower, "note") && !Contains(lower, "summary") &&
      !Contains(lower, "summarize")) ==> !AsksSummary(lower)
  {
  }

  /**
   * The grouping is observable: "summary" with no "note" in it is a summary
   * request, which `(summary || summarize || what) && note` would reject, and
   * "what" on its own is not one.
   */
  lemma SummaryGroupingWitness()
    ensures AsksSummary("summary") && !Contains("summary", "note")
    ensures !AsksSummary("what")
  {
    assert StartsWith("summary", "summary");
    if Contains("summary", "note") {
      ContainsBounds("summary", "note");
      assert false;
    }
    if Contains("what", "note") {
      ContainsBounds("what", "note");
      assert false;
    }
    if Contains("what", "summary") {
      ContainsBounds("what", "summary");
      assert false;
    }
    if Contains("what", "summarize") {
      ContainsBounds("what", "summarize");
      assert false;
    }
  }

  /** A keyword reply always names a word of more than three characters that the context contains. */
  lemma KeywordReplyNamesFoundWord(message: string, context: string)
    requires Classify(message, context).Keyword?
    ensures var w := Classify(message, context).word;
      OfflineResponse(message, context) == KeywordReply(w) &&
      |w| > 3 && Contains(Lowercase(context), w) && w !in {"note", "about", "what"}
  {
  }
}
