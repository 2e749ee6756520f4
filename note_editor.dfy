/**
 * The note screens: a card's preview text, and the editor's text and emoji
 * fields with the save guard and the formatting buttons.
 */
module NoteEditor {
  import opened Text
  import opened Models
  import Optional
  import Store

  /** `previewText`: the body below the title line if there is one, else the whole content. */
  function PreviewText(n: Note): (r: string)
    ensures BodyContent(n) != [] ==> r == BodyContent(n)
    ensures BodyContent(n) == [] ==> r == n.content
    ensures r == [] <==> n.content == []
  {
    if BodyContent(n) != [] then BodyContent(n)
    else if n.content != [] then n.content
    else ""
  }

  /**
   * Where a formatting button puts its text: straight into an empty note, else
   * after the content, on a new line.
   */
  function OnNewLine(content: string, text: string): string {
    if content == [] || EndsWith(content, "\n") then content + text else content + "\n" + text
  }

  /**
   * The old content is kept as it was, the inserted text ends the note, and exactly
   * one newline comes between them when the content was neither empty nor already
   * ended by a newline, none otherwise. So the inserted text always starts a line.
   */
  lemma {:induction false} OnNewLineShape(content: string, text: string)
    ensures var r := OnNewLine(content, text);
      StartsWith(r, content) && EndsWith(r, text) &&
      (|r| == |content| + |text| + 1 <==> content != [] && !EndsWith(content, "\n")) &&
      (|r| == |content| + |text| <==> content == [] || EndsWith(content, "\n")) &&
      (|r| == |text| || r[|r| - |text| - 1] == '\n')
  {
    var r := OnNewLine(content, text);
    assert r[..|content|] == content;
    if content == [] || EndsWith(content, "\n") {
      assert r[|r| - |text|..] == text;
      if content != [] {
        assert r[|r| - |text| - 1] == content[|content| - 1];
      }
    } else {
      assert r[|r| - |text|..] == text;
      assert r[|r| - |text| - 1] == '\n';
    }
  }

  /** The emoji a new note's editor starts with. */
  const DefaultEmoji: string := "\U{1F4DD}"

  /** `NoteEditorView`'s state: the note being edited (if any), the text and the emoji field. */
  class Editor {
    const note: Optional.Option<Note>
    var content: string
    var emoji: string

    constructor (note: Optional.Option<Note>)
      ensures this.note == note && content == "" && emoji == DefaultEmoji
    {
      this.note := note;
      content, emoji := "", DefaultEmoji;
    }

    /** `onAppear`: an existing note's content and emoji are loaded into the fields. */
    method OnAppear()
      modifies this`content, this`emoji
      ensures note.Some? ==> content == note.value.content && emoji == note.value.emoji
      ensures note.None? ==> content == old(content) && emoji == old(emoji)
    {
      if note.Some? {
        content := note.value.content;
        emoji := note.value.emoji;
      }
    }

    /** `canSave`: the content holds something besides whitespace and newlines. */
    predicate CanSave()
      reads this
      ensures CanSave() <==> exists i :: 0 <= i < |content| && !InClass(content[i], WhitespacesAndNewlines)
    {
      Trim(content, WhitespacesAndNewlines) != []
    }

    /** The emoji field's change handler: anything longer than one character is cut to its last one. */
    method EmojiChanged(newValue: string)
      modifies this`emoji
      ensures |newValue| > 1 ==> emoji == [newValue[|newValue| - 1]]
      ensures |newValue| <= 1 ==> emoji == newValue
      ensures |emoji| <= 1
    {
      emoji := newValue;
      if |newValue| > 1 {
        emoji := [newValue[|newValue| - 1]];
      }
    }

    /** `insertFormatting`: `prefix + placeholder + suffix` goes at the end, on its own line. */
    method InsertFormatting(prefix: string, suffix: string, placeholder: string)
      modifies this`content
      ensures content == OnNewLine(old(content), prefix + placeholder + suffix)
    {
      if content == [] {
        content := prefix + placeholder + suffix;
      } else {
        if !EndsWith(content, "\n") && content != [] {
          content := content + "\n";
        }
        content := content + (prefix + placeholder + suffix);
      }
    }

    /** `insertAtNewLine`: `prefix` goes at the end, on its own line. */
    method InsertAtNewLine(prefix: string)
      modifies this`content
      ensures content == OnNewLine(old(content), prefix)
    {
      if content == [] {
        content := prefix;
      } else {
        if !EndsWith(content, "\n") {
          content := content + "\n";
        }
        content := content + prefix;
      }
    }

    /**
     * `saveNote`: nothing happens unless `canSave`; otherwise the edited note is
     * updated, or a new note is added under `newId`, always with an empty title and
     * the field's emoji.
     */
    method SaveNote(store: Store.DataManager, newId: Uuid, now: int, pick: nat)
      requires pick < |Emojis|
      modifies store`notes
      ensures !CanSave() ==> store.notes == old(store.notes)
      ensures CanSave() && note.None? ==>
        store.notes == [NewNote(newId, content, now, pick, "", Optional.Some(emoji))] + old(store.notes)
      ensures CanSave() && note.Some? && Store.NoteIndex(old(store.notes), note.value.id).Some? ==>
        var i := Store.NoteIndex(old(store.notes), note.value.id).value;
        var n := old(store.notes)[i];
        store.notes == old(store.notes)[i := Note(n.id, "", content, n.createdAt, now, emoji)]
      ensures CanSave() && note.Some? && Store.NoteIndex(old(store.notes), note.value.id).None? ==>
        store.notes == old(store.notes)
    {
      if !CanSave() {
        return;
      }
      if note.Some? {
        store.UpdateNote(note.value.id, "", content, Optional.Some(emoji), now);
      } else {
        store.AddNote(newId, "", content, Optional.Some(emoji), now, pick);
      }
    }
  }
}
