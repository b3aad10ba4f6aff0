/**
 * The markdown notes log (components/Notes.tsx): an editor buffer `content`
 * and a newest-first list of saved notes, mirrored under the key "notes" of
 * the browser's key/value store.
 */
module NotesComponent {
  import opened Wrappers
  import opened Text

  /** A saved note: the editor text as typed and the clock reading when it was saved. */
  datatype Note = Note(content: string, timestamp: int)

  const NotesKey := "notes"

  /** What the mount effect reads: the stored list, or the empty list when the key is absent. */
  function StoredNotes(storage: map<string, seq<Note>>): (r: seq<Note>)
    ensures NotesKey !in storage ==> r == []
    ensures NotesKey in storage ==> r == storage[NotesKey]
  {
    if NotesKey in storage then storage[NotesKey] else []
  }

  /** What a save writes is what the next mount reads, whatever else the store holds. */
  lemma StoredNotesAfterWrite(storage: map<string, seq<Note>>, list: seq<Note>)
    ensures StoredNotes(storage[NotesKey := list]) == list
  {
  }

  /** Writes under other keys are invisible to this component. */
  lemma StoredNotesIgnoresOtherKeys(storage: map<string, seq<Note>>, key: string, list: seq<Note>)
    requires key != NotesKey
    ensures StoredNotes(storage[key := list]) == StoredNotes(storage)
  {
  }

  /**
   * The mounted component. `storage` is the browser store, holding each list
   * itself rather than its JSON text.
   */
  class Notes {
    var content: string
    var notes: seq<Note>
    var storage: map<string, seq<Note>>

    /** Reloading the page would show the same list. */
    ghost predicate Persisted()
      reads this
    {
      StoredNotes(storage) == notes
    }

    /** `useState("")` and `useState([])`, over whatever the store already holds. */
    constructor (storage: map<string, seq<Note>>)
      ensures this.storage == storage && content == [] && notes == []
    {
      this.storage := storage;
      content, notes := [], [];
    }

    /** The mount effect: load the saved list, or start empty when there is none. */
    method Load()
      modifies this`notes
      ensures NotesKey in storage ==> notes == storage[NotesKey]
      ensures NotesKey !in storage ==> notes == []
      ensures Persisted()
    {
      notes := if NotesKey in storage then storage[NotesKey] else [];
    }

    /** The editor's change handler; an undefined value clears the buffer. */
    method Edit(value: Option<string>)
      modifies this`content
      ensures content == (if value.Some? then value.value else [])
    {
      content := if value.Some? then value.value else [];
    }

    /**
     * `saveNote`: a blank buffer saves nothing; otherwise the untrimmed text
     * becomes the newest note, in front of the old ones, the store gets the
     * new list under "notes" and nothing else, and the editor is cleared.
     */
    method SaveNote(now: int)
      modifies this
      ensures Trim(old(content)) == [] ==>
                notes == old(notes) && content == old(content) && storage == old(storage)
      ensures Trim(old(content)) != [] ==>
                && |notes| == |old(notes)| + 1
                && notes[0] == Note(old(content), now)
                && notes[1..] == old(notes)
                && storage == old(storage)[NotesKey := notes]
                && content == []
      ensures Trim(old(content)) != [] ==> Persisted()
      ensures old(Persisted()) ==> Persisted()
    {
      if Trim(content) == [] {
        return;
      }
      var newNote := Note(content, now);
      var updatedNotes := [newNote] + notes;
      notes := updatedNotes;
      storage := storage[NotesKey := updatedNotes];
      content := [];
    }
  }
}
