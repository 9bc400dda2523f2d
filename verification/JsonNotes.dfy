/** The filling loop of rc_api_process_fetch_code_notes_server_response: every entry of the answer becomes a note, is
    counted off as deleted, or ends the loop. The author of the note before is kept and used again when the text of
    the next one is the same. */
module JsonNotes {
  import opened Wrappers
  import opened JsonGrammar
  import opened JsonReader
  import opened JsonStrings
  import opened JsonArrays

  const NOTE_FIELDS: seq<string> := ["Address", "User", "Note"]

  /** A note without text has a null pointer for it. */
  datatype Note = Note(address: nat, author: string, text: Option<string>)

  // ---------------------------------------------------------------- what an entry stands for

  /** The values of an entry's Address, User and Note. */
  function NoteSlots(s: string, e: nat, item: Item): (r: seq<Option<Item>>)
    requires e <= |s|
    ensures |r| == 3
  {
    Fill(NOTE_FIELDS, MembersAt(s, e, item.start))
  }

  function SlotText(s: string, slot: Option<Item>): string {
    if slot.Some? then TextAt(s, slot.value) else ""
  }

  function SlotString(s: string, slot: Option<Item>): Answer {
    if slot.Some? then StringAt(s, slot.value) else Absent
  }

  /** A note that the server has deleted: an empty string or a pair of single quotes. */
  predicate Deleted(s: string, slots: seq<Option<Item>>)
    requires |slots| == 3
  {
    slots[2].Some? && IsDeleted(SlotText(s, slots[2]))
  }

  predicate IsDeleted(t: string) {
    |t| == 2 || (|t| == 4 && t[1] == '\'' && t[2] == '\'')
  }

  /** What is kept of an author's text: nothing of a null. */
  function Shown(t: string): string {
    if t == "null" then "" else t
  }

  /** The author's text of the last entry in front of k that was not deleted. */
  function LastText(s: string, e: nat, items: seq<Item>, k: nat): string
    requires e <= |s| && k <= |items|
  {
    if k == 0 then ""
    else
      var slots := NoteSlots(s, e, items[k - 1]);
      if Deleted(s, slots) then LastText(s, e, items, k - 1) else Shown(SlotText(s, slots[1]))
  }

  /** What one entry becomes. */
  datatype Entry = Dropped | Kept(note: Note) | Stops(verdict: Verdict)

  /** The author's own string, an empty one for null. An entry without an author is refused unless there is no author
      to be used again. */
  function AuthorOf(s: string, slot: Option<Item>, last: string): Answer {
    var a := SlotString(s, slot);
    if a.Null? || (a.Absent? && last == "") then Str(Decoded("")) else a
  }

  /** The entry, with the author read from its own text. */
  function EntryAt(s: string, slots: seq<Option<Item>>, last: string): (r: Entry)
    requires |slots| == 3
    ensures r.Stops? ==> r.verdict != Done
  {
    if Deleted(s, slots) then Dropped
    else
      var address, text, author := SlotString(s, slots[0]), SlotString(s, slots[2]), AuthorOf(s, slots[1], last);
      if !Whole(address) || address.Null? then Stops(if address.Null? then Lost else Judged(address))
      else if !Whole(text) then Stops(Judged(text))
      else if !Whole(author) then Stops(Judged(author))
      else Kept(NoteOf(address.outcome.bytes, author.outcome.bytes, text))
  }

  /** The address is read as a hexadecimal number. */
  function NoteOf(address: string, author: string, text: Answer): Note
    requires Whole(text)
  {
    Note(HexCode(address), author, if text.Null? then None else Some(text.outcome.bytes))
  }

  function EntryIn(s: string, e: nat, items: seq<Item>, k: nat): (r: Entry)
    requires e <= |s| && k < |items|
    ensures r.Stops? ==> r.verdict != Done
  {
    EntryAt(s, NoteSlots(s, e, items[k]), LastText(s, e, items, k))
  }

  /** The notes of the first k entries. */
  function Notes(s: string, e: nat, items: seq<Item>, k: nat): (r: seq<Note>)
    requires e <= |s| && k <= |items|
    ensures |r| <= k
  {
    if k == 0 then []
    else
      var front, entry := Notes(s, e, items, k - 1), EntryIn(s, e, items, k - 1);
      if entry.Kept? then front + [entry.note] else front
  }

  /** The loop goes on behind entry k. */
  predicate GoesOn(s: string, e: nat, items: seq<Item>, k: nat)
    requires e <= |s| && k < |items|
  {
    IsObject(s, items[k]) && !EntryIn(s, e, items, k).Stops?
  }

  /** Where the loop ends: with the first entry that is no object or stops it, or behind the last. */
  ghost predicate EndsAt(s: string, e: nat, items: seq<Item>, k: nat)
    requires e <= |s|
  {
    GoneTo(s, e, items, k) && (k < |items| ==> !GoesOn(s, e, items, k))
  }

  ghost predicate GoneTo(s: string, e: nat, items: seq<Item>, k: nat)
    requires e <= |s|
  {
    k <= |items| && forall i :: 0 <= i < k ==> GoesOn(s, e, items, i)
  }

  /** In front of an entry the loop goes on, or it ends there. */
  lemma StepOrEnd(s: string, e: nat, items: seq<Item>, k: nat)
    requires e <= |s| && GoneTo(s, e, items, k)
    ensures if k < |items| && IsObject(s, items[k])
            then if EntryIn(s, e, items, k).Stops?
                 then EndsAt(s, e, items, k) && VerdictAt(s, e, items, k) == EntryIn(s, e, items, k).verdict
                 else GoneTo(s, e, items, k + 1)
            else EndsAt(s, e, items, k) && VerdictAt(s, e, items, k) == Done
  {
    hide EntryIn, IsObject;
  }

  function VerdictAt(s: string, e: nat, items: seq<Item>, k: nat): Verdict
    requires e <= |s|
  {
    if k < |items| && IsObject(s, items[k]) && EntryIn(s, e, items, k).Stops? then EntryIn(s, e, items, k).verdict
    else Done
  }

  // ---------------------------------------------------------------- the author used again

  /** last_author and last_author_len: the author's string and the length of the text it was read from. */
  datatype Author = Author(name: string, len: nat)

  /** What is kept is the author of that text. */
  predicate Remembers(a: Author, text: string) {
    && a.len == |text| && text != "null"
    && if text == "" then a.name == "" else WellQuoted(text) && StringOf(text) == Str(Decoded(a.name))
  }

  /** The text is compared with the string that was read from the text before, up to the length of that text; no text
      of a value has a NUL in it. */
  predicate Hit(a: Author, text: string) {
    |text| == a.len && text == a.name
  }

  /** So the author is only used again for the same text, and never for a quoted one. */
  lemma HitIff(a: Author, last: string, text: string)
    requires Remembers(a, last)
    ensures Hit(a, text) <==> text == last && (text == "" || text[0] != '"')
  {
  }

  /** Used again or read anew, the author is the one of the entry's own text. */
  lemma HitIsOwn(s: string, slot: Option<Item>, a: Author, last: string)
    requires Remembers(a, last) && Hit(a, SlotText(s, slot)) && (slot.Some? ==> SlotText(s, slot) != "")
    ensures AuthorOf(s, slot, last) == Str(Decoded(a.name))
  {
    HitIff(a, last, SlotText(s, slot));
  }

  // ---------------------------------------------------------------- the loop

  /** After k entries: the notes written are theirs, and every deleted one has been counted off. */
  ghost predicate Filling(s: string, e: nat, items: seq<Item>, notes: seq<Note>, numNotes: int, written: nat, k: nat)
    requires e <= |s|
  {
    && written <= k <= |items| && written <= |notes| && numNotes == |items| - (k - written)
    && notes[..written] == Notes(s, e, items, k)
  }

  /** rc_json_get_required_string. */
  method RequiredString(text: string, e: nat, value: Option<Span>, ghost slot: Option<Item>)
    returns (v: Verdict, out: Answer)
    requires slot.Some? ==> IsValue(text, e, slot.value)
    requires value == if slot.Some? then Some(Span(slot.value.start, slot.value.end)) else None
    ensures out == SlotString(text, slot) && v == Judged(out) && (v == Done <==> Whole(out))
    ensures out.Absent? <==> slot.None?
  {
    if slot.Some? {
      ValueIsQuoted(text, e, slot.value);
    }
    var ok;
    ok, out := GetString(text, value);
    v := if !ok then Refused else if out == Str(PastEnd) then Lost else Done;
  }

  /** The author of an entry: the last one if the comparison says so, else its own. */
  method TakeAuthor(text: string, e: nat, value: Option<Span>, ghost slot: Option<Item>, last: Author,
          ghost lastText: string)
    returns (v: Verdict, a: Author, name: string)
    requires slot.Some? ==> IsValue(text, e, slot.value)
    requires value == if slot.Some? then Some(Span(slot.value.start, slot.value.end)) else None
    requires Remembers(last, lastText)
    ensures v == Judged(AuthorOf(text, slot, lastText))
    ensures v == Done <==> Whole(AuthorOf(text, slot, lastText))
    ensures v == Done ==>
              AuthorOf(text, slot, lastText) == Str(Decoded(name)) && Remembers(a, Shown(SlotText(text, slot)))
  {
    var raw := if value.Some? then text[value.value.start..value.value.end] else "";
    assert raw == SlotText(text, slot);
    v, a, name := Done, last, last.name;
    HitIff(last, lastText, raw);
    if |raw| == last.len && raw == last.name {
      HitIsOwn(text, slot, last, lastText);
    } else {
      var out;
      v, out := RequiredString(text, e, value, slot);
      if out.Null? {
        a, name := Author("", 0), "";
      } else if v == Done {
        name := out.outcome.bytes;
        a := Author(name, |raw|);
      }
    }
  }

  lemma {:induction false} MembersAreValues(s: string, e: nat, i: nat)
    requires i <= e <= |s| && ParseMembers(s, e, i).Listed?
    ensures forall k :: 0 <= k < |ParseMembers(s, e, i).list| ==> IsValue(s, e, ParseMembers(s, e, i).list[k].item)
    decreases e - i
  {
    var m := NextMember(s, e, i);
    var b := m.value.1;
    if Sees(s, e, b, ',') {
      MembersAreValues(s, e, b + 1);
    }
  }

  lemma SlotsAreValues(s: string, e: nat, item: Item)
    requires e <= |s|
    ensures forall j :: 0 <= j < 3 && NoteSlots(s, e, item)[j].Some? ==> IsValue(s, e, NoteSlots(s, e, item)[j].value)
  {
    var ms := MembersAt(s, e, item.start);
    if ms != [] {
      MembersAreValues(s, e, item.start + 1);
    }
    FillFindsNth(NOTE_FIELDS, ms, |ms|);
    assert ms[..|ms|] == ms;
  }

  /** One round of the loop over the entries. */
  method TakeNote(text: string, end: nat, fields: array<Field>, notes: array<Note>, count: int, w: nat, last: Author,
          ghost items: seq<Item>, ghost k: nat)
    returns (v: Verdict, numNotes: int, written: nat, author: Author)
    requires end <= |text| && fields.Length == 3 && k < |items| == notes.Length
    requires Answers(fields[..], NOTE_FIELDS, MembersAt(text, end, items[k].start))
    requires Filling(text, end, items, notes[..], count, w, k) && Remembers(last, LastText(text, end, items, k))
    modifies notes
    ensures v == if EntryIn(text, end, items, k).Stops? then EntryIn(text, end, items, k).verdict else Done
    ensures v != Done ==> Filling(text, end, items, notes[..], numNotes, written, k)
    ensures v == Done ==>
              && Filling(text, end, items, notes[..], numNotes, written, k + 1)
              && Remembers(author, LastText(text, end, items, k + 1))
  {
    v, numNotes, written, author := Done, count, w, last;
    ghost var slots, lastText := NoteSlots(text, end, items[k]), LastText(text, end, items, k);
    SlotsAreValues(text, end, items[k]);
    var values := [fields[0].value, fields[1].value, fields[2].value];
    ValuesAre(fields[..], text, end, items[k]);
    LastTextStep(text, end, items, k);
    hide NoteSlots, LastText, Answers, Remembers, IsDeleted, MembersAt;
    if values[2].Some? && IsDeleted(text[values[2].value.start..values[2].value.end]) {
      FillingDrops(text, end, items, notes[..], count, w, k);
      numNotes := numNotes - 1;
      return;
    }
    var note;
    v, author, note := ReadNote(text, end, values, slots, last, lastText);
    if v == Done {
      FillingKeeps(text, end, items, notes[..], count, w, k, note);
      notes[written] := note;
      written := written + 1;
    }
  }

  lemma ValuesAre(fields: seq<Field>, text: string, e: nat, item: Item)
    requires e <= |text| && |fields| == 3 && Answers(fields, NOTE_FIELDS, MembersAt(text, e, item.start))
    ensures var slots := NoteSlots(text, e, item); forall j :: 0 <= j < 3 ==>
              fields[j].value == if slots[j].Some? then Some(Span(slots[j].value.start, slots[j].value.end)) else None
  {
    var slots := NoteSlots(text, e, item);
    forall j | 0 <= j < 3
      ensures fields[j].value == if slots[j].Some? then Some(Span(slots[j].value.start, slots[j].value.end)) else None
    {
      assert Filled(fields[j], slots[j]);
    }
  }

  lemma LastTextStep(s: string, e: nat, items: seq<Item>, k: nat)
    requires e <= |s| && k < |items|
    ensures var slots := NoteSlots(s, e, items[k]);
            LastText(s, e, items, k + 1) ==
            if Deleted(s, slots) then LastText(s, e, items, k) else Shown(SlotText(s, slots[1]))
  {
  }

  lemma FillingDrops(s: string, e: nat, items: seq<Item>, notes: seq<Note>, numNotes: int, written: nat, k: nat)
    requires e <= |s| && Filling(s, e, items, notes, numNotes, written, k) && k < |items|
    requires EntryIn(s, e, items, k).Dropped?
    ensures Filling(s, e, items, notes, numNotes - 1, written, k + 1)
  {
    hide EntryIn;
  }

  lemma FillingKeeps(s: string, e: nat, items: seq<Item>, notes: seq<Note>, numNotes: int, written: nat, k: nat,
          note: Note)
    requires e <= |s| && Filling(s, e, items, notes, numNotes, written, k) && k < |items| == |notes|
    requires EntryIn(s, e, items, k) == Kept(note)
    ensures written < |notes| && Filling(s, e, items, notes[written := note], numNotes, written + 1, k + 1)
  {
    hide EntryIn;
    var more := notes[written := note];
    assert more[..written + 1] == notes[..written] + [note];
  }

  /** The three strings of an entry that is not deleted. */
  method ReadNote(text: string, e: nat, values: seq<Option<Span>>, ghost slots: seq<Option<Item>>, last: Author,
          ghost lastText: string)
    returns (v: Verdict, author: Author, note: Note)
    requires |values| == |slots| == 3 && !Deleted(text, slots) && Remembers(last, lastText)
    requires forall j :: 0 <= j < 3 && slots[j].Some? ==> IsValue(text, e, slots[j].value)
    requires forall j :: 0 <= j < 3 ==>
               values[j] == if slots[j].Some? then Some(Span(slots[j].value.start, slots[j].value.end)) else None
    ensures EntryAt(text, slots, lastText) == if v == Done then Kept(note) else Stops(v)
    ensures v == Done ==> Remembers(author, Shown(SlotText(text, slots[1])))
  {
    author, note := last, Note(0, "", None);
    var address, body, name;
    v, address := RequiredString(text, e, values[0], slots[0]);
    if v != Done {
      return;
    }
    if address.Null? {
      v := Lost;
      return;
    }
    v, body := RequiredString(text, e, values[2], slots[2]);
    if v != Done {
      return;
    }
    v, author, name := TakeAuthor(text, e, values[1], slots[1], last, lastText);
    if v == Done {
      note := NoteOf(address.outcome.bytes, name, body);
    }
  }

  /** The step of the walk in front of entry k. */
  method NextNote(c: Cursor, fields: array<Field>, ghost items: seq<Item>, ghost k: nat) returns (more: bool)
    requires k <= |items| && Facing(c, items[k..]) && Names(fields[..]) == NOTE_FIELDS
    modifies c, fields
    ensures c.Valid() && more == (k < |items| && IsObject(c.text, items[k]))
    ensures more ==> Answers(fields[..], NOTE_FIELDS, MembersAt(c.text, c.end, items[k].start))
    ensures more ==> Facing(c, items[k + 1..]) && Names(fields[..]) == NOTE_FIELDS
  {
    ghost var left := items[k..];
    more := NextObject(c, fields, left);
    assert more ==> left[0] == items[k] && left[1..] == items[k + 1..];
  }

  method WalkNotes(c: Cursor, fields: array<Field>, notes: array<Note>, ghost items: seq<Item>)
    returns (v: Verdict, numNotes: int, written: nat, ghost k: nat)
    requires Facing(c, items) && fields.Length == 3 && Names(fields[..]) == NOTE_FIELDS && notes.Length == |items|
    requires fields as object != notes
    modifies c, fields, notes
    ensures EndsAt(c.text, c.end, items, k) && v == VerdictAt(c.text, c.end, items, k)
    ensures Filling(c.text, c.end, items, notes[..], numNotes, written, k)
  {
    v, numNotes, written, k := Done, notes.Length, 0, 0;
    var last := Author("", 0);
    NothingYet(c.text, c.end, items, notes[..]);
    hide *;
    assert items[0..] == items;
    var more := NextNote(c, fields, items, 0);
    while more
      invariant c.Valid() && v == Done && Filling(c.text, c.end, items, notes[..], numNotes, written, k)
      invariant GoneTo(c.text, c.end, items, k) && Remembers(last, LastText(c.text, c.end, items, k))
      invariant k <= |items| && more == (k < |items| && IsObject(c.text, items[k]))
      invariant more ==> Answers(fields[..], NOTE_FIELDS, MembersAt(c.text, c.end, items[k].start))
      invariant more ==> Facing(c, items[k + 1..]) && Names(fields[..]) == NOTE_FIELDS
      decreases |items| - k
    {
      StepOrEnd(c.text, c.end, items, k);
      v, numNotes, written, last := TakeNote(c.text, c.end, fields, notes, numNotes, written, last, items, k);
      if v != Done {
        return;
      }
      k := k + 1;
      more := NextNote(c, fields, items, k);
    }
    StepOrEnd(c.text, c.end, items, k);
  }

  lemma NothingYet(s: string, e: nat, items: seq<Item>, notes: seq<Note>)
    requires e <= |s|
    ensures Filling(s, e, items, notes, |items|, 0, 0) && Remembers(Author("", 0), LastText(s, e, items, 0))
    ensures GoneTo(s, e, items, 0)
  {
  }

  /** It never writes past the notes allocated from the count of the parse, and if it is done, the final count is the
      number of notes written exactly if every entry is an object. */
  method FillNotes(text: string, e: nat, start: nat, ghost items: seq<Item>, end: nat, notes: array<Note>)
    returns (v: Verdict, numNotes: int, written: nat, ghost k: nat)
    requires start < e <= |text| && text[start] == '['
    requires ParseArray(text, e, start) == Listed(end, items) && notes.Length == |items|
    modifies notes
    ensures end <= |text| && EndsAt(text, end, items, k) && v == VerdictAt(text, end, items, k)
    ensures Filling(text, end, items, notes[..], numNotes, written, k)
    ensures v == Done ==> (numNotes == written <==> forall i :: 0 <= i < |items| ==> IsObject(text, items[i]))
  {
    v, numNotes, written, k := Done, 0, 0, 0;
    hide ParseArray, EntryIn, Notes, Facing, Cursor.Valid, GoesOn;
    if notes.Length > 0 {
      var c := EnterArray(text, e, start, items, end);
      var fields := NewNoteFields();
      v, numNotes, written, k := WalkNotes(c, fields, notes, items);
      CountIfObjects(text, end, items, notes[..], numNotes, written, k);
    }
  }

  lemma CountIfObjects(s: string, e: nat, items: seq<Item>, notes: seq<Note>, numNotes: int, written: nat, k: nat)
    requires e <= |s| && EndsAt(s, e, items, k) && Filling(s, e, items, notes, numNotes, written, k)
    ensures VerdictAt(s, e, items, k) == Done ==>
              (numNotes == written <==> forall i :: 0 <= i < |items| ==> IsObject(s, items[i]))
  {
    hide EntryIn, Notes;
    if k == |items| {
      forall i | 0 <= i < |items| ensures IsObject(s, items[i]) {
        assert GoesOn(s, e, items, i);
      }
    }
  }

  /** The array [1] has one entry, and whatever the loop leaves for it claims one note and has written none. */
  lemma NumberIsCountedAsNote(notes: seq<Note>, numNotes: int, written: nat, k: nat)
    ensures ParseArray("[1]", 3, 0) == Listed(3, [Item(1, 2, None)])
    ensures var items := [Item(1, 2, None)];
            EndsAt("[1]", 3, items, k) && Filling("[1]", 3, items, notes, numNotes, written, k) ==>
              VerdictAt("[1]", 3, items, k) == Done && numNotes == 1 && written == 0
  {
    var s := "[1]";
    assert SkipWhile(Digit, s, 3, 1) == SkipWhile(Digit, s, 3, 2) == 2;
    assert NumberEnd(s, 3, 1) == 2;
    ItemsEnd(s, 3, 1, 1, 2, None, 2);
    assert !GoesOn(s, 3, [Item(1, 2, None)], 0);
  }

  method NewNoteFields() returns (fields: array<Field>)
    ensures fresh(fields) && fields.Length == 3 && Names(fields[..]) == NOTE_FIELDS
  {
    fields := new Field[3](i => Field("", None, 0));
    fields[0], fields[1], fields[2] := Field("Address", None, 0), Field("User", None, 0), Field("Note", None, 0);
    assert |NOTE_FIELDS| == 3 && forall j :: 0 <= j < 3 ==> fields[..][j].name == NOTE_FIELDS[j];
  }
}
