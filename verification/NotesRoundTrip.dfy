/** What reading a printed array of code notes gives: the number, the author and the text that each entry says, in
    order, without the deleted ones. */
module NotesRoundTrip {
  import opened Wrappers
  import opened JsonGrammar
  import opened JsonDocument
  import opened JsonReader
  import opened JsonStrings
  import opened JsonArrays
  import opened JsonNotes

  /** One entry: its strings as they are written, and the number its address spells. */
  datatype Said = Said(address: seq<Piece>, user: seq<Piece>, note: seq<Piece>, number: nat)

  /** The first member of that name is this string; others may stand around it. */
  ghost predicate FirstIs(l: seq<JsonDocument.Entry>, name: string, ps: seq<Piece>) {
    exists k :: FirstAt(l, name, ps, k)
  }

  ghost predicate FirstAt(l: seq<JsonDocument.Entry>, name: string, ps: seq<Piece>, k: nat) {
    && k < |l| && l[k].name == name && l[k].value == Text(WrittenAll(ps))
    && forall m :: 0 <= m < k ==> l[m].name != name
  }

  /** h spells n in hexadecimal digits of either case, leading zeros allowed. */
  predicate Spells(h: string, n: nat) {
    && h != ""
    && h[|h| - 1] in [ "0123456789abcdef"[n % 16], "0123456789ABCDEF"[n % 16] ]
    && if |h| == 1 then n < 16 else Spells(h[..|h| - 1], n / 16)
  }

  ghost predicate SpellsAddress(t: string, n: nat) {
    |t| > 2 && t[..2] == "0x" && Spells(t[2..], n) && n < 0x1_0000_0000
  }

  ghost predicate Says(d: Doc, e: Said) {
    && d.Object? && AllPieces(e.address) && AllPieces(e.user) && AllPieces(e.note)
    && FirstIs(EntryList(d.members), "Address", e.address)
    && FirstIs(EntryList(d.members), "User", e.user)
    && FirstIs(EntryList(d.members), "Note", e.note)
    && SpellsAddress(DecodedAll(e.address), e.number)
  }

  ghost predicate AllSay(l: seq<Element>, es: seq<Said>) {
    |l| == |es| && forall k :: 0 <= k < |l| ==> Says(l[k].value, es[k])
  }

  /** The notes that are left: deleted ones are written as nothing or as two single quotes. */
  ghost function Spoken(es: seq<Said>): (r: seq<Note>)
    requires forall k :: 0 <= k < |es| ==> AllPieces(es[k].user) && AllPieces(es[k].note)
    ensures |r| <= |es|
  {
    if es == [] then []
    else
      var e := es[|es| - 1];
      Spoken(es[..|es| - 1]) +
        if WrittenAll(e.note) == "" || WrittenAll(e.note) == "''" then []
        else [Note(e.number, DecodedAll(e.user), Some(DecodedAll(e.note)))]
  }

  // ---------------------------------------------------------------- the number

  lemma DigitSpelled(c: char, n: nat)
    requires c in [ "0123456789abcdef"[n % 16], "0123456789ABCDEF"[n % 16] ]
    ensures HexDigit(c) && HexValue(c) == n % 16
  {
    var lower, upper := "0123456789abcdef", "0123456789ABCDEF";
    assert forall d :: 0 <= d < 10 ==> lower[d] as int == '0' as int + d && upper[d] == lower[d];
    assert forall d :: 10 <= d < 16 ==>
        lower[d] as int == 'a' as int + d - 10 && upper[d] as int == 'A' as int + d - 10;
  }

  lemma {:induction false} RunSpelled(h: string, n: nat)
    requires Spells(h, n)
    ensures HexRun(h, 0) == n
  {
    var last := |h| - 1;
    DigitSpelled(h[last], n);
    assert h == h[..last] + [h[last]];
    if last > 0 {
      RunSpelled(h[..last], n / 16);
      AllSpelled(h[..last], n / 16);
      RunAppend(h[..last], [h[last]], 0);
    }
    RunOfOne(h[last], if last > 0 then n / 16 else 0);
  }

  lemma RunOfOne(c: char, value: nat)
    requires HexDigit(c)
    ensures HexRun([c], value) == value * 16 + HexValue(c)
  {
    assert [c][1..] == "";
  }

  lemma {:induction false} RunAppend(a: string, b: string, value: nat)
    requires forall k :: 0 <= k < |a| ==> HexDigit(a[k])
    ensures HexRun(a + b, value) == HexRun(b, HexRun(a, value))
  {
    if a == "" {
      assert a + b == b;
    } else {
      assert (a + b)[1..] == a[1..] + b;
      RunAppend(a[1..], b, value * 16 + HexValue(a[0]));
    }
  }

  lemma {:induction false} AllSpelled(h: string, n: nat)
    requires Spells(h, n)
    ensures forall k :: 0 <= k < |h| ==> HexDigit(h[k])
  {
    DigitSpelled(h[|h| - 1], n);
    if |h| > 1 {
      AllSpelled(h[..|h| - 1], n / 16);
    }
  }

  lemma AddressReads(t: string, n: nat)
    requires SpellsAddress(t, n)
    ensures HexCode(t) == n
  {
    AllSpelled(t[2..], n);
    RunSpelled(t[2..], n);
    assert t[0] == t[..2][0] == '0' && t[1] == t[..2][1] == 'x' && t[2] == t[2..][0];
    assert SkipBlanks(t) == t;
  }

  // ---------------------------------------------------------------- one entry

  /** The text of a string value is decoded to its bytes. */
  lemma TextDecodes(ps: seq<Piece>)
    requires AllPieces(ps)
    ensures var t := Print(Text(WrittenAll(ps)));
            && WellQuoted(t) && StringOf(t) == Str(Decoded(DecodedAll(ps)))
            && (IsDeleted(t) <==> WrittenAll(ps) == "" || WrittenAll(ps) == "''")
  {
    var w := WrittenAll(ps);
    var t := "\"" + (w + "\"");
    assert t[0] == '"' && t[|t| - 1] == '"' && t[1..1 + |w|] == w;
    PiecesDecode(t, 1, |t|, ps);
    if |w| == 2 {
      assert t[1] == w[0] && t[2] == w[1];
      assert w == "''" <==> w[0] == '\'' && w[1] == '\'';
    }
  }

  /** The slot of a name holds the first member of that name. */
  lemma SlotHolds(r: seq<Member>, l: Members, s: string, j: nat, ps: seq<Piece>)
    requires MembersMatch(r, l, s) && j < 3 && AllPieces(ps)
    requires FirstIs(EntryList(l), ["Address", "User", "Note"][j], ps)
    ensures var slot := Fill(["Address", "User", "Note"], r)[j];
            slot.Some? && IsSpan(slot.value, Text(WrittenAll(ps)), s)
  {
    var names := ["Address", "User", "Note"];
    var es := EntryList(l);
    var k: nat :| FirstAt(es, names[j], ps, k);
    MembersCount(r, l, s);
    assert r[..|r|] == r;
    FillFindsNth(names, r, |r|);
    NotRequestedBefore(names, j);
    OccurrenceIs(MemberNames(r), |r|, names[j], 0);
    NoneBefore(MemberNames(r), k, names[j]);
    FirstOccurs(MemberNames(r), names[j], k);
  }

  lemma NotRequestedBefore(names: seq<string>, j: nat)
    requires names == ["Address", "User", "Note"] && j < 3
    ensures Times(names, j, names[j]) == 0
  {
    assert |"Address"| == 7 && |"User"| == 4 && |"Note"| == 4 && "User"[0] == 'U' && "Note"[0] == 'N';
    NoneBefore(names, j, names[j]);
  }

  lemma {:induction false} FirstOccurs(ns: seq<string>, name: string, k: nat)
    requires k < |ns| && ns[k] == name && Times(ns, k, name) == 0
    requires var r := Occurrence(ns, |ns|, name, 0);
             if Times(ns, |ns|, name) > 0 then r < |ns| && ns[r] == name && Times(ns, r, name) == 0 else r == |ns|
    ensures Occurrence(ns, |ns|, name, 0) == k
  {
    var r := Occurrence(ns, |ns|, name, 0);
    TimesUp(ns, k + 1, |ns|, name);
    if r < k {
      TimesUp(ns, r + 1, k, name);
    } else if r > k {
      TimesUp(ns, k + 1, r, name);
    }
  }

  lemma {:induction false} TimesUp(ns: seq<string>, i: nat, j: nat, name: string)
    requires i <= j <= |ns|
    ensures Times(ns, i, name) <= Times(ns, j, name)
  {
    if i < j {
      TimesUp(ns, i, j - 1, name);
    }
  }

  lemma SlotDecodes(s: string, slot: Option<Item>, ps: seq<Piece>)
    requires slot.Some? && IsSpan(slot.value, Text(WrittenAll(ps)), s) && AllPieces(ps)
    ensures SlotText(s, slot) == Print(Text(WrittenAll(ps)))
    ensures SlotString(s, slot) == Str(Decoded(DecodedAll(ps)))
  {
    TextDecodes(ps);
  }

  /** The members of a printed object. */
  lemma MembersOf(s: string, e: nat, item: Item, d: Doc) returns (r: seq<Member>)
    requires e <= |s| && item.end <= e && IsSpan(item, d, s) && Valid(d) && d.Object?
    ensures MembersAt(s, e, item.start) == r && MembersMatch(r, d.members, s) && IsObject(s, item)
  {
    var t := "{" + PrintMembers(d.members);
    assert At(s, item.start, t);
    AtFirst(s, item.start, t);
    AtParts(s, item.start, "{", PrintMembers(d.members));
    r := MembersRead(d.members, s, e, item.start + 1);
  }

  /** An entry that says these strings becomes their note, whoever wrote the one before. */
  lemma EntrySays(s: string, e: nat, item: Item, d: Doc, said: Said, last: string)
    requires e <= |s| && item.end <= e && IsSpan(item, d, s) && Valid(d) && Says(d, said)
    ensures IsObject(s, item)
    ensures EntryAt(s, NoteSlots(s, e, item), last) ==
            if WrittenAll(said.note) == "" || WrittenAll(said.note) == "''" then Dropped
            else Kept(Note(said.number, DecodedAll(said.user), Some(DecodedAll(said.note))))
  {
    hide Print, MembersAt, MembersMatch, FirstIs, At, Valid, IsObject;
    var r := MembersOf(s, e, item, d);
    SlotHolds(r, d.members, s, 0, said.address);
    SlotHolds(r, d.members, s, 1, said.user);
    SlotHolds(r, d.members, s, 2, said.note);
    assert NoteSlots(s, e, item) == Fill(["Address", "User", "Note"], r);
    hide NoteSlots, Fill, EntryAt, IsSpan;
    EntryFrom(s, NoteSlots(s, e, item), said, last);
  }

  lemma EntryFrom(s: string, slots: seq<Option<Item>>, said: Said, last: string)
    requires AllPieces(said.address) && AllPieces(said.user) && AllPieces(said.note) && |slots| == 3
    requires slots[0].Some? && IsSpan(slots[0].value, Text(WrittenAll(said.address)), s)
    requires slots[1].Some? && IsSpan(slots[1].value, Text(WrittenAll(said.user)), s)
    requires slots[2].Some? && IsSpan(slots[2].value, Text(WrittenAll(said.note)), s)
    requires SpellsAddress(DecodedAll(said.address), said.number)
    ensures EntryAt(s, slots, last) ==
            if WrittenAll(said.note) == "" || WrittenAll(said.note) == "''" then Dropped
            else Kept(Note(said.number, DecodedAll(said.user), Some(DecodedAll(said.note))))
  {
    hide SlotText, SlotString, IsDeleted, Print, WrittenAll, DecodedAll, HexCode, SpellsAddress, IsSpan, AllPieces;
    SlotDecodes(s, slots[0], said.address);
    SlotDecodes(s, slots[1], said.user);
    SlotDecodes(s, slots[2], said.note);
    TextDecodes(said.note);
    AddressReads(DecodedAll(said.address), said.number);
  }

  // ---------------------------------------------------------------- the array

  /** Every entry says what is expected of it, one by one. */
  lemma NthSays(s: string, e: nat, items: seq<Item>, l: Elements, es: seq<Said>, k: nat)
    requires e <= |s| && ItemsMatch(items, l, s) && ValidElements(l) && AllSay(ElementList(l), es) && k < |items|
    requires forall i :: 0 <= i < |items| ==> items[i].end <= e
    ensures |items| == |es| && AllPieces(es[k].user) && AllPieces(es[k].note)
    ensures IsObject(s, items[k])
    ensures EntryIn(s, e, items, k) ==
            if WrittenAll(es[k].note) == "" || WrittenAll(es[k].note) == "''" then Dropped
            else Kept(Note(es[k].number, DecodedAll(es[k].user), Some(DecodedAll(es[k].note))))
  {
    hide NoteSlots, EntryAt, LastText;
    ItemsCount(items, l, s);
    ElementsValid(l);
    var d := ElementList(l)[k].value;
    assert Says(d, es[k]);
    EntrySays(s, e, items[k], d, es[k], LastText(s, e, items, k));
  }

  lemma {:induction false} ElementsValid(l: Elements)
    requires ValidElements(l)
    ensures forall k :: 0 <= k < |ElementList(l)| ==> Valid(ElementList(l)[k].value)
    decreases l
  {
    if l.Then? {
      ElementsValid(l.rest);
    }
  }

  lemma {:induction false} NotesAreSpoken(s: string, e: nat, items: seq<Item>, l: Elements, es: seq<Said>, k: nat)
    requires e <= |s| && ItemsMatch(items, l, s) && ValidElements(l) && AllSay(ElementList(l), es)
    requires |items| == |es| && k <= |items|
    requires forall i :: 0 <= i < |items| ==> items[i].end <= e
    requires forall i :: 0 <= i < |es| ==> AllPieces(es[i].user) && AllPieces(es[i].note)
    ensures Notes(s, e, items, k) == Spoken(es[..k])
    ensures forall i :: 0 <= i < k ==> GoesOn(s, e, items, i)
  {
    hide EntryIn, IsObject, Says, ItemsMatch, ValidElements, AllSay, Spoken, Notes, ValidPiece, WrittenAll;
    if k > 0 {
      NotesAreSpoken(s, e, items, l, es, k - 1);
      NthSays(s, e, items, l, es, k - 1);
      SpokenStep(es, k);
      NotesStep(s, e, items, k);
    }
  }

  lemma SpokenStep(es: seq<Said>, k: nat)
    requires 0 < k <= |es| && forall i :: 0 <= i < |es| ==> AllPieces(es[i].user) && AllPieces(es[i].note)
    ensures var e := es[k - 1];
            Spoken(es[..k]) == Spoken(es[..k - 1]) +
              if WrittenAll(e.note) == "" || WrittenAll(e.note) == "''" then []
              else [Note(e.number, DecodedAll(e.user), Some(DecodedAll(e.note)))]
  {
    assert es[..k][..k - 1] == es[..k - 1];
  }

  lemma NotesStep(s: string, e: nat, items: seq<Item>, k: nat)
    requires e <= |s| && 0 < k <= |items|
    ensures var entry := EntryIn(s, e, items, k - 1);
            Notes(s, e, items, k) == Notes(s, e, items, k - 1) + if entry.Kept? then [entry.note] else []
  {
  }

  lemma EndsBehindAll(s: string, e: nat, items: seq<Item>, k: nat)
    requires e <= |s| && EndsAt(s, e, items, k) && forall i :: 0 <= i < |items| ==> GoesOn(s, e, items, i)
    ensures k == |items| && VerdictAt(s, e, items, k) == Done
  {
  }

  lemma BracketRead(l: Elements, s: string, e: nat, start: nat) returns (items: seq<Item>)
    requires e <= |s| && ValidElements(l) && At(s, start, Print(Array(l))) && start + |Print(Array(l))| <= e
    ensures var end := start + |Print(Array(l))|;
            && start < end && s[start] == '[' && ParseArray(s, e, start) == Listed(end, items)
            && ItemsMatch(items, l, s) && forall i :: 0 <= i < |items| ==> items[i].end <= end
  {
    var t := "[" + PrintElements(l);
    AtFirst(s, start, t);
    AtParts(s, start, "[", PrintElements(l));
    hide ItemsMatch, PrintElements, ParseItems, ValidElements, At;
    items := ElementsRead(l, s, e, start + 1);
    ItemsInside(s, e, start + 1);
  }

  lemma ArrayRead(l: Elements, es: seq<Said>, s: string, e: nat, start: nat) returns (items: seq<Item>)
    requires e <= |s| && ValidElements(l) && AllSay(ElementList(l), es)
    requires At(s, start, Print(Array(l))) && start + |Print(Array(l))| <= e
    ensures forall i :: 0 <= i < |es| ==> AllPieces(es[i].user) && AllPieces(es[i].note)
    ensures var end := start + |Print(Array(l))|;
            && start < end && s[start] == '[' && ParseArray(s, e, start) == Listed(end, items)
            && ItemsMatch(items, l, s) && |items| == |es| && forall i :: 0 <= i < |items| ==> items[i].end <= end
  {
    items := BracketRead(l, s, e, start);
    hide ItemsMatch, PrintElements, ParseItems, ValidElements, AllPieces, At, Print, ParseArray;
    ItemsCount(items, l, s);
    forall i | 0 <= i < |es| ensures AllPieces(es[i].user) && AllPieces(es[i].note) {
      assert Says(ElementList(l)[i].value, es[i]);
    }
  }

  /** Whatever the filling loop leaves for a printed array whose entries say these strings: it is done, and the notes
      written are the number that each address spells, the author and the text, without the deleted entries. */
  lemma NotesReadBack(l: Elements, es: seq<Said>, s: string, e: nat, start: nat, notes: seq<Note>, numNotes: int,
          written: nat, k: nat)
    returns (items: seq<Item>)
    requires e <= |s| && ValidElements(l) && AllSay(ElementList(l), es)
    requires At(s, start, Print(Array(l))) && start + |Print(Array(l))| <= e
    ensures forall i :: 0 <= i < |es| ==> AllPieces(es[i].user) && AllPieces(es[i].note)
    ensures var end := start + |Print(Array(l))|;
            && start < end && s[start] == '[' && ParseArray(s, e, start) == Listed(end, items) && |items| == |es|
            && (EndsAt(s, end, items, k) && Filling(s, end, items, notes, numNotes, written, k) ==>
                  && VerdictAt(s, end, items, k) == Done
                  && notes[..written] == Spoken(es) && numNotes == written)
  {
    hide Print, At, Says, ItemsMatch, ValidElements, AllSay, AllPieces, ElementList, EndsAt, Filling, VerdictAt, Spoken;
    items := ArrayRead(l, es, s, e, start);
    var end := start + |Print(Array(l))|;
    if EndsAt(s, end, items, k) && Filling(s, end, items, notes, numNotes, written, k) {
      FilledAreSpoken(s, end, items, l, es, notes, numNotes, written, k);
    }
  }

  lemma FilledAreSpoken(s: string, e: nat, items: seq<Item>, l: Elements, es: seq<Said>, notes: seq<Note>,
          numNotes: int, written: nat, k: nat)
    requires e <= |s| && ItemsMatch(items, l, s) && ValidElements(l) && AllSay(ElementList(l), es)
    requires |items| == |es| && forall i :: 0 <= i < |items| ==> items[i].end <= e
    requires forall i :: 0 <= i < |es| ==> AllPieces(es[i].user) && AllPieces(es[i].note)
    requires EndsAt(s, e, items, k) && Filling(s, e, items, notes, numNotes, written, k)
    ensures VerdictAt(s, e, items, k) == Done
    ensures written <= |notes| && notes[..written] == Spoken(es) && numNotes == written
  {
    hide ItemsMatch, ValidElements, AllSay, ElementList, EndsAt, VerdictAt, Filling, GoesOn, Notes, Spoken, AllPieces;
    NotesAreSpoken(s, e, items, l, es, |items|);
    assert es[..|es|] == es;
    EndsBehindAll(s, e, items, k);
    AllWritten(s, e, items, notes, numNotes, written, k);
  }

  lemma AllWritten(s: string, e: nat, items: seq<Item>, notes: seq<Note>, numNotes: int, written: nat, k: nat)
    requires e <= |s| && Filling(s, e, items, notes, numNotes, written, k) && k == |items|
    ensures written <= |notes| && notes[..written] == Notes(s, e, items, |items|) && numNotes == written
  {
  }

  /** The entries end in front of the closing bracket. */
  lemma {:induction false} ItemsInside(s: string, e: nat, i: nat)
    requires i <= e <= |s| && ParseItems(s, e, i).Listed?
    ensures var r := ParseItems(s, e, i); forall k :: 0 <= k < |r.list| ==> r.list[k].end < r.end
    decreases e - i
  {
    var v := JsonGrammar.ParseField(s, e, SkipWhile(Space, s, e, i));
    var b := SkipWhile(Space, s, e, v.end);
    if Sees(s, e, b, ',') {
      ItemsInside(s, e, b + 1);
    }
  }
}
