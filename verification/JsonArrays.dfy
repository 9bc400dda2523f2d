/** Filling arrays from a parsed JSON array: the walk over its entries meets exactly as many entries as the parse
    counted, and each is converted from its own text. */
module JsonArrays {
  import opened Wrappers
  import opened FormEncoding
  import opened JsonGrammar
  import opened JsonReader
  import opened JsonStrings

  /** The cursor stands in front of these entries of an array that ends where its text ends. */
  ghost predicate Facing(c: Cursor, items: seq<Item>)
    reads c
  {
    && c.Valid()
    && if items == [] then c.pos == c.end else ParseItems(c.text, c.end, c.pos) == Listed(c.end, items)
  }

  /** A cursor set to the inside of a parsed array, as its users set it: behind the bracket, up to value_end. */
  method EnterArray(text: string, e: nat, start: nat, ghost items: seq<Item>, end: nat) returns (c: Cursor)
    requires start < e <= |text| && text[start] == '['
    requires ParseArray(text, e, start) == Listed(end, items) && items != []
    ensures fresh(c) && c.text == text && c.end == end && Facing(c, items)
  {
    assert ParseItems(text, e, start + 1) == Listed(end, items);
    ItemsShrink(text, e, start + 1, end);
    c := new Cursor(text, start + 1, end);
    assert ParseItems(c.text, c.end, c.pos) == Listed(end, items);
  }

  /** rc_json_get_array_entry_value. */
  method NextValue(c: Cursor, field: Field, ghost items: seq<Item>) returns (more: bool, f: Field)
    requires Facing(c, items)
    modifies c
    ensures c.Valid() && more == (items != [])
    ensures more ==> f == Read(field, items[0]) && Facing(c, items[1..]) && IsValue(c.text, c.end, items[0])
  {
    f := field;
    EmptyAtEnd(c.text, c.end);
    if items != [] {
      FirstItem(c.text, c.end, c.pos, items);
    }
    c.SkipSpace();
    if c.pos >= c.end {
      return false, f;
    }
    more, f := c.ParseField(f);
    if !more {
      return;
    }
    c.SkipSpace();
    var comma := c.MatchChar(',');
    if !comma {
      var closed := c.MatchChar(']');
    }
  }

  lemma EmptyAtEnd(s: string, e: nat)
    requires e <= |s|
    ensures SkipWhile(Space, s, e, e) == e
  {
  }

  // ---------------------------------------------------------------- what an entry's text is

  function TextAt(s: string, item: Item): string {
    if item.start <= item.end <= |s| then s[item.start..item.end] else ""
  }

  /** The reader takes this value where it stands. */
  predicate IsValue(s: string, e: nat, item: Item) {
    item.start < item.end <= e <= |s| && JsonGrammar.ParseField(s, e, item.start) == Value(item.end, item.size)
  }

  lemma {:induction false} ItemsAreValues(s: string, e: nat, i: nat)
    requires i <= e <= |s| && ParseItems(s, e, i).Listed?
    ensures forall k :: 0 <= k < |ParseItems(s, e, i).list| ==> IsValue(s, e, ParseItems(s, e, i).list[k])
    decreases e - i
  {
    var v := JsonGrammar.ParseField(s, e, SkipWhile(Space, s, e, i));
    var b := SkipWhile(Space, s, e, v.end);
    if Sees(s, e, b, ',') {
      ItemsAreValues(s, e, b + 1);
    }
  }

  predicate Numeral(t: string) {
    forall k :: 0 <= k < |t| ==> Digit(t[k]) || t[k] == '.'
  }

  /** A value that begins with a digit has digits and a point only. */
  lemma NumberIsNumeral(s: string, e: nat, item: Item)
    requires IsValue(s, e, item) && Digit(s[item.start])
    ensures Numeral(TextAt(s, item))
  {
    SkipStops(Digit, s, e, item.start);
    var j := SkipWhile(Digit, s, e, item.start);
    if Sees(s, e, j, '.') {
      SkipStops(Digit, s, e, j + 1);
    }
  }

  /** A value that begins with a quote ends with another one. */
  lemma ValueIsQuoted(s: string, e: nat, item: Item)
    requires IsValue(s, e, item)
    ensures WellQuoted(TextAt(s, item))
  {
    if s[item.start] == '"' {
      ClosedByQuote(s, e, item.start + 1);
    }
  }

  lemma {:induction false} ClosedByQuote(s: string, e: nat, i: nat)
    requires i <= e <= |s| && CloseQuote(s, e, i).Some?
    ensures s[CloseQuote(s, e, i).value - 1] == '"'
    decreases e - i
  {
    if s[i] != '"' {
      ClosedByQuote(s, e, if s[i] == '\\' then i + 2 else i + 1);
    }
  }

  // ---------------------------------------------------------------- numbers

  const WORD32: nat := 0x1_0000_0000

  predicate BeforePoint(c: char) {
    c != '.'
  }

  /** The digits in front of the point. */
  function WholePart(t: string): (d: string)
    ensures |d| <= |t|
  {
    t[..SkipWhile(BeforePoint, t, |t|, 0)]
  }

  /** rc_json_get_unum, for a value that has only numerals if it begins with one: the whole part, in 32 bits. */
  method GetUnum(text: string, value: Option<Span>) returns (ok: bool, out: nat)
    requires value.Some? ==> value.value.start < value.value.end <= |text|
    requires value.Some? && Digit(text[value.value.start]) ==> Numeral(text[value.value.start..value.value.end])
    ensures ok <==> value.Some? && Digit(text[value.value.start])
    ensures out == if ok then Unum(text[value.value.start..value.value.end]) else 0
  {
    if value.None? || !Digit(text[value.value.start]) {
      return false, 0;
    }
    var start, end := value.value.start, value.value.end;
    ghost var t := text[start..end];
    var src, n: nat := start, 0;
    assert t[..0] == "";
    while src < end && text[src] != '.'
      invariant start <= src <= end && n == Word(DecimalValue(t[..src - start]))
      invariant forall k :: start <= k < src ==> text[k] != '.'
    {
      assert t[src - start] == text[src];
      WordStep(t[..src - start], text[src]);
      assert t[..src - start] + [text[src]] == t[..src + 1 - start];
      n := n * 10 % WORD32;
      n := (n + (text[src] as int - '0' as int)) % WORD32;
      src := src + 1;
    }
    SkipsTo(BeforePoint, t, |t|, 0, src - start);
    return true, n;
  }

  /** What a 32-bit word keeps of a number. */
  function Word(n: int): (w: nat)
    ensures w < WORD32
  {
    n % WORD32
  }

  function Unum(t: string): (n: nat) {
    Word(DecimalValue(WholePart(t)))
  }

  lemma WordSame(a: int, b: int, q: int)
    requires a == b + q * WORD32
    ensures Word(a) == Word(b)
  {
  }

  lemma WordStep(t: string, c: char)
    ensures Word(DecimalValue(t + [c])) == (Word(DecimalValue(t)) * 10 % WORD32 + (c as int - '0' as int)) % WORD32
  {
    assert (t + [c])[..|t|] == t;
    var v, d := DecimalValue(t), c as int - '0' as int;
    assert DecimalValue(t + [c]) == v * 10 + d;
    WordMod(v, d);
  }

  lemma WordMod(v: int, d: int)
    ensures Word(v * 10 + d) == (Word(v) * 10 % WORD32 + d) % WORD32
  {
    var r := Word(v);
    WordSame(v * 10 + d, r * 10 + d, v / WORD32 * 10);
    WordSame(r * 10 + d, r * 10 % WORD32 + d, r * 10 / WORD32);
  }

  /** A number that fits, with or without a fraction, reads as itself. */
  lemma UnumReadsDecimal(n: nat, fraction: string)
    requires n < WORD32
    ensures Unum(Decimal(n)) == n && Unum(Decimal(n) + ("." + fraction)) == n
  {
    var d := Decimal(n);
    DecimalReads(n);
    SkipsTo(BeforePoint, d, |d|, 0, |d|);
    var t := d + ("." + fraction);
    SkipsTo(BeforePoint, t, |t|, 0, |d|);
    assert d[..|d|] == d == t[..|d|];
  }

  predicate StartsNumber(s: string, item: Item) {
    item.start < |s| && Digit(s[item.start])
  }

  /** rc_json_get_unum_array: it succeeds exactly if every entry is an unsigned number, and then there is one entry of
      the result per entry of the array. */
  method FillNumbers(text: string, e: nat, start: nat, ghost items: seq<Item>, end: nat, entries: array<nat>)
    returns (ok: bool)
    requires start < e <= |text| && text[start] == '['
    requires ParseArray(text, e, start) == Listed(end, items) && entries.Length == |items|
    modifies entries
    ensures ok <==> forall k :: 0 <= k < |items| ==> StartsNumber(text, items[k])
    ensures ok ==> forall k :: 0 <= k < |items| ==> entries[k] == Unum(TextAt(text, items[k]))
  {
    ok := true;
    if entries.Length > 0 {
      var c := EnterArray(text, e, start, items, end);
      ok := WalkNumbers(c, text, items, entries);
    }
  }

  method WalkNumbers(c: Cursor, text: string, ghost items: seq<Item>, entries: array<nat>) returns (ok: bool)
    requires Facing(c, items) && c.text == text && entries.Length == |items|
    modifies c, entries
    ensures ok <==> forall k :: 0 <= k < |items| ==> StartsNumber(text, items[k])
    ensures ok ==> forall k :: 0 <= k < |items| ==> entries[k] == Unum(TextAt(text, items[k]))
  {
    hide Facing, Cursor.Valid, Unum, TextAt, StartsNumber, IsValue;
    var value := Field("", None, 0);
    var entry := 0;
    var more;
    assert items[0..] == items;
    more, value := NextEntry(c, value, items, entry);
    while more
      invariant c.Valid() && c.text == text && entry <= |items| && more == (entry < |items|)
      invariant more ==> value.value == Some(Span(items[entry].start, items[entry].end))
      invariant more ==> Facing(c, items[entry + 1..]) && IsValue(c.text, c.end, items[entry])
      invariant forall k :: 0 <= k < entry ==> StartsNumber(text, items[k])
      invariant forall k :: 0 <= k < entry ==> entries[k] == Unum(TextAt(text, items[k]))
      decreases |items| - entry
    {
      ok, entries[entry] := NumberEntry(text, c.end, value.value, items[entry]);
      if !ok {
        return;
      }
      entry := entry + 1;
      more, value := NextEntry(c, value, items, entry);
    }
    return true;
  }

  method NumberEntry(text: string, e: nat, value: Option<Span>, ghost item: Item) returns (ok: bool, out: nat)
    requires IsValue(text, e, item) && value == Some(Span(item.start, item.end))
    ensures ok == StartsNumber(text, item) && (ok ==> out == Unum(TextAt(text, item)))
  {
    if Digit(text[value.value.start]) {
      NumberIsNumeral(text, e, item);
    }
    ok, out := GetUnum(text, value);
  }

  // ---------------------------------------------------------------- strings

  /** The string an entry stands for. */
  function StringAt(s: string, item: Item): Answer {
    if WellQuoted(TextAt(s, item)) then StringOf(TextAt(s, item)) else Absent
  }

  /** A string or a null pointer, as opposed to an escape cut short or a walk past the end. */
  predicate Whole(a: Answer) {
    a.Null? || (a.Str? && a.outcome.Decoded?)
  }

  /** How a filling loop ends: done, with an entry that is refused, or with one whose string goes past its value, after
      which nothing is said. */
  datatype Verdict = Done | Refused | Lost

  function Judged(a: Answer): Verdict {
    if Whole(a) then Done else if a == Str(PastEnd) then Lost else Refused
  }

  /** The entry's string, and it is one. */
  predicate HoldsString(a: Answer, s: string, item: Item) {
    Whole(a) && a == StringAt(s, item)
  }

  method StringEntry(text: string, e: nat, value: Option<Span>, ghost item: Item) returns (v: Verdict, out: Answer)
    requires IsValue(text, e, item) && value == Some(Span(item.start, item.end))
    ensures v == Judged(StringAt(text, item)) && (v == Done ==> HoldsString(out, text, item))
  {
    ValueIsQuoted(text, e, item);
    var ok;
    ok, out := GetString(text, value);
    v := if !ok then Refused else if out == Str(PastEnd) then Lost else Done;
  }

  /** rc_json_get_string_array: the strings of the entries, up to the first that cannot be decoded. */
  method FillStrings(text: string, e: nat, start: nat, ghost items: seq<Item>, end: nat, entries: array<Answer>)
    returns (v: Verdict, ghost n: nat)
    requires start < e <= |text| && text[start] == '['
    requires ParseArray(text, e, start) == Listed(end, items) && entries.Length == |items|
    modifies entries
    ensures n <= |items| && forall k :: 0 <= k < n ==> HoldsString(entries[k], text, items[k])
    ensures if v == Done then n == |items| else n < |items| && v == Judged(StringAt(text, items[n]))
  {
    v, n := Done, 0;
    if entries.Length > 0 {
      var c := EnterArray(text, e, start, items, end);
      v, n := WalkStrings(c, text, items, entries);
    }
  }

  method WalkStrings(c: Cursor, text: string, ghost items: seq<Item>, entries: array<Answer>)
    returns (v: Verdict, ghost n: nat)
    requires Facing(c, items) && c.text == text && entries.Length == |items|
    modifies c, entries
    ensures n <= |items| && forall k :: 0 <= k < n ==> HoldsString(entries[k], text, items[k])
    ensures if v == Done then n == |items| else n < |items| && v == Judged(StringAt(text, items[n]))
  {
    hide Facing, Cursor.Valid, HoldsString, StringAt, Judged, IsValue;
    v, n := Done, 0;
    var value := Field("", None, 0);
    var entry := 0;
    var more;
    assert items[0..] == items;
    more, value := NextEntry(c, value, items, entry);
    while more
      invariant c.Valid() && c.text == text && v == Done && n == entry <= |items| && more == (entry < |items|)
      invariant more ==> value.value == Some(Span(items[entry].start, items[entry].end))
      invariant more ==> Facing(c, items[entry + 1..]) && IsValue(c.text, c.end, items[entry])
      invariant forall k :: 0 <= k < entry ==> HoldsString(entries[k], text, items[k])
      decreases |items| - entry
    {
      v, entries[entry] := StringEntry(text, c.end, value.value, items[entry]);
      if v != Done {
        return;
      }
      entry, n := entry + 1, n + 1;
      more, value := NextEntry(c, value, items, entry);
    }
  }

  /** The step of the walk in front of entry k. */
  method NextEntry(c: Cursor, field: Field, ghost items: seq<Item>, ghost k: nat) returns (more: bool, f: Field)
    requires k <= |items| && Facing(c, items[k..])
    modifies c
    ensures c.Valid() && more == (k < |items|)
    ensures more ==> f.value == Some(Span(items[k].start, items[k].end)) && Facing(c, items[k + 1..])
    ensures more ==> IsValue(c.text, c.end, items[k])
  {
    ghost var left := items[k..];
    more, f := NextValue(c, field, left);
    assert more ==> left[0] == items[k] && left[1..] == items[k + 1..];
  }

  // ---------------------------------------------------------------- objects

  /** rc_json_get_array_entry_object: stops at an entry that is not an object. */
  method NextObject(c: Cursor, fields: array<Field>, ghost items: seq<Item>) returns (more: bool)
    requires Facing(c, items)
    modifies c, fields
    ensures c.Valid() && more == (items != [] && IsObject(c.text, items[0]))
    ensures more ==> Names(fields[..]) == Names(old(fields[..]))
    ensures more ==> Answers(fields[..], Names(old(fields[..])), MembersAt(c.text, c.end, items[0].start))
    ensures more ==> Facing(c, items[1..])
  {
    EmptyAtEnd(c.text, c.end);
    if items != [] {
      FirstItem(c.text, c.end, c.pos, items);
      ObjectItem(c.text, c.end, items[0]);
    }
    c.SkipSpace();
    if c.pos >= c.end {
      return false;
    }
    var ok, seen := c.ParseObject(fields);
    if !ok {
      return false;
    }
    c.SkipSpace();
    var comma := c.MatchChar(',');
    if !comma {
      var closed := c.MatchChar(']');
    }
    return true;
  }

  /** The members of the object at i, none if there is no object. */
  function MembersAt(s: string, e: nat, i: nat): seq<Member>
    requires e <= |s|
  {
    if i <= e && ObjectAt(s, e, i).Listed? then ObjectAt(s, e, i).list else []
  }

  /** The first entry of a list is read where it stands and the list goes on behind it. */
  lemma FirstItem(s: string, e: nat, i: nat, items: seq<Item>)
    requires i <= e <= |s| && ParseItems(s, e, i) == Listed(e, items)
    ensures items != [] && items[0].start == SkipWhile(Space, s, e, i) < e
    ensures JsonGrammar.ParseField(s, e, items[0].start) == Value(items[0].end, items[0].size)
    ensures var b := SkipWhile(Space, s, e, items[0].end);
            if items[1..] == [] then b + 1 == e && Sees(s, e, b, ']')
            else Sees(s, e, b, ',') && ParseItems(s, e, b + 1) == Listed(e, items[1..])
  {
    var a := SkipWhile(Space, s, e, i);
    var v := JsonGrammar.ParseField(s, e, a);
    var b := SkipWhile(Space, s, e, v.end);
    if Sees(s, e, b, ',') {
      var rest := ParseItems(s, e, b + 1);
      assert items[1..] == rest.list;
      NotEmpty(s, e, b + 1);
    }
  }

  lemma NotEmpty(s: string, e: nat, i: nat)
    requires i <= e <= |s| && ParseItems(s, e, i).Listed?
    ensures ParseItems(s, e, i).list != []
  {
  }

  lemma ObjectItem(s: string, e: nat, item: Item)
    requires item.start < e <= |s| && JsonGrammar.ParseField(s, e, item.start) == Value(item.end, item.size)
    ensures var o := ObjectAt(s, e, item.start);
            (o.Listed? <==> IsObject(s, item)) && (o.Listed? ==> o.end == item.end)
  {
  }

  predicate IsObject(s: string, item: Item) {
    item.start < |s| && s[item.start] == '{'
  }
}
