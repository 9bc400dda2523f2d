/** The JSON reader of rc_api_common.c itself: a cursor moving over a text, and the walks that fill
    arrays from it. */
module JsonReader {
  import opened Wrappers
  import opened JsonGrammar

  datatype Span = Span(start: nat, end: nat)

  /** rc_json_field_t: a name, the span of its value once found, and the entry count of a container. */
  datatype Field = Field(name: string, value: Option<Span>, size: nat)

  /** The field as rc_json_parse_field leaves it: a scalar leaves the entry count alone. */
  function Read(f: Field, item: Item): Field {
    f.(value := Some(Span(item.start, item.end)), size := if item.size.Some? then item.size.value else f.size)
  }

  // ---------------------------------------------------------------- requested fields

  /** The first slot from j on that is still empty and asks for this name; |names| if there is none. */
  function Pick(names: seq<string>, slots: seq<Option<Item>>, name: string, j: nat): (r: nat)
    requires j <= |names| == |slots|
    ensures j <= r <= |names|
    decreases |names| - j
  {
    if j == |names| || (slots[j].None? && names[j] == name) then j else Pick(names, slots, name, j + 1)
  }

  function Put(names: seq<string>, slots: seq<Option<Item>>, m: Member): (r: seq<Option<Item>>)
    requires |names| == |slots|
    ensures |r| == |names|
  {
    var j := Pick(names, slots, m.name, 0);
    if j < |names| then slots[j := Some(m.item)] else slots
  }

  /** What the members put into the requested slots, in order. */
  function Fill(names: seq<string>, ms: seq<Member>): (r: seq<Option<Item>>)
    ensures |r| == |names|
  {
    if ms == [] then seq(|names|, _ => None) else Put(names, Fill(names, ms[..|ms| - 1]), ms[|ms| - 1])
  }

  /** How many of the first k are this name. */
  function Times(ns: seq<string>, k: nat, name: string): nat
    requires k <= |ns|
  {
    if k == 0 then 0 else Times(ns, k - 1, name) + if ns[k - 1] == name then 1 else 0
  }

  /** The place among the first k of this name with n of it in front; k if there is none. */
  function Occurrence(ns: seq<string>, k: nat, name: string, n: nat): (r: nat)
    requires k <= |ns|
    ensures r <= k
  {
    if k == 0 then 0
    else
      var r := Occurrence(ns, k - 1, name, n);
      if r < k - 1 then r else if ns[k - 1] == name && Times(ns, k - 1, name) == n then k - 1 else k
  }

  lemma {:induction false} OccurrenceIs(ns: seq<string>, k: nat, name: string, n: nat)
    requires k <= |ns|
    ensures var r := Occurrence(ns, k, name, n);
            if Times(ns, k, name) > n then r < k && ns[r] == name && Times(ns, r, name) == n else r == k
  {
    if k > 0 {
      OccurrenceIs(ns, k - 1, name, n);
    }
  }

  lemma {:induction false} TimesGrow(ns: seq<string>, i: nat, j: nat, name: string)
    requires i < j <= |ns|
    ensures Times(ns, i, name) + (if ns[i] == name then 1 else 0) <= Times(ns, j, name)
    decreases j
  {
    if i < j - 1 {
      TimesGrow(ns, i, j - 1, name);
    }
  }

  function MemberNames(ms: seq<Member>): (ns: seq<string>)
    ensures |ns| == |ms| && forall k :: 0 <= k < |ms| ==> ns[k] == ms[k].name
  {
    seq(|ms|, k requires 0 <= k < |ms| => ms[k].name)
  }

  /** Among the first k members the one of that name with n others of it in front. */
  function Nth(ms: seq<Member>, k: nat, name: string, n: nat): Option<Item>
    requires k <= |ms|
  {
    var r := Occurrence(MemberNames(ms), k, name, n);
    if r < k then Some(ms[r].item) else None
  }

  lemma {:induction false} PickIs(names: seq<string>, slots: seq<Option<Item>>, name: string, j: nat)
    requires j <= |names| == |slots|
    ensures var r := Pick(names, slots, name, j);
            && (r < |names| ==> slots[r].None? && names[r] == name)
            && forall i :: j <= i < r ==> !(slots[i].None? && names[i] == name)
    decreases |names| - j
  {
    if !(j == |names| || (slots[j].None? && names[j] == name)) {
      PickIs(names, slots, name, j + 1);
    }
  }

  /** A name requested for the n-th time, counting from 0, gets the member with n others of that name in front. */
  lemma {:induction false} FillFindsNth(names: seq<string>, ms: seq<Member>, k: nat)
    requires k <= |ms|
    ensures forall j :: 0 <= j < |names| ==> Fill(names, ms[..k])[j] == Nth(ms, k, names[j], Times(names, j, names[j]))
  {
    if k > 0 {
      FillFindsNth(names, ms, k - 1);
      assert ms[..k][..k - 1] == ms[..k - 1];
      forall j | 0 <= j < |names|
        ensures Fill(names, ms[..k])[j] == Nth(ms, k, names[j], Times(names, j, names[j]))
      {
        PutNth(names, ms, k, j);
      }
    }
  }

  lemma PutNth(names: seq<string>, ms: seq<Member>, k: nat, j: nat)
    requires 0 < k <= |ms| && j < |names|
    requires forall i :: 0 <= i < |names| ==>
               Fill(names, ms[..k - 1])[i] == Nth(ms, k - 1, names[i], Times(names, i, names[i]))
    ensures Put(names, Fill(names, ms[..k - 1]), ms[k - 1])[j] == Nth(ms, k, names[j], Times(names, j, names[j]))
  {
    var slots, name := Fill(names, ms[..k - 1]), ms[k - 1].name;
    if names[j] == name {
      PutNamed(names, ms, k, j, slots);
    } else {
      PickIs(names, slots, name, 0);
    }
  }

  /** The next member of a requested name goes to the request whose turn it is. */
  lemma PutNamed(names: seq<string>, ms: seq<Member>, k: nat, j: nat, slots: seq<Option<Item>>)
    requires 0 < k <= |ms| && j < |names| == |slots| && names[j] == ms[k - 1].name
    requires forall i :: 0 <= i < |names| ==> slots[i] == Nth(ms, k - 1, names[i], Times(names, i, names[i]))
    ensures Put(names, slots, ms[k - 1])[j] == Nth(ms, k, names[j], Times(names, j, names[j]))
  {
    hide Times;
    var name, c := ms[k - 1].name, Times(MemberNames(ms), k - 1, ms[k - 1].name);
    forall i | 0 <= i < |names| && names[i] == name
      ensures slots[i].Some? <==> c > Times(names, i, name)
    {
      OccurrenceIs(MemberNames(ms), k - 1, name, Times(names, i, name));
    }
    PickNext(names, slots, name, c, j);
  }

  lemma PickNext(names: seq<string>, slots: seq<Option<Item>>, name: string, c: nat, j: nat)
    requires |slots| == |names| && j < |names| && names[j] == name
    requires forall i :: 0 <= i < |names| && names[i] == name ==> (slots[i].Some? <==> c > Times(names, i, name))
    ensures Pick(names, slots, name, 0) == j <==> Times(names, j, name) == c
  {
    var p := Pick(names, slots, name, 0);
    PickIs(names, slots, name, 0);
    if Times(names, j, name) == c && p < j {
      TimesGrow(names, p, j, name);
    }
    if Times(names, j, name) > c {
      var i := Occurrence(names, j, name, c);
      OccurrenceIs(names, j, name, c);
      assert slots[i].None? && i < j;
    }
  }

  lemma {:induction false} NoneBefore(ns: seq<string>, k: nat, name: string)
    requires k <= |ns|
    ensures Times(ns, k, name) == 0 <==> forall i :: 0 <= i < k ==> ns[i] != name
  {
    if k > 0 {
      NoneBefore(ns, k - 1, name);
    }
  }

  // ---------------------------------------------------------------- a shorter text that still holds the value

  lemma {:induction false} SkipShrinks(p: char -> bool, s: string, e: nat, i: nat, f: nat)
    requires i <= e <= |s| && SkipWhile(p, s, e, i) <= f <= e
    ensures SkipWhile(p, s, f, i) == SkipWhile(p, s, e, i)
    decreases e - i
  {
    if i < e && p(s[i]) {
      SkipShrinks(p, s, e, i + 1, f);
    }
  }

  lemma {:induction false} QuoteShrinks(s: string, e: nat, i: nat, f: nat)
    requires i <= e <= |s| && CloseQuote(s, e, i).Some? && CloseQuote(s, e, i).value <= f <= e
    ensures CloseQuote(s, f, i) == CloseQuote(s, e, i)
    decreases e - i
  {
    if s[i] != '"' {
      var k := if s[i] == '\\' then i + 1 else i;
      QuoteShrinks(s, e, k + 1, f);
    }
  }

  lemma NumberShrinks(s: string, e: nat, i: nat, f: nat)
    requires i <= e <= |s| && NumberEnd(s, e, i) <= f <= e
    ensures NumberEnd(s, f, i) == NumberEnd(s, e, i)
  {
    SkipShrinks(Digit, s, e, i, f);
    var j := SkipWhile(Digit, s, e, i);
    if Sees(s, e, j, '.') {
      SkipShrinks(Digit, s, e, j + 1, f);
    }
  }

  /** Whatever the reader takes, it takes just so when the text ends right behind it, or anywhere later. */
  lemma {:induction false} FieldShrinks(s: string, e: nat, i: nat, f: nat)
    requires i <= e <= |s| && ParseField(s, e, i).Value? && ParseField(s, e, i).end <= f <= e
    ensures ParseField(s, f, i) == ParseField(s, e, i)
    decreases e - i, 0
  {
    var c := s[i];
    if c == '"' {
      QuoteShrinks(s, e, i + 1, f);
    } else if c == '-' || c == '+' {
      NumberShrinks(s, e, i + 1, f);
    } else if Digit(c) {
      NumberShrinks(s, e, i, f);
    } else if c == '[' {
      ArrayShrinks(s, e, i, f);
    } else if c == '{' {
      ObjectShrinks(s, e, i, f);
    } else {
      SkipShrinks(Alnum, s, e, i, f);
    }
  }

  lemma {:induction false} ArrayShrinks(s: string, e: nat, i: nat, f: nat)
    requires i < e <= |s| && ParseArray(s, e, i).Listed? && ParseArray(s, e, i).end <= f <= e
    ensures i < f && ParseArray(s, f, i) == ParseArray(s, e, i)
    decreases e - i - 1, 2
  {
    if !Sees(s, e, i + 1, ']') {
      ItemsShrink(s, e, i + 1, f);
    }
  }

  lemma {:induction false} ItemsShrink(s: string, e: nat, i: nat, f: nat)
    requires i <= e <= |s| && ParseItems(s, e, i).Listed? && ParseItems(s, e, i).end <= f <= e
    ensures ParseItems(s, f, i) == ParseItems(s, e, i)
    decreases e - i, 1
  {
    var a := SkipWhile(Space, s, e, i);
    var v := ParseField(s, e, a);
    var b := SkipWhile(Space, s, e, v.end);
    SkipShrinks(Space, s, e, i, f);
    FieldShrinks(s, e, a, f);
    SkipShrinks(Space, s, e, v.end, f);
    if Sees(s, e, b, ',') {
      ItemsShrink(s, e, b + 1, f);
      var rest := ParseItems(s, e, b + 1);
      ItemsGoOn(s, f, i, a, v.end, v.size, b, rest.end, rest.list);
    } else {
      ItemsEnd(s, f, i, a, v.end, v.size, b);
    }
  }

  lemma {:induction false} ObjectShrinks(s: string, e: nat, i: nat, f: nat)
    requires i < e <= |s| && ParseObject(s, e, i).Listed? && ParseObject(s, e, i).end <= f <= e
    ensures i < f && ParseObject(s, f, i) == ParseObject(s, e, i)
    decreases e - i - 1, 3
  {
    if !Sees(s, e, i + 1, '}') {
      MembersShrink(s, e, i + 1, f);
    }
  }

  lemma {:induction false} MembersShrink(s: string, e: nat, i: nat, f: nat)
    requires i <= e <= |s| && ParseMembers(s, e, i).Listed? && ParseMembers(s, e, i).end <= f <= e
    ensures ParseMembers(s, f, i) == ParseMembers(s, e, i)
    decreases e - i, 2
  {
    var (m, b) := NextMember(s, e, i).value;
    MemberShrinks(s, e, i, f);
    if Sees(s, e, b, ',') {
      MembersShrink(s, e, b + 1, f);
      var rest := ParseMembers(s, e, b + 1);
      MembersGoOn(s, f, i, m, b, rest.end, rest.list);
    } else {
      MembersEnd(s, f, i, m, b);
    }
  }

  lemma {:induction false} MemberShrinks(s: string, e: nat, i: nat, f: nat)
    requires i <= e <= |s| && NextMember(s, e, i).Some? && NextMember(s, e, i).value.1 <= f <= e
    ensures NextMember(s, f, i) == NextMember(s, e, i)
    decreases e - i, 1
  {
    var c := NameAt(s, e, i).value.1;
    var d := SkipWhile(Space, s, e, c);
    NameShrinks(s, e, i, f);
    SkipShrinks(Space, s, e, c, f);
    FieldShrinks(s, e, d, f);
    SkipShrinks(Space, s, e, ParseField(s, e, d).end, f);
  }

  lemma NameShrinks(s: string, e: nat, i: nat, f: nat)
    requires i <= e <= |s| && NameAt(s, e, i).Some? && NameAt(s, e, i).value.1 <= f <= e
    ensures NameAt(s, f, i) == NameAt(s, e, i)
  {
    var a := SkipWhile(Space, s, e, i);
    var b := SkipWhile(InName, s, e, a + 1);
    SkipShrinks(Space, s, e, i, f);
    SkipShrinks(InName, s, e, a + 1, f);
    SkipShrinks(Space, s, e, b + 1, f);
  }

  // ---------------------------------------------------------------- the cursor

  /** rc_json_iterator_t: a position in a text that counts up to `end` only. */
  class Cursor {
    const text: string
    const end: nat
    var pos: nat                // json

    ghost predicate Valid()
      reads this
    {
      pos <= end <= |text|
    }

    constructor (text: string, pos: nat, end: nat)
      requires pos <= end <= |text|
      ensures Valid() && this.text == text && this.pos == pos && this.end == end
    {
      this.text, this.pos, this.end := text, pos, end;
    }

    method MatchChar(c: char) returns (matched: bool)
      requires Valid()
      modifies this
      ensures Valid() && matched == Sees(text, end, old(pos), c) && pos == old(pos) + if matched then 1 else 0
    {
      matched := pos < end && text[pos] == c;
      if matched {
        pos := pos + 1;
      }
    }

    method SkipSpace()
      requires Valid()
      modifies this
      ensures Valid() && pos == SkipWhile(Space, text, end, old(pos))
    {
      while pos < end && Space(text[pos])
        invariant Valid() && SkipWhile(Space, text, end, pos) == SkipWhile(Space, text, end, old(pos))
      {
        pos := pos + 1;
      }
    }

    method SkipDigits()
      requires Valid()
      modifies this
      ensures Valid() && pos == SkipWhile(Digit, text, end, old(pos))
    {
      while pos < end && '0' <= text[pos] <= '9'
        invariant Valid() && SkipWhile(Digit, text, end, pos) == SkipWhile(Digit, text, end, old(pos))
      {
        pos := pos + 1;
      }
    }

    /** Stops on the closing quote. */
    method FindClosingQuote() returns (found: bool)
      requires Valid()
      modifies this
      ensures Valid() && found == CloseQuote(text, end, old(pos)).Some?
      ensures found ==> pos < end && pos + 1 == CloseQuote(text, end, old(pos)).value
    {
      while pos < end
        invariant Valid() && CloseQuote(text, end, pos) == CloseQuote(text, end, old(pos))
      {
        if text[pos] == '"' {
          return true;
        }
        if text[pos] == '\\' {
          pos := pos + 1;
          if pos == end {
            return false;
          }
        }
        if text[pos] == '\0' {
          return false;
        }
        pos := pos + 1;
      }
      return false;
    }

    /** rc_json_parse_field. */
    method ParseField(field: Field) returns (ok: bool, f: Field)
      requires Valid()
      modifies this
      ensures Valid() && ok == JsonGrammar.ParseField(text, end, old(pos)).Value?
      ensures var r := JsonGrammar.ParseField(text, end, old(pos));
              ok ==> pos == r.end && f == Read(field, Item(old(pos), r.end, r.size))
      decreases end - pos, 1
    {
      f := field;
      if pos >= end {
        return false, f;
      }
      var start := pos;
      var c := text[pos];
      ok := true;
      if c == '"' {
        pos := pos + 1;
        ok := FindClosingQuote();
        if ok {
          pos := pos + 1;
        }
      } else if c == '-' || c == '+' || Digit(c) {
        if !Digit(c) {
          pos := pos + 1;
        }
        ParseNumber();
      } else if c == '[' {
        var size;
        ok, size := ParseArray();
        f := f.(size := size);
      } else if c == '{' {
        var none := new Field[0];
        var size;
        ok, size := ParseObject(none);
        f := f.(size := size);
      } else if Alpha(c) {
        while pos < end && Alnum(text[pos])
          invariant Valid() && SkipWhile(Alnum, text, end, pos) == SkipWhile(Alnum, text, end, start)
        {
          pos := pos + 1;
        }
      } else {
        ok := false;
      }
      f := f.(value := Some(Span(start, pos)));
    }

    method ParseNumber()
      requires Valid()
      modifies this
      ensures Valid() && pos == NumberEnd(text, end, old(pos))
    {
      SkipDigits();
      var dot := MatchChar('.');
      if dot {
        SkipDigits();
      }
    }

    /** rc_json_parse_array. */
    method ParseArray() returns (ok: bool, size: nat)
      requires Valid() && pos < end && text[pos] == '['
      modifies this
      ensures Valid() && ok == JsonGrammar.ParseArray(text, end, old(pos)).Listed?
      ensures var r := JsonGrammar.ParseArray(text, end, old(pos)); ok ==> pos == r.end && size == |r.list|
      decreases end - pos - 1, 5
    {
      size := 0;
      ok := MatchChar('[');
      var empty := MatchChar(']');
      if empty {
        return true, 0;
      }
      ghost var start := pos;
      ghost var done: seq<Item> := [];
      var unused := Field("", None, 0);
      var more := true;
      while more
        invariant Valid() && start <= pos && size == |done|
        invariant ItemsSoFar(text, end, start, done, pos, more)
        decreases end - pos, more
      {
        ok, unused, more, done := NextItem(unused, start, done);
        if !ok {
          return false, size;
        }
        size := size + 1;
      }
      ok := MatchChar(']');
    }

    /** One element and, if there is one, the comma behind it. */
    method NextItem(unused: Field, ghost start: nat, ghost done: seq<Item>)
      returns (ok: bool, f: Field, more: bool, ghost done': seq<Item>)
      requires Valid() && start <= pos && ItemsSoFar(text, end, start, done, pos, true)
      modifies this
      ensures Valid() && (ok ==> old(pos) <= pos && (more ==> old(pos) < pos))
      ensures !ok ==> ParseItems(text, end, start).Malformed?
      ensures ok ==> |done'| == |done| + 1 && ItemsSoFar(text, end, start, done', pos, more)
      decreases end - pos, 2
    {
      SkipSpace();
      ghost var a := pos;
      ok, f := ParseField(unused);
      if !ok {
        return false, f, false, done;
      }
      ghost var item := Item(a, pos, JsonGrammar.ParseField(text, end, a).size);
      SkipSpace();
      more := MatchChar(',');
      ListGrows(done, item);
      done' := done + [item];
    }

    /** rc_json_get_next_field. */
    method NextField(field: Field) returns (ok: bool, f: Field)
      requires Valid()
      modifies this
      ensures Valid() && ok == NextMember(text, end, old(pos)).Some?
      ensures ok ==> var (m, next) := NextMember(text, end, old(pos)).value;
                     pos == next && f == Read(field.(name := m.name), m.item)
      decreases end - pos, 2
    {
      f := field;
      var name;
      ok, name := ReadName();
      if !ok {
        return false, f;
      }
      SkipSpace();
      ok, f := ParseField(f.(name := name));
      if ok {
        SkipSpace();
      }
    }

    /** Up to and including the colon. */
    method ReadName() returns (ok: bool, name: string)
      requires Valid()
      modifies this
      ensures Valid() && ok == NameAt(text, end, old(pos)).Some?
      ensures ok ==> (name, pos) == NameAt(text, end, old(pos)).value
    {
      name := "";
      SkipSpace();
      ok := MatchChar('"');
      if !ok {
        return;
      }
      var start := pos;
      ok := SkipName();
      if !ok {
        return;
      }
      name := text[start..pos];
      pos := pos + 1;
      SkipSpace();
      ok := MatchChar(':');
    }

    /** Stops on the closing quote of a name. */
    method SkipName() returns (ok: bool)
      requires Valid()
      modifies this
      ensures Valid() && old(pos) <= pos && ok == Sees(text, end, SkipWhile(InName, text, end, old(pos)), '"')
      ensures ok ==> pos == SkipWhile(InName, text, end, old(pos))
    {
      while pos < end && text[pos] != '"'
        invariant Valid() && old(pos) <= pos
        invariant SkipWhile(InName, text, end, pos) == SkipWhile(InName, text, end, old(pos))
      {
        if text[pos] == '\0' {
          return false;
        }
        pos := pos + 1;
      }
      ok := pos != end;
    }

    /** rc_json_parse_object; `fields` are the requested ones, none for NULL. */
    method ParseObject(fields: array<Field>) returns (ok: bool, seen: nat)
      requires Valid()
      modifies this, fields
      ensures Valid() && ok == ObjectAt(text, end, old(pos)).Listed?
      ensures ok ==> pos == ObjectAt(text, end, old(pos)).end && seen == |ObjectAt(text, end, old(pos)).list|
      ensures ok ==> Answers(fields[..], Names(old(fields[..])), ObjectAt(text, end, old(pos)).list)
      decreases end - pos, 0
    {
      ghost var names := Names(fields[..]);
      seen := 0;
      ClearFields(fields);
      ok := MatchChar('{');
      if !ok {
        return;
      }
      var empty := MatchChar('}');
      if empty {
        return;
      }
      ok, seen := ReadMembers(fields, names);
    }

    /** The loop of rc_json_parse_object. */
    method ReadMembers(fields: array<Field>, ghost names: seq<string>) returns (ok: bool, seen: nat)
      requires Valid() && Answers(fields[..], names, [])
      modifies this, fields
      ensures Valid() && ok == ParseMembers(text, end, old(pos)).Listed?
      ensures var r := ParseMembers(text, end, old(pos));
              ok ==> pos == r.end && seen == |r.list| && Answers(fields[..], names, r.list)
      decreases end - pos, 4
    {
      seen := 0;
      ghost var start := pos;
      ghost var done: seq<Member> := [];
      var field := Field("", None, 0);
      var more := true;
      while more
        invariant Valid() && start <= pos && seen == |done| && Answers(fields[..], names, done)
        invariant MembersSoFar(text, end, start, done, pos, more)
        decreases end - pos, more
      {
        ghost var m;
        ok, field, more, m := TakeMember(field, start, done);
        if !ok {
          return false, seen;
        }
        Offer(fields, names, done, field, m);
        seen := seen + 1;
        done := done + [m];
      }
      ok := MatchChar('}');
    }

    /** One member and, if there is one, the comma behind it. */
    method TakeMember(field: Field, ghost start: nat, ghost done: seq<Member>)
      returns (ok: bool, f: Field, more: bool, ghost m: Member)
      requires Valid() && start <= pos && MembersSoFar(text, end, start, done, pos, true)
      modifies this
      ensures Valid() && (ok ==> old(pos) <= pos && (more ==> old(pos) < pos))
      ensures !ok ==> ParseMembers(text, end, start).Malformed?
      ensures ok ==> f.name == m.name && Filled(f, Some(m.item))
      ensures ok ==> MembersSoFar(text, end, start, done + [m], pos, more)
      decreases end - pos, 3
    {
      hide NextMember, ParseMembers, MembersSoFar;
      more, m := false, Member("", Item(0, 0, None));
      ghost var next := NextMember(text, end, pos);
      MemberTaken(text, end, start, done, pos);
      ok, f := NextField(field);
      if ok {
        m := next.value.0;
        more := MatchChar(',');
      }
    }

    /** The loop that hands a member to the first requested field it fits. */
    method Offer(fields: array<Field>, ghost names: seq<string>, ghost done: seq<Member>, field: Field, ghost m: Member)
      requires Answers(fields[..], names, done)
      requires field.name == m.name && Filled(field, Some(m.item))
      modifies fields
      ensures Answers(fields[..], names, done + [m])
    {
      assert (done + [m])[..|done|] == done;
      ghost var slots := Fill(names, done);
      var i := 0;
      while i < fields.Length
        invariant 0 <= i <= fields.Length && fields[..] == old(fields[..])
        invariant Pick(names, slots, m.name, i) == Pick(names, slots, m.name, 0)
      {
        assert Filled(fields[..][i], slots[i]) && fields[..][i].name == names[i];
        if fields[i].value.None? && fields[i].name == field.name {
          fields[i] := field.(name := fields[i].name);
          return;
        }
        i := i + 1;
      }
    }

    method ClearFields(fields: array<Field>)
      modifies fields
      ensures Answers(fields[..], Names(old(fields[..])), [])
    {
      for i := 0 to fields.Length
        invariant forall j :: 0 <= j < fields.Length ==> fields[j].name == old(fields[j].name)
        invariant forall j :: 0 <= j < i ==> fields[j].value.None?
      {
        fields[i] := fields[i].(value := None);
      }
    }
  }

  /** rc_json_parse_object fails on anything but an object. */
  function ObjectAt(s: string, e: nat, i: nat): (r: Listing<Member>)
    requires i <= e <= |s|
    ensures r.Listed? ==> i < r.end <= e
  {
    if Sees(s, e, i, '{') then JsonGrammar.ParseObject(s, e, i) else Malformed
  }

  function Names(fields: seq<Field>): (r: seq<string>)
    ensures |r| == |fields|
  {
    seq(|fields|, i requires 0 <= i < |fields| => fields[i].name)
  }

  ghost predicate Filled(f: Field, slot: Option<Item>) {
    match slot
    case None => f.value.None?
    case Some(item) => f.value == Some(Span(item.start, item.end)) && (item.size.Some? ==> f.size == item.size.value)
  }

  /** The requested fields hold what these members put into them. */
  ghost predicate Answers(fields: seq<Field>, names: seq<string>, ms: seq<Member>) {
    && |names| == |fields|
    && forall j :: 0 <= j < |fields| ==> fields[j].name == names[j] && Filled(fields[j], Fill(names, ms)[j])
  }

  lemma ListGrows<T>(done: seq<T>, x: T)
    ensures forall rest: seq<T> :: done + ([x] + rest) == (done + [x]) + rest
  {
  }

  ghost predicate MembersSoFar(s: string, e: nat, start: nat, done: seq<Member>, pos: nat, more: bool)
    requires start <= pos <= e <= |s|
  {
    var all := ParseMembers(s, e, start);
    if more then
      var rest := ParseMembers(s, e, pos);
      if rest.Malformed? then all.Malformed? else all == Listed(rest.end, done + rest.list)
    else if Sees(s, e, pos, '}') then all == Listed(pos + 1, done)
    else all.Malformed?
  }

  /** The member in front of the cursor joins the ones read; without one there is no list. */
  lemma MemberTaken(s: string, e: nat, start: nat, done: seq<Member>, pos: nat)
    requires start <= pos <= e <= |s| && MembersSoFar(s, e, start, done, pos, true)
    ensures var next := NextMember(s, e, pos);
            if next.None? then ParseMembers(s, e, start).Malformed?
            else
              var (m, b) := next.value;
              var more := Sees(s, e, b, ',');
              MembersSoFar(s, e, start, done + [m], if more then b + 1 else b, more)
  {
    var next := NextMember(s, e, pos);
    hide NextMember;
    if next.Some? {
      ListGrows(done, next.value.0);
    }
  }

  /** `done` elements have been read; with `more`, reading goes on at pos, otherwise the list ends there. */
  ghost predicate ItemsSoFar(s: string, e: nat, start: nat, done: seq<Item>, pos: nat, more: bool)
    requires start <= pos <= e <= |s|
  {
    var all := ParseItems(s, e, start);
    if more then
      var rest := ParseItems(s, e, pos);
      if rest.Malformed? then all.Malformed? else all == Listed(rest.end, done + rest.list)
    else if Sees(s, e, pos, ']') then all == Listed(pos + 1, done)
    else all.Malformed?
  }
}
