/** What reading a printed JSON object gives: every requested field holds the exact text of its first
    occurrence. And the layout the reader refuses although RFC 8259 allows it. */
module JsonRoundTrip {
  import opened Wrappers
  import opened JsonGrammar
  import opened JsonDocument
  import opened JsonReader

  function EntryNames(l: seq<Entry>): (ns: seq<string>)
    ensures |ns| == |l| && forall k :: 0 <= k < |l| ==> ns[k] == l[k].name
  {
    seq(|l|, k requires 0 <= k < |l| => l[k].name)
  }

  /** The value of the entry of that name with n others of it in front. */
  function NthEntry(l: seq<Entry>, name: string, n: nat): Option<Doc> {
    var k := Occurrence(EntryNames(l), |l|, name, n);
    if k < |l| then Some(l[k].value) else None
  }

  /** The field holds the exact text of the value, and of a container the number of its entries. */
  ghost predicate Holds(f: Field, found: Option<Doc>, s: string) {
    match found
    case None => f.value.None?
    case Some(d) =>
      && f.value.Some? && f.value.value.start <= f.value.value.end <= |s|
      && s[f.value.value.start..f.value.value.end] == Print(d)
      && (SizeOf(d).Some? ==> f.size == SizeOf(d).value)
  }

  /** Reading a printed object takes exactly its text. A name requested once gets its first occurrence; one
      requested again gets the next. */
  lemma RequestedFieldsFound(l: Members, s: string, e: nat, i: nat, names: seq<string>, fields: seq<Field>)
    requires e <= |s| && ValidMembers(l) && At(s, i, Print(Object(l))) && i + |Print(Object(l))| <= e
    ensures ObjectAt(s, e, i).Listed? && ObjectAt(s, e, i).end == i + |Print(Object(l))|
    ensures Answers(fields, names, ObjectAt(s, e, i).list) ==>
              forall j :: 0 <= j < |names| ==>
                  Holds(fields[j], NthEntry(EntryList(l), names[j], Times(names, j, names[j])), s)
  {
    var t := "{" + PrintMembers(l);
    AtFirst(s, i, t);
    AtParts(s, i, "{", PrintMembers(l));
    var r := MembersRead(l, s, e, i + 1);
    hide MembersMatch, PrintMembers, Answers, Holds;
    if Answers(fields, names, r) {
      AnswersHold(l, r, s, names, fields);
    }
  }

  lemma AnswersHold(l: Members, r: seq<Member>, s: string, names: seq<string>, fields: seq<Field>)
    requires MembersMatch(r, l, s) && Answers(fields, names, r)
    ensures forall j :: 0 <= j < |names| ==>
              Holds(fields[j], NthEntry(EntryList(l), names[j], Times(names, j, names[j])), s)
  {
    MembersCount(r, l, s);
    assert r[..|r|] == r;
    FillFindsNth(names, r, |r|);
    hide MembersMatch, EntryList, Times, Nth, NthEntry, Holds, Filled;
    forall j | 0 <= j < |names|
      ensures Holds(fields[j], NthEntry(EntryList(l), names[j], Times(names, j, names[j])), s)
    {
      NthHolds(r, EntryList(l), s, fields[j], names[j], Times(names, j, names[j]));
    }
  }

  lemma NthHolds(r: seq<Member>, l: seq<Entry>, s: string, f: Field, name: string, n: nat)
    requires |r| == |l| && forall k :: 0 <= k < |r| ==> r[k].name == l[k].name && IsSpan(r[k].item, l[k].value, s)
    requires Filled(f, Nth(r, |r|, name, n))
    ensures Holds(f, NthEntry(l, name, n), s)
  {
    assert MemberNames(r) == EntryNames(l);
  }

  /** A name that is requested once gets the value of its first occurrence. */
  lemma OnlyRequestGetsFirst(l: seq<Entry>, names: seq<string>, j: nat)
    requires j < |names| && forall i :: 0 <= i < j ==> names[i] != names[j]
    ensures var found := NthEntry(l, names[j], Times(names, j, names[j]));
            if found.None? then forall k :: 0 <= k < |l| ==> l[k].name != names[j]
            else exists k ::
                   && 0 <= k < |l| && l[k].name == names[j] && l[k].value == found.value
                   && forall m :: 0 <= m < k ==> l[m].name != names[j]
  {
    var ns := EntryNames(l);
    NoneBefore(names, j, names[j]);
    OccurrenceIs(ns, |l|, names[j], 0);
    NoneBefore(ns, Occurrence(ns, |l|, names[j], 0), names[j]);
    NoneBefore(ns, |l|, names[j]);
  }

  /** A container without entries is taken exactly if there is no white space between its brackets. */
  lemma EmptyOnlyWithoutSpace(open: char, space: string, close: char, s: string, e: nat, i: nat)
    requires e <= |s| && AllOf(Space, space) && At(s, i, [open] + (space + [close])) && i + 2 + |space| <= e
    requires (open == '[' && close == ']') || (open == '{' && close == '}')
    ensures ParseField(s, e, i).Value? && ParseField(s, e, i).end == i + 2 + |space| <==> space == ""
  {
    AtFirst(s, i, [open] + (space + [close]));
    AtParts(s, i, [open], space + [close]);
    AtFirst(s, i + 1, space + [close]);
    if space == "" {
      assert s[i + 1] == close;
    } else {
      SpacesThenClose(space, close, s, e, i + 1);
      if open == '[' {
        SpaceIsNoArray(s, e, i, i + 1 + |space|);
      } else {
        SpaceIsNoObject(s, e, i, i + 1 + |space|);
      }
    }
  }

  lemma SpacesThenClose(space: string, close: char, s: string, e: nat, i: nat)
    requires e <= |s| && AllOf(Space, space) && At(s, i, space + [close]) && i + |space| < e
    requires space != "" && !Space(close)
    ensures s[i + |space|] == close && SkipWhile(Space, s, e, i) == i + |space| && Space(s[i])
  {
    AtParts(s, i, space, [close]);
    AtFirst(s, i + |space|, [close]);
    AtFirst(s, i, space);
    SkipsText(Space, s, e, i, space);
  }

  lemma SpaceIsNoArray(s: string, e: nat, i: nat, c: nat)
    requires i + 1 < c < e <= |s| && s[i] == '[' && s[c] == ']' && SkipWhile(Space, s, e, i + 1) == c && Space(s[i + 1])
    ensures ParseField(s, e, i).Invalid?
  {
    assert ParseField(s, e, c).Invalid?;
    assert ParseItems(s, e, i + 1).Malformed? && ParseArray(s, e, i).Malformed?;
  }

  lemma SpaceIsNoObject(s: string, e: nat, i: nat, c: nat)
    requires i + 1 < c < e <= |s| && s[i] == '{' && s[c] == '}' && SkipWhile(Space, s, e, i + 1) == c && Space(s[i + 1])
    ensures ParseField(s, e, i).Invalid?
  {
    assert NextMember(s, e, i + 1).None?;
    assert ParseMembers(s, e, i + 1).Malformed? && ParseObject(s, e, i).Malformed?;
  }
}
