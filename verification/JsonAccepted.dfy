/** The JSON reader takes nothing but documents: whatever it accepts is the text of one, with the size it reports. */
module JsonAccepted {
  import opened Wrappers
  import opened JsonGrammar
  import opened JsonDocument

  lemma SkipIsText(p: char -> bool, s: string, e: nat, i: nat)
    requires i <= e <= |s|
    ensures AllOf(p, s[i..SkipWhile(p, s, e, i)])
  {
    SkipStops(p, s, e, i);
  }

  lemma {:induction false} QuotedIsBody(s: string, e: nat, i: nat)
    requires i <= e <= |s| && CloseQuote(s, e, i).Some?
    ensures var q := CloseQuote(s, e, i).value; s[q - 1] == '"' && Body(s[i..q - 1])
    decreases e - i
  {
    var q := CloseQuote(s, e, i).value;
    if s[i] != '"' {
      var k := if s[i] == '\\' then 2 else 1;
      QuotedIsBody(s, e, i + k);
      assert s[i..q - 1][k..] == s[i + k..q - 1];
    }
  }

  lemma TextIsDocument(s: string, e: nat, i: nat) returns (d: Doc)
    requires i < e <= |s| && s[i] == '"' && CloseQuote(s, e, i + 1).Some?
    ensures Valid(d) && Print(d) == s[i..CloseQuote(s, e, i + 1).value] && SizeOf(d).None?
  {
    var q := CloseQuote(s, e, i + 1).value;
    QuotedIsBody(s, e, i + 1);
    d := Text(s[i + 1..q - 1]);
    assert s[i..q] == [s[i]] + (s[i + 1..q - 1] + [s[q - 1]]);
  }

  /** The digits from i on, with a point and further digits or without. */
  lemma NumberIsDocument(s: string, e: nat, i: nat, sign: string) returns (d: Doc)
    requires i <= e <= |s| && (sign == "-" || sign == "+" || (sign == "" && i < e && Digit(s[i])))
    ensures Valid(d) && Print(d) == sign + s[i..NumberEnd(s, e, i)] && SizeOf(d).None?
  {
    var j, end := SkipWhile(Digit, s, e, i), NumberEnd(s, e, i);
    SkipIsText(Digit, s, e, i);
    var fraction := None;
    if Sees(s, e, j, '.') {
      SkipIsText(Digit, s, e, j + 1);
      fraction := Some(s[j + 1..end]);
      assert s[j..end] == "." + s[j + 1..end];
    } else {
      assert s[j..end] == "";
    }
    d := Number(sign, s[i..j], fraction);
    assert s[i..end] == s[i..j] + s[j..end];
  }

  lemma WordIsDocument(s: string, e: nat, i: nat) returns (d: Doc)
    requires i < e <= |s| && Alpha(s[i])
    ensures Valid(d) && Print(d) == s[i..SkipWhile(Alnum, s, e, i)] && SizeOf(d).None?
  {
    SkipIsText(Alnum, s, e, i);
    assert SkipWhile(Alnum, s, e, i) == SkipWhile(Alnum, s, e, i + 1);
    d := Word(s[i..SkipWhile(Alnum, s, e, i)]);
  }

  /** The span that the reader takes is the text of a document of the size that it reports. */
  lemma {:induction false} FieldIsDocument(s: string, e: nat, i: nat) returns (d: Doc)
    requires i <= e <= |s| && ParseField(s, e, i).Value?
    ensures var v := ParseField(s, e, i); Valid(d) && Print(d) == s[i..v.end] && SizeOf(d) == v.size
    decreases e - i, 0
  {
    var c, end := s[i], ParseField(s, e, i).end;
    if c == '"' {
      d := TextIsDocument(s, e, i);
    } else if c == '-' || c == '+' {
      d := NumberIsDocument(s, e, i + 1, [c]);
      assert s[i..end] == [c] + s[i + 1..end];
    } else if Digit(c) {
      d := NumberIsDocument(s, e, i, "");
      assert "" + s[i..end] == s[i..end];
    } else if c == '[' {
      d := ArrayIsDocument(s, e, i);
    } else if c == '{' {
      d := ObjectIsDocument(s, e, i);
    } else {
      d := WordIsDocument(s, e, i);
    }
  }

  lemma {:induction false} ArrayIsDocument(s: string, e: nat, i: nat) returns (d: Doc)
    requires i < e <= |s| && s[i] == '[' && ParseArray(s, e, i).Listed?
    ensures var a := ParseArray(s, e, i); Valid(d) && Print(d) == s[i..a.end] && SizeOf(d) == Some(|a.list|)
    decreases e - i - 1, 2
  {
    if Sees(s, e, i + 1, ']') {
      d := EmptyArray;
      assert s[i..i + 2] == [s[i], s[i + 1]];
    } else {
      var l := ItemsAreDocuments(s, e, i + 1);
      d := Array(l);
      var end := ParseArray(s, e, i).end;
      assert s[i..end] == [s[i]] + s[i + 1..end];
    }
  }

  lemma {:induction false} ObjectIsDocument(s: string, e: nat, i: nat) returns (d: Doc)
    requires i < e <= |s| && s[i] == '{' && ParseObject(s, e, i).Listed?
    ensures var o := ParseObject(s, e, i); Valid(d) && Print(d) == s[i..o.end] && SizeOf(d) == Some(|o.list|)
    decreases e - i - 1, 3
  {
    hide SkipWhile, ParseField, ParseMembers, ParseArray, NameAt;
    if Sees(s, e, i + 1, '}') {
      d := EmptyObject;
      assert s[i..i + 2] == [s[i], s[i + 1]];
    } else {
      var l := MembersAreDocuments(s, e, i + 1);
      d := Object(l);
      var end := ParseObject(s, e, i).end;
      assert s[i..end] == [s[i]] + s[i + 1..end];
    }
  }

  lemma {:induction false} ItemsAreDocuments(s: string, e: nat, i: nat) returns (l: Elements)
    requires i <= e <= |s| && ParseItems(s, e, i).Listed?
    ensures var r := ParseItems(s, e, i);
            ValidElements(l) && PrintElements(l) == s[i..r.end] && |ElementList(l)| == |r.list|
    decreases e - i, 1
  {
    hide SkipWhile, ParseField, ParseArray, ParseObject, CloseQuote, NumberEnd, AllOf, Valid, Print, SizeOf;
    var r := ParseItems(s, e, i);
    var a := SkipWhile(Space, s, e, i);
    var v := ParseField(s, e, a).end;
    var b := SkipWhile(Space, s, e, v);
    SkipIsText(Space, s, e, i);
    SkipIsText(Space, s, e, v);
    var d := FieldIsDocument(s, e, a);
    var el := Element(s[i..a], d, s[v..b]);
    if Sees(s, e, b, ',') {
      var rest := ItemsAreDocuments(s, e, b + 1);
      l := Then(el, rest);
      assert s[b..r.end] == "," + s[b + 1..r.end];
    } else {
      l := Last(el);
      assert s[b..r.end] == "]";
    }
    PaddedSpan(s, i, a, v, b, r.end, d);
  }

  lemma PaddedSpan(s: string, i: nat, a: nat, v: nat, b: nat, end: nat, d: Doc)
    requires i <= a <= v <= b <= end <= |s| && Print(d) == s[a..v]
    ensures Padded(s[i..a], d, s[v..b], s[b..end]) == s[i..end]
  {
    assert s[v..end] == s[v..b] + s[b..end];
    assert s[a..end] == s[a..v] + s[v..end];
  }

  lemma {:induction false} MembersAreDocuments(s: string, e: nat, i: nat) returns (l: Members)
    requires i <= e <= |s| && ParseMembers(s, e, i).Listed?
    ensures var r := ParseMembers(s, e, i);
            ValidMembers(l) && PrintMembers(l) == s[i..r.end] && |EntryList(l)| == |r.list|
    decreases e - i, 2
  {
    hide SkipWhile, ParseField, ParseArray, ParseObject, CloseQuote, NumberEnd, AllOf, Valid, Print, SizeOf, NameAt,
      PrintEntry;
    var r := ParseMembers(s, e, i);
    var (_, c) := NameAt(s, e, i).value;
    var a := SkipWhile(Space, s, e, c);
    var v := ParseField(s, e, a).end;
    var b := SkipWhile(Space, s, e, v);
    SkipIsText(Space, s, e, c);
    SkipIsText(Space, s, e, v);
    var before, name, mid := NameIsText(s, e, i);
    var d := FieldIsDocument(s, e, a);
    var en := Entry(before, name, mid, s[c..a], d, s[v..b]);
    if Sees(s, e, b, ',') {
      var rest := MembersAreDocuments(s, e, b + 1);
      l := And(en, rest);
      assert s[b..r.end] == "," + s[b + 1..r.end];
    } else {
      l := Final(en);
      assert s[b..r.end] == "}";
    }
    PaddedSpan(s, c, a, v, b, r.end, d);
    EntrySpan(s, i, c, r.end, en);
  }

  lemma NameIsText(s: string, e: nat, i: nat) returns (before: string, name: string, mid: string)
    requires i <= e <= |s| && NameAt(s, e, i).Some?
    ensures AllOf(Space, before) && AllOf(InName, name) && AllOf(Space, mid) && name == NameAt(s, e, i).value.0
    ensures s[i..NameAt(s, e, i).value.1] == before + ("\"" + (name + ("\"" + (mid + ":"))))
  {
    hide SkipWhile, AllOf;
    var a := SkipWhile(Space, s, e, i);
    var b := SkipWhile(InName, s, e, a + 1);
    var c := SkipWhile(Space, s, e, b + 1);
    SkipIsText(Space, s, e, i);
    SkipIsText(InName, s, e, a + 1);
    SkipIsText(Space, s, e, b + 1);
    before, name, mid := s[i..a], s[a + 1..b], s[b + 1..c];
    assert s[b + 1..c + 1] == mid + [s[c]];
    assert s[b..c + 1] == [s[b]] + s[b + 1..c + 1];
    assert s[a + 1..c + 1] == name + s[b..c + 1];
    assert s[a..c + 1] == [s[a]] + s[a + 1..c + 1];
    assert s[i..c + 1] == before + s[a..c + 1];
  }

  lemma EntrySpan(s: string, i: nat, c: nat, end: nat, en: Entry)
    requires i <= c <= end <= |s|
    requires s[i..c] == en.before + ("\"" + (en.name + ("\"" + (en.mid + ":"))))
    ensures PrintEntry(en, s[c..end]) == s[i..end]
  {
    assert s[i..end] == s[i..c] + s[c..end];
  }

  /** A value is refused exactly if no document begins there. */
  lemma RefusedIff(s: string, e: nat, i: nat)
    requires i <= e <= |s|
    ensures ParseField(s, e, i).Invalid? <==> !exists d ::
              Valid(d) && At(s, i, Print(d)) && i + |Print(d)| <= e
  {
    if ParseField(s, e, i).Value? {
      var d := FieldIsDocument(s, e, i);
      assert At(s, i, Print(d));
    }
    forall d | Valid(d) && At(s, i, Print(d)) && i + |Print(d)| <= e ensures ParseField(s, e, i).Value? {
      BegunIsTaken(d, s, e, i);
    }
  }

  lemma BegunIsTaken(d: Doc, s: string, e: nat, i: nat)
    requires e <= |s| && Valid(d) && At(s, i, Print(d)) && i + |Print(d)| <= e
    ensures i <= e && ParseField(s, e, i).Value?
  {
    FirstChar(d);
    AtFirst(s, i, Print(d));
    match d
    case Array(elements) => ArrayReads(elements, s, e, i);
    case Object(members) => ObjectReads(members, s, e, i);
    case EmptyArray | EmptyObject => EmptyReads(d, s, e, i);
    case Text(body) => TextReads(body, s, e, i);
    case Number(sign, whole, fraction) => assert sign == "" ==> Print(d)[0] == whole[0];
    case Word(letters) =>
  }

  /** A whole text is taken with a size exactly if it is the text of a document of that size. */
  lemma TakenIff(t: string, size: Option<nat>)
    ensures ParseField(t, |t|, 0) == Value(|t|, size) <==> exists d :: Valid(d) && Print(d) == t && SizeOf(d) == size
  {
    if ParseField(t, |t|, 0) == Value(|t|, size) {
      var d := FieldIsDocument(t, |t|, 0);
      assert t[0..|t|] == t;
    }
    forall d | Valid(d) && Print(d) == t && SizeOf(d) == size ensures ParseField(t, |t|, 0) == Value(|t|, size) {
      ReaderInvertsPrinter(d, t, |t|, 0);
    }
  }
}
