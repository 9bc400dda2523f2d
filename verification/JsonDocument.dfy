/** JSON documents of RFC 8259 with their layout, their text, and the proof that the reader inverts it. */
module JsonDocument {
  import opened Wrappers
  import opened JsonGrammar

  /** A document with the white space around its entries, as the reader takes it. RFC 8259 has more: exponents,
      white space inside an empty container and an escaped quote in a member name. It has less as well: a plus
      sign, a sign or a point without digits, and words other than true, false and null are none of its values. */
  datatype Doc =
    | Text(body: string)
    | Number(sign: string, whole: string, fraction: Option<string>)
    | Word(letters: string)
    | EmptyArray
    | Array(elements: Elements)
    | EmptyObject
    | Object(members: Members)

  datatype Elements = Last(first: Element) | Then(first: Element, rest: Elements)

  datatype Element = Element(before: string, value: Doc, after: string)

  datatype Members = Final(first: Entry) | And(first: Entry, rest: Members)

  datatype Entry = Entry(before: string, name: string, mid: string, between: string, value: Doc, after: string)

  predicate AllOf(p: char -> bool, t: string) {
    forall k :: 0 <= k < |t| ==> p(t[k])
  }

  /** A string body: every quote, backslash and NUL only behind a backslash, a NUL not even there. */
  predicate Body(t: string) {
    if t == "" then true
    else if t[0] == '\\' then |t| > 1 && t[1] != '\0' && Body(t[2..])
    else t[0] != '"' && t[0] != '\0' && Body(t[1..])
  }

  predicate Valid(d: Doc) {
    match d
    case Text(body) => Body(body)
    case Number(sign, whole, fraction) =>
      && (sign == "" || sign == "-" || sign == "+") && (sign == "" ==> whole != "")
      && AllOf(Digit, whole) && (fraction.Some? ==> AllOf(Digit, fraction.value))
    case Word(letters) => letters != "" && Alpha(letters[0]) && AllOf(Alnum, letters)
    case EmptyArray => true
    case Array(elements) => ValidElements(elements)
    case EmptyObject => true
    case Object(members) => ValidMembers(members)
  }

  predicate ValidElements(l: Elements) {
    && AllOf(Space, l.first.before) && AllOf(Space, l.first.after) && Valid(l.first.value)
    && (l.Then? ==> ValidElements(l.rest))
  }

  predicate ValidMembers(l: Members) {
    && AllOf(Space, l.first.before) && AllOf(Space, l.first.mid) && AllOf(Space, l.first.between) &&
      AllOf(Space, l.first.after)
    && AllOf(InName, l.first.name) && Valid(l.first.value)
    && (l.And? ==> ValidMembers(l.rest))
  }

  // ---------------------------------------------------------------- printing

  function Print(d: Doc): string
    decreases d, 0
  {
    match d
    case Text(body) => "\"" + (body + "\"")
    case Number(sign, whole, fraction) => sign + (whole + Fraction(fraction))
    case Word(letters) => letters
    case EmptyArray => "[]"
    case Array(elements) => "[" + PrintElements(elements)
    case EmptyObject => "{}"
    case Object(members) => "{" + PrintMembers(members)
  }

  function Fraction(fraction: Option<string>): string {
    if fraction.None? then "" else "." + fraction.value
  }

  function PrintElements(l: Elements): string
    decreases l, 1
  {
    Padded(l.first.before, l.first.value, l.first.after, ElementsTail(l))
  }

  function ElementsTail(l: Elements): string
    decreases l, 0
  {
    match l case Last(_) => "]" case Then(_, rest) => "," + PrintElements(rest)
  }

  function PrintMembers(l: Members): string
    decreases l, 1
  {
    PrintEntry(l.first, Padded(l.first.between, l.first.value, l.first.after, MembersTail(l)))
  }

  function PrintEntry(en: Entry, padded: string): (r: string)
    ensures |r| == |en.before| + |en.name| + |en.mid| + |padded| + 3
  {
    en.before + ("\"" + (en.name + ("\"" + (en.mid + (":" + padded)))))
  }

  function MembersTail(l: Members): string
    decreases l, 0
  {
    match l case Final(_) => "}" case And(_, rest) => "," + PrintMembers(rest)
  }

  function ElementList(l: Elements): (r: seq<Element>)
    ensures |r| > 0
  {
    [l.first] + if l.Last? then [] else ElementList(l.rest)
  }

  function EntryList(l: Members): (r: seq<Entry>)
    ensures |r| > 0
  {
    [l.first] + if l.Final? then [] else EntryList(l.rest)
  }

  function SizeOf(d: Doc): Option<nat> {
    match d
    case EmptyArray | EmptyObject => Some(0)
    case Array(elements) => Some(|ElementList(elements)|)
    case Object(members) => Some(|EntryList(members)|)
    case _ => None
  }

  // ---------------------------------------------------------------- text at a position

  predicate At(s: string, i: nat, t: string) {
    i + |t| <= |s| && s[i..i + |t|] == t
  }

  lemma AtFirst(s: string, i: nat, t: string)
    requires At(s, i, t) && t != ""
    ensures s[i] == t[0]
  {
    assert s[i] == s[i..i + |t|][0];
  }

  lemma AtParts(s: string, i: nat, a: string, b: string)
    requires At(s, i, a + b)
    ensures At(s, i, a) && At(s, i + |a|, b)
  {
    var t := a + b;
    assert s[i..i + |a|] == s[i..i + |t|][..|a|] == t[..|a|] == a;
    assert s[i + |a|..i + |t|] == s[i..i + |t|][|a|..] == t[|a|..] == b;
  }

  lemma AtTail(s: string, i: nat, t: string, k: nat)
    requires At(s, i, t) && k <= |t|
    ensures At(s, i + k, t[k..])
  {
    assert t == t[..k] + t[k..];
    AtParts(s, i, t[..k], t[k..]);
  }

  /** Nothing that a number or a word could go on with. */
  predicate Delimited(s: string, e: nat, i: nat)
    requires e <= |s|
  {
    i <= e && (i < e ==> !Alnum(s[i]) && s[i] != '.')
  }

  lemma SkipsText(p: char -> bool, s: string, e: nat, i: nat, t: string)
    requires e <= |s| && At(s, i, t) && i + |t| <= e && AllOf(p, t)
    requires i + |t| < e ==> !p(s[i + |t|])
    ensures SkipWhile(p, s, e, i) == i + |t|
  {
    forall k | i <= k < i + |t| ensures p(s[k]) {
      assert s[k] == s[i..i + |t|][k - i];
    }
    SkipsTo(p, s, e, i, i + |t|);
  }

  // ---------------------------------------------------------------- the reader inverts the text

  lemma {:induction false} QuoteCloses(s: string, e: nat, i: nat, body: string)
    requires e <= |s| && Body(body) && At(s, i, body + "\"") && i + |body| < e
    ensures CloseQuote(s, e, i) == Some(i + |body| + 1)
    decreases |body|
  {
    var t := body + "\"";
    AtFirst(s, i, t);
    if body == "" {
      assert t == "\"" && s[i] == '"';
    } else {
      var k := if body[0] == '\\' then 2 else 1;
      assert t[k..] == body[k..] + "\"";
      AtTail(s, i, t, k);
      if k == 2 {
        assert s[i + 1] == s[i..i + |t|][1];
      }
      QuoteCloses(s, e, i + k, body[k..]);
    }
  }

  lemma NumberReads(s: string, e: nat, i: nat, whole: string, fraction: Option<string>)
    requires e <= |s| && AllOf(Digit, whole) && (fraction.Some? ==> AllOf(Digit, fraction.value))
    requires var t := whole + Fraction(fraction); At(s, i, t) && i + |t| <= e && Delimited(s, e, i + |t|)
    ensures NumberEnd(s, e, i) == i + |whole + Fraction(fraction)|
  {
    hide SkipWhile, AllOf;
    AtParts(s, i, whole, Fraction(fraction));
    if fraction.None? {
      SkipsText(Digit, s, e, i, whole);
    } else {
      AtParts(s, i + |whole|, ".", fraction.value);
      AtFirst(s, i + |whole|, ".");
      SkipsText(Digit, s, e, i, whole);
      SkipsText(Digit, s, e, i + |whole| + 1, fraction.value);
    }
  }

  lemma TextReads(body: string, s: string, e: nat, i: nat)
    requires e <= |s| && Body(body) && At(s, i, "\"" + (body + "\"")) && i + |body| + 2 <= e
    ensures ParseField(s, e, i) == Value(i + |body| + 2, None)
  {
    AtFirst(s, i, "\"" + (body + "\""));
    AtParts(s, i, "\"", body + "\"");
    QuoteCloses(s, e, i + 1, body);
  }

  lemma NumericReads(sign: string, whole: string, fraction: Option<string>, s: string, e: nat, i: nat)
    requires e <= |s| && Valid(Number(sign, whole, fraction))
    requires var t := Print(Number(sign, whole, fraction)); At(s, i, t) && i + |t| <= e && Delimited(s, e, i + |t|)
    ensures ParseField(s, e, i) == Value(i + |Print(Number(sign, whole, fraction))|, None)
  {
    hide ParseField, NumberEnd, SkipWhile, At, Delimited;
    var u := whole + Fraction(fraction);
    AtParts(s, i, sign, u);
    AtFirst(s, i, sign + u);
    assert sign == "" ==> s[i] == whole[0];
    NumberReads(s, e, i + |sign|, whole, fraction);
    if sign == "" {
      FieldOfDigits(s, e, i);
    } else {
      FieldOfSign(s, e, i);
    }
  }

  lemma FieldOfDigits(s: string, e: nat, i: nat)
    requires i < e <= |s| && Digit(s[i])
    ensures ParseField(s, e, i) == Value(NumberEnd(s, e, i), None)
  {
  }

  lemma FieldOfSign(s: string, e: nat, i: nat)
    requires i < e <= |s| && (s[i] == '-' || s[i] == '+')
    ensures ParseField(s, e, i) == Value(NumberEnd(s, e, i + 1), None)
  {
  }

  lemma WordReads(letters: string, s: string, e: nat, i: nat)
    requires e <= |s| && Valid(Word(letters)) && At(s, i, letters) && i + |letters| <= e
    requires Delimited(s, e, i + |letters|)
    ensures ParseField(s, e, i) == Value(i + |letters|, None)
  {
    AtFirst(s, i, letters);
    SkipsText(Alnum, s, e, i, letters);
  }

  /** The item is the exact span of the value's text. */
  predicate IsSpan(item: Item, d: Doc, s: string) {
    item.start <= item.end <= |s| && s[item.start..item.end] == Print(d) && item.size == SizeOf(d)
  }

  lemma SpanAt(d: Doc, s: string, i: nat)
    requires At(s, i, Print(d))
    ensures IsSpan(Item(i, i + |Print(d)|, SizeOf(d)), d, s)
  {
    assert s[i..i + |Print(d)|] == Print(d);
  }

  predicate Stops(tail: string) {
    tail != "" && !Alnum(tail[0]) && tail[0] != '.' && !Space(tail[0])
  }

  /** White space in front of a value. */
  lemma SpaceBefore(before: string, d: Doc, tail: string, s: string, e: nat, i: nat)
    requires e <= |s| && AllOf(Space, before) && Valid(d)
    requires At(s, i, before + (Print(d) + tail)) && i + |before| + |Print(d)| + |tail| <= e
    ensures var j := i + |before|; SkipWhile(Space, s, e, i) == j && At(s, j, Print(d)) && At(s, j + |Print(d)|, tail)
    ensures i < e && s[i] != ']'
  {
    var p := Print(d);
    AtParts(s, i, before, p + tail);
    AtParts(s, i + |before|, p, tail);
    FirstChar(d);
    AtFirst(s, i + |before|, p);
    if before != "" {
      AtFirst(s, i, before);
    }
    SkipsText(Space, s, e, i, before);
  }

  /** White space behind a value. */
  lemma SpaceAfter(after: string, tail: string, s: string, e: nat, j: nat)
    requires e <= |s| && AllOf(Space, after) && Stops(tail)
    requires At(s, j, after + tail) && j + |after| + |tail| <= e
    ensures Delimited(s, e, j) && SkipWhile(Space, s, e, j) == j + |after|
    ensures At(s, j + |after|, tail) && j + |after| < e && s[j + |after|] == tail[0]
  {
    AtParts(s, j, after, tail);
    AtFirst(s, j + |after|, tail);
    if after != "" {
      AtFirst(s, j, after);
    }
    SkipsText(Space, s, e, j, after);
  }

  lemma FirstChar(d: Doc)
    requires Valid(d)
    ensures |Print(d)| > 0 && !Space(Print(d)[0]) && Print(d)[0] != ']'
  {
    if d.Number? && d.sign == "" {
      assert Print(d)[0] == d.whole[0];
    }
  }

  /** The reader takes exactly the printed text of a value and counts its entries. */
  lemma {:induction false} ReaderInvertsPrinter(d: Doc, s: string, e: nat, i: nat)
    requires e <= |s| && Valid(d)
    requires At(s, i, Print(d)) && i + |Print(d)| <= e && Delimited(s, e, i + |Print(d)|)
    ensures ParseField(s, e, i) == Value(i + |Print(d)|, SizeOf(d))
    decreases d, 0
  {
    match d
    case Array(elements) => ArrayReads(elements, s, e, i);
    case Object(members) => ObjectReads(members, s, e, i);
    case EmptyArray => EmptyReads(d, s, e, i);
    case EmptyObject => EmptyReads(d, s, e, i);
    case Text(body) => TextReads(body, s, e, i);
    case Number(sign, whole, fraction) => NumericReads(sign, whole, fraction, s, e, i);
    case Word(letters) => WordReads(letters, s, e, i);
  }

  lemma EmptyReads(d: Doc, s: string, e: nat, i: nat)
    requires e <= |s| && At(s, i, Print(d)) && i + 2 <= e && (d.EmptyArray? || d.EmptyObject?)
    ensures ParseField(s, e, i) == Value(i + 2, Some(0))
  {
    var t := Print(d);
    AtFirst(s, i, t);
    AtTail(s, i, t, 1);
    AtFirst(s, i + 1, t[1..]);
  }

  lemma {:induction false} ArrayReads(l: Elements, s: string, e: nat, i: nat)
    requires e <= |s| && ValidElements(l) && At(s, i, "[" + PrintElements(l)) && i + 1 + |PrintElements(l)| <= e
    ensures ParseField(s, e, i) == Value(i + 1 + |PrintElements(l)|, Some(|ElementList(l)|))
    decreases l, 1
  {
    AtFirst(s, i, "[" + PrintElements(l));
    AtParts(s, i, "[", PrintElements(l));
    var r := ElementsRead(l, s, e, i + 1);
    ItemsCount(r, l, s);
    FieldOfArray(s, e, i, i + 1 + |PrintElements(l)|, r);
  }

  lemma {:induction false} ObjectReads(l: Members, s: string, e: nat, i: nat)
    requires e <= |s| && ValidMembers(l) && At(s, i, "{" + PrintMembers(l)) && i + 1 + |PrintMembers(l)| <= e
    ensures ParseField(s, e, i) == Value(i + 1 + |PrintMembers(l)|, Some(|EntryList(l)|))
    decreases l, 1
  {
    AtFirst(s, i, "{" + PrintMembers(l));
    AtParts(s, i, "{", PrintMembers(l));
    var r := MembersRead(l, s, e, i + 1);
    MembersCount(r, l, s);
    FieldOfObject(s, e, i, i + 1 + |PrintMembers(l)|, r);
  }

  lemma {:induction false} ItemsCount(r: seq<Item>, l: Elements, s: string)
    requires ItemsMatch(r, l, s)
    ensures |r| == |ElementList(l)| && forall k :: 0 <= k < |r| ==> IsSpan(r[k], ElementList(l)[k].value, s)
    decreases l
  {
    if l.Then? {
      ItemsCount(r[1..], l.rest, s);
      forall k | 0 < k < |r| ensures IsSpan(r[k], ElementList(l)[k].value, s) {
        assert r[k] == r[1..][k - 1] && ElementList(l)[k] == ElementList(l.rest)[k - 1];
      }
    }
  }

  lemma {:induction false} MembersCount(r: seq<Member>, l: Members, s: string)
    requires MembersMatch(r, l, s)
    ensures |r| == |EntryList(l)|
    ensures forall k :: 0 <= k < |r| ==>
              r[k].name == EntryList(l)[k].name && IsSpan(r[k].item, EntryList(l)[k].value, s)
    decreases l
  {
    if l.And? {
      MembersCount(r[1..], l.rest, s);
      forall k | 0 < k < |r| ensures r[k].name == EntryList(l)[k].name && IsSpan(r[k].item, EntryList(l)[k].value, s) {
        assert r[k] == r[1..][k - 1] && EntryList(l)[k] == EntryList(l.rest)[k - 1];
      }
    }
  }

  /** The items are the exact spans of the elements. */
  predicate ItemsMatch(r: seq<Item>, l: Elements, s: string) {
    && r != [] && IsSpan(r[0], l.first.value, s)
    && (if l.Last? then |r| == 1 else ItemsMatch(r[1..], l.rest, s))
  }

  predicate MembersMatch(r: seq<Member>, l: Members, s: string) {
    && r != [] && r[0].name == l.first.name && IsSpan(r[0].item, l.first.value, s)
    && (if l.Final? then |r| == 1 else MembersMatch(r[1..], l.rest, s))
  }

  lemma {:induction false} ElementsRead(l: Elements, s: string, e: nat, i: nat) returns (r: seq<Item>)
    requires e <= |s| && ValidElements(l) && At(s, i, PrintElements(l)) && i + |PrintElements(l)| <= e
    ensures i < e && s[i] != ']' && ParseItems(s, e, i) == Listed(i + |PrintElements(l)|, r) && ItemsMatch(r, l, s)
    decreases l, 0
  {
    var el, tail := l.first, ElementsTail(l);
    var item, b := ValueReads(el.before, el.value, el.after, tail, s, e, i);
    r := [item];
    if l.Last? {
      ItemsEnd(s, e, i, item.start, item.end, item.size, b);
    } else {
      var last, more := ElementsAfterComma(l.rest, s, e, b);
      ItemsGoOn(s, e, i, item.start, item.end, item.size, b, last, more);
      r := [item] + more;
      assert r[1..] == more;
    }
  }

  lemma {:induction false} ElementsAfterComma(l: Elements, s: string, e: nat, b: nat) returns (last: nat, r: seq<Item>)
    requires e <= |s| && ValidElements(l) && At(s, b, "," + PrintElements(l)) && b + 1 + |PrintElements(l)| <= e
    ensures b < e && last == b + 1 + |PrintElements(l)| && ParseItems(s, e, b + 1) == Listed(last, r)
    ensures ItemsMatch(r, l, s)
    decreases l, 1
  {
    AtParts(s, b, ",", PrintElements(l));
    last := b + 1 + |PrintElements(l)|;
    r := ElementsRead(l, s, e, b + 1);
  }

  lemma {:induction false} MembersRead(l: Members, s: string, e: nat, i: nat) returns (r: seq<Member>)
    requires e <= |s| && ValidMembers(l) && At(s, i, PrintMembers(l)) && i + |PrintMembers(l)| <= e
    ensures i < e && s[i] != '}' && ParseMembers(s, e, i) == Listed(i + |PrintMembers(l)|, r) && MembersMatch(r, l, s)
    decreases l, 0
  {
    var en, tail := l.first, MembersTail(l);
    var m, b := EntryReads(en, tail, s, e, i);
    r := [m];
    if l.Final? {
      MembersEnd(s, e, i, m, b);
    } else {
      var last, more := MembersAfterComma(l.rest, s, e, b);
      MembersGoOn(s, e, i, m, b, last, more);
      r := [m] + more;
      assert r[1..] == more;
    }
  }

  lemma {:induction false} MembersAfterComma(l: Members, s: string, e: nat, b: nat) returns (last: nat, r: seq<Member>)
    requires e <= |s| && ValidMembers(l) && At(s, b, "," + PrintMembers(l)) && b + 1 + |PrintMembers(l)| <= e
    ensures b < e && last == b + 1 + |PrintMembers(l)| && ParseMembers(s, e, b + 1) == Listed(last, r)
    ensures MembersMatch(r, l, s)
    decreases l, 1
  {
    AtParts(s, b, ",", PrintMembers(l));
    last := b + 1 + |PrintMembers(l)|;
    r := MembersRead(l, s, e, b + 1);
  }

  lemma {:induction false} EntryReads(en: Entry, tail: string, s: string, e: nat, i: nat) returns (m: Member, b: nat)
    requires e <= |s| && Stops(tail) && Valid(en.value)
    requires AllOf(Space, en.before) && AllOf(Space, en.mid) && AllOf(Space, en.between) && AllOf(Space, en.after)
    requires AllOf(InName, en.name)
    requires var t := PrintEntry(en, Padded(en.between, en.value, en.after, tail)); At(s, i, t) && i + |t| <= e
    ensures NextMember(s, e, i) == Some((m, b)) && m.name == en.name && IsSpan(m.item, en.value, s)
    ensures b == i + |PrintEntry(en, Padded(en.between, en.value, en.after, tail))| - |tail|
    ensures i < b < e && At(s, b, tail) && s[b] == tail[0] && s[i] != '}'
    decreases en
  {
    var padded := Padded(en.between, en.value, en.after, tail);
    var k := i + |PrintEntry(en, padded)| - |padded|;
    NameReads(en, padded, s, e, i);
    var item;
    item, b := ValueReads(en.between, en.value, en.after, tail, s, e, k);
    MemberOf(s, e, i, en.name, k, item.start, item.end, item.size);
    m := Member(en.name, item);
  }

  /** White space, a value, white space and what follows it. */
  function Padded(before: string, d: Doc, after: string, tail: string): (r: string)
    ensures |r| == |before| + |Print(d)| + |after| + |tail|
    decreases d, 1
  {
    before + (Print(d) + (after + tail))
  }

  lemma {:induction false} ValueReads(before: string, d: Doc, after: string, tail: string, s: string, e: nat, i: nat)
    returns (item: Item, b: nat)
    requires e <= |s| && Stops(tail) && Valid(d) && AllOf(Space, before) && AllOf(Space, after)
    requires At(s, i, Padded(before, d, after, tail)) && i + |Padded(before, d, after, tail)| <= e
    ensures SkipWhile(Space, s, e, i) == item.start && i <= item.start < item.end <= b < e
    ensures ParseField(s, e, item.start) == Value(item.end, item.size) && SkipWhile(Space, s, e, item.end) == b
    ensures b == i + |Padded(before, d, after, tail)| - |tail| && At(s, b, tail) && s[b] == tail[0]
    ensures IsSpan(item, d, s) && s[i] != ']'
    decreases d, 1
  {
    hide SkipWhile, ParseField, AllOf, Space, Stops, Delimited;
    item := Item(i + |before|, i + |before| + |Print(d)|, SizeOf(d));
    b := item.end + |after|;
    PaddedAt(before, d, after, tail, s, e, i);
    ReaderInvertsPrinter(d, s, e, item.start);
    SpanAt(d, s, item.start);
  }

  lemma PaddedAt(before: string, d: Doc, after: string, tail: string, s: string, e: nat, i: nat)
    requires e <= |s| && Stops(tail) && Valid(d) && AllOf(Space, before) && AllOf(Space, after)
    requires At(s, i, Padded(before, d, after, tail)) && i + |Padded(before, d, after, tail)| <= e
    ensures var j, k := i + |before|, i + |before| + |Print(d)|;
            && SkipWhile(Space, s, e, i) == j && At(s, j, Print(d)) && j < k
            && Delimited(s, e, k) && SkipWhile(Space, s, e, k) == k + |after| < e
            && At(s, k + |after|, tail) && s[k + |after|] == tail[0] && s[i] != ']'
  {
    hide SkipWhile, AllOf, Valid, Delimited, Space, Stops, At;
    SpaceBefore(before, d, after + tail, s, e, i);
    SpaceAfter(after, tail, s, e, i + |before| + |Print(d)|);
    FirstChar(d);
  }

  lemma MemberOf(s: string, e: nat, i: nat, name: string, c: nat, d: nat, end: nat, size: Option<nat>)
    requires i <= c <= e <= |s| && NameAt(s, e, i) == Some((name, c))
    requires SkipWhile(Space, s, e, c) == d && ParseField(s, e, d) == Value(end, size)
    ensures NextMember(s, e, i) == Some((Member(name, Item(d, end, size)), SkipWhile(Space, s, e, end)))
  {
  }

  /** White space, a quoted name, white space and the colon. */
  lemma NameReads(en: Entry, padded: string, s: string, e: nat, i: nat)
    requires e <= |s| && AllOf(Space, en.before) && AllOf(Space, en.mid) && AllOf(InName, en.name)
    requires At(s, i, PrintEntry(en, padded)) && i + |PrintEntry(en, padded)| <= e
    ensures var k := i + |PrintEntry(en, padded)| - |padded|;
            At(s, k, padded) && i < k <= e && NameAt(s, e, i) == Some((en.name, k))
    ensures s[i] != '}'
  {
    NameTextReads(en.before, en.name, en.mid, padded, s, e, i);
  }

  lemma NameTextReads(before: string, name: string, mid: string, padded: string, s: string, e: nat, i: nat)
    requires e <= |s| && AllOf(Space, before) && AllOf(Space, mid) && AllOf(InName, name)
    requires At(s, i, before + ("\"" + (name + ("\"" + (mid + (":" + padded))))))
    requires i + |before| + |name| + |mid| + |padded| + 3 <= e
    ensures var k := i + |before| + |name| + |mid| + 3; At(s, k, padded) && NameAt(s, e, i) == Some((name, k))
    ensures s[i] != '}'
  {
    hide NameAt, AllOf, SkipWhile;
    var a := i + |before|;
    NameOpens(before, name + ("\"" + (mid + (":" + padded))), s, e, i);
    NameEnds(name, mid, padded, s, e, a + 1);
    NamedFrom(s, e, i, a, name, a + 1 + |name|, a + 2 + |name| + |mid|);
  }

  lemma NameOpens(before: string, rest: string, s: string, e: nat, i: nat)
    requires e <= |s| && AllOf(Space, before) && At(s, i, before + ("\"" + rest)) && i + |before| + 1 + |rest| <= e
    ensures var a := i + |before|; SkipWhile(Space, s, e, i) == a && Sees(s, e, a, '"') && At(s, a + 1, rest)
    ensures s[i] != '}'
  {
    AtParts(s, i, before, "\"" + rest);
    AtFirst(s, i + |before|, "\"" + rest);
    AtParts(s, i + |before|, "\"", rest);
    if before != "" {
      AtFirst(s, i, before);
    }
    SkipsText(Space, s, e, i, before);
  }

  lemma NamedFrom(s: string, e: nat, i: nat, a: nat, name: string, b: nat, c: nat)
    requires i <= a < b < c < e <= |s| && SkipWhile(Space, s, e, i) == a && Sees(s, e, a, '"')
    requires SkipWhile(InName, s, e, a + 1) == b && Sees(s, e, b, '"') && s[a + 1..b] == name
    requires SkipWhile(Space, s, e, b + 1) == c && Sees(s, e, c, ':')
    ensures NameAt(s, e, i) == Some((name, c + 1))
  {
  }

  lemma NameEnds(name: string, mid: string, padded: string, s: string, e: nat, i: nat)
    requires e <= |s| && AllOf(Space, mid) && AllOf(InName, name)
    requires var t := name + ("\"" + (mid + (":" + padded))); At(s, i, t) && i + |t| <= e
    ensures var b, c := i + |name|, i + |name| + 1 + |mid|;
            && SkipWhile(InName, s, e, i) == b && Sees(s, e, b, '"') && s[i..b] == name
            && SkipWhile(Space, s, e, b + 1) == c && Sees(s, e, c, ':') && At(s, c + 1, padded)
  {
    hide SkipWhile, AllOf;
    var b, c := i + |name|, i + |name| + 1 + |mid|;
    NameParts(name, mid, padded, s, i);
    SkipsText(InName, s, e, i, name);
    SkipsText(Space, s, e, b + 1, mid);
  }

  lemma NameParts(name: string, mid: string, padded: string, s: string, i: nat)
    requires At(s, i, name + ("\"" + (mid + (":" + padded))))
    ensures At(s, i, name) && s[i + |name|] == '"' && At(s, i + |name| + 1, mid)
    ensures s[i + |name| + 1 + |mid|] == ':' && At(s, i + |name| + 1 + |mid| + 1, padded)
  {
    var colon := ":" + padded;
    var closed := "\"" + (mid + colon);
    var b, c := i + |name|, i + |name| + 1 + |mid|;
    AtParts(s, i, name, closed);
    AtFirst(s, b, closed);
    AtParts(s, b, "\"", mid + colon);
    AtParts(s, b + 1, mid, colon);
    AtFirst(s, c, colon);
    AtParts(s, c, ":", padded);
  }
}
