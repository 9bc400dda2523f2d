/** What the recursive-descent JSON reader of rc_api_common.c accepts, as functions over the text s[..e]. */
module JsonGrammar {
  import opened Wrappers

  // ---------------------------------------------------------------- characters

  predicate Space(c: char) {
    c == ' ' || '\t' <= c <= '\r'
  }

  predicate Digit(c: char) {
    '0' <= c <= '9'
  }

  predicate Alpha(c: char) {
    'a' <= c <= 'z' || 'A' <= c <= 'Z'
  }

  predicate Alnum(c: char) {
    Alpha(c) || Digit(c)
  }

  /** The first position from i on that is e or fails p. */
  function SkipWhile(p: char -> bool, s: string, e: nat, i: nat): (j: nat)
    requires i <= e <= |s|
    ensures i <= j <= e
    decreases e - i
  {
    if i < e && p(s[i]) then SkipWhile(p, s, e, i + 1) else i
  }

  lemma {:induction false} SkipsTo(p: char -> bool, s: string, e: nat, i: nat, j: nat)
    requires i <= j <= e <= |s| && (j < e ==> !p(s[j])) && forall k :: i <= k < j ==> p(s[k])
    ensures SkipWhile(p, s, e, i) == j
    decreases j - i
  {
    if i < j {
      SkipsTo(p, s, e, i + 1, j);
    }
  }

  lemma {:induction false} SkipStops(p: char -> bool, s: string, e: nat, i: nat)
    requires i <= e <= |s|
    ensures var j := SkipWhile(p, s, e, i); (j < e ==> !p(s[j])) && forall k :: i <= k < j ==> p(s[k])
    decreases e - i
  {
    if i < e && p(s[i]) {
      SkipStops(p, s, e, i + 1);
    }
  }

  predicate Sees(s: string, e: nat, i: nat, c: char)
    requires e <= |s|
  {
    i < e && s[i] == c
  }

  // ---------------------------------------------------------------- values

  /** Behind the closing quote of the string whose body starts at i. */
  function CloseQuote(s: string, e: nat, i: nat): (r: Option<nat>)
    requires i <= e <= |s|
    ensures r.Some? ==> i < r.value <= e
    decreases e - i
  {
    if i == e then None
    else if s[i] == '"' then Some(i + 1)
    else
      var k := if s[i] == '\\' then i + 1 else i;
      if k == e || s[k] == '\0' then None else CloseQuote(s, e, k + 1)
  }

  function NumberEnd(s: string, e: nat, i: nat): (j: nat)
    requires i <= e <= |s|
    ensures i <= j <= e
  {
    var j := SkipWhile(Digit, s, e, i);
    if Sees(s, e, j, '.') then SkipWhile(Digit, s, e, j + 1) else j
  }

  /** Where a value ends, and for a container how many entries it has. */
  datatype Parsed = Invalid | Value(end: nat, size: Option<nat>)

  datatype Item = Item(start: nat, end: nat, size: Option<nat>)

  datatype Member = Member(name: string, item: Item)

  /** The entries of a container and the position behind its closing bracket. */
  datatype Listing<T> = Malformed | Listed(end: nat, list: seq<T>)

  function ParseField(s: string, e: nat, i: nat): (r: Parsed)
    requires i <= e <= |s|
    ensures r.Value? ==> i < r.end <= e
    decreases e - i, 0
  {
    if i == e then Invalid
    else
      var c := s[i];
      if c == '"' then
        var q := CloseQuote(s, e, i + 1);
        if q.None? then Invalid else Value(q.value, None)
      else if c == '-' || c == '+' then Value(NumberEnd(s, e, i + 1), None)
      else if Digit(c) then
        assert SkipWhile(Digit, s, e, i) == SkipWhile(Digit, s, e, i + 1);
        Value(NumberEnd(s, e, i), None)
      else if c == '[' then
        var a := ParseArray(s, e, i);
        if a.Malformed? then Invalid else Value(a.end, Some(|a.list|))
      else if c == '{' then
        var o := ParseObject(s, e, i);
        if o.Malformed? then Invalid else Value(o.end, Some(|o.list|))
      else if Alpha(c) then
        assert SkipWhile(Alnum, s, e, i) == SkipWhile(Alnum, s, e, i + 1);
        Value(SkipWhile(Alnum, s, e, i), None)
      else Invalid
  }

  function ParseArray(s: string, e: nat, i: nat): (r: Listing<Item>)
    requires i < e <= |s|
    ensures r.Listed? ==> i < r.end <= e
    decreases e - i - 1, 2
  {
    if Sees(s, e, i + 1, ']') then Listed(i + 2, []) else ParseItems(s, e, i + 1)
  }

  /** Elements up to and including the closing bracket. */
  function ParseItems(s: string, e: nat, i: nat): (r: Listing<Item>)
    requires i <= e <= |s|
    ensures r.Listed? ==> i < r.end <= e
    decreases e - i, 1
  {
    var a := SkipWhile(Space, s, e, i);
    var v := ParseField(s, e, a);
    if v.Invalid? then Malformed
    else
      var b := SkipWhile(Space, s, e, v.end);
      if Sees(s, e, b, ',') then
        var rest := ParseItems(s, e, b + 1);
        if rest.Malformed? then Malformed else Listed(rest.end, [Item(a, v.end, v.size)] + rest.list)
      else if Sees(s, e, b, ']') then Listed(b + 1, [Item(a, v.end, v.size)])
      else Malformed
  }

  predicate InName(c: char) {
    c != '"' && c != '\0'
  }

  /** A quoted name and the position behind its colon. */
  function NameAt(s: string, e: nat, i: nat): (r: Option<(string, nat)>)
    requires i <= e <= |s|
    ensures r.Some? ==> i < r.value.1 <= e
  {
    var a := SkipWhile(Space, s, e, i);
    if !Sees(s, e, a, '"') then None
    else
      var b := SkipWhile(InName, s, e, a + 1);
      if !Sees(s, e, b, '"') then None
      else
        var c := SkipWhile(Space, s, e, b + 1);
        if Sees(s, e, c, ':') then Some((s[a + 1..b], c + 1)) else None
  }

  /** rc_json_get_next_field: one member and where its trailing space ends. */
  function NextMember(s: string, e: nat, i: nat): (r: Option<(Member, nat)>)
    requires i <= e <= |s|
    ensures r.Some? ==> i < r.value.1 <= e
    decreases e - i, 1
  {
    var name := NameAt(s, e, i);
    if name.None? then None
    else
      var d := SkipWhile(Space, s, e, name.value.1);
      var v := ParseField(s, e, d);
      if v.Invalid? then None
      else Some((Member(name.value.0, Item(d, v.end, v.size)), SkipWhile(Space, s, e, v.end)))
  }

  function ParseObject(s: string, e: nat, i: nat): (r: Listing<Member>)
    requires i < e <= |s|
    ensures r.Listed? ==> i < r.end <= e
    decreases e - i - 1, 3
  {
    if Sees(s, e, i + 1, '}') then Listed(i + 2, []) else ParseMembers(s, e, i + 1)
  }

  /** Members up to and including the closing brace. */
  function ParseMembers(s: string, e: nat, i: nat): (r: Listing<Member>)
    requires i <= e <= |s|
    ensures r.Listed? ==> i < r.end <= e
    decreases e - i, 2
  {
    var m := NextMember(s, e, i);
    if m.None? then Malformed
    else
      var b := m.value.1;
      if Sees(s, e, b, ',') then
        var rest := ParseMembers(s, e, b + 1);
        if rest.Malformed? then Malformed else Listed(rest.end, [m.value.0] + rest.list)
      else if Sees(s, e, b, '}') then Listed(b + 1, [m.value.0])
      else Malformed
  }

  // ---------------------------------------------------------------- one step of each rule

  lemma FieldOfArray(s: string, e: nat, i: nat, end: nat, list: seq<Item>)
    requires i < e <= |s| && s[i] == '[' && ParseArray(s, e, i) == Listed(end, list)
    ensures ParseField(s, e, i) == Value(end, Some(|list|))
  {
  }

  lemma FieldOfObject(s: string, e: nat, i: nat, end: nat, list: seq<Member>)
    requires i < e <= |s| && s[i] == '{' && ParseObject(s, e, i) == Listed(end, list)
    ensures ParseField(s, e, i) == Value(end, Some(|list|))
  {
  }

  lemma ItemsEnd(s: string, e: nat, i: nat, a: nat, end: nat, size: Option<nat>, b: nat)
    requires i <= e <= |s| && SkipWhile(Space, s, e, i) == a && ParseField(s, e, a) == Value(end, size)
    requires SkipWhile(Space, s, e, end) == b && Sees(s, e, b, ']')
    ensures ParseItems(s, e, i) == Listed(b + 1, [Item(a, end, size)])
  {
  }

  lemma ItemsGoOn(s: string, e: nat, i: nat, a: nat, end: nat, size: Option<nat>, b: nat, last: nat, rest: seq<Item>)
    requires i <= e <= |s| && SkipWhile(Space, s, e, i) == a && ParseField(s, e, a) == Value(end, size)
    requires SkipWhile(Space, s, e, end) == b && Sees(s, e, b, ',') && ParseItems(s, e, b + 1) == Listed(last, rest)
    ensures ParseItems(s, e, i) == Listed(last, [Item(a, end, size)] + rest)
  {
  }

  lemma MembersEnd(s: string, e: nat, i: nat, m: Member, b: nat)
    requires i <= e <= |s| && NextMember(s, e, i) == Some((m, b)) && Sees(s, e, b, '}')
    ensures ParseMembers(s, e, i) == Listed(b + 1, [m])
  {
  }

  lemma MembersGoOn(s: string, e: nat, i: nat, m: Member, b: nat, last: nat, rest: seq<Member>)
    requires i <= e <= |s| && NextMember(s, e, i) == Some((m, b)) && Sees(s, e, b, ',')
    requires ParseMembers(s, e, b + 1) == Listed(last, rest)
    ensures ParseMembers(s, e, i) == Listed(last, [m] + rest)
  {
  }
}
