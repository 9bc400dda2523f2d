/** Unescaping a JSON string into UTF-8: rc_json_get_string of rc_api_common.c. Text and output are
    sequences of bytes. */
module JsonStrings {
  import opened Wrappers
  import opened JsonGrammar
  import opened JsonDocument
  import opened JsonReader

  function Byte(n: int): char
    requires 0 <= n < 256
  {
    n as char
  }

  // ---------------------------------------------------------------- UTF-8

  /** What section 3 of RFC 3629 says a well-formed sequence of 1 to 4 bytes stands for: the bits behind the
      length prefix; -1 for any other sequence, for a longer form than needed and for a surrogate. */
  function CodeOf(b: string): int {
    if |b| == 1 && Lead(b, 0, 0x80) then b[0] as int
    else if |b| == 2 && Lead(b, 0xC0, 0xE0) && Tails(b) then AtLeast(0x80, (b[0] as int - 0xC0) * 64 + Tail(b[1]))
    else if |b| == 3 && Lead(b, 0xE0, 0xF0) && Tails(b) then
      AtLeast(0x800, (b[0] as int - 0xE0) * 4096 + Tail(b[1]) * 64 + Tail(b[2]))
    else if |b| == 4 && Lead(b, 0xF0, 0xF8) && Tails(b) then
      AtLeast(0x10000, (b[0] as int - 0xF0) * 262144 + Tail(b[1]) * 4096 + Tail(b[2]) * 64 + Tail(b[3]))
    else -1
  }

  predicate Lead(b: string, from: int, to: int)
    requires b != ""
  {
    from <= b[0] as int < to
  }

  predicate Tails(b: string) {
    forall k :: 1 <= k < |b| ==> 0x80 <= b[k] as int < 0xC0
  }

  function Tail(c: char): int {
    c as int - 0x80
  }

  function AtLeast(least: int, code: int): int {
    if code < least || code > 0x10FFFF || 0xD800 <= code < 0xE000 then -1 else code
  }

  /** A Unicode scalar value. */
  predicate Scalar(code: int) {
    0 <= code <= 0x10FFFF && !(0xD800 <= code < 0xE000)
  }

  /** The shortest form. */
  function Utf8(code: nat): (b: string)
    requires Scalar(code)
    ensures |b| == if code < 0x80 then 1 else if code < 0x800 then 2 else if code < 0x10000 then 3 else 4
  {
    if code < 0x80 then [Byte(code)]
    else if code < 0x800 then [Byte(0xC0 + code / 64), Byte(0x80 + code % 64)]
    else if code < 0x10000 then [Byte(0xE0 + code / 4096), Byte(0x80 + code / 64 % 64), Byte(0x80 + code % 64)]
    else [Byte(0xF0 + code / 262144), Byte(0x80 + code / 4096 % 64),
          Byte(0x80 + code / 64 % 64), Byte(0x80 + code % 64)]
  }

  lemma Utf8Decodes(code: nat)
    requires Scalar(code)
    ensures CodeOf(Utf8(code)) == code
  {
    SixBits(code);
  }

  lemma SixBits(c: nat)
    ensures c / 64 / 64 == c / 4096 && c / 4096 / 64 == c / 262144
    ensures c == c / 64 * 64 + c % 64 && c / 64 == c / 4096 * 64 + c / 64 % 64
    ensures c / 4096 == c / 262144 * 64 + c / 4096 % 64
  {
  }

  const WORD: nat := 0x1_0000_0000

  /** The same scheme for every 32-bit word, the last two forms being none of UTF-8. */
  function Bytes(code: nat): (b: string)
    requires code < WORD
    ensures 1 <= |b| <= 6 && (code < 0x200000 ==> |b| <= 4)
    ensures Scalar(code) ==> b == Utf8(code)
  {
    if code < 0x80 then [Byte(code)]
    else if code < 0x800 then [Byte(0xC0 + code / 64), Byte(0x80 + code % 64)]
    else if code < 0x10000 then [Byte(0xE0 + code / 4096), Byte(0x80 + code / 64 % 64), Byte(0x80 + code % 64)]
    else if code < 0x200000 then
      [Byte(0xF0 + code / 262144), Byte(0x80 + code / 4096 % 64), Byte(0x80 + code / 64 % 64), Byte(0x80 + code % 64)]
    else if code < 0x4000000 then [Byte(0xF8 + code / 16777216)] + LastFour(code)
    else [Byte(0xFC + code / 1073741824 % 2), Byte(0x80 + code / 16777216 % 64)] + LastFour(code)
  }

  function LastFour(code: nat): (b: string)
    ensures |b| == 4
  {
    [ Byte(0x80 + code / 262144 % 64), Byte(0x80 + code / 4096 % 64),
      Byte(0x80 + code / 64 % 64), Byte(0x80 + code % 64) ]
  }

  /** rc_json_ucs32_to_utf8. */
  method Ucs32ToUtf8(dst: array<char>, at: nat, code: nat) returns (written: nat)
    requires code < WORD && at + |Bytes(code)| <= dst.Length
    modifies dst
    ensures written == |Bytes(code)| && dst[..at + written] == old(dst[..at]) + Bytes(code)
  {
    if code < 0x200000 {
      written := ShortForm(dst, at, code);
    } else {
      written := LongForm(dst, at, code);
    }
  }

  method ShortForm(dst: array<char>, at: nat, code: nat) returns (written: nat)
    requires code < 0x200000 && at + |Bytes(code)| <= dst.Length
    modifies dst
    ensures written == |Bytes(code)| && dst[..at + written] == old(dst[..at]) + Bytes(code)
  {
    var c := code;
    SixBits(c);
    if c < 0x80 {
      dst[at] := Byte(c % 0x80);
      return 1;
    }
    if c < 0x0800 {
      dst[at + 1] := Byte(0x80 + c % 64);
      c := c / 64;
      dst[at] := Byte(0xC0 + c % 32);
      return 2;
    }
    if c < 0x010000 {
      dst[at + 2] := Byte(0x80 + c % 64);
      c := c / 64;
      dst[at + 1] := Byte(0x80 + c % 64);
      c := c / 64;
      dst[at] := Byte(0xE0 + c % 16);
      return 3;
    }
    FourBytes(dst, at, c);
    return 4;
  }

  method FourBytes(dst: array<char>, at: nat, code: nat)
    requires 0x10000 <= code < 0x200000 && at + 4 <= dst.Length
    modifies dst
    ensures dst[..at + 4] == old(dst[..at]) + Bytes(code)
  {
    var c := code;
    SixBits(c);
    dst[at + 3] := Byte(0x80 + c % 64);
    c := c / 64;
    dst[at + 2] := Byte(0x80 + c % 64);
    c := c / 64;
    dst[at + 1] := Byte(0x80 + c % 64);
    c := c / 64;
    dst[at] := Byte(0xF0 + c % 8);
  }

  /** The forms of five and six bytes: the last four first. */
  method LongForm(dst: array<char>, at: nat, code: nat) returns (written: nat)
    requires 0x200000 <= code < WORD && at + |Bytes(code)| <= dst.Length
    modifies dst
    ensures written == |Bytes(code)| && dst[..at + written] == old(dst[..at]) + Bytes(code)
  {
    if code < 0x4000000 {
      FiveBytes(dst, at, code);
      return 5;
    }
    SixBytes(dst, at, code);
    return 6;
  }

  method FiveBytes(dst: array<char>, at: nat, code: nat)
    requires 0x200000 <= code < 0x4000000 && at + 5 <= dst.Length
    modifies dst
    ensures dst[..at + 5] == old(dst[..at]) + ([Byte(0xF8 + code / 16777216)] + LastFour(code))
  {
    hide LastFour;
    var c := FillFour(dst, at + 1, code);
    dst[at] := Byte(0xF8 + c % 4);
    Prefixed(dst[..at + 5], at, [dst[at]], LastFour(code));
  }

  method SixBytes(dst: array<char>, at: nat, code: nat)
    requires 0x4000000 <= code < WORD && at + 6 <= dst.Length
    modifies dst
    ensures dst[..at + 6] == old(dst[..at]) +
              ([Byte(0xFC + code / 1073741824 % 2), Byte(0x80 + code / 16777216 % 64)] + LastFour(code))
  {
    hide LastFour;
    var c := FillFour(dst, at + 2, code);
    dst[at + 1] := Byte(0x80 + c % 64);
    c := c / 64;
    assert c == code / 1073741824;
    dst[at] := Byte(0xFC + c % 2);
    Prefixed(dst[..at + 6], at, [dst[at], dst[at + 1]], LastFour(code));
  }

  lemma Prefixed(s: string, at: nat, front: string, back: string)
    requires at + |front| + |back| == |s| && s[at..at + |front|] == front && s[at + |front|..] == back
    ensures s == s[..at] + (front + back)
  {
  }

  method FillFour(dst: array<char>, at: nat, code: nat) returns (c: nat)
    requires at + 4 <= dst.Length
    modifies dst
    ensures dst[at..at + 4] == LastFour(code) && c == code / 16777216
    ensures dst[..at] == old(dst[..at])
  {
    c := code;
    SixBits(c);
    dst[at + 3] := Byte(0x80 + c % 64);
    c := c / 64;
    dst[at + 2] := Byte(0x80 + c % 64);
    c := c / 64;
    dst[at + 1] := Byte(0x80 + c % 64);
    c := c / 64;
    dst[at] := Byte(0x80 + c % 64);
    c := c / 64;
  }

  /** A code has one well-formed sequence only. */
  lemma CodeDetermines(b: string, d: string)
    requires CodeOf(b) == CodeOf(d) != -1
    ensures b == d
  {
    LengthOf(b);
    LengthOf(d);
    hide AtLeast;
    if |b| == 2 {
      SameDigits(0, 0, b[0] as int, Tail(b[1]), 0, 0, d[0] as int, Tail(d[1]));
    } else if |b| == 3 {
      SameDigits(0, b[0] as int, Tail(b[1]), Tail(b[2]), 0, d[0] as int, Tail(d[1]), Tail(d[2]));
    } else if |b| == 4 {
      SameDigits(b[0] as int, Tail(b[1]), Tail(b[2]), Tail(b[3]), d[0] as int, Tail(d[1]), Tail(d[2]), Tail(d[3]));
    }
    assert forall k :: 0 <= k < |b| ==> b[k] as int == d[k] as int;
    forall k | 0 <= k < |b| ensures b[k] == d[k] {
    }
  }

  lemma LengthOf(b: string)
    requires CodeOf(b) != -1
    ensures |b| == if CodeOf(b) < 0x80 then 1 else if CodeOf(b) < 0x800 then 2 else if CodeOf(b) < 0x10000 then 3 else 4
  {
  }

  /** The value determines the digits of base 64; the leading digit may be any number. */
  lemma SameDigits(x0: int, x1: int, x2: int, x3: int, y0: int, y1: int, y2: int, y3: int)
    requires 0 <= x1 < 64 || x0 == y0 == 0
    requires 0 <= y1 < 64 || x0 == y0 == 0
    requires 0 <= x2 < 64 || x1 == y1 == x0 == y0 == 0
    requires 0 <= y2 < 64 || x1 == y1 == x0 == y0 == 0
    requires 0 <= x3 < 64 && 0 <= y3 < 64
    requires x0 * 262144 + x1 * 4096 + x2 * 64 + x3 == y0 * 262144 + y1 * 4096 + y2 * 64 + y3
    ensures x0 == y0 && x1 == y1 && x2 == y2 && x3 == y3
  {
  }

  // ---------------------------------------------------------------- escapes

  predicate HexDigit(c: char) {
    '0' <= c <= '9' || 'a' <= c <= 'f' || 'A' <= c <= 'F'
  }

  function HexValue(c: char): nat
    requires HexDigit(c)
  {
    if c <= '9' then c as int - '0' as int
    else if c <= 'F' then c as int - 'A' as int + 10
    else c as int - 'a' as int + 10
  }

  predicate Hex4(h: string) {
    |h| == 4 && HexDigit(h[0]) && HexDigit(h[1]) && HexDigit(h[2]) && HexDigit(h[3])
  }

  /** rc_json_decode_hex4. */
  function Value4(h: string): (n: nat)
    requires Hex4(h)
    ensures n < 0x10000
  {
    HexValue(h[0]) * 4096 + HexValue(h[1]) * 256 + HexValue(h[2]) * 16 + HexValue(h[3])
  }

  /** One piece of the inside of a JSON string, section 7 of RFC 8259. */
  datatype Piece = Raw(b: char) | Escape(c: char) | Unicode(h: string)

  predicate ValidPiece(p: Piece) {
    match p
    case Raw(b) => 0x20 <= b as int < 256 && b != '"' && b != '\\'
    case Escape(c) => c in "\"\\/bfnrt"
    case Unicode(h) => Hex4(h)
  }

  function WrittenAs(p: Piece): string {
    match p
    case Raw(b) => [b]
    case Escape(c) => ['\\', c]
    case Unicode(h) => ['\\', 'u'] + h
  }

  predicate High(p: Piece)
    requires ValidPiece(p)
  {
    p.Unicode? && 0xD800 <= Value4(p.h) < 0xDC00
  }

  predicate Low(p: Piece)
    requires ValidPiece(p)
  {
    p.Unicode? && 0xDC00 <= Value4(p.h) < 0xE000
  }

  const REPLACEMENT: nat := 0xFFFD

  /** The bytes a piece stands for by itself: a surrogate by itself is no character. */
  function MeantBy(p: Piece): (b: string)
    requires ValidPiece(p)
    ensures 1 <= |b| <= |WrittenAs(p)| && (High(p) || Low(p) ==> |b| == 3)
  {
    match p
    case Raw(b) => [b]
    case Escape(c) =>
      if c == 'b' then [8 as char] else if c == 'f' then [12 as char] else if c == 'n' then [10 as char]
      else if c == 'r' then [13 as char] else if c == 't' then [9 as char] else [c]
    case Unicode(h) => Utf8(if Scalar(Value4(h)) then Value4(h) else REPLACEMENT)
  }

  /** The code of a pair of surrogates. */
  function Joined(high: Piece, low: Piece): (code: nat)
    requires ValidPiece(high) && ValidPiece(low) && High(high) && Low(low)
    ensures Scalar(code) && code >= 0x10000
  {
    (Value4(high.h) - 0xD800) * 1024 + (Value4(low.h) - 0xDC00) + 0x10000
  }

  ghost predicate AllPieces(ps: seq<Piece>) {
    forall k :: 0 <= k < |ps| ==> ValidPiece(ps[k])
  }

  function WrittenAll(ps: seq<Piece>): string {
    if ps == [] then "" else WrittenAs(ps[0]) + WrittenAll(ps[1..])
  }

  ghost predicate StartsWithPair(ps: seq<Piece>)
    requires AllPieces(ps)
  {
    |ps| > 1 && High(ps[0]) && Low(ps[1])
  }

  /** The bytes a string stands for: a high surrogate and the low one right behind it are one character. */
  ghost function Meaning(ps: seq<Piece>): (b: string)
    requires AllPieces(ps)
  {
    if ps == [] then ""
    else if StartsWithPair(ps) then Utf8(Joined(ps[0], ps[1])) + Meaning(ps[2..])
    else MeantBy(ps[0]) + Meaning(ps[1..])
  }

  // ---------------------------------------------------------------- what rc_json_get_string makes of it

  /** How many pieces one round takes: a high surrogate swallows any \u escape behind it. */
  ghost function Taken(ps: seq<Piece>): (t: nat)
    requires AllPieces(ps) && ps != []
    ensures 1 <= t <= |ps|
  {
    if |ps| > 1 && High(ps[0]) && ps[1].Unicode? then 2 else 1
  }

  /** The bytes one round writes: \b and \f lose their backslash only, and two escapes that are no pair leave one
      replacement character. */
  ghost function FirstDecoded(ps: seq<Piece>): (b: string)
    requires AllPieces(ps) && ps != []
    ensures 1 <= |b| <= |FirstWritten(ps)|
  {
    if StartsWithPair(ps) then Utf8(Joined(ps[0], ps[1]))
    else if ps[0] == Escape('b') || ps[0] == Escape('f') then [ps[0].c]
    else MeantBy(ps[0])
  }

  ghost function FirstWritten(ps: seq<Piece>): string
    requires AllPieces(ps) && ps != []
  {
    WrittenAs(ps[0]) + if Taken(ps) == 2 then WrittenAs(ps[1]) else ""
  }

  ghost function DecodedAll(ps: seq<Piece>): (b: string)
    requires AllPieces(ps)
  {
    if ps == [] then "" else FirstDecoded(ps) + DecodedAll(ps[Taken(ps)..])
  }

  lemma FirstGroup(ps: seq<Piece>)
    requires AllPieces(ps) && ps != []
    ensures WrittenAll(ps) == FirstWritten(ps) + WrittenAll(ps[Taken(ps)..])
  {
    if Taken(ps) == 2 {
      assert ps[1..][1..] == ps[2..];
      assert WrittenAll(ps) == WrittenAs(ps[0]) + (WrittenAs(ps[1]) + WrittenAll(ps[2..]));
    } else {
      assert WrittenAs(ps[0]) + "" == WrittenAs(ps[0]);
    }
  }

  lemma {:induction false} DecodedFits(ps: seq<Piece>)
    requires AllPieces(ps)
    ensures |DecodedAll(ps)| <= |WrittenAll(ps)|
    decreases |ps|
  {
    if ps != [] {
      FirstGroup(ps);
      DecodedFits(ps[Taken(ps)..]);
    }
  }

  /** A high surrogate with a \u escape behind it that is no low one. */
  ghost predicate BrokenPairAt(ps: seq<Piece>, k: nat)
    requires AllPieces(ps)
  {
    k + 1 < |ps| && High(ps[k]) && ps[k + 1].Unicode? && !Low(ps[k + 1])
  }

  ghost predicate BrokenPair(ps: seq<Piece>)
    requires AllPieces(ps)
  {
    exists k: nat :: BrokenPairAt(ps, k)
  }

  /** \b or \f, of which only the letter is written. */
  ghost predicate LettersOnly(ps: seq<Piece>) {
    Escape('b') in ps || Escape('f') in ps
  }

  lemma BrokenPairStep(ps: seq<Piece>)
    requires AllPieces(ps) && ps != []
    ensures BrokenPair(ps) <==> BrokenPairAt(ps, 0) || BrokenPair(ps[Taken(ps)..])
  {
    var t := Taken(ps);
    if k: nat :| BrokenPairAt(ps, k) {
      if k >= t {
        assert BrokenPairAt(ps[t..], k - t);
      }
    }
    if k: nat :| BrokenPairAt(ps[t..], k) {
      assert BrokenPairAt(ps, k + t);
    }
  }

  lemma {:induction false} MeaningGrows(ps: seq<Piece>)
    requires AllPieces(ps) && ps != []
    ensures |Meaning(ps)| > |Meaning(ps[1..])|
  {
    if StartsWithPair(ps) {
      var rest := ps[1..];
      assert !StartsWithPair(rest) && rest[1..] == ps[2..];
      assert Meaning(rest) == MeantBy(rest[0]) + Meaning(rest[1..]);
    }
  }

  /** What is decoded is never longer than what is meant, and shorter exactly if a broken pair swallows an escape. */
  lemma {:induction false} BrokenPairsLose(ps: seq<Piece>)
    requires AllPieces(ps)
    ensures |DecodedAll(ps)| <= |Meaning(ps)|
    ensures |DecodedAll(ps)| < |Meaning(ps)| <==> BrokenPair(ps)
    decreases |ps|
  {
    if ps == [] {
      assert !BrokenPair(ps);
    } else {
      BrokenPairsLose(ps[Taken(ps)..]);
      BrokenPairStep(ps);
      if BrokenPairAt(ps, 0) {
        MeaningGrows(ps[1..]);
        assert ps[1..][1..] == ps[2..];
      }
    }
  }

  /** The bytes that the first piece or pair stands for. */
  ghost function FirstMeant(ps: seq<Piece>): string
    requires AllPieces(ps) && ps != []
  {
    if StartsWithPair(ps) then Utf8(Joined(ps[0], ps[1])) else MeantBy(ps[0])
  }

  lemma FirstsCompared(ps: seq<Piece>)
    requires AllPieces(ps) && ps != []
    ensures |FirstDecoded(ps)| == |FirstMeant(ps)|
    ensures FirstDecoded(ps) == FirstMeant(ps) <==> ps[0] != Escape('b') && ps[0] != Escape('f')
  {
  }

  lemma MeaningFrom(ps: seq<Piece>)
    requires AllPieces(ps) && ps != [] && !BrokenPairAt(ps, 0)
    ensures Meaning(ps) == FirstMeant(ps) + Meaning(ps[Taken(ps)..])
  {
  }

  lemma LettersFrom(ps: seq<Piece>)
    requires AllPieces(ps) && ps != [] && !BrokenPairAt(ps, 0)
    ensures LettersOnly(ps) <==> ps[0] == Escape('b') || ps[0] == Escape('f') || LettersOnly(ps[Taken(ps)..])
  {
    var t := Taken(ps);
    assert ps == ps[..t] + ps[t..];
    assert ps[..t] == if t == 2 then [ps[0], ps[1]] else [ps[0]];
  }

  /** The decoded text is the meant one exactly if no \b and no \f occurs and every \u escape behind a high surrogate
      is a low one. */
  lemma {:induction false} DecodedAsMeantIff(ps: seq<Piece>)
    requires AllPieces(ps)
    ensures DecodedAll(ps) == Meaning(ps) <==> !LettersOnly(ps) && !BrokenPair(ps)
    decreases |ps|
  {
    BrokenPairsLose(ps);
    if ps != [] && !BrokenPair(ps) {
      hide Meaning, LettersOnly, FirstDecoded, FirstMeant, BrokenPair;
      var rest := ps[Taken(ps)..];
      BrokenPairStep(ps);
      DecodedAsMeantIff(rest);
      FirstsCompared(ps);
      MeaningFrom(ps);
      LettersFrom(ps);
      SplitEqual(FirstDecoded(ps), DecodedAll(rest), FirstMeant(ps), Meaning(rest));
    }
  }

  /** \uD800\u0041 decodes to one replacement character, although it means one and an A. */
  lemma BrokenPairSwallowsA()
    ensures var ps := [Unicode("D800"), Unicode("0041")];
            AllPieces(ps) && DecodedAll(ps) == Utf8(REPLACEMENT) && Meaning(ps) == Utf8(REPLACEMENT) + "A"
  {
    var ps := [Unicode("D800"), Unicode("0041")];
    assert ps[1..] == [ps[1]] && ps[2..] == [] && [ps[1]][1..] == [];
    assert Value4("D800") == 0xD800 && Value4("0041") == 0x41;
    assert Meaning([ps[1]]) == Utf8(0x41) + Meaning([]) == "A";
    assert DecodedAll(ps) == Utf8(REPLACEMENT) + DecodedAll([]) == Utf8(REPLACEMENT);
  }

  lemma SplitEqual(a: string, b: string, c: string, d: string)
    requires |a| == |c|
    ensures a + b == c + d <==> a == c && b == d
  {
    if a + b == c + d {
      assert a == (a + b)[..|a|] && c == (c + d)[..|a|];
      assert b == (a + b)[|a|..] && d == (c + d)[|a|..];
    }
  }

  // ---------------------------------------------------------------- rc_json_decode_hex4 on any four characters

  predicate Blank(c: char) {
    c == ' ' || 9 <= c as int <= 13
  }

  function SkipBlanks(s: string): string {
    if s != "" && Blank(s[0]) then SkipBlanks(s[1..]) else s
  }

  function HexRun(s: string, value: nat): nat {
    if s == "" || !HexDigit(s[0]) then value else HexRun(s[1..], value * 16 + HexValue(s[0]))
  }

  /** strtoul with base 16 and 64 bits, cast to 32: blanks, a sign and 0x are skipped, and the digits end at the first
      character that is none; a number too large becomes the largest. */
  function HexCode(h: string): (n: nat)
    ensures n < WORD
  {
    var s := SkipBlanks(h);
    var t := if s != "" && (s[0] == '+' || s[0] == '-') then s[1..] else s;
    var prefixed := |t| > 2 && t[0] == '0' && (t[1] == 'x' || t[1] == 'X') && HexDigit(t[2]);
    var v := HexRun(if prefixed then t[2..] else t, 0);
    if v >= WORD * WORD then WORD - 1 else if s != "" && s[0] == '-' then (WORD - v % WORD) % WORD else v % WORD
  }

  lemma HexRunStep(s: string, value: nat)
    requires s != "" && HexDigit(s[0])
    ensures HexRun(s, value) == HexRun(s[1..], value * 16 + HexValue(s[0]))
  {
  }

  lemma {:induction false} HexRunIs(h: string)
    requires Hex4(h)
    ensures HexRun(h, 0) == Value4(h)
  {
    hide HexRun, HexDigit;
    assert h[1..][1..] == h[2..] && h[2..][1..] == h[3..] && h[3..][1..] == "";
    assert h[1..][0] == h[1] && h[2..][0] == h[2] && h[3..][0] == h[3];
    var v1 := HexValue(h[0]);
    var v2 := v1 * 16 + HexValue(h[1]);
    var v3 := v2 * 16 + HexValue(h[2]);
    HexRunStep(h, 0);
    HexRunStep(h[1..], v1);
    HexRunStep(h[2..], v2);
    HexRunStep(h[3..], v3);
    HexRunEnd(v3 * 16 + HexValue(h[3]));
  }

  lemma HexRunEnd(value: nat)
    ensures HexRun("", value) == value
  {
  }

  lemma HexCodeIs(h: string)
    requires Hex4(h)
    ensures HexCode(h) == Value4(h)
  {
    hide HexRun;
    HexRunIs(h);
  }

  // ---------------------------------------------------------------- rc_json_get_string

  /** One round of the loop: what it writes and where it goes on, a \u escape cut short by the end of the value, or a
      step past the closing quote. */
  datatype Round = Wrote(bytes: string, next: nat) | Incomplete | Past

  /** A quoted value ends here, and the round starts in front of its closing quote. */
  predicate Inside(text: string, i: nat, end: nat) {
    i + 1 < end <= |text| && text[end - 1] == '"'
  }

  /** Another \u escape begins at i. */
  predicate EscapeAt(text: string, i: nat, end: nat)
    requires i < end <= |text| && text[end - 1] == '"'
  {
    text[i] == '\\' && text[i + 1] == 'u'
  }

  function Lasting(text: string, bytes: string, next: nat, end: nat): Round {
    if next < end then Wrote(bytes, next) else Past
  }

  function RoundAt(text: string, i: nat, end: nat): (r: Round)
    requires Inside(text, i, end)
    ensures r.Wrote? ==> i < r.next < end && 1 <= |r.bytes| <= r.next - i
  {
    if text[i] != '\\' then Wrote([text[i]], i + 1)
    else
      match text[i + 1]
      case 'n' => Lasting(text, "\n", i + 2, end)
      case 'r' => Lasting(text, "\r", i + 2, end)
      case 't' => Lasting(text, "\t", i + 2, end)
      case 'u' => if i + 6 >= end then Incomplete else UnicodeAt(text, i, end)
      case c => Lasting(text, [c], i + 2, end)
  }

  function UnicodeAt(text: string, i: nat, end: nat): (r: Round)
    requires i + 6 < end <= |text| && text[end - 1] == '"'
    ensures r.Wrote? ==> i + 6 <= r.next < end && 1 <= |r.bytes| <= 6
  {
    var code := HexCode(text[i + 2..i + 6]);
    if 0xD800 <= code < 0xDC00 && EscapeAt(text, i + 6, end) then
      if i + 12 >= end then Past
      else
        var low := HexCode(text[i + 8..i + 12]);
        Wrote(Bytes(if 0xDC00 <= low < 0xE000 then (code - 0xD800) * 1024 + (low - 0xDC00) + 0x10000 else REPLACEMENT),
              i + 12)
    else Wrote(Bytes(if 0xD800 <= code < 0xE000 then REPLACEMENT else code), i + 6)
  }

  /** What the loop makes of a value from i on. */
  datatype Outcome = Decoded(bytes: string) | CutShort | PastEnd

  function Walk(text: string, i: nat, end: nat): (o: Outcome)
    requires i < end <= |text| && text[end - 1] == '"'
    ensures o.Decoded? ==> |o.bytes| <= end - 1 - i
    decreases end - i
  {
    if text[i] == '"' then Decoded("")
    else
      match RoundAt(text, i, end)
      case Incomplete => CutShort
      case Past => PastEnd
      case Wrote(bytes, next) =>
        var rest := Walk(text, next, end);
        if rest.Decoded? then Decoded(bytes + rest.bytes) else rest
  }

  /** The branch for \uXXXX; i is the position of the backslash. */
  method DecodeUnicode(text: string, i: nat, end: nat, dst: array<char>, n: nat) returns (past: bool, i': nat, n': nat)
    requires i + 6 < end <= |text| && text[end - 1] == '"' && n + 6 <= dst.Length
    modifies dst
    ensures past == UnicodeAt(text, i, end).Past?
    ensures !past ==> i' == UnicodeAt(text, i, end).next && n' == n + |UnicodeAt(text, i, end).bytes|
    ensures !past ==> dst[..n'] == old(dst[..n]) + UnicodeAt(text, i, end).bytes
  {
    hide HexCode, Bytes, Utf8;
    past, i', n' := false, i + 6, n;
    var code := HexCode(text[i + 2..i + 6]);
    if 0xD800 <= code < 0xE000 {
      if code < 0xDC00 && text[i'] == '\\' && text[i' + 1] == 'u' {
        if i + 12 >= end {
          return true, i', n';
        }
        var surrogate := HexCode(text[i' + 2..i' + 6]);
        i' := i' + 6;
        if 0xDC00 <= surrogate < 0xE000 {
          code := (code - 0xD800) * 1024 + (surrogate - 0xDC00) + 0x10000;
        }
      }
      if code < 0x10000 {
        code := 0xFFFD;
      }
    }
    var written := Ucs32ToUtf8(dst, n', code);
    n' := n' + written;
  }

  /** One round of the loop of rc_json_get_string. */
  method DecodeRound(text: string, i: nat, end: nat, dst: array<char>, n: nat)
    returns (incomplete: bool, past: bool, i': nat, n': nat)
    requires Inside(text, i, end) && n + (end - i) <= dst.Length
    modifies dst
    ensures incomplete == RoundAt(text, i, end).Incomplete? && past == RoundAt(text, i, end).Past?
    ensures RoundAt(text, i, end).Wrote? ==>
              && i' == RoundAt(text, i, end).next && n' == n + |RoundAt(text, i, end).bytes|
              && dst[..n'] == old(dst[..n]) + RoundAt(text, i, end).bytes
  {
    incomplete, past, i', n' := false, false, i, n;
    if text[i'] == '\\' {
      i' := i' + 1;
      if text[i'] == 'n' {
        dst[n'] := '\n';
        return false, i' + 1 >= end, i' + 1, n' + 1;
      }
      if text[i'] == 'r' {
        dst[n'] := '\r';
        return false, i' + 1 >= end, i' + 1, n' + 1;
      }
      if text[i'] == 'u' {
        if i' + 5 >= end {
          return true, false, i', n';
        }
        past, i', n' := DecodeUnicode(text, i, end, dst, n);
        return;
      }
      if text[i'] == 't' {
        dst[n'] := '\t';
        return false, i' + 1 >= end, i' + 1, n' + 1;
      }
    }
    dst[n'] := text[i'];
    i', n' := i' + 1, n' + 1;
    past := i' >= end;
  }

  /** The loop, up to its end or to a step past the closing quote: it writes what Walk says, and neither that nor the
      closing NUL passes the len - 1 bytes reserved. */
  method DecodeBody(text: string, start: nat, end: nat) returns (o: Outcome)
    requires start + 2 < end <= |text| && text[end - 1] == '"' && text[start + 1] != '"'
    ensures o == Walk(text, start + 1, end)
  {
    var dst := new char[end - start - 1];
    var i: nat, n: nat := start + 1, 0;
    ghost var all := Walk(text, i, end);
    assert dst[..0] == "";
    while true
      invariant i < end && n + (end - i) <= dst.Length && text[i] != '"'
      invariant all == Behind(dst[..n], Walk(text, i, end))
      decreases end - i
    {
      ghost var before := dst[..n];
      ghost var round := RoundAt(text, i, end);
      ghost var i0 := i;
      var incomplete, past;
      incomplete, past, i, n := DecodeRound(text, i, end, dst, n);
      if incomplete {
        return CutShort;
      }
      if past {
        return PastEnd;
      }
      JoinOn(before, round.bytes, Walk(text, i, end));
      if text[i] == '"' {
        break;
      }
    }
    dst[n] := '\0';
    assert dst[..n] + "" == dst[..n];
    o := Decoded(dst[..n]);
  }

  function Behind(front: string, o: Outcome): Outcome {
    if o.Decoded? then Decoded(front + o.bytes) else o
  }

  lemma JoinOn(a: string, b: string, o: Outcome)
    ensures Behind(a, if o.Decoded? then Decoded(b + o.bytes) else o) == Behind(a + b, o)
  {
    assert o.Decoded? ==> a + (b + o.bytes) == (a + b) + o.bytes;
  }

  datatype Answer = Absent | Null | Str(outcome: Outcome)

  /** rc_json_get_string; a quoted value is one the reader has taken. */
  method GetString(text: string, value: Option<Span>) returns (ok: bool, out: Answer)
    requires value.Some? ==> value.value.start <= value.value.end <= |text|
    requires value.Some? ==> WellQuoted(text[value.value.start..value.value.end])
    ensures value.None? ==> !ok && out == Absent
    ensures value.Some? ==> out == StringOf(text[value.value.start..value.value.end]) && (ok <==> out != Str(CutShort))
    ensures value.Some? ==>
              var t := text[value.value.start..value.value.end];
              && (out == Null <==> t == "null")
              && (t != "null" && (t == "" || t[0] != '"') ==> out == Str(Decoded(t)))
  {
    if value.None? {
      return false, Absent;
    }
    var start, end := value.value.start, value.value.end;
    var len := end - start;
    if len == 0 {
      return true, Str(Decoded(""));
    }
    if len == 4 && text[start..end] == "null" {
      return true, Null;
    }
    assert text[start..end][0] == text[start];
    if text[start] == '"' {
      assert text[start..end][len - 1] == text[end - 1];
      if text[start + 1] == '"' {
        return true, Str(Decoded(""));
      }
      var o := DecodeBody(text, start, end);
      WalkIsLocal(text, start, start + 1, end);
      return o != CutShort, Str(o);
    }
    return true, Str(Decoded(text[start..end]));
  }

  /** The string a value stands for, from its text alone. */
  function StringOf(t: string): (a: Answer)
    requires WellQuoted(t)
    ensures a != Absent && (a.Str? && a.outcome.Decoded? ==> |a.outcome.bytes| <= |t|)
    ensures a.Str? && a.outcome.Decoded? && t != "" && t[0] == '"' ==> |a.outcome.bytes| + 2 <= |t|
  {
    if t == "null" then Null
    else if t != "" && t[0] == '"' then Str(Walk(t, 1, |t|))
    else Str(Decoded(t))
  }

  lemma RoundIsLocal(text: string, a: nat, i: nat, end: nat)
    requires a <= i && Inside(text, i, end)
    ensures Inside(text[a..end], i - a, end - a)
    ensures var r, here := RoundAt(text, i, end), RoundAt(text[a..end], i - a, end - a);
            if r.Wrote? then r.next >= a && here == Wrote(r.bytes, r.next - a) else here == r
  {
    hide HexCode, Bytes;
    var u := text[a..end];
    assert forall k :: i <= k < end ==> u[k - a] == text[k];
    if i + 6 < end {
      assert u[i - a + 2..i - a + 6] == text[i + 2..i + 6];
    }
    if i + 12 < end {
      assert u[i - a + 8..i - a + 12] == text[i + 8..i + 12];
    }
  }

  /** What a value is decoded to does not depend on where it stands. */
  lemma {:induction false} WalkIsLocal(text: string, a: nat, i: nat, end: nat)
    requires a <= i < end <= |text| && text[end - 1] == '"'
    ensures Walk(text, i, end) == Walk(text[a..end], i - a, end - a)
    decreases end - i
  {
    hide RoundAt;
    assert text[a..end][i - a] == text[i] && text[a..end][end - a - 1] == '"';
    if text[i] != '"' {
      RoundIsLocal(text, a, i, end);
      var r := RoundAt(text, i, end);
      if r.Wrote? {
        WalkIsLocal(text, a, r.next, end);
      }
    }
  }

  /** A value that begins with a quote ends with another one. */
  predicate WellQuoted(t: string) {
    t != "" && t[0] == '"' ==> |t| > 1 && t[|t| - 1] == '"'
  }

  // ---------------------------------------------------------------- escapes as they should be

  /** What a \u escape sees: its digits, and behind them another one exactly if the next piece is one. */
  lemma UnicodeText(text: string, i: nat, end: nat, ps: seq<Piece>)
    requires AllPieces(ps) && ps != [] && ps[0].Unicode?
    requires i + |WrittenAll(ps)| + 1 == end <= |text| && At(text, i, WrittenAll(ps)) && text[end - 1] == '"'
    ensures i + 6 < end && text[i + 2..i + 6] == ps[0].h
    ensures |ps| > 1 && ps[1].Unicode? <==> EscapeAt(text, i + 6, end)
    ensures |ps| > 1 && ps[1].Unicode? ==> i + 12 < end && text[i + 8..i + 12] == ps[1].h
  {
    var w, rest := WrittenAs(ps[0]), ps[1..];
    AtParts(text, i, w, WrittenAll(rest));
    AtParts(text, i, ['\\', 'u'], ps[0].h);
    if rest != [] {
      FirstChars(text, i + 6, rest);
      AtParts(text, i + 6, WrittenAs(rest[0]), WrittenAll(rest[1..]));
      if rest[0].Unicode? {
        AtParts(text, i + 6, ['\\', 'u'], rest[0].h);
      }
    }
  }

  lemma FirstChars(text: string, i: nat, ps: seq<Piece>)
    requires AllPieces(ps) && ps != [] && At(text, i, WrittenAll(ps))
    ensures i < |text| && text[i] == WrittenAs(ps[0])[0] && text[i] != '"'
    ensures |WrittenAs(ps[0])| > 1 ==> i + 1 < |text| && text[i + 1] == WrittenAs(ps[0])[1]
  {
    AtParts(text, i, WrittenAs(ps[0]), WrittenAll(ps[1..]));
    AtFirst(text, i, WrittenAs(ps[0]));
    assert |WrittenAs(ps[0])| > 1 ==> text[i + 1] == text[i..i + |WrittenAs(ps[0])|][1];
  }

  lemma PieceRound(text: string, i: nat, end: nat, ps: seq<Piece>)
    requires AllPieces(ps) && ps != []
    requires i + |WrittenAll(ps)| + 1 == end <= |text| && At(text, i, WrittenAll(ps)) && text[end - 1] == '"'
    ensures Inside(text, i, end) && text[i] != '"'
    ensures RoundAt(text, i, end) == Wrote(FirstDecoded(ps), i + |FirstWritten(ps)|)
  {
    hide WrittenAll, Bytes, Utf8, HexCode, Value4, At;
    FirstChars(text, i, ps);
    FirstGroup(ps);
    if ps[0].Unicode? {
      UnicodeRound(text, i, end, ps);
    }
  }

  lemma UnicodeRound(text: string, i: nat, end: nat, ps: seq<Piece>)
    requires AllPieces(ps) && ps != [] && ps[0].Unicode?
    requires i + |WrittenAll(ps)| + 1 == end <= |text| && At(text, i, WrittenAll(ps)) && text[end - 1] == '"'
    ensures i + 6 < end && UnicodeAt(text, i, end) == Wrote(FirstDecoded(ps), i + |FirstWritten(ps)|)
  {
    hide WrittenAll, HexCode, At, UnicodeAt, FirstDecoded, FirstWritten;
    UnicodeText(text, i, end, ps);
    HexCodeIs(ps[0].h);
    if |ps| > 1 && ps[1].Unicode? {
      HexCodeIs(ps[1].h);
      TwoEscapes(text, i, end, ps);
    } else {
      OneEscape(text, i, end, ps);
    }
  }

  lemma OneEscape(text: string, i: nat, end: nat, ps: seq<Piece>)
    requires AllPieces(ps) && ps != [] && ps[0].Unicode? && (|ps| > 1 ==> !ps[1].Unicode?)
    requires i + 6 < end <= |text| && text[end - 1] == '"' && !EscapeAt(text, i + 6, end)
    requires HexCode(text[i + 2..i + 6]) == Value4(ps[0].h)
    ensures UnicodeAt(text, i, end) == Wrote(FirstDecoded(ps), i + |FirstWritten(ps)|)
  {
    hide HexCode, Bytes, Value4, EscapeAt, Utf8;
  }

  lemma TwoEscapes(text: string, i: nat, end: nat, ps: seq<Piece>)
    requires AllPieces(ps) && |ps| > 1 && ps[0].Unicode? && ps[1].Unicode?
    requires i + 12 < end <= |text| && text[end - 1] == '"' && EscapeAt(text, i + 6, end)
    requires HexCode(text[i + 2..i + 6]) == Value4(ps[0].h) && HexCode(text[i + 8..i + 12]) == Value4(ps[1].h)
    ensures UnicodeAt(text, i, end) == Wrote(FirstDecoded(ps), i + |FirstWritten(ps)|)
  {
    hide HexCode, Value4, EscapeAt, Utf8;
  }

  lemma WalkStep(text: string, i: nat, end: nat, bytes: string, next: nat)
    requires Inside(text, i, end) && text[i] != '"' && RoundAt(text, i, end) == Wrote(bytes, next)
    ensures next < end
    ensures Walk(text, next, end).Decoded? ==> Walk(text, i, end) == Decoded(bytes + Walk(text, next, end).bytes)
  {
    hide RoundAt;
  }

  lemma TextBehind(text: string, i: nat, end: nat, ps: seq<Piece>)
    requires AllPieces(ps) && ps != []
    requires i + |WrittenAll(ps)| + 1 == end && At(text, i, WrittenAll(ps))
    ensures AllPieces(ps[Taken(ps)..]) && DecodedAll(ps) == FirstDecoded(ps) + DecodedAll(ps[Taken(ps)..])
    ensures var next := i + |FirstWritten(ps)|;
            next + |WrittenAll(ps[Taken(ps)..])| + 1 == end && At(text, next, WrittenAll(ps[Taken(ps)..]))
  {
    hide At, FirstWritten, FirstDecoded, Taken, WrittenAll;
    FirstGroup(ps);
    AtParts(text, i, FirstWritten(ps), WrittenAll(ps[Taken(ps)..]));
  }

  lemma NoPieces(text: string, i: nat, end: nat, ps: seq<Piece>)
    requires ps == [] && i + |WrittenAll(ps)| + 1 == end <= |text| && text[end - 1] == '"'
    ensures Walk(text, i, end) == Decoded(DecodedAll(ps))
  {
  }

  /** A text of well-formed pieces is walked to its end, and the bytes are theirs. */
  lemma {:induction false} PiecesDecode(text: string, i: nat, end: nat, ps: seq<Piece>)
    requires AllPieces(ps)
    requires i + |WrittenAll(ps)| + 1 == end <= |text| && At(text, i, WrittenAll(ps)) && text[end - 1] == '"'
    ensures Walk(text, i, end) == Decoded(DecodedAll(ps))
    decreases |ps|
  {
    hide *;
    if ps == [] {
      NoPieces(text, i, end, ps);
    } else {
      PieceRound(text, i, end, ps);
      TextBehind(text, i, end, ps);
      WalkStep(text, i, end, FirstDecoded(ps), i + |FirstWritten(ps)|);
      PiecesDecode(text, i + |FirstWritten(ps)|, end, ps[Taken(ps)..]);
    }
  }

  // ---------------------------------------------------------------- past the closing quote

  /** The loop comes to a round at j. */
  predicate ComesTo(text: string, i: nat, end: nat, j: nat)
    requires i < end <= |text| && text[end - 1] == '"'
    decreases end - i
  {
    j == i || (text[i] != '"' && RoundAt(text, i, end).Wrote? && ComesTo(text, RoundAt(text, i, end).next, end, j))
  }

  /** The round at j goes past the closing quote: a backslash right in front of it, or a high surrogate whose second
      escape has less than four characters left. */
  predicate Oversteps(text: string, j: nat, end: nat)
    requires j < end <= |text| && text[end - 1] == '"'
  {
    text[j] == '\\' &&
    (j + 2 == end ||
     (text[j + 1] == 'u' && j + 6 < end <= j + 12 && 0xD800 <= HexCode(text[j + 2..j + 6]) < 0xDC00 &&
      EscapeAt(text, j + 6, end)))
  }

  /** The round at j begins a \u escape that has less than four characters left. */
  predicate EscapeCut(text: string, j: nat, end: nat)
    requires j < end <= |text| && text[end - 1] == '"'
  {
    text[j] == '\\' && text[j + 1] == 'u' && j + 6 >= end
  }

  lemma RoundStops(text: string, i: nat, end: nat)
    requires i < end <= |text| && text[end - 1] == '"' && text[i] != '"'
    ensures RoundAt(text, i, end).Past? <==> Oversteps(text, i, end)
    ensures RoundAt(text, i, end).Incomplete? <==> EscapeCut(text, i, end)
  {
  }

  /** The one round or quote at which the loop stops, of all that it comes to. */
  lemma {:induction false} StopsAt(text: string, i: nat, end: nat) returns (j: nat)
    requires i < end <= |text| && text[end - 1] == '"'
    ensures j < end && ComesTo(text, i, end, j)
    ensures match Walk(text, i, end)
            case Decoded(_) => text[j] == '"'
            case CutShort => EscapeCut(text, j, end)
            case PastEnd => Oversteps(text, j, end)
    ensures forall k: nat :: k < end && ComesTo(text, i, end, k) && k != j ==>
              text[k] != '"' && !EscapeCut(text, k, end) && !Oversteps(text, k, end)
    decreases end - i
  {
    hide RoundAt, Oversteps, EscapeCut;
    j := i;
    if text[i] != '"' {
      RoundStops(text, i, end);
      if RoundAt(text, i, end).Wrote? {
        j := StopsAt(text, RoundAt(text, i, end).next, end);
      }
    }
  }

  /** The loop stays inside the value, and its writes inside the bytes reserved, exactly if no round that it comes to
      oversteps; the value is refused exactly if one of them begins an escape that is cut. */
  lemma PastEndIff(text: string, i: nat, end: nat)
    requires i < end <= |text| && text[end - 1] == '"'
    ensures Walk(text, i, end).PastEnd? <==>
              exists j: nat :: j < end && ComesTo(text, i, end, j) && Oversteps(text, j, end)
    ensures Walk(text, i, end).CutShort? <==>
              exists j: nat :: j < end && ComesTo(text, i, end, j) && EscapeCut(text, j, end)
  {
    hide Walk;
    var j := StopsAt(text, i, end);
  }

  /** The reader takes both values, and the loop goes past their closing quotes. */
  lemma TwoOverstep()
    ensures var pair, shifted := "\"\\uD800\\u\"", "\"\\uabc\\\\\"";
            && CloseQuote(pair, |pair|, 1) == Some(|pair|) && Walk(pair, 1, |pair|) == PastEnd
            && CloseQuote(shifted, |shifted|, 1) == Some(|shifted|) && Walk(shifted, 1, |shifted|) == PastEnd
  {
    PairOversteps();
    ShiftedOversteps();
  }

  lemma PairOversteps()
    ensures var pair := "\"\\uD800\\u\"";
            CloseQuote(pair, |pair|, 1) == Some(|pair|) && Walk(pair, 1, |pair|) == PastEnd
  {
    var s := "\"\\uD800\\u\"";
    assert |s| == 10 && s[3..7] == "D800";
    HexCodeIs("D800");
    assert Oversteps(s, 1, 10);
    RoundStops(s, 1, 10);
    assert CloseQuote(s, 10, 1) == CloseQuote(s, 10, 3) == CloseQuote(s, 10, 4) == CloseQuote(s, 10, 5)
        == CloseQuote(s, 10, 6) == CloseQuote(s, 10, 7) == CloseQuote(s, 10, 9);
  }

  lemma ShiftedOversteps()
    ensures var shifted := "\"\\uabc\\\\\"";
            CloseQuote(shifted, |shifted|, 1) == Some(|shifted|) && Walk(shifted, 1, |shifted|) == PastEnd
  {
    var s := "\"\\uabc\\\\\"";
    assert |s| == 9 && s[3..7] == "abc\\";
    var t := s[3..7];
    assert t[1..] == "bc\\" && t[1..][1..] == "c\\" && t[1..][1..][1..] == "\\";
    assert HexRun(t, 0) == HexRun("bc\\", 10) == HexRun("c\\", 171) == HexRun("\\", 2748) == 2748;
    assert RoundAt(s, 1, 9) == Wrote(Bytes(2748), 7);
    assert Oversteps(s, 7, 9);
    RoundStops(s, 7, 9);
    assert CloseQuote(s, 9, 1) == CloseQuote(s, 9, 3) == CloseQuote(s, 9, 4) == CloseQuote(s, 9, 5)
        == CloseQuote(s, 9, 6) == CloseQuote(s, 9, 8);
  }

  /** The written pieces are a string body the reader takes as a whole. */
  lemma {:induction false} PiecesAreBody(ps: seq<Piece>)
    requires AllPieces(ps)
    ensures Body(WrittenAll(ps))
  {
    if ps != [] {
      PieceIsBody(ps[0]);
      PiecesAreBody(ps[1..]);
      BodyJoins(WrittenAs(ps[0]), WrittenAll(ps[1..]));
    }
  }

  lemma {:induction false} BodyJoins(a: string, b: string)
    requires Body(a) && Body(b)
    ensures Body(a + b)
    decreases |a|
  {
    if a == "" {
      assert a + b == b;
    } else {
      var k := if a[0] == '\\' then 2 else 1;
      assert (a + b)[k..] == a[k..] + b;
      BodyJoins(a[k..], b);
    }
  }

  lemma PieceIsBody(p: Piece)
    requires ValidPiece(p)
    ensures Body(WrittenAs(p))
  {
    match p
    case Raw(b) => assert Body([b][1..]);
    case Escape(c) => assert Body(['\\', c][2..]);
    case Unicode(h) => EscapeIsBody(h);
  }

  lemma EscapeIsBody(h: string)
    requires Hex4(h)
    ensures Body(['\\', 'u'] + h)
  {
    assert (['\\', 'u'] + h)[2..] == h;
    DigitsAreBody(h);
  }

  lemma {:induction false} DigitsAreBody(t: string)
    requires AllOf(HexDigit, t)
    ensures Body(t)
  {
    if t != "" {
      DigitsAreBody(t[1..]);
    }
  }
}
