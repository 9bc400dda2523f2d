/** Form bodies, application/x-www-form-urlencoded: how rc_api_common.c writes them, as functions on byte
    strings, and an independent reading that recovers what was written. */
module FormEncoding {

  predicate IsByte(c: char) {
    c as int < 256
  }

  predicate Bytes(s: string) {
    forall k :: 0 <= k < |s| ==> IsByte(s[k])
  }

  /** Bytes that are written as they are. */
  predicate Plain(c: char) {
    'a' <= c <= 'z' || 'A' <= c <= 'Z' || '0' <= c <= '9' || c == '-' || c == '_' || c == '.' || c == '~'
  }

  const HEX: string := "0123456789abcdef"

  function EncodeByte(c: char): (r: string)
    requires IsByte(c)
    ensures |r| == if Plain(c) || c == ' ' then 1 else 3
  {
    if Plain(c) then [c]
    else if c == ' ' then ['+']
    else ['%', HEX[c as int / 16], HEX[c as int % 16]]
  }

  function Encode(s: string): string
    requires Bytes(s)
  {
    if s == "" then "" else EncodeByte(s[0]) + Encode(s[1..])
  }

  lemma {:induction false} EncodeAppend(a: string, b: string)
    requires Bytes(a) && Bytes(b)
    ensures Bytes(a + b) && Encode(a + b) == Encode(a) + Encode(b)
    decreases |a|
  {
    if a == "" {
      assert a + b == b;
    } else {
      assert (a + b)[1..] == a[1..] + b;
      EncodeAppend(a[1..], b);
    }
  }

  lemma {:induction false} PlainEncodes(s: string)
    requires forall k :: 0 <= k < |s| ==> Plain(s[k])
    ensures Bytes(s) && Encode(s) == s
  {
    if s != "" {
      PlainEncodes(s[1..]);
      assert s == [s[0]] + s[1..];
    }
  }

  /** The unreserved characters of section 2.3 of RFC 3986: letters, digits, hyphen, period, underscore and tilde. */
  predicate Unreserved(c: char) {
    var n := c as int;
    0x41 <= n <= 0x5A || 0x61 <= n <= 0x7A || 0x30 <= n <= 0x39 || n == 0x2D || n == 0x2E || n == 0x5F || n == 0x7E
  }

  predicate LowerHex(c: char) {
    '0' <= c <= '9' || 'a' <= c <= 'f'
  }

  /** Each byte is written by itself: an unreserved character as it is, a space as a plus sign and any other byte as
      a percent sign with two lower-case hex digits. */
  lemma EncodedByByte(s: string, k: nat) returns (r: string)
    requires Bytes(s) && k < |s|
    ensures Encode(s) == Encode(s[..k]) + r + Encode(s[k + 1..])
    ensures Unreserved(s[k]) ==> r == [s[k]]
    ensures s[k] == ' ' ==> r == "+"
    ensures s[k] != ' ' && !Unreserved(s[k]) ==>
              && |r| == 3 && r[0] == '%' && LowerHex(r[1]) && LowerHex(r[2])
              && HexValue(r[1]) * 16 + HexValue(r[2]) == s[k] as int
  {
    r := EncodeByte(s[k]);
    ByteForm(s[k]);
    hide EncodeByte, LowerHex, HexValue, Unreserved, Plain;
    var rest := s[k + 1..];
    assert s[k..] == [s[k]] + rest && s == s[..k] + s[k..];
    EncodeAppend(s[..k], s[k..]);
    assert Encode(s[k..]) == r + Encode(rest) by {
      assert s[k..][1..] == rest;
    }
  }

  lemma ByteForm(c: char)
    requires IsByte(c)
    ensures Unreserved(c) ==> EncodeByte(c) == [c]
    ensures c == ' ' ==> EncodeByte(c) == "+"
    ensures c != ' ' && !Unreserved(c) ==>
              && |EncodeByte(c)| == 3
              && EncodeByte(c)[0] == '%' && LowerHex(EncodeByte(c)[1]) && LowerHex(EncodeByte(c)[2])
              && HexValue(EncodeByte(c)[1]) * 16 + HexValue(EncodeByte(c)[2]) == c as int
  {
    HexPair(c as int);
  }

  // ---------------------------------------------------------------- reading

  function HexValue(c: char): (v: int)
    ensures -1 <= v < 16
  {
    if '0' <= c <= '9' then c as int - '0' as int
    else if 'a' <= c <= 'f' then c as int - 'a' as int + 10
    else if 'A' <= c <= 'F' then c as int - 'A' as int + 10
    else -1
  }

  /** Plus is a space, a percent sign and two hex digits are a byte, anything else is itself. */
  function Decode(t: string): string {
    if t == "" then ""
    else if t[0] == '+' then [' '] + Decode(t[1..])
    else if t[0] == '%' && |t| >= 3 && HexValue(t[1]) >= 0 && HexValue(t[2]) >= 0 then
      [(HexValue(t[1]) * 16 + HexValue(t[2])) as char] + Decode(t[3..])
    else [t[0]] + Decode(t[1..])
  }

  lemma {:induction false} DecodeInvertsEncode(s: string)
    requires Bytes(s)
    ensures Decode(Encode(s)) == s
  {
    if s != "" {
      DecodeInvertsEncode(s[1..]);
      DecodeByte(s[0], Encode(s[1..]));
      assert s == [s[0]] + s[1..];
    }
  }

  lemma DecodeByte(c: char, rest: string)
    requires IsByte(c)
    ensures Decode(EncodeByte(c) + rest) == [c] + Decode(rest)
  {
    var b := EncodeByte(c);
    assert (b + rest)[|b|..] == rest;
    if |b| == 3 {
      HexPair(c as int);
    }
  }

  lemma HexPair(n: int)
    requires 0 <= n < 256
    ensures HexValue(HEX[n / 16]) == n / 16 && HexValue(HEX[n % 16]) == n % 16 && n / 16 * 16 + n % 16 == n
    ensures LowerHex(HEX[n / 16]) && LowerHex(HEX[n % 16])
  {
    HexDigit(n / 16);
    HexDigit(n % 16);
  }

  lemma HexDigit(d: int)
    requires 0 <= d < 16
    ensures HexValue(HEX[d]) == d && LowerHex(HEX[d])
  {
    assert HEX == ['0', '1', '2', '3', '4', '5', '6', '7', '8', '9', 'a', 'b', 'c', 'd', 'e', 'f'];
  }

  /** The first c from i on; |t| if there is none. */
  function Find(t: string, c: char, i: nat): (j: nat)
    requires i <= |t|
    ensures i <= j <= |t|
    decreases |t| - i
  {
    if i == |t| || t[i] == c then i else Find(t, c, i + 1)
  }

  lemma {:induction false} FindsAt(t: string, c: char, i: nat, j: nat)
    requires i <= j <= |t| && (j < |t| ==> t[j] == c) && forall k :: i <= k < j ==> t[k] != c
    ensures Find(t, c, i) == j
    decreases j - i
  {
    if i < j {
      FindsAt(t, c, i + 1, j);
    }
  }

  lemma Regroup(a: string, b: string, c: string)
    ensures (a + b) + c == a + (b + c)
  {
  }

  /** A text, a separator that does not occur in it, and the rest. */
  lemma SplitsAt(f: string, c: char, sep: string, rest: string)
    requires Free(f, c) && |sep| == 1 && sep[0] == c
    ensures var t := f + (sep + rest); |f| < |t| && Find(t, c, 0) == |f| && t[..|f|] == f && t[|f| + 1..] == rest
  {
    var t := f + (sep + rest);
    assert forall k :: 0 <= k < |f| ==> t[k] == f[k];
    FindsAt(t, c, 0, |f|);
  }

  datatype Param = Param(name: string, value: string)

  function ParseField(t: string): Param {
    var e := Find(t, '=', 0);
    Param(t[..e], if e == |t| then "" else Decode(t[e + 1..]))
  }

  /** Split on '&', each part on its first '='. */
  function ParseForm(t: string): seq<Param> {
    if t == "" then []
    else
      var a := Find(t, '&', 0);
      [ParseField(t[..a])] + if a == |t| then [] else ParseForm(t[a + 1..])
  }

  // ---------------------------------------------------------------- writing

  function FieldText(p: Param): string
    requires Bytes(p.value)
  {
    p.name + ("=" + Encode(p.value))
  }

  predicate Writable(ps: seq<Param>) {
    forall k :: 0 <= k < |ps| ==> Bytes(ps[k].value)
  }

  function FormText(ps: seq<Param>): string
    requires Writable(ps)
  {
    if ps == [] then ""
    else FieldText(ps[0]) + if |ps| == 1 then "" else ("&" + FormText(ps[1..]))
  }

  lemma {:induction false} FormTextAppend(ps: seq<Param>, p: Param)
    requires Writable(ps) && Bytes(p.value)
    ensures Writable(ps + [p])
    ensures FormText(ps + [p]) == FormText(ps) + (if ps == [] then "" else "&") + FieldText(p)
  {
    var all := ps + [p];
    assert forall k :: 0 <= k < |all| ==> Bytes(all[k].value);
    if ps == [] {
      assert all == [p];
    } else {
      assert all[1..] == ps[1..] + [p];
      FormTextAppend(ps[1..], p);
    }
  }

  /** Names the reading can tell apart from what surrounds them. */
  predicate ProperName(s: string) {
    forall k :: 0 <= k < |s| ==> s[k] != '&' && s[k] != '='
  }

  predicate Proper(ps: seq<Param>) {
    forall k :: 0 <= k < |ps| ==> ProperName(ps[k].name)
  }

  predicate Free(t: string, c: char) {
    forall k :: 0 <= k < |t| ==> t[k] != c
  }

  lemma {:induction false} EncodedIsFree(s: string, c: char)
    requires Bytes(s) && !Plain(c) && c != '+' && c != '%'
    ensures Free(Encode(s), c)
  {
    if s != "" {
      EncodedIsFree(s[1..], c);
      assert HEX == ['0', '1', '2', '3', '4', '5', '6', '7', '8', '9', 'a', 'b', 'c', 'd', 'e', 'f'];
      assert Free(EncodeByte(s[0]), c);
    }
  }

  lemma FieldReads(p: Param)
    requires Bytes(p.value) && ProperName(p.name)
    ensures ParseField(FieldText(p)) == p && Free(FieldText(p), '&')
  {
    EncodedIsFree(p.value, '&');
    SplitsAt(p.name, '=', "=", Encode(p.value));
    DecodeInvertsEncode(p.value);
  }

  /** Reading a form body gives back the parameters, in order. */
  lemma {:induction false} ParseInvertsForm(ps: seq<Param>)
    requires Writable(ps) && Proper(ps)
    ensures ParseForm(FormText(ps)) == ps
  {
    if |ps| == 0 {
      assert FormText(ps) == "" && ParseForm("") == [];
    } else {
      var f, rest := FieldText(ps[0]), FormText(ps[1..]);
      FieldReads(ps[0]);
      FieldsSplit(f, rest);
      if |ps| == 1 {
        assert FormText(ps) == f + "" == f;
        assert ps == [ps[0]];
      } else {
        ParseInvertsForm(ps[1..]);
        assert FormText(ps) == f + ("&" + rest);
        assert ps == [ps[0]] + ps[1..];
      }
    }
  }

  lemma FieldsSplit(f: string, rest: string)
    requires Free(f, '&') && f != ""
    ensures ParseForm(f) == [ParseField(f)] && ParseForm(f + ("&" + rest)) == [ParseField(f)] + ParseForm(rest)
  {
    FindsAt(f, '&', 0, |f|);
    assert f[..|f|] == f;
    Ampersand(f, rest);
  }

  lemma Ampersand(f: string, rest: string)
    requires Free(f, '&')
    ensures ParseForm(f + ("&" + rest)) == [ParseField(f)] + ParseForm(rest)
  {
    SplitsAt(f, '&', "&", rest);
  }

  /** A form body goes on behind an ampersand. */
  lemma {:induction false} FormGoesOn(ps: seq<Param>, n: string)
    requires Writable(ps) && Proper(ps) && ps != []
    ensures ParseForm(FormText(ps) + ("&" + n)) == ps + ParseForm(n)
  {
    FieldReads(ps[0]);
    if |ps| == 1 {
      Ampersand(FieldText(ps[0]), n);
      assert FormText(ps) == FieldText(ps[0]) && ps == [ps[0]];
    } else {
      FormGoesOn(ps[1..], n);
      FieldGoesOn(ps[0], FieldText(ps[0]), FormText(ps[1..]), n, ps[1..]);
      assert ps == [ps[0]] + ps[1..];
    }
  }

  lemma FieldGoesOn(p: Param, f: string, rest: string, n: string, ps: seq<Param>)
    requires Free(f, '&') && ParseField(f) == p && ParseForm(rest + ("&" + n)) == ps + ParseForm(n)
    ensures ParseForm((f + ("&" + rest)) + ("&" + n)) == ([p] + ps) + ParseForm(n)
  {
    var tail := "&" + n;
    Regroup(f, "&" + rest, tail);
    Regroup("&", rest, tail);
    Ampersand(f, rest + tail);
    assert ([p] + ps) + ParseForm(n) == [p] + (ps + ParseForm(n));
  }

  // ---------------------------------------------------------------- numbers

  /** The decimal digits of n. */
  function Decimal(n: nat): (t: string)
    ensures t != ""
  {
    if n < 10 then [('0' as int + n) as char] else Decimal(n / 10) + [('0' as int + n % 10) as char]
  }

  function DecimalValue(t: string): int {
    if t == "" then 0 else DecimalValue(t[..|t| - 1]) * 10 + (t[|t| - 1] as int - '0' as int)
  }

  lemma {:induction false} DecimalReads(n: nat)
    ensures DecimalValue(Decimal(n)) == n && forall k :: 0 <= k < |Decimal(n)| ==> '0' <= Decimal(n)[k] <= '9'
  {
    var t := Decimal(n);
    if n >= 10 {
      DecimalReads(n / 10);
      assert t[..|t| - 1] == Decimal(n / 10);
    } else {
      assert t[..0] == "";
    }
  }

  function Signed(n: int): string {
    if n < 0 then "-" + Decimal(-n) else Decimal(n)
  }

  function SignedValue(t: string): int {
    if t != "" && t[0] == '-' then -DecimalValue(t[1..]) else DecimalValue(t)
  }

  /** A minus sign and the digits behind it read back as the number, and a number that is not negative has none. */
  lemma SignedReads(n: int)
    ensures SignedValue(Signed(n)) == n && (n < 0 <==> Signed(n)[0] == '-')
  {
    DecimalReads(if n < 0 then -n else n);
    assert n < 0 ==> Signed(n)[1..] == Decimal(-n);
  }

  lemma SignedIsPlain(n: int)
    ensures forall k :: 0 <= k < |Signed(n)| ==> Plain(Signed(n)[k])
  {
    DecimalReads(if n < 0 then -n else n);
  }
}
