/** The batch of code notes of rc_api_editor.c: notes are escaped through a buffer of 512 bytes, encoded and
    appended line by line, and a reader gets every address and note back. */
module CodeNoteBatch {
  import opened Wrappers
  import opened ChunkAllocator
  import opened FormEncoding
  import opened UrlBuilder

  datatype CodeNote = CodeNote(address: nat, note: Option<string>)

  // ---------------------------------------------------------------- what is written

  function EscapeChar(c: char): string {
    if c == '\n' then ['\\', 'r', '\\', 'n']
    else if c == '\r' then []
    else if c == '\\' then ['\\', '\\']
    else [c]
  }

  function Escape(s: string): string {
    if s == "" then "" else EscapeChar(s[0]) + Escape(s[1..])
  }

  lemma {:induction false} EscapeSnoc(s: string, c: char)
    ensures Escape(s + [c]) == Escape(s) + EscapeChar(c)
  {
    if s == "" {
      assert Escape([c]) == EscapeChar(c) + Escape("") && s + [c] == [c];
    } else {
      assert (s + [c])[1..] == s[1..] + [c];
      EscapeSnoc(s[1..], c);
    }
  }

  predicate Note(s: string) {
    Bytes(s) && NulFree(s)
  }

  lemma {:induction false} EscapedIsNote(s: string)
    requires Note(s)
    ensures Note(Escape(s)) && Free(Escape(s), '\n')
  {
    if s != "" {
      EscapedIsNote(s[1..]);
    }
  }

  function TextOf(e: CodeNote): string {
    if e.note.Some? then e.note.value else ""
  }

  /** One line of the batch, before encoding. */
  function Line(e: CodeNote): string {
    Decimal(e.address) + (":" + Escape(TextOf(e)))
  }

  predicate Writable(es: seq<CodeNote>) {
    forall k :: 0 <= k < |es| ==> Note(TextOf(es[k]))
  }

  /** What the loop appends for an entry: address and colon as they are, the rest encoded. */
  function Written(e: CodeNote): string
    requires Note(TextOf(e))
  {
    EscapedIsNote(TextOf(e));
    Decimal(e.address) + ":" + (Encode(Escape(TextOf(e))) + Encode("\n"))
  }

  function WrittenAll(es: seq<CodeNote>): string
    requires Writable(es)
  {
    if es == [] then "" else Written(es[0]) + WrittenAll(es[1..])
  }

  lemma {:induction false} WrittenSnoc(es: seq<CodeNote>, e: CodeNote)
    requires Writable(es) && Note(TextOf(e))
    ensures Writable(es + [e]) && WrittenAll(es + [e]) == WrittenAll(es) + Written(e)
  {
    var all := es + [e];
    assert forall k :: 0 <= k < |all| ==> Note(TextOf(all[k]));
    if es == [] {
      assert all == [e] && all[1..] == [];
      assert WrittenAll(all) == Written(e) + WrittenAll([]) == Written(e);
    } else {
      assert all[0] == es[0] && all[1..] == es[1..] + [e];
      WrittenSnoc(es[1..], e);
      Regroup(Written(es[0]), WrittenAll(es[1..]), Written(e));
    }
  }

  // ---------------------------------------------------------------- what a reader makes of it

  /** A backslash and r is a carriage return, a backslash and n a line feed, a backslash and anything else that. */
  function Unescape(t: string): string {
    if t == "" then ""
    else if t[0] == '\\' && |t| >= 2 then
      [if t[1] == 'r' then '\r' else if t[1] == 'n' then '\n' else t[1]] + Unescape(t[2..])
    else [t[0]] + Unescape(t[1..])
  }

  /** Carriage returns dropped, line feeds written as both. */
  function Normalized(s: string): string {
    if s == "" then ""
    else (if s[0] == '\n' then ['\r', '\n'] else if s[0] == '\r' then [] else [s[0]]) + Normalized(s[1..])
  }

  lemma {:induction false} UnescapeInverts(s: string)
    ensures Unescape(Escape(s)) == Normalized(s)
  {
    if s != "" {
      UnescapeInverts(s[1..]);
      UnescapeChar(s[0], Escape(s[1..]));
    }
  }

  lemma UnescapeChar(c: char, rest: string)
    ensures Unescape(EscapeChar(c) + rest) ==
            (if c == '\n' then ['\r', '\n'] else if c == '\r' then [] else [c]) + Unescape(rest)
  {
    var e := EscapeChar(c);
    assert (e + rest)[|e|..] == rest;
    if c == '\n' {
      assert (e + rest)[2..] == ['\\', 'n'] + rest;
      assert (['\\', 'n'] + rest)[2..] == rest;
    }
  }

  datatype Reading = Reading(address: int, note: string)

  function ReadLine(t: string): Reading {
    var c := Find(t, ':', 0);
    Reading(DecimalValue(t[..c]), if c == |t| then "" else Unescape(t[c + 1..]))
  }

  /** Lines end in a line feed, the address ends at the first colon. */
  function ReadBatch(t: string): seq<Reading> {
    if t == "" then []
    else
      var e := Find(t, '\n', 0);
      [ReadLine(t[..e])] + if e == |t| then [] else ReadBatch(t[e + 1..])
  }

  function Readings(es: seq<CodeNote>): seq<Reading> {
    if es == [] then [] else [Reading(es[0].address, Normalized(TextOf(es[0])))] + Readings(es[1..])
  }

  function Lines(es: seq<CodeNote>): string {
    if es == [] then "" else Line(es[0]) + ("\n" + Lines(es[1..]))
  }

  lemma LineReads(e: CodeNote)
    ensures ReadLine(Line(e)) == Reading(e.address, Normalized(TextOf(e)))
  {
    DecimalReads(e.address);
    SplitsAt(Decimal(e.address), ':', ":", Escape(TextOf(e)));
    UnescapeInverts(TextOf(e));
  }

  lemma LineIsFree(e: CodeNote)
    requires Note(TextOf(e))
    ensures Free(Line(e), '\n')
  {
    DecimalReads(e.address);
    EscapedIsNote(TextOf(e));
  }

  lemma LineSplits(l: string, rest: string)
    requires Free(l, '\n')
    ensures ReadBatch(l + ("\n" + rest)) == [ReadLine(l)] + ReadBatch(rest)
  {
    SplitsAt(l, '\n', "\n", rest);
  }

  lemma {:induction false} LinesRead(es: seq<CodeNote>)
    requires Writable(es)
    ensures ReadBatch(Lines(es)) == Readings(es)
  {
    if |es| > 0 {
      LinesRead(es[1..]);
      LineIsFree(es[0]);
      LineReads(es[0]);
      LineSplits(Line(es[0]), Lines(es[1..]));
    }
  }

  /** Text of plain bytes and colons decodes to itself. */
  lemma {:induction false} DecodeRaw(s: string, rest: string)
    requires forall k :: 0 <= k < |s| ==> s[k] != '+' && s[k] != '%'
    ensures Decode(s + rest) == s + Decode(rest)
  {
    if s == "" {
      assert s + rest == rest;
    } else {
      assert (s + rest)[1..] == s[1..] + rest;
      DecodeRaw(s[1..], rest);
    }
  }

  lemma {:induction false} DecodeAppend(s: string, rest: string)
    requires Bytes(s)
    ensures Decode(Encode(s) + rest) == s + Decode(rest)
  {
    if s == "" {
      assert Encode(s) + rest == rest;
    } else {
      var b, more := EncodeByte(s[0]), Encode(s[1..]);
      Regroup(b, more, rest);
      DecodeByte(s[0], more + rest);
      DecodeAppend(s[1..], rest);
      Regroup([s[0]], s[1..], Decode(rest));
      assert s == [s[0]] + s[1..];
    }
  }

  lemma EntryDecodes(e: CodeNote, rest: string)
    requires Note(TextOf(e))
    ensures Decode(Written(e) + rest) == Line(e) + ("\n" + Decode(rest))
  {
    var d, n := Decimal(e.address) + ":", Escape(TextOf(e));
    EscapedIsNote(TextOf(e));
    DecimalReads(e.address);
    Regroup(d, Encode(n) + Encode("\n"), rest);
    Regroup(Encode(n), Encode("\n"), rest);
    DecodeRaw(d, Encode(n) + (Encode("\n") + rest));
    DecodeAppend(n, Encode("\n") + rest);
    DecodeAppend("\n", rest);
    Regroup(Decimal(e.address), ":", n + ("\n" + Decode(rest)));
    Regroup(":", n, "\n" + Decode(rest));
    Regroup(Decimal(e.address), ":" + n, "\n" + Decode(rest));
  }

  lemma {:induction false} BatchDecodes(es: seq<CodeNote>)
    requires Writable(es)
    ensures Decode(WrittenAll(es)) == Lines(es)
  {
    if |es| > 0 {
      BatchDecodes(es[1..]);
      EntryDecodes(es[0], WrittenAll(es[1..]));
    }
  }

  /** Decoding and reading the batch gives back every address and note, in order. */
  lemma BatchReadsBack(es: seq<CodeNote>)
    requires Writable(es)
    ensures ReadBatch(Decode(WrittenAll(es))) == Readings(es)
  {
    BatchDecodes(es);
    LinesRead(es);
  }

  lemma {:induction false} WrittenIsFree(es: seq<CodeNote>)
    requires Writable(es)
    ensures Free(WrittenAll(es), '&')
  {
    if es != [] {
      var n := Escape(TextOf(es[0]));
      WrittenIsFree(es[1..]);
      EscapedIsNote(TextOf(es[0]));
      DecimalReads(es[0].address);
      EncodedIsFree(n, '&');
      EncodedIsFree("\n", '&');
    }
  }

  /** The whole body: parameters, then the batch as the value of n. */
  lemma BatchInForm(ps: seq<Param>, es: seq<CodeNote>)
    requires FormEncoding.Writable(ps) && Proper(ps) && Writable(es) && ps != []
    ensures ParseForm(FormText(ps) + ("&" + ("n=" + WrittenAll(es)))) == ps + [Param("n", Lines(es))]
    ensures ReadBatch(Lines(es)) == Readings(es)
  {
    var n := "n=" + WrittenAll(es);
    FormGoesOn(ps, n);
    WrittenIsFree(es);
    FieldsSplit(n, "");
    NameThenBatch(WrittenAll(es));
    BatchDecodes(es);
    LinesRead(es);
  }

  lemma NameThenBatch(w: string)
    ensures ParseField("n=" + w) == Param("n", Decode(w))
  {
    assert "n=" + w == "n" + ("=" + w);
    SplitsAt("n", '=', "=", w);
  }

  // ---------------------------------------------------------------- the loops

  const BUFFER: nat := 512

  /** The inner loop: escape from src on until the buffer may be full. */
  method FillBuffer(note: string, from: nat, buffer: array<char>) returns (src: nat, dst: nat)
    requires Note(note) && from <= |note| && buffer.Length == BUFFER
    modifies buffer
    ensures from <= src <= |note| && dst < BUFFER && (from < |note| ==> src > from)
    ensures buffer[..dst] == Escape(note[from..src])
  {
    src, dst := from, 0;
    assert note[from..from] == "";
    while src < |note| && dst < BUFFER - 8
      invariant from <= src <= |note| && dst <= BUFFER - 8 + 3 && (src == from ==> dst == 0)
      invariant buffer[..dst] == Escape(note[from..src])
      decreases |note| - src
    {
      dst := PutEscaped(note[src], buffer, dst);
      assert note[from..src + 1] == note[from..src] + [note[src]];
      EscapeSnoc(note[from..src], note[src]);
      src := src + 1;
    }
  }

  /** The switch over one character. */
  method PutEscaped(c: char, buffer: array<char>, at: nat) returns (dst: nat)
    requires at + 4 <= buffer.Length
    modifies buffer
    ensures dst == at + |EscapeChar(c)| <= buffer.Length
    ensures buffer[..dst] == old(buffer[..at]) + EscapeChar(c)
  {
    dst := at;
    if c == '\n' {
      buffer[dst] := '\\';
      buffer[dst + 1] := 'r';
      buffer[dst + 2] := '\\';
      buffer[dst + 3] := 'n';
      dst := dst + 4;
    } else if c == '\r' {
    } else if c == '\\' {
      buffer[dst] := '\\';
      buffer[dst + 1] := '\\';
      dst := dst + 2;
    } else {
      buffer[dst] := c;
      dst := dst + 1;
    }
    assert buffer[..at] == old(buffer[..at]);
  }

  /** The loop over the pieces of one note: cutting it up changes nothing. */
  method AppendNote(builder: Builder, note: string, buffer: array<char>)
    requires builder.Valid() && Note(note) && buffer.Length == BUFFER && buffer !in Datas(builder.buffer.chunks)
    modifies builder, builder.buffer`chunks, builder.buffer.chunks`next, Datas(builder.buffer.chunks), buffer
    ensures builder.Valid() && builder.Extends()
    ensures Note(Escape(note)) && builder.Text() == old(builder.Text()) + Encode(Escape(note))
  {
    hide Buffer.Valid, Builder.Kept;
    ghost var t := builder.Text();
    var src: nat := 0;
    EscapedIsNote(note);
    EmptyPrefix(t, note);
    var more := true;
    while more
      invariant builder.Extends() && buffer !in Datas(builder.buffer.chunks) && Appended(builder, t, note, src)
      invariant !more ==> src == |note|
      decreases more, |note| - src
    {
      src := AppendPiece(builder, t, note, src, buffer);
      more := src < |note|;
    }
    assert note[..src] == note;
  }

  /** t and the encoded first n bytes of the note, escaped, have been written. */
  ghost predicate Appended(builder: Builder, t: string, note: string, n: nat)
    reads builder, builder.buffer, builder.buffer.chunks, Datas(builder.buffer.chunks), builder.chunk.data
  {
    && builder.Valid() && n <= |note| && Note(note[..n]) && Note(Escape(note[..n]))
    && builder.Text() == t + Encode(Escape(note[..n]))
  }

  /** One piece: fill the buffer, terminate it, encode what it holds. */
  method AppendPiece(builder: Builder, ghost t: string, note: string, from: nat, buffer: array<char>) returns (src: nat)
    requires Appended(builder, t, note, from) && Note(note) && buffer.Length == BUFFER
    requires buffer !in Datas(builder.buffer.chunks)
    modifies builder, builder.buffer`chunks, builder.buffer.chunks`next, Datas(builder.buffer.chunks), buffer
    ensures Appended(builder, t, note, src) && builder.Extends() && from <= src && (from < |note| ==> src > from)
  {
    hide Buffer.Valid, Builder.Kept;
    var dst;
    src, dst := FillBuffer(note, from, buffer);
    buffer[dst] := '\0';
    EscapedIsNote(note[from..src]);
    builder.AppendEncoded(buffer[..dst]);
    PiecesJoin(t, note, from, src);
  }

  lemma EmptyPrefix(t: string, note: string)
    ensures Note(note[..0]) && Note(Escape(note[..0])) && t == t + Encode(Escape(note[..0]))
  {
  }

  lemma PiecesJoin(t: string, note: string, from: nat, src: nat)
    requires Note(note) && from <= src <= |note|
    ensures Note(note[..src]) && Note(Escape(note[..src])) && Note(Escape(note[..from]))
    ensures Note(Escape(note[from..src]))
    ensures (t + Encode(Escape(note[..from]))) + Encode(Escape(note[from..src])) == t + Encode(Escape(note[..src]))
  {
    var a, b := note[..from], note[from..src];
    assert note[..src] == a + b;
    EscapedIsNote(a);
    EscapedIsNote(b);
    EscapeAppend(a, b);
    EncodeAppend(Escape(a), Escape(b));
  }

  lemma {:induction false} EscapeAppend(a: string, b: string)
    ensures Escape(a + b) == Escape(a) + Escape(b)
    decreases |a|
  {
    if a == "" {
      assert a + b == b;
    } else {
      assert (a + b)[1..] == a[1..] + b;
      EscapeAppend(a[1..], b);
    }
  }

  lemma NextWritten(t: string, es: seq<CodeNote>, i: nat)
    requires Writable(es) && i < |es|
    ensures Writable(es[..i]) && Writable(es[..i + 1])
    ensures (t + WrittenAll(es[..i])) + Written(es[i]) == t + WrittenAll(es[..i + 1])
  {
    WrittenSnoc(es[..i], es[i]);
    assert es[..i + 1] == es[..i] + [es[i]];
    Regroup(t, WrittenAll(es[..i]), Written(es[i]));
  }

  /** One round of the loop over the entries. */
  method AppendEntry(builder: Builder, e: CodeNote, buffer: array<char>)
    requires builder.Valid() && Note(TextOf(e)) && buffer.Length == BUFFER && buffer !in Datas(builder.buffer.chunks)
    modifies builder, builder.buffer`chunks, builder.buffer.chunks`next, Datas(builder.buffer.chunks), buffer
    ensures builder.Valid() && builder.Extends() && builder.Text() == old(builder.Text()) + Written(e)
  {
    hide Buffer.Valid, Builder.Kept, Encode, Escape, Written, Decimal, Note, Builder.Text;
    ghost var t := builder.Text();
    EscapedIsNote(TextOf(e));
    AppendAddress(builder, e.address);
    AppendText(builder, e, buffer);
    builder.AppendEncoded("\n");
    WrittenParts(t, e);
  }

  lemma WrittenParts(t: string, e: CodeNote)
    requires Note(TextOf(e))
    ensures Note(Escape(TextOf(e)))
    ensures ((t + (Decimal(e.address) + ":")) + Encode(Escape(TextOf(e)))) + Encode("\n") == t + Written(e)
  {
    EscapedIsNote(TextOf(e));
    Regroup(t + (Decimal(e.address) + ":"), Encode(Escape(TextOf(e))), Encode("\n"));
    Regroup(t, Decimal(e.address) + ":", Encode(Escape(TextOf(e))) + Encode("\n"));
  }

  method AppendAddress(builder: Builder, address: nat)
    requires builder.Valid()
    modifies builder, builder.buffer`chunks, builder.buffer.chunks`next, Datas(builder.buffer.chunks)
    ensures builder.Valid() && builder.Extends() && builder.Text() == old(builder.Text()) + (Decimal(address) + ":")
  {
    hide Buffer.Valid, Builder.Kept;
    ghost var t := builder.Text();
    Regroup(t, Decimal(address), ":");
    builder.Append(Decimal(address));
    builder.Append(":");
  }

  method AppendText(builder: Builder, e: CodeNote, buffer: array<char>)
    requires builder.Valid() && Note(TextOf(e)) && buffer.Length == BUFFER && buffer !in Datas(builder.buffer.chunks)
    modifies builder, builder.buffer`chunks, builder.buffer.chunks`next, Datas(builder.buffer.chunks), buffer
    ensures builder.Valid() && builder.Extends()
    ensures Note(Escape(TextOf(e))) && builder.Text() == old(builder.Text()) + Encode(Escape(TextOf(e)))
  {
    hide Buffer.Valid, Builder.Kept;
    if e.note.Some? {
      AppendNote(builder, e.note.value, buffer);
    } else {
      assert Encode(Escape("")) == "";
    }
  }

  /** t and the first n entries have been written. */
  ghost predicate Batched(builder: Builder, t: string, es: seq<CodeNote>, n: nat)
    reads builder, builder.buffer, builder.buffer.chunks, Datas(builder.buffer.chunks), builder.chunk.data
  {
    builder.Valid() && n <= |es| && Writable(es[..n]) && builder.Text() == t + WrittenAll(es[..n])
  }

  method AppendNext(builder: Builder, ghost t: string, es: seq<CodeNote>, i: nat, buffer: array<char>)
    requires Batched(builder, t, es, i) && i < |es| && Writable(es)
    requires buffer.Length == BUFFER && buffer !in Datas(builder.buffer.chunks)
    modifies builder, builder.buffer`chunks, builder.buffer.chunks`next, Datas(builder.buffer.chunks), buffer
    ensures Batched(builder, t, es, i + 1) && builder.Extends() && buffer !in Datas(builder.buffer.chunks)
  {
    AppendEntry(builder, es[i], buffer);
    NextWritten(t, es, i);
  }

  /** The loop over the entries of rc_api_init_update_code_notes_request_hosted. */
  method AppendBatch(builder: Builder, es: seq<CodeNote>)
    requires builder.Valid() && Writable(es)
    modifies builder, builder.buffer`chunks, builder.buffer.chunks`next, Datas(builder.buffer.chunks)
    ensures builder.Valid() && builder.Extends() && builder.Text() == old(builder.Text()) + WrittenAll(es)
    ensures ReadBatch(Decode(WrittenAll(es))) == Readings(es)
  {
    ghost var t := builder.Text();
    var buffer := new char[BUFFER];
    var i := 0;
    while i < |es|
      invariant 0 <= i <= |es| && Batched(builder, t, es, i)
      invariant builder.Extends() && fresh(buffer) && buffer !in Datas(builder.buffer.chunks)
    {
      AppendNext(builder, t, es, i, buffer);
      i := i + 1;
    }
    assert es[..i] == es;
    BatchReadsBack(es);
  }
}
