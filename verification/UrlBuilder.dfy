/** The URL and form writer of rc_api_common.c: text grows in a reservation of an arena that nobody else
    has been handed, moving to a larger one when it has to. */
module UrlBuilder {
  import opened ChunkAllocator
  import opened FormEncoding

  ghost function Datas(chunks: seq<Chunk>): set<array<char>> {
    set i | 0 <= i < |chunks| :: chunks[i].data
  }

  /** The bytes in front of a chunk's write pointer. */
  ghost function Front(c: Chunk): string
    reads c, c.data
  {
    if c.write <= c.data.Length then c.data[..c.write] else ""
  }

  ghost function Fronts(chunks: seq<Chunk>): (r: seq<string>)
    reads chunks, Datas(chunks)
    ensures |r| == |chunks| && forall i :: 0 <= i < |chunks| ==> r[i] == Front(chunks[i])
  {
    if chunks == [] then [] else [Front(chunks[0])] + Fronts(chunks[1..])
  }

  ghost predicate Holds(c: Chunk, front: string)
    reads c, c.data
  {
    c.write == |front| <= c.data.Length && c.data[..|front|] == front
  }

  /** A reservation as the builder sees it: the chunks there were, and perhaps an empty one more. */
  method ReserveIn(buffer: Buffer, amount: nat) returns (c: Chunk)
    requires buffer.Valid()
    modifies buffer`chunks, buffer.chunks`next
    ensures buffer.Valid() && buffer.regions == old(buffer.regions) && old(buffer.chunks) <= buffer.chunks
    ensures c in buffer.chunks && RoomFor(c, amount) && c.write <= c.data.Length
    ensures forall i {:trigger buffer.chunks[i]} :: |old(buffer.chunks)| <= i < |buffer.chunks| ==>
              fresh(buffer.chunks[i]) && fresh(buffer.chunks[i].data) && buffer.chunks[i].write == 0
  {
    c := buffer.Reserve(amount);
  }

  /** The same, with what lies in front of the write pointers. */
  method ReserveKeeping(buffer: Buffer, amount: nat) returns (c: Chunk, ghost kept: seq<string>)
    requires buffer.Valid()
    modifies buffer`chunks, buffer.chunks`next
    ensures buffer.Valid() && buffer.regions == old(buffer.regions) && old(buffer.chunks) <= buffer.chunks
    ensures c in buffer.chunks && RoomFor(c, amount) && c.write <= c.data.Length
    ensures |kept| == |old(buffer.chunks)| && forall i :: 0 <= i < |kept| ==> kept[i] == old(Front(buffer.chunks[i]))
    ensures forall i {:trigger buffer.chunks[i]} :: 0 <= i < |kept| ==> Holds(buffer.chunks[i], kept[i])
    ensures forall i {:trigger buffer.chunks[i]} :: |kept| <= i < |buffer.chunks| ==> buffer.chunks[i].write == 0
  {
    hide Buffer.Linked, Buffer.Regions;
    kept := Fronts(buffer.chunks);
    assert forall i {:trigger buffer.chunks[i]} :: 0 <= i < |kept| ==> Holds(buffer.chunks[i], kept[i]);
    c := ReserveIn(buffer, amount);
  }

  /** A C string: no NUL inside. */
  predicate NulFree(s: string) {
    forall k :: 0 <= k < |s| ==> s[k] != '\0'
  }

  class Builder {
    const buffer: Buffer
    var chunk: Chunk
    var start: nat              // start, write and end are offsets into the chunk
    var write: nat
    var end: nat

    ghost const kept: seq<string> // what lay in front of each chunk's write pointer when the builder was made

    /** The text sits at the write pointer of its chunk, where nothing has been handed out. */
    ghost predicate Valid()
      reads this, buffer, buffer.chunks, Datas(buffer.chunks)
    {
      buffer.Valid() && Kept() && chunk in buffer.chunks && start == chunk.write &&
        start <= write <= end <= chunk.data.Length
    }

    /** No chunk has moved its write pointer since, nothing in front of one has been written, and new chunks have
        nothing in front of theirs. */
    ghost predicate Kept()
      reads this, buffer, buffer.chunks, Datas(buffer.chunks)
    {
      && |kept| <= |buffer.chunks|
      && (forall i {:trigger buffer.chunks[i]} :: 0 <= i < |kept| ==> Holds(buffer.chunks[i], kept[i]))
      && (forall i {:trigger buffer.chunks[i]} :: |kept| <= i < |buffer.chunks| ==> buffer.chunks[i].write == 0)
    }

    ghost function Text(): (t: string)
      reads this, chunk.data
      requires start <= write <= chunk.data.Length
    {
      chunk.data[start..write]
    }

    /** The arena has only grown, and nothing has been handed out. */
    twostate predicate Extends()
      reads this, buffer
    {
      && old(buffer.chunks) <= buffer.chunks && buffer.regions == old(buffer.regions)
      && (forall i {:trigger buffer.chunks[i]} :: |old(buffer.chunks)| <= i < |buffer.chunks| ==>
          fresh(buffer.chunks[i]) && fresh(buffer.chunks[i].data))
    }

    /** rc_url_builder_init. */
    constructor (buffer: Buffer, estimate: nat)
      requires buffer.Valid()
      modifies buffer`chunks, buffer.chunks`next
      ensures this.buffer == buffer && Valid() && Text() == "" && buffer.regions == old(buffer.regions)
      ensures old(buffer.chunks) <= buffer.chunks && |kept| == |old(buffer.chunks)|
      ensures forall i :: 0 <= i < |kept| ==> kept[i] == old(Front(buffer.chunks[i]))
    {
      hide Buffer.Valid;
      ghost var fronts;
      var c;
      c, fronts := ReserveKeeping(buffer, estimate);
      this.buffer, kept := buffer, fronts;
      chunk, start, write, end := c, c.write, c.write, c.data.Length;
    }

    /** The size to ask for: double until the text and `amount` more fit, less the header if that leaves room. */
    method NewSize(amount: nat) returns (size: nat)
      requires start <= write <= end
      ensures size >= write - start + amount
    {
      var used := write - start;
      var current := end - start;
      size := if current < 256 then 256 else current * 2;
      while size - used < amount
        invariant size >= used && size >= 256
        decreases used + amount - size
      {
        size := size * 2;
      }
      if size - used - amount > HEADER {
        size := size - HEADER;
      }
    }

    /** rc_url_builder_reserve. */
    method Reserve(amount: nat)
      requires Valid()
      modifies this, buffer`chunks, buffer.chunks`next, Datas(buffer.chunks)
      ensures Valid() && Text() == old(Text()) && write + amount <= end
      ensures Extends()
    {
      if end - write < amount {
        var size := NewSize(amount);
        MoveTo(size);
      }
    }

    /** Continue in a reservation of that size, in place if it starts where the text does. */
    method MoveTo(size: nat)
      requires Valid() && size >= write - start
      modifies this, buffer`chunks, buffer.chunks`next, Datas(buffer.chunks)
      ensures Valid() && Text() == old(Text()) && end - start == size
      ensures Extends()
    {
      hide Buffer.Valid, Datas;
      var c := Room(size);
      if c != chunk {
        Transfer(c, size);
      }
      end := start + size;
    }

    method Room(size: nat) returns (c: Chunk)
      requires Valid()
      modifies buffer`chunks, buffer.chunks`next
      ensures Valid() && Text() == old(Text()) && c in buffer.chunks && RoomFor(c, size) && Extends()
      ensures c.data in old(Datas(buffer.chunks)) || fresh(c.data)
      ensures c != chunk ==> c.data != chunk.data
    {
      hide Buffer.Linked, Buffer.Regions;
      c := ReserveIn(buffer, size);
    }

    /** memcpy behind the write pointer of a chunk. */
    method CopyBehind(c: Chunk, data: string)
      requires buffer.Valid() && Kept() && c in buffer.chunks && RoomFor(c, |data|)
      modifies c.data
      ensures buffer.Valid() && Kept() && c.data[c.write..c.write + |data|] == data
    {
      hide Buffer.Linked, Buffer.Regions;
      Copy(c.data, c.write, data);
    }

    method Transfer(c: Chunk, size: nat)
      requires Valid() && c in buffer.chunks && c != chunk && c.data != chunk.data && RoomFor(c, size)
      requires size >= write - start
      modifies this, c.data
      ensures buffer.Valid() && Kept() && chunk == c && start == c.write && write <= start + size
      ensures start <= write <= c.data.Length && Text() == old(Text()) && Extends()
    {
      hide Buffer.Valid;
      var used := write - start;
      CopyBehind(c, chunk.data[start..write]);
      chunk := c;
      start := c.write;
      write := start + used;
    }

    /** memcpy behind the text, into room that has been reserved. */
    method Put(data: string)
      requires Valid() && write + |data| <= end
      modifies this`write, chunk.data
      ensures Valid() && Text() == old(Text()) + data && Extends()
      ensures write == old(write) + |data|
    {
      hide Buffer.Linked, Buffer.Regions;
      ghost var t := Text();
      Copy(chunk.data, write, data);
      write := write + |data|;
      assert chunk.data[start..write] == t + data;
    }

    /** rc_url_builder_append. */
    method Append(data: string)
      requires Valid()
      modifies this, buffer`chunks, buffer.chunks`next, Datas(buffer.chunks)
      ensures Valid() && Text() == old(Text()) + data && Extends()
    {
      Reserve(|data|);
      Put(data);
    }

    /** rc_url_builder_append_encoded_str. */
    method AppendEncoded(str: string)
      requires Valid() && Bytes(str) && NulFree(str)
      modifies this, buffer`chunks, buffer.chunks`next, Datas(buffer.chunks)
      ensures Valid() && Text() == old(Text()) + Encode(str) && Extends()
    {
      hide Buffer.Valid, Builder.Kept;
      ghost var t := Text();
      var from, i := 0, 0;
      assert str[..0] == "" && t + Encode("") == t;
      while i < |str|
        invariant 0 <= from <= i <= |str| && Valid() && Extends()
        invariant Written(t, str, from)
        invariant forall k :: from <= k < i ==> Plain(str[k])
      {
        if Plain(str[i]) {
          i := i + 1;
        } else {
          FlushRun(t, str, from, i);
          i := i + 1;
          from := i;
        }
      }
      FlushTail(t, str, from);
    }

    /** t, and the encoded first n bytes of str behind it. */
    ghost predicate Written(t: string, str: string, n: nat)
      reads this, chunk.data
      requires n <= |str| && Bytes(str)
    {
      start <= write <= chunk.data.Length && Text() == t + Encode(str[..n])
    }

    method FlushRun(ghost t: string, str: string, from: nat, i: nat)
      requires Valid() && Bytes(str) && from <= i < |str| && Written(t, str, from)
      requires !Plain(str[i]) && forall k :: from <= k < i ==> Plain(str[k])
      modifies this, buffer`chunks, buffer.chunks`next, Datas(buffer.chunks)
      ensures Valid() && Written(t, str, i + 1) && Extends()
    {
      AppendRun(str[from..i], str[i]);
      EncodeRun(str, from, i);
      Regroup(t, Encode(str[..from]), str[from..i] + EncodeByte(str[i]));
    }

    method FlushTail(ghost t: string, str: string, from: nat)
      requires Valid() && Bytes(str) && from <= |str| && Written(t, str, from)
      requires forall k :: from <= k < |str| ==> Plain(str[k])
      modifies this, buffer`chunks, buffer.chunks`next, Datas(buffer.chunks)
      ensures Valid() && Text() == t + Encode(str) && Extends()
    {
      ghost var whole := WholeEncodes(str, str[..from], str[from..]);
      Regroup(t, Encode(str[..from]), str[from..]);
      if from < |str| {
        Append(str[from..]);
      }
    }

    /** A run of plain bytes and one that needs encoding. */
    method AppendRun(run: string, c: char)
      requires Valid() && IsByte(c) && !Plain(c)
      modifies this, buffer`chunks, buffer.chunks`next, Datas(buffer.chunks)
      ensures Valid() && Text() == old(Text()) + (run + EncodeByte(c)) && Extends()
    {
      Reserve(|run| + 3);
      ghost var t := Text();
      if |run| > 0 {
        Put(run);
      }
      assert Text() == t + run;
      Regroup(t, run, EncodeByte(c));
      if c == ' ' {
        Put("+");
      } else {
        Put(['%', HEX[c as int / 16], HEX[c as int % 16]]);
      }
    }

    /** rc_url_builder_append_param_equals. */
    method AppendParamEquals(param: string)
      requires Valid()
      modifies this, buffer`chunks, buffer.chunks`next, Datas(buffer.chunks)
      ensures Valid() && Text() == old(Text()) + Separator(old(Text())) + (param + "=") && Extends()
    {
      hide Buffer.Valid, Builder.Kept;
      Reserve(|param| + 2);
      ghost var t := Text();
      if write > start {
        assert t[|t| - 1] == chunk.data[write - 1];
        if chunk.data[write - 1] != '?' {
          Put("&");
        }
      }
      assert Text() == t + Separator(t);
      Regroup(t + Separator(t), param, "=");
      Put(param);
      Put("=");
    }

    /** rc_url_builder_append_str_param. */
    method AppendStrParam(param: string, value: string)
      requires Valid() && Bytes(value) && NulFree(value)
      modifies this, buffer`chunks, buffer.chunks`next, Datas(buffer.chunks)
      ensures Valid() && Text() == old(Text()) + Separator(old(Text())) + FieldText(Param(param, value)) && Extends()
    {
      hide Buffer.Valid, Builder.Kept;
      ghost var t := Text();
      AppendParamEquals(param);
      AppendEncoded(value);
      Regroup(t + Separator(t), param + "=", Encode(value));
      Regroup(param, "=", Encode(value));
    }

    /** rc_url_builder_append_num_param; rc_url_builder_append_unum_param is the case of a value that is not
        negative. */
    method AppendNumParam(param: string, value: int)
      requires Valid()
      modifies this, buffer`chunks, buffer.chunks`next, Datas(buffer.chunks)
      ensures Valid() && Bytes(Signed(value)) && Extends()
      ensures Text() == old(Text()) + Separator(old(Text())) + FieldText(Param(param, Signed(value)))
    {
      ghost var t := Text();
      SignedIsPlain(value);
      PlainEncodes(Signed(value));
      AppendParamEquals(param);
      Append(Signed(value));
      Regroup(t + Separator(t), param + "=", Signed(value));
      Regroup(param, "=", Signed(value));
    }

    /** Any sequence of string parameters on an empty builder: a reader gets them back, in order. */
    method AppendParams(params: seq<Param>)
      requires Valid() && Text() == ""
      requires forall k :: 0 <= k < |params| ==>
                 Bytes(params[k].value) && NulFree(params[k].value) && ProperName(params[k].name)
      modifies this, buffer`chunks, buffer.chunks`next, Datas(buffer.chunks)
      ensures Valid() && Extends() && Text() == FormText(params) && ParseForm(Text()) == params
    {
      hide Buffer.Valid, Builder.Kept, Builder.Text, ParseForm, FieldText, Encode, Separator;
      var i := 0;
      while i < |params|
        invariant 0 <= i <= |params| && Valid() && Extends()
        invariant Writable(params[..i]) && Text() == FormText(params[..i])
      {
        AppendStrParam(params[i].name, params[i].value);
        FormTextAppend(params[..i], params[i]);
        NoQuestionMark(params[..i]);
        assert params[..i + 1] == params[..i] + [params[i]];
        i := i + 1;
      }
      assert params[..i] == params;
      ParseInvertsForm(params);
    }

    /** rc_url_builder_finalize: the text and its NUL are handed out as a region of their own. */
    method Finalize()
      requires Valid()
      modifies this, buffer`chunks, buffer`regions, buffer.chunks, Datas(buffer.chunks)
      ensures buffer.Valid() && start + |old(Text())| + 1 == write <= chunk.data.Length
      ensures chunk.data[start..write] == old(Text()) + ['\0']
      ensures buffer.regions == old(buffer.regions) + [Region(chunk, start, write)]
      ensures |kept| <= |buffer.chunks| && forall i :: 0 <= i < |kept| ==>
                |kept[i]| <= buffer.chunks[i].data.Length && buffer.chunks[i].data[..|kept[i]|] == kept[i]
    {
      Append(['\0']);
      buffer.Consume(chunk, start, write);
    }
  }

  /** What goes between the text so far and the next parameter. */
  function Separator(t: string): string {
    if t != "" && t[|t| - 1] != '?' then "&" else ""
  }

  lemma EncodeRun(str: string, from: nat, i: nat)
    requires from <= i < |str| && Bytes(str) && (forall k :: from <= k < i ==> Plain(str[k])) && !Plain(str[i])
    ensures Encode(str[..i + 1]) == Encode(str[..from]) + (str[from..i] + EncodeByte(str[i]))
  {
    EncodeThenOne(str[from..i], str[i]);
    EncodeAppend(str[..from], str[from..i] + [str[i]]);
    PrefixGrows(str, from, i);
  }

  lemma PrefixGrows(s: string, from: nat, i: nat)
    requires from <= i < |s|
    ensures s[..i + 1] == s[..from] + (s[from..i] + [s[i]])
  {
    var r := s[..from] + (s[from..i] + [s[i]]);
    assert |r| == i + 1;
    forall k | 0 <= k <= i ensures r[k] == s[..i + 1][k] {
    }
  }

  lemma EncodeThenOne(run: string, c: char)
    requires IsByte(c) && forall k :: 0 <= k < |run| ==> Plain(run[k])
    ensures Bytes(run + [c]) && Encode(run + [c]) == run + EncodeByte(c)
  {
    EncodeOne(c);
    PlainThenEncoded(run, [c]);
  }

  lemma EncodeOne(c: char)
    requires IsByte(c)
    ensures Bytes([c]) && Encode([c]) == EncodeByte(c)
  {
    assert Encode([c]) == EncodeByte(c) + Encode("");
  }

  lemma PlainThenEncoded(run: string, b: string)
    requires Bytes(b) && forall k :: 0 <= k < |run| ==> Plain(run[k])
    ensures Bytes(run + b) && Encode(run + b) == run + Encode(b)
  {
    PlainEncodes(run);
    EncodeAppend(run, b);
  }

  lemma WholeEncodes(str: string, a: string, b: string) returns (whole: string)
    requires |a| + |b| == |str| && (forall k :: 0 <= k < |a| ==> str[k] == a[k])
    requires (forall k :: 0 <= k < |b| ==> str[|a| + k] == b[k])
    requires Bytes(a) && forall k :: 0 <= k < |b| ==> Plain(b[k])
    ensures Bytes(str) && whole == Encode(str) == Encode(a) + b
  {
    EncodeThenPlain(a, b);
    assert str == a + b;
    whole := Encode(str);
  }

  lemma EncodeThenPlain(a: string, b: string)
    requires Bytes(a) && forall k :: 0 <= k < |b| ==> Plain(b[k])
    ensures Bytes(b) && Bytes(a + b) && Encode(a + b) == Encode(a) + b
  {
    PlainEncodes(b);
    EncodeAppend(a, b);
  }

  /** A form body does not end in a question mark. */
  lemma {:induction false} NoQuestionMark(ps: seq<Param>)
    requires Writable(ps)
    ensures Separator(FormText(ps)) == if ps == [] then "" else "&"
  {
    if ps != [] {
      NoQuestionMark(ps[1..]);
      EncodedIsFree(ps[0].value, '?');
    }
  }
}
