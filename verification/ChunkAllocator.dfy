/** The arena of rc_util.c: a list of chunks, each handed out from its front. An address is a chunk and an
    offset into it, so that two chunks never share one. */
module ChunkAllocator {

  const HEADER: nat := 32             // sizeof(rc_buffer_chunk_t)
  const FIRST: nat := 256             // the chunk that is part of the buffer itself

  class Chunk {
    const data: array<char>           // from start to end
    var write: nat
    var next: Chunk?

    constructor (size: nat)
      ensures fresh(data) && data.Length == size && write == 0 && next == null
    {
      data := new char[size];
      write, next := 0, null;
    }
  }

  /** Bytes given to a caller for good. */
  datatype Region = Region(chunk: Chunk, from: nat, to: nat)

  function ChunkAt(chunks: seq<Chunk>, i: nat): Chunk? {
    if i < |chunks| then chunks[i] else null
  }

  /** The next multiple of k, the two the arena uses. */
  function AlignUp(n: nat, k: nat): (r: nat)
    requires k == 8 || k == 256
    ensures n <= r < n + k && r % k == 0
  {
    if k == 8 then (n + 7) / 8 * 8 else (n + 255) / 256 * 256
  }

  /** memcpy. */
  method Copy(dst: array<char>, at: nat, src: string)
    requires at + |src| <= dst.Length
    modifies dst
    ensures dst[..] == old(dst[..at]) + src + old(dst[at + |src|..])
  {
    forall k | 0 <= k < |src| {
      dst[at + k] := src[k];
    }
  }

  ghost predicate RoomFor(c: Chunk, amount: nat)
    reads c
  {
    c.write + amount <= c.data.Length
  }

  /** The data size of a new chunk. */
  method SizeFor(amount: nat) returns (size: nat)
    ensures amount <= size < amount + 256 && (size + HEADER) % 256 == 0 && size % 8 == 0
  {
    size := AlignUp(HEADER + amount, 256) - HEADER;
  }

  class Buffer {
    const chunk: Chunk
    ghost var chunks: seq<Chunk>
    ghost var regions: seq<Region>    // in the order they were handed out

    ghost predicate Linked()
      reads this, chunks
    {
      && chunks != [] && chunk == chunks[0]
      && (forall i {:trigger chunks[i].next} :: 0 <= i < |chunks| ==> chunks[i].next == ChunkAt(chunks, i + 1))
    }

    /** start <= write <= end, with room for the header in front and aligned to 8. */
    ghost predicate Chunks()
      reads this, chunks
    {
      && (forall i {:trigger chunks[i]} :: 0 <= i < |chunks| ==>
            chunks[i].write <= chunks[i].data.Length && chunks[i].write % 8 == 0 && chunks[i].data.Length % 8 == 0)
      && (forall i, j :: 0 <= i < j < |chunks| ==> chunks[i] != chunks[j] && chunks[i].data != chunks[j].data)
    }

    /** Handed out regions lie behind the write pointer of their chunk, a later one behind an earlier one. */
    ghost predicate Regions()
      reads this, chunks
    {
      && (forall i :: 0 <= i < |regions| ==>
          regions[i].chunk in chunks && regions[i].from <= regions[i].to <= regions[i].chunk.write &&
            regions[i].from % 8 == 0)
      && (forall i, j :: 0 <= i < j < |regions| && regions[i].chunk == regions[j].chunk ==>
          regions[i].to <= regions[j].from)
    }

    ghost predicate Valid()
      reads this, chunks
    {
      Linked() && Chunks() && Regions()
    }

    /** rc_buffer_init. */
    constructor ()
      ensures Valid() && chunks == [chunk] && fresh(chunk) && fresh(chunk.data) && regions == []
      ensures chunk.data.Length == FIRST && chunk.write == 0
    {
      var c := new Chunk(FIRST);
      chunk := c;
      chunks, regions := [c], [];
    }

    /** rc_buffer_reserve: the first chunk with enough room, a new one only if there is none. */
    method Reserve(amount: nat) returns (c: Chunk)
      requires Valid()
      modifies this`chunks, chunks`next
      ensures Valid() && regions == old(regions) && c in chunks && RoomFor(c, amount)
      ensures if exists i :: 0 <= i < |old(chunks)| && old(RoomFor(chunks[i], amount))
              then chunks == old(chunks) && exists i ::
                     && 0 <= i < |chunks| && c == chunks[i]
                     && forall j :: 0 <= j < i ==> !RoomFor(chunks[j], amount)
              else chunks == old(chunks) + [c] && fresh(c) && fresh(c.data) &&
                   (c.data.Length + HEADER) % 256 == 0 && c.write == 0
    {
      c := chunk;
      ghost var i := 0;
      while c.data.Length - c.write < amount
        invariant Valid() && i < |chunks| && c == chunks[i]
        invariant chunks == old(chunks)
        invariant forall j :: 0 <= j < i ==> !RoomFor(chunks[j], amount)
        decreases |chunks| - i
      {
        if c.next == null {
          c := AddChunk(c, amount);
          return;
        }
        c, i := c.next, i + 1;
      }
    }

    /** A chunk whose size with the header is a multiple of 256. */
    method AddChunk(last: Chunk, amount: nat) returns (c: Chunk)
      requires Valid() && last == chunks[|chunks| - 1]
      modifies this`chunks, chunks`next
      ensures Valid() && chunks == old(chunks) + [c] && regions == old(regions)
      ensures fresh(c) && fresh(c.data) && (c.data.Length + HEADER) % 256 == 0 && c.write == 0 && RoomFor(c, amount)
    {
      var size := SizeFor(amount);
      c := new Chunk(size);
      Grow(last, c);
    }

    method Grow(last: Chunk, added: Chunk)
      requires Valid() && last == chunks[|chunks| - 1]
      requires added !in chunks && added.next == null && added.write == 0 && added.data.Length % 8 == 0
      requires forall i :: 0 <= i < |chunks| ==> chunks[i].data != added.data
      modifies this`chunks, chunks`next
      ensures Valid() && chunks == old(chunks) + [added] && regions == old(regions)
    {
      last.next := added;
      chunks := chunks + [added];
    }

    /** rc_buffer_consume for the reservation at c's write pointer: the bytes up to `end` are handed out. */
    method Consume(c: Chunk, start: nat, end: nat)
      requires Valid() && start <= end && (c in chunks && c.write == start ==> end <= c.data.Length)
      modifies this`regions, c`write
      ensures Valid() && chunks == old(chunks)
      ensures if c in chunks && old(c.write) == start
              then regions == old(regions) + [Region(c, start, end)] &&
                   end <= c.write < end + 8 && c.write <= c.data.Length
              else regions == old(regions) && c.write == old(c.write)
    {
      var k: Chunk? := chunk;
      ghost var i := 0;
      while k != null
        invariant Valid() && i <= |chunks| && k == ChunkAt(chunks, i) && chunks == old(chunks)
        invariant forall j :: 0 <= j < i ==> chunks[j] != c || c.write != start
        invariant c.write == old(c.write) && regions == old(regions)
        decreases |chunks| - i
      {
        if k == c && k.write == start {
          var offset := AlignUp(end, 8);
          k.write := if offset > k.data.Length then k.data.Length else offset;
          regions := regions + [Region(c, start, end)];
          return;
        }
        k, i := k.next, i + 1;
      }
    }

    /** rc_buffer_alloc. */
    method Alloc(amount: nat) returns (c: Chunk, offset: nat)
      requires Valid()
      modifies this, chunks
      ensures Valid() && old(chunks) <= chunks && |chunks| <= |old(chunks)| + 1
      ensures c in chunks && offset % 8 == 0 && offset + amount <= c.data.Length
      ensures regions == old(regions) + [Region(c, offset, offset + amount)]
      ensures forall i :: 0 <= i < |old(regions)| && regions[i].chunk == c ==> regions[i].to <= offset
    {
      c := Reserve(amount);
      offset := c.write;
      Consume(c, offset, offset + amount);
    }

    /** Writing behind a chunk's write pointer touches no region. */
    method CopyIn(c: Chunk, data: string)
      requires Valid() && c in chunks && c.write + |data| <= c.data.Length
      modifies c.data
      ensures Valid() && c.data[c.write..c.write + |data|] == data
      ensures forall i :: 0 <= i < |regions| ==> var r := regions[i];
                r.to <= r.chunk.data.Length ==> r.chunk.data[r.from..r.to] == old(r.chunk.data[r.from..r.to])
    {
      Copy(c.data, c.write, data);
      forall i | 0 <= i < |regions| && regions[i].to <= regions[i].chunk.data.Length
        ensures var r := regions[i]; r.chunk.data[r.from..r.to] == old(r.chunk.data[r.from..r.to])
      {
        var r := regions[i];
        assert r.chunk.data == c.data ==> r.chunk == c && r.to <= c.write;
        assert forall m :: r.from <= m < r.to ==> r.chunk.data[m] == old(r.chunk.data[m]);
      }
    }

    /** rc_buffer_strncpy: the copy is in a region of its own and no other region changes. */
    method Strncpy(src: string) returns (c: Chunk, offset: nat)
      requires Valid()
      modifies this, chunks, set i | 0 <= i < |chunks| :: chunks[i].data
      ensures Valid() && c in chunks
      ensures regions == old(regions) + [Region(c, offset, offset + |src| + 1)] && offset + |src| + 1 <= c.data.Length
      ensures c.data[offset..offset + |src| + 1] == src + ['\0']
      ensures forall i :: 0 <= i < |old(regions)| ==> var r := regions[i];
                r.to <= r.chunk.data.Length ==> r.chunk.data[r.from..r.to] == old(r.chunk.data[r.from..r.to])
    {
      c := Reserve(|src| + 1);
      offset := c.write;
      CopyIn(c, src + ['\0']);
      Consume(c, offset, offset + |src| + 1);
    }
  }
}
