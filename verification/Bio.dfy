/**
  The chunked byte queue of bio.c: a FIFO of chunks of at most 4096 bytes, the number of
  bytes of the head chunk already taken, and a cached byte count. Seen from outside it is
  just a sequence of bytes, `Contents()`.
 */
module ByteQueue {
  import opened Bytes

  const CHUNK_SIZE: nat := 4096

  function Flatten(chunks: seq<seq<byte>>): seq<byte> {
    if chunks == [] then [] else chunks[0] + Flatten(chunks[1..])
  }

  lemma {:induction false} FlattenAppend(a: seq<seq<byte>>, b: seq<seq<byte>>)
    ensures Flatten(a + b) == Flatten(a) + Flatten(b)
  {
    if a == [] {
      assert a + b == b;
    } else {
      assert (a + b)[1..] == a[1..] + b;
      FlattenAppend(a[1..], b);
    }
  }

  lemma FlattenSnoc(a: seq<seq<byte>>, c: seq<byte>)
    ensures Flatten(a + [c]) == Flatten(a) + c
  {
    FlattenAppend(a, [c]);
    assert Flatten([c]) == c + Flatten([]);
  }

  lemma AppendAssoc(a: seq<byte>, b: seq<byte>, c: seq<byte>)
    ensures a + (b + c) == a + b + c
  {
  }

  /** Taking `size` bytes at `at` from the head of a flattened queue. */
  lemma TakeFromHead(head: seq<byte>, tail: seq<byte>, at: nat, size: nat)
    requires at + size <= |head|
    ensures (head + tail)[at..] == head[at..at + size] + (head + tail)[at + size..]
    ensures at + size == |head| ==> (head + tail)[at + size..] == tail
  {
  }

  /** Every chunk holds 1..4096 bytes and the offset lies inside the head chunk. */
  ghost predicate ChunksOk(chunks: seq<seq<byte>>, offset: nat) {
    && (forall i :: 0 <= i < |chunks| ==> 1 <= |chunks[i]| <= CHUNK_SIZE)
    && (if chunks == [] then offset == 0 else offset < |chunks[0]|)
  }

  ghost function Rest(chunks: seq<seq<byte>>, offset: nat): seq<byte>
    requires ChunksOk(chunks, offset)
  {
    Flatten(chunks)[offset..]
  }

  lemma RestNone()
    ensures Rest([], 0) == []
  {
  }

  /** Dropping `size` more bytes of the head chunk, and the chunk itself once it is used up. */
  lemma AdvanceOk(chunks: seq<seq<byte>>, offset: nat, size: nat)
    requires ChunksOk(chunks, offset) && chunks != [] && offset + size <= |chunks[0]|
    ensures offset + size < |chunks[0]| ==>
              && ChunksOk(chunks, offset + size)
              && Rest(chunks, offset) == chunks[0][offset..offset + size] + Rest(chunks, offset + size)
    ensures offset + size == |chunks[0]| ==>
              && ChunksOk(chunks[1..], 0)
              && Rest(chunks, offset) == chunks[0][offset..offset + size] + Rest(chunks[1..], 0)
  {
    TakeFromHead(chunks[0], Flatten(chunks[1..]), offset, size);
  }

  /** The chunks bio_write cuts its argument into. */
  function Pieces(buf: seq<byte>): seq<seq<byte>>
    decreases |buf|
  {
    if buf == [] then []
    else [buf[..Min(CHUNK_SIZE, |buf|)]] + Pieces(buf[Min(CHUNK_SIZE, |buf|)..])
  }

  /** They are the argument in order, and all but the last are of exactly 4096 bytes. */
  lemma {:induction false} PiecesShape(buf: seq<byte>)
    ensures Flatten(Pieces(buf)) == buf
    ensures |Pieces(buf)| == (|buf| + 4095) / 4096
    ensures forall i :: 0 <= i < |Pieces(buf)| ==>
              |Pieces(buf)[i]| == if i < |Pieces(buf)| - 1 then 4096 else |buf| - 4096 * i
    decreases |buf|
  {
    if buf != [] {
      var n := Min(CHUNK_SIZE, |buf|);
      PiecesShape(buf[n..]);
      assert Pieces(buf)[1..] == Pieces(buf[n..]);
    }
  }

  lemma NoPieces()
    ensures Pieces([]) == []
  {
  }

  /** The first piece, moved over to what is queued. */
  lemma PieceMoved(chunks: seq<seq<byte>>, buf: seq<byte>, pos: nat)
    requires pos < |buf|
    ensures var size := Min(CHUNK_SIZE, |buf| - pos);
            chunks + Pieces(buf[pos..]) == chunks + [buf[pos..pos + size]] + Pieces(buf[pos + size..])
  {
    var size, rest := Min(CHUNK_SIZE, |buf| - pos), buf[pos..];
    assert rest[..size] == buf[pos..pos + size] && rest[size..] == buf[pos + size..];
  }

  /** One more chunk at the end. */
  lemma ChunkQueued(chunks: seq<seq<byte>>, offset: nat, c: seq<byte>)
    requires ChunksOk(chunks, offset) && 1 <= |c| <= CHUNK_SIZE
    ensures ChunksOk(chunks + [c], offset) && Rest(chunks + [c], offset) == Rest(chunks, offset) + c
  {
    FlattenSnoc(chunks, c);
  }

  class Bio {
    var chunks: seq<seq<byte>>
    var offset: nat
    var len: nat

    ghost predicate Valid()
      reads this
    {
      && ChunksOk(chunks, offset)
      && len == |Rest(chunks, offset)|
    }

    /** The queued bytes, oldest first. */
    ghost function Contents(): (s: seq<byte>)
      reads this
      requires Valid()
      ensures |s| == len
    {
      Rest(chunks, offset)
    }

    constructor ()
      ensures Valid() && Contents() == []
    {
      chunks, offset, len := [], 0, 0;
    }

    /** bio_reset */
    method Reset()
      requires Valid()
      modifies this
      ensures Valid() && Contents() == []
    {
      while chunks != []
        decreases |chunks|
      {
        chunks := chunks[1..];
      }
      offset, len := 0, 0;
    }

    /** bio_write */
    method Write(buf: seq<byte>)
      requires Valid()
      modifies this
      ensures Valid() && Contents() == old(Contents()) + buf
      ensures chunks == old(chunks) + Pieces(buf) && offset == old(offset)
    {
      hide Flatten, Rest, Pieces;
      var pos := 0;
      NoPieces();
      assert buf[0..] == buf;
      while pos < |buf|
        invariant 0 <= pos <= |buf| && offset == old(offset)
        invariant chunks + Pieces(buf[pos..]) == old(chunks) + Pieces(buf)
        invariant Valid() && Contents() == old(Contents()) + buf[..pos]
      {
        var size := Min(CHUNK_SIZE, |buf| - pos);
        ChunkQueued(chunks, offset, buf[pos..pos + size]);
        PieceMoved(chunks, buf, pos);
        assert buf[..pos] + buf[pos..pos + size] == buf[..pos + size];
        chunks := chunks + [buf[pos..pos + size]];
        len := len + size;
        pos := pos + size;
      }
      assert buf[..pos] == buf && buf[pos..] == [];
      assert chunks + [] == chunks;
    }

    /** bio_pending */
    function Pending(): (n: nat)
      requires Valid()
      reads this
      ensures n == |Contents()|
    {
      len
    }

    /** bio_read with a buffer: takes the first min(n, pending) bytes off the queue. */
    method Read(n: nat) returns (buf: seq<byte>)
      requires Valid()
      modifies this
      ensures Valid()
      ensures buf == old(Contents())[..Min(n, |old(Contents())|)]
      ensures old(Contents()) == buf + Contents()
    {
      hide Flatten, Rest;
      buf := [];
      ghost var all := Contents();
      while chunks != [] && |buf| < n
        invariant |buf| <= n && len == |all|
        invariant ChunksOk(chunks, offset)
        invariant all == buf + Rest(chunks, offset)
        decreases |chunks|, n - |buf|
      {
        var head := chunks[0];
        var size := n - |buf|;
        if |head| - offset < size {
          size := |head| - offset;
        }
        AdvanceOk(chunks, offset, size);
        buf := buf + head[offset..offset + size];
        offset := offset + size;
        if offset == |head| {
          chunks := chunks[1..];
          offset := 0;
        }
      }
      RestNone();
      len := len - |buf|;
    }

    /** bio_peek: the prefix that Read would take, leaving the queue alone. */
    method Peek(n: nat) returns (buf: seq<byte>)
      requires Valid()
      ensures buf == Contents()[..Min(n, |Contents()|)]
    {
      buf := [];
      var at: nat := offset;
      var i := 0;
      assert chunks[0..] == chunks;
      while i < |chunks|
        invariant 0 <= i <= |chunks| && |buf| <= n
        invariant at <= |Flatten(chunks[i..])| && (i < |chunks| ==> at < |chunks[i]|)
        invariant i == |chunks| ==> at == 0
        invariant if |buf| < n then Contents() == buf + Flatten(chunks[i..])[at..] else buf <= Contents()
      {
        var head := chunks[i];
        assert chunks[i..][1..] == chunks[i + 1..];
        ghost var tail := Flatten(chunks[i + 1..]);
        assert Flatten(chunks[i..]) == head + tail;
        var size := n - |buf|;
        if |head| - at < size {
          size := |head| - at;
        }
        TakeFromHead(head, tail, at, size);
        AppendAssoc(buf, head[at..at + size], (head + tail)[at + size..]);
        buf := buf + head[at..at + size];
        at := 0;
        i := i + 1;
      }
    }

    /** bio_consume: bio_read without a buffer. */
    method Consume(n: nat) returns (count: nat)
      requires Valid()
      modifies this
      ensures Valid()
      ensures count == Min(n, |old(Contents())|)
      ensures Contents() == old(Contents())[count..]
    {
      var dropped := Read(n);
      count := |dropped|;
    }
  }
}
