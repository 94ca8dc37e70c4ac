/**
  The linear receive/send buffer (class Stream).

  `buf` is the whole allocation (its length is the capacity); the readable
  bytes are buf[rpos..size) and buf[size..capacity) is free space into which
  the caller may write at End() before publishing the bytes with AddSize.
  Bytes of a fresh allocation have no defined value in C++; the model fills
  them with zeros, and no contract depends on them.
*/
module Streams {
  import opened Bytes
  import Macros

  /** GROW_BLOCK: capacity grows in 64 KiB steps. */
  const GrowBlock: int := 64 * 1024
  /** stream_max_size: the hard ceiling of 16 MiB. */
  const MaxSize: int := 16 * 1024 * 1024

  datatype Stream = Stream(buf: seq<uint8>, rpos: int, size: int, capacity: int)

  /** The representation invariant every operation keeps. */
  predicate Valid(s: Stream) {
    && 0 <= s.rpos <= s.size <= s.capacity <= MaxSize
    && s.capacity > 0
    && s.capacity % GrowBlock == 0
    && |s.buf| == s.capacity
  }

  function Zeros(n: nat): (r: seq<uint8>)
    ensures |r| == n
  {
    seq(n, _ => 0)
  }

  /** Len(): the number of unread bytes. */
  function Len(s: Stream): int { s.size - s.rpos }

  /** The unread bytes, which start at Buf() = buf_ + rpos_. */
  function Readable(s: Stream): (r: seq<uint8>)
    requires Valid(s)
    ensures |r| == Len(s)
  {
    s.buf[s.rpos..s.size]
  }

  /** The constructor: one 64 KiB block, nothing buffered. */
  function NewStream(): (r: Stream)
    ensures Valid(r)
    ensures Len(r) == 0 && r.rpos == 0 && r.size == 0
    ensures r.capacity == GrowBlock
  {
    Stream(Zeros(GrowBlock), 0, 0, GrowBlock)
  }

  /** Shrink(): move the unread bytes to offset 0. */
  function Shrink(s: Stream): (r: Stream)
    requires Valid(s)
    ensures Valid(r)
    ensures r.rpos == 0 && r.capacity == s.capacity
    ensures Readable(r) == Readable(s)
  {
    if s.rpos > 0 then
      var n := s.size - s.rpos;
      Stream(s.buf[s.rpos..s.size] + s.buf[n..], 0, n, s.capacity)
    else s
  }

  /**
    EnsureWritable(n): make room for n more bytes after the unread ones.
    Returns the new stream and the status code (0 or -1).
  */
  function EnsureWritable(s: Stream, n: int): (r: (Stream, int))
    requires Valid(s)
    ensures Valid(r.0)
    ensures r.1 == 0 || r.1 == -1
    ensures n <= 0 ==> r == (s, 0)
    ensures n > 0 ==> r.0.rpos == 0 && Readable(r.0) == Readable(s)
    ensures r.1 == -1 <==> n > 0 && Len(s) + n > MaxSize
    ensures r.1 == -1 ==> r.0.capacity == s.capacity
    ensures r.1 == 0 ==> r.0.capacity - r.0.size >= n
    ensures r.0.capacity >= s.capacity
    ensures r.0.capacity != s.capacity ==> r.0.capacity == Macros.RoundUp(Len(s) + n, GrowBlock)
  {
    if n <= 0 then (s, 0)
    else
      var t := Shrink(s);
      var want := t.size + n;
      if want > MaxSize then (t, -1)
      else if t.capacity < want then
        var cap := Macros.RoundUp(want, GrowBlock);
        Macros.RoundUpSpec(want, GrowBlock);
        Macros.RoundUpBelowMultiple(want, GrowBlock, MaxSize);
        (Stream(t.buf[..t.size] + Zeros(cap - t.size), 0, t.size, cap), 0)
      else (t, 0)
  }

  /** A copy of bytes into the free space at End(); not yet readable. */
  function WriteAtEnd(s: Stream, bytes: seq<uint8>): (r: Stream)
    requires Valid(s) && s.size + |bytes| <= s.capacity
    ensures Valid(r)
    ensures r.rpos == s.rpos && r.size == s.size && r.capacity == s.capacity
    ensures Readable(r) == Readable(s)
    ensures r.buf[r.size..r.size + |bytes|] == bytes
  {
    var b := s.buf[..s.size] + bytes + s.buf[s.size + |bytes|..];
    assert b[s.rpos..s.size] == s.buf[s.rpos..s.size];
    assert b[s.size..s.size + |bytes|] == bytes;
    Stream(b, s.rpos, s.size, s.capacity)
  }

  /** AddSize(n): publish n bytes written at End(), unless that overruns the capacity. */
  function AddSize(s: Stream, n: int): (r: Stream)
    requires Valid(s)
    ensures r.buf == s.buf && r.rpos == s.rpos && r.capacity == s.capacity
    ensures s.size + n > s.capacity ==> r == s
    ensures 0 <= n && s.size + n <= s.capacity ==>
              Valid(r) && Readable(r) == Readable(s) + s.buf[s.size..s.size + n]
  {
    if s.size + n <= s.capacity then s.(size := s.size + n) else s
  }

  /** Append(data): returns the stream and 0, or -1 when it would exceed MaxSize. */
  function Append(s: Stream, data: seq<uint8>): (r: (Stream, int))
    requires Valid(s)
    ensures Valid(r.0)
    ensures r.1 == 0 <==> |data| == 0 || Len(s) + |data| <= MaxSize
    ensures r.1 == 0 ==> Readable(r.0) == Readable(s) + data
    ensures r.1 != 0 ==> r.1 == -1 && Readable(r.0) == Readable(s)
  {
    var (t, rc) := EnsureWritable(s, |data|);
    if rc != 0 then (t, -1)
    else
      var w := WriteAtEnd(t, data);
      (w.(size := w.size + |data|), 0)
  }

  /** Skip(n): consume n bytes, or empty the stream when fewer than n+1 remain. */
  function Skip(s: Stream, n: int): (r: Stream)
    requires Valid(s)
    ensures Valid(r)
    ensures r.buf == s.buf && r.capacity == s.capacity
    ensures n < 0 ==> r == s
    ensures 0 <= n < Len(s) ==> r.size == s.size && Readable(r) == Readable(s)[n..]
    ensures n >= 0 && n >= Len(s) ==> r.rpos == 0 && r.size == 0
  {
    if n < 0 then s
    else if s.rpos + n < s.size then s.(rpos := s.rpos + n)
    else s.(rpos := 0, size := 0)
  }

  /** Reset(): drop everything buffered; the allocation is kept. */
  function Reset(s: Stream): (r: Stream)
    requires Valid(s)
    ensures Valid(r) && Len(r) == 0 && r.rpos == 0
    ensures r.buf == s.buf && r.capacity == s.capacity
  {
    s.(rpos := 0, size := 0)
  }

  /** Bytes written at End() become readable exactly when AddSize publishes them. */
  lemma WriteThenAddSize(s: Stream, bytes: seq<uint8>)
    requires Valid(s) && s.size + |bytes| <= s.capacity
    ensures Readable(WriteAtEnd(s, bytes)) == Readable(s)
    ensures Readable(AddSize(WriteAtEnd(s, bytes), |bytes|)) == Readable(s) + bytes
  {
  }

  /** Consuming what was appended: appending then skipping the old bytes yields the data. */
  lemma AppendThenSkip(s: Stream, data: seq<uint8>)
    requires Valid(s) && Len(s) + |data| <= MaxSize
    ensures Readable(Skip(Append(s, data).0, Len(s))) == data
  {
    var t := Append(s, data).0;
    assert Readable(t) == Readable(s) + data;
    if Len(s) < Len(t) {
      assert Readable(Skip(t, Len(s))) == (Readable(s) + data)[Len(s)..];
    }
  }

  /** Skip(n) lowers the unread length by n, or truncates it to zero. */
  lemma SkipLength(s: Stream, n: int)
    requires Valid(s) && n >= 0
    ensures Len(Skip(s, n)) == if n < Len(s) then Len(s) - n else 0
  {
  }

  /** Skip(k) splits the unread bytes: the k skipped ones, then what remains readable. */
  lemma SkipSplit(s: Stream, k: int)
    requires Valid(s) && 0 <= k <= Len(s)
    ensures Readable(s)[..k] + Readable(Skip(s, k)) == Readable(s)
  {
    if k < Len(s) {
      assert Readable(Skip(s, k)) == Readable(s)[k..];
    } else {
      assert Readable(Skip(s, k)) == [];
    }
  }

  /** Growing out of a single block allocates ROUNDUP(n, 64 KiB) in one step. */
  lemma GrowFromOneBlock(s: Stream, n: int)
    requires Valid(s) && Len(s) == 0 && s.capacity == GrowBlock && GrowBlock < n <= MaxSize
    ensures EnsureWritable(s, n).1 == 0
    ensures EnsureWritable(s, n).0.capacity == Macros.RoundUp(n, GrowBlock)
  {
    var e := EnsureWritable(s, n);
    assert |Readable(e.0)| == e.0.size;
  }

  /** Appending 70,000 bytes to a fresh stream grows it once, to two blocks. */
  lemma AppendSeventyThousand(data: seq<uint8>)
    requires |data| == 70000
    ensures Append(NewStream(), data).1 == 0
    ensures Append(NewStream(), data).0.capacity == 131072
  {
    Macros.DivModUnique(70000 + (GrowBlock - 1), GrowBlock, 2, 4463);
    GrowFromOneBlock(NewStream(), 70000);
  }
}
