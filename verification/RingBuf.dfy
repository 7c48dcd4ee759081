/** src/ringbuf.c: a blocking bounded FIFO over a circular array. One pass under the lock of rb_write
    and of rb_read is a method; RingRuns.dfy interleaves such passes. */
module RingBuf {
  import opened Prelude

  // ---- what the buffer is, seen from outside ------------------------------------------------------

  datatype Fifo = Fifo(contents: Bytes, cap: nat, closed: bool, aborted: bool)

  datatype Wrote = WriteBlocks | WriteFails | Stored(n: nat)

  datatype Got = ReadBlocks | ReadEnds | Taken(bytes: Bytes)

  function Min(a: nat, b: nat): nat {
    if a < b then a else b
  }

  // One pass of rb_write's loop over what is left to write.
  function Store(f: Fifo, src: Bytes): (r: (Wrote, Fifo))
    requires |f.contents| <= f.cap
    ensures |r.1.contents| <= r.1.cap == f.cap
  {
    if f.aborted || f.closed then (WriteFails, f)
    else if |f.contents| == f.cap then (WriteBlocks, f)
    else
      var n := Min(|src|, f.cap - |f.contents|);
      (Stored(n), f.(contents := f.contents + src[..n]))
  }

  // One pass of rb_read's loop.
  function Take(f: Fifo, len: nat): (Got, Fifo) {
    if f.aborted then (ReadEnds, f)
    else if f.contents != [] then
      var n := Min(len, |f.contents|);
      (Taken(f.contents[..n]), f.(contents := f.contents[n..]))
    else if f.closed then (ReadEnds, f)
    else (ReadBlocks, f)
  }

  // ---- the circular array ----------------------------------------------------------------------------

  // A stretch of an array overwritten.
  function Overwrite(s: Bytes, to: nat, bytes: Bytes): (r: Bytes)
    requires to + |bytes| <= |s|
    ensures |r| == |s|
  {
    s[..to] + bytes + s[to + |bytes|..]
  }

  // memcpy between two arrays
  method Copy(dst: array<byte>, to: nat, src: array<byte>, from: nat, n: nat)
    requires dst != src && to + n <= dst.Length && from + n <= src.Length
    modifies dst
    ensures dst[..] == Overwrite(old(dst[..]), to, src[..][from..from + n])
  {
    for i := 0 to n
      invariant dst[..] == Overwrite(old(dst[..]), to, src[..][from..from + i])
    {
      OverwriteExtends(old(dst[..]), to, src[..][from..from + i], src[from + i]);
      assert src[..][from..from + i + 1] == src[..][from..from + i] + [src[from + i]];
      dst[to + i] := src[from + i];
    }
  }

  lemma OverwriteExtends(s: Bytes, to: nat, bytes: Bytes, b: byte)
    requires to + |bytes| < |s|
    ensures Overwrite(s, to, bytes + [b]) == Overwrite(s, to, bytes)[to + |bytes| := b]
  {}

  // What a ring holds from head on.
  function Slice(ring: Bytes, head: nat, count: nat): (s: Bytes)
    requires head <= |ring| && count <= |ring|
    ensures |s| == count
    ensures forall k | 0 <= k < count :: s[k] == ring[if head + k < |ring| then head + k else head + k - |ring|]
  {
    if head + count <= |ring| then ring[head..head + count]
    else ring[head..] + ring[..head + count - |ring|]
  }

  // Where index i of a ring lands, for i less than twice round.
  function Wrap(i: nat, cap: nat): (r: nat)
    requires i < 2 * cap
    ensures r == if i < cap then i else i - cap
  {
    Reduce(i, cap);
    i % cap
  }

  lemma Reduce(i: nat, cap: nat)
    requires i < 2 * cap
    ensures i % cap == if i < cap then i else i - cap
  {}

  lemma SliceParts(ring: Bytes, head: nat, n: nat)
    requires head < |ring| && n <= |ring|
    ensures Slice(ring, head, n) ==
      if head + n <= |ring| then ring[head..head + n] else ring[head..|ring|] + ring[0..head + n - |ring|]
  {}

  lemma ReplacedFront(ring: Bytes, tail: nat, bytes: Bytes, from: nat)
    requires from <= tail && tail + |bytes| <= |ring|
    ensures (ring[..tail] + bytes + ring[tail + |bytes|..])[from..tail + |bytes|] == ring[from..tail] + bytes
  {}

  lemma ReplacedBack(ring: Bytes, tail: nat, bytes: Bytes, from: nat)
    requires tail + |bytes| <= from <= |ring|
    ensures (ring[..tail] + bytes + ring[tail + |bytes|..])[from..|ring|] == ring[from..|ring|]
  {}

  lemma Associates(a: Bytes, b: Bytes, c: Bytes)
    ensures a + (b + c) == a + b + c && a + [] == a && [] + a == a
  {}

  // What is held runs on from head to the tail,
  lemma StraightOn(ring: Bytes, head: nat, tail: nat, bytes: Bytes)
    requires head <= tail < |ring| && tail + |bytes| <= |ring|
    ensures Slice(ring[..tail] + bytes + ring[tail + |bytes|..], head, tail - head + |bytes|) ==
      Slice(ring, head, tail - head) + bytes
  {
    hide Slice;
    SliceParts(ring, head, tail - head);
    SliceParts(ring[..tail] + bytes + ring[tail + |bytes|..], head, tail - head + |bytes|);
    ReplacedFront(ring, tail, bytes, head);
  }

  // or ends the array and begins it again.
  lemma StraightRound(ring: Bytes, head: nat, tail: nat, bytes: Bytes)
    requires tail + |bytes| <= head < |ring|
    ensures Slice(ring[..tail] + bytes + ring[tail + |bytes|..], head, |ring| - head + tail + |bytes|) ==
      Slice(ring, head, |ring| - head + tail) + bytes
  {
    hide Slice;
    SliceRound(ring, head, tail);
    SliceRound(ring[..tail] + bytes + ring[tail + |bytes|..], head, tail + |bytes|);
    ReplacedFront(ring, tail, bytes, 0);
    ReplacedBack(ring, tail, bytes, head);
    Associates(ring[head..|ring|], ring[0..tail], bytes);
  }

  lemma SliceRound(ring: Bytes, head: nat, tail: nat)
    requires tail <= head < |ring|
    ensures Slice(ring, head, |ring| - head + tail) == ring[head..|ring|] + ring[0..tail]
  {
    hide Slice;
    SliceParts(ring, head, |ring| - head + tail);
  }

  // Writing into one stretch from the tail on appends.
  lemma StoreStraight(ring: Bytes, head: nat, count: nat, bytes: Bytes)
    requires head < |ring| && count + |bytes| <= |ring|
    requires Wrap(head + count, |ring|) + |bytes| <= |ring|
    ensures var tail := Wrap(head + count, |ring|);
      Slice(ring[..tail] + bytes + ring[tail + |bytes|..], head, count + |bytes|) == Slice(ring, head, count) + bytes
  {
    hide *;
    var tail := Wrap(head + count, |ring|);
    if head + count < |ring| {
      StraightOn(ring, head, tail, bytes);
    } else {
      StraightRound(ring, head, tail, bytes);
    }
  }

  // Writing up to the end of the array and the rest at its start appends too.
  lemma StoreAround(ring: Bytes, head: nat, count: nat, bytes: Bytes, first: nat)
    requires head + count < |ring| && count + |bytes| <= |ring|
    requires first == |ring| - (head + count) < |bytes|
    ensures
      Slice(bytes[first..] + ring[|bytes| - first..head + count] + bytes[..first], head, count + |bytes|)
      == Slice(ring, head, count) + bytes
  {
    var ring' := bytes[first..] + ring[|bytes| - first..head + count] + bytes[..first];
    assert ring'[head..] == ring[head..head + count] + bytes[..first];
    assert ring'[..|bytes| - first] == bytes[first..];
    assert bytes[..first] + bytes[first..] == bytes;
  }

  // A ring after the two copies of rb_write.
  function Placed(ring: Bytes, tail: nat, bytes: Bytes): (r: Bytes)
    requires tail < |ring| && |bytes| <= |ring|
    ensures |r| == |ring|
  {
    var first := |ring| - tail;
    if |bytes| <= first then ring[..tail] + bytes + ring[tail + |bytes|..]
    else bytes[first..] + ring[|bytes| - first..tail] + bytes[..first]
  }

  lemma OverwriteAround(ring: Bytes, tail: nat, a: Bytes, b: Bytes)
    requires tail + |a| == |ring| && |b| <= tail
    ensures Overwrite(Overwrite(ring, tail, a), 0, b) == b + ring[|b|..tail] + a
  {
    var half := ring[..tail] + a;
    assert Overwrite(ring, tail, a) == half;
    assert half[|b|..] == ring[|b|..tail] + a;
  }

  lemma PlacedIs(ring: Bytes, tail: nat, bytes: Bytes)
    requires tail < |ring| && |bytes| <= |ring|
    ensures var first := |ring| - tail;
      Placed(ring, tail, bytes) ==
        if |bytes| <= first then Overwrite(ring, tail, bytes)
        else bytes[first..] + ring[|bytes| - first..tail] + bytes[..first]
  {}

  lemma PlacedInPieces(ring: Bytes, tail: nat, bytes: Bytes, first: nat)
    requires tail < |ring| && |bytes| <= |ring| && first == Min(|bytes|, |ring| - tail)
    ensures var half := Overwrite(ring, tail, bytes[..first]);
      Placed(ring, tail, bytes) == if |bytes| > first then Overwrite(half, 0, bytes[first..]) else half
  {
    hide Overwrite, Placed;
    PlacedIs(ring, tail, bytes);
    if |bytes| > first {
      OverwriteAround(ring, tail, bytes[..first], bytes[first..]);
    } else {
      assert bytes[..first] == bytes;
    }
  }

  lemma OverwriteTwice(dst: Bytes, a: Bytes, b: Bytes)
    requires |a| + |b| <= |dst|
    ensures Overwrite(Overwrite(dst, 0, a), |a|, b) == Overwrite(dst, 0, a + b)
  {
    var half := a + dst[|a|..];
    assert Overwrite(dst, 0, a) == half;
    assert half[|a| + |b|..] == dst[|a| + |b|..];
  }

  lemma SliceInPieces(ring: Bytes, head: nat, n: nat, dst: Bytes, first: nat)
    requires head < |ring| && n <= |ring| && n <= |dst| && first == Min(n, |ring| - head)
    ensures var half := Overwrite(dst, 0, ring[head..head + first]);
      Overwrite(dst, 0, Slice(ring, head, n)) == if n > first then Overwrite(half, first, ring[0..n - first]) else half
  {
    hide Overwrite, Slice;
    SliceParts(ring, head, n);
    if n > first { OverwriteTwice(dst, ring[head..head + first], ring[0..n - first]); }
  }

  lemma SplitSlice(s: Bytes, at: nat, first: nat, n: nat)
    requires first <= n && at + n <= |s|
    ensures s[at..at + n][..first] == s[at..at + first]
    ensures s[at..at + n][first..] == s[at + first..at + first + (n - first)]
  {}

  lemma PlacedAppends(ring: Bytes, head: nat, count: nat, bytes: Bytes)
    requires head < |ring| && count + |bytes| <= |ring|
    ensures Slice(Placed(ring, Wrap(head + count, |ring|), bytes), head, count + |bytes|) == Slice(ring, head, count) + bytes
  {
    hide Wrap, Slice;
    var tail := Wrap(head + count, |ring|);
    if tail + |bytes| <= |ring| {
      StoreStraight(ring, head, count, bytes);
    } else {
      StoreAround(ring, head, count, bytes, |ring| - tail);
    }
  }

  // Skipping n bytes from the head on leaves the rest.
  lemma TakeDrops(ring: Bytes, head: nat, count: nat, n: nat)
    requires head < |ring| && n <= count <= |ring|
    ensures Slice(ring, Wrap(head + n, |ring|), count - n) == Slice(ring, head, count)[n..]
  {
    hide Wrap, Slice;
    var s := Slice(ring, head, count);
    forall k | 0 <= k < count - n
      ensures Slice(ring, Wrap(head + n, |ring|), count - n)[k] == s[n..][k]
    {
      assert s[n..][k] == s[n + k];
    }
  }

  // What rb_read copies is the first n bytes.
  lemma TakeCopies(ring: Bytes, head: nat, count: nat, n: nat)
    requires head < |ring| && n <= count <= |ring|
    ensures Slice(ring, head, count)[..n] == Slice(ring, head, n)
  {}

  // The tail moves on with the bytes stored, and stays put when the head takes some.
  lemma TailMoves(head: nat, count: nat, n: nat, cap: nat)
    requires head < cap && count + n <= cap
    ensures Wrap(Wrap(head + count, cap) + n, cap) == Wrap(head + count + n, cap)
    ensures Wrap(Wrap(head + n, cap) + count, cap) == Wrap(head + count + n, cap)
  {}

  class RingBuf {
    const data: array<byte>
    const cap: nat
    var head: nat
    var tail: nat
    var count: nat
    var closed: bool
    var aborted: bool

    // The tail is always where the head and the number of bytes stored put it.
    ghost predicate Valid()
      reads this
    {
      && 0 < cap == data.Length
      && head < cap && count <= cap
      && tail == Wrap(head + count, cap)
    }

    ghost function View(): (f: Fifo)
      requires Valid()
      reads this, data
      ensures |f.contents| == count
    {
      Fifo(Slice(data[..], head, count), cap, closed, aborted)
    }

    constructor (capacity: nat)
      requires capacity > 0
      ensures Valid() && fresh(data)
      ensures View() == Fifo([], capacity, false, false)
    {
      data := new byte[capacity];
      cap := capacity;
      head, tail, count, closed, aborted := 0, 0, 0, false, false;
    }

    // rb_init refuses an empty buffer.
    static method Init(capacity: nat) returns (rb: Option<RingBuf>)
      ensures rb.None? <==> capacity == 0
      ensures rb.Some? ==>
        fresh(rb.value) && fresh(rb.value.data) && rb.value.Valid() &&
        rb.value.View() == Fifo([], capacity, false, false)
    {
      if capacity == 0 { return None; }
      var made := new RingBuf(capacity);
      rb := Some(made);
    }

    // The two copies of rb_write.
    method CopyIn(src: array<byte>, at: nat, n: nat)
      requires Valid() && n <= cap && at + n <= src.Length && src != data
      modifies data
      ensures data[..] == Placed(old(data[..]), tail, src[..][at..at + n])
    {
      hide Wrap, Placed, Overwrite;
      var first := cap - tail;
      if first > n { first := n; }
      PlacedInPieces(data[..], tail, src[..][at..at + n], first);
      SplitSlice(src[..], at, first, n);
      Copy(data, tail, src, at, first);
      if n > first { Copy(data, 0, src, at + first, n - first); }
    }

    // The two copies of rb_read.
    method CopyOut(dst: array<byte>, n: nat)
      requires Valid() && n <= count && n <= dst.Length && dst != data
      modifies dst
      ensures dst[..] == Overwrite(old(dst[..]), 0, Slice(data[..], head, n))
    {
      hide Wrap, Overwrite, Slice;
      var first := cap - head;
      if first > n { first := n; }
      SliceInPieces(data[..], head, n, dst[..], first);
      Copy(dst, 0, data, head, first);
      if n > first { Copy(dst, first, data, 0, n - first); }
    }

    // rb_write, from taking the lock to giving it up: store what fits of src[at..].
    method StorePass(src: array<byte>, at: nat) returns (r: Wrote)
      requires Valid() && at <= src.Length && src != data
      modifies this, data
      ensures Valid()
      ensures (r, View()) == Store(old(View()), src[at..])
    {
      hide Wrap, Slice, Placed;
      if aborted || closed { return WriteFails; }
      if count == cap { return WriteBlocks; }
      var n := Min(src.Length - at, cap - count);
      assert src[..][at..at + n] == src[at..][..n];
      PlacedAppends(data[..], head, count, src[..][at..at + n]);
      TailMoves(head, count, n, cap);
      CopyIn(src, at, n);
      tail := Wrap(tail + n, cap);
      count := count + n;
      r := Stored(n);
    }

    // rb_read, from taking the lock to giving it up: fetch at most len bytes into dst.
    method TakePass(dst: array<byte>, len: nat) returns (r: Got)
      requires Valid() && len <= dst.Length && dst != data
      modifies this, dst
      ensures Valid()
      ensures (r, View()) == Take(old(View()), len)
      ensures r.Taken? ==> |r.bytes| <= len && dst[..] == r.bytes + old(dst[|r.bytes|..])
      ensures !r.Taken? ==> dst[..] == old(dst[..])
    {
      hide Wrap, Slice;
      if aborted { return ReadEnds; }
      if count > 0 {
        var n := Min(len, count);
        TakeCopies(data[..], head, count, n);
        TakeDrops(data[..], head, count, n);
        TailMoves(head, count - n, n, cap);
        CopyOut(dst, n);
        r := Taken(dst[..n]);
        assert r.bytes == Slice(data[..], head, n);
        assert dst[..] == r.bytes + old(dst[..])[n..];
        head := Wrap(head + n, cap);
        count := count - n;
        return;
      }
      r := if closed then ReadEnds else ReadBlocks;
    }

    method Close()
      requires Valid()
      modifies `closed
      ensures Valid() && View() == old(View()).(closed := true)
    {
      closed := true;
    }

    method Abort()
      requires Valid()
      modifies `aborted
      ensures Valid() && View() == old(View()).(aborted := true)
    {
      aborted := true;
    }

    method Reset()
      requires Valid()
      modifies this
      ensures Valid() && View() == Fifo([], cap, false, false)
    {
      head, tail, count, closed, aborted := 0, 0, 0, false, false;
    }

    method Count() returns (n: nat)
      requires Valid()
      ensures n == |View().contents|
    {
      n := count;
    }
  }
}
