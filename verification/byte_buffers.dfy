/** Byte buffers: slices that stop at the end, concatenation, and 32-bit numbers in 32-byte fields. */
module ByteBuffers {
  import opened Util

  type Byte = b: int | 0 <= b < 256

  type Buffer = seq<Byte>

  /** `buffer.slice(from, from + size)`. */
  function Slice(b: Buffer, from: nat, size: nat): (r: Buffer)
    ensures |r| == if |b| <= from then 0 else Min(size, |b| - from)
  {
    if |b| <= from then [] else b[from..Min(from + size, |b|)]
  }

  function Slices(b: Buffer, from: nat, sizes: seq<nat>): (r: seq<Buffer>)
    ensures |r| == |sizes|
    decreases sizes
  {
    if sizes == [] then [] else [Slice(b, from, sizes[0])] + Slices(b, from + sizes[0], sizes[1..])
  }

  function Concat(buffers: seq<Buffer>): Buffer {
    if buffers == [] then [] else buffers[0] + Concat(buffers[1..])
  }

  function Total(sizes: seq<nat>): nat {
    if sizes == [] then 0 else sizes[0] + Total(sizes[1..])
  }

  function Repeat(size: nat, n: nat): (r: seq<nat>)
    ensures |r| == n && forall i | 0 <= i < n :: r[i] == size
  {
    seq(n, _ => size)
  }

  lemma {:induction false} TotalRepeat(size: nat, n: nat)
    ensures Total(Repeat(size, n)) == size * n
  {
    if n > 0 {
      assert Repeat(size, n)[1..] == Repeat(size, n - 1);
      TotalRepeat(size, n - 1);
    }
  }

  lemma {:induction false} ConcatAppend(a: seq<Buffer>, b: seq<Buffer>)
    ensures Concat(a + b) == Concat(a) + Concat(b)
  {
    if a == [] {
      assert a + b == b;
    } else {
      assert (a + b)[1..] == a[1..] + b;
      ConcatAppend(a[1..], b);
    }
  }

  lemma SliceSplit(b: Buffer, from: nat, x: nat, y: nat)
    ensures Slice(b, from, x) + Slice(b, from + x, y) == Slice(b, from, x + y)
  {
  }

  /** Consecutive slices put together are one slice, however short the buffer is. */
  lemma {:induction false} ConcatSlices(b: Buffer, from: nat, sizes: seq<nat>)
    ensures Concat(Slices(b, from, sizes)) == Slice(b, from, Total(sizes))
    decreases sizes
  {
    if sizes != [] {
      ConcatSlices(b, from + sizes[0], sizes[1..]);
      SliceSplit(b, from, sizes[0], Total(sizes[1..]));
    }
  }

  ghost predicate HaveSizes(buffers: seq<Buffer>, sizes: seq<nat>) {
    |buffers| == |sizes| && forall i | 0 <= i < |sizes| :: |buffers[i]| == sizes[i]
  }

  /** Buffers put together are found again by slicing with their sizes. */
  lemma {:induction false} SlicesConcat(before: Buffer, buffers: seq<Buffer>, after: Buffer, sizes: seq<nat>)
    requires HaveSizes(buffers, sizes)
    ensures Slices(before + Concat(buffers) + after, |before|, sizes) == buffers
    decreases buffers
  {
    if buffers != [] {
      var x, rest := buffers[0], buffers[1..];
      var b := before + Concat(buffers) + after;
      assert b == (before + x) + Concat(rest) + after;
      assert Slice(b, |before|, |x|) == x;
      SlicesConcat(before + x, rest, after, sizes[1..]);
    }
  }

  lemma {:induction false} ConcatSize(buffers: seq<Buffer>, sizes: seq<nat>)
    requires HaveSizes(buffers, sizes)
    ensures |Concat(buffers)| == Total(sizes)
  {
    if buffers != [] {
      ConcatSize(buffers[1..], sizes[1..]);
    }
  }

  lemma {:induction false} SliceOfSlices(b: Buffer, from: nat, sizes: seq<nat>, i: nat)
    requires i < |sizes|
    ensures Slices(b, from, sizes)[i] == Slice(b, from + Total(sizes[..i]), sizes[i])
    decreases sizes
  {
    if i > 0 {
      SliceOfSlices(b, from + sizes[0], sizes[1..], i - 1);
      assert sizes[..i][1..] == sizes[1..][..i - 1];
    }
  }

  /** Each offset is the one before plus the size there. */
  ghost predicate Tiles(offsets: seq<nat>, sizes: seq<nat>) {
    && |offsets| == |sizes| > 0
    && forall i | 0 <= i < |sizes| - 1 :: offsets[i + 1] == offsets[i] + sizes[i]
  }

  lemma {:induction false} SlicesAtOffsets(b: Buffer, offsets: seq<nat>, sizes: seq<nat>)
    requires Tiles(offsets, sizes)
    ensures forall i | 0 <= i < |sizes| :: Slices(b, offsets[0], sizes)[i] == Slice(b, offsets[i], sizes[i])
    ensures offsets[0] + Total(sizes) == offsets[|sizes| - 1] + sizes[|sizes| - 1]
    decreases sizes
  {
    if |sizes| > 1 {
      SlicesAtOffsets(b, offsets[1..], sizes[1..]);
    }
  }

  /** The i-th of equally long slices. */
  lemma SliceOfEqual(b: Buffer, from: nat, size: nat, n: nat, i: nat)
    requires i < n
    ensures Slices(b, from, Repeat(size, n))[i] == Slice(b, from + size * i, size)
  {
    SliceOfSlices(b, from, Repeat(size, n), i);
    assert Repeat(size, n)[..i] == Repeat(size, i);
    TotalRepeat(size, i);
  }

  /** Buffers of the same sizes are put together to the same bytes only if they are the same. */
  lemma {:induction false} ConcatInjective(a: seq<Buffer>, b: seq<Buffer>)
    requires |a| == |b| && forall i | 0 <= i < |a| :: |a[i]| == |b[i]|
    requires Concat(a) == Concat(b)
    ensures a == b
  {
    if a != [] {
      assert a[0] == Concat(a)[..|a[0]|] == Concat(b)[..|b[0]|] == b[0];
      assert Concat(a[1..]) == Concat(a)[|a[0]|..] == Concat(b)[|b[0]|..] == Concat(b[1..]);
      ConcatInjective(a[1..], b[1..]);
      assert a == [a[0]] + a[1..] && b == [b[0]] + b[1..];
    }
  }

  lemma {:induction false} ConcatLength(a: seq<Buffer>, b: seq<Buffer>)
    requires |a| == |b| && forall i | 0 <= i < |a| :: |a[i]| == |b[i]|
    ensures |Concat(a)| == |Concat(b)|
  {
    if a != [] {
      ConcatLength(a[1..], b[1..]);
    }
  }

  // ---- numbers ----

  const TWO_32: nat := 0x1_0000_0000

  function Zeros(n: nat): (r: Buffer)
    ensures |r| == n && forall i | 0 <= i < n :: r[i] == 0
  {
    seq(n, _ => 0)
  }

  /** A number in the last 4 bytes of a 32-byte field; the write throws for a larger one. */
  function NumToUInt32BE(n: nat): (r: Buffer)
    requires n < TWO_32
    ensures |r| == 32
  {
    Zeros(28) + [n / 256 / 256 / 256, n / 256 / 256 % 256, n / 256 % 256, n % 256]
  }

  function Push(n: nat, b: Byte): nat { n * 256 + b }

  function Value(b: Buffer): (n: nat)
    requires |b| == 4
    ensures n < TWO_32
  {
    Push(Push(Push(b[0], b[1]), b[2]), b[3])
  }

  /** Reading past the end throws. */
  function ReadUInt32BE(b: Buffer, offset: nat): (r: Result<nat>)
    ensures r.Ok? <==> offset + 4 <= |b|
    ensures r.Ok? ==> r.value < TWO_32
  {
    if offset + 4 <= |b| then Ok(Value(b[offset..offset + 4])) else Err("out of range")
  }

  lemma FourBytes(b: Buffer)
    requires |b| == 4
    ensures Value(b) == (b[0] as int) * 0x100_0000 + (b[1] as int) * 0x1_0000 + (b[2] as int) * 0x100 + b[3]
  {
  }

  lemma NumberRoundTrip(n: nat)
    requires n < TWO_32
    ensures Value(NumToUInt32BE(n)[28..]) == n
  {
    var n1, n2 := n / 256, n / 256 / 256;
    assert NumToUInt32BE(n)[28..] == [n2 / 256, n2 % 256, n1 % 256, n % 256];
    PushBack(n);
    PushBack(n1);
    PushBack(n2);
  }

  lemma PushBack(n: nat)
    ensures Push(n / 256, n % 256) == n
  {
  }

  lemma PopBack(n: nat, b: Byte)
    ensures Push(n, b) / 256 == n && Push(n, b) % 256 == b
  {
  }

  /** Reading a 32-byte field and writing it again keeps it exactly if its first 28 bytes are zero. */
  lemma FieldRoundTrip(b: Buffer)
    requires |b| == 32
    ensures NumToUInt32BE(Value(b[28..])) == b <==> b[..28] == Zeros(28)
  {
    var n := Value(b[28..]);
    var n2 := Push(b[28], b[29]);
    var n1 := Push(n2, b[30]);
    PopBack(b[28], b[29]);
    PopBack(n2, b[30]);
    PopBack(n1, b[31]);
    hide Push, Zeros;
    assert NumToUInt32BE(n)[28..] == b[28..];
    assert NumToUInt32BE(n)[..28] == Zeros(28);
    assert b == b[..28] + b[28..];
  }
}
