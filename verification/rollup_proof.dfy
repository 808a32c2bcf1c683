/**
 * account-migrator's reader and writer of the old rollup proof format: a header of 14 fields, one
 * inner proof per tx, the recursive proof output, and a separate stream of viewing keys.
 */
module RollupProof {
  import opened Util
  import opened ByteBuffers

  const INNER_LENGTH: nat := 12 * 32
  const NUMBER_OF_ASSETS: nat := 4
  const LENGTH_ROLLUP_PUBLIC: nat := 14 * 32
  const RECURSIVE_LENGTH: nat := 16 * 32
  const VIEWING_KEY_SIZE: nat := 112

  // ---- inner proofs ----

  datatype InnerProofData = InnerProofData(
    proofId: nat, publicInput: Buffer, publicOutput: Buffer, assetId: Buffer, newNote1: Buffer, newNote2: Buffer,
    nullifier1: Buffer, nullifier2: Buffer, inputOwner: Buffer, outputOwner: Buffer)
  {
    predicate IsPadding() { nullifier1 == Zeros(32) }

    function Fields(): (r: seq<Buffer>)
      requires proofId < TWO_32
      ensures |r| == 10
    {
      [NumToUInt32BE(proofId), publicInput, publicOutput, assetId, newNote1, newNote2, nullifier1, nullifier2,
       inputOwner, outputOwner]
    }

    function ToBuffer(): Buffer
      requires proofId < TWO_32
    {
      Concat(Fields())
    }

    ghost predicate WellSized() { proofId < TWO_32 && HaveSizes(Fields(), InnerSizes) }
  }

  const InnerSizes: seq<nat> := [32, 32, 32, 32, 64, 64, 32, 32, 32, 32]

  const InnerOffsets: seq<nat> := [0, 32, 64, 96, 128, 192, 256, 288, 320, 352]

  function InnerFromBuffer(b: Buffer): Result<InnerProofData> {
    match ReadUInt32BE(b, 28)
    case Err(e) => Err(e)
    case Ok(proofId) =>
      Ok(InnerProofData(proofId, Slice(b, 1 * 32, 32), Slice(b, 2 * 32, 32), Slice(b, 3 * 32, 32), Slice(b, 4 * 32, 64),
                        Slice(b, 6 * 32, 64), Slice(b, 8 * 32, 32), Slice(b, 9 * 32, 32), Slice(b, 10 * 32, 32),
                        Slice(b, 11 * 32, 32)))
  }

  /** The inner proof whose fields are these buffers, with the number in the first read. */
  function OfFields(proofId: nat, f: seq<Buffer>): InnerProofData
    requires |f| == 10
  {
    InnerProofData(proofId, f[1], f[2], f[3], f[4], f[5], f[6], f[7], f[8], f[9])
  }

  lemma FieldsOfFields(proofId: nat, f: seq<Buffer>)
    requires |f| == 10 && proofId < TWO_32
    ensures OfFields(proofId, f).Fields() == [NumToUInt32BE(proofId)] + f[1..]
  {
    hide NumToUInt32BE;
  }

  lemma FieldsAreAll(p: InnerProofData)
    requires p.proofId < TWO_32
    ensures OfFields(p.proofId, p.Fields()) == p
  {
  }

  /** Decoding takes the slices at the sums of the sizes before them. */
  lemma InnerSlices(b: Buffer)
    ensures Total(InnerSizes) == INNER_LENGTH
    ensures Slices(b, 0, InnerSizes)[0] == Slice(b, 0, 32)
    ensures InnerFromBuffer(b).Ok? ==>
              InnerFromBuffer(b).value == OfFields(InnerFromBuffer(b).value.proofId, Slices(b, 0, InnerSizes))
  {
    SlicesAtOffsets(b, InnerOffsets, InnerSizes);
    hide Slice, Slices;
  }

  /** A number is read from the last bytes of its own field. */
  lemma ReadInField(b: Buffer, from: nat)
    requires |Slice(b, from, 32)| == 32
    ensures ReadUInt32BE(b, from + 28) == ReadUInt32BE(Slice(b, from, 32), 28) == Ok(Value(Slice(b, from, 32)[28..]))
  {
    assert b[from + 28..from + 28 + 4] == Slice(b, from, 32)[28..];
    assert Slice(b, from, 32)[28..32] == Slice(b, from, 32)[28..];
  }

  lemma InnerRoundTrip(p: InnerProofData)
    requires p.WellSized()
    ensures |p.ToBuffer()| == INNER_LENGTH && InnerFromBuffer(p.ToBuffer()) == Ok(p)
  {
    var b, f := p.ToBuffer(), p.Fields();
    hide Concat, Slices;
    assert f[0] == NumToUInt32BE(p.proofId);
    FieldsAreAll(p);
    hide InnerProofData.Fields, OfFields;
    assert [] + Concat(f) + [] == b;
    SlicesConcat([], f, [], InnerSizes);
    ConcatSlices(b, 0, InnerSizes);
    InnerSlices(b);
    ReadInField(b, 0);
    NumberRoundTrip(p.proofId);
  }

  /** Re-encoding what was decoded keeps the length, and the bytes exactly if the unused ones are zero. */
  lemma InnerBytesRoundTrip(b: Buffer)
    requires |b| <= INNER_LENGTH && InnerFromBuffer(b).Ok?
    ensures var p := InnerFromBuffer(b).value;
            && p.proofId < TWO_32 && |p.ToBuffer()| == |b|
            && (p.ToBuffer() == b <==> b[..28] == Zeros(28))
  {
    var p, f := InnerFromBuffer(b).value, Slices(b, 0, InnerSizes);
    InnerSlices(b);
    ReadInField(b, 0);
    ConcatSlices(b, 0, InnerSizes);
    FieldsOfFields(p.proofId, f);
    hide *;
    NumberField(f);
    assert Concat(f) == b by { WholeSlice(b, INNER_LENGTH); }
    assert f[0][..28] == b[..28] by { FirstSlice(b); }
  }

  lemma WholeSlice(b: Buffer, size: nat)
    requires |b| <= size
    ensures Slice(b, 0, size) == b
  {
  }

  lemma FirstSlice(b: Buffer)
    requires |b| >= 32
    ensures Slice(b, 0, 32)[..28] == b[..28]
  {
  }

  /** Reading the number in the first of some buffers and writing it again. */
  lemma NumberField(f: seq<Buffer>)
    requires f != [] && |f[0]| == 32
    ensures var r := [NumToUInt32BE(Value(f[0][28..]))] + f[1..];
            |Concat(r)| == |Concat(f)| && (Concat(r) == Concat(f) <==> f[0][..28] == Zeros(28))
  {
    FieldRoundTrip(f[0]);
    FirstField(NumToUInt32BE(Value(f[0][28..])), f);
  }

  /** Replacing the first buffer by one of its size. */
  lemma FirstField(x: Buffer, buffers: seq<Buffer>)
    requires buffers != [] && |x| == |buffers[0]|
    ensures var r := [x] + buffers[1..];
            |Concat(r)| == |Concat(buffers)| && (Concat(r) == Concat(buffers) <==> x == buffers[0])
  {
    var r := [x] + buffers[1..];
    assert r[1..] == buffers[1..];
    assert x == Concat(r)[..|x|] && buffers[0] == Concat(buffers)[..|x|];
  }

  // ---- rollups ----

  datatype RollupProofData = RollupProofData(
    rollupId: nat, rollupSize: nat, dataStartIndex: nat, oldDataRoot: Buffer, newDataRoot: Buffer, oldNullRoot: Buffer,
    newNullRoot: Buffer, oldDataRootsRoot: Buffer, newDataRootsRoot: Buffer, totalTxFees: seq<Buffer>, numTxs: nat,
    innerProofData: seq<InnerProofData>, recursiveProofOutput: Buffer, viewingKeys: seq<seq<Buffer>>)
  {
    /** The writes of numbers do not throw, and the constructor has accepted the fees. */
    ghost predicate Encodable() {
      && rollupId < TWO_32 && rollupSize < TWO_32 && dataStartIndex < TWO_32 && numTxs < TWO_32
      && |totalTxFees| == NUMBER_OF_ASSETS
      && forall i | 0 <= i < |innerProofData| :: innerProofData[i].proofId < TWO_32
    }

    function Header(): (r: seq<Buffer>)
      requires Encodable()
      ensures |r| == 14
    {
      [NumToUInt32BE(rollupId), NumToUInt32BE(rollupSize), NumToUInt32BE(dataStartIndex), oldDataRoot, newDataRoot,
       oldNullRoot, newNullRoot, oldDataRootsRoot, newDataRootsRoot] + totalTxFees + [NumToUInt32BE(numTxs)]
    }

    function Inners(): (r: seq<Buffer>)
      requires Encodable()
      ensures |r| == |innerProofData| && forall i | 0 <= i < |r| :: r[i] == innerProofData[i].ToBuffer()
    {
      seq(|innerProofData|, i requires 0 <= i < |innerProofData| => innerProofData[i].ToBuffer())
    }

    function ToBuffer(): Buffer
      requires Encodable()
    {
      Concat(Header() + Inners() + [recursiveProofOutput])
    }

    ghost predicate WellSized() {
      && Encodable()
      && |innerProofData| == InnerProofSize(rollupSize)
      && (forall i | 0 <= i < |innerProofData| :: innerProofData[i].WellSized())
      && HaveSizes(Header(), Repeat(32, 14)) && |recursiveProofOutput| == RECURSIVE_LENGTH
    }
  }

  /** An escape hatch rollup is marked by size 0, but holds one proof. */
  function InnerProofSize(rollupSize: nat): nat { if rollupSize < 1 then 1 else rollupSize }

  function InnerStart(i: nat): nat { LENGTH_ROLLUP_PUBLIC + i * INNER_LENGTH }

  function HeaderOf(b: Buffer): RollupProofData
    requires |b| >= LENGTH_ROLLUP_PUBLIC
  {
    RollupProofData(ReadUInt32BE(b, 28).value, ReadUInt32BE(b, 1 * 32 + 28).value, ReadUInt32BE(b, 2 * 32 + 28).value,
                    Slice(b, 3 * 32, 32), Slice(b, 4 * 32, 32), Slice(b, 5 * 32, 32), Slice(b, 6 * 32, 32),
                    Slice(b, 7 * 32, 32), Slice(b, 8 * 32, 32),
                    [Slice(b, 9 * 32, 32), Slice(b, 10 * 32, 32), Slice(b, 11 * 32, 32), Slice(b, 12 * 32, 32)],
                    ReadUInt32BE(b, (9 + NUMBER_OF_ASSETS) * 32 + 28).value, [], [], [])
  }

  function InnersOf(b: Buffer, n: nat): Result<seq<InnerProofData>> {
    if n == 0 then Ok([])
    else
      match InnersOf(b, n - 1)
      case Err(e) => Err(e)
      case Ok(front) =>
        match InnerFromBuffer(Slice(b, InnerStart(n - 1), INNER_LENGTH))
        case Err(e) => Err(e)
        case Ok(p) => Ok(front + [p])
  }

  /** Decoding, without viewing keys. Too short a buffer throws, and nothing else does. */
  function Decode(b: Buffer): Result<RollupProofData> {
    if |b| < LENGTH_ROLLUP_PUBLIC then Err("out of range")
    else
      var r := HeaderOf(b);
      var n := InnerProofSize(r.rollupSize);
      match InnersOf(b, n)
      case Err(e) => Err(e)
      case Ok(inners) => Ok(r.(innerProofData := inners,
                               recursiveProofOutput := Slice(b, InnerStart(n), RECURSIVE_LENGTH)))
  }

  lemma {:induction false} InnersOfFacts(b: Buffer, n: nat)
    ensures InnersOf(b, n).Ok? <==> n == 0 || |b| >= InnerStart(n - 1) + 32
    ensures InnersOf(b, n).Ok? ==>
              && |InnersOf(b, n).value| == n
              && forall i | 0 <= i < n ::
                   InnerFromBuffer(Slice(b, InnerStart(i), INNER_LENGTH)) == Ok(InnersOf(b, n).value[i])
  {
    if n > 0 {
      InnersOfFacts(b, n - 1);
    }
  }

  /** What of a rollup's bytes decoding does not look at: the bytes before each number. */
  ghost predicate UnusedAreZero(b: Buffer, n: nat) {
    && ZeroBefore(b, 0) && ZeroBefore(b, 32) && ZeroBefore(b, 64) && ZeroBefore(b, 13 * 32)
    && forall i | 0 <= i < n :: ZeroBefore(b, InnerStart(i))
  }

  ghost predicate ZeroBefore(b: Buffer, from: nat) { Slice(b, from, 28) == Zeros(28) }

  // ---- header ----

  ghost predicate SameBut(f: seq<Buffer>, g: seq<Buffer>, numbers: set<nat>) {
    |f| == |g| && forall i: nat | i < |f| ::
      if i in numbers then |g[i]| == 32 && f[i] == NumToUInt32BE(Value(g[i][28..])) else f[i] == g[i]
  }

  /** Buffers with some numbers read and written again: equal exactly if the numbers' other bytes are zero. */
  lemma NumbersRoundTrip(f: seq<Buffer>, g: seq<Buffer>, numbers: set<nat>)
    requires SameBut(f, g, numbers) && forall i | i in numbers :: i < |g|
    ensures forall i | 0 <= i < |f| :: |f[i]| == |g[i]|
    ensures f == g <==> forall i | i in numbers :: g[i][..28] == Zeros(28)
  {
    forall i: nat | i < |f|
      ensures |f[i]| == |g[i]|
      ensures i in numbers ==> (f[i] == g[i] <==> g[i][..28] == Zeros(28))
    {
      if i in numbers {
        FieldRoundTrip(g[i]);
      }
    }
  }

  function HeaderSlices(b: Buffer): (r: seq<Buffer>)
    ensures |r| == 14
  {
    Slices(b, 0, Repeat(32, 14))
  }

  lemma HeaderSlice(b: Buffer, i: nat)
    requires i < 14
    ensures HeaderSlices(b)[i] == Slice(b, i * 32, 32)
  {
    SliceOfEqual(b, 0, 32, 14, i);
  }

  lemma HeaderSlicesTogether(b: Buffer)
    ensures Concat(HeaderSlices(b)) == Slice(b, 0, LENGTH_ROLLUP_PUBLIC)
  {
    ConcatSlices(b, 0, Repeat(32, 14));
    TotalRepeat(32, 14);
  }

  /** The header whose fields are these buffers, with the numbers read. */
  function OfHeader(f: seq<Buffer>): RollupProofData
    requires |f| == 14 && |f[0]| == |f[1]| == |f[2]| == |f[13]| == 32
  {
    RollupProofData(Value(f[0][28..]), Value(f[1][28..]), Value(f[2][28..]), f[3], f[4], f[5], f[6], f[7], f[8],
                    f[9..13], Value(f[13][28..]), [], [], [])
  }

  lemma HeaderOfSlices(b: Buffer)
    requires |b| >= LENGTH_ROLLUP_PUBLIC
    ensures var f := HeaderSlices(b);
            |f[0]| == |f[1]| == |f[2]| == |f[13]| == 32 && HeaderOf(b) == OfHeader(f)
  {
    hide HeaderSlices, Slice, Value;
    var f := HeaderSlices(b);
    forall i: nat | i < 14
      ensures f[i] == Slice(b, i * 32, 32)
    {
      HeaderSlice(b, i);
    }
    ReadInField(b, 0);
    ReadInField(b, 32);
    ReadInField(b, 64);
    ReadInField(b, 13 * 32);
    assert f[9..13] == [f[9], f[10], f[11], f[12]];
  }

  lemma OfHeaderHeader(f: seq<Buffer>)
    requires |f| == 14 && |f[0]| == |f[1]| == |f[2]| == |f[13]| == 32
    ensures OfHeader(f).Encodable() && SameBut(OfHeader(f).Header(), f, {0, 1, 2, 13})
  {
    hide Value, NumToUInt32BE;
    var h := OfHeader(f).Header();
    assert h[9..13] == f[9..13];
    assert forall i | 9 <= i < 13 :: h[i] == h[9..13][i - 9] && f[i] == f[9..13][i - 9];
  }

  // ---- round trips ----

  function InnerSlicesOf(b: Buffer, n: nat): (r: seq<Buffer>)
    ensures |r| == n
  {
    Slices(b, LENGTH_ROLLUP_PUBLIC, Repeat(INNER_LENGTH, n))
  }

  lemma InnerSlice(b: Buffer, n: nat, i: nat)
    requires i < n
    ensures InnerSlicesOf(b, n)[i] == Slice(b, InnerStart(i), INNER_LENGTH)
  {
    SliceOfEqual(b, LENGTH_ROLLUP_PUBLIC, INNER_LENGTH, n, i);
  }

  /** The slices that decoding takes cover the buffer, up to its end or that of the format. */
  lemma AllSlices(b: Buffer, n: nat)
    ensures Concat(HeaderSlices(b) + InnerSlicesOf(b, n) + [Slice(b, InnerStart(n), RECURSIVE_LENGTH)]) ==
            Slice(b, 0, InnerStart(n) + RECURSIVE_LENGTH)
  {
    HeaderSlicesTogether(b);
    ConcatSlices(b, LENGTH_ROLLUP_PUBLIC, Repeat(INNER_LENGTH, n));
    TotalRepeat(INNER_LENGTH, n);
    JoinThree(HeaderSlices(b), InnerSlicesOf(b, n), Slice(b, InnerStart(n), RECURSIVE_LENGTH));
    SliceSplit(b, 0, LENGTH_ROLLUP_PUBLIC, INNER_LENGTH * n);
    SliceSplit(b, 0, InnerStart(n), RECURSIVE_LENGTH);
    hide Slice, HeaderSlices, Slices, Concat;
  }

  lemma JoinThree(a: seq<Buffer>, b: seq<Buffer>, c: Buffer)
    ensures Concat(a + b + [c]) == Concat(a) + Concat(b) + c
  {
    ConcatAppend(a + b, [c]);
    ConcatAppend(a, b);
    assert Concat([c]) == c + Concat([c][1..]) == c;
  }

  lemma DecodedInner(b: Buffer, n: nat, i: nat)
    requires InnersOf(b, n).Ok? && i < n == |InnersOf(b, n).value|
    ensures var p, g := InnersOf(b, n).value[i], InnerSlicesOf(b, n)[i];
            && p.proofId < TWO_32 && |p.ToBuffer()| == |g|
            && (p.ToBuffer() == g <==> ZeroBefore(b, InnerStart(i)))
  {
    InnersOfFacts(b, n);
    InnerSlice(b, n, i);
    var g := Slice(b, InnerStart(i), INNER_LENGTH);
    InnerBytesRoundTrip(g);
    StartOfSlice(b, InnerStart(i), INNER_LENGTH, 28);
    hide Slice, InnerFromBuffer, InnersOf, InnerSlicesOf, InnerProofData.ToBuffer;
  }

  lemma StartOfSlice(b: Buffer, from: nat, size: nat, part: nat)
    requires part <= |Slice(b, from, size)|
    ensures Slice(b, from, size)[..part] == Slice(b, from, part)
  {
  }

  ghost predicate HeaderUnusedAreZero(b: Buffer) {
    ZeroBefore(b, 0) && ZeroBefore(b, 32) && ZeroBefore(b, 64) && ZeroBefore(b, 13 * 32)
  }

  lemma HeaderRoundTrip(b: Buffer)
    requires |b| >= LENGTH_ROLLUP_PUBLIC
    ensures var h, g := HeaderOf(b), HeaderSlices(b);
            && h.Encodable()
            && (forall i | 0 <= i < 14 :: |h.Header()[i]| == |g[i]|)
            && (h.Header() == g <==> HeaderUnusedAreZero(b))
  {
    var g := HeaderSlices(b);
    HeaderOfSlices(b);
    OfHeaderHeader(g);
    NumbersRoundTrip(OfHeader(g).Header(), g, {0, 1, 2, 13});
    UnusedInSlice(b, 0);
    UnusedInSlice(b, 1);
    UnusedInSlice(b, 2);
    UnusedInSlice(b, 13);
    hide HeaderSlices, ZeroBefore, OfHeader, HeaderOf;
  }

  lemma UnusedInSlice(b: Buffer, i: nat)
    requires i < 14 && |b| >= LENGTH_ROLLUP_PUBLIC
    ensures |HeaderSlices(b)[i]| == 32
    ensures HeaderSlices(b)[i][..28] == Zeros(28) <==> ZeroBefore(b, i * 32)
  {
    HeaderSlice(b, i);
    StartOfSlice(b, i * 32, 32, 28);
  }

  lemma SplitEqual(h1: seq<Buffer>, i1: seq<Buffer>, h2: seq<Buffer>, i2: seq<Buffer>, r: Buffer)
    requires |h1| == |h2| && |i1| == |i2|
    ensures h1 + i1 + [r] == h2 + i2 + [r] <==> h1 == h2 && i1 == i2
  {
    if h1 + i1 + [r] == h2 + i2 + [r] {
      assert h1 == (h1 + i1 + [r])[..|h1|] && h2 == (h2 + i2 + [r])[..|h1|];
      assert i1 == (h1 + i1 + [r])[|h1|..|h1| + |i1|] && i2 == (h2 + i2 + [r])[|h1|..|h1| + |i1|];
    }
  }

  lemma DecodedInners(b: Buffer, n: nat, inners: seq<Buffer>)
    requires InnersOf(b, n).Ok? && |InnersOf(b, n).value| == n == |inners|
    requires forall i | 0 <= i < n ::
               InnersOf(b, n).value[i].proofId < TWO_32 && inners[i] == InnersOf(b, n).value[i].ToBuffer()
    ensures forall i | 0 <= i < n :: |inners[i]| == |InnerSlicesOf(b, n)[i]|
    ensures inners == InnerSlicesOf(b, n) <==> forall i | 0 <= i < n :: ZeroBefore(b, InnerStart(i))
  {
    forall i | 0 <= i < n
      ensures |inners[i]| == |InnerSlicesOf(b, n)[i]|
      ensures inners[i] == InnerSlicesOf(b, n)[i] <==> ZeroBefore(b, InnerStart(i))
    {
      DecodedInner(b, n, i);
    }
  }

  lemma DecodedIsEncodable(b: Buffer)
    requires Decode(b).Ok?
    ensures var r := Decode(b).value; var n := InnerProofSize(r.rollupSize);
            && |b| >= LENGTH_ROLLUP_PUBLIC && InnersOf(b, n) == Ok(r.innerProofData) && |r.innerProofData| == n
            && r.Encodable() && HeaderOf(b).Encodable() && r.Header() == HeaderOf(b).Header()
            && r.recursiveProofOutput == Slice(b, InnerStart(n), RECURSIVE_LENGTH)
  {
    HeaderOfSlices(b);
    OfHeaderHeader(HeaderSlices(b));
    var r := Decode(b).value;
    var n := InnerProofSize(r.rollupSize);
    InnersOfFacts(b, n);
    forall i | 0 <= i < n
      ensures r.innerProofData[i].proofId < TWO_32
    {
      DecodedInner(b, n, i);
    }
  }

  /**
   * Bytes that decode are given back by encoding exactly if they are not longer than the format and
   * the bytes before each number, which decoding ignores, are zero. A shorter recursive output, or
   * last inner proof, is kept as it is.
   */
  lemma BytesRoundTrip(b: Buffer)
    requires Decode(b).Ok?
    ensures var r := Decode(b).value; var n := InnerProofSize(r.rollupSize);
            && r.Encodable()
            && (r.ToBuffer() == b <==> |b| <= InnerStart(n) + RECURSIVE_LENGTH && UnusedAreZero(b, n))
  {
    DecodedIsEncodable(b);
    var r := Decode(b).value;
    var n := InnerProofSize(r.rollupSize);
    var h, g := r.Header(), HeaderSlices(b);
    var inners, slices := r.Inners(), InnerSlicesOf(b, n);
    HeaderRoundTrip(b);
    DecodedInners(b, n, inners);
    hide Decode, InnersOf, HeaderOf, HeaderSlices, InnerSlicesOf, Concat, RollupProofData.Header,
         RollupProofData.Inners, RollupProofData.Encodable, ZeroBefore;
    AllSlices(b, n);
    SameTogether(h, inners, g, slices, r.recursiveProofOutput);
  }

  /** Parts of the same sizes are put together to the same bytes exactly if they are the same. */
  lemma SameTogether(h1: seq<Buffer>, i1: seq<Buffer>, h2: seq<Buffer>, i2: seq<Buffer>, r: Buffer)
    requires |h1| == |h2| && forall k | 0 <= k < |h1| :: |h1[k]| == |h2[k]|
    requires |i1| == |i2| && forall k | 0 <= k < |i1| :: |i1[k]| == |i2[k]|
    ensures |Concat(h1 + i1 + [r])| == |Concat(h2 + i2 + [r])|
    ensures Concat(h1 + i1 + [r]) == Concat(h2 + i2 + [r]) <==> h1 == h2 && i1 == i2
  {
    var a, b := h1 + i1 + [r], h2 + i2 + [r];
    hide Concat;
    assert forall k | 0 <= k < |a| :: |a[k]| == |b[k]|;
    ConcatLength(a, b);
    SplitEqual(h1, i1, h2, i2, r);
    if Concat(a) == Concat(b) {
      ConcatInjective(a, b);
    }
  }

  lemma HeaderIsRead(r: RollupProofData)
    requires r.Encodable() && HaveSizes(r.Header(), Repeat(32, 14))
    ensures |r.Header()[0]| == |r.Header()[1]| == |r.Header()[2]| == |r.Header()[13]| == 32
    ensures OfHeader(r.Header()) == r.(innerProofData := [], recursiveProofOutput := [], viewingKeys := [])
  {
    NumberRoundTrip(r.rollupId);
    NumberRoundTrip(r.rollupSize);
    NumberRoundTrip(r.dataStartIndex);
    NumberRoundTrip(r.numTxs);
    hide Value, NumToUInt32BE;
    assert r.Header()[9..13] == r.totalTxFees;
  }

  /** The encoding of a well-sized rollup is cut at the places it was put together at. */
  lemma EncodedSlices(r: RollupProofData)
    requires r.WellSized()
    ensures var b, n := r.ToBuffer(), |r.innerProofData|;
            && |b| == InnerStart(n) + RECURSIVE_LENGTH
            && HeaderSlices(b) == r.Header() && InnerSlicesOf(b, n) == r.Inners()
            && Slice(b, InnerStart(n), RECURSIVE_LENGTH) == r.recursiveProofOutput
  {
    var n, h, i, rest := |r.innerProofData|, r.Header(), r.Inners(), r.recursiveProofOutput;
    forall k | 0 <= k < n
      ensures |i[k]| == INNER_LENGTH
    {
      InnerRoundTrip(r.innerProofData[k]);
    }
    CutWhereJoined(h, i, rest, n);
  }

  lemma CutWhereJoined(h: seq<Buffer>, i: seq<Buffer>, rest: Buffer, n: nat)
    requires HaveSizes(h, Repeat(32, 14)) && |i| == n && (forall k | 0 <= k < n :: |i[k]| == INNER_LENGTH)
    requires |rest| == RECURSIVE_LENGTH
    ensures var b := Concat(h + i + [rest]);
            && |b| == InnerStart(n) + RECURSIVE_LENGTH
            && HeaderSlices(b) == h && InnerSlicesOf(b, n) == i && Slice(b, InnerStart(n), RECURSIVE_LENGTH) == rest
  {
    JoinThree(h, i, rest);
    HeaderCut(h, Concat(i) + rest);
    InnersCut(Concat(h), i, rest, n);
    hide Concat, Slice, HaveSizes, HeaderSlices, InnerSlicesOf;
    ThreeParts(Concat(h), Concat(i), rest);
  }

  lemma HeaderCut(h: seq<Buffer>, after: Buffer)
    requires HaveSizes(h, Repeat(32, 14))
    ensures |Concat(h)| == LENGTH_ROLLUP_PUBLIC && HeaderSlices(Concat(h) + after) == h
  {
    hide Concat, Slices, HaveSizes, Repeat;
    EqualCut(h, 32, 14, after);
  }

  lemma EqualCut(parts: seq<Buffer>, size: nat, n: nat, after: Buffer)
    requires HaveSizes(parts, Repeat(size, n))
    ensures |Concat(parts)| == size * n && Slices(Concat(parts) + after, 0, Repeat(size, n)) == parts
  {
    hide Concat, Slices, HaveSizes, Repeat, Total;
    ConcatSize(parts, Repeat(size, n));
    TotalRepeat(size, n);
    SlicesConcat([], parts, after, Repeat(size, n));
    assert [] + Concat(parts) + after == Concat(parts) + after;
  }

  lemma InnersCut(before: Buffer, i: seq<Buffer>, after: Buffer, n: nat)
    requires |before| == LENGTH_ROLLUP_PUBLIC && |i| == n && forall k | 0 <= k < n :: |i[k]| == INNER_LENGTH
    ensures |Concat(i)| == n * INNER_LENGTH && InnerSlicesOf(before + Concat(i) + after, n) == i
  {
    ConcatSize(i, Repeat(INNER_LENGTH, n));
    TotalRepeat(INNER_LENGTH, n);
    SlicesConcat(before, i, after, Repeat(INNER_LENGTH, n));
    hide Concat, Slices, HaveSizes;
  }

  lemma ThreeParts(x: Buffer, y: Buffer, z: Buffer)
    ensures x + (y + z) == x + y + z
    ensures Slice(x + y + z, |x| + |y|, |z|) == z
  {
  }

  lemma {:induction false} InnersAreRead(r: RollupProofData, b: Buffer, n: nat)
    requires r.WellSized() && n <= |r.innerProofData| && InnerSlicesOf(b, |r.innerProofData|) == r.Inners()
    ensures InnersOf(b, n) == Ok(r.innerProofData[..n])
  {
    if n > 0 {
      InnersAreRead(r, b, n - 1);
      InnerSlice(b, |r.innerProofData|, n - 1);
      InnerRoundTrip(r.innerProofData[n - 1]);
      hide InnerProofData.ToBuffer, InnerFromBuffer, InnerSlicesOf, RollupProofData.WellSized;
      assert r.innerProofData[..n] == r.innerProofData[..n - 1] + [r.innerProofData[n - 1]];
    }
  }

  /** Every well-sized rollup is given back by decoding its encoding, an escape hatch one included. */
  lemma RollupRoundTrip(r: RollupProofData)
    requires r.WellSized()
    ensures Decode(r.ToBuffer()) == Ok(r.(viewingKeys := []))
  {
    var b, n := r.ToBuffer(), |r.innerProofData|;
    EncodedSlices(r);
    InnersAreRead(r, b, n);
    HeaderIsRead(r);
    HeaderOfSlices(b);
    hide RollupProofData.ToBuffer, HeaderOf, OfHeader, InnersOf, Slice, RollupProofData.Header, RollupProofData.Inners;
    assert r.innerProofData[..n] == r.innerProofData;
  }

  // ---- layout ----

  /** The number of 32 bytes from `from` on, whose last 4 it is stored in. */
  ghost predicate NumberAt(b: Buffer, from: nat, n: nat) {
    && from + 32 <= |b|
    && n == (b[from + 28] as int) * 0x100_0000 + (b[from + 29] as int) * 0x1_0000 + (b[from + 30] as int) * 0x100
            + b[from + 31]
  }

  lemma NumberIsAt(b: Buffer, from: nat)
    requires from + 32 <= |b|
    ensures ReadUInt32BE(b, from + 28).Ok? && NumberAt(b, from, ReadUInt32BE(b, from + 28).value)
  {
    FourBytes(b[from + 28..from + 28 + 4]);
  }

  /** Where each field of an encoded inner proof is. */
  lemma InnerLayout(p: InnerProofData)
    requires p.WellSized()
    ensures var b := p.ToBuffer();
            && |b| == 384 && NumberAt(b, 0, p.proofId)
            && b[32..64] == p.publicInput && b[64..96] == p.publicOutput && b[96..128] == p.assetId
            && b[128..192] == p.newNote1 && b[192..256] == p.newNote2
            && b[256..288] == p.nullifier1 && b[288..320] == p.nullifier2
            && b[320..352] == p.inputOwner && b[352..384] == p.outputOwner
  {
    InnerRoundTrip(p);
    NumberIsAt(p.ToBuffer(), 0);
    hide InnerProofData.ToBuffer, Value;
  }

  /** Where each field of an encoded rollup is. */
  lemma RollupLayout(r: RollupProofData)
    requires r.WellSized()
    ensures var b, n := r.ToBuffer(), |r.innerProofData|;
            && |b| == 448 + n * 384 + 512
            && NumberAt(b, 0, r.rollupId) && NumberAt(b, 32, r.rollupSize) && NumberAt(b, 64, r.dataStartIndex)
            && b[96..128] == r.oldDataRoot && b[128..160] == r.newDataRoot
            && b[160..192] == r.oldNullRoot && b[192..224] == r.newNullRoot
            && b[224..256] == r.oldDataRootsRoot && b[256..288] == r.newDataRootsRoot
            && r.totalTxFees == [b[288..320], b[320..352], b[352..384], b[384..416]]
            && NumberAt(b, 416, r.numTxs)
            && (forall i | 0 <= i < n :: Slice(b, 448 + i * 384, 384) == r.innerProofData[i].ToBuffer())
            && Slice(b, 448 + n * 384, 512) == r.recursiveProofOutput
  {
    var b, n := r.ToBuffer(), |r.innerProofData|;
    RollupRoundTrip(r);
    EncodedSlices(r);
    NumberIsAt(b, 0);
    NumberIsAt(b, 32);
    NumberIsAt(b, 64);
    NumberIsAt(b, 416);
    forall i | 0 <= i < n
      ensures Slice(b, 448 + i * 384, 384) == r.innerProofData[i].ToBuffer()
    {
      InnerSlice(b, n, i);
    }
    hide RollupProofData.ToBuffer, RollupProofData.Inners, InnersOf, Value, InnerProofData.ToBuffer, InnerSlicesOf;
  }

  // ---- viewing keys ----

  predicate HasViewingKeys(p: InnerProofData) { p.proofId == 0 && !p.IsPadding() }

  /**
   * The keys read for a proof: if it is a payment's that is not padding, the two keys of its turn
   * among those proofs, and else two empty ones.
   */
  lemma {:induction false} KeysLayout(inners: seq<InnerProofData>, data: Buffer, i: nat)
    requires KeysOf(inners, data).Ok? && i < |inners|
    ensures var keys, turn := KeysOf(inners, data).value, JsCount(inners[..i]);
            && |keys| == |inners|
            && keys[i] == if inners[i].proofId == 0 && inners[i].nullifier1 != Zeros(32)
                          then [Slice(data, turn * 224, 112), Slice(data, turn * 224 + 112, 112)] else [[], []]
  {
    var front := inners[..|inners| - 1];
    hide Slice, ValidKey;
    if i < |front| {
      KeysLayout(front, data, i);
      assert front[..i] == inners[..i] && front[i] == inners[i];
    } else {
      assert inners[..i] == front;
      KeysLength(front, data);
    }
    KeysLength(inners, data);
  }

  lemma {:induction false} KeysLength(inners: seq<InnerProofData>, data: Buffer)
    ensures KeysOf(inners, data).Ok? ==> |KeysOf(inners, data).value| == |inners|
  {
    hide Slice, ValidKey, HasViewingKeys;
    if inners != [] {
      KeysLength(inners[..|inners| - 1], data);
    }
  }

  /** A proof's turn is the number of payments before it that are not padding. */
  lemma TurnsOfKeys(inners: seq<InnerProofData>, i: nat)
    requires i < |inners|
    ensures JsCount(inners[..0]) == 0
    ensures JsCount(inners[..i + 1]) ==
            JsCount(inners[..i]) + if inners[i].proofId == 0 && inners[i].nullifier1 != Zeros(32) then 1 else 0
  {
    assert inners[..i + 1][..i] == inners[..i];
  }

  function JsCount(inners: seq<InnerProofData>): (n: nat)
    ensures n <= |inners|
  {
    if inners == [] then 0 else JsCount(inners[..|inners| - 1]) + if HasViewingKeys(inners[|inners| - 1]) then 1 else 0
  }

  /** A key is empty or of the right size; any other buffer is refused. */
  predicate ValidKey(key: Buffer) { |key| == 0 || |key| == VIEWING_KEY_SIZE }

  /** The keys of each proof; proofs without keys have two empty ones. */
  function KeysOf(inners: seq<InnerProofData>, data: Buffer): Result<seq<seq<Buffer>>> {
    if inners == [] then Ok([])
    else
      var front := inners[..|inners| - 1];
      match KeysOf(front, data)
      case Err(e) => Err(e)
      case Ok(keys) =>
        if !HasViewingKeys(inners[|inners| - 1]) then Ok(keys + [[[], []]])
        else
          var offset := JsCount(front) * VIEWING_KEY_SIZE * 2;
          var vk1 := Slice(data, offset, VIEWING_KEY_SIZE);
          var vk2 := Slice(data, offset + VIEWING_KEY_SIZE, VIEWING_KEY_SIZE);
          if ValidKey(vk1) && ValidKey(vk2) then Ok(keys + [[vk1, vk2]]) else Err("Invalid hash buffer.")
  }

  function Flat(keys: seq<seq<Buffer>>): seq<Buffer> {
    if keys == [] then [] else Flat(keys[..|keys| - 1]) + keys[|keys| - 1]
  }

  function ViewingKeyData(keys: seq<seq<Buffer>>): Buffer { Concat(Flat(keys)) }

  /** The decoder's result on the part of the data that the proofs' keys are read from. */
  ghost predicate KeysRoundTrip(inners: seq<InnerProofData>, data: Buffer) {
    var used := Slice(data, 0, JsCount(inners) * 224);
    && (KeysOf(inners, data).Ok? <==> |used| % VIEWING_KEY_SIZE == 0)
    && (KeysOf(inners, data).Ok? ==>
          |KeysOf(inners, data).value| == |inners| && ViewingKeyData(KeysOf(inners, data).value) == used)
  }

  /**
   * The keys decode exactly if the part of the data they are read from is cut at whole keys, and
   * written out again they are that part.
   */
  lemma {:induction false} ViewingKeysRoundTrip(inners: seq<InnerProofData>, data: Buffer)
    ensures KeysRoundTrip(inners, data)
  {
    hide *;
    if inners == [] {
      NoKeys(data);
    } else {
      ViewingKeysRoundTrip(inners[..|inners| - 1], data);
      KeysOfLast(inners, data);
    }
  }

  lemma NoKeys(data: Buffer)
    ensures KeysRoundTrip([], data)
  {
  }

  lemma KeysOfLast(inners: seq<InnerProofData>, data: Buffer)
    requires inners != [] && KeysRoundTrip(inners[..|inners| - 1], data)
    ensures KeysRoundTrip(inners, data)
  {
    hide Slice, HasViewingKeys, ViewingKeyData, ValidKey;
    var front := inners[..|inners| - 1];
    var n := JsCount(front);
    if KeysOf(front, data).Err? {
      LongerSlice(data, n * 224, JsCount(inners) * 224);
    } else if HasViewingKeys(inners[|inners| - 1]) {
      TwoMoreKeys(data, n);
      MoreKeys(KeysOf(front, data).value, [Slice(data, n * 224, 112), Slice(data, n * 224 + 112, 112)]);
    } else {
      MoreKeys(KeysOf(front, data).value, [[], []]);
    }
  }

  lemma MoreKeys(keys: seq<seq<Buffer>>, pair: seq<Buffer>)
    requires |pair| == 2
    ensures ViewingKeyData(keys + [pair]) == ViewingKeyData(keys) + pair[0] + pair[1]
  {
    assert (keys + [pair])[..|keys|] == keys;
    ConcatAppend(Flat(keys), pair);
    assert pair[1..] == [pair[1]] && pair[1..][1..] == [];
    assert Concat(pair[1..]) == pair[1] + Concat(pair[1..][1..]) == pair[1];
  }

  lemma TwoMoreKeys(data: Buffer, n: nat)
    ensures Slice(data, 0, n * 224) + Slice(data, n * 224, 112)
            + Slice(data, n * 224 + 112, 112) == Slice(data, 0, (n + 1) * 224)
    ensures |Slice(data, 0, n * 224)| % 112 == 0 ==>
              (|Slice(data, 0, (n + 1) * 224)| % 112 == 0 <==>
               ValidKey(Slice(data, n * 224, 112)) && ValidKey(Slice(data, n * 224 + 112, 112)))
  {
    SliceSplit(data, 0, n * 224, 112);
    SliceSplit(data, 0, n * 224 + 112, 112);
    hide Slice;
    if |data| > n * 224 {
      CutWithinTwoKeys(n, |data| - n * 224);
    }
  }

  lemma CutWithinTwoKeys(n: nat, left: nat)
    ensures (n * 224 + Min(left, 224)) % 112 == 0 <==> left == 0 || left == 112 || left >= 224
  {
    assert n * 224 + Min(left, 224) == 112 * (2 * n) + Min(left, 224);
  }

  /** A slice that was cut within a key by the end of the data still is. */
  lemma LongerSlice(data: Buffer, size: nat, longer: nat)
    requires size <= longer && size % 112 == 0 && |Slice(data, 0, size)| % 112 != 0
    ensures |Slice(data, 0, longer)| % 112 != 0
  {
  }

  /** The reader: decoding, and the viewing keys if their data is there. */
  function Read(b: Buffer, viewingKeyData: Option<Buffer>): Result<RollupProofData> {
    match Decode(b)
    case Err(e) => Err(e)
    case Ok(r) =>
      if viewingKeyData.None? then Ok(r)
      else
        match KeysOf(r.innerProofData, viewingKeyData.value)
        case Err(e) => Err(e)
        case Ok(keys) => Ok(r.(viewingKeys := keys))
  }

  /** Two keys to each proof: whole ones, or empty ones where there are none. */
  ghost predicate Shaped(inners: seq<InnerProofData>, keys: seq<seq<Buffer>>) {
    && |keys| == |inners|
    && forall i | 0 <= i < |inners| ::
         |keys[i]| == 2
         && if HasViewingKeys(inners[i]) then |keys[i][0]| == |keys[i][1]| == VIEWING_KEY_SIZE else keys[i] == [[], []]
  }

  lemma {:induction false} KeysAreRead(inners: seq<InnerProofData>, keys: seq<seq<Buffer>>, after: Buffer)
    requires Shaped(inners, keys)
    ensures |ViewingKeyData(keys)| == JsCount(inners) * 224
    ensures KeysOf(inners, ViewingKeyData(keys) + after) == Ok(keys)
  {
    if inners != [] {
      var n := |inners| - 1;
      var front, k1, k2 := keys[..n], keys[n][0], keys[n][1];
      assert keys[n] == [k1, k2];
      assert keys == front + [[k1, k2]];
      MoreKeys(front, [k1, k2]);
      KeysAreRead(inners[..n], front, k1 + k2 + after);
      hide ViewingKeyData, HasViewingKeys, KeysOf, Slice;
      Regroup(ViewingKeyData(front), k1, k2, after);
      LastPair(inners, front, k1, k2, ViewingKeyData(front), after, ViewingKeyData(keys) + after);
    }
  }

  lemma Regroup(before: Buffer, k1: Buffer, k2: Buffer, after: Buffer)
    ensures before + k1 + k2 + after == before + (k1 + k2 + after)
  {
  }

  lemma LastPair(inners: seq<InnerProofData>, front: seq<seq<Buffer>>, k1: Buffer, k2: Buffer, before: Buffer,
                 after: Buffer, data: Buffer)
    requires inners != [] && |before| == JsCount(inners[..|inners| - 1]) * 224 && data == before + (k1 + k2 + after)
    requires KeysOf(inners[..|inners| - 1], data) == Ok(front)
    requires if HasViewingKeys(inners[|inners| - 1]) then |k1| == |k2| == VIEWING_KEY_SIZE else k1 == k2 == []
    ensures KeysOf(inners, data) == Ok(front + [[k1, k2]])
  {
    hide HasViewingKeys, KeysOf, Slice;
    if HasViewingKeys(inners[|inners| - 1]) {
      PairInPlace(before, k1, k2, after, data);
    }
    OneMorePair(inners, data, front, k1, k2);
  }

  lemma OneMorePair(inners: seq<InnerProofData>, data: Buffer, front: seq<seq<Buffer>>, k1: Buffer, k2: Buffer)
    requires inners != [] && KeysOf(inners[..|inners| - 1], data) == Ok(front)
    requires var offset := JsCount(inners[..|inners| - 1]) * 224;
             if HasViewingKeys(inners[|inners| - 1]) then
               && |k1| == |k2| == VIEWING_KEY_SIZE
               && Slice(data, offset, VIEWING_KEY_SIZE) == k1
               && Slice(data, offset + VIEWING_KEY_SIZE, VIEWING_KEY_SIZE) == k2
             else k1 == k2 == []
    ensures KeysOf(inners, data) == Ok(front + [[k1, k2]])
  {
    hide Slice, HasViewingKeys;
  }

  lemma PairInPlace(before: Buffer, k1: Buffer, k2: Buffer, after: Buffer, data: Buffer)
    requires |k1| == |k2| == VIEWING_KEY_SIZE && data == before + (k1 + k2 + after)
    ensures Slice(data, |before|, VIEWING_KEY_SIZE) == k1
            && Slice(data, |before| + VIEWING_KEY_SIZE, VIEWING_KEY_SIZE) == k2
  {
  }

  /** A well-sized rollup and its viewing keys are given back by reading both encodings. */
  lemma RollupAndKeysRoundTrip(r: RollupProofData)
    requires r.WellSized() && Shaped(r.innerProofData, r.viewingKeys)
    ensures Read(r.ToBuffer(), Some(ViewingKeyData(r.viewingKeys))) == Ok(r)
  {
    RollupRoundTrip(r);
    KeysAreRead(r.innerProofData, r.viewingKeys, []);
    hide Decode, KeysOf, RollupProofData.ToBuffer, ViewingKeyData;
    assert ViewingKeyData(r.viewingKeys) + [] == ViewingKeyData(r.viewingKeys);
  }

  method FromBuffer(proofData: Buffer, viewingKeyData: Option<Buffer>) returns (r: Result<RollupProofData>)
    ensures r == Read(proofData, viewingKeyData)
  {
    var read := ReadHeader(proofData);
    if read.Err? {
      return Err(read.message);
    }
    var header := read.value;
    var innerProofSize := InnerProofSize(header.rollupSize);
    hide HeaderOf, InnerFromBuffer, Slice, HasViewingKeys, ValidKey;
    var innerProofData := [];
    for i := 0 to innerProofSize
      invariant InnersOf(proofData, i) == Ok(innerProofData)
    {
      var inner := InnerFromBuffer(Slice(proofData, InnerStart(i), INNER_LENGTH));
      if inner.Err? {
        StillErr(proofData, i + 1, innerProofSize);
        return Err(inner.message);
      }
      innerProofData := innerProofData + [inner.value];
    }
    var rollup := header.(innerProofData := innerProofData,
                          recursiveProofOutput := Slice(proofData, InnerStart(innerProofSize), RECURSIVE_LENGTH));
    if viewingKeyData.None? {
      return Ok(rollup);
    }
    var keys := ReadViewingKeys(innerProofData, viewingKeyData.value);
    r := if keys.Ok? then Ok(rollup.(viewingKeys := keys.value)) else Err(keys.message);
  }

  method ReadHeader(b: Buffer) returns (r: Result<RollupProofData>)
    ensures r == if |b| < LENGTH_ROLLUP_PUBLIC then Err("out of range") else Ok(HeaderOf(b))
  {
    hide Slice, Value;
    var rollupId, rollupSize := ReadUInt32BE(b, 28), ReadUInt32BE(b, 1 * 32 + 28);
    var dataStartIndex, numTxs := ReadUInt32BE(b, 2 * 32 + 28), ReadUInt32BE(b, (9 + NUMBER_OF_ASSETS) * 32 + 28);
    if rollupId.Err? || rollupSize.Err? || dataStartIndex.Err? || numTxs.Err? {
      return Err("out of range");
    }
    var fees: seq<Buffer> := [];
    for i := 0 to NUMBER_OF_ASSETS
      invariant |fees| == i && forall j | 0 <= j < i :: fees[j] == Slice(b, (9 + j) * 32, 32)
    {
      fees := fees + [Slice(b, (9 + i) * 32, 32)];
    }
    assert fees == [Slice(b, 9 * 32, 32), Slice(b, 10 * 32, 32), Slice(b, 11 * 32, 32), Slice(b, 12 * 32, 32)];
    r := Ok(RollupProofData(rollupId.value, rollupSize.value, dataStartIndex.value, Slice(b, 3 * 32, 32),
                            Slice(b, 4 * 32, 32), Slice(b, 5 * 32, 32), Slice(b, 6 * 32, 32), Slice(b, 7 * 32, 32),
                            Slice(b, 8 * 32, 32), fees, numTxs.value, [], [], []));
  }

  lemma {:induction false} StillErr(b: Buffer, i: nat, n: nat)
    requires i <= n && InnersOf(b, i).Err?
    ensures InnersOf(b, n) == InnersOf(b, i)
  {
    if i < n {
      StillErr(b, i, n - 1);
    }
  }

  method ReadViewingKeys(inners: seq<InnerProofData>, data: Buffer) returns (r: Result<seq<seq<Buffer>>>)
    ensures r == KeysOf(inners, data)
  {
    hide HasViewingKeys, ValidKey, Slice;
    var keys, jsCount := [], 0;
    for i := 0 to |inners|
      invariant KeysOf(inners[..i], data) == Ok(keys) && jsCount == JsCount(inners[..i])
    {
      assert inners[..i + 1][..i] == inners[..i];
      if HasViewingKeys(inners[i]) {
        var offset := jsCount * VIEWING_KEY_SIZE * 2;
        var vk1, vk2 := Slice(data, offset, VIEWING_KEY_SIZE), Slice(data, offset + VIEWING_KEY_SIZE, VIEWING_KEY_SIZE);
        if !ValidKey(vk1) || !ValidKey(vk2) {
          KeysStillErr(inners, i + 1, data);
          return Err("Invalid hash buffer.");
        }
        jsCount := jsCount + 1;
        keys := keys + [[vk1, vk2]];
      } else {
        keys := keys + [[[], []]];
      }
    }
    assert inners[..|inners|] == inners;
    r := Ok(keys);
  }

  lemma {:induction false} KeysStillErr(inners: seq<InnerProofData>, i: nat, data: Buffer)
    requires i <= |inners| && KeysOf(inners[..i], data).Err?
    ensures KeysOf(inners, data) == KeysOf(inners[..i], data)
  {
    if i < |inners| {
      assert inners[..|inners| - 1][..i] == inners[..i];
      KeysStillErr(inners[..|inners| - 1], i, data);
    } else {
      assert inners[..i] == inners;
    }
  }
}
