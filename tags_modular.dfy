/**
 * The modular tag (mAB / mBA): a twelve-byte header with the channel counts,
 * an optional table of element offsets, and the embedded tag blocks that its
 * transform threads a channel vector through.  Decoding the embedded blocks
 * goes back through the decoder registry, so the decoder itself is in module
 * Decoders; this module holds the layout and the transform.
 */
module ModularTags {
  import opened Wrappers
  import opened Bytes
  import opened Errors
  import opened TagValues
  import opened CurveTags
  import opened MatrixTags
  import opened ClutTags
  import opened MftTags

  const ModularHeaderSize: nat := 12

  // ---------------------------------------------------------------- layout

  /** isASCII: each of the first four bytes is a printable character (32..126). */
  predicate IsASCII(b: seq<byte>)
    requires |b| >= 4
  {
    forall i :: 0 <= i < 4 ==> 32 <= b[i] <= 126
  }

  lemma IsASCIIExamples()
    ensures IsASCII([102, 111, 111, 98, 96])
    ensures !IsASCII([0, 0, 0, 0])
  {
    var z: seq<byte> := [0, 0, 0, 0];
    assert !(32 <= z[0]);
  }

  /**
   * An offset table is looked for only when the four bytes after the header
   * exist, read as a position inside the block, and are not printable text.
   */
  predicate HasOffsetTable(raw: seq<byte>) {
    16 <= |raw| && U32(raw, 12) < |raw| && !IsASCII(raw[12..16])
  }

  /** The last offset taken so far, or 0 before the first. */
  function Last(offs: seq<nat>): nat {
    if offs == [] then 0 else offs[|offs| - 1]
  }

  /**
   * The offsets in table slots k, k+1, ...: each slot is taken while it fits in
   * the block, is above the previous offset (so nonzero) and is inside the block.
   */
  function OffsetsFrom(raw: seq<byte>, k: nat, prev: nat): seq<nat>
    decreases |raw| - 4 * k
  {
    if 12 + 4 * k + 4 > |raw| then []
    else
      var e := U32(raw, 12 + 4 * k);
      if e <= prev || e >= |raw| then []
      else [e] + OffsetsFrom(raw, k + 1, e)
  }

  /** The start of table slot k. */
  function Slot(k: nat): nat {
    12 + 4 * k
  }

  /** Every offset kept is above `prev`, inside the block, and read from its own slot. */
  lemma {:induction false} OffsetsFromSlots(raw: seq<byte>, k: nat, prev: nat)
    decreases |raw| - 4 * k
    ensures forall i {:trigger OffsetsFrom(raw, k, prev)[i]} :: 0 <= i < |OffsetsFrom(raw, k, prev)| ==>
      prev < OffsetsFrom(raw, k, prev)[i] < |raw| && Slot(k + i) + 4 <= |raw| &&
      OffsetsFrom(raw, k, prev)[i] == U32(raw, Slot(k + i))
  {
    var offs := OffsetsFrom(raw, k, prev);
    if 12 + 4 * k + 4 <= |raw| {
      var e := U32(raw, 12 + 4 * k);
      if prev < e < |raw| {
        var rest := OffsetsFrom(raw, k + 1, e);
        OffsetsFromSlots(raw, k + 1, e);
        assert offs == [e] + rest;
        forall i | 0 <= i < |offs|
          ensures prev < offs[i] < |raw| && Slot(k + i) + 4 <= |raw| && offs[i] == U32(raw, Slot(k + i))
        {
          if i > 0 {
            var j := i - 1;
            assert offs[i] == rest[j];
            assert (k + 1) + j == k + i;
          }
        }
      }
    }
  }

  /** The offsets kept are strictly increasing. */
  lemma {:induction false} OffsetsFromIncreasing(raw: seq<byte>, k: nat, prev: nat)
    decreases |raw| - 4 * k
    ensures forall i, j :: 0 <= i < j < |OffsetsFrom(raw, k, prev)| ==>
      OffsetsFrom(raw, k, prev)[i] < OffsetsFrom(raw, k, prev)[j]
  {
    var offs := OffsetsFrom(raw, k, prev);
    if 12 + 4 * k + 4 <= |raw| {
      var e := U32(raw, 12 + 4 * k);
      if prev < e < |raw| {
        var rest := OffsetsFrom(raw, k + 1, e);
        OffsetsFromIncreasing(raw, k + 1, e);
        OffsetsFromSlots(raw, k + 1, e);
        assert offs == [e] + rest;
        forall i, j | 0 <= i < j < |offs|
          ensures offs[i] < offs[j]
        {
          assert offs[j] == rest[j - 1];
          if i > 0 {
            assert offs[i] == rest[i - 1];
          }
        }
      }
    }
  }

  /**
   * The collection stops for a reason: the slot after the last offset taken is
   * past the end of the block, not above the last offset, or outside the block.
   */
  lemma {:induction false} OffsetsFromStop(raw: seq<byte>, k: nat, prev: nat)
    decreases |raw| - 4 * k
    ensures var offs := OffsetsFrom(raw, k, prev);
            var at := 12 + 4 * k + 4 * |offs|;
            at + 4 <= |raw| ==> U32(raw, at) <= (if offs == [] then prev else Last(offs)) || U32(raw, at) >= |raw|
  {
    var offs := OffsetsFrom(raw, k, prev);
    if 12 + 4 * k + 4 <= |raw| {
      var e := U32(raw, 12 + 4 * k);
      if prev < e < |raw| {
        var rest := OffsetsFrom(raw, k + 1, e);
        OffsetsFromStop(raw, k + 1, e);
        assert offs == [e] + rest;
        assert 12 + 4 * (k + 1) + 4 * |rest| == 12 + 4 * k + 4 * |offs|;
        assert rest != [] ==> Last(offs) == Last(rest);
      }
    }
  }

  /** Read from slot 0 with no previous offset: each offset is inside the block and read from its own slot. */
  lemma TableSlots(raw: seq<byte>)
    ensures forall i :: 0 <= i < |OffsetsFrom(raw, 0, 0)| ==>
      0 < OffsetsFrom(raw, 0, 0)[i] < |raw| && Slot(i) + 4 <= |raw| &&
      OffsetsFrom(raw, 0, 0)[i] == U32(raw, Slot(i))
  {
    OffsetsFromSlots(raw, 0, 0);
    forall i | 0 <= i < |OffsetsFrom(raw, 0, 0)|
      ensures Slot(i) + 4 <= |raw| && OffsetsFrom(raw, 0, 0)[i] == U32(raw, Slot(i))
    {
      assert 0 < OffsetsFrom(raw, 0, 0)[i] && Slot(0 + i) == Slot(i);
    }
  }

  /** Read from slot 0 with no previous offset: the offsets increase. */
  lemma TableIncreasing(raw: seq<byte>)
    ensures forall i, j :: 0 <= i < j < |OffsetsFrom(raw, 0, 0)| ==>
      OffsetsFrom(raw, 0, 0)[i] < OffsetsFrom(raw, 0, 0)[j]
  {
    OffsetsFromIncreasing(raw, 0, 0);
  }

  /** Read from slot 0 with no previous offset: the slot after the last offset is why collection stopped. */
  lemma TableStop(raw: seq<byte>)
    ensures var at := 12 + 4 * |OffsetsFrom(raw, 0, 0)|;
      OffsetsFrom(raw, 0, 0) != [] && at + 4 <= |raw| ==>
        U32(raw, at) <= Last(OffsetsFrom(raw, 0, 0)) || U32(raw, at) >= |raw|
  {
    OffsetsFromStop(raw, 0, 0);
  }

  /**
   * The offset table: the accepted offsets are nonzero, strictly increasing and
   * inside the block, slot i is read at 12 + 4i, and collection stops at the
   * first slot that is zero, not increasing, outside the block or past its end.
   */
  function OffsetTable(raw: seq<byte>): (offs: seq<nat>)
    ensures offs != [] <==> HasOffsetTable(raw) && U32(raw, 12) != 0
    ensures forall i :: 0 <= i < |offs| ==> 0 < offs[i] < |raw|
    ensures forall i :: 0 <= i < |offs| ==> Slot(i) + 4 <= |raw| && offs[i] == U32(raw, Slot(i))
    ensures forall i, j :: 0 <= i < j < |offs| ==> offs[i] < offs[j]
    ensures var at := 12 + 4 * |offs|;
            offs != [] && at + 4 <= |raw| ==> U32(raw, at) <= Last(offs) || U32(raw, at) >= |raw|
  {
    if HasOffsetTable(raw) then
      TableSlots(raw);
      TableIncreasing(raw);
      TableStop(raw);
      OffsetsFrom(raw, 0, 0)
    else []
  }

  /**
   * Where the elements start: the offset table, or a single element right
   * after the header when there is none.
   */
  function ElementStarts(raw: seq<byte>): (starts: seq<nat>)
    requires |raw| >= ModularHeaderSize
    ensures OffsetTable(raw) == [] ==> starts == [ModularHeaderSize]
    ensures OffsetTable(raw) != [] ==> starts == OffsetTable(raw)
    ensures |starts| >= 1 && StartsIn(raw, starts)
    ensures forall i :: 0 <= i < |starts| ==> 0 < starts[i] <= |raw|
    ensures forall i, j :: 0 <= i < j < |starts| ==> starts[i] < starts[j]
  {
    var offs := OffsetTable(raw);
    if offs == [] then [ModularHeaderSize] else offs
  }

  /** Element starts inside the block and past its first byte, each below the next. */
  predicate StartsIn(raw: seq<byte>, starts: seq<nat>) {
    forall i :: 0 <= i < |starts| ==> 0 < starts[i] <= |raw| && (i + 1 < |starts| ==> starts[i] < starts[i + 1])
  }

  /** Element i ends where the next one starts, the last one at the end of the block. */
  function ElementEnd(raw: seq<byte>, starts: seq<nat>, i: nat): (end: nat)
    requires StartsIn(raw, starts) && i < |starts|
    ensures starts[i] <= end <= |raw|
  {
    if i + 1 < |starts| then starts[i + 1] else |raw|
  }

  /** The bytes of element i; never the whole block, since every start is past byte 0. */
  function ElementBlock(raw: seq<byte>, starts: seq<nat>, i: nat): (block: seq<byte>)
    requires StartsIn(raw, starts) && i < |starts|
    ensures |block| < |raw|
  {
    raw[starts[i]..ElementEnd(raw, starts, i)]
  }

  /**
   * The element spans of the first k elements, in order; the first one under
   * eight bytes, too short for an element header, fails with its index.
   */
  function ElementSpans(raw: seq<byte>, starts: seq<nat>, k: nat): (r: Result<seq<seq<byte>>, Error>)
    requires StartsIn(raw, starts) && k <= |starts|
    ensures r.Success? ==> |r.value| == k
  {
    if k == 0 then Success([])
    else
      var spans :- ElementSpans(raw, starts, k - 1);
      var block := ElementBlock(raw, starts, k - 1);
      if |block| < 8 then Failure(ModularElementTooShort(k - 1))
      else Success(spans + [block])
  }

  /** The spans succeed exactly when each is at least eight bytes, and then they are the element blocks. */
  lemma {:induction false} ElementSpansOutcome(raw: seq<byte>, starts: seq<nat>, k: nat)
    requires StartsIn(raw, starts) && k <= |starts|
    ensures ElementSpans(raw, starts, k).Success? <==> forall i :: 0 <= i < k ==> |ElementBlock(raw, starts, i)| >= 8
    ensures ElementSpans(raw, starts, k).Success? ==>
              forall i :: 0 <= i < k ==> ElementSpans(raw, starts, k).value[i] == ElementBlock(raw, starts, i)
  {
    if k > 0 {
      ElementSpansOutcome(raw, starts, k - 1);
    }
  }

  /** The first span under eight bytes decides the error. */
  lemma {:induction false} FirstShortElement(raw: seq<byte>, starts: seq<nat>, k: nat, j: nat)
    requires StartsIn(raw, starts) && j < k <= |starts|
    requires forall i :: 0 <= i < j ==> |ElementBlock(raw, starts, i)| >= 8
    requires |ElementBlock(raw, starts, j)| < 8
    ensures ElementSpans(raw, starts, k) == Failure(ModularElementTooShort(j))
  {
    if k - 1 > j {
      FirstShortElement(raw, starts, k - 1, j);
    } else {
      ElementSpansOutcome(raw, starts, j);
    }
  }

  /**
   * The loop of modularDecoder over the offset table: slot after slot, each
   * offset taken until one is zero, not above the last, or outside the block.
   */
  method ScanOffsetTable(raw: seq<byte>) returns (offsets: seq<nat>)
    ensures offsets == OffsetsFrom(raw, 0, 0)
  {
    var offset := ModularHeaderSize;
    offsets := [];
    while offset + 4 <= |raw|
      invariant offset == Slot(|offsets|)
      invariant OffsetsFrom(raw, 0, 0) == offsets + OffsetsFrom(raw, |offsets|, Last(offsets))
      decreases |raw| - offset
    {
      var elemOffset := U32(raw, offset);
      if elemOffset == 0 || (|offsets| > 0 && elemOffset <= offsets[|offsets| - 1]) {
        break;
      }
      if elemOffset >= |raw| {
        break;
      }
      ghost var rest := OffsetsFrom(raw, |offsets| + 1, elemOffset);
      assert OffsetsFrom(raw, |offsets|, Last(offsets)) == [elemOffset] + rest;
      assert offsets + ([elemOffset] + rest) == (offsets + [elemOffset]) + rest;
      offsets := offsets + [elemOffset];
      offset := offset + 4;
    }
  }

  /**
   * The first half of modularDecoder: the offset table when the slot after
   * the header reads as a position inside the block and is not text, or the
   * single start right after the header when that gives no offset.
   */
  method ReadElementStarts(raw: seq<byte>) returns (offsets: seq<nat>)
    requires |raw| >= ModularHeaderSize
    ensures offsets == ElementStarts(raw)
  {
    var offset := ModularHeaderSize;
    offsets := [];
    if offset + 4 <= |raw| {
      var first := U32(raw, offset);
      if first < |raw| && !IsASCII(raw[offset..offset + 4]) {
        offsets := ScanOffsetTable(raw);
      }
    }
    assert offsets == OffsetTable(raw);
    if |offsets| == 0 {
      // an empty table leaves the scan at its first slot, right after the header
      offsets := offsets + [offset];
    }
  }

  // ---------------------------------------------------------------- transform

  /** The element names whose values the transform uses: curv, para, mtx and clut. */
  predicate IsTransformName(name: string) {
    name == "curv" || name == "para" || name == "mtx" || name == "clut"
  }

  /**
   * The ChannelTransformer capability: the transform of a decoded value, or
   * None for a value that has no Transform method.
   */
  function ChannelTransform(v: TagValue, input: seq<real>, pow: PowFn): Option<Result<seq<real>, Error>> {
    match v
    case Curve(c) => Some(CurveTransform(c, input, pow))
    case ParaCurve(p) => Some(ParametricTransform(p, input, pow))
    case Matrix(m) => Some(MatrixTransform(m, input))
    case Clut(c) => Some(ClutTransform(c, input))
    case Mft1(t) => Some(Mft1Transform(t, input))
    case Mft2(t) => Some(Mft2Transform(t, input))
    case _ => None
  }

  /** The loop state: the channel vector so far and whether any element has been applied. */
  datatype Pass = Pass(channels: seq<real>, applied: bool)

  /**
   * One element of the loop.  An element with another name, or whose value has
   * no transform, leaves the state as it is; a decode or transform error ends
   * the loop, wrapped with the element's name.
   */
  function ThreadStep(e: Element, p: Pass, pow: PowFn): Result<Pass, Error> {
    if !IsTransformName(e.name) then Success(p)
    else
      match e.result
      case Failure(err) => Failure(ModularElementDecode(e.name, err))
      case Success(v) =>
        match ChannelTransform(v, p.channels, pow)
        case None => Success(p)
        case Some(Failure(err)) => Failure(ModularElementTransform(e.name, err))
        case Some(Success(out)) => Success(Pass(out, true))
  }

  /** The loop over the first k elements, in order, from the input vector. */
  function Thread(es: seq<Element>, k: nat, input: seq<real>, pow: PowFn): Result<Pass, Error>
    requires k <= |es|
  {
    if k == 0 then Success(Pass(input, false))
    else
      var p :- Thread(es, k - 1, input, pow);
      ThreadStep(es[k - 1], p, pow)
  }

  /**
   * transformChannels: the arity check, then the vector threaded through the
   * elements in order; it fails when no element was applied.
   */
  function ModularTransform(m: ModularTag, channels: seq<real>, pow: PowFn): (r: Result<seq<real>, Error>)
    ensures |channels| != m.inputChannels as int ==> r == Failure(ChannelCount(m.inputChannels as nat, |channels|))
    ensures |channels| == m.inputChannels as int && Thread(m.elements, |m.elements|, channels, pow).Failure? ==>
              r == Failure(Thread(m.elements, |m.elements|, channels, pow).error)
    ensures |channels| == m.inputChannels as int && Thread(m.elements, |m.elements|, channels, pow).Success? ==>
              var p := Thread(m.elements, |m.elements|, channels, pow).value;
              r == if p.applied then Success(p.channels) else Failure(ModularNothingToApply)
  {
    if |channels| != m.inputChannels as int then Failure(ChannelCount(m.inputChannels as nat, |channels|))
    else
      var p :- Thread(m.elements, |m.elements|, channels, pow);
      if !p.applied then Failure(ModularNothingToApply) else Success(p.channels)
  }

  /** ModularTag.ToCIEXYZ: transformChannels. */
  function ToCIEXYZ(m: ModularTag, channels: seq<real>, pow: PowFn): Result<seq<real>, Error>
  {
    ModularTransform(m, channels, pow)
  }

  /** ModularTag.FromCIEXYZ: transformChannels as well, so both directions agree. */
  function FromCIEXYZ(m: ModularTag, channels: seq<real>, pow: PowFn): (r: Result<seq<real>, Error>)
    ensures r == ToCIEXYZ(m, channels, pow)
  {
    ModularTransform(m, channels, pow)
  }

  /** A failure part way through the loop is the failure of the whole loop. */
  lemma {:induction false} ThreadFailurePersists(es: seq<Element>, k: nat, n: nat, input: seq<real>, pow: PowFn)
    requires k <= n <= |es|
    requires Thread(es, k, input, pow).Failure?
    ensures Thread(es, n, input, pow) == Thread(es, k, input, pow)
  {
    if k < n {
      ThreadFailurePersists(es, k, n - 1, input, pow);
    }
  }

  /** transformChannels with the source's loop over the elements. */
  method ModularTransformer(m: ModularTag, channels: seq<real>, pow: PowFn) returns (r: Result<seq<real>, Error>)
    ensures r == ModularTransform(m, channels, pow)
  {
    if |channels| != m.inputChannels as int {
      return Failure(ChannelCount(m.inputChannels as nat, |channels|));
    }
    var result := channels;
    var applied := false;
    var i := 0;
    while i < |m.elements|
      invariant 0 <= i <= |m.elements|
      invariant Thread(m.elements, i, channels, pow) == Success(Pass(result, applied))
    {
      var element := m.elements[i];
      if IsTransformName(element.name) {
        if element.result.Failure? {
          r := Failure(ModularElementDecode(element.name, element.result.error));
          ThreadFailurePersists(m.elements, i + 1, |m.elements|, channels, pow);
          return;
        }
        var proc := ChannelTransform(element.result.value, result, pow);
        if proc.Some? {
          if proc.value.Failure? {
            r := Failure(ModularElementTransform(element.name, proc.value.error));
            ThreadFailurePersists(m.elements, i + 1, |m.elements|, channels, pow);
            return;
          }
          result := proc.value.value;
          applied := true;
        }
      }
      i := i + 1;
    }
    if !applied {
      return Failure(ModularNothingToApply);
    }
    r := Success(result);
  }

  // ---------------------------------------------------------------- properties

  /** The elements the transform can use: those named curv, para, mtx or clut, in order. */
  function Kept(es: seq<Element>): (r: seq<Element>)
    ensures |r| <= |es|
  {
    if es == [] then []
    else
      var e := es[|es| - 1];
      Kept(es[..|es| - 1]) + (if IsTransformName(e.name) then [e] else [])
  }

  /** The loop over k elements depends only on those k elements. */
  lemma {:induction false} ThreadPrefix(es: seq<Element>, es': seq<Element>, k: nat, input: seq<real>, pow: PowFn)
    requires k <= |es| && k <= |es'| && es[..k] == es'[..k]
    ensures Thread(es, k, input, pow) == Thread(es', k, input, pow)
  {
    if k > 0 {
      assert es[..k - 1] == es'[..k - 1] && es[k - 1] == es'[k - 1] by {
        assert es[..k][k - 1] == es'[..k][k - 1];
        assert es[..k][..k - 1] == es'[..k][..k - 1];
      }
      ThreadPrefix(es, es', k - 1, input, pow);
    }
  }

  /** Two loops that agree before their last element, and share it, agree after it. */
  lemma ThreadSameLast(a: seq<Element>, ka: nat, b: seq<Element>, kb: nat, input: seq<real>, pow: PowFn)
    requires 0 < ka <= |a| && 0 < kb <= |b| && a[ka - 1] == b[kb - 1]
    requires Thread(a, ka - 1, input, pow) == Thread(b, kb - 1, input, pow)
    ensures Thread(a, ka, input, pow) == Thread(b, kb, input, pow)
  {
  }

  /** An element with another name passes the vector through unchanged. */
  lemma ThreadSkips(es: seq<Element>, k: nat, input: seq<real>, pow: PowFn)
    requires 0 < k <= |es| && !IsTransformName(es[k - 1].name)
    ensures Thread(es, k, input, pow) == Thread(es, k - 1, input, pow)
  {
  }

  /** The kept elements of one more element: the earlier ones, then that one if its name is kept. */
  lemma KeptStep(es: seq<Element>, k: nat)
    requires 0 < k <= |es|
    ensures Kept(es[..k]) == Kept(es[..k - 1]) + (if IsTransformName(es[k - 1].name) then [es[k - 1]] else [])
  {
    assert es[..k][..k - 1] == es[..k - 1];
    assert es[..k][k - 1] == es[k - 1];
  }

  /** One more element keeps the loop equal to the loop over the kept elements. */
  lemma ThreadKeptStep(es: seq<Element>, k: nat, input: seq<real>, pow: PowFn)
    requires 0 < k <= |es|
    requires Thread(es, k - 1, input, pow) == Thread(Kept(es[..k - 1]), |Kept(es[..k - 1])|, input, pow)
    ensures Thread(es, k, input, pow) == Thread(Kept(es[..k]), |Kept(es[..k])|, input, pow)
  {
    var e := es[k - 1];
    var ks := Kept(es[..k - 1]);
    KeptStep(es, k);
    if IsTransformName(e.name) {
      var ks' := ks + [e];
      assert ks'[..|ks|] == ks[..|ks|];
      ThreadPrefix(ks', ks, |ks|, input, pow);
      ThreadSameLast(es, k, ks', |ks'|, input, pow);
    } else {
      assert ks + [] == ks;
      ThreadSkips(es, k, input, pow);
    }
  }

  /** Elements with other names are skipped: the loop over the kept elements alone is the same. */
  lemma {:induction false} ThreadKept(es: seq<Element>, k: nat, input: seq<real>, pow: PowFn)
    requires k <= |es|
    ensures Thread(es, k, input, pow) == Thread(Kept(es[..k]), |Kept(es[..k])|, input, pow)
  {
    if k > 0 {
      ThreadKept(es, k - 1, input, pow);
      ThreadKeptStep(es, k, input, pow);
    }
  }

  /**
   * Only the elements named curv, para, mtx or clut matter: dropping every
   * other element leaves the transform as it is.
   */
  lemma TransformKeepsOrder(m: ModularTag, channels: seq<real>, pow: PowFn)
    ensures ModularTransform(m, channels, pow) == ModularTransform(m.(elements := Kept(m.elements)), channels, pow)
  {
    assert m.elements[..|m.elements|] == m.elements;
    ThreadKept(m.elements, |m.elements|, channels, pow);
  }

  /**
   * With no element that decoded to a transform (every element has another
   * name or a value without one), nothing is applied and the transform fails.
   */
  lemma {:induction false} NothingApplied(es: seq<Element>, k: nat, input: seq<real>, pow: PowFn)
    requires k <= |es|
    requires forall i :: 0 <= i < k ==>
               !IsTransformName(es[i].name) || (es[i].result.Success? && ChannelTransform(es[i].result.value, input, pow).None?)
    ensures Thread(es, k, input, pow) == Success(Pass(input, false))
  {
    if k > 0 {
      NothingApplied(es, k - 1, input, pow);
    }
  }

  lemma NoTransformableElements(m: ModularTag, channels: seq<real>, pow: PowFn)
    requires |channels| == m.inputChannels as int
    requires forall i :: 0 <= i < |m.elements| ==>
               !IsTransformName(m.elements[i].name) ||
               (m.elements[i].result.Success? && ChannelTransform(m.elements[i].result.value, channels, pow).None?)
    ensures ModularTransform(m, channels, pow) == Failure(ModularNothingToApply)
  {
    NothingApplied(m.elements, |m.elements|, channels, pow);
  }

  /**
   * Two transform elements in a row compose: the second is applied to what the
   * first produced.
   */
  lemma TwoElementsCompose(m: ModularTag, channels: seq<real>, pow: PowFn, v1: TagValue, v2: TagValue)
    requires |channels| == m.inputChannels as int && |m.elements| == 2
    requires IsTransformName(m.elements[0].name) && m.elements[0].result == Success(v1)
    requires IsTransformName(m.elements[1].name) && m.elements[1].result == Success(v2)
    requires ChannelTransform(v1, channels, pow).Some? && ChannelTransform(v1, channels, pow).value.Success?
    requires var mid := ChannelTransform(v1, channels, pow).value.value;
             ChannelTransform(v2, mid, pow).Some?
    ensures var mid := ChannelTransform(v1, channels, pow).value.value;
            ModularTransform(m, channels, pow) == ChannelTransform(v2, mid, pow).value.MapError(e => ModularElementTransform(m.elements[1].name, e))
  {
    assert Thread(m.elements, 1, channels, pow) == Success(Pass(ChannelTransform(v1, channels, pow).value.value, true));
  }

  /** The first element whose decode failed stops the transform with its error, wrapped with its name. */
  lemma {:induction false} FirstDecodeErrorWins(es: seq<Element>, j: nat, input: seq<real>, pow: PowFn)
    requires j < |es|
    requires forall i :: 0 <= i < j ==> !IsTransformName(es[i].name)
    requires IsTransformName(es[j].name) && es[j].result.Failure?
    ensures Thread(es, |es|, input, pow) == Failure(ModularElementDecode(es[j].name, es[j].result.error))
  {
    NothingApplied(es, j, input, pow);
    ThreadFailurePersists(es, j + 1, |es|, input, pow);
  }
}
