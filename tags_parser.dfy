/**
 * The tag-body walker: the tag table's entries sorted by offset, read from
 * the stream one block at a time, with entries that share an offset sharing
 * one Tag, and each Tag's value decoded eagerly or on first use.
 */
module TagsParser {
  import opened Wrappers
  import opened Bytes
  import opened Errors
  import opened TagValues
  import opened Streams
  import opened Header
  import opened TagHeaders
  import opened Decoders

  /**
   * ParseOptions, without TagFilter, which the walker does not consult.  A
   * TagDecoders entry may be present and hold no decoder (a nil function).
   */
  datatype ParseOptions = ParseOptions(
    mode: byte,
    lazyTagDecode: bool,
    errorOnUnknownTags: bool,
    errorOnTagDecode: bool,
    tagDecoders: map<string, Option<Decoder>>)

  /** The zero value of ParseOptions: full, eager and permissive, with no overrides. */
  const DefaultOptions: ParseOptions := ParseOptions(0, false, false, false, map[])

  // ---------------------------------------------------------------- one tag

  /**
   * The state of one Tag as a value: the entries that point at it, its type
   * signature and bytes, the decoded value and error, whether decoding is
   * still pending, the decoder, and how many times the decoder has run.
   */
  datatype Block = Block(
    headers: seq<TagHeader>,
    signature: string,
    raw: seq<byte>,
    value: TagValue,
    lazy: bool,
    error: Option<Error>,
    decoder: Option<Decoder>,
    calls: nat)

  /**
   * What every Tag the walker builds satisfies: a pending decode has a decoder
   * and has not run it, and the decoder runs at most once, after which
   * nothing is pending.
   */
  predicate BlockValid(b: Block) {
    (b.lazy && b.error.None? ==> b.decoder.Some? && b.calls == 0) &&
    b.calls <= 1 &&
    (b.calls == 1 ==> !b.lazy)
  }

  /** The value half of a decoder's outcome; nil when it failed. */
  function ValueOf(out: Result<TagValue, Error>): TagValue {
    if out.Success? then out.value else Nil
  }

  /** The error half of a decoder's outcome. */
  function ErrorOf(out: Result<TagValue, Error>): Option<Error> {
    if out.Success? then None else Some(out.error)
  }

  /**
   * Tag.Value as a function of the Tag's state: the new state, the value and
   * the error.  A stored error is returned as it is; a pending decode runs
   * the decoder once and stores what it gave.
   */
  function ValueCall(b: Block): (Block, TagValue, Option<Error>)
    requires BlockValid(b)
  {
    if b.error.Some? then (b, Nil, b.error)
    else if b.lazy then
      var out := b.decoder.value(b.raw);
      var b' := b.(value := ValueOf(out), error := ErrorOf(out), lazy := false, calls := b.calls + 1);
      (b', b'.value, b'.error)
    else (b, b.value, b.error)
  }

  /**
   * Value keeps a Tag valid; it runs the decoder only when a decode is
   * pending and no error is stored, and then exactly once; a stored error is
   * returned without running it.
   */
  lemma ValueCallRunsDecoderOnce(b: Block)
    requires BlockValid(b)
    ensures BlockValid(ValueCall(b).0)
    ensures ValueCall(b).0.calls == if b.lazy && b.error.None? then b.calls + 1 else b.calls
    ensures b.error.Some? ==> ValueCall(b) == (b, Nil, b.error)
    ensures b.lazy && b.error.None? ==>
              ValueCall(b).1 == ValueOf(b.decoder.value(b.raw)) && ValueCall(b).2 == ErrorOf(b.decoder.value(b.raw))
  {
  }

  /**
   * Value is memoized: a second call changes nothing and returns what the
   * first returned.
   */
  lemma ValueMemoized(b: Block)
    requires BlockValid(b)
    ensures BlockValid(ValueCall(b).0)
    ensures var (b1, v1, e1) := ValueCall(b);
            ValueCall(b1) == (b1, v1, e1)
  {
  }

  /**
   * A Tag: Signature is the one name field, used also for modular elements.
   * `calls` counts the decoder runs.
   */
  class Tag {
    var headers: seq<TagHeader>
    var signature: string
    var raw: seq<byte>
    var value: TagValue
    var lazy: bool
    var error: Option<Error>
    var decoder: Option<Decoder>
    ghost var calls: nat

    ghost function State(): Block
      reads this
    {
      Block(headers, signature, raw, value, lazy, error, decoder, calls)
    }

    ghost predicate Valid()
      reads this
    {
      BlockValid(State())
    }

    /** The struct literal of parseTags: one entry, not yet decoded. */
    constructor (hdr: TagHeader, signature: string, raw: seq<byte>, lazy: bool, decoder: Option<Decoder>)
      ensures State() == Block([hdr], signature, raw, Nil, lazy, None, decoder, 0)
    {
      this.headers := [hdr];
      this.signature := signature;
      this.raw := raw;
      this.value := Nil;
      this.lazy := lazy;
      this.error := None;
      this.decoder := decoder;
      this.calls := 0;
    }

    /** Tag.Value: returns the stored error, or decodes once if pending, then the memo. */
    method Value() returns (v: TagValue, e: Option<Error>)
      requires Valid()
      modifies this
      ensures Valid()
      ensures (State(), v, e) == ValueCall(old(State()))
    {
      if error.Some? {
        return Nil, error;
      }
      if lazy {
        var out := decoder.value(raw);
        value, error := ValueOf(out), ErrorOf(out);
        lazy := false;
        calls := calls + 1;
      }
      return value, error;
    }
  }

  /** Two calls of Value return the same, and the decoder has then run at most once. */
  method ValueTwice(t: Tag) returns (v1: TagValue, e1: Option<Error>, v2: TagValue, e2: Option<Error>)
    requires t.Valid()
    modifies t
    ensures t.Valid() && t.calls <= 1
    ensures v1 == v2 && e1 == e2
  {
    v1, e1 := t.Value();
    ValueMemoized(old(t.State()));
    v2, e2 := t.Value();
  }

  // ---------------------------------------------------------------- decoder choice

  /**
   * The decoder registry: defaultDecoders, the decoder of each type it has an
   * entry for.  The walk takes it as a parameter; parseTags passes
   * DefaultDecoder.
   */
  type Registry = string -> Option<Decoder>

  /** A TagDecoders entry, even one holding no decoder, replaces the registry's. */
  function ChooseDecoder(options: ParseOptions, registry: Registry, sig: string): (d: Option<Decoder>)
    ensures sig in options.tagDecoders ==> d == options.tagDecoders[sig]
    ensures sig !in options.tagDecoders ==> d == registry(sig)
  {
    if sig in options.tagDecoders then options.tagDecoders[sig] else registry(sig)
  }

  /**
   * The decoder runs as the parse mode says: never yet in a lazy parse, and
   * exactly once in an eager parse when there is a decoder.
   */
  predicate DecodedOnce(b: Block, options: ParseOptions) {
    (options.lazyTagDecode ==> b.calls == 0) &&
    (!options.lazyTagDecode && b.decoder.Some? ==> b.calls == 1)
  }

  /**
   * The Tag made for a block just read: with no decoder it fails the parse
   * when unknown tags are errors and otherwise keeps an unknown-tag error;
   * an eager parse runs the decoder now and fails the parse on a decode error
   * only when decode errors are errors.
   */
  function NewBlock(hdr: TagHeader, raw: seq<byte>, options: ParseOptions, registry: Registry): (r: Result<Block, Error>)
    requires |raw| >= 4
    ensures r.Success? ==> BlockValid(r.value) && r.value.headers == [hdr] && r.value.raw == raw &&
                           r.value.signature == Stringed(raw[..4])
    ensures r.Success? ==> DecodedOnce(r.value, options)
  {
    var sig := Stringed(raw[..4]);
    var dec := ChooseDecoder(options, registry, sig);
    if dec.None? then
      if options.errorOnUnknownTags then Failure(UnknownTagAt(sig, hdr.offset as nat))
      else Success(Block([hdr], sig, raw, Nil, options.lazyTagDecode, Some(UnknownTag(sig)), None, 0))
    else if !options.lazyTagDecode then
      var out := dec.value(raw);
      if options.errorOnTagDecode && out.Failure? then Failure(DecodeTag(sig, hdr.offset as nat, out.error))
      else Success(Block([hdr], sig, raw, ValueOf(out), false, ErrorOf(out), dec, 1))
    else Success(Block([hdr], sig, raw, Nil, true, None, dec, 0))
  }

  /** The unknown-tag and decode-error policies, stated on their own. */
  lemma NewBlockPolicies(hdr: TagHeader, raw: seq<byte>, options: ParseOptions, registry: Registry)
    requires |raw| >= 4
    ensures var sig := Stringed(raw[..4]);
            ChooseDecoder(options, registry, sig).None? ==>
              (options.errorOnUnknownTags <==> NewBlock(hdr, raw, options, registry).Failure?) &&
              (!options.errorOnUnknownTags ==> NewBlock(hdr, raw, options, registry).value.error == Some(UnknownTag(sig)))
    ensures var sig := Stringed(raw[..4]);
            var dec := ChooseDecoder(options, registry, sig);
            dec.Some? && !options.lazyTagDecode ==>
              (NewBlock(hdr, raw, options, registry).Failure? <==> options.errorOnTagDecode && dec.value(raw).Failure?) &&
              (NewBlock(hdr, raw, options, registry).Success? ==>
                 NewBlock(hdr, raw, options, registry).value.calls == 1 &&
                 NewBlock(hdr, raw, options, registry).value.error == ErrorOf(dec.value(raw)))
    ensures var dec := ChooseDecoder(options, registry, Stringed(raw[..4]));
            dec.Some? && options.lazyTagDecode ==>
              NewBlock(hdr, raw, options, registry).Success? && NewBlock(hdr, raw, options, registry).value.calls == 0 &&
              NewBlock(hdr, raw, options, registry).value.lazy
  {
  }

  // ---------------------------------------------------------------- the walk

  // ---------------------------------------------------------------- reading one block

  /**
   * Moving to an entry's offset: an offset ahead of the position (cut to 32
   * bits, as the source compares) is skipped to; a failed skip is an error.
   */
  function SkipAhead(position: int, s: Stream, hdr: TagHeader): (r: Result<(int, Stream), Error>)
    ensures hdr.offset <= Wrap32(position) ==> r == Success((position, s))
    ensures hdr.offset > Wrap32(position) && r.Success? ==>
              r.value.0 == hdr.offset as int && r.value.1 == Stream(s.data, s.pos + hdr.offset - Wrap32(position))
  {
    if hdr.offset > Wrap32(position) then
      match Skip(s, hdr.offset - Wrap32(position))
      case Failure(e) => Failure(SkipToTag(hdr.Signature(), hdr.offset as nat, e))
      case Success(s') => Success((hdr.offset as int, s'))
    else Success((position, s))
  }

  /**
   * An entry whose offset has no Tag yet: skip to it, refuse an offset behind
   * the position, read its size in bytes, and make its Tag.  A block under
   * four bytes has no type signature to slice, which the source does not
   * check.
   */
  function ReadBlock(position: int, s: Stream, hdr: TagHeader, options: ParseOptions, registry: Registry): (r: Result<(int, Stream, Block), Error>)
    ensures r.Success? ==> BlockValid(r.value.2) && DecodedOnce(r.value.2, options) && r.value.2.headers == [hdr]
  {
    var skipped :- SkipAhead(position, s, hdr);
    var (p1, s1) := skipped;
    if hdr.offset < Wrap32(p1) then Failure(OffsetBeforePosition(hdr.Signature(), hdr.offset as nat, p1))
    else
      match Read(s1, hdr.size as nat)
      case Failure(e) => Failure(ReadTag(hdr.Signature(), hdr.offset as nat, e))
      case Success(read) =>
        if |read.0| < 4 then Failure(Panic(TagBlockUnder4Bytes))
        else
          var b :- NewBlock(hdr, read.0, options, registry);
          Success((p1 + hdr.size as int, read.1, b))
  }

  /**
   * The position the walker keeps stays the stream's read position shifted
   * by a constant, as long as positions stay below 2^32 (where the source
   * cuts the position to 32 bits before comparing); the bytes do not change.
   */
  lemma ReadBlockTracks(position: int, s: Stream, hdr: TagHeader, options: ParseOptions, registry: Registry, delta: int)
    requires s.Valid() && position == s.pos + delta && 0 <= delta && delta + |s.data| < TwoTo32
    requires ReadBlock(position, s, hdr, options, registry).Success?
    ensures var r := ReadBlock(position, s, hdr, options, registry).value;
            r.1.Valid() && r.0 == r.1.pos + delta && r.1.data == s.data
  {
    assert Wrap32(position) == position;
    var (p1, s1) := SkipAhead(position, s, hdr).value;
    assert s1.Valid() && p1 == s1.pos + delta && s1.data == s.data;
    var read := Read(s1, hdr.size as nat).value;
    assert read.1.Valid() && p1 + hdr.size as int == read.1.pos + delta && read.1.data == s.data;
  }

  /** An entry with no Tag yet whose offset is behind the position fails the walk. */
  lemma BackwardOffsetFails(position: int, s: Stream, hdr: TagHeader, options: ParseOptions, registry: Registry)
    requires hdr.offset < Wrap32(position)
    ensures ReadBlock(position, s, hdr, options, registry) ==
            Failure(OffsetBeforePosition(hdr.Signature(), hdr.offset as nat, position))
  {
  }

  /** A skip or a read that runs out of stream fails the walk, naming the entry. */
  lemma ShortStreamFails(position: int, s: Stream, hdr: TagHeader, options: ParseOptions, registry: Registry)
    requires s.Valid()
    requires s.pos + hdr.size as int + (if hdr.offset > Wrap32(position) then hdr.offset - Wrap32(position) else 0) > |s.data|
    ensures ReadBlock(position, s, hdr, options, registry).Failure?
    ensures ReadBlock(position, s, hdr, options, registry).error in
              {SkipToTag(hdr.Signature(), hdr.offset as nat, SkipFailed),
               ReadTag(hdr.Signature(), hdr.offset as nat, ShortRead),
               OffsetBeforePosition(hdr.Signature(), hdr.offset as nat, position)}
  {
  }

  // ---------------------------------------------------------------- the walk

  /**
   * How the walk reads the Tag of an entry whose offset is new, from a
   * position and a stream: the new position and stream, and the Tag.
   */
  type Reader = (int, Stream, TagHeader) -> Result<(int, Stream, Block), Error>

  /** The reader of parseTags. */
  function BlockReader(options: ParseOptions, registry: Registry): Reader {
    (position, s, hdr) => ReadBlock(position, s, hdr, options, registry)
  }

  /**
   * The walker's state after some entries: the position it believes the
   * stream is at, the stream, the Tags made so far in order, the Tag each
   * entry got (an index into blocks), and the offset cache.
   */
  datatype Walk = Walk(position: int, stream: Stream, blocks: seq<Block>, slots: seq<nat>, cache: map<u32, nat>)

  /** The cache and the entries' Tags point at Tags that exist. */
  predicate WalkValid(w: Walk) {
    (forall o :: o in w.cache ==> w.cache[o] < |w.blocks|) &&
    (forall i :: 0 <= i < |w.slots| ==> w.slots[i] < |w.blocks|)
  }

  /** A cached offset: the entry joins the Tag already made for it. */
  function Attach(w: Walk, hdr: TagHeader): (r: Walk)
    requires WalkValid(w) && hdr.offset in w.cache
    ensures WalkValid(r) && |r.blocks| == |w.blocks|
  {
    var b := w.cache[hdr.offset];
    w.(blocks := w.blocks[b := w.blocks[b].(headers := w.blocks[b].headers + [hdr])], slots := w.slots + [b])
  }

  /** A new offset: the Tag just read is added, given to the entry and cached. */
  function Extend(w: Walk, hdr: TagHeader, read: (int, Stream, Block)): (r: Walk)
    requires WalkValid(w)
    ensures WalkValid(r) && |r.blocks| == |w.blocks| + 1
  {
    Walk(read.0, read.1, w.blocks + [read.2], w.slots + [|w.blocks|], w.cache[hdr.offset := |w.blocks|])
  }

  /**
   * One entry of the loop.  A cached offset adds the entry to its Tag and
   * reads nothing; any other offset reads a new Tag and caches it.
   */
  function Visit(w: Walk, hdr: TagHeader, read: Reader): (r: Result<Walk, Error>)
    requires WalkValid(w)
    ensures r.Success? ==> WalkValid(r.value) && |r.value.slots| == |w.slots| + 1
  {
    if hdr.offset in w.cache then Success(Attach(w, hdr))
    else
      var block :- read(w.position, w.stream, hdr);
      Success(Extend(w, hdr, block))
  }

  /** The loop over the first k entries from a starting state; the first error ends it. */
  function WalkUpTo(hs: seq<TagHeader>, k: nat, start: Walk, read: Reader): (r: Result<Walk, Error>)
    requires k <= |hs| && WalkValid(start)
    ensures r.Success? ==> WalkValid(r.value) && |r.value.slots| == |start.slots| + k
  {
    if k == 0 then Success(start)
    else
      var w :- WalkUpTo(hs, k - 1, start, read);
      Visit(w, hs[k - 1], read)
  }

  /** A failure part way through the entries is the failure of the whole walk. */
  lemma {:induction false} WalkFailurePersists(hs: seq<TagHeader>, k: nat, n: nat, start: Walk, read: Reader)
    requires k <= n <= |hs| && WalkValid(start)
    requires WalkUpTo(hs, k, start, read).Failure?
    ensures WalkUpTo(hs, n, start, read) == WalkUpTo(hs, k, start, read)
  {
    if k < n {
      WalkFailurePersists(hs, k, n - 1, start, read);
    }
  }

  /** Where the walk starts: just after the 128-byte header, the count and n twelve-byte entries. */
  function Initial(s: Stream, n: nat): (w: Walk)
    ensures WalkValid(w) && w.position == HeaderSize + 4 + 12 * n
  {
    Walk(HeaderSize + 4 + 12 * n, s, [], [], map[])
  }

  // ---------------------------------------------------------------- sorting

  predicate SortedByOffset(hs: seq<TagHeader>) {
    forall i, j :: 0 <= i < j < |hs| ==> hs[i].offset <= hs[j].offset
  }

  /** Inserting an entry before the first entry whose offset is not below its own. */
  function Insert(h: TagHeader, sorted: seq<TagHeader>): (r: seq<TagHeader>)
    ensures |r| == |sorted| + 1
  {
    if sorted == [] || h.offset <= sorted[0].offset then [h] + sorted
    else [sorted[0]] + Insert(h, sorted[1..])
  }

  /**
   * The order the entries are visited in: by offset.  The source sorts with
   * slices.SortFunc, which leaves the order of equal offsets open; this sort
   * keeps table order among them.
   */
  function SortByOffset(hs: seq<TagHeader>): (r: seq<TagHeader>)
    ensures |r| == |hs|
  {
    if hs == [] then [] else Insert(hs[0], SortByOffset(hs[1..]))
  }

  /** Insert adds the entry to the multiset of entries. */
  lemma {:induction false} InsertPermutes(h: TagHeader, sorted: seq<TagHeader>)
    ensures multiset(Insert(h, sorted)) == multiset(sorted) + multiset{h}
  {
    if sorted != [] && h.offset > sorted[0].offset {
      InsertPermutes(h, sorted[1..]);
      assert sorted == [sorted[0]] + sorted[1..];
    }
  }

  /** A lower bound of the entry and of the sequence bounds the result. */
  lemma {:induction false} InsertBounded(h: TagHeader, sorted: seq<TagHeader>, x: u32)
    requires x <= h.offset && forall i :: 0 <= i < |sorted| ==> x <= sorted[i].offset
    ensures forall i :: 0 <= i < |Insert(h, sorted)| ==> x <= Insert(h, sorted)[i].offset
  {
    if sorted != [] && h.offset > sorted[0].offset {
      InsertBounded(h, sorted[1..], x);
    }
  }

  lemma {:induction false} InsertSorted(h: TagHeader, sorted: seq<TagHeader>)
    requires SortedByOffset(sorted)
    ensures SortedByOffset(Insert(h, sorted))
  {
    if sorted != [] && h.offset > sorted[0].offset {
      var rest := sorted[1..];
      InsertSorted(h, rest);
      InsertBounded(h, rest, sorted[0].offset);
    }
  }

  /** The entries are visited in non-decreasing offset order, and all of them, each once. */
  lemma {:induction false} SortByOffsetSorts(hs: seq<TagHeader>)
    ensures SortedByOffset(SortByOffset(hs))
    ensures multiset(SortByOffset(hs)) == multiset(hs)
  {
    if hs != [] {
      SortByOffsetSorts(hs[1..]);
      InsertSorted(hs[0], SortByOffset(hs[1..]));
      InsertPermutes(hs[0], SortByOffset(hs[1..]));
      assert hs == [hs[0]] + hs[1..];
    }
  }

  /** parseTags as a whole: the sorted entries walked from the initial state. */
  function TagWalk(s: Stream, table: TagHeaderTable, options: ParseOptions, registry: Registry): (r: Result<Walk, Error>)
    ensures r.Success? ==> WalkValid(r.value) && |r.value.slots| == |table.entries|
  {
    var hs := SortByOffset(table.entries);
    WalkUpTo(hs, |hs|, Initial(s, |hs|), BlockReader(options, registry))
  }

  // ---------------------------------------------------------------- what the walk keeps

  /** The entries among hs with offset o, in order. */
  function WithOffset(hs: seq<TagHeader>, o: u32): (r: seq<TagHeader>)
    ensures |r| <= |hs|
  {
    if hs == [] then []
    else WithOffset(hs[..|hs| - 1], o) + (if hs[|hs| - 1].offset == o then [hs[|hs| - 1]] else [])
  }

  lemma {:induction false} WithOffsetNone(hs: seq<TagHeader>, o: u32)
    requires forall i :: 0 <= i < |hs| ==> hs[i].offset != o
    ensures WithOffset(hs, o) == []
  {
    if hs != [] {
      WithOffsetNone(hs[..|hs| - 1], o);
    }
  }

  /**
   * How Tags are shared after k entries: each entry has the Tag cached for
   * its offset, different offsets have different Tags, and each Tag holds
   * exactly the entries with its offset, in visiting order.
   */
  predicate Sharing(hs: seq<TagHeader>, k: nat, w: Walk)
    requires k <= |hs| && WalkValid(w)
  {
    |w.slots| == k &&
    (forall i :: 0 <= i < k ==> hs[i].offset in w.cache && w.slots[i] == w.cache[hs[i].offset]) &&
    (forall o1, o2 :: o1 in w.cache && o2 in w.cache && w.cache[o1] == w.cache[o2] ==> o1 == o2) &&
    (forall o :: o in w.cache ==> w.blocks[w.cache[o]].headers == WithOffset(hs[..k], o))
  }

  /** The last entry of a prefix one longer. */
  lemma WithOffsetStep(hs: seq<TagHeader>, k: nat, o: u32)
    requires k < |hs|
    ensures WithOffset(hs[..k + 1], o) == WithOffset(hs[..k], o) + (if hs[k].offset == o then [hs[k]] else [])
  {
    assert hs[..k + 1][..k] == hs[..k];
  }

  lemma AttachSharing(hs: seq<TagHeader>, k: nat, w: Walk)
    requires k < |hs| && WalkValid(w) && Sharing(hs, k, w) && hs[k].offset in w.cache
    ensures Sharing(hs, k + 1, Attach(w, hs[k]))
  {
    var h := hs[k];
    var w' := Attach(w, h);
    forall o | o in w'.cache
      ensures w'.blocks[w'.cache[o]].headers == WithOffset(hs[..k + 1], o)
    {
      WithOffsetStep(hs, k, o);
    }
  }

  /** The Tags after reading a new offset hold, per offset, the entries so far with that offset. */
  lemma ExtendHeaders(hs: seq<TagHeader>, k: nat, w: Walk, read: (int, Stream, Block))
    requires k < |hs| && WalkValid(w) && Sharing(hs, k, w) && hs[k].offset !in w.cache
    requires read.2.headers == [hs[k]]
    ensures var w' := Extend(w, hs[k], read);
            forall o :: o in w'.cache ==> w'.blocks[w'.cache[o]].headers == WithOffset(hs[..k + 1], o)
  {
    var h := hs[k];
    var w' := Extend(w, h, read);
    forall o | o in w'.cache
      ensures w'.blocks[w'.cache[o]].headers == WithOffset(hs[..k + 1], o)
    {
      WithOffsetStep(hs, k, o);
      if o == h.offset {
        WithOffsetNone(hs[..k], o);
      }
    }
  }

  lemma ExtendSharing(hs: seq<TagHeader>, k: nat, w: Walk, read: (int, Stream, Block))
    requires k < |hs| && WalkValid(w) && Sharing(hs, k, w) && hs[k].offset !in w.cache
    requires read.2.headers == [hs[k]]
    ensures Sharing(hs, k + 1, Extend(w, hs[k], read))
  {
    ExtendHeaders(hs, k, w, read);
  }

  /** A reader gives the Tag it reads the one entry it was read for. */
  ghost predicate KeepsHeaders(read: Reader) {
    forall p, s, h :: read(p, s, h).Success? ==> read(p, s, h).value.2.headers == [h]
  }

  lemma VisitSharing(hs: seq<TagHeader>, k: nat, w: Walk, read: Reader)
    requires k < |hs| && WalkValid(w) && Sharing(hs, k, w) && KeepsHeaders(read)
    requires Visit(w, hs[k], read).Success?
    ensures Sharing(hs, k + 1, Visit(w, hs[k], read).value)
  {
    if hs[k].offset in w.cache {
      AttachSharing(hs, k, w);
    } else {
      ExtendSharing(hs, k, w, read(w.position, w.stream, hs[k]).value);
    }
  }

  lemma {:induction false} WalkShares(hs: seq<TagHeader>, k: nat, s: Stream, read: Reader)
    requires k <= |hs| && KeepsHeaders(read)
    requires WalkUpTo(hs, k, Initial(s, |hs|), read).Success?
    ensures Sharing(hs, k, WalkUpTo(hs, k, Initial(s, |hs|), read).value)
  {
    if k > 0 {
      WalkShares(hs, k - 1, s, read);
      var w := WalkUpTo(hs, k - 1, Initial(s, |hs|), read).value;
      assert Sharing(hs, k - 1, w);
      assert WalkUpTo(hs, k, Initial(s, |hs|), read) == Visit(w, hs[k - 1], read);
      VisitSharing(hs, k - 1, w, read);
    }
  }

  /**
   * Every Tag stays valid; in an eager parse each Tag with a decoder has run
   * it exactly once, and in a lazy parse no decoder has run.
   */
  predicate Decoded(w: Walk, options: ParseOptions) {
    forall b :: 0 <= b < |w.blocks| ==> BlockValid(w.blocks[b]) && DecodedOnce(w.blocks[b], options)
  }

  /** Every Tag a reader reads is valid and decoded as the parse mode says. */
  ghost predicate ReadsDecoded(read: Reader, options: ParseOptions) {
    forall p, s, h :: read(p, s, h).Success? ==>
      BlockValid(read(p, s, h).value.2) && DecodedOnce(read(p, s, h).value.2, options)
  }

  lemma VisitDecoded(w: Walk, hdr: TagHeader, read: Reader, options: ParseOptions)
    requires WalkValid(w) && Decoded(w, options) && ReadsDecoded(read, options)
    requires Visit(w, hdr, read).Success?
    ensures Decoded(Visit(w, hdr, read).value, options)
  {
  }

  lemma {:induction false} WalkDecoded(hs: seq<TagHeader>, k: nat, start: Walk, read: Reader, options: ParseOptions)
    requires k <= |hs| && WalkValid(start) && Decoded(start, options) && ReadsDecoded(read, options)
    requires WalkUpTo(hs, k, start, read).Success?
    ensures Decoded(WalkUpTo(hs, k, start, read).value, options)
  {
    if k > 0 {
      WalkDecoded(hs, k - 1, start, read, options);
      var w := WalkUpTo(hs, k - 1, start, read).value;
      assert WalkUpTo(hs, k, start, read) == Visit(w, hs[k - 1], read);
      VisitDecoded(w, hs[k - 1], read, options);
    }
  }

  /** The walker's position is the stream's read position shifted by delta. */
  ghost predicate Tracks(w: Walk, delta: int) {
    w.stream.Valid() && w.position == w.stream.pos + delta
  }

  /**
   * A reader that keeps the position delta ahead of a valid stream's read
   * position, and the bytes as they are, on streams under 2^32 - delta bytes.
   */
  ghost predicate KeepsTracking(read: Reader, delta: int) {
    forall p: int, s: Stream, h: TagHeader ::
      (s.Valid() && p == s.pos + delta && 0 <= delta && delta + |s.data| < TwoTo32 && read(p, s, h).Success?) ==>
      read(p, s, h).value.1.Valid() && read(p, s, h).value.0 == read(p, s, h).value.1.pos + delta &&
      read(p, s, h).value.1.data == s.data
  }

  lemma VisitTracks(w: Walk, hdr: TagHeader, read: Reader, delta: int)
    requires WalkValid(w) && Tracks(w, delta) && 0 <= delta && delta + |w.stream.data| < TwoTo32
    requires KeepsTracking(read, delta) && Visit(w, hdr, read).Success?
    ensures Tracks(Visit(w, hdr, read).value, delta)
    ensures Visit(w, hdr, read).value.stream.data == w.stream.data
  {
  }

  lemma {:induction false} WalkTracks(hs: seq<TagHeader>, k: nat, start: Walk, read: Reader, delta: int)
    requires k <= |hs| && WalkValid(start) && Tracks(start, delta)
    requires 0 <= delta && delta + |start.stream.data| < TwoTo32 && KeepsTracking(read, delta)
    requires WalkUpTo(hs, k, start, read).Success?
    ensures Tracks(WalkUpTo(hs, k, start, read).value, delta)
    ensures WalkUpTo(hs, k, start, read).value.stream.data == start.stream.data
  {
    if k > 0 {
      WalkTracks(hs, k - 1, start, read, delta);
      var w := WalkUpTo(hs, k - 1, start, read).value;
      assert WalkUpTo(hs, k, start, read) == Visit(w, hs[k - 1], read);
      VisitTracks(w, hs[k - 1], read, delta);
    }
  }

  /** The reader of parseTags has the three properties the walk lemmas ask of a reader. */
  lemma BlockReaderKeeps(options: ParseOptions, registry: Registry, delta: int)
    ensures KeepsHeaders(BlockReader(options, registry))
    ensures ReadsDecoded(BlockReader(options, registry), options)
    ensures KeepsTracking(BlockReader(options, registry), delta)
  {
    var read := BlockReader(options, registry);
    forall p: int, s: Stream, h: TagHeader | s.Valid() && p == s.pos + delta && 0 <= delta && delta + |s.data| < TwoTo32 &&
                     read(p, s, h).Success?
      ensures read(p, s, h).value.1.Valid() && read(p, s, h).value.0 == read(p, s, h).value.1.pos + delta &&
              read(p, s, h).value.1.data == s.data
    {
      ReadBlockTracks(p, s, h, options, registry, delta);
    }
  }

  /**
   * parseTags shares Tags by offset: entries with the same offset have the
   * same Tag and entries with different offsets different ones, and each Tag
   * holds exactly the entries with its offset, in the order visited.
   */
  lemma TagWalkShares(s: Stream, table: TagHeaderTable, options: ParseOptions, registry: Registry)
    requires TagWalk(s, table, options, registry).Success?
    ensures Sharing(SortByOffset(table.entries), |table.entries|, TagWalk(s, table, options, registry).value)
  {
    var hs := SortByOffset(table.entries);
    BlockReaderKeeps(options, registry, 0);
    WalkShares(hs, |hs|, s, BlockReader(options, registry));
  }

  /**
   * parseTags leaves every Tag valid; an eager parse has run each Tag's
   * decoder exactly once, a lazy parse none.
   */
  lemma TagWalkDecoded(s: Stream, table: TagHeaderTable, options: ParseOptions, registry: Registry)
    requires TagWalk(s, table, options, registry).Success?
    ensures Decoded(TagWalk(s, table, options, registry).value, options)
  {
    var hs := SortByOffset(table.entries);
    BlockReaderKeeps(options, registry, 0);
    WalkDecoded(hs, |hs|, Initial(s, |hs|), BlockReader(options, registry), options);
  }

  /**
   * When the stream's read position is at or before the end of the tag
   * table, and the stream is short enough for 32-bit positions, the position
   * parseTags keeps stays that gap ahead of the stream's read position, and
   * the bytes never change.
   */
  lemma TagWalkTracks(s: Stream, table: TagHeaderTable, options: ParseOptions, registry: Registry)
    requires s.Valid() && s.pos <= HeaderSize + 4 + 12 * |table.entries|
    requires HeaderSize + 4 + 12 * |table.entries| - s.pos + |s.data| < TwoTo32
    requires TagWalk(s, table, options, registry).Success?
    ensures Tracks(TagWalk(s, table, options, registry).value, HeaderSize + 4 + 12 * |table.entries| - s.pos)
    ensures TagWalk(s, table, options, registry).value.stream.data == s.data
  {
    var hs := SortByOffset(table.entries);
    var delta := HeaderSize + 4 + 12 * |hs| - s.pos;
    BlockReaderKeeps(options, registry, delta);
    WalkTracks(hs, |hs|, Initial(s, |hs|), BlockReader(options, registry), delta);
  }

  // ---------------------------------------------------------------- the method

  /**
   * The Tag for an entry whose offset has no Tag yet, made as parseTags makes
   * it: the struct literal, the override, the policies and the eager decode.
   */
  method NewTag(hdr: TagHeader, raw: seq<byte>, options: ParseOptions, registry: Registry) returns (r: Result<Tag, Error>)
    requires |raw| >= 4
    ensures r.Success? <==> NewBlock(hdr, raw, options, registry).Success?
    ensures r.Failure? ==> r.error == NewBlock(hdr, raw, options, registry).error
    ensures r.Success? ==> fresh(r.value) && r.value.State() == NewBlock(hdr, raw, options, registry).value
  {
    var signature := Stringed(raw[..4]);
    var block := new Tag(hdr, signature, raw, options.lazyTagDecode, registry(signature));
    if signature in options.tagDecoders {
      block.decoder := options.tagDecoders[signature];
    }
    if block.decoder.None? {
      if options.errorOnUnknownTags {
        return Failure(UnknownTagAt(signature, hdr.offset as nat));
      }
      block.error := Some(UnknownTag(signature));
      return Success(block);
    }
    if !options.lazyTagDecode && block.error.None? {
      var out := block.decoder.value(block.raw);
      block.value, block.error := ValueOf(out), ErrorOf(out);
      block.calls := block.calls + 1;
    }
    if options.errorOnTagDecode && block.error.Some? {
      return Failure(DecodeTag(signature, hdr.offset as nat, block.error.value));
    }
    return Success(block);
  }

  /** The skip, the position check and the read of one new block, then its Tag. */
  method ReadTagBlock(position: int, s: Stream, hdr: TagHeader, options: ParseOptions, registry: Registry)
    returns (r: Result<(int, Stream, Tag), Error>)
    ensures r.Success? <==> ReadBlock(position, s, hdr, options, registry).Success?
    ensures r.Failure? ==> r.error == ReadBlock(position, s, hdr, options, registry).error
    ensures r.Success? ==>
              var (p, s', b) := ReadBlock(position, s, hdr, options, registry).value;
              r.value.0 == p && r.value.1 == s' && fresh(r.value.2) && r.value.2.State() == b
  {
    var currentOffset := position;
    var stream := s;
    if hdr.offset > Wrap32(currentOffset) {
      var skipped := Skip(stream, hdr.offset - Wrap32(currentOffset));
      if skipped.Failure? {
        return Failure(SkipToTag(hdr.Signature(), hdr.offset as nat, skipped.error));
      }
      stream := skipped.value;
      currentOffset := hdr.offset as int;
    }
    if hdr.offset < Wrap32(currentOffset) {
      return Failure(OffsetBeforePosition(hdr.Signature(), hdr.offset as nat, currentOffset));
    }
    var read := Read(stream, hdr.size as nat);
    if read.Failure? {
      return Failure(ReadTag(hdr.Signature(), hdr.offset as nat, read.error));
    }
    var raw := read.value.0;
    stream := read.value.1;
    currentOffset := currentOffset + hdr.size as int;
    if |raw| < 4 {
      return Failure(Panic(TagBlockUnder4Bytes));
    }
    var block :- NewTag(hdr, raw, options, registry);
    return Success((currentOffset, stream, block));
  }

  /**
   * The Tag objects mirror the walk: created holds one distinct object per
   * Tag with that Tag's state, and each entry of the result is its entry's
   * Tag.
   */
  ghost predicate Mirrors(w: Walk, created: seq<Tag>, result: seq<Tag>)
    reads created
  {
    WalkValid(w) && |created| == |w.blocks| &&
    (forall k :: 0 <= k < |created| ==> created[k].State() == w.blocks[k]) &&
    (forall k, l :: 0 <= k < l < |created| ==> created[k] != created[l]) &&
    |result| == |w.slots| &&
    (forall j :: 0 <= j < |result| ==> result[j] == created[w.slots[j]])
  }

  /** The offset cache maps each offset to the object of its Tag. */
  ghost predicate CacheMirrors(w: Walk, created: seq<Tag>, cache: map<u32, Tag>)
    requires WalkValid(w) && |created| == |w.blocks|
  {
    cache.Keys == w.cache.Keys && (forall o :: o in cache ==> cache[o] == created[w.cache[o]])
  }

  /**
   * The walk after the first i entries of the loop of parseTags, at the
   * loop's position and stream.
   */
  ghost predicate WalkAt(headers: seq<TagHeader>, i: nat, start: Walk, read: Reader, w: Walk, position: int, s: Stream) {
    i <= |headers| && WalkValid(start) && WalkUpTo(headers, i, start, read) == Success(w) &&
    w.position == position && w.stream == s
  }

  /** The walk's Tags, entries and cache, mirrored by the objects, the result and the offset cache. */
  ghost predicate Mirrored(w: Walk, created: seq<Tag>, result: seq<Tag>, cache: map<u32, Tag>)
    reads created
  {
    Mirrors(w, created, result) && CacheMirrors(w, created, cache)
  }

  /** Before the first entry: the initial walk, no Tags and an empty cache. */
  lemma WalkingStarts(headers: seq<TagHeader>, s: Stream, read: Reader)
    ensures WalkAt(headers, 0, Initial(s, |headers|), read, Initial(s, |headers|), HeaderSize + 4 + 12 * |headers|, s)
    ensures Mirrored(Initial(s, |headers|), [], [], map[])
  {
  }

  /**
   * What the mirror gives the caller: entry i's object has the state of entry
   * i's Tag, and two entries have the same object exactly when they have the
   * same Tag.
   */
  lemma MirroredResult(w: Walk, created: seq<Tag>, result: seq<Tag>)
    requires Mirrors(w, created, result)
    ensures forall i :: 0 <= i < |result| ==> result[i] in created && result[i].State() == w.blocks[w.slots[i]]
    ensures forall i, j :: 0 <= i < |result| && 0 <= j < |result| ==>
              (result[i] == result[j] <==> w.slots[i] == w.slots[j])
  {
    forall i, j | 0 <= i < |result| && 0 <= j < |result| && result[i] == result[j]
      ensures w.slots[i] == w.slots[j]
    {
      assert created[w.slots[i]] == created[w.slots[j]];
    }
  }

  /** An entry whose offset is cached: the cached Tag gains the entry and is appended. */
  method ShareTag(hdr: TagHeader, cache: map<u32, Tag>, result: seq<Tag>, ghost created: seq<Tag>, ghost w: Walk)
    returns (result': seq<Tag>)
    requires Mirrors(w, created, result) && CacheMirrors(w, created, cache) && hdr.offset in cache
    modifies cache[hdr.offset]
    ensures WalkValid(w) && hdr.offset in w.cache
    ensures Mirrors(Attach(w, hdr), created, result') && CacheMirrors(Attach(w, hdr), created, cache)
  {
    var block := cache[hdr.offset];
    block.headers := block.headers + [hdr];
    result' := result + [block];
  }

  /** A Tag object not among the others mirrors the Tag that a new offset adds to the walk. */
  lemma ExtendMirrored(w: Walk, created: seq<Tag>, result: seq<Tag>, cache: map<u32, Tag>,
                       hdr: TagHeader, read: (int, Stream, Block), t: Tag)
    requires Mirrored(w, created, result, cache) && t !in created && t.State() == read.2
    ensures Mirrored(Extend(w, hdr, read), created + [t], result + [t], cache[hdr.offset := t])
  {
    var w', created' := Extend(w, hdr, read), created + [t];
    assert forall k :: 0 <= k < |created| ==> created'[k] == created[k];
    assert created'[|created|] == t;
  }

  /** An entry whose offset is not cached: its block is read, and its new Tag cached and appended. */
  method AddTag(position: int, s: Stream, hdr: TagHeader, options: ParseOptions, registry: Registry,
                cache: map<u32, Tag>, result: seq<Tag>, ghost created: seq<Tag>, ghost w: Walk)
    returns (r: Result<(int, Stream, map<u32, Tag>, seq<Tag>), Error>, ghost added: seq<Tag>)
    requires Mirrored(w, created, result, cache) && hdr.offset !in cache
    requires w.position == position && w.stream == s
    ensures WalkValid(w)
    ensures r.Failure? ==> Visit(w, hdr, BlockReader(options, registry)) == Failure(r.error)
    ensures r.Success? ==>
              Visit(w, hdr, BlockReader(options, registry)).Success? &&
              var w' := Visit(w, hdr, BlockReader(options, registry)).value;
              |added| == 1 && fresh(added[0]) && r.value.2 == cache[hdr.offset := added[0]] &&
              w'.position == r.value.0 && w'.stream == r.value.1 &&
              Mirrored(w', created + added, r.value.3, r.value.2)
  {
    var read := ReadTagBlock(position, s, hdr, options, registry);
    if read.Failure? {
      return Failure(read.error), [];
    }
    var (p, s', block) := read.value;
    ghost var b := ReadBlock(position, s, hdr, options, registry).value;
    ExtendMirrored(w, created, result, cache, hdr, b, block);
    added := [block];
    r := Success((p, s', cache[hdr.offset := block], result + [block]));
  }

  /**
   * One pass of the loop of parseTags over entry i: the walk of the first
   * i + 1 entries, mirrored by the Tag objects, or the walk's failure.
   */
  method Step(headers: seq<TagHeader>, i: nat, ghost start: Walk, options: ParseOptions, registry: Registry,
              position: int, s: Stream, cache: map<u32, Tag>, result: seq<Tag>,
              ghost created: seq<Tag>, ghost w: Walk, ghost read: Reader)
    returns (r: Result<(int, Stream, map<u32, Tag>, seq<Tag>), Error>, ghost added: seq<Tag>, ghost w': Walk)
    requires i < |headers| && read == BlockReader(options, registry)
    requires WalkAt(headers, i, start, read, w, position, s)
    requires Mirrored(w, created, result, cache)
    modifies if headers[i].offset in cache then {cache[headers[i].offset]} else {}
    ensures r.Failure? ==> WalkUpTo(headers, i + 1, start, read) == Failure(r.error)
    ensures r.Success? ==>
              WalkAt(headers, i + 1, start, read, w', r.value.0, r.value.1) &&
              Mirrored(w', created + added, r.value.3, r.value.2) &&
              |added| <= 1 && (|added| == 1 ==> fresh(added[0])) &&
              (r.value.2 == cache || (|added| == 1 && r.value.2 == cache[headers[i].offset := added[0]]))
  {
    var hdr := headers[i];
    ghost var next := Visit(w, hdr, BlockReader(options, registry));
    assert WalkUpTo(headers, i + 1, start, BlockReader(options, registry)) == next;
    if hdr.offset in cache {
      var result' := ShareTag(hdr, cache, result, created, w);
      w' := Attach(w, hdr);
      added := [];
      assert created + added == created;
      r := Success((position, s, cache, result'));
    } else {
      w' := w;
      r, added := AddTag(position, s, hdr, options, registry, cache, result, created, w);
      if r.Success? {
        w' := next.value;
        assert fresh(added[0]) && |added| == 1;
      }
    }
  }

  /** Appending at most one object allocated since the earlier state keeps every object new. */
  twostate lemma FreshAppend(new created: seq<Tag>, new added: seq<Tag>)
    requires forall k :: 0 <= k < |created| ==> fresh(created[k])
    requires |added| <= 1 && (|added| == 1 ==> fresh(added[0]))
    ensures forall k :: 0 <= k < |created + added| ==> fresh((created + added)[k])
  {
  }

  /**
   * The loop of parseTags over the sorted entries: the Tags of the walk from
   * the initial state, one new object per Tag, or the walk's failure.
   */
  method WalkTags(s: Stream, headers: seq<TagHeader>, options: ParseOptions, registry: Registry, ghost read: Reader)
    returns (r: Result<seq<Tag>, Error>, ghost created: seq<Tag>, ghost w: Walk)
    requires read == BlockReader(options, registry)
    ensures r.Failure? ==>
              WalkUpTo(headers, |headers|, Initial(s, |headers|), read) == Failure(r.error)
    ensures r.Success? ==>
              WalkUpTo(headers, |headers|, Initial(s, |headers|), read) == Success(w) &&
              Mirrors(w, created, r.value) && forall k :: 0 <= k < |created| ==> fresh(created[k])
  {
    var currentOffset := HeaderSize + 4 + 12 * |headers|;
    var stream := s;
    var offsetCache: map<u32, Tag> := map[];
    var result: seq<Tag> := [];
    created := [];
    ghost var start := Initial(s, |headers|);
    w := start;
    var i := 0;
    WalkingStarts(headers, s, read);
    while i < |headers|
      invariant WalkAt(headers, i, start, read, w, currentOffset, stream)
      invariant Mirrored(w, created, result, offsetCache)
      invariant forall k :: 0 <= k < |created| ==> fresh(created[k])
      invariant forall o :: o in offsetCache ==> fresh(offsetCache[o])
    {
      var step;
      ghost var added;
      step, added, w := Step(headers, i, start, options, registry, currentOffset, stream, offsetCache, result, created, w, read);
      if step.Failure? {
        WalkFailurePersists(headers, i + 1, |headers|, start, read);
        return Failure(step.error), created, w;
      }
      FreshAppend(created, added);
      created := created + added;
      currentOffset, stream, offsetCache, result := step.value.0, step.value.1, step.value.2, step.value.3;
      i := i + 1;
    }
    return Success(result), created, w;
  }

  /**
   * parseTags: the entries sorted by offset and walked in that order.  The
   * i-th Tag of the result is the Tag of the i-th sorted entry, entries share
   * a Tag object exactly when the walk gives them the same one, and every
   * Tag is new.
   */
  method ParseTags(s: Stream, table: TagHeaderTable, options: ParseOptions) returns (r: Result<seq<Tag>, Error>)
    ensures r.Success? <==> TagWalk(s, table, options, DefaultDecoder).Success?
    ensures r.Failure? ==> r.error == TagWalk(s, table, options, DefaultDecoder).error
    ensures r.Success? ==>
              var w := TagWalk(s, table, options, DefaultDecoder).value;
              |r.value| == |w.slots| &&
              (forall i :: 0 <= i < |r.value| ==> fresh(r.value[i]) && r.value[i].State() == w.blocks[w.slots[i]]) &&
              (forall i, j :: 0 <= i < |r.value| && 0 <= j < |r.value| ==>
                 (r.value[i] == r.value[j] <==> w.slots[i] == w.slots[j]))
  {
    var headers := SortByOffset(table.entries);
    ghost var created, w;
    r, created, w := WalkTags(s, headers, options, DefaultDecoder, BlockReader(options, DefaultDecoder));
    if r.Success? {
      MirroredResult(w, created, r.value);
    }
  }
}
