/**
 * profile.go: ParseOptions' parse modes and ParseProfile, which reads the
 * header, then the tag table, then the tag blocks, stopping after the stage
 * the mode asks for or at the first stage that fails.
 */
module Profiles {
  import opened Wrappers
  import opened Bytes
  import opened Errors
  import opened TagValues
  import opened Streams
  import opened Header
  import opened TagHeaders
  import opened TagsParser
  import opened Decoders

  /** The ParseMode constants; any larger mode reads the header only, as the source compares with `<`. */
  const ParseFull: byte := 0
  const ParseHeaderAndTagTable: byte := 1
  const ParseHeaderOnly: byte := 2

  /** The zero TagHeaderTable: no entries. */
  const EmptyTable: TagHeaderTable := TagHeaderTable([])

  /** A nil *ParseOptions is replaced by the zero value: full, eager, permissive, no overrides. */
  function OptionsOrDefault(options: Option<ParseOptions>): (o: ParseOptions)
    ensures options.Some? ==> o == options.value
    ensures options.None? ==>
              o.mode == ParseFull && !o.lazyTagDecode && !o.errorOnUnknownTags && !o.errorOnTagDecode &&
              o.tagDecoders == map[]
  {
    if options.None? then DefaultOptions else options.value
  }

  /**
   * A Profile: the three fields ParseProfile fills, the by-name tag lookup
   * and the two conversion caches of conversions.go.  `a2b0`/`b2a0` hold the
   * modular tag found for each direction once a lookup has succeeded.
   */
  class Profile {
    var header: Header
    var tagHeaderTable: TagHeaderTable
    var tagBlocks: seq<Tag>
    var tagsByHeader: map<string, Tag?>
    var a2b0: Option<ModularTag>
    var b2a0: Option<ModularTag>

    /** The struct literal: the given fields, both caches empty. */
    constructor (header: Header, table: TagHeaderTable, blocks: seq<Tag>, tagsByHeader: map<string, Tag?>)
      ensures this.header == header && this.tagHeaderTable == table && this.tagBlocks == blocks
      ensures this.tagsByHeader == tagsByHeader && a2b0.None? && b2a0.None?
    {
      this.header := header;
      this.tagHeaderTable := table;
      this.tagBlocks := blocks;
      this.tagsByHeader := tagsByHeader;
      this.a2b0 := None;
      this.b2a0 := None;
    }

    /** TagByHeader: the Tag registered under a name; null when the name is missing or maps to nil. */
    function TagByHeader(name: string): (t: Tag?)
      reads this
      ensures t != null <==> name in tagsByHeader && tagsByHeader[name] != null
      ensures t != null ==> t == tagsByHeader[name]
    {
      if name in tagsByHeader then tagsByHeader[name] else null
    }
  }

  /**
   * What ParseProfile leaves in the Profile, as values: the header, the
   * table, the walk of the tag blocks when it ran and succeeded, and the
   * error of the first stage that failed.
   */
  datatype Parsed = Parsed(header: Header, table: TagHeaderTable, walk: Option<Walk>, err: Option<Error>)

  /** The tag-block stage: parseTags over the table just read, from where the table ends. */
  function WalkStage(h: Header, table: TagHeaderTable, afterTable: Stream, opts: ParseOptions, registry: Registry): (r: Parsed)
    ensures r.header == h && r.table == table
    ensures r.walk.Some? <==> TagWalk(afterTable, table, opts, registry).Success?
    ensures r.walk.Some? ==> r.walk.value == TagWalk(afterTable, table, opts, registry).value && r.err.None?
    ensures r.walk.None? ==> r.err == Some(TagWalk(afterTable, table, opts, registry).error)
  {
    match TagWalk(afterTable, table, opts, registry)
    case Failure(e) => Parsed(h, table, None, Some(e))
    case Success(w) => Parsed(h, table, Some(w), None)
  }

  /** The tag-table stage, and the tag-block stage after it unless the mode stops at the table. */
  function TableStage(h: Header, afterHeader: Stream, opts: ParseOptions, registry: Registry): (r: Parsed)
    ensures r.header == h
    ensures TagTable(afterHeader).Failure? ==> r == Parsed(h, EmptyTable, None, Some(TagTable(afterHeader).error))
    ensures TagTable(afterHeader).Success? && opts.mode >= ParseHeaderAndTagTable ==>
              r == Parsed(h, TagTable(afterHeader).value.0, None, None)
    ensures TagTable(afterHeader).Success? && opts.mode < ParseHeaderAndTagTable ==>
              r == WalkStage(h, TagTable(afterHeader).value.0, TagTable(afterHeader).value.1, opts, registry)
  {
    match TagTable(afterHeader)
    case Failure(e) => Parsed(h, EmptyTable, None, Some(e))
    case Success((table, afterTable)) =>
      if opts.mode >= ParseHeaderAndTagTable then Parsed(h, table, None, None)
      else WalkStage(h, table, afterTable, opts, registry)
  }

  /**
   * ParseProfile's stages over a profile that starts at byte 0.  A failed
   * stage leaves its own field at the zero value and stops; the mode stops
   * after the header or after the table.
   */
  function ParseStages(data: seq<byte>, options: Option<ParseOptions>, registry: Registry): (r: Parsed)
    ensures ParseHeader(Stream(data, 0)).Failure? ==>
              r == Parsed(EmptyHeader, EmptyTable, None, Some(ParseHeader(Stream(data, 0)).error))
    ensures ParseHeader(Stream(data, 0)).Success? && OptionsOrDefault(options).mode >= ParseHeaderOnly ==>
              r == Parsed(ParseHeader(Stream(data, 0)).value.0, EmptyTable, None, None)
    ensures ParseHeader(Stream(data, 0)).Success? && OptionsOrDefault(options).mode < ParseHeaderOnly ==>
              r == TableStage(ParseHeader(Stream(data, 0)).value.0, Stream(data, HeaderSize),
                              OptionsOrDefault(options), registry)
  {
    var opts := OptionsOrDefault(options);
    match ParseHeader(Stream(data, 0))
    case Failure(e) => Parsed(EmptyHeader, EmptyTable, None, Some(e))
    case Success((h, afterHeader)) =>
      if opts.mode >= ParseHeaderOnly then Parsed(h, EmptyTable, None, None)
      else TableStage(h, afterHeader, opts, registry)
  }

  /** A walk is only kept by a full parse whose stages all succeeded; a table only past the header. */
  lemma StagesRun(data: seq<byte>, options: Option<ParseOptions>, registry: Registry)
    ensures var r := ParseStages(data, options, registry);
            && (r.walk.Some? ==> r.err.None? && OptionsOrDefault(options).mode == ParseFull)
            && (r.table != EmptyTable ==> OptionsOrDefault(options).mode < ParseHeaderOnly)
            && (r.err.Some? ==> r.walk.None?)
  {
  }

  /** ParseHeaderOnly (or any larger mode) reads the header and nothing else. */
  lemma HeaderOnlyStops(data: seq<byte>, options: Option<ParseOptions>, registry: Registry)
    requires OptionsOrDefault(options).mode >= ParseHeaderOnly
    ensures var r := ParseStages(data, options, registry);
            var h := ParseHeader(Stream(data, 0));
            && r.table == EmptyTable && r.walk.None?
            && (h.Success? ==> r.header == h.value.0 && r.err.None?)
            && (h.Failure? ==> r.header == EmptyHeader && r.err == Some(h.error))
  {
  }

  /** ParseHeaderAndTagTable reads the table right after the header but no tag block. */
  lemma TableOnlyStops(data: seq<byte>, options: Option<ParseOptions>, registry: Registry)
    requires OptionsOrDefault(options).mode == ParseHeaderAndTagTable
    requires ParseHeader(Stream(data, 0)).Success?
    ensures var r := ParseStages(data, options, registry);
            var t := TagTable(Stream(data, HeaderSize));
            && r.header == ParseHeader(Stream(data, 0)).value.0 && r.walk.None?
            && (t.Success? ==> r.table == t.value.0 && r.err.None?)
            && (t.Failure? ==> r.table == EmptyTable && r.err == Some(t.error))
  {
  }

  /**
   * ParseFull walks the tag blocks of the table it has just read, from the
   * stream position right after the table; a failed walk keeps the header
   * and the table and returns the walk's error.
   */
  lemma FullWalksParsedTable(data: seq<byte>, options: Option<ParseOptions>, registry: Registry,
                             table: TagHeaderTable, afterTable: Stream)
    requires OptionsOrDefault(options).mode == ParseFull
    requires ParseHeader(Stream(data, 0)).Success? && TagTable(Stream(data, HeaderSize)) == Success((table, afterTable))
    ensures afterTable == Stream(data, HeaderSize + 4 + 12 * |table.entries|)
    ensures var r := ParseStages(data, options, registry);
            var w := TagWalk(afterTable, table, OptionsOrDefault(options), registry);
            && r.header == ParseHeader(Stream(data, 0)).value.0 && r.table == table
            && (w.Success? ==> r.walk == Some(w.value) && r.err.None?)
            && (w.Failure? ==> r.walk.None? && r.err == Some(w.error))
  {
    TagTableEntries(Stream(data, HeaderSize));
  }

  /**
   * On a full parse of a profile under 4 GiB, the position parseTags keeps
   * (it starts at 128 + 4 + 12n) is always the number of bytes read from the
   * start of the profile, and the bytes are those of the profile.
   */
  lemma FullParseTracksPosition(data: seq<byte>, options: Option<ParseOptions>, registry: Registry)
    requires |data| < TwoTo32
    requires ParseStages(data, options, registry).walk.Some?
    ensures Tracks(ParseStages(data, options, registry).walk.value, 0)
    ensures ParseStages(data, options, registry).walk.value.stream.data == data
  {
    var opts := OptionsOrDefault(options);
    StagesRun(data, options, registry);
    var afterHeader := Stream(data, HeaderSize);
    TagTableEntries(afterHeader);
    var table := TagTable(afterHeader).value.0;
    var afterTable := TagTable(afterHeader).value.1;
    TagWalkTracks(afterTable, table, opts, registry);
  }

  /**
   * The error returned is the first failing stage's, and a stage after it
   * leaves its field at the zero value: no table without a header, no tag
   * blocks without a table.
   */
  lemma FirstFailureStops(data: seq<byte>, options: Option<ParseOptions>, registry: Registry)
    ensures var r := ParseStages(data, options, registry);
            var h := ParseHeader(Stream(data, 0));
            && (h.Failure? ==> r.err == Some(h.error) && r.table == EmptyTable && r.walk.None?)
            && (h.Success? && OptionsOrDefault(options).mode < ParseHeaderOnly && TagTable(h.value.1).Failure? ==>
                  r.err == Some(TagTable(h.value.1).error) && r.table == EmptyTable && r.walk.None?)
  {
  }

  /**
   * The Tags of a parsed profile mirror the walk: one per sorted entry, in
   * the walk's state, shared exactly when the walk shares; none without a walk.
   */
  ghost predicate HoldsWalk(blocks: seq<Tag>, walk: Option<Walk>)
    reads blocks
  {
    if walk.None? then blocks == []
    else
      var w := walk.value;
      WalkValid(w) && |blocks| == |w.slots| &&
      (forall i :: 0 <= i < |blocks| ==> blocks[i].State() == w.blocks[w.slots[i]]) &&
      (forall i, j :: 0 <= i < |blocks| && 0 <= j < |blocks| ==> (blocks[i] == blocks[j] <==> w.slots[i] == w.slots[j]))
  }

  /** The third stage of ParseProfile: parseTags, its Tags kept only when it succeeds. */
  method ReadTagBlocks(header: Header, table: TagHeaderTable, afterTable: Stream, opts: ParseOptions)
    returns (blocks: seq<Tag>, err: Option<Error>)
    ensures forall i :: 0 <= i < |blocks| ==> fresh(blocks[i])
    ensures var r := WalkStage(header, table, afterTable, opts, DefaultDecoder);
            err == r.err && HoldsWalk(blocks, r.walk)
  {
    var tags := ParseTags(afterTable, table, opts);
    if tags.Failure? {
      return [], Some(tags.error);
    }
    return tags.value, None;
  }

  /** The second and third stages of ParseProfile: the tag table, then, in full mode, parseTags. */
  method ReadTableAndBlocks(header: Header, afterHeader: Stream, opts: ParseOptions)
    returns (table: TagHeaderTable, blocks: seq<Tag>, err: Option<Error>)
    ensures forall i :: 0 <= i < |blocks| ==> fresh(blocks[i])
    ensures var r := TableStage(header, afterHeader, opts, DefaultDecoder);
            table == r.table && err == r.err && HoldsWalk(blocks, r.walk)
  {
    blocks, err := [], None;
    var t := ParseTagHeaders(afterHeader);
    if t.Failure? {
      return EmptyTable, blocks, Some(t.error);
    }
    table := t.value.0;
    if opts.mode < ParseHeaderAndTagTable {
      blocks, err := ReadTagBlocks(header, table, t.value.1, opts);
    }
  }

  /**
   * ParseProfile, with the source's guarded chain of stages.  The Tags are
   * new objects.
   */
  method ParseProfile(data: seq<byte>, options: Option<ParseOptions>) returns (p: Profile, err: Option<Error>)
    ensures fresh(p) && forall i :: 0 <= i < |p.tagBlocks| ==> fresh(p.tagBlocks[i])
    ensures var r := ParseStages(data, options, DefaultDecoder);
            && p.header == r.header && p.tagHeaderTable == r.table && err == r.err
            && p.tagsByHeader == map[] && p.a2b0.None? && p.b2a0.None?
            && HoldsWalk(p.tagBlocks, r.walk)
  {
    var opts := OptionsOrDefault(options);
    ghost var r := ParseStages(data, options, DefaultDecoder);
    var header, table, blocks := EmptyHeader, EmptyTable, [];
    err := None;
    var h := ParseHeader(Stream(data, 0));
    if h.Failure? {
      err := Some(h.error);
    } else {
      header := h.value.0;
      if opts.mode < ParseHeaderOnly {
        table, blocks, err := ReadTableAndBlocks(header, h.value.1, opts);
        assert r == TableStage(header, h.value.1, opts, DefaultDecoder);
      }
    }
    assert header == r.header && table == r.table && err == r.err && HoldsWalk(blocks, r.walk);
    p := new Profile(header, table, blocks, map[]);
  }
}
