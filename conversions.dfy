/**
 * conversions.go: a Profile converts to and from the PCS through the modular
 * tag registered as A2B0 (device to PCS) or B2A0 (PCS to device).  The
 * lookup decodes that Tag, keeps the modular tag it finds in the Profile's
 * cache for the direction, and later lookups answer from the cache.
 */
module Conversions {
  import opened Wrappers
  import opened Errors
  import opened TagValues
  import opened TagsParser
  import opened Profiles
  import ModularTags

  /** The names TagByHeader is asked for; the source's constants for them are not part of this model. */
  const TagHeaderAToB0: string := "A2B0"
  const TagHeaderBToA0: string := "B2A0"

  /** The tag name each direction looks up. */
  function TagName(dir: Direction): string {
    match dir
    case ToPcs => TagHeaderAToB0
    case FromPcs => TagHeaderBToA0
  }

  /** The Profile's cache field for a direction: a2b0 or b2a0. */
  function Cached(p: Profile, dir: Direction): Option<ModularTag>
    reads p
  {
    match dir
    case ToPcs => p.a2b0
    case FromPcs => p.b2a0
  }

  /** The Tag a direction's lookup decodes, or null when the name is missing or maps to nil. */
  function LookupTag(p: Profile, dir: Direction): Tag?
    reads p
  {
    p.TagByHeader(TagName(dir))
  }

  /** The objects a lookup may change: the Profile and the Tag it decodes. */
  function LookupFrame(p: Profile, dir: Direction): set<object>
    reads p
  {
    if LookupTag(p, dir) != null then {p, LookupTag(p, dir)} else {p}
  }

  /** The state of the looked-up Tag as a value, when there is one. */
  ghost function TagState(p: Profile, dir: Direction): Option<Block>
    reads p, LookupFrame(p, dir)
  {
    if LookupTag(p, dir) != null then Some(LookupTag(p, dir).State()) else None
  }

  /**
   * findA2B0 / findB2A0 as a function of the cache and of the looked-up
   * Tag's state: the modular tag or the error, and the Tag's new state.  A
   * cached tag is returned without touching the Tag; otherwise the Tag's
   * Value is taken, and only a modular value implements the conversions.
   */
  function Find(dir: Direction, cached: Option<ModularTag>, tag: Option<Block>): (r: (Result<ModularTag, Error>, Option<Block>))
    requires tag.Some? ==> BlockValid(tag.value)
    ensures r.1.Some? <==> tag.Some?
    ensures r.1.Some? ==> BlockValid(r.1.value)
  {
    if cached.Some? then (Success(cached.value), tag)
    else if tag.None? then (Failure(ConversionTagNotFound(dir)), tag)
    else
      var (b, v, e) := ValueCall(tag.value);
      if e.Some? then (Failure(ConversionTagDecode(dir, e.value)), Some(b))
      else if !v.Modular? then (Failure(ConversionNotImplemented(dir)), Some(b))
      else (Success(v.modular), Some(b))
  }

  /**
   * The four outcomes of an uncached lookup: no Tag; a Tag whose Value fails
   * (the error wrapped); a value that is not a modular tag (nil included);
   * a modular tag.  The Tag is left as its Value call leaves it.
   */
  lemma FindOutcomes(dir: Direction, tag: Option<Block>)
    requires tag.Some? ==> BlockValid(tag.value)
    ensures tag.None? ==> Find(dir, None, tag) == (Failure(ConversionTagNotFound(dir)), None)
    ensures tag.Some? ==>
              var (b, v, e) := ValueCall(tag.value);
              && Find(dir, None, tag).1 == Some(b)
              && (e.Some? ==> Find(dir, None, tag).0 == Failure(ConversionTagDecode(dir, e.value)))
              && (e.None? && !v.Modular? ==> Find(dir, None, tag).0 == Failure(ConversionNotImplemented(dir)))
              && (e.None? && v.Modular? ==> Find(dir, None, tag).0 == Success(v.modular))
  {
  }

  /**
   * The conversion tests' error cases, for either direction: an empty
   * Profile and a name mapped to nil both find no Tag; a Tag holding an
   * error fails to decode with that error as the cause; a Tag holding a nil
   * value does not implement the conversion.
   */
  lemma ConversionErrorCases(dir: Direction, cause: Error)
    ensures Find(dir, None, None).0 == Failure(ConversionTagNotFound(dir))
    ensures Find(dir, None, Some(Block([], "", [], Nil, false, Some(cause), None, 0))).0 ==
            Failure(ConversionTagDecode(dir, cause))
    ensures Find(dir, None, Some(Block([], "", [], Nil, false, None, None, 0))).0 ==
            Failure(ConversionNotImplemented(dir))
  {
  }

  /** A Tag holding a stored error fails the lookup with that error, and its decoder does not run. */
  lemma StoredErrorFailsLookup(dir: Direction, b: Block)
    requires BlockValid(b) && b.error.Some?
    ensures Find(dir, None, Some(b)) == (Failure(ConversionTagDecode(dir, b.error.value)), Some(b))
  {
  }

  /** A cached lookup answers from the cache and leaves the Tag as it is. */
  lemma CachedLookup(dir: Direction, m: ModularTag, tag: Option<Block>)
    requires tag.Some? ==> BlockValid(tag.value)
    ensures Find(dir, Some(m), tag) == (Success(m), tag)
  {
  }

  /**
   * A lookup that succeeds and is cached makes the next lookup return the
   * same tag, whatever the Tag's state by then.
   */
  lemma FoundIsReturnedAgain(dir: Direction, tag: Option<Block>, later: Option<Block>)
    requires tag.Some? ==> BlockValid(tag.value)
    requires later.Some? ==> BlockValid(later.value)
    requires Find(dir, None, tag).0.Success?
    ensures Find(dir, Some(Find(dir, None, tag).0.value), later) == (Find(dir, None, tag).0, later)
  {
  }

  /**
   * findA2B0 (dir = ToPcs) and findB2A0 (dir = FromPcs): the outcome of Find
   * on the Profile's cache and the Tag's state; a found tag is stored in the
   * direction's cache, and nothing else of the Profile changes.
   */
  method FindTag(p: Profile, dir: Direction) returns (r: Result<ModularTag, Error>)
    requires LookupTag(p, dir) != null ==> LookupTag(p, dir).Valid()
    modifies LookupFrame(p, dir)
    ensures LookupTag(p, dir) == old(LookupTag(p, dir))
    ensures var (res, tag) := Find(dir, old(Cached(p, dir)), old(TagState(p, dir)));
            && r == res
            && TagState(p, dir) == tag
            && Cached(p, dir) == (if res.Success? then Some(res.value) else old(Cached(p, dir)))
    ensures p.header == old(p.header) && p.tagHeaderTable == old(p.tagHeaderTable)
    ensures p.tagBlocks == old(p.tagBlocks) && p.tagsByHeader == old(p.tagsByHeader)
    ensures dir == ToPcs ==> p.b2a0 == old(p.b2a0)
    ensures dir == FromPcs ==> p.a2b0 == old(p.a2b0)
  {
    var cached := if dir == ToPcs then p.a2b0 else p.b2a0;
    if cached.Some? {
      return Success(cached.value);
    }
    var tag := p.TagByHeader(TagName(dir));
    if tag == null {
      return Failure(ConversionTagNotFound(dir));
    }
    var v, e := tag.Value();
    if e.Some? {
      return Failure(ConversionTagDecode(dir, e.value));
    }
    if !v.Modular? {
      return Failure(ConversionNotImplemented(dir));
    }
    if dir == ToPcs {
      p.a2b0 := Some(v.modular);
    } else {
      p.b2a0 := Some(v.modular);
    }
    r := Success(v.modular);
  }

  /**
   * Profile.ToCIEXYZ (dir = ToPcs) and Profile.FromCIEXYZ (dir = FromPcs) as
   * a function of the same state: the lookup's error, or the found modular
   * tag's conversion of the channels as they are.
   */
  function Convert(dir: Direction, cached: Option<ModularTag>, tag: Option<Block>, channels: seq<real>, pow: PowFn): (r: Result<seq<real>, Error>)
    requires tag.Some? ==> BlockValid(tag.value)
    ensures Find(dir, cached, tag).0.Failure? ==> r == Failure(Find(dir, cached, tag).0.error)
    ensures Find(dir, cached, tag).0.Success? && dir == ToPcs ==>
              r == ModularTags.ToCIEXYZ(Find(dir, cached, tag).0.value, channels, pow)
    ensures Find(dir, cached, tag).0.Success? && dir == FromPcs ==>
              r == ModularTags.FromCIEXYZ(Find(dir, cached, tag).0.value, channels, pow)
  {
    var found :- Find(dir, cached, tag).0;
    match dir
    case ToPcs => ModularTags.ToCIEXYZ(found, channels, pow)
    case FromPcs => ModularTags.FromCIEXYZ(found, channels, pow)
  }

  /**
   * Both directions run the same transform on the tag they find: the
   * modular tag's channel count is checked against the input, so a wrong
   * count fails with the expected and the given counts.
   */
  lemma ConvertChecksArity(dir: Direction, cached: Option<ModularTag>, tag: Option<Block>, channels: seq<real>, pow: PowFn)
    requires tag.Some? ==> BlockValid(tag.value)
    requires Find(dir, cached, tag).0.Success?
    requires |channels| != Find(dir, cached, tag).0.value.inputChannels as int
    ensures Convert(dir, cached, tag, channels, pow) ==
            Failure(ChannelCount(Find(dir, cached, tag).0.value.inputChannels as nat, |channels|))
  {
  }

  /**
   * The conversion tests' last case: a decoded Tag holding a modular tag
   * with three input channels and no elements, converted with no channels,
   * fails with "expected 3, got 0" in both directions.
   */
  lemma ThreeChannelExample(dir: Direction, channels: seq<real>, pow: PowFn)
    requires channels == []
    ensures var m := ModularTag("", 3, 0, []);
            var b := Block([], "", [], Modular(m), false, None, None, 0);
            Convert(dir, None, Some(b), channels, pow) == Failure(ChannelCount(3, 0))
  {
    var m := ModularTag("", 3, 0, []);
    var b := Block([], "", [], Modular(m), false, None, None, 0);
    assert Find(dir, None, Some(b)).0 == Success(m);
  }

  /** Profile.ToCIEXYZ / Profile.FromCIEXYZ: the lookup, then the found tag's conversion. */
  method Transform(p: Profile, dir: Direction, channels: seq<real>, pow: PowFn) returns (r: Result<seq<real>, Error>)
    requires LookupTag(p, dir) != null ==> LookupTag(p, dir).Valid()
    modifies LookupFrame(p, dir)
    ensures r == Convert(dir, old(Cached(p, dir)), old(TagState(p, dir)), channels, pow)
    ensures var (res, tag) := Find(dir, old(Cached(p, dir)), old(TagState(p, dir)));
            && TagState(p, dir) == tag
            && Cached(p, dir) == (if res.Success? then Some(res.value) else old(Cached(p, dir)))
  {
    var found := FindTag(p, dir);
    if found.Failure? {
      return Failure(found.error);
    }
    if dir == ToPcs {
      r := ModularTags.ToCIEXYZ(found.value, channels, pow);
    } else {
      r := ModularTags.FromCIEXYZ(found.value, channels, pow);
    }
  }
}
