# iccarus in Dafny

A model of the core of iccarus, a Go reader for ICC colour profiles. The
project covers:

- the 128-byte profile header;
- the tag table;
- the tag parser (sequential reading, shared offsets, lazy or eager decoding);
- every tag type decoder (curves, parametric curves, matrices, CLUTs, the
  legacy mft1/mft2 LUTs, the modular mAB/mBA tags, text, descriptions,
  multi-localised Unicode, XYZ, s15Fixed16 arrays, the view, measurement and
  signature tags);
- the colour transforms those tags carry: curves, matrices, multilinear CLUT
  interpolation and the modular pipeline;
- the Profile's PCS conversions through its A2B0 and B2A0 tags.

Each decoder is a function on the raw tag bytes. Its contract states:

- the errors it returns and on which inputs;
- where each field of the result comes from in the bytes.

Where the format has a natural writer, a lemma proves that decoding what the
writer produces gives back the value. The transforms are functions on
sequences of reals. The loops of the source are methods proved against those
functions. The Tag and the Profile, whose fields the source updates in place,
are classes.

The modules follow the Go files: `header.dfy` models `header.go`,
`tags_curve.dfy` models `tags_curve.go`, and so on. Shared definitions live in:

- `bytes.dfy`: big-endian words;
- `stream.dfy`: the reader as a value;
- `errors.dfy`: the error values;
- `values.dfy`: the decoded tag values;
- `real_math.dfy`: floor, ceil, truncation and products;
- `interp.dfy`: the CLUT interpolation;
- `fold.dfy`: a left fold used to specify loops;
- `decoders.dfy`: the decoder registry, which calls back into the tag decoders.

## Model

| member | source | states |
|---|---|---|
| Streams.Read | header.go:36-39 | io.ReadFull of n bytes succeeds exactly when n bytes remain; it returns those bytes and advances by n, and otherwise fails with a short read |
| Streams.Skip | tags_parser.go:50-56 | io.CopyN to io.Discard succeeds exactly when n bytes remain and advances by n; otherwise it fails |
| FixedFloat.ReadS15Fixed16BE | fixed_float.go:3-10 | the value times 65536 is the big-endian two's-complement word, so it lies in [-32768, 32768); fewer than four bytes (a panic in the source) is excluded by the precondition |
| FixedFloat.DecodeEncode | fixed_float.go:3-10 | decoding the four bytes of any signed 32-bit numerator n gives exactly n / 65536 |
| FixedFloat.Injective | fixed_float.go:3-10 | two four-byte words with the same reading are the same bytes, so the reading loses nothing |
| FixedFloat.Examples | fixed_float.go:3-10 | the readings 1.0, 2.5, -1.0, -1.5 and 0 of the test words |
| FixedFloat.S15AtWord | fixed_float.go:3-10 | a word holding the pattern of n, placed inside a larger block, reads back as n / 65536 |
| Header.VersionFromRaw | header.go:90-96 | major, minor and revision are within 8, 4 and 4 bits, and together with the low 16 bits they rebuild the word |
| Header.VersionRoundTrip | header.go:90-96 | any in-range major, minor and revision come back out of the word they make up |
| Header.VersionExample | header.go:90-96 | 0x02400000 is version 2.4.0 |
| Header.TrimRightMeaning | header.go:102 | TrimRight returns a prefix; everything it drops is NUL or space, and what is left does not end in either |
| Header.HexForm | header.go:105 | the hexadecimal form is "0x" followed by eight digits |
| Header.UnhexHexForm | header.go:105 | the hexadecimal form reads back to the four bytes |
| Header.StringedCases | header.go:98-109 | four NULs give ""; a trimmed printable text gives that text; anything else gives the ten-character hexadecimal form of all four bytes |
| Header.StringedPadded | header.go:98-109 | a printable name that does not end in a space, padded to four bytes with NULs or spaces, reads back as itself |
| Header.StringedIsAcsp | header.go:40-43 | the signature reads "acsp" exactly when the bytes are 'a' 'c' 's' 'p' |
| Header.StringedTrimExamples | header.go:98-109 | "a" with a space and NULs gives "a"; "desc" and "XYZ\0" read as expected |
| Header.StringedHexExample | header.go:103-107 | a byte outside 32..126 gives "0x61FF0000" |
| Header.HeaderOf | header.go:40-77 | the block succeeds exactly when bytes 36..40 are "acsp", and otherwise fails with the signature it read; each field is read from its fixed offset: size, CMM, version, class, colour space, PCS, date words, platform, flags, manufacturer, model, attributes, intent, illuminant, creator and profile ID |
| Header.ParseHeader | header.go:35-78 | a stream shorter than 128 bytes fails with a short read; success needs 128 bytes and the "acsp" signature; it returns HeaderOf of exactly those bytes and advances by 128 |
| TagHeaders.EntriesOf | tag_headers.go:34-40 | one entry per twelve-byte record, in order |
| TagHeaders.TagTable | tag_headers.go:21-42 | a short count fails with a short read, and a count over 1024 fails with TooManyTags; success needs 4 + 12·count bytes; these are the only errors |
| TagHeaders.TagTableEntries | tag_headers.go:26-41 | a parsed table holds count entries; entry i is the record at 4 + 12i, and the stream is left just after the last record |
| TagHeaders.ParseTagHeaders | tag_headers.go:21-42 | the method with the source's entry loop returns exactly TagTable |
| TagHeaders.ReadEntries | tag_headers.go:34-41 | the entry loop fills count slots, and slot i is the signature, offset and size of the twelve bytes at 12i |
| TagHeaders.EntryOfEncoded | tag_headers.go:36-39 | an entry written as twelve bytes reads back as itself |
| TagHeaders.TableRoundTrip | tag_headers.go:21-42 | writing a table of at most 1024 entries and parsing it gives the same entries and consumes the whole table |
| TagsParser.ValueCallRunsDecoderOnce | tags_parser.go:19-28 | Value keeps a Tag valid. A stored error is returned as it is, without running the decoder. A pending decode runs the decoder exactly once and returns its value and error. Otherwise the decoder does not run |
| TagsParser.ValueMemoized | tags_parser.go:19-28 | a second Value call changes nothing and returns what the first returned |
| TagsParser.Tag.constructor | tags_parser.go:67-73 | the struct literal: one header, the signature and bytes, no value or error, the given laziness and decoder, not yet decoded |
| TagsParser.Tag.Value | tags_parser.go:19-28 | the method updates the Tag's fields exactly as ValueCall says and returns its value and error |
| TagsParser.ValueTwice | tags_parser.go:19-28 | two calls of Value on one Tag return the same value and error, and the decoder has then run at most once |
| TagsParser.ChooseDecoder | tags_parser.go:72-76 | an options entry for the signature, even one holding no decoder, replaces the registry's decoder |
| TagsParser.NewBlock | tags_parser.go:66-91 | the Tag for a block just read is valid and holds the one entry, the bytes and the stringed signature of bytes 0..4; it is decoded once in an eager parse and not at all in a lazy one |
| TagsParser.NewBlockPolicies | tags_parser.go:74-91 | With no decoder, the parse fails exactly when unknown tags are errors, and otherwise the Tag keeps an unknown-tag error. An eager parse fails exactly when decode errors are errors and the decoder fails; otherwise the Tag has run the decoder once and keeps its error. A lazy parse with a decoder never fails here and leaves the decode pending |
| TagsParser.SkipAhead | tags_parser.go:50-56 | an offset at or behind the position (cut to 32 bits) leaves everything as it is; an offset ahead is skipped to, and the position becomes that offset |
| TagsParser.ReadBlock | tags_parser.go:50-91 | a successful read gives a valid Tag holding the one entry, decoded as the parse mode says |
| TagsParser.ReadBlockTracks | tags_parser.go:50-65 | while positions stay below 2^32, the walker's position stays the stream's read position plus a fixed gap, and the bytes do not change |
| TagsParser.BackwardOffsetFails | tags_parser.go:57-59 | an uncached offset behind the position fails with the entry's signature, offset and the position |
| TagsParser.ShortStreamFails | tags_parser.go:50-64 | a skip or read that runs past the end of the stream fails the walk with an error naming the entry |
| TagsParser.Attach | tags_parser.go:44-47 | a cached offset adds the entry to its existing Tag and makes no new Tag |
| TagsParser.Extend | tags_parser.go:82-83 | a new offset adds exactly one Tag, gives it to the entry and caches it (the same at lines 92-93) |
| TagsParser.Visit | tags_parser.go:42-94 | one loop pass: on success the walk stays valid and has one more entry |
| TagsParser.WalkUpTo | tags_parser.go:42-95 | the loop over k entries: on success the walk is valid and has k more entries |
| TagsParser.WalkFailurePersists | tags_parser.go:42-95 | a failure at some entry is the result of the whole loop: the first error ends the walk |
| TagsParser.Initial | tags_parser.go:37-41 | the walk starts at 128 + 4 + 12n with no Tags and an empty cache |
| TagsParser.SortByOffsetSorts | tags_parser.go:31-36 | the entries are visited in non-decreasing offset order, and all of them, each once (a permutation) |
| TagsParser.InsertPermutes | tags_parser.go:34-36 | inserting adds exactly the one entry to the multiset |
| TagsParser.InsertSorted | tags_parser.go:34-36 | inserting into a sorted list keeps it sorted by offset |
| TagsParser.TagWalk | tags_parser.go:30-96 | parseTags as a whole: a successful walk is valid and has one slot per table entry |
| TagsParser.WithOffsetNone | tags_parser.go:39-48 | when no entry has the offset, none is attached to it |
| TagsParser.WithOffsetStep | tags_parser.go:42-48 | the entries with an offset among one more entry are the old ones plus possibly the new one |
| TagsParser.AttachSharing | tags_parser.go:44-47 | joining a cached Tag keeps the sharing invariant: one Tag per offset, holding exactly that offset's entries in order |
| TagsParser.ExtendSharing | tags_parser.go:82-83 | a new Tag for a new offset keeps the sharing invariant (the same at lines 92-93) |
| TagsParser.VisitSharing | tags_parser.go:42-94 | one loop pass keeps the sharing invariant |
| TagsParser.WalkShares | tags_parser.go:39-95 | after k entries the sharing invariant holds |
| TagsParser.TagWalkShares | tags_parser.go:39-48 | Entries with the same offset share one Tag, and entries with different offsets have different Tags. Each Tag holds exactly the entries with its offset, in visiting order |
| TagsParser.VisitDecoded | tags_parser.go:71-88 | one loop pass keeps every Tag valid and decoded as the parse mode says |
| TagsParser.WalkDecoded | tags_parser.go:71-88 | the loop keeps every Tag valid and decoded as the parse mode says |
| TagsParser.TagWalkDecoded | tags_parser.go:71-88 | parseTags leaves every Tag valid; an eager parse has run each decoder exactly once and a lazy parse none |
| TagsParser.VisitTracks | tags_parser.go:50-65 | one loop pass keeps the position a fixed gap ahead of the stream's read position, and keeps the bytes |
| TagsParser.WalkTracks | tags_parser.go:42-95 | the loop keeps the position a fixed gap ahead of the stream's read position, and keeps the bytes |
| TagsParser.TagWalkTracks | tags_parser.go:37-65 | starting at or before the end of the tag table, on streams short enough for 32-bit positions, parseTags' position stays that gap ahead of the read position, and the bytes never change |
| TagsParser.BlockReaderKeeps | tags_parser.go:50-91 | the block reader gives each Tag its one entry, reads valid Tags decoded as the mode says, and keeps track of the position |
| TagsParser.NewTag | tags_parser.go:66-91 | the method succeeds or fails exactly as NewBlock does; on success it returns a new Tag whose state is NewBlock's |
| TagsParser.ReadTagBlock | tags_parser.go:50-91 | the method succeeds or fails exactly as ReadBlock does, and returns a new Tag with ReadBlock's state and its position and stream |
| TagsParser.WalkingStarts | tags_parser.go:38-41 | before the first entry, the loop state is the initial walk with no Tags and an empty cache |
| TagsParser.MirroredResult | tags_parser.go:44-46 | entry i's object has the state of entry i's Tag, and two entries have the same object exactly when they have the same Tag |
| TagsParser.ShareTag | tags_parser.go:44-47 | the cached object gains the entry and is appended to the result, mirroring Attach |
| TagsParser.ExtendMirrored | tags_parser.go:82-83 | a Tag object not among the others mirrors the Tag that Extend adds |
| TagsParser.AddTag | tags_parser.go:49-93 | a new offset's block is read and its new Tag cached and appended, mirroring Visit; a failure is Visit's failure |
| TagsParser.Step | tags_parser.go:42-94 | one loop pass gives the walk of i + 1 entries mirrored by the objects, or the walk's failure |
| TagsParser.WalkTags | tags_parser.go:38-95 | the loop returns the Tags of the walk over all entries, each a new object, or the walk's failure |
| TagsParser.ParseTags | tags_parser.go:30-96 | Success and failure are exactly TagWalk's. The i-th Tag has the state of the i-th sorted entry's Tag. Two entries share an object exactly when they share a Tag, and every Tag is new |
| ModularTags.OffsetsFromSlots | tags_modular.go:34-44 | every offset kept is above the previous one, inside the block, and read from its own table slot |
| ModularTags.OffsetsFromIncreasing | tags_modular.go:36-38 | the offsets kept are strictly increasing |
| ModularTags.OffsetsFromStop | tags_modular.go:34-41 | collection stops at the slot that runs past the end of the block, is not above the last offset (zero included), or points outside the block |
| ModularTags.TableSlots | tags_modular.go:34-44 | read from slot 0 with no previous offset, every offset kept is nonzero, inside the block, and the u32 of slot i at 12+4i |
| ModularTags.TableIncreasing | tags_modular.go:34-44 | read from slot 0, the offsets kept are strictly increasing |
| ModularTags.TableStop | tags_modular.go:34-44 | read from slot 0, the slot after the last offset kept is past the block, not above that offset, or outside the block |
| ModularTags.OffsetTable | tags_modular.go:26-46 | A table exists exactly when the slot after the header fits, points inside the block, is not text and is nonzero. The offsets are nonzero, inside the block and strictly increasing. Slot i is read at 12 + 4i, and collection stops for one of the source's reasons |
| ModularTags.ElementStarts | tags_modular.go:47-50 | the element starts are the offset table, or a single start at byte 12 when it is empty; they are strictly increasing and inside the block |
| ModularTags.ElementEnd | tags_modular.go:53-56 | element i ends where the next one starts, the last at the end of the block |
| ModularTags.ElementBlock | tags_modular.go:60 | an element's bytes are always shorter than the block |
| ModularTags.ElementSpans | tags_modular.go:52-63 | the spans of the first k elements, one per element |
| ModularTags.ElementSpansOutcome | tags_modular.go:52-63 | the spans succeed exactly when every element block has at least eight bytes, and then they are the element blocks |
| ModularTags.FirstShortElement | tags_modular.go:61-63 | the first element under eight bytes decides the error, with its index |
| ModularTags.ScanOffsetTable | tags_modular.go:34-44 | the collection loop returns exactly the offsets the collection function defines |
| ModularTags.ReadElementStarts | tags_modular.go:26-50 | the first half of modularDecoder, as a method, returns exactly the element starts |
| ModularTags.ModularTransform | tags_modular.go:107-133 | A channel count other than InputChannels fails with both counts. Otherwise the first decode or transform error of the element loop is returned. A loop that applied nothing fails, and any other loop returns its vector |
| ModularTags.FromCIEXYZ | tags_modular.go:99-105 | ToCIEXYZ and FromCIEXYZ are the same transform |
| ModularTags.ThreadFailurePersists | tags_modular.go:113-128 | a failure part way through the element loop is the result of the whole loop |
| ModularTags.ModularTransformer | tags_modular.go:107-133 | the method with the source's loop returns exactly ModularTransform |
| ModularTags.ThreadPrefix | tags_modular.go:113-128 | the loop over k elements depends only on those k elements |
| ModularTags.ThreadKept | tags_modular.go:114-115 | elements with names other than curv, para, mtx and clut are skipped: the loop over the kept elements alone gives the same result |
| ModularTags.TransformKeepsOrder | tags_modular.go:113-128 | dropping every element with another name leaves the transform unchanged |
| ModularTags.NothingApplied | tags_modular.go:113-128 | when no element decoded to a transform, the loop leaves the input as it is and records that nothing was applied |
| ModularTags.NoTransformableElements | tags_modular.go:129-131 | with the right channel count and no element that transforms, the transform fails with "no transformable elements" |
| ModularTags.TwoElementsCompose | tags_modular.go:111-126 | two transform elements in a row compose: the second is applied to what the first produced |
| ModularTags.FirstDecodeErrorWins | tags_modular.go:116-119 | the first element whose decode failed stops the transform with its error, wrapped with its name |
| Decoders.DefaultDecoder | tags_parser.go:98-125 | the registry has a decoder exactly for the 22 registered type signatures, and that decoder is the type's decoding function |
| Decoders.DecodeModular | tags_modular.go:20-73 | A block under 12 bytes is refused, and an element span error is returned as it is. Otherwise the tag has the stringed signature and the u16 channel counts cut to 8 bits, with one element per start |
| Decoders.ModularElements | tags_modular.go:51-66 | the element loop fails exactly when the spans fail, with their error, and otherwise has one element per start |
| Decoders.EmbedAll | tags_modular.go:65 | element i is span i decoded as an embedded tag |
| Decoders.EmbeddedTag | tags_modular.go:84-97 | the element is named by its four raw bytes and holds them; an unregistered name is stored on the element as an unknown-embedded-tag error |
| Decoders.ModularSignaturesShareDecoder | tags_parser.go:108-109 | mAB and mBA map to the one modular decoder |
| Decoders.RegistryShape | tags_parser.go:101-124 | no registry key ends in a space |
| Decoders.PaddedEmbeddedNameIsUnknown | tags_modular.go:84-92 | an element whose fourth byte is a space (such as "mtx ") is not found among the trimmed registry keys and is stored as unknown |
| Decoders.ModularDecodeOutcome | tags_modular.go:20-73 | A block with its header succeeds exactly when every element span has at least eight bytes, and element i is then span i decoded. Otherwise the first short span's index is the error |
| Decoders.ElementTooShortExample | tags_modular.go:61-63 | a fifteen-byte block has a three-byte single element and fails with element 0 too short |
| Decoders.SingleElementWithoutTable | tags_modular.go:47-50 | without an offset table the single element is everything after the twelve header bytes |
| Decoders.CurvElementExample | tags_modular.go:84-97 | an embedded curv element with a missing gamma keeps the decode error on the element |
| Decoders.ModularDecoder | tags_modular.go:20-73 | the method with the source's loops returns exactly DecodeModular |
| Decoders.DecodeElements | tags_modular.go:51-66 | the element loop returns exactly ModularElements |
| CurveTags.PointsAt | tags_curve.go:62-65 | one 16-bit point per count, read from byte 12 on |
| CurveTags.DecodeCurve | tags_curve.go:43-67 | Under 12 bytes the tag is too short. A count of 0 is the identity, and 1 is an 8.8 gamma (or a missing-gamma error under 14 bytes). A larger count needs 12 + 2·count bytes, else the tag is truncated, and gives exactly those points |
| CurveTags.CurveDecoder | tags_curve.go:43-67 | the method with the source's point loop returns exactly DecodeCurve |
| CurveTags.PointsCurveRoundTrip | tags_curve.go:59-66 | decoding a written curve of two or more points gives back exactly those points |
| CurveTags.ParameterCount | tags_curve.go:74-88 | function types 0 to 4 take 1, 3, 4, 5 and 7 parameters; any other type is unknown |
| CurveTags.ParametersAt | tags_curve.go:93-97 | one s15Fixed16 parameter per four bytes from byte 10 |
| CurveTags.DecodeParametricCurve | tags_curve.go:69-102 | Under 12 bytes the tag is too short, and a type above 4 is unknown. Success needs 10 + 4·count bytes and gives the type with its parameters read from byte 10. These are the only errors |
| CurveTags.ParametricCurveDecoder | tags_curve.go:69-102 | the method with the source's parameter loop returns exactly DecodeParametricCurve |
| CurveTags.PointValue | tags_curve.go:122-126 | a table entry scaled by 1/65535 lies in [0, 1] |
| CurveTags.PointsLookup | tags_curve.go:118-127 | a lookup fails only by indexing outside the table (a panic in the source) |
| CurveTags.CurveTransform | tags_curve.go:104-131 | One channel only. The identity returns its input, and gamma returns pow(v, gamma). Points with no table fail. A points curve returns the table lookup at position v·(n-1), and fails with the index panic exactly when that lookup reads outside the table. An unknown type fails. The output is a single channel |
| CurveTags.LookupAtPoint | tags_curve.go:121-122 | a position on entry k returns that entry |
| CurveTags.LookupBetweenPoints | tags_curve.go:124-127 | a position strictly between entries k and k+1 interpolates linearly by its distance from k |
| CurveTags.LookupInRange | tags_curve.go:118-127 | a position inside the table is looked up without fault and gives a value in [0, 1] |
| CurveTags.LookupBounded | tags_curve.go:118-127 | whatever a lookup returns lies in [0, 1] |
| CurveTags.LookupBelowRange | tags_curve.go:118-120 | a negative position that is not an integer reads an index the table does not have |
| CurveTags.PositionInRange | tags_curve.go:118 | an input in [0, 1] is a position inside the table |
| CurveTags.CurveInRange | tags_curve.go:114-127 | a points curve on an input in [0, 1] never indexes past its table, and its output lies in [0, 1] |
| CurveTags.CurveAtEntry | tags_curve.go:117-122 | an input whose position v·(n-1) is entry k returns entry k over 65535 |
| CurveTags.CurveBetweenEntries | tags_curve.go:117-127 | an input whose position falls strictly between entries k and k+1 returns the linear interpolation between them |
| CurveTags.ParametricTransform | tags_curve.go:133-194 | One channel only. A type above 4 is unknown. A parameter count other than the function's fails before anything is evaluated. It succeeds exactly on one channel, a known type and the right count, and gives one channel; the value of each function is stated by the lemmas below |
| CurveTags.SimpleGamma | tags_curve.go:140-145 | function 0 is the plain power x^g |
| CurveTags.ConditionalCShiftsZero | tags_curve.go:146-167 | function 2 is function 1 shifted by c on both branches |
| CurveTags.ConditionalBranch | tags_curve.go:152-156 | function 1 takes the power branch exactly when x >= -b/a (with float64's division by a zero a), and otherwise returns 0 whatever the power function |
| CurveTags.ComplexExtendsSplit | tags_curve.go:168-189 | function 4 with e = f = 0 is function 3 |
| CurveTags.SplitBelowIsLinear | tags_curve.go:174-189 | below d, functions 3 and 4 are c·x and c·x + f |
| CurveTags.SplitAtOrAboveIsPower | tags_curve.go:174-189 | from d on, function 3 is (a·x+b)^g and function 4 is (a·x+b)^g + e |
| MatrixTags.DecodeMtx | tags_matrix.go:16-37 | It fails exactly when the block is under 44 bytes, as too short. Entry (i, j) is number 3i + j after the 8-byte type header. The offset is present exactly when the block reaches 56 bytes, and is then the three numbers from byte 44 |
| MatrixTags.RowMajor | tags_matrix.go:26-28 | the matrix is stored row-major: entry (i, j) is body number 3i + j |
| MatrixTags.CellsAreMatrix | tags_matrix.go:26-28 | once all nine cells hold their numbers, the rows are the matrix the block stores |
| MatrixTags.MtxDecoder | tags_matrix.go:16-37 | the method with the source's loops returns exactly DecodeMtx |
| MatrixTags.MatrixTransform | tags_matrix.go:39-55 | it fails exactly when the input is not three channels, with both counts; output i is row i dotted with the input, plus offset i when present |
| MatrixTags.MatrixTransformer | tags_matrix.go:39-55 | the method with the source's nested accumulation loops returns exactly MatrixTransform |
| MatrixTags.BasisColumn | tags_matrix.go:45-54 | the image of the unit vector e_j is column j of the matrix, plus the offset: output i reads entry (i, j) |
| MatrixTags.IdentityTransform | tags_matrix.go:39-55 | the identity matrix without an offset changes nothing |
| MatrixTags.IdentityWithOffset | tags_matrix.go:39-55 | the identity matrix with an offset adds the offset |
| MatrixTags.OffsetAdds | tags_matrix.go:49-53 | an offset is added after the product and changes nothing else |
| MatrixTags.Linear | tags_matrix.go:43-48 | without an offset the transform is linear: the image of a sum is the sum of the images |
| MatrixTags.MtxRoundTrip | tags_matrix.go:16-37 | nine written numbers with fewer than twelve further bytes decode to those numbers, row by row, without an offset |
| MatrixTags.MtxOffsetRoundTrip | tags_matrix.go:29-35 | with twelve written numbers the last three are the offset |
| ClutTags.GridCounts | tags_clut.go:25-26 | one integer grid count per grid byte, equal to it |
| ClutTags.CountNodes | tags_clut.go:32-35 | the size loop computes the product of the grid counts |
| ClutTags.CountExpectedValues | tags_clut.go:54-60 | expectedValues' loop computes grid nodes times output channels |
| ClutTags.EntriesAt | tags_clut.go:41-44 | one entry per two bytes, the big-endian value divided by 65535 |
| ClutTags.DecodeClut | tags_clut.go:19-52 | Under 16 bytes the tag is too short. Grid counts past the end of the block are a slice panic, and an odd body is refused. Success needs a body of exactly 2 · product · output channels bytes. It gives the channel counts, the grid, the scaled entries and the cached size |
| ClutTags.ClutDecoder | tags_clut.go:19-52 | the method with the source's loops returns exactly DecodeClut |
| ClutTags.ReadEntries | tags_clut.go:40-44 | the entry loop returns exactly the scaled entries |
| ClutTags.Expected | tags_clut.go:62-67 | expected() fills an empty (zero) cache with the true size and returns the cached size; a filled cache is returned as it is |
| ClutTags.ExpectedMemo | tags_clut.go:62-67 | once expected() has run, running it again gives the same size; a decoded tag's cache already holds the true size |
| ClutTags.Clamp01 | tags_clut.go:147-155 | the result is in [0, 1]: values inside are kept, and values below or above go to 0 or 1 |
| ClutTags.Clamped | tags_clut.go:86-90 | every input clamped, in order |
| ClutTags.Cells | tags_clut.go:92-107 | per channel the lower grid position is the integer part of v·(n-1), held below n-1, with the fraction past it (1 at the upper edge) |
| ClutTags.CellInside | tags_clut.go:94-107 | a value in [0, 1] on at least two points falls in a square with an upper neighbour at a fraction in [0, 1]; 0 is the first point and 1 the far edge of the last square |
| ClutTags.CellsInside | tags_clut.go:92-107 | inputs in [0, 1] over grids of at least two points give a cell inside the grid |
| ClutTags.FirstSparse | tags_clut.go:94-98 | the first channel whose grid has fewer than two points, or none when every grid has two |
| ClutTags.TriLinear | tags_clut.go:112-145 | interpolation over the tag's grid, with every corner checked, gives one value per output channel |
| ClutTags.TriLinearInterpolate | tags_clut.go:112-145 | the method with the source's loops returns exactly TriLinear |
| ClutTags.Lookup | tags_clut.go:79-110 | A wrong input count fails with both counts, and a grid of the wrong length is a mismatch. The first channel with fewer than two grid points fails with its index. Success gives one value per output channel |
| ClutTags.ClampAll | tags_clut.go:86-90 | the clamping loop fills a new array with the clamped inputs |
| ClutTags.GridCells | tags_clut.go:92-107 | the position loop stops at the first sparse channel, and otherwise gives exactly the cells |
| ClutTags.LookupCells | tags_clut.go:79-110 | the method with the source's loops returns exactly Lookup |
| ClutTags.ClutTransform | tags_clut.go:69-77 | a wrong arity fails; fewer values than the cached size fail; otherwise it is Lookup |
| ClutTags.ClutTransformer | tags_clut.go:69-77 | the method returns exactly ClutTransform and leaves the tag as it was, or with its empty size cache filled |
| ClutTags.LookupCube | tags_clut.go:92-107 | the cell of a lookup of a complete table lies inside its grid |
| ClutTags.LookupSucceeds | tags_clut.go:79-145 | a complete table answers every input of the right arity with one value per output; no corner leaves the grid or passes the table |
| ClutTags.LookupAllZero | tags_clut.go:79-145 | an input of all zeros (or less) returns the first node's outputs exactly |
| ClutTags.LookupAllOne | tags_clut.go:79-145 | an input of all ones (or more) returns the last node's outputs exactly |
| ClutTags.LookupConstant | tags_clut.go:79-145 | a table whose entries are all v returns v on every output, whatever the input |
| ClutTags.DecodedTransform | tags_clut.go:69-77 | a decoded tag's cache holds its true size, so Transform on it never reports missing values and is Lookup itself |
| Interp.OutsideAt | tags_clut.go:122-127 | the first dimension, scanning down from the last, at which the corner's position reaches the grid count |
| Interp.WalkCorner | tags_clut.go:119-135 | The inner loop over dimensions, from the last down. When checked, it fails at the first dimension outside the grid. Otherwise it gives the corner's row-major index and the product of its factors |
| Interp.Zeros | tags_clut.go:116 | the output vector starts at n zeros |
| Interp.VecAdd | tags_clut.go:140-142 | the sum of two vectors, componentwise |
| Interp.NodeTerm | tags_clut.go:136-142 | a node adds its nOut values times the weight, or faults when a read falls outside the values |
| Interp.CornerTerm | tags_clut.go:118-142 | what one corner adds, one value per output, or the fault that stops the loop |
| Interp.Blend | tags_clut.go:118-144 | the outputs after the first k corners, or the first corner's fault |
| Interp.BlendFailurePersists | tags_clut.go:118-144 | once a corner faults, the whole loop ends with that fault |
| Interp.Interpolate | tags_clut.go:116-144 | the corner loop, as a method over an array, returns exactly Blend over all corners |
| Interp.AddNode | tags_clut.go:140-142 | the innermost loop succeeds exactly when the node's values are all inside the table, and then adds them, weighted, into the outputs |
| Interp.InsideIndex | tags_clut.go:122-129 | inside the grid no corner is outside, and every corner's index lies below the number of nodes |
| Interp.CornerInside | tags_clut.go:118-142 | inside the grid and with enough values, every corner is read without fault, checked or not |
| Interp.InsideBlend | tags_clut.go:118-144 | inside the grid and with enough values, the whole corner loop succeeds |
| Interp.WeightsSumToOne | tags_clut.go:130-134 | the weights of all 2^n corners of a cell sum to 1 |
| Interp.ConstantTable | tags_clut.go:118-144 | interpolating a table whose entries are all v gives v on every output, wherever the input falls inside the grid |
| Interp.LowestNode | tags_clut.go:118-144 | the cell at the origin with every fraction 0 interpolates to node 0 exactly |
| Interp.HighestNode | tags_clut.go:118-144 | the last cell with every fraction 1 interpolates to the last node exactly |
| MftTags.StrideOfRepeat | tags_mft.go:74 | a grid of n dimensions with g points each has g^n nodes; the model takes the lut8/lut16 table size as this exact g^n, which the source's `int(math.Pow(...))` matches only below 2^53 (see Left out) |
| MftTags.Overrun | tags_mft.go:61-72 | the first of the tables laid end to end that reaches past the end of the block, or none exactly when they all fit |
| MftTags.OverrunAt | tags_mft.go:61-72 | a table that starts inside the block and ends past it is the first to overrun |
| MftTags.MatrixEntries | tags_mft.go:43-51 | the nine s15Fixed16 matrix entries from byte 12 |
| MftTags.ReadMatrix | tags_mft.go:43-51 | the matrix loop of both decoders returns exactly the nine entries |
| MftTags.U16sAt | tags_mft.go:66-69 | a lut16 curve of n 16-bit entries |
| MftTags.ReadCurve16 | tags_mft.go:66-69 | the entry loop of one lut16 curve returns exactly those entries |
| MftTags.Curves16At | tags_mft.go:60-72 | count lut16 curves of n entries each, end to end |
| MftTags.ReadCurves16 | tags_mft.go:60-72 | the curve loop checks each curve's bounds before reading it, and gives the curves or the first that does not fit |
| MftTags.Curves8At | tags_mft.go:216-223 | count lut8 curves of 256 bytes each, end to end; curve i is its 256 bytes |
| MftTags.ReadCurves8 | tags_mft.go:216-223 | the lut8 curve loop gives the curves or the first that does not fit |
| MftTags.ByteEntriesAt | tags_mft.go:230-232 | one-byte table entries, each divided by 255 |
| MftTags.ReadByteEntries | tags_mft.go:230-232 | the table loop returns exactly those entries |
| MftTags.DecodeMft2 | tags_mft.go:36-107 | Under 52 bytes the tag is too short. Success gives the counts, the matrix, the input curves, the table scaled by 1/65535 and the output curves, each read from its place. A failure names the first table that reaches past the end. Bytes after the output curves are ignored |
| MftTags.Mft2Decoder | tags_mft.go:36-107 | the method with the source's loops returns exactly DecodeMft2 |
| MftTags.Mft2Fits | tags_mft.go:36-107 | a lut16 block decodes exactly when it has 52 bytes and all of its tables fit |
| MftTags.DecodeMft1 | tags_mft.go:200-251 | Under 48 bytes the tag is too short. Success gives 256-byte input curves, the table of one-byte entries scaled by 1/255 and 256-byte output curves. A failure names the first table that reaches past the end |
| MftTags.Mft1Decoder | tags_mft.go:200-251 | the method with the source's loops returns exactly DecodeMft1 |
| MftTags.Mft1Fits | tags_mft.go:200-251 | a lut8 block decodes exactly when it has 48 bytes and all of its tables fit |
| MftTags.Curve16Step | tags_mft.go:115-131 | A channel is clamped and then looked up in its curve at v·(n-1), giving a value in [0, 1]. An index outside the curve is the stage's error for that channel. A missing curve is an unchecked index |
| MftTags.Curve16Stage | tags_mft.go:115-132 | a curve stage gives one value per channel, stopping at the first failure |
| MftTags.CurveChannel16 | tags_mft.go:116-131 | the loop body for one channel returns exactly Curve16Step |
| MftTags.ApplyCurves16 | tags_mft.go:114-132 | the curve loop returns exactly Curve16Stage (for the input stage here and the output stage at lines 179-196) |
| MftTags.UniformCells | tags_mft.go:143-154 | the grid loop gives each channel's cell on a uniform grid |
| MftTags.Mft2Transform | tags_mft.go:109-198 | A wrong arity fails with both counts, and an input curve failure is returned. The table must hold grid^in·out entries. The interpolation is neither clamped nor checked, and then come the output curves. Success gives outputChannels values |
| MftTags.Mft2Transformer | tags_mft.go:109-198 | the method with the source's loops returns exactly Mft2Transform |
| MftTags.Nearest | tags_mft.go:261 | int(v·255) for v in [0, 1] is an entry index from 0 to 255 |
| MftTags.Curve8Step | tags_mft.go:259-266 | a channel is clamped and takes the entry at int(v·255), a value in [0, 1]; an entry past the curve is the stage's error |
| MftTags.Curve8Stage | tags_mft.go:259-266 | a lut8 curve stage gives one value per channel, stopping at the first failure |
| MftTags.ApplyCurves8 | tags_mft.go:258-266 | the lut8 curve loop returns exactly Curve8Stage (for the input stage here and the output stage at lines 314-322) |
| MftTags.FloorCells | tags_mft.go:273-283 | each channel's cell with math.Floor, held below grid-1, and the fraction (1 at the upper edge) |
| MftTags.FloorGridCells | tags_mft.go:271-283 | the lut8 grid loop returns exactly FloorCells |
| MftTags.Mft1Transform | tags_mft.go:253-324 | A wrong arity fails with both counts, and an input curve failure is returned. The interpolation checks every corner against the grid and the table, and then come the output curves. Success gives outputChannels values. Which of the corner checks can fire, and when, is stated by the lemmas below |
| MftTags.Mft1NeverGridIndex | tags_mft.go:272-296 | the grid-index error never occurs, for any tag and input: the floor position is held at grid-2 or below, so position plus bit stays below the grid |
| MftTags.Mft1ClutOutcome | tags_mft.go:284-308 | on two or more grid points, once the input curves succeed, the table error occurs exactly when some corner of the input's cell reaches past the table |
| MftTags.Mft1ShortTable | tags_mft.go:284-308 | a table shorter than one node fails with the table error, once the input curves succeed |
| MftTags.Mft1ClutBoundsExample | tags_mft_test.go:296-307 | the CLUTBoundsError test: one channel, two grid points, zero curves and an empty table fail with the table error |
| MftTags.Mft1PartialTableSucceeds | tags_mft.go:284-308 | unlike lut16, the lut8 transform has no up-front size check: a table shorter than grid^n·nOut answers when the cell's corners fit |
| Interp.BlendNeverOutside | tags_mft.go:289-296 | positions at least two below their grid counts never stop the corner loop with the grid error |
| Interp.CheckedBlendOutcome | tags_mft.go:284-308 | inside the grid the checked corner loop fails exactly when a corner's node reaches past the values, and then with the table error |
| MftTags.Mft1Transformer | tags_mft.go:253-324 | the method with the source's loops returns exactly Mft1Transform |
| MftTags.Curve16StageSucceeds | tags_mft.go:115-131 | over curves that cover every channel, a lut16 stage succeeds; each value is the curve lookup at the clamped position and lies in [0, 1] |
| MftTags.Mft2EmptyInputCurve | tags_mft.go:118-123 | an empty first input curve makes every lut16 transform fail on channel 0 |
| MftTags.Mft2CornersInside | tags_mft.go:143-176 | on a grid of at least two points, every corner index of the cell of values in [0, 1] is below grid^n |
| MftTags.Mft2Succeeds | tags_mft.go:109-198 | a complete lut16 table transforms every input of its arity into outputChannels values in [0, 1] |
| MftTags.Mft2MatrixUnused | tags_mft.go:109-198 | the parsed matrix never takes part in the lut16 transform |
| MftTags.DecodedMft2Succeeds | tags_mft.go:36-198 | a decoded lut16 tag with two or more grid points and non-empty curves is complete, so it transforms every input of its arity |
| MftTags.NearestEntry | tags_mft.go:261 | the entry k/255 is found again by the nearest-entry rule |
| MftTags.Curve8StageSucceeds | tags_mft.go:259-266 | over full 256-entry curves a lut8 stage succeeds, each value the entry nearest below the clamped input |
| MftTags.FloorCellsAreCells | tags_mft.go:273-276 | on values of at least 0, the floor of the lut8 grid loop and the truncation of the lut16 one agree |
| MftTags.Mft1Succeeds | tags_mft.go:253-324 | a complete lut8 table transforms every input of its arity into outputChannels values in [0, 1] |
| MftTags.Mft1MatrixUnused | tags_mft.go:253-324 | the parsed matrix never takes part in the lut8 transform |
| MftTags.DecodedMft1Succeeds | tags_mft.go:200-324 | a decoded lut8 tag with two or more grid points is complete, so it transforms every input of its arity |
| TextTags.CodeUnits | tags_text.go:126-130 | an even number of bytes holds half as many big-endian code units |
| TextTags.DecodeUTF16BE | tags_text.go:126-130 | the byte-pair loop fills exactly those code units |
| TextTags.CodeUnitsRoundTrip | tags_text.go:126-130 | the code units of the big-endian bytes of some code units are those code units |
| TextTags.CutAtNul | tags_text.go:25-28 | the result is a prefix without NUL, and the input has a NUL right after it when it is shorter |
| TextTags.CutAtNulOfText | tags_text.go:25-28 | a text without NUL followed by a NUL and anything is cut back to the text |
| TextTags.TrimNuls | tags_text.go:70 | the result is a prefix, everything dropped is NUL, and it does not end in NUL |
| TextTags.DecodeText | tags_text.go:65-72 | under 8 bytes is "text tag too short", the only failure; otherwise the bytes after the header with trailing NULs removed |
| TextTags.TextRoundTrip | tags_text.go:65-72 | a text that does not end in NUL, after any header and any NUL padding, reads back as itself |
| TextTags.TrimNulsOfPadded | tags_text.go:70 | NUL padding after a text not ending in NUL is removed, and the text is kept |
| TextTags.DecodeSig | tags_text.go:74-79 | under 8 bytes is "sig tag too short"; 8 to 11 bytes make the slice raw[8:12] panic; otherwise the stringed bytes 8 to 12 |
| TextTags.DecodeDesc | tags_text.go:17-63 | Under 12 bytes the tag is too short. An ASCII count of 0, or one past the end, is an invalid length. Success keeps the ASCII text up to its first NUL. Nothing after the ASCII text gives an ASCII-only tag. The only failures are the four the source returns |
| TextTags.UnitsAt | tags_text.go:40-42 | the Unicode part holds the stated number of code units |
| TextTags.DescUnicode | tags_text.go:30-49 | fewer than four bytes after the ASCII text give an ASCII-only tag; a failure is missing UTF-16 data or missing script data; the ASCII text is kept |
| TextTags.DescScript | tags_text.go:44-62 | no byte left gives no script code; a script count past the end is "missing ScriptCode data"; otherwise the counted bytes |
| TextTags.DescEncodedHead | tags_text.go:21-30 | the ASCII count sits at bytes 8 to 12, the text and its NUL after it |
| TextTags.DescEncodedTail | tags_text.go:35-56 | the Unicode count, the code units, the script count and the script bytes lie where descDecoder reads them |
| TextTags.DescAsciiStep | tags_text.go:21-30 | past a valid ASCII count the decoder goes on to the Unicode part |
| TextTags.DescUnicodeStep | tags_text.go:35-43 | past a Unicode count whose code units fit the decoder goes on to the script code |
| TextTags.DescScriptStep | tags_text.go:51-62 | a script count followed by exactly that many bytes gives that script code |
| TextTags.UnitsAtOf | tags_text.go:40-42 | code units written big-endian are read back |
| TextTags.DescTailRoundTrip | tags_text.go:30-62 | a Unicode count with its code units and a script code, all fitting, read back as those parts |
| TextTags.DescLayout | tags_text.go:17-63 | where each part of a description laid out as descDecoder reads it lies |
| TextTags.DescRoundTrip | tags_text.go:17-63 | an ASCII text without NUL, any code units and a script code under 256 bytes, laid out with their counts, decode to those three parts |
| TextTags.MlucRecordAt | tags_text.go:104-121 | a record succeeds exactly when its string fits in the tag and has an even length; otherwise the error names the record |
| TextTags.MlucRecordLayout | tags_text.go:105-116 | a record's string is its two language bytes, two country bytes and the code units at its offset and length |
| TextTags.MlucItem | tags_text.go:104 | item i of the record loop is record i |
| TextTags.DecodeMluc | tags_text.go:91-124 | under 16 bytes the tag is too short; a record size other than 12 is reported with that size; a record table past the end is "too small"; success has the whole table inside the tag |
| TextTags.MlucDecoder | tags_text.go:91-124 | the method with the source's loop returns exactly DecodeMluc |
| TextTags.ReadMlucRecords | tags_text.go:103-123 | the record loop gives every record in order, or the first record's error |
| TextTags.ReadMlucRecord | tags_text.go:105-121 | the loop body returns exactly MlucRecordAt |
| TextTags.MlucRecords | tags_text.go:91-124 | Once the table fits, decoding succeeds exactly when every record succeeds. The result then holds count strings, string i being record i |
| TextTags.MlucFirstBadRecord | tags_text.go:104-113 | the first record whose string does not fit, or has an odd length, is the one the error names |
| XyzTags.Triplets | tags_xyz.go:20-32 | count triplets after the type header |
| XyzTags.DecodeXyz | tags_xyz.go:12-34 | Under 20 bytes the tag is "too short", and a body that is not whole triplets is an invalid length. Success happens exactly otherwise and gives at least one triplet. Triplet i is the three s15Fixed16 numbers at 8+12i |
| XyzTags.XyzDecoder | tags_xyz.go:12-34 | the method with the source's loop over the body returns exactly DecodeXyz |
| XyzTags.XyzDecodesTo | tags_xyz.go:12-34 | a block of whole triplets whose s15Fixed16 values at 8+4k are vs decodes successfully to count triplets, and triplet i is (vs[3i], vs[3i+1], vs[3i+2]) |
| XyzTags.XyzRoundTrip | tags_xyz.go:12-34 | numerators encoded as s15Fixed16 words, three per triplet, after any 8-byte header decode to exactly those triplets of n/65536, in order |
| Sf32Tags.WordsAt | tags_sf32.go:17-22 | count 32-bit words after the type header |
| Sf32Tags.DecodeSf32 | tags_sf32.go:9-24 | Under 8 bytes the tag is too short, and a body that is not whole words is "not aligned". Success happens exactly otherwise, possibly with no values. Value i is the word at 8+4i |
| Sf32Tags.Sf32Decoder | tags_sf32.go:9-24 | the method with the source's loop filling a preallocated array returns exactly DecodeSf32 |
| Sf32Tags.Sf32RoundTrip | tags_sf32.go:9-24 | any words written big-endian after any 8-byte header decode to themselves |
| MiscTags.StubsReturnInput | tags_misc.go:3-31 | the dict, psid, pseq, gbd, zxml and msbn decoders never fail and return the bytes they are given |
| MeasurementTags.DecodeMeasurement | tags_measurement.go:16-31 | under 36 bytes is "meas tag too short", the only failure; otherwise a measurement value |
| MeasurementTags.MeasurementRoundTrip | tags_measurement.go:16-31 | each field reads back from the word written at its offset (8, 12-20, 24, 28, 32), s15Fixed16 fields as n/65536, whatever the header and whatever follows |
| MeasurementTags.MeasurementPrefix | tags_measurement.go:16-31 | only the first 36 bytes are read |
| ViewTags.DecodeView | tags_view.go:14-31 | under 36 bytes is "view tag too short", the only failure; otherwise a viewing-conditions value |
| ViewTags.ViewRoundTrip | tags_view.go:14-31 | both XYZ numbers and the illuminant type read back from the words written at offsets 8 to 36, whatever the header and whatever follows |
| ViewTags.ViewPrefix | tags_view.go:14-31 | only the first 36 bytes are read |
| Profiles.OptionsOrDefault | profile.go:29-31 | given options are used as they are; nil options are the zero value: full mode, eager decoding, no error flags, no decoder overrides |
| Profiles.Profile.constructor | profile.go:22-26 | the struct literal: the given header, table, Tags and name index, and neither conversion cached |
| Profiles.Profile.TagByHeader | conversions.go:43-44 | a Tag is found exactly when the name is present and does not map to nil, and it is the Tag registered under the name |
| Profiles.WalkStage | profile.go:34 | the tag-block stage keeps the walk exactly when parseTags succeeds, and otherwise returns its error |
| Profiles.TableStage | profile.go:33-35 | A failed table read leaves the zero table and returns its error. A mode of ParseHeaderAndTagTable or more stops after the table. Otherwise the tag blocks are walked from where the table ends |
| Profiles.ParseStages | profile.go:28-38 | A failed header read leaves the zero header and returns its error. A mode of ParseHeaderOnly or more stops after the header. Otherwise the table is read from byte 128 |
| Profiles.StagesRun | profile.go:32-35 | a walk is kept only by a full parse with no error, and a table only when the mode goes past the header |
| Profiles.HeaderOnlyStops | profile.go:32 | ParseHeaderOnly, or any larger mode, reads the header and nothing else, returning only its error |
| Profiles.TableOnlyStops | profile.go:33 | ParseHeaderAndTagTable reads the table right after the header and no tag block |
| Profiles.FullWalksParsedTable | profile.go:32-35 | ParseFull walks the table it has just read, from byte 132 + 12n; a failed walk keeps the header and table and returns the walk's error |
| Profiles.FullParseTracksPosition | profile.go:28-38 | on a full parse of a profile under 4 GiB, the position parseTags keeps always equals the bytes read from the start of the profile |
| Profiles.FirstFailureStops | profile.go:32-37 | the error returned is the first failing stage's, and the stages after it leave their fields at the zero value |
| Profiles.ReadTagBlocks | profile.go:34 | the Tags returned are new, one per sorted entry, each in the walk's state, shared exactly where the walk shares; none on failure |
| Profiles.ReadTableAndBlocks | profile.go:33-35 | the table and Tags, as TableStage states |
| Profiles.ParseProfile | profile.go:28-38 | the new Profile's header, table and error are ParseStages' and its Tags mirror the walk; no conversion is cached yet |
| Conversions.Find | conversions.go:39-77 | the lookup returns the Tag's new state exactly when there is a Tag, and that state is valid |
| Conversions.FindOutcomes | conversions.go:43-56 | An uncached lookup without a Tag is "tag not found". A Tag whose Value fails wraps that error. A value that is not a modular tag does not implement the interface, nil included. Otherwise the lookup gives the modular tag. The Tag is left as its Value call leaves it |
| Conversions.ConversionErrorCases | conversions_test.go:10-54 | the tests' error cases in both directions: an empty profile and a name mapped to nil find no tag, a Tag holding an error gives that error as the cause, a nil value does not implement the conversion |
| Conversions.StoredErrorFailsLookup | conversions.go:47-50 | a Tag holding a stored error fails the lookup with that error and is left unchanged, so its decoder does not run |
| Conversions.CachedLookup | conversions.go:40-42 | a cached lookup answers from the cache and leaves the Tag unchanged |
| Conversions.FoundIsReturnedAgain | conversions.go:39-56 | once a lookup succeeds and is cached, the next lookup returns the same tag, whatever the Tag's state by then |
| Conversions.FindTag | conversions.go:39-77 | findA2B0/findB2A0 return Find's result and leave the Tag in Find's state. The direction's cache is written only on success, with the found tag. Nothing else in the Profile changes, including the other direction's cache |
| Conversions.Convert | conversions.go:23-37 | a failed lookup returns its error unchanged; otherwise the found tag's ToCIEXYZ or FromCIEXYZ of the channels |
| Conversions.ConvertChecksArity | conversions.go:23-37 | in either direction, a channel count other than the found tag's input count fails with both counts |
| Conversions.ThreeChannelExample | conversions_test.go:55-66 | a decoded modular tag with three input channels, given no channels, fails with "expected 3, got 0" in both directions |
| Conversions.Transform | conversions.go:23-37 | Profile.ToCIEXYZ/FromCIEXYZ return Convert of the state before the call and leave the state FindTag leaves |

## Left out

- Reading from an `io.Reader` is modelled as a value stream over the whole profile: a byte array and a position. Short reads surface as the read errors the source wraps.
- `float64` is modelled as an unbounded real. There is no rounding, NaN or infinity. `float32` values of sf32 tags are kept as their bit patterns. The parametric-curve guard `x >= -b/a` is kept as the source writes it.
- `math.Pow` is a parameter of every transform that raises to a power (`pow`). No property of it is assumed beyond what each lemma requires.
- UTF-16 decoding (`utf16.Decode`) is not modelled: strings decoded from UTF-16 are kept as their code units, and the byte strings `string(b)` as their bytes.
- The date fields of the header are kept as their raw words rather than a `time.Time`.
- Go's `int` overflow is not modelled. That covers the CLUT grid product, which wraps in int64 for grids the format cannot hold. For example, a 74-byte clut block with 64 inputs, one output and 64 grid counts of 2 has a product of 2^64, which wraps to 0 in Go: the source expects an empty body and decodes the block, while the model expects 2^65 bytes and refuses it. `1 << n` for `n >= 64` is 0 in Go; NumCorners states it.
- The lut8 and lut16 table size is computed in the source as `int(math.Pow(float64(grid), float64(inputs)))` (tags_mft.go:74, 138 and 224). The model uses the exact integer power g^n instead. The two agree while g^n is below 2^53. From 2^63 up, Go's float-to-int conversion is implementation-dependent: header bytes such as 2 grid points and 64 inputs give 2^64, which on common hardware becomes a negative size, and the table allocation in mft1Decoder and mft2Decoder then panics. The model instead reports that the table does not fit in the block. Independently of the float conversion, mft1Decoder allocates the lut8 table (tags_mft.go:225) before it checks that the table fits in the block (tags_mft.go:227), so a short block whose header declares a large table crashes Go at the allocation: for example a 1584-byte block with 6 inputs, 1 output and 255 grid points, holding its 1536 curve bytes, declares 255^6 (about 2.7·10^14) entries, for which `make` panics with "len out of range" (above about 2^45 float64 entries on amd64) or, for smaller huge sizes, the runtime stops with an out-of-memory error. mft2Decoder checks the size before it allocates (tags_mft.go:76-79), so lut16 has no such crash.
- DecodeMft1: on a block that holds the header and the input curves but not the declared table, the model returns `Failure(Mft1ClutTruncated)`; the source first allocates the whole declared table (tags_mft.go:225) and only then checks it against the block (tags_mft.go:227), so when the declared table is too large to allocate, Go crashes instead of returning that error. The model does not capture allocation failure.
- Mft1Decoder: returns the same `Failure(Mft1ClutTruncated)` as DecodeMft1 in that case, where the Go decoder crashes at the allocation (tags_mft.go:225) before its bounds check (tags_mft.go:227).
- Decoders take the raw bytes only. The source also passes `hdrs []TagHeader`, the Tag's headers, at tags_parser.go:24 and tags_parser.go:86. None of the default decoders reads it, so only a user decoder from `ParseOptions.TagDecoders` could see it: `[hdr]` on the eager path, and every header attached to the shared block so far on the lazy path. A Go decoder may also return a value and an error together; the model's decoders return one or the other, so `Tag.Value` keeps only the error.
- `Fixed1616`, which the XYZ decoder uses (tags_xyz.go:24-26), is not part of this model. Its `Float64` is taken to be the signed s15.16 reading of the word, as `readS15Fixed16BE` does. The tests at header_test.go:60-65 use only words below 0x80000000. If the type is unsigned, XYZ words from 0x80000000 up decode 65536 higher in the source than in the model.
- Concurrency is left out: the Tag's lazy decode is modelled as single-threaded.
- `ParseOptions.TagFilter` is not modelled, because the tag walker never consults it.
- The decoder registry (`defaultDecoders` merged with `TagDecoders`) is a parameter of the walk functions. The methods use the default registry.
- The `TagHeaderAToB0` and `TagHeaderBToA0` constants are not part of this model. They are taken to be "A2B0" and "B2A0". The lookup does not depend on their spelling.
- The `Tag*` type-signature constants are not part of this model. They are taken to be the trimmed four-character ICC signatures ("curv", "para", "mft2", "mAB", and so on).
- How `tagsByHeader` is filled is not part of this model: ParseProfile leaves it empty, and the conversions take any map from names to Tags.
- The `Profile` struct at profile.go:22-26 declares only three fields, while conversions.go reads `a2b0`, `b2a0` and `tagsByHeader`. The class carries all six.
- A tag block shorter than 4 bytes makes `stringed(raw[0:4])` panic. It is modelled as a `Panic` error that fails the walk, as a crash would. The other unchecked indexes that can panic are also modelled as `Panic` errors: signature tags of 8 to 11 bytes, a CLUT grid past the end, curve points, missing mft curves, the unguarded lut16 table index, and the lut8 table read at a negative index when the grid has fewer than 2 points (the position is clamped to grid-2, which is then negative, at tags_mft.go:280-283, and `m.CLUT[base+i]` is read at tags_mft.go:305-310; the model reports this through Mft1Fault as `Panic(ClutValueIndex)`). The source has no `recover`, so in Go these crash the program. In the model they are ordinary decode or transform errors instead: the walk stores a decoder's `Panic` on its Tag and goes on (or fails with it under `ErrorOnTagDecode`), `Tag.Value` stores and returns it, and the modular pipeline wraps it as an element error. The model therefore does not capture that eager parsing, `Value()` or `Transform` end the program on those inputs.
- MatrixTag.Transform is declared variadic at tags_matrix.go:39, so it does not literally satisfy ChannelTransformer. The model treats it as the transformer it is used as.
- TagsParser.ParseTags: the source sorts with `slices.SortFunc`, which leaves the order of entries with equal offsets unspecified. The model sorts with a stable insertion sort (SortByOffset), and ParseTags' contract ties every Tag to TagWalk over that order, so it fixes table order among equal offsets, which the source does not promise. The decoder itself does not depend on that order, because it is chosen from the block's own first four bytes (tags_parser.go:66-76). What does depend on which of several entries with the same offset comes first is: the Size that is read, and so the shared Tag's Raw bytes, its decoded value, and whether a Size below 4 panics; the stream position after the read, and so whether a later entry fails as lying before the current stream position (tags_parser.go:54-56 and 65); and the order of the shared Tag's Headers.
- ModularTags.ToCIEXYZ and ModularTags.FromCIEXYZ are both `transformChannels`. FromCIEXYZ states that the two are the same function rather than anything further about it.
- MiscTags.StubsReturnInput: the six stub decoders return the raw bytes, and nothing more is interpreted.
