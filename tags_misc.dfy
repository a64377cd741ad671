/**
 * The tag types the reader recognises but does not interpret: dict, psid,
 * pseq, gbd, zxml and msbn.  Their decoders hand the raw block back.
 */
module MiscTags {
  import opened Wrappers
  import opened Bytes
  import opened Errors
  import opened TagValues

  function DictDecoder(raw: seq<byte>): Result<TagValue, Error> {
    Success(Opaque(raw))
  }

  function PsidDecoder(raw: seq<byte>): Result<TagValue, Error> {
    Success(Opaque(raw))
  }

  function PseqDecoder(raw: seq<byte>): Result<TagValue, Error> {
    Success(Opaque(raw))
  }

  function GbdDecoder(raw: seq<byte>): Result<TagValue, Error> {
    Success(Opaque(raw))
  }

  function ZxmlDecoder(raw: seq<byte>): Result<TagValue, Error> {
    Success(Opaque(raw))
  }

  function MsbnDecoder(raw: seq<byte>): Result<TagValue, Error> {
    Success(Opaque(raw))
  }

  /** No stub fails, and each returns exactly the bytes it was given. */
  lemma StubsReturnInput(raw: seq<byte>)
    ensures DictDecoder(raw) == Success(Opaque(raw)) && PsidDecoder(raw) == Success(Opaque(raw))
    ensures PseqDecoder(raw) == Success(Opaque(raw)) && GbdDecoder(raw) == Success(Opaque(raw))
    ensures ZxmlDecoder(raw) == Success(Opaque(raw)) && MsbnDecoder(raw) == Success(Opaque(raw))
  {
  }
}
