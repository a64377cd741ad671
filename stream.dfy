/**
 * The `io.Reader` the profile is read from, as a value: the bytes behind it
 * and how many of them have been consumed.
 */
module Streams {
  import opened Wrappers
  import opened Bytes
  import opened Errors

  datatype Stream = Stream(data: seq<byte>, pos: nat) {
    ghost predicate Valid() {
      pos <= |data|
    }

    function Available(): int {
      |data| - pos
    }
  }

  /** io.ReadFull(r, buf) with len(buf) == n: all n bytes, or an error and nothing usable. */
  function Read(s: Stream, n: nat): (r: Result<(seq<byte>, Stream), Error>)
    ensures r.Success? <==> s.pos + n <= |s.data|
    ensures r.Success? ==> |r.value.0| == n && r.value.1 == Stream(s.data, s.pos + n)
    ensures r.Success? ==> r.value.0 == s.data[s.pos..s.pos + n]
    ensures r.Failure? ==> r.error == ShortRead
  {
    if s.pos + n <= |s.data| then Success((s.data[s.pos..s.pos + n], Stream(s.data, s.pos + n)))
    else Failure(ShortRead)
  }

  /** io.CopyN(io.Discard, r, n): skip exactly n bytes or fail. */
  function Skip(s: Stream, n: nat): (r: Result<Stream, Error>)
    ensures r.Success? <==> s.pos + n <= |s.data|
    ensures r.Success? ==> r.value == Stream(s.data, s.pos + n)
    ensures r.Failure? ==> r.error == SkipFailed
  {
    if s.pos + n <= |s.data| then Success(Stream(s.data, s.pos + n)) else Failure(SkipFailed)
  }
}
