/**
  Successive `Decoder.Read` calls over one document, against decoding the
  whole document at once.
 */
module Streaming {
  import opened Wrappers
  import opened Scanner
  import opened ScannerProperties
  import opened Jsonc

  /** The bytes of successive reads, in order. */
  function Concat(chunks: seq<seq<byte>>): seq<byte> {
    if chunks == [] then [] else chunks[0] + Concat(chunks[1..])
  }

  /** No chunk is longer than the slice length `bufLen`. */
  predicate Fits(chunks: seq<seq<byte>>, bufLen: nat) {
    forall i :: 0 <= i < |chunks| ==> |chunks[i]| <= bufLen
  }

  /**
    Reading `chunks` one `Read` at a time, as a caller of the `Decoder` would,
    from state `c`, with a slice of length `bufLen` and from a reader that
    reports no error: the concatenated output, or the first error.
   */
  function Stream(c: Scan, bufLen: nat, chunks: seq<seq<byte>>): (r: Result<seq<byte>, Error>)
    // No more bytes come out than were read, and the only error is the package's own.
    ensures r.Ok? ==> |r.value| <= |Concat(chunks)|
    ensures r.Err? ==> r.error == UnexpectedEndOfComment
    decreases |chunks|
  {
    if chunks == [] then Ok([])
    else
      var r := ReadStep(c, bufLen, Chunk(chunks[0], None));
      if r.err.Some? then Err(r.err.value)
      else
        match Stream(r.next, bufLen, chunks[1..])
        case Ok(rest) => Ok(r.out + rest)
        case Err(e) => Err(e)
  }

  /** Reads that all succeed produce what one decode of their bytes produces, and end at rest. */
  lemma {:induction false} StreamSound(c: Scan, bufLen: nat, chunks: seq<seq<byte>>)
    requires Fits(chunks, bufLen)
    requires Stream(c, bufLen, chunks).Ok?
    ensures Run(c, Concat(chunks)).out == Stream(c, bufLen, chunks).value
    ensures chunks != [] ==> Run(c, Concat(chunks)).end.Complete()
    decreases |chunks|
  {
    if chunks != [] {
      var r := ReadStep(c, bufLen, Chunk(chunks[0], None));
      var rest := chunks[1..];
      assert Fits(rest, bufLen) by {
        forall i | 0 <= i < |rest| ensures |rest[i]| <= bufLen {
          assert rest[i] == chunks[i + 1];
        }
      }
      StreamSound(r.next, bufLen, rest);
      RunAppend(c, chunks[0], Concat(rest));
    }
  }

  /** So a stream of successful reads agrees with `DecodeBytes` over the whole document. */
  lemma StreamAgreesWithBatch(bufLen: nat, chunks: seq<seq<byte>>)
    requires Fits(chunks, bufLen)
    requires Stream(Zero, bufLen, chunks).Ok?
    ensures Stripped(Concat(chunks)) == Stream(Zero, bufLen, chunks)
  {
    StreamSound(Zero, bufLen, chunks);
  }

  /** A whole document delivered by one read decodes exactly as `DecodeBytes` decodes it. */
  lemma OneReadIsBatch(p: seq<byte>, bufLen: nat)
    requires |p| <= bufLen
    ensures Stream(Zero, bufLen, [p]) == Stripped(p)
  {
    var rest := [p][1..];
    assert rest == [];
    assert Concat([p]) == p + Concat(rest);
    var r := ReadStep(Zero, bufLen, Chunk(p, None));
    assert Stream(r.next, bufLen, rest) == Ok([]);
    assert r.out + [] == r.out;
  }

  /**
    The converse of `StreamAgreesWithBatch` does not hold: a comment split
    across two reads fails the first read, although the whole document `/**/`
    decodes without error.
   */
  lemma SplitCommentRejected()
    ensures Stripped([FwdSlash, Star, Star, FwdSlash]) == Ok([])
    ensures Concat([[FwdSlash, Star], [Star, FwdSlash]]) == [FwdSlash, Star, Star, FwdSlash]
    ensures Stream(Zero, 2, [[FwdSlash, Star], [Star, FwdSlash]]) == Err(UnexpectedEndOfComment)
  {
    var a, b := [FwdSlash, Star], [Star, FwdSlash];
    assert Concat([a, b]) == a + b by {
      assert [a, b][1..] == [b];
      assert [b][1..] == [];
      assert Concat([b]) == b + Concat([]);
    }
    RunSnoc(Zero, [], FwdSlash);
    RunSnoc(Zero, [FwdSlash], Star);
    RunSnoc(Zero, a, Star);
    RunSnoc(Zero, a + [Star], FwdSlash);
    assert a + [Star] + [FwdSlash] == [FwdSlash, Star, Star, FwdSlash];
  }
}
