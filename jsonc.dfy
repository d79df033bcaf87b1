/**
  The operations of package jsonc: the in-place `decode` loop over a mutable
  `comment`, the batch entry points `DecodeBytes` and `DecodeString`, and the
  streaming `Decoder`.
 */
module Jsonc {
  import opened Wrappers
  import opened Scanner
  import opened ScannerProperties

  /** The errors a call can report: the package's own, or one passed up from the reader. */
  datatype Error = UnexpectedEndOfComment | ReaderError(name: string)

  /** The `comment` struct, updated in place through a pointer. */
  class Comment {
    var state: State
    var multiLn: bool
    var isJSON: bool

    /** The value of the struct. */
    function Value(): Scan
      reads this
    {
      Scan(state, multiLn, isJSON)
    }

    /** `comment{}`. */
    constructor ()
      ensures Value() == Zero
    {
      state, multiLn, isJSON := Stopped, false, false;
    }

    /** `comment.reset` (jsonc.go:58-61). */
    method Reset()
      modifies this
      ensures state == Stopped && !multiLn && isJSON == old(isJSON)
    {
      state := Stopped;
      multiLn := false;
    }

    /**
      The body of the `switch c.state` in `decode` (jsonc.go:71-121) for byte `s`:
      updates the fields and says whether `s` is written to the output.
     */
    method Feed(s: byte) returns (keep: bool)
      modifies this
      ensures Outcome(keep, Value()) == Step(old(Value()), s)
    {
      keep := false;
      match state {
        case Stopped =>
          if s == Quote {
            isJSON := !isJSON;
          }
          if isJSON {
            keep := true;
          } else if s == Space || s == Tab || s == NewLine {
          } else if s == FwdSlash {
            state := CanStart;
          } else {
            keep := true;
          }
        case CanStart =>
          if s == Star || s == FwdSlash {
            state := Started;
          }
          multiLn := s == Star;
        case Started =>
          if s == Star || s == BkdSlash {
            state := CanStop;
          }
          if s == NewLine && !multiLn {
            Reset();
          }
        case CanStop =>
          if s == FwdSlash || s == CharN {
            Reset();
          }
      }
    }

    /**
      `comment.complete` (jsonc.go:63-65) on the struct: its fields say
      `stopped`, which is when the next byte fed can be written.
     */
    predicate Complete(): (r: bool)
      reads this
      ensures r <==> state == Stopped
      ensures r <==> Step(Value(), Quote).keep
    {
      Value().Complete()
    }
  }

  /** `buf` after its first |data| bytes are overwritten by `data`. */
  function Overwrite(buf: seq<byte>, data: seq<byte>): (r: seq<byte>)
    requires |data| <= |buf|
    ensures |r| == |buf| && r[..|data|] == data && r[|data|..] == buf[|data|..]
  {
    data + buf[|data|..]
  }

  /**
    `decode(p[:len], c)` (jsonc.go:67-126): one pass over the first `len` bytes,
    writing each kept byte at the write index `i` and updating `c` as it goes.
   */
  method Decode(p: array<byte>, len: nat, c: Comment) returns (i: nat)
    requires len <= p.Length
    modifies p, c
    // The write index never passes the read index.
    ensures i <= len
    ensures var r := Run(old(c.Value()), old(p[..len]));
      i == |r.out| && c.Value() == r.end && p[..] == Overwrite(old(p[..]), r.out)
  {
    ghost var input := p[..];
    ghost var c0 := c.Value();
    i := 0;
    for k := 0 to len
      // The write index never passes the read index, so no unread byte is overwritten.
      invariant i <= k
      invariant p[i..] == input[i..]
      invariant Run(c0, input[..k]) == Decoded(p[..i], c.Value())
    {
      var s := p[k];
      assert s == input[k];
      assert input[..k + 1][..k] == input[..k];
      ghost var i0, p0 := i, p[..];
      var keep := c.Feed(s);
      if keep {
        p[i] := s;
        i := i + 1;
        assert p[..i] == p0[..i0] + [s];
        assert p[i..] == p0[i..];
      }
    }
    assert input[..len] == old(p[..len]);
  }

  /**
    What decoding a whole document from `comment{}` yields: the kept bytes,
    or `ErrUnexpectedEndOfComment` when the scan ends anywhere but at rest.
    A string left open at the end is not an error.
   */
  function Stripped(p: seq<byte>): (r: Result<seq<byte>, Error>)
    // Success exactly when one pass from a fresh state ends at rest.
    ensures r.Ok? <==> Run(Zero, p).end.Complete()
    // Then the result is what the pass kept, never longer than the input.
    ensures r.Ok? ==> r.value == Run(Zero, p).out && |r.value| <= |p|
    // Otherwise it is the package's one error.
    ensures r.Err? ==> r.error == UnexpectedEndOfComment
  {
    var r := Run(Zero, p);
    if r.end.Complete() then Ok(r.out) else Err(UnexpectedEndOfComment)
  }

  /**
    `DecodeBytes` (jsonc.go:163-172): decodes all of `p` in place from a fresh
    state. The buffer is compacted whether or not the call fails.
   */
  method DecodeBytes(p: array<byte>) returns (n: nat, err: Option<Error>)
    modifies p
    ensures var r := Run(Zero, old(p[..]));
      p[..] == Overwrite(old(p[..]), r.out) &&
      if r.end.Complete() then n == |r.out| && err == None
      else n == 0 && err == Some(UnexpectedEndOfComment)
  {
    var c := new Comment();
    n := Decode(p, p.Length, c);
    assert old(p[..p.Length]) == old(p[..]);
    if !c.Complete() {
      return 0, Some(UnexpectedEndOfComment);
    }
    err := None;
  }

  /**
    `DecodeString` (jsonc.go:180-196): copies the text, decodes the copy and
    returns its kept prefix, or the empty text and the error.
   */
  method DecodeString(s: seq<byte>) returns (r: seq<byte>, err: Option<Error>)
    ensures match Stripped(s)
      case Ok(v) => r == v && err == None
      case Err(e) => r == [] && err == Some(e)
  {
    var p := new byte[|s|](i requires 0 <= i < |s| => s[i]);
    assert p[..] == s;
    var n;
    n, err := DecodeBytes(p);
    if err.Some? {
      return [], err;
    }
    r := p[..n];
  }

  /** What the underlying reader delivers for one call: the bytes it wrote into `p`, and its error. */
  datatype Chunk = Chunk(data: seq<byte>, err: Option<Error>)

  /** What one `Decoder.Read` reports, and the state it leaves behind. */
  datatype ReadResult = ReadResult(out: seq<byte>, err: Option<Error>, next: Scan)

  /**
    `Decoder.Read` (jsonc.go:140-155) on a slice whose length `len(p)` is
    `bufLen`, from state `c`. A reader error is passed on without decoding.
    Otherwise the chunk is decoded; a call that ends inside a comment fails,
    unless the reader returned more than `bufLen` bytes (it may write up to
    `cap(p)`), since only then is `shortRead` false.
   */
  function ReadStep(c: Scan, bufLen: nat, chunk: Chunk): (r: ReadResult)
    // A reader error is returned as it is; the state is untouched.
    ensures chunk.err.Some? ==> r == ReadResult([], chunk.err, c)
    // Otherwise the state always advances over the chunk.
    ensures chunk.err.None? ==> r.next == Run(c, chunk.data).end
    // A reader that keeps to the buffer: the call succeeds exactly when it ends at rest.
    ensures chunk.err.None? && |chunk.data| <= bufLen ==>
      var d := Run(c, chunk.data);
      if d.end.Complete() then r.out == d.out && r.err == None
      else r.out == [] && r.err == Some(UnexpectedEndOfComment)
    // A reader that returned more than the buffer's length: the end-of-comment check is skipped.
    ensures chunk.err.None? && |chunk.data| > bufLen ==>
      r.out == Run(c, chunk.data).out && r.err == None
  {
    if chunk.err.Some? then ReadResult([], chunk.err, c)
    else
      var shortRead := |chunk.data| <= bufLen;
      var d := Run(c, chunk.data);
      if shortRead && !d.end.Complete() then ReadResult([], Some(UnexpectedEndOfComment), d.end)
      else ReadResult(d.out, None, d.end)
  }

  /**
    `Decoder` (jsonc.go:20-23): owns one `comment` for its whole life. The
    underlying reader is not a field: each `Read` is handed what that reader
    delivers for the call.
   */
  class Decoder {
    const c: Comment

    /** `NewDecoder` (jsonc.go:129-134). */
    constructor ()
      ensures fresh(c) && c.Value() == Zero
    {
      c := new Comment();
    }

    /**
      `Decoder.Read` (jsonc.go:140-155) with the Go slice `p` given as its
      backing array, of length `cap(p)`, and its length `len`. The underlying
      reader's bytes are written to the front of the array; the slice `p[:n]`
      cannot reach past the array.
     */
    method Read(p: array<byte>, len: nat, chunk: Chunk) returns (n: nat, err: Option<Error>)
      requires len <= p.Length
      requires |chunk.data| <= p.Length
      modifies p, c
      ensures var r := ReadStep(old(c.Value()), len, chunk);
        n == |r.out| && err == r.err && c.Value() == r.next
      ensures var filled := Overwrite(old(p[..]), chunk.data);
        p[..] == if chunk.err.Some? then filled
                 else Overwrite(filled, Run(old(c.Value()), chunk.data).out)
    {
      // The underlying reader writes its bytes into p.
      forall i | 0 <= i < |chunk.data| {
        p[i] := chunk.data[i];
      }
      assert p[..] == Overwrite(old(p[..]), chunk.data);
      if chunk.err.Some? {
        return 0, chunk.err;
      }
      var shortRead := |chunk.data| <= len;
      assert p[..|chunk.data|] == chunk.data;
      n := Decode(p, |chunk.data|, c);
      if shortRead && !c.Complete() {
        return 0, Some(UnexpectedEndOfComment);
      }
      err := None;
    }
  }
}
