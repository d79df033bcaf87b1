/** Properties of the state machine over whole byte sequences. */
module ScannerProperties {
  import opened Scanner

  /** The state a byte sequence leaves the machine in, and what it writes, split at any point. */
  lemma {:induction false} RunAppend(c: Scan, a: seq<byte>, b: seq<byte>)
    ensures Run(c, a + b) ==
      Decoded(Run(c, a).out + Run(Run(c, a).end, b).out, Run(Run(c, a).end, b).end)
    decreases |b|
  {
    if b == [] {
      assert a + b == a;
    } else {
      var b' := b[..|b| - 1];
      RunAppend(c, a, b');
      assert (a + b)[..|a + b| - 1] == a + b';
      assert (a + b)[|a + b| - 1] == b[|b| - 1];
    }
  }

  /**
    `complete` holds exactly when no comment is open: then the next byte can be
    written (a quote always is), and otherwise no byte is written.
   */
  lemma CompleteMeansWriting(c: Scan)
    ensures c.Complete() <==> Step(c, Quote).keep
    ensures !c.Complete() ==> forall s: byte :: !Step(c, s).keep
  {
  }

  /** Extending the input by one byte is one more `Step`. */
  lemma RunSnoc(c: Scan, p: seq<byte>, x: byte)
    ensures Run(c, p + [x]) ==
      var st := Step(Run(c, p).end, x);
      Decoded(if st.keep then Run(c, p).out + [x] else Run(c, p).out, st.next)
  {
    assert (p + [x])[..|p|] == p;
  }

  /** The output is the input with bytes left out: nothing is invented or reordered. */
  lemma {:induction false} RunSubsequence(c: Scan, p: seq<byte>)
    ensures Subsequence(Run(c, p).out, p)
    decreases |p|
  {
    if p != [] {
      var prev := Run(c, p[..|p| - 1]);
      RunSubsequence(c, p[..|p| - 1]);
      if Step(prev.end, p[|p| - 1]).keep {
        assert (prev.out + [p[|p| - 1]])[..|prev.out|] == prev.out;
      }
    }
  }

  /** Well-formedness (`multiLn` only inside a comment) survives any input. */
  lemma {:induction false} RunWf(c: Scan, p: seq<byte>)
    requires c.Wf()
    ensures Run(c, p).end.Wf()
    decreases |p|
  {
    if p != [] {
      RunWf(c, p[..|p| - 1]);
    }
  }

  /** The resting, well-formed state with string flag `j`. */
  function Rest(j: bool): (r: Scan)
    ensures r.Complete() && r.Wf() && r.isJSON == j
  {
    Scan(Stopped, false, j)
  }

  /**
    Decoding is idempotent in its strongest form: feeding the output back in,
    from rest with the same string flag, keeps every byte and ends at rest with
    the same string flag as the first pass.
   */
  lemma {:induction false} RunOutputIsFixpoint(c: Scan, p: seq<byte>)
    ensures Run(Rest(c.isJSON), Run(c, p).out) == Decoded(Run(c, p).out, Rest(Run(c, p).end.isJSON))
    decreases |p|
  {
    if p != [] {
      var prev := Run(c, p[..|p| - 1]);
      var x := p[|p| - 1];
      RunOutputIsFixpoint(c, p[..|p| - 1]);
      if Step(prev.end, x).keep {
        var out := prev.out + [x];
        assert out[..|out| - 1] == prev.out;
      }
    }
  }

  /** Inside a string at rest, bytes other than a quote pass through verbatim. */
  lemma {:induction false} RunInsideString(c: Scan, x: seq<byte>)
    requires c.state == Stopped && c.isJSON
    requires Avoids(x, {Quote})
    ensures Run(c, x) == Decoded(x, c)
    decreases |x|
  {
    if x != [] {
      RunInsideString(c, x[..|x| - 1]);
      assert x[..|x| - 1] + [x[|x| - 1]] == x;
    }
  }

  /** Outside strings at rest, blanks are dropped and nothing changes. */
  lemma {:induction false} RunBlanks(c: Scan, x: seq<byte>)
    requires c.state == Stopped && !c.isJSON
    requires forall i :: 0 <= i < |x| ==> x[i] in Blanks
    ensures Run(c, x) == Decoded([], c)
    decreases |x|
  {
    if x != [] {
      RunBlanks(c, x[..|x| - 1]);
    }
  }

  /** Outside strings at rest, bytes other than blanks, quotes and slashes pass through. */
  lemma {:induction false} RunBare(c: Scan, x: seq<byte>)
    requires c.state == Stopped && !c.isJSON
    requires Avoids(x, Blanks + {Quote, FwdSlash})
    ensures Run(c, x) == Decoded(x, c)
    decreases |x|
  {
    if x != [] {
      RunBare(c, x[..|x| - 1]);
      assert x[..|x| - 1] + [x[|x| - 1]] == x;
    }
  }

  /**
    Inside a comment body, bytes that cannot start a terminator are dropped and
    the state does not move; for a line comment a newline is such a terminator.
   */
  lemma {:induction false} RunCommentBody(c: Scan, x: seq<byte>)
    requires c.state == Started
    requires Avoids(x, {Star, BkdSlash})
    requires !c.multiLn ==> Avoids(x, {NewLine})
    ensures Run(c, x) == Decoded([], c)
    decreases |x|
  {
    if x != [] {
      RunCommentBody(c, x[..|x| - 1]);
    }
  }

  /**
    Once a terminator lead-in (`*` or `\`) has been seen, the comment stays open
    through every byte other than `/` and `n`, newlines included.
   */
  lemma {:induction false} RunAwaitingClose(c: Scan, x: seq<byte>)
    requires c.state == CanStop
    requires Avoids(x, {FwdSlash, CharN})
    ensures Run(c, x) == Decoded([], c)
    decreases |x|
  {
    if x != [] {
      RunAwaitingClose(c, x[..|x| - 1]);
    }
  }

  /**
    After a lone slash, every byte that is neither `*` nor `/` is dropped and
    the machine keeps waiting for the second byte of a comment opener.
   */
  lemma {:induction false} RunLoneSlash(c: Scan, x: seq<byte>)
    requires c.state == CanStart && !c.multiLn
    requires Avoids(x, {Star, FwdSlash})
    ensures Run(c, x) == Decoded([], c)
    decreases |x|
  {
    if x != [] {
      RunLoneSlash(c, x[..|x| - 1]);
    }
  }

  /** Nothing seen while a comment is open is ever written, and the string flag waits. */
  lemma {:induction false} RunInComment(c: Scan, x: seq<byte>)
    requires c.state != Stopped
    requires forall k :: 0 < k < |x| ==> Run(c, x[..k]).end.state != Stopped
    ensures Run(c, x) == Decoded([], Run(c, x).end)
    ensures Run(c, x).end.isJSON == c.isJSON
    decreases |x|
  {
    if x != [] {
      var x' := x[..|x| - 1];
      forall k | 0 < k < |x'| ensures Run(c, x'[..k]).end.state != Stopped {
        assert x'[..k] == x[..k];
      }
      RunInComment(c, x');
      if |x'| > 0 {
        assert Run(c, x[..|x'|]).end.state != Stopped;
        assert x[..|x'|] == x';
      }
    }
  }
}
