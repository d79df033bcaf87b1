/** What the batch entry points promise about whole documents. */
module BatchProperties {
  import opened Wrappers
  import opened Scanner
  import opened ScannerProperties
  import opened Jsonc

  /** A successful decode only leaves bytes out: the result is a subsequence of the input. */
  lemma StrippedIsSubsequence(p: seq<byte>)
    requires Stripped(p).Ok?
    ensures Subsequence(Stripped(p).value, p)
    ensures |Stripped(p).value| <= |p|
  {
    RunSubsequence(Zero, p);
  }

  /** Decoding what a successful decode produced changes nothing and succeeds again. */
  lemma StrippedIdempotent(p: seq<byte>)
    requires Stripped(p).Ok?
    ensures Stripped(Stripped(p).value) == Stripped(p)
  {
    RunOutputIsFixpoint(Zero, p);
    assert Rest(Zero.isJSON) == Zero;
  }
}
