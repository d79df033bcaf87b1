/**
  The less obvious behaviour of the comment machine, stated for any
  well-formed document prefix: what a `*` inside a line comment, a literal
  backslash, a lone slash, an escaped quote and an unclosed string do.
 */
module Quirks {
  import opened Wrappers
  import opened Scanner
  import opened ScannerProperties
  import opened Jsonc
  import opened Lexemes

  /**
    A `*` inside a line comment holds the comment open past the end of the
    line: no newline ends it, only a `/` or an `n` does (jsonc.go:115-119).
    Everything after the star is dropped and the decode fails.
   */
  lemma StarHoldsLineComment(d: Doc, body: seq<byte>, rest: seq<byte>)
    requires d.Wellformed()
    requires Avoids(body, {Star, BkdSlash, NewLine})
    requires Avoids(rest, {FwdSlash, CharN})
    ensures Run(Zero, d.Source() + ([FwdSlash, FwdSlash] + body + [Star] + rest))
      == Decoded(d.Json(), Scan(CanStop, false, false))
    ensures Stripped(d.Source() + ([FwdSlash, FwdSlash] + body + [Star] + rest))
      == Err(UnexpectedEndOfComment)
  {
    var opener := [FwdSlash, FwdSlash] + body;
    RunOpen(false, body);
    RunSnoc(Zero, opener, Star);
    RunAwaitingClose(Scan(CanStop, false, false), rest);
    RunAppend(Zero, opener + [Star], rest);
    AfterDoc(d, opener + [Star] + rest);
    assert d.Json() + [] == d.Json();
  }

  /** A comment closed by a lead-in byte and a closing byte leaves the machine at rest, having written nothing. */
  lemma RunClosed(multiLn: bool, body: seq<byte>, lead: byte, close: byte)
    requires Avoids(body, {Star, BkdSlash}) && (!multiLn ==> Avoids(body, {NewLine}))
    requires lead == Star || lead == BkdSlash
    requires close == FwdSlash || close == CharN
    ensures Run(Zero, [FwdSlash, if multiLn then Star else FwdSlash] + body + [lead, close]) == Decoded([], Zero)
  {
    var opener := [FwdSlash, if multiLn then Star else FwdSlash] + body;
    RunOpen(multiLn, body);
    RunSnoc(Zero, opener, lead);
    RunSnoc(Zero, opener + [lead], close);
    assert opener + [lead, close] == opener + [lead] + [close];
  }

  /**
    Any of `*` or `\` followed by any of `/` or `n` closes a comment of either
    kind: a literal backslash and `n` ends a block comment, and a star and
    slash end a line comment (jsonc.go:105-121). Decoding then carries on
    from rest.
   */
  lemma AnyTerminatorCloses(d: Doc, multiLn: bool, body: seq<byte>, lead: byte, close: byte, rest: seq<byte>)
    requires d.Wellformed()
    requires Avoids(body, {Star, BkdSlash}) && (!multiLn ==> Avoids(body, {NewLine}))
    requires lead == Star || lead == BkdSlash
    requires close == FwdSlash || close == CharN
    ensures Run(Zero, d.Source() + ([FwdSlash, if multiLn then Star else FwdSlash] + body + [lead, close] + rest))
      == Decoded(d.Json() + Run(Zero, rest).out, Run(Zero, rest).end)
  {
    var closed := [FwdSlash, if multiLn then Star else FwdSlash] + body + [lead, close];
    var r := Run(Zero, rest);
    assert Run(Zero, closed + rest) == r by {
      RunClosed(multiLn, body, lead, close);
      RunAppend(Zero, closed, rest);
      assert [] + r.out == r.out;
    }
    AfterDoc(d, closed + rest);
  }

  /**
    A slash outside a string that is not followed by `*` or `/` swallows every
    later byte up to the next `*` or `/`, strings included (jsonc.go:97-103),
    and a decode that ends there fails.
   */
  lemma LoneSlashSwallows(d: Doc, rest: seq<byte>)
    requires d.Wellformed()
    requires Avoids(rest, {Star, FwdSlash})
    ensures Run(Zero, d.Source() + ([FwdSlash] + rest)) == Decoded(d.Json(), Scan(CanStart, false, false))
    ensures Stripped(d.Source() + ([FwdSlash] + rest)) == Err(UnexpectedEndOfComment)
  {
    RunCons(Zero, FwdSlash, rest);
    RunLoneSlash(Scan(CanStart, false, false), rest);
    AfterDoc(d, [FwdSlash] + rest);
    assert d.Json() + [] == d.Json();
  }

  /**
    A string that is never closed is not an error: only the comment state is
    checked at the end (jsonc.go:63-65, 163-172), so its bytes are all kept.
   */
  lemma UnclosedStringAccepted(d: Doc, x: seq<byte>)
    requires d.Wellformed()
    requires Avoids(x, {Quote})
    ensures Stripped(d.Source() + ([Quote] + x)) == Ok(d.Json() + ([Quote] + x))
  {
    RunCons(Zero, Quote, x);
    RunInsideString(Zero.(isJSON := true), x);
    AfterDoc(d, [Quote] + x);
  }

  /**
    The machine counts quotes and knows nothing of escapes: the quote of a
    `\"` escape ends the string (jsonc.go:73-76) and is written as a bare
    byte (jsonc.go:93-95), and decoding carries on from rest, outside any
    string, after it.
   */
  lemma EscapedQuoteClosesString(d: Doc, x: seq<byte>, rest: seq<byte>)
    requires d.Wellformed()
    requires Avoids(x, {Quote})
    ensures Run(Zero, d.Source() + ([Quote] + x + [BkdSlash, Quote] + rest))
      == Decoded(d.Json() + ([Quote] + x + [BkdSlash, Quote]) + Run(Zero, rest).out, Run(Zero, rest).end)
  {
    var s := [Quote] + x + [BkdSlash, Quote];
    var r := Run(Zero, rest);
    assert Run(Zero, s + rest) == Decoded(s + r.out, r.end) by {
      assert Avoids(x + [BkdSlash], {Quote}) by {
        assert forall i :: 0 <= i < |x| ==> (x + [BkdSlash])[i] == x[i];
      }
      RunQuoted(x + [BkdSlash]);
      assert [Quote] + (x + [BkdSlash]) + [Quote] == s;
      RunAppend(Zero, s, rest);
    }
    AfterDoc(d, s + rest);
    assert d.Json() + (s + r.out) == d.Json() + s + r.out;
  }

  /** So a blank inside the JSON string `"\" "` is dropped, as if it stood between strings. */
  lemma EscapedQuoteDropsBlank()
    ensures Stripped([Quote, BkdSlash, Quote, Space, Quote, Quote]) == Ok([Quote, BkdSlash, Quote, Quote, Quote])
  {
    var rest := [Space, Quote, Quote];
    assert Run(Zero, rest) == Decoded([Quote, Quote], Zero) by {
      RunQuoted([]);
      assert [Quote] + [] + [Quote] == [Quote, Quote];
      RunCons(Zero, Space, [Quote, Quote]);
      assert [Space] + [Quote, Quote] == rest;
      assert Step(Zero, Space) == Outcome(false, Zero);
    }
    EscapedQuoteClosesString(End, [], rest);
    assert End.Source() + ([Quote] + [] + [BkdSlash, Quote] + rest) == [Quote, BkdSlash, Quote, Space, Quote, Quote];
    assert End.Json() + ([Quote] + [] + [BkdSlash, Quote]) + [Quote, Quote] == [Quote, BkdSlash, Quote, Quote, Quote];
  }

  /** And a comment after the string `"\""` is inside a string for the machine, so it is kept verbatim. */
  lemma EscapedQuoteKeepsComment()
    ensures Stripped([Quote, BkdSlash, Quote, Quote, FwdSlash, Star, Star, FwdSlash])
      == Ok([Quote, BkdSlash, Quote, Quote, FwdSlash, Star, Star, FwdSlash])
  {
    var comment := [FwdSlash, Star, Star, FwdSlash];
    var rest := [Quote] + comment;
    UnclosedStringAccepted(End, comment);
    assert End.Source() + rest == rest && End.Json() + rest == rest;
    EscapedQuoteClosesString(End, [], rest);
    assert End.Source() + ([Quote] + [] + [BkdSlash, Quote] + rest)
      == [Quote, BkdSlash, Quote, Quote, FwdSlash, Star, Star, FwdSlash];
    assert End.Json() + ([Quote] + [] + [BkdSlash, Quote]) + rest
      == [Quote, BkdSlash, Quote, Quote, FwdSlash, Star, Star, FwdSlash];
  }
}
