/**
  Documents built from lexemes (strings, blanks, other JSON text, comments)
  and what decoding does to them: comments and blanks outside strings go,
  everything else stays byte for byte.
 */
module Lexemes {
  import opened Wrappers
  import opened Scanner
  import opened ScannerProperties
  import opened Jsonc

  /** One piece of a JSON-with-comments document. */
  datatype Lexeme =
    | Quoted(body: seq<byte>)                     // "body"
    | Blank(ws: seq<byte>)                        // spaces, tabs and newlines between tokens
    | Bare(text: seq<byte>)                       // punctuation, numbers, literals
    | BlockComment(body: seq<byte>)               // /*body*/
    | LineComment(body: seq<byte>, escaped: bool) // //body and a newline, or the two bytes \n
  {
    /** The lexeme respects the limits the state machine relies on. */
    predicate Wellformed() {
      match this
      case Quoted(b) => Avoids(b, {Quote})
      case Blank(w) => forall i :: 0 <= i < |w| ==> w[i] in Blanks
      case Bare(t) => Avoids(t, Blanks + {Quote, FwdSlash})
      case BlockComment(b) => Avoids(b, {Star, BkdSlash})
      case LineComment(b, _) => Avoids(b, {Star, BkdSlash, NewLine})
    }

    /** The bytes of the lexeme in the document. */
    function Text(): seq<byte> {
      match this
      case Quoted(b) => [Quote] + b + [Quote]
      case Blank(w) => w
      case Bare(t) => t
      case BlockComment(b) => [FwdSlash, Star] + b + [Star, FwdSlash]
      case LineComment(b, e) => [FwdSlash, FwdSlash] + b + (if e then [BkdSlash, CharN] else [NewLine])
    }

    /** The bytes of the lexeme that strict JSON keeps. */
    function Kept(): seq<byte> {
      match this
      case Quoted(b) => [Quote] + b + [Quote]
      case Bare(t) => t
      case _ => []
    }
  }

  /** A document: a lexeme followed by the rest of the document. */
  datatype Doc = End | Then(head: Lexeme, rest: Doc) {

    /** The bytes of the document. */
    function Source(): seq<byte> {
      match this
      case End => []
      case Then(l, d) => l.Text() + d.Source()
    }

    /** The strict JSON of the document. */
    function Json(): seq<byte> {
      match this
      case End => []
      case Then(l, d) => l.Kept() + d.Json()
    }

    /** Every lexeme of the document is well-formed. */
    predicate Wellformed() {
      match this
      case End => true
      case Then(l, d) => l.Wellformed() && d.Wellformed()
    }

    /** No lexeme of the document contains a byte that could end a comment. */
    predicate Quiet() {
      match this
      case End => true
      case Then(l, d) => Avoids(l.Text(), {Star, BkdSlash, NewLine}) && d.Quiet()
    }

    /** This document followed by `other`. */
    function Append(other: Doc): Doc {
      match this
      case End => other
      case Then(l, d) => Then(l, d.Append(other))
    }
  }

  /** From rest, `[x]` then `y`: the first byte's step followed by the run over `y`. */
  lemma RunCons(c: Scan, x: byte, y: seq<byte>)
    ensures Run(c, [x] + y) ==
      var st := Step(c, x);
      var r := Run(st.next, y);
      Decoded((if st.keep then [x] else []) + r.out, r.end)
  {
    RunSnoc(c, [], x);
    assert [] + [x] == [x];
    RunAppend(c, [x], y);
  }

  /** A string from rest: every byte is kept, and the closing quote returns to rest. */
  lemma RunQuoted(b: seq<byte>)
    requires Avoids(b, {Quote})
    ensures Run(Zero, [Quote] + b + [Quote]) == Decoded([Quote] + b + [Quote], Zero)
  {
    RunInsideString(Zero.(isJSON := true), b);
    RunCons(Zero, Quote, b);
    RunSnoc(Zero, [Quote] + b, Quote);
  }

  /** A block comment from rest: nothing is kept, and the closing star-slash returns to rest. */
  lemma RunBlockComment(b: seq<byte>)
    requires Avoids(b, {Star, BkdSlash})
    ensures Run(Zero, [FwdSlash, Star] + b + [Star, FwdSlash]) == Decoded([], Zero)
  {
    var opener := [FwdSlash, Star] + b;
    RunCommentBody(Scan(Started, true, false), b);
    RunCons(Zero.(state := CanStart), Star, b);
    RunCons(Zero, FwdSlash, [Star] + b);
    assert opener == [FwdSlash] + ([Star] + b);
    RunSnoc(Zero, opener, Star);
    RunSnoc(Zero, opener + [Star], FwdSlash);
    assert opener + [Star, FwdSlash] == opener + [Star] + [FwdSlash];
  }

  /** A line comment from rest: nothing is kept, and a newline or the two bytes `\n` return to rest. */
  lemma RunLineComment(b: seq<byte>, escaped: bool)
    requires Avoids(b, {Star, BkdSlash, NewLine})
    ensures Run(Zero, LineComment(b, escaped).Text()) == Decoded([], Zero)
  {
    var opener := [FwdSlash, FwdSlash] + b;
    RunCommentBody(Scan(Started, false, false), b);
    RunCons(Zero.(state := CanStart), FwdSlash, b);
    RunCons(Zero, FwdSlash, [FwdSlash] + b);
    assert opener == [FwdSlash] + ([FwdSlash] + b);
    if escaped {
      RunSnoc(Zero, opener, BkdSlash);
      RunSnoc(Zero, opener + [BkdSlash], CharN);
      assert LineComment(b, escaped).Text() == opener + [BkdSlash] + [CharN];
    } else {
      RunSnoc(Zero, opener, NewLine);
    }
  }

  /** A well-formed lexeme, read from rest, returns to rest having written exactly what JSON keeps. */
  lemma RunLexeme(l: Lexeme)
    requires l.Wellformed()
    ensures Run(Zero, l.Text()) == Decoded(l.Kept(), Zero)
  {
    match l
    case Quoted(b) => RunQuoted(b);
    case Blank(w) => RunBlanks(Zero, w);
    case Bare(t) => RunBare(Zero, t);
    case BlockComment(b) => RunBlockComment(b);
    case LineComment(b, e) => RunLineComment(b, e);
  }

  /**
    Decoding a document of well-formed lexemes removes every comment and every
    blank outside strings, and leaves strings and all other text untouched.
   */
  lemma {:induction false} RunDoc(d: Doc)
    requires d.Wellformed()
    ensures Run(Zero, d.Source()) == Decoded(d.Json(), Zero)
  {
    match d
    case End =>
    case Then(l, rest) =>
      RunLexeme(l);
      RunDoc(rest);
      RunAppend(Zero, l.Text(), rest.Source());
  }

  /** The same, as the result of `DecodeBytes` and `DecodeString`. */
  lemma StripDoc(d: Doc)
    requires d.Wellformed()
    ensures Stripped(d.Source()) == Ok(d.Json())
  {
    RunDoc(d);
  }

  /** After a well-formed document, the machine carries on from rest with the document's JSON written. */
  lemma AfterDoc(d: Doc, t: seq<byte>)
    requires d.Wellformed()
    ensures Run(Zero, d.Source() + t) == Decoded(d.Json() + Run(Zero, t).out, Run(Zero, t).end)
  {
    RunDoc(d);
    RunAppend(Zero, d.Source(), t);
  }

  /** Opening a comment of either kind and reading a body without terminator bytes drops everything. */
  lemma RunOpen(multiLn: bool, body: seq<byte>)
    requires Avoids(body, {Star, BkdSlash}) && (!multiLn ==> Avoids(body, {NewLine}))
    ensures Run(Zero, [FwdSlash, if multiLn then Star else FwdSlash] + body)
      == Decoded([], Scan(Started, multiLn, false))
  {
    var second := if multiLn then Star else FwdSlash;
    RunCons(Zero, FwdSlash, [second] + body);
    RunCons(Zero.(state := CanStart), second, body);
    RunCommentBody(Scan(Started, multiLn, false), body);
    assert [FwdSlash, second] + body == [FwdSlash] + ([second] + body);
  }

  /**
    A comment opened after well-formed text and never closed, because its body
    holds no terminator, makes the decode fail.
   */
  lemma UnterminatedComment(d: Doc, multiLn: bool, body: seq<byte>)
    requires d.Wellformed()
    requires Avoids(body, {Star, BkdSlash}) && (!multiLn ==> Avoids(body, {NewLine}))
    ensures Stripped(d.Source() + [FwdSlash, if multiLn then Star else FwdSlash] + body)
      == Err(UnexpectedEndOfComment)
  {
    var open := [FwdSlash, if multiLn then Star else FwdSlash] + body;
    RunOpen(multiLn, body);
    AfterDoc(d, open);
    assert d.Source() + [FwdSlash, if multiLn then Star else FwdSlash] + body == d.Source() + open;
  }

  /** A quiet document holds no byte that could end a comment. */
  lemma {:induction false} QuietSource(d: Doc)
    requires d.Quiet()
    ensures Avoids(d.Source(), {Star, BkdSlash, NewLine})
  {
    match d
    case End =>
    case Then(l, rest) =>
      QuietSource(rest);
      AvoidsAppend(l.Text(), rest.Source(), {Star, BkdSlash, NewLine});
  }

  /** Appending documents appends their bytes. */
  lemma {:induction false} AppendSource(a: Doc, b: Doc)
    ensures a.Append(b).Source() == a.Source() + b.Source()
  {
    match a
    case End =>
    case Then(l, rest) =>
      AppendSource(rest, b);
      assert l.Text() + (rest.Source() + b.Source()) == l.Text() + rest.Source() + b.Source();
  }

  /** Appending documents appends their JSON. */
  lemma {:induction false} AppendJson(a: Doc, b: Doc)
    ensures a.Append(b).Json() == a.Json() + b.Json()
  {
    match a
    case End =>
    case Then(l, rest) =>
      AppendJson(rest, b);
      assert l.Kept() + (rest.Json() + b.Json()) == l.Kept() + rest.Json() + b.Json();
  }

  /** An appended document is well-formed, or quiet, exactly when both parts are. */
  lemma {:induction false} AppendShape(a: Doc, b: Doc)
    ensures a.Append(b).Wellformed() == (a.Wellformed() && b.Wellformed())
    ensures a.Append(b).Quiet() == (a.Quiet() && b.Quiet())
  {
    match a
    case End =>
    case Then(l, rest) =>
      AppendShape(rest, b);
  }

  /** All of the above at once. */
  lemma DocAppend(a: Doc, b: Doc)
    ensures a.Append(b).Source() == a.Source() + b.Source()
    ensures a.Append(b).Json() == a.Json() + b.Json()
    ensures a.Append(b).Wellformed() == (a.Wellformed() && b.Wellformed())
    ensures a.Append(b).Quiet() == (a.Quiet() && b.Quiet())
  {
    AppendSource(a, b);
    AppendJson(a, b);
    AppendShape(a, b);
  }

  lemma AvoidsAppend(a: seq<byte>, b: seq<byte>, bad: set<byte>)
    requires Avoids(a, bad) && Avoids(b, bad)
    ensures Avoids(a + b, bad)
  {
    forall i | 0 <= i < |a + b| ensures (a + b)[i] !in bad {
      if i >= |a| {
        assert (a + b)[i] == b[i - |a|];
      }
    }
  }
}
