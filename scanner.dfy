/**
  The comment-stripping state machine of jsonc.go, as pure functions.

  `Scan` is the value of the source's `comment` struct, `Step` is one iteration
  of the loop in `decode` (the byte is kept or dropped, the state changes), and
  `Run` folds `Step` over a byte sequence.
 */
module Scanner {

  /** A Go `byte`. */
  newtype byte = x: int | 0 <= x < 256

  // Byte values the machine reacts to (jsonc.go:42-52).
  const Tab: byte := 9
  const NewLine: byte := 10
  const Space: byte := 32
  const Quote: byte := 34
  const Star: byte := 42
  const FwdSlash: byte := 47
  const BkdSlash: byte := 92
  const CharN: byte := 110

  /** Bytes that are dropped when seen outside a string while no comment is open. */
  const Blanks: set<byte> := {Space, Tab, NewLine}

  /** The four phases; `Stopped` is the zero value and the resting state. */
  datatype State = Stopped | CanStart | Started | CanStop

  /** The value of a `comment` struct. */
  datatype Scan = Scan(state: State, multiLn: bool, isJSON: bool) {

    /** `comment.complete` (jsonc.go:63-65): scanning may legally end here. */
    predicate Complete() {
      state == Stopped
    }

    /** `multiLn` is only set while a comment body is open. */
    predicate Wf() {
      (state == Stopped || state == CanStart) ==> !multiLn
    }

    /** `comment.reset`: back to rest, forgetting the comment kind but not the string flag. */
    function Reset(): (r: Scan)
      ensures r.Complete() && r.Wf()
      ensures r.isJSON == isJSON
    {
      this.(state := Stopped, multiLn := false)
    }
  }

  /** The zero value `comment{}`. */
  const Zero := Scan(Stopped, false, false)

  /** What one byte does: whether it is written to the output, and the state after it. */
  datatype Outcome = Outcome(keep: bool, next: Scan)

  /** One iteration of the loop in `decode` (jsonc.go:71-121), on byte `s` in state `c`. */
  function Step(c: Scan, s: byte): (r: Outcome)
    // A byte is kept exactly when no comment is open and it is inside a string
    // or is neither a blank nor a slash; every quote seen at rest is kept.
    ensures r.keep <==> c.state == Stopped && (c.isJSON || s !in Blanks + {FwdSlash})
    // The string flag flips on a quote seen at rest and on nothing else.
    ensures r.next.isJSON == (if c.state == Stopped && s == Quote then !c.isJSON else c.isJSON)
    // At rest: only a slash outside a string can open a comment.
    ensures c.state == Stopped ==>
      r.next.multiLn == c.multiLn &&
      r.next.state == (if !c.isJSON && s == FwdSlash then CanStart else Stopped)
    // After a slash: `*` or `/` opens the comment; every byte here decides the kind.
    ensures c.state == CanStart ==>
      r.next.multiLn == (s == Star) &&
      r.next.state == (if s == Star || s == FwdSlash then Started else CanStart)
    // In a body: `*` or `\` may start the terminator; a newline ends a line comment.
    ensures c.state == Started ==>
      r.next.multiLn == c.multiLn &&
      r.next.state == (if s == Star || s == BkdSlash then CanStop
                       else if s == NewLine && !c.multiLn then Stopped
                       else Started)
    // After a terminator lead-in: only `/` or `n` ends the comment, anything else waits.
    ensures c.state == CanStop ==>
      r.next == (if s == FwdSlash || s == CharN then c.Reset() else c)
    // The machine never leaves the well-formed states.
    ensures c.Wf() ==> r.next.Wf()
  {
    match c.state
    case Stopped =>
      var c' := if s == Quote then c.(isJSON := !c.isJSON) else c;
      if c'.isJSON then Outcome(true, c')
      else if s == Space || s == Tab || s == NewLine then Outcome(false, c')
      else if s == FwdSlash then Outcome(false, c'.(state := CanStart))
      else Outcome(true, c')
    case CanStart =>
      var c' := if s == Star || s == FwdSlash then c.(state := Started) else c;
      Outcome(false, c'.(multiLn := s == Star))
    case Started =>
      var c' := if s == Star || s == BkdSlash then c.(state := CanStop) else c;
      Outcome(false, if s == NewLine && !c'.multiLn then c'.Reset() else c')
    case CanStop =>
      Outcome(false, if s == FwdSlash || s == CharN then c.Reset() else c)
  }

  /** The output written so far and the state reached. */
  datatype Decoded = Decoded(out: seq<byte>, end: Scan)

  /**
    `decode` over `p` from state `c`: the kept bytes in order and the final state.
    Defined from the end so that it extends one byte at a time, as the loop does.
   */
  function Run(c: Scan, p: seq<byte>): (r: Decoded)
    ensures |r.out| <= |p|
    decreases |p|
  {
    if p == [] then Decoded([], c)
    else
      var prev := Run(c, p[..|p| - 1]);
      var st := Step(prev.end, p[|p| - 1]);
      Decoded(if st.keep then prev.out + [p[|p| - 1]] else prev.out, st.next)
  }

  /** Every byte of `x` avoids `bad`. */
  predicate Avoids(x: seq<byte>, bad: set<byte>) {
    forall i :: 0 <= i < |x| ==> x[i] !in bad
  }

  /** `a` is `b` with some bytes left out, the rest in their original order. */
  predicate Subsequence<T(==)>(a: seq<T>, b: seq<T>)
    decreases |b|
  {
    if b == [] then a == []
    else
      (a != [] && a[|a| - 1] == b[|b| - 1] && Subsequence(a[..|a| - 1], b[..|b| - 1]))
      || Subsequence(a, b[..|b| - 1])
  }
}
