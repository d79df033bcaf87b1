# go-jsonc in Dafny

A model of package `jsonc`, which turns JSON with comments (`/* ... */` and
`// ...` up to a newline) into plain JSON. It drops the comments and all
blanks outside strings, and compacts the kept bytes in place at the front of
the caller's buffer.

The heart of the package is a four-state machine, the `comment` struct
(`stopped`, `canStart`, `started`, `canStop`, plus the flags `multiLn` and
`isJSON`). It is modelled twice:

- as the value `Scanner.Scan` with the pure per-byte function `Scanner.Step`
  and its fold `Scanner.Run`;
- as the mutable class `Jsonc.Comment`, whose `Feed` method is the body of
  the `switch` in `decode` and is proved to perform exactly one `Step`.

`Jsonc.Decode` is the in-place loop over an `array<byte>`. It is proved to
write `Run`'s output over the front of the array, leave the rest alone,
return the kept count and leave the `Comment` in `Run`'s final state.
`DecodeBytes`, `DecodeString` and `Decoder.Read` are built on it as the
source builds them. The pure `Jsonc.Stripped` and `Jsonc.ReadStep` say what
they return.

The properties are in these modules:

- `ScannerProperties`: what `Run` does on whole byte sequences.
- `BatchProperties`: the output is a subsequence of the input, and decoding
  again changes nothing.
- `Streaming`: successful `Read`s agree with one batch decode, but a
  comment split across two reads is rejected.
- `Lexemes`: a document made of well-formed strings, blanks, bare text and
  comments decodes to exactly its strict JSON.
- `Quirks`: the less obvious behaviour of the machine, among them that it counts quotes and knows nothing of `\"` escapes.
- `TestVectors`: the six documents of `jsonc_test.go` and the results its
  tests expect.

The underlying `io.Reader` is not modelled as I/O. Each `Read` call is given
a `Jsonc.Chunk`, which holds the bytes the reader wrote into `p` and its
error. Bytes are the newtype `Scanner.byte` (0..255). A Go sub-slice `p[:n]`
passed to `decode` is modelled as the array together with the length `n`.

## Model

| member | source | states |
|---|---|---|
| Scanner.Scan.Reset | jsonc.go:58-61 | reset moves to `stopped`, clears `multiLn` and keeps `isJSON`; the result is complete and well-formed |
| Scanner.Step | jsonc.go:71-121 | a byte is kept iff the state is `stopped` and the byte is inside a string or is not a blank or a slash. `isJSON` flips exactly on a quote seen in `stopped`. The transitions: `stopped` goes to `canStart` on a slash outside a string; `canStart` goes to `started` on `*` or `/` and sets `multiLn` to (byte is `*`) every time; `started` goes to `canStop` on `*` or `\` and resets on a newline when `!multiLn`; `canStop` resets on `/` or `n` and otherwise stays. Well-formedness is preserved |
| Scanner.Run | jsonc.go:67-126 | the kept bytes of one pass are never more than the input |
| ScannerProperties.RunAppend | jsonc.go:67-126 | decoding `a + b` is decoding `a` and then `b` from the state `a` left, with the two outputs concatenated (the reason `Read` can carry `d.c` across calls) |
| ScannerProperties.RunSubsequence | jsonc.go:67-126 | the output is a subsequence of the input: bytes are only dropped, never invented or reordered |
| ScannerProperties.RunWf | jsonc.go:97-121 | from a well-formed state, `multiLn` is never set outside an open comment body |
| ScannerProperties.RunOutputIsFixpoint | jsonc.go:67-126 | decoding the output again, from rest with the same string flag, keeps every byte and ends at rest with the same string flag as the first pass |
| ScannerProperties.RunInsideString | jsonc.go:73-82 | inside a string, every byte other than a quote is kept verbatim (slashes, spaces, tabs, newlines included) and the state does not change |
| ScannerProperties.RunBlanks | jsonc.go:84-87 | outside strings at rest, spaces, tabs and newlines are dropped and the state does not change |
| ScannerProperties.RunBare | jsonc.go:89-95 | outside strings at rest, bytes other than blanks, quotes and slashes are kept and the state does not change |
| ScannerProperties.RunCommentBody | jsonc.go:105-113 | in a comment body, bytes other than `*` and `\` (and newline for a line comment) are dropped and the state does not change |
| ScannerProperties.RunAwaitingClose | jsonc.go:115-119 | in `canStop`, every byte other than `/` and `n`, newlines included, is dropped and the state does not change |
| ScannerProperties.RunLoneSlash | jsonc.go:97-103 | after a lone slash, every byte other than `*` and `/` is dropped and the machine stays in `canStart` |
| ScannerProperties.RunInComment | jsonc.go:97-121 | while no prefix returns to `stopped`, nothing is written and `isJSON` does not change |
| Jsonc.Comment.constructor | jsonc.go:26-40 | the zero `comment{}` is `stopped`, with both flags false |
| Jsonc.Comment.Complete | jsonc.go:63-65 | `complete` holds exactly when the state is `stopped`, which is exactly when the machine would write a quote next |
| ScannerProperties.CompleteMeansWriting | jsonc.go:63-65 | on the value: a scan is complete iff its next quote is written, and a scan that is not complete writes no byte at all |
| Jsonc.Comment.Reset | jsonc.go:58-61 | the fields become `stopped` and `!multiLn`; `isJSON` is kept |
| Jsonc.Comment.Feed | jsonc.go:71-121 | updating the fields in place and returning keep-or-drop is exactly one `Step` of the old value |
| Jsonc.Decode | jsonc.go:67-126 | returns `i <= len` equal to the number of kept bytes. The first `i` array cells hold the kept bytes in order, every other cell is unchanged, and the struct ends in `Run`'s final state |
| Jsonc.Stripped | jsonc.go:163-172 | a whole-document decode from `comment{}` succeeds iff the pass ends at rest, with exactly the kept bytes and never more than the input; the only failure is `ErrUnexpectedEndOfComment` |
| Jsonc.DecodeBytes | jsonc.go:163-172 | from a fresh state, the buffer is compacted and the result is the kept count with no error when the final state is `stopped`, else `(0, ErrUnexpectedEndOfComment)` |
| Jsonc.DecodeString | jsonc.go:180-196 | returns exactly the kept bytes and no error, or the empty text and the error |
| Jsonc.ReadStep | jsonc.go:140-155 | a reader error is returned with nothing decoded and the state untouched. Otherwise the state advances over the chunk. When the reader returned at most `len(p)` bytes, the call returns the kept bytes iff it ends at rest, else `(0, ErrUnexpectedEndOfComment)`. When it returned more, `shortRead` is false and the kept bytes come back with no error even inside a comment |
| Jsonc.Decoder.constructor | jsonc.go:129-134 | a new decoder owns a fresh, zero `comment` |
| Jsonc.Decoder.Read | jsonc.go:140-155 | for a slice of length `len` over an array of length `cap(p)`: the reader's bytes land at the front of the array. On a reader error the call returns `(0, err)` and leaves the state alone. Otherwise `p[:n]` is decoded in place from the persisted state, and `n`, the error and the new state are those of `ReadStep` for `len` |
| BatchProperties.StrippedIsSubsequence | jsonc.go:163-172 | a successful decode's result is a subsequence of its input and no longer than it |
| BatchProperties.StrippedIdempotent | jsonc.go:163-172 | decoding a successful result again succeeds and returns it unchanged |
| Streaming.Stream | jsonc.go:140-155 | successive reads from one decoder, from a reader that reports no error, never return more bytes than were read, and fail only with `ErrUnexpectedEndOfComment` |
| Streaming.StreamSound | jsonc.go:140-155 | reads that all succeed produce, concatenated, what one pass over their concatenated bytes produces, and leave the machine at rest |
| Streaming.StreamAgreesWithBatch | jsonc.go:140-172 | a stream of successful reads from a new decoder returns what `DecodeBytes` returns for the whole document |
| Streaming.OneReadIsBatch | jsonc.go:140-172 | one read of a whole document that fits the buffer returns exactly what `DecodeBytes` returns |
| Streaming.SplitCommentRejected | jsonc.go:147-152 | `/**/` decodes in one batch, but read as `/*` and `*/` into a 2-byte buffer it fails on the first read |
| Lexemes.RunQuoted | jsonc.go:73-82 | a string whose body holds no `"` byte (so no `\"` escape) is kept byte for byte from rest, quotes included, and returns to rest (an escaped quote: the `Quirks.EscapedQuote` rows below) |
| Lexemes.RunBlockComment | jsonc.go:97-121 | a block comment whose body holds no `*` or `\` is dropped entirely from rest and returns to rest (other bodies: the `Quirks` rows below) |
| Lexemes.RunLineComment | jsonc.go:97-121 | a line comment whose body holds no `*`, `\` or newline, ended by a newline or by the two bytes `\` `n`, is dropped entirely from rest and returns to rest (other bodies: the `Quirks` rows below) |
| Lexemes.RunLexeme | jsonc.go:71-121 | any well-formed lexeme from rest writes exactly the bytes strict JSON keeps and returns to rest |
| Lexemes.RunDoc | jsonc.go:67-126 | a document of well-formed lexemes decodes to exactly its strict JSON and ends at rest |
| Lexemes.StripDoc | jsonc.go:163-172 | `DecodeBytes` and `DecodeString` succeed on such a document with exactly its strict JSON |
| Lexemes.AfterDoc | jsonc.go:67-126 | after such a document, decoding carries on from rest with the document's JSON already written |
| Lexemes.RunOpen | jsonc.go:97-113 | `/*` or `//` followed by a body without terminator bytes writes nothing and leaves the machine in `started` with the right comment kind |
| Lexemes.UnterminatedComment | jsonc.go:163-169 | a comment opened after well-formed text, whose body holds no terminator lead-in (`*` or `\`, and for a line comment no newline), makes the decode fail with `ErrUnexpectedEndOfComment` |
| Quirks.StarHoldsLineComment | jsonc.go:105-119 | a `*` in a line comment holds it open past any newline up to a `/` or `n`; nothing after the star is kept and the decode fails |
| Quirks.RunClosed | jsonc.go:105-121 | either comment kind is closed by any of `*` or `\` followed by any of `/` or `n`, and the machine is back at rest with nothing written |
| Quirks.AnyTerminatorCloses | jsonc.go:105-121 | after such a close, decoding carries on from rest; so `\` `n` ends a block comment and `*/` ends a line comment |
| Quirks.LoneSlashSwallows | jsonc.go:97-103 | a slash outside a string not followed by `*` or `/` drops every later byte up to the next `*` or `/`, strings included; the decode then fails |
| Quirks.UnclosedStringAccepted | jsonc.go:63-65 | an unclosed string is not an error, since only the comment state is checked; all its bytes are kept |
| Quirks.EscapedQuoteClosesString | jsonc.go:73-95 | the machine counts quotes and knows nothing of escapes: the quote of a `\"` escape ends the string, and decoding carries on from rest, outside any string |
| Quirks.EscapedQuoteDropsBlank | jsonc.go:73-95 | so the blank inside the JSON string `"\" "` is dropped: `"\" ""` strips to `"\"""` |
| Quirks.EscapedQuoteKeepsComment | jsonc.go:73-82 | and after the JSON string `"\""` the comment `/**/` lies inside a string for the machine, so it is kept verbatim |
| TestVectors.ValidBlockDecodes | jsonc_test.go:21 | validBlock, written piece by piece as its Go literal, is 159 bytes and decodes without error to the bytes of the literal expected at jsonc_test.go:177, also written piece by piece (110 bytes); this is also the DecodeBytes and DecodeString case at jsonc_test.go:137-141 and 174-178 |
| TestVectors.ValidSingleDecodes | jsonc_test.go:15 | validSingle, 163 bytes whose comment ends with the two characters `\` `n` of the raw literal, decodes without error to the same JSON |
| TestVectors.ValidSingleEscDecodes | jsonc_test.go:18 | validSingleESC, 162 bytes whose comment ends with a newline byte, decodes without error to the same JSON |
| TestVectors.InvalidBlockFails | jsonc_test.go:22 | invalidBlock fails with `ErrUnexpectedEndOfComment` (jsonc_test.go:143-148 and 180-185) |
| TestVectors.InvalidSingleFails | jsonc_test.go:16 | invalidSingle fails with `ErrUnexpectedEndOfComment` |
| TestVectors.InvalidSingleEscFails | jsonc_test.go:19 | invalidSingleESC fails with `ErrUnexpectedEndOfComment` |
| TestVectors.ReadValidSingle | jsonc_test.go:38-43 | `Read` on a fresh decoder with a buffer of `len(validSingle)` returns the 110 expected bytes, no error, and leaves the decoder at rest |
| TestVectors.ReadInvalidSingle | jsonc_test.go:45-50 | `Read` on invalidSingle returns nothing and `ErrUnexpectedEndOfComment` |
| TestVectors.ReadValidSingleEsc | jsonc_test.go:52-57 | `Read` on validSingleESC returns the 110 expected bytes and no error |
| TestVectors.ReadInvalidSingleEsc | jsonc_test.go:59-64 | `Read` on invalidSingleESC returns nothing and `ErrUnexpectedEndOfComment` |
| TestVectors.ReadValidBlock | jsonc_test.go:66-71 | `Read` on validBlock returns the 110 expected bytes and no error |
| TestVectors.ReadInvalidBlock | jsonc_test.go:73-78 | `Read` on invalidBlock returns nothing and `ErrUnexpectedEndOfComment` |
| TestVectors.ReadErrorVector | jsonc_test.go:80-86 | a reader that returns validBlock together with an error makes `Read` return nothing and that error, with the state untouched |

## Left out

- The `io.Reader` itself: each call's bytes and error are a `Chunk` parameter of `Decoder.Read`, and the reader is not a field of `Decoder`.
- Jsonc.Decoder.Read: requires the reader to return no more bytes than `cap(p)`, the length of the backing array. A reader that returns more makes `p[:n]` panic in Go, and that panic is not modelled. A count between `len(p)` and `cap(p)` is modelled: it makes `shortRead` false.
- Jsonc.Decoder.Read: assumes the reader writes exactly `chunk.data` at the front of the array and leaves every other cell alone, so the ensures about the cells past the data relies on that. An `io.Reader` may use all of `p` as scratch space; the model does not cover such a reader.
- Jsonc.DecodeString: the string-to-bytes copy (jsonc.go:181) is modelled as a new array holding the string's bytes.
- Jsonc.DecodeString: the `unsafe`/`reflect` conversion of `p[:n]` back to a string (jsonc.go:188-195) is modelled as taking the sequence `p[..n]`. Aliasing and zero copy have no meaning in the model.
- Error values are compared by identity only: `ErrUnexpectedEndOfComment` is a constructor, and a reader's error is abstracted as `ReaderError(name)`.
- The `shortRead` test (jsonc.go:147) is kept in `ReadStep`'s body exactly as written. It is false only for a reader that breaks the `io.Reader` contract by returning more than `len(p)` bytes.
- JSON validity of the output is not checked by the package (jsonc.go:160-162) and is not modelled.
- TestVectors: each Go literal of jsonc_test.go:15-22 and 177 is written as a concatenation of short string pieces, not as one literal. That the pieces, in order, are the literal's characters is a matter of reading them. Each document is proved equal, piece by piece, to its lexeme document, and its decoded output to the pieces of the literal at jsonc_test.go:177.
- benchmarks/jsonc_bench_test.go and examples/main.go are not part of this model: one times calls against another library, the other is a demo program doing file I/O and JSON unmarshalling.
- Concurrency: there is none in the package, and a `Decoder` has one owner.
