# goScanLine core in Dafny

This project models the core of the Go package `goscanline` (file
`scanline.go`). A `Scanner` reads one line at a time from an input stream,
removes a single trailing line terminator and converts the line to the type
of a caller-supplied destination. The supported destinations are strings,
booleans, signed and unsigned integers of every width, and types that
implement `encoding.TextUnmarshaler`. `ScanPrompt` first writes a prompt to
the prompt writer.

The project has five modules:

- `Errors` (errors.dfy) defines the error kinds the package returns: `io.EOF` and the sentinels `ErrParse` and `ErrUnsupported`. It also defines `Option` and `Result`.
- `Strconv` (strconv.dfy) models the parts of Go's standard library that the conversions call:
  - `strings.TrimSpace`, with white space as `unicode.IsSpace` defines it;
  - `strconv.ParseBool`;
  - `strconv.ParseInt` and `strconv.ParseUint` in base 10, for the bit sizes `assign` passes (0, 8, 16, 32 and 64);
  - the renderings `FormatBool`, `FormatInt` and `FormatUint` that these invert.
- `Lines` (lines.dfy) covers line reading:
  - `trimNewLine`;
  - what `bufio.Reader.ReadString('\n')` consumes (`RawLine`);
  - `ReadLine` as a function of the whole input and the read position (`ReadLineFrom`).
- `Assignment` (assignment.dfy) models the type-directed dispatcher `assign` together with `parseInt` and `parseUint`:
  - the destination pointer's dynamic type is a `Kind`;
  - the pure function `Dispatch` gives the value stored or the error returned;
  - the method `Assign` writes through a `Destination` object only on success.
- `ScanLine` (scanner.dfy) models the `Scanner` as a class:
  - the class holds the stream content, the read position and the text written to the prompt writer;
  - its methods `ReadLine`, `Scan` and `ScanPrompt` are proved against the functions `ReadLineFrom` and `ScanFrom`;
  - the lemmas about those functions carry the properties.

Go's `int` and `uint` (`bitSize` 0) are taken as 64 bits wide.

The destination's dynamic type is a `Kind`:
- `StringD` is `*string`;
- `BoolD` is `*bool`;
- `IntD(size)` is `*int`, `*int8`, `*int16`, `*int32` or `*int64`;
- `UintD(size)` is `*uint`, `*uint8`, `*uint16`, `*uint32` or `*uint64`;
- `Unmarshaler(accepts)` is any other type implementing `encoding.TextUnmarshaler`;
- `Other` is every remaining type except the float pointers, which are not modelled.

Boolean parsing is case-sensitive, as the code is: only the twelve spellings
that `strconv.ParseBool` accepts are recognised. Mixed-case forms such as
`tRUE` fail with `ErrParse`.

The input stream is modelled as its whole content plus the number of
characters consumed so far. The only read error is `io.EOF` at the end of
the content. A last line without a terminator is returned with a nil error.

## Model

| member | source | states |
|---|---|---|
| Lines.TrimNewLine | scanline.go:73-83 | The result is a prefix of the input at most two characters shorter. Two are removed only for a trailing "\r\n"; one only for a trailing "\n" not preceded by '\r'. Nothing is removed when the input does not end in "\n". |
| Lines.TrimCrLf | scanline.go:74-76 | Any text followed by "\r\n" comes back as that text. |
| Lines.TrimLf | scanline.go:78-80 | Any text not ending in '\r', followed by "\n", comes back as that text. |
| Lines.TrimNewLineExamples | scanline.go:73-83 | Only one terminator is removed ("a\n\n" gives "a\n", "a\r\n\r\n" gives "a\r\n"). A lone '\r' is kept. Text without a terminator is unchanged. |
| Lines.RawLine | scanline.go:63 | What `ReadString('\n')` consumes is never longer than the unread input, and is non-empty when input remains. |
| Lines.RawLineShape | scanline.go:63 | What is consumed is a prefix of the unread input with no '\n' before its last character. It ends in '\n', unless it is the whole remaining input and that holds no '\n'. |
| Lines.RawLineUpTo | scanline.go:63 | When the first '\n' is at index k, exactly the first k+1 characters are consumed. |
| Lines.ReadLineFrom | scanline.go:59-71 | The read position never moves backwards or past the end. The error is non-nil exactly at the end of the input; then it is EOF, the line is "" and nothing is consumed. |
| Lines.ReadLineConsumes | scanline.go:59-71 | Before the end, `ReadLine` returns no error and consumes at least one character. It consumes up to and including the first '\n', or the rest of the input when there is none. The line returned is the consumed text passed through `trimNewLine`. |
| Lines.ReadCrLfLine | scanline.go:63-70 | A line ended by "\r\n" is returned without the pair, and reading resumes after the '\n'. |
| Lines.ReadLfLine | scanline.go:63-70 | A line ended by a lone "\n" is returned without it, and reading resumes after it. |
| Lines.ReadFinalLine | scanline.go:64-70 | A last line without a terminator is returned whole with a nil error (the EOF is swallowed), and the input is used up. |
| Lines.ReadAtEnd | scanline.go:64-67 | At the end of the input `ReadLine` returns "" and EOF and consumes nothing. |
| Lines.ReadLineLfExample | scanline.go:59-71 | "hello world\n" is read as "hello world", with no error, and the whole input is consumed. |
| Lines.ReadLineCrLfExample | scanline.go:59-71 | "hello\r\n" is read as "hello", with no error, and the whole input is consumed. |
| Strconv.IsSpaceLatin1 | scanline.go:87 | `IsSpace` enumerates the Unicode White_Space set. Below U+0100 it holds exactly for tab, newline, vertical tab, form feed, carriage return, space, NEL and NBSP. |
| Strconv.TrimSpace | scanline.go:87 | The trimmed text is never longer than its input and neither starts nor ends with white space. |
| Strconv.TrimSpaceSplit | scanline.go:87 | Every string is its trimmed text with white space before and after it. Together with the contract of `TrimSpace`, this makes the trimming maximal. |
| Strconv.TrimSpacePadding | scanline.go:87 | Adding white space to either end of a string does not change its trimmed text. |
| Strconv.TrimSpaceKeeps | scanline.go:87 | A string that neither starts nor ends with white space is its own trimmed text. |
| Strconv.FormatNatValue | scanline.go:107 | The digits of a number's rendering denote that number. |
| Strconv.LeadingZerosValue | scanline.go:107 | Leading zeros do not change the value of a digit string. |
| Strconv.DigitsCanonical | scanline.go:107 | Every non-empty digit string is some zeros followed by the canonical rendering of its value. |
| Strconv.ParseBool | scanline.go:134 | The twelve-spelling table: parsing succeeds exactly for a text in the true or the false spellings, and yields true exactly for the true spellings. |
| Strconv.ParseBoolSpellings | scanline.go:134 | Each of the spellings "true"/"false", "TRUE"/"FALSE", "True"/"False", "t"/"f" and "1"/"0" parses to its boolean, so `ParseBool` inverts `FormatBool`. |
| Strconv.ParseBoolMixedCase | scanline.go:134 | The comparison is exact: "tRUE", "fAlse" and "yes" are rejected. |
| Strconv.ParseUint | scanline.go:107 | Unsigned parsing succeeds only with a value in the unsigned range of the bit size. |
| Strconv.ParseUintDecimal | scanline.go:107 | Unsigned parsing of optional zeros followed by the rendering of n gives n when n fits the bit size. When n does not fit, it fails (`None`). |
| Strconv.ParseFormatUint | scanline.go:107 | Unsigned parsing inverts the rendering on the bit size's range and rejects numbers outside it. |
| Strconv.ParseUintForm | scanline.go:107 | Every text unsigned parsing accepts is zeros followed by the canonical rendering of the value obtained. |
| Strconv.ParseUintRejectsSign | scanline.go:107 | Unsigned parsing fails (`None`) on a text with a leading '+' or '-'. |
| Strconv.ParseInt | scanline.go:87 | Signed parsing succeeds only with a value in the two's-complement range of the bit size. |
| Strconv.ParseIntDecimal | scanline.go:87 | Signed parsing of an optional sign, optional zeros and the rendering of n gives the signed value exactly when it fits the two's-complement range of the bit size. Otherwise it fails (`None`). |
| Strconv.ParseIntForm | scanline.go:87 | Every text signed parsing accepts is an optional sign, zeros and a canonical rendering, and the value is that of the sign applied. |
| Strconv.ParseFormatInt | scanline.go:87 | Signed parsing inverts `FormatInt` on the bit size's range and rejects the rendering of every number outside it. |
| Assignment.NarrowSigned | scanline.go:145-158 | The conversion `int8(v)`, `int16(v)` or `int32(v)` keeps the low bits of `v` (the result is congruent to `v` modulo 2 to the width) and lands in the destination's range. A value already in that range is unchanged. |
| Assignment.NarrowUnsigned | scanline.go:166-179 | The conversion `uint8(v)`, `uint16(v)` or `uint32(v)` keeps the low bits of `v` and lands in the destination's range. A value already in that range is unchanged. |
| Assignment.ParseSigned | scanline.go:86-104 | `parseInt` succeeds only with a value in the signed range of its bit size, and fails only with `ErrParse`. |
| Assignment.ParseUnsigned | scanline.go:106-124 | `parseUint` succeeds only with a value in the unsigned range of its bit size, and fails only with `ErrParse`. |
| Assignment.Dispatch | scanline.go:127-208 | A successful conversion yields a value the destination's type can hold. A failure is `ErrUnsupported` for an unsupported destination and `ErrParse` for every other one. |
| Assignment.Destination.constructor | scanline.go:127-128 | A destination pointer has a fixed dynamic type, and the value it points to has that type. |
| Assignment.Assign | scanline.go:127-208 | On success, the destination holds the converted value and nil is returned. On failure, the error is returned and the destination keeps its previous value. Either way the destination's value keeps its Go type. |
| Assignment.DispatchRoundTrip | scanline.go:127-182 | Every value a destination can hold (string, boolean, integer of any width, accepted unmarshaler text) is obtained back from its textual rendering. |
| Assignment.DispatchIgnoresSpace | scanline.go:133-182 | Boolean and integer destinations give the same result whatever white space surrounds the text. |
| Assignment.DispatchStringVerbatim | scanline.go:129-131 | A string destination receives the line exactly, white space included, and never fails. |
| Assignment.DispatchSignedDecimal | scanline.go:142-161 | A signed destination given an optional sign and decimal digits (leading zeros and surrounding white space allowed) stores that number when it fits its width. Otherwise it fails with `ErrParse`. |
| Assignment.DispatchSignedForm | scanline.go:142-161 | Everything a signed destination accepts is white space around an optional sign and decimal digits, and the value stored is that number. |
| Assignment.DispatchUnsignedDecimal | scanline.go:163-182 | An unsigned destination given decimal digits (leading zeros and surrounding white space allowed) stores that number when it fits its width. Otherwise it fails with `ErrParse`. |
| Assignment.DispatchUnsignedForm | scanline.go:163-182 | Everything an unsigned destination accepts is white space around zeros and the canonical rendering of the value stored. |
| Assignment.DispatchUnsignedRejectsSign | scanline.go:163-182 | A sign in front of the digits makes an unsigned destination fail with `ErrParse`. |
| Assignment.DispatchOther | scanline.go:207 | A destination type outside the supported set always fails with `ErrUnsupported`. |
| Assignment.DispatchPaddedIntExample | scanline.go:142-143 | The text "  42 " stored into an `int` gives 42. |
| ScanLine.ScanFrom | scanline.go:211-219 | `Scan` consumes what `ReadLine` consumes. It returns EOF exactly at the end of the input. On success the destination holds a value its type can hold; on any error it is unchanged. |
| ScanLine.Scanner.constructor | scanline.go:28-38 | A new scanner has consumed nothing and written nothing. |
| ScanLine.Scanner.ReadLine | scanline.go:59-71 | The line, the error and the new read position are those `ReadLineFrom` gives for the old position. |
| ScanLine.Scanner.Scan | scanline.go:211-219 | The error, the destination's new value and the new read position are those `ScanFrom` gives for the old position and the old value. |
| ScanLine.Scanner.ScanPrompt | scanline.go:222-225 | The prompt is appended to the writer's output without a newline, whatever happens next. The result is then that of `Scan`. |
| ScanLine.ScanConsumesLine | scanline.go:211-219 | Before the end of the input, a `Scan` consumes one whole line, up to and including the first '\n' or to the end, whether or not the assignment succeeds. The only errors it returns there are `ErrUnsupported` for an unsupported destination and `ErrParse` for any other. |
| ScanLine.ScanAtEnd | scanline.go:214-216 | At the end of the input every `Scan` returns EOF, even into an unsupported destination, and changes nothing. |
| ScanLine.ScanUnsupported | scanline.go:207-218 | An unsupported destination fails with `ErrUnsupported` on every line, which is still consumed. |
| ScanLine.ScanRendered | scanline.go:211-219 | A value rendered on a line of its own and ended by "\n" is scanned back into a destination that can hold it. Reading resumes after the newline. |
| ScanLine.ScanRenderedCrLf | scanline.go:211-219 | The same for a line ended by "\r\n". |
| ScanLine.RenderedNumberIsOneLine | scanline.go:133-182 | Booleans and integers render without '\n' and without a trailing '\r', so they always scan back from a line of their own. |
| ScanLine.ScanPaddedIntExample | scanline.go:211-219 | Scanning "  42 \n" into an `int` stores 42, with no error, and consumes the whole input. |
| ScanLine.ScanStringExample | scanline.go:211-219 | Scanning " hello world \r\nrest" into a string stores " hello world " and leaves "rest" unread. |

## Left out

- The mutex in `Scanner` and the package-level `Default` scanner with `SetDefaultReader` and `SetDefaultWriter` (scanline.go:21-56): the model is sequential and has a single scanner.
- The choice of `os.Stderr` when `New` gets a nil writer (scanline.go:29-31): the model keeps one prompt transcript whatever the writer is.
- Floating-point destinations (`*float32`, `*float64`, scanline.go:184-196): floating-point parsing and rounding are not modelled.
- `UnmarshalText` of a text-unmarshaler destination is caller code. The model abstracts it as the set of texts it accepts. An accepted line leaves the destination holding that text; a rejected one leaves it unchanged. A real `UnmarshalText` may change its receiver before it fails, and may make its new state depend on the old one. That "unchanged on error" holds for unmarshalers is a property of the model, not a promise of the source.
- A nil typed destination pointer (for example `(*int)(nil)`) makes `assign` panic on the write (scanline.go:130, 138, 94, 97, 115, 118, 148-179). The model's destination is always a real object, so the model has no panics: errors are its only failure mode.
- Error message text (the `%w: ...` wrapping): only the sentinel an error wraps is modelled (`EOF`, `ErrParse`, `ErrUnsupported`).
- The `internal ... out type` branches of `parseInt` and `parseUint` (scanline.go:99-100, 119-120): `assign` only ever passes `*int`, `*int64`, `*uint` or `*uint64`, so these branches are unreachable and not modelled.
- Read errors other than EOF and write errors of the prompt writer: the stream and the writer never fail in the model. The code ignores the result of `fmt.Fprint` anyway.
- Buffering inside `bufio.Reader`: the model describes only what a read consumes, not how it is buffered.
- Strings are sequences of Unicode characters: invalid UTF-8 in the input is not modelled.
- `ScanCtx` and `ScanSecret` are not part of this model; neither is terminal detection through the `src` field.
- The platform width of Go's `int` and `uint` is fixed at 64 bits, so 32-bit platforms are not covered.
