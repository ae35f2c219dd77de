/** The `Scanner` of scanline.go: a buffered line reader over an input
    stream and a writer for prompts. `ReadLine` returns the next line,
    `Scan` converts it into a destination, and `ScanPrompt` writes a prompt
    first. */
module ScanLine {
  import opened Errors
  import opened Strconv
  import opened Lines
  import opened Assignment

  /** The outcome of one `Scan`: the error it returns (`None` for nil), what
      the destination holds afterwards, and the read position afterwards. */
  datatype ScanStep = ScanStep(err: Option<Error>, value: Value, next: nat)

  /** `Scan` on input `input` read up to `pos`, into a destination of kind
      `kind` that holds `current`: read a line, return a read error as it
      is, otherwise assign the line. */
  function ScanFrom(input: string, pos: nat, kind: Kind, current: Value): (r: ScanStep)
    requires pos <= |input|
    ensures r.next == ReadLineFrom(input, pos).next
    ensures r.err == Some(EOF) <==> pos == |input|
    ensures r.err.None? ==> Fits(r.value, kind)
    ensures r.err.Some? ==> r.value == current
  {
    var l := ReadLineFrom(input, pos);
    if l.err.Some? then ScanStep(l.err, current, l.next)
    else
      match Dispatch(l.line, kind)
      case Success(v) => ScanStep(None, v, l.next)
      case Failure(e) => ScanStep(Some(e), current, l.next)
  }

  /** A `Scanner` over an input stream whose whole content is `input`, of
      which the first `pos` characters are consumed; `output` is everything
      written to the prompt writer so far. */
  class Scanner {
    const input: string
    var pos: nat
    var output: string

    ghost predicate Valid()
      reads this
    {
      pos <= |input|
    }

    /** `New(r, w)`: nothing is consumed and nothing is written yet. */
    constructor (input: string)
      ensures Valid()
      ensures this.input == input && pos == 0 && output == []
    {
      this.input := input;
      pos := 0;
      output := [];
    }

    /** Reads up to and including the next '\n' and returns the line without
        its terminator; at the end of the input it returns "" and EOF. */
    method ReadLine() returns (line: string, err: Option<Error>)
      requires Valid()
      modifies this`pos
      ensures Valid()
      ensures LineRead(line, err, pos) == ReadLineFrom(input, old(pos))
    {
      var raw := RawLine(input[pos..]);
      if raw == [] {
        line, err := "", Some(EOF);
      } else {
        var next := pos + |raw|;
        line, err := TrimNewLine(input[pos..next]), None;
        pos := next;
      }
    }

    /** Reads a line and assigns it to `dest`; a read error is returned and
        `dest` is left alone. */
    method Scan(dest: Destination) returns (err: Option<Error>)
      requires Valid()
      modifies this`pos, dest
      ensures Valid()
      ensures ScanStep(err, dest.value, pos) == ScanFrom(input, old(pos), dest.kind, old(dest.value))
    {
      var line, readErr := ReadLine();
      if readErr.Some? {
        return readErr;
      }
      err := Assign(line, dest);
    }

    /** Writes `prompt` (no newline added) to the prompt writer, then scans. */
    method ScanPrompt(prompt: string, dest: Destination) returns (err: Option<Error>)
      requires Valid()
      modifies this`pos, this`output, dest
      ensures Valid()
      ensures output == old(output) + prompt
      ensures ScanStep(err, dest.value, pos) == ScanFrom(input, old(pos), dest.kind, old(dest.value))
    {
      output := output + prompt;
      err := Scan(dest);
    }
  }

  // ---------------------------------------------------------------------
  // Properties of scanning
  // ---------------------------------------------------------------------

  /** A `Scan` that is not at the end of the input consumes one whole line,
      up to and including the first '\n' (or the rest of the input), whether
      or not the assignment succeeds; the only errors it can return there are
      those of the conversion. */
  lemma ScanConsumesLine(input: string, pos: nat, kind: Kind, current: Value)
    requires pos < |input|
    ensures var r := ScanFrom(input, pos, kind, current);
      && pos < r.next
      && (forall i :: pos <= i < r.next - 1 ==> input[i] != '\n')
      && (input[r.next - 1] == '\n' || r.next == |input|)
      && (r.err.Some? ==> r.err == Some(if kind.Other? then Unsupported else ParseErr))
  {
    ReadLineConsumes(input, pos);
  }

  /** At the end of the input every `Scan` returns EOF, whatever the
      destination (even an unsupported one), and changes nothing. */
  lemma ScanAtEnd(input: string, kind: Kind, current: Value)
    ensures ScanFrom(input, |input|, kind, current) == ScanStep(Some(EOF), current, |input|)
  {
    ReadAtEnd(input);
  }

  /** A destination of an unsupported type fails with `ErrUnsupported` on
      every line, and the line is consumed. */
  lemma ScanUnsupported(input: string, pos: nat, current: Value)
    requires pos < |input|
    ensures var r := ScanFrom(input, pos, Other, current);
      r.err == Some(Unsupported) && r.value == current && pos < r.next
  {
    ReadLineConsumes(input, pos);
  }

  /** A value typed as its rendering followed by "\n" is scanned back into a
      destination that can hold it, and reading resumes after the newline. */
  lemma ScanRendered(input: string, pos: nat, end: nat, v: Value, kind: Kind, current: Value)
    requires Fits(v, kind)
    requires pos <= end < |input| && input[pos..end] == Render(v) && input[end] == '\n'
    requires forall i :: 0 <= i < |Render(v)| ==> Render(v)[i] != '\n'
    requires Render(v) == [] || Render(v)[|Render(v)| - 1] != '\r'
    ensures ScanFrom(input, pos, kind, current) == ScanStep(None, v, end + 1)
  {
    var t := Render(v);
    assert forall i :: pos <= i < end ==> input[i] == t[i - pos];
    if end > pos {
      assert input[end - 1] == t[|t| - 1];
    }
    ReadLfLine(input, pos, end);
    DispatchRoundTrip(v, kind);
  }

  /** The same for a line ended by "\r\n". */
  lemma ScanRenderedCrLf(input: string, pos: nat, end: nat, v: Value, kind: Kind, current: Value)
    requires Fits(v, kind)
    requires pos < end < |input| && input[pos..end - 1] == Render(v)
    requires input[end - 1] == '\r' && input[end] == '\n'
    requires forall i :: 0 <= i < |Render(v)| ==> Render(v)[i] != '\n'
    ensures ScanFrom(input, pos, kind, current) == ScanStep(None, v, end + 1)
  {
    var t := Render(v);
    assert forall i :: pos <= i < end - 1 ==> input[i] == t[i - pos];
    ReadCrLfLine(input, pos, end);
    DispatchRoundTrip(v, kind);
  }

  /** Booleans and integers render without '\n' and without a trailing '\r',
      so they always scan back from a line of their own. */
  lemma RenderedNumberIsOneLine(v: Value)
    requires v.Bool? || v.Int? || v.Uint?
    ensures forall i :: 0 <= i < |Render(v)| ==> Render(v)[i] != '\n'
    ensures Render(v) != [] && Render(v)[|Render(v)| - 1] != '\r'
  {
    match v
    case Bool(b) =>
    case Int(i) =>
      var d := FormatNat(if i < 0 then -i else i);
      var t := FormatInt(i);
      forall j | 0 <= j < |t| ensures t[j] != '\n' {
        if i < 0 && j > 0 { assert t[j] == d[j - 1]; }
      }
      assert t[|t| - 1] == d[|d| - 1];
    case Uint(n) =>
  }

  /** An integer line with white space around it, as a user might type it,
      is scanned into an `int`. */
  lemma ScanPaddedIntExample(input: string)
    requires input == "  42 \n"
    ensures ScanFrom(input, 0, IntD(Word), Int(0)) == ScanStep(None, Int(42), 6)
  {
    ReadLfLine(input, 0, 5);
    DispatchPaddedIntExample(input[0..5]);
  }

  /** A string destination receives the line verbatim, inner and outer white
      space included. */
  lemma ScanStringExample(input: string)
    requires input == " hello world \r\nrest"
    ensures ScanFrom(input, 0, StringD, Str("")) == ScanStep(None, Str(" hello world "), 15)
  {
    ReadCrLfLine(input, 0, 14);
    assert input[0..13] == " hello world ";
  }
}
