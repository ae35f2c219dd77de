/** Line splitting: what one `ReadLine` call consumes from the input and the
    text it returns (`Scanner.ReadLine` and `trimNewLine` in scanline.go). */
module Lines {
  import opened Errors

  /** `trimNewLine`: removes one trailing "\r\n" if there is one, else one
      trailing "\n" if there is one; any other trailing character stays. */
  function TrimNewLine(s: string): (r: string)
    ensures r <= s && |s| - 2 <= |r|
    ensures |r| == |s| - 2 ==> s[|s| - 2] == '\r' && s[|s| - 1] == '\n'
    ensures |r| == |s| - 1 ==> s[|s| - 1] == '\n' && !(|r| > 0 && s[|r| - 1] == '\r')
    ensures |r| == |s| ==> !(|s| > 0 && s[|s| - 1] == '\n')
  {
    if |s| >= 2 && s[|s| - 2] == '\r' && s[|s| - 1] == '\n' then s[..|s| - 2]
    else if |s| >= 1 && s[|s| - 1] == '\n' then s[..|s| - 1]
    else s
  }

  /** A string followed by "\r\n" loses exactly that terminator. */
  lemma TrimCrLf(l: string)
    ensures TrimNewLine(l + "\r\n") == l
  {
    var s := l + "\r\n";
    assert s[|s| - 2..] == "\r\n";
    assert s[..|s| - 2] == l;
  }

  /** A string that does not end in '\r', followed by "\n", loses exactly
      that terminator. */
  lemma TrimLf(l: string)
    requires l == [] || l[|l| - 1] != '\r'
    ensures TrimNewLine(l + "\n") == l
  {
    var s := l + "\n";
    assert s[..|s| - 1] == l;
    if |s| >= 2 {
      assert s[|s| - 2] == l[|l| - 1];
    }
  }

  /** A line of `input` from `pos` ending in "\r\n" at `end` loses that pair. */
  lemma TrimCrLfAt(input: string, pos: nat, end: nat)
    requires pos < end < |input| && input[end - 1] == '\r' && input[end] == '\n'
    ensures TrimNewLine(input[pos..end + 1]) == input[pos..end - 1]
  {
    var s := input[pos..end + 1];
    assert s[|s| - 2] == input[end - 1] && s[|s| - 1] == input[end];
    assert s[..|s| - 2] == input[pos..end - 1];
  }

  /** A line of `input` from `pos` ending in a lone "\n" at `end` loses it. */
  lemma TrimLfAt(input: string, pos: nat, end: nat)
    requires pos <= end < |input| && input[end] == '\n'
    requires end == pos || input[end - 1] != '\r'
    ensures TrimNewLine(input[pos..end + 1]) == input[pos..end]
  {
    var s := input[pos..end + 1];
    assert s[|s| - 1] == input[end];
    if end > pos {
      assert s[|s| - 2] == input[end - 1];
    }
    assert s[..|s| - 1] == input[pos..end];
  }

  /** Only one terminator is ever removed, and a lone '\r' is kept. */
  lemma TrimNewLineExamples()
    ensures TrimNewLine("a\n\n") == "a\n"
    ensures TrimNewLine("a\r") == "a\r"
    ensures TrimNewLine("a\r\n\r\n") == "a\r\n"
    ensures TrimNewLine("hello world") == "hello world"
  {
    TrimLf("a\n");
    TrimCrLf("a\r\n");
  }

  /** What `bufio.Reader.ReadString('\n')` consumes from the unread input `s`:
      everything up to and including the first '\n', or all of `s` when it
      holds no '\n'. */
  function RawLine(s: string): (r: string)
    ensures |r| <= |s|
    ensures s != [] ==> r != []
  {
    if s == [] then []
    else if s[0] == '\n' then [s[0]]
    else [s[0]] + RawLine(s[1..])
  }

  /** The line read is a prefix of `s` with no '\n' before its last
      character, and it ends in '\n' unless it is all of `s` and `s` holds no
      '\n' at all. */
  lemma {:induction false} RawLineShape(s: string)
    ensures var n := |RawLine(s)|;
      && RawLine(s) == s[..n]
      && (forall i :: 0 <= i < n - 1 ==> s[i] != '\n')
      && ((n > 0 && s[n - 1] == '\n') || (n == |s| && forall i :: 0 <= i < |s| ==> s[i] != '\n'))
  {
    if s != [] && s[0] != '\n' {
      var t := s[1..];
      RawLineShape(t);
      var m := |RawLine(t)|;
      assert RawLine(s) == [s[0]] + t[..m];
      assert [s[0]] + t[..m] == s[..m + 1];
      assert forall i :: 1 <= i < |s| ==> s[i] == t[i - 1];
    }
  }

  /** When the first '\n' of `s` is at index `k`, the line read is `s[..k + 1]`. */
  lemma {:induction false} RawLineUpTo(s: string, k: nat)
    requires k < |s| && s[k] == '\n'
    requires forall i :: 0 <= i < k ==> s[i] != '\n'
    ensures RawLine(s) == s[..k + 1]
  {
    if k > 0 {
      RawLineUpTo(s[1..], k - 1);
      assert s[..k + 1] == [s[0]] + s[1..][..k];
    }
  }

  /** The same, stated on the whole input from the read position `pos`. */
  lemma RawLineAt(input: string, pos: nat, end: nat)
    requires pos <= end < |input| && input[end] == '\n'
    requires forall i :: pos <= i < end ==> input[i] != '\n'
    ensures RawLine(input[pos..]) == input[pos..end + 1]
  {
    var s := input[pos..];
    assert forall i :: 0 <= i < end - pos ==> s[i] == input[pos + i];
    RawLineUpTo(s, end - pos);
    assert s[..end - pos + 1] == input[pos..end + 1];
  }

  /** The result of one `ReadLine`: the returned text, the error (`None` for
      nil) and the read position afterwards. */
  datatype LineRead = LineRead(line: string, err: Option<Error>, next: nat)

  /** `Scanner.ReadLine` on input `input` whose first `pos` characters are
      already consumed. */
  function ReadLineFrom(input: string, pos: nat): (r: LineRead)
    requires pos <= |input|
    ensures pos <= r.next <= |input|
    ensures r.err.Some? <==> pos == |input|
    ensures r.err.Some? ==> r.err == Some(EOF) && r.line == "" && r.next == pos
  {
    var raw := RawLine(input[pos..]);
    if raw == [] then LineRead("", Some(EOF), pos)
    else
      var next := pos + |raw|;
      LineRead(TrimNewLine(input[pos..next]), None, next)
  }

  /** A successful `ReadLine` consumes one line: up to and including the first
      '\n' after the read position, or to the end of the input when none is
      left; the text returned is what it consumed, trimmed. */
  lemma ReadLineConsumes(input: string, pos: nat)
    requires pos < |input|
    ensures var r := ReadLineFrom(input, pos);
      && r.err.None? && pos < r.next
      && (forall i :: pos <= i < r.next - 1 ==> input[i] != '\n')
      && (input[r.next - 1] == '\n' || r.next == |input|)
      && r.line == TrimNewLine(input[pos..r.next])
  {
    var s := input[pos..];
    RawLineShape(s);
    var next := pos + |RawLine(s)|;
    assert RawLine(s) == input[pos..next];
    ReadKnownLine(input, pos, next);
    assert forall i :: pos <= i < next ==> input[i] == s[i - pos];
  }

  /** `ReadLine` once the line it consumes is known. */
  lemma ReadKnownLine(input: string, pos: nat, next: nat)
    requires pos < next <= |input|
    requires RawLine(input[pos..]) == input[pos..next]
    ensures ReadLineFrom(input, pos) == LineRead(TrimNewLine(input[pos..next]), None, next)
  {
  }

  /** A line ended by "\r\n" is returned without it, and reading resumes after it. */
  lemma ReadCrLfLine(input: string, pos: nat, end: nat)
    requires pos < end < |input| && input[end - 1] == '\r' && input[end] == '\n'
    requires forall i :: pos <= i < end ==> input[i] != '\n'
    ensures ReadLineFrom(input, pos) == LineRead(input[pos..end - 1], None, end + 1)
  {
    TrimCrLfAt(input, pos, end);
    RawLineAt(input, pos, end);
    ReadKnownLine(input, pos, end + 1);
  }

  /** A line ended by "\n" alone is returned without it, and reading resumes after it. */
  lemma ReadLfLine(input: string, pos: nat, end: nat)
    requires pos <= end < |input| && input[end] == '\n'
    requires end == pos || input[end - 1] != '\r'
    requires forall i :: pos <= i < end ==> input[i] != '\n'
    ensures ReadLineFrom(input, pos) == LineRead(input[pos..end], None, end + 1)
  {
    TrimLfAt(input, pos, end);
    RawLineAt(input, pos, end);
    ReadKnownLine(input, pos, end + 1);
  }

  /** A last line without terminator is returned as it is, with no error. */
  lemma ReadFinalLine(input: string, pos: nat)
    requires pos < |input|
    requires forall i :: pos <= i < |input| ==> input[i] != '\n'
    ensures ReadLineFrom(input, pos) == LineRead(input[pos..], None, |input|)
  {
    var s := input[pos..];
    RawLineShape(s);
    assert forall i :: 0 <= i < |s| ==> s[i] == input[pos + i];
  }

  /** At the end of the input `ReadLine` yields "" and EOF and consumes nothing. */
  lemma ReadAtEnd(input: string)
    ensures ReadLineFrom(input, |input|) == LineRead("", Some(EOF), |input|)
  {
  }

  /** The line reading cases of the package's tests. */
  lemma ReadLineLfExample(input: string)
    requires input == "hello world\n"
    ensures ReadLineFrom(input, 0) == LineRead("hello world", None, 12)
  {
    ReadLfLine(input, 0, 11);
    assert input[0..11] == "hello world";
  }

  lemma ReadLineCrLfExample(input: string)
    requires input == "hello\r\n"
    ensures ReadLineFrom(input, 0) == LineRead("hello", None, 7)
  {
    ReadCrLfLine(input, 0, 6);
    assert input[0..5] == "hello";
  }
}
