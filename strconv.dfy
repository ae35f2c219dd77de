/** The parts of Go's `strings` and `strconv` packages that the scanner's
    conversions rely on: `strings.TrimSpace`, `strconv.ParseBool`,
    `strconv.ParseInt` and `strconv.ParseUint` in base 10, and the base-10
    renderings `FormatBool`, `FormatInt` and `FormatUint` that they invert.
    Strings are sequences of Unicode characters. */
module Strconv {
  import opened Errors

  // ---------------------------------------------------------------------
  // strings.TrimSpace
  // ---------------------------------------------------------------------

  /** The white space characters of Latin-1 and the other characters with
      Unicode's White_Space property outside the range U+2000..U+200A. */
  const SpaceChars: set<char> := {
    '\t', '\n', '\U{B}', '\U{C}', '\r', ' ', '\U{85}', '\U{A0}', '\U{1680}',
    '\U{2028}', '\U{2029}', '\U{202F}', '\U{205F}', '\U{3000}'
  }

  /** `unicode.IsSpace`: the characters that `strings.TrimSpace` removes. */
  predicate IsSpace(c: char) {
    c in SpaceChars || '\U{2000}' <= c <= '\U{200A}'
  }

  /** In Latin-1 the white space characters are exactly tab, newline,
      vertical tab, form feed, carriage return, space, NEL and NBSP. */
  lemma IsSpaceLatin1(c: char)
    requires c <= '\U{FF}'
    ensures IsSpace(c) <==> c in {'\t', '\n', '\U{B}', '\U{C}', '\r', ' ', '\U{85}', '\U{A0}'}
  {
  }

  predicate AllSpace(s: string) {
    forall i :: 0 <= i < |s| ==> IsSpace(s[i])
  }

  /** The number of white space characters at the front of `s`. */
  function LeadingSpace(s: string): (n: nat)
    ensures n <= |s| && AllSpace(s[..n])
    ensures n < |s| ==> !IsSpace(s[n])
  {
    if s != [] && IsSpace(s[0]) then
      var n := 1 + LeadingSpace(s[1..]);
      assert s[..n] == [s[0]] + s[1..][..n - 1];
      n
    else
      0
  }

  /** The number of white space characters at the end of `s`. */
  function TrailingSpace(s: string): (n: nat)
    ensures n <= |s| && AllSpace(s[|s| - n..])
    ensures n < |s| ==> !IsSpace(s[|s| - 1 - n])
  {
    if s != [] && IsSpace(s[|s| - 1]) then
      var n := 1 + TrailingSpace(s[..|s| - 1]);
      assert s[|s| - n..] == s[..|s| - 1][|s| - n..] + [s[|s| - 1]];
      n
    else
      0
  }

  /** `strings.TrimLeftFunc(s, unicode.IsSpace)` */
  function TrimLeft(s: string): string {
    s[LeadingSpace(s)..]
  }

  /** `strings.TrimRightFunc(s, unicode.IsSpace)` */
  function TrimRight(s: string): string {
    s[..|s| - TrailingSpace(s)]
  }

  /** `strings.TrimSpace`: `s` without its leading and trailing white space. */
  function TrimSpace(s: string): (r: string)
    ensures |r| <= |s|
    ensures r != [] ==> !IsSpace(r[0]) && !IsSpace(r[|r| - 1])
  {
    TrimRight(TrimLeft(s))
  }

  /** Every string is its trimmed text with white space around it. */
  lemma TrimSpaceSplit(s: string) returns (lead: string, trail: string)
    ensures AllSpace(lead) && AllSpace(trail)
    ensures s == lead + TrimSpace(s) + trail
  {
    var t := TrimLeft(s);
    lead := TrimLeftSplit(s);
    trail := TrimRightSplit(t);
  }

  /** `s` is its leading white space followed by `TrimLeft(s)`. */
  lemma TrimLeftSplit(s: string) returns (lead: string)
    ensures AllSpace(lead) && s == lead + TrimLeft(s)
  {
    lead := s[..LeadingSpace(s)];
  }

  /** `t` is `TrimRight(t)` followed by its trailing white space. */
  lemma TrimRightSplit(t: string) returns (trail: string)
    ensures AllSpace(trail) && t == TrimRight(t) + trail
  {
    trail := t[|t| - TrailingSpace(t)..];
  }

  lemma {:induction false} LeadingSpaceAppend(s: string, t: string)
    ensures LeadingSpace(s + t) == if AllSpace(s) then |s| + LeadingSpace(t) else LeadingSpace(s)
  {
    if s == [] {
      assert s + t == t;
    } else if IsSpace(s[0]) {
      assert (s + t)[0] == s[0];
      assert (s + t)[1..] == s[1..] + t;
      LeadingSpaceAppend(s[1..], t);
      assert AllSpace(s) == AllSpace(s[1..]) by {
        if AllSpace(s[1..]) {
          forall i | 0 <= i < |s| ensures IsSpace(s[i]) {
            if i > 0 { assert s[i] == s[1..][i - 1]; }
          }
        }
      }
    } else {
      assert (s + t)[0] == s[0];
    }
  }

  lemma {:induction false} TrailingSpaceAppend(u: string, ws: string)
    requires AllSpace(ws)
    ensures TrailingSpace(u + ws) == |ws| + TrailingSpace(u)
  {
    if ws == [] {
      assert u + ws == u;
    } else {
      var w := u + ws;
      assert w[|w| - 1] == ws[|ws| - 1];
      assert w[..|w| - 1] == u + ws[..|ws| - 1];
      TrailingSpaceAppend(u, ws[..|ws| - 1]);
    }
  }

  lemma TrimLeftAppend(s: string, t: string)
    ensures TrimLeft(s + t) == if AllSpace(s) then TrimLeft(t) else TrimLeft(s) + t
  {
    LeadingSpaceAppend(s, t);
    if AllSpace(s) {
      assert (s + t)[|s| + LeadingSpace(t)..] == t[LeadingSpace(t)..];
    } else {
      assert (s + t)[LeadingSpace(s)..] == s[LeadingSpace(s)..] + t;
    }
  }

  lemma TrimRightSkipsSpace(u: string, ws: string)
    requires AllSpace(ws)
    ensures TrimRight(u + ws) == TrimRight(u)
  {
    TrailingSpaceAppend(u, ws);
    assert (u + ws)[..|u| - TrailingSpace(u)] == u[..|u| - TrailingSpace(u)];
  }

  lemma TrimLeftAllSpace(s: string)
    requires AllSpace(s)
    ensures TrimLeft(s) == []
  {
    TrimLeftAppend(s, []);
    assert s + [] == s;
  }

  /** White space around a string does not change what `TrimSpace` yields. */
  lemma TrimSpacePadding(ws1: string, s: string, ws2: string)
    requires AllSpace(ws1) && AllSpace(ws2)
    ensures TrimSpace(ws1 + s + ws2) == TrimSpace(s)
  {
    assert ws1 + s + ws2 == ws1 + (s + ws2);
    TrimLeftAppend(ws1, s + ws2);
    TrimLeftAppend(s, ws2);
    if AllSpace(s) {
      TrimLeftAllSpace(ws2);
      TrimLeftAllSpace(s);
    } else {
      TrimRightSkipsSpace(TrimLeft(s), ws2);
    }
  }

  /** A string with no white space at either end is left as it is. */
  lemma TrimSpaceKeeps(t: string)
    requires t != [] ==> !IsSpace(t[0]) && !IsSpace(t[|t| - 1])
    ensures TrimSpace(t) == t
  {
  }

  // ---------------------------------------------------------------------
  // Decimal digits
  // ---------------------------------------------------------------------

  predicate IsDigit(c: char) {
    '0' <= c <= '9'
  }

  predicate AllDigits(s: string) {
    forall i :: 0 <= i < |s| ==> IsDigit(s[i])
  }

  function DigitValue(c: char): (d: nat)
    requires IsDigit(c)
    ensures d < 10
  {
    c as int - '0' as int
  }

  function DigitChar(d: nat): (c: char)
    requires d < 10
    ensures IsDigit(c) && DigitValue(c) == d
  {
    (d + '0' as int) as char
  }

  /** The number that a string of decimal digits denotes, most significant digit first. */
  function DigitsValue(s: string): nat
    requires AllDigits(s)
  {
    if s == [] then 0 else DigitsValue(s[..|s| - 1]) * 10 + DigitValue(s[|s| - 1])
  }

  /** `k` zero digits. */
  function Zeros(k: nat): (z: string)
    ensures |z| == k && AllDigits(z)
  {
    seq(k, _ => '0')
  }

  /** `strconv.FormatUint(n, 10)`: the canonical decimal rendering, without leading zeros. */
  function FormatNat(n: nat): (s: string)
    ensures s != [] && AllDigits(s)
    ensures s[0] == '0' <==> n == 0
  {
    if n < 10 then [DigitChar(n)] else FormatNat(n / 10) + [DigitChar(n % 10)]
  }

  /** `strconv.FormatInt(i, 10)`: a minus sign for negative numbers, then the digits. */
  function FormatInt(i: int): (s: string)
    ensures s != [] && !IsSpace(s[0]) && !IsSpace(s[|s| - 1])
  {
    if i < 0 then "-" + FormatNat(-i) else FormatNat(i)
  }

  /** `strconv.FormatBool` */
  function FormatBool(b: bool): string {
    if b then "true" else "false"
  }

  lemma {:induction false} AllDigitsConcat(s: string, t: string)
    requires AllDigits(s) && AllDigits(t)
    ensures AllDigits(s + t)
  {
    forall i | 0 <= i < |s + t| ensures IsDigit((s + t)[i]) {
      if i >= |s| { assert (s + t)[i] == t[i - |s|]; }
    }
  }

  /** Reading back the rendering of `n` gives `n`. */
  lemma {:induction false} FormatNatValue(n: nat)
    ensures DigitsValue(FormatNat(n)) == n
  {
    if n >= 10 {
      var s := FormatNat(n);
      assert s[..|s| - 1] == FormatNat(n / 10);
      FormatNatValue(n / 10);
    } else {
      assert FormatNat(n)[..0] == [];
    }
  }

  lemma {:induction false} ZerosValue(k: nat)
    ensures DigitsValue(Zeros(k)) == 0
  {
    if k > 0 {
      assert Zeros(k)[..k - 1] == Zeros(k - 1);
      ZerosValue(k - 1);
    }
  }

  /** Leading zeros do not change the value of a digit string. */
  lemma {:induction false} LeadingZerosValue(k: nat, s: string)
    requires AllDigits(s)
    ensures AllDigits(Zeros(k) + s) && DigitsValue(Zeros(k) + s) == DigitsValue(s)
  {
    AllDigitsConcat(Zeros(k), s);
    if s == [] {
      assert Zeros(k) + s == Zeros(k);
      ZerosValue(k);
    } else {
      var t := Zeros(k) + s;
      assert t[..|t| - 1] == Zeros(k) + s[..|s| - 1];
      assert t[|t| - 1] == s[|s| - 1];
      LeadingZerosValue(k, s[..|s| - 1]);
    }
  }

  /** Every non-empty digit string is some zeros followed by the canonical
      rendering of its value. */
  lemma {:induction false} DigitsCanonical(s: string) returns (k: nat)
    requires s != [] && AllDigits(s)
    ensures s == Zeros(k) + FormatNat(DigitsValue(s))
  {
    var p, c := s[..|s| - 1], s[|s| - 1];
    var d := DigitValue(c);
    assert DigitChar(d) == c;
    assert s == p + [c];
    if p == [] {
      k := 0;
      assert p[..0] == [];
      assert DigitsValue(s) == d;
    } else {
      var k' := DigitsCanonical(p);
      var m := DigitsValue(p);
      assert DigitsValue(s) == m * 10 + d;
      if m == 0 {
        k := k' + 1;
        assert p == Zeros(k') + [DigitChar(0)];
        assert Zeros(k) == Zeros(k') + ['0'];
      } else {
        k := k';
        assert (m * 10 + d) / 10 == m && (m * 10 + d) % 10 == d;
        assert FormatNat(m * 10 + d) == FormatNat(m) + [c];
      }
    }
  }

  // ---------------------------------------------------------------------
  // strconv.ParseBool
  // ---------------------------------------------------------------------

  /** The spellings `strconv.ParseBool` reads as true and as false. */
  const TrueSpellings: set<string> := {"1", "t", "T", "true", "TRUE", "True"}
  const FalseSpellings: set<string> := {"0", "f", "F", "false", "FALSE", "False"}

  /** `strconv.ParseBool`: a case by case comparison with the twelve
      spellings; `None` stands for its syntax error. */
  function ParseBool(s: string): (r: Option<bool>)
    ensures r.Some? <==> s in TrueSpellings + FalseSpellings
    ensures r == Some(true) <==> s in TrueSpellings
  {
    if s == "1" || s == "t" || s == "T" || s == "true" || s == "TRUE" || s == "True" then Some(true)
    else if s == "0" || s == "f" || s == "F" || s == "false" || s == "FALSE" || s == "False" then Some(false)
    else None
  }

  /** `ParseBool` inverts `FormatBool`, also for its upper-case and capitalised
      spellings and the one-character forms. */
  lemma ParseBoolSpellings(b: bool)
    ensures ParseBool(FormatBool(b)) == Some(b)
    ensures ParseBool(if b then "TRUE" else "FALSE") == Some(b)
    ensures ParseBool(if b then "True" else "False") == Some(b)
    ensures ParseBool(if b then "t" else "f") == Some(b)
    ensures ParseBool(if b then "1" else "0") == Some(b)
  {
  }

  /** Mixed-case spellings are not in the set: the comparison is exact. */
  lemma ParseBoolMixedCase()
    ensures ParseBool("tRUE") == None && ParseBool("fAlse") == None && ParseBool("yes") == None
  {
  }

  // ---------------------------------------------------------------------
  // strconv.ParseInt / strconv.ParseUint, base 10
  // ---------------------------------------------------------------------

  /** The `bitSize` argument of `strconv.ParseInt` and `ParseUint`. `Word` is
      bitSize 0, which means the width of Go's `int`, taken as 64 bits. */
  datatype BitSize = Bits8 | Bits16 | Bits32 | Bits64 | Word {
    function Bits(): nat {
      match this
      case Bits8 => 8
      case Bits16 => 16
      case Bits32 => 32
      case _ => 64
    }

    /** 2 to the power `Bits()`. */
    function Modulus(): nat {
      match this
      case Bits8 => 0x100
      case Bits16 => 0x1_0000
      case Bits32 => 0x1_0000_0000
      case _ => 0x1_0000_0000_0000_0000
    }

    /** 2 to the power `Bits() - 1`. */
    function Half(): nat {
      match this
      case Bits8 => 0x80
      case Bits16 => 0x8000
      case Bits32 => 0x8000_0000
      case _ => 0x8000_0000_0000_0000
    }
  }

  /** The range of a signed integer of the given width: [-2^(n-1), 2^(n-1) - 1]. */
  predicate InSignedRange(v: int, size: BitSize) {
    -(size.Half() as int) <= v < size.Half()
  }

  /** The range of an unsigned integer of the given width: [0, 2^n - 1]. */
  predicate InUnsignedRange(v: int, size: BitSize) {
    0 <= v < size.Modulus()
  }

  /** `strconv.ParseUint(s, 10, bitSize)`: decimal digits only, no sign, no
      prefix, no underscores; `None` stands for its syntax and range errors. */
  function ParseUint(s: string, size: BitSize): (r: Option<nat>)
    ensures r.Some? ==> InUnsignedRange(r.value, size)
  {
    if s != [] && AllDigits(s) && DigitsValue(s) < size.Modulus() then Some(DigitsValue(s)) else None
  }

  /** `strconv.ParseInt(s, 10, bitSize)`: an optional `+` or `-`, then decimal
      digits; `None` stands for its syntax and range errors. */
  function ParseInt(s: string, size: BitSize): (r: Option<int>)
    ensures r.Some? ==> InSignedRange(r.value, size)
  {
    if s == [] then None
    else
      var neg := s[0] == '-';
      var digits := if s[0] == '+' || s[0] == '-' then s[1..] else s;
      if digits == [] || !AllDigits(digits) then None
      else
        var n := DigitsValue(digits);
        if !neg && n >= size.Half() then None
        else if neg && n > size.Half() then None
        else Some(if neg then -(n as int) else n)
  }

  /** The optional sign in front of a signed decimal number. */
  datatype Sign = NoSign | Plus | Minus {
    function Text(): string {
      match this
      case NoSign => ""
      case Plus => "+"
      case Minus => "-"
    }

    function Apply(n: nat): int {
      if Minus? then -(n as int) else n
    }
  }

  /** Unsigned parsing accepts exactly the digit strings, leading zeros
      allowed, whose value fits the width. */
  lemma ParseUintDecimal(k: nat, n: nat, size: BitSize)
    ensures ParseUint(Zeros(k) + FormatNat(n), size) == if InUnsignedRange(n, size) then Some(n) else None
  {
    LeadingZerosValue(k, FormatNat(n));
    FormatNatValue(n);
  }

  /** `ParseUint` inverts `FormatUint` on the width's range and rejects the
      rendering of every number outside it. */
  lemma ParseFormatUint(n: nat, size: BitSize)
    ensures ParseUint(FormatNat(n), size) == if InUnsignedRange(n, size) then Some(n) else None
  {
    FormatNatValue(n);
  }

  /** Whatever unsigned parsing accepts has that form. */
  lemma ParseUintForm(s: string, size: BitSize) returns (k: nat)
    requires ParseUint(s, size).Some?
    ensures s == Zeros(k) + FormatNat(ParseUint(s, size).value)
  {
    k := DigitsCanonical(s);
  }

  /** A leading sign makes unsigned parsing fail (Go reports a syntax error). */
  lemma ParseUintRejectsSign(s: string, size: BitSize)
    requires s != [] && (s[0] == '+' || s[0] == '-')
    ensures ParseUint(s, size) == None
  {
    assert !IsDigit(s[0]);
  }

  /** Signed parsing accepts an optional sign, then digit strings with leading
      zeros allowed, exactly when the signed value fits the width. */
  lemma ParseIntDecimal(sign: Sign, k: nat, n: nat, size: BitSize)
    ensures ParseInt(sign.Text() + Zeros(k) + FormatNat(n), size)
         == if InSignedRange(sign.Apply(n), size) then Some(sign.Apply(n)) else None
  {
    var digits := Zeros(k) + FormatNat(n);
    var s := sign.Text() + digits;
    assert s == sign.Text() + Zeros(k) + FormatNat(n);
    LeadingZerosValue(k, FormatNat(n));
    FormatNatValue(n);
    assert DigitsValue(digits) == n;
    assert digits != [] && IsDigit(digits[0]);
    SignedDigits(sign, digits, size);
  }

  /** One step of `ParseInt`: the sign is split off and the rest read as digits. */
  lemma SignedDigits(sign: Sign, digits: string, size: BitSize)
    requires digits != [] && AllDigits(digits)
    ensures ParseInt(sign.Text() + digits, size)
         == var v := sign.Apply(DigitsValue(digits));
            if InSignedRange(v, size) then Some(v) else None
  {
    var s := sign.Text() + digits;
    assert IsDigit(digits[0]);
    if sign.NoSign? {
      assert s == digits;
    } else {
      assert s[0] == sign.Text()[0];
      assert s[1..] == digits;
    }
  }

  /** Whatever signed parsing accepts has that form. */
  lemma ParseIntForm(s: string, size: BitSize) returns (sign: Sign, k: nat, n: nat)
    requires ParseInt(s, size).Some?
    ensures s == sign.Text() + Zeros(k) + FormatNat(n)
    ensures ParseInt(s, size).value == sign.Apply(n)
  {
    var digits;
    sign, digits := ParseIntSplit(s, size);
    n := DigitsValue(digits);
    k := DigitsCanonical(digits);
  }

  /** What signed parsing accepts is a sign and a digit string. */
  lemma ParseIntSplit(s: string, size: BitSize) returns (sign: Sign, digits: string)
    requires ParseInt(s, size).Some?
    ensures s == sign.Text() + digits && digits != [] && AllDigits(digits)
    ensures ParseInt(s, size).value == sign.Apply(DigitsValue(digits))
  {
    sign := if s[0] == '+' then Plus else if s[0] == '-' then Minus else NoSign;
    digits := if sign.NoSign? then s else s[1..];
    if !sign.NoSign? {
      assert s == [s[0]] + s[1..];
    }
  }

  /** `ParseInt` inverts `FormatInt` on the width's range and rejects the
      rendering of every number outside it. */
  lemma ParseFormatInt(i: int, size: BitSize)
    ensures ParseInt(FormatInt(i), size) == if InSignedRange(i, size) then Some(i) else None
  {
    var sign := if i < 0 then Minus else NoSign;
    var n: nat := if i < 0 then -i else i;
    ParseIntDecimal(sign, 0, n, size);
    assert sign.Text() + Zeros(0) + FormatNat(n) == FormatInt(i);
  }
}
