/** The type-directed assignment dispatcher of scanline.go (`assign`,
    `parseInt`, `parseUint`): a closed set of destination kinds, the
    conversion of a line of text into a value of that kind, and the write
    through the destination that happens only when the conversion succeeds. */
module Assignment {
  import opened Errors
  import opened Strconv

  /** The dynamic type of the destination pointer: `*string`, `*bool`, a
      signed or unsigned integer of the given width (`*int` and `*uint` are
      `Word`), a type implementing `encoding.TextUnmarshaler`, or any other
      type except `*float32` and `*float64`, which are not modelled. The
      unmarshaler's `UnmarshalText` is caller code; it is modelled by which
      texts it accepts. */
  datatype Kind =
    | StringD
    | BoolD
    | IntD(size: BitSize)
    | UintD(size: BitSize)
    | Unmarshaler(accepts: string -> bool)
    | Other

  /** What a destination holds. `Text(raw)` is the state of a text
      unmarshaler after it accepted `raw`. */
  datatype Value = Str(s: string) | Bool(b: bool) | Int(i: int) | Uint(n: nat) | Text(raw: string)

  /** `v` is a value the destination kind `k` can hold. */
  predicate Fits(v: Value, k: Kind) {
    match k
    case StringD => v.Str?
    case BoolD => v.Bool?
    case IntD(size) => v.Int? && InSignedRange(v.i, size)
    case UintD(size) => v.Uint? && InUnsignedRange(v.n, size)
    case Unmarshaler(accepts) => v.Text? && accepts(v.raw)
    case Other => false
  }

  /** `v` has the Go type of the destination: a string for `*string`, a
      boolean for `*bool`, an integer of the destination's range for the
      integer kinds, and any unmarshaler state for a text unmarshaler. The
      value behind an unsupported pointer is never read or written. */
  predicate Typed(v: Value, k: Kind) {
    match k
    case Unmarshaler(_) => v.Text?
    case Other => true
    case _ => Fits(v, k)
  }

  /** Go's conversion of an `int64` to the destination's signed type:
      `int8(v)`, `int16(v)`, `int32(v)` keep the low bits as a two's
      complement number, `int(v)` on a 64-bit platform and the `*int64` case
      keep `v`. The range check before it makes it lossless. */
  function NarrowSigned(v: int, size: BitSize): (r: int)
    ensures InSignedRange(r, size)
    ensures r % size.Modulus() == v % size.Modulus()
    ensures InSignedRange(v, size) ==> r == v
  {
    var m := v % size.Modulus();
    if m < size.Half() then m else m - size.Modulus()
  }

  /** Go's conversion of a `uint64` to the destination's unsigned type:
      `uint8(v)`, `uint16(v)`, `uint32(v)` keep the low bits; lossless after
      the range check. */
  function NarrowUnsigned(v: nat, size: BitSize): (r: nat)
    ensures InUnsignedRange(r, size)
    ensures r % size.Modulus() == v % size.Modulus()
    ensures InUnsignedRange(v, size) ==> r == v
  {
    v % size.Modulus()
  }

  /** `parseInt`: `strconv.ParseInt` in base 10 on the text without its
      surrounding white space; every failure is `ErrParse`. */
  function ParseSigned(src: string, size: BitSize): (r: Result<int>)
    ensures r.Success? ==> InSignedRange(r.value, size)
    ensures r.Failure? ==> r.error == ParseErr
  {
    match ParseInt(TrimSpace(src), size)
    case None => Failure(ParseErr)
    case Some(v) => Success(v)
  }

  /** `parseUint`: `strconv.ParseUint` in base 10 on the text without its
      surrounding white space; every failure is `ErrParse`. */
  function ParseUnsigned(src: string, size: BitSize): (r: Result<nat>)
    ensures r.Success? ==> InUnsignedRange(r.value, size)
    ensures r.Failure? ==> r.error == ParseErr
  {
    match ParseUint(TrimSpace(src), size)
    case None => Failure(ParseErr)
    case Some(v) => Success(v)
  }

  /** The conversion `assign` performs for a destination of kind `kind`:
      the value it stores, or the error it returns instead. */
  function Dispatch(src: string, kind: Kind): (r: Result<Value>)
    ensures r.Success? ==> Fits(r.value, kind)
    ensures r.Failure? ==> r.error == if kind.Other? then Unsupported else ParseErr
  {
    match kind
    case StringD => Success(Str(src))
    case BoolD =>
      (match ParseBool(TrimSpace(src))
       case None => Failure(ParseErr)
       case Some(b) => Success(Bool(b)))
    case IntD(size) =>
      (match ParseSigned(src, size)
       case Failure(e) => Failure(e)
       case Success(v) => Success(Int(NarrowSigned(v, size))))
    case UintD(size) =>
      (match ParseUnsigned(src, size)
       case Failure(e) => Failure(e)
       case Success(v) => Success(Uint(NarrowUnsigned(v, size))))
    case Unmarshaler(accepts) =>
      if accepts(src) then Success(Text(src)) else Failure(ParseErr)
    case Other => Failure(Unsupported)
  }

  /** A caller-supplied destination pointer: its kind is fixed, `value` is
      what it points to. */
  class Destination {
    const kind: Kind
    var value: Value

    constructor (kind: Kind, initial: Value)
      requires Typed(initial, kind)
      ensures this.kind == kind && value == initial
    {
      this.kind := kind;
      value := initial;
    }
  }

  /** `assign(src, dest)`: stores the converted value through `dest` when the
      conversion succeeds, and leaves `dest` as it was when it fails. */
  method Assign(src: string, dest: Destination) returns (err: Option<Error>)
    modifies dest
    ensures old(Typed(dest.value, dest.kind)) ==> Typed(dest.value, dest.kind)
    ensures match Dispatch(src, dest.kind)
      case Success(v) => err == None && dest.value == v
      case Failure(e) => err == Some(e) && dest.value == old(dest.value)
  {
    var r := Dispatch(src, dest.kind);
    match r {
      case Success(v) =>
        dest.value := v;
        err := None;
      case Failure(e) =>
        err := Some(e);
    }
  }

  // ---------------------------------------------------------------------
  // Properties of the dispatcher
  // ---------------------------------------------------------------------

  /** The textual rendering of a value: what a user types to obtain it. */
  function Render(v: Value): string {
    match v
    case Str(s) => s
    case Bool(b) => FormatBool(b)
    case Int(i) => FormatInt(i)
    case Uint(n) => FormatNat(n)
    case Text(raw) => raw
  }

  /** Every value a destination can hold is obtained back from its rendering. */
  lemma DispatchRoundTrip(v: Value, kind: Kind)
    requires Fits(v, kind)
    ensures Dispatch(Render(v), kind) == Success(v)
  {
    match kind
    case StringD =>
    case BoolD => BoolRoundTrip(v.b);
    case IntD(size) => IntRoundTrip(v.i, size);
    case UintD(size) => UintRoundTrip(v.n, size);
    case Unmarshaler(_) =>
  }

  lemma BoolRoundTrip(b: bool)
    ensures Dispatch(FormatBool(b), BoolD) == Success(Bool(b))
  {
    TrimSpaceKeeps(FormatBool(b));
    ParseBoolSpellings(b);
  }

  lemma IntRoundTrip(i: int, size: BitSize)
    requires InSignedRange(i, size)
    ensures Dispatch(FormatInt(i), IntD(size)) == Success(Int(i))
  {
    TrimSpaceKeeps(FormatInt(i));
    ParseFormatInt(i, size);
  }

  lemma UintRoundTrip(n: nat, size: BitSize)
    requires InUnsignedRange(n, size)
    ensures Dispatch(FormatNat(n), UintD(size)) == Success(Uint(n))
  {
    TrimSpaceKeeps(FormatNat(n));
    ParseFormatUint(n, size);
  }

  /** Boolean and integer destinations ignore white space around the text. */
  lemma DispatchIgnoresSpace(ws1: string, src: string, ws2: string, kind: Kind)
    requires AllSpace(ws1) && AllSpace(ws2)
    requires kind.BoolD? || kind.IntD? || kind.UintD?
    ensures Dispatch(ws1 + src + ws2, kind) == Dispatch(src, kind)
  {
    TrimSpacePadding(ws1, src, ws2);
  }

  /** A string destination receives the text exactly, white space included,
      and never fails. */
  lemma DispatchStringVerbatim(src: string)
    ensures Dispatch(src, StringD) == Success(Str(src))
  {
  }

  /** A signed destination accepts, around optional white space, an optional
      sign and decimal digits (leading zeros allowed) exactly when the number
      fits its width; outside the range it fails with `ErrParse`. */
  lemma DispatchSignedDecimal(ws1: string, sign: Sign, k: nat, n: nat, ws2: string, size: BitSize)
    requires AllSpace(ws1) && AllSpace(ws2)
    ensures Dispatch(ws1 + (sign.Text() + Zeros(k) + FormatNat(n)) + ws2, IntD(size))
         == if InSignedRange(sign.Apply(n), size) then Success(Int(sign.Apply(n))) else Failure(ParseErr)
  {
    var t := sign.Text() + Zeros(k) + FormatNat(n);
    TrimSpacePadding(ws1, t, ws2);
    DecimalUntrimmed(sign, Zeros(k), FormatNat(n));
    ParseIntDecimal(sign, k, n, size);
  }

  /** Everything a signed destination accepts has that form. */
  lemma DispatchSignedForm(src: string, size: BitSize) returns (ws1: string, sign: Sign, k: nat, n: nat, ws2: string)
    requires Dispatch(src, IntD(size)).Success?
    ensures AllSpace(ws1) && AllSpace(ws2)
    ensures src == ws1 + (sign.Text() + Zeros(k) + FormatNat(n)) + ws2
    ensures Dispatch(src, IntD(size)) == Success(Int(sign.Apply(n)))
  {
    ws1, ws2 := TrimSpaceSplit(src);
    sign, k, n := ParseIntForm(TrimSpace(src), size);
  }

  /** An unsigned destination accepts, around optional white space, decimal
      digits (leading zeros allowed) exactly when the number fits its width. */
  lemma DispatchUnsignedDecimal(ws1: string, k: nat, n: nat, ws2: string, size: BitSize)
    requires AllSpace(ws1) && AllSpace(ws2)
    ensures Dispatch(ws1 + (Zeros(k) + FormatNat(n)) + ws2, UintD(size))
         == if InUnsignedRange(n, size) then Success(Uint(n)) else Failure(ParseErr)
  {
    var t := Zeros(k) + FormatNat(n);
    TrimSpacePadding(ws1, t, ws2);
    DigitsUntrimmed(Zeros(k), FormatNat(n));
    ParseUintDecimal(k, n, size);
  }

  /** Everything an unsigned destination accepts has that form. */
  lemma DispatchUnsignedForm(src: string, size: BitSize) returns (ws1: string, k: nat, ws2: string)
    requires Dispatch(src, UintD(size)).Success?
    ensures AllSpace(ws1) && AllSpace(ws2)
    ensures src == ws1 + (Zeros(k) + FormatNat(Dispatch(src, UintD(size)).value.n)) + ws2
  {
    ws1, ws2 := TrimSpaceSplit(src);
    k := ParseUintForm(TrimSpace(src), size);
  }

  /** A sign in front of the digits makes an unsigned destination fail. */
  lemma DispatchUnsignedRejectsSign(src: string, size: BitSize)
    requires TrimSpace(src) != [] && (TrimSpace(src)[0] == '+' || TrimSpace(src)[0] == '-')
    ensures Dispatch(src, UintD(size)) == Failure(ParseErr)
  {
    ParseUintRejectsSign(TrimSpace(src), size);
  }

  /** A destination of a type outside the supported set always fails with
      `ErrUnsupported`. */
  lemma DispatchOther(src: string)
    ensures Dispatch(src, Other) == Failure(Unsupported)
  {
  }

  /** White space around the digits is ignored, as a user might type them. */
  lemma DispatchPaddedIntExample(src: string)
    requires src == "  42 "
    ensures Dispatch(src, IntD(Word)) == Success(Int(42))
  {
    PaddedFortyTwo(src);
    ParseFormatInt(42, Word);
  }

  lemma PaddedFortyTwo(src: string)
    requires src == "  42 "
    ensures TrimSpace(src) == FormatInt(42)
  {
    var t := src[2..4];
    assert src == src[..2] + t + src[4..];
    TrimSpacePadding(src[..2], t, src[4..]);
    FortyTwo(t);
  }

  lemma FortyTwo(t: string)
    requires t == "42"
    ensures TrimSpace(t) == FormatInt(42)
  {
    assert FormatInt(42) == t;
    TrimSpaceKeeps(t);
  }

  /** Decimal digits have no white space at either end. */
  lemma DigitsUntrimmed(zeros: string, digits: string)
    requires AllDigits(zeros) && AllDigits(digits) && digits != []
    ensures TrimSpace(zeros + digits) == zeros + digits
  {
    var t := zeros + digits;
    assert IsDigit(t[|t| - 1]) by { assert t[|t| - 1] == digits[|digits| - 1]; }
    assert IsDigit(t[0]) by { if zeros == [] { assert t[0] == digits[0]; } }
    TrimSpaceKeeps(t);
  }

  /** A sign followed by decimal digits has no white space at either end. */
  lemma DecimalUntrimmed(sign: Sign, zeros: string, digits: string)
    requires AllDigits(zeros) && AllDigits(digits) && digits != []
    ensures TrimSpace(sign.Text() + zeros + digits) == sign.Text() + zeros + digits
  {
    var t := sign.Text() + zeros + digits;
    if sign.NoSign? {
      assert t == zeros + digits;
      DigitsUntrimmed(zeros, digits);
    } else {
      assert t[|t| - 1] == digits[|digits| - 1];
      assert t[0] == sign.Text()[0];
      TrimSpaceKeeps(t);
    }
  }
}
