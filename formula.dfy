// Linear formula transcoding between a UI value and its encoded form.
//
// A formula of the catalog has the shape `(UI_VALUE op offset) * mul / div`. The model
// takes it already read into its four parts; `Unsupported` stands for a formula text the
// parser does not recognise, or a missing one.

module Formula {
  import opened Wrappers
  import opened Text

  datatype Op = Add | Sub | Mul | Div

  datatype Formula =
    | Linear(op: Op, offset: real, mul: real, div: real)
    | Unsupported

  // ----- numbers as text -----

  predicate AllDigits(s: string) { forall i :: 0 <= i < |s| ==> IsDigitChar(s[i]) }

  function Pow10(n: nat): (r: nat)
    ensures r >= 1
  {
    if n == 0 then 1 else 10 * Pow10(n - 1)
  }

  /** The value of an unsigned decimal `digits[.digits]`, `.digits` or `digits.` */
  function UnsignedDecimal(body: string): Option<real>
  {
    match FindFrom(body, ".", 0)
    case None => if IsDigits(body) then Some(DigitsValue(body) as real) else None
    case Some(i) =>
      var whole, frac := body[..i], body[i + 1..];
      if AllDigits(whole) && AllDigits(frac) && |whole| + |frac| > 0 then
        Some(DigitsValue(whole) as real + DigitsValue(frac) as real / Pow10(|frac|) as real)
      else None
  }

  /** `float(s)` over decimal text: surrounding whitespace, an optional sign, a decimal. */
  function ParseDecimal(s: string): (r: Option<real>)
  {
    var t := Strip(s);
    if |t| > 0 && (t[0] == '-' || t[0] == '+') then
      match UnsignedDecimal(t[1..])
      case None => None
      case Some(v) => Some(if t[0] == '-' then -v else v)
    else UnsignedDecimal(t)
  }

  /** Integer text reads back as the same number. */
  lemma ParseIntText(n: int)
    ensures ParseDecimal(IntToString(n)) == Some(n as real)
  {
    var s := IntToString(n);
    var m: nat := if n < 0 then -n else n;
    var d := NatToDigits(m);
    LStripNoop(s);
    RStripNoop(s);
    DecimalOfDigits(m);
    if n < 0 {
      assert s[0] == '-' && s[1..] == d;
    } else {
      assert s == d && IsDigitChar(s[0]);
    }
  }

  /** The digits of a natural number read back as that number. */
  lemma DecimalOfDigits(m: nat)
    ensures UnsignedDecimal(NatToDigits(m)) == Some(m as real)
  {
    var d := NatToDigits(m);
    DigitsOfNat(m);
    NoDotInDigits(d);
  }

  lemma NoDotInDigits(d: string)
    requires IsDigits(d)
    ensures FindFrom(d, ".", 0).None?
  {
    forall j | 0 <= j < |d| ensures !OccursAt(d, ".", j) {
      assert d[j..j + 1] == [d[j]];
    }
  }

  // ----- rounding -----

  /** Python's `round(x)`: the nearest integer, ties to the even one. */
  function RoundHalfEven(x: real): (r: int)
    ensures -1.0 / 2.0 <= r as real - x <= 1.0 / 2.0
    ensures (r as real - x == 1.0 / 2.0 || x - r as real == 1.0 / 2.0) ==> r % 2 == 0
  {
    var f := x.Floor;
    var d := x - f as real;
    if d < 1.0 / 2.0 then f
    else if d > 1.0 / 2.0 then f + 1
    else if f % 2 == 0 then f else f + 1
  }

  /** Rounding an integer gives it back. */
  lemma RoundInt(n: int)
    ensures RoundHalfEven(n as real) == n
  {
  }

  // ----- evaluation over reals -----

  /** `eval` of the formula with `UI_VALUE` bound to `u`; `None` where Python raises. */
  function Forward(f: Formula, u: real): (r: Option<real>)
    ensures f.Unsupported? ==> r.None?
    ensures f.Linear? ==> (r.None? <==> f.div == 0.0 || (f.op == Div && f.offset == 0.0))
    ensures f.Linear? && f.op == Add && f.div != 0.0 ==> r.Some? && r.value == (u + f.offset) * f.mul / f.div
    ensures f.Linear? && f.op == Sub && f.div != 0.0 ==> r.Some? && r.value == (u - f.offset) * f.mul / f.div
  {
    if f.Unsupported? || f.div == 0.0 then None
    else
      match Inner(f.op, u, f.offset)
      case None => None
      case Some(x) => Some(x * f.mul / f.div)
  }

  /** The parenthesised part `(UI_VALUE op offset)`. */
  function Inner(op: Op, u: real, offset: real): (r: Option<real>)
    ensures r.None? <==> op == Div && offset == 0.0
    ensures op == Add ==> r.Some? && r.value == u + offset
    ensures op == Sub ==> r.Some? && r.value == u - offset
  {
    match op
    case Add => Some(u + offset)
    case Sub => Some(u - offset)
    case Mul => Some(u * offset)
    case Div => if offset == 0.0 then None else Some(u / offset)
  }

  /** The inverse of `reverse_formula`: only `+` and `-` are invertible, and `mul` must be non-zero. */
  function Reverse(f: Formula, e: real): (r: Option<real>)
    ensures r.Some? <==> f.Linear? && (f.op == Add || f.op == Sub) && f.mul != 0.0
  {
    match f
    case Unsupported => None
    case Linear(op, offset, mul, div) =>
      if mul == 0.0 then None
      else if op == Add then Some(e * div / mul - offset)
      else if op == Sub then Some(e * div / mul + offset)
      else None
  }

  predicate Invertible(f: Formula)
  {
    f.Linear? && (f.op == Add || f.op == Sub) && f.mul != 0.0 && f.div != 0.0
  }

  /** Reversing the encoding of a UI value gives that UI value back. */
  lemma ReverseForward(f: Formula, u: real)
    requires Invertible(f)
    ensures Forward(f, u).Some? && Reverse(f, Forward(f, u).value).Some?
    ensures Reverse(f, Forward(f, u).value).value == u
  {
    var e := Forward(f, u).value;
    var x := if f.op == Add then u + f.offset else u - f.offset;
    assert e == x * f.mul / f.div;
    assert e * f.div == x * f.mul;
    assert e * f.div / f.mul == x;
  }

  /** Encoding the reversed value gives the encoded value back. */
  lemma ForwardReverse(f: Formula, e: real)
    requires Invertible(f)
    ensures Reverse(f, e).Some? && Forward(f, Reverse(f, e).value).Some?
    ensures Forward(f, Reverse(f, e).value).value == e
  {
    var u := Reverse(f, e).value;
    var x := e * f.div / f.mul;
    assert x * f.mul == e * f.div;
    assert (if f.op == Add then u + f.offset else u - f.offset) == x;
    assert x * f.mul / f.div == e;
  }

  /** Two reversals undo two encodings. */
  lemma ReverseTwiceForwardTwice(f: Formula, u: real)
    requires Invertible(f)
    ensures Forward(f, u).Some? && Forward(f, Forward(f, u).value).Some?
    ensures var e := Forward(f, Forward(f, u).value).value;
            Reverse(f, e).Some? && Reverse(f, Reverse(f, e).value).Some?
            && Reverse(f, Reverse(f, e).value).value == u
  {
    var i := Forward(f, u).value;
    ReverseForward(f, u);
    ReverseForward(f, i);
  }

  // ----- the client copy (cli/common/util/commit_utils.py) -----

  /** `apply_formula_once`: the encoding, rounded to an integer; the input text on failure. */
  function ClientOnce(value: string, f: Formula): (r: string)
    ensures ParseDecimal(value).None? ==> r == value
    ensures ParseDecimal(value).Some? && Forward(f, ParseDecimal(value).value).Some? ==>
              r == IntToString(RoundHalfEven(Forward(f, ParseDecimal(value).value).value))
    ensures f.Unsupported? ==> r == value
  {
    match ParseDecimal(value)
    case None => value
    case Some(u) =>
      match Forward(f, u)
      case None => value
      case Some(x) => IntToString(RoundHalfEven(x))
  }

  /** `apply_formula_twice`: the unrounded first result is encoded again; only the end is rounded. */
  function ClientTwice(value: string, f: Formula): (r: string)
    ensures f.Unsupported? || ParseDecimal(value).None? ==> r == value
    ensures ParseDecimal(value).Some? ==>
              var once := Forward(f, ParseDecimal(value).value);
              && (once.None? || Forward(f, once.value).None? ==> r == value)
              && (once.Some? && Forward(f, once.value).Some? ==>
                    r == IntToString(RoundHalfEven(Forward(f, once.value).value)))
  {
    match ParseDecimal(value)
    case None => value
    case Some(u) =>
      match Forward(f, u)
      case None => value
      case Some(i) =>
        match Forward(f, i)
        case None => value
        case Some(x) => IntToString(RoundHalfEven(x))
  }

  /** `reverse_formula`: the unrounded UI value as float text. Once the input has been read as a
      number, a failure returns that number as float text rather than the input text. */
  function ClientReverse(value: string, f: Formula, showFloat: real -> string): (r: string)
    ensures ParseDecimal(value).None? ==> r == value
    ensures ParseDecimal(value).Some? ==>
              r == showFloat(Reverse(f, ParseDecimal(value).value).GetOr(ParseDecimal(value).value))
  {
    match ParseDecimal(value)
    case None => value
    case Some(e) =>
      match Reverse(f, e)
      case None => showFloat(e)
      case Some(u) => showFloat(u)
  }

  // ----- the server copy (cli_server/common/utils/commit_utils.py) -----

  /** Server `apply_formula_once`: the unrounded encoding as float text. */
  function ServerOnce(value: string, f: Formula, showFloat: real -> string): (r: string)
    ensures ParseDecimal(value).None? || f.Unsupported? ==> r == value
    ensures ParseDecimal(value).Some? && Forward(f, ParseDecimal(value).value).Some? ==>
              r == showFloat(Forward(f, ParseDecimal(value).value).value)
  {
    match ParseDecimal(value)
    case None => value
    case Some(u) =>
      match Forward(f, u)
      case None => value
      case Some(x) => showFloat(x)
  }

  /** Server `apply_formula_twice`: two unrounded encodings. */
  function ServerTwice(value: string, f: Formula, showFloat: real -> string): (r: string)
    ensures ParseDecimal(value).None? || f.Unsupported? ==> r == value
    ensures ParseDecimal(value).Some? ==>
              var once := Forward(f, ParseDecimal(value).value);
              && (once.None? || Forward(f, once.value).None? ==> r == value)
              && (once.Some? && Forward(f, once.value).Some? ==> r == showFloat(Forward(f, once.value).value))
  {
    match ParseDecimal(value)
    case None => value
    case Some(u) =>
      match Forward(f, u)
      case None => value
      case Some(i) =>
        match Forward(f, i)
        case None => value
        case Some(x) => showFloat(x)
  }

  /** Server `reverse_formula`: the UI value rounded to an integer. */
  function ServerReverse(value: string, f: Formula, showFloat: real -> string): (r: string)
    ensures ParseDecimal(value).None? ==> r == value
    ensures ParseDecimal(value).Some? && Reverse(f, ParseDecimal(value).value).Some? ==>
              r == IntToString(RoundHalfEven(Reverse(f, ParseDecimal(value).value).value))
    ensures ParseDecimal(value).Some? && Reverse(f, ParseDecimal(value).value).None? ==>
              r == showFloat(ParseDecimal(value).value)
  {
    match ParseDecimal(value)
    case None => value
    case Some(e) =>
      match Reverse(f, e)
      case None => showFloat(e)
      case Some(u) => IntToString(RoundHalfEven(u))
  }

  /** On the server, an integer UI value survives encoding followed by decoding, provided the
      float text of the encoded value reads back as that value. */
  lemma ServerIntegerRoundTrip(n: int, f: Formula, showFloat: real -> string)
    requires Invertible(f)
    requires ParseDecimal(showFloat(Forward(f, n as real).value)) == Some(Forward(f, n as real).value)
    ensures ServerReverse(ServerOnce(IntToString(n), f, showFloat), f, showFloat) == IntToString(n)
  {
    ParseIntText(n);
    ReverseForward(f, n as real);
    RoundInt(n);
  }

  /** On the client, decoding an encoded text twice gives the twice-decoded number, provided
      the intermediate float text reads back as that number. */
  lemma ClientReverseTwice(value: string, f: Formula, showFloat: real -> string)
    requires Invertible(f)
    requires ParseDecimal(value).Some?
    requires ParseDecimal(showFloat(Reverse(f, ParseDecimal(value).value).value))
             == Reverse(f, ParseDecimal(value).value)
    ensures ClientReverse(ClientReverse(value, f, showFloat), f, showFloat)
            == showFloat(Reverse(f, Reverse(f, ParseDecimal(value).value).value).value)
  {
  }
}
