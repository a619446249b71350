/** The input document (facts): nested mappings, sequences and scalars, and
    the value classifier that picks a primitive value kind for a scalar. */
module Facts {

  /** A scalar leaf of the document. `Flt` is an opaque floating-point value
      carried with its Python `repr` text. */
  datatype Scalar =
    | Null
    | Bool(b: bool)
    | Int(i: int)
    | Flt(repr: string)
    | Str(s: string)

  /** A document node: a scalar, a mapping (a Python dict, keys in insertion
      order) or a sequence (a Python list). */
  datatype Value =
    | Leaf(scalar: Scalar)
    | Mapping(entries: seq<Entry>)
    | Sequence(items: seq<Value>)

  datatype Entry = Entry(key: string, value: Value)

  /** The primitive value kinds, named after their xs:* data types. */
  datatype ValueKind = XsBoolean | XsInteger | XsFloat | XsString

  /** `isinstance(v, bool)`. */
  predicate IsPyBool(v: Scalar) {
    v.Bool?
  }

  /** `isinstance(v, int)`: in Python a bool is also an int. */
  predicate IsPyInt(v: Scalar) {
    v.Bool? || v.Int?
  }

  /** `isinstance(v, float)`. */
  predicate IsPyFloat(v: Scalar) {
    v.Flt?
  }

  /** The classifier: bool is checked before int, then float; anything else is a string. */
  function Classify(v: Scalar): (k: ValueKind)
    ensures k == XsBoolean <==> v.Bool?
    ensures k == XsInteger <==> v.Int?
    ensures k == XsFloat <==> v.Flt?
    ensures k == XsString <==> v.Null? || v.Str?
  {
    if IsPyBool(v) then XsBoolean
    else if IsPyInt(v) then XsInteger
    else if IsPyFloat(v) then XsFloat
    else XsString
  }

  /** A bool passes the int test too, so only the order of the tests keeps it Boolean. */
  lemma BoolCheckedBeforeInt(b: bool)
    ensures IsPyInt(Bool(b))
    ensures Classify(Bool(b)) == XsBoolean
  {
  }

  function DigitChar(d: nat): (c: char)
    requires d < 10
    ensures '0' <= c <= '9' && DigitValue(c) == d
  {
    "0123456789"[d]
  }

  /** Decimal digits of a natural number, most significant first, no leading zero. */
  function NatToString(n: nat): (r: string)
    ensures |r| > 0
    ensures forall i :: 0 <= i < |r| ==> '0' <= r[i] <= '9'
    ensures |r| > 1 ==> r[0] != '0'
    decreases n
  {
    if n < 10 then [DigitChar(n)]
    else NatToString(n / 10) + [DigitChar(n % 10)]
  }

  /** Python's `str(i)` for an int. */
  function IntToString(i: int): (r: string)
    ensures |r| > 0
    ensures i < 0 <==> r[0] == '-'
  {
    if i < 0 then "-" + NatToString(-i) else NatToString(i)
  }

  /** The value of one decimal digit. */
  function DigitValue(c: char): nat
    requires '0' <= c <= '9'
  {
    c as int - '0' as int
  }

  predicate AllDigits(s: string) {
    forall i :: 0 <= i < |s| ==> '0' <= s[i] <= '9'
  }

  /** Reads a string of decimal digits, most significant first, as the number
      it denotes (Python's `int(s)` on such a string). */
  function DigitsValue(s: string): nat
    requires AllDigits(s)
  {
    if s == [] then 0
    else 10 * DigitsValue(s[..|s| - 1]) + DigitValue(s[|s| - 1])
  }

  /** A non-empty string of decimal digits, optionally led by `-`. */
  predicate SignedDigits(s: string) {
    |s| > 0 && (if s[0] == '-' then AllDigits(s[1..]) else AllDigits(s))
  }

  /** Reads a signed string of decimal digits as the integer it denotes. */
  function SignedValue(s: string): int
    requires SignedDigits(s)
  {
    if s[0] == '-' then -(DigitsValue(s[1..]) as int) else DigitsValue(s)
  }

  /** The digits of `NatToString(n)` denote `n`. */
  lemma {:induction false} NatToStringValue(n: nat)
    ensures AllDigits(NatToString(n)) && DigitsValue(NatToString(n)) == n
    decreases n
  {
    var r := NatToString(n);
    if n >= 10 {
      NatToStringValue(n / 10);
      assert r[..|r| - 1] == NatToString(n / 10);
      assert r[|r| - 1] == DigitChar(n % 10);
    }
  }

  /** Reading `IntToString(i)` back gives `i`: the text denotes the integer,
      sign included. */
  lemma IntToStringValue(i: int)
    ensures SignedDigits(IntToString(i)) && SignedValue(IntToString(i)) == i
  {
    if i < 0 {
      NatToStringValue(-i);
      assert IntToString(i)[1..] == NatToString(-i);
    } else {
      NatToStringValue(i);
    }
  }

  /** Python's `str(v)` for a scalar. */
  function Display(v: Scalar): string {
    match v
    case Null => "None"
    case Bool(b) => if b then "True" else "False"
    case Int(i) => IntToString(i)
    case Flt(repr) => repr
    case Str(s) => s
  }
}
