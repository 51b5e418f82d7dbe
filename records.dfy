/** Entities of the cashier backend and the shape of request values as the
    validators see them. */
module Records {

  datatype Option<T> = None | Some(value: T)

  /** A request field as it reaches a validator, by its JSON type: missing,
      `null`, an integer number, a string that `isInt` accepts (`"5"`,
      `"-07"`, read as its value), a number with a fractional part, a
      boolean, or any other string. Path parameters are always strings.
      Request values are `WellFormed`. */
  datatype Value =
    | Undefined
    | Null
    | Int(n: int)
    | QuotedInt(n: int)
    | Fraction(x: real)
    | Bool(b: bool)
    | Text(s: string)

  /** `isEmpty` on the field's string form: undefined and null read as "". */
  predicate IsEmpty(v: Value) {
    v.Undefined? || v.Null? || v == Text("")
  }

  /** What `isInt` accepts of a string: an optionally signed, non-empty run
      of digits. */
  predicate IntLiteral(s: string) {
    var digits := if s != [] && (s[0] == '-' || s[0] == '+') then s[1..] else s;
    digits != [] && forall i :: 0 <= i < |digits| ==> '0' <= digits[i] <= '9'
  }

  /** A value the JSON layer can hand over: a string `isInt` accepts arrives
      as `QuotedInt`, never as `Text`, and a whole number (`5.0` parses to
      5) as `Int`, never as `Fraction`. Request values satisfy this. */
  predicate WellFormed(v: Value) {
    match v
    case Text(s) => !IntLiteral(s)
    case Fraction(x) => x.Floor as real != x
    case _ => true
  }

  /** The magnitude from which `String(x)` writes a number in exponent
      form (`String(1e21)` is `"1e+21"`). */
  const ExponentFormFrom := 1_000_000_000_000_000_000_000

  /** `isInt` on the field's string form: an optionally signed run of digits.
      A string passes when it is one; a number passes when `String` writes
      it without an exponent. */
  predicate IsInt(v: Value) {
    (v.Int? && -ExponentFormFrom < v.n < ExponentFormFrom) || v.QuotedInt?
  }

  /** JavaScript's `value <= 0`: both sides are converted to numbers, so
      `null` and `false` read as 0, `undefined` as NaN (never `<=`), and a
      string by its numeric reading. */
  predicate AtMostZero(v: Value) {
    match v
    case Undefined => false
    case Null => true
    case Int(n) => n <= 0
    case QuotedInt(n) => n <= 0
    case Fraction(x) => x <= 0.0
    case Bool(b) => !b
    case Text(s) => TextSign(s) == Some(0) || TextSign(s) == Some(-1)
  }

  predicate IsSpace(c: char) {
    c == ' ' || c == '\t' || c == '\n' || c == '\r'
  }

  function TrimStart(s: string): (r: string)
    ensures |r| <= |s|
    ensures r == [] || !IsSpace(r[0])
    decreases |s|
  {
    if s != [] && IsSpace(s[0]) then TrimStart(s[1..]) else s
  }

  function TrimEnd(s: string): (r: string)
    ensures |r| <= |s|
    ensures r == [] || !IsSpace(r[|r| - 1])
    decreases |s|
  {
    if s != [] && IsSpace(s[|s| - 1]) then TrimEnd(s[..|s| - 1]) else s
  }

  /** A decimal literal without sign or exponent: digits with at most one
      point, and at least one digit. */
  predicate IsDecimal(s: string) {
    && (forall i :: 0 <= i < |s| ==> '0' <= s[i] <= '9' || s[i] == '.')
    && (forall i, j :: 0 <= i < j < |s| && s[i] == '.' ==> s[j] != '.')
    && (exists i :: 0 <= i < |s| && '0' <= s[i] <= '9')
  }

  predicate AllZero(s: string) {
    forall i :: 0 <= i < |s| ==> s[i] == '0' || s[i] == '.'
  }

  /** The sign of `Number(s)` for a string: whitespace around is ignored, a
      blank string reads as 0, and anything but an optionally signed decimal
      literal reads as NaN (`None`). */
  function TextSign(s: string): (r: Option<int>)
    ensures r.Some? ==> -1 <= r.value <= 1
  {
    LiteralSign(TrimEnd(TrimStart(s)))
  }

  /** The sign of a trimmed string's numeric reading. */
  function LiteralSign(t: string): (r: Option<int>)
    ensures r.Some? ==> -1 <= r.value <= 1
  {
    if t == "" then Some(0)
    else
      var digits := if t[0] == '-' || t[0] == '+' then t[1..] else t;
      if !IsDecimal(digits) then None
      else if AllZero(digits) then Some(0)
      else if t[0] == '-' then Some(-1)
      else Some(1)
  }

  datatype User = User(id: int, username: string)
  datatype Category = Category(id: int, name: string)
  datatype Product = Product(id: int, name: string, categoryId: int, price: int, stock: int)

  /** A transaction header (`transactions` row); the date column is left out. */
  datatype Transaction = Transaction(id: int, userId: int, totalAmount: int)

  /** A transaction detail (`transaction_details` row). */
  datatype Detail = Detail(id: int, transactionId: int, productId: int, quantity: int, subtotal: int)

  /** One requested line of a sale: `{product_id, quantity}`, read as
      integers. `quoted` records that at least one of the two came as a
      string of digits, which the comparisons and lookups accept but the
      detail table's schema does not. */
  datatype Line = Line(productId: int, quantity: int, quoted: bool)

  /** One express-validator error: the field (`param`) and its message (`msg`). */
  datatype ValidationError = ValidationError(param: string, msg: string)

  function DigitChar(d: nat): (c: char)
    requires d < 10
    ensures '0' <= c <= '9'
  {
    "0123456789"[d]
  }

  /** Decimal digits of a natural number, as a template literal prints it. */
  function NatText(n: nat): (r: string)
    ensures |r| >= 1
    ensures forall i :: 0 <= i < |r| ==> '0' <= r[i] <= '9'
    decreases n
  {
    if n < 10 then [DigitChar(n)] else NatText(n / 10) + [DigitChar(n % 10)]
  }

  /** `${n}` for an integer. */
  function IntText(n: int): (r: string)
    ensures |r| >= 1
    ensures (r[0] == '-') <==> n < 0
  {
    if n < 0 then "-" + NatText(-n) else NatText(n)
  }

  /** The part of a decimal literal before its point. */
  function Whole(s: string): (w: string)
    ensures |w| <= |s| && w == s[..|w|]
    ensures forall i :: 0 <= i < |w| ==> w[i] != '.'
    decreases |s|
  {
    if s == [] || s[0] == '.' then [] else [s[0]] + Whole(s[1..])
  }

  function DigitValue(c: char): nat {
    if '0' <= c <= '9' then c as int - '0' as int else 0
  }

  /** The value of a string of decimal digits. */
  function DigitsValue(s: string): nat
    decreases |s|
  {
    if s == [] then 0 else 10 * DigitsValue(s[..|s| - 1]) + DigitValue(s[|s| - 1])
  }

  /** The row id a string names when the database compares it with an
      integer key, as MySQL does: surrounding whitespace is ignored, and an
      optionally signed decimal literal whose digits after the point are all
      zeros reads as its whole part. Anything else names no row. */
  function TextId(s: string): Option<int> {
    LiteralId(TrimEnd(TrimStart(s)))
  }

  /** `TextId` of a trimmed string. */
  function LiteralId(t: string): Option<int> {
    if t == "" then None
    else if t[0] == '-' then
      match DecimalId(t[1..])
      case Some(v) => Some(-v)
      case None => None
    else if t[0] == '+' then DecimalId(t[1..])
    else DecimalId(t)
  }

  /** The value of an unsigned decimal literal with nothing but zeros after
      its point. */
  function DecimalId(digits: string): Option<int> {
    if IsDecimal(digits) && AllZero(digits[|Whole(digits)|..]) then Some(DigitsValue(Whole(digits)))
    else None
  }

  lemma {:induction false} NatTextLeading(n: nat)
    ensures NatText(n)[0] == '0' <==> n == 0
    decreases n
  {
    if n >= 10 {
      NatTextLeading(n / 10);
      assert NatText(n)[0] == NatText(n / 10)[0];
    }
  }

  /** The digits of a natural number form a decimal literal, all zeros
      exactly for zero. */
  lemma NatTextDecimal(m: nat)
    ensures IsDecimal(NatText(m))
    ensures AllZero(NatText(m)) <==> m == 0
  {
    var digits := NatText(m);
    NatTextLeading(m);
    assert '0' <= digits[0] <= '9';
    if m == 0 {
      assert digits == "0";
    }
  }

  lemma TrimsNothing(t: string)
    requires t != "" && !IsSpace(t[0]) && !IsSpace(t[|t| - 1])
    ensures TrimEnd(TrimStart(t)) == t
  {
  }

  /** The text of an integer, read as a number, has that integer's sign. */
  lemma IntTextSign(n: int)
    ensures LiteralSign(IntText(n)) == Some(if n < 0 then -1 else if n == 0 then 0 else 1)
  {
    var m: nat := if n < 0 then -n else n;
    var digits := NatText(m);
    NatTextDecimal(m);
    if n < 0 {
      assert IntText(n)[1..] == digits by {
        assert IntText(n) == "-" + digits;
      }
    }
  }

  lemma IntTextTrimmed(n: int)
    ensures TrimEnd(TrimStart(IntText(n))) == IntText(n)
  {
    var m: nat := if n < 0 then -n else n;
    var digits := NatText(m);
    var t := IntText(n);
    assert t[|t| - 1] == digits[|digits| - 1];
    TrimsNothing(t);
  }

  /** The text of an integer reads, under JavaScript's number conversion,
      with that integer's sign: comparing the digit string the request sent
      with 0 gives what comparing the integer does. */
  lemma QuotedIntReadsAsText(n: int)
    ensures TextSign(IntText(n)) == Some(if n < 0 then -1 else if n == 0 then 0 else 1)
    ensures AtMostZero(Text(IntText(n))) == AtMostZero(QuotedInt(n))
  {
    IntTextTrimmed(n);
    IntTextSign(n);
  }

  lemma DigitCharValue(d: nat)
    requires d < 10
    ensures DigitValue(DigitChar(d)) == d
  {
  }

  /** Reading the digits of a natural number gives it back. */
  lemma {:induction false} DigitsValueNatText(m: nat)
    ensures DigitsValue(NatText(m)) == m
    decreases m
  {
    if m >= 10 {
      DigitsValueNatText(m / 10);
      var s := NatText(m);
      assert s[..|s| - 1] == NatText(m / 10);
      DigitCharValue(m % 10);
    } else {
      DigitCharValue(m);
    }
  }

  lemma {:induction false} WholeOfNoPoint(a: string, b: string)
    requires forall i :: 0 <= i < |a| ==> a[i] != '.'
    requires b == [] || b[0] == '.'
    ensures Whole(a + b) == a
    decreases |a|
  {
    if a == [] {
      assert a + b == b;
    } else {
      assert (a + b)[1..] == a[1..] + b;
      WholeOfNoPoint(a[1..], b);
    }
  }

  /** A point followed by zeros, or nothing. */
  predicate ZeroTail(tail: string) {
    tail == [] || (tail[0] == '.' && forall i :: 1 <= i < |tail| ==> tail[i] == '0')
  }

  lemma DigitsWithZeroTail(digits: string, tail: string)
    requires IsDecimal(digits) && forall i :: 0 <= i < |digits| ==> '0' <= digits[i] <= '9'
    requires ZeroTail(tail)
    ensures IsDecimal(digits + tail)
    ensures Whole(digits + tail) == digits
    ensures AllZero((digits + tail)[|digits|..])
  {
    var s := digits + tail;
    WholeOfNoPoint(digits, tail);
    assert s[|digits|..] == tail;
    assert forall i :: 0 <= i < |s| && s[i] == '.' ==> i == |digits|;
    assert exists i :: 0 <= i < |s| && '0' <= s[i] <= '9' by {
      assert '0' <= s[0] <= '9';
    }
  }

  lemma DecimalIdOfNatText(m: nat, tail: string)
    requires ZeroTail(tail)
    ensures DecimalId(NatText(m) + tail) == Some(m)
  {
    NatTextDecimal(m);
    DigitsValueNatText(m);
    DigitsWithZeroTail(NatText(m), tail);
  }

  lemma LiteralIdNegative(d: string, v: int)
    requires DecimalId(d) == Some(v)
    ensures LiteralId("-" + d) == Some(-v)
  {
    assert ("-" + d)[1..] == d;
  }

  lemma LiteralIdUnsigned(d: string, v: int)
    requires d != [] && '0' <= d[0] <= '9'
    requires DecimalId(d) == Some(v)
    ensures LiteralId(d) == Some(v)
  {
  }

  lemma LiteralIdOfIntText(n: int, tail: string)
    requires ZeroTail(tail)
    ensures LiteralId(IntText(n) + tail) == Some(n)
  {
    var m: nat := if n < 0 then -n else n;
    var d := NatText(m) + tail;
    DecimalIdOfNatText(m, tail);
    if n < 0 {
      assert IntText(n) + tail == "-" + d;
      LiteralIdNegative(d, m);
    } else {
      assert IntText(n) + tail == d;
      assert d[0] == NatText(m)[0];
      LiteralIdUnsigned(d, m);
    }
  }

  /** The database reads the text of an integer, bare or followed by a
      point and zeros (`"5.0"`), as that integer. */
  lemma IntTextNamesItsRow(n: int, tail: string)
    requires ZeroTail(tail)
    ensures TextId(IntText(n) + tail) == Some(n)
  {
    var m: nat := if n < 0 then -n else n;
    var digits := NatText(m);
    var t := IntText(n) + tail;
    assert t[0] == IntText(n)[0];
    assert t[|t| - 1] == if tail == [] then digits[|digits| - 1] else tail[|tail| - 1];
    TrimsNothing(t);
    LiteralIdOfIntText(n, tail);
  }

  /** An integer's text is what `isInt` accepts, so as a request value it is
      the `QuotedInt` of that integer and never `Text`. */
  lemma IntTextIsIntLiteral(n: int)
    ensures IntLiteral(IntText(n))
    ensures !WellFormed(Text(IntText(n)))
  {
    var m: nat := if n < 0 then -n else n;
    if n < 0 {
      assert IntText(n)[1..] == NatText(m);
    } else {
      NatTextLeading(m);
      assert IntText(n) == NatText(m);
    }
  }
}
