/**
 * What the models share as Mongoose documents: identifiers, and the casts
 * Mongoose applies when a request value is assigned to a typed path.
 */
module Documents {
  import opened Wrappers
  import opened Js
  import opened Text

  /** An ObjectId; the database hands out fresh ones. */
  type Id = nat

  /** A whole number small enough that `String(n)` writes it out digit by digit. */
  predicate PlainInteger(n: real) {
    n == n.Floor as real && -1_000_000_000_000_000_000_000.0 < n < 1_000_000_000_000_000_000_000.0
  }

  /** `String(n)` for a plain integer: its decimal digits, after a minus sign when negative. */
  function IntegerText(n: real): (t: string)
    requires PlainInteger(n)
    ensures t != [] && (n >= 0.0 ==> AllDigits(t))
  {
    if n >= 0.0 then NatToString(n.Floor) else "-" + NatToString((-n).Floor)
  }

  /** A rendered integer has no white space to trim: it starts with a digit or a minus sign and ends with a digit. */
  lemma IntegerTextTrimmed(n: real)
    requires PlainInteger(n)
    ensures Trimmed(IntegerText(n)) && Trim(IntegerText(n)) == IntegerText(n)
  {
    var t := IntegerText(n);
    var d := NatToString(if n >= 0.0 then n.Floor else (-n).Floor);
    assert t[|t| - 1] == d[|d| - 1];
    SpaceIsNotDigit(d[0]);
    SpaceIsNotDigit(d[|d| - 1]);
    TrimOfUnpadded(t);
  }

  /** Reading a rendered integer back with `Number(...)` gives the integer. */
  lemma IntegerTextReadsBack(n: real)
    requires PlainInteger(n)
    ensures StringToNumber(IntegerText(n)) == Num(n)
  {
    if n >= 0.0 {
      NatToStringReadsBack(n.Floor);
    } else {
      NegativeTextReadsBack(n);
    }
  }

  /** The negative half of `IntegerTextReadsBack`: `"-"` and the digits of the magnitude. */
  lemma NegativeTextReadsBack(n: real)
    requires PlainInteger(n) && n < 0.0
    ensures StringToNumber("-" + NatToString((-n).Floor)) == Num(n)
  {
    NegatedFloor(n);
    var m: nat := (-n).Floor;
    NegativeDigitsRead(NatToString(m));
    DigitsValueOfNatToString(m);
  }

  /** A negative whole number is minus the floor of its negation. */
  lemma NegatedFloor(n: real)
    requires n == n.Floor as real && n < 0.0
    ensures (-n).Floor >= 0 && n == -((-n).Floor as real)
  {
    var k := n.Floor;
    assert -n == (-k) as real;
  }

  /** `Number("-" + d)` for a digit string `d` is minus its value. */
  lemma NegativeDigitsRead(d: string)
    requires d != [] && AllDigits(d)
    ensures StringToNumber("-" + d) == Num(-(DigitsValue(d) as real))
  {
    var t := "-" + d;
    assert t[1..] == d;
    SpaceIsNotDigit(d[|d| - 1]);
    assert !IsSpace(t[0]) && !IsSpace(t[|t| - 1]);
    TrimOfUnpadded(t);
    DigitRunOfDigits(d);
    assert d[..|d|] == d;
  }

  /**
   * Casting to a String path: strings are kept, booleans are spelled out
   * and whole numbers are written in decimal; arrays, objects, NaN and
   * fractional numbers fail.
   */
  function CastString(v: Value): (r: Option<string>)
    ensures v.Str? ==> r == Some(v.s)
    ensures v.Bool? ==> r == Some(if v.b then "true" else "false")
    ensures r.Some? ==> v.Str? || v.Bool? || v.Num?
    ensures v.Num? ==> (r.Some? <==> PlainInteger(v.n))
  {
    match v
    case Str(s) => Some(s)
    case Bool(b) => Some(if b then "true" else "false")
    case Num(n) => if PlainInteger(n) then Some(IntegerText(n)) else None
    case _ => None
  }

  /** The String cast of a number reads back as that number under `Number(...)`. */
  lemma CastStringReadsBack(v: Value)
    requires v.Num? && CastString(v).Some?
    ensures StringToNumber(CastString(v).value) == v
  {
    IntegerTextReadsBack(v.n);
  }

  /** The outcome of casting a value to a Number path. */
  datatype NumberCast = Missing | Number(n: real) | CastFailed

  /**
   * Casting to a Number path: null, undefined and the empty string are
   * missing; numbers are kept; booleans become 1 and 0; other strings go
   * through `Number(...)` and fail when that is NaN; NaN itself, arrays and
   * objects fail.
   */
  function CastNumber(v: Value): (r: NumberCast)
    ensures v.Num? ==> r == Number(v.n)
    ensures v.Undefined? || v.Null? || v == Str([]) ==> r == Missing
    ensures r.Number? ==> v.Num? || v.Bool? || v.Str?
    ensures v.Str? && v.s != [] ==> (r.Number? <==> StringToNumber(v.s).Num?) && (r.Number? ==> StringToNumber(v.s) == Num(r.n))
  {
    match v
    case Undefined => Missing
    case Null => Missing
    case Num(n) => Number(n)
    case Bool(b) => Number(if b then 1.0 else 0.0)
    case Str(s) =>
      if s == [] then Missing
      else (match StringToNumber(s) case Num(n) => Number(n) case _ => CastFailed)
    case _ => CastFailed
  }

  /** The outcome of casting a value to a Boolean path. */
  datatype BooleanCast = NoBoolean | Boolean(b: bool) | NotBoolean

  /**
   * Casting to a Boolean path: true, 'true', 1, '1' and 'yes' are true;
   * false, 'false', 0, '0' and 'no' are false; null and undefined are
   * missing; everything else fails.
   */
  function CastBoolean(v: Value): (r: BooleanCast)
    ensures v.Bool? ==> r == Boolean(v.b)
    ensures r == Boolean(true) ==> Truthy(v)
    ensures r == Boolean(false) ==> v.Str? || !Truthy(v)
  {
    match v
    case Undefined => NoBoolean
    case Null => NoBoolean
    case Bool(b) => Boolean(b)
    case Num(n) => if n == 1.0 then Boolean(true) else if n == 0.0 then Boolean(false) else NotBoolean
    case Str(s) =>
      if s == "true" || s == "1" || s == "yes" then Boolean(true)
      else if s == "false" || s == "0" || s == "no" then Boolean(false)
      else NotBoolean
    case _ => NotBoolean
  }
}
