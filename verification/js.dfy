/**
 * The slice of JavaScript's value model the request handlers observe:
 * JSON request bodies, truthiness, optional chaining and `typeof`.
 * Numbers are exact reals (JSON has no NaN or Infinity); `NotANumber`
 * stands for the NaN a failed numeric conversion produces at run time.
 */
module Js {
  import opened Wrappers
  import opened Text

  datatype Value =
    | Undefined
    | Null
    | Bool(b: bool)
    | Num(n: real)
    | NotANumber
    | Str(s: string)
    | Arr(items: seq<Value>)
    | Obj(fields: map<string, Value>)

  /** JavaScript's ToBoolean: the falsy values are undefined, null, false, 0, NaN and "". */
  predicate Truthy(v: Value) {
    match v
    case Undefined => false
    case Null => false
    case Bool(b) => b
    case Num(n) => n != 0.0
    case NotANumber => false
    case Str(s) => s != []
    case Arr(_) => true
    case Obj(_) => true
  }

  /** `a || b`: the first operand when it is truthy, the second otherwise. */
  function Or(a: Value, b: Value): (r: Value)
    ensures Truthy(a) ==> r == a
    ensures !Truthy(a) ==> r == b
  {
    if Truthy(a) then a else b
  }

  /** `o?.key` for a plain object; every other value has none of the keys the handlers read. */
  function Get(o: Value, key: string): (r: Value)
    ensures !o.Obj? ==> r == Undefined
    ensures o.Obj? && key !in o.fields ==> r == Undefined
  {
    match o
    case Obj(fields) => if key in fields then fields[key] else Undefined
    case _ => Undefined
  }

  /** A field of an object record, `undefined` when absent. */
  function Field(m: map<string, Value>, key: string): (r: Value)
    ensures key in m ==> r == m[key]
    ensures key !in m ==> r == Undefined
  {
    if key in m then m[key] else Undefined
  }

  /** `typeof v`. */
  function TypeOf(v: Value): (r: string)
    ensures r == "object" <==> (v.Null? || v.Arr? || v.Obj?)
    ensures r == "string" <==> v.Str?
    ensures r == "number" <==> (v.Num? || v.NotANumber?)
  {
    match v
    case Undefined => "undefined"
    case Null => "object"
    case Bool(_) => "boolean"
    case Num(_) => "number"
    case NotANumber => "number"
    case Str(_) => "string"
    case Arr(_) => "object"
    case Obj(_) => "object"
  }

  /* ------------------------------------------------- string to number */

  /** The number of leading decimal digits of `s`. */
  function DigitRun(s: string): (k: nat)
    ensures k <= |s| && AllDigits(s[..k])
    ensures k == |s| || !IsDigit(s[k])
  {
    if s != [] && IsDigit(s[0]) then
      var k' := DigitRun(s[1..]);
      assert s[..1 + k'] == [s[0]] + s[1..][..k'];
      1 + k'
    else 0
  }

  lemma {:induction false} DigitRunOfDigits(s: string)
    requires AllDigits(s)
    ensures DigitRun(s) == |s|
    decreases |s|
  {
    if s != [] {
      DigitRunOfDigits(s[1..]);
    }
  }

  /**
   * Reads an optional sign, decimal digits and, when `fractions` holds, a
   * '.' followed by more digits; yields the value and the number of
   * characters read, or None when no digit was read.
   */
  function ScanDecimal(t: string, fractions: bool): (r: Option<(real, nat)>)
    ensures r.Some? ==> r.value.1 <= |t|
  {
    var signLen := if |t| > 0 && (t[0] == '-' || t[0] == '+') then 1 else 0;
    var negative := signLen == 1 && t[0] == '-';
    var body := t[signLen..];
    var w := DigitRun(body);
    var whole := DigitsValue(body[..w]) as real;
    if fractions && w < |body| && body[w] == '.' then
      var after := body[w + 1..];
      var f := DigitRun(after);
      if w == 0 && f == 0 then None
      else
        var magnitude := whole + (DigitsValue(after[..f]) as real) / (Pow10(f) as real);
        Some((if negative then -magnitude else magnitude, signLen + w + 1 + f))
    else if w == 0 then None
    else Some((if negative then -whole else whole, signLen + w))
  }

  /** `parseInt(s)` in base 10: leading white space, a sign, then the longest run of digits. */
  function ParseInt(s: string): (r: Value)
    ensures r.Num? || r.NotANumber?
  {
    match ScanDecimal(TrimStart(s), false)
    case None => NotANumber
    case Some((v, _)) => Num(v)
  }

  /** `parseFloat(s)`: like `ParseInt`, but a fractional part is read as well. */
  function ParseFloat(s: string): (r: Value)
    ensures r.Num? || r.NotANumber?
  {
    match ScanDecimal(TrimStart(s), true)
    case None => NotANumber
    case Some((v, _)) => Num(v)
  }

  /** `Number(s)`: the whole trimmed string must be a decimal literal; blank means 0. */
  function StringToNumber(s: string): (r: Value)
    ensures r.Num? || r.NotANumber?
    ensures Trim(s) == [] ==> r == Num(0.0)
  {
    var t := Trim(s);
    if t == [] then Num(0.0)
    else match ScanDecimal(t, true)
      case Some((v, n)) => if n == |t| then Num(v) else NotANumber
      case None => NotANumber
  }

  /** JavaScript's ToNumber, as applied by `<` and `>` to a request field. */
  function ToNumber(v: Value): (r: Value)
    ensures r.Num? || r.NotANumber?
    ensures v.Num? ==> r == v
    decreases v
  {
    match v
    case Undefined => NotANumber
    case Null => Num(0.0)
    case Bool(b) => Num(if b then 1.0 else 0.0)
    case Num(_) => v
    case NotANumber => NotANumber
    case Str(s) => StringToNumber(s)
    case Arr(items) =>
      // an array converts through `items.join(',')`; two or more items always leave a comma
      if |items| == 0 then Num(0.0)
      else if |items| == 1 then
        (match items[0]
         case Undefined => Num(0.0)
         case Null => Num(0.0)
         case Bool(_) => NotANumber
         case Obj(_) => NotANumber
         case _ => ToNumber(items[0]))
      else NotANumber
    case Obj(_) => NotANumber
  }

  /** A trimmed string that opens with neither a sign, a digit nor a point is not a number. */
  lemma WordIsNotANumber(s: string)
    requires s != [] && Trim(s) == s
    requires !IsDigit(s[0]) && s[0] != '+' && s[0] != '-' && s[0] != '.'
    ensures StringToNumber(s) == NotANumber && ToNumber(Str(s)) == NotANumber
  {
    assert DigitRun(s) == 0;
  }

  /** Rendering a natural number and reading it back with `parseInt` or `Number` gives the number. */
  lemma {:induction false} NatToStringReadsBack(n: nat)
    ensures ParseInt(NatToString(n)) == Num(n as real)
    ensures StringToNumber(NatToString(n)) == Num(n as real)
  {
    var s := NatToString(n);
    TrimOfDigits(s);
    ScanDigits(s, false);
    ScanDigits(s, true);
    DigitsValueOfNatToString(n);
  }

  /** A plain digit string is read in full, as its own value. */
  lemma {:induction false} ScanDigits(s: string, fractions: bool)
    requires s != [] && AllDigits(s)
    ensures ScanDecimal(s, fractions) == Some((DigitsValue(s) as real, |s|))
  {
    assert s[0..] == s && s[..|s|] == s;
    DigitRunOfDigits(s);
  }
}
