/**
 * The JavaScript values the command-line options and prompt answers can hold,
 * with JavaScript truthiness, the `||` operator and `String(value)`.
 */
module JsValues {

  /** A JavaScript value as it can appear among parsed options (integers only). */
  datatype Value = Undefined | Bool(b: bool) | Num(n: int) | Str(s: string)

  /** JavaScript truthiness: `undefined`, `false`, `0` and `""` are falsy. */
  predicate Truthy(v: Value)
  {
    match v
    case Undefined => false
    case Bool(b) => b
    case Num(n) => n != 0
    case Str(s) => s != ""
  }

  /** `vs[i]` is the first truthy value of `vs`. */
  predicate IsFirstTruthy(vs: seq<Value>, i: int)
  {
    0 <= i < |vs| && Truthy(vs[i]) && forall j :: 0 <= j < i ==> !Truthy(vs[j])
  }

  /** `vs[0] || vs[1] || ...`, evaluated left to right. */
  function OrAll(vs: seq<Value>): (r: Value)
    requires |vs| > 0
    ensures Truthy(r) ==> exists i :: IsFirstTruthy(vs, i) && r == vs[i]
    ensures !Truthy(r) ==> r == vs[|vs| - 1] && forall i :: 0 <= i < |vs| ==> !Truthy(vs[i])
  {
    if |vs| == 1 then vs[0]
    else
      var init := vs[..|vs| - 1];
      var first := OrAll(init);
      if Truthy(first) then
        var i :| IsFirstTruthy(init, i) && first == init[i];
        assert IsFirstTruthy(vs, i);
        first
      else
        vs[|vs| - 1]
  }

  function DigitChar(d: nat): (c: char)
    requires d < 10
    ensures '0' <= c <= '9'
  {
    (48 + d) as char
  }

  function DigitValue(c: char): nat
  {
    if '0' <= c <= '9' then (c as int) - 48 else 0
  }

  /** The decimal rendering of a natural number, as template literals produce it. */
  function NatToDecimal(n: nat): (s: string)
    ensures |s| > 0
    ensures forall i :: 0 <= i < |s| ==> '0' <= s[i] <= '9'
    decreases n
  {
    if n < 10 then [DigitChar(n)] else NatToDecimal(n / 10) + [DigitChar(n % 10)]
  }

  /** Reads a string of decimal digits back as a number. */
  function DecimalToNat(s: string): nat
  {
    if s == [] then 0 else DecimalToNat(s[..|s| - 1]) * 10 + DigitValue(s[|s| - 1])
  }

  lemma {:induction false} DecimalRoundTrip(n: nat)
    ensures DecimalToNat(NatToDecimal(n)) == n
    decreases n
  {
    if n >= 10 {
      var s := NatToDecimal(n);
      assert s[..|s| - 1] == NatToDecimal(n / 10);
      DecimalRoundTrip(n / 10);
    }
  }

  /** Different numbers have different decimal renderings. */
  lemma DecimalInjective(m: nat, n: nat)
    requires NatToDecimal(m) == NatToDecimal(n)
    ensures m == n
  {
    DecimalRoundTrip(m);
    DecimalRoundTrip(n);
  }

  /** `String(v)`, also what `${v}` in a template literal gives. */
  function ToJsString(v: Value): string
  {
    match v
    case Undefined => "undefined"
    case Bool(b) => if b then "true" else "false"
    case Num(n) => if n < 0 then "-" + NatToDecimal(-n) else NatToDecimal(n)
    case Str(s) => s
  }
}
