/** JavaScript values as the test engine sees them, and the conversions it applies to them. */
module JsValues {

  /** A JavaScript value. Numbers are integers only. An object or a function carries its
      identity and the text that converting it to a string yields (its `toString()` result,
      for a function its source text). */
  datatype Value =
    | Undefined
    | Null
    | Bool(b: bool)
    | Int(i: int)
    | Str(s: string)
    | Obj(id: nat, text: string)
    | Fn(id: nat, source: string)

  datatype Option<T> = None | Some(value: T)

  /** The TypeError the JavaScript engine throws for a call of a non-function, a property read
      on `null` or `undefined`, or `instanceof` with a non-callable right-hand side. */
  const TypeError: Value := Obj(0, "TypeError")

  /** The result of the `typeof` operator. */
  function TypeOf(v: Value): string {
    match v
    case Undefined => "undefined"
    case Null => "object"
    case Bool(_) => "boolean"
    case Int(_) => "number"
    case Str(_) => "string"
    case Obj(_, _) => "object"
    case Fn(_, _) => "function"
  }

  /** ToBoolean: what `if (v)` and `v || w` test. */
  predicate Truthy(v: Value) {
    match v
    case Undefined => false
    case Null => false
    case Bool(b) => b
    case Int(i) => i != 0
    case Str(s) => s != ""
    case Obj(_, _) => true
    case Fn(_, _) => true
  }

  /** Strict equality `===`: no coercion between types; objects and functions compare by identity. */
  function StrictEquals(a: Value, b: Value): (r: bool)
    ensures r ==> TypeOf(a) == TypeOf(b)
    ensures !(a.Obj? || a.Fn?) ==> (r <==> a == b)
  {
    match (a, b)
    case (Obj(i, _), Obj(j, _)) => i == j
    case (Fn(i, _), Fn(j, _)) => i == j
    case _ => a == b
  }

  /** The decimal digit `d`. */
  function DigitChar(d: nat): char
    requires d < 10
  {
    "0123456789"[d]
  }

  predicate IsDigits(s: string) {
    forall i :: 0 <= i < |s| ==> '0' <= s[i] <= '9'
  }

  /** `String(n)` for a non-negative integer: its decimal digits, no leading zeros. */
  function NatToString(n: nat): (s: string)
    ensures 1 <= |s| && IsDigits(s)
    ensures (|s| == 1) <==> n < 10
    decreases n
  {
    if n < 10 then [DigitChar(n)] else NatToString(n / 10) + [DigitChar(n % 10)]
  }

  /** The number a string of decimal digits denotes: the partner of NatToString. */
  function DigitsValue(s: string): nat
    requires IsDigits(s)
  {
    if s == [] then 0 else DigitsValue(s[..|s| - 1]) * 10 + (s[|s| - 1] as int - '0' as int)
  }

  lemma DigitCharValue(d: nat)
    requires d < 10
    ensures DigitChar(d) as int - '0' as int == d
  {
    if d == 0 {} else if d == 1 {} else if d == 2 {} else if d == 3 {} else if d == 4 {}
    else if d == 5 {} else if d == 6 {} else if d == 7 {} else if d == 8 {} else {}
  }

  /** Leading zeros contribute nothing: the digits of any string of zeros followed by s denote s's value. */
  lemma {:induction false} DigitsValueZeroPad(z: string, s: string)
    requires IsDigits(s) && forall i :: 0 <= i < |z| ==> z[i] == '0'
    ensures IsDigits(z + s) && DigitsValue(z + s) == DigitsValue(s)
    decreases |s|
  {
    if s == [] {
      assert z + s == z;
      DigitsValueOfZeros(z);
    } else {
      var init := s[..|s| - 1];
      assert (z + s)[..|z + s| - 1] == z + init;
      DigitsValueZeroPad(z, init);
    }
  }

  lemma {:induction false} DigitsValueOfZeros(z: string)
    requires forall i :: 0 <= i < |z| ==> z[i] == '0'
    ensures IsDigits(z) && DigitsValue(z) == 0
  {
    if z != [] {
      DigitsValueOfZeros(z[..|z| - 1]);
    }
  }

  /** Reading back what NatToString writes gives the number: rendering loses nothing. */
  lemma {:induction false} NatToStringRoundTrip(n: nat)
    ensures DigitsValue(NatToString(n)) == n
    decreases n
  {
    if n < 10 {
      DigitCharValue(n);
      assert NatToString(n)[..0] == [];
    } else {
      NatToStringRoundTrip(n / 10);
      DigitCharValue(n % 10);
      var s := NatToString(n / 10);
      assert (s + [DigitChar(n % 10)])[..|s|] == s;
    }
  }

  /** Different numbers have different decimal texts. */
  lemma NatToStringInjective(a: nat, b: nat)
    requires NatToString(a) == NatToString(b)
    ensures a == b
  {
    NatToStringRoundTrip(a);
    NatToStringRoundTrip(b);
  }

  /** `String(i)` for an integer. */
  function IntToString(i: int): string {
    if i < 0 then "-" + NatToString(-i) else NatToString(i)
  }

  /** `String(v)`, which is also what `"" + v` yields. */
  function ToText(v: Value): string {
    match v
    case Undefined => "undefined"
    case Null => "null"
    case Bool(b) => if b then "true" else "false"
    case Int(i) => IntToString(i)
    case Str(s) => s
    case Obj(_, text) => text
    case Fn(_, source) => source
  }

  /** How `Array.prototype.join` renders one element: `null` and `undefined` become the empty
      string, every other value its `String(v)`. */
  function JoinText(v: Value): string {
    if v.Undefined? || v.Null? then "" else ToText(v)
  }

  /** `parts.join(sep)` for an array of strings. */
  function Join(parts: seq<string>, sep: string): string {
    if |parts| == 0 then ""
    else if |parts| == 1 then parts[0]
    else Join(parts[..|parts| - 1], sep) + sep + parts[|parts| - 1]
  }

  /** `n` spaces. */
  function Spaces(n: nat): (s: string)
    ensures |s| == n && forall i :: 0 <= i < n ==> s[i] == ' '
  {
    if n == 0 then "" else Spaces(n - 1) + " "
  }

  /** A run of `n` array holes, which `join` renders as empty strings. */
  function Holes(n: nat): (h: seq<string>)
    ensures |h| == n && forall i :: 0 <= i < n ==> h[i] == ""
  {
    seq(n, _ => "")
  }

  /** Joining `n + 1` holes with a space yields `n` spaces: how the old StringBuilder indents. */
  lemma {:induction false} JoinHolesIsSpaces(n: nat)
    ensures Join(Holes(n + 1), " ") == Spaces(n)
  {
    if n > 0 {
      JoinHolesIsSpaces(n - 1);
      assert Holes(n + 1)[..n] == Holes(n);
    }
  }

  /** The zero prefixes the source's table holds: index 1 and 2 are "0" and "00"; any index past
      the table reads `undefined`, which string concatenation renders as "undefined". */
  function ZeroPrefix(add: int): string
    requires add > 0
  {
    if add == 1 then "0" else if add == 2 then "00" else "undefined"
  }

  /** addZero(n, c): `String(n)` padded with zeros to `c` characters, or `n` itself (a number,
      not a string) when it already has at least `c` characters. */
  function AddZero(n: int, c: int): (r: Value)
    ensures r.Int? <==> |IntToString(n)| >= c
    ensures r.Int? ==> r == Int(n)
  {
    var num := IntToString(n);
    var add := c - |num|;
    if add > 0 then Str(ZeroPrefix(add) + num) else Int(n)
  }

  /** For a non-negative number one or two characters short of `c`, addZero yields a digit
      string exactly `c` long that still denotes `n`. */
  lemma AddZeroPadsToWidth(n: nat, c: int)
    requires |NatToString(n)| < c <= |NatToString(n)| + 2
    ensures AddZero(n, c).Str?
    ensures var s := AddZero(n, c).s; |s| == c && IsDigits(s) && DigitsValue(s) == n
  {
    var num := NatToString(n);
    var z := ZeroPrefix(c - |num|);
    assert |z| == c - |num| && forall i :: 0 <= i < |z| ==> z[i] == '0';
    assert AddZero(n, c) == Str(z + num);
    DigitsValueZeroPad(z, num);
    NatToStringRoundTrip(n);
  }

  /** Three or more characters short, addZero reads past its table and prefixes "undefined". */
  lemma AddZeroPastTable(n: nat, c: int)
    requires c >= |NatToString(n)| + 3
    ensures AddZero(n, c) == Str("undefined" + NatToString(n))
  {
  }
}
