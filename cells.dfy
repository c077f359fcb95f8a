/**
 * Worksheet cells and result rows. A result row is a Python dict, which
 * keeps its keys in insertion order; it is modelled as a sequence of
 * fields, read back with `Get`, the model of `dict.get`.
 */
module Cells {
  import opened Wrappers
  import Lists

  /**
   * A scalar as pandas reads it from a cell. The sheet is read with
   * `keep_default_na=False`, so an empty cell arrives as `Text("")`.
   * `Nan` (`np.nan`) is what the reader delivers for an error cell such as
   * `#N/A` or `#DIV/0!`, whatever that flag says. Floating-point numbers
   * and dates are not modelled.
   */
  datatype Value = Text(s: string) | Int(i: int) | Bool(b: bool) | Nan

  function DigitChar(d: nat): char
    requires d < 10
  {
    ('0' as int + d) as char
  }

  /** The value of a decimal digit. */
  function DigitValue(c: char): nat {
    if '0' <= c <= '9' then c as int - '0' as int else 0
  }

  /** The number a string of decimal digits denotes, read left to right. */
  function DecimalValue(s: string): nat
    decreases |s|
  {
    if s == [] then 0 else DecimalValue(s[..|s| - 1]) * 10 + DigitValue(s[|s| - 1])
  }

  /** A decimal numeral in canonical form: digits only, and no leading zero unless it is "0". */
  ghost predicate IsNumeral(s: string) {
    && |s| > 0
    && (forall i :: 0 <= i < |s| ==> '0' <= s[i] <= '9')
    && (s[0] == '0' ==> |s| == 1)
  }

  /** Python's `str()` of a non-negative integer: the canonical numeral whose value is `n`. */
  function NatToDecimal(n: nat): (r: string)
    ensures IsNumeral(r) && DecimalValue(r) == n
    decreases n
  {
    if n < 10 then [DigitChar(n)]
    else
      var prefix := NatToDecimal(n / 10);
      assert (prefix + [DigitChar(n % 10)])[..|prefix|] == prefix;
      prefix + [DigitChar(n % 10)]
  }

  /**
   * Python's `str()` of a cell value, as `astype(str)` produces it: text
   * prints as itself, a boolean as "True" or "False", an error cell as
   * "nan", and an integer as a minus sign for a negative one followed by
   * the canonical numeral of its magnitude.
   */
  function Str(v: Value): (r: string)
    ensures r == "" <==> v == Text("")
    ensures v.Text? ==> r == v.s
    ensures v.Bool? ==> r == if v.b then "True" else "False"
    ensures v == Nan ==> r == "nan"
    ensures v.Int? ==>
      var digits := if v.i < 0 then r[1..] else r;
      && |r| > 0 && (r[0] == '-' <==> v.i < 0)
      && IsNumeral(digits)
      && DecimalValue(digits) == if v.i < 0 then -v.i else v.i
  {
    match v
    case Text(s) => s
    case Int(i) =>
      if i < 0 then
        var digits := NatToDecimal(-i);
        assert ("-" + digits)[1..] == digits;
        "-" + digits
      else NatToDecimal(i)
    case Bool(b) => if b then "True" else "False"
    case Nan => "nan"
  }

  /** `str()` tells integers apart: two integers print alike only when they are equal. */
  lemma StrOfIntInjective(a: int, b: int)
    ensures Str(Int(a)) == Str(Int(b)) ==> a == b
  {
  }

  /**
   * `replace({np.nan: None, '': None})` applied to one value: an error
   * cell or an empty string becomes None, anything else is kept.
   */
  function Normalise(v: Value): (c: Option<Value>)
    ensures c == None <==> v == Nan || v == Text("")
    ensures c.Some? ==> c.value == v
  {
    if v == Nan || v == Text("") then None else Some(v)
  }

  /**
   * Python's `str()` of what `dict.get` returned: "None" shows for an absent
   * or replaced value and, indistinguishably, for the text "None".
   */
  function Show(c: Option<Value>): (r: string)
    ensures r == "None" <==> c == None || c == Some(Text("None"))
    ensures c.Some? && c.value.Text? ==> r == c.value.s
  {
    match c
    case None => "None"
    case Some(v) => Str(v)
  }

  /** A value treated as a number by Python's `==`: `True == 1` and `False == 0`. */
  predicate IsNumber(v: Value) {
    v.Int? || v.Bool?
  }

  function AsInt(v: Value): int
    requires IsNumber(v)
  {
    if v.Int? then v.i else if v.b then 1 else 0
  }

  /**
   * A representative of `c` under Python's `==`, which pandas uses to find
   * equal values in an object column: a boolean stands for 1 or 0.
   */
  function PyKey(c: Option<Value>): (k: Option<Value>)
    ensures k == c <==> !(c.Some? && c.value.Bool?)
  {
    if c.Some? && c.value.Bool? then Some(Int(if c.value.b then 1 else 0)) else c
  }

  /** Two values have one key exactly when Python's `==` holds between them. */
  lemma PyKeyIsPythonEquality(a: Option<Value>, b: Option<Value>)
    ensures PyKey(a) == PyKey(b) <==>
      a == b || (a.Some? && b.Some? && IsNumber(a.value) && IsNumber(b.value) && AsInt(a.value) == AsInt(b.value))
  {
  }

  datatype Field = Field(key: string, value: Option<Value>)

  /** A Python dict from column name to value, in insertion order. */
  type Record = seq<Field>

  function Keys(r: Record): (ks: seq<string>)
    ensures |ks| == |r| && forall i :: 0 <= i < |r| ==> ks[i] == r[i].key
  {
    if r == [] then [] else [r[0].key] + Keys(r[1..])
  }

  /** `dict.get(key)`: the value stored under `key`, or None when the key is absent. */
  function Get(r: Record, key: string): (c: Option<Value>)
    ensures key !in Keys(r) ==> c == None
    ensures key in Keys(r) ==> c == r[Lists.IndexOf(Keys(r), key)].value
  {
    if r == [] then None
    else if r[0].key == key then r[0].value
    else
      assert Keys(r) == [r[0].key] + Keys(r[1..]);
      Get(r[1..], key)
  }
}
