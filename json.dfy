/**
 * JSON values as the handlers see them: the request body once parsed and the
 * envelopes they answer with. Only integral numbers are represented.
 */
module Json {

  datatype Option<+T> = None | Some(value: T)

  datatype Json =
    | JNull
    | JBool(b: bool)
    | JNum(n: int)
    | JStr(s: string)
    | JArr(items: seq<Json>)
    | JObj(fields: map<string, Json>)

  /** A request body: absent or unparseable (None), or a JSON object. */
  type Body = Option<map<string, Json>>

  /** A non-empty run of decimal digits. */
  predicate IsDecimal(s: string)
  {
    |s| > 0 && forall i :: 0 <= i < |s| ==> '0' <= s[i] <= '9'
  }

  /** The number a run of decimal digits denotes, most significant first. */
  function DecimalValue(s: string): nat
    requires forall i :: 0 <= i < |s| ==> '0' <= s[i] <= '9'
  {
    if s == [] then 0
    else 10 * DecimalValue(s[..|s| - 1]) + (s[|s| - 1] as int - '0' as int)
  }

  /**
   * The decimal form of a natural number, most significant digit first: it
   * reads back as `n` and has no leading zero.
   */
  function Digits(n: nat): (r: string)
    ensures IsDecimal(r) && DecimalValue(r) == n
    ensures r[0] == '0' ==> r == "0"
  {
    var d := (n % 10) as char + '0' as char;
    if n < 10 then [d]
    else
      var r := Digits(n / 10) + [d];
      assert r[..|r| - 1] == Digits(n / 10);
      r
  }

  /**
   * How a stored value reads once interpolated into a message, as Python's
   * `str` renders a scalar: a string as itself, an integer in decimal, the
   * booleans as True/False and null as None.
   */
  function Show(v: Json): (r: string)
    ensures v.JStr? ==> r == v.s
    ensures v.JNum? && v.n >= 0 ==> IsDecimal(r) && DecimalValue(r) == v.n && (r[0] == '0' ==> r == "0")
    ensures v.JNum? && v.n < 0 ==> |r| > 1 && r[0] == '-' && IsDecimal(r[1..]) && DecimalValue(r[1..]) == -v.n && r[1] != '0'
  {
    match v
    case JNull => "None"
    case JBool(b) => if b then "True" else "False"
    case JNum(n) =>
      if n < 0 then
        assert ("-" + Digits(-n))[1..] == Digits(-n);
        "-" + Digits(-n)
      else Digits(n)
    case JStr(s) => s
    case JArr(_) => "[...]"
    case JObj(_) => "{...}"
  }
}
