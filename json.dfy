/**
 * The values a decoded JSON request body holds, and the two Python
 * built-ins the handlers apply to them: int(x) and str(x).
 */
module Json {
  import opened Wrappers
  import PyInt

  /** A JSON value as Python sees it after decoding. Floats are not modelled. */
  datatype Json =
    | JNull                     // None
    | JBool(b: bool)            // True or False
    | JInt(i: int)              // int
    | JString(s: string)        // str
    | JContainer(text: string)  // a list or dict, kept only as the text str() gives it

  /** A request body: a JSON object. */
  type Body = map<string, Json>

  /** The three outcomes of Python's int(x). */
  datatype IntOutcome = IntValue(value: int) | TypeError | ValueError

  /**
   * int(x): None and containers raise TypeError, a str that does not
   * spell an integer raises ValueError, a bool counts as 0 or 1.
   */
  function ToInt(j: Json): (r: IntOutcome)
    ensures r.TypeError? <==> j.JNull? || j.JContainer?
    ensures r.ValueError? <==> j.JString? && PyInt.ParseInt(j.s).None?
    ensures r.IntValue? ==> && (j.JBool? ==> r.value == if j.b then 1 else 0)
                            && (j.JInt? ==> r.value == j.i)
                            && (j.JString? ==> PyInt.ParseInt(j.s) == Some(r.value))
    ensures j.JString? && r.IntValue? ==> exists k :: 0 <= k < |j.s| && PyInt.IsDigit(j.s[k])
  {
    match j
    case JNull => TypeError
    case JBool(b) => IntValue(if b then 1 else 0)
    case JInt(i) => IntValue(i)
    case JString(s) => (match PyInt.ParseInt(s) case Some(v) => IntValue(v) case None => ValueError)
    case JContainer(_) => TypeError
  }

  /** str(x), as an f-string interpolates x. */
  function Str(j: Json): (r: string)
    ensures j.JString? ==> r == j.s
    ensures j.JInt? ==> PyInt.ParseInt(r) == Some(j.i)
    ensures j.JInt? ==> r == PyInt.Decimal(j.i)
    ensures j.JNull? ==> r == "None"
    ensures j.JBool? ==> r == if j.b then "True" else "False"
    ensures j.JContainer? ==> r == j.text
  {
    match j
    case JNull => "None"
    case JBool(b) => if b then "True" else "False"
    case JInt(i) => PyInt.ParseDecimal(i); PyInt.Decimal(i)
    case JString(s) => s
    case JContainer(t) => t
  }

  /** int(str(x)) == int(x) for an integer x, so a number sent as text is read as that number. */
  lemma ToIntOfStr(i: int)
    ensures ToInt(JString(Str(JInt(i)))) == ToInt(JInt(i)) == IntValue(i)
  {
    PyInt.ParseDecimal(i);
  }
}
