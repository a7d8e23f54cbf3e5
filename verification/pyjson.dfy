/** The dynamically typed values the bot handles: decoded JSON bodies and the
    expense dictionaries inside them, together with the few pieces of Python
    semantics the bot relies on (truthiness, `== 0`, `dict.get`) and the
    exceptions its code paths can raise. JSON numbers are modelled as integers. */
module PyJson {

  datatype Json =
    | JNull
    | JBool(b: bool)
    | JNum(n: int)
    | JStr(s: string)
    | JArr(items: seq<Json>)
    | JObj(fields: map<string, Json>)

  /** The exceptions that the modelled code paths can raise. */
  datatype PyError =
    | RuntimeError(text: string)      // raised explicitly on a non-200 response
    | RequestError(detail: string)    // transport failure inside `requests`
    | AttributeError                  // `.get` on a value that is not a dict
    | KeyError                        // `[0]` on a dict
    | TypeError                       // `[0]`, `/` or `localtime` on an unsuitable value
    | OverflowError                   // an int too large to convert to float

  /** Python's `bool(v)`: None, False, 0 and empty containers are falsy. */
  predicate Truthy(v: Json)
  {
    match v
    case JNull => false
    case JBool(b) => b
    case JNum(n) => n != 0
    case JStr(s) => |s| > 0
    case JArr(items) => |items| > 0
    case JObj(fields) => |fields| > 0
  }

  /** Python's `v == 0`: true of the integer 0 and of `False`, which is an int. */
  predicate EqualsZero(v: Json)
  {
    v == JNum(0) || v == JBool(false)
  }

  /** Python's `d.get(key, default)` on a dict. */
  function Get(fields: map<string, Json>, key: string, default: Json): (r: Json)
    ensures key in fields ==> r == fields[key]
    ensures key !in fields ==> r == default
  {
    if key in fields then fields[key] else default
  }

  /** The values Python accepts as an operand of `/ 100.0` and of
      `time.localtime`: ints and bools (`localtime` also takes None). */
  predicate IsNumber(v: Json)
  {
    v.JNum? || v.JBool?
  }

  /** The smallest integer that Python's int-to-float conversion cannot
      represent: 2^1024 - 2^970, the midpoint between the largest double
      (2^1024 - 2^971) and 2^1024, which round-half-to-even sends to infinity. */
  const FloatOverflow: int :=
    179769313486231580793728971405303415079934132710037826936173778980444968292764750946649017977587207096330286416692887910946555547851940402630657488671505820681908902000708383676273854845817711531764475730270069855571366959622842914819860834936475292719074168444365510704342711559699508093042880177904174497792

  /** Whether `float(v)` succeeds for a number: an int converts exactly when its
      magnitude is below `FloatOverflow`; a bool always converts. */
  predicate FitsFloat(v: Json)
  {
    v.JNum? ==> -FloatOverflow < v.n < FloatOverflow
  }
}
