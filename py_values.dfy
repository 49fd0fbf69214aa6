/**
 * Python values as the HomeboxAPI client sees them after `response.json()`:
 * JSON documents decoded into None, bool, int, str, list and dict, together
 * with the few pieces of Python semantics the client relies on (truthiness,
 * `dict.get`, iteration, hashing in a `set`, `str()` of a scalar) and the
 * exceptions the client can raise.
 */
module PyValues {

  datatype Option<+T> = None | Some(value: T)

  /** A decoded JSON value. Numbers are modelled as integers only. */
  datatype Json =
    | JNull
    | JBool(b: bool)
    | JInt(i: int)
    | JStr(s: string)
    | JArr(elems: seq<Json>)
    | JObj(fields: map<string, Json>)

  /** The exceptions the client raises to its callers. */
  datatype Exc =
    | CredentialsUnavailable          // ValueError: the credential store gave no usable pair
    | LoginUnreachable                // ConnectionError: transport failure or 4xx/5xx on login
    | NoTokenInResponse               // ValueError: login answered 200 without a token
    | LoginUnexpected                 // RuntimeError: any other failure inside login
    | UnsupportedMethod(name: string) // ValueError: verb outside GET/POST/PUT/PATCH/DELETE
    | TypeError                       // not iterable, not subscriptable or not hashable
    | KeyError(key: string)           // `d[key]` on a dict without that key
    | AttributeError                  // `.get` on a value that is not a dict

  datatype Result<+T> = Ok(value: T) | Err(error: Exc)

  /** Python's truth test (`if v:`, `v or d`). */
  predicate Truthy(v: Json)
  {
    match v
    case JNull => false
    case JBool(b) => b
    case JInt(i) => i != 0
    case JStr(s) => s != ""
    case JArr(xs) => xs != []
    case JObj(m) => m != map[]
  }

  /** Python's `v or default`. */
  function Or(v: Json, default: Json): (r: Json)
    ensures r == v || r == default
    ensures Truthy(r) <==> Truthy(v) || Truthy(default)
    ensures Truthy(v) ==> r == v
  {
    if Truthy(v) then v else default
  }

  /** Python's `d.get(key, default)`. */
  function Get(m: map<string, Json>, key: string, default: Json): (r: Json)
    ensures key in m ==> r == m[key]
    ensures key !in m ==> r == default
  {
    if key in m then m[key] else default
  }

  /** Lists and dicts cannot be put in a `set` or looked up in one. */
  predicate Hashable(v: Json)
  {
    !v.JArr? && !v.JObj?
  }

  /**
   * The identity a Python `set` sees: `True == 1` and `False == 0` hash and
   * compare equal, every other JSON scalar is its own key.
   */
  function Key(v: Json): (k: Json)
    ensures !k.JBool?
    ensures Hashable(v) ==> Hashable(k)
    ensures !v.JBool? ==> k == v
  {
    match v
    case JBool(b) => JInt(if b then 1 else 0)
    case _ => v
  }

  /**
   * What `for x in v` iterates over: the elements of a list, the characters
   * of a string, the keys of a dict; any other value raises TypeError.
   * Dict keys are strings; no consumer in this client inspects their text,
   * so each key is represented by an empty string.
   */
  function Elements(v: Json): (r: Result<seq<Json>>)
    ensures r.Ok? <==> v.JArr? || v.JStr? || v.JObj?
    ensures r.Err? ==> r.error == TypeError
    ensures v.JArr? ==> r == Ok(v.elems)
    ensures v.JStr? ==> r.Ok? && |r.value| == |v.s|
    ensures v.JObj? ==> r.Ok? && |r.value| == |v.fields|
    ensures r.Ok? && !v.JArr? ==> forall i :: 0 <= i < |r.value| ==> r.value[i].JStr?
    ensures r.Ok? ==> (r.value == [] <==> !Truthy(v))
  {
    match v
    case JArr(xs) => Ok(xs)
    case JStr(s) => Ok(seq(|s|, i requires 0 <= i < |s| => JStr([s[i]])))
    case JObj(m) => Ok(seq(|m|, _ => JStr("")))
    case _ => Err(TypeError)
  }

  function DigitChar(d: nat): (c: char)
    requires d < 10
    ensures '0' <= c <= '9'
  {
    "0123456789"[d]
  }

  /** Decimal digits of `n`, most significant first, without leading zeros. */
  function NatText(n: nat): (s: string)
    ensures |s| >= 1
    ensures forall i :: 0 <= i < |s| ==> '0' <= s[i] <= '9'
    ensures |s| > 1 ==> s[0] != '0'
    decreases n
  {
    if n < 10 then [DigitChar(n)] else NatText(n / 10) + [DigitChar(n % 10)]
  }

  /** Python's `str(v)` for a JSON scalar, as used in an f-string. */
  function Show(v: Json): (s: string)
    requires Hashable(v)
    ensures v.JStr? ==> s == v.s
  {
    match v
    case JNull => "None"
    case JBool(b) => if b then "True" else "False"
    case JInt(i) => if i < 0 then "-" + NatText(-i) else NatText(i)
    case JStr(s) => s
  }
}
