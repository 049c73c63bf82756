/**
  The Python values the analysis core receives: decoded JSON from the Google
  Business Profile APIs. A dict is a list of members, kept in insertion order
  because that order shows when Python prints the dict. The list may repeat a
  key; lookups take the first member with it.
*/
module PyValues {
  import opened Wrappers
  import opened PyNumbers

  datatype Json =
    | JNull
    | JBool(b: bool)
    | JInt(i: int)
    | JStr(s: string)
    | JList(items: seq<Json>)
    | JObj(members: seq<(string, Json)>)

  type Dict = seq<(string, Json)>

  /** The exceptions the core can raise on unexpected shapes of data. */
  datatype PyError = TypeError | ValueError | IndexError | KeyError | AttributeError

  /** `d[key]` when `key in d`, else `None`. */
  function Get(d: Dict, key: string): Option<Json> {
    if d == [] then None
    else if d[0].0 == key then Some(d[0].1)
    else Get(d[1..], key)
  }

  /** The lookup finds the first member with the key, and nothing when no
      member has it. */
  lemma {:induction false} GetFinds(d: Dict, key: string)
    ensures Get(d, key).None? <==> forall k :: 0 <= k < |d| ==> d[k].0 != key
    ensures Get(d, key).Some? ==>
              exists k :: 0 <= k < |d| && d[k] == (key, Get(d, key).value) &&
                          forall j :: 0 <= j < k ==> d[j].0 != key
  {
    if d != [] && d[0].0 != key {
      GetFinds(d[1..], key);
      assert forall k :: 0 < k < |d| ==> d[k] == d[1..][k - 1];
      if Get(d, key).Some? {
        var k :| 0 <= k < |d[1..]| && d[1..][k] == (key, Get(d, key).value) &&
                 forall j :: 0 <= j < k ==> d[1..][j].0 != key;
        assert d[k + 1] == d[1..][k];
        assert forall j :: 0 < j < k + 1 ==> d[j] == d[1..][j - 1];
      }
    } else if d != [] {
      assert d[0] == (key, Get(d, key).value);
    }
  }

  /** `d.get(key, default)`. */
  function GetOr(d: Dict, key: string, default: Json): Json {
    Get(d, key).GetOr(default)
  }

  /** Python's truth value: `None`, `False`, `0`, `""`, `[]` and `{}` are false. */
  predicate Truthy(v: Json) {
    match v
    case JNull => false
    case JBool(b) => b
    case JInt(i) => i != 0
    case JStr(s) => s != ""
    case JList(items) => items != []
    case JObj(members) => members != []
  }

  /** `len(v)`; `None` is the TypeError raised for a value without a length. */
  function PyLen(v: Json): Option<nat> {
    match v
    case JStr(s) => Some(|s|)
    case JList(items) => Some(|items|)
    case JObj(members) => Some(|members|)
    case _ => None
  }

  /** A value has a length and it is zero exactly when the value is falsy. */
  lemma SizedTruthy(v: Json)
    requires PyLen(v).Some?
    ensures Truthy(v) <==> PyLen(v).value > 0
  {
  }

  function Join(parts: seq<string>, sep: string): string {
    if |parts| == 0 then ""
    else if |parts| == 1 then parts[0]
    else parts[0] + sep + Join(parts[1..], sep)
  }

  /** Two hexadecimal digits, lower case, as in Python's `\xhh` escapes. */
  function Hex2(n: nat): string
    requires n < 256
  {
    var h := "0123456789abcdef";
    [h[n / 16], h[n % 16]]
  }

  /** One character of a string literal as `repr` writes it, `quote` being the
      delimiter chosen for the whole literal. */
  function EscapeChar(c: char, quote: char): string {
    if c == quote || c == '\\' then ['\\', c]
    else if c == '\t' then "\\t"
    else if c == '\n' then "\\n"
    else if c == '\r' then "\\r"
    else if c < ' ' || c == '\U{7F}' then "\\x" + Hex2(c as int)
    else [c]
  }

  function EscapeAll(s: string, quote: char): string {
    if s == [] then "" else EscapeAll(s[..|s| - 1], quote) + EscapeChar(s[|s| - 1], quote)
  }

  /** `repr(s)` for a str: single quotes, unless the text holds a single quote
      and no double quote. */
  function StringRepr(s: string): string {
    var quote := if '\'' in s && '"' !in s then '"' else '\'';
    [quote] + EscapeAll(s, quote) + [quote]
  }

  /** `repr(v)`, the form a value takes inside a printed list or dict. */
  function Repr(v: Json): string
    decreases v
  {
    match v
    case JNull => "None"
    case JBool(b) => if b then "True" else "False"
    case JInt(i) => Decimal(i)
    case JStr(s) => StringRepr(s)
    case JList(items) =>
      "[" + Join(seq(|items|, k requires 0 <= k < |items| => Repr(items[k])), ", ") + "]"
    case JObj(members) =>
      "{" + Join(seq(|members|, k requires 0 <= k < |members| =>
                     StringRepr(members[k].0) + ": " + Repr(members[k].1)), ", ") + "}"
  }

  /** `str(v)`, which is also what `f"{v}"` inserts: a str as it is, anything
      else as its `repr`. */
  function Str(v: Json): string {
    if v.JStr? then v.s else Repr(v)
  }

  /** `str` of the scalars: `None`, `True`/`False`, and an int as its decimal
      digits, which `int()` reads back within the digit limit. */
  lemma StrScalars(i: int, b: bool)
    ensures Str(JNull) == "None"
    ensures Str(JBool(b)) == if b then "True" else "False"
    ensures Str(JInt(i)) == Decimal(i)
    ensures IntCoerce(JStr(Str(JInt(i)))) ==
            if DigitCount(i) <= MaxStrDigits then Success(i) else Failure(ValueError)
  {
    IntCoerceNumberOrText(i);
  }

  /** `int(v)`: ints as they are, booleans as 0 and 1, strings through the
      int-literal parser (ValueError when it refuses), anything else a TypeError. */
  function IntCoerce(v: Json): Result<int, PyError> {
    match v
    case JInt(i) => Success(i)
    case JBool(b) => Success(if b then 1 else 0)
    case JStr(s) =>
      (match ParseIntLiteral(s)
       case Some(i) => Success(i)
       case None => Failure(ValueError))
    case _ => Failure(TypeError)
  }

  /** Whatever int a payload carries as a number, `int()` gives it back; as its
      decimal text, so long as it has at most `MaxStrDigits` digits, and a
      longer text is a ValueError. */
  lemma IntCoerceNumberOrText(i: int)
    ensures IntCoerce(JInt(i)) == Success(i)
    ensures IntCoerce(JStr(Decimal(i))) ==
            if DigitCount(i) <= MaxStrDigits then Success(i) else Failure(ValueError)
  {
    ParseDecimal(i);
  }
}
