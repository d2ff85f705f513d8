/** The JSON values the scripts read from JSONL files and API replies, and the
    Python operations the scripts apply to them: truthiness, `dict.get`,
    hashability, `str()` and the `a or b or c` alias chains. */
module PyValues {

  /** A parsed JSON value. Objects keep Python's insertion order as a list of
      (key, value) pairs; JSON numbers with a fraction are not modelled. */
  datatype Json =
    | JNull
    | JBool(b: bool)
    | JInt(i: int)
    | JStr(s: string)
    | JList(items: seq<Json>)
    | JObj(fields: seq<(string, Json)>)

  /** A question record or any other JSON object, as the scripts hold it. */
  type Dict = seq<(string, Json)>

  datatype Option<T> = None | Some(value: T)

  /** A value, or the exception a Python operation raised instead. */
  datatype Result<T, E> = Ok(value: T) | Err(error: E)

  /** Python truthiness: `None`, `False`, `0`, `''`, `[]` and `{}` are false. */
  predicate Truthy(v: Json) {
    match v
    case JNull => false
    case JBool(b) => b
    case JInt(i) => i != 0
    case JStr(s) => s != ""
    case JList(items) => items != []
    case JObj(fields) => fields != []
  }

  /** `key in d`. */
  predicate HasKey(d: Dict, key: string) {
    exists i | 0 <= i < |d| :: d[i].0 == key
  }

  /** `d.get(key)`: the value stored under `key`, if any (the first pair with
      that key; the dictionaries here never hold a key twice). */
  function Get(d: Dict, key: string): (r: Option<Json>)
    ensures r.Some? <==> HasKey(d, key)
    ensures r.Some? ==> exists i | 0 <= i < |d| :: d[i] == (key, r.value)
  {
    if |d| == 0 then None
    else if d[0].0 == key then Some(d[0].1)
    else
      var r := Get(d[1..], key);
      assert r.Some? ==> exists i | 0 <= i < |d[1..]| :: d[1..][i] == (key, r.value);
      assert HasKey(d[1..], key) ==> HasKey(d, key) by {
        if HasKey(d[1..], key) {
          var i :| 0 <= i < |d[1..]| && d[1..][i].0 == key;
          assert d[i + 1].0 == key;
        }
      }
      r
  }

  /** `d.get(key, default)`; `d.get(key)` is `GetOr(d, key, JNull)`. */
  function GetOr(d: Dict, key: string, default: Json): Json {
    match Get(d, key)
    case Some(v) => v
    case None => default
  }

  /** The key set of a dictionary (`d.keys()` as a set). */
  function Keys(d: Dict): (ks: set<string>)
    ensures forall k :: k in ks <==> HasKey(d, k)
  {
    set i | 0 <= i < |d| :: d[i].0
  }

  /** Values Python can put in a set or use as a dictionary key: lists and
      dictionaries raise `TypeError: unhashable type`. */
  predicate Hashable(v: Json) {
    !v.JList? && !v.JObj?
  }

  /** `type(v).__name__`. */
  function TypeName(v: Json): string {
    match v
    case JNull => "NoneType"
    case JBool(_) => "bool"
    case JInt(_) => "int"
    case JStr(_) => "str"
    case JList(_) => "list"
    case JObj(_) => "dict"
  }

  /** The message of the `TypeError` raised when an unhashable value is used
      as a set element or dictionary key. */
  function UnhashableMessage(v: Json): string {
    "unhashable type: '" + TypeName(v) + "'"
  }

  function DigitChar(d: nat): char
    requires d < 10
  {
    "0123456789"[d]
  }

  /** Decimal digits of a natural number, most significant first. */
  function NatToString(n: nat): (s: string)
    ensures |s| >= 1
    ensures forall i :: 0 <= i < |s| ==> '0' <= s[i] <= '9'
  {
    if n < 10 then [DigitChar(n)] else NatToString(n / 10) + [DigitChar(n % 10)]
  }

  /** `str(i)` for an integer. */
  function IntToString(i: int): string {
    if i < 0 then "-" + NatToString(-i) else NatToString(i)
  }

  /** `str(v)`, which is also what an f-string substitutes for `{v}`. */
  function PyStr(v: Json): string {
    match v
    case JStr(s) => s
    case _ => Repr(v)
  }

  /** `repr(v)`; strings are quoted with `'` and not escaped. */
  function Repr(v: Json): string {
    match v
    case JNull => "None"
    case JBool(b) => if b then "True" else "False"
    case JInt(i) => IntToString(i)
    case JStr(s) => "'" + s + "'"
    case JList(items) =>
      "[" + Join(seq(|items|, k requires 0 <= k < |items| => Repr(items[k]))) + "]"
    case JObj(fields) =>
      "{" + Join(seq(|fields|, k requires 0 <= k < |fields| =>
                       "'" + fields[k].0 + "': " + Repr(fields[k].1))) + "}"
  }

  /** `", ".join(parts)`. */
  function Join(parts: seq<string>): string {
    if |parts| == 0 then ""
    else if |parts| == 1 then parts[0]
    else parts[0] + ", " + Join(parts[1..])
  }

  /** One operand of a Python `or` chain over a question record. */
  datatype Operand =
    | Key(key: string)                   // questao.get(key)
    | KeyOr(key: string, default: Json)  // questao.get(key, default)
    | Lit(value: Json)                   // a literal such as 'N/A' or {}

  function OperandValue(d: Dict, op: Operand): Json {
    match op
    case Key(k) => GetOr(d, k, JNull)
    case KeyOr(k, dflt) => GetOr(d, k, dflt)
    case Lit(v) => v
  }

  /** `r` is the value of operand `i`, every operand before `i` is falsy, and
      `r` is truthy unless `i` is the last operand. */
  predicate ChosenAt(d: Dict, ops: seq<Operand>, i: int, r: Json) {
    0 <= i < |ops| && r == OperandValue(d, ops[i])
    && (forall j | 0 <= j < i :: !Truthy(OperandValue(d, ops[j])))
    && (Truthy(r) || i == |ops| - 1)
  }

  /** `op0 or op1 or ... or opN`: the first truthy operand, else the last one. */
  function EvalOr(d: Dict, ops: seq<Operand>): (r: Json)
    requires |ops| > 0
    ensures exists i | 0 <= i < |ops| :: ChosenAt(d, ops, i, r)
  {
    if |ops| == 1 then
      assert ChosenAt(d, ops, 0, OperandValue(d, ops[0]));
      OperandValue(d, ops[0])
    else
      var v := OperandValue(d, ops[0]);
      if Truthy(v) then
        assert ChosenAt(d, ops, 0, v);
        v
      else
        var r := EvalOr(d, ops[1..]);
        var i :| 0 <= i < |ops[1..]| && ChosenAt(d, ops[1..], i, r);
        assert forall j | 0 <= j < i + 1 :: !Truthy(OperandValue(d, ops[j])) by {
          forall j | 0 <= j < i + 1 ensures !Truthy(OperandValue(d, ops[j])) {
            if j > 0 { assert ops[j] == ops[1..][j - 1]; }
          }
        }
        assert ChosenAt(d, ops, i + 1, r);
        r
  }

  /** The first-truthy-alias rule stated as a uniqueness fact: `EvalOr` is the
      value of the FIRST truthy operand when there is one, and the value of the
      last operand when none is truthy. */
  lemma EvalOrFirstTruthy(d: Dict, ops: seq<Operand>, i: nat)
    requires i < |ops|
    requires Truthy(OperandValue(d, ops[i]))
    requires forall j | 0 <= j < i :: !Truthy(OperandValue(d, ops[j]))
    ensures EvalOr(d, ops) == OperandValue(d, ops[i])
  {
    var r := EvalOr(d, ops);
    var k :| 0 <= k < |ops| && ChosenAt(d, ops, k, r);
    assert k == i;
  }

  lemma EvalOrNoneTruthy(d: Dict, ops: seq<Operand>)
    requires |ops| > 0
    requires forall j | 0 <= j < |ops| :: !Truthy(OperandValue(d, ops[j]))
    ensures EvalOr(d, ops) == OperandValue(d, ops[|ops| - 1])
  {
  }
}
