/**
 * Decoded JSON values as the Python code sees them after `json.loads`:
 * `None`, booleans, numbers, strings, lists and dictionaries. Python's
 * truthiness and `str()` conversion are defined here once.
 */
module Json {
  import opened Wrappers
  import opened Text

  datatype Json =
    | JNull
    | JBool(b: bool)
    | JInt(i: int)
    | JFloat(r: real)
    | JStr(s: string)
    | JList(items: seq<Json>)
    | JObj(fields: map<string, Json>)
  {
    /** Python truthiness: `None`, `False`, zero, `""`, `[]` and `{}` are false. */
    predicate Truthy() {
      match this
      case JNull => false
      case JBool(b) => b
      case JInt(i) => i != 0
      case JFloat(r) => r != 0.0
      case JStr(s) => s != []
      case JList(items) => items != []
      case JObj(fields) => fields != map[]
    }
  }

  /** `d.get(k)`, with a missing key read as `None`. */
  function Get(d: map<string, Json>, k: string): (r: Json)
    ensures k !in d ==> r == JNull
  {
    if k in d then d[k] else JNull
  }

  /** Python's `a or b`: `a` when it is truthy, otherwise `b`. */
  function Or(a: Json, b: Json): (r: Json)
    ensures r == a || r == b
    ensures r.Truthy() <==> a.Truthy() || b.Truthy()
  {
    if a.Truthy() then a else b
  }

  /**
   * Python's `a or b or ... or z`: the first truthy operand, or the last
   * operand when none is truthy.
   */
  function OrChain(vals: seq<Json>): (r: Json)
    ensures vals == [] ==> r == JNull
    ensures vals != [] ==> r in vals
    ensures r.Truthy() <==> exists i :: 0 <= i < |vals| && vals[i].Truthy()
  {
    if vals == [] then JNull
    else if |vals| == 1 || vals[0].Truthy() then vals[0]
    else
      var r := OrChain(vals[1..]);
      assert forall i :: 1 <= i < |vals| ==> vals[i] == vals[1..][i - 1];
      r
  }

  /** The chain stops at the first truthy operand. */
  lemma {:induction false} OrChainFirst(vals: seq<Json>, i: nat)
    requires i < |vals| && vals[i].Truthy()
    requires forall j :: 0 <= j < i ==> !vals[j].Truthy()
    ensures OrChain(vals) == vals[i]
  {
    if i > 0 {
      OrChainFirst(vals[1..], i - 1);
    }
  }

  /** With no truthy operand the chain yields the last one. */
  lemma {:induction false} OrChainAllFalsy(vals: seq<Json>)
    requires vals != [] && forall j :: 0 <= j < |vals| ==> !vals[j].Truthy()
    ensures OrChain(vals) == vals[|vals| - 1]
  {
    if |vals| > 1 {
      OrChainAllFalsy(vals[1..]);
    }
  }

  /** `d.get(k1) or d.get(k2) or ...`. */
  function FirstOf(d: map<string, Json>, keys: seq<string>): Json {
    OrChain(seq(|keys|, i requires 0 <= i < |keys| => Get(d, keys[i])))
  }

  /** The string held at `k`, if the value there is a string. */
  function GetStr(d: map<string, Json>, k: string): Option<string> {
    if k in d && d[k].JStr? then Some(d[k].s) else None
  }

  /** A lower-case hexadecimal digit, as `repr` writes escapes. */
  function LowerHexDigit(d: nat): (c: char)
    requires d < 16
    ensures IsDigit(c) || 'a' <= c <= 'f'
  {
    if d < 10 then DigitChar(d) else ('a' as int + d - 10) as char
  }

  /** One character of a string as `repr` writes it between quotes `q`. */
  function EscapeChar(c: char, q: char): (r: string)
    ensures c != '\\' && c != q && ' ' <= c && c != '\U{7f}' ==> r == [c]
  {
    if c == q || c == '\\' then ['\\', c]
    else if c == '\t' then "\\t"
    else if c == '\n' then "\\n"
    else if c == '\r' then "\\r"
    else if c < ' ' || c == '\U{7f}' then "\\x" + [LowerHexDigit(c as int / 16), LowerHexDigit(c as int % 16)]
    else [c]
  }

  function Escaped(s: string, q: char): string {
    if s == [] then "" else EscapeChar(s[0], q) + Escaped(s[1..], q)
  }

  /** A character `repr` writes as it is between either kind of quote. */
  predicate PlainChar(c: char) {
    c != '\\' && c != '\'' && c != '"' && ' ' <= c && c != '\U{7f}'
  }

  /** A string of plain characters is written as it is. */
  lemma {:induction false} EscapedPlain(s: string, q: char)
    requires q == '\'' || q == '"'
    requires forall i :: 0 <= i < |s| ==> PlainChar(s[i])
    ensures Escaped(s, q) == s
  {
    if s != [] {
      EscapedPlain(s[1..], q);
    }
  }

  /**
   * `repr(s)` of a string: single quotes, unless the string holds a single
   * quote and no double quote.
   */
  function ReprStr(s: string): (r: string)
    ensures |r| >= 2 && r[0] == r[|r| - 1] && r[0] in {'\'', '"'}
  {
    var q := if '\'' in s && '"' !in s then '"' else '\'';
    [q] + Escaped(s, q) + [q]
  }

  /** A string of plain characters is shown in single quotes. */
  lemma ReprPlain(s: string)
    requires forall i :: 0 <= i < |s| ==> PlainChar(s[i])
    ensures ReprStr(s) == "'" + s + "'"
  {
    EscapedPlain(s, '\'');
  }

  /** `repr(v)`, as `str` of a list shows its elements. */
  function Repr(j: Json): string
    decreases j, 1
  {
    if j.JStr? then ReprStr(j.s) else PyStr(j)
  }

  /** `str([x])` is `repr(x)` in brackets. */
  lemma PyStrSingleton(x: Json)
    ensures PyStr(JList([x])) == "[" + Repr(x) + "]"
  {
    assert seq(1, k requires 0 <= k < 1 => Repr([x][k])) == [Repr(x)];
  }

  /**
   * `str(v)`. Strings, integers, booleans, `None` and lists of them render
   * as Python renders them; a float and a dictionary render as a fixed
   * placeholder (see README, Left out).
   */
  function PyStr(j: Json): string
    decreases j, 0
  {
    match j
    case JNull => "None"
    case JBool(b) => if b then "True" else "False"
    case JInt(i) => ShowInt(i)
    case JFloat(_) => "<float>"
    case JStr(s) => s
    case JList(items) => "[" + Join(seq(|items|, k requires 0 <= k < |items| => Repr(items[k])), ", ") + "]"
    case JObj(_) => "<dict>"
  }
}
