/** Python's `Optional`: a value that may be `None`. */
module Optional {
  datatype Option<+T> = None | Some(value: T)
}

/** The parsed JSON values the chat client sends and receives, with the
    parts of Python's value semantics the client relies on: truthiness,
    `dict.get`, and `str()`/`repr()`. Numbers are integers only. */
module Json {
  import Strings

  datatype Json =
    | JNull
    | JBool(b: bool)
    | JInt(i: int)
    | JStr(s: string)
    | JArr(items: seq<Json>)
    | JObj(fields: map<string, Json>)

  /** Python truthiness: `None`, `False`, `0`, `""`, `[]` and `{}` are false,
      every other value is true. */
  predicate Truthy(v: Json)
  {
    match v
    case JNull => false
    case JBool(b) => b
    case JInt(i) => i != 0
    case JStr(s) => |s| > 0
    case JArr(items) => |items| > 0
    case JObj(fields) => |fields| > 0
  }

  /** `fields.get(key)`: the stored value, or `None` when the key is absent. */
  function Get(fields: map<string, Json>, key: string): Json
  {
    if key in fields then fields[key] else JNull
  }

  /** A string literal as `repr` writes it inside a container. */
  function Quoted(s: string): string
  {
    "'" + s + "'"
  }

  /** `repr(v)`: how a value is written inside a list or a dict. Mappings
      list their entries in ascending key order. */
  function Repr(v: Json): (r: string)
    ensures |r| > 0
    decreases v
  {
    match v
    case JNull => "None"
    case JBool(b) => if b then "True" else "False"
    case JInt(i) => if i < 0 then "-" + Strings.Decimal(-i) else Strings.Decimal(i)
    case JStr(s) => Quoted(s)
    case JArr(items) =>
      "[" + Strings.Join(seq(|items|, n requires 0 <= n < |items| => Repr(items[n])), ", ") + "]"
    case JObj(fields) =>
      var keys := Strings.SortedKeys(fields.Keys);
      "{" + Strings.Join(seq(|keys|, n requires 0 <= n < |keys| => Quoted(keys[n]) + ": " + Repr(fields[keys[n]])), ", ") + "}"
  }

  /** `str(v)`, which is also what an f-string substitutes for `{v}`: a
      string is written as it is, every other value as `repr` writes it. */
  function Str(v: Json): string
  {
    if v.JStr? then v.s else Repr(v)
  }

  /** The text of a value is blank exactly for the empty string, so every
      truthy value has non-blank text. */
  lemma StrBlankIff(v: Json)
    ensures Str(v) == "" <==> v == JStr("")
  {
  }

  /** A mapping is written between braces, whatever it holds. */
  lemma StrObjectBraced(fields: map<string, Json>)
    ensures |Str(JObj(fields))| >= 2
    ensures Str(JObj(fields))[0] == '{'
    ensures Str(JObj(fields))[|Str(JObj(fields))| - 1] == '}'
  {
  }

  /** A mapping with one entry is written as that entry between braces. */
  lemma StrSingleEntry(k: string, v: Json)
    ensures Str(JObj(map[k := v])) == "{" + Quoted(k) + ": " + Repr(v) + "}"
  {
    var m := map[k := v];
    assert m.Keys == {k};
    assert Strings.SortedKeys({k}) == [k] by {
      assert Strings.Least({k}) == k;
      assert {k} - {k} == {};
    }
  }
}
