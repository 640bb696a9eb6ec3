/**
 * JSON values as Python's `json.loads` produces them, the dictionary lookups
 * the bridge performs on them, and Python's `str()` of such a value.
 */
module Json {
  import opened Wrappers
  import Text

  /**
   * An object keeps its members in document order; a float is carried as the
   * text Python's `repr` gives it, since floating point is not modelled.
   */
  datatype Json =
    | JNull
    | JBool(b: bool)
    | JInt(i: int)
    | JFloat(repr: string)
    | JString(s: string)
    | JArray(items: seq<Json>)
    | JObject(fields: seq<(string, Json)>)

  /**
   * `d.get(key)`: `json.loads` keeps the last of repeated keys, so the last
   * member with that key is the one found.
   */
  function Lookup(fields: seq<(string, Json)>, key: string): (r: Option<Json>)
    ensures r.None? <==> forall i :: 0 <= i < |fields| ==> fields[i].0 != key
    ensures r.Some? ==> exists i :: 0 <= i < |fields| && fields[i] == (key, r.value)
    decreases |fields|
  {
    if |fields| == 0 then None
    else if fields[|fields| - 1].0 == key then Some(fields[|fields| - 1].1)
    else Lookup(fields[..|fields| - 1], key)
  }

  /** A member appended last is the one a lookup of its key finds. */
  lemma LookupLast(fields: seq<(string, Json)>, key: string, v: Json)
    ensures Lookup(fields + [(key, v)], key) == Some(v)
  {
    assert (fields + [(key, v)])[|fields|] == (key, v);
  }

  /** Members with other keys, appended after, do not change what a lookup finds. */
  lemma {:induction false} LookupSkips(fields: seq<(string, Json)>, more: seq<(string, Json)>, key: string)
    requires forall i :: 0 <= i < |more| ==> more[i].0 != key
    ensures Lookup(fields + more, key) == Lookup(fields, key)
    decreases |more|
  {
    if more == [] {
      assert fields + more == fields;
    } else {
      var all := fields + more;
      assert all[|all| - 1] == more[|more| - 1];
      assert all[..|all| - 1] == fields + more[..|more| - 1];
      LookupSkips(fields, more[..|more| - 1], key);
    }
  }

  /** `d.get(key, default)`. */
  function GetOr(fields: seq<(string, Json)>, key: string, default: Json): Json {
    match Lookup(fields, key)
    case Some(v) => v
    case None => default
  }

  function HexDigit(d: nat): char
    requires d < 16
  {
    if d < 10 then (48 + d) as char else (87 + d) as char
  }

  /**
   * One character of a string as Python's `repr` shows it between `quote`s:
   * backslash, the quote, `\n`, `\r` and `\t` escaped; the other Latin-1
   * characters that are not printable as `\xNN`.
   */
  function ReprChar(c: char, quote: char): string {
    var n := c as int;
    if c == '\\' then "\\\\"
    else if c == quote then ['\\', c]
    else if c == '\n' then "\\n"
    else if c == '\r' then "\\r"
    else if c == '\t' then "\\t"
    else if n < 0x20 || 0x7f <= n <= 0xa0 || n == 0xad then "\\x" + [HexDigit(n / 16), HexDigit(n % 16)]
    else [c]
  }

  function ReprChars(s: string, quote: char): string
    decreases |s|
  {
    if s == "" then "" else ReprChar(s[0], quote) + ReprChars(s[1..], quote)
  }

  /** `repr(s)`: single quotes, unless the text holds a single quote and no double quote. */
  function StrRepr(s: string): string {
    var quote := if '\'' in s && '"' !in s then '"' else '\'';
    [quote] + ReprChars(s, quote) + [quote]
  }

  /** `repr(v)` of the Python value `json.loads` builds. */
  function Repr(v: Json): string
    decreases v
  {
    match v
    case JNull => "None"
    case JBool(b) => if b then "True" else "False"
    case JInt(i) => Text.DecimalString(i)
    case JFloat(r) => r
    case JString(s) => StrRepr(s)
    case JArray(items) =>
      "[" + Text.Join(seq(|items|, k requires 0 <= k < |items| => Repr(items[k])), ", ") + "]"
    case JObject(fields) =>
      "{" + Text.Join(seq(|fields|, k requires 0 <= k < |fields| =>
                            StrRepr(fields[k].0) + ": " + Repr(fields[k].1)), ", ") + "}"
  }

  /** `str(v)`: a string is itself, anything else its `repr`. */
  function PyStr(v: Json): string {
    if v.JString? then v.s else Repr(v)
  }
}
