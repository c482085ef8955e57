/**
 * JSON values and Python's `json.dumps` with its default options
 * (`ensure_ascii=True`, separators ", " and ": ", keys in insertion order).
 * The server writes every SSE payload with it; the property the event
 * framing needs is that the text is printable ASCII and so has no line break.
 */
module Json {
  import opened Text
  import opened Wrappers

  datatype Json =
    | JNull
    | JBool(b: bool)
    | JInt(i: int)
    | JStr(s: string)
    | JArr(items: seq<Json>)
    | JObj(fields: seq<Field>)

  /** One member of an object; a decoded object keeps its members in source order. */
  datatype Field = Field(key: string, value: Json)

  /**
   * Member lookup as Python's `dict.get` and JavaScript property access see a
   * decoded object: when a key is repeated, the last value wins.
   */
  function Get(fields: seq<Field>, key: string): (r: Option<Json>)
    ensures r.None? <==> forall i :: 0 <= i < |fields| ==> fields[i].key != key
    ensures r.Some? ==> exists i :: 0 <= i < |fields| && fields[i] == Field(key, r.value)
  {
    if |fields| == 0 then None
    else if fields[|fields| - 1].key == key then Some(fields[|fields| - 1].value)
    else
      var r := Get(fields[..|fields| - 1], key);
      assert forall i :: 0 <= i < |fields| - 1 ==> fields[..|fields| - 1][i] == fields[i];
      r
  }

  /** `dict.get(key, default)`: the member's value, or the default when the key is absent. */
  function GetDefault(fields: seq<Field>, key: string, default: Json): (r: Json)
    ensures Get(fields, key).None? ==> r == default
    ensures Get(fields, key).Some? ==> r == Get(fields, key).value
  {
    var v := Get(fields, key);
    if v.None? then default else v.value
  }

  /** `dict.get` on a JSON value that may not be an object: only objects have members. */
  function Member(j: Json, key: string): Option<Json> {
    if j.JObj? then Get(j.fields, key) else None
  }

  /** JavaScript truthiness of a value decoded from JSON. */
  predicate Truthy(j: Json) {
    match j
    case JNull => false
    case JBool(b) => b
    case JInt(i) => i != 0
    case JStr(s) => s != ""
    case JArr(_) => true
    case JObj(_) => true
  }

  predicate IsPrintableAscii(c: char) { ' ' <= c <= '~' }

  predicate AllPrintable(s: string) {
    forall i :: 0 <= i < |s| ==> IsPrintableAscii(s[i])
  }

  function HexDigit(d: nat): (c: char)
    requires d < 16
    ensures IsPrintableAscii(c)
  {
    "0123456789abcdef"[d]
  }

  /** Four lower-case hex digits, as `'{0:04x}'.format(n)`. */
  function Hex4(n: nat): (r: string)
    requires n < 0x1_0000
    ensures |r| == 4 && AllPrintable(r)
  {
    [HexDigit(n / 4096), HexDigit(n / 256 % 16), HexDigit(n / 16 % 16), HexDigit(n % 16)]
  }

  /**
   * The escape Python's ASCII encoder writes for one character: the short
   * escapes for quote, backslash and five controls, the character itself when
   * it is printable ASCII, `\uXXXX` otherwise, and a UTF-16 surrogate pair
   * above the Basic Multilingual Plane.
   */
  function EscapeChar(c: char): (r: string)
    ensures |r| >= 1 && AllPrintable(r)
    ensures (r == [c]) <==> (IsPrintableAscii(c) && c != '"' && c != '\\')
  {
    if c == '"' then "\\\""
    else if c == '\\' then "\\\\"
    else if c == '\n' then "\\n"
    else if c == '\r' then "\\r"
    else if c == '\t' then "\\t"
    else if c == '\U{8}' then "\\b"
    else if c == '\U{C}' then "\\f"
    else if IsPrintableAscii(c) then [c]
    else if c as int < 0x1_0000 then "\\u" + Hex4(c as int)
    else
      var n := c as int - 0x1_0000;
      "\\u" + Hex4(0xD800 + n / 1024) + "\\u" + Hex4(0xDC00 + n % 1024)
  }

  function Escape(s: string): (r: string)
    ensures AllPrintable(r)
    ensures |r| >= |s|
  {
    if |s| == 0 then "" else EscapeChar(s[0]) + Escape(s[1..])
  }

  /** A JSON string literal. */
  function Quote(s: string): (r: string)
    ensures AllPrintable(r)
    ensures |r| >= 2 && r[0] == '"' && r[|r| - 1] == '"'
  {
    "\"" + Escape(s) + "\""
  }

  /** `json.dumps(j)`. */
  function Dumps(j: Json): string
    decreases j, 1
  {
    match j
    case JNull => "null"
    case JBool(b) => if b then "true" else "false"
    case JInt(i) => IntToString(i)
    case JStr(s) => Quote(s)
    case JArr(items) => "[" + Join(DumpItems(j, items), ", ") + "]"
    case JObj(fields) => "{" + Join(DumpFields(j, fields), ", ") + "}"
  }

  function DumpItems(ghost parent: Json, items: seq<Json>): (r: seq<string>)
    requires forall x :: x in items ==> x < parent
    ensures |r| == |items|
    decreases parent, 0, |items|
  {
    if |items| == 0 then []
    else
      assert items[0] in items;
      assert forall x :: x in items[1..] ==> x in items;
      [Dumps(items[0])] + DumpItems(parent, items[1..])
  }

  function DumpFields(ghost parent: Json, fields: seq<Field>): (r: seq<string>)
    requires forall f :: f in fields ==> f.value < parent
    ensures |r| == |fields|
    decreases parent, 0, |fields|
  {
    if |fields| == 0 then []
    else
      assert fields[0] in fields;
      assert forall f :: f in fields[1..] ==> f in fields;
      [Quote(fields[0].key) + ": " + Dumps(fields[0].value)] + DumpFields(parent, fields[1..])
  }

  lemma {:induction false} JoinPrintable(parts: seq<string>, sep: string)
    requires AllPrintable(sep)
    requires forall i :: 0 <= i < |parts| ==> AllPrintable(parts[i])
    ensures AllPrintable(Join(parts, sep))
    decreases |parts|
  {
    if |parts| > 1 {
      JoinPrintable(parts[1..], sep);
    }
  }

  lemma DigitsPrintable(s: string)
    requires forall i :: 0 <= i < |s| ==> IsDigit(s[i])
    ensures AllPrintable(s)
  {
  }

  /** Every serialised value is printable ASCII: no line break, no non-ASCII character. */
  lemma {:induction false} DumpsPrintable(j: Json)
    ensures AllPrintable(Dumps(j))
    decreases j, 1
  {
    match j
    case JNull =>
    case JBool(b) =>
    case JInt(i) =>
      if i < 0 { DigitsPrintable(NatToString(-i)); } else { DigitsPrintable(NatToString(i)); }
    case JStr(s) =>
    case JArr(items) =>
      DumpItemsPrintable(j, items);
      JoinPrintable(DumpItems(j, items), ", ");
    case JObj(fields) =>
      DumpFieldsPrintable(j, fields);
      JoinPrintable(DumpFields(j, fields), ", ");
  }

  lemma {:induction false} DumpItemsPrintable(parent: Json, items: seq<Json>)
    requires forall x :: x in items ==> x < parent
    ensures forall i :: 0 <= i < |items| ==> AllPrintable(DumpItems(parent, items)[i])
    decreases parent, 0, |items|
  {
    if |items| > 0 {
      assert items[0] in items;
      assert forall x :: x in items[1..] ==> x in items;
      DumpsPrintable(items[0]);
      DumpItemsPrintable(parent, items[1..]);
    }
  }

  lemma {:induction false} DumpFieldsPrintable(parent: Json, fields: seq<Field>)
    requires forall f :: f in fields ==> f.value < parent
    ensures forall i :: 0 <= i < |fields| ==> AllPrintable(DumpFields(parent, fields)[i])
    decreases parent, 0, |fields|
  {
    if |fields| > 0 {
      assert fields[0] in fields;
      assert forall f :: f in fields[1..] ==> f in fields;
      DumpsPrintable(fields[0].value);
      DumpFieldsPrintable(parent, fields[1..]);
    }
  }

  /** The serialised text never contains a line feed or a carriage return. */
  lemma DumpsHasNoLineBreak(j: Json)
    ensures '\n' !in Dumps(j) && '\r' !in Dumps(j)
  {
    DumpsPrintable(j);
  }
}
