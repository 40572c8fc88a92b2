/**
 JSON values and their compact serialisation: RFC 8259 section 7 escapes, non-ASCII text
 written as it is, no blanks after separators.
 */
module Json {
  import opened Wrappers

  datatype Json =
    | JNull
    | JBool(b: bool)
    | JInt(n: int)
    | JFloat(x: real, repr: string)
    | JStr(text: string)
    | JList(items: seq<Json>)
    | JObj(fields: seq<Field>)

  datatype Field = Field(key: string, value: Json)

  // ---------------------------------------------------------------- serialisation

  function HexDigit(n: nat): char
    requires n < 16
  {
    "0123456789abcdef"[n]
  }

  function CharText(c: char): (r: string)
    ensures 1 <= |r| <= 6
  {
    if c == '\"' then "\\\""
    else if c == '\\' then "\\\\"
    else if c == '\n' then "\\n"
    else if c == '\r' then "\\r"
    else if c == '\t' then "\\t"
    else if c == 8 as char then "\\b"
    else if c == 12 as char then "\\f"
    else if c < ' ' then "\\u00" + [HexDigit(c as int / 16), HexDigit(c as int % 16)]
    else [c]
  }

  function Escaped(s: string): string {
    if s == "" then "" else Escaped(s[..|s| - 1]) + CharText(s[|s| - 1])
  }

  function Quote(s: string): string {
    "\"" + Escaped(s) + "\""
  }

  function Digits(n: nat): (r: string)
    ensures r != ""
  {
    var last := [('0' as int + n % 10) as char];
    if n < 10 then last else Digits(n / 10) + last
  }

  function IntText(n: int): string {
    if n < 0 then "-" + Digits(-n) else Digits(n)
  }

  function Render(v: Json): string
    decreases v
  {
    match v
    case JNull => "null"
    case JBool(b) => if b then "true" else "false"
    case JInt(n) => IntText(n)
    case JFloat(_, repr) => repr
    case JStr(s) => Quote(s)
    case JList(items) => "[" + RenderItems(items) + "]"
    case JObj(fields) => "{" + RenderFields(fields) + "}"
  }

  function RenderItems(items: seq<Json>): string
    decreases items
  {
    if items == [] then ""
    else RenderItems(items[..|items| - 1]) + Comma(|items|) + Render(items[|items| - 1])
  }

  function RenderFields(fields: seq<Field>): string
    decreases fields
  {
    if fields == [] then ""
    else
      var last := fields[|fields| - 1];
      RenderFields(fields[..|fields| - 1]) + Comma(|fields|) + Quote(last.key) + ":" + Render(last.value)
  }

  function Comma(count: nat): string {
    if count > 1 then "," else ""
  }

  // ---------------------------------------------------------------- Python's view of a value

  function Truthy(v: Json): bool {
    match v
    case JNull => false
    case JBool(b) => b
    case JInt(n) => n != 0
    case JFloat(x, _) => x != 0.0
    case JStr(s) => s != ""
    case JList(items) => items != []
    case JObj(fields) => fields != []
  }

  /** `str(value or "")`; a non-empty container is shown as its JSON text. */
  function TextOf(v: Json): string {
    if !Truthy(v) then ""
    else
      match v
      case JBool(_) => "True"
      case JStr(s) => s
      case _ => Render(v)
  }

  // ---------------------------------------------------------------- objects as ordered dictionaries

  /** Where the key stands, or -1. */
  function IndexOf(fields: seq<Field>, key: string): (i: int)
    ensures -1 <= i < |fields|
    ensures i >= 0 ==> fields[i].key == key && forall j | 0 <= j < i :: fields[j].key != key
    ensures i < 0 ==> forall j | 0 <= j < |fields| :: fields[j].key != key
  {
    if fields == [] then -1
    else
      var i := IndexOf(fields[..|fields| - 1], key);
      if i >= 0 then i else if fields[|fields| - 1].key == key then |fields| - 1 else -1
  }

  /** `d.get(key)`. */
  function GetKey(fields: seq<Field>, key: string): Option<Json> {
    var i := IndexOf(fields, key);
    if i < 0 then None else Some(fields[i].value)
  }

  function ValueOf(fields: seq<Field>, key: string): Json {
    var v := GetKey(fields, key);
    if v.Some? then v.value else JNull
  }

  /** `d[key] = value`: a key that is there keeps its place. */
  function SetKey(fields: seq<Field>, key: string, value: Json): seq<Field> {
    var i := IndexOf(fields, key);
    if i < 0 then fields + [Field(key, value)] else fields[i := Field(key, value)]
  }

  lemma IndexIs(fields: seq<Field>, key: string, i: nat)
    requires i < |fields| && fields[i].key == key && forall j | 0 <= j < i :: fields[j].key != key
    ensures IndexOf(fields, key) == i
  {
  }

  /** Lists with the same keys are searched alike. */
  lemma SameKeys(a: seq<Field>, b: seq<Field>, key: string)
    requires |a| == |b| && forall i | 0 <= i < |a| :: a[i].key == b[i].key
    ensures IndexOf(a, key) == IndexOf(b, key)
  {
    var i := IndexOf(a, key);
    if i >= 0 {
      IndexIs(b, key, i);
    }
  }

  lemma SetKeyIndex(fields: seq<Field>, key: string, value: Json, k: string)
    ensures IndexOf(SetKey(fields, key, value), k)
            == if k == key && IndexOf(fields, key) < 0 then |fields| else IndexOf(fields, k)
  {
    if IndexOf(fields, key) < 0 {
    } else {
      SameKeys(fields, SetKey(fields, key, value), k);
    }
  }

  /** Setting a key changes what that key reads and nothing else. */
  lemma SetKeyReads(fields: seq<Field>, key: string, value: Json, k: string)
    ensures GetKey(SetKey(fields, key, value), k) == if k == key then Some(value) else GetKey(fields, k)
  {
    SetKeyIndex(fields, key, value, k);
  }

  /** `d.pop(key, None)`. */
  function PopKey(fields: seq<Field>, key: string): seq<Field> {
    var i := IndexOf(fields, key);
    if i < 0 then fields else fields[..i] + fields[i + 1..]
  }

  // ---------------------------------------------------------------- sizes

  function Size(v: Json): nat {
    |Render(v)|
  }

  /** Every character costs between one and six, whatever stands beside it. */
  lemma {:induction false} EscapedSize(s: string)
    ensures |s| <= |Escaped(s)| <= 6 * |s|
    decreases |s|
  {
    if s != "" {
      EscapedSize(s[..|s| - 1]);
    }
  }

  lemma {:induction false} EscapedPrefix(s: string, n: nat)
    requires n <= |s|
    ensures |Escaped(s[..n])| <= |Escaped(s)|
    decreases |s|
  {
    if n < |s| {
      EscapedPrefix(s[..|s| - 1], n);
      assert s[..|s| - 1][..n] == s[..n];
    } else {
      assert s[..n] == s;
    }
  }

  lemma {:induction false} ItemsGrow(a: seq<Json>, b: seq<Json>)
    requires |a| == |b| && forall i | 0 <= i < |a| :: Size(a[i]) <= Size(b[i])
    ensures |RenderItems(a)| <= |RenderItems(b)|
    decreases |a|
  {
    if a != [] {
      ItemsGrow(a[..|a| - 1], b[..|b| - 1]);
    }
  }

  lemma {:induction false} ItemsPrefix(a: seq<Json>, n: nat)
    requires n <= |a|
    ensures |RenderItems(a[..n])| <= |RenderItems(a)|
    decreases |a|
  {
    if n < |a| {
      ItemsPrefix(a[..|a| - 1], n);
      assert a[..|a| - 1][..n] == a[..n];
    } else {
      assert a[..n] == a;
    }
  }

  function FieldCost(f: Field, position: nat): nat {
    |Comma(position + 1)| + |Quote(f.key)| + 1 + Size(f.value)
  }

  function Sum(costs: seq<int>): int {
    if costs == [] then 0 else Sum(costs[..|costs| - 1]) + costs[|costs| - 1]
  }

  function Costs(fields: seq<Field>): (r: seq<int>)
    ensures |r| == |fields| && forall i | 0 <= i < |r| :: r[i] == FieldCost(fields[i], i)
  {
    seq(|fields|, i requires 0 <= i < |fields| => FieldCost(fields[i], i))
  }

  lemma {:induction false} FieldsSize(fields: seq<Field>)
    ensures |RenderFields(fields)| == Sum(Costs(fields))
    decreases |fields|
  {
    if fields != [] {
      var n := |fields| - 1;
      FieldsSize(fields[..n]);
      assert Costs(fields)[..n] == Costs(fields[..n]);
    }
  }

  lemma {:induction false} SumReplace(costs: seq<int>, i: nat, x: int)
    requires i < |costs|
    ensures Sum(costs[i := x]) == Sum(costs) - costs[i] + x
    decreases |costs|
  {
    var n := |costs| - 1;
    var changed := costs[i := x];
    if i < n {
      SumReplace(costs[..n], i, x);
      assert changed[..n] == costs[..n][i := x];
    } else {
      assert changed[..n] == costs[..n];
    }
  }

  lemma AppendSize(fields: seq<Field>, f: Field)
    ensures |RenderFields(fields + [f])| == |RenderFields(fields)| + FieldCost(f, |fields|)
  {
    assert (fields + [f])[..|fields|] == fields;
  }

  /** The cost of an object depends on one of its values only through the size of that value. */
  lemma ReplaceSize(fields: seq<Field>, i: nat, v: Json)
    requires i < |fields|
    ensures |RenderFields(fields[i := Field(fields[i].key, v)])| == |RenderFields(fields)| - Size(fields[i].value) + Size(v)
  {
    var changed := fields[i := Field(fields[i].key, v)];
    FieldsSize(fields);
    FieldsSize(changed);
    assert Costs(changed) == Costs(fields)[i := FieldCost(changed[i], i)];
    SumReplace(Costs(fields), i, FieldCost(changed[i], i));
  }

  lemma {:induction false} FieldsGrow(a: seq<Field>, b: seq<Field>)
    requires |a| == |b|
    requires forall i | 0 <= i < |a| :: a[i].key == b[i].key && Size(a[i].value) <= Size(b[i].value)
    ensures |RenderFields(a)| <= |RenderFields(b)|
    decreases |a|
  {
    if a != [] {
      FieldsGrow(a[..|a| - 1], b[..|b| - 1]);
    }
  }

  /** Text without quotes, backslashes or control characters is written as it is. */
  lemma {:induction false} PlainSize(s: string)
    requires forall i | 0 <= i < |s| :: s[i] >= ' ' && s[i] != '\"' && s[i] != '\\'
    ensures |Escaped(s)| == |s|
    decreases |s|
  {
    if s != "" {
      PlainSize(s[..|s| - 1]);
    }
  }

  /** Setting a key that is there costs what the new value costs. */
  lemma SetKeySize(fields: seq<Field>, key: string, v: Json)
    requires IndexOf(fields, key) >= 0
    ensures Size(JObj(SetKey(fields, key, v)))
            == Size(JObj(fields)) - Size(fields[IndexOf(fields, key)].value) + Size(v)
  {
    ReplaceSize(fields, IndexOf(fields, key), v);
  }
}
