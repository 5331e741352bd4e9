/** JSON values in source order, and the text serde_json writes for them. */
module Json {
  import opened Common

  /** A number is kept as the text it prints as. */
  datatype Json =
    | Null
    | Bool(value: bool)
    | Number(text: string)
    | Str(chars: string)
    | Array(items: seq<Json>)
    | Object(members: seq<Member>)

  datatype Member = Member(key: string, json: Json)

  predicate NumberChar(c: char) {
    '0' <= c <= '9' || c in {'-', '+', '.', 'e', 'E'}
  }

  /** What every printed number looks like, as far as telling it from its surroundings goes. */
  predicate NumberText(text: string) {
    text != "" && (text[0] == '-' || '0' <= text[0] <= '9') && forall i :: 0 <= i < |text| ==> NumberChar(text[i])
  }

  predicate DistinctKeys(ms: seq<Member>) {
    forall i, j :: 0 <= i < j < |ms| ==> ms[i].key != ms[j].key
  }

  predicate WellFormed(v: Json) {
    match v
    case Number(text) => NumberText(text)
    case Array(items) => forall i :: 0 <= i < |items| ==> WellFormed(items[i])
    case Object(ms) => DistinctKeys(ms) && forall i :: 0 <= i < |ms| ==> WellFormed(ms[i].json)
    case _ => true
  }

  function KeyIndexFrom(ms: seq<Member>, key: string, from: nat): (k: nat)
    requires from <= |ms|
    ensures from <= k <= |ms|
    ensures k < |ms| ==> ms[k].key == key
    ensures forall i :: from <= i < k ==> ms[i].key != key
    decreases |ms| - from
  {
    if from == |ms| || ms[from].key == key then from else KeyIndexFrom(ms, key, from + 1)
  }

  /** Position of the first member with this key, or |ms|. */
  function KeyIndex(ms: seq<Member>, key: string): (k: nat)
    ensures k <= |ms|
    ensures k < |ms| ==> ms[k].key == key
    ensures forall i :: 0 <= i < k ==> ms[i].key != key
  {
    KeyIndexFrom(ms, key, 0)
  }

  function Lookup(ms: seq<Member>, key: string): Option<Json> {
    var k := KeyIndex(ms, key);
    if k < |ms| then Some(ms[k].json) else None
  }

  /** `Value::get` with a string: None on anything that is not an object. */
  function Get(v: Json, key: string): Option<Json> {
    if v.Object? then Lookup(v.members, key) else None
  }

  function GetStr(v: Json, key: string): Option<string> {
    var f := Get(v, key);
    if f.Some? && f.value.Str? then Some(f.value.chars) else None
  }

  // ---------------------------------------------------------------- text

  function HexDigit(n: nat): char
    requires n < 16
  {
    if n < 10 then ('0' as int + n) as char else ('a' as int + n - 10) as char
  }

  /** The escapes of section 7 of RFC 8259 that serde_json uses. */
  function EscapeChar(c: char): string {
    if c == '"' then "\\\""
    else if c == '\\' then "\\\\"
    else if c as int == 8 then "\\b"
    else if c as int == 9 then "\\t"
    else if c as int == 10 then "\\n"
    else if c as int == 12 then "\\f"
    else if c as int == 13 then "\\r"
    else if c as int < 32 then ['\\', 'u', '0', '0', HexDigit(c as int / 16), HexDigit(c as int % 16)]
    else [c]
  }

  function Escape(s: string): string {
    if s == "" then "" else EscapeChar(s[0]) + Escape(s[1..])
  }

  function Quote(s: string): string {
    ['"'] + Escape(s) + ['"']
  }

  function Serialize(v: Json): string
    decreases v, 0
  {
    match v
    case Null => "null"
    case Bool(b) => if b then "true" else "false"
    case Number(text) => text
    case Str(s) => Quote(s)
    case Array(items) => ['['] + SerializeItems(items) + [']']
    case Object(ms) => ['{'] + SerializeMembers(ms) + ['}']
  }

  function SerializeMember(m: Member): string
    decreases m, 1
  {
    Quote(m.key) + [':'] + Serialize(m.json)
  }

  function SerializeItems(items: seq<Json>): string
    decreases items, 3
  {
    if items == [] then "" else Serialize(items[0]) + MoreItems(items[1..])
  }

  function SerializeMembers(ms: seq<Member>): string
    decreases ms, 3
  {
    if ms == [] then "" else SerializeMember(ms[0]) + MoreMembers(ms[1..])
  }

  function MoreItems(items: seq<Json>): string
    decreases items, 2
  {
    if items == [] then "" else [','] + Serialize(items[0]) + MoreItems(items[1..])
  }

  function MoreMembers(ms: seq<Member>): string
    decreases ms, 2
  {
    if ms == [] then "" else [','] + SerializeMember(ms[0]) + MoreMembers(ms[1..])
  }

  /** The request id of a frame as text: a string as it is, null not at all, anything else printed. */
  function IdText(v: Json): Option<string> {
    var id := Get(v, "id");
    if id.None? || id.value.Null? then None
    else if id.value.Str? then Some(id.value.chars)
    else Some(Serialize(id.value))
  }
}
