/** JSON values as in section 3 of RFC 8259; numbers are the integers this program writes. */
module Json {
  datatype Json =
    | Null
    | Boolean(flag: bool)
    | Number(value: int)
    | String(text: string)
    | Array(items: seq<Json>)
    | Object(fields: map<string, Json>)

  type Fields = map<string, Json>

  /** `QJsonObject::value`: a missing key reads as null. */
  function Value(fields: Fields, key: string): Json {
    if key in fields then fields[key] else Null
  }

  function ToBool(j: Json): bool {
    j.Boolean? && j.flag
  }

  function ToInt(j: Json): int {
    if j.Number? then j.value else 0
  }

  function ToString(j: Json): string {
    if j.String? then j.text else ""
  }

  function ToArray(j: Json): seq<Json> {
    if j.Array? then j.items else []
  }

  function ToObject(j: Json): Fields {
    if j.Object? then j.fields else map[]
  }

  // ---------- building objects and reading them back ----------

  function Strings(parts: seq<string>): Json {
    Array(seq(|parts|, i requires 0 <= i < |parts| => String(parts[i])))
  }

  function Texts(items: seq<Json>): seq<string> {
    seq(|items|, i requires 0 <= i < |items| => ToString(items[i]))
  }

  /** The fields and one more, unless its value is empty. */
  function With(fields: Fields, key: string, text: string): Fields {
    if text == "" then fields else fields[key := String(text)]
  }

  function WithList(fields: Fields, key: string, items: seq<string>): Fields {
    if items == [] then fields else fields[key := Strings(items)]
  }

  function WithPositive(fields: Fields, key: string, value: int): Fields {
    if value > 0 then fields[key := Number(value)] else fields
  }

  function WithFlag(fields: Fields, key: string, flag: bool): Fields {
    if flag then fields[key := Boolean(true)] else fields
  }

  lemma StringsRead(items: seq<string>)
    ensures Texts(ToArray(Strings(items))) == items
  {
  }

  function AtLeastZero(n: int): int {
    if n > 0 then n else 0
  }

  /** A step that adds one key reads back at that key and leaves every other key alone. */
  lemma ListAdded(fields: Fields, key: string, items: seq<string>)
    requires key !in fields
    ensures Texts(ToArray(Value(WithList(fields, key, items), key))) == items
    ensures forall other | other != key :: Value(WithList(fields, key, items), other) == Value(fields, other)
  {
    StringsRead(items);
    assert Texts([]) == [];
  }

  lemma NumberAdded(fields: Fields, key: string, value: int)
    requires key !in fields
    ensures ToInt(Value(WithPositive(fields, key, value), key)) == AtLeastZero(value)
    ensures forall other | other != key :: Value(WithPositive(fields, key, value), other) == Value(fields, other)
  {
  }

  lemma TextAdded(fields: Fields, key: string, text: string)
    requires key !in fields
    ensures ToString(Value(With(fields, key, text), key)) == text
    ensures forall other | other != key :: Value(With(fields, key, text), other) == Value(fields, other)
  {
  }
}
