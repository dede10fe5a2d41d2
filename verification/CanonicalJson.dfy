/** The canonical JSON text of a value: objects print their members in ordinal key order, strings are
    escaped as section 7 of RFC 8259 allows, and integers print in decimal. */
module CanonicalJson {
  import opened Ordinal

  datatype Json =
    | Null
    | Bool(value: bool)
    | Number(n: int)
    | Str(text: Text)
    | Arr(items: seq<Json>)
    | Obj(fields: seq<Field>)

  /** A property of an object; an object lists its properties in insertion order. */
  datatype Field = Field(key: Text, json: Json)

  function KeyOf(field: Field): Text { field.key }

  /** No object names a property twice. */
  predicate WellFormed(j: Json) {
    match j
    case Arr(items) => forall k | k in items :: WellFormed(k)
    case Obj(fields) => DistinctBy(fields, KeyOf) && forall f | f in fields :: WellFormed(f.json)
    case _ => true
  }

  const QUOTE: CodeUnit := 0x22
  const COMMA: CodeUnit := 0x2c
  const MINUS: CodeUnit := 0x2d
  const ZERO: CodeUnit := 0x30
  const COLON: CodeUnit := 0x3a
  const LEFT_BRACKET: CodeUnit := 0x5b
  const BACKSLASH: CodeUnit := 0x5c
  const RIGHT_BRACKET: CodeUnit := 0x5d
  const LETTER_U: CodeUnit := 0x75
  const LEFT_BRACE: CodeUnit := 0x7b
  const RIGHT_BRACE: CodeUnit := 0x7d

  const NULL_TEXT: Text := [0x6e, 0x75, 0x6c, 0x6c]
  const TRUE_TEXT: Text := [0x74, 0x72, 0x75, 0x65]
  const FALSE_TEXT: Text := [0x66, 0x61, 0x6c, 0x73, 0x65]

  // ---------------------------------------------------------------------------
  // Strings
  // ---------------------------------------------------------------------------

  predicate HighSurrogate(c: CodeUnit) { 0xd800 <= c < 0xdc00 }

  predicate LowSurrogate(c: CodeUnit) { 0xdc00 <= c < 0xe000 }

  function HexDigit(d: int): CodeUnit
    requires 0 <= d < 16
  {
    if d < 10 then 0x30 + d else 0x61 + d - 10
  }

  function UnicodeEscape(c: CodeUnit): Text {
    [BACKSLASH, LETTER_U, HexDigit(c / 4096), HexDigit(c / 256 % 16), HexDigit(c / 16 % 16), HexDigit(c % 16)]
  }

  /** The text of one code unit that is not half of a surrogate pair. */
  function EscapeUnit(c: CodeUnit): Text {
    if c == QUOTE || c == BACKSLASH then [BACKSLASH, c]
    else if c == 0x08 then [BACKSLASH, 0x62]
    else if c == 0x09 then [BACKSLASH, 0x74]
    else if c == 0x0a then [BACKSLASH, 0x6e]
    else if c == 0x0c then [BACKSLASH, 0x66]
    else if c == 0x0d then [BACKSLASH, 0x72]
    else if c < 0x20 || HighSurrogate(c) || LowSurrogate(c) then UnicodeEscape(c)
    else [c]
  }

  function Escape(s: Text): Text {
    if s == [] then []
    else if |s| >= 2 && HighSurrogate(s[0]) && LowSurrogate(s[1]) then s[..2] + Escape(s[2..])
    else EscapeUnit(s[0]) + Escape(s[1..])
  }

  function Quote(s: Text): Text { [QUOTE] + Escape(s) + [QUOTE] }

  // ---------------------------------------------------------------------------
  // Values
  // ---------------------------------------------------------------------------

  function Digits(n: nat): Text {
    if n < 10 then [ZERO + n] else Digits(n / 10) + [ZERO + n % 10]
  }

  function Decimal(n: int): Text {
    if n < 0 then [MINUS] + Digits(-n) else Digits(n)
  }

  /** A property name with the canonical text of its value. */
  datatype Member = Member(name: Text, text: Text)

  function NameOf(m: Member): Text { m.name }

  function Canonical(j: Json): Text
    decreases j
  {
    match j
    case Null => NULL_TEXT
    case Bool(value) => if value then TRUE_TEXT else FALSE_TEXT
    case Number(n) => Decimal(n)
    case Str(text) => Quote(text)
    case Arr(items) => [LEFT_BRACKET] + CanonicalItems(items) + [RIGHT_BRACKET]
    case Obj(fields) => [LEFT_BRACE] + Join(SortBy(CanonicalMembers(fields), NameOf)) + [RIGHT_BRACE]
  }

  function CanonicalItems(items: seq<Json>): Text
    decreases items
  {
    if items == [] then []
    else Canonical(items[0]) + if |items| == 1 then [] else [COMMA] + CanonicalItems(items[1..])
  }

  function CanonicalMember(field: Field): Member
    decreases field
  {
    Member(field.key, Canonical(field.json))
  }

  function CanonicalMembers(fields: seq<Field>): seq<Member>
    decreases fields
  {
    if fields == [] then [] else [CanonicalMember(fields[0])] + CanonicalMembers(fields[1..])
  }

  function Join(members: seq<Member>): Text {
    if members == [] then []
    else
      Quote(members[0].name) + [COLON] + members[0].text
      + if |members| == 1 then [] else [COMMA] + Join(members[1..])
  }

  // ---------------------------------------------------------------------------
  // What a value means, whatever the order of its objects' properties
  // ---------------------------------------------------------------------------

  datatype Value =
    | NullValue
    | BoolValue(value: bool)
    | NumberValue(n: int)
    | StringValue(text: Text)
    | ArrayValue(items: seq<Value>)
    | ObjectValue(members: map<Text, Value>)

  function Meaning(j: Json): Value
    decreases j
  {
    match j
    case Null => NullValue
    case Bool(value) => BoolValue(value)
    case Number(n) => NumberValue(n)
    case Str(text) => StringValue(text)
    case Arr(items) => ArrayValue(ItemsMeaning(items))
    case Obj(fields) => ObjectValue(FieldsMeaning(fields))
  }

  function ItemsMeaning(items: seq<Json>): seq<Value>
    decreases items
  {
    if items == [] then [] else [Meaning(items[0])] + ItemsMeaning(items[1..])
  }

  function FieldMeaning(field: Field): Value
    decreases field
  {
    Meaning(field.json)
  }

  function FieldsMeaning(fields: seq<Field>): map<Text, Value>
    decreases fields
  {
    if fields == [] then map[] else FieldsMeaning(fields[1..])[fields[0].key := FieldMeaning(fields[0])]
  }
}
