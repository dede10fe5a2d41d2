/** Two values have the same canonical text exactly when they mean the same. */
module CanonicalJsonProofs {
  import opened Prelude
  import opened Ordinal
  import opened CanonicalJson

  // ---------------------------------------------------------------------------
  // Strings read back
  // ---------------------------------------------------------------------------

  datatype ReadResult = Malformed | Read(text: Text, rest: Text)

  function HexValue(c: CodeUnit): int {
    if 0x30 <= c <= 0x39 then c - 0x30 else if 0x61 <= c <= 0x66 then c - 0x61 + 10 else -1
  }

  /** The unit a two-character escape stands for. */
  function ShortEscape(c: CodeUnit): Option<CodeUnit> {
    if c == QUOTE || c == BACKSLASH then Some(c)
    else if c == 0x62 then Some(0x08)
    else if c == 0x74 then Some(0x09)
    else if c == 0x6e then Some(0x0a)
    else if c == 0x66 then Some(0x0c)
    else if c == 0x72 then Some(0x0d)
    else None
  }

  function Prepend(c: CodeUnit, r: ReadResult): ReadResult {
    match r
    case Malformed => Malformed
    case Read(text, rest) => Read([c] + text, rest)
  }

  function HexUnit(a: CodeUnit, b: CodeUnit, c: CodeUnit, d: CodeUnit): Option<CodeUnit> {
    if HexValue(a) < 0 || HexValue(b) < 0 || HexValue(c) < 0 || HexValue(d) < 0 then None
    else Some(((HexValue(a) * 16 + HexValue(b)) * 16 + HexValue(c)) * 16 + HexValue(d))
  }

  /** Reads the inside of a string up to its closing quote. */
  function ReadString(t: Text): ReadResult
    decreases |t|
  {
    if t == [] then Malformed
    else if t[0] == QUOTE then Read([], t[1..])
    else if t[0] != BACKSLASH then Prepend(t[0], ReadString(t[1..]))
    else if |t| >= 6 && t[1] == LETTER_U then
      match HexUnit(t[2], t[3], t[4], t[5])
      case None => Malformed
      case Some(c) => Prepend(c, ReadString(t[6..]))
    else if |t| >= 2 then
      match ShortEscape(t[1])
      case None => Malformed
      case Some(c) => Prepend(c, ReadString(t[2..]))
    else Malformed
  }

  lemma HexRoundTrip(c: CodeUnit)
    ensures var e := UnicodeEscape(c); HexUnit(e[2], e[3], e[4], e[5]) == Some(c)
  {
    HexDigitRoundTrip(c / 4096);
    HexDigitRoundTrip(c / 256 % 16);
    HexDigitRoundTrip(c / 16 % 16);
    HexDigitRoundTrip(c % 16);
    FourDigits(c);
  }

  lemma HexDigitRoundTrip(d: int)
    requires 0 <= d < 16
    ensures HexValue(HexDigit(d)) == d
  {
  }

  lemma FourDigits(c: int)
    requires 0 <= c < 0x10000
    ensures c == ((c / 4096 * 16 + c / 256 % 16) * 16 + c / 16 % 16) * 16 + c % 16
  {
    assert c / 256 == c / 4096 * 16 + c / 256 % 16;
    assert c / 16 == c / 256 * 16 + c / 16 % 16;
  }

  lemma ReadUnit(c: CodeUnit, rest: Text)
    ensures ReadString(EscapeUnit(c) + rest) == Prepend(c, ReadString(rest))
  {
    var t := EscapeUnit(c) + rest;
    if |EscapeUnit(c)| == 6 {
      HexRoundTrip(c);
      assert t[6..] == rest && t[2..6] == UnicodeEscape(c)[2..];
      assert t[2] == UnicodeEscape(c)[2] && t[3] == UnicodeEscape(c)[3] && t[4] == UnicodeEscape(c)[4];
    } else if |EscapeUnit(c)| == 2 {
      assert t[2..] == rest && t[1] != LETTER_U;
    } else {
      assert t[1..] == rest;
    }
  }

  lemma ReadRaw(c: CodeUnit, rest: Text)
    requires c != QUOTE && c != BACKSLASH
    ensures ReadString([c] + rest) == Prepend(c, ReadString(rest))
  {
    assert ([c] + rest)[1..] == rest;
  }

  lemma ReadPair(high: CodeUnit, low: CodeUnit, rest: Text)
    requires HighSurrogate(high) && LowSurrogate(low)
    ensures ReadString([high, low] + rest) == Prepend(high, Prepend(low, ReadString(rest)))
  {
    assert [high, low] + rest == [high] + ([low] + rest);
    ReadRaw(high, [low] + rest);
    ReadRaw(low, rest);
  }

  lemma PairReadsBack(s: Text, tail: Text, rest: Text)
    requires |s| >= 2 && HighSurrogate(s[0]) && LowSurrogate(s[1])
    requires ReadString(Escape(s[2..]) + tail) == Read(s[2..], rest)
    ensures ReadString(Escape(s) + tail) == Read(s, rest)
  {
    var pair := [s[0], s[1]];
    assert Escape(s) == pair + Escape(s[2..]) by { assert s[..2] == pair; }
    Regroup(pair, Escape(s[2..]), tail);
    ReadPair(s[0], s[1], Escape(s[2..]) + tail);
    assert s == [s[0]] + ([s[1]] + s[2..]);
  }

  lemma UnitReadsBack(s: Text, tail: Text, rest: Text)
    requires s != [] && Escape(s) == EscapeUnit(s[0]) + Escape(s[1..])
    requires ReadString(Escape(s[1..]) + tail) == Read(s[1..], rest)
    ensures ReadString(Escape(s) + tail) == Read(s, rest)
  {
    Regroup(EscapeUnit(s[0]), Escape(s[1..]), tail);
    ReadUnit(s[0], Escape(s[1..]) + tail);
    assert s == [s[0]] + s[1..];
  }

  lemma Regroup(a: Text, b: Text, c: Text)
    ensures (a + b) + c == a + (b + c)
  {
  }

  /** Escaping loses nothing: a reader that stops at the closing quote gets the string back. */
  lemma {:induction false} StringsReadBack(s: Text, rest: Text)
    ensures ReadString(Escape(s) + ([QUOTE] + rest)) == Read(s, rest)
    decreases |s|
  {
    var tail := [QUOTE] + rest;
    if s == [] {
      assert Escape(s) + tail == tail && tail[1..] == rest;
    } else if |s| >= 2 && HighSurrogate(s[0]) && LowSurrogate(s[1]) {
      StringsReadBack(s[2..], rest);
      PairReadsBack(s, tail, rest);
    } else {
      StringsReadBack(s[1..], rest);
      UnitReadsBack(s, tail, rest);
    }
  }

  /** And it escapes no more than it must: a backslash and a letter for quote, backslash and the five named
      controls, six characters for the other controls and for lone surrogates, nothing for the rest. */
  lemma EscapesLittle(c: CodeUnit)
    ensures |EscapeUnit(c)| == if c in {8, 9, 10, 12, 13, 34, 92} then 2
                               else if c < 32 || 0xd800 <= c <= 0xdfff then 6 else 1
  {
  }

  lemma QuotesUnambiguous(s: Text, t: Text, x: Text, y: Text)
    requires Quote(s) + x == Quote(t) + y
    ensures s == t && x == y
  {
    QuoteReadsBack(s, x);
    QuoteReadsBack(t, y);
  }

  lemma QuoteReadsBack(s: Text, x: Text)
    ensures |Quote(s) + x| > 0 && ReadString((Quote(s) + x)[1..]) == Read(s, x)
  {
    Inside(QUOTE, Escape(s), QUOTE, x);
    StringsReadBack(s, x);
  }

  // ---------------------------------------------------------------------------
  // Integers
  // ---------------------------------------------------------------------------

  predicate IsDigit(c: CodeUnit) { 0x30 <= c <= 0x39 }

  /** No digit follows. */
  predicate Stops(x: Text) { x == [] || !IsDigit(x[0]) }

  function DigitsValue(t: Text): int {
    if t == [] then 0 else DigitsValue(t[..|t| - 1]) * 10 + (t[|t| - 1] - ZERO)
  }

  lemma {:induction false} DigitsReadBack(n: nat)
    ensures DigitsValue(Digits(n)) == n && Digits(n) != [] && forall c | c in Digits(n) :: IsDigit(c)
  {
    var t := Digits(n);
    if n >= 10 {
      DigitsReadBack(n / 10);
      assert t[..|t| - 1] == Digits(n / 10);
    } else {
      assert t[..0] == [];
    }
  }

  /** Without a leading zero, except for zero itself. */
  lemma {:induction false} NoLeadingZero(n: nat)
    ensures Digits(n) != [] && (Digits(n)[0] == ZERO <==> n == 0) && (n == 0 ==> |Digits(n)| == 1)
  {
    if n >= 10 {
      NoLeadingZero(n / 10);
    }
  }

  predicate AllDigits(t: Text) { forall c | c in t :: IsDigit(c) }

  function Span(t: Text): nat {
    if t == [] || !IsDigit(t[0]) then 0 else 1 + Span(t[1..])
  }

  lemma {:induction false} SpanOf(a: Text, x: Text)
    requires AllDigits(a) && Stops(x)
    ensures Span(a + x) == |a|
  {
    if a == [] {
      assert a + x == x;
    } else {
      assert a[0] in a && (a + x)[1..] == a[1..] + x;
      SpanOf(a[1..], x);
    }
  }

  lemma DigitsUnambiguous(m: nat, n: nat, x: Text, y: Text)
    requires Digits(m) + x == Digits(n) + y && Stops(x) && Stops(y)
    ensures m == n && x == y
  {
    var a, b := Digits(m), Digits(n);
    DigitsReadBack(m);
    DigitsReadBack(n);
    SpanOf(a, x);
    SpanOf(b, y);
    assert a == (a + x)[..|a|] && b == (b + y)[..|b|];
    assert x == (a + x)[|a|..] && y == (b + y)[|b|..];
  }

  lemma DecimalStarts(n: int, x: Text)
    ensures Decimal(n) + x != []
    ensures n < 0 <==> (Decimal(n) + x)[0] == MINUS
    ensures n >= 0 <==> IsDigit((Decimal(n) + x)[0])
    ensures n < 0 ==> (Decimal(n) + x)[1..] == Digits(-n) + x
  {
    if n >= 0 {
      DigitsReadBack(n);
      assert Digits(n)[0] in Digits(n);
    } else {
      assert (Decimal(n) + x)[1..] == Digits(-n) + x;
    }
  }

  lemma DecimalsUnambiguous(m: int, n: int, x: Text, y: Text)
    requires Decimal(m) + x == Decimal(n) + y && Stops(x) && Stops(y)
    ensures m == n && x == y
  {
    DecimalStarts(m, x);
    DecimalStarts(n, y);
    if m < 0 {
      DigitsUnambiguous(-m, -n, x, y);
    } else {
      DigitsUnambiguous(m, n, x, y);
    }
  }

  // ---------------------------------------------------------------------------
  // The text in the order given
  // ---------------------------------------------------------------------------

  function Print(j: Json): Text
    decreases j
  {
    match j
    case Null => NULL_TEXT
    case Bool(value) => if value then TRUE_TEXT else FALSE_TEXT
    case Number(n) => Decimal(n)
    case Str(text) => Quote(text)
    case Arr(items) => [LEFT_BRACKET] + PrintItems(items) + [RIGHT_BRACKET]
    case Obj(fields) => [LEFT_BRACE] + PrintFields(fields) + [RIGHT_BRACE]
  }

  function PrintItems(items: seq<Json>): Text
    decreases items
  {
    if items == [] then []
    else Print(items[0]) + if |items| == 1 then [] else [COMMA] + PrintItems(items[1..])
  }

  function PrintField(field: Field): Text
    decreases field
  {
    Quote(field.key) + [COLON] + Print(field.json)
  }

  function PrintFields(fields: seq<Field>): Text
    decreases fields
  {
    if fields == [] then []
    else PrintField(fields[0]) + if |fields| == 1 then [] else [COMMA] + PrintFields(fields[1..])
  }

  /** The first code unit tells the kinds of value apart. */
  function KindOf(c: CodeUnit): int {
    if c == 0x6e then 0 else if c == 0x74 then 1 else if c == 0x66 then 2
    else if c == MINUS || IsDigit(c) then 3 else if c == QUOTE then 4
    else if c == LEFT_BRACKET then 5 else if c == LEFT_BRACE then 6 else 7
  }

  function Kind(j: Json): int {
    match j
    case Null => 0
    case Bool(value) => if value then 1 else 2
    case Number(_) => 3
    case Str(_) => 4
    case Arr(_) => 5
    case Obj(_) => 6
  }

  lemma PrintStarts(j: Json, x: Text)
    ensures Print(j) + x != [] && KindOf((Print(j) + x)[0]) == Kind(j)
  {
    if j.Number? {
      DecimalStarts(j.n, x);
    }
  }

  /** Text with a stop after it splits in one way only. */
  lemma {:induction false} PrintUnambiguous(a: Json, b: Json, x: Text, y: Text)
    requires Print(a) + x == Print(b) + y && Stops(x) && Stops(y)
    ensures a == b && x == y
    decreases a
  {
    PrintStarts(a, x);
    PrintStarts(b, y);
    match a
    case Number(n) => DecimalsUnambiguous(n, b.n, x, y);
    case Str(text) => QuotesUnambiguous(text, b.text, x, y);
    case Arr(items) =>
      Inside(LEFT_BRACKET, PrintItems(items), RIGHT_BRACKET, x);
      Inside(LEFT_BRACKET, PrintItems(b.items), RIGHT_BRACKET, y);
      ItemsUnambiguous(items, b.items, x, y);
    case Obj(fields) =>
      Inside(LEFT_BRACE, PrintFields(fields), RIGHT_BRACE, x);
      Inside(LEFT_BRACE, PrintFields(b.fields), RIGHT_BRACE, y);
      FieldsUnambiguous(fields, b.fields, x, y);
    case _ =>
      assert x == (Print(a) + x)[|Print(a)|..] && y == (Print(b) + y)[|Print(b)|..];
  }

  lemma Inside(open: CodeUnit, body: Text, close: CodeUnit, x: Text)
    ensures ([open] + body + [close] + x)[1..] == body + ([close] + x)
  {
  }

  lemma AfterComma(first: Text, rest: Text, x: Text)
    ensures (first + ([COMMA] + rest)) + x == first + ([COMMA] + (rest + x))
    ensures ([COMMA] + (rest + x))[1..] == rest + x
  {
    assert (first + ([COMMA] + rest)) + x == first + ([COMMA] + (rest + x));
  }

  lemma SameTail(c: CodeUnit, a: Text, b: Text)
    requires [c] + a == [c] + b
    ensures a == b
  {
    assert ([c] + a)[1..] == a && ([c] + b)[1..] == b;
  }

  lemma {:induction false} ItemsUnambiguous(s: seq<Json>, t: seq<Json>, x: Text, y: Text)
    requires PrintItems(s) + ([RIGHT_BRACKET] + x) == PrintItems(t) + ([RIGHT_BRACKET] + y)
    ensures s == t && x == y
    decreases s
  {
    var u := AfterFirstItem(s, x);
    var v := AfterFirstItem(t, y);
    if s == [] || t == [] {
      SameTail(RIGHT_BRACKET, x, y);
    } else {
      PrintUnambiguous(s[0], t[0], u, v);
      assert s == [s[0]] + s[1..] && t == [t[0]] + t[1..];
      if |s| == 1 || |t| == 1 {
        assert u[0] == v[0];
        SameTail(RIGHT_BRACKET, x, y);
      } else {
        SameTail(COMMA, PrintItems(s[1..]) + ([RIGHT_BRACKET] + x), PrintItems(t[1..]) + ([RIGHT_BRACKET] + y));
        ItemsUnambiguous(s[1..], t[1..], x, y);
      }
    }
  }

  /** What follows the first element of an array's body. */
  lemma AfterFirstItem(s: seq<Json>, x: Text) returns (u: Text)
    ensures s == [] ==> PrintItems(s) + ([RIGHT_BRACKET] + x) == [RIGHT_BRACKET] + x
    ensures s != [] ==> PrintItems(s) + ([RIGHT_BRACKET] + x) == Print(s[0]) + u
    ensures s != [] ==> KindOf((PrintItems(s) + ([RIGHT_BRACKET] + x))[0]) != 7
    ensures |s| == 1 ==> u == [RIGHT_BRACKET] + x
    ensures |s| > 1 ==> u == [COMMA] + (PrintItems(s[1..]) + ([RIGHT_BRACKET] + x))
    ensures u != [] && Stops(u)
  {
    var p := [RIGHT_BRACKET] + x;
    if |s| > 1 {
      u := [COMMA] + (PrintItems(s[1..]) + p);
      AfterComma(Print(s[0]), PrintItems(s[1..]), p);
      PrintStarts(s[0], u);
    } else {
      u := p;
      if |s| == 1 {
        assert PrintItems(s) == Print(s[0]);
        PrintStarts(s[0], p);
      }
    }
  }

  lemma {:induction false} FieldsUnambiguous(s: seq<Field>, t: seq<Field>, x: Text, y: Text)
    requires PrintFields(s) + ([RIGHT_BRACE] + x) == PrintFields(t) + ([RIGHT_BRACE] + y)
    ensures s == t && x == y
    decreases s
  {
    var p, q := [RIGHT_BRACE] + x, [RIGHT_BRACE] + y;
    var u := AfterFirstField(s, x);
    var v := AfterFirstField(t, y);
    if s == [] || t == [] {
      assert p[0] == q[0] && p[1..] == x && q[1..] == y;
    } else {
      FieldUnambiguous(s[0], t[0], u, v);
      assert u == v;
      if |s| == 1 || |t| == 1 {
        assert p[1..] == x && q[1..] == y;
        assert s == [s[0]] && t == [t[0]];
      } else {
        assert u[1..] == PrintFields(s[1..]) + p && v[1..] == PrintFields(t[1..]) + q;
        FieldsUnambiguous(s[1..], t[1..], x, y);
        assert s == [s[0]] + s[1..] && t == [t[0]] + t[1..];
      }
    }
  }

  lemma {:induction false} FieldUnambiguous(f: Field, g: Field, x: Text, y: Text)
    requires PrintField(f) + x == PrintField(g) + y && Stops(x) && Stops(y)
    ensures f == g && x == y
    decreases f
  {
    var u, v := Print(f.json) + x, Print(g.json) + y;
    FieldText(f, x);
    FieldText(g, y);
    QuotesUnambiguous(f.key, g.key, [COLON] + u, [COLON] + v);
    assert ([COLON] + u)[1..] == u && ([COLON] + v)[1..] == v;
    PrintUnambiguous(f.json, g.json, x, y);
  }

  lemma FieldText(f: Field, x: Text)
    ensures PrintField(f) + x == Quote(f.key) + ([COLON] + (Print(f.json) + x))
  {
    Regroup(Quote(f.key) + [COLON], Print(f.json), x);
    Regroup(Quote(f.key), [COLON], Print(f.json) + x);
  }

  /** What follows the first member of an object's body. */
  lemma AfterFirstField(s: seq<Field>, x: Text) returns (u: Text)
    ensures s == [] ==> PrintFields(s) + ([RIGHT_BRACE] + x) == [RIGHT_BRACE] + x
    ensures s != [] ==> PrintFields(s) + ([RIGHT_BRACE] + x) == PrintField(s[0]) + u
    ensures s != [] ==> (PrintFields(s) + ([RIGHT_BRACE] + x))[0] == QUOTE
    ensures |s| == 1 ==> u == [RIGHT_BRACE] + x
    ensures |s| > 1 ==> u == [COMMA] + (PrintFields(s[1..]) + ([RIGHT_BRACE] + x))
    ensures u != [] && Stops(u)
  {
    var p := [RIGHT_BRACE] + x;
    if |s| > 1 {
      u := [COMMA] + (PrintFields(s[1..]) + p);
      AfterComma(PrintField(s[0]), PrintFields(s[1..]), p);
    } else {
      u := p;
      if |s| == 1 {
        assert PrintFields(s) == PrintField(s[0]);
      }
    }
  }

  // ---------------------------------------------------------------------------
  // The normal form: every object's fields in key order
  // ---------------------------------------------------------------------------

  function Normal(j: Json): Json
    decreases j
  {
    match j
    case Arr(items) => Arr(NormalItems(items))
    case Obj(fields) => Obj(SortBy(NormalFields(fields), KeyOf))
    case _ => j
  }

  function NormalItems(items: seq<Json>): seq<Json>
    decreases items
  {
    if items == [] then [] else [Normal(items[0])] + NormalItems(items[1..])
  }

  function NormalField(field: Field): Field
    decreases field
  {
    Field(field.key, Normal(field.json))
  }

  function NormalFields(fields: seq<Field>): seq<Field>
    decreases fields
  {
    if fields == [] then [] else [NormalField(fields[0])] + NormalFields(fields[1..])
  }

  function Show(f: Field): Member { Member(f.key, Print(f.json)) }

  lemma MapCons<T, U>(x: T, s: seq<T>, f: T -> U)
    ensures Map([x] + s, f) == [f(x)] + Map(s, f)
  {
  }

  lemma {:induction false} InsertMap<T, U>(x: T, s: seq<T>, f: T -> U, key: T -> Text, image: U -> Text)
    requires forall y :: image(f(y)) == key(y)
    ensures InsertBy(f(x), Map(s, f), image) == Map(InsertBy(x, s, key), f)
  {
    if s != [] && Less(key(s[0]), key(x)) {
      InsertMap(x, s[1..], f, key, image);
      assert Map(s, f)[1..] == Map(s[1..], f);
      MapCons(s[0], InsertBy(x, s[1..], key), f);
    } else {
      MapCons(x, s, f);
    }
  }

  /** Sorting commutes with a map that keeps the keys. */
  lemma {:induction false} SortMap<T, U>(s: seq<T>, f: T -> U, key: T -> Text, image: U -> Text)
    requires forall y :: image(f(y)) == key(y)
    ensures SortBy(Map(s, f), image) == Map(SortBy(s, key), f)
  {
    if s != [] {
      SortMap(s[1..], f, key, image);
      assert Map(s, f)[1..] == Map(s[1..], f);
      InsertMap(s[0], SortBy(s[1..], key), f, key, image);
    }
  }

  lemma {:induction false} JoinShown(fields: seq<Field>)
    ensures Join(Map(fields, Show)) == PrintFields(fields)
  {
    if fields != [] {
      JoinShown(fields[1..]);
      assert Map(fields, Show)[1..] == Map(fields[1..], Show);
    }
  }

  /** The canonical text is the text of the normal form. */
  lemma {:induction false} CanonicalIsPrint(j: Json)
    ensures Canonical(j) == Print(Normal(j))
    decreases j
  {
    match j
    case Arr(items) => ItemsArePrint(items);
    case Obj(fields) =>
      MembersAreShown(fields);
      SortMap(NormalFields(fields), Show, KeyOf, NameOf);
      JoinShown(SortBy(NormalFields(fields), KeyOf));
    case _ =>
  }

  lemma {:induction false} ItemsArePrint(items: seq<Json>)
    ensures CanonicalItems(items) == PrintItems(NormalItems(items)) && |NormalItems(items)| == |items|
    decreases items
  {
    if items != [] {
      CanonicalIsPrint(items[0]);
      ItemsArePrint(items[1..]);
      assert NormalItems(items)[1..] == NormalItems(items[1..]);
    }
  }

  lemma {:induction false} MemberIsShown(field: Field)
    ensures CanonicalMember(field) == Show(NormalField(field))
    decreases field
  {
    CanonicalIsPrint(field.json);
  }

  lemma {:induction false} MembersAreShown(fields: seq<Field>)
    ensures CanonicalMembers(fields) == Map(NormalFields(fields), Show)
    decreases fields
  {
    if fields != [] {
      MemberIsShown(fields[0]);
      MembersAreShown(fields[1..]);
    }
  }

  // ---------------------------------------------------------------------------
  // The normal form and the meaning determine each other
  // ---------------------------------------------------------------------------

  lemma {:induction false} FieldsMeaningLookup(fields: seq<Field>)
    requires DistinctBy(fields, KeyOf)
    ensures forall f | f in fields :: f.key in FieldsMeaning(fields) && FieldsMeaning(fields)[f.key] == Meaning(f.json)
    ensures forall k | k in FieldsMeaning(fields) :: exists f | f in fields :: f.key == k
    decreases |fields|
  {
    if fields != [] {
      var head, rest := fields[0], fields[1..];
      FieldsMeaningLookup(rest);
      assert FieldMeaning(head) == Meaning(head.json);
      forall f | f in rest ensures f.key != head.key {
        var i :| 0 <= i < |rest| && rest[i] == f;
        assert KeyOf(fields[0]) != KeyOf(fields[i + 1]);
      }
      assert fields == [head] + rest;
    }
  }

  lemma {:induction false} NormalFieldsAt(fields: seq<Field>)
    ensures |NormalFields(fields)| == |fields|
    ensures forall i | 0 <= i < |fields| :: NormalFields(fields)[i] == NormalField(fields[i])
    decreases |fields|
  {
    if fields != [] {
      NormalFieldsAt(fields[1..]);
    }
  }

  lemma NormalFieldsDistinct(fields: seq<Field>)
    requires DistinctBy(fields, KeyOf)
    ensures DistinctBy(NormalFields(fields), KeyOf)
    ensures DistinctBy(SortBy(NormalFields(fields), KeyOf), KeyOf)
    ensures StrictlyBy(SortBy(NormalFields(fields), KeyOf), KeyOf)
    ensures forall f | f in SortBy(NormalFields(fields), KeyOf) :: f in NormalFields(fields)
    ensures forall f | f in NormalFields(fields) :: f in SortBy(NormalFields(fields), KeyOf)
  {
    NormalFieldsAt(fields);
    var ns := NormalFields(fields);
    forall i, j | 0 <= i < j < |ns| ensures KeyOf(ns[i]) != KeyOf(ns[j]) {
      assert KeyOf(fields[i]) != KeyOf(fields[j]);
    }
    DistinctByOrderFree(ns, SortBy(ns, KeyOf), KeyOf);
    SortBySorted(ns, KeyOf);
    SortedDistinctIsStrict(SortBy(ns, KeyOf), KeyOf);
    Permuted(ns, SortBy(ns, KeyOf));
  }

  /** Putting fields in order does not change what a value means. */
  lemma {:induction false} NormalKeepsMeaning(j: Json)
    requires WellFormed(j)
    ensures Meaning(Normal(j)) == Meaning(j)
    decreases j
  {
    match j
    case Arr(items) => ItemsKeepMeaning(items);
    case Obj(fields) =>
      forall f | f in fields ensures Meaning(Normal(f.json)) == Meaning(f.json) {
        NormalKeepsMeaning(f.json);
      }
      FieldsKeepMeaning(fields);
    case _ =>
  }

  lemma {:induction false} ItemsKeepMeaning(items: seq<Json>)
    requires forall k | k in items :: WellFormed(k)
    ensures ItemsMeaning(NormalItems(items)) == ItemsMeaning(items)
    decreases items
  {
    if items != [] {
      NormalKeepsMeaning(items[0]);
      ItemsKeepMeaning(items[1..]);
      assert NormalItems(items)[1..] == NormalItems(items[1..]);
    }
  }

  lemma {:induction false} NormalFieldsMeaning(fields: seq<Field>)
    requires forall f | f in fields :: Meaning(Normal(f.json)) == Meaning(f.json)
    ensures FieldsMeaning(NormalFields(fields)) == FieldsMeaning(fields)
    decreases |fields|
  {
    if fields != [] {
      NormalFieldsMeaning(fields[1..]);
      assert NormalFields(fields)[1..] == NormalFields(fields[1..]);
      assert fields[0] in fields;
    }
  }

  lemma SubfieldsMeaning(s: seq<Field>, t: seq<Field>)
    requires DistinctBy(s, KeyOf) && DistinctBy(t, KeyOf) && forall f | f in s :: f in t
    ensures forall k | k in FieldsMeaning(s) :: k in FieldsMeaning(t) && FieldsMeaning(s)[k] == FieldsMeaning(t)[k]
  {
    FieldsMeaningLookup(s);
    FieldsMeaningLookup(t);
  }

  lemma FieldsKeepMeaning(fields: seq<Field>)
    requires DistinctBy(fields, KeyOf)
    requires forall f | f in fields :: Meaning(Normal(f.json)) == Meaning(f.json)
    ensures FieldsMeaning(SortBy(NormalFields(fields), KeyOf)) == FieldsMeaning(fields)
  {
    NormalFieldsDistinct(fields);
    NormalFieldsMeaning(fields);
    SubfieldsMeaning(NormalFields(fields), SortBy(NormalFields(fields), KeyOf));
    SubfieldsMeaning(SortBy(NormalFields(fields), KeyOf), NormalFields(fields));
  }

  /** Values that mean the same have the same normal form. */
  lemma {:induction false} MeaningDeterminesNormal(a: Json, b: Json)
    requires WellFormed(a) && WellFormed(b) && Meaning(a) == Meaning(b)
    ensures Normal(a) == Normal(b)
    decreases a
  {
    match a
    case Arr(items) => ItemsMeaningDeterminesNormal(items, b.items);
    case Obj(fields) =>
      forall f, g | f in fields && g in b.fields && Meaning(f.json) == Meaning(g.json)
        ensures Normal(f.json) == Normal(g.json)
      {
        MeaningDeterminesNormal(f.json, g.json);
      }
      FieldsMeaningDeterminesNormal(fields, b.fields);
    case _ =>
  }

  lemma {:induction false} ItemsMeaningDeterminesNormal(s: seq<Json>, t: seq<Json>)
    requires (forall k | k in s :: WellFormed(k)) && forall k | k in t :: WellFormed(k)
    requires ItemsMeaning(s) == ItemsMeaning(t)
    ensures NormalItems(s) == NormalItems(t)
    decreases s
  {
    if s != [] && t != [] {
      assert ItemsMeaning(s)[0] == Meaning(s[0]) && ItemsMeaning(t)[0] == Meaning(t[0]);
      assert ItemsMeaning(s)[1..] == ItemsMeaning(s[1..]) && ItemsMeaning(t)[1..] == ItemsMeaning(t[1..]);
      MeaningDeterminesNormal(s[0], t[0]);
      ItemsMeaningDeterminesNormal(s[1..], t[1..]);
    }
  }

  lemma FieldsMeaningDeterminesNormal(s: seq<Field>, t: seq<Field>)
    requires DistinctBy(s, KeyOf) && DistinctBy(t, KeyOf) && FieldsMeaning(s) == FieldsMeaning(t)
    requires forall f, g | f in s && g in t && Meaning(f.json) == Meaning(g.json) :: Normal(f.json) == Normal(g.json)
    ensures SortBy(NormalFields(s), KeyOf) == SortBy(NormalFields(t), KeyOf)
  {
    NormalFieldsDistinct(s);
    NormalFieldsDistinct(t);
    FieldsIncluded(s, t);
    FieldsIncluded(t, s);
    StrictUnique(SortBy(NormalFields(s), KeyOf), SortBy(NormalFields(t), KeyOf), KeyOf);
  }

  lemma FieldsIncluded(s: seq<Field>, t: seq<Field>)
    requires DistinctBy(s, KeyOf) && DistinctBy(t, KeyOf) && FieldsMeaning(s) == FieldsMeaning(t)
    requires forall f, g | f in s && g in t && Meaning(f.json) == Meaning(g.json) :: Normal(f.json) == Normal(g.json)
    ensures forall n | n in NormalFields(s) :: n in NormalFields(t)
  {
    NormalFieldsAt(s);
    NormalFieldsAt(t);
    FieldsMeaningLookup(s);
    FieldsMeaningLookup(t);
    forall n | n in NormalFields(s) ensures n in NormalFields(t) {
      var i :| 0 <= i < |s| && NormalFields(s)[i] == n;
      assert s[i] in s;
      var g :| g in t && g.key == s[i].key;
      var j :| 0 <= j < |t| && t[j] == g;
      assert NormalFields(t)[j] == n;
    }
  }

  // ---------------------------------------------------------------------------
  // The theorem
  // ---------------------------------------------------------------------------

  /** Canonical text is faithful: it differs whenever the values differ, and the order in which an
      object's properties were written is all it forgets. */
  lemma CanonicalFaithful(a: Json, b: Json)
    requires WellFormed(a) && WellFormed(b)
    ensures Canonical(a) == Canonical(b) <==> Meaning(a) == Meaning(b)
  {
    CanonicalIsPrint(a);
    CanonicalIsPrint(b);
    if Meaning(a) == Meaning(b) {
      MeaningDeterminesNormal(a, b);
    }
    if Canonical(a) == Canonical(b) {
      assert Print(Normal(a)) + [] == Print(Normal(b)) + [];
      PrintUnambiguous(Normal(a), Normal(b), [], []);
      NormalKeepsMeaning(a);
      NormalKeepsMeaning(b);
    }
  }
}
