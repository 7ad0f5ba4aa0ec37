/**
 * Canonical JSON text. Object members keep the order in which they were written, numbers are the
 * tokens that JSON.stringify prints, and strings are escaped the way JSON.stringify escapes them.
 */
module JsonText {
  import opened Text16

  datatype Json =
    | Null
    | Bool(b: bool)
    | Num(token: NumToken)
    | Str(s: Text)
    | Arr(items: seq<Json>)
    | Obj(fields: seq<Member>)

  datatype Member = Member(key: Text, value: Json)

  /** A printed number: digits, signs, a point or an exponent, starting with a digit or a minus. */
  type NumToken = t: Text | IsNumToken(t) witness [48]

  predicate IsNumToken(t: Text) {
    t != [] && (IsDigit(t[0]) || t[0] == 45) && forall c | c in t :: IsNumUnit(c)
  }

  predicate IsDigit(c: CodeUnit) { 48 <= c <= 57 }

  predicate IsNumUnit(c: CodeUnit) { IsDigit(c) || c == 43 || c == 45 || c == 46 || c == 101 }

  const QUOTE: CodeUnit := 34
  const COMMA: CodeUnit := 44
  const COLON: CodeUnit := 58
  const BACKSLASH: CodeUnit := 92
  const LBRACKET: CodeUnit := 91
  const RBRACKET: CodeUnit := 93
  const LBRACE: CodeUnit := 123
  const RBRACE: CodeUnit := 125
  const NULL_TEXT: Text := [110, 117, 108, 108]
  const TRUE_TEXT: Text := [116, 114, 117, 101]
  const FALSE_TEXT: Text := [102, 97, 108, 115, 101]

  // ---------------------------------------------------------------- strings

  function HexDigit(n: int): CodeUnit
    requires 0 <= n < 16
  {
    if n < 10 then (48 + n) as CodeUnit else (87 + n) as CodeUnit
  }

  function HexValue(c: CodeUnit): (n: int)
    ensures 0 <= n < 16
  {
    if 48 <= c <= 57 then c as int - 48 else if 97 <= c <= 102 then c as int - 87 else 0
  }

  function UnicodeEscape(c: CodeUnit): Text {
    var n := c as int;
    [BACKSLASH, 117, HexDigit(n / 4096), HexDigit(n / 256 % 16), HexDigit(n / 16 % 16), HexDigit(n % 16)]
  }

  predicate HighSurrogate(c: CodeUnit) { 0xD800 <= c < 0xDC00 }

  predicate LowSurrogate(c: CodeUnit) { 0xDC00 <= c < 0xE000 }

  /** The letter after the backslash for the five short control escapes, the quote and the backslash. */
  function ShortEscape(c: CodeUnit): CodeUnit {
    if c == 8 then 98 else if c == 9 then 116 else if c == 10 then 110
    else if c == 12 then 102 else if c == 13 then 114 else if c == QUOTE || c == BACKSLASH then c else 0
  }

  function EscapeUnit(c: CodeUnit): Text {
    if ShortEscape(c) != 0 then [BACKSLASH, ShortEscape(c)]
    else if c < 32 || HighSurrogate(c) || LowSurrogate(c) then UnicodeEscape(c)
    else [c]
  }

  /** The body of JSON.stringify of a string: a surrogate pair stays literal, a lone half is escaped. */
  function Escape(s: Text): Text {
    if s == [] then []
    else if |s| >= 2 && HighSurrogate(s[0]) && LowSurrogate(s[1]) then s[..2] + Escape(s[2..])
    else EscapeUnit(s[0]) + Escape(s[1..])
  }

  function Quote(s: Text): Text { [QUOTE] + Escape(s) + [QUOTE] }

  // ---------------------------------------------------------------- canonicalJson

  function InsertByKey(m: Member, sorted: seq<Member>): (r: seq<Member>)
    ensures multiset(r) == multiset{m} + multiset(sorted)
  {
    if sorted == [] then [m]
    else if CompareUtf16(m.key, sorted[0].key) <= 0 then [m] + sorted
    else
      assert sorted == [sorted[0]] + sorted[1..];
      [sorted[0]] + InsertByKey(m, sorted[1..])
  }

  function SortByKey(fields: seq<Member>): (r: seq<Member>)
    ensures multiset(r) == multiset(fields)
  {
    if fields == [] then []
    else
      assert fields == [fields[0]] + fields[1..];
      InsertByKey(fields[0], SortByKey(fields[1..]))
  }

  /** SortByKey, with the facts about it that recursion over the sorted members relies on. */
  function Entries(fields: seq<Member>): (r: seq<Member>)
    ensures |r| == |fields|
    ensures forall i | 0 <= i < |r| :: r[i] in fields
    ensures forall m | m in fields :: m in r
  {
    var r := SortByKey(fields);
    assert |multiset(r)| == |multiset(fields)|;
    assert forall m :: m in r <==> m in multiset(r);
    assert forall m :: m in fields <==> m in multiset(fields);
    assert forall i | 0 <= i < |r| :: r[i] in r;
    r
  }

  function Join(texts: seq<Text>): Text {
    if texts == [] then []
    else if |texts| == 1 then texts[0]
    else texts[0] + [COMMA] + Join(texts[1..])
  }

  function CanonicalJson(v: Json): Text {
    match v
    case Null => NULL_TEXT
    case Bool(b) => if b then TRUE_TEXT else FALSE_TEXT
    case Num(token) => token
    case Str(s) => Quote(s)
    case Arr(items) =>
      [LBRACKET] + Join(seq(|items|, i requires 0 <= i < |items| => CanonicalJson(items[i]))) + [RBRACKET]
    case Obj(fields) =>
      var entries := Entries(fields);
      [LBRACE] +
      Join(seq(|entries|, i requires 0 <= i < |entries| =>
        assert entries[i] in fields;
        Quote(entries[i].key) + [COLON] + CanonicalJson(entries[i].value))) +
      [RBRACE]
  }

  /** The same value with the members of every object in UTF-16 key order. */
  function Normalize(v: Json): Json {
    match v
    case Arr(items) => Arr(seq(|items|, i requires 0 <= i < |items| => Normalize(items[i])))
    case Obj(fields) =>
      var entries := Entries(fields);
      Obj(seq(|entries|, i requires 0 <= i < |entries| =>
        assert entries[i] in fields;
        Member(entries[i].key, Normalize(entries[i].value))))
    case _ => v
  }
}
