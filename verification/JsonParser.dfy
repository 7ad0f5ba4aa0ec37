/**
 * A JSON parser, written independently of the writer, and the proof that it inverts canonicalJson:
 * reading canonical text gives back the value with its members in key order, whatever delimiter follows.
 */
module JsonParser {
  import opened Text16
  import opened JsonText

  datatype Parsed<+A> = Fail | Got(value: A, rest: Text)

  // ---------------------------------------------------------------- the parser

  function Unescape(letter: CodeUnit): CodeUnit {
    if letter == 98 then 8 else if letter == 116 then 9 else if letter == 110 then 10
    else if letter == 102 then 12 else if letter == 114 then 13 else letter
  }

  /** Reads string units up to the closing quote, which it consumes. */
  function ParseUnits(t: Text): (r: Parsed<Text>)
    ensures r.Got? ==> |r.rest| < |t|
  {
    if t == [] then Fail
    else if t[0] == QUOTE then Got([], t[1..])
    else if t[0] != BACKSLASH then Prepend(t[0], ParseUnits(t[1..]))
    else if |t| < 2 then Fail
    else if t[1] != 117 then Prepend(Unescape(t[1]), ParseUnits(t[2..]))
    else if |t| < 6 then Fail
    else Prepend(
      (((HexValue(t[2]) * 16 + HexValue(t[3])) * 16 + HexValue(t[4])) * 16 + HexValue(t[5])) as CodeUnit,
      ParseUnits(t[6..]))
  }

  function Prepend(c: CodeUnit, r: Parsed<Text>): Parsed<Text> {
    match r
    case Fail => Fail
    case Got(s, rest) => Got([c] + s, rest)
  }

  function NumLength(t: Text): (n: nat)
    ensures n <= |t|
  {
    if t == [] || !IsNumUnit(t[0]) then 0 else 1 + NumLength(t[1..])
  }

  function ParseLiteral(t: Text, literal: Text, value: Json): (r: Parsed<Json>)
    ensures r.Got? && literal != [] ==> |r.rest| < |t|
  {
    if literal <= t then Got(value, t[|literal|..]) else Fail
  }

  function ParseNumber(t: Text): (r: Parsed<Json>)
    ensures r.Got? ==> |r.rest| < |t|
  {
    var n := NumLength(t);
    if IsNumToken(t[..n]) then Got(Num(t[..n]), t[n..]) else Fail
  }

  function ParseValue(t: Text): (r: Parsed<Json>)
    ensures r.Got? ==> |r.rest| < |t|
    decreases |t|, 0
  {
    if t == [] then Fail
    else if t[0] == QUOTE then
      match ParseUnits(t[1..])
      case Fail => Fail
      case Got(s, rest) => Got(Str(s), rest)
    else if t[0] == LBRACKET then
      if |t| >= 2 && t[1] == RBRACKET then Got(Arr([]), t[2..])
      else
        match ParseItems(t[1..])
        case Fail => Fail
        case Got(items, rest) => Got(Arr(items), rest)
    else if t[0] == LBRACE then
      if |t| >= 2 && t[1] == RBRACE then Got(Obj([]), t[2..])
      else
        match ParseMembers(t[1..])
        case Fail => Fail
        case Got(fields, rest) => Got(Obj(fields), rest)
    else if t[0] == 110 then ParseLiteral(t, NULL_TEXT, Null)
    else if t[0] == 116 then ParseLiteral(t, TRUE_TEXT, Bool(true))
    else if t[0] == 102 then ParseLiteral(t, FALSE_TEXT, Bool(false))
    else ParseNumber(t)
  }

  function ParseItems(t: Text): (r: Parsed<seq<Json>>)
    ensures r.Got? ==> |r.rest| < |t|
    decreases |t|, 1
  {
    match ParseValue(t)
    case Fail => Fail
    case Got(v, rest) =>
      if rest == [] then Fail
      else if rest[0] == RBRACKET then Got([v], rest[1..])
      else if rest[0] != COMMA then Fail
      else
        match ParseItems(rest[1..])
        case Fail => Fail
        case Got(more, end) => Got([v] + more, end)
  }

  function ParseMember(t: Text): (r: Parsed<Member>)
    ensures r.Got? ==> |r.rest| < |t|
    decreases |t|, 1
  {
    if t == [] || t[0] != QUOTE then Fail
    else
      match ParseUnits(t[1..])
      case Fail => Fail
      case Got(key, rest) =>
        if rest == [] || rest[0] != COLON then Fail
        else
          match ParseValue(rest[1..])
          case Fail => Fail
          case Got(v, end) => Got(Member(key, v), end)
  }

  function ParseMembers(t: Text): (r: Parsed<seq<Member>>)
    ensures r.Got? ==> |r.rest| < |t|
    decreases |t|, 2
  {
    match ParseMember(t)
    case Fail => Fail
    case Got(m, rest) =>
      if rest == [] then Fail
      else if rest[0] == RBRACE then Got([m], rest[1..])
      else if rest[0] != COMMA then Fail
      else
        match ParseMembers(rest[1..])
        case Fail => Fail
        case Got(more, end) => Got([m] + more, end)
  }

  // ---------------------------------------------------------------- it inverts the writer

  lemma Regroup(a: Text, b: Text, c: Text, d: Text)
    ensures (a + b + c) + d == a + (b + (c + d))
    ensures (a + b) + c == a + (b + c)
  {
  }

  lemma FirstAndRest<T>(s: seq<T>)
    requires s != []
    ensures [s[0]] + s[1..] == s
  {
  }

  /** What may follow a value inside a larger text: nothing, a comma or a closing bracket. */
  predicate Delimited(rest: Text) {
    rest == [] || rest[0] == COMMA || rest[0] == RBRACKET || rest[0] == RBRACE
  }

  ghost predicate Reads(text: Text, v: Json) {
    text != [] && text[0] != RBRACKET && text[0] != RBRACE &&
    forall rest: Text | Delimited(rest) :: ParseValue(text + rest) == Got(v, rest)
  }

  ghost predicate ReadsMember(text: Text, m: Member) {
    text != [] && text[0] != RBRACE &&
    forall rest: Text | Delimited(rest) :: ParseMember(text + rest) == Got(m, rest)
  }

  lemma HexDigitReads(n: int)
    requires 0 <= n < 16
    ensures HexValue(HexDigit(n)) == n
  {
  }

  lemma HexDigitsRecombine(c: int)
    requires 0 <= c < 0x1_0000
    ensures 0 <= c / 4096 < 16
    ensures ((c / 4096 * 16 + c / 256 % 16) * 16 + c / 16 % 16) * 16 + c % 16 == c
  {
    var c1, c2 := c / 16, c / 256;
    assert c == 16 * c1 + c % 16;
    assert c1 / 16 == c2 && c1 == 16 * c2 + c1 % 16;
    assert c2 / 16 == c / 4096 && c2 == 16 * (c / 4096) + c2 % 16;
  }

  lemma UnicodeEscapeReads(c: CodeUnit, rest: Text)
    ensures ParseUnits(UnicodeEscape(c) + rest) == Prepend(c, ParseUnits(rest))
  {
    var t := UnicodeEscape(c) + rest;
    var n := c as int;
    HexDigitsRecombine(n);
    HexDigitReads(n / 4096);
    HexDigitReads(n / 256 % 16);
    HexDigitReads(n / 16 % 16);
    HexDigitReads(n % 16);
    assert t[6..] == rest;
    assert t[0] == BACKSLASH && t[1] == 117;
    assert t[2] == HexDigit(n / 4096) && t[3] == HexDigit(n / 256 % 16);
    assert t[4] == HexDigit(n / 16 % 16) && t[5] == HexDigit(n % 16);
  }

  lemma EscapedUnitReads(c: CodeUnit, rest: Text)
    ensures ParseUnits(EscapeUnit(c) + rest) == Prepend(c, ParseUnits(rest))
  {
    if ShortEscape(c) != 0 {
      var t := [BACKSLASH, ShortEscape(c)] + rest;
      assert t[0] == BACKSLASH && t[1] == ShortEscape(c) && t[2..] == rest;
      assert Unescape(t[1]) == c;
    } else if c < 32 || HighSurrogate(c) || LowSurrogate(c) {
      UnicodeEscapeReads(c, rest);
    } else {
      LiteralUnitReads(c, rest);
    }
  }

  lemma LiteralUnitReads(c: CodeUnit, rest: Text)
    requires c != QUOTE && c != BACKSLASH
    ensures ParseUnits([c] + rest) == Prepend(c, ParseUnits(rest))
  {
    assert ([c] + rest)[1..] == rest;
  }

  lemma PairReads(high: CodeUnit, low: CodeUnit, rest: Text)
    requires HighSurrogate(high) && LowSurrogate(low)
    ensures ParseUnits([high, low] + rest) == Prepend(high, Prepend(low, ParseUnits(rest)))
  {
    assert [high, low] + rest == [high] + ([low] + rest);
    LiteralUnitReads(high, [low] + rest);
    LiteralUnitReads(low, rest);
  }

  lemma {:induction false} EscapedReads(s: Text, rest: Text)
    ensures ParseUnits(Escape(s) + ([QUOTE] + rest)) == Got(s, rest)
  {
    var end := [QUOTE] + rest;
    if s == [] {
      assert Escape(s) + end == end && end[1..] == rest;
    } else if |s| >= 2 && HighSurrogate(s[0]) && LowSurrogate(s[1]) {
      EscapedReads(s[2..], rest);
      Regroup(s[..2], Escape(s[2..]), end, []);
      assert s[..2] == [s[0], s[1]];
      PairReads(s[0], s[1], Escape(s[2..]) + end);
      assert [s[0]] + ([s[1]] + s[2..]) == s;
    } else {
      EscapedReads(s[1..], rest);
      Regroup(EscapeUnit(s[0]), Escape(s[1..]), end, []);
      EscapedUnitReads(s[0], Escape(s[1..]) + end);
      FirstAndRest(s);
    }
  }

  lemma QuotedReads(s: Text, rest: Text)
    ensures (Quote(s) + rest)[0] == QUOTE
    ensures ParseUnits((Quote(s) + rest)[1..]) == Got(s, rest)
  {
    assert (Quote(s) + rest)[1..] == Escape(s) + ([QUOTE] + rest);
    EscapedReads(s, rest);
  }

  lemma {:induction false} NumberReads(token: Text, rest: Text)
    requires Delimited(rest) && forall c | c in token :: IsNumUnit(c)
    ensures NumLength(token + rest) == |token|
  {
    if token == [] {
      assert token + rest == rest;
    } else {
      assert (token + rest)[1..] == token[1..] + rest;
      NumberReads(token[1..], rest);
    }
  }

  lemma LastItemReads(text: Text, v: Json, rest: Text)
    requires Reads(text, v)
    ensures ParseItems(text + ([RBRACKET] + rest)) == Got([v], rest)
  {
    assert ([RBRACKET] + rest)[1..] == rest;
  }

  lemma NextItemReads(text: Text, v: Json, more: seq<Json>, inner: Text, rest: Text)
    requires Reads(text, v) && ParseItems(inner) == Got(more, rest)
    ensures ParseItems(text + ([COMMA] + inner)) == Got([v] + more, rest)
  {
    assert ([COMMA] + inner)[1..] == inner;
  }

  lemma {:induction false} JoinedItemsRead(texts: seq<Text>, values: seq<Json>, rest: Text)
    requires |texts| == |values| > 0
    requires forall i | 0 <= i < |texts| :: Reads(texts[i], values[i])
    ensures ParseItems(Join(texts) + ([RBRACKET] + rest)) == Got(values, rest)
  {
    var end := [RBRACKET] + rest;
    assert Reads(texts[0], values[0]);
    if |texts| == 1 {
      LastItemReads(texts[0], values[0], rest);
      assert [values[0]] == values;
    } else {
      JoinedItemsRead(texts[1..], values[1..], rest);
      Regroup(texts[0], [COMMA], Join(texts[1..]), end);
      NextItemReads(texts[0], values[0], values[1..], Join(texts[1..]) + end, rest);
      FirstAndRest(values);
    }
  }

  lemma LastMemberReads(text: Text, v: Member, rest: Text)
    requires ReadsMember(text, v)
    ensures ParseMembers(text + ([RBRACE] + rest)) == Got([v], rest)
  {
    assert ([RBRACE] + rest)[1..] == rest;
  }

  lemma NextMemberReads(text: Text, v: Member, more: seq<Member>, inner: Text, rest: Text)
    requires ReadsMember(text, v) && ParseMembers(inner) == Got(more, rest)
    ensures ParseMembers(text + ([COMMA] + inner)) == Got([v] + more, rest)
  {
    assert ([COMMA] + inner)[1..] == inner;
  }

  lemma {:induction false} JoinedMembersRead(texts: seq<Text>, members: seq<Member>, rest: Text)
    requires |texts| == |members| > 0
    requires forall i | 0 <= i < |texts| :: ReadsMember(texts[i], members[i])
    ensures ParseMembers(Join(texts) + ([RBRACE] + rest)) == Got(members, rest)
  {
    var end := [RBRACE] + rest;
    assert ReadsMember(texts[0], members[0]);
    if |texts| == 1 {
      LastMemberReads(texts[0], members[0], rest);
      assert [members[0]] == members;
    } else {
      JoinedMembersRead(texts[1..], members[1..], rest);
      Regroup(texts[0], [COMMA], Join(texts[1..]), end);
      NextMemberReads(texts[0], members[0], members[1..], Join(texts[1..]) + end, rest);
      FirstAndRest(members);
    }
  }

  lemma JoinStart(texts: seq<Text>)
    requires |texts| > 0 && texts[0] != []
    ensures Join(texts) != [] && Join(texts)[0] == texts[0][0]
  {
  }

  lemma ArrayBodyReads(body: Text, values: seq<Json>, rest: Text)
    requires body != [] && body[0] != RBRACKET && ParseItems(body) == Got(values, rest)
    ensures ParseValue([LBRACKET] + body) == Got(Arr(values), rest)
  {
    assert ([LBRACKET] + body)[1..] == body;
  }

  lemma ArrayTextReads(texts: seq<Text>, values: seq<Json>, rest: Text)
    requires |texts| == |values|
    requires forall i | 0 <= i < |texts| :: Reads(texts[i], values[i])
    ensures ParseValue([LBRACKET] + Join(texts) + [RBRACKET] + rest) == Got(Arr(values), rest)
  {
    Regroup([LBRACKET], Join(texts), [RBRACKET], rest);
    if texts == [] {
      var t := [LBRACKET] + ([] + ([RBRACKET] + rest));
      assert t[1] == RBRACKET && t[2..] == rest;
    } else {
      JoinStart(texts);
      JoinedItemsRead(texts, values, rest);
      ArrayBodyReads(Join(texts) + ([RBRACKET] + rest), values, rest);
    }
  }

  lemma ArrayReads(texts: seq<Text>, values: seq<Json>)
    requires |texts| == |values|
    requires forall i | 0 <= i < |texts| :: Reads(texts[i], values[i])
    ensures Reads([LBRACKET] + Join(texts) + [RBRACKET], Arr(values))
  {
    forall rest: Text | Delimited(rest)
      ensures ParseValue([LBRACKET] + Join(texts) + [RBRACKET] + rest) == Got(Arr(values), rest)
    {
      ArrayTextReads(texts, values, rest);
    }
  }

  lemma ObjectBodyReads(body: Text, members: seq<Member>, rest: Text)
    requires body != [] && body[0] != RBRACE && ParseMembers(body) == Got(members, rest)
    ensures ParseValue([LBRACE] + body) == Got(Obj(members), rest)
  {
    assert ([LBRACE] + body)[1..] == body;
  }

  lemma ObjectTextReads(texts: seq<Text>, members: seq<Member>, rest: Text)
    requires |texts| == |members|
    requires forall i | 0 <= i < |texts| :: ReadsMember(texts[i], members[i])
    ensures ParseValue([LBRACE] + Join(texts) + [RBRACE] + rest) == Got(Obj(members), rest)
  {
    Regroup([LBRACE], Join(texts), [RBRACE], rest);
    if texts == [] {
      var t := [LBRACE] + ([] + ([RBRACE] + rest));
      assert t[1] == RBRACE && t[2..] == rest;
    } else {
      JoinStart(texts);
      JoinedMembersRead(texts, members, rest);
      ObjectBodyReads(Join(texts) + ([RBRACE] + rest), members, rest);
    }
  }

  lemma ObjectReads(texts: seq<Text>, members: seq<Member>)
    requires |texts| == |members|
    requires forall i | 0 <= i < |texts| :: ReadsMember(texts[i], members[i])
    ensures Reads([LBRACE] + Join(texts) + [RBRACE], Obj(members))
  {
    forall rest: Text | Delimited(rest)
      ensures ParseValue([LBRACE] + Join(texts) + [RBRACE] + rest) == Got(Obj(members), rest)
    {
      ObjectTextReads(texts, members, rest);
    }
  }

  lemma MemberReads(key: Text, text: Text, v: Json)
    requires Reads(text, v)
    ensures ReadsMember(Quote(key) + [COLON] + text, Member(key, v))
  {
    var whole := Quote(key) + [COLON] + text;
    forall rest: Text | Delimited(rest)
      ensures ParseMember(whole + rest) == Got(Member(key, v), rest)
    {
      assert whole + rest == Quote(key) + ([COLON] + (text + rest));
      QuotedReads(key, [COLON] + (text + rest));
      assert ([COLON] + (text + rest))[1..] == text + rest;
    }
  }

  lemma ScalarReads(v: Json)
    requires v.Null? || v.Bool? || v.Num? || v.Str?
    ensures Reads(CanonicalJson(v), v)
  {
    var text := CanonicalJson(v);
    forall rest: Text | Delimited(rest)
      ensures ParseValue(text + rest) == Got(v, rest)
    {
      var t := text + rest;
      match v
      case Str(s) => QuotedReads(s, rest);
      case Num(token) =>
        assert IsNumToken(token);
        NumberReads(token, rest);
        assert t[0] == token[0];
        assert t[..|token|] == token && t[|token|..] == rest;
      case Null => assert t[4..] == rest;
      case Bool(b) => assert t[|text|..] == rest;
      case _ =>
    }
  }

  /** Reading the canonical text of any value gives back that value with its members in key order. */
  lemma {:induction false} CanonicalTextReads(v: Json)
    ensures Reads(CanonicalJson(v), Normalize(v))
  {
    match v
    case Arr(items) =>
      var texts := seq(|items|, i requires 0 <= i < |items| => CanonicalJson(items[i]));
      var values := seq(|items|, i requires 0 <= i < |items| => Normalize(items[i]));
      forall i | 0 <= i < |items| ensures Reads(texts[i], values[i]) {
        CanonicalTextReads(items[i]);
      }
      ArrayReads(texts, values);
    case Obj(fields) =>
      var entries := Entries(fields);
      var texts := seq(|entries|, i requires 0 <= i < |entries| =>
        Quote(entries[i].key) + [COLON] + CanonicalJson(entries[i].value));
      var members := seq(|entries|, i requires 0 <= i < |entries| =>
        Member(entries[i].key, Normalize(entries[i].value)));
      forall i | 0 <= i < |entries| ensures ReadsMember(texts[i], members[i]) {
        assert entries[i] in fields;
        CanonicalTextReads(entries[i].value);
        MemberReads(entries[i].key, CanonicalJson(entries[i].value), Normalize(entries[i].value));
      }
      ObjectReads(texts, members);
    case _ =>
      ScalarReads(v);
  }
}
