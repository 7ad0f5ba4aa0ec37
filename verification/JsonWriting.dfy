/** The characters of canonical text: what JSON.stringify escapes and how, and what it leaves alone. */
module JsonWriting {
  import opened Text16
  import opened JsonText

  /** The lower-case hexadecimal digits of a code unit, most significant first. */
  function HexText(n: nat, digits: nat): (t: Text)
    ensures |t| == digits
  {
    if digits == 0 then [] else HexText(n / 16, digits - 1) + [Ascii("0123456789abcdef")[n % 16]]
  }

  predicate IsSurrogate(c: CodeUnit) { 0xD800 <= c <= 0xDFFF }

  /** How section 25.5.2.3 of ECMA-262 writes a code unit that is not half of a surrogate pair. */
  function Written(c: CodeUnit): Text {
    if c == 8 then Ascii("\\b")
    else if c == 9 then Ascii("\\t")
    else if c == 10 then Ascii("\\n")
    else if c == 12 then Ascii("\\f")
    else if c == 13 then Ascii("\\r")
    else if [c] == Ascii("\"") then Ascii("\\\"")
    else if [c] == Ascii("\\") then Ascii("\\\\")
    else if c < 0x20 || IsSurrogate(c) then Ascii("\\u") + HexText(c as nat, 4)
    else [c]
  }

  lemma HexDigitIs(n: nat)
    requires n < 16
    ensures HexDigit(n) == Ascii("0123456789abcdef")[n]
  {
    assert "0123456789"[..] == "0123456789abcdef"[..10] && "abcdef" == "0123456789abcdef"[10..];
  }

  lemma FourHexDigits(c: CodeUnit)
    ensures UnicodeEscape(c) == Ascii("\\u") + HexText(c as nat, 4)
  {
    var n := c as nat;
    HexDigitIs(n / 4096);
    HexDigitIs(n / 256 % 16);
    HexDigitIs(n / 16 % 16);
    HexDigitIs(n % 16);
    assert n / 16 / 16 == n / 256 && n / 256 / 16 == n / 4096 && n / 4096 % 16 == n / 4096;
    assert HexText(n / 4096, 1) == HexText(n / 4096 / 16, 0) + [HexDigit(n / 4096)];
    assert HexText(n / 256, 2) == HexText(n / 4096, 1) + [HexDigit(n / 256 % 16)];
    assert HexText(n / 16, 3) == HexText(n / 256, 2) + [HexDigit(n / 16 % 16)];
  }

  lemma ShortEscapesAreWritten(c: CodeUnit)
    requires c == 8 || c == 9 || c == 10 || c == 12 || c == 13 || c == QUOTE || c == BACKSLASH
    ensures EscapeUnit(c) == Written(c)
  {
    assert [QUOTE] == Ascii("\"") && [BACKSLASH] == Ascii("\\");
  }

  lemma OtherUnitsAreWritten(c: CodeUnit)
    requires ShortEscape(c) == 0
    ensures EscapeUnit(c) == Written(c)
  {
    assert Ascii("\"") == [QUOTE] && Ascii("\\") == [BACKSLASH];
    FourHexDigits(c);
  }

  lemma UnitIsWritten(c: CodeUnit)
    ensures Escape([c]) == Written(c)
  {
    if ShortEscape(c) == 0 { OtherUnitsAreWritten(c); } else { ShortEscapesAreWritten(c); }
    assert [c][1..] == [] && Escape([c]) == EscapeUnit(c) + [];
  }

  predicate IsPair(s: Text) { |s| == 2 && 0xD800 <= s[0] <= 0xDBFF && 0xDC00 <= s[1] <= 0xDFFF }

  /** The first text does not end with the first half of a pair whose second half the other starts with. */
  predicate PartsCleanly(s: Text, t: Text) {
    s == [] || t == [] || !IsPair([s[|s| - 1], t[0]])
  }

  predicate StartsWithPair(s: Text) { |s| >= 2 && HighSurrogate(s[0]) && LowSurrogate(s[1]) }

  lemma PairGoesFirst(pair: Text, rest: Text)
    requires IsPair(pair)
    ensures Escape(pair + rest) == pair + Escape(rest)
  {
    assert (pair + rest)[..2] == pair && (pair + rest)[2..] == rest;
  }

  lemma UnitGoesFirst(c: CodeUnit, rest: Text)
    requires PartsCleanly([c], rest)
    ensures Escape([c] + rest) == EscapeUnit(c) + Escape(rest)
  {
    assert ([c] + rest)[1..] == rest;
  }

  lemma Associates(a: Text, b: Text, c: Text)
    ensures a + b + c == a + (b + c)
  {
  }

  lemma {:induction false} PartsAreEscapedApart(s: Text, t: Text)
    requires PartsCleanly(s, t)
    ensures Escape(s + t) == Escape(s) + Escape(t)
  {
    if s == [] {
      NothingGoesFirst(t);
    } else if StartsWithPair(s) {
      PartsAreEscapedApart(s[2..], t);
      PairIsEscapedApart(s[..2], s[2..], t);
      assert s == s[..2] + s[2..];
    } else {
      PartsAreEscapedApart(s[1..], t);
      UnitIsEscapedApart(s[0], s[1..], t);
      assert s == [s[0]] + s[1..];
    }
  }

  lemma NothingGoesFirst(t: Text)
    ensures Escape([] + t) == Escape([]) + Escape(t)
  {
    assert [] + t == t && [] + Escape(t) == Escape(t);
  }

  lemma PairIsEscapedApart(pair: Text, s: Text, t: Text)
    requires IsPair(pair) && Escape(s + t) == Escape(s) + Escape(t)
    ensures Escape(pair + s + t) == Escape(pair + s) + Escape(t)
  {
    PairGoesFirst(pair, s);
    PairGoesFirst(pair, s + t);
    Associates(pair, s, t);
    Associates(pair, Escape(s), Escape(t));
  }

  lemma UnitIsEscapedApart(c: CodeUnit, s: Text, t: Text)
    requires PartsCleanly([c], s) && PartsCleanly([c], s + t) && Escape(s + t) == Escape(s) + Escape(t)
    ensures Escape([c] + s + t) == Escape([c] + s) + Escape(t)
  {
    UnitGoesFirst(c, s);
    UnitGoesFirst(c, s + t);
    Associates([c], s, t);
    Associates(EscapeUnit(c), Escape(s), Escape(t));
  }

  /**
   * The body of a written string: text that parts nowhere inside a surrogate pair is written part by part, a
   * pair as it is, and any other code unit by the table.
   */
  lemma StringsAreWrittenByTheTable(s: Text, t: Text, pair: Text, c: CodeUnit)
    requires PartsCleanly(s, t) && IsPair(pair)
    ensures Escape(s + t) == Escape(s) + Escape(t) && Escape([]) == []
    ensures Escape(pair) == pair
    ensures Escape([c]) == Written(c)
  {
    PartsAreEscapedApart(s, t);
    assert pair[2..] == [] && pair[..2] == pair;
    UnitIsWritten(c);
  }

  /** The literals and the punctuation of section 2 of RFC 8259. */
  lemma PunctuationIs()
    ensures NULL_TEXT == Ascii("null") && TRUE_TEXT == Ascii("true") && FALSE_TEXT == Ascii("false")
    ensures [LBRACKET, RBRACKET] == Ascii("[]") && [LBRACE, RBRACE] == Ascii("{}")
    ensures [COMMA, COLON] == Ascii(",:") && [QUOTE] == Ascii("\"") && [BACKSLASH] == Ascii("\\")
  {
  }

  predicate AreDigits(t: Text) { forall c | c in t :: 48 <= c <= 57 }

  /** What Number::toString of section 6.1.6.1.20 of ECMA-262 prints for a finite number is a token. */
  lemma PrintedNumbersAreTokens(minus: bool, whole: Text, fraction: Text, exponent: Text, up: bool)
    requires whole != [] && AreDigits(whole) && AreDigits(fraction) && AreDigits(exponent)
    ensures
      var sign := if minus then [45] else [];
      var decimals := if fraction == [] then [] else [46] + fraction;
      var power := if exponent == [] then [] else [101, if up then 43 else 45] + exponent;
      IsNumToken(sign + whole + decimals + power)
    ensures Ascii("-+.e") == [45, 43, 46, 101]
  {
    var sign: Text := if minus then [45] else [];
    var decimals: Text := if fraction == [] then [] else [46] + fraction;
    var power: Text := if exponent == [] then [] else [101, if up then 43 else 45] + exponent;
    var token := sign + whole + decimals + power;
    assert forall c | c in token :: c in sign || c in whole || c in decimals || c in power;
    assert forall c | c in decimals :: c == 46 || c in fraction;
    assert forall c | c in power :: c == 101 || c == 43 || c == 45 || c in exponent;
    assert token[0] == if minus then 45 else whole[0];
    assert whole[0] in whole;
  }
}
