/**
 * What the CHECK on PostgreSQL's event column asks of an event. The column casts its JSON text to jsonb, and
 * jsonb has no place for the code unit 0 or for half a surrogate pair, which JSON text can escape.
 */
module PostgresCheck {
  import opened Text16
  import opened JsonText
  import opened JsonParser
  import opened Domain

  /** No code unit 0, and every surrogate in a pair. */
  predicate IsClear(t: Text) {
    t == [] ||
    if |t| >= 2 && HighSurrogate(t[0]) && LowSurrogate(t[1]) then IsClear(t[2..])
    else t[0] != 0 && !HighSurrogate(t[0]) && !LowSurrogate(t[0]) && IsClear(t[1..])
  }

  predicate IsClearJson(v: Json) {
    match v
    case Str(s) => IsClear(s)
    case Arr(items) => forall i | 0 <= i < |items| :: IsClearJson(items[i])
    case Obj(fields) => forall i | 0 <= i < |fields| :: IsClear(fields[i].key) && IsClearJson(fields[i].value)
    case _ => true
  }

  /** Every string and every key that the event's JSON text holds is clear. */
  predicate PassesCheck(e: Event) {
    IsClear(e.continuationId) &&
    match e
    case WasCreated(_, _, _, _, correlationId, _, payload, metadata, hash) =>
      IsClear(correlationId) && IsClearJson(payload) && IsClearJson(Obj(metadata)) && IsClear(hash)
    case WasResumed(_, _, _, _, key, payload) => IsClear(key) && IsClearJson(payload)
    case WasCancelled(_, _, _, _, reason) => reason.Some? ==> IsClear(reason.value)
    case WasExpired(_, _, _, _) => true
  }

  predicate AllPass(batch: seq<Event>) { forall i | 0 <= i < |batch| :: PassesCheck(batch[i]) }

  // ---------------------------------------------------------------- the cast to jsonb

  function EscapedUnit(text: Text): int
    requires |text| >= 4
  {
    ((HexValue(text[0]) * 16 + HexValue(text[1])) * 16 + HexValue(text[2])) * 16 + HexValue(text[3])
  }

  /**
   * Whether the body of a JSON string can be cast, read from left to right; `high` says that the first half
   * of an escaped surrogate pair has just been read.
   */
  predicate Casts(body: Text, high: bool)
    decreases |body|
  {
    if body == [] then !high
    else if body[0] != BACKSLASH then !high && Casts(body[1..], false)
    else if |body| < 2 then false
    else if body[1] != 117 then !high && Casts(body[2..], false)
    else if |body| < 6 then false
    else
      var unit := EscapedUnit(body[2..6]);
      if 0xD800 <= unit < 0xDC00 then !high && Casts(body[6..], true)
      else if 0xDC00 <= unit < 0xE000 then high && Casts(body[6..], false)
      else !high && unit != 0 && Casts(body[6..], false)
  }

  lemma EscapedUnitIsRead(c: CodeUnit, rest: Text)
    ensures var body := UnicodeEscape(c) + rest;
      |body| >= 6 && body[0] == BACKSLASH && body[1] == 117 && EscapedUnit(body[2..6]) == c as int && body[6..] == rest
  {
    var body, n := UnicodeEscape(c) + rest, c as int;
    HexDigitsRecombine(n);
    HexDigitReads(n / 4096);
    HexDigitReads(n / 256 % 16);
    HexDigitReads(n / 16 % 16);
    HexDigitReads(n % 16);
    var digits := body[2..6];
    assert digits[0] == HexDigit(n / 4096) && digits[1] == HexDigit(n / 256 % 16);
    assert digits[2] == HexDigit(n / 16 % 16) && digits[3] == HexDigit(n % 16);
    assert body[6..] == rest;
  }

  /** The escaped string casts exactly if the string is clear, which a caller can see without any text. */
  lemma {:induction false} ClearStringsCast(s: Text)
    ensures Casts(Escape(s), false) <==> IsClear(s)
    decreases |s|
  {
    if s != [] {
      if |s| >= 2 && HighSurrogate(s[0]) && LowSurrogate(s[1]) {
        PairIsRead(s[0], s[1], Escape(s[2..]));
        assert s[..2] == [s[0], s[1]];
        ClearStringsCast(s[2..]);
      } else {
        ClearStringsCast(s[1..]);
        UnitIsRead(s, Escape(s[1..]));
      }
    }
  }

  lemma PairIsRead(a: CodeUnit, b: CodeUnit, rest: Text)
    requires HighSurrogate(a) && LowSurrogate(b)
    ensures Casts([a, b] + rest, false) == Casts(rest, false)
  {
    assert ([a, b] + rest)[1..] == [b] + rest;
    assert ([b] + rest)[1..] == rest;
  }

  /** A first half that no second half follows is not completed by anything that comes after it. */
  lemma HalfIsAlone(s: Text)
    requires s == [] || !LowSurrogate(s[0])
    ensures !Casts(Escape(s), true)
  {
    if s == [] {
    } else if |s| >= 2 && HighSurrogate(s[0]) && LowSurrogate(s[1]) {
      assert Escape(s)[0] == s[0];
    } else {
      assert Escape(s) == EscapeUnit(s[0]) + Escape(s[1..]);
      UnitAfterHalf(s[0], Escape(s[1..]));
    }
  }

  lemma UnitAfterHalf(c: CodeUnit, rest: Text)
    requires !LowSurrogate(c)
    ensures !Casts(EscapeUnit(c) + rest, true)
  {
    var body := EscapeUnit(c) + rest;
    if ShortEscape(c) != 0 {
      assert body[0] == BACKSLASH && body[1] == ShortEscape(c);
    } else if c < 32 || HighSurrogate(c) {
      EscapedUnitIsRead(c, rest);
    } else {
      assert body[0] == c;
    }
  }

  lemma UnitIsRead(s: Text, rest: Text)
    requires s != [] && !(|s| >= 2 && HighSurrogate(s[0]) && LowSurrogate(s[1])) && rest == Escape(s[1..])
    ensures Casts(EscapeUnit(s[0]) + rest, false) <==>
      s[0] != 0 && !HighSurrogate(s[0]) && !LowSurrogate(s[0]) && Casts(rest, false)
  {
    var c := s[0];
    var body := EscapeUnit(c) + rest;
    if ShortEscape(c) != 0 {
      assert body[2..] == rest;
    } else if c < 32 || HighSurrogate(c) || LowSurrogate(c) {
      EscapedUnitIsRead(c, rest);
      if HighSurrogate(c) { HalfIsAlone(s[1..]); }
    } else {
      assert body[1..] == rest;
    }
  }
}
