/** That the CHECK, stated on events, is the cast of their whole JSON text to jsonb, read from left to right. */
module PostgresText {
  import opened Text16
  import opened JsonText
  import opened Domain
  import opened PostgresCheck

  /** Reading the text changes nothing but whether what follows it still counts. */
  ghost predicate CastsIf(text: Text, ok: bool) {
    forall rest :: Casts(text + rest, false) <==> ok && Casts(rest, false)
  }

  lemma CastsIfWhole(text: Text, ok: bool)
    requires CastsIf(text, ok)
    ensures Casts(text, false) <==> ok
  {
    assert text + [] == text;
    assert Casts([], false);
  }

  lemma OneAfterAnother(a: Text, p: bool, b: Text, q: bool)
    requires CastsIf(a, p) && CastsIf(b, q)
    ensures CastsIf(a + b, p && q)
  {
    forall rest ensures Casts(a + b + rest, false) <==> p && q && Casts(rest, false) {
      assert a + b + rest == a + (b + rest);
    }
  }

  lemma {:induction false} PlainTextCasts(t: Text)
    requires forall c | c in t :: c != BACKSLASH
    ensures CastsIf(t, true)
  {
    if t == [] {
      assert forall rest: Text :: [] + rest == rest;
    } else {
      assert forall c | c in t[1..] :: c in t;
      PlainTextCasts(t[1..]);
      forall rest ensures Casts(t + rest, false) <==> Casts(rest, false) {
        assert (t + rest)[0] == t[0] && t[0] in t && (t + rest)[1..] == t[1..] + rest;
      }
    }
  }

  // ---------------------------------------------------------------- strings

  lemma HalfBeforeQuote(s: Text, rest: Text)
    requires s == [] || !LowSurrogate(s[0])
    ensures !Casts(Escape(s) + [QUOTE] + rest, true)
  {
    if s == [] {
      assert (Escape(s) + [QUOTE] + rest)[0] == QUOTE;
    } else if |s| >= 2 && HighSurrogate(s[0]) && LowSurrogate(s[1]) {
      assert (Escape(s) + [QUOTE] + rest)[0] == s[0];
    } else {
      assert Escape(s) + [QUOTE] + rest == EscapeUnit(s[0]) + (Escape(s[1..]) + [QUOTE] + rest);
      UnitAfterHalf(s[0], Escape(s[1..]) + [QUOTE] + rest);
    }
  }

  lemma UnitBeforeQuote(s: Text, rest: Text)
    requires s != [] && !(|s| >= 2 && HighSurrogate(s[0]) && LowSurrogate(s[1]))
    ensures var after := Escape(s[1..]) + [QUOTE] + rest;
      Casts(EscapeUnit(s[0]) + after, false) <==>
        s[0] != 0 && !HighSurrogate(s[0]) && !LowSurrogate(s[0]) && Casts(after, false)
  {
    var c, after := s[0], Escape(s[1..]) + [QUOTE] + rest;
    var body := EscapeUnit(c) + after;
    if ShortEscape(c) != 0 {
      assert body[2..] == after;
    } else if c < 32 || HighSurrogate(c) || LowSurrogate(c) {
      EscapedUnitIsRead(c, after);
      if HighSurrogate(c) { HalfBeforeQuote(s[1..], rest); }
    } else {
      assert body[1..] == after;
    }
  }

  lemma {:induction false} StringBeforeQuote(s: Text, rest: Text)
    ensures Casts(Escape(s) + [QUOTE] + rest, false) <==> IsClear(s) && Casts(rest, false)
    decreases |s|
  {
    if s == [] {
      assert Escape(s) + [QUOTE] + rest == [QUOTE] + rest && ([QUOTE] + rest)[1..] == rest;
    } else if |s| >= 2 && HighSurrogate(s[0]) && LowSurrogate(s[1]) {
      assert Escape(s) + [QUOTE] + rest == [s[0], s[1]] + (Escape(s[2..]) + [QUOTE] + rest);
      PairIsRead(s[0], s[1], Escape(s[2..]) + [QUOTE] + rest);
      StringBeforeQuote(s[2..], rest);
    } else {
      assert Escape(s) + [QUOTE] + rest == EscapeUnit(s[0]) + (Escape(s[1..]) + [QUOTE] + rest);
      UnitBeforeQuote(s, rest);
      StringBeforeQuote(s[1..], rest);
    }
  }

  lemma QuotedCasts(s: Text)
    ensures CastsIf(Quote(s), IsClear(s))
  {
    forall rest ensures Casts(Quote(s) + rest, false) <==> IsClear(s) && Casts(rest, false) {
      assert Quote(s) + rest == [QUOTE] + (Escape(s) + [QUOTE] + rest);
      assert ([QUOTE] + (Escape(s) + [QUOTE] + rest))[1..] == Escape(s) + [QUOTE] + rest;
      StringBeforeQuote(s, rest);
    }
  }

  // ---------------------------------------------------------------- values

  ghost predicate AllCastIf(texts: seq<Text>, oks: seq<bool>) {
    |texts| == |oks| && forall i | 0 <= i < |texts| :: CastsIf(texts[i], oks[i])
  }

  predicate All(oks: seq<bool>) { forall i | 0 <= i < |oks| :: oks[i] }

  lemma {:induction false} JoinedCasts(texts: seq<Text>, oks: seq<bool>)
    requires AllCastIf(texts, oks)
    ensures CastsIf(Join(texts), All(oks))
  {
    if texts == [] {
      PlainTextCasts([]);
    } else if |texts| == 1 {
      assert All(oks) <==> oks[0];
    } else {
      JoinedCasts(texts[1..], oks[1..]);
      PlainTextCasts([COMMA]);
      OneAfterAnother(texts[0], oks[0], [COMMA], true);
      OneAfterAnother(texts[0] + [COMMA], oks[0], Join(texts[1..]), All(oks[1..]));
      assert All(oks) <==> oks[0] && All(oks[1..]) by {
        assert forall i | 1 <= i < |oks| :: oks[i] == oks[1..][i - 1];
      }
    }
  }

  lemma Bracketed(open: CodeUnit, text: Text, ok: bool, close: CodeUnit)
    requires open != BACKSLASH && close != BACKSLASH && CastsIf(text, ok)
    ensures CastsIf([open] + text + [close], ok)
  {
    PlainTextCasts([open]);
    PlainTextCasts([close]);
    OneAfterAnother([open], true, text, ok);
    OneAfterAnother([open] + text, ok, [close], true);
  }

  lemma MemberCasts(key: Text, text: Text, ok: bool)
    requires CastsIf(text, ok)
    ensures CastsIf(Quote(key) + [COLON] + text, IsClear(key) && ok)
  {
    QuotedCasts(key);
    PlainTextCasts([COLON]);
    OneAfterAnother(Quote(key), IsClear(key), [COLON], true);
    OneAfterAnother(Quote(key) + [COLON], IsClear(key), text, ok);
  }

  function ItemTexts(items: seq<Json>): seq<Text> {
    seq(|items|, i requires 0 <= i < |items| => CanonicalJson(items[i]))
  }

  function ItemsClear(items: seq<Json>): seq<bool> {
    seq(|items|, i requires 0 <= i < |items| => IsClearJson(items[i]))
  }

  function EntryTexts(entries: seq<Member>): seq<Text> {
    seq(|entries|, i requires 0 <= i < |entries| => Quote(entries[i].key) + [COLON] + CanonicalJson(entries[i].value))
  }

  function EntriesClear(entries: seq<Member>): seq<bool> {
    seq(|entries|, i requires 0 <= i < |entries| => IsClear(entries[i].key) && IsClearJson(entries[i].value))
  }

  lemma ArrayText(items: seq<Json>)
    ensures CanonicalJson(Arr(items)) == [LBRACKET] + Join(ItemTexts(items)) + [RBRACKET]
  {
    assert seq(|items|, i requires 0 <= i < |items| => CanonicalJson(items[i])) == ItemTexts(items);
  }

  lemma ObjectText(fields: seq<Member>)
    ensures CanonicalJson(Obj(fields)) == [LBRACE] + Join(EntryTexts(Entries(fields))) + [RBRACE]
  {
    var entries := Entries(fields);
    assert seq(|entries|, i requires 0 <= i < |entries| =>
      assert entries[i] in fields;
      Quote(entries[i].key) + [COLON] + CanonicalJson(entries[i].value)) == EntryTexts(entries);
  }

  lemma EntriesAreClear(fields: seq<Member>)
    ensures All(EntriesClear(Entries(fields))) <==> IsClearJson(Obj(fields))
  {
    var entries := Entries(fields);
    var oks := EntriesClear(entries);
    if IsClearJson(Obj(fields)) {
      forall i | 0 <= i < |oks| ensures oks[i] {
        assert entries[i] in fields;
        var k :| 0 <= k < |fields| && fields[k] == entries[i];
      }
    }
    if All(oks) {
      forall k | 0 <= k < |fields| ensures IsClear(fields[k].key) && IsClearJson(fields[k].value) {
        assert fields[k] in entries;
        var i :| 0 <= i < |entries| && entries[i] == fields[k];
        assert oks[i];
      }
    }
  }

  lemma ItemsAreClear(items: seq<Json>)
    ensures All(ItemsClear(items)) <==> IsClearJson(Arr(items))
  {
    var oks := ItemsClear(items);
    assert forall i | 0 <= i < |items| :: oks[i] <==> IsClearJson(items[i]);
  }

  /** The text of any value casts, and leaves what follows to cast, exactly if all its strings and keys are clear. */
  lemma {:induction false} ValueCasts(v: Json)
    ensures CastsIf(CanonicalJson(v), IsClearJson(v))
    decreases v
  {
    match v
    case Null => PlainTextCasts(NULL_TEXT);
    case Bool(b) => PlainTextCasts(if b then TRUE_TEXT else FALSE_TEXT);
    case Num(token) => PlainTextCasts(token);
    case Str(s) => QuotedCasts(s);
    case Arr(items) =>
      forall i | 0 <= i < |items| ensures CastsIf(ItemTexts(items)[i], ItemsClear(items)[i]) {
        ValueCasts(items[i]);
      }
      JoinedCasts(ItemTexts(items), ItemsClear(items));
      Bracketed(LBRACKET, Join(ItemTexts(items)), All(ItemsClear(items)), RBRACKET);
      ArrayText(items);
      ItemsAreClear(items);
    case Obj(fields) =>
      var entries := Entries(fields);
      forall i | 0 <= i < |entries| ensures CastsIf(EntryTexts(entries)[i], EntriesClear(entries)[i]) {
        assert entries[i] in fields;
        ValueCasts(entries[i].value);
        MemberCasts(entries[i].key, CanonicalJson(entries[i].value), IsClearJson(entries[i].value));
      }
      JoinedCasts(EntryTexts(entries), EntriesClear(entries));
      Bracketed(LBRACE, Join(EntryTexts(entries)), All(EntriesClear(entries)), RBRACE);
      ObjectText(fields);
      EntriesAreClear(fields);
  }

  /** A value's text can be cast exactly if none of its strings and keys has a code unit 0 or half a pair. */
  lemma ClearValuesCast(v: Json)
    ensures Casts(CanonicalJson(v), false) <==> IsClearJson(v)
  {
    ValueCasts(v);
    CastsIfWhole(CanonicalJson(v), IsClearJson(v));
  }

  // ---------------------------------------------------------------- events

  /** The texts and values of its caller that are written for an event; the rest is numbers, instants and keys. */
  function ValuesOf(e: Event): seq<Json> {
    match e
    case WasCreated(_, id, _, _, correlationId, _, payload, metadata, hash) =>
      [Str(id), Str(correlationId), payload, Obj(metadata), Str(hash)]
    case WasResumed(_, id, _, _, key, payload) => [Str(id), Str(key), payload]
    case WasCancelled(_, id, _, _, reason) => if reason.Some? then [Str(id), Str(reason.value)] else [Str(id)]
    case WasExpired(_, id, _, _) => [Str(id)]
  }

  ghost predicate ValueAtCasts(e: Event, i: int) {
    0 <= i < |ValuesOf(e)| ==> Casts(CanonicalJson(ValuesOf(e)[i]), false)
  }

  lemma ClearIsCast(e: Event, i: nat)
    requires i < |ValuesOf(e)|
    ensures ValueAtCasts(e, i) <==> IsClearJson(ValuesOf(e)[i])
  {
    ClearValuesCast(ValuesOf(e)[i]);
  }

  predicate AllClear(values: seq<Json>) { values == [] || (IsClearJson(values[0]) && AllClear(values[1..])) }

  lemma {:induction false} AllClearMeans(values: seq<Json>)
    ensures AllClear(values) <==> forall i | 0 <= i < |values| :: IsClearJson(values[i])
  {
    if values != [] {
      AllClearMeans(values[1..]);
      assert forall i | 1 <= i < |values| :: values[i] == values[1..][i - 1];
    }
  }

  lemma ClearStep(v: Json, rest: seq<Json>)
    ensures AllClear([v] + rest) <==> IsClearJson(v) && AllClear(rest)
  {
    assert ([v] + rest)[1..] == rest;
  }

  lemma ValuesAreClear(e: Event)
    ensures PassesCheck(e) <==> AllClear(ValuesOf(e))
  {
    match e
    case WasCreated(_, id, _, _, correlationId, _, payload, metadata, hash) =>
      ClearStep(Str(hash), []);
      ClearStep(Obj(metadata), [Str(hash)]);
      ClearStep(payload, [Obj(metadata), Str(hash)]);
      ClearStep(Str(correlationId), [payload, Obj(metadata), Str(hash)]);
      ClearStep(Str(id), [Str(correlationId), payload, Obj(metadata), Str(hash)]);
      assert ValuesOf(e) == [Str(id)] + [Str(correlationId), payload, Obj(metadata), Str(hash)];
      assert [Str(correlationId), payload, Obj(metadata), Str(hash)] ==
        [Str(correlationId)] + [payload, Obj(metadata), Str(hash)];
      assert [payload, Obj(metadata), Str(hash)] == [payload] + [Obj(metadata), Str(hash)];
      assert [Obj(metadata), Str(hash)] == [Obj(metadata)] + [Str(hash)] && [Str(hash)] == [Str(hash)] + [];
    case WasResumed(_, id, _, _, key, payload) =>
      ClearStep(payload, []);
      ClearStep(Str(key), [payload]);
      ClearStep(Str(id), [Str(key), payload]);
      assert ValuesOf(e) == [Str(id)] + [Str(key), payload] && [Str(key), payload] == [Str(key)] + [payload];
      assert [payload] == [payload] + [];
    case WasCancelled(_, id, _, _, reason) =>
      ClearStep(Str(id), ValuesOf(e)[1..]);
      assert ValuesOf(e) == [Str(id)] + ValuesOf(e)[1..];
      if reason.Some? {
        ClearStep(Str(reason.value), []);
        assert ValuesOf(e)[1..] == [Str(reason.value)] + [];
      }
    case WasExpired(_, id, _, _) =>
      ClearStep(Str(id), []);
      assert ValuesOf(e) == [Str(id)] + [];
  }

  /** An event passes the CHECK exactly if everything of its caller's that is written for it casts to jsonb. */
  lemma CheckIsTheCast(e: Event)
    ensures PassesCheck(e) <==> forall i :: ValueAtCasts(e, i)
  {
    forall i | 0 <= i < |ValuesOf(e)| ensures ValueAtCasts(e, i) <==> IsClearJson(ValuesOf(e)[i]) {
      ClearIsCast(e, i);
    }
    AllClearMeans(ValuesOf(e));
    ValuesAreClear(e);
  }
}
