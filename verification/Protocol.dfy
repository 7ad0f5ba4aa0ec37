/** What the protocol adapters share: identifiers, decimal numbers, and content hashes of JSON values. */
module Protocol {
  import opened Text16
  import opened JsonText
  import opened JsonEquality
  import opened Domain

  /**
   * The library functions the adapters call: the SHA-256 hex digest, the pattern of such a digest, and
   * the text of an instant.
   */
  datatype Codec = Codec(sha: Text -> Text, isDigest: Text -> bool, iso: Time -> Text)

  ghost predicate DigestsMatchPattern(c: Codec) {
    forall t :: c.isDigest(c.sha(t))
  }

  ghost predicate Injective(c: Codec) {
    (forall a, b | c.sha(a) == c.sha(b) :: a == b) && (forall a, b | c.iso(a) == c.iso(b) :: a == b)
  }

  // ---------------------------------------------------------------- texts and numbers

  /** The characters String.prototype.trim removes. */
  predicate IsBlank(c: CodeUnit) {
    9 <= c <= 13 || c == 32 || c == 0xA0 || c == 0x1680 || 0x2000 <= c <= 0x200A || c == 0x2028 || c == 0x2029 ||
    c == 0x202F || c == 0x205F || c == 0x3000 || c == 0xFEFF
  }

  predicate IsOpaqueId(t: Text) {
    t != [] && !IsBlank(t[0]) && !IsBlank(t[|t| - 1])
  }

  /** The white space and line terminators of ECMAScript. */
  lemma BlanksAre(c: CodeUnit)
    ensures IsBlank(c) <==> c in [
      9, 10, 11, 12, 13, 32, 0xA0, 0x1680, 0x2000, 0x2001, 0x2002, 0x2003, 0x2004, 0x2005, 0x2006, 0x2007, 0x2008,
      0x2009, 0x200A, 0x2028, 0x2029, 0x202F, 0x205F, 0x3000, 0xFEFF]
  {
  }

  function TrimStart(t: Text): Text {
    if t != [] && IsBlank(t[0]) then TrimStart(t[1..]) else t
  }

  function TrimEnd(t: Text): Text {
    if t != [] && IsBlank(t[|t| - 1]) then TrimEnd(t[..|t| - 1]) else t
  }

  /** Trimming the text changes nothing and leaves something. */
  ghost predicate Trimmed(t: Text) { t != [] && TrimEnd(TrimStart(t)) == t }

  /** An identifier is opaque exactly if it is trimmed. */
  lemma OpaqueMeansTrimmed(t: Text)
    ensures IsOpaqueId(t) <==> Trimmed(t)
  {
    TrimsNothing(t);
    if t != [] && !IsBlank(t[0]) && IsBlank(t[|t| - 1]) { TrimsNothing(t[..|t| - 1]); }
    if t != [] && IsBlank(t[0]) {
      TrimsNothing(t[1..]);
      TrimsNothing(TrimStart(t[1..]));
    }
  }

  lemma {:induction false} TrimsNothing(t: Text)
    ensures |TrimStart(t)| <= |t| && |TrimEnd(t)| <= |t|
    decreases |t|
  {
    if t != [] {
      TrimsNothing(t[1..]);
      TrimsNothing(t[..|t| - 1]);
    }
  }

  function Digits(n: nat): (t: Text)
    ensures t != [] && IsDigit(t[0]) && forall d | d in t :: IsDigit(d)
  {
    if n < 10 then [(48 + n) as CodeUnit] else Digits(n / 10) + [(48 + n % 10) as CodeUnit]
  }

  function Decimal(n: int): (t: NumToken) {
    if n < 0 then [45] + Digits(-n) else Digits(n)
  }

  function ValueOf(digits: Text): int {
    if digits == [] then 0 else ValueOf(digits[..|digits| - 1]) * 10 + (digits[|digits| - 1] as int - 48)
  }

  lemma {:induction false} DigitsReadBack(n: nat)
    ensures ValueOf(Digits(n)) == n
  {
    var d := Digits(n);
    if n < 10 {
      assert d[..|d| - 1] == [];
    } else {
      DigitsReadBack(n / 10);
      assert d[..|d| - 1] == Digits(n / 10);
    }
  }

  lemma {:induction false} NoLeadingZero(n: nat)
    requires n > 0
    ensures Digits(n)[0] != 48
  {
    if n >= 10 { NoLeadingZero(n / 10); }
  }

  /** The decimal text: digits that read back as the number, without a zero in front, and a minus if it is negative. */
  lemma DecimalReadsBack(n: int)
    ensures n >= 0 ==> (forall d | d in Decimal(n) :: IsDigit(d)) && ValueOf(Decimal(n)) == n
    ensures n > 0 ==> Decimal(n)[0] != 48
    ensures n < 0 ==> Decimal(n) == Ascii("-") + Decimal(-n)
  {
    if n >= 0 { DigitsReadBack(n); }
    if n > 0 { NoLeadingZero(n); }
  }

  lemma DecimalIsInjective(m: int, n: int)
    requires Decimal(m) == Decimal(n)
    ensures m == n
  {
    DigitsReadBack(if m < 0 then -m else m);
    DigitsReadBack(if n < 0 then -n else n);
    if m < 0 { assert Decimal(m)[1..] == Digits(-m); }
    if n < 0 { assert Decimal(n)[1..] == Digits(-n); }
  }

  // ---------------------------------------------------------------- objects

  function FieldOf(fields: seq<Member>, key: Text): Option<Json> {
    if fields == [] then None
    else if fields[0].key == key then Some(fields[0].value)
    else FieldOf(fields[1..], key)
  }

  /** The object has that member. */
  ghost predicate Has(v: Json, key: Text, value: Json) { v.Obj? && Member(key, value) in v.fields }

  /** The object has no member of that name. */
  ghost predicate Lacks(v: Json, key: Text) { v.Obj? && forall m | m in v.fields :: m.key != key }

  lemma {:induction false} FieldOfFinds(fields: seq<Member>, key: Text)
    requires DistinctKeys(fields)
    ensures FieldOf(fields, key).None? <==> forall m | m in fields :: m.key != key
    ensures forall value :: FieldOf(fields, key) == Some(value) <==> Member(key, value) in fields
  {
    if fields != [] {
      FieldOfFinds(fields[1..], key);
      assert forall m :: m in fields <==> m == fields[0] || m in fields[1..];
      assert forall m | m in fields[1..] :: m.key != fields[0].key;
    }
  }

  /** Looking a member up finds what the object has under that name, and nothing exactly if it has none. */
  lemma MemberIsFound(v: Json, key: Text)
    requires v.Obj? && WellFormed(v)
    ensures FieldOf(v.fields, key).None? <==> Lacks(v, key)
    ensures forall value :: FieldOf(v.fields, key) == Some(value) <==> Has(v, key, value)
  {
    FieldOfFinds(v.fields, key);
  }

  lemma MemberAt(v: Json, k: nat)
    requires v.Obj? && k < |v.fields|
    ensures Has(v, v.fields[k].key, v.fields[k].value)
  {
  }

  // ---------------------------------------------------------------- continuation payloads

  ghost predicate AsksAuthorization(payload: Json) { Has(payload, Ascii("kind"), Str(Ascii("authorization"))) }

  ghost predicate AsksInput(payload: Json) {
    Lacks(payload, Ascii("kind")) || Has(payload, Ascii("kind"), Str(Ascii("input")))
  }

  ghost predicate HasMessage(payload: Json, message: Text) {
    message != [] && Has(payload, Ascii("message"), Str(message))
  }

  lemma PayloadMembers(payload: Json)
    requires payload.Obj? && WellFormed(payload)
    ensures forall v :: FieldOf(payload.fields, Ascii("kind")) == Some(v) <==> Has(payload, Ascii("kind"), v)
    ensures FieldOf(payload.fields, Ascii("kind")).None? <==> Lacks(payload, Ascii("kind"))
    ensures forall v :: FieldOf(payload.fields, Ascii("message")) == Some(v) <==> Has(payload, Ascii("message"), v)
    ensures forall v ::
      FieldOf(payload.fields, Ascii("responseSchema")) == Some(v) <==> Has(payload, Ascii("responseSchema"), v)
    ensures FieldOf(payload.fields, Ascii("responseSchema")).None? <==> Lacks(payload, Ascii("responseSchema"))
  {
    MemberIsFound(payload, Ascii("kind"));
    MemberIsFound(payload, Ascii("message"));
    MemberIsFound(payload, Ascii("responseSchema"));
  }

  // ---------------------------------------------------------------- hashes

  function HashJson(c: Codec, v: Json): Text { c.sha(CanonicalJson(v)) }

  /** Equal hashes are equal values, up to the order of object members. */
  lemma HashDecidesEquality(c: Codec, a: Json, b: Json)
    requires Injective(c) && WellFormed(a) && WellFormed(b)
    ensures HashJson(c, a) == HashJson(c, b) <==> SameJson(a, b)
  {
    CanonicalTextDecidesEquality(a, b);
  }

  /** Members found under the same key of two equal objects are equal. */
  lemma SameMember(f: seq<Member>, g: seq<Member>, k: nat)
    requires SameJson(Obj(f), Obj(g)) && DistinctKeys(g)
    requires k < |f| && k < |g| && f[k].key == g[k].key
    ensures SameJson(f[k].value, g[k].value)
  {
    var n := TheSameMember(f, g, f[k]);
    OneMemberPerKey(g, n, g[k]);
  }

  lemma SameTaggedHash(c: Codec, tag: Json, a: Json, b: Json)
    requires Injective(c) && WellFormed(tag) && WellFormed(a) && WellFormed(b)
    requires HashJson(c, Arr([tag, a])) == HashJson(c, Arr([tag, b]))
    ensures SameJson(a, b)
  {
    HashDecidesEquality(c, Arr([tag, a]), Arr([tag, b]));
    assert SameJson([tag, a][1], [tag, b][1]);
  }
}
