/**
 * What canonicalJson decides: two values have the same canonical text exactly when they are equal
 * JSON values up to the order of object members, at every depth.
 */
module JsonEquality {
  import opened Text16
  import opened JsonText
  import opened JsonParser
  import opened Finite

  predicate DistinctKeys(fields: seq<Member>) {
    forall i, j | 0 <= i < j < |fields| :: fields[i].key != fields[j].key
  }

  /** A value that a JavaScript object graph can hold: no object has two members with one key. */
  ghost predicate WellFormed(v: Json) {
    match v
    case Arr(items) => forall i | 0 <= i < |items| :: WellFormed(items[i])
    case Obj(fields) => DistinctKeys(fields) && forall i | 0 <= i < |fields| :: WellFormed(fields[i].value)
    case _ => true
  }

  /** Equality that ignores the order of object members and nothing else. */
  ghost predicate SameJson(a: Json, b: Json) {
    match a
    case Arr(items) =>
      b.Arr? && |items| == |b.items| && forall i | 0 <= i < |items| :: SameJson(items[i], b.items[i])
    case Obj(fields) =>
      b.Obj? && |fields| == |b.fields| && forall m | m in fields :: HasSame(m, b.fields)
    case _ => a == b
  }

  ghost predicate HasSame(m: Member, others: seq<Member>) {
    exists n | n in others :: m.key == n.key && SameJson(m.value, n.value)
  }

  // ---------------------------------------------------------------- sorting by key

  ghost predicate Ascending(s: seq<Member>) {
    forall i, j | 0 <= i < j < |s| :: Less(s[i].key, s[j].key)
  }

  lemma {:induction false} InsertAscends(m: Member, s: seq<Member>)
    requires Ascending(s) && forall x | x in s :: x.key != m.key
    ensures Ascending(InsertByKey(m, s))
  {
    if s != [] {
      CompareIsTotal(m.key, s[0].key);
      if CompareUtf16(m.key, s[0].key) <= 0 {
        forall j | 1 <= j < |s| ensures Less(m.key, s[j].key) {
          LessIsTransitive(m.key, s[0].key, s[j].key);
        }
      } else {
        InsertAscends(m, s[1..]);
        var r := InsertByKey(m, s[1..]);
        forall j | 0 <= j < |r| ensures Less(s[0].key, r[j].key) {
          assert r[j] in multiset(r);
          assert r[j] == m || r[j] in s[1..];
        }
      }
    }
  }

  /** The order canonicalJson writes members in: strictly ascending in UTF-16 code units. */
  lemma {:induction false} SortAscends(fields: seq<Member>)
    requires DistinctKeys(fields)
    ensures Ascending(SortByKey(fields))
    ensures var s := SortByKey(fields); forall i, j | 0 <= i < j < |s| :: Precedes(s[i].key, s[j].key)
  {
    if fields != [] {
      SortAscends(fields[1..]);
      var rest := SortByKey(fields[1..]);
      forall x | x in rest ensures x.key != fields[0].key {
        assert x in multiset(rest);
        assert x in fields[1..];
      }
      InsertAscends(fields[0], rest);
    }
    forall a: Text, b: Text ensures Less(a, b) <==> Precedes(a, b) {
      LessIsUtf16Order(a, b);
    }
  }

  ghost function KeySet(s: seq<Member>): set<Text> { set m | m in s :: m.key }

  lemma FirstKeyIsLeast(s: seq<Member>, t: seq<Member>)
    requires Ascending(s) && Ascending(t) && s != [] && s[0].key in KeySet(t)
    ensures t != [] && !Less(s[0].key, t[0].key)
  {
    var m :| m in t && m.key == s[0].key;
    var j :| 0 <= j < |t| && t[j] == m;
    LessIsStrict(t[0].key, t[j].key);
  }

  lemma TailKeys(s: seq<Member>)
    requires Ascending(s) && s != []
    ensures KeySet(s[1..]) == KeySet(s) - {s[0].key}
    ensures KeySet(s) == KeySet(s[1..]) + {s[0].key}
  {
    FirstAndRest(s);
    forall m | m in s[1..] ensures m.key != s[0].key {
      LessIsStrict(s[0].key, s[0].key);
    }
    assert forall m | m in s :: m == s[0] || m in s[1..];
    assert s[0] in s;
  }

  lemma NoKeys(s: seq<Member>)
    ensures KeySet(s) == {} <==> s == []
  {
    if s != [] {
      assert s[0].key in KeySet(s);
    }
  }

  lemma {:induction false} AscendingKeysUnique(s: seq<Member>, t: seq<Member>)
    requires Ascending(s) && Ascending(t) && KeySet(s) == KeySet(t)
    ensures |s| == |t| && forall i | 0 <= i < |s| :: s[i].key == t[i].key
  {
    if s != [] && t != [] {
      TailKeys(s);
      TailKeys(t);
      FirstKeyIsLeast(s, t);
      FirstKeyIsLeast(t, s);
      CompareIsTotal(s[0].key, t[0].key);
      AscendingKeysUnique(s[1..], t[1..]);
      forall i | 1 <= i < |s| ensures s[i].key == t[i].key {
        assert s[1..][i - 1].key == t[1..][i - 1].key;
      }
    } else {
      NoKeys(s);
      NoKeys(t);
    }
  }

  // ---------------------------------------------------------------- the three equalities agree

  ghost function NormalItems(items: seq<Json>): (r: seq<Json>)
    ensures |r| == |items| && forall i | 0 <= i < |r| :: r[i] == Normalize(items[i])
  {
    seq(|items|, i requires 0 <= i < |items| => Normalize(items[i]))
  }

  ghost function NormalMembers(fields: seq<Member>): (r: seq<Member>)
    ensures |r| == |fields|
    ensures forall i | 0 <= i < |r| ::
      r[i] == Member(Entries(fields)[i].key, Normalize(Entries(fields)[i].value))
  {
    var entries := Entries(fields);
    seq(|fields|, i requires 0 <= i < |fields| => Member(entries[i].key, Normalize(entries[i].value)))
  }

  ghost function MemberTexts(fields: seq<Member>): (r: seq<Text>)
    ensures |r| == |fields|
    ensures forall i | 0 <= i < |r| ::
      r[i] == Quote(Entries(fields)[i].key) + [COLON] + CanonicalJson(Entries(fields)[i].value)
  {
    var entries := Entries(fields);
    seq(|fields|, i requires 0 <= i < |fields| => Quote(entries[i].key) + [COLON] + CanonicalJson(entries[i].value))
  }

  lemma NormalArray(items: seq<Json>)
    ensures Normalize(Arr(items)) == Arr(NormalItems(items))
  {
    assert Normalize(Arr(items)).items == NormalItems(items);
  }

  lemma NormalObject(fields: seq<Member>)
    ensures Normalize(Obj(fields)) == Obj(NormalMembers(fields))
  {
    assert Normalize(Obj(fields)).fields == NormalMembers(fields);
  }

  lemma ObjectText(fields: seq<Member>)
    ensures CanonicalJson(Obj(fields)) == [LBRACE] + Join(MemberTexts(fields)) + [RBRACE]
  {
    var entries := Entries(fields);
    assert seq(|entries|, i requires 0 <= i < |entries| =>
      Quote(entries[i].key) + [COLON] + CanonicalJson(entries[i].value)) == MemberTexts(fields);
  }

  lemma LikeEntriesNormalizeAlike(f: seq<Member>, g: seq<Member>)
    requires |f| == |g|
    requires forall i | 0 <= i < |f| :: Entries(f)[i].key == Entries(g)[i].key
    requires forall i | 0 <= i < |f| :: Normalize(Entries(f)[i].value) == Normalize(Entries(g)[i].value)
    ensures Normalize(Obj(f)) == Normalize(Obj(g))
  {
    NormalObject(f);
    NormalObject(g);
    assert NormalMembers(f) == NormalMembers(g);
  }

  lemma LikeEntriesReadAlike(f: seq<Member>, g: seq<Member>)
    requires |f| == |g|
    requires forall i | 0 <= i < |f| :: Entries(f)[i].key == Entries(g)[i].key
    requires forall i | 0 <= i < |f| :: CanonicalJson(Entries(f)[i].value) == CanonicalJson(Entries(g)[i].value)
    ensures CanonicalJson(Obj(f)) == CanonicalJson(Obj(g))
  {
    ObjectText(f);
    ObjectText(g);
    assert MemberTexts(f) == MemberTexts(g);
  }

  lemma LikeEntries(f: seq<Member>, g: seq<Member>)
    requires Normalize(Obj(f)) == Normalize(Obj(g))
    ensures |f| == |g|
    ensures forall i | 0 <= i < |f| :: Entries(f)[i].key == Entries(g)[i].key
    ensures forall i | 0 <= i < |f| :: Normalize(Entries(f)[i].value) == Normalize(Entries(g)[i].value)
  {
    NormalObject(f);
    NormalObject(g);
    assert forall i | 0 <= i < |f| :: NormalMembers(f)[i] == NormalMembers(g)[i];
  }

  lemma LikeItems(a: seq<Json>, b: seq<Json>)
    requires Normalize(Arr(a)) == Normalize(Arr(b))
    ensures |a| == |b| && forall i | 0 <= i < |a| :: Normalize(a[i]) == Normalize(b[i])
  {
    NormalArray(a);
    NormalArray(b);
    assert forall i | 0 <= i < |a| :: NormalItems(a)[i] == NormalItems(b)[i];
  }

  /** The canonical text depends on nothing but the normalised value. */
  lemma {:induction false} SameNormalFormSameText(a: Json, b: Json)
    requires Normalize(a) == Normalize(b)
    ensures CanonicalJson(a) == CanonicalJson(b)
  {
    match a
    case Arr(items) =>
      LikeItems(items, b.items);
      forall i | 0 <= i < |items| ensures CanonicalJson(items[i]) == CanonicalJson(b.items[i]) {
        SameNormalFormSameText(items[i], b.items[i]);
      }
      assert seq(|items|, i requires 0 <= i < |items| => CanonicalJson(items[i])) ==
             seq(|b.items|, i requires 0 <= i < |b.items| => CanonicalJson(b.items[i]));
    case Obj(f) =>
      LikeEntries(f, b.fields);
      forall i | 0 <= i < |f|
        ensures CanonicalJson(Entries(f)[i].value) == CanonicalJson(Entries(b.fields)[i].value)
      {
        assert Entries(f)[i] in f;
        SameNormalFormSameText(Entries(f)[i].value, Entries(b.fields)[i].value);
      }
      LikeEntriesReadAlike(f, b.fields);
    case _ =>
  }

  lemma EntriesAscend(fields: seq<Member>)
    requires DistinctKeys(fields)
    ensures Ascending(Entries(fields)) && KeySet(Entries(fields)) == KeySet(fields)
  {
    SortAscends(fields);
    assert forall m :: m in Entries(fields) <==> m in fields;
  }

  lemma {:induction false} DistinctKeysCount(s: seq<Member>)
    requires DistinctKeys(s)
    ensures |KeySet(s)| == |s|
  {
    if s == [] {
      assert KeySet(s) == {};
    } else {
      DistinctKeysCount(s[1..]);
      FirstAndRest(s);
      assert forall m | m in s :: m == s[0] || m in s[1..];
      assert s[0] in s;
      assert KeySet(s) == {s[0].key} + KeySet(s[1..]);
    }
  }

  /** Sorted members of two objects with the same members up to order agree position by position. */
  lemma MatchingEntries(f: seq<Member>, g: seq<Member>)
    requires DistinctKeys(f) && DistinctKeys(g) && |f| == |g| && KeySet(f) <= KeySet(g)
    ensures forall i | 0 <= i < |f| :: Entries(f)[i].key == Entries(g)[i].key
  {
    EntriesAscend(f);
    EntriesAscend(g);
    DistinctKeysCount(f);
    DistinctKeysCount(g);
    SubsetCount(KeySet(f), KeySet(g));
    AscendingKeysUnique(Entries(f), Entries(g));
  }

  lemma OneMemberPerKey(fields: seq<Member>, m: Member, n: Member)
    requires DistinctKeys(fields) && m in fields && n in fields && m.key == n.key
    ensures m == n
  {
  }

  lemma {:induction false} SameJsonSameNormalForm(a: Json, b: Json)
    requires WellFormed(a) && WellFormed(b) && SameJson(a, b)
    ensures Normalize(a) == Normalize(b)
  {
    match a
    case Arr(items) =>
      forall i | 0 <= i < |items| ensures Normalize(items[i]) == Normalize(b.items[i]) {
        SameJsonSameNormalForm(items[i], b.items[i]);
      }
    case Obj(f) =>
      var g := b.fields;
      SameMembersKeys(f, g);
      MatchingEntries(f, g);
      forall i | 0 <= i < |f| ensures Normalize(Entries(f)[i].value) == Normalize(Entries(g)[i].value) {
        var m := Entries(f)[i];
        assert m in f && Entries(g)[i] in g;
        var n := TheSameMember(f, g, m);
        OneMemberPerKey(g, n, Entries(g)[i]);
        SameJsonSameNormalForm(m.value, n.value);
      }
      LikeEntriesNormalizeAlike(f, g);
    case _ =>
  }

  lemma SameMembersKeys(f: seq<Member>, g: seq<Member>)
    requires SameJson(Obj(f), Obj(g))
    ensures KeySet(f) <= KeySet(g)
  {
    forall k | k in KeySet(f) ensures k in KeySet(g) {
      var m :| m in f && m.key == k;
      var n := TheSameMember(f, g, m);
    }
  }

  lemma TheSameMember(f: seq<Member>, g: seq<Member>, m: Member) returns (n: Member)
    requires SameJson(Obj(f), Obj(g)) && m in f
    ensures n in g && m.key == n.key && SameJson(m.value, n.value)
    ensures WellFormed(Obj(f)) && WellFormed(Obj(g)) ==> WellFormed(m.value) && WellFormed(n.value)
  {
    assert HasSame(m, g);
    n :| n in g && m.key == n.key && SameJson(m.value, n.value);
  }

  lemma ObjectsWithSameEntries(f: seq<Member>, g: seq<Member>)
    requires |f| == |g|
    requires forall i | 0 <= i < |f| :: Entries(f)[i].key == Entries(g)[i].key
    requires forall i | 0 <= i < |f| :: SameJson(Entries(f)[i].value, Entries(g)[i].value)
    ensures SameJson(Obj(f), Obj(g))
  {
    forall m | m in f ensures HasSame(m, g) {
      assert m in Entries(f);
      var k :| 0 <= k < |f| && Entries(f)[k] == m;
      assert Entries(g)[k] in g;
    }
  }

  /** Objects whose members are equal place by place are equal. */
  lemma SameInPlace(f: seq<Member>, g: seq<Member>)
    requires |f| == |g|
    requires forall i | 0 <= i < |f| :: f[i].key == g[i].key && SameJson(f[i].value, g[i].value)
    ensures SameJson(Obj(f), Obj(g))
  {
    forall m | m in f ensures HasSame(m, g) {
      var k :| 0 <= k < |f| && f[k] == m;
      assert g[k] in g;
    }
  }

  lemma {:induction false} SameNormalFormSameJson(a: Json, b: Json)
    requires Normalize(a) == Normalize(b)
    ensures SameJson(a, b)
  {
    match a
    case Arr(items) =>
      LikeItems(items, b.items);
      forall i | 0 <= i < |items| ensures SameJson(items[i], b.items[i]) {
        SameNormalFormSameJson(items[i], b.items[i]);
      }
    case Obj(f) =>
      LikeEntries(f, b.fields);
      forall i | 0 <= i < |f| ensures SameJson(Entries(f)[i].value, Entries(b.fields)[i].value) {
        assert Entries(f)[i] in f;
        SameNormalFormSameJson(Entries(f)[i].value, Entries(b.fields)[i].value);
      }
      ObjectsWithSameEntries(f, b.fields);
    case _ =>
  }

  /** canonicalJson decides equality up to member order: both directions, for every pair of values. */
  lemma CanonicalTextDecidesEquality(a: Json, b: Json)
    requires WellFormed(a) && WellFormed(b)
    ensures CanonicalJson(a) == CanonicalJson(b) <==> SameJson(a, b)
  {
    if CanonicalJson(a) == CanonicalJson(b) {
      CanonicalTextReads(a);
      CanonicalTextReads(b);
      assert Delimited([]);
      assert CanonicalJson(a) + [] == CanonicalJson(b) + [];
      assert ParseValue(CanonicalJson(a) + []) == Got(Normalize(a), []);
      assert ParseValue(CanonicalJson(b) + []) == Got(Normalize(b), []);
      SameNormalFormSameJson(a, b);
    }
    if SameJson(a, b) {
      SameJsonSameNormalForm(a, b);
      SameNormalFormSameText(a, b);
    }
  }

  /** Writing the members of one object in any other order leaves its canonical text alone. */
  lemma MemberOrderIsInvisible(f: seq<Member>, g: seq<Member>)
    requires DistinctKeys(f) && multiset(f) == multiset(g)
    ensures CanonicalJson(Obj(f)) == CanonicalJson(Obj(g))
  {
    assert forall m :: m in f <==> m in multiset(f);
    assert forall m :: m in g <==> m in multiset(g);
    assert |f| == |multiset(f)| && |g| == |multiset(g)|;
    DistinctKeysCount(f);
    assert KeySet(g) == KeySet(f);
    CountedKeysDistinct(g);
    MatchingEntries(f, g);
    forall i | 0 <= i < |f| ensures Entries(f)[i] == Entries(g)[i] {
      assert Entries(f)[i] in f && Entries(g)[i] in g;
      OneMemberPerKey(f, Entries(f)[i], Entries(g)[i]);
    }
    assert Entries(f) == Entries(g);
    LikeEntriesReadAlike(f, g);
  }

  lemma {:induction false} CountedKeysDistinct(s: seq<Member>)
    requires |KeySet(s)| == |s|
    ensures DistinctKeys(s)
  {
    if s != [] {
      FirstAndRest(s);
      assert forall m | m in s :: m == s[0] || m in s[1..];
      assert s[0] in s;
      assert KeySet(s) == {s[0].key} + KeySet(s[1..]);
      KeysAtMostMembers(s[1..]);
      assert s[0].key !in KeySet(s[1..]);
      CountedKeysDistinct(s[1..]);
      forall i, j | 0 <= i < j < |s| ensures s[i].key != s[j].key {
        assert s[1..][j - 1] == s[j];
        if i > 0 { assert s[1..][i - 1] == s[i]; }
      }
    }
  }

  lemma {:induction false} KeysAtMostMembers(s: seq<Member>)
    ensures |KeySet(s)| <= |s|
  {
    if s == [] {
      assert KeySet(s) == {};
    } else {
      FirstAndRest(s);
      assert forall m | m in s :: m == s[0] || m in s[1..];
      assert s[0] in s;
      assert KeySet(s) == {s[0].key} + KeySet(s[1..]);
      KeysAtMostMembers(s[1..]);
    }
  }
}
