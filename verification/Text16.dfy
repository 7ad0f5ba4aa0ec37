/** Text as JavaScript sees it: a sequence of 16-bit code units, ordered code unit by code unit. */
module Text16 {

  newtype CodeUnit = c: int | 0 <= c < 0x1_0000

  type Text = seq<CodeUnit>

  /** A literal of the program text, all of whose characters are ASCII. */
  function Ascii(s: string): (t: Text)
    requires forall i | 0 <= i < |s| :: s[i] as int < 128
    ensures |t| == |s| && forall i | 0 <= i < |s| :: t[i] as int == s[i] as int
  {
    seq(|s|, i requires 0 <= i < |s| => s[i] as int as CodeUnit)
  }

  /** JavaScript's `<` on strings: the first differing code unit decides, a proper prefix is smaller. */
  predicate Less(left: Text, right: Text) {
    right != [] &&
    (left == [] || left[0] < right[0] || (left[0] == right[0] && Less(left[1..], right[1..])))
  }

  function CompareUtf16(left: Text, right: Text): int {
    if Less(left, right) then -1 else if Less(right, left) then 1 else 0
  }

  lemma {:induction false} LessIsStrict(a: Text, b: Text)
    ensures !(Less(a, b) && Less(b, a))
  {
    if a != [] && b != [] && a[0] == b[0] {
      LessIsStrict(a[1..], b[1..]);
    }
  }

  lemma {:induction false} LessIsTransitive(a: Text, b: Text, c: Text)
    requires Less(a, b) && Less(b, c)
    ensures Less(a, c)
  {
    if a != [] && a[0] == b[0] == c[0] {
      LessIsTransitive(a[1..], b[1..], c[1..]);
    }
  }

  /** The comparator calls two strings equal only when they are: UTF-16 order is total. */
  lemma {:induction false} CompareIsTotal(a: Text, b: Text)
    ensures CompareUtf16(a, b) == 0 <==> a == b
  {
    if a != [] && b != [] && a[0] == b[0] {
      CompareIsTotal(a[1..], b[1..]);
      assert a == [a[0]] + a[1..] && b == [b[0]] + b[1..];
    }
  }

  /** Two texts agree up to place `k`, where the first has the smaller code unit. */
  ghost predicate SmallerAt(a: Text, b: Text, k: int) {
    0 <= k < |a| && k < |b| && a[..k] == b[..k] && a[k] < b[k]
  }

  /** The order of section 3.2.3 of RFC 8785: a proper prefix first, else by the first code units that differ. */
  ghost predicate Precedes(a: Text, b: Text) {
    a < b || exists k :: SmallerAt(a, b, k)
  }

  lemma SmallerAtMoves(a: Text, b: Text, k: nat)
    requires a != [] && b != [] && a[0] == b[0]
    ensures SmallerAt(a, b, k + 1) <==> SmallerAt(a[1..], b[1..], k)
  {
    if k < |a[1..]| && k < |b[1..]| {
      assert a[..k + 1] == [a[0]] + a[1..][..k] && b[..k + 1] == [b[0]] + b[1..][..k];
    }
  }

  lemma PrecedesMoves(a: Text, b: Text)
    requires a != [] && b != [] && a[0] == b[0]
    ensures Precedes(a, b) <==> Precedes(a[1..], b[1..])
  {
    assert a == [a[0]] + a[1..] && b == [b[0]] + b[1..];
    assert a < b <==> a[1..] < b[1..];
    forall k: nat ensures SmallerAt(a, b, k + 1) <==> SmallerAt(a[1..], b[1..], k) {
      SmallerAtMoves(a, b, k);
    }
    if k :| SmallerAt(a, b, k) {
      assert k != 0;
      assert SmallerAt(a[1..], b[1..], k - 1) by { SmallerAtMoves(a, b, k - 1); }
    }
    if k :| SmallerAt(a[1..], b[1..], k) {
      assert SmallerAt(a, b, k + 1);
    }
  }

  /** The comparator puts one key before another exactly if UTF-16 order does. */
  lemma {:induction false} LessIsUtf16Order(a: Text, b: Text)
    ensures Less(a, b) <==> Precedes(a, b)
  {
    if a != [] && b != [] {
      if a[0] == b[0] {
        LessIsUtf16Order(a[1..], b[1..]);
        PrecedesMoves(a, b);
      } else if a[0] < b[0] {
        assert SmallerAt(a, b, 0);
      } else {
        assert forall k :: SmallerAt(a, b, k) ==> k == 0 || a[..k][0] == b[..k][0];
      }
    }
  }

  /** The comparator's three answers, by UTF-16 order. */
  lemma CompareFollowsUtf16Order(a: Text, b: Text)
    ensures CompareUtf16(a, b) ==
      if Precedes(a, b) then -1 else if Precedes(b, a) then 1 else 0
    ensures CompareUtf16(a, b) == 0 <==> a == b
  {
    LessIsUtf16Order(a, b);
    LessIsUtf16Order(b, a);
    CompareIsTotal(a, b);
  }
}
