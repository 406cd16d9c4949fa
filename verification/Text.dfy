/** Strings as Go sees them: ordered byte by byte, and sorted by `sort.Strings`.
    A `char` here is a Unicode scalar value; comparing scalar values left to right
    orders valid UTF-8 strings exactly as comparing their bytes does. */
module Text {

  datatype Option<+T> = None | Some(value: T)

  /** Go's `<` on strings. */
  predicate Less(a: string, b: string) {
    |b| > 0 && (|a| == 0 || a[0] < b[0] || (a[0] == b[0] && Less(a[1..], b[1..])))
  }

  ghost predicate StrictlySorted(xs: seq<string>) {
    forall i, j :: 0 <= i < j < |xs| ==> Less(xs[i], xs[j])
  }

  ghost predicate NoDuplicates<T>(xs: seq<T>) {
    forall i, j :: 0 <= i < j < |xs| ==> xs[i] != xs[j]
  }

  ghost predicate SameElements<T(!new)>(xs: seq<T>, ys: seq<T>) {
    forall x :: x in xs <==> x in ys
  }

  predicate HasPrefix(s: string, prefix: string) {
    |prefix| <= |s| && s[..|prefix|] == prefix
  }

  predicate HasSuffix(s: string, suffix: string) {
    |suffix| <= |s| && s[|s| - |suffix|..] == suffix
  }

  predicate Contains(s: string, sub: string) {
    HasPrefix(s, sub) || (|s| > 0 && Contains(s[1..], sub))
  }

  lemma {:induction false} LessIrreflexive(a: string)
    ensures !Less(a, a)
  {
    if a != [] {
      LessIrreflexive(a[1..]);
    }
  }

  lemma {:induction false} LessTransitive(a: string, b: string, c: string)
    requires Less(a, b) && Less(b, c)
    ensures Less(a, c)
  {
    if a != [] && a[0] == b[0] == c[0] {
      LessTransitive(a[1..], b[1..], c[1..]);
    }
  }

  lemma {:induction false} LessTotal(a: string, b: string)
    ensures a == b || Less(a, b) || Less(b, a)
  {
    if a != [] && b != [] && a[0] == b[0] {
      LessTotal(a[1..], b[1..]);
      assert a == [a[0]] + a[1..] && b == [b[0]] + b[1..];
    }
  }

  lemma SortedHasNoDuplicates(xs: seq<string>)
    requires StrictlySorted(xs)
    ensures NoDuplicates(xs)
  {
    forall i, j | 0 <= i < j < |xs| ensures xs[i] != xs[j] {
      LessIrreflexive(xs[i]);
    }
  }

  lemma HeadIsMember<T>(xs: seq<T>)
    requires |xs| > 0
    ensures xs[0] in xs
  {
  }

  /** Lexicographic order, without recursion: after a common beginning, `a` ends or has the smaller character. */
  ghost predicate Precedes(a: string, b: string) {
    exists k: nat :: PartAt(a, b, k)
  }

  ghost predicate PartAt(a: string, b: string, k: nat) {
    k <= |a| && k < |b| && a[..k] == b[..k] && (k == |a| || a[k] < b[k])
  }

  lemma {:induction false} LessIsLexicographic(a: string, b: string)
    ensures Less(a, b) <==> Precedes(a, b)
  {
    if b == [] {
    } else if a == [] || a[0] < b[0] {
      assert PartAt(a, b, 0);
    } else {
      if a[0] == b[0] {
        LessIsLexicographic(a[1..], b[1..]);
        if k: nat :| PartAt(a[1..], b[1..], k) {
          assert a[..k + 1] == [a[0]] + a[1..][..k] && b[..k + 1] == [b[0]] + b[1..][..k];
          assert PartAt(a, b, k + 1);
        }
      }
      if k: nat :| PartAt(a, b, k) {
        assert k > 0;
        assert a[0] == a[..k][0] && b[0] == b[..k][0];
        assert a[1..][..k - 1] == a[..k][1..] && b[1..][..k - 1] == b[..k][1..];
        assert PartAt(a[1..], b[1..], k - 1);
      }
    }
  }

  /** Every element comes lexicographically before all later ones. */
  ghost predicate Ascending(xs: seq<string>) {
    forall i, j :: 0 <= i < j < |xs| ==> Precedes(xs[i], xs[j])
  }

  lemma SortedIsAscending(xs: seq<string>)
    ensures StrictlySorted(xs) <==> Ascending(xs)
  {
    hide Less, Precedes;
    forall i, j | 0 <= i < j < |xs| ensures Less(xs[i], xs[j]) <==> Precedes(xs[i], xs[j]) {
      LessIsLexicographic(xs[i], xs[j]);
    }
  }

  /** A set of strings has one sorted listing, so sorting forgets the order the strings came in. */
  lemma {:induction false} SortedListingUnique(xs: seq<string>, ys: seq<string>)
    requires StrictlySorted(xs) && StrictlySorted(ys) && SameElements(xs, ys)
    ensures xs == ys
  {
    if xs == [] || ys == [] {
      if |xs| > 0 { HeadIsMember(xs); assert false; }
      if |ys| > 0 { HeadIsMember(ys); assert false; }
    } else {
      HeadIsMember(xs);
      HeadIsMember(ys);
      var i :| 0 <= i < |ys| && ys[i] == xs[0];
      var j :| 0 <= j < |xs| && xs[j] == ys[0];
      if xs[0] != ys[0] {
        LessTransitive(xs[0], ys[0], xs[0]);
        LessIrreflexive(xs[0]);
        assert false;
      }
      SortedHasNoDuplicates(xs);
      SortedHasNoDuplicates(ys);
      forall x ensures x in xs[1..] <==> x in ys[1..] {
        assert x in xs[1..] <==> x in xs && x != xs[0];
        assert x in ys[1..] <==> x in ys && x != ys[0];
      }
      SortedListingUnique(xs[1..], ys[1..]);
      assert xs == [xs[0]] + xs[1..] && ys == [ys[0]] + ys[1..];
    }
  }

  function Insert(xs: seq<string>, x: string): seq<string> {
    if xs == [] || Less(x, xs[0]) then [x] + xs else [xs[0]] + Insert(xs[1..], x)
  }

  lemma {:induction false} InsertKeepsElements(xs: seq<string>, x: string)
    ensures multiset(Insert(xs, x)) == multiset(xs) + multiset{x}
    ensures forall y :: y in Insert(xs, x) <==> y in xs || y == x
  {
    if xs != [] && !Less(x, xs[0]) {
      InsertKeepsElements(xs[1..], x);
      assert xs == [xs[0]] + xs[1..];
    }
  }

  lemma {:induction false} InsertSorts(xs: seq<string>, x: string)
    requires StrictlySorted(xs) && x !in xs
    ensures StrictlySorted(Insert(xs, x))
  {
    if xs != [] {
      if Less(x, xs[0]) {
        forall i | 0 < i < |xs| ensures Less(x, xs[i]) { LessTransitive(x, xs[0], xs[i]); }
      } else {
        LessTotal(x, xs[0]);
        InsertSorts(xs[1..], x);
        InsertKeepsElements(xs[1..], x);
        var ys := Insert(xs[1..], x);
        forall i | 0 <= i < |ys| ensures Less(xs[0], ys[i]) {
          assert ys[i] in ys;
        }
      }
    }
  }

  ghost predicate IsSortedListing(xs: seq<string>, keys: set<string>) {
    StrictlySorted(xs) && forall k :: k in xs <==> k in keys
  }

  lemma {:induction false} SortedListingExists(keys: set<string>)
    ensures exists xs :: IsSortedListing(xs, keys)
  {
    if keys == {} {
      assert IsSortedListing([], keys);
    } else {
      var k :| k in keys;
      SortedListingExists(keys - {k});
      var rest :| IsSortedListing(rest, keys - {k});
      InsertSorts(rest, k);
      InsertKeepsElements(rest, k);
      var xs := Insert(rest, k);
      assert IsSortedListing(xs, keys);
    }
  }

  /** The keys of a map in the order `sort.Strings` puts them. */
  ghost function SortedListing(keys: set<string>): (xs: seq<string>)
    ensures IsSortedListing(xs, keys)
  {
    SortedListingExists(keys);
    var ys :| IsSortedListing(ys, keys);
    ys
  }

  /** `sort.Strings` on distinct strings: map keys and directory entries never repeat. */
  method SortStrings(xs: seq<string>) returns (ys: seq<string>)
    requires NoDuplicates(xs)
    ensures StrictlySorted(ys) && multiset(ys) == multiset(xs) && SameElements(ys, xs)
    ensures Ascending(ys)
  {
    hide Less, Ascending;
    ys := [];
    for i := 0 to |xs|
      invariant StrictlySorted(ys) && multiset(ys) == multiset(xs[..i])
    {
      assert xs[i] !in multiset(xs[..i]);
      assert xs[..i + 1] == xs[..i] + [xs[i]];
      InsertSorts(ys, xs[i]);
      InsertKeepsElements(ys, xs[i]);
      ys := Insert(ys, xs[i]);
    }
    assert xs[..|xs|] == xs;
    forall x ensures x in ys <==> x in xs {
      assert x in multiset(ys) <==> x in multiset(xs);
    }
    SortedIsAscending(ys);
  }

  // ---------------------------------------------------------------- hex digits

  const HEX_DIGITS: string := "0123456789abcdef"

  /** Value of a hex digit of either case, or -1. */
  function HexValue(c: char): (v: int)
    ensures -1 <= v < 16
  {
    if '0' <= c <= '9' then c as int - '0' as int
    else if 'a' <= c <= 'f' then c as int - 'a' as int + 10
    else if 'A' <= c <= 'F' then c as int - 'A' as int + 10
    else -1
  }

  lemma HexDigitValue(v: nat)
    requires v < 16
    ensures HexValue("0123456789abcdef"[v]) == v && HexValue("0123456789ABCDEF"[v]) == v
  {
  }

  /** The characters that are hex digits. */
  lemma HexCharacters(c: char)
    ensures HexValue(c) >= 0 <==> c in "0123456789abcdefABCDEF"
  {
    var v := HexValue(c);
    if v >= 0 {
      assert c == "0123456789abcdefABCDEF"[if 'A' <= c <= 'F' then v + 6 else v];
    }
  }

  // ---------------------------------------------------------------- sizes

  /** Bytes a scalar value takes in UTF-8. */
  function Utf8Width(c: char): (n: nat)
    ensures 1 <= n <= 4
  {
    if (c as int) < 0x80 then 1 else if (c as int) < 0x800 then 2 else if (c as int) < 0x10000 then 3 else 4
  }

  /** Go's `len` of a string. */
  function ByteLength(s: string): nat {
    if s == "" then 0 else Utf8Width(s[0]) + ByteLength(s[1..])
  }

  // ---------------------------------------------------------------- decimal numbers

  predicate IsDigit(c: char) {
    '0' <= c <= '9'
  }

  predicate AllDigits(s: string) {
    s != "" && forall i :: 0 <= i < |s| ==> IsDigit(s[i])
  }

  /** `%d` of a non-negative number. */
  function Decimal(n: nat): string {
    (if n < 10 then "" else Decimal(n / 10)) + ["0123456789"[n % 10]]
  }

  function ValueOf(digits: string): nat
    requires forall i :: 0 <= i < |digits| ==> IsDigit(digits[i])
  {
    if digits == "" then 0
    else
      assert IsDigit(digits[|digits| - 1]);
      10 * ValueOf(digits[..|digits| - 1]) + (digits[|digits| - 1] as int - '0' as int)
  }

  lemma {:induction false} DecimalRoundTrip(n: nat)
    ensures AllDigits(Decimal(n)) && ValueOf(Decimal(n)) == n
  {
    var d := Decimal(n);
    DigitValue(n % 10);
    if n >= 10 {
      DecimalRoundTrip(n / 10);
      assert d[..|d| - 1] == Decimal(n / 10);
    } else {
      assert d[..|d| - 1] == "";
    }
  }

  function Pow10(n: nat): nat {
    if n == 0 then 1 else 10 * Pow10(n - 1)
  }

  /** Decimal place value: the digits of a concatenation count by their place from the right. */
  lemma {:induction false} ValueOfConcat(a: string, b: string)
    requires forall i :: 0 <= i < |a| ==> IsDigit(a[i])
    requires forall i :: 0 <= i < |b| ==> IsDigit(b[i])
    ensures forall i :: 0 <= i < |a + b| ==> IsDigit((a + b)[i])
    ensures ValueOf(a + b) == ValueOf(a) * Pow10(|b|) + ValueOf(b)
    ensures |b| == 1 ==> ValueOf(b) == b[0] as int - '0' as int
  {
    if b == "" {
      assert a + b == a;
    } else {
      var front := b[..|b| - 1];
      assert (a + b)[..|a + b| - 1] == a + front;
      ValueOfConcat(a, front);
      assert ValueOf(a) * (10 * Pow10(|front|)) == 10 * (ValueOf(a) * Pow10(|front|));
    }
  }

  /** No leading zeros. */
  lemma {:induction false} DecimalHead(n: nat)
    ensures Decimal(n) != "" && (n > 0 ==> Decimal(n)[0] != '0') && (n == 0 ==> Decimal(n) == "0")
  {
    if n >= 10 {
      DecimalHead(n / 10);
      assert Decimal(n)[0] == Decimal(n / 10)[0];
    }
  }

  // ---------------------------------------------------------------- searching

  /** Containment, without recursion. */
  lemma {:induction false} ContainsMeans(s: string, sub: string)
    ensures Contains(s, sub) <==> exists i: nat :: OccursAt(s, sub, i)
  {
    if HasPrefix(s, sub) {
      assert OccursAt(s, sub, 0);
    } else {
      if |s| > 0 {
        ContainsMeans(s[1..], sub);
        if i: nat :| OccursAt(s[1..], sub, i) {
          assert s[i + 1..i + 1 + |sub|] == s[1..][i..i + |sub|];
          assert OccursAt(s, sub, i + 1);
        }
      }
      assert |sub| <= |s| ==> s[..|sub|] == s[0..|sub|];
      if i: nat :| OccursAt(s, sub, i) {
        assert s[1..][i - 1..i - 1 + |sub|] == s[i..i + |sub|];
        assert OccursAt(s[1..], sub, i - 1);
      }
    }
  }

  ghost predicate OccursAt(s: string, sub: string, i: nat) {
    i + |sub| <= |s| && s[i..i + |sub|] == sub
  }

  lemma DigitValue(v: nat)
    requires v < 10
    ensures IsDigit("0123456789"[v]) && "0123456789"[v] as int - '0' as int == v
  {
  }
}
