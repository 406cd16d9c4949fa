/** UTF-8 (RFC 3629): how long text is in bytes, and that comparing scalar values is comparing bytes. */
module Utf8 {
  import opened Text

  type Byte = x: int | 0 <= x < 256

  /** Section 3 of RFC 3629. */
  function EncodeChar(c: char): (bytes: seq<Byte>)
    ensures |bytes| == Utf8Width(c)
  {
    var n := c as int;
    if n < 0x80 then [n]
    else if n < 0x800 then [0xC0 + n / 0x40, 0x80 + n % 0x40]
    else if n < 0x10000 then [0xE0 + n / 0x1000, 0x80 + n / 0x40 % 0x40, 0x80 + n % 0x40]
    else [0xF0 + n / 0x40000, 0x80 + n / 0x1000 % 0x40, 0x80 + n / 0x40 % 0x40, 0x80 + n % 0x40]
  }

  function Encode(s: string): seq<Byte> {
    if s == "" then [] else EncodeChar(s[0]) + Encode(s[1..])
  }

  /** Go's `len`. */
  lemma {:induction false} ByteLengthIsSize(s: string)
    ensures |Encode(s)| == ByteLength(s)
  {
    hide EncodeChar, Utf8Width;
    if s != "" { ByteLengthIsSize(s[1..]); }
  }

  /** bytes.Compare, as an order. */
  ghost predicate BytesPrecede(x: seq<Byte>, y: seq<Byte>) {
    exists k: nat :: PartBytes(x, y, k)
  }

  ghost predicate PartBytes(x: seq<Byte>, y: seq<Byte>, k: nat) {
    k <= |x| && k < |y| && x[..k] == y[..k] && (k == |x| || x[k] < y[k])
  }

  /** The first bytes tell the widths apart, the smaller width first. */
  lemma FirstByte(c: char)
    ensures var b := EncodeChar(c)[0];
            && (Utf8Width(c) == 1 <==> b < 0x80) && (Utf8Width(c) == 2 <==> 0xC0 <= b < 0xE0)
            && (Utf8Width(c) == 3 <==> 0xE0 <= b < 0xF0) && (Utf8Width(c) == 4 <==> 0xF0 <= b)
  {
  }

  /** A smaller character has a smaller byte at the first place they differ, inside both. */
  lemma CharOrder(c: char, d: char) returns (k: nat)
    requires c < d
    ensures var x, y := EncodeChar(c), EncodeChar(d); k < |x| && k < |y| && x[..k] == y[..k] && x[k] < y[k]
  {
    FirstByte(c);
    FirstByte(d);
    if Utf8Width(c) != Utf8Width(d) {
      k := 0;
    } else {
      k := SameWidthOrder(c, d);
    }
  }

  lemma SameWidthOrder(c: char, d: char) returns (k: nat)
    requires c < d && Utf8Width(c) == Utf8Width(d)
    ensures var x, y := EncodeChar(c), EncodeChar(d); k < |x| && x[..k] == y[..k] && x[k] < y[k]
  {
    var w, m, n := Utf8Width(c), c as int, d as int;
    DigitOrder(m, n);
    DigitOrder(m / 0x40, n / 0x40);
    if w <= 2 {
      k := if w == 2 && m / 0x40 != n / 0x40 then 0 else w - 1;
    } else {
      k := LongOrder(c, d);
    }
  }

  lemma LongOrder(c: char, d: char) returns (k: nat)
    requires c < d && Utf8Width(c) == Utf8Width(d) >= 3
    ensures var x, y := EncodeChar(c), EncodeChar(d); k < |x| && x[..k] == y[..k] && x[k] < y[k]
  {
    var w, m, n := Utf8Width(c), c as int, d as int;
    DigitOrder(m, n);
    DigitOrder(m / 0x40, n / 0x40);
    DigitOrder(m / 0x1000, n / 0x1000);
    k := if w == 4 && m / 0x40000 != n / 0x40000 then 0
         else if m / 0x1000 != n / 0x1000 then w - 3
         else if m / 0x40 != n / 0x40 then w - 2
         else w - 1;
  }

  /** The smaller number has the smaller digit at the first place, base 64, at which they differ. */
  lemma DigitOrder(m: nat, n: nat)
    ensures m / 0x40 / 0x40 == m / 0x1000 && m / 0x1000 / 0x40 == m / 0x40000
    ensures m / 0x40 == n / 0x40 ==> (m < n <==> m % 0x40 < n % 0x40)
    ensures m <= n ==> m / 0x40 <= n / 0x40
  {
  }

  lemma OneWay(x: seq<Byte>, y: seq<Byte>, k: nat, l: nat)
    requires PartBytes(x, y, k)
    ensures !PartBytes(y, x, l)
  {
    assert forall i :: 0 <= i < k ==> x[..k][i] == x[i] && y[..k][i] == y[i];
    assert k < l && l <= |x| && l <= |y| ==> x[..l][k] == x[k] && y[..l][k] == y[k];
  }

  lemma NotBoth(x: seq<Byte>, y: seq<Byte>)
    ensures !(BytesPrecede(x, y) && BytesPrecede(y, x)) && !BytesPrecede(x, x)
  {
    forall k: nat, l: nat | PartBytes(x, y, k)
      ensures !PartBytes(y, x, l)
    {
      OneWay(x, y, k, l);
    }
    forall k: nat, l: nat | PartBytes(x, x, k)
      ensures !PartBytes(x, x, l)
    {
      OneWay(x, x, k, l);
    }
  }

  lemma CommonStart(p: seq<Byte>, x: seq<Byte>, y: seq<Byte>)
    ensures BytesPrecede(p + x, p + y) <==> BytesPrecede(x, y)
  {
    if k: nat :| PartBytes(x, y, k) {
      assert (p + x)[..|p| + k] == p + x[..k] && (p + y)[..|p| + k] == p + y[..k];
      assert PartBytes(p + x, p + y, |p| + k);
    }
    if k: nat :| PartBytes(p + x, p + y, k) {
      assert forall i :: 0 <= i < |p| ==> (p + x)[i] == p[i] && (p + y)[i] == p[i];
      assert (p + x)[..k][|p|..] == x[..k - |p|] && (p + y)[..k][|p|..] == y[..k - |p|];
      assert PartBytes(x, y, k - |p|);
    }
  }

  lemma SmallerHead(c: char, x: seq<Byte>, d: char, y: seq<Byte>)
    requires c < d
    ensures BytesPrecede(EncodeChar(c) + x, EncodeChar(d) + y)
  {
    hide EncodeChar;
    var k := CharOrder(c, d);
    var p, q := EncodeChar(c), EncodeChar(d);
    assert (p + x)[..k] == p[..k] && (q + y)[..k] == q[..k];
    assert PartBytes(p + x, q + y, k);
  }

  lemma {:induction false} LessIsByteOrder(a: string, b: string)
    ensures Less(a, b) <==> BytesPrecede(Encode(a), Encode(b))
  {
    hide EncodeChar, BytesPrecede, Utf8Width;
    if a == "" && b == "" {
      NotBoth([], []);
    } else if a == "" {
      EmptyFirst(Encode(b));
    } else if b == "" {
      EmptyFirst(Encode(a));
      NotBoth([], Encode(a));
    } else {
      var p, q, x, y := EncodeChar(a[0]), EncodeChar(b[0]), Encode(a[1..]), Encode(b[1..]);
      if a[0] < b[0] {
        SmallerHead(a[0], x, b[0], y);
      } else if b[0] < a[0] {
        SmallerHead(b[0], y, a[0], x);
        NotBoth(Encode(a), Encode(b));
      } else {
        CommonStart(p, x, y);
        LessIsByteOrder(a[1..], b[1..]);
      }
    }
  }

  lemma EmptyFirst(y: seq<Byte>)
    requires y != []
    ensures BytesPrecede([], y)
  {
    assert PartBytes([], y, 0);
  }

  /** Sorting text by scalar values is sorting it by its bytes, which is what Go does. */
  lemma PrecedesIsByteOrder(a: string, b: string)
    ensures Precedes(a, b) <==> BytesPrecede(Encode(a), Encode(b))
  {
    LessIsLexicographic(a, b);
    LessIsByteOrder(a, b);
  }
}
