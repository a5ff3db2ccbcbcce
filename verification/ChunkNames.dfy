// Chunk file names: fixed-width numbers, whose order as strings is their order as numbers.
// Source: internal/fetch/sync/blockstore/chunk.go

module ChunkNames {
  import opened Tables
  import opened GoInt

  const MAX_NAMED := 1_000_000_000_000

  predicate IsDigit(c: char) {
    '0' <= c <= '9'
  }

  function DigitOf(n: nat): char
    requires n < 10
  {
    '0' + n as char
  }

  function Pow10(w: nat): (p: nat)
    ensures 1 <= p
  {
    if w == 0 then 1 else 10 * Pow10(w - 1)
  }

  /** The last `w` decimal digits of a number. */
  function FixedWidth(n: nat, w: nat): string {
    if w == 0 then "" else FixedWidth(n / 10, w - 1) + [DigitOf(n % 10)]
  }

  /** As many digits as the number has, at least one. */
  function Digits(n: nat): string {
    if n < 10 then [DigitOf(n)] else Digits(n / 10) + [DigitOf(n % 10)]
  }

  /** "%012d" */
  function Padded(n: nat): string {
    if n < MAX_NAMED then FixedWidth(n, 12) else Digits(n)
  }

  function Value(s: string): nat
    requires forall c <- s :: IsDigit(c)
  {
    if s == "" then 0
    else
      assert IsDigit(s[|s| - 1]);
      10 * Value(s[..|s| - 1]) + (s[|s| - 1] as int - '0' as int)
  }

  /** strconv.ParseInt(s, 10, 64) */
  function ParseInt(s: string): Option<int> {
    var digits := if s != "" && (s[0] == '+' || s[0] == '-') then s[1..] else s;
    if digits == "" || !(forall c <- digits :: IsDigit(c)) then None
    else
      var n: int := if s[0] == '-' then 0 - Value(digits) else Value(digits);
      if MIN_INT64 <= n <= MAX_INT64 then Some(n) else None
  }

  const TMP := "tmp"

  function ChunkName(height: nat): string {
    Padded(height)
  }

  function UnfinishedName(height: nat): string {
    Padded(height) + "." + TMP
  }

  /** The expression "^tmp$|^[0-9]{12}\.tmp$" */
  predicate IsTemporaryChunk(name: string) {
    || name == TMP
    || (|name| == 16 && (forall i | 0 <= i < 12 :: IsDigit(name[i])) && name[12..] == ".tmp")
  }

  lemma Pow10Of12()
    ensures Pow10(12) == MAX_NAMED
  {
    assert Pow10(4) == 10_000;
    assert Pow10(8) == 100_000_000;
  }

  lemma {:induction false} FixedWidthDigits(n: nat, w: nat)
    ensures |FixedWidth(n, w)| == w && forall c <- FixedWidth(n, w) :: IsDigit(c)
  {
    if w > 0 {
      FixedWidthDigits(n / 10, w - 1);
    }
  }

  lemma {:induction false} FixedWidthValue(n: nat, w: nat)
    requires n < Pow10(w)
    ensures forall c <- FixedWidth(n, w) :: IsDigit(c)
    ensures Value(FixedWidth(n, w)) == n
  {
    FixedWidthDigits(n, w);
    if w > 0 {
      FixedWidthValue(n / 10, w - 1);
      assert FixedWidth(n, w)[..w - 1] == FixedWidth(n / 10, w - 1) by { FixedWidthDigits(n / 10, w - 1); }
    }
  }

  /** The order in which a directory is listed. */
  predicate LexLess(a: string, b: string) {
    b != "" && (a == "" || a[0] < b[0] || (a[0] == b[0] && LexLess(a[1..], b[1..])))
  }

  lemma {:induction false} LexTotal(a: string, b: string)
    ensures LexLess(a, b) || a == b || LexLess(b, a)
    ensures !(LexLess(a, b) && LexLess(b, a))
  {
    if a != "" && b != "" {
      LexTotal(a[1..], b[1..]);
      assert a == [a[0]] + a[1..] && b == [b[0]] + b[1..];
    }
  }

  lemma {:induction false} LexTransitive(a: string, b: string, c: string)
    requires LexLess(a, b) && LexLess(b, c)
    ensures LexLess(a, c)
  {
    if a != "" && a[0] == b[0] == c[0] {
      LexTransitive(a[1..], b[1..], c[1..]);
    }
  }

  /** On strings of one length the last character decides only after the rest. */
  lemma {:induction false} LexSnoc(a: string, x: char, b: string, y: char)
    requires |a| == |b|
    ensures LexLess(a + [x], b + [y]) <==> LexLess(a, b) || (a == b && x < y)
  {
    if a == "" {
      assert (a + [x])[1..] == "" && (b + [y])[1..] == "";
    } else {
      LexSnoc(a[1..], x, b[1..], y);
      assert (a + [x])[1..] == a[1..] + [x] && (b + [y])[1..] == b[1..] + [y];
      assert a == [a[0]] + a[1..] && b == [b[0]] + b[1..];
    }
  }

  lemma {:induction false} DigitOrder(a: string, b: string)
    requires |a| == |b| && (forall c <- a :: IsDigit(c)) && (forall c <- b :: IsDigit(c))
    ensures LexLess(a, b) <==> Value(a) < Value(b)
    ensures Value(a) == Value(b) <==> a == b
  {
    if a == "" {
      assert b == "";
    } else {
      var n := |a| - 1;
      assert a == a[..n] + [a[n]] && b == b[..n] + [b[n]];
      assert IsDigit(a[n]) && IsDigit(b[n]);
      DigitOrder(a[..n], b[..n]);
      LexSnoc(a[..n], a[n], b[..n], b[n]);
    }
  }

  /** A chunk name parses back to its height. */
  lemma ChunkNameParses(height: nat)
    requires height < MAX_NAMED
    ensures ParseInt(ChunkName(height)) == Some(height)
    ensures |ChunkName(height)| == 12 && !IsTemporaryChunk(ChunkName(height))
  {
    Pow10Of12();
    FixedWidthDigits(height, 12);
    FixedWidthValue(height, 12);
    var s := ChunkName(height);
    assert s[0] in s && s[1] in s;
  }

  /** Below 10^12 names are listed in the order of their heights, and determine them. */
  lemma NamesSortAsHeights(h: nat, k: nat)
    requires h < MAX_NAMED && k < MAX_NAMED
    ensures LexLess(ChunkName(h), ChunkName(k)) <==> h < k
    ensures ChunkName(h) == ChunkName(k) <==> h == k
  {
    Pow10Of12();
    FixedWidthDigits(h, 12);
    FixedWidthDigits(k, 12);
    FixedWidthValue(h, 12);
    FixedWidthValue(k, 12);
    DigitOrder(ChunkName(h), ChunkName(k));
  }

  /** The first twelve digits of a longer number. */
  function Head(n: nat): nat {
    if n < MAX_NAMED then n else Head(n / 10)
  }

  lemma {:induction false} DigitsFillWidth(n: nat, w: nat)
    requires 0 < w && n < Pow10(w) && (1 < w ==> Pow10(w - 1) <= n)
    ensures Digits(n) == FixedWidth(n, w)
  {
    if w > 1 {
      assert 10 <= n by { assert 1 <= Pow10(w - 2); }
      DigitsFillWidth(n / 10, w - 1);
    } else {
      assert FixedWidth(n, 1) == FixedWidth(n / 10, 0) + [DigitOf(n % 10)];
    }
  }

  lemma {:induction false} LongerNameBegins(h: nat) returns (rest: string)
    requires MAX_NAMED <= h
    ensures rest != "" && Digits(h) == FixedWidth(Head(h), 12) + rest && Head(h) < MAX_NAMED
  {
    var digit := [DigitOf(h % 10)];
    if h / 10 < MAX_NAMED {
      Pow10Of12();
      assert Pow10(11) == MAX_NAMED / 10;
      DigitsFillWidth(h / 10, 12);
      rest := digit;
    } else {
      var front := LongerNameBegins(h / 10);
      rest := front + digit;
      assert Digits(h) == FixedWidth(Head(h), 12) + front + digit;
    }
  }

  lemma {:induction false} LexLonger(a: string, rest: string, b: string)
    requires |a| == |b| && rest != ""
    ensures LexLess(a + rest, b) <==> LexLess(a, b)
  {
    if a != "" {
      LexLonger(a[1..], rest, b[1..]);
      assert (a + rest)[1..] == a[1..] + rest;
    }
  }

  /**
   * From there on they need not be: a longer name is listed before the name of a lower height exactly
   * when its first twelve digits are less than that height.
   */
  lemma LongerNamesDoNot(h: nat, k: nat)
    requires k < MAX_NAMED <= h
    ensures LexLess(ChunkName(h), ChunkName(k)) <==> Head(h) < k
  {
    var rest := LongerNameBegins(h);
    FixedWidthDigits(Head(h), 12);
    FixedWidthDigits(k, 12);
    LexLonger(FixedWidth(Head(h), 12), rest, FixedWidth(k, 12));
    NamesSortAsHeights(Head(h), k);
    hide LexLess, FixedWidth, Digits;
  }

  /** Files that are still being written are not taken for chunks, and cleaning up removes them. */
  lemma UnfinishedIsTemporary(height: nat)
    requires height < MAX_NAMED
    ensures ParseInt(UnfinishedName(height)) == None && IsTemporaryChunk(UnfinishedName(height))
    ensures ParseInt(TMP) == None && IsTemporaryChunk(TMP)
  {
    FixedWidthDigits(height, 12);
    var s := UnfinishedName(height);
    assert s[0] in Padded(height) && IsDigit(s[0]) && s[12..] == ".tmp" && s[13] == 't';
    assert s[13] in s && !IsDigit(s[13]);
    assert TMP[0] == 't' && TMP[0] in TMP && !IsDigit(TMP[0]);
  }
}
