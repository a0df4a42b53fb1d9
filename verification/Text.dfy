/** Numerals, identifiers and string order as the Go runtime renders them.
    A string is a sequence of bytes; each char stands for one byte. */
module Text {
  import opened Outcomes
  import opened Domain

  // ---------------------------------------------------------------------------
  // Decimal numerals
  // ---------------------------------------------------------------------------

  predicate IsDigit(c: char) {
    '0' <= c <= '9'
  }

  function Digit(d: nat): (c: char)
    requires d < 10
    ensures IsDigit(c) && c as int - '0' as int == d
  {
    ('0' as int + d) as char
  }

  predicate AllDigits(s: string) {
    forall i | 0 <= i < |s| :: IsDigit(s[i])
  }

  // fmt's %d on a non-negative integer.
  function Decimal(n: nat): (s: string)
    ensures s != "" && AllDigits(s)
  {
    if n < 10 then [Digit(n)] else Decimal(n / 10) + [Digit(n % 10)]
  }

  function Value(s: string): nat
    requires AllDigits(s)
  {
    if s == "" then 0 else Value(s[..|s| - 1]) * 10 + (s[|s| - 1] as int - '0' as int)
  }

  lemma {:induction false} ValueOfDecimal(n: nat)
    ensures Value(Decimal(n)) == n
  {
    if n < 10 {
      assert Value([Digit(n)][..0]) == 0;
    } else {
      ValueOfDecimal(n / 10);
      assert Decimal(n)[..|Decimal(n)| - 1] == Decimal(n / 10);
    }
  }

  lemma DecimalIsInjective(a: nat, b: nat)
    requires Decimal(a) == Decimal(b)
    ensures a == b
  {
    ValueOfDecimal(a);
    ValueOfDecimal(b);
  }

  /** Length of the longest prefix of digits. */
  function DigitSpan(s: string): (n: nat)
    ensures n <= |s| && AllDigits(s[..n])
    ensures n < |s| ==> !IsDigit(s[n])
  {
    if s == "" || !IsDigit(s[0]) then 0 else 1 + DigitSpan(s[1..])
  }

  lemma {:induction false} DigitSpanStops(d: string, rest: string)
    requires AllDigits(d)
    requires rest != "" && !IsDigit(rest[0])
    ensures DigitSpan(d + rest) == |d|
  {
    if d == "" {
      assert d + rest == rest;
    } else {
      assert (d + rest)[1..] == d[1..] + rest;
      DigitSpanStops(d[1..], rest);
    }
  }

  // ---------------------------------------------------------------------------
  // uuid.UUID.String
  // ---------------------------------------------------------------------------

  function HexDigit(d: nat): (c: char)
    requires d < 16
  {
    if d < 10 then ('0' as int + d) as char else ('a' as int + d - 10) as char
  }

  function Hex(n: nat, width: nat): (s: string)
    ensures |s| == width
  {
    if width == 0 then "" else Hex(n / 16, width - 1) + [HexDigit(n % 16)]
  }

  function Pow16(width: nat): nat {
    if width == 0 then 1 else 16 * Pow16(width - 1)
  }

  lemma {:induction false} HexIsInjective(a: nat, b: nat, width: nat)
    requires a < Pow16(width) && b < Pow16(width)
    requires Hex(a, width) == Hex(b, width)
    ensures a == b
  {
    if width > 0 {
      assert Hex(a, width)[..width - 1] == Hex(a / 16, width - 1);
      assert Hex(b, width)[..width - 1] == Hex(b / 16, width - 1);
      assert Hex(a, width)[width - 1] == HexDigit(a % 16);
      assert Hex(b, width)[width - 1] == HexDigit(b % 16);
      HexIsInjective(a / 16, b / 16, width - 1);
    }
  }

  // The 8-4-4-4-12 form.
  function UuidString(u: Uuid): (s: string)
    ensures |s| == 36
  {
    var h := Hex(u, 32);
    h[..8] + "-" + h[8..12] + "-" + h[12..16] + "-" + h[16..20] + "-" + h[20..]
  }

  function WithoutHyphens(s: string): string
    requires |s| == 36
  {
    s[..8] + s[9..13] + s[14..18] + s[19..23] + s[24..]
  }

  lemma HyphensAreSeparators(u: Uuid)
    ensures WithoutHyphens(UuidString(u)) == Hex(u, 32)
  {
    var h, s := Hex(u, 32), UuidString(u);
    assert s[..8] == h[..8];
    assert s[9..13] == h[8..12];
    assert s[14..18] == h[12..16];
    assert s[19..23] == h[16..20];
    assert s[24..] == h[20..];
  }

  /** What a lower-case hexadecimal digit stands for. */
  function Nibble(c: char): (d: nat)
    requires '0' <= c <= '9' || 'a' <= c <= 'f'
  {
    if c <= '9' then c as int - '0' as int else c as int - 'a' as int + 10
  }

  predicate AllHex(s: string) {
    forall i | 0 <= i < |s| :: '0' <= s[i] <= '9' || 'a' <= s[i] <= 'f'
  }

  function HexValue(s: string): nat
    requires AllHex(s)
  {
    if s == "" then 0 else 16 * HexValue(s[..|s| - 1]) + Nibble(s[|s| - 1])
  }

  lemma {:induction false} HexReads(n: nat, width: nat)
    requires n < Pow16(width)
    ensures AllHex(Hex(n, width)) && HexValue(Hex(n, width)) == n
  {
    if width > 0 {
      HexReads(n / 16, width - 1);
      assert Hex(n, width)[..width - 1] == Hex(n / 16, width - 1);
    }
  }

  /** The text form of an identifier: 32 lower-case hexadecimal digits that read as it,
      with hyphens after the eighth, twelfth, sixteenth and twentieth. */
  lemma UuidStringReads(u: Uuid)
    ensures var s := UuidString(u);
      s[8] == s[13] == s[18] == s[23] == '-' && AllHex(WithoutHyphens(s)) && HexValue(WithoutHyphens(s)) == u
  {
    HyphensAreSeparators(u);
    SixteenBytes();
    HexReads(u, 32);
  }

  lemma SixteenBytes()
    ensures Pow16(32) == 0x1_0000_0000_0000_0000_0000_0000_0000_0000
  {
    assert Pow16(8) == 0x1_0000_0000;
    assert Pow16(16) == 0x1_0000_0000_0000_0000;
    assert Pow16(24) == 0x1_0000_0000_0000_0000_0000_0000;
  }

  lemma UuidStringIsInjective(a: Uuid, b: Uuid)
    requires UuidString(a) == UuidString(b)
    ensures a == b
  {
    HyphensAreSeparators(a);
    HyphensAreSeparators(b);
    SixteenBytes();
    HexIsInjective(a, b, 32);
  }

  // ---------------------------------------------------------------------------
  // sort.Strings
  // ---------------------------------------------------------------------------

  /** Byte-wise lexicographic order. */
  predicate Before(a: string, b: string) {
    b != "" && (a == "" || a[0] < b[0] || (a[0] == b[0] && Before(a[1..], b[1..])))
  }

  lemma {:induction false} BeforeIsTransitive(a: string, b: string, c: string)
    requires Before(a, b) && Before(b, c)
    ensures Before(a, c)
  {
    if a != "" && a[0] == b[0] == c[0] {
      BeforeIsTransitive(a[1..], b[1..], c[1..]);
    }
  }

  lemma {:induction false} BeforeIsTotal(a: string, b: string)
    ensures a == b || Before(a, b) || Before(b, a)
    ensures !(Before(a, b) && Before(b, a))
  {
    if a != "" && b != "" {
      BeforeIsTotal(a[1..], b[1..]);
      if a[0] == b[0] && a[1..] == b[1..] {
        assert a == [a[0]] + a[1..] && b == [b[0]] + b[1..];
      }
    }
  }

  /** By positions: one string comes before another exactly when it is a proper prefix of
      it, or has the smaller byte at the first place where they differ. */
  lemma {:induction false} BeforeByPositions(a: string, b: string)
    ensures Before(a, b) <==>
      exists n: nat :: n <= |a| && n < |b| && a[..n] == b[..n] && (n == |a| || a[n] < b[n])
  {
    if a != "" && b != "" && a[0] == b[0] {
      BeforeByPositions(a[1..], b[1..]);
      if Before(a[1..], b[1..]) {
        var n: nat :| n <= |a[1..]| && n < |b[1..]| && a[1..][..n] == b[1..][..n] && (n == |a[1..]| || a[1..][n] < b[1..][n]);
        assert a[..n + 1] == [a[0]] + a[1..][..n] && b[..n + 1] == [b[0]] + b[1..][..n];
        assert n + 1 == |a| || a[n + 1] < b[n + 1];
      }
      if n: nat :| n <= |a| && n < |b| && a[..n] == b[..n] && (n == |a| || a[n] < b[n]) {
        assert n > 0;
        assert a[1..][..n - 1] == a[..n][1..] && b[1..][..n - 1] == b[..n][1..];
      }
    } else if b != "" {
      assert a[..0] == b[..0];
      if n: nat :| n <= |a| && n < |b| && a[..n] == b[..n] && (n == |a| || a[n] < b[n]) {
        if a != "" && n > 0 {
          SamePrefixSameHead(a, b, n);
        }
      }
    }
  }

  lemma SamePrefixSameHead(a: string, b: string, n: nat)
    requires 0 < n <= |a| && n <= |b| && a[..n] == b[..n]
    ensures a[0] == b[0]
  {
    assert a[..n][0] == a[0] && b[..n][0] == b[0];
  }

  ghost predicate Ascending(s: seq<string>) {
    forall i, j | 0 <= i < j < |s| :: Before(s[i], s[j])
  }

  function Elements(s: seq<string>): set<string> {
    set x | x in s
  }

  lemma NoElements(s: seq<string>)
    ensures Elements(s) == {} <==> s == []
  {
    if s != [] {
      assert s[0] in Elements(s);
    }
  }

  /** A set has at most one ascending listing, so sorting forgets the order in
      which the elements were found. */
  lemma {:induction false} AscendingIsUnique(a: seq<string>, b: seq<string>)
    requires Ascending(a) && Ascending(b) && Elements(a) == Elements(b)
    ensures a == b
  {
    NoElements(a);
    NoElements(b);
    if a != [] {
      assert a[0] in Elements(b) && b[0] in Elements(a);
      if a[0] != b[0] {
        BeforeIsTotal(a[0], b[0]);
      }
      forall x ensures x in Elements(a[1..]) <==> x in Elements(b[1..]) {
        BeforeIsTotal(a[0], a[0]);
        assert x in Elements(a[1..]) <==> x in Elements(a) && x != a[0] by { Remove(a, x); }
        assert x in Elements(b[1..]) <==> x in Elements(b) && x != b[0] by { Remove(b, x); }
      }
      AscendingIsUnique(a[1..], b[1..]);
    }
  }

  lemma Remove(a: seq<string>, x: string)
    requires a != [] && Ascending(a)
    ensures x in Elements(a[1..]) <==> x in Elements(a) && x != a[0]
  {
    BeforeIsTotal(a[0], a[0]);
    assert a == [a[0]] + a[1..];
    forall i | 1 <= i < |a| ensures a[i] != a[0] {
      assert Before(a[0], a[i]);
    }
  }

  /** The sorting routine, on keys that are already known to be distinct. */
  method SortStrings(keys: seq<string>) returns (sorted: seq<string>)
    requires forall i, j | 0 <= i < j < |keys| :: keys[i] != keys[j]
    ensures Ascending(sorted) && Elements(sorted) == Elements(keys)
  {
    sorted := [];
    for i := 0 to |keys|
      invariant Ascending(sorted) && Elements(sorted) == Elements(keys[..i])
    {
      var k := keys[i];
      assert k !in Elements(keys[..i]);
      var at := 0;
      while at < |sorted| && Before(sorted[at], k)
        invariant 0 <= at <= |sorted|
        invariant forall j | 0 <= j < at :: Before(sorted[j], k)
      {
        at := at + 1;
      }
      forall j | at <= j < |sorted| ensures Before(k, sorted[j]) {
        BeforeIsTotal(k, sorted[at]);
        assert sorted[at] in Elements(sorted);
        if at < j {
          BeforeIsTransitive(k, sorted[at], sorted[j]);
        }
      }
      var next := sorted[..at] + [k] + sorted[at..];
      assert Elements(next) == Elements(sorted) + {k} by {
        assert sorted == sorted[..at] + sorted[at..];
      }
      assert keys[..i + 1] == keys[..i] + [k];
      sorted := next;
    }
    assert keys[..|keys|] == keys;
  }

  predicate IsLeast(k: string, s: set<string>) {
    k in s && forall x | x in s && x != k :: Before(k, x)
  }

  lemma {:induction false} LeastOf(s: set<string>) returns (k: string)
    requires s != {}
    ensures IsLeast(k, s)
  {
    k :| k in s;
    if s != {k} {
      var m := LeastOf(s - {k});
      BeforeIsTotal(k, m);
      if Before(m, k) {
        k := m;
      } else {
        forall x | x in s && x != k ensures Before(k, x) {
          if x != m {
            BeforeIsTransitive(k, m, x);
          }
        }
      }
    }
  }

  lemma LeastIsUnique(s: set<string>)
    requires s != {}
    ensures exists k :: k in s && IsLeast(k, s)
    ensures forall a, b | a in s && b in s && IsLeast(a, s) && IsLeast(b, s) :: a == b
  {
    var least := LeastOf(s);
    forall a, b | a in s && b in s && IsLeast(a, s) && IsLeast(b, s) ensures a == b {
      BeforeIsTotal(a, b);
    }
  }

  /** The ascending listing of a set: what sorting its elements produces. */
  function Sorted(s: set<string>): (listing: seq<string>)
    ensures Ascending(listing) && Elements(listing) == s
  {
    if s == {} then []
    else
      LeastIsUnique(s);
      var k :| k in s && IsLeast(k, s);
      var rest := Sorted(s - {k});
      assert forall i | 0 <= i < |rest| :: rest[i] in Elements(rest);
      assert Elements([k] + rest) == {k} + Elements(rest);
      [k] + rest
  }
}
