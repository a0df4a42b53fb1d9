/** Unpadded base32 and base64 (sections 4 and 6 of RFC 4648), as groups of five or
    six bits, and splitting at a separator. */
module Encodings {
  import opened Outcomes

  type Byte = n: nat | n < 256

  // ---------------------------------------------------------------------------
  // Bits
  // ---------------------------------------------------------------------------

  function Pow2(n: nat): (p: nat)
    ensures p >= 1
  {
    if n == 0 then 1 else 2 * Pow2(n - 1)
  }

  /** The low `width` bits of n, most significant first. */
  function Bits(n: nat, width: nat): (b: seq<bool>)
    ensures |b| == width
  {
    if width == 0 then [] else Bits(n / 2, width - 1) + [n % 2 == 1]
  }

  function Number(b: seq<bool>): (n: nat)
    ensures n < Pow2(|b|)
  {
    if b == [] then 0 else 2 * Number(b[..|b| - 1]) + if b[|b| - 1] then 1 else 0
  }

  lemma {:induction false} NumberOfBits(n: nat, width: nat)
    requires n < Pow2(width)
    ensures Number(Bits(n, width)) == n
  {
    if width > 0 {
      NumberOfBits(n / 2, width - 1);
      assert Bits(n, width)[..width - 1] == Bits(n / 2, width - 1);
    }
  }

  lemma {:induction false} BitsOfNumber(b: seq<bool>)
    ensures Bits(Number(b), |b|) == b
  {
    if b != [] {
      BitsOfNumber(b[..|b| - 1]);
      assert Number(b) / 2 == Number(b[..|b| - 1]);
      assert b == b[..|b| - 1] + [b[|b| - 1]];
    }
  }

  function ByteBits(bytes: seq<Byte>): (b: seq<bool>)
    ensures |b| == 8 * |bytes|
  {
    if bytes == [] then [] else Bits(bytes[0], 8) + ByteBits(bytes[1..])
  }

  function TakeBytes(b: seq<bool>): (bytes: seq<Byte>)
    ensures |bytes| == |b| / 8
    decreases |b|
  {
    if |b| < 8 then []
    else
      assert Pow2(8) == 256;
      [Number(b[..8])] + TakeBytes(b[8..])
  }

  lemma {:induction false} BytesComeBack(bytes: seq<Byte>, pad: seq<bool>)
    requires |pad| < 8
    ensures TakeBytes(ByteBits(bytes) + pad) == bytes
  {
    if bytes == [] {
      assert ByteBits(bytes) + pad == pad;
    } else {
      var b := ByteBits(bytes) + pad;
      assert b[..8] == Bits(bytes[0], 8);
      assert b[8..] == ByteBits(bytes[1..]) + pad;
      assert Pow2(8) == 256;
      NumberOfBits(bytes[0], 8);
      BytesComeBack(bytes[1..], pad);
    }
  }

  // ---------------------------------------------------------------------------
  // Groups and symbols
  // ---------------------------------------------------------------------------

  function Zeros(n: nat): (z: seq<bool>)
    ensures |z| == n
  {
    if n == 0 then [] else Zeros(n - 1) + [false]
  }

  // As many distinct symbols as there are groups of `width` bits.
  datatype Alphabet = Alphabet(symbols: string, width: nat)
  {
    ghost predicate Valid() {
      && 1 <= width < 8 && |symbols| == Pow2(width)
      && forall i, j | 0 <= i < j < |symbols| :: symbols[i] != symbols[j]
    }

    function IndexOf(c: char): (i: Option<nat>)
      ensures i.Some? ==> i.value < |symbols| && symbols[i.value] == c
      ensures i.None? ==> c !in symbols
    {
      FirstIndex(symbols, c)
    }
  }

  function FirstIndex(s: string, c: char): (i: Option<nat>)
    ensures i.Some? ==> i.value < |s| && s[i.value] == c
    ensures i.None? ==> c !in s
  {
    if s == "" then None
    else if s[0] == c then Some(0)
    else
      match FirstIndex(s[1..], c)
      case None => None
      case Some(i) => Some(i + 1)
  }

  /** How many groups n bits make, the last one padded. */
  function Groups(n: nat, width: nat): nat
    requires width >= 1
  {
    if n == 0 then 0 else if n <= width then 1 else 1 + Groups(n - width, width)
  }

  function Symbols(bits: seq<bool>, a: Alphabet): (s: string)
    requires a.Valid()
    ensures |s| == Groups(|bits|, a.width)
    ensures forall i | 0 <= i < |s| :: s[i] in a.symbols
    decreases |bits|
  {
    if bits == [] then ""
    else if |bits| <= a.width then [a.symbols[Number(bits + Zeros(a.width - |bits|))]]
    else [a.symbols[Number(bits[..a.width])]] + Symbols(bits[a.width..], a)
  }

  function Encode(bytes: seq<Byte>, a: Alphabet): (s: string)
    requires a.Valid()
    ensures |s| == Groups(8 * |bytes|, a.width)
    ensures forall i | 0 <= i < |s| :: s[i] in a.symbols
  {
    Symbols(ByteBits(bytes), a)
  }

  function SymbolBits(s: string, a: Alphabet): Option<seq<bool>>
    requires a.Valid()
  {
    if s == "" then Some([])
    else
      match a.IndexOf(s[0])
      case None => None
      case Some(i) =>
        match SymbolBits(s[1..], a)
        case None => None
        case Some(rest) => Some(Bits(i, a.width) + rest)
  }

  /** Left-over bits are ignored, as the library's decoder does when not strict. */
  function Decode(s: string, a: Alphabet): Option<seq<Byte>>
    requires a.Valid()
  {
    match SymbolBits(s, a)
    case None => None
    case Some(bits) => Some(TakeBytes(bits))
  }

  lemma IndexIsUnique(a: Alphabet, i: nat)
    requires a.Valid() && i < |a.symbols|
    ensures a.IndexOf(a.symbols[i]) == Some(i)
  {
    var j := a.IndexOf(a.symbols[i]);
    assert a.symbols[i] in a.symbols;
  }

  /** One symbol stands for the group it was chosen by. */
  lemma GroupComesBack(group: seq<bool>, rest: string, a: Alphabet)
    requires a.Valid() && |group| == a.width
    ensures var s := [a.symbols[Number(group)]] + rest;
      SymbolBits(s, a) == if SymbolBits(rest, a).None? then None else Some(group + SymbolBits(rest, a).value)
  {
    BitsOfNumber(group);
    IndexIsUnique(a, Number(group));
    assert ([a.symbols[Number(group)]] + rest)[1..] == rest;
  }

  lemma {:induction false} SymbolsComeBack(bits: seq<bool>, a: Alphabet) returns (pad: nat)
    requires a.Valid()
    ensures pad < a.width && SymbolBits(Symbols(bits, a), a) == Some(bits + Zeros(pad))
    decreases |bits|
  {
    if bits == [] {
      pad := 0;
      assert bits + Zeros(pad) == bits;
    } else if |bits| <= a.width {
      pad := a.width - |bits|;
      LastGroup(bits, a, pad);
    } else {
      pad := SymbolsComeBack(bits[a.width..], a);
      FirstGroup(bits, a, pad);
    }
  }

  lemma NoSymbols(a: Alphabet)
    requires a.Valid()
    ensures SymbolBits("", a) == Some([])
  {
  }

  lemma LastGroup(bits: seq<bool>, a: Alphabet, pad: nat)
    requires a.Valid() && 1 <= |bits| <= a.width && pad == a.width - |bits|
    ensures SymbolBits(Symbols(bits, a), a) == Some(bits + Zeros(pad))
  {
    hide SymbolBits, Number, Pow2, Bits, Groups;
    assert SymbolBits("", a) == Some([]) by { NoSymbols(a); }
    var group := bits + Zeros(pad);
    assert Symbols(bits, a) == [a.symbols[Number(group)]] + "";
    GroupComesBack(group, "", a);
    assert group + [] == group;
  }

  lemma FirstGroup(bits: seq<bool>, a: Alphabet, pad: nat)
    requires a.Valid() && |bits| > a.width
    requires SymbolBits(Symbols(bits[a.width..], a), a) == Some(bits[a.width..] + Zeros(pad))
    ensures SymbolBits(Symbols(bits, a), a) == Some(bits + Zeros(pad))
  {
    hide SymbolBits, Number, Pow2, Bits, Groups, Zeros;
    var group, rest := bits[..a.width], Symbols(bits[a.width..], a);
    assert Symbols(bits, a) == [a.symbols[Number(group)]] + rest;
    GroupComesBack(group, rest, a);
    assert group + (bits[a.width..] + Zeros(pad)) == bits + Zeros(pad);
  }

  /** Decoding undoes encoding, for any bytes. */
  lemma DecodeInvertsEncode(bytes: seq<Byte>, a: Alphabet)
    requires a.Valid()
    ensures Decode(Encode(bytes, a), a) == Some(bytes)
  {
    var pad := SymbolsComeBack(ByteBits(bytes), a);
    BytesComeBack(bytes, Zeros(pad));
  }

  lemma EncodeIsInjective(x: seq<Byte>, y: seq<Byte>, a: Alphabet)
    requires a.Valid() && Encode(x, a) == Encode(y, a)
    ensures x == y
  {
    DecodeInvertsEncode(x, a);
    DecodeInvertsEncode(y, a);
  }

  // A-Z and 2-7.
  function Symbol32(i: nat): char
    requires i < 32
  {
    if i < 26 then ('A' as int + i) as char else ('2' as int + i - 26) as char
  }

  // A-Z, a-z, 0-9, plus and slash.
  function Symbol64(i: nat): char
    requires i < 64
  {
    if i < 26 then ('A' as int + i) as char
    else if i < 52 then ('a' as int + i - 26) as char
    else if i < 62 then ('0' as int + i - 52) as char
    else if i == 62 then '+' else '/'
  }

  function Base32(): Alphabet {
    Alphabet(seq(32, i requires 0 <= i < 32 => Symbol32(i)), 5)
  }

  function Base64(): Alphabet {
    Alphabet(seq(64, i requires 0 <= i < 64 => Symbol64(i)), 6)
  }

  lemma AlphabetsAreValid()
    ensures Base32().Valid() && Base64().Valid()
    ensures '_' !in Base32().symbols && '$' !in Base64().symbols
  {
    assert Pow2(5) == 32 && Pow2(6) == 2 * Pow2(5);
  }

  lemma Base32ByLetter()
    ensures Base32() == Alphabet("ABCDEFGHIJKLMNOPQRSTUVWXYZ234567", 5)
  {
  }

  lemma Base64ByLetter()
    ensures Base64() == Alphabet("ABCDEFGHIJKLMNOPQRSTUVWXYZ" + "abcdefghijklmnopqrstuvwxyz" + "0123456789+/", 6)
  {
    var upper, lower, rest := "ABCDEFGHIJKLMNOPQRSTUVWXYZ", "abcdefghijklmnopqrstuvwxyz", "0123456789+/";
    assert forall i | 0 <= i < 26 :: upper[i] == Symbol64(i);
    assert forall i | 0 <= i < 26 :: lower[i] == Symbol64(26 + i);
    assert forall i | 0 <= i < 12 :: rest[i] == Symbol64(52 + i);
    Joined64(upper, lower, rest);
  }

  lemma Joined64(upper: string, lower: string, rest: string)
    requires |upper| == 26 && |lower| == 26 && |rest| == 12
    requires forall i | 0 <= i < 26 :: upper[i] == Symbol64(i)
    requires forall i | 0 <= i < 26 :: lower[i] == Symbol64(26 + i)
    requires forall i | 0 <= i < 12 :: rest[i] == Symbol64(52 + i)
    ensures Base64().symbols == upper + lower + rest
  {
    hide Symbol64;
    var s := upper + lower + rest;
    forall i | 0 <= i < 64 ensures s[i] == Symbol64(i) {
      if 26 <= i < 52 {
        assert s[i] == lower[i - 26];
      } else if 52 <= i {
        assert s[i] == rest[i - 52];
      }
    }
  }

  // ---------------------------------------------------------------------------
  // Bit by bit
  // ---------------------------------------------------------------------------

  /** Bit k of n in `width` bits, the most significant being bit 0. */
  predicate BitOf(n: nat, width: nat, k: nat)
    requires k < width
  {
    n / Pow2(width - 1 - k) % 2 == 1
  }

  lemma {:induction false} BitsReadOff(n: nat, width: nat, k: nat)
    requires k < width
    ensures Bits(n, width)[k] <==> BitOf(n, width, k)
  {
    if k < width - 1 {
      BitsReadOff(n / 2, width - 1, k);
      HalfThenRest(n, Pow2(width - 2 - k));
    }
  }

  lemma HalfThenRest(n: nat, p: nat)
    requires p >= 1
    ensures n / 2 / p == n / (2 * p)
  {
    var q := n / 2 / p;
    var r := n / 2 - q * p;
    assert n == 2 * (q * p + r) + n % 2;
    assert 2 * r + n % 2 < 2 * p;
    assert n == q * (2 * p) + (2 * r + n % 2);
    QuotientIs(n, 2 * p, q, 2 * r + n % 2);
  }

  lemma QuotientIs(n: nat, d: nat, q: nat, r: nat)
    requires d >= 1 && r < d && n == q * d + r
    ensures n / d == q
  {
    assert n == n / d * d + n % d;
    OneQuotient(d, q, r, n / d, n % d);
  }

  lemma OneQuotient(d: nat, q: nat, r: nat, p: nat, s: nat)
    requires r < d && s < d && q * d + r == p * d + s
    ensures q == p
  {
    if q < p {
      AtLeastOne(p - q, d);
    } else if p < q {
      AtLeastOne(q - p, d);
    }
  }

  lemma AtLeastOne(k: nat, d: nat)
    requires k >= 1
    ensures k * d >= d
  {
  }

  lemma {:induction false} ByteBitsReadOff(bytes: seq<Byte>, i: nat)
    requires i < 8 * |bytes|
    ensures ByteBits(bytes)[i] <==> BitOf(bytes[i / 8], 8, i % 8)
  {
    if i < 8 {
      BitsReadOff(bytes[0], 8, i);
    } else {
      ByteBitsReadOff(bytes[1..], i - 8);
      assert bytes[1..][(i - 8) / 8] == bytes[i / 8];
    }
  }

  /** Bit k of the i-th group, zero past the end. */
  predicate GroupBit(bytes: seq<Byte>, width: nat, i: nat, k: nat) {
    var j := width * i + k;
    j < 8 * |bytes| && BitOf(bytes[j / 8], 8, j % 8)
  }

  predicate Spells(index: nat, bytes: seq<Byte>, width: nat, i: nat) {
    forall k | 0 <= k < width :: BitOf(index, width, k) <==> GroupBit(bytes, width, i, k)
  }

  lemma ZerosAreZero(n: nat)
    ensures forall i | 0 <= i < n :: !Zeros(n)[i]
  {
  }

  lemma {:induction false} SymbolsReadOff(bits: seq<bool>, a: Alphabet, i: nat) returns (index: nat)
    requires a.Valid() && i < |Symbols(bits, a)|
    ensures index < |a.symbols| && Symbols(bits, a)[i] == a.symbols[index]
    ensures forall k | 0 <= k < a.width :: BitOf(index, a.width, k) <==> BitAt(bits, a.width * i + k)
    decreases |bits|
  {
    hide Number, Bits, BitOf, Pow2;
    if |bits| <= a.width {
      var group := bits + Zeros(a.width - |bits|);
      index := GroupReadsOff(group, a);
      ZerosAreZero(a.width - |bits|);
    } else if i == 0 {
      index := GroupReadsOff(bits[..a.width], a);
    } else {
      var rest := bits[a.width..];
      index := SymbolsReadOff(rest, a, i - 1);
      forall k | 0 <= k < a.width ensures BitOf(index, a.width, k) <==> BitAt(bits, a.width * i + k) {
        assert a.width * i + k == a.width + (a.width * (i - 1) + k);
      }
    }
  }

  predicate BitAt(bits: seq<bool>, j: nat) {
    j < |bits| && bits[j]
  }

  lemma GroupReadsOff(group: seq<bool>, a: Alphabet) returns (index: nat)
    requires a.Valid() && |group| == a.width
    ensures index == Number(group) < |a.symbols| && forall k | 0 <= k < a.width :: BitOf(index, a.width, k) <==> group[k]
  {
    index := Number(group);
    BitsOfNumber(group);
    forall k | 0 <= k < a.width ensures BitOf(index, a.width, k) <==> group[k] {
      BitsReadOff(index, a.width, k);
    }
  }

  /** Symbol i is the one whose place in the alphabet is spelled by the next bits of the
      bytes, most significant first, with zeros past the end. */
  lemma EncodeReadsOff(bytes: seq<Byte>, a: Alphabet, i: nat)
    requires a.Valid() && i < |Encode(bytes, a)|
    ensures exists index :: 0 <= index < |a.symbols| && Encode(bytes, a)[i] == a.symbols[index] && Spells(index, bytes, a.width, i)
  {
    var index := SymbolsReadOff(ByteBits(bytes), a, i);
    forall k | 0 <= k < a.width ensures BitOf(index, a.width, k) <==> GroupBit(bytes, a.width, i, k) {
      if a.width * i + k < 8 * |bytes| {
        ByteBitsReadOff(bytes, a.width * i + k);
      }
    }
  }

  /** Decoding fails exactly on a character that is not in the alphabet. */
  lemma {:induction false} DecodeFailsExactlyWhen(s: string, a: Alphabet)
    requires a.Valid()
    ensures Decode(s, a).None? <==> exists i :: 0 <= i < |s| && s[i] !in a.symbols
  {
    if s != "" {
      DecodeFailsExactlyWhen(s[1..], a);
      assert forall i | 1 <= i < |s| :: s[i] == s[1..][i - 1];
    }
  }

  // ---------------------------------------------------------------------------
  // strings.Split
  // ---------------------------------------------------------------------------

  function Split(s: string, sep: char): (parts: seq<string>)
    ensures |parts| >= 1
    ensures forall i | 0 <= i < |parts| :: sep !in parts[i]
  {
    if s == "" then [""]
    else
      var rest := Split(s[1..], sep);
      if s[0] == sep then [""] + rest else [[s[0]] + rest[0]] + rest[1..]
  }

  function Join(parts: seq<string>, sep: char): string
    requires |parts| >= 1
  {
    if |parts| == 1 then parts[0] else parts[0] + [sep] + Join(parts[1..], sep)
  }

  lemma {:induction false} JoinInvertsSplit(s: string, sep: char)
    ensures Join(Split(s, sep), sep) == s
  {
    if s != "" {
      var rest := Split(s[1..], sep);
      JoinInvertsSplit(s[1..], sep);
      if s[0] == sep {
        assert ([""] + rest)[1..] == rest;
        assert s == [sep] + s[1..];
      } else {
        assert ([[s[0]] + rest[0]] + rest[1..])[1..] == rest[1..];
        assert s == [s[0]] + s[1..];
      }
    }
  }

  lemma {:induction false} SplitAtFirst(a: string, rest: string, sep: char)
    requires sep !in a
    ensures Split(a + [sep] + rest, sep) == [a] + Split(rest, sep)
  {
    var s := a + [sep] + rest;
    if a == "" {
      assert s[1..] == rest;
    } else {
      assert s[1..] == a[1..] + [sep] + rest;
      assert sep !in a[1..];
      SplitAtFirst(a[1..], rest, sep);
      assert a == [a[0]] + a[1..];
    }
  }

  lemma {:induction false} SplitWhole(a: string, sep: char)
    requires sep !in a
    ensures Split(a, sep) == [a]
  {
    if a != "" {
      assert sep !in a[1..];
      SplitWhole(a[1..], sep);
      assert a == [a[0]] + a[1..];
    }
  }

  lemma {:induction false} SplitInvertsJoin(parts: seq<string>, sep: char)
    requires |parts| >= 1 && forall i | 0 <= i < |parts| :: sep !in parts[i]
    ensures Split(Join(parts, sep), sep) == parts
  {
    if |parts| == 1 {
      SplitWhole(parts[0], sep);
    } else {
      SplitAtFirst(parts[0], Join(parts[1..], sep), sep);
      SplitInvertsJoin(parts[1..], sep);
    }
  }
}
