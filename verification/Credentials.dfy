/** internal/credential and the provider chain: minted tokens, recovery codes and
    password hashes as strings. A digest stands for what it was taken from; the key
    derivation is any function with an output of the length asked for. */
module Credentials {
  import opened Outcomes
  import opened Text
  import opened Encodings

  // ---------------------------------------------------------------------------
  // Tokens
  // ---------------------------------------------------------------------------

  datatype Kind = KindMachine | KindRuntime | KindSession | KindInvite | KindRecovery

  function Prefix(kind: Kind): (s: string)
    ensures |s| == 3 && '_' !in s
  {
    match kind
    case KindMachine => "vlt"
    case KindRuntime => "vrt"
    case KindSession => "vsn"
    case KindInvite => "vin"
    case KindRecovery => "vrc"
  }

  lemma PrefixesDiffer(a: Kind, b: Kind)
    requires Prefix(a) == Prefix(b)
    ensures a == b
  {
    var p := Prefix(a);
    assert p[1] == Prefix(b)[1] && p[2] == Prefix(b)[2];
  }

  function KindOf(prefix: string): (kind: Option<Kind>)
    ensures kind.Some? ==> Prefix(kind.value) == prefix
  {
    if prefix == "vlt" then Some(KindMachine)
    else if prefix == "vrt" then Some(KindRuntime)
    else if prefix == "vsn" then Some(KindSession)
    else if prefix == "vin" then Some(KindInvite)
    else if prefix == "vrc" then Some(KindRecovery)
    else None
  }

  const PUBLIC_ID_BYTES := 6
  const SECRET_BYTES := 32

  datatype Digest = Digest(of: string)

  datatype Token = Token(secret: string, publicId: string, hash: Digest)

  datatype Malformed = Malformed

  /** Mint, of the bytes the random source gave. */
  function Mint(kind: Kind, publicRaw: seq<Byte>, secretRaw: seq<Byte>): Token
    requires |publicRaw| == PUBLIC_ID_BYTES && |secretRaw| == SECRET_BYTES
  {
    AlphabetsAreValid();
    var publicId := Encode(publicRaw, Base32());
    var full := Prefix(kind) + "_" + publicId + "_" + Encode(secretRaw, Base32());
    Token(full, publicId, Digest(full))
  }

  const PUBLIC_ID_LENGTH := 10
  const SECRET_LENGTH := 52

  function Parse(presented: string): Result<(Kind, string), Malformed> {
    var parts := Split(presented, '_');
    if |parts| != 3 || KindOf(parts[0]).None? then Err(Malformed)
    else if |parts[1]| != PUBLIC_ID_LENGTH || |parts[2]| != SECRET_LENGTH then Err(Malformed)
    else Ok((KindOf(parts[0]).value, parts[1]))
  }

  predicate Verify(presented: string, stored: Digest) {
    Digest(presented) == stored
  }

  lemma EncodedLengths()
    ensures Groups(8 * PUBLIC_ID_BYTES, 5) == PUBLIC_ID_LENGTH
    ensures Groups(8 * SECRET_BYTES, 5) == SECRET_LENGTH
  {
    FiveAtATime(9, 3);
    FiveAtATime(51, 1);
  }

  lemma {:induction false} FiveAtATime(full: nat, rest: nat)
    requires 1 <= rest <= 5
    ensures Groups(5 * full + rest, 5) == full + 1
  {
    if full > 0 {
      FiveAtATime(full - 1, rest);
    }
  }

  /** A well-formed credential is a known prefix, ten characters and fifty-two, none of
      which is the separator. */
  predicate IsForm(s: string, kind: Kind, publicId: string, secret: string) {
    && s == Prefix(kind) + "_" + publicId + "_" + secret
    && |publicId| == PUBLIC_ID_LENGTH && |secret| == SECRET_LENGTH && '_' !in publicId && '_' !in secret
  }

  lemma JoinOfThree(a: string, b: string, c: string)
    ensures Join([a, b, c], '_') == a + "_" + b + "_" + c
  {
    assert [b, c][1..] == [c] && Join([c], '_') == c;
    assert Join([b, c], '_') == b + ['_'] + c;
    assert [a, b, c][1..] == [b, c];
    assert a + ['_'] + (b + ['_'] + c) == a + "_" + b + "_" + c;
  }

  /** Parsing accepts exactly the well-formed strings, and reads off their fields. */
  lemma ParseReadsTheForm(s: string, kind: Kind, publicId: string)
    ensures Parse(s) == Ok((kind, publicId)) <==> exists secret :: IsForm(s, kind, publicId, secret)
  {
    var parts := Split(s, '_');
    JoinInvertsSplit(s, '_');
    if Parse(s) == Ok((kind, publicId)) {
      assert parts == [parts[0], parts[1], parts[2]];
      JoinOfThree(parts[0], parts[1], parts[2]);
      assert IsForm(s, kind, publicId, parts[2]);
    }
    if secret :| IsForm(s, kind, publicId, secret) {
      JoinOfThree(Prefix(kind), publicId, secret);
      SplitInvertsJoin([Prefix(kind), publicId, secret], '_');
      var back := KindOf(Prefix(kind));
      assert back.Some?;
      PrefixesDiffer(back.value, kind);
    }
  }

  lemma MintedIsWellFormed(kind: Kind, publicRaw: seq<Byte>, secretRaw: seq<Byte>)
    requires |publicRaw| == PUBLIC_ID_BYTES && |secretRaw| == SECRET_BYTES
    ensures var t := Mint(kind, publicRaw, secretRaw);
      IsForm(t.secret, kind, t.publicId, Encode(secretRaw, Base32()))
  {
    AlphabetsAreValid();
    EncodedLengths();
    NoSeparator(Encode(publicRaw, Base32()));
    NoSeparator(Encode(secretRaw, Base32()));
  }

  /** A minted credential in full: its kind's three letters, ten symbols of six random
      bytes, and fifty-two of thirty-two. */
  lemma MintedText(publicRaw: seq<Byte>, secretRaw: seq<Byte>)
    requires |publicRaw| == 6 && |secretRaw| == 32
    ensures Base32().Valid()
    ensures var rest := "_" + Encode(publicRaw, Base32()) + "_" + Encode(secretRaw, Base32());
      && Mint(KindMachine, publicRaw, secretRaw).secret == "vlt" + rest && Mint(KindRuntime, publicRaw, secretRaw).secret == "vrt" + rest
      && Mint(KindSession, publicRaw, secretRaw).secret == "vsn" + rest && Mint(KindInvite, publicRaw, secretRaw).secret == "vin" + rest
      && Mint(KindRecovery, publicRaw, secretRaw).secret == "vrc" + rest
    ensures |Encode(publicRaw, Base32())| == 10 && |Encode(secretRaw, Base32())| == 52
    ensures forall kind :: Mint(kind, publicRaw, secretRaw).publicId == Encode(publicRaw, Base32())
  {
    hide Encode, Base32;
    AlphabetsAreValid();
    EncodedLengths();
    forall kind: Kind ensures Mint(kind, publicRaw, secretRaw).secret ==
      Prefix(kind) + ("_" + Encode(publicRaw, Base32()) + "_" + Encode(secretRaw, Base32()))
    {
      Regroup(Prefix(kind), Encode(publicRaw, Base32()), Encode(secretRaw, Base32()));
    }
  }

  lemma Regroup(a: string, b: string, c: string)
    ensures a + "_" + b + "_" + c == a + ("_" + b + "_" + c)
  {
  }

  lemma NoSeparator(s: string)
    requires forall i | 0 <= i < |s| :: s[i] in Base32().symbols
    ensures '_' !in s
  {
    AlphabetsAreValid();
  }

  /** Any minted credential parses back to its kind and public id. */
  lemma ParseInvertsMint(kind: Kind, publicRaw: seq<Byte>, secretRaw: seq<Byte>)
    requires |publicRaw| == PUBLIC_ID_BYTES && |secretRaw| == SECRET_BYTES
    ensures var t := Mint(kind, publicRaw, secretRaw); Parse(t.secret) == Ok((kind, t.publicId))
  {
    MintedIsWellFormed(kind, publicRaw, secretRaw);
    var t := Mint(kind, publicRaw, secretRaw);
    ParseReadsTheForm(t.secret, kind, t.publicId);
  }

  /** Different bytes mint different credentials, and a credential verifies against a
      stored verifier only if it is the very string that was minted. */
  lemma MintIsInjective(k1: Kind, p1: seq<Byte>, s1: seq<Byte>, k2: Kind, p2: seq<Byte>, s2: seq<Byte>)
    requires |p1| == PUBLIC_ID_BYTES && |s1| == SECRET_BYTES && |p2| == PUBLIC_ID_BYTES && |s2| == SECRET_BYTES
    ensures Verify(Mint(k1, p1, s1).secret, Mint(k2, p2, s2).hash) <==> k1 == k2 && p1 == p2 && s1 == s2
  {
    var a, b := Mint(k1, p1, s1), Mint(k2, p2, s2);
    if a.secret == b.secret {
      AlphabetsAreValid();
      ParseInvertsMint(k1, p1, s1);
      ParseInvertsMint(k2, p2, s2);
      MintedIsWellFormed(k1, p1, s1);
      MintedIsWellFormed(k2, p2, s2);
      assert Encode(s1, Base32()) == a.secret[|a.secret| - SECRET_LENGTH..];
      assert Encode(s2, Base32()) == b.secret[|b.secret| - SECRET_LENGTH..];
      EncodeIsInjective(p1, p2, Base32());
      EncodeIsInjective(s1, s2, Base32());
    }
  }

  // ---------------------------------------------------------------------------
  // The provider chain
  // ---------------------------------------------------------------------------

  /** strings.HasPrefix on the kind and its separator. */
  predicate Handles(kind: Kind, presented: string) {
    Prefix(kind) + "_" <= presented
  }

  lemma HandlesExactlyWhen(kind: Kind, presented: string)
    ensures Handles(kind, presented) <==> |presented| >= 4 && presented[..3] == Prefix(kind) && presented[3] == '_'
  {
    if |presented| >= 4 {
      assert presented[..4] == presented[..3] + [presented[3]];
    }
  }

  lemma AtMostOneHandles(a: Kind, b: Kind, presented: string)
    requires Handles(a, presented) && Handles(b, presented)
    ensures a == b
  {
    assert presented[..3] == Prefix(a) && presented[..3] == Prefix(b);
    PrefixesDiffer(a, b);
  }

  /** The provider that answers: the one of the credential's kind, if it is there. */
  ghost predicate Answers(providers: set<Kind>, presented: string, chosen: Option<Kind>) {
    match chosen
    case Some(k) => k in providers && Handles(k, presented)
    case None => forall k | k in providers :: !Handles(k, presented)
  }

  /** Chain.Authenticate's search: the first provider that handles the credential. */
  method Choose(providers: seq<Kind>, presented: string) returns (chosen: Option<Kind>)
    ensures Answers((set k | k in providers), presented, chosen)
  {
    for i := 0 to |providers|
      invariant forall j | 0 <= j < i :: !Handles(providers[j], presented)
    {
      if Handles(providers[i], presented) {
        return Some(providers[i]);
      }
    }
    chosen := None;
  }

  /** Which provider answers depends on which are in the chain, not on their order. */
  lemma ChainOrderIsIrrelevant(providers: set<Kind>, presented: string, a: Option<Kind>, b: Option<Kind>)
    requires Answers(providers, presented, a) && Answers(providers, presented, b)
    ensures a == b
  {
    if a.Some? && b.Some? {
      AtMostOneHandles(a.value, b.value, presented);
    }
  }

  lemma MintedIsHandledByItsKind(kind: Kind, publicRaw: seq<Byte>, secretRaw: seq<Byte>, k: Kind)
    requires |publicRaw| == PUBLIC_ID_BYTES && |secretRaw| == SECRET_BYTES
    ensures Handles(k, Mint(kind, publicRaw, secretRaw).secret) <==> k == kind
  {
    AlphabetsAreValid();
    var s := Mint(kind, publicRaw, secretRaw).secret;
    assert s[..4] == Prefix(kind) + "_";
    if Handles(k, s) {
      AtMostOneHandles(k, kind, s);
    }
  }
}

/** Recovery codes, as displayed and as typed back. */
module RecoveryCodes {
  import opened Outcomes
  import opened Encodings

  const GROUP_SIZE := 5

  // Crockford's base32: digits and capitals, but no I, L, O or U.
  predicate IsSymbol(c: char) {
    '0' <= c <= '9' || ('A' <= c <= 'Z' && c != 'I' && c != 'L' && c != 'O' && c != 'U')
  }

  function Symbol(i: nat): (c: char)
    requires i < 32
    ensures IsSymbol(c)
  {
    if i < 10 then ('0' as int + i) as char
    else if i < 18 then ('A' as int + i - 10) as char
    else if i < 20 then ('J' as int + i - 18) as char
    else if i < 22 then ('M' as int + i - 20) as char
    else if i < 27 then ('P' as int + i - 22) as char
    else ('V' as int + i - 27) as char
  }

  // The alphabet as the source spells it.
  const ALPHABET: string := "0123456789ABCDEFGHJKMNPQRSTVWXYZ"

  lemma SymbolsAreTheAlphabet(i: nat)
    requires i < 32
    ensures |ALPHABET| == 32 && ALPHABET[i] == Symbol(i)
  {
  }

  function SymbolOf(b: Byte): (c: char)
    ensures IsSymbol(c)
  {
    Symbol(b % 32)
  }

  // ASCII only.
  function Upper(c: char): char {
    if 'a' <= c <= 'z' then (c as int - 32) as char else c
  }

  function Code(raw: seq<Byte>): (s: string)
    ensures |s| == |raw| && forall i | 0 <= i < |s| :: IsSymbol(s[i])
  {
    seq(|raw|, i requires 0 <= i < |raw| => SymbolOf(raw[i]))
  }

  function Normalized(s: string): string {
    if s == "" then ""
    else
      var before := Normalized(s[..|s| - 1]);
      if IsSymbol(Upper(s[|s| - 1])) then before + [Upper(s[|s| - 1])] else before
  }

  function Grouped(code: string): string {
    if code == "" then ""
    else
      var n := |code| - 1;
      Grouped(code[..n]) + (if n > 0 && n % GROUP_SIZE == 0 then "-" else "") + [code[n]]
  }

  /** newRecoveryCode, of the bytes the random source gave. */
  method NewRecoveryCode(raw: seq<Byte>) returns (shown: string)
    ensures shown == Grouped(Code(raw))
  {
    shown := "";
    for i := 0 to |raw|
      invariant shown == Grouped(Code(raw[..i]))
    {
      assert Code(raw[..i + 1])[..i] == Code(raw[..i]);
      if i > 0 && i % GROUP_SIZE == 0 {
        shown := shown + "-";
      }
      SymbolsAreTheAlphabet(raw[i] % 32);
      shown := shown + [ALPHABET[raw[i] % 32]];
    }
    assert raw[..|raw|] == raw;
  }

  /** NormalizeRecoveryCode. Trimming drops nothing that the filter would keep. */
  method NormalizeRecoveryCode(presented: string) returns (code: string)
    ensures code == Normalized(presented)
    ensures forall i | 0 <= i < |code| :: IsSymbol(code[i])
  {
    code := "";
    for i := 0 to |presented|
      invariant code == Normalized(presented[..i])
      invariant forall j | 0 <= j < |code| :: IsSymbol(code[j])
    {
      assert presented[..i + 1][..i] == presented[..i];
      var c := Upper(presented[i]);
      if IsSymbol(c) {
        code := code + [c];
      }
    }
    assert presented[..|presented|] == presented;
  }

  /** t is a retyping of the code: its symbols in order, each in either case, with
      anything else in between. */
  ghost predicate Retyped(t: string, code: string) {
    if t == "" then code == ""
    else
      var n := |t| - 1;
      if IsSymbol(Upper(t[n])) then code != "" && code[|code| - 1] == Upper(t[n]) && Retyped(t[..n], code[..|code| - 1])
      else Retyped(t[..n], code)
  }

  /** Normalizing forgets case and separators, and nothing else. */
  lemma {:induction false} NormalizingUndoesRetyping(t: string, code: string)
    ensures Normalized(t) == code <==> Retyped(t, code)
    decreases |t|
  {
    if t != "" {
      var n := |t| - 1;
      if IsSymbol(Upper(t[n])) {
        if code != "" {
          NormalizingUndoesRetyping(t[..n], code[..|code| - 1]);
          assert code == code[..|code| - 1] + [code[|code| - 1]];
        }
      } else {
        NormalizingUndoesRetyping(t[..n], code);
      }
    }
  }

  /** Which characters a symbol may be typed as: itself or, for a letter, its small form. */
  lemma TypedAs(c: char, symbol: char)
    ensures IsSymbol(Upper(c)) && Upper(c) == symbol <==>
      IsSymbol(symbol) && (c == symbol || ('A' <= symbol && c as int - 'a' as int == symbol as int - 'A' as int))
  {
  }

  lemma SymbolsByLetter(c: char)
    ensures IsSymbol(c) <==> c in ALPHABET
  {
    if IsSymbol(c) {
      var k := IndexOfSymbol(c);
      SymbolsAreTheAlphabet(k);
    }
    if k :| 0 <= k < 32 && ALPHABET[k] == c {
      SymbolsAreTheAlphabet(k);
    }
  }

  lemma {:induction false} NormalizedSymbols(code: string)
    requires forall i | 0 <= i < |code| :: IsSymbol(code[i])
    ensures Normalized(code) == code
  {
    if code != "" {
      var n := |code| - 1;
      NormalizedSymbols(code[..n]);
      assert Upper(code[n]) == code[n];
      assert code == code[..n] + [code[n]];
    }
  }

  /** The code as displayed: each byte's symbol of the alphabet, with a hyphen after every
      five of them but none at either end. */
  lemma {:induction false} DisplayedByPosition(raw: seq<Byte>)
    ensures var shown := Grouped(Code(raw));
      && |shown| == (if raw == [] then 0 else |raw| + (|raw| - 1) / 5)
      && forall k | 0 <= k < |shown| :: shown[k] == if k % 6 == 5 then '-' else "0123456789ABCDEFGHJKMNPQRSTVWXYZ"[raw[k - k / 6] % 32]
  {
    if raw != [] {
      var n := |raw| - 1;
      DisplayedByPosition(raw[..n]);
      assert Code(raw)[..n] == Code(raw[..n]);
      SymbolsAreTheAlphabet(raw[n] % 32);
      assert Code(raw)[n] == ALPHABET[raw[n] % 32];
      var shown, before := Grouped(Code(raw)), Grouped(Code(raw[..n]));
      LastPosition(n);
      forall k | 0 <= k < |shown|
        ensures shown[k] == if k % 6 == 5 then '-' else ALPHABET[raw[k - k / 6] % 32]
      {
        assert k < |before| ==> shown[k] == before[k];
      }
    }
  }

  /** Where the symbol after n others stands. */
  lemma LastPosition(n: nat)
    ensures var before := if n == 0 then 0 else n + (n - 1) / 5;
      && (n > 0 && n % 5 == 0 ==> before % 6 == 5 && (before + 1) % 6 == 0 && before + 1 - (before + 1) / 6 == n)
      && (n == 0 || n % 5 != 0 ==> before % 6 != 5 && before - before / 6 == n)
      && n + n / 5 == (if n > 0 && n % 5 == 0 then before + 1 else before)
  {
    var q, r := n / 5, n % 5;
    assert n == 5 * q + r;
  }

  lemma NormalizedAppends(s: string, c: char)
    ensures Normalized(s + [c]) == if IsSymbol(Upper(c)) then Normalized(s) + [Upper(c)] else Normalized(s)
  {
    assert (s + [c])[..|s|] == s;
  }

  lemma {:induction false} GroupingIsForgotten(code: string)
    requires forall i | 0 <= i < |code| :: IsSymbol(code[i])
    ensures Normalized(Grouped(code)) == code
  {
    hide Normalized;
    if code == "" {
      assert Normalized("") == "" by { NormalizedSymbols(""); }
    } else {
      var n := |code| - 1;
      var before := Grouped(code[..n]);
      GroupingIsForgotten(code[..n]);
      NormalizedAppends(before, '-');
      NormalizedAppends(before, code[n]);
      NormalizedAppends(before + ['-'], code[n]);
      assert Upper(code[n]) == code[n];
      assert code == code[..n] + [code[n]];
      assert before + "" + [code[n]] == before + [code[n]];
    }
  }

  lemma {:induction false} NormalizedIsSymbols(t: string)
    ensures forall i | 0 <= i < |Normalized(t)| :: IsSymbol(Normalized(t)[i])
  {
    if t != "" {
      NormalizedIsSymbols(t[..|t| - 1]);
    }
  }

  /** A displayed code normalizes to its symbols, and normalizing twice is normalizing once. */
  lemma DisplayedCodeNormalizes(raw: seq<Byte>, t: string)
    ensures Normalized(Grouped(Code(raw))) == Code(raw)
    ensures Normalized(Normalized(t)) == Normalized(t)
  {
    GroupingIsForgotten(Code(raw));
    NormalizedIsSymbols(t);
    NormalizedSymbols(Normalized(t));
  }

  lemma {:induction false} Consecutive(from: nat, n: nat) returns (s: set<Byte>)
    requires from < 32 && n <= 8
    ensures s == set b: Byte | b < 32 * n && b % 32 == from
    ensures |s| == n
  {
    s := {};
    if n > 0 {
      var before := Consecutive(from, n - 1);
      var b: Byte := 32 * (n - 1) + from;
      assert b % 32 == from;
      s := before + {b};
      forall x: Byte ensures x in s <==> x < 32 * n && x % 32 == from {
        if 32 * (n - 1) <= x < 32 * n && x % 32 == from {
          assert x == b;
        }
      }
    }
  }

  lemma SymbolsDiffer(i: nat, j: nat)
    requires i < 32 && j < 32 && Symbol(i) == Symbol(j)
    ensures i == j
  {
  }

  lemma IndexOfSymbol(c: char) returns (k: nat)
    requires IsSymbol(c)
    ensures k < 32 && Symbol(k) == c
  {
    var n := c as int;
    k := if c <= '9' then n - '0' as int
      else if c <= 'H' then n - 'A' as int + 10
      else if c <= 'K' then n - 'J' as int + 18
      else if c <= 'N' then n - 'M' as int + 20
      else if c <= 'T' then n - 'P' as int + 22
      else n - 'V' as int + 27;
  }

  /** Every symbol comes from exactly eight of the 256 byte values. */
  lemma SymbolsAreEquallyLikely(c: char)
    requires IsSymbol(c)
    ensures |set b: Byte | SymbolOf(b) == c| == 8
  {
    var k := IndexOfSymbol(c);
    var s := Consecutive(k, 8);
    forall b: Byte ensures SymbolOf(b) == c <==> b in s {
      if SymbolOf(b) == c {
        SymbolsDiffer(b % 32, k);
      }
    }
    assert (set b: Byte | SymbolOf(b) == c) == s;
  }
}

/** internal/credential/password.go: the PHC string of an Argon2id hash. */
module PasswordHashes {
  import opened Outcomes
  import opened Text
  import opened Encodings

  const VERSION := 19
  const MEMORY := 65536
  const TIME := 3
  const THREADS := 2
  const KEY_LENGTH := 32
  const MAX_UINT32 := 0xFFFF_FFFF

  datatype Params = Params(memory: nat, time: nat, threads: nat)

  datatype Decoded = Decoded(params: Params, salt: seq<Byte>, key: seq<Byte>)

  datatype Invalid = InvalidPasswordHash

  // Password, salt, parameters, key length.
  type Derivation = (string, seq<Byte>, Params, nat) -> seq<Byte>

  function Fields(p: Params): string {
    "m=" + Decimal(p.memory) + ",t=" + Decimal(p.time) + ",p=" + Decimal(p.threads)
  }

  /** Six fields joined by dollar signs, the first of them empty. */
  function Encoded(p: Params, salt: seq<Byte>, key: seq<Byte>): string {
    AlphabetsAreValid();
    Join(["", "argon2id", "v=" + Decimal(VERSION), Fields(p), Encode(salt, Base64()), Encode(key, Base64())], '$')
  }

  function HashPassword(derive: Derivation, password: string, salt: seq<Byte>): string {
    var p := Params(MEMORY, TIME, THREADS);
    Encoded(p, salt, derive(password, salt, p, KEY_LENGTH))
  }

  /** A literal and then a number, as the scanner reads them: what follows the digits
      is left for the caller, and a number past the limit is an error. */
  function ScanNumber(s: string, literal: string, limit: nat): Option<(nat, string)> {
    if !(literal <= s) then None
    else
      var rest := s[|literal|..];
      var n := DigitSpan(rest);
      if n == 0 || Value(rest[..n]) > limit then None else Some((Value(rest[..n]), rest[n..]))
  }

  function DecodeFields(s: string): Option<Params> {
    match ScanNumber(s, "m=", MAX_UINT32)
    case None => None
    case Some((memory, s1)) =>
      match ScanNumber(s1, ",t=", MAX_UINT32)
      case None => None
      case Some((time, s2)) =>
        match ScanNumber(s2, ",p=", 255)
        case None => None
        case Some((threads, _)) => Some(Params(memory, time, threads))
  }

  /** The base64 decoder skips line breaks, and refuses a lone last symbol. */
  function WithoutBreaks(s: string): string {
    if s == "" then ""
    else if s[0] == '\r' || s[0] == '\n' then WithoutBreaks(s[1..])
    else [s[0]] + WithoutBreaks(s[1..])
  }

  function DecodeString(s: string): Option<seq<Byte>> {
    AlphabetsAreValid();
    var text := WithoutBreaks(s);
    if |text| % 4 == 1 then None else Decode(text, Base64())
  }

  function DecodePHC(encoded: string): Result<Decoded, Invalid> {
    AlphabetsAreValid();
    var parts := Split(encoded, '$');
    if |parts| != 6 || parts[0] != "" || parts[1] != "argon2id" then Err(InvalidPasswordHash)
    else
      var version := ScanNumber(parts[2], "v=", 0x7FFF_FFFF_FFFF_FFFF);
      var fields := DecodeFields(parts[3]);
      if version.None? || version.value.0 != VERSION || fields.None? then Err(InvalidPasswordHash)
      else if fields.value.memory == 0 || fields.value.time == 0 || fields.value.threads == 0 then Err(InvalidPasswordHash)
      else
        var salt := DecodeString(parts[4]);
        var key := DecodeString(parts[5]);
        if salt.None? || key.None? || key.value == [] then Err(InvalidPasswordHash)
        else Ok(Decoded(fields.value, salt.value, key.value))
  }

  function VerifyPassword(derive: Derivation, password: string, encoded: string): Result<bool, Invalid> {
    match DecodePHC(encoded)
    case Err(e) => Err(e)
    case Ok(d) => Ok(derive(password, d.salt, d.params, |d.key|) == d.key)
  }

  predicate NeedsRehash(encoded: string) {
    match DecodePHC(encoded)
    case Err(_) => true
    case Ok(d) => d.params.memory < MEMORY || d.params.time < TIME
  }

  lemma ScanReadsDecimal(literal: string, n: nat, rest: string, limit: nat)
    requires n <= limit && (rest == "" || !IsDigit(rest[0]))
    ensures ScanNumber(literal + Decimal(n) + rest, literal, limit) == Some((n, rest))
  {
    var s := literal + Decimal(n) + rest;
    assert s[|literal|..] == Decimal(n) + rest;
    DigitsThenRest(Decimal(n), rest);
    assert (Decimal(n) + rest)[..|Decimal(n)|] == Decimal(n);
    ValueOfDecimal(n);
  }

  lemma DigitsThenRest(d: string, rest: string)
    requires AllDigits(d) && (rest == "" || !IsDigit(rest[0]))
    ensures DigitSpan(d + rest) == |d|
  {
    if rest == "" {
      assert d + rest == d;
      AllOfIt(d);
    } else {
      DigitSpanStops(d, rest);
    }
  }

  lemma {:induction false} AllOfIt(d: string)
    requires AllDigits(d)
    ensures DigitSpan(d) == |d|
  {
    if d != "" {
      AllOfIt(d[1..]);
    }
  }

  predicate InRange(p: Params) {
    0 < p.memory <= MAX_UINT32 && 0 < p.time <= MAX_UINT32 && 0 < p.threads <= 255
  }

  lemma FieldsComeBack(p: Params)
    requires InRange(p)
    ensures DecodeFields(Fields(p)) == Some(p)
  {
    hide ScanNumber;
    var threads := ",p=" + Decimal(p.threads);
    var time := ",t=" + Decimal(p.time) + threads;
    assert Fields(p) == "m=" + Decimal(p.memory) + time;
    ScanReadsDecimal("m=", p.memory, time, MAX_UINT32);
    ScanReadsDecimal(",t=", p.time, threads, MAX_UINT32);
    assert threads == ",p=" + Decimal(p.threads) + "";
    ScanReadsDecimal(",p=", p.threads, "", 255);
  }

  lemma NoDollarInDecimal(n: nat)
    ensures '$' !in Decimal(n)
  {
  }

  lemma NoDollarInFields(p: Params)
    ensures '$' !in Fields(p)
  {
    NoDollarInDecimal(p.memory);
    NoDollarInDecimal(p.time);
    NoDollarInDecimal(p.threads);
  }

  lemma NoDollarIn64(bytes: seq<Byte>)
    ensures Base64().Valid() && '$' !in Encode(bytes, Base64())
  {
    AlphabetsAreValid();
    var s := Encode(bytes, Base64());
    assert forall i | 0 <= i < |s| :: s[i] in Base64().symbols;
  }

  lemma {:induction false} NothingToSkip(s: string)
    requires '\r' !in s && '\n' !in s
    ensures WithoutBreaks(s) == s
  {
    if s != "" {
      NothingToSkip(s[1..]);
      assert s == [s[0]] + s[1..];
    }
  }

  lemma {:induction false} NeverALoneSymbol(n: nat)
    ensures Groups(8 * n, 6) % 4 != 1
  {
    if n >= 3 {
      NeverALoneSymbol(n - 3);
      assert Groups(8 * n, 6) == 1 + Groups(8 * n - 6, 6);
      assert Groups(8 * n - 6, 6) == 1 + Groups(8 * n - 12, 6);
      assert Groups(8 * n - 12, 6) == 1 + Groups(8 * n - 18, 6);
      assert n > 3 ==> Groups(8 * n - 18, 6) == 1 + Groups(8 * (n - 3), 6);
    } else if n == 2 {
      assert Groups(16, 6) == 1 + Groups(10, 6) == 2 + Groups(4, 6);
    }
  }

  lemma DecodeStringInvertsEncode(bytes: seq<Byte>)
    ensures Base64().Valid() && DecodeString(Encode(bytes, Base64())) == Some(bytes)
  {
    AlphabetsAreValid();
    var s := Encode(bytes, Base64());
    assert forall i | 0 <= i < |s| :: s[i] in Base64().symbols;
    assert '\r' !in Base64().symbols && '\n' !in Base64().symbols;
    NothingToSkip(s);
    NeverALoneSymbol(|bytes|);
    DecodeInvertsEncode(bytes, Base64());
  }

  /** Decoding undoes the encoding, for any parameters in range, any salt, and any key
      but the empty one. */
  lemma DecodeInvertsEncoded(p: Params, salt: seq<Byte>, key: seq<Byte>)
    requires InRange(p) && key != []
    ensures DecodePHC(Encoded(p, salt, key)) == Ok(Decoded(p, salt, key))
  {
    hide Split, Join, ScanNumber, DecodeFields, DecodeString, Encode;
    AlphabetsAreValid();
    var version := "v=" + Decimal(VERSION);
    NoDollarInDecimal(VERSION);
    NoDollarInFields(p);
    NoDollarIn64(salt);
    NoDollarIn64(key);
    SplitInvertsJoin(["", "argon2id", version, Fields(p), Encode(salt, Base64()), Encode(key, Base64())], '$');
    assert version == "v=" + Decimal(VERSION) + "";
    ScanReadsDecimal("v=", VERSION, "", 0x7FFF_FFFF_FFFF_FFFF);
    FieldsComeBack(p);
    DecodeStringInvertsEncode(salt);
    DecodeStringInvertsEncode(key);
  }

  /** A password verifies against a stored hash exactly when it derives the same key,
      and a hash just made is never due for an upgrade. */
  lemma StoredHashVerifies(derive: Derivation, password: string, salt: seq<Byte>, attempt: string)
    requires |derive(password, salt, Params(MEMORY, TIME, THREADS), KEY_LENGTH)| == KEY_LENGTH
    ensures var p := Params(MEMORY, TIME, THREADS);
      VerifyPassword(derive, attempt, HashPassword(derive, password, salt)) ==
      Ok(derive(attempt, salt, p, KEY_LENGTH) == derive(password, salt, p, KEY_LENGTH))
    ensures !NeedsRehash(HashPassword(derive, password, salt))
  {
    hide DecodePHC, Encoded;
    var p := Params(MEMORY, TIME, THREADS);
    DecodeInvertsEncoded(p, salt, derive(password, salt, p, KEY_LENGTH));
  }

  /** The stored text of a fresh hash. */
  lemma StoredHashText(derive: Derivation, password: string, salt: seq<Byte>)
    ensures Base64().Valid()
    ensures HashPassword(derive, password, salt) ==
      "$argon2id$v=19$m=65536,t=3,p=2$" + Encode(salt, Base64()) + "$" + Encode(derive(password, salt, Params(65536, 3, 2), 32), Base64())
  {
    AlphabetsAreValid();
    var a, b := Encode(salt, Base64()), Encode(derive(password, salt, Params(65536, 3, 2), 32), Base64());
    hide Encode, Base64;
    hide Fields, Decimal, Join;
    FieldsInTheText();
    JoinOfSix("", "argon2id", "v=19", "m=65536,t=3,p=2", a, b);
    HeadOfTheText();
  }

  lemma FieldsInTheText()
    ensures Fields(Params(65536, 3, 2)) == "m=65536,t=3,p=2" && "v=" + Decimal(19) == "v=19"
  {
    NumbersInTheText();
    hide Decimal;
  }

  lemma HeadOfTheText()
    ensures "" + "$" + "argon2id" + "$" + "v=19" + "$" + "m=65536,t=3,p=2" + "$" == "$argon2id$v=19$m=65536,t=3,p=2$"
  {
  }

  lemma NumbersInTheText()
    ensures Decimal(19) == "19" && Decimal(3) == "3" && Decimal(2) == "2" && Decimal(65536) == "65536"
  {
    assert Decimal(1) == "1" && Decimal(6) == "6";
    assert Decimal(19) == Decimal(1) + [Digit(9)];
    assert Decimal(65) == Decimal(6) + [Digit(5)];
    assert Decimal(655) == Decimal(65) + [Digit(5)];
    assert Decimal(6553) == Decimal(655) + [Digit(3)];
    assert Decimal(65536) == Decimal(6553) + [Digit(6)];
  }

  lemma JoinOfSix(a: string, b: string, c: string, d: string, e: string, f: string)
    ensures Join([a, b, c, d, e, f], '$') == (a + "$" + b + "$" + c + "$" + d + "$") + e + "$" + f
  {
    JoinOne(e, [f]);
    JoinOne(d, [e, f]);
    JoinOne(c, [d, e, f]);
    JoinOne(b, [c, d, e, f]);
    JoinOne(a, [b, c, d, e, f]);
    assert [e] + [f] == [e, f] && [d] + [e, f] == [d, e, f] && [c] + [d, e, f] == [c, d, e, f];
    assert [b] + [c, d, e, f] == [b, c, d, e, f] && [a] + [b, c, d, e, f] == [a, b, c, d, e, f];
  }

  lemma JoinOne(a: string, rest: seq<string>)
    requires rest != []
    ensures Join([a] + rest, '$') == a + "$" + Join(rest, '$')
  {
    assert ([a] + rest)[1..] == rest;
  }

  predicate IsScan(s: string, literal: string, digits: string, n: nat, rest: string) {
    && s == literal + digits + rest && digits != "" && AllDigits(digits) && Value(digits) == n
    && (rest == "" || !IsDigit(rest[0]))
  }

  /** A literal, digits, and then something that is not one: the scanner reads exactly
      that, where the number is within the limit. */
  lemma ScansExactlyWhen(s: string, literal: string, limit: nat, n: nat, rest: string)
    ensures ScanNumber(s, literal, limit) == Some((n, rest)) <==>
      n <= limit && exists digits :: IsScan(s, literal, digits, n, rest)
  {
    if digits :| IsScan(s, literal, digits, n, rest) {
      assert s[|literal|..] == digits + rest;
      DigitsThenRest(digits, rest);
      assert (digits + rest)[..|digits|] == digits && (digits + rest)[|digits|..] == rest;
    }
    if ScanNumber(s, literal, limit) == Some((n, rest)) {
      var tail := s[|literal|..];
      var digits := tail[..DigitSpan(tail)];
      assert s == literal + digits + rest;
      assert rest != "" ==> rest[0] == tail[|digits|];
      assert IsScan(s, literal, digits, n, rest);
    }
  }

  /** The text is a PHC string of these contents exactly when it has six fields, the first
      empty, the second argon2id, the third version 19, the fourth three positive numbers
      in range, and the last two base64 of the salt and of a key that is not empty. */
  lemma DecodesExactlyWhen(encoded: string, d: Decoded)
    ensures DecodePHC(encoded) == Ok(d) <==>
      var parts := Split(encoded, '$');
      && |parts| == 6 && parts[0] == "" && parts[1] == "argon2id"
      && (exists rest :: ScanNumber(parts[2], "v=", 0x7FFF_FFFF_FFFF_FFFF) == Some((19, rest)))
      && DecodeFields(parts[3]) == Some(d.params) && d.params.memory > 0 && d.params.time > 0 && d.params.threads > 0
      && DecodeString(parts[4]) == Some(d.salt) && DecodeString(parts[5]) == Some(d.key) && d.key != []
  {
    hide Split, ScanNumber, DecodeFields, DecodeString;
  }

  /** Whatever parameters a hash was made under, a password verifies against it exactly
      when it derives the same key under them; and it is due for an upgrade exactly when
      its memory or its time is below today's. */
  lemma OlderHashVerifies(derive: Derivation, p: Params, salt: seq<Byte>, key: seq<Byte>, attempt: string)
    requires InRange(p) && key != []
    ensures VerifyPassword(derive, attempt, Encoded(p, salt, key)) == Ok(derive(attempt, salt, p, |key|) == key)
    ensures NeedsRehash(Encoded(p, salt, key)) <==> p.memory < 65536 || p.time < 3
  {
    hide DecodePHC, Encoded;
    DecodeInvertsEncoded(p, salt, key);
  }

  lemma UnreadableIsDue(encoded: string)
    requires DecodePHC(encoded).Err?
    ensures NeedsRehash(encoded)
  {
    hide DecodePHC;
  }

  // ---------------------------------------------------------------------------
  // Changing a password
  // ---------------------------------------------------------------------------

  const MIN_PASSWORD := 12
  const MAX_PASSWORD := 256

  datatype ChangeOutcome = Validation | UserNotFound | Internal | IncorrectPassword | PasswordChanged

  /** GetUser: the row without its hash, which keeps the zero string. */
  function GetUser(hashes: map<nat, string>, id: nat): Option<string> {
    if id in hashes then Some("") else None
  }

  /** handleChangePassword, on the stored hashes of all users. */
  function ChangePassword(derive: Derivation, hashes: map<nat, string>, id: nat, current: string, next: string, salt: seq<Byte>)
    : (map<nat, string>, ChangeOutcome)
  {
    if |next| < MIN_PASSWORD || |next| > MAX_PASSWORD then (hashes, Validation)
    else
      match GetUser(hashes, id)
      case None => (hashes, UserNotFound)
      case Some(hash) =>
        match VerifyPassword(derive, current, hash)
        case Err(_) => (hashes, Internal)
        case Ok(valid) =>
          if valid then (hashes[id := HashPassword(derive, next, salt)], PasswordChanged) else (hashes, IncorrectPassword)
  }

  /** No password is ever changed this way, and the current one is never found to be
      right or wrong: an acceptable request for a known user always ends in an internal
      error, also where the stored hash verifies the password given as the current one. */
  lemma ChangingAPasswordAlwaysFails(derive: Derivation, hashes: map<nat, string>, id: nat, current: string, next: string, salt: seq<Byte>)
    ensures ChangePassword(derive, hashes, id, current, next, salt) ==
      (hashes, if |next| < 12 || |next| > 256 then Validation else if id !in hashes then UserNotFound else Internal)
  {
    hide DecodeFields, DecodeString, ScanNumber;
    assert Split("", '$') == [""];
    assert DecodePHC("").Err?;
  }
}
