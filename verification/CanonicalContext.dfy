/** internal/crypto/context.go: the encryption context and its serialization as
    additional authenticated data, with a decoder that inverts it. */
module CanonicalContext {
  import opened Outcomes
  import opened Domain
  import opened Text

  datatype EncryptionContext = EncryptionContext(
    organizationId: Uuid, projectId: Uuid, environmentId: Uuid, secretId: Uuid, version: int)
  {
    predicate Valid() {
      organizationId != NIL && projectId != NIL && environmentId != NIL && secretId != NIL && version > 0
    }

    function Map(): map<string, string>
      requires Valid()
    {
      map["org" := UuidString(organizationId),
          "project" := UuidString(projectId),
          "env" := UuidString(environmentId),
          "secret" := UuidString(secretId),
          "version" := Decimal(version)]
    }
  }

  lemma MapIsInjective(a: EncryptionContext, b: EncryptionContext)
    requires a.Valid() && b.Valid()
    requires a.Map() == b.Map()
    ensures a == b
  {
    var m, n := a.Map(), b.Map();
    assert m["org"] == n["org"] && m["project"] == n["project"] && m["env"] == n["env"];
    assert m["secret"] == n["secret"] && m["version"] == n["version"];
    UuidStringIsInjective(a.organizationId, b.organizationId);
    UuidStringIsInjective(a.projectId, b.projectId);
    UuidStringIsInjective(a.environmentId, b.environmentId);
    UuidStringIsInjective(a.secretId, b.secretId);
    DecimalIsInjective(a.version, b.version);
  }

  // ---------------------------------------------------------------------------
  // Serialization
  // ---------------------------------------------------------------------------

  // A length-prefixed field closed by a separator.
  function Field(content: string, close: char): string {
    Decimal(|content|) + ":" + content + [close]
  }

  function Entry(k: string, v: string): string {
    Field(k, '=') + Field(v, ';')
  }

  function Render(keys: seq<string>, m: map<string, string>): string
    requires forall k | k in keys :: k in m
  {
    if keys == [] then "" else Entry(keys[0], m[keys[0]]) + Render(keys[1..], m)
  }

  /** The canonical bytes of a context map. */
  function Canonical(m: map<string, string>): string {
    Render(Sorted(m.Keys), m)
  }

  lemma {:induction false} RenderSnoc(keys: seq<string>, k: string, m: map<string, string>)
    requires forall x | x in keys + [k] :: x in m
    ensures Render(keys + [k], m) == Render(keys, m) + Entry(k, m[k])
  {
    if keys == [] {
      assert Render([k][1..], m) == "";
    } else {
      assert (keys + [k])[1..] == keys[1..] + [k];
      RenderSnoc(keys[1..], k, m);
      Associative(Entry(keys[0], m[keys[0]]), Render(keys[1..], m), Entry(k, m[k]));
    }
  }

  /** canonicalContext: collect the keys in whatever order the map yields them,
      sort them, and append one entry per key. */
  method CanonicalBytes(m: map<string, string>) returns (out: string)
    ensures out == Canonical(m)
  {
    var keys: seq<string> := [];
    var todo := m.Keys;
    while todo != {}
      invariant todo <= m.Keys && Elements(keys) == m.Keys - todo
      invariant forall i, j | 0 <= i < j < |keys| :: keys[i] != keys[j]
      decreases todo
    {
      var k :| k in todo;
      assert k !in Elements(keys);
      assert Elements(keys + [k]) == Elements(keys) + {k};
      keys := keys + [k];
      todo := todo - {k};
    }
    var sorted := SortStrings(keys);
    AscendingIsUnique(sorted, Sorted(m.Keys));
    out := "";
    for i := 0 to |sorted|
      invariant forall k | k in sorted :: k in Elements(sorted)
      invariant out == Render(sorted[..i], m)
    {
      assert sorted[..i + 1] == sorted[..i] + [sorted[i]];
      RenderSnoc(sorted[..i], sorted[i], m);
      out := out + Entry(sorted[i], m[sorted[i]]);
    }
    assert sorted[..|sorted|] == sorted;
  }

  // ---------------------------------------------------------------------------
  // The decoder
  // ---------------------------------------------------------------------------

  /** Reads `<n>:<n bytes><close>` from the front of s. */
  function TakeField(s: string, close: char): (r: Option<(string, string)>)
    ensures r.Some? ==> |r.value.1| < |s|
  {
    var d := DigitSpan(s);
    var n := Value(s[..d]);
    if d == 0 || d == |s| || s[d] != ':' then None
    else if |s| - d - 1 <= n || s[d + 1 + n] != close then None
    else Some((s[d + 1..d + 1 + n], s[d + 2 + n..]))
  }

  function Decode(s: string): Option<map<string, string>> {
    if s == "" then Some(map[])
    else
      match TakeField(s, '=')
      case None => None
      case Some((k, afterKey)) =>
        match TakeField(afterKey, ';')
        case None => None
        case Some((v, rest)) =>
          match Decode(rest)
          case None => None
          case Some(m) => Some(m[k := v])
  }

  lemma TakeFieldInverts(content: string, close: char, rest: string)
    ensures TakeField(Field(content, close) + rest, close) == Some((content, rest))
  {
    var d := Decimal(|content|);
    var tail := ":" + content + [close] + rest;
    var s := Field(content, close) + rest;
    assert s == d + tail;
    DigitSpanStops(d, tail);
    assert s[..|d|] == d;
    ValueOfDecimal(|content|);
    assert s[|d|] == ':';
    assert s[|d| + 1..|d| + 1 + |content|] == content;
    assert s[|d| + 1 + |content|] == close;
    assert s[|d| + 2 + |content|..] == rest;
  }

  lemma DecodeStep(s: string, k: string, afterKey: string, v: string, rest: string)
    requires TakeField(s, '=') == Some((k, afterKey)) && TakeField(afterKey, ';') == Some((v, rest))
    requires Decode(rest).Some?
    ensures Decode(s) == Some(Decode(rest).value[k := v])
  {
  }

  lemma Associative(a: string, b: string, c: string)
    ensures (a + b) + c == a + (b + c)
  {
  }

  lemma DecodeEntry(k: string, v: string, rest: string)
    requires Decode(rest).Some?
    ensures Decode(Entry(k, v) + rest) == Some(Decode(rest).value[k := v])
  {
    var first, second := Field(k, '='), Field(v, ';');
    var afterKey := second + rest;
    Associative(first, second, rest);
    TakeFieldInverts(k, '=', afterKey);
    TakeFieldInverts(v, ';', rest);
    DecodeStep(first + afterKey, k, afterKey, v, rest);
  }

  ghost function Restrict(keys: seq<string>, m: map<string, string>): map<string, string>
    requires forall k | k in keys :: k in m
  {
    map k | k in keys :: m[k]
  }

  lemma RestrictCons(keys: seq<string>, m: map<string, string>)
    requires keys != [] && forall k | k in keys :: k in m
    ensures Restrict(keys, m) == Restrict(keys[1..], m)[keys[0] := m[keys[0]]]
  {
    assert keys == [keys[0]] + keys[1..];
  }

  lemma {:induction false} DecodeInvertsRender(keys: seq<string>, m: map<string, string>)
    requires forall k | k in keys :: k in m
    ensures Decode(Render(keys, m)) == Some(Restrict(keys, m))
  {
    if keys == [] {
      assert Restrict(keys, m) == map[];
    } else {
      DecodeInvertsRender(keys[1..], m);
      DecodeEntry(keys[0], m[keys[0]], Render(keys[1..], m));
      RestrictCons(keys, m);
    }
  }

  /** The decoder is a left inverse of the encoding on every string map. */
  lemma DecodeInvertsCanonical(m: map<string, string>)
    ensures Decode(Canonical(m)) == Some(m)
  {
    var keys := Sorted(m.Keys);
    assert forall k :: k in keys <==> k in Elements(keys);
    DecodeInvertsRender(keys, m);
    assert Restrict(keys, m) == m;
  }

  /** No two maps share an encoding, whatever bytes their keys and values hold. */
  lemma CanonicalIsInjective(a: map<string, string>, b: map<string, string>)
    ensures Canonical(a) == Canonical(b) <==> a == b
  {
    DecodeInvertsCanonical(a);
    DecodeInvertsCanonical(b);
  }

  /** Two valid contexts authenticate the same bytes only when all five components agree. */
  lemma ContextBytesAreInjective(a: EncryptionContext, b: EncryptionContext)
    requires a.Valid() && b.Valid()
    ensures Canonical(a.Map()) == Canonical(b.Map()) <==> a == b
  {
    CanonicalIsInjective(a.Map(), b.Map());
    if a.Map() == b.Map() {
      MapIsInjective(a, b);
    }
  }

  lemma ContextKeysAscend()
    ensures Ascending(["env", "org", "project", "secret", "version"])
  {
    assert Before("env", "org") && Before("org", "project") && Before("project", "secret") && Before("secret", "version");
    hide Before;
    BeforeIsTransitive("env", "org", "project");
    BeforeIsTransitive("org", "project", "secret");
    BeforeIsTransitive("project", "secret", "version");
    BeforeIsTransitive("env", "project", "secret");
    BeforeIsTransitive("env", "secret", "version");
    BeforeIsTransitive("org", "secret", "version");
  }

  lemma ContextKeysInOrder(m: map<string, string>)
    requires m.Keys == {"org", "project", "env", "secret", "version"}
    ensures Sorted(m.Keys) == ["env", "org", "project", "secret", "version"]
  {
    hide Before, Ascending;
    var keys := ["env", "org", "project", "secret", "version"];
    ContextKeysAscend();
    assert forall k :: k in Elements(keys) <==> k in m.Keys;
    AscendingIsUnique(Sorted(m.Keys), keys);
  }

  lemma EntryText(k: string, v: string, head: string)
    requires head == Decimal(|k|) + ":" + k + "=" + Decimal(|v|) + ":"
    ensures Entry(k, v) == head + v + ";"
  {
    hide Decimal;
  }

  lemma LengthsOfFields()
    ensures Decimal(3) == "3" && Decimal(6) == "6" && Decimal(7) == "7" && Decimal(36) == "36"
  {
    assert Decimal(36) == Decimal(3) + [Digit(6)];
  }

  lemma RenderOne(k: string, rest: seq<string>, m: map<string, string>)
    requires k in m && forall x | x in rest :: x in m
    ensures Render([k] + rest, m) == Entry(k, m[k]) + Render(rest, m)
  {
    assert ([k] + rest)[1..] == rest;
  }

  lemma RenderFive(a: string, b: string, c: string, d: string, e: string, m: map<string, string>)
    requires a in m && b in m && c in m && d in m && e in m
    ensures Render([a, b, c, d, e], m) == Entry(a, m[a]) + (Entry(b, m[b]) + (Entry(c, m[c]) + (Entry(d, m[d]) + Entry(e, m[e]))))
  {
    hide Entry;
    assert Render([], m) == "";
    RenderOne(e, [], m);
    assert [e] + [] == [e] && Entry(e, m[e]) + "" == Entry(e, m[e]);
    RenderOne(d, [e], m);
    RenderOne(c, [d, e], m);
    RenderOne(b, [c, d, e], m);
    RenderOne(a, [b, c, d, e], m);
    assert [d] + [e] == [d, e] && [c] + [d, e] == [c, d, e] && [b] + [c, d, e] == [b, c, d, e] && [a] + [b, c, d, e] == [a, b, c, d, e];
  }

  lemma UuidEntry(k: string, u: Uuid, head: string)
    requires Decimal(|k|) + ":" + k + "=36:" == head
    ensures Entry(k, UuidString(u)) == head + UuidString(u) + ";"
  {
    LengthsOfFields();
    hide Decimal, UuidString, Entry;
    TailOf(Decimal(|k|) + ":" + k);
    EntryText(k, UuidString(u), head);
  }

  lemma TailOf(x: string)
    ensures x + "=" + "36" + ":" == x + "=36:"
  {
    assert "=" + "36" + ":" == "=36:";
    assert x + "=" + "36" + ":" == x + ("=" + "36" + ":");
  }

  lemma UuidEntries(ec: EncryptionContext)
    ensures Entry("env", UuidString(ec.environmentId)) == "3:env=36:" + UuidString(ec.environmentId) + ";"
    ensures Entry("org", UuidString(ec.organizationId)) == "3:org=36:" + UuidString(ec.organizationId) + ";"
    ensures Entry("project", UuidString(ec.projectId)) == "7:project=36:" + UuidString(ec.projectId) + ";"
    ensures Entry("secret", UuidString(ec.secretId)) == "6:secret=36:" + UuidString(ec.secretId) + ";"
  {
    hide Decimal, UuidString, Entry;
    LengthsOfFields();
    UuidEntry("env", ec.environmentId, "3:env=36:");
    UuidEntry("org", ec.organizationId, "3:org=36:");
    UuidEntry("project", ec.projectId, "7:project=36:");
    UuidEntry("secret", ec.secretId, "6:secret=36:");
  }

  lemma NamedEntry(k: string, v: string, name: string)
    requires Decimal(|k|) + ":" + k + "=" == name
    ensures Entry(k, v) == name + Decimal(|v|) + ":" + v + ";"
  {
    hide Decimal;
    EntryText(k, v, name + Decimal(|v|) + ":");
  }

  lemma VersionEntry(version: string)
    ensures Entry("version", version) == "7:version=" + Decimal(|version|) + ":" + version + ";"
  {
    hide Decimal, Entry;
    VersionHead();
    NamedEntry("version", version, "7:version=");
  }

  lemma VersionHead()
    ensures Decimal(|"version"|) + ":" + "version" + "=" == "7:version="
  {
    var seven := Decimal(7);
    assert seven == "7";
    hide Decimal;
    assert |"version"| == 7;
  }

  /** The bytes a ciphertext is bound to, in full: the five entries in the order of their
      names, each name and value preceded by its length. */
  lemma ContextBytes(ec: EncryptionContext)
    requires ec.Valid()
    ensures var version := Decimal(ec.version);
      Canonical(ec.Map()) ==
        ("3:env=36:" + UuidString(ec.environmentId) + ";") +
        (("3:org=36:" + UuidString(ec.organizationId) + ";") +
         (("7:project=36:" + UuidString(ec.projectId) + ";") +
          (("6:secret=36:" + UuidString(ec.secretId) + ";") +
           ("7:version=" + Decimal(|version|) + ":" + version + ";"))))
  {
    hide Sorted, Decimal, UuidString, Entry, Render;
    var m := ec.Map();
    ContextKeysInOrder(m);
    RenderFive("env", "org", "project", "secret", "version", m);
    UuidEntries(ec);
    VersionEntry(Decimal(ec.version));
  }
}
