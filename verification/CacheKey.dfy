/**
 The bytes fed to the keyed hash that names a cache entry. A `char` stands for one byte.
 */
module CacheKey {
  import opened Wrappers
  import opened Ordering

  /** A Go string: its length fits the eight-byte prefix. */
  type Text = s: string | |s| < 0x1_0000_0000_0000_0000

  datatype Key = Key(
    contract: Text, outputs: Text, capability: Text, revision: Text, source: Text, fingerprint: Text,
    configuration: Text, argv: seq<Text>, inputs: map<Text, Text>, checks: map<Text, Text>)

  // ---- Length-prefixed frames ----

  function BigEndian(n: nat, width: nat): (bytes: string)
    ensures |bytes| == width
    ensures forall b :: b in bytes ==> b as int < 256
  {
    if width == 0 then [] else BigEndian(n / 256, width - 1) + [(n % 256) as char]
  }

  lemma {:induction false} BigEndianInjective(m: nat, n: nat, width: nat)
    requires BigEndian(m, width) == BigEndian(n, width)
    requires m < Power256(width) && n < Power256(width)
    ensures m == n
  {
    if width > 0 {
      var a, b := BigEndian(m, width), BigEndian(n, width);
      assert a[..width - 1] == BigEndian(m / 256, width - 1) && b[..width - 1] == BigEndian(n / 256, width - 1);
      assert a[width - 1] == (m % 256) as char && b[width - 1] == (n % 256) as char;
      BigEndianInjective(m / 256, n / 256, width - 1);
    }
  }

  function Power256(k: nat): nat {
    if k == 0 then 1 else 256 * Power256(k - 1)
  }

  lemma Power256Eight()
    ensures Power256(8) == 0x1_0000_0000_0000_0000
  {
    assert Power256(4) == 0x1_0000_0000;
  }

  function Frame(value: Text): string {
    BigEndian(|value|, 8) + value
  }

  function Frames(values: seq<Text>): string {
    if values == [] then "" else Frame(values[0]) + Frames(values[1..])
  }

  lemma {:induction false} FramesAppend(values: seq<Text>, last: Text)
    ensures Frames(values + [last]) == Frames(values) + Frame(last)
  {
    if values == [] {
      assert (values + [last])[1..] == [];
    } else {
      assert (values + [last])[1..] == values[1..] + [last];
      FramesAppend(values[1..], last);
    }
  }

  /** Two framed texts that agree begin with the same value. */
  lemma FrameDelimits(a: Text, b: Text, x: string, y: string)
    requires Frame(a) + x == Frame(b) + y
    ensures a == b && x == y
  {
    var s, t := Frame(a) + x, Frame(b) + y;
    assert s[..8] == BigEndian(|a|, 8) && t[..8] == BigEndian(|b|, 8);
    Power256Eight();
    BigEndianInjective(|a|, |b|, 8);
    assert s[8..8 + |a|] == a && t[8..8 + |b|] == b;
    assert s[8 + |a|..] == x && t[8 + |b|..] == y;
  }

  /** A framed sequence can be read back in one way only. */
  lemma {:induction false} FramesInjective(a: seq<Text>, b: seq<Text>)
    requires Frames(a) == Frames(b)
    ensures a == b
  {
    if a != [] && b != [] {
      FrameDelimits(a[0], b[0], Frames(a[1..]), Frames(b[1..]));
      FramesInjective(a[1..], b[1..]);
      assert a == [a[0]] + a[1..] && b == [b[0]] + b[1..];
    } else {
      assert a != [] ==> |Frames(a)| >= 8;
      assert b != [] ==> |Frames(b)| >= 8;
    }
  }

  // ---- Maps, listed in key order ----

  ghost function Pairs(keys: seq<Text>, m: map<Text, Text>): (r: seq<Text>)
    requires forall k :: k in keys ==> k in m
    ensures |r| == 2 * |keys|
  {
    if keys == [] then [] else [keys[0], m[keys[0]]] + Pairs(keys[1..], m)
  }

  lemma {:induction false} PairsAppend(keys: seq<Text>, m: map<Text, Text>, last: Text)
    requires last in m && forall k :: k in keys ==> k in m
    ensures Pairs(keys + [last], m) == Pairs(keys, m) + [last, m[last]]
  {
    if keys == [] {
      assert (keys + [last])[1..] == [];
    } else {
      assert (keys + [last])[1..] == keys[1..] + [last];
      PairsAppend(keys[1..], m, last);
    }
  }

  lemma {:induction false} PairsInjective(keys: seq<Text>, m: map<Text, Text>, others: seq<Text>, n: map<Text, Text>)
    requires (forall k :: k in keys ==> k in m) && (forall k :: k in others ==> k in n)
    requires Pairs(keys, m) == Pairs(others, n)
    ensures keys == others && forall k :: k in keys ==> m[k] == n[k]
  {
    if keys != [] {
      var p, q := Pairs(keys, m), Pairs(others, n);
      assert p[2..] == Pairs(keys[1..], m) && q[2..] == Pairs(others[1..], n);
      assert p[0] == keys[0] && q[0] == others[0] && p[1] == m[keys[0]] && q[1] == n[others[0]];
      PairsInjective(keys[1..], m, others[1..], n);
      assert keys == [keys[0]] + keys[1..] && others == [others[0]] + others[1..];
    }
  }

  /** sortedKeys, typed. */
  ghost function OrderedKeys(m: map<Text, Text>): (keys: seq<Text>)
    ensures forall k :: k in keys <==> k in m
    ensures |keys| == |m|
  {
    var names := set k: string | k in m.Keys;
    SameSize(m, names);
    var ordered := InOrder(names);
    assert forall i :: 0 <= i < |ordered| ==> ordered[i] in ordered;
    ordered
  }

  lemma SameSize(m: map<Text, Text>, names: set<string>)
    requires names == set k: string | k in m.Keys
    ensures |names| == |m|
  {
    assert names == m.Keys;
  }

  ghost function Listed(m: map<Text, Text>): (r: seq<Text>)
    ensures |r| == 2 * |m|
  {
    Pairs(OrderedKeys(m), m)
  }

  lemma ListedInjective(m: map<Text, Text>, n: map<Text, Text>)
    requires Listed(m) == Listed(n)
    ensures m == n
  {
    PairsInjective(OrderedKeys(m), m, OrderedKeys(n), n);
    SameMap(m, n, OrderedKeys(m));
  }

  lemma SameMap(m: map<Text, Text>, n: map<Text, Text>, keys: seq<Text>)
    requires forall k :: k in keys <==> k in m
    requires forall k :: k in keys <==> k in n
    requires forall k :: k in keys ==> m[k] == n[k]
    ensures m == n
  {
    forall k ensures k in m <==> k in n {
      assert k in keys <==> k in m;
    }
  }

  // ---- The key ----

  const DOMAIN: Text := "repoplane-cache-key.v1"

  function Fixed(k: Key): (r: seq<Text>)
    ensures |r| == 8
  {
    [DOMAIN, k.contract, k.outputs, k.capability, k.revision, k.source, k.fingerprint, k.configuration]
  }

  ghost function Items(k: Key): seq<Text> {
    Fixed(k) + k.argv + Listed(k.inputs) + Listed(k.checks)
  }

  ghost function KeyBytes(k: Key): string {
    Frames(Items(k))
  }

  /** With the argument count and the number of checks fixed, the bytes determine every part of the key. */
  lemma KeyBytesDetermine(a: Key, b: Key)
    requires |a.argv| == |b.argv| && |a.checks| == |b.checks|
    ensures KeyBytes(a) == KeyBytes(b) <==> a == b
  {
    if KeyBytes(a) == KeyBytes(b) {
      FramesInjective(Items(a), Items(b));
      ItemsDetermine(a, b);
    }
  }

  lemma ItemsDetermine(a: Key, b: Key)
    requires |a.argv| == |b.argv| && |a.checks| == |b.checks| && Items(a) == Items(b)
    ensures a == b
  {
    Sections(Fixed(a), a.argv, Listed(a.inputs), Listed(a.checks), Fixed(b), b.argv, Listed(b.inputs),
        Listed(b.checks));
    FixedDetermine(a, b);
    ListedInjective(a.inputs, b.inputs);
    ListedInjective(a.checks, b.checks);
  }

  /** Four sections, all but the third of known length, are recovered from their concatenation. */
  lemma Sections<T>(f: seq<T>, a: seq<T>, i: seq<T>, c: seq<T>, g: seq<T>, b: seq<T>, j: seq<T>, d: seq<T>)
    requires |f| == |g| && |a| == |b| && |c| == |d| && f + a + i + c == g + b + j + d
    ensures f == g && a == b && i == j && c == d
  {
    var s, t := f + a + i + c, g + b + j + d;
    var m, n := |f| + |a|, |f| + |a| + |i|;
    assert f == s[..|f|] && g == t[..|f|];
    assert a == s[|f|..m] && b == t[|f|..m];
    assert i == s[m..n] && j == t[m..n];
    assert c == s[n..] && d == t[n..];
  }

  lemma FixedDetermine(a: Key, b: Key)
    requires Fixed(a) == Fixed(b)
    ensures a == b.(argv := a.argv, inputs := a.inputs, checks := a.checks)
  {
    var f, g := Fixed(a), Fixed(b);
    assert f[1] == g[1] && f[2] == g[2] && f[3] == g[3] && f[4] == g[4] && f[5] == g[5] && f[6] == g[6] && f[7] == g[7];
  }

  lemma ListedOne(k: Text, v: Text)
    ensures Listed(map[k := v]) == [k, v]
  {
    var m := map[k := v];
    var keys := OrderedKeys(m);
    assert m.Keys == {k};
    assert keys[0] in keys;
    assert keys == [k] && keys[1..] == [];
  }

  /** Without the fixed argument count two arguments and one input file give the same bytes. */
  lemma CountsMatter(k: Key, x: Text, y: Text)
    ensures KeyBytes(k.(argv := [x, y], inputs := map[])) == KeyBytes(k.(argv := [], inputs := map[x := y]))
  {
    var a, b := k.(argv := [x, y], inputs := map[]), k.(argv := [], inputs := map[x := y]);
    ListedOne(x, y);
    var none: seq<Text> := [];
    assert Listed(map[]) == none;
    assert Fixed(k) + [x, y] + none == Fixed(k) + none + [x, y];
    assert Items(a) == Fixed(k) + [x, y] + none + Listed(k.checks);
  }

  // ---- What one manifest fixes ----

  datatype Piece = Literal(text: string) | Argument(name: string)

  type Template = seq<seq<Piece>>

  function Missing(element: seq<Piece>, values: map<string, string>): bool {
    exists i :: 0 <= i < |element| && element[i].Argument? && element[i].name !in values
  }

  function Substituted(element: seq<Piece>, values: map<string, string>): string {
    if element == [] then ""
    else
      var p := element[0];
      var text := if p.Literal? then p.text else if p.name in values then values[p.name] else "";
      text + Substituted(element[1..], values)
  }

  /** Literals stand for themselves and placeholders for their values. */
  lemma SubstitutedPiece(text: string, name: string, values: map<string, string>)
    ensures Substituted([Literal(text)], values) == text
    ensures name in values ==> Substituted([Argument(name)], values) == values[name]
  {
    assert [Literal(text)][1..] == [] && [Argument(name)][1..] == [];
    assert Substituted([], values) == "";
    assert text + "" == text;
  }

  /** The pieces of an element are put together in order. */
  lemma {:induction false} SubstitutedPieces(a: seq<Piece>, b: seq<Piece>, values: map<string, string>)
    ensures Substituted(a + b, values) == Substituted(a, values) + Substituted(b, values)
  {
    if a == [] {
      assert a + b == b;
    } else {
      assert (a + b)[1..] == a[1..] + b;
      SubstitutedPieces(a[1..], b, values);
    }
  }

  /** expandArguments: one argument per template element, or an error when a value is missing. */
  method ExpandArguments(template: Template, values: map<string, string>) returns (r: Option<seq<string>>)
    ensures r.None? <==> exists i :: 0 <= i < |template| && Missing(template[i], values)
    ensures r.Some? ==> |r.value| == |template| && forall i :: 0 <= i < |template| ==>
                                                     r.value[i] == Substituted(template[i], values)
  {
    var argv: seq<string> := [];
    for i := 0 to |template|
      invariant |argv| == i
      invariant forall j :: 0 <= j < i ==> !Missing(template[j], values) && argv[j] == Substituted(template[j], values)
    {
      if Missing(template[i], values) {
        return None;
      }
      argv := argv + [Substituted(template[i], values)];
    }
    return Some(argv);
  }

  datatype Check = Check(passed: bool, identity: Text)

  const EXECUTABLE: Text := "runner.executable"

  ghost predicate Identified(keyChecks: seq<Text>, byID: map<Text, Check>) {
    && EXECUTABLE in byID && byID[EXECUTABLE].identity != ""
    && forall i :: 0 <= i < |keyChecks| ==> keyChecks[i] in byID && byID[keyChecks[i]].passed
                                              && byID[keyChecks[i]].identity != ""
  }

  /** prepareCache: the identities of the executable and of every check the manifest names. */
  method KeyIdentities(keyChecks: seq<Text>, byID: map<Text, Check>) returns (r: Option<map<Text, Text>>)
    ensures r.Some? <==> Identified(keyChecks, byID)
    ensures r.Some? ==> r.value.Keys == {EXECUTABLE} + set k | k in keyChecks
    ensures r.Some? ==> forall k :: k in r.value ==> k in byID && r.value[k] == byID[k].identity
  {
    if EXECUTABLE !in byID || byID[EXECUTABLE].identity == "" {
      return None;
    }
    var identities := map[EXECUTABLE := byID[EXECUTABLE].identity];
    for i := 0 to |keyChecks|
      invariant forall j :: 0 <= j < i ==> keyChecks[j] in byID && byID[keyChecks[j]].passed
                                             && byID[keyChecks[j]].identity != ""
      invariant identities.Keys == {EXECUTABLE} + set k | k in keyChecks[..i]
      invariant forall k :: k in identities ==> k in byID && identities[k] == byID[k].identity
    {
      var id := keyChecks[i];
      if id !in byID || !byID[id].passed || byID[id].identity == "" {
        return None;
      }
      identities := identities[id := byID[id].identity];
      assert keyChecks[..i + 1] == keyChecks[..i] + [id];
    }
    assert keyChecks[..|keyChecks|] == keyChecks;
    return Some(identities);
  }

  /** A key computed for a manifest with this template and these key checks. */
  ghost predicate ForManifest(k: Key, template: Template, keyChecks: seq<Text>) {
    |k.argv| == |template| && k.checks.Keys == {EXECUTABLE} + set c | c in keyChecks
  }

  /** For a fixed manifest, equal bytes mean equal configuration, arguments, inputs and identities. */
  lemma ManifestDetermines(a: Key, b: Key, template: Template, keyChecks: seq<Text>)
    requires ForManifest(a, template, keyChecks) && ForManifest(b, template, keyChecks)
    ensures KeyBytes(a) == KeyBytes(b) <==> a == b
  {
    assert |a.checks.Keys| == |b.checks.Keys|;
    KeyBytesDetermine(a, b);
  }

  // ---- The hasher loop ----

  method WriteAll(hashed: string, values: seq<Text>) returns (r: string)
    ensures r == hashed + Frames(values)
  {
    r := hashed;
    for i := 0 to |values|
      invariant r == hashed + Frames(values[..i])
    {
      r := r + Frame(values[i]);
      assert values[..i + 1] == values[..i] + [values[i]];
      FramesAppend(values[..i], values[i]);
    }
    assert values[..|values|] == values;
  }

  method SortedKeys(m: map<Text, Text>) returns (keys: seq<Text>)
    ensures keys == OrderedKeys(m)
  {
    var names := set k: string | k in m.Keys;
    var ordered := SortKeys(names);
    assert forall i :: 0 <= i < |ordered| ==> ordered[i] in names;
    keys := ordered;
  }

  method WritePairs(hashed: string, keys: seq<Text>, m: map<Text, Text>) returns (r: string)
    requires forall k :: k in keys ==> k in m
    ensures r == hashed + Frames(Pairs(keys, m))
  {
    r := hashed;
    for i := 0 to |keys|
      invariant r == hashed + Frames(Pairs(keys[..i], m))
    {
      r := r + Frame(keys[i]) + Frame(m[keys[i]]);
      FramesNext(keys, i, m);
    }
    assert keys[..|keys|] == keys;
  }

  method WriteMap(hashed: string, m: map<Text, Text>) returns (r: string)
    ensures r == hashed + Frames(Listed(m))
  {
    var keys := SortedKeys(m);
    r := WritePairs(hashed, keys, m);
  }

  lemma FramesNext(keys: seq<Text>, i: nat, m: map<Text, Text>)
    requires i < |keys| && forall k :: k in keys ==> k in m
    ensures Frames(Pairs(keys[..i + 1], m)) == Frames(Pairs(keys[..i], m)) + Frame(keys[i]) + Frame(m[keys[i]])
  {
    assert keys[..i + 1] == keys[..i] + [keys[i]];
    PairsAppend(keys[..i], m, keys[i]);
    FramesPair(Pairs(keys[..i], m), keys[i], m[keys[i]]);
  }

  lemma FramesPair(values: seq<Text>, k: Text, v: Text)
    ensures Frames(values + [k, v]) == Frames(values) + Frame(k) + Frame(v)
  {
    FramesAppend(values, k);
    FramesAppend(values + [k], v);
    assert values + [k] + [v] == values + [k, v];
  }

  lemma {:induction false} FramesConcat(a: seq<Text>, b: seq<Text>)
    ensures Frames(a + b) == Frames(a) + Frames(b)
  {
    if a == [] {
      assert a + b == b;
    } else {
      assert (a + b)[1..] == a[1..] + b;
      FramesConcat(a[1..], b);
    }
  }

  /** makeCacheKey up to the keyed hash itself. */
  method KeyInput(k: Key) returns (hashed: string)
    ensures hashed == KeyBytes(k)
  {
    hashed := WriteAll("", Fixed(k));
    hashed := WriteAll(hashed, k.argv);
    hashed := WriteMaps(hashed, k.inputs, k.checks);
    KeySections(k);
  }

  method WriteMaps(hashed: string, inputs: map<Text, Text>, checks: map<Text, Text>) returns (r: string)
    ensures r == hashed + (Frames(Listed(inputs)) + Frames(Listed(checks)))
  {
    var both := WriteMap(hashed, inputs);
    r := WriteMap(both, checks);
    Regrouped(hashed, Frames(Listed(inputs)), Frames(Listed(checks)));
  }

  lemma Regrouped(x: string, y: string, z: string)
    ensures x + y + z == x + (y + z)
  {
  }

  lemma KeySections(k: Key)
    ensures KeyBytes(k)
        == "" + Frames(Fixed(k)) + Frames(k.argv) + (Frames(Listed(k.inputs)) + Frames(Listed(k.checks)))
  {
    var f, a, i, c := Fixed(k), k.argv, Listed(k.inputs), Listed(k.checks);
    assert Items(k) == f + a + i + c;
    FramesOfFour(f, a, i, c);
  }

  lemma FramesOfFour(a: seq<Text>, b: seq<Text>, c: seq<Text>, d: seq<Text>)
    ensures Frames(a + b + c + d) == "" + Frames(a) + Frames(b) + (Frames(c) + Frames(d))
  {
    FramesConcat(a, b);
    FramesConcat(c, d);
    FramesConcat(a + b, c + d);
    assert a + b + c + d == (a + b) + (c + d);
    FromEmpty(Frames(a), Frames(b));
  }

  lemma FromEmpty(x: string, y: string)
    ensures "" + x + y == x + y
  {
  }
}
