/**
 Which counts the bytes of a cache key leave open. The shape of a key is its number of arguments and its
 number of checks; neither is written.
 */
module CacheKeyShapes {
  import opened Ordering
  import opened CacheKey

  /** Go's int bounds every length. */
  const INT_LIMIT: nat := 0x8000_0000_0000_0000

  predicate HasShape(k: Key, arguments: nat, checks: nat) {
    |k.argv| == arguments && |k.checks| == checks
  }

  /** Two different keys of these shapes with the same bytes. */
  ghost predicate Collide(a: Key, n: nat, c: nat, b: Key, n': nat, c': nat) {
    HasShape(a, n, c) && HasShape(b, n', c') && a != b && KeyBytes(a) == KeyBytes(b)
  }

  lemma ItemCount(k: Key)
    ensures |Items(k)| == 8 + |k.argv| + 2 * |k.inputs| + 2 * |k.checks|
  {
  }

  lemma SameParity(a: Key, b: Key)
    requires KeyBytes(a) == KeyBytes(b)
    ensures |a.argv| % 2 == |b.argv| % 2
  {
    FramesInjective(Items(a), Items(b));
    ItemCount(a);
    ItemCount(b);
    Halves(|a.argv|, |a.inputs| + |a.checks|, |b.argv|, |b.inputs| + |b.checks|);
  }

  lemma Halves(n: nat, x: nat, n': nat, y: nat)
    requires n + 2 * x == n' + 2 * y
    ensures n % 2 == n' % 2
  {
  }

  /** Colliding keys have different shapes, and argument counts of the same parity. */
  lemma CollisionShapes(a: Key, n: nat, c: nat, b: Key, n': nat, c': nat)
    requires Collide(a, n, c, b, n', c')
    ensures (n, c) != (n', c') && n % 2 == n' % 2
  {
    SameParity(a, b);
    if n == n' && c == c' { KeyBytesDetermine(a, b); }
  }

  // ---- A witness from ascending keys ----

  type Index = i: nat | i < 0x1_0000_0000_0000_0000

  /** The i-th of a long ascending series of texts. */
  function Rung(i: Index): Text { seq(i, _ => 'x') }

  lemma {:induction false} RungsAscend(i: Index, j: Index)
    requires i < j
    ensures Less(Rung(i), Rung(j))
    decreases i
  {
    if i > 0 {
      RungsAscend(i - 1, j - 1);
      assert Rung(i)[1..] == Rung(i - 1) && Rung(j)[1..] == Rung(j - 1);
    }
  }

  function Rungs(lo: Index, hi: Index): (keys: seq<Text>)
    requires lo <= hi
    ensures |keys| == hi - lo && forall i :: 0 <= i < hi - lo ==> keys[i] == Rung(lo + i)
    decreases hi - lo
  {
    if lo == hi then [] else [Rung(lo)] + Rungs(lo + 1, hi)
  }

  function Blank(lo: Index, hi: Index): map<Text, Text>
    requires lo <= hi
  {
    map k | k in Rungs(lo, hi) :: ""
  }

  /** The pairs of rungs lo to hi, each with an empty value. */
  function Ladder(lo: Index, hi: Index): (items: seq<Text>)
    requires lo <= hi
    ensures |items| == 2 * (hi - lo)
    decreases hi - lo
  {
    if lo == hi then [] else [Rung(lo), ""] + Ladder(lo + 1, hi)
  }

  lemma {:induction false} LadderJoins(lo: Index, mid: Index, hi: Index)
    requires lo <= mid <= hi
    ensures Ladder(lo, mid) + Ladder(mid, hi) == Ladder(lo, hi)
    decreases mid - lo
  {
    if lo == mid {
      assert Ladder(lo, mid) + Ladder(mid, hi) == Ladder(mid, hi);
    } else {
      LadderJoins(lo + 1, mid, hi);
      assert Ladder(lo, mid) + Ladder(mid, hi) == [Rung(lo), ""] + (Ladder(lo + 1, mid) + Ladder(mid, hi));
    }
  }

  lemma OrderedKeysAre(m: map<Text, Text>, keys: seq<Text>)
    requires Ascending(keys) && forall k :: k in keys <==> k in m
    ensures OrderedKeys(m) == keys && |m| == |keys|
  {
    var listed: seq<string> := keys;
    var names := set k: string | k in m.Keys;
    AscendingSize(listed);
    assert names == set k | k in listed;
    SameSize(m, names);
    AscendingUnique(listed, InOrder(names));
  }

  lemma {:induction false} PairsLadder(lo: Index, hi: Index, m: map<Text, Text>)
    requires lo <= hi && forall k :: k in Rungs(lo, hi) ==> k in m && m[k] == ""
    ensures Pairs(Rungs(lo, hi), m) == Ladder(lo, hi)
    decreases hi - lo
  {
    if lo < hi {
      assert Rungs(lo, hi)[1..] == Rungs(lo + 1, hi);
      assert Rungs(lo, hi)[0] in Rungs(lo, hi);
      PairsLadder(lo + 1, hi, m);
    }
  }

  lemma ListedLadder(lo: Index, hi: Index)
    requires lo <= hi
    ensures Listed(Blank(lo, hi)) == Ladder(lo, hi) && |Blank(lo, hi)| == hi - lo
  {
    var keys := Rungs(lo, hi);
    forall i, j | 0 <= i < j < |keys| ensures Less(keys[i], keys[j]) { RungsAscend(lo + i, lo + j); }
    OrderedKeysAre(Blank(lo, hi), keys);
    PairsLadder(lo, hi, Blank(lo, hi));
  }

  /** A key of the given shape whose items after the fixed ones climb to `top`. */
  function Climbing(k: Key, arguments: nat, checks: nat, top: Index): Key
    requires arguments / 2 + checks <= top
  {
    var lead: seq<Text> := if arguments % 2 == 1 then [""] else [];
    k.(argv := lead + Ladder(0, arguments / 2), inputs := Blank(arguments / 2, top - checks),
        checks := Blank(top - checks, top))
  }

  lemma ClimbingItems(k: Key, arguments: nat, checks: nat, top: Index)
    requires arguments / 2 + checks <= top
    ensures var a := Climbing(k, arguments, checks, top);
      && HasShape(a, arguments, checks)
      && Items(a) == Fixed(k) + (if arguments % 2 == 1 then [""] else []) + Ladder(0, top)
  {
    var lead: seq<Text> := if arguments % 2 == 1 then [""] else [];
    var m, n := arguments / 2, top - checks;
    ListedLadder(m, n);
    ListedLadder(n, top);
    LadderJoins(0, m, n);
    LadderJoins(0, n, top);
    Flattened(Fixed(k), lead, Ladder(0, m), Ladder(m, n), Ladder(n, top));
  }

  lemma Flattened(f: seq<Text>, lead: seq<Text>, a: seq<Text>, b: seq<Text>, c: seq<Text>)
    ensures f + (lead + a) + b + c == f + lead + (a + b + c)
  {
  }

  /**
   Keys of two shapes can be different with the same bytes if and only if the shapes differ and their
   argument counts have the same parity: an argument pair can pass for an input, and an input for a check.
   */
  lemma ShapesCollide(k: Key, n: nat, c: nat, n': nat, c': nat)
    requires n < INT_LIMIT && c < INT_LIMIT && n' < INT_LIMIT && c' < INT_LIMIT
    ensures (exists a, b :: Collide(a, n, c, b, n', c')) <==> (n, c) != (n', c') && n % 2 == n' % 2
  {
    if a, b :| Collide(a, n, c, b, n', c') { CollisionShapes(a, n, c, b, n', c'); }
    if (n, c) != (n', c') && n % 2 == n' % 2 {
      var top: Index := if n / 2 + c >= n' / 2 + c' then n / 2 + c else n' / 2 + c';
      Collides(k, n, c, n', c', top);
    }
  }

  lemma Collides(k: Key, n: nat, c: nat, n': nat, c': nat, top: Index)
    requires n / 2 + c <= top && n' / 2 + c' <= top && (n, c) != (n', c') && n % 2 == n' % 2
    ensures Collide(Climbing(k, n, c, top), n, c, Climbing(k, n', c', top), n', c')
  {
    ClimbingItems(k, n, c, top);
    ClimbingItems(k, n', c', top);
  }
}
