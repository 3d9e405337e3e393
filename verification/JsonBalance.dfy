/** Exactly which byte strings the structural scanner accepts, documents or not. */
module JsonBalance {
  import opened Wrappers
  import opened JsonBounds

  // ---- What is outside the strings ----

  /** The text after the string literal whose opening quote has been passed. */
  function AfterString(text: string): (rest: Option<string>)
    ensures rest.Some? ==> |rest.value| < |text|
  {
    if text == "" then None
    else if text[0] == '"' then Some(text[1..])
    else if text[0] == '\\' then if |text| < 2 then None else AfterString(text[2..])
    else AfterString(text[1..])
  }

  /** The text without its string literals, unless one does not end. */
  function Bare(text: string): Option<string>
    decreases |text|
  {
    if text == "" then Some("")
    else if text[0] == '"' then
      match AfterString(text[1..])
      case Some(rest) => Bare(rest)
      case None => None
    else
      match Bare(text[1..])
      case Some(rest) => Some([text[0]] + rest)
      case None => None
  }

  function Rise(c: char): int {
    if c == '{' || c == '[' then 1 else if c == '}' || c == ']' then -1 else 0
  }

  /** Opening brackets less closing ones. */
  function Net(s: string): int {
    if s == "" then 0 else Net(s[..|s| - 1]) + Rise(s[|s| - 1])
  }

  function Counts(c: char): nat { if c == '{' || c == '[' || c == ',' then 1 else 0 }

  /** Opening brackets and commas. */
  function Items(s: string): nat {
    if s == "" then 0 else Items(s[..|s| - 1]) + Counts(s[|s| - 1])
  }

  /** Starting at `depth`, no prefix closes more than is open or nests deeper than 64. */
  predicate Within(depth: int, s: string) {
    forall k :: 0 <= k <= |s| ==> 0 <= depth + Net(s[..k]) <= 64
  }

  lemma {:induction false} NetFirst(s: string)
    requires s != ""
    ensures Net(s) == Rise(s[0]) + Net(s[1..]) && Items(s) == Counts(s[0]) + Items(s[1..])
  {
    var n := |s| - 1;
    if n > 0 {
      NetFirst(s[..n]);
      assert s[1..][..n - 1] == s[..n][1..];
    } else {
      assert s[..0] == "" && s[1..] == "";
    }
  }

  lemma WithinFirst(depth: int, s: string)
    requires s != ""
    ensures Within(depth, s) <==> 0 <= depth <= 64 && Within(depth + Rise(s[0]), s[1..])
  {
    assert s[..0] == "";
    forall k | 0 < k <= |s| ensures Net(s[..k]) == Rise(s[0]) + Net(s[1..][..k - 1]) {
      NetFirst(s[..k]);
      assert s[..k][1..] == s[1..][..k - 1];
    }
    if Within(depth, s) {
      assert 0 <= depth + Net(s[..0]) <= 64;
      forall k | 0 <= k <= |s| - 1 ensures 0 <= depth + Rise(s[0]) + Net(s[1..][..k]) <= 64 {
        assert 0 <= depth + Net(s[..k + 1]) <= 64;
      }
    }
    if 0 <= depth <= 64 && Within(depth + Rise(s[0]), s[1..]) {
      forall k | 0 <= k <= |s| ensures 0 <= depth + Net(s[..k]) <= 64 {
        if k > 0 { assert 0 <= depth + Rise(s[0]) + Net(s[1..][..k - 1]) <= 64; }
      }
    }
  }

  // ---- The scanner ----

  /** Inside a string the scanner skips to the text after it. */
  lemma {:induction false} StringSkipped(depth: int, items: int, text: string)
    ensures Scan(State(depth, items, true, false), text)
        == if AfterString(text).Some? then Scan(At(depth, items), AfterString(text).value) else BadStructure
    decreases |text|
  {
    if text != "" && text[0] != '"' {
      if text[0] == '\\' {
        if |text| >= 2 {
          assert text[1..][1..] == text[2..] && text[1..] != "";
          StringSkipped(depth, items, text[2..]);
        } else {
          assert text[1..] == "";
        }
      } else {
        StringSkipped(depth, items, text[1..]);
      }
    }
  }

  /** Balanced to the end within the bounds, counting from `depth` and `items`. */
  predicate Bounded(depth: int, items: int, bare: string) {
    Within(depth, bare) && depth + Net(bare) == 0 && items + Items(bare) <= 10000
  }

  lemma BoundedFirst(depth: int, items: int, c: char, rest: string)
    ensures Bounded(depth, items, [c] + rest)
        <==> 0 <= depth <= 64 && Bounded(depth + Rise(c), items + Counts(c), rest)
  {
    var s := [c] + rest;
    assert s[1..] == rest;
    NetFirst(s);
    WithinFirst(depth, s);
  }

  lemma NotBounded(depth: int, items: int, bare: string)
    requires depth < 0 || depth > 64 || items > 10000
    ensures !Bounded(depth, items, bare)
  {
    assert bare[..0] == "";
    if Within(depth, bare) { assert 0 <= depth + Net(bare[..0]) <= 64; }
  }

  lemma {:induction false} ScansExactly(depth: int, items: int, text: string)
    requires 0 <= depth <= 64 && 0 <= items <= 10000
    ensures Scan(At(depth, items), text) == Accepted
        <==> Bare(text).Some? && Bounded(depth, items, Bare(text).value)
    decreases |text|
  {
    if text == "" {
      assert ""[..0] == "";
    } else if text[0] == '"' {
      StringSkipped(depth, items, text[1..]);
      if AfterString(text[1..]).Some? { ScansExactly(depth, items, AfterString(text[1..]).value); }
    } else {
      PlainScanned(depth, items, text);
    }
  }

  lemma {:induction false} PlainScanned(depth: int, items: int, text: string)
    requires 0 <= depth <= 64 && 0 <= items <= 10000 && text != "" && text[0] != '"'
    ensures Scan(At(depth, items), text) == Accepted
        <==> Bare(text).Some? && Bounded(depth, items, Bare(text).value)
    decreases |text|, 0
  {
    var c, rest := text[0], Bare(text[1..]);
    if rest.Some? { BoundedFirst(depth, items, c, rest.value); }
    var d, i := depth + Rise(c), items + Counts(c);
    if 0 <= d <= 64 && i <= 10000 {
      ScansExactly(d, i, text[1..]);
    } else if rest.Some? {
      NotBounded(d, i, rest.value);
    }
  }

  /**
   The scanner accepts a text exactly when every string literal ends and outside of them the brackets balance,
   never more than 64 deep, with at most 10000 opening brackets and commas.
   */
  lemma AcceptsTextExactly(text: string)
    ensures Scan(State(0, 0, false, false), text) == Accepted <==>
            && Bare(text).Some?
            && var bare := Bare(text).value;
               Within(0, bare) && Net(bare) == 0 && Items(bare) <= 10000
  {
    ScansExactly(0, 0, text);
  }
}
