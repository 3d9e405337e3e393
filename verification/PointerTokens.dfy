/** The tokens of a JSON Pointer: splitting, escaping (section 3 of RFC 6901) and array indices. */
module PointerTokens {
  import opened Wrappers

  // ---- Splitting at slashes ----

  function Split(s: string): (tokens: seq<string>)
    ensures tokens != [] && forall i :: 0 <= i < |tokens| ==> '/' !in tokens[i]
  {
    if s == "" then [""]
    else
      var rest := Split(s[1..]);
      if s[0] == '/' then [""] + rest else [[s[0]] + rest[0]] + rest[1..]
  }

  function Join(tokens: seq<string>): string
    requires tokens != []
  {
    if |tokens| == 1 then tokens[0] else tokens[0] + "/" + Join(tokens[1..])
  }

  lemma {:induction false} JoinSplit(s: string)
    ensures Join(Split(s)) == s
  {
    if s != "" {
      var rest := Split(s[1..]);
      JoinSplit(s[1..]);
      if s[0] == '/' {
        assert ([""] + rest)[1..] == rest;
      } else {
        assert ([[s[0]] + rest[0]] + rest[1..])[1..] == rest[1..];
      }
    }
  }

  lemma {:induction false} SplitPrefix(token: string, tail: string)
    requires '/' !in token
    ensures Split(token + "/" + tail) == [token] + Split(tail)
    ensures Split(token) == [token]
  {
    if token == "" {
      assert token + "/" + tail == "/" + tail && ("/" + tail)[1..] == tail;
    } else {
      assert (token + "/" + tail)[1..] == token[1..] + "/" + tail;
      SplitPrefix(token[1..], tail);
      assert token == [token[0]] + token[1..];
    }
  }

  lemma {:induction false} SplitJoin(tokens: seq<string>)
    requires tokens != [] && forall i :: 0 <= i < |tokens| ==> '/' !in tokens[i]
    ensures Split(Join(tokens)) == tokens
  {
    SplitPrefix(tokens[0], if |tokens| == 1 then "" else Join(tokens[1..]));
    if |tokens| > 1 {
      SplitJoin(tokens[1..]);
      assert tokens == [tokens[0]] + tokens[1..];
    }
  }

  /** strings.Split by one character. */
  method SplitTokens(s: string) returns (tokens: seq<string>)
    ensures tokens == Split(s)
  {
    tokens := [];
    var start, i := 0, 0;
    while i < |s|
      invariant 0 <= start <= i <= |s| && '/' !in s[start..i]
      invariant Split(s) == tokens + Split(s[start..])
    {
      if s[i] == '/' {
        assert s[start..] == s[start..i] + "/" + s[i + 1..];
        SplitPrefix(s[start..i], s[i + 1..]);
        tokens := tokens + [s[start..i]];
        start := i + 1;
      } else {
        assert s[start..i + 1] == s[start..i] + [s[i]];
      }
      i := i + 1;
    }
    assert s[start..i] == s[start..];
    SplitPrefix(s[start..], "");
    tokens := tokens + [s[start..]];
  }

  // ---- Escapes ----

  function Escape(token: string): (raw: string)
    ensures '/' !in raw
  {
    if token == "" then ""
    else (if token[0] == '~' then "~0" else if token[0] == '/' then "~1" else [token[0]]) + Escape(token[1..])
  }

  function Decode(raw: string): Option<string> {
    if raw == "" then Some("")
    else if raw[0] != '~' then Prepend(raw[0], Decode(raw[1..]))
    else if |raw| < 2 || (raw[1] != '0' && raw[1] != '1') then None
    else Prepend(if raw[1] == '0' then '~' else '/', Decode(raw[2..]))
  }

  function Prepend(c: char, s: Option<string>): Option<string> {
    match s
    case Some(t) => Some([c] + t)
    case None => None
  }

  lemma {:induction false} DecodeEscape(token: string)
    ensures Decode(Escape(token)) == Some(token)
  {
    if token != "" {
      DecodeEscape(token[1..]);
      var raw := Escape(token);
      assert token == [token[0]] + token[1..];
      if token[0] == '~' || token[0] == '/' {
        assert raw[2..] == Escape(token[1..]);
      } else {
        assert raw[1..] == Escape(token[1..]);
      }
    }
  }

  /** A slash-free token that decodes is the escape of what it decodes to. */
  lemma {:induction false} EscapeDecode(raw: string)
    requires '/' !in raw && Decode(raw).Some?
    ensures Escape(Decode(raw).value) == raw
  {
    if raw != "" {
      var token := Decode(raw).value;
      if raw[0] != '~' {
        EscapeDecode(raw[1..]);
        assert token[1..] == Decode(raw[1..]).value;
      } else {
        EscapeDecode(raw[2..]);
        assert token[1..] == Decode(raw[2..]).value;
        assert raw == raw[..2] + raw[2..];
      }
    }
  }

  function After(done: string, rest: Option<string>): Option<string> {
    match rest
    case Some(t) => Some(done + t)
    case None => None
  }

  lemma AfterPrepend(done: string, c: char, rest: Option<string>)
    ensures After(done, Prepend(c, rest)) == After(done + [c], rest)
  {
    if rest.Some? { assert done + ([c] + rest.value) == done + [c] + rest.value; }
  }

  /** decodePointerToken's loop, whose index skips over the second character of an escape. */
  method DecodeToken(raw: string) returns (token: Option<string>)
    ensures token == Decode(raw)
  {
    var result := "";
    var index := 0;
    assert raw[0..] == raw && (Decode(raw).Some? ==> "" + Decode(raw).value == Decode(raw).value);
    while index < |raw|
      invariant 0 <= index <= |raw|
      invariant Decode(raw) == After(result, Decode(raw[index..]))
    {
      ghost var left := raw[index..];
      if raw[index] != '~' {
        assert left[1..] == raw[index + 1..];
        AfterPrepend(result, raw[index], Decode(raw[index + 1..]));
        result := result + [raw[index]];
        index := index + 1;
      } else {
        if index + 1 >= |raw| || (raw[index + 1] != '0' && raw[index + 1] != '1') {
          return None;
        }
        assert left[2..] == raw[index + 2..] && left[1] == raw[index + 1];
        AfterPrepend(result, if raw[index + 1] == '0' then '~' else '/', Decode(raw[index + 2..]));
        index := index + 1;
        result := result + [if raw[index] == '0' then '~' else '/'];
        index := index + 1;
      }
    }
    assert raw[index..] == "" && result + "" == result;
    return Some(result);
  }

  // ---- Array indices ----

  const WORDS: nat := 0x1_0000_0000_0000_0000

  predicate Digits(s: string) { s != "" && forall i :: 0 <= i < |s| ==> '0' <= s[i] <= '9' }

  function Value(s: string): nat
    requires forall i :: 0 <= i < |s| ==> '0' <= s[i] <= '9'
  {
    if s == "" then 0 else 10 * Value(s[..|s| - 1]) + (s[|s| - 1] - '0') as nat
  }

  /** strconv.ParseUint with base 10 and 64 bits. */
  function ParseIndex(s: string): Option<nat> {
    if Digits(s) && Value(s) < WORDS then Some(Value(s)) else None
  }

  function Decimal(n: nat): (s: string)
    ensures Digits(s)
  {
    if n < 10 then ['0' + n as char] else Decimal(n / 10) + ['0' + (n % 10) as char]
  }

  lemma {:induction false} ValueDecimal(n: nat)
    ensures Value(Decimal(n)) == n
  {
    var s := Decimal(n);
    if n < 10 {
      assert s[..0] == "";
    } else {
      ValueDecimal(n / 10);
      assert s[..|s| - 1] == Decimal(n / 10);
    }
  }

  predicate Canonical(s: string) { Digits(s) && (|s| == 1 || s[0] != '0') }

  lemma {:induction false} DecimalCanonical(n: nat)
    ensures Canonical(Decimal(n)) && (n > 0 ==> Decimal(n)[0] != '0')
  {
    if n >= 10 { DecimalCanonical(n / 10); }
  }

  lemma {:induction false} LeadingDigit(s: string)
    requires Digits(s) && s[0] != '0'
    ensures Value(s) > 0
  {
    if |s| == 1 {
      assert Value(s[..0]) == 0;
    } else {
      LeadingDigit(s[..|s| - 1]);
    }
  }

  lemma {:induction false} CanonicalDecimal(s: string)
    requires Canonical(s)
    ensures Decimal(Value(s)) == s
  {
    var n := |s| - 1;
    assert s == s[..n] + [s[n]];
    if n == 0 {
      assert Value(s[..0]) == 0;
    } else {
      CanonicalDecimal(s[..n]);
      LeadingDigit(s[..n]);
    }
  }

  /** Only the decimal form without leading zeros is printed back as it was. */
  lemma DecimalValue(s: string)
    requires Digits(s)
    ensures Decimal(Value(s)) == s <==> Canonical(s)
  {
    DecimalCanonical(Value(s));
    if Canonical(s) { CanonicalDecimal(s); }
  }
}
