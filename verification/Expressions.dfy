/**
 The text of a regular expression and what it accepts: plain and escaped characters, the dot, classes that
 exclude one character, groups, stars and optional parts, between ^ and $. Other operators are not read.
 */
module Expressions {
  import opened Wrappers

  datatype Expr =
    | Empty
    | Dot
    | Except(c: char)
    | Just(c: char)
    | Many(body: Expr)
    | Maybe(body: Expr)
    | Then(first: Expr, rest: Expr)

  // ---- Reading ----

  /** The characters that stand for something other than themselves. */
  predicate Operator(c: char) {
    || c == '.' || c == '*' || c == '?' || c == '+' || c == '|' || c == '^' || c == '$' || c == '\\'
    || c == '(' || c == ')' || c == '[' || c == ']' || c == '{' || c == '}'
  }

  /** An expression at the start of the text, and the text after it. */
  datatype Reading = Reading(expr: Expr, after: string)

  function ReadAtom(text: string): (r: Option<Reading>)
    ensures r.Some? ==> |r.value.after| < |text|
    decreases |text|, 0
  {
    if text == "" then None
    else if text[0] == '.' then Some(Reading(Dot, text[1..]))
    else if text[0] == '\\' then
      if |text| > 1 && Operator(text[1]) then Some(Reading(Just(text[1]), text[2..])) else None
    else if text[0] == '[' then
      if |text| > 3 && text[1] == '^' && !Operator(text[2]) && text[3] == ']'
      then Some(Reading(Except(text[2]), text[4..])) else None
    else if text[0] == '(' then
      if |text| > 2 && text[1] == '?' && text[2] == ':' then ReadGroup(text[3..]) else None
    else if Operator(text[0]) then None
    else Some(Reading(Just(text[0]), text[1..]))
  }

  function ReadGroup(text: string): (r: Option<Reading>)
    ensures r.Some? ==> |r.value.after| < |text|
    decreases |text|, 3
  {
    match ReadSequence(text)
    case Some(Reading(e, after)) => if after != "" && after[0] == ')' then Some(Reading(e, after[1..])) else None
    case None => None
  }

  /** An atom, repeated when a star follows and optional when a question mark does. */
  function ReadRepeated(text: string): (r: Option<Reading>)
    ensures r.Some? ==> |r.value.after| < |text|
    decreases |text|, 1
  {
    match ReadAtom(text)
    case Some(Reading(e, after)) =>
      if after != "" && after[0] == '*' then Some(Reading(Many(e), after[1..]))
      else if after != "" && after[0] == '?' then Some(Reading(Maybe(e), after[1..]))
      else Some(Reading(e, after))
    case None => None
  }

  /** One part after the other up to the end of the text or of the group. */
  function ReadSequence(text: string): (r: Option<Reading>)
    ensures r.Some? ==> |r.value.after| <= |text|
    decreases |text|, 2
  {
    if text == "" || text[0] == ')' then Some(Reading(Empty, text))
    else
      match ReadRepeated(text)
      case Some(Reading(e, after)) =>
        (match ReadSequence(after)
         case Some(Reading(rest, end)) => Some(Reading(Then(e, rest), end))
         case None => None)
      case None => None
  }

  /** A whole expression, from ^ to $. */
  function Read(text: string): Option<Expr> {
    if |text| < 2 || text[0] != '^' || text[|text| - 1] != '$' then None
    else
      match ReadSequence(text[1..|text| - 1])
      case Some(Reading(e, after)) => if after == "" then Some(e) else None
      case None => None
  }

  // ---- Accepting ----

  /** Go's dot matches any character but a newline; a class that excludes a character matches any other. */
  ghost predicate Denotes(e: Expr, s: string)
    decreases e, |s|
  {
    match e
    case Empty => s == ""
    case Dot => |s| == 1 && s[0] != '\n'
    case Except(c) => |s| == 1 && s[0] != c
    case Just(c) => s == [c]
    case Many(body) => s == "" || exists k :: 0 < k <= |s| && Denotes(body, s[..k]) && Denotes(e, s[k..])
    case Maybe(body) => s == "" || Denotes(body, s)
    case Then(first, rest) => exists k :: 0 <= k <= |s| && Denotes(first, s[..k]) && Denotes(rest, s[k..])
  }

  /** The whole string matches the expression the text spells. */
  ghost predicate TextAccepts(text: string, s: string) {
    Read(text).Some? && Denotes(Read(text).value, s)
  }

  // ---- Repeated single characters ----

  /** A star over one character at a time accepts the strings of such characters. */
  lemma {:induction false} ManyOfOne(e: Expr, s: string)
    requires e.Dot? || e.Except?
    ensures Denotes(Many(e), s) <==> forall i :: 0 <= i < |s| ==> Denotes(e, [s[i]])
  {
    if s != "" {
      assert s[..1] == [s[0]];
      ManyOfOne(e, s[1..]);
      if Denotes(Many(e), s) {
        var k :| 0 < k <= |s| && Denotes(e, s[..k]) && Denotes(Many(e), s[k..]);
        assert k == 1;
        forall i | 0 <= i < |s| ensures Denotes(e, [s[i]]) {
          if i > 0 { assert s[1..][i - 1] == s[i]; }
        }
      }
      if forall i :: 0 <= i < |s| ==> Denotes(e, [s[i]]) {
        forall i | 0 <= i < |s| - 1 ensures Denotes(e, [s[1..][i]]) { assert s[1..][i] == s[i + 1]; }
        assert Denotes(e, s[..1]) && Denotes(Many(e), s[1..]);
      }
    }
  }
}
