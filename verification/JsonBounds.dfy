/**
 The structural scanner that bounds nesting and size of raw JSON arguments before they are decoded,
 against the printed text of JSON documents. A `char` stands for one byte.
 */
module JsonBounds {

  const MAX_DEPTH: int := 64
  const MAX_ITEMS: int := 10_000

  // ---- The scanner ----

  datatype State = State(depth: int, items: int, inString: bool, escaped: bool)

  datatype Verdict = Accepted | LimitExceeded | BadStructure

  datatype Progress = Going(state: State) | Stopped(verdict: Verdict)

  function Next(s: State, c: char): Progress {
    if s.inString then
      if s.escaped then Going(s.(escaped := false))
      else if c == '\\' then Going(s.(escaped := true))
      else if c == '"' then Going(s.(inString := false))
      else Going(s)
    else if c == '"' then Going(s.(inString := true))
    else if c == '{' || c == '[' then
      if s.depth + 1 > MAX_DEPTH || s.items + 1 > MAX_ITEMS then Stopped(LimitExceeded)
      else Going(s.(depth := s.depth + 1, items := s.items + 1))
    else if c == '}' || c == ']' then
      if s.depth - 1 < 0 then Stopped(BadStructure) else Going(s.(depth := s.depth - 1))
    else if c == ',' then
      if s.items + 1 > MAX_ITEMS then Stopped(LimitExceeded) else Going(s.(items := s.items + 1))
    else Going(s)
  }

  function Scan(s: State, text: string): Verdict
    decreases |text|
  {
    if text == "" then (if s.depth != 0 || s.inString then BadStructure else Accepted)
    else
      match Next(s, text[0])
      case Stopped(v) => v
      case Going(t) => Scan(t, text[1..])
  }

  /** validateJSONBounds. */
  method ValidateBounds(raw: string) returns (verdict: Verdict)
    ensures verdict == Scan(State(0, 0, false, false), raw)
  {
    var depth, items := 0, 0;
    var inString, escaped := false, false;
    for i := 0 to |raw|
      invariant Scan(State(0, 0, false, false), raw) == Scan(State(depth, items, inString, escaped), raw[i..])
    {
      var value := raw[i];
      assert raw[i..][0] == value && raw[i..][1..] == raw[i + 1..];
      if inString {
        if escaped {
          escaped := false;
        } else if value == '\\' {
          escaped := true;
        } else if value == '"' {
          inString := false;
        }
      } else {
        match value {
          case '"' =>
            inString := true;
          case '{' | '[' =>
            depth, items := depth + 1, items + 1;
            if depth > MAX_DEPTH || items > MAX_ITEMS {
              return LimitExceeded;
            }
          case '}' | ']' =>
            depth := depth - 1;
            if depth < 0 {
              return BadStructure;
            }
          case ',' =>
            items := items + 1;
            if items > MAX_ITEMS {
              return LimitExceeded;
            }
          case _ =>
        }
      }
    }
    if depth != 0 || inString {
      return BadStructure;
    }
    return Accepted;
  }

  // ---- Documents and their text ----

  /** A value with the blanks around it; string bodies and scalars are kept as written. */
  datatype Doc = Doc(before: string, core: Core, after: string)

  datatype Core =
    | Scalar(text: string)
    | Str(body: string)
    | Arr(gap: string, items: seq<Doc>)
    | Obj(gap: string, members: seq<Member>)

  datatype Member = Member(before: string, key: string, after: string, value: Doc)

  predicate Plain(c: char) {
    c != '"' && c != '{' && c != '[' && c != '}' && c != ']' && c != ','
  }

  /** Blanks, numbers, true, false, null and the colon: nothing the scanner reacts to. */
  predicate AllPlain(s: string) { forall c :: c in s ==> Plain(c) }

  /** A string body in which every quote is escaped and no escape is cut short. */
  predicate ValidBody(body: string) {
    body == ""
        || (if body[0] == '\\' then |body| >= 2 && ValidBody(body[2..]) else body[0] != '"' && ValidBody(body[1..]))
  }

  predicate Valid(d: Doc) {
    AllPlain(d.before) && AllPlain(d.after) && ValidCore(d.core)
  }

  predicate ValidCore(core: Core) {
    match core
    case Scalar(text) => AllPlain(text)
    case Str(body) => ValidBody(body)
    case Arr(gap, items) => AllPlain(gap) && forall i :: 0 <= i < |items| ==> Valid(items[i])
    case Obj(gap, members) => AllPlain(gap) && forall i :: 0 <= i < |members| ==> ValidMember(members[i])
  }

  predicate ValidMember(m: Member) {
    AllPlain(m.before) && ValidBody(m.key) && AllPlain(m.after) && Valid(m.value)
  }

  function Quoted(body: string): string { "\"" + body + "\"" }

  function Print(d: Doc): string {
    d.before + PrintCore(d.core) + d.after
  }

  function PrintCore(core: Core): string {
    match core
    case Scalar(text) => text
    case Str(body) => Quoted(body)
    case Arr(gap, items) => "[" + gap + PrintItems(items) + "]"
    case Obj(gap, members) => "{" + gap + PrintMembers(members) + "}"
  }

  function PrintItems(items: seq<Doc>): string {
    if items == [] then ""
    else if |items| == 1 then Print(items[0])
    else Print(items[0]) + "," + PrintItems(items[1..])
  }

  function PrintMember(m: Member): string {
    m.before + Quoted(m.key) + m.after + ":" + Print(m.value)
  }

  function PrintMembers(members: seq<Member>): string {
    if members == [] then ""
    else if |members| == 1 then PrintMember(members[0])
    else PrintMember(members[0]) + "," + PrintMembers(members[1..])
  }

  // ---- Depth and weight ----

  function Max(a: int, b: int): int { if a < b then b else a }

  /** How many arrays and objects nest inside one another. */
  function Depth(d: Doc): nat { CoreDepth(d.core) }

  function CoreDepth(core: Core): nat {
    match core
    case Arr(_, items) => 1 + ItemsDepth(items)
    case Obj(_, members) => 1 + MembersDepth(members)
    case _ => 0
  }

  function ItemsDepth(items: seq<Doc>): nat {
    if items == [] then 0 else Max(Depth(items[0]), ItemsDepth(items[1..]))
  }

  function MembersDepth(members: seq<Member>): nat {
    if members == [] then 0 else Max(Depth(members[0].value), MembersDepth(members[1..]))
  }

  /** Arrays and objects, plus the commas between their elements. */
  function Weight(d: Doc): nat { CoreWeight(d.core) }

  function CoreWeight(core: Core): nat {
    match core
    case Arr(_, items) => 1 + ItemsWeight(items)
    case Obj(_, members) => 1 + MembersWeight(members)
    case _ => 0
  }

  function ItemsWeight(items: seq<Doc>): nat {
    if items == [] then 0 else Weight(items[0]) + (if |items| == 1 then 0 else 1 + ItemsWeight(items[1..]))
  }

  function MembersWeight(members: seq<Member>): nat {
    if members == [] then 0
        else Weight(members[0].value) + (if |members| == 1 then 0 else 1 + MembersWeight(members[1..]))
  }

  // ---- Scanning a document ----

  function At(depth: int, items: int): State { State(depth, items, false, false) }

  predicate Fits(depth: int, items: int, d: nat, w: nat) { depth + d <= MAX_DEPTH && items + w <= MAX_ITEMS }

  /** Outside a string, a stretch nests at most `d` deeper and weighs `w`: it is passed if that fits, else refused. */
  predicate Passes(depth: int, items: int, d: nat, w: nat, text: string, rest: string) {
    Scan(At(depth, items), text + rest) == if Fits(depth, items, d, w) then Scan(At(depth, items + w), rest)
                                             else LimitExceeded
  }

  lemma {:induction false} PlainPasses(s: State, text: string, rest: string)
    requires !s.inString && AllPlain(text)
    ensures Scan(s, text + rest) == Scan(s, rest)
  {
    if text == "" {
      assert text + rest == rest;
    } else {
      assert text[0] in text;
      assert (text + rest)[1..] == text[1..] + rest;
      PlainPasses(s, text[1..], rest);
    }
  }

  lemma {:induction false} BodyPasses(s: State, body: string, rest: string)
    requires s.inString && !s.escaped && ValidBody(body)
    ensures Scan(s, body + "\"" + rest) == Scan(s.(inString := false), rest)
  {
    if body == "" {
      assert body + "\"" + rest == "\"" + rest && ("\"" + rest)[1..] == rest;
    } else if body[0] == '\\' {
      var all := body + "\"" + rest;
      assert all[1..][1..] == body[2..] + "\"" + rest;
      BodyPasses(s, body[2..], rest);
    } else {
      assert (body + "\"" + rest)[1..] == body[1..] + "\"" + rest;
      BodyPasses(s, body[1..], rest);
    }
  }

  lemma QuotedPasses(depth: int, items: int, body: string, rest: string)
    requires ValidBody(body)
    ensures Scan(At(depth, items), Quoted(body) + rest) == Scan(At(depth, items), rest)
  {
    assert (Quoted(body) + rest)[1..] == body + "\"" + rest;
    BodyPasses(At(depth, items).(inString := true), body, rest);
  }

  lemma OpenPasses(depth: int, items: int, c: char, rest: string)
    requires c == '{' || c == '['
    ensures Scan(At(depth, items), [c] + rest) == if Fits(depth, items, 1, 1) then Scan(At(depth + 1, items + 1), rest)
                                                    else LimitExceeded
  {
    assert ([c] + rest)[1..] == rest;
  }

  lemma ClosePasses(depth: int, items: int, c: char, rest: string)
    requires depth > 0 && (c == '}' || c == ']')
    ensures Scan(At(depth, items), [c] + rest) == Scan(At(depth - 1, items), rest)
  {
    assert ([c] + rest)[1..] == rest;
  }

  lemma CommaPasses(depth: int, items: int, rest: string)
    ensures Scan(At(depth, items), "," + rest) == if items + 1 <= MAX_ITEMS then Scan(At(depth, items + 1), rest)
                                                    else LimitExceeded
  {
    assert ("," + rest)[1..] == rest;
  }

  lemma {:induction false} DocPasses(depth: int, items: int, d: Doc, rest: string)
    requires Valid(d) && depth <= MAX_DEPTH && items <= MAX_ITEMS && depth >= 0
    ensures Passes(depth, items, Depth(d), Weight(d), Print(d), rest)
    decreases d
  {
    var text := PrintCore(d.core);
    assert Print(d) + rest == d.before + (text + (d.after + rest));
    PlainPasses(At(depth, items), d.before, text + (d.after + rest));
    CorePasses(depth, items, d.core, d.after + rest);
    PlainPasses(At(depth, items + Weight(d)), d.after, rest);
  }

  lemma {:induction false} CorePasses(depth: int, items: int, core: Core, rest: string)
    requires ValidCore(core) && depth <= MAX_DEPTH && items <= MAX_ITEMS && depth >= 0
    ensures Passes(depth, items, CoreDepth(core), CoreWeight(core), PrintCore(core), rest)
    decreases core
  {
    match core {
      case Scalar(text) => PlainPasses(At(depth, items), text, rest);
      case Str(body) => QuotedPasses(depth, items, body, rest);
      case Arr(gap, list) =>
        if Fits(depth, items, 1, 1) { ItemsPasses(depth + 1, items + 1, list, [']'] + rest); }
        BracketPasses(depth, items, '[', ']', gap, PrintItems(list), ItemsDepth(list), ItemsWeight(list), rest);
      case Obj(gap, members) =>
        if Fits(depth, items, 1, 1) { MembersPasses(depth + 1, items + 1, members, ['}'] + rest); }
        BracketPasses(depth, items, '{', '}', gap, PrintMembers(members), MembersDepth(members), MembersWeight(members),
            rest);
    }
  }

  lemma BracketPasses(depth: int, items: int, open: char, close: char, gap: string, inner: string, d: nat, w: nat,
                      rest: string)
    requires depth >= 0 && (open == '{' || open == '[') && (close == '}' || close == ']') && AllPlain(gap)
    requires Fits(depth, items, 1, 1) ==> Passes(depth + 1, items + 1, d, w, inner, [close] + rest)
    ensures Passes(depth, items, 1 + d, 1 + w, [open] + gap + inner + [close], rest)
  {
    var tail := inner + ([close] + rest);
    assert [open] + gap + inner + [close] + rest == [open] + (gap + tail);
    OpenPasses(depth, items, open, gap + tail);
    if Fits(depth, items, 1, 1) {
      PlainPasses(At(depth + 1, items + 1), gap, tail);
      ClosePasses(depth + 1, items + 1 + w, close, rest);
    }
  }

  lemma {:induction false} ItemsPasses(depth: int, items: int, list: seq<Doc>, rest: string)
    requires (forall i :: 0 <= i < |list| ==> Valid(list[i])) && depth <= MAX_DEPTH && items <= MAX_ITEMS && depth >= 0
    ensures Passes(depth, items, ItemsDepth(list), ItemsWeight(list), PrintItems(list), rest)
    decreases list
  {
    if list == [] {
      assert PrintItems(list) + rest == rest;
    } else if |list| == 1 {
      DocPasses(depth, items, list[0], rest);
      assert ItemsDepth(list[1..]) == 0;
    } else {
      var tail := PrintItems(list[1..]);
      assert PrintItems(list) + rest == Print(list[0]) + ("," + (tail + rest));
      DocPasses(depth, items, list[0], "," + (tail + rest));
      var after := items + Weight(list[0]);
      CommaPasses(depth, after, tail + rest);
      if after + 1 <= MAX_ITEMS { ItemsPasses(depth, after + 1, list[1..], rest); }
    }
  }

  lemma MemberPasses(depth: int, items: int, m: Member, rest: string)
    requires ValidMember(m) && depth <= MAX_DEPTH && items <= MAX_ITEMS && depth >= 0
    ensures Passes(depth, items, Depth(m.value), Weight(m.value), PrintMember(m), rest)
    decreases m
  {
    var value := Print(m.value) + rest;
    assert PrintMember(m) + rest == m.before + (Quoted(m.key) + (m.after + (":" + value)));
    PlainPasses(At(depth, items), m.before, Quoted(m.key) + (m.after + (":" + value)));
    QuotedPasses(depth, items, m.key, m.after + (":" + value));
    PlainPasses(At(depth, items), m.after, ":" + value);
    PlainPasses(At(depth, items), ":", value);
    DocPasses(depth, items, m.value, rest);
  }

  lemma {:induction false} MembersPasses(depth: int, items: int, list: seq<Member>, rest: string)
    requires (forall i :: 0 <= i < |list| ==> ValidMember(list[i])) && depth <= MAX_DEPTH && items <= MAX_ITEMS
    requires depth >= 0
    ensures Passes(depth, items, MembersDepth(list), MembersWeight(list), PrintMembers(list), rest)
    decreases list
  {
    if list == [] {
      assert PrintMembers(list) + rest == rest;
    } else if |list| == 1 {
      MemberPasses(depth, items, list[0], rest);
      assert MembersDepth(list[1..]) == 0;
    } else {
      var tail := PrintMembers(list[1..]);
      assert PrintMembers(list) + rest == PrintMember(list[0]) + ("," + (tail + rest));
      MemberPasses(depth, items, list[0], "," + (tail + rest));
      var after := items + Weight(list[0].value);
      CommaPasses(depth, after, tail + rest);
      if after + 1 <= MAX_ITEMS { MembersPasses(depth, after + 1, list[1..], rest); }
    }
  }

  /** On the text of any document the scanner accepts exactly within both bounds, and otherwise reports the limit. */
  lemma AcceptsExactly(d: Doc)
    requires Valid(d)
    ensures Scan(At(0, 0), Print(d)) == if Depth(d) <= 64 && Weight(d) <= 10_000 then Accepted
                                          else LimitExceeded
  {
    DocPasses(0, 0, d, "");
    assert Print(d) + "" == Print(d);
  }
}
