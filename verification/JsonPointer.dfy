/** Resolving a JSON Pointer in a decoded document (section 4 of RFC 6901). */
module JsonPointer {
  import opened Wrappers
  import opened JsonValues
  import opened PointerTokens

  type Word = n: nat | n < WORDS

  datatype Step = Member(name: string) | Index(at: Word)

  datatype Fault = NoLeadingSlash | BadEscape | MissingMember | BadIndex | NotAContainer

  // ---- Paths in a document ----

  function Child(doc: Json, s: Step): Option<Json> {
    match s
    case Member(name) => if doc.JObject? && name in doc.fields then Some(doc.fields[name]) else None
    case Index(i) => if doc.JArray? && i < |doc.items| then Some(doc.items[i]) else None
  }

  function ValueAt(doc: Json, path: seq<Step>): Option<Json> {
    if path == [] then Some(doc)
    else
      match Child(doc, path[0])
      case Some(child) => ValueAt(child, path[1..])
      case None => None
  }

  function TextOf(s: Step): string {
    match s
    case Member(name) => name
    case Index(i) => Decimal(i)
  }

  function Raw(s: Step): string { Escape(TextOf(s)) }

  function RawAll(path: seq<Step>): (raw: seq<string>)
    ensures |raw| == |path|
  {
    if path == [] then [] else [Raw(path[0])] + RawAll(path[1..])
  }

  /** The pointer that names a path. */
  function PointerTo(path: seq<Step>): string {
    if path == [] then "" else "/" + Join(RawAll(path))
  }

  // ---- Resolution ----

  /** One token against one value. */
  function Descend(doc: Json, raw: string): Result<Json, Fault> {
    match Decode(raw)
    case None => Err(BadEscape)
    case Some(token) =>
      match doc
      case JObject(fields) => if token in fields then Ok(fields[token]) else Err(MissingMember)
      case JArray(items) =>
        (match ParseIndex(token)
         case Some(i) => if i < |items| then Ok(items[i]) else Err(BadIndex)
         case None => Err(BadIndex))
      case _ => Err(NotAContainer)
  }

  function DescendAll(doc: Json, tokens: seq<string>): Result<Json, Fault> {
    if tokens == [] then Ok(doc)
    else
      match Descend(doc, tokens[0])
      case Ok(child) => DescendAll(child, tokens[1..])
      case Err(e) => Err(e)
  }

  function Resolve(doc: Json, pointer: string): Result<Json, Fault> {
    if pointer == "" then Ok(doc)
    else if pointer[0] != '/' then Err(NoLeadingSlash)
    else DescendAll(doc, Split(pointer[1..]))
  }

  /** The body of the loop over tokens. */
  method DescendToken(current: Json, raw: string) returns (r: Result<Json, Fault>)
    ensures r == Descend(current, raw)
  {
    var token := DecodeToken(raw);
    if token.None? {
      return Err(BadEscape);
    }
    match current {
      case JObject(fields) =>
        if token.value !in fields {
          return Err(MissingMember);
        }
        return Ok(fields[token.value]);
      case JArray(items) =>
        var index := ParseIndex(token.value);
        if index.None? || index.value >= |items| {
          return Err(BadIndex);
        }
        return Ok(items[index.value]);
      case _ =>
        return Err(NotAContainer);
    }
  }

  /** resolveJSONPointer. */
  method ResolvePointer(doc: Json, pointer: string) returns (r: Result<Json, Fault>)
    ensures r == Resolve(doc, pointer)
  {
    if pointer == "" {
      return Ok(doc);
    }
    if pointer[0] != '/' {
      return Err(NoLeadingSlash);
    }
    var current := doc;
    var tokens := SplitTokens(pointer[1..]);
    for n := 0 to |tokens|
      invariant Resolve(doc, pointer) == DescendAll(current, tokens[n..])
    {
      ghost var left := tokens[n..];
      assert left[0] == tokens[n] && left[1..] == tokens[n + 1..];
      var child := DescendToken(current, tokens[n]);
      if child.Err? {
        return child;
      }
      current := child.value;
    }
    assert tokens[|tokens|..] == [];
    return Ok(current);
  }

  // ---- Every path can be named ----

  lemma DescendStep(doc: Json, s: Step)
    requires Child(doc, s).Some?
    ensures Descend(doc, Raw(s)) == Ok(Child(doc, s).value)
  {
    DecodeEscape(TextOf(s));
    if s.Index? { ValueDecimal(s.at); }
  }

  lemma {:induction false} DescendPath(doc: Json, path: seq<Step>)
    requires ValueAt(doc, path).Some?
    ensures DescendAll(doc, RawAll(path)) == Ok(ValueAt(doc, path).value)
  {
    if path != [] {
      DescendStep(doc, path[0]);
      DescendPath(Child(doc, path[0]).value, path[1..]);
      assert RawAll(path)[1..] == RawAll(path[1..]);
    }
  }

  lemma {:induction false} RawSlashFree(path: seq<Step>)
    ensures forall i :: 0 <= i < |path| ==> '/' !in RawAll(path)[i]
  {
    if path != [] { RawSlashFree(path[1..]); }
  }

  /** Escaping and joining any path of the document gives a pointer that resolves to its value. */
  lemma ResolvesPath(doc: Json, path: seq<Step>)
    requires ValueAt(doc, path).Some?
    ensures Resolve(doc, PointerTo(path)) == Ok(ValueAt(doc, path).value)
  {
    if path != [] {
      RawSlashFree(path);
      SplitJoin(RawAll(path));
      assert PointerTo(path)[1..] == Join(RawAll(path));
      DescendPath(doc, path);
    }
  }

  // ---- Every success is a path ----

  /** The step a token takes from a value. */
  function StepOf(doc: Json, raw: string): (s: Step)
    requires Descend(doc, raw).Ok?
    ensures Child(doc, s) == Some(Descend(doc, raw).value)
  {
    var token := Decode(raw).value;
    if doc.JObject? then Member(token) else Index(ParseIndex(token).value)
  }

  function StepsOf(doc: Json, tokens: seq<string>): (path: seq<Step>)
    requires DescendAll(doc, tokens).Ok?
    ensures |path| == |tokens| && ValueAt(doc, path) == Some(DescendAll(doc, tokens).value)
  {
    if tokens == [] then [] else [StepOf(doc, tokens[0])] + StepsOf(Descend(doc, tokens[0]).value, tokens[1..])
  }

  /** A token is written as the pointer of its step would be, except for an index with leading zeros. */
  predicate Standard(s: Step, raw: string) {
    s.Index? ==> Decode(raw).Some? && Canonical(Decode(raw).value)
  }

  lemma StepWritten(doc: Json, raw: string)
    requires Descend(doc, raw).Ok? && '/' !in raw
    ensures Raw(StepOf(doc, raw)) == raw <==> Standard(StepOf(doc, raw), raw)
  {
    var token := Decode(raw).value;
    EscapeDecode(raw);
    if StepOf(doc, raw).Index? {
      DecimalValue(token);
      DecodeEscape(Decimal(Value(token)));
    }
  }

  predicate AllStandard(path: seq<Step>, tokens: seq<string>)
    requires |path| == |tokens|
  {
    forall i :: 0 <= i < |path| ==> Standard(path[i], tokens[i])
  }

  lemma StandardFirst(path: seq<Step>, tokens: seq<string>)
    requires |path| == |tokens| > 0
    ensures AllStandard(path, tokens) <==> Standard(path[0], tokens[0]) && AllStandard(path[1..], tokens[1..])
  {
    assert forall i :: 0 < i < |path| ==> path[i] == path[1..][i - 1] && tokens[i] == tokens[1..][i - 1];
  }

  /** One step and the steps after it, against one token and the tokens after it. */
  lemma RawAllFirst(path: seq<Step>, tokens: seq<string>)
    requires |path| == |tokens| > 0
    ensures RawAll(path) == tokens <==> Raw(path[0]) == tokens[0] && RawAll(path[1..]) == tokens[1..]
  {
    var rest := RawAll(path[1..]);
    assert RawAll(path) == [Raw(path[0])] + rest && tokens == [tokens[0]] + tokens[1..];
    assert RawAll(path)[1..] == rest && RawAll(path)[0] == Raw(path[0]);
  }

  lemma StepsFirst(doc: Json, tokens: seq<string>)
    requires tokens != [] && DescendAll(doc, tokens).Ok?
    ensures Descend(doc, tokens[0]).Ok? && DescendAll(Descend(doc, tokens[0]).value, tokens[1..]).Ok?
    ensures StepsOf(doc, tokens)[0] == StepOf(doc, tokens[0])
    ensures StepsOf(doc, tokens)[1..] == StepsOf(Descend(doc, tokens[0]).value, tokens[1..])
  {
  }

  lemma {:induction false} StepsWritten(doc: Json, tokens: seq<string>)
    requires DescendAll(doc, tokens).Ok? && forall i :: 0 <= i < |tokens| ==> '/' !in tokens[i]
    ensures RawAll(StepsOf(doc, tokens)) == tokens <==> AllStandard(StepsOf(doc, tokens), tokens)
  {
    if tokens != [] {
      var path := StepsOf(doc, tokens);
      StepsFirst(doc, tokens);
      StepWritten(doc, tokens[0]);
      StepsWritten(Descend(doc, tokens[0]).value, tokens[1..]);
      RawAllFirst(path, tokens);
      StandardFirst(path, tokens);
    }
  }

  function PathOf(doc: Json, pointer: string): (path: seq<Step>)
    requires Resolve(doc, pointer).Ok?
  {
    if pointer == "" then [] else StepsOf(doc, Split(pointer[1..]))
  }

  lemma PathHasValue(doc: Json, pointer: string)
    requires Resolve(doc, pointer).Ok?
    ensures ValueAt(doc, PathOf(doc, pointer)) == Some(Resolve(doc, pointer).value)
  {
  }

  /** Joining and splitting being inverse, the pointer is the path's own exactly when the tokens are. */
  lemma PointerIsTokens(path: seq<Step>, pointer: string)
    requires pointer != "" && pointer[0] == '/' && path != []
    ensures pointer == PointerTo(path) <==> Split(pointer[1..]) == RawAll(path)
  {
    RawSlashFree(path);
    SplitJoin(RawAll(path));
    JoinSplit(pointer[1..]);
    assert pointer == "/" + pointer[1..];
    assert PointerTo(path)[1..] == Join(RawAll(path));
  }

  /**
   Every successful resolution is a real path with that value, and the pointer is the one RFC 6901
   prescribes for it exactly when no array index is written with leading zeros.
   */
  lemma ResolutionIsPath(doc: Json, pointer: string)
    requires Resolve(doc, pointer).Ok?
    ensures ValueAt(doc, PathOf(doc, pointer)) == Some(Resolve(doc, pointer).value)
    ensures pointer == PointerTo(PathOf(doc, pointer)) <==> pointer == ""
                                                              || AllStandard(PathOf(doc, pointer), Split(pointer[1..]))
  {
    PathHasValue(doc, pointer);
    if pointer != "" {
      StepsWritten(doc, Split(pointer[1..]));
      PointerIsTokens(PathOf(doc, pointer), pointer);
    }
  }

  /** Section 4 of RFC 6901 forbids leading zeros; the resolver accepts them. */
  lemma LeadingZeroAccepted(v: Json)
    ensures Resolve(JArray([v]), "/00") == Ok(v) && PathOf(JArray([v]), "/00") == [Index(0)]
    ensures PointerTo([Index(0)]) == "/0"
  {
    var pointer := "/00";
    SplitPrefix("00", "");
    assert pointer[1..] == "00" && "00"[1..] == "0" && "0"[1..] == "";
    assert ['0'] + "" == "0" && ['0'] + "0" == "00";
    assert Decode("") == Some("");
    assert Decode("0") == Prepend('0', Decode(""));
    assert Decode("00") == Prepend('0', Decode("0"));
    assert "00"[..1] == "0" && "0"[..0] == "" && Value("0") == 0 && Value("00") == 0;
    var tokens := Split(pointer[1..]);
    assert tokens == ["00"] && tokens[1..] == [];
    assert Digits("00") && ParseIndex("00") == Some(0);
    assert Descend(JArray([v]), "00") == Ok(v);
    assert DescendAll(v, []) == Ok(v);
    assert Escape("0") == "0";
    assert RawAll([Index(0)]) == ["0"];
  }

  // ---- Every failure has its cause ----

  /** How a token fails at a value. */
  predicate FailsAt(v: Json, raw: string, e: Fault) {
    match e
    case NoLeadingSlash => false
    case BadEscape => Decode(raw).None?
    case MissingMember => Decode(raw).Some? && v.JObject? && Decode(raw).value !in v.fields
    case BadIndex =>
      && Decode(raw).Some? && v.JArray?
      && (Digits(Decode(raw).value) ==>
            Value(Decode(raw).value) >= |v.items| || Value(Decode(raw).value) >= 18_446_744_073_709_551_616)
    case NotAContainer => Decode(raw).Some? && !v.JObject? && !v.JArray?
  }

  /** All tokens before the n-th lead to a value, at which it fails. */
  ghost predicate FirstFails(doc: Json, tokens: seq<string>, n: nat, e: Fault) {
    && n < |tokens| && DescendAll(doc, tokens[..n]).Ok?
    && FailsAt(DescendAll(doc, tokens[..n]).value, tokens[n], e)
  }

  lemma {:induction false} DescentFails(doc: Json, tokens: seq<string>)
    requires DescendAll(doc, tokens).Err?
    ensures exists n: nat :: FirstFails(doc, tokens, n, DescendAll(doc, tokens).error)
  {
    var e := DescendAll(doc, tokens).error;
    match Descend(doc, tokens[0])
    case Err(_) =>
      assert tokens[..0] == [];
      assert FirstFails(doc, tokens, 0, e);
    case Ok(child) =>
      DescentFails(child, tokens[1..]);
      var n: nat :| FirstFails(child, tokens[1..], n, e);
      assert tokens[..n + 1][1..] == tokens[1..][..n];
      assert FirstFails(doc, tokens, n + 1, e);
  }

  /** A pointer is refused for want of a leading slash, or at the first token that names nothing, by its cause. */
  lemma FailureHasCause(doc: Json, pointer: string)
    requires Resolve(doc, pointer).Err?
    ensures pointer != ""
    ensures pointer[0] != '/' <==> Resolve(doc, pointer).error == NoLeadingSlash
    ensures pointer[0] == '/' ==>
              exists n: nat :: FirstFails(doc, Split(pointer[1..]), n, Resolve(doc, pointer).error)
  {
    if pointer[0] == '/' {
      DescentFails(doc, Split(pointer[1..]));
      var n: nat :| FirstFails(doc, Split(pointer[1..]), n, Resolve(doc, pointer).error);
    }
  }
}
