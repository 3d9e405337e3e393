/** compileGlob: the text of the regular expression, and that this text accepts what the pattern matches. */
module GlobText {
  import opened Wrappers
  import opened Expressions
  import opened Glob

  // ---- The text ----

  lemma Emitted(pattern: string, at: nat, before: seq<Piece>)
    requires at < |pattern|
    ensures var (piece, n) := Lead(pattern[at..]);
      before + Compile(pattern[at..]) == before + [piece] + Compile(pattern[at + n..])
  {
    var (piece, n) := Lead(pattern[at..]);
    assert pattern[at..][n..] == pattern[at + n..];
  }

  const META: string := "\\.+*?()|[]{}^$"

  /** regexp.QuoteMeta of one character. */
  function Quoted(c: char): string { if c in META then ['\\', c] else [c] }

  function Written(piece: Piece): string {
    match piece
    case AnyText => ".*"
    case AnyFolders => "(?:.*/)?"
    case AnyName => "[^/]*"
    case OneChar => "[^/]"
    case Literal(c) => Quoted(c)
  }

  function WrittenAll(pieces: seq<Piece>): string {
    if pieces == [] then "" else WrittenAll(pieces[..|pieces| - 1]) + Written(pieces[|pieces| - 1])
  }

  lemma WrittenAppend(pieces: seq<Piece>, piece: Piece)
    ensures WrittenAll(pieces + [piece]) == WrittenAll(pieces) + Written(piece)
  {
    assert (pieces + [piece])[..|pieces|] == pieces;
  }

  /** The text so far is that of the pieces so far, and the rest of the pattern gives the rest. */
  ghost predicate SoFar(pattern: string, index: nat, pieces: seq<Piece>, text: string) {
    index <= |pattern| && pieces + Compile(pattern[index..]) == Compile(pattern) && text == "^" + WrittenAll(pieces)
  }

  lemma AtStart(pattern: string)
    ensures SoFar(pattern, 0, [], "^")
  {
    assert pattern[0..] == pattern;
  }

  lemma OnePieceMore(pattern: string, index: nat, pieces: seq<Piece>, text: string)
    requires index < |pattern| && SoFar(pattern, index, pieces, text)
    ensures var (piece, n) := Lead(pattern[index..]);
      SoFar(pattern, index + n, pieces + [piece], text + Written(piece))
  {
    Emitted(pattern, index, pieces);
    TextGrows(text, pieces, Lead(pattern[index..]).0);
  }

  lemma TextGrows(text: string, pieces: seq<Piece>, piece: Piece)
    requires text == "^" + WrittenAll(pieces)
    ensures text + Written(piece) == "^" + WrittenAll(pieces + [piece])
  {
    WrittenAppend(pieces, piece);
    Regrouped("^", WrittenAll(pieces), Written(piece));
  }

  lemma Regrouped(x: string, y: string, z: string)
    ensures x + y + z == x + (y + z)
  {
  }

  lemma AtEnd(pattern: string, pieces: seq<Piece>, text: string)
    requires SoFar(pattern, |pattern|, pieces, text)
    ensures pieces == Compile(pattern) && text == "^" + WrittenAll(pieces)
  {
    assert pattern[|pattern|..] == "";
  }

  /** The switch on the next character. */
  method Emit(pattern: string, start: nat) returns (written: string, index: nat)
    requires start < |pattern|
    ensures written == Written(Lead(pattern[start..]).0) && index == start + Lead(pattern[start..]).1
  {
    index := start;
    match pattern[index] {
      case '*' =>
        if index + 1 < |pattern| && pattern[index + 1] == '*' {
          index := index + 2;
          if index < |pattern| && pattern[index] == '/' {
            written := "(?:.*/)?";
            index := index + 1;
          } else {
            written := ".*";
          }
        } else {
          written := "[^/]*";
          index := index + 1;
        }
      case '?' =>
        written := "[^/]";
        index := index + 1;
      case c =>
        written := Quoted(c);
        index := index + 1;
    }
  }

  // ---- Reading the text back ----

  /** What a piece spells. */
  function PieceExpr(piece: Piece): Expr {
    match piece
    case AnyText => Many(Dot)
    case AnyFolders => Maybe(Then(Many(Dot), Then(Just('/'), Empty)))
    case AnyName => Many(Except('/'))
    case OneChar => Except('/')
    case Literal(c) => Just(c)
  }

  function PiecesExpr(pieces: seq<Piece>): Expr {
    if pieces == [] then Empty else Then(PieceExpr(pieces[0]), PiecesExpr(pieces[1..]))
  }

  lemma {:induction false} WrittenFirst(pieces: seq<Piece>)
    requires pieces != []
    ensures WrittenAll(pieces) == Written(pieces[0]) + WrittenAll(pieces[1..])
  {
    var n := |pieces| - 1;
    if n > 0 {
      WrittenFirst(pieces[..n]);
      assert pieces[..n][1..] == pieces[1..][..n - 1];
      Regrouped(Written(pieces[0]), WrittenAll(pieces[1..][..n - 1]), Written(pieces[n]));
    } else {
      assert pieces[..0] == [] && pieces[1..] == [];
    }
  }

  /** No star, question mark or closing bracket: what follows a piece does not change it. */
  predicate Inert(after: string) {
    after == "" || (after[0] != '*' && after[0] != '?' && after[0] != ')')
  }

  lemma WrittenInert(pieces: seq<Piece>)
    ensures Inert(WrittenAll(pieces))
  {
    if pieces != [] { WrittenFirst(pieces); }
  }

  lemma QuotedRead(c: char, after: string)
    ensures ReadAtom(Quoted(c) + after) == Some(Reading(Just(c), after))
  {
    assert (Quoted(c) + after)[|Quoted(c)|..] == after;
    assert Quoted(c)[0] == (Quoted(c) + after)[0];
    assert c in META ==> Quoted(c)[1] == (Quoted(c) + after)[1];
  }

  lemma NameRead(after: string)
    ensures ReadAtom("[^/]" + after) == Some(Reading(Except('/'), after))
  {
    assert ("[^/]" + after)[4..] == after;
  }

  lemma DotsRead(after: string)
    ensures ReadRepeated(".*" + after) == Some(Reading(Many(Dot), after))
  {
    assert (".*" + after)[1..] == "*" + after && ("*" + after)[1..] == after;
  }

  /** The optional folders after the opening of their group. */
  lemma FoldersRead(after: string)
    ensures ReadGroup(".*/)" + after) == Some(Reading(Then(Many(Dot), Then(Just('/'), Empty)), after))
  {
    assert ".*/)" + after == ".*" + ("/)" + after);
    DotsRead("/)" + after);
    assert ("/)" + after)[1..] == ")" + after && (")" + after)[1..] == after;
    assert ReadRepeated("/)" + after) == Some(Reading(Just('/'), ")" + after));
    assert ReadSequence(")" + after) == Some(Reading(Empty, ")" + after));
    assert ReadSequence("/)" + after) == Some(Reading(Then(Just('/'), Empty), ")" + after));
  }

  lemma FolderPieceRead(after: string)
    ensures ReadRepeated(Written(AnyFolders) + after) == Some(Reading(PieceExpr(AnyFolders), after))
  {
    FoldersRead("?" + after);
    assert ("(?:.*/)?" + after)[3..] == ".*/)" + ("?" + after);
    assert ("?" + after)[1..] == after;
  }

  lemma PieceRead(piece: Piece, after: string)
    requires Inert(after)
    ensures ReadRepeated(Written(piece) + after) == Some(Reading(PieceExpr(piece), after))
  {
    match piece
    case AnyText => DotsRead(after);
    case AnyFolders => FolderPieceRead(after);
    case AnyName =>
      NameRead("*" + after);
      assert "[^/]*" + after == "[^/]" + ("*" + after);
      assert ("*" + after)[1..] == after;
    case OneChar => NameRead(after);
    case Literal(c) => QuotedRead(c, after);
  }

  /** Reading the written pieces gives the pieces back. */
  lemma {:induction false} PiecesRead(pieces: seq<Piece>)
    ensures ReadSequence(WrittenAll(pieces)) == Some(Reading(PiecesExpr(pieces), ""))
  {
    if pieces != [] {
      WrittenFirst(pieces);
      WrittenInert(pieces[1..]);
      PieceRead(pieces[0], WrittenAll(pieces[1..]));
      PiecesRead(pieces[1..]);
      WrittenInert(pieces);
    }
  }

  // ---- Accepting ----

  lemma TextDenotes(s: string)
    ensures Denotes(Many(Dot), s) <==> DotsOnly(s)
  {
    ManyOfOne(Dot, s);
  }

  lemma NameDenotes(s: string)
    ensures Denotes(Many(Except('/')), s) <==> SlashFree(s)
  {
    ManyOfOne(Except('/'), s);
  }

  lemma FolderDenotes(s: string)
    ensures Denotes(PieceExpr(AnyFolders), s)
        <==> s == "" || (s[|s| - 1] == '/' && DotsOnly(s[..|s| - 1]))
  {
    var slash := Then(Just('/'), Empty);
    forall t ensures Denotes(slash, t) <==> t == "/" { SlashDenotes(t); }
    if s != "" {
      var group := Then(Many(Dot), slash);
      if Denotes(group, s) {
        var k :| 0 <= k <= |s| && Denotes(Many(Dot), s[..k]) && Denotes(slash, s[k..]);
        assert s[k..] == "/" && s[k..][0] == s[k] && k == |s| - 1;
        TextDenotes(s[..k]);
      }
      if s[|s| - 1] == '/' && DotsOnly(s[..|s| - 1]) {
        TextDenotes(s[..|s| - 1]);
        assert s[|s| - 1..] == "/";
        assert Denotes(Many(Dot), s[..|s| - 1]) && Denotes(slash, s[|s| - 1..]);
      }
      assert PieceExpr(AnyFolders) == Maybe(group);
      assert Denotes(Maybe(group), s) <==> Denotes(group, s);
    }
  }

  lemma SlashDenotes(t: string)
    ensures Denotes(Then(Just('/'), Empty), t) <==> t == "/"
  {
    if t == "/" { assert t[..1] == "/" && t[1..] == ""; }
    if k :| 0 <= k <= |t| && Denotes(Just('/'), t[..k]) && Denotes(Empty, t[k..]) { assert t == t[..k] + t[k..]; }
  }

  /** The pieces as an expression accept what the pieces accept. */
  lemma {:induction false} PiecesDenote(pieces: seq<Piece>, path: string)
    ensures Denotes(PiecesExpr(pieces), path) <==> Accepts(pieces, path)
  {
    if pieces != [] {
      forall k | 0 <= k <= |path|
        ensures Denotes(PiecesExpr(pieces[1..]), path[k..]) <==> Accepts(pieces[1..], path[k..])
      {
        PiecesDenote(pieces[1..], path[k..]);
      }
      match pieces[0]
      case AnyText => TextPieceDenotes(pieces, path);
      case AnyFolders => FoldersDenote(pieces, path);
      case AnyName => NamePieceDenotes(pieces, path);
      case OneChar => OneDenotes(pieces, path);
      case Literal(c) => OneDenotes(pieces, path);
    }
  }

  lemma TextPieceDenotes(pieces: seq<Piece>, path: string)
    requires pieces != [] && pieces[0].AnyText?
    requires forall k :: 0 <= k <= |path| ==>
               (Denotes(PiecesExpr(pieces[1..]), path[k..]) <==> Accepts(pieces[1..], path[k..]))
    ensures Denotes(PiecesExpr(pieces), path) <==> Accepts(pieces, path)
  {
    forall k | 0 <= k <= |path| ensures Denotes(Many(Dot), path[..k]) <==> DotsOnly(path[..k]) {
      TextDenotes(path[..k]);
    }
    if Denotes(PiecesExpr(pieces), path) {
      var k :| 0 <= k <= |path| && Denotes(Many(Dot), path[..k]) && Denotes(PiecesExpr(pieces[1..]), path[k..]);
      assert DotsOnly(path[..k]) && Accepts(pieces[1..], path[k..]);
    }
    if Accepts(pieces, path) {
      var k :| 0 <= k <= |path| && DotsOnly(path[..k]) && Accepts(pieces[1..], path[k..]);
      assert Denotes(Many(Dot), path[..k]) && Denotes(PiecesExpr(pieces[1..]), path[k..]);
    }
  }

  lemma NamePieceDenotes(pieces: seq<Piece>, path: string)
    requires pieces != [] && pieces[0].AnyName?
    requires forall k :: 0 <= k <= |path| ==>
               (Denotes(PiecesExpr(pieces[1..]), path[k..]) <==> Accepts(pieces[1..], path[k..]))
    ensures Denotes(PiecesExpr(pieces), path) <==> Accepts(pieces, path)
  {
    var e := Many(Except('/'));
    forall k | 0 <= k <= |path| ensures Denotes(e, path[..k]) <==> SlashFree(path[..k]) { NameDenotes(path[..k]); }
    if Denotes(PiecesExpr(pieces), path) {
      var k :| 0 <= k <= |path| && Denotes(e, path[..k]) && Denotes(PiecesExpr(pieces[1..]), path[k..]);
      assert SlashFree(path[..k]) && Accepts(pieces[1..], path[k..]);
    }
    if Accepts(pieces, path) {
      var k :| 0 <= k <= |path| && SlashFree(path[..k]) && Accepts(pieces[1..], path[k..]);
      assert Denotes(e, path[..k]) && Denotes(PiecesExpr(pieces[1..]), path[k..]);
    }
  }

  lemma OneDenotes(pieces: seq<Piece>, path: string)
    requires pieces != [] && (pieces[0].OneChar? || pieces[0].Literal?)
    requires forall k :: 0 <= k <= |path| ==>
               (Denotes(PiecesExpr(pieces[1..]), path[k..]) <==> Accepts(pieces[1..], path[k..]))
    ensures Denotes(PiecesExpr(pieces), path) <==> Accepts(pieces, path)
  {
    var e, rest := PieceExpr(pieces[0]), PiecesExpr(pieces[1..]);
    if Denotes(PiecesExpr(pieces), path) {
      var k :| 0 <= k <= |path| && Denotes(e, path[..k]) && Denotes(rest, path[k..]);
      assert k == 1 && path[..1] == [path[0]];
    }
    if Accepts(pieces, path) {
      assert path[..1] == [path[0]];
      assert Denotes(e, path[..1]) && Denotes(rest, path[1..]);
    }
  }

  lemma FoldersDenote(pieces: seq<Piece>, path: string)
    requires pieces != [] && pieces[0].AnyFolders?
    requires forall k :: 0 <= k <= |path| ==>
               (Denotes(PiecesExpr(pieces[1..]), path[k..]) <==> Accepts(pieces[1..], path[k..]))
    ensures Denotes(PiecesExpr(pieces), path) <==> Accepts(pieces, path)
  {
    var e, rest := PieceExpr(AnyFolders), PiecesExpr(pieces[1..]);
    assert path[0..] == path && path[..0] == "";
    forall k | 0 < k <= |path|
      ensures Denotes(e, path[..k]) <==> path[k - 1] == '/' && DotsOnly(path[..k - 1])
    {
      FolderDenotes(path[..k]);
      assert path[..k][..k - 1] == path[..k - 1];
    }
    FolderDenotes("");
    if Denotes(PiecesExpr(pieces), path) {
      var k :| 0 <= k <= |path| && Denotes(e, path[..k]) && Denotes(rest, path[k..]);
      if k > 0 { assert path[k - 1] == '/' && Accepts(pieces[1..], path[k - 1 + 1..]); }
    }
    if Accepts(pieces, path) {
      if Accepts(pieces[1..], path) {
        assert Denotes(e, path[..0]) && Denotes(rest, path[0..]);
      } else {
        var k :| 0 <= k < |path| && DotsOnly(path[..k]) && path[k] == '/' && Accepts(pieces[1..], path[k + 1..]);
        assert Denotes(e, path[..k + 1]) && Denotes(rest, path[k + 1..]);
      }
    }
  }

  /** The text of the pattern's expression accepts a newline-free path exactly when the pattern matches it. */
  lemma WrittenAgrees(pattern: string, text: string, path: string)
    requires text == "^" + WrittenAll(Compile(pattern)) + "$" && DotsOnly(path)
    ensures TextAccepts(text, path) <==> Matches(pattern, path)
  {
    var pieces := Compile(pattern);
    assert text[1..|text| - 1] == WrittenAll(pieces);
    PiecesRead(pieces);
    PiecesDenote(pieces, path);
    CompiledAgrees(pattern, path);
  }

  // ---- The loop ----

  /** compileGlob: the text accepts exactly the newline-free paths the pattern matches. */
  method CompileGlob(pattern: string) returns (text: string)
    ensures Read(text).Some?
    ensures forall path :: DotsOnly(path) ==> (TextAccepts(text, path) <==> Matches(pattern, path))
  {
    text := "^";
    ghost var pieces := [];
    var index := 0;
    AtStart(pattern);
    while index < |pattern|
      invariant SoFar(pattern, index, pieces, text)
    {
      OnePieceMore(pattern, index, pieces, text);
      pieces := pieces + [Lead(pattern[index..]).0];
      var written;
      written, index := Emit(pattern, index);
      text := text + written;
    }
    AtEnd(pattern, pieces, text);
    text := text + "$";
    forall path | DotsOnly(path) ensures TextAccepts(text, path) <==> Matches(pattern, path) {
      WrittenAgrees(pattern, text, path);
    }
    TextReads(pattern, text);
  }

  lemma TextReads(pattern: string, text: string)
    requires text == "^" + WrittenAll(Compile(pattern)) + "$"
    ensures Read(text) == Some(PiecesExpr(Compile(pattern)))
  {
    assert text[1..|text| - 1] == WrittenAll(Compile(pattern));
    PiecesRead(Compile(pattern));
  }
}
