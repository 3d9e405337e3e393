/**
 Path patterns: the regular expression compileGlob builds, piece by piece, against a matcher that
 follows the pattern directly. Patterns are ASCII; a path is a sequence of characters.
 */
module Glob {

  /** The pieces written between ^ and $. */
  datatype Piece =
    | AnyText          // .*
    | AnyFolders       // (?:.*/)?
    | AnyName          // [^/]*
    | OneChar          // [^/]
    | Literal(c: char)

  // ---- The compiler ----

  /** The piece a non-empty pattern begins with, and how many characters it takes. */
  function Lead(pattern: string): (r: (Piece, nat))
    requires pattern != ""
    ensures 0 < r.1 <= |pattern|
  {
    if pattern[0] == '*' then
      if |pattern| > 1 && pattern[1] == '*' then
        if |pattern| > 2 && pattern[2] == '/' then (AnyFolders, 3) else (AnyText, 2)
      else (AnyName, 1)
    else if pattern[0] == '?' then (OneChar, 1)
    else (Literal(pattern[0]), 1)
  }

  function Compile(pattern: string): seq<Piece>
    decreases |pattern|
  {
    if pattern == "" then [] else [Lead(pattern).0] + Compile(pattern[Lead(pattern).1..])
  }

  // ---- What the pieces accept ----

  /** Go's dot matches any character but a newline. */
  predicate DotsOnly(s: string) { '\n' !in s }

  predicate SlashFree(s: string) { '/' !in s }

  ghost predicate Accepts(pieces: seq<Piece>, path: string)
    decreases |pieces|
  {
    if pieces == [] then path == ""
    else
      var rest := pieces[1..];
      match pieces[0]
      case AnyText => exists k :: 0 <= k <= |path| && DotsOnly(path[..k]) && Accepts(rest, path[k..])
      case AnyFolders => Accepts(rest, path) || exists k :: 0 <= k < |path| && DotsOnly(path[..k]) && path[k] == '/'
                                                  && Accepts(rest, path[k + 1..])
      case AnyName => exists k :: 0 <= k <= |path| && SlashFree(path[..k]) && Accepts(rest, path[k..])
      case OneChar => path != "" && path[0] != '/' && Accepts(rest, path[1..])
      case Literal(c) => path != "" && path[0] == c && Accepts(rest, path[1..])
  }

  // ---- The direct matcher ----

  /** One character of the path at a time; `**` crosses folders, `*` and `?` do not. */
  predicate Matches(pattern: string, path: string)
    decreases |pattern|, |path|, 0
  {
    if pattern == "" then path == ""
    else if pattern[0] == '*' then
      if |pattern| > 1 && pattern[1] == '*' then
        if |pattern| > 2 && pattern[2] == '/' then Matches(pattern[3..], path) || BelowSomeFolder(pattern[3..], path)
        else Matches(pattern[2..], path) || (path != "" && Matches(pattern, path[1..]))
      else Matches(pattern[1..], path) || (path != "" && path[0] != '/' && Matches(pattern, path[1..]))
    else path != "" && MatchesOne(pattern[0], path[0]) && Matches(pattern[1..], path[1..])
  }

  predicate MatchesOne(p: char, c: char) {
    if p == '?' then c != '/' else c == p
  }

  /** The pattern matches what follows some slash of the path. */
  predicate BelowSomeFolder(pattern: string, path: string)
    decreases |pattern|, |path|, 1
  {
    path != "" && ((path[0] == '/' && Matches(pattern, path[1..])) || BelowSomeFolder(pattern, path[1..]))
  }

  // ---- They agree ----

  /** `**` in the direct matcher: some suffix matches. */
  lemma {:induction false} TextSuffix(pattern: string, path: string)
    requires |pattern| > 1 && pattern[0] == '*' && pattern[1] == '*' && !(|pattern| > 2 && pattern[2] == '/')
    ensures Matches(pattern, path) <==> exists k :: 0 <= k <= |path| && Matches(pattern[2..], path[k..])
    decreases |path|
  {
    assert path[0..] == path;
    if path != "" {
      TextSuffix(pattern, path[1..]);
      forall k | 0 <= k < |path| ensures path[1..][k..] == path[k + 1..] {}
      if exists k :: 0 <= k <= |path| && Matches(pattern[2..], path[k..]) {
        var k :| 0 <= k <= |path| && Matches(pattern[2..], path[k..]);
        if k > 0 { assert path[1..][k - 1..] == path[k..]; }
      }
    }
  }

  ghost predicate NamePrefix(pattern: string, path: string, k: int) {
    0 <= k <= |path| && SlashFree(path[..k]) && Matches(pattern, path[k..])
  }

  lemma NamePrefixShifts(pattern: string, path: string, k: nat)
    requires path != "" && 0 < k <= |path|
    ensures NamePrefix(pattern, path, k) <==> path[0] != '/' && NamePrefix(pattern, path[1..], k - 1)
  {
    assert path[..k] == [path[0]] + path[1..][..k - 1];
    assert path[1..][k - 1..] == path[k..];
  }

  /** `*` in the direct matcher: some suffix matches, with no slash before it. */
  lemma {:induction false} NameSuffix(pattern: string, path: string)
    requires pattern != "" && pattern[0] == '*' && !(|pattern| > 1 && pattern[1] == '*')
    ensures Matches(pattern, path) <==> exists k :: NamePrefix(pattern[1..], path, k)
    decreases |path|
  {
    assert path[0..] == path && path[..0] == "";
    assert Matches(pattern[1..], path) <==> NamePrefix(pattern[1..], path, 0);
    if path != "" {
      NameSuffix(pattern, path[1..]);
      forall k | 0 < k <= |path|
        ensures NamePrefix(pattern[1..], path, k) <==> path[0] != '/' && NamePrefix(pattern[1..], path[1..], k - 1)
      {
        NamePrefixShifts(pattern[1..], path, k);
      }
      if path[0] != '/' && Matches(pattern, path[1..]) {
        var k :| NamePrefix(pattern[1..], path[1..], k);
        assert NamePrefix(pattern[1..], path[1..], k + 1 - 1);
        assert NamePrefix(pattern[1..], path, k + 1);
      }
    }
  }

  lemma {:induction false} FolderSuffix(pattern: string, path: string)
    ensures BelowSomeFolder(pattern, path) <==> exists k :: 0 <= k < |path| && path[k] == '/'
                                                  && Matches(pattern, path[k + 1..])
    decreases |path|
  {
    if path != "" {
      FolderSuffix(pattern, path[1..]);
      if BelowSomeFolder(pattern, path[1..]) {
        var k :| 0 <= k < |path| - 1 && path[1..][k] == '/' && Matches(pattern, path[1..][k + 1..]);
        assert path[1..][k + 1..] == path[k + 2..] && path[k + 1] == '/';
        assert Matches(pattern, path[k + 1 + 1..]);
      }
      if exists k :: 0 <= k < |path| && path[k] == '/' && Matches(pattern, path[k + 1..]) {
        var k :| 0 <= k < |path| && path[k] == '/' && Matches(pattern, path[k + 1..]);
        if k > 0 {
          assert path[1..][k - 1] == '/' && path[1..][k..] == path[k + 1..] && Matches(pattern, path[1..][k - 1 + 1..]);
        }
      }
    }
  }

  lemma DotsPrefix(path: string, k: nat)
    requires DotsOnly(path) && k <= |path|
    ensures DotsOnly(path[..k]) && DotsOnly(path[k..])
  {
  }

  /** On paths without a newline the compiled expression and the direct matcher accept the same. */
  lemma {:induction false} CompiledAgrees(pattern: string, path: string)
    requires DotsOnly(path)
    ensures Accepts(Compile(pattern), path) <==> Matches(pattern, path)
    decreases |pattern|
  {
    if pattern == "" {
    } else if pattern[0] == '*' && |pattern| > 1 && pattern[1] == '*' {
      if |pattern| > 2 && pattern[2] == '/' {
        FoldersAgree(pattern, path);
      } else {
        TextAgrees(pattern, path);
      }
    } else if pattern[0] == '*' {
      NameAgrees(pattern, path);
    } else if path != "" {
      DotsPrefix(path, 1);
      CompiledAgrees(pattern[1..], path[1..]);
      assert Compile(pattern)[1..] == Compile(pattern[1..]);
    }
  }

  lemma FoldersAgree(pattern: string, path: string)
    requires DotsOnly(path) && |pattern| > 2 && pattern[0] == '*' && pattern[1] == '*' && pattern[2] == '/'
    ensures Accepts(Compile(pattern), path) <==> Matches(pattern, path)
    decreases |pattern|, 0
  {
    var rest := pattern[3..];
    assert Compile(pattern)[0] == AnyFolders && Compile(pattern)[1..] == Compile(rest);
    CompiledAgrees(rest, path);
    FolderSuffix(rest, path);
    forall k | 0 <= k < |path|
      ensures DotsOnly(path[..k]) && (Accepts(Compile(rest), path[k + 1..]) <==> Matches(rest, path[k + 1..]))
    {
      DotsPrefix(path, k);
      DotsPrefix(path, k + 1);
      CompiledAgrees(rest, path[k + 1..]);
    }
  }

  lemma TextAgrees(pattern: string, path: string)
    requires DotsOnly(path) && |pattern| > 1 && pattern[0] == '*' && pattern[1] == '*'
    requires !(|pattern| > 2 && pattern[2] == '/')
    ensures Accepts(Compile(pattern), path) <==> Matches(pattern, path)
    decreases |pattern|, 0
  {
    var rest := pattern[2..];
    assert Compile(pattern)[0] == AnyText && Compile(pattern)[1..] == Compile(rest);
    TextSuffix(pattern, path);
    forall k | 0 <= k <= |path|
      ensures DotsOnly(path[..k]) && (Accepts(Compile(rest), path[k..]) <==> Matches(rest, path[k..]))
    {
      DotsPrefix(path, k);
      CompiledAgrees(rest, path[k..]);
    }
  }

  lemma NameAgrees(pattern: string, path: string)
    requires DotsOnly(path) && pattern != "" && pattern[0] == '*' && !(|pattern| > 1 && pattern[1] == '*')
    ensures Accepts(Compile(pattern), path) <==> Matches(pattern, path)
    decreases |pattern|, 0
  {
    var rest := pattern[1..];
    assert Compile(pattern)[0] == AnyName && Compile(pattern)[1..] == Compile(rest);
    NameSuffix(pattern, path);
    forall k | 0 <= k <= |path| ensures Accepts(Compile(rest), path[k..]) <==> Matches(rest, path[k..]) {
      DotsPrefix(path, k);
      CompiledAgrees(rest, path[k..]);
    }
    assert forall k :: 0 <= k <= |path| && SlashFree(path[..k]) && Accepts(Compile(rest), path[k..]) ==>
             NamePrefix(rest, path, k);
  }

  /** A path is treated alike by every pattern exactly when it holds no newline: `**` tells them apart. */
  lemma AgreementNeedsNoNewline(path: string)
    ensures (forall pattern :: Accepts(Compile(pattern), path) <==> Matches(pattern, path)) <==> DotsOnly(path)
  {
    if DotsOnly(path) {
      forall pattern ensures Accepts(Compile(pattern), path) <==> Matches(pattern, path) {
        CompiledAgrees(pattern, path);
      }
    } else {
      var pattern := "**";
      assert Compile(pattern[2..]) == [] && Compile(pattern) == [AnyText];
      assert Compile(pattern)[1..] == [];
      forall k | 0 <= k <= |path| && path[k..] == "" ensures path[..k] == path {}
      assert !Accepts(Compile(pattern), path);
      TextSuffix(pattern, path);
      assert path[|path|..] == "" && Matches("", path[|path|..]) && pattern[2..] == "";
      assert Matches(pattern, path);
    }
  }

  // ---- Slashes ----

  function Slashes(s: string): nat {
    if s == "" then 0 else (if s[0] == '/' then 1 else 0) + Slashes(s[1..])
  }

  predicate NoDoubleStar(pattern: string) {
    forall i :: 0 <= i < |pattern| - 1 ==> !(pattern[i] == '*' && pattern[i + 1] == '*')
  }

  lemma {:induction false} SlashFreeNone(s: string, t: string)
    requires SlashFree(s)
    ensures Slashes(s + t) == Slashes(t)
  {
    if s == "" {
      assert s + t == t;
    } else {
      assert (s + t)[1..] == s[1..] + t;
      SlashFreeNone(s[1..], t);
    }
  }

  /** Without `**` a pattern accepts only paths with as many slashes as it has itself. */
  lemma {:induction false} SameSlashes(pattern: string, path: string)
    requires NoDoubleStar(pattern) && Accepts(Compile(pattern), path)
    ensures Slashes(path) == Slashes(pattern)
    decreases |pattern|
  {
    if pattern != "" {
      var rest := pattern[1..];
      assert NoDoubleStar(rest) by {
        forall i | 0 <= i < |rest| - 1 ensures !(rest[i] == '*' && rest[i + 1] == '*') {
          assert !(pattern[i + 1] == '*' && pattern[i + 1 + 1] == '*');
        }
      }
      assert !(|pattern| > 1 && pattern[0] == '*' && pattern[0 + 1] == '*');
      assert Compile(pattern)[1..] == Compile(rest);
      if pattern[0] == '*' {
        var k :| 0 <= k <= |path| && SlashFree(path[..k]) && Accepts(Compile(rest), path[k..]);
        SlashFreeNone(path[..k], path[k..]);
        assert path[..k] + path[k..] == path;
        SameSlashes(rest, path[k..]);
      } else {
        SameSlashes(rest, path[1..]);
      }
    }
  }
}
