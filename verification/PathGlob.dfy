/** `glob_to_regex` and `matches_any` of scripts/ci-alert.py, and what the emitted
    regular expressions mean for paths read segment by segment. */
module PathGlob {
  import opened Regex
  import opened Text

  /** One piece of output of the translation loop. */
  datatype Token =
    | Lit(c: char)      // re.escape(c)
    | InSegment         // [^/]*
    | OneChar           // [^/]
    | Dirs              // (?:.*/)?
    | Tail              // (?:/.*)?
    | Anything          // .*

  function Piece(t: Token): Regex {
    match t
    case Lit(c) => Chr(c)
    case InSegment => Star(NotSlash)
    case OneChar => NotSlash
    case Dirs => Opt(Cat(Star(Dot), Chr('/')))
    case Tail => Opt(Cat(Chr('/'), Star(Dot)))
    case Anything => Star(Dot)
  }

  function Pieces(ts: seq<Token>): seq<Regex> {
    seq(|ts|, i requires 0 <= i < |ts| => Piece(ts[i]))
  }

  /** The branches of the loop, on what is left of the pattern. */
  function Tokens(pattern: string): seq<Token> {
    if pattern == "" then []
    else if StartsWith(pattern, "**/") then [Dirs] + Tokens(pattern[3..])
    else if pattern == "/**" then [Tail]
    else if pattern == "**" then [Anything]
    else [CharToken(pattern[0])] + Tokens(pattern[1..])
  }

  function CharToken(c: char): Token {
    if c == '*' then InSegment else if c == '?' then OneChar else Lit(c)
  }

  lemma TokenAt(pattern: string, i: nat)
    requires i < |pattern|
    ensures var n := |pattern|;
            Tokens(pattern[i..]) ==
            if i + 3 <= n && pattern[i..i + 3] == "**/" then [Dirs] + Tokens(pattern[i + 3..])
            else if i + 3 == n && pattern[i..i + 3] == "/**" then [Tail] + Tokens(pattern[i + 3..])
            else if i + 2 == n && pattern[i..i + 2] == "**" then [Anything] + Tokens(pattern[i + 2..])
            else [CharToken(pattern[i])] + Tokens(pattern[i + 1..])
  {
    var rest := pattern[i..];
    assert i + 3 <= |pattern| ==> rest[..3] == pattern[i..i + 3] && rest[3..] == pattern[i + 3..];
    assert i + 3 == |pattern| ==> rest == rest[..3];
    assert i + 2 == |pattern| ==> rest == pattern[i..i + 2];
    assert rest[1..] == pattern[i + 1..];
  }

  /** The translation loop. */
  method GlobToRegex(pattern: string) returns (re: Regex)
    ensures re == Concat(Pieces(Tokens(pattern)))
  {
    var out: seq<Regex> := [];
    var i, n := 0, |pattern|;
    ghost var done: seq<Token> := [];
    assert pattern[0..] == pattern;
    while i < n
      invariant 0 <= i <= n
      invariant out == Pieces(done)
      invariant Tokens(pattern) == done + Tokens(pattern[i..])
    {
      TokenAt(pattern, i);
      var token, width;
      if i + 3 <= n && pattern[i..i + 3] == "**/" {
        token, width := Dirs, 3;
      } else if i + 3 == n && pattern[i..i + 3] == "/**" {
        token, width := Tail, 3;
      } else if i + 2 == n && pattern[i..i + 2] == "**" {
        token, width := Anything, 2;
      } else if pattern[i] == '*' {
        token, width := InSegment, 1;
      } else if pattern[i] == '?' {
        token, width := OneChar, 1;
      } else {
        token, width := Lit(pattern[i]), 1;
      }
      EmitOne(done, token, Tokens(pattern[i + width..]));
      out := out + [Piece(token)];
      done := done + [token];
      i := i + width;
    }
    assert done + [] == done;
    re := Concat(out);
  }

  lemma EmitOne(done: seq<Token>, t: Token, rest: seq<Token>)
    ensures Pieces(done + [t]) == Pieces(done) + [Piece(t)]
    ensures done + ([t] + rest) == (done + [t]) + rest
  {
  }

  /** `rx.match(path)` for `^re$`: Python's `$` also matches before a final newline. */
  ghost predicate Accepts(re: Regex, path: string) {
    Matches(re, path, PYTHON) || (|path| > 0 && path[|path| - 1] == '\n' && Matches(re, path[..|path| - 1], PYTHON))
  }

  ghost predicate GlobAccepts(pattern: string, path: string) {
    Accepts(Concat(Pieces(Tokens(pattern))), path)
  }

  // ----- matching segment by segment -------------------------------------------

  /** A name against one pattern segment: `*` any characters, `?` one character. */
  ghost predicate WildMatch(seg: string, name: string)
    decreases |seg|
  {
    if seg == "" then name == ""
    else if seg[0] == '*' then exists k {:trigger Cut(name, k)} :: Cut(name, k) && WildMatch(seg[1..], name[k..])
    else name != "" && (seg[0] == '?' || seg[0] == name[0]) && WildMatch(seg[1..], name[1..])
  }

  /** A path against a pattern, segment by segment: `**` is any number of segments,
      none included. */
  ghost predicate SegmentMatch(ps: seq<string>, qs: seq<string>)
    decreases |ps|
  {
    if |ps| == 0 then |qs| == 0
    else if ps[0] == "**" then exists j {:trigger Cut(qs, j)} :: Cut(qs, j) && SegmentMatch(ps[1..], qs[j..])
    else |qs| > 0 && WildMatch(ps[0], qs[0]) && SegmentMatch(ps[1..], qs[1..])
  }

  predicate NoDoubleStar(seg: string) {
    forall i :: 0 <= i < |seg| - 1 ==> !(seg[i] == '*' && seg[i + 1] == '*')
  }

  /** `**` is used as a whole segment or not at all. */
  predicate WholeStars(ps: seq<string>) {
    forall i :: 0 <= i < |ps| ==> Without(ps[i], '/') && (ps[i] == "**" || NoDoubleStar(ps[i]))
  }

  predicate CleanSegments(qs: seq<string>) {
    |qs| > 0 && forall i :: 0 <= i < |qs| ==> CleanSegment(qs[i])
  }

  predicate CleanSegment(seg: string) {
    seg != "" && Without(seg, '/') && Without(seg, '\n')
  }

  predicate Without(s: string, c: char) {
    forall i :: 0 <= i < |s| ==> s[i] != c
  }

  predicate AllStars(ps: seq<string>) {
    |ps| == 0 || (ps[0] == "**" && AllStars(ps[1..]))
  }

  /** The pattern does not end in two or more `**` segments after some other segment:
      the one shape where zero segments do not count. */
  predicate NoStarRunAtEnd(ps: seq<string>)
    decreases |ps|
  {
    |ps| <= 2 || ((ps[0] != "**" ==> !AllStars(ps[1..])) && NoStarRunAtEnd(ps[1..]))
  }

  /** What the compiled expression accepts, for any pattern that uses `**` as a whole
      segment. It differs from SegmentMatch in the last line: a slash was emitted, so
      another segment has to follow. */
  ghost predicate CompiledMatch(ps: seq<string>, qs: seq<string>)
    requires |ps| > 0 && |qs| > 0
    decreases |ps|
  {
    if ps == ["**"] then true
    else if ps[0] == "**" then
      exists j {:trigger Cut(qs, j)} :: Cut(qs, j) && j < |qs| && CompiledMatch(ps[1..], qs[j..])
    else if |ps| == 1 then WildMatch(ps[0], qs[0]) && |qs| == 1
    else if ps[1..] == ["**"] then WildMatch(ps[0], qs[0])
    else WildMatch(ps[0], qs[0]) && |qs| > 1 && CompiledMatch(ps[1..], qs[1..])
  }

  // ----- tokens against strings ------------------------------------------------

  predicate Eats(t: Token, s: string) {
    match t
    case Lit(c) => s == [c]
    case InSegment => Without(s, '/')
    case OneChar => |s| == 1 && s[0] != '/'
    case Dirs => s == "" || (s[|s| - 1] == '/' && Without(s[..|s| - 1], '\n'))
    case Tail => s == "" || (s[0] == '/' && Without(s[1..], '\n'))
    case Anything => Without(s, '\n')
  }

  ghost predicate TokensMatch(ts: seq<Token>, s: string)
    decreases |ts|
  {
    if |ts| == 0 then s == ""
    else exists k {:trigger Cut(s, k)} :: Cut(s, k) && Eats(ts[0], s[..k]) && TokensMatch(ts[1..], s[k..])
  }

  lemma DotStar(s: string)
    ensures Matches(Star(Dot), s, PYTHON) <==> Without(s, '\n')
  {
    StarOfCharacters(Dot, s, PYTHON);
    if '\n' in s {
      var i :| 0 <= i < |s| && s[i] == '\n';
      assert !Matches(Dot, [s[i]], PYTHON);
    }
  }

  lemma PieceMatches(t: Token, s: string)
    ensures Matches(Piece(t), s, PYTHON) <==> Eats(t, s)
  {
    match t
    case Lit(c) =>
    case OneChar =>
    case InSegment =>
      StarOfCharacters(NotSlash, s, PYTHON);
      if '/' in s {
        var i :| 0 <= i < |s| && s[i] == '/';
        assert !Matches(NotSlash, [s[i]], PYTHON);
      }
    case Anything => DotStar(s);
    case Dirs => DirsMatch(s);
    case Tail => TailMatches(s);
  }

  lemma DirsMatch(s: string)
    ensures Matches(Piece(Dirs), s, PYTHON) <==> Eats(Dirs, s)
  {
    var re := Cat(Star(Dot), Chr('/'));
    if s != "" && Eats(Dirs, s) {
      var k := |s| - 1;
      DotStar(s[..k]);
      assert Cut(s, k) && s[k..] == "/" && Matches(Chr('/'), s[k..], PYTHON);
      assert Matches(re, s, PYTHON);
    }
    if s != "" && Matches(re, s, PYTHON) {
      var k :| Cut(s, k) && Matches(Star(Dot), s[..k], PYTHON) && Matches(Chr('/'), s[k..], PYTHON);
      DotStar(s[..k]);
      assert k == |s| - 1 && s[k] == s[k..][0];
    }
  }

  lemma TailMatches(s: string)
    ensures Matches(Piece(Tail), s, PYTHON) <==> Eats(Tail, s)
  {
    var re := Cat(Chr('/'), Star(Dot));
    if s != "" && Eats(Tail, s) {
      DotStar(s[1..]);
      assert Cut(s, 1) && s[..1] == "/" && Matches(Chr('/'), s[..1], PYTHON);
      assert Matches(re, s, PYTHON);
    }
    if s != "" && Matches(re, s, PYTHON) {
      var k :| Cut(s, k) && Matches(Chr('/'), s[..k], PYTHON) && Matches(Star(Dot), s[k..], PYTHON);
      DotStar(s[k..]);
      assert k == 1 && s[0] == s[..k][0];
    }
  }

  lemma {:induction false} ConcatMatches(ts: seq<Token>, s: string)
    ensures Matches(Concat(Pieces(ts)), s, PYTHON) <==> TokensMatch(ts, s)
    decreases |ts|
  {
    if |ts| > 0 {
      assert Pieces(ts)[0] == Piece(ts[0]) && Pieces(ts)[1..] == Pieces(ts[1..]);
      forall k | 0 <= k <= |s|
        ensures Matches(Piece(ts[0]), s[..k], PYTHON) <==> Eats(ts[0], s[..k])
        ensures Matches(Concat(Pieces(ts[1..])), s[k..], PYTHON) <==> TokensMatch(ts[1..], s[k..])
      {
        PieceMatches(ts[0], s[..k]);
        ConcatMatches(ts[1..], s[k..]);
      }
      assert Concat(Pieces(ts)) == Cat(Piece(ts[0]), Concat(Pieces(ts[1..])));
    }
  }

  // ----- how a pattern splits into tokens --------------------------------------

  function SegmentTokens(seg: string): seq<Token> {
    seq(|seg|, i requires 0 <= i < |seg| => CharToken(seg[i]))
  }

  lemma {:induction false} TokensOfSegment(seg: string, rest: string)
    requires Without(seg, '/') && NoDoubleStar(seg)
    requires rest == "" || rest[0] == '/'
    ensures Tokens(seg + rest) == SegmentTokens(seg) + Tokens(rest)
  {
    var p := seg + rest;
    if seg == "" {
      assert p == rest;
    } else {
      assert p[1..] == seg[1..] + rest;
      assert p[0] == seg[0];
      assert |p| > 1 ==> p[1] == if |seg| > 1 then seg[1] else rest[0];
      TokensOfSegment(seg[1..], rest);
      PlainToken(p);
      SegmentTokensStep(seg, Tokens(rest));
    }
  }

  lemma SegmentTokensStep(seg: string, ts: seq<Token>)
    requires seg != ""
    ensures [CharToken(seg[0])] + (SegmentTokens(seg[1..]) + ts) == SegmentTokens(seg) + ts
  {
  }

  lemma PlainToken(p: string)
    requires p != "" && p[0] != '/' && (|p| > 1 ==> !(p[0] == '*' && p[1] == '*'))
    ensures Tokens(p) == [CharToken(p[0])] + Tokens(p[1..])
  {
  }

  lemma {:induction false} SegmentTokensMatch(seg: string, ts: seq<Token>, s: string)
    requires Without(seg, '/')
    ensures TokensMatch(SegmentTokens(seg) + ts, s)
            <==> SplitsAt(seg, ts, s)
    decreases |seg|
  {
    var all := SegmentTokens(seg) + ts;
    if seg == "" {
      assert all == ts;
      assert s[0..] == s && s[..0] == "";
      assert Cut(s, 0) && WildMatch(seg, s[..0]);
    } else {
      var rest := SegmentTokens(seg[1..]) + ts;
      assert all[0] == CharToken(seg[0]) && all[1..] == rest;
      forall a | 0 <= a <= |s|
        ensures TokensMatch(rest, s[a..]) <==> SplitsAt(seg[1..], ts, s[a..])
      {
        SegmentTokensMatch(seg[1..], ts, s[a..]);
      }
      if TokensMatch(all, s) {
        var a :| Cut(s, a) && Eats(all[0], s[..a]) && TokensMatch(rest, s[a..]);
        LongerSegment(seg, ts, s, a);
      }
      if SplitsAt(seg, ts, s) {
        var a := ShorterSegment(seg, ts, s);
        assert Cut(s, a) && Eats(all[0], s[..a]) && TokensMatch(rest, s[a..]);
      }
    }
  }

  /** `s` is a slash-free name the segment matches, then something `ts` matches. */
  ghost predicate SplitsAt(seg: string, ts: seq<Token>, s: string) {
    exists k {:trigger Cut(s, k)} ::
      Cut(s, k) && Without(s[..k], '/') && WildMatch(seg, s[..k]) && TokensMatch(ts, s[k..])
  }

  lemma LongerSegment(seg: string, ts: seq<Token>, s: string, a: nat)
    requires seg != "" && a <= |s| && Without(seg, '/')
    requires Eats(CharToken(seg[0]), s[..a]) && SplitsAt(seg[1..], ts, s[a..])
    ensures SplitsAt(seg, ts, s)
  {
    var t := s[a..];
    var b :| Cut(t, b) && Without(t[..b], '/') && WildMatch(seg[1..], t[..b]) && TokensMatch(ts, t[b..]);
    var k := a + b;
    var name := s[..k];
    assert name == s[..a] + t[..b] && t[b..] == s[k..];
    assert name[a..] == t[..b];
    if seg[0] != '*' {
      assert a == 1 && s[..a][0] == s[0] == name[0];
    }
    assert Cut(name, a) && WildMatch(seg, name);
    assert Cut(s, k);
  }

  lemma ShorterSegment(seg: string, ts: seq<Token>, s: string) returns (a: nat)
    requires seg != "" && Without(seg, '/') && SplitsAt(seg, ts, s)
    ensures a <= |s| && Eats(CharToken(seg[0]), s[..a]) && SplitsAt(seg[1..], ts, s[a..])
  {
    var k :| Cut(s, k) && Without(s[..k], '/') && WildMatch(seg, s[..k]) && TokensMatch(ts, s[k..]);
    var name := s[..k];
    if seg[0] == '*' {
      a :| Cut(name, a) && WildMatch(seg[1..], name[a..]);
    } else {
      a := 1;
    }
    var t := s[a..];
    assert name[a..] == t[..k - a] && t[k - a..] == s[k..];
    assert s[..a] == name[..a];
    assert Cut(t, k - a) && Without(t[..k - a], '/');
  }

  // ----- paths -----------------------------------------------------------------

  function Path(qs: seq<string>): string {
    Join(qs, "/")
  }

  lemma {:induction false} PathIsClean(qs: seq<string>)
    requires CleanSegments(qs)
    ensures Path(qs) != "" && Without(Path(qs), '\n') && Path(qs)[|Path(qs)| - 1] != '/'
  {
    if |qs| > 1 {
      PathIsClean(qs[1..]);
    }
  }

  /** Where a suffix of the segments starts in the path. */
  function StartOf(qs: seq<string>, j: nat): nat
    requires j < |qs|
  {
    if j == 0 then 0 else |qs[0]| + 1 + StartOf(qs[1..], j - 1)
  }

  lemma {:induction false} SuffixStarts(qs: seq<string>, j: nat)
    requires CleanSegments(qs) && j < |qs|
    ensures var k := StartOf(qs, j);
            k < |Path(qs)| && Path(qs)[k..] == Path(qs[j..]) && (k == 0 || Path(qs)[k - 1] == '/')
  {
    if j > 0 {
      SuffixStarts(qs[1..], j - 1);
      var k := StartOf(qs[1..], j - 1);
      assert qs[1..][j - 1..] == qs[j..];
      assert Path(qs) == qs[0] + "/" + Path(qs[1..]);
      assert Path(qs)[|qs[0]| + 1..] == Path(qs[1..]);
      assert Path(qs)[|qs[0]| + 1 + k..] == Path(qs[1..])[k..];
    } else {
      PathIsClean(qs);
      assert qs[0..] == qs;
    }
  }

  /** After every slash of a clean path a suffix of its segments starts. */
  lemma {:induction false} SlashStartsSuffix(qs: seq<string>, k: nat) returns (j: nat)
    requires CleanSegments(qs) && k <= |Path(qs)| && (k == 0 || Path(qs)[k - 1] == '/')
    ensures j < |qs| && Path(qs)[k..] == Path(qs[j..])
  {
    j := 0;
    assert qs[0..] == qs;
    PathStart(qs);
    if k > 0 {
      var n := |qs[0]| + 1;
      assert k >= n;
      var j' := SlashStartsSuffix(qs[1..], k - n);
      j := j' + 1;
      assert Path(qs)[k..] == Path(qs[1..])[k - n..];
      assert qs[1..][j'..] == qs[j..];
    }
  }

  lemma PathStart(qs: seq<string>)
    requires CleanSegments(qs)
    ensures |Path(qs)| >= |qs[0]| && Path(qs)[..|qs[0]|] == qs[0]
    ensures forall i :: 0 <= i < |qs[0]| ==> Path(qs)[i] != '/'
    ensures |qs| == 1 <==> |Path(qs)| == |qs[0]|
    ensures |qs| > 1 ==> Path(qs)[|qs[0]|] == '/' && Path(qs)[|qs[0]| + 1..] == Path(qs[1..])
  {
    if |qs| > 1 {
      assert Path(qs) == qs[0] + "/" + Path(qs[1..]);
    }
    assert forall i :: 0 <= i < |qs[0]| ==> Path(qs)[i] == qs[0][i];
  }

  /** Up to the first slash a path is its first segment. */
  lemma FirstSegment(qs: seq<string>, k: nat)
    requires CleanSegments(qs) && k <= |Path(qs)| && Without(Path(qs)[..k], '/')
    requires k == |Path(qs)| || Path(qs)[k] == '/'
    ensures k == |qs[0]| && Path(qs)[..k] == qs[0]
    ensures k == |Path(qs)| <==> |qs| == 1
    ensures k < |Path(qs)| ==> Path(qs)[k + 1..] == Path(qs[1..])
  {
    var s := Path(qs);
    PathStart(qs);
    assert forall i :: 0 <= i < k ==> s[..k][i] == s[i];
    assert k == |qs[0]|;
  }

  // ----- the compiled expression, segment by segment ---------------------------

  /** The whole translation: what it accepts is CompiledMatch. */
  lemma {:induction false} TokensMatchCompiled(ps: seq<string>, qs: seq<string>)
    requires |ps| > 0 && WholeStars(ps) && CleanSegments(qs)
    ensures TokensMatch(Tokens(Path(ps)), Path(qs)) <==> CompiledMatch(ps, qs)
    decreases |ps|
  {
    if ps == ["**"] {
      StarsAlone(qs);
    } else if ps[0] == "**" {
      LeadingStars(ps, qs);
    } else if |ps| == 1 {
      LastSegment(ps[0], qs);
    } else if ps[1..] == ["**"] {
      SegmentThenStars(ps[0], qs);
      assert ps == [ps[0], "**"];
    } else {
      SegmentThenSlash(ps, qs);
    }
  }

  lemma StarsAlone(qs: seq<string>)
    requires CleanSegments(qs)
    ensures TokensMatch(Tokens("**"), Path(qs))
  {
    PathIsClean(qs);
    var s := Path(qs);
    assert Tokens("**") == [Anything];
    assert s[..|s|] == s && s[|s|..] == "";
    assert [Anything][1..] == [];
    assert Cut(s, |s|) && TokensMatch([], s[|s|..]);
  }

  lemma {:induction false} LeadingStars(ps: seq<string>, qs: seq<string>)
    requires |ps| > 1 && ps[0] == "**" && WholeStars(ps) && CleanSegments(qs)
    ensures TokensMatch(Tokens(Path(ps)), Path(qs))
            <==> exists j {:trigger Cut(qs, j)} :: Cut(qs, j) && j < |qs| && CompiledMatch(ps[1..], qs[j..])
    decreases |ps|, 0
  {
    var rest := Tokens(Path(ps[1..]));
    StarsThenSlash(ps);
    DirsThen(rest, qs);
    forall j | 0 <= j < |qs|
      ensures SuffixMatches(rest, qs, j) <==> Cut(qs, j) && CompiledMatch(ps[1..], qs[j..])
    {
      TokensMatchCompiled(ps[1..], qs[j..]);
    }
  }

  lemma StarsThenSlash(ps: seq<string>)
    requires |ps| > 1 && ps[0] == "**"
    ensures Tokens(Path(ps)) == [Dirs] + Tokens(Path(ps[1..]))
  {
    var p := Path(ps);
    assert p == "**" + "/" + Path(ps[1..]);
    assert p[..3] == "**/" && p[3..] == Path(ps[1..]);
  }

  ghost predicate SuffixMatches(ts: seq<Token>, qs: seq<string>, j: int) {
    0 <= j < |qs| && TokensMatch(ts, Path(qs[j..]))
  }

  lemma DirsThen(rest: seq<Token>, qs: seq<string>)
    requires CleanSegments(qs)
    ensures TokensMatch([Dirs] + rest, Path(qs)) <==> exists j :: SuffixMatches(rest, qs, j)
  {
    if TokensMatch([Dirs] + rest, Path(qs)) {
      var j := DirsToSuffix(rest, qs);
    }
    if j :| SuffixMatches(rest, qs, j) {
      SuffixToDirs(rest, qs, j);
    }
  }

  lemma DirsToSuffix(rest: seq<Token>, qs: seq<string>) returns (j: nat)
    requires CleanSegments(qs) && TokensMatch([Dirs] + rest, Path(qs))
    ensures SuffixMatches(rest, qs, j)
  {
    var s := Path(qs);
    assert ([Dirs] + rest)[1..] == rest;
    var k :| Cut(s, k) && Eats(Dirs, s[..k]) && TokensMatch(rest, s[k..]);
    assert k == 0 || s[k - 1] == s[..k][k - 1];
    j := SlashStartsSuffix(qs, k);
  }

  lemma SuffixToDirs(rest: seq<Token>, qs: seq<string>, j: nat)
    requires CleanSegments(qs) && SuffixMatches(rest, qs, j)
    ensures TokensMatch([Dirs] + rest, Path(qs))
  {
    var s := Path(qs);
    var k := StartOf(qs, j);
    PathIsClean(qs);
    SuffixStarts(qs, j);
    assert ([Dirs] + rest)[1..] == rest;
    assert Cut(s, k) && Eats(Dirs, s[..k]);
  }

  lemma LastSegment(seg: string, qs: seq<string>)
    requires Without(seg, '/') && NoDoubleStar(seg) && CleanSegments(qs)
    ensures TokensMatch(Tokens(seg), Path(qs)) <==> WildMatch(seg, qs[0]) && |qs| == 1
  {
    var s := Path(qs);
    TokensOfSegment(seg, "");
    assert seg + "" == seg && SegmentTokens(seg) + [] == SegmentTokens(seg);
    SegmentTokensMatch(seg, [], s);
    if k :| Cut(s, k) && Without(s[..k], '/') && WildMatch(seg, s[..k]) && TokensMatch([], s[k..]) {
      assert k == |s|;
      FirstSegment(qs, k);
    }
    if WildMatch(seg, qs[0]) && |qs| == 1 {
      assert Cut(s, |s|) && s[..|s|] == qs[0] && TokensMatch([], s[|s|..]);
    }
  }

  lemma PairPath(seg: string)
    ensures Path([seg, "**"]) == seg + "/**"
  {
    assert [seg, "**"][1..] == ["**"] && Path(["**"]) == "**";
    assert Path([seg, "**"]) == seg + "/" + "**";
    assert seg + "/" + "**" == seg + ("/" + "**");
    assert "/" + "**" == "/**";
  }

  lemma SegmentThenStars(seg: string, qs: seq<string>)
    requires Without(seg, '/') && NoDoubleStar(seg) && CleanSegments(qs)
    ensures TokensMatch(Tokens(Path([seg, "**"])), Path(qs)) <==> WildMatch(seg, qs[0])
  {
    var s := Path(qs);
    PairPath(seg);
    TokensOfSegment(seg, "/**");
    SegmentTokensMatch(seg, [Tail], s);
    PathIsClean(qs);
    assert [Tail][1..] == [];
    if k :| Cut(s, k) && Without(s[..k], '/') && WildMatch(seg, s[..k]) && TokensMatch([Tail], s[k..]) {
      var b :| Cut(s[k..], b) && Eats(Tail, s[k..][..b]) && TokensMatch([], s[k..][b..]);
      assert s[k..][..b] == s[k..];
      FirstSegment(qs, k);
    }
    if WildMatch(seg, qs[0]) {
      var k := |qs[0]|;
      assert s[..k] == qs[0] && (k == |s| || s[k] == '/');
      var rest := s[k..];
      assert rest[..|rest|] == rest && TokensMatch([], rest[|rest|..]);
      assert forall i :: 0 <= i < |rest| ==> rest[i] == s[k + i];
      assert Eats(Tail, rest[..|rest|]);
      assert Cut(rest, |rest|) && TokensMatch([Tail], rest);
      assert Cut(s, k);
    }
  }

  lemma NotTheStars(ps: seq<string>)
    requires |ps| > 0 && WholeStars(ps) && ps != ["**"]
    ensures Path(ps) != "**"
  {
    SplitUndoesJoin(ps, '/');
    SplitPlain("**", '/');
  }

  lemma {:induction false} SegmentThenSlash(ps: seq<string>, qs: seq<string>)
    requires |ps| > 1 && ps[0] != "**" && ps[1..] != ["**"] && WholeStars(ps) && CleanSegments(qs)
    ensures TokensMatch(Tokens(Path(ps)), Path(qs))
            <==> WildMatch(ps[0], qs[0]) && |qs| > 1 && CompiledMatch(ps[1..], qs[1..])
    decreases |ps|, 0
  {
    var s := Path(qs);
    var after := Path(ps[1..]);
    var rest := "/" + after;
    assert Path(ps) == ps[0] + rest;
    assert rest[1..] == after;
    NotTheStars(ps[1..]);
    assert rest[1..] != "/**"[1..];
    assert !StartsWith(rest, "**/") && rest != "**" by { assert rest[0] != "**/"[0] && rest[0] != "**"[0]; }
    assert Tokens(rest) == [Lit('/')] + Tokens(after);
    TokensOfSegment(ps[0], rest);
    SegmentTokensMatch(ps[0], Tokens(rest), s);
    assert Tokens(rest)[1..] == Tokens(after);
    if k :| Cut(s, k) && Without(s[..k], '/') && WildMatch(ps[0], s[..k]) && TokensMatch(Tokens(rest), s[k..]) {
      var b :| Cut(s[k..], b) && Eats(Lit('/'), s[k..][..b]) && TokensMatch(Tokens(after), s[k..][b..]);
      assert b == 1 && s[k..][..b][0] == s[k];
      FirstSegment(qs, k);
      assert s[k..][1..] == s[k + 1..];
      TokensMatchCompiled(ps[1..], qs[1..]);
    }
    if WildMatch(ps[0], qs[0]) && |qs| > 1 && CompiledMatch(ps[1..], qs[1..]) {
      var k := |qs[0]|;
      assert s == qs[0] + "/" + Path(qs[1..]);
      assert s[..k] == qs[0] && s[k..][..1] == "/" && s[k..][1..] == Path(qs[1..]);
      TokensMatchCompiled(ps[1..], qs[1..]);
      assert Cut(s[k..], 1) && TokensMatch(Tokens(rest), s[k..]);
      assert Cut(s, k);
    }
  }

  // ----- compiled and intended meaning -----------------------------------------

  lemma {:induction false} StarsMatchAnything(ps: seq<string>, qs: seq<string>)
    requires AllStars(ps)
    ensures SegmentMatch(ps, qs) <==> |ps| > 0 || |qs| == 0
  {
    if |ps| > 0 {
      StarsMatchAnything(ps[1..], []);
      assert qs[|qs|..] == [];
      assert Cut(qs, |qs|) && SegmentMatch(ps[1..], qs[|qs|..]);
    }
  }

  lemma {:induction false} OnlyStarsMatchNothing(ps: seq<string>)
    ensures SegmentMatch(ps, []) <==> AllStars(ps)
  {
    if |ps| > 0 {
      OnlyStarsMatchNothing(ps[1..]);
      var none: seq<string> := [];
      assert Cut(none, 0) && none[0..] == none;
    }
  }

  lemma {:induction false} CompiledMeansIntended(ps: seq<string>, qs: seq<string>)
    requires |ps| > 0 && |qs| > 0 && NoStarRunAtEnd(ps)
    ensures CompiledMatch(ps, qs) <==> SegmentMatch(ps, qs)
    decreases |ps|
  {
    if ps == ["**"] {
      StarsMatchAnything(ps, qs);
    } else if ps[0] == "**" {
      forall j | 0 <= j < |qs|
        ensures CompiledMatch(ps[1..], qs[j..]) <==> SegmentMatch(ps[1..], qs[j..])
      {
        CompiledMeansIntended(ps[1..], qs[j..]);
      }
      if SegmentMatch(ps[1..], qs[|qs|..]) {
        OnlyStarsMatchNothing(ps[1..]);
        StarsMatchAnything(ps[1..], qs[0..]);
        assert Cut(qs, 0);
      }
    } else if |ps| > 1 {
      if ps[1..] == ["**"] {
        StarsMatchAnything(ps[1..], qs[1..]);
      } else if |qs| > 1 {
        CompiledMeansIntended(ps[1..], qs[1..]);
      } else {
        OnlyStarsMatchNothing(ps[1..]);
      }
    }
  }

  lemma CompiledGlob(pattern: string, path: string)
    requires WholeStars(Split(pattern, '/')) && CleanSegments(Split(path, '/'))
    ensures GlobAccepts(pattern, path) <==> CompiledMatch(Split(pattern, '/'), Split(path, '/'))
  {
    JoinUndoesSplit(pattern, '/');
    JoinUndoesSplit(path, '/');
    PathIsClean(Split(path, '/'));
    ConcatMatches(Tokens(pattern), path);
    TokensMatchCompiled(Split(pattern, '/'), Split(path, '/'));
  }

  /** Compiling keeps the meaning: for patterns that use `**` as a whole segment and do
      not end in a run of them, and for newline-free paths without empty segments. */
  lemma GlobKeepsMeaning(pattern: string, path: string)
    requires WholeStars(Split(pattern, '/')) && NoStarRunAtEnd(Split(pattern, '/'))
    requires CleanSegments(Split(path, '/'))
    ensures GlobAccepts(pattern, path) <==> SegmentMatch(Split(pattern, '/'), Split(path, '/'))
  {
    CompiledGlob(pattern, path);
    CompiledMeansIntended(Split(pattern, '/'), Split(path, '/'));
  }

  // ----- the exact condition ---------------------------------------------------

  function Named(ps: seq<string>): seq<string> {
    if |ps| == 0 then []
    else (if ps[0] == "**" then [] else [Example(ps[0])]) + Named(ps[1..])
  }

  /** A name the segment matches. */
  function Example(seg: string): (r: string)
    ensures |r| == |seg|
  {
    seq(|seg|, i requires 0 <= i < |seg| => if seg[i] == '*' || seg[i] == '?' then 'x' else seg[i])
  }

  lemma {:induction false} ExampleMatches(seg: string)
    ensures WildMatch(seg, Example(seg))
  {
    if seg != "" {
      ExampleMatches(seg[1..]);
      assert Cut(Example(seg), 1) && Example(seg)[1..] == Example(seg[1..]);
    }
  }

  lemma {:induction false} NamedMatches(ps: seq<string>)
    ensures SegmentMatch(ps, Named(ps))
  {
    if |ps| > 0 {
      NamedMatches(ps[1..]);
      if ps[0] == "**" {
        assert Cut(Named(ps), 0) && Named(ps)[0..] == Named(ps[1..]);
      } else {
        ExampleMatches(ps[0]);
        assert Named(ps)[1..] == Named(ps[1..]);
      }
    }
  }

  lemma {:induction false} NamedIsClean(ps: seq<string>)
    requires forall i :: 0 <= i < |ps| ==> CleanSegment(ps[i])
    ensures forall i :: 0 <= i < |Named(ps)| ==> CleanSegment(Named(ps)[i])
    ensures |Named(ps)| == 0 <==> AllStars(ps)
  {
    if |ps| > 0 {
      NamedIsClean(ps[1..]);
      assert ps == [ps[0]] + ps[1..];
      assert forall i :: 0 <= i < |ps[0]| ==> Example(ps[0])[i] == 'x' || Example(ps[0])[i] == ps[0][i];
    }
  }

  /** Each segment that is not `**` takes one path segment, and a run of `**` at the
      end takes one more. */
  lemma {:induction false} RunNeedsOneMore(ps: seq<string>, qs: seq<string>)
    requires |ps| > 0 && |qs| > 0 && CompiledMatch(ps, qs)
    ensures |qs| >= |Named(ps)|
    ensures !NoStarRunAtEnd(ps) ==> |qs| > |Named(ps)|
    decreases |ps|
  {
    if ps == ["**"] {
      assert Named(ps[1..]) == [];
    } else if ps[0] == "**" {
      var j :| Cut(qs, j) && j < |qs| && CompiledMatch(ps[1..], qs[j..]);
      RunNeedsOneMore(ps[1..], qs[j..]);
    } else if |ps| == 1 {
      assert Named(ps[1..]) == [];
    } else if ps[1..] == ["**"] {
      assert Named(ps[1..]) == Named(ps[1..][1..]);
      assert Named(ps[1..][1..]) == [];
    } else {
      RunNeedsOneMore(ps[1..], qs[1..]);
      if AllStars(ps[1..]) {
        StarsName(ps[1..]);
      }
    }
  }

  lemma {:induction false} StarsName(ps: seq<string>)
    requires AllStars(ps)
    ensures Named(ps) == []
  {
    if |ps| > 0 {
      StarsName(ps[1..]);
    }
  }

  /** For patterns of non-empty, newline-free segments with `**` only as a whole
      segment, the translation keeps the meaning on every clean path exactly when the
      pattern does not end in a run of `**` after something else. */
  lemma GlobKeepsMeaningExactly(pattern: string)
    requires WholeStars(Split(pattern, '/')) && CleanSegments(Split(pattern, '/'))
    ensures (forall path: string :: CleanSegments(Split(path, '/')) ==>
               (GlobAccepts(pattern, path) <==> SegmentMatch(Split(pattern, '/'), Split(path, '/'))))
            <==> NoStarRunAtEnd(Split(pattern, '/'))
  {
    var ps := Split(pattern, '/');
    if NoStarRunAtEnd(ps) {
      forall path: string | CleanSegments(Split(path, '/'))
        ensures GlobAccepts(pattern, path) <==> SegmentMatch(ps, Split(path, '/'))
      {
        GlobKeepsMeaning(pattern, path);
      }
    } else {
      var qs := Named(ps);
      NamedIsClean(ps);
      NamedMatches(ps);
      if AllStars(ps) { StarRunOnly(ps); }
      SplitUndoesJoin(qs, '/');
      var path := Path(qs);
      CompiledGlob(pattern, path);
      if CompiledMatch(ps, qs) { RunNeedsOneMore(ps, qs); }
      assert !(GlobAccepts(pattern, path) <==> SegmentMatch(ps, Split(path, '/')));
    }
  }

  lemma {:induction false} StarRunOnly(ps: seq<string>)
    requires AllStars(ps)
    ensures NoStarRunAtEnd(ps)
  {
    if |ps| > 2 {
      StarRunOnly(ps[1..]);
    }
  }

  /** The smallest failing case: two trailing `**` segments reject the directory itself,
      which one such segment accepts. */
  lemma StarRunExample()
    ensures SegmentMatch(Split("a/**/**", '/'), Split("a", '/')) && !GlobAccepts("a/**/**", "a")
    ensures SegmentMatch(Split("a/**", '/'), Split("a", '/')) && GlobAccepts("a/**", "a")
  {
    ExampleSplits();
    ExampleMatch(["**", "**"]);
    ExampleMatch(["**"]);
    ExampleGlob("a/**/**", ["**", "**"]);
    ExampleGlob("a/**", ["**"]);
  }

  lemma ExampleGlob(pattern: string, stars: seq<string>)
    requires AllStars(stars) && |stars| > 0 && Split(pattern, '/') == ["a"] + stars
    requires Split("a", '/') == ["a"]
    ensures GlobAccepts(pattern, "a") <==> |stars| == 1
  {
    StarsAreWhole(stars);
    CompiledGlob(pattern, "a");
    ExampleCompiled(stars);
  }

  lemma {:induction false} StarsAreWhole(stars: seq<string>)
    requires AllStars(stars)
    ensures WholeStars(stars)
  {
    if |stars| > 0 {
      StarsAreWhole(stars[1..]);
      assert stars == [stars[0]] + stars[1..];
    }
  }

  lemma ExampleSplits()
    ensures Split("a/**/**", '/') == ["a"] + ["**", "**"]
    ensures Split("a/**", '/') == ["a"] + ["**"]
    ensures Split("a", '/') == ["a"]
  {
    SplitPlain("a", '/');
    SplitPlain("**", '/');
    SplitAtFirst("a", "**", '/');
    SplitAtFirst("**", "**", '/');
    SplitAtFirst("a", "**/**", '/');
    assert "a/**" == "a" + ['/'] + "**";
    assert "**/**" == "**" + ['/'] + "**";
    assert "a/**/**" == "a" + ['/'] + "**/**";
  }

  lemma ExampleMatch(stars: seq<string>)
    requires AllStars(stars) && |stars| > 0
    ensures SegmentMatch(["a"] + stars, ["a"])
  {
    StarsMatchAnything(stars, []);
    assert (["a"] + stars)[1..] == stars && ["a"][1..] == [];
    assert WildMatch("a", "a");
  }

  lemma ExampleCompiled(stars: seq<string>)
    requires AllStars(stars) && |stars| > 0
    ensures CompiledMatch(["a"] + stars, ["a"]) <==> |stars| == 1
  {
    assert (["a"] + stars)[1..] == stars;
    assert |stars| == 1 ==> stars == ["**"];
    assert WildMatch("a", "a");
  }

  // ----- matches_any -----------------------------------------------------------

  ghost predicate AnyAccepts(globs: seq<string>, file: string) {
    exists g :: g in globs && GlobAccepts(g, file)
  }

  /** The changed files that match at least one glob, in order. */
  ghost function Kept(globs: seq<string>, changed: seq<string>): seq<string> {
    if |changed| == 0 then []
    else
      var last := changed[|changed| - 1];
      Kept(globs, changed[..|changed| - 1]) + if AnyAccepts(globs, last) then [last] else []
  }

  /** `matcher` decides one compiled expression; the engine itself is not modelled. */
  method MatchesAny(globs: seq<string>, changed: seq<string>, matcher: (Regex, string) -> bool)
    returns (hits: seq<string>)
    requires forall re, f :: matcher(re, f) <==> Accepts(re, f)
    ensures hits == Kept(globs, changed)
  {
    var compiled: seq<Regex> := [];
    for i := 0 to |globs|
      invariant |compiled| == i
      invariant forall j :: 0 <= j < i ==> compiled[j] == Concat(Pieces(Tokens(globs[j])))
    {
      var re := GlobToRegex(globs[i]);
      compiled := compiled + [re];
    }
    hits := [];
    for i := 0 to |changed|
      invariant hits == Kept(globs, changed[..i])
    {
      var file := changed[i];
      var j := 0;
      while j < |compiled| && !matcher(compiled[j], file)
        invariant 0 <= j <= |compiled|
        invariant forall k :: 0 <= k < j ==> !GlobAccepts(globs[k], file)
      {
        j := j + 1;
      }
      if j < |compiled| {
        assert globs[j] in globs && GlobAccepts(globs[j], file);
        hits := hits + [file];
      }
      assert changed[..i + 1][..i] == changed[..i];
    }
    assert changed[..|changed|] == changed;
  }

  lemma {:induction false} KeptInOrder(globs: seq<string>, a: seq<string>, b: seq<string>)
    ensures Kept(globs, a + b) == Kept(globs, a) + Kept(globs, b)
  {
    if |b| == 0 {
      assert a + b == a;
    } else {
      assert (a + b)[..|a + b| - 1] == a + b[..|b| - 1];
      KeptInOrder(globs, a, b[..|b| - 1]);
    }
  }

  lemma {:induction false} KeptExactly(globs: seq<string>, changed: seq<string>, file: string)
    ensures file in Kept(globs, changed) <==> file in changed && AnyAccepts(globs, file)
  {
    if |changed| > 0 {
      KeptExactly(globs, changed[..|changed| - 1], file);
      assert changed == changed[..|changed| - 1] + [changed[|changed| - 1]];
    }
  }
}
