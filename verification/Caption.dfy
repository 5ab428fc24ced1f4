/** Captions for display, src/lib/search-caption.ts: the markup and spacing that go first,
    the filler openers peeled to a fixpoint, the cut to length and the dangling words that
    may not end it. A filler is a function giving how long a prefix it matches, 0 for
    none; everything here holds for whatever fillers there are. */
module Caption {
  import opened Text

  // ----- spacing ---------------------------------------------------------------------

  predicate HasSpace(s: string) {
    exists i :: 0 <= i < |s| && IsJsSpace(s[i])
  }

  /** `trimStart()` and `trimEnd()`. */
  function TrimStart(s: string): (r: string)
    ensures |r| <= |s| && r == s[|s| - |r|..]
    ensures |r| > 0 ==> !IsJsSpace(r[0])
    ensures forall i :: 0 <= i < |s| - |r| ==> IsJsSpace(s[i])
  {
    if |s| > 0 && IsJsSpace(s[0]) then
      var r := TrimStart(s[1..]);
      assert s[1..][|s| - 1 - |r|..] == s[|s| - |r|..];
      assert forall i :: 0 < i < |s| - |r| ==> s[i] == s[1..][i - 1];
      r
    else s
  }

  function TrimEnd(s: string): (r: string)
    ensures |r| <= |s| && r == s[..|r|]
    ensures |r| > 0 ==> !IsJsSpace(r[|r| - 1])
  {
    if |s| > 0 && IsJsSpace(s[|s| - 1]) then TrimEnd(s[..|s| - 1]) else s
  }

  /** No space at either end. */
  predicate Trimmed(s: string) {
    |s| > 0 ==> !IsJsSpace(s[0]) && !IsJsSpace(s[|s| - 1])
  }

  lemma TrimOfTrimmed(s: string)
    ensures Trimmed(Trim(s))
    ensures Trimmed(s) ==> Trim(s) == s
  {
  }

  /** Trimming what ends in no space only takes from the front. */
  lemma {:induction false} TrimIsSuffix(s: string)
    requires |s| > 0 ==> !IsJsSpace(s[|s| - 1])
    ensures Trim(s) == TrimStart(s)
    decreases |s|
  {
    if |s| > 0 && IsJsSpace(s[0]) { TrimIsSuffix(s[1..]); }
  }

  /** `replace(/\s+/g, " ")`. */
  function Squeeze(s: string): string
    decreases |s|
  {
    if |s| == 0 then ""
    else if IsJsSpace(s[0]) then " " + Squeeze(TrimStart(s))
    else [s[0]] + Squeeze(s[1..])
  }

  /** Where the first `>` is. */
  function Close(s: string): (i: nat)
    ensures i <= |s| && (i < |s| ==> s[i] == '>') && forall j :: 0 <= j < i ==> s[j] != '>'
  {
    if |s| == 0 || s[0] == '>' then 0 else Close(s[1..]) + 1
  }

  /** A tag, something between angle brackets, begins the string. */
  predicate TagAhead(s: string) {
    |s| > 0 && s[0] == '<' && 0 < Close(s[1..]) < |s| - 1
  }

  /** `replace(/<[^>]+>/g, " ")`. */
  function DropTags(s: string): string
    decreases |s|
  {
    if |s| == 0 then ""
    else if TagAhead(s) then " " + DropTags(s[1 + Close(s[1..]) + 1..])
    else [s[0]] + DropTags(s[1..])
  }

  function Normalised(raw: string): string {
    Trim(Squeeze(DropTags(raw)))
  }

  predicate Untagged(s: string) {
    forall i :: 0 <= i < |s| ==> !TagAhead(s[i..])
  }

  /** The first `>` at or after a position without one in between stays out of reach. */
  lemma {:induction false} DropTagsKeepsEnds(s: string)
    ensures '>' !in s ==> '>' !in DropTags(s)
    ensures |s| > 0 && s[0] == '>' ==> |DropTags(s)| > 0 && DropTags(s)[0] == '>'
    decreases |s|
  {
    if |s| > 0 {
      if TagAhead(s) {
        assert s[1..][Close(s[1..])] == '>';
      } else {
        DropTagsKeepsEnds(s[1..]);
      }
    }
  }

  /** No tag is left, nor has a new one come together from what was left. */
  lemma {:induction false} TagsAreGone(s: string)
    ensures Untagged(DropTags(s))
    decreases |s|
  {
    if |s| > 0 {
      var rest := if TagAhead(s) then s[1 + Close(s[1..]) + 1..] else s[1..];
      var head := if TagAhead(s) then ' ' else s[0];
      var d := DropTags(rest);
      TagsAreGone(rest);
      assert DropTags(s) == [head] + d;
      assert forall i :: 0 < i < |[head] + d| ==> ([head] + d)[i..] == d[i - 1..];
      assert ([head] + d)[1..] == d;
      if head == '<' {
        DropTagsKeepsEnds(rest);
        NoCloserMeansNone(rest);
        NoCloserMeansNone(d);
      }
    }
  }

  lemma {:induction false} TextIsKept(text: string, rest: string)
    requires '<' !in text
    ensures DropTags(text + rest) == text + DropTags(rest)
  {
    if text == "" {
      assert text + rest == rest;
    } else {
      assert (text + rest)[0] == text[0] && (text + rest)[1..] == text[1..] + rest;
      TextIsKept(text[1..], rest);
      assert text == [text[0]] + text[1..];
    }
  }

  lemma {:induction false} CloseAt(t: string, rest: string)
    requires '>' !in t
    ensures Close(t + ">" + rest) == |t|
  {
    var s := t + ">" + rest;
    if t != "" {
      assert s[0] == t[0] && s[1..] == t[1..] + ">" + rest;
      CloseAt(t[1..], rest);
    }
  }

  /** A tag becomes one space, and the text before it stays as it is. */
  lemma TagBecomesASpace(text: string, tag: string, rest: string)
    requires '<' !in text && tag != "" && '>' !in tag
    ensures DropTags(text + ("<" + tag + ">" + rest)) == text + " " + DropTags(rest)
  {
    var s := "<" + tag + ">" + rest;
    TextIsKept(text, s);
    assert s[0] == '<' && s[1..] == tag + ">" + rest;
    CloseAt(tag, rest);
    assert s[1 + |tag| + 1..] == rest;
  }

  /** A text without one of the brackets is left alone. */
  lemma {:induction false} NoTagsNoChange(s: string)
    requires '<' !in s || '>' !in s
    ensures DropTags(s) == s
  {
    if s != "" {
      NoCloserMeansNone(s[1..]);
      NoTagsNoChange(s[1..]);
      assert s == [s[0]] + s[1..];
    }
  }

  lemma NoCloserMeansNone(s: string)
    ensures Close(s) == |s| <==> '>' !in s
    ensures Close(s) == 0 <==> |s| == 0 || s[0] == '>'
  {
  }

  // ----- peeling fillers ---------------------------------------------------------------

  /** The length of the prefix a filler matches. */
  type Filler = string -> nat

  function Peel(f: Filler, s: string): (r: string) {
    Trim(s[if f(s) <= |s| then f(s) else 0..])
  }

  /** One filler tried: accepted when it changes the text and leaves some. */
  function Try(f: Filler, s: string): string {
    if Peel(f, s) != s && Peel(f, s) != "" then Peel(f, s) else s
  }

  predicate SuffixOf(r: string, s: string) {
    |r| <= |s| && r == s[|s| - |r|..]
  }

  lemma PeelIsSuffix(f: Filler, s: string)
    requires Trimmed(s)
    ensures SuffixOf(Peel(f, s), s) && Trimmed(Peel(f, s))
  {
    var n := if f(s) <= |s| then f(s) else 0;
    TrimDropped(s, n);
  }

  lemma TrimDropped(s: string, n: nat)
    requires Trimmed(s) && n <= |s|
    ensures SuffixOf(Trim(s[n..]), s) && Trimmed(Trim(s[n..]))
  {
    var t := s[n..];
    assert |t| > 0 ==> t[|t| - 1] == s[|s| - 1];
    TrimOfTrimmed(t);
    TrimIsSuffix(t);
    SuffixOfSuffix(TrimStart(t), t, s);
  }

  /** The filler opens the text, and text follows. */
  predicate Opens(f: Filler, s: string) {
    0 < f(s) <= |s| && !AllJsSpace(s[f(s)..])
  }

  /** No filler opens the text and leaves some. */
  ghost predicate Peeled(fillers: seq<Filler>, s: string) {
    forall k :: 0 <= k < |fillers| ==> !Opens(fillers[k], s)
  }

  /** `r` is what is left of `s` after one filler after another was taken off its front,
      and the space behind each. */
  ghost predicate OnlyOpenersOff(fillers: seq<Filler>, s: string, r: string)
    decreases |s|
  {
    || r == s
    || exists k :: 0 <= k < |fillers| && Opens(fillers[k], s)
         && OnlyOpenersOff(fillers, Trim(s[fillers[k](s)..]), r)
  }

  lemma {:induction false} OnlyOpenersOffTransitive(fillers: seq<Filler>, a: string, b: string, c: string)
    requires OnlyOpenersOff(fillers, a, b) && OnlyOpenersOff(fillers, b, c)
    ensures OnlyOpenersOff(fillers, a, c)
    decreases |a|
  {
    if b != a {
      var k :| 0 <= k < |fillers| && Opens(fillers[k], a)
               && OnlyOpenersOff(fillers, Trim(a[fillers[k](a)..]), b);
      OnlyOpenersOffTransitive(fillers, Trim(a[fillers[k](a)..]), b, c);
    }
  }

  lemma {:induction false} BlankIsTrimmedAway(s: string)
    ensures Trim(s) == "" <==> AllJsSpace(s)
    decreases |s|
  {
    if |s| > 0 && IsJsSpace(s[0]) {
      BlankIsTrimmedAway(s[1..]);
      assert AllJsSpace(s[1..]) ==> AllJsSpace(s) by {
        assert forall i :: 0 < i < |s| ==> s[i] == s[1..][i - 1];
      }
    } else if |s| > 0 {
      assert !AllJsSpace(s);
      TrimKeepsTheFirst(s);
    }
  }

  lemma {:induction false} TrimKeepsTheFirst(s: string)
    requires |s| > 0 && !IsJsSpace(s[0])
    ensures Trim(s) != ""
    decreases |s|
  {
    if IsJsSpace(s[|s| - 1]) { TrimKeepsTheFirst(s[..|s| - 1]); }
  }

  /** A filler is taken off exactly when it opens the text. */
  lemma TriedExactly(f: Filler, s: string)
    requires Trimmed(s)
    ensures Try(f, s) != s <==> Opens(f, s)
    ensures Opens(f, s) ==> Try(f, s) == Trim(s[f(s)..]) && |Try(f, s)| < |s|
  {
    TrimOfTrimmed(s);
    var n := if f(s) <= |s| then f(s) else 0;
    BlankIsTrimmedAway(s[n..]);
    assert s[0..] == s;
  }

  lemma OneOpenerOff(fillers: seq<Filler>, k: nat, s: string)
    requires k < |fillers| && Trimmed(s)
    ensures OnlyOpenersOff(fillers, s, Try(fillers[k], s))
  {
    TriedExactly(fillers[k], s);
    if Opens(fillers[k], s) {
      assert OnlyOpenersOff(fillers, Trim(s[fillers[k](s)..]), Try(fillers[k], s));
    }
  }

  /** Each filler once, in order. */
  function Round(fillers: seq<Filler>, s: string): string {
    if |fillers| == 0 then s else Round(fillers[1..], Try(fillers[0], s))
  }

  lemma SuffixOfSuffix(a: string, b: string, c: string)
    requires SuffixOf(a, b) && SuffixOf(b, c)
    ensures SuffixOf(a, c)
  {
    assert c[|c| - |b|..][|b| - |a|..] == c[|c| - |a|..];
  }

  lemma {:induction false} RoundFacts(fillers: seq<Filler>, s: string)
    requires Trimmed(s)
    ensures SuffixOf(Round(fillers, s), s) && Trimmed(Round(fillers, s))
    ensures Round(fillers, s) == "" <==> s == ""
    decreases |fillers|
  {
    if |fillers| == 0 {
      assert Round(fillers, s) == s;
    } else {
      var t := Try(fillers[0], s);
      RoundStep(fillers, s);
      TryFacts(fillers[0], s);
      RoundFacts(fillers[1..], t);
      SuffixOfSuffix(Round(fillers[1..], t), t, s);
    }
  }

  lemma RoundFrom(fillers: seq<Filler>, k: nat, s: string)
    requires k < |fillers|
    ensures Round(fillers[k..], s) == Round(fillers[k + 1..], Try(fillers[k], s))
  {
    RoundStep(fillers[k..], s);
    assert fillers[k..][0] == fillers[k] && fillers[k..][1..] == fillers[k + 1..];
  }

  lemma RoundStep(fillers: seq<Filler>, s: string)
    requires |fillers| > 0
    ensures Round(fillers, s) == Round(fillers[1..], Try(fillers[0], s))
  {
  }

  lemma TryFacts(f: Filler, s: string)
    requires Trimmed(s)
    ensures SuffixOf(Try(f, s), s) && Trimmed(Try(f, s))
    ensures Try(f, s) == "" <==> s == ""
  {
    PeelIsSuffix(f, s);
  }

  lemma ShorterSuffix(a: string, b: string)
    requires SuffixOf(a, b) && a != b
    ensures |a| < |b|
  {
  }

  /** A round changes nothing exactly when no filler can be peeled. */
  lemma {:induction false} StillExactlyWhenPeeled(fillers: seq<Filler>, s: string)
    requires Trimmed(s)
    ensures Round(fillers, s) == s <==> Peeled(fillers, s)
    decreases |fillers|
  {
    if |fillers| > 0 {
      var t := Try(fillers[0], s);
      RoundStep(fillers, s);
      TriedExactly(fillers[0], s);
      PeeledCons(fillers, s);
      if t == s {
        StillExactlyWhenPeeled(fillers[1..], s);
      } else {
        TryFacts(fillers[0], s);
        ShorterSuffix(t, s);
        RoundFacts(fillers[1..], t);
        assert |Round(fillers[1..], t)| <= |t|;
      }
    }
  }

  lemma PeeledCons(fillers: seq<Filler>, s: string)
    requires |fillers| > 0
    ensures Peeled(fillers, s) <==> !Opens(fillers[0], s) && Peeled(fillers[1..], s)
  {
    if !Opens(fillers[0], s) && Peeled(fillers[1..], s) {
      forall k | 0 <= k < |fillers| ensures !Opens(fillers[k], s) {
        if k > 0 { assert fillers[1..][k - 1] == fillers[k]; }
      }
    }
    if Peeled(fillers, s) {
      assert forall k :: 0 <= k < |fillers[1..]| ==> fillers[1..][k] == fillers[k + 1];
    }
  }

  /** The inner loop of the peeling. */
  method PeelEach(fillers: seq<Filler>, text: string) returns (s: string, changed: bool)
    requires Trimmed(text)
    ensures s == Round(fillers, text) && (changed <==> s != text)
    ensures OnlyOpenersOff(fillers, text, s)
  {
    s, changed := text, false;
    for k := 0 to |fillers|
      invariant |s| <= |text| && (changed <==> |s| < |text|) && (!changed ==> s == text) && Trimmed(s)
      invariant Round(fillers[k..], s) == Round(fillers, text)
      invariant OnlyOpenersOff(fillers, text, s)
    {
      RoundFrom(fillers, k, s);
      OneOpenerOff(fillers, k, s);
      OnlyOpenersOffTransitive(fillers, text, s, Try(fillers[k], s));
      TryFacts(fillers[k], s);
      TriedExactly(fillers[k], s);
      var next := Peel(fillers[k], s);
      if next != s && |next| > 0 {
        s := next;
        changed := true;
      }
    }
  }

  /** The peel loop of `cleanCaption`: it ends because each accepted peel shortens the
      text; only openers and the space behind them go; and what is left is a suffix, not
      empty, that no filler still opens. */
  method PeelFillers(fillers: seq<Filler>, text: string) returns (s: string)
    requires Trimmed(text)
    ensures SuffixOf(s, text) && Trimmed(s) && Peeled(fillers, s)
    ensures s == "" <==> text == ""
    ensures s == Fixpoint(fillers, text) && OnlyOpenersOff(fillers, text, s)
  {
    s := text;
    var changed := true;
    while changed
      invariant SuffixOf(s, text) && Trimmed(s) && (s == "" <==> text == "")
      invariant !changed ==> Round(fillers, s) == s
      invariant Fixpoint(fillers, s) == Fixpoint(fillers, text) && OnlyOpenersOff(fillers, text, s)
      decreases |s|, changed
    {
      ghost var before := s;
      RoundFacts(fillers, s);
      s, changed := PeelEach(fillers, s);
      SuffixOfSuffix(s, before, text);
      OnlyOpenersOffTransitive(fillers, text, before, s);
    }
    StillExactlyWhenPeeled(fillers, s);
  }

  /** Rounds until one changes nothing. */
  function Fixpoint(fillers: seq<Filler>, s: string): string
    decreases |s|
  {
    if |Round(fillers, s)| < |s| then Fixpoint(fillers, Round(fillers, s)) else s
  }

  // ----- words ---------------------------------------------------------------------------

  /** The length of the first word. */
  function WordEnd(s: string): (n: nat)
    ensures n <= |s| && (forall i :: 0 <= i < n ==> !IsJsSpace(s[i])) && (n < |s| ==> IsJsSpace(s[n]))
  {
    if |s| == 0 || IsJsSpace(s[0]) then 0 else 1 + WordEnd(s[1..])
  }

  /** `s.split(/\s+/)` of a trimmed string. */
  function Words(s: string): (r: seq<string>)
    ensures |r| > 0
    decreases |s|
  {
    if WordEnd(s) == |s| then [s] else [s[..WordEnd(s)]] + Words(AfterWord(s))
  }

  function AfterWord(s: string): (r: string)
    requires WordEnd(s) < |s|
    ensures |r| < |s|
  {
    TrimStart(s[WordEnd(s)..])
  }

  predicate IsWord(w: string) {
    w != "" && !HasSpace(w)
  }

  predicate AllWords(words: seq<string>) {
    forall i :: 0 <= i < |words| ==> IsWord(words[i])
  }

  lemma {:induction false} WordsAreWords(s: string)
    requires Trimmed(s) && s != ""
    ensures AllWords(Words(s)) && |Join(Words(s), " ")| <= |s|
    decreases |s|
  {
    FirstIsWord(s);
    if WordEnd(s) < |s| {
      AfterWordIsTrimmed(s);
      WordsAreWords(AfterWord(s));
      ConsAreWords(s[..WordEnd(s)], Words(AfterWord(s)));
    } else {
      assert s[..WordEnd(s)] == s;
    }
  }

  lemma ConsAreWords(w: string, words: seq<string>)
    requires IsWord(w) && AllWords(words) && |words| > 0
    ensures AllWords([w] + words) && Join([w] + words, " ") == w + " " + Join(words, " ")
  {
    assert ([w] + words)[1..] == words;
  }

  lemma FirstIsWord(s: string)
    requires Trimmed(s) && s != ""
    ensures IsWord(s[..WordEnd(s)])
  {
  }

  lemma AfterWordIsTrimmed(s: string)
    requires Trimmed(s) && WordEnd(s) < |s|
    ensures Trimmed(AfterWord(s)) && AfterWord(s) != "" && WordEnd(s) + 1 + |AfterWord(s)| <= |s|
  {
    var t := s[WordEnd(s)..];
    assert t[|t| - 1] == s[|s| - 1] && IsJsSpace(t[0]);
    var rest := TrimStart(t);
    assert rest != "" ==> rest[|rest| - 1] == t[|t| - 1];
  }

  /** The string reads as these words and nothing else. */
  ghost predicate Reads(s: string, words: seq<string>) {
    s != "" && Trimmed(s) && Words(s) == words
  }

  /** A word and any gap behind it are read as that word. */
  lemma ConsWord(w: string, gap: string, rest: string)
    requires IsWord(w) && gap != "" && AllJsSpace(gap) && Trimmed(rest) && rest != ""
    ensures Reads(w + gap + rest, [w] + Words(rest))
  {
    var s := w + gap + rest;
    assert s[..|w|] == w && s[|w|] == gap[0] && s[|w|..] == gap + rest;
    WordEndIs(s, |w|);
    GapAhead(gap, rest);
    WordsStep(s, w, rest);
    assert s[|s| - 1] == rest[|rest| - 1] && s[0] == w[0];
  }

  lemma {:induction false} GapAhead(gap: string, rest: string)
    requires AllJsSpace(gap) && (rest != "" ==> !IsJsSpace(rest[0]))
    ensures TrimStart(gap + rest) == rest
  {
    if gap == "" {
      assert gap + rest == rest;
    } else {
      assert (gap + rest)[1..] == gap[1..] + rest;
      GapAhead(gap[1..], rest);
    }
  }

  lemma WordsStep(s: string, w: string, rest: string)
    requires WordEnd(s) < |s| && s[..WordEnd(s)] == w && AfterWord(s) == rest
    ensures Words(s) == [w] + Words(rest)
  {
  }

  lemma TailIsWords(words: seq<string>)
    requires |words| > 0 && AllWords(words)
    ensures AllWords(words[1..])
  {
    forall i | 0 <= i < |words[1..]| ensures IsWord(words[1..][i]) {
      assert IsWord(words[i + 1]);
    }
  }

  lemma JoinCons(words: seq<string>, sep: string)
    requires |words| > 1
    ensures Join(words, sep) == words[0] + sep + Join(words[1..], sep)
  {
  }

  lemma OneWord(w: string)
    requires IsWord(w)
    ensures Reads(w, [w])
  {
    WordEndIs(w, |w|);
  }

  lemma JoinStep(words: seq<string>)
    requires |words| > 1 && IsWord(words[0]) && Reads(Join(words[1..], " "), words[1..])
    ensures Reads(Join(words, " "), words)
  {
    JoinCons(words, " ");
    ConsWord(words[0], " ", Join(words[1..], " "));
    assert words == [words[0]] + words[1..];
  }

  /** Words joined by single spaces are found again. */
  lemma {:induction false} WordsOfJoin(words: seq<string>)
    requires |words| > 0 && AllWords(words)
    ensures Reads(Join(words, " "), words)
  {
    assert IsWord(words[0]);
    if |words| == 1 {
      OneWord(words[0]);
      assert words == [words[0]];
    } else {
      TailIsWords(words);
      WordsOfJoin(words[1..]);
      JoinStep(words);
    }
  }

  lemma {:induction false} WordEndIs(s: string, n: nat)
    requires n <= |s| && (forall i :: 0 <= i < n ==> !IsJsSpace(s[i])) && (n < |s| ==> IsJsSpace(s[n]))
    ensures WordEnd(s) == n
  {
    if n > 0 { WordEndIs(s[1..], n - 1); }
  }

  // ----- the normalised text -----------------------------------------------------------------

  lemma {:induction false} SqueezeWord(w: string, rest: string)
    requires forall i :: 0 <= i < |w| ==> !IsJsSpace(w[i])
    ensures Squeeze(w + rest) == w + Squeeze(rest)
  {
    if w == "" {
      assert w + rest == rest;
    } else {
      assert w == [w[0]] + w[1..];
      RegroupEnd([w[0]], w[1..], rest);
      SqueezeLetter(w[0], w[1..] + rest);
      SqueezeWord(w[1..], rest);
      RegroupEnd([w[0]], w[1..], Squeeze(rest));
    }
  }

  lemma SqueezeLetter(c: char, rest: string)
    requires !IsJsSpace(c)
    ensures Squeeze([c] + rest) == [c] + Squeeze(rest)
  {
    assert ([c] + rest)[1..] == rest;
  }

  lemma SqueezeGap(gap: string, rest: string)
    requires gap != "" && AllJsSpace(gap) && (rest != "" ==> !IsJsSpace(rest[0]))
    ensures Squeeze(gap + rest) == " " + Squeeze(rest)
  {
    assert (gap + rest)[0] == gap[0];
    GapAhead(gap, rest);
  }

  function SpaceFor(gap: string): string {
    if gap == "" then "" else " "
  }

  /** Squeezed, a text is its words with single spaces, and one for a gap at its end. */
  lemma {:induction false} SqueezedIsItsWords(t: string, b: string)
    requires Trimmed(t) && t != "" && AllJsSpace(b)
    ensures Squeeze(t + b) == Join(Words(t), " ") + SpaceFor(b)
    decreases |t|
  {
    if WordEnd(t) == |t| {
      SqueezeWord(t, b);
      SqueezeEnd(b);
    } else {
      var w, gap, rest := GapBehindWord(t);
      AfterWordIsTrimmed(t);
      SqueezeStep(w, gap, rest, b);
      SqueezedIsItsWords(rest, b);
      WordsStep(t, w, rest);
      JoinTwo(w, Words(rest));
      RegroupEnd(w + " ", Join(Words(rest), " "), SpaceFor(b));
    }
  }

  lemma SqueezeEnd(b: string)
    requires AllJsSpace(b)
    ensures Squeeze(b) == SpaceFor(b)
  {
    if b != "" {
      SqueezeGap(b, "");
      assert b + "" == b;
    }
  }

  lemma SqueezeStep(w: string, gap: string, rest: string, b: string)
    requires (forall i :: 0 <= i < |w| ==> !IsJsSpace(w[i])) && gap != "" && AllJsSpace(gap)
    requires rest != "" && !IsJsSpace(rest[0])
    ensures Squeeze(w + gap + rest + b) == w + " " + Squeeze(rest + b)
  {
    assert w + gap + rest + b == w + (gap + (rest + b));
    SqueezeWord(w, gap + (rest + b));
    assert (rest + b)[0] == rest[0];
    SqueezeGap(gap, rest + b);
    RegroupEnd(w, " ", Squeeze(rest + b));
  }

  lemma GapBehindWord(t: string) returns (w: string, gap: string, rest: string)
    requires WordEnd(t) < |t|
    ensures t == w + gap + rest && w == t[..WordEnd(t)] && rest == AfterWord(t)
    ensures gap != "" && AllJsSpace(gap)
  {
    var u := t[WordEnd(t)..];
    w := t[..WordEnd(t)];
    gap, rest := GapAndRest(u);
    assert t == w + u;
    RegroupEnd(w, gap, rest);
  }

  lemma GapAndRest(u: string) returns (gap: string, rest: string)
    requires u != "" && IsJsSpace(u[0])
    ensures u == gap + rest && rest == TrimStart(u) && gap != "" && AllJsSpace(gap)
  {
    rest := TrimStart(u);
    gap := u[..|u| - |rest|];
  }

  lemma JoinTwo(w: string, words: seq<string>)
    requires |words| > 0
    ensures Join([w] + words, " ") == w + " " + Join(words, " ")
  {
    assert ([w] + words)[1..] == words;
  }

  lemma RegroupEnd(a: string, b: string, c: string)
    ensures a + (b + c) == a + b + c
  {
  }

  /** What is left of a caption is its words, tags apart, with single spaces between. */
  lemma NormalisedIsItsWords(raw: string, a: string, t: string, b: string)
    requires DropTags(raw) == a + t + b && AllJsSpace(a) && AllJsSpace(b) && Trimmed(t)
    ensures Normalised(raw) == if t == "" then "" else Join(Words(t), " ")
  {
    if t == "" { BlankIsGone(a, b); } else { TextIsItsWords(a, t, b); }
  }

  lemma BlankIsGone(a: string, b: string)
    requires AllJsSpace(a) && AllJsSpace(b)
    ensures Trim(Squeeze(a + "" + b)) == ""
  {
    assert a + "" + b == a + b;
    SqueezeEnd(a + b);
    BlankIsTrimmedAway(SpaceFor(a + b));
  }

  lemma TextIsItsWords(a: string, t: string, b: string)
    requires AllJsSpace(a) && AllJsSpace(b) && Trimmed(t) && t != ""
    ensures Trim(Squeeze(a + t + b)) == Join(Words(t), " ")
  {
    SqueezeBetween(a, t, b);
    var joined := Join(Words(t), " ");
    WordsAreWords(t);
    WordsOfJoin(Words(t));
    TrimPadded(SpaceFor(a), joined, SpaceFor(b));
  }

  lemma SqueezeBetween(a: string, t: string, b: string)
    requires AllJsSpace(a) && AllJsSpace(b) && Trimmed(t) && t != ""
    ensures Squeeze(a + t + b) == SpaceFor(a) + Join(Words(t), " ") + SpaceFor(b)
  {
    SqueezedIsItsWords(t, b);
    assert (t + b)[0] == t[0];
    RegroupEnd(a, t, b);
    RegroupEnd(SpaceFor(a), Join(Words(t), " "), SpaceFor(b));
    if a != "" {
      SqueezeGap(a, t + b);
    } else {
      assert a + (t + b) == t + b;
    }
  }

  // ----- dangling words -------------------------------------------------------------------

  function Unpunctuated(w: string): string {
    if |w| > 0 && (w[|w| - 1] == ',' || w[|w| - 1] == ';' || w[|w| - 1] == ':') then Unpunctuated(w[..|w| - 1]) else w
  }

  /** The words that dangle, given in lower case: compared without case and without any
      comma, semicolon or colon behind. */
  function DanglesIn(words: set<string>): string -> bool {
    w => Unpunctuated(LowerCase(w)) in words
  }

  lemma {:induction false} LowerCaseThenMark(w: string, mark: char)
    requires LowerChar(mark) == mark && mark as int < 128
    ensures LowerCase(w + [mark]) == LowerCase(w) + [mark]
  {
    if |w| == 0 {
      assert LowerCase("") == "" && [mark][1..] == "";
    } else {
      assert (w + [mark])[1..] == w[1..] + [mark];
      LowerCaseThenMark(w[1..], mark);
    }
  }

  predicate IsMark(c: char) {
    c == ',' || c == ';' || c == ':'
  }

  /** A word dangles exactly when it is one of those meant, in any case and with any marks
      behind it. */
  lemma {:induction false} MarksDoNotMatter(words: set<string>, w: string, marks: string)
    requires Ascii(w) && (w != "" ==> !IsMark(w[|w| - 1])) && forall i :: 0 <= i < |marks| ==> IsMark(marks[i])
    ensures DanglesIn(words)(w + marks) <==> Lower(w) in words
  {
    AllMarksGo(w, marks);
    NoMarkToGo(w);
  }

  lemma NoMarkToGo(w: string)
    requires Ascii(w) && (w != "" ==> !IsMark(w[|w| - 1]))
    ensures Unpunctuated(LowerCase(w)) == Lower(w)
  {
    LowerCaseOfAscii(w);
    if w != "" { assert Lower(w)[|w| - 1] == LowerChar(w[|w| - 1]); }
  }

  lemma {:induction false} AllMarksGo(w: string, marks: string)
    requires forall i :: 0 <= i < |marks| ==> IsMark(marks[i])
    ensures Unpunctuated(LowerCase(w + marks)) == Unpunctuated(LowerCase(w))
  {
    if marks == "" {
      assert w + marks == w;
    } else {
      var n := |marks| - 1;
      assert IsMark(marks[n]) && w + marks == (w + marks[..n]) + [marks[n]];
      AllMarksGo(w, marks[..n]);
      LowerCaseThenMark(w + marks[..n], marks[n]);
      MarkGoes(LowerCase(w + marks[..n]), marks[n]);
    }
  }

  lemma MarkGoes(s: string, mark: char)
    requires IsMark(mark)
    ensures Unpunctuated(s + [mark]) == Unpunctuated(s)
  {
    assert (s + [mark])[..|s|] == s;
  }

  /** The words kept. */
  function Kept(dangles: string -> bool, words: seq<string>): (r: seq<string>)
    requires |words| > 0
    ensures 0 < |r| <= |words| && r == words[..|r|]
    ensures |r| == 1 || !dangles(r[|r| - 1])
    ensures forall i :: |r| <= i < |words| ==> dangles(words[i])
  {
    if |words| > 1 && dangles(words[|words| - 1]) then Kept(dangles, words[..|words| - 1]) else words
  }

  function Strip(dangles: string -> bool, s: string): string {
    Join(Kept(dangles, Words(Trim(s))), " ")
  }

  /** `stripTrailingDangling`. */
  method StripTrailingDangling(dangles: string -> bool, s: string) returns (r: string)
    ensures r == Strip(dangles, s)
  {
    var words := Words(Trim(s));
    words := PopDangling(dangles, words);
    r := Join(words, " ");
  }

  method PopDangling(dangles: string -> bool, all: seq<string>) returns (words: seq<string>)
    requires |all| > 0
    ensures words == Kept(dangles, all)
  {
    words := all;
    while |words| > 1 && dangles(words[|words| - 1])
      invariant 0 < |words| && Kept(dangles, words) == Kept(dangles, all)
    {
      words := words[..|words| - 1];
    }
  }

  lemma KeptAgain(dangles: string -> bool, words: seq<string>)
    requires |words| > 0
    ensures Kept(dangles, Kept(dangles, words)) == Kept(dangles, words)
  {
  }

  /** It ends on a word that does not dangle, or on the only word; it never makes the text
      longer or empties it; and doing it again changes nothing. */
  lemma StripsOnce(dangles: string -> bool, s: string)
    ensures Strip(dangles, Strip(dangles, s)) == Strip(dangles, s)
    ensures |Strip(dangles, s)| <= |s| && (Strip(dangles, s) == "" <==> Trim(s) == "")
    ensures var words := Words(Strip(dangles, s)); |words| == 1 || !dangles(words[|words| - 1])
  {
    TrimOfTrimmed(s);
    if Trim(s) == "" {
      assert Words("") == [""] && Kept(dangles, [""]) == [""];
    } else {
      StripsTrimmed(dangles, Trim(s));
    }
  }

  lemma StripsTrimmed(dangles: string -> bool, t: string)
    requires Trimmed(t) && t != ""
    ensures var kept := Kept(dangles, Words(t)); var r := Join(kept, " ");
            Words(r) == kept && Trim(r) == r && r != "" && |r| <= |t| && Kept(dangles, kept) == kept
  {
    var kept := Kept(dangles, Words(t));
    WordsAreWords(t);
    assert AllWords(kept);
    WordsOfJoin(kept);
    TrimOfTrimmed(Join(kept, " "));
    KeptAgain(dangles, Words(t));
    JoinOfFewer(Words(t), |kept|);
  }

  lemma {:induction false} JoinOfFewer(words: seq<string>, n: nat)
    requires n <= |words|
    ensures |Join(words[..n], " ")| <= |Join(words, " ")|
  {
    if n > 1 {
      JoinOfFewer(words[1..], n - 1);
      assert words[..n][1..] == words[1..][..n - 1];
    } else if n == 1 && |words| > 1 {
      assert words[..1] == [words[0]];
    }
  }

  // ----- the caption ------------------------------------------------------------------------

  /** `lastIndexOf` of a two-character string. */
  function LastOf(s: string, a: char, b: char): (i: int)
    ensures -1 <= i <= |s| - 2 || i == -1
    ensures i >= 0 ==> s[i] == a && s[i + 1] == b
    ensures forall j :: i < j < |s| - 1 ==> !(s[j] == a && s[j + 1] == b)
  {
    if |s| < 2 then -1
    else if s[|s| - 2] == a && s[|s| - 1] == b then |s| - 2
    else LastOf(s[..|s| - 1], a, b)
  }

  function Max(a: int, b: int): int {
    if a >= b then a else b
  }

  /** The end of the last whole sentence in a slice. */
  function LastStop(slice: string): int {
    Max(LastOf(slice, '.', ' '), Max(LastOf(slice, '!', ' '), LastOf(slice, '?', ' ')))
  }

  /** `cleanCaption`; `upper` is the upper case of a character. Nothing is kept of the
      caption but a suffix of its normalised text without any filler in front, cut, when it
      is too long, at a sentence in the second half or else at a word that may end it. */
  method CleanCaption(raw: string, maxLen: nat, fillers: seq<Filler>, dangles: string -> bool, upper: char -> string)
    returns (r: string)
    ensures |r| <= maxLen + 1
    ensures var s := Fixpoint(fillers, Normalised(raw));
            && SuffixOf(s, Normalised(raw)) && Peeled(fillers, s) && (s == "" <==> Normalised(raw) == "")
            && OnlyOpenersOff(fillers, Normalised(raw), s)
            && var shown := if s == "" then "" else upper(s[0]) + s[1..];
               r == if |shown| <= maxLen then shown else Shortened(shown, maxLen, dangles)
  {
    TrimOfTrimmed(Squeeze(DropTags(raw)));
    var s := PeelFillers(fillers, Normalised(raw));
    ghost var peeled := s;
    if s != "" { s := upper(s[0]) + s[1..]; }
    if |s| <= maxLen { return s; }
    r := Shorten(s, maxLen, dangles);
  }

  /** The cut to length. */
  method Shorten(s: string, maxLen: nat, dangles: string -> bool) returns (r: string)
    requires |s| > maxLen
    ensures r == Shortened(s, maxLen, dangles) && |r| <= maxLen + 1
  {
    var slice := s[..maxLen];
    var lastStop := LastStop(slice);
    if 2 * lastStop > maxLen { return Trim(slice[..lastStop + 1]); }
    var cut := StripTrailingDangling(dangles, TrimEnd(slice));
    StripsOnce(dangles, TrimEnd(slice));
    return cut + "\U{2026}";
  }

  function Shortened(s: string, maxLen: nat, dangles: string -> bool): string
    requires |s| > maxLen
  {
    var slice := s[..maxLen];
    if 2 * LastStop(slice) > maxLen then Trim(slice[..LastStop(slice) + 1])
    else Strip(dangles, TrimEnd(slice)) + "\U{2026}"
  }

  /** A sentence of the text ends here, and the next one follows. */
  predicate StopAt(s: string, i: int) {
    0 <= i < |s| - 1 && s[i] in {'.', '!', '?'} && s[i + 1] == ' '
  }

  /** Where a text too long is cut: right behind the last sentence that ends within the
      limit and in its second half, if there is one, and else behind the last word within
      the limit that does not dangle, or the first. */
  lemma CutExactly(s: string, maxLen: nat, dangles: string -> bool)
    requires |s| > maxLen && !IsJsSpace(s[0])
    ensures var slice, r := s[..maxLen], Shortened(s, maxLen, dangles);
            if exists i :: StopAt(slice, i) && 2 * i > maxLen
            then exists i :: StopAt(slice, i) && (forall j :: StopAt(slice, j) ==> j <= i) && r == s[..i + 1]
            else EndsBeforeDangling(Words(Trim(slice)), dangles, r)
  {
    var slice := s[..maxLen];
    LastStopIsLast(slice);
    if 2 * LastStop(slice) > maxLen {
      CutAtStop(s, maxLen, dangles);
    } else {
      CutAtWord(s, maxLen, dangles);
    }
  }

  lemma LastStopIsLast(slice: string)
    ensures LastStop(slice) >= 0 ==> StopAt(slice, LastStop(slice))
    ensures forall i :: StopAt(slice, i) ==> i <= LastStop(slice)
  {
  }

  lemma CutAtStop(s: string, maxLen: nat, dangles: string -> bool)
    requires |s| > maxLen && !IsJsSpace(s[0]) && 2 * LastStop(s[..maxLen]) > maxLen
    ensures Shortened(s, maxLen, dangles) == s[..LastStop(s[..maxLen]) + 1]
  {
    var slice := s[..maxLen];
    var t := slice[..LastStop(slice) + 1];
    LastStopIsLast(slice);
    assert t == s[..LastStop(slice) + 1] && t[0] == s[0] && t[|t| - 1] == slice[LastStop(slice)];
    TrimOfTrimmed(t);
  }

  lemma CutAtWord(s: string, maxLen: nat, dangles: string -> bool)
    requires |s| > maxLen && 2 * LastStop(s[..maxLen]) <= maxLen
    ensures EndsBeforeDangling(Words(Trim(s[..maxLen])), dangles, Shortened(s, maxLen, dangles))
  {
    var slice := s[..maxLen];
    TrimOfTrimEnd(slice);
    var words := Words(Trim(slice));
    var n := |Kept(dangles, words)|;
    assert 0 < n <= |words| && Kept(dangles, words) == words[..n];
    assert Join(words[..n], " ") + "\U{2026}" == Shortened(s, maxLen, dangles);
  }

  /** The first of the words, up to the last that does not dangle, and an ellipsis. */
  ghost predicate EndsBeforeDangling(words: seq<string>, dangles: string -> bool, r: string) {
    exists n: nat :: 0 < n <= |words| && r == Join(words[..n], " ") + "\U{2026}"
      && (n == 1 || !dangles(words[n - 1])) && forall i :: n <= i < |words| ==> dangles(words[i])
  }

  lemma {:induction false} TrimOfTrimEnd(s: string)
    ensures Trim(TrimEnd(s)) == Trim(s)
  {
    if |s| > 0 && IsJsSpace(s[|s| - 1]) {
      TrimOfTrimEnd(s[..|s| - 1]);
      TrimWithoutLast(s);
    }
  }

  lemma {:induction false} TrimWithoutLast(s: string)
    requires |s| > 0 && IsJsSpace(s[|s| - 1])
    ensures Trim(s[..|s| - 1]) == Trim(s)
  {
    if IsJsSpace(s[0]) && |s| > 1 {
      assert s[..|s| - 1][1..] == s[1..][..|s| - 2];
      TrimWithoutLast(s[1..]);
    }
  }

  /** What is cut still says something: it ends as a sentence does, or with the ellipsis. */
  lemma ShortenedEndsWell(s: string, maxLen: nat, dangles: string -> bool)
    requires |s| > maxLen
    ensures var r := Shortened(s, maxLen, dangles);
            r != "" && r[|r| - 1] in {'.', '!', '?', '\U{2026}'}
  {
    var slice := s[..maxLen];
    var stop := LastStop(slice);
    if 2 * stop > maxLen {
      var t := slice[..stop + 1];
      assert t[|t| - 1] in {'.', '!', '?'};
      NotSpaceAtEnd(t);
    }
  }

  lemma NotSpaceAtEnd(t: string)
    requires |t| > 0 && t[|t| - 1] in {'.', '!', '?'}
    ensures Trim(t) != "" && Trim(t)[|Trim(t)| - 1] == t[|t| - 1]
  {
    TrimIsSuffix(t);
    assert !IsJsSpace(t[|t| - 1]);
  }
}
