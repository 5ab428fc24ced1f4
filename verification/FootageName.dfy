/** The names of test footage, src/lib/test-footage.ts: cleaning an uploaded file's name,
    the camera id made from it, and the directory that is written and deleted from. */
module FootageName {
  import opened Text
  import Reconciler

  datatype Result<T> = Ok(value: T) | Err(status: int)

  const MAX_SLUG := 64
  const MAX_ID := 32
  const MAX_UPLOAD_BYTES := 2147483648

  // ----- cleaning a name ----------------------------------------------------------

  predicate SlugLetter(c: char) {
    'a' <= c <= 'z' || '0' <= c <= '9'
  }

  /** After the last slash or backslash. */
  function BaseName(raw: string): string {
    if |raw| == 0 || raw[|raw| - 1] == '/' || raw[|raw| - 1] == '\\' then ""
    else BaseName(raw[..|raw| - 1]) + [raw[|raw| - 1]]
  }

  /** `lastIndexOf('.')`. */
  function LastDot(s: string): (i: int)
    ensures -1 <= i < |s|
    ensures i >= 0 ==> s[i] == '.'
    ensures forall j :: i < j < |s| ==> s[j] != '.'
  {
    if |s| == 0 then -1 else if s[|s| - 1] == '.' then |s| - 1 else LastDot(s[..|s| - 1])
  }

  predicate Allowed(ext: string) {
    ext == ".mp4" || ext == ".ts" || ext == ".mkv" || ext == ".mov" || ext == ".webm"
  }

  function SkipOthers(s: string): (r: string)
    ensures |r| <= |s|
  {
    if |s| > 0 && !SlugLetter(s[0]) then SkipOthers(s[1..]) else s
  }

  /** `replace(/[^a-z0-9]+/g, "-")`. */
  function Dash(s: string): string
    decreases |s|
  {
    if |s| == 0 then ""
    else if SlugLetter(s[0]) then [s[0]] + Dash(s[1..])
    else "-" + Dash(SkipOthers(s[1..]))
  }

  /** `replace(/^-+|-+$/g, "")`. */
  function TrimHyphens(s: string): (r: string)
    ensures |r| <= |s|
    decreases |s|
  {
    if |s| > 0 && s[0] == '-' then TrimHyphens(s[1..])
    else if |s| > 0 && s[|s| - 1] == '-' then TrimHyphens(s[..|s| - 1])
    else s
  }

  function Take(n: nat, s: string): string {
    if |s| <= n then s else s[..n]
  }

  function FullSlug(stem: string): string {
    TrimHyphens(Dash(LowerCase(stem)))
  }

  function Slug(stem: string): string {
    Take(MAX_SLUG, FullSlug(stem))
  }

  function Stem(base: string): string {
    if LastDot(base) > 0 then base[..LastDot(base)] else base
  }

  function Extension(base: string): string {
    if LastDot(base) > 0 then LowerCase(base[LastDot(base)..]) else ""
  }

  /** `sanitiseFilename`. */
  function Sanitise(raw: string): Result<string> {
    var base := BaseName(raw);
    if !Allowed(Extension(base)) then Err(400)
    else if Slug(Stem(base)) == "" then Err(400)
    else Ok(Slug(Stem(base)) + Extension(base))
  }

  // ----- the shape of a cleaned name -------------------------------------------------

  /** Slug letters and hyphens, no two hyphens together. */
  predicate Dashed(s: string) {
    && (forall i :: 0 <= i < |s| ==> SlugLetter(s[i]) || s[i] == '-')
    && (forall i :: 0 < i < |s| ==> s[i] != '-' || s[i - 1] != '-')
  }

  /** A slug: dashed, 1 to 64 characters, beginning with a letter or digit. */
  predicate IsSlug(s: string) {
    0 < |s| <= MAX_SLUG && Dashed(s) && s[0] != '-'
  }

  lemma {:induction false} SkippedStart(s: string)
    ensures SkipOthers(s) == "" || SlugLetter(SkipOthers(s)[0])
  {
    if |s| > 0 && !SlugLetter(s[0]) { SkippedStart(s[1..]); }
  }

  lemma {:induction false} DashIsDashed(s: string)
    ensures Dashed(Dash(s))
    ensures |s| > 0 && SlugLetter(s[0]) ==> |Dash(s)| > 0 && Dash(s)[0] == s[0]
    decreases |s|
  {
    if |s| == 0 {
    } else if SlugLetter(s[0]) {
      DashIsDashed(s[1..]);
    } else {
      SkippedStart(s[1..]);
      DashIsDashed(SkipOthers(s[1..]));
    }
  }

  lemma {:induction false} TrimmedIsDashed(s: string)
    requires Dashed(s)
    ensures Dashed(TrimHyphens(s))
    ensures TrimHyphens(s) != "" ==> TrimHyphens(s)[0] != '-' && TrimHyphens(s)[|TrimHyphens(s)| - 1] != '-'
    decreases |s|
  {
    if |s| > 0 && s[0] == '-' {
      TrimmedIsDashed(s[1..]);
    } else if |s| > 0 && s[|s| - 1] == '-' {
      TrimmedIsDashed(s[..|s| - 1]);
    }
  }

  lemma SlugIsSlug(stem: string)
    ensures var full := FullSlug(stem);
            Dashed(full) && (full != "" ==> full[0] != '-' && full[|full| - 1] != '-')
    ensures Slug(stem) == "" || IsSlug(Slug(stem))
    ensures Slug(stem) != "" && Slug(stem)[|Slug(stem)| - 1] == '-' ==> |Slug(stem)| == MAX_SLUG
  {
    DashIsDashed(LowerCase(stem));
    TrimmedIsDashed(Dash(LowerCase(stem)));
  }

  /** Every accepted name is a slug and one of the five extensions; the slug ends in a
      hyphen only where the cut at 64 characters fell behind one. */
  lemma CleanNameShape(raw: string) returns (slug: string, ext: string)
    requires Sanitise(raw).Ok?
    ensures Sanitise(raw).value == slug + ext && IsSlug(slug) && Allowed(ext)
    ensures slug == Slug(Stem(BaseName(raw))) && ext == Extension(BaseName(raw))
    ensures slug[|slug| - 1] == '-' <==>
              |FullSlug(Stem(BaseName(raw)))| > MAX_SLUG && FullSlug(Stem(BaseName(raw)))[MAX_SLUG - 1] == '-'
  {
    slug, ext := Slug(Stem(BaseName(raw))), Extension(BaseName(raw));
    SlugIsSlug(Stem(BaseName(raw)));
  }

  // ----- what a name becomes -------------------------------------------------------------

  predicate AllLetters(s: string) {
    forall i :: 0 <= i < |s| ==> SlugLetter(s[i])
  }

  predicate NoLetters(s: string) {
    forall i :: 0 <= i < |s| ==> !SlugLetter(s[i])
  }

  /** Words with gaps before, between and after them. */
  predicate Apart(words: seq<string>, gaps: seq<string>) {
    && |gaps| == |words| + 1
    && (forall i :: 0 <= i < |words| ==> words[i] != "" && AllLetters(words[i]))
    && (forall i :: 0 <= i < |gaps| ==> NoLetters(gaps[i]) && (0 < i < |words| ==> gaps[i] != ""))
  }

  function Spaced(words: seq<string>, gaps: seq<string>): string
    requires |gaps| == |words| + 1
  {
    if |words| == 0 then gaps[0] else gaps[0] + words[0] + Spaced(words[1..], gaps[1..])
  }

  function DashFor(gap: string): string {
    if gap == "" then "" else "-"
  }

  /** A run of other characters becomes one hyphen. */
  lemma {:induction false} DashOfGap(gap: string, rest: string)
    requires NoLetters(gap) && (rest != "" ==> SlugLetter(rest[0]))
    ensures Dash(gap + rest) == DashFor(gap) + Dash(rest)
    ensures SkipOthers(gap + rest) == rest
  {
    if gap == "" {
      assert gap + rest == rest;
    } else {
      assert (gap + rest)[1..] == gap[1..] + rest;
      DashOfGap(gap[1..], rest);
    }
  }

  lemma {:induction false} DashOfWord(word: string, rest: string)
    requires AllLetters(word)
    ensures Dash(word + rest) == word + Dash(rest)
  {
    if word == "" {
      assert word + rest == rest;
    } else {
      assert (word + rest)[0] == word[0] && (word + rest)[1..] == word[1..] + rest;
      DashOfWord(word[1..], rest);
      assert word == [word[0]] + word[1..];
    }
  }

  lemma {:induction false} DashOfSpaced(words: seq<string>, gaps: seq<string>)
    requires Apart(words, gaps) && |words| > 0
    ensures Dash(Spaced(words, gaps)) == DashFor(gaps[0]) + Join(words, "-") + DashFor(gaps[|words|])
  {
    DashOfGapAndWord(gaps[0], words[0], Spaced(words[1..], gaps[1..]));
    if |words| == 1 {
      DashOfLastGap(gaps[1]);
    } else {
      DashOfSpaced(words[1..], gaps[1..]);
      Regroup(DashFor(gaps[0]), words[0], Join(words[1..], "-"), DashFor(gaps[|words|]));
    }
  }

  lemma DashOfGapAndWord(gap: string, word: string, rest: string)
    requires NoLetters(gap) && word != "" && AllLetters(word)
    ensures Dash(gap + word + rest) == DashFor(gap) + word + Dash(rest)
  {
    assert gap + word + rest == gap + (word + rest);
    assert (word + rest)[0] == word[0];
    DashOfGap(gap, word + rest);
    DashOfWord(word, rest);
  }

  lemma DashOfLastGap(gap: string)
    requires NoLetters(gap)
    ensures Dash(gap) == DashFor(gap)
  {
    DashOfGap(gap, "");
    assert gap + "" == gap;
  }

  lemma Regroup(a: string, word: string, joined: string, b: string)
    ensures a + word + ("-" + joined + b) == a + (word + "-" + joined) + b
  {
  }

  lemma {:induction false} JoinEndsInLetters(words: seq<string>)
    requires |words| > 0 && forall i :: 0 <= i < |words| ==> words[i] != "" && AllLetters(words[i])
    ensures var j := Join(words, "-"); j != "" && SlugLetter(j[0]) && SlugLetter(j[|j| - 1])
  {
    if |words| > 1 { JoinEndsInLetters(words[1..]); }
  }

  lemma TrimOfEnds(a: string, s: string, b: string)
    requires (a == "" || a == "-") && (b == "" || b == "-") && s != "" && s[0] != '-' && s[|s| - 1] != '-'
    ensures TrimHyphens(a + s + b) == s
  {
    var t := s + b;
    assert a == "-" ==> (a + s + b)[1..] == t;
    assert a == "" ==> a + s + b == t;
    assert b == "-" ==> t[..|t| - 1] == s;
    assert t[0] == s[0];
    assert TrimHyphens(t) == s;
  }

  /** The slug before its cut is the words of the stem, in lower case and in order, with
      one hyphen between two of them whatever stood there. */
  lemma SlugIsItsWords(stem: string, words: seq<string>, gaps: seq<string>)
    requires Apart(words, gaps) && LowerCase(stem) == Spaced(words, gaps)
    ensures FullSlug(stem) == Join(words, "-")
  {
    if |words| == 0 {
      DashOfLastGap(gaps[0]);
      assert TrimHyphens("-") == "" by { assert "-"[1..] == ""; }
    } else {
      DashOfSpaced(words, gaps);
      JoinEndsInLetters(words);
      TrimOfEnds(DashFor(gaps[0]), Join(words, "-"), DashFor(gaps[|words|]));
    }
  }

  /** And every text is words and gaps. */
  lemma {:induction false} EveryTextIsWords(s: string) returns (words: seq<string>, gaps: seq<string>)
    ensures Apart(words, gaps) && Spaced(words, gaps) == s
  {
    if s == "" {
      words, gaps := [], [""];
    } else {
      words, gaps := EveryTextIsWords(s[1..]);
      assert s == [s[0]] + s[1..];
      words, gaps := OneMore(s[0], words, gaps);
    }
  }

  lemma OneMore(c: char, words: seq<string>, gaps: seq<string>) returns (words': seq<string>, gaps': seq<string>)
    requires Apart(words, gaps)
    ensures Apart(words', gaps') && Spaced(words', gaps') == [c] + Spaced(words, gaps)
  {
    words', gaps' := words, gaps;
    if !SlugLetter(c) {
      gaps' := [[c] + gaps[0]] + gaps[1..];
    } else if gaps[0] == "" && |words| > 0 {
      words' := [[c] + words[0]] + words[1..];
    } else {
      words', gaps' := [[c]] + words, [""] + gaps;
    }
  }

  /** An upload of any path is cleaned to its words and its lower-case extension, cut at
      64 characters; it is refused for another extension, or without a word. */
  lemma CleanedName(dir: string, stem: string, ext: string, words: seq<string>, gaps: seq<string>)
    requires dir == "" || dir[|dir| - 1] in {'/', '\\'}
    requires stem != "" && forall i :: 0 <= i < |stem| ==> stem[i] !in {'/', '\\'}
    requires ext != "" && ext[0] == '.' && forall i :: 0 < i < |ext| ==> ext[i] !in {'/', '\\', '.'}
    requires Apart(words, gaps) && LowerCase(stem) == Spaced(words, gaps)
    ensures Sanitise(dir + stem + ext)
            == if LowerCase(ext) in {".mp4", ".ts", ".mkv", ".mov", ".webm"} && words != []
               then Ok(Take(64, Join(words, "-")) + LowerCase(ext)) else Err(400)
  {
    assert dir + stem + ext == dir + (stem + ext);
    PartsAfter(dir, stem, ext);
    CutOfWords(stem, words, gaps);
  }

  lemma CutOfWords(stem: string, words: seq<string>, gaps: seq<string>)
    requires Apart(words, gaps) && LowerCase(stem) == Spaced(words, gaps)
    ensures Slug(stem) == Take(64, Join(words, "-"))
    ensures Slug(stem) == "" <==> words == []
  {
    SlugIsItsWords(stem, words, gaps);
    if words != [] { JoinEndsInLetters(words); }
  }

  lemma PartsAfter(dir: string, stem: string, ext: string)
    requires dir == "" || dir[|dir| - 1] in {'/', '\\'}
    requires stem != "" && forall i :: 0 <= i < |stem| ==> stem[i] !in {'/', '\\'}
    requires ext != "" && ext[0] == '.' && forall i :: 0 < i < |ext| ==> ext[i] !in {'/', '\\', '.'}
    ensures BaseName(dir + (stem + ext)) == stem + ext
    ensures Stem(stem + ext) == stem && Extension(stem + ext) == LowerCase(ext)
  {
    BaseNameAfter(dir, stem + ext);
    LastDotAfter(stem, ext);
    assert (stem + ext)[..|stem|] == stem && (stem + ext)[|stem|..] == ext;
  }

  lemma {:induction false} BaseNameAfter(dir: string, base: string)
    requires dir == "" || dir[|dir| - 1] in {'/', '\\'}
    requires forall i :: 0 <= i < |base| ==> base[i] !in {'/', '\\'}
    ensures BaseName(dir + base) == base
  {
    if base == "" {
      assert dir + base == dir;
    } else {
      assert (dir + base)[..|dir + base| - 1] == dir + base[..|base| - 1];
      BaseNameAfter(dir, base[..|base| - 1]);
      assert base == base[..|base| - 1] + [base[|base| - 1]];
    }
  }

  // ----- cleaning again ----------------------------------------------------------------

  /** The name with the hyphen of an unlucky cut gone. */
  function WithoutLastHyphen(slug: string): string {
    if |slug| > 0 && slug[|slug| - 1] == '-' then slug[..|slug| - 1] else slug
  }

  lemma {:induction false} LowerCaseOfLower(s: string)
    requires forall i :: 0 <= i < |s| ==> SlugLetter(s[i]) || s[i] == '-' || s[i] == '.'
    ensures LowerCase(s) == s
  {
    if |s| > 0 {
      LowerCaseOfLower(s[1..]);
      assert s == [s[0]] + s[1..];
    }
  }

  lemma {:induction false} DashOfDashed(s: string)
    requires Dashed(s)
    ensures Dash(s) == s
    decreases |s|
  {
    if |s| > 0 {
      assert s == [s[0]] + s[1..];
      assert forall i :: 0 < i < |s[1..]| ==> s[1..][i] == s[i + 1] && s[1..][i - 1] == s[i];
      DashOfDashed(s[1..]);
      if s[0] == '-' && |s| > 1 { assert s[1] != '-'; }
    }
  }

  lemma TrimOfSlug(s: string)
    requires Dashed(s) && |s| > 0 && s[0] != '-'
    ensures TrimHyphens(s) == WithoutLastHyphen(s) && |TrimHyphens(s)| > 0
  {
    if s[|s| - 1] == '-' {
      var t := s[..|s| - 1];
      assert |t| > 0 && t[0] == s[0] && t[|t| - 1] != '-';
    }
  }

  /** Cleaning a stem that is dashed already. */
  lemma SlugOfDashed(stem: string)
    requires Dashed(stem) && |stem| > 0 && stem[0] != '-'
    ensures Slug(stem) == Take(MAX_SLUG, WithoutLastHyphen(stem)) && |Slug(stem)| > 0
  {
    LowerCaseOfLower(stem);
    DashOfDashed(stem);
    TrimOfSlug(stem);
  }

  lemma AllowedShape(ext: string)
    requires Allowed(ext)
    ensures |ext| >= 3 && ext[0] == '.' && forall i :: 0 < i < |ext| ==> SlugLetter(ext[i])
  {
  }

  lemma {:induction false} LastDotAfter(stem: string, ext: string)
    requires |ext| > 0 && ext[0] == '.' && forall i :: 0 < i < |ext| ==> ext[i] != '.'
    ensures LastDot(stem + ext) == |stem|
  {
    if |ext| > 1 {
      assert (stem + ext)[..|stem + ext| - 1] == stem + ext[..|ext| - 1];
      LastDotAfter(stem, ext[..|ext| - 1]);
    }
  }

  /** A dashed stem and an allowed extension come apart as they were put together. */
  lemma PartsOf(stem: string, ext: string)
    requires Dashed(stem) && |stem| > 0 && Allowed(ext)
    ensures BaseName(stem + ext) == stem + ext
    ensures Stem(stem + ext) == stem && Extension(stem + ext) == ext
  {
    AllowedShape(ext);
    PartsAfter("", stem, ext);
    assert "" + (stem + ext) == stem + ext;
    LowerCaseOfLower(ext);
  }

  /** Cleaning a cleaned name, in every case: only a hyphen left by the cut goes. */
  lemma CleaningAgain(slug: string, ext: string)
    requires IsSlug(slug) && Allowed(ext)
    ensures Sanitise(slug + ext) == Ok(WithoutLastHyphen(slug) + ext)
  {
    PartsOf(slug, ext);
    SlugOfDashed(slug);
  }

  /** Cleaning is the identity on cleaned names exactly when the 64-character cut did not
      leave a hyphen at the end. */
  lemma IdempotentExactly(raw: string)
    requires Sanitise(raw).Ok?
    ensures var full := FullSlug(Stem(BaseName(raw)));
            Sanitise(Sanitise(raw).value) == Sanitise(raw) <==> !(|full| > MAX_SLUG && full[MAX_SLUG - 1] == '-')
  {
    var slug, ext := CleanNameShape(raw);
    CleaningAgain(slug, ext);
    if slug[|slug| - 1] == '-' {
      assert |WithoutLastHyphen(slug) + ext| < |slug + ext|;
    }
  }

  /** The failing case: 63 letters, a hyphen, one more letter. */
  lemma UnluckyCut()
    ensures var stem := seq(63, _ => 'a') + "-b";
            var slug := seq(63, _ => 'a') + "-";
            Sanitise(stem + ".mp4") == Ok(slug + ".mp4") && Sanitise(slug + ".mp4") == Ok(seq(63, _ => 'a') + ".mp4")
  {
    var letters := seq(63, _ => 'a');
    CutBehindHyphen(letters, letters + "-b", letters + "-", ".mp4");
  }

  lemma CutBehindHyphen(letters: string, stem: string, slug: string, ext: string)
    requires |letters| == 63 && forall i :: 0 <= i < 63 ==> letters[i] == 'a'
    requires stem == letters + "-b" && slug == letters + "-" && Allowed(ext)
    ensures Sanitise(stem + ext) == Ok(slug + ext) && Sanitise(slug + ext) == Ok(letters + ext)
  {
    assert Dashed(stem) && Dashed(slug);
    PartsOf(stem, ext);
    SlugOfDashed(stem);
    assert stem[..MAX_SLUG] == slug;
    CleaningAgain(slug, ext);
    assert WithoutLastHyphen(slug) == letters;
  }

  // ----- camera ids -----------------------------------------------------------------------

  /** Drops the last extension, if characters other than a dot follow the last dot. */
  function WithoutExtension(name: string): string {
    var d := LastDot(name);
    if d >= 0 && d < |name| - 1 then name[..d] else name
  }

  /** `footageCameraId`. */
  function FootageCameraId(fileName: string): string {
    Take(MAX_ID, "test-" + WithoutExtension(fileName))
  }

  /** `^[a-z0-9][a-z0-9_-]{0,31}$` (src/lib/schemas.ts:37). */
  predicate IsCameraId(s: string) {
    0 < |s| <= 32 && SlugLetter(s[0]) && forall i :: 0 < i < |s| ==> SlugLetter(s[i]) || s[i] == '_' || s[i] == '-'
  }

  /** The id of every accepted file is a footage id and one the camera API takes. */
  lemma IdIsValid(raw: string)
    requires Sanitise(raw).Ok?
    ensures IsCameraId(FootageCameraId(Sanitise(raw).value))
    ensures Reconciler.IsFootage(FootageCameraId(Sanitise(raw).value))
  {
    var slug, ext := CleanNameShape(raw);
    IdOfClean(slug, ext);
  }

  lemma IdOfClean(slug: string, ext: string)
    requires IsSlug(slug) && Allowed(ext)
    ensures FootageCameraId(slug + ext) == "test-" + Take(MAX_ID - 5, slug)
    ensures IsCameraId(FootageCameraId(slug + ext)) && Reconciler.IsFootage(FootageCameraId(slug + ext))
  {
    AllowedShape(ext);
    LastDotAfter(slug, ext);
    assert (slug + ext)[..|slug|] == slug;
    var id := FootageCameraId(slug + ext);
    assert id == "test-" + Take(MAX_ID - 5, slug);
    forall i | 0 <= i < |id| ensures SlugLetter(id[i]) || id[i] == '-' {
      if i >= 5 { assert id[i] == slug[i - 5]; }
    }
  }

  /** Two files share a camera exactly when their slugs agree on 27 characters. */
  lemma SameCameraExactly(slug1: string, ext1: string, slug2: string, ext2: string)
    requires IsSlug(slug1) && Allowed(ext1) && IsSlug(slug2) && Allowed(ext2)
    ensures FootageCameraId(slug1 + ext1) == FootageCameraId(slug2 + ext2) <==> Take(27, slug1) == Take(27, slug2)
  {
    IdOfClean(slug1, ext1);
    IdOfClean(slug2, ext2);
    var a, b := "test-" + Take(27, slug1), "test-" + Take(27, slug2);
    assert a[5..] == Take(27, slug1) && b[5..] == Take(27, slug2);
  }

  // ----- the directory ----------------------------------------------------------------------

  function Sum(chunks: seq<nat>): nat {
    if |chunks| == 0 then 0 else Sum(chunks[..|chunks| - 1]) + chunks[|chunks| - 1]
  }

  lemma {:induction false} SumGrows(chunks: seq<nat>, i: nat)
    requires i <= |chunks|
    ensures Sum(chunks[..i]) <= Sum(chunks)
  {
    if i < |chunks| {
      SumGrows(chunks[..|chunks| - 1], i);
      assert chunks[..|chunks| - 1][..i] == chunks[..i];
    } else {
      assert chunks[..i] == chunks;
    }
  }

  /** The footage directory: the size of every file in it. */
  class FootageDir {
    var files: map<string, nat>

    constructor ()
      ensures files == map[]
    {
      files := map[];
    }

    /** `saveFootage`: the body comes in chunks; `declared` is the length it is said to
        have, if any, and `broken` the chunk, if any, at which the connection fails. A
        failed upload leaves nothing behind, a stored one is whole. */
    method SaveFootage(fileName: string, chunks: seq<nat>, declared: int, broken: int) returns (r: Result<nat>)
      modifies this
      ensures r.Ok? <==>
                && Sum(chunks) <= MAX_UPLOAD_BYTES && !(0 <= broken < |chunks|)
                && (declared < 0 || declared == Sum(chunks))
      ensures r.Ok? ==> r.value == Sum(chunks)
      ensures r.Ok? ==> files == (old(files) - {fileName + ".part"})[fileName := Sum(chunks)]
      ensures !r.Ok? && declared > MAX_UPLOAD_BYTES ==> files == old(files)
      ensures !r.Ok? && declared <= MAX_UPLOAD_BYTES ==> files == old(files) - {fileName + ".part"}
    {
      if declared > MAX_UPLOAD_BYTES { return Err(413); }
      var tmp := fileName + ".part";
      var written := 0;
      files := files[tmp := 0];
      for i := 0 to |chunks|
        invariant written == Sum(chunks[..i]) <= MAX_UPLOAD_BYTES
        invariant i > 0 ==> !(0 <= broken < i)
        invariant files == old(files)[tmp := written]
      {
        assert chunks[..i + 1][..i] == chunks[..i];
        SumGrows(chunks, i + 1);
        if i == broken {
          files := files - {tmp};
          return Err(0);
        }
        written := written + chunks[i];
        if written > MAX_UPLOAD_BYTES {
          files := files - {tmp};
          return Err(413);
        }
        files := files[tmp := written];
      }
      assert chunks[..|chunks|] == chunks;
      if declared >= 0 && written != declared {
        files := files - {tmp};
        return Err(400);
      }
      files := (files - {tmp})[fileName := written];
      return Ok(written);
    }

    /** `deleteFootage`. */
    method DeleteFootage(fileName: string) returns (r: Result<string>)
      modifies this
      ensures Sanitise(fileName).Err? ==> r == Sanitise(fileName) && files == old(files)
      ensures Sanitise(fileName).Ok? && Sanitise(fileName).value !in old(files) ==> r == Err(404) && files == old(files)
      ensures Sanitise(fileName).Ok? && Sanitise(fileName).value in old(files) ==>
                r == Sanitise(fileName) && files == old(files) - {Sanitise(fileName).value}
    {
      var safe := Sanitise(fileName);
      if safe.Err? { return safe; }
      if safe.value !in files { return Err(404); }
      files := files - {safe.value};
      return safe;
    }

    /** An upload under its cleaned name, deleted by the name it is listed under: that
        works exactly when the cut left no hyphen, and otherwise it is the file without
        the hyphen, another one, that goes if there is one. */
    method UploadThenDelete(raw: string, chunks: seq<nat>) returns (deleted: Result<string>)
      requires Sanitise(raw).Ok? && Sum(chunks) <= MAX_UPLOAD_BYTES
      modifies this
      ensures var full := FullSlug(Stem(BaseName(raw)));
              Sanitise(raw).value !in files <==> !(|full| > MAX_SLUG && full[MAX_SLUG - 1] == '-')
      ensures Sanitise(raw).value !in files ==> deleted == Sanitise(raw)
      ensures Sanitise(raw).value in files && deleted.Ok? ==>
                deleted.value in old(files) && deleted.value !in files && deleted.value != Sanitise(raw).value
    {
      var slug, ext := CleanNameShape(raw);
      CleaningAgain(slug, ext);
      IdempotentExactly(raw);
      var name := Sanitise(raw).value;
      var saved := SaveFootage(name, chunks, -1, -1);
      deleted := DeleteFootage(name);
    }
  }
}
