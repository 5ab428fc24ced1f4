/** `glob2regex` of src/lib/utils.ts: a split-and-join translation of a sensor glob
    into a JavaScript regular expression, against a direct wildcard matcher. */
module SensorGlob {
  import opened Regex
  import opened Text

  /** One item of the expression text the translation joins together. A `?` in the glob
      is not escaped, so it stays a quantifier. */
  datatype Item = Lit(c: char) | Question | InSegment | Anything

  function LiteralItem(c: char): Item {
    if c == '?' then Question else Lit(c)
  }

  function Literal(s: string): seq<Item> {
    seq(|s|, i requires 0 <= i < |s| => LiteralItem(s[i]))
  }

  /** `glob.split("**")`. */
  function SplitPairs(s: string): (parts: seq<string>)
    ensures |parts| > 0
  {
    if s == "" then [""]
    else if StartsWith(s, "**") then [""] + SplitPairs(s[2..])
    else
      var rest := SplitPairs(s[1..]);
      [[s[0]] + rest[0]] + rest[1..]
  }

  function JoinItems(parts: seq<seq<Item>>, sep: Item): seq<Item> {
    if |parts| == 0 then []
    else if |parts| == 1 then parts[0]
    else parts[0] + [sep] + JoinItems(parts[1..], sep)
  }

  /** `part.split("*").map(escape).join("[^/]*")`. */
  function PartItems(part: string): seq<Item> {
    JoinItems(Literals(Split(part, '*')), InSegment)
  }

  function Literals(names: seq<string>): (r: seq<seq<Item>>)
    ensures |r| == |names|
  {
    seq(|names|, i requires 0 <= i < |names| => Literal(names[i]))
  }

  /** The expression text, between `^` and `$`. */
  function Escaped(glob: string): seq<Item> {
    JoinItems(AllPartItems(SplitPairs(glob)), Anything)
  }

  function AllPartItems(parts: seq<string>): (r: seq<seq<Item>>)
    ensures |r| == |parts|
  {
    seq(|parts|, i requires 0 <= i < |parts| => PartItems(parts[i]))
  }

  /** The same text read off the glob from left to right. */
  function Scan(glob: string): seq<Item> {
    if glob == "" then []
    else if StartsWith(glob, "**") then [Anything] + Scan(glob[2..])
    else if glob[0] == '*' then [InSegment] + Scan(glob[1..])
    else [LiteralItem(glob[0])] + Scan(glob[1..])
  }

  lemma JoinItemsHead(parts: seq<seq<Item>>, head: seq<Item>, sep: Item)
    requires |parts| > 0
    ensures JoinItems([head + parts[0]] + parts[1..], sep) == head + JoinItems(parts, sep)
  {
    var all := [head + parts[0]] + parts[1..];
    assert all[1..] == parts[1..];
  }

  lemma JoinItemsCons(head: seq<Item>, parts: seq<seq<Item>>, sep: Item)
    requires |parts| > 0
    ensures JoinItems([head] + parts, sep) == head + [sep] + JoinItems(parts, sep)
  {
    assert ([head] + parts)[1..] == parts;
  }

  lemma LiteralCons(c: char, s: string)
    ensures Literal([c] + s) == [LiteralItem(c)] + Literal(s)
  {
  }

  lemma LiteralsCons(name: string, names: seq<string>)
    ensures Literals([name] + names) == [Literal(name)] + Literals(names)
  {
  }

  lemma AllPartItemsCons(part: string, parts: seq<string>)
    ensures AllPartItems([part] + parts) == [PartItems(part)] + AllPartItems(parts)
  {
  }

  lemma SplitStep(c: char, part: string)
    ensures var names := Split(part, '*');
            Split([c] + part, '*') == if c == '*' then [""] + names else [[c] + names[0]] + names[1..]
  {
    assert ([c] + part)[1..] == part;
  }

  lemma EmptyPart()
    ensures PartItems("") == []
  {
    assert Split("", '*') == [""];
    assert Literals([""])[0] == [];
  }

  lemma PartItemsStep(c: char, part: string)
    ensures PartItems([c] + part) == [if c == '*' then InSegment else LiteralItem(c)] + PartItems(part)
  {
    var names := Split(part, '*');
    SplitStep(c, part);
    if c == '*' {
      StarBegins(names);
    } else {
      NameGrows(c, names);
    }
  }

  lemma StarBegins(names: seq<string>)
    requires |names| > 0
    ensures JoinItems(Literals([""] + names), InSegment) == [InSegment] + JoinItems(Literals(names), InSegment)
  {
    LiteralsCons("", names);
    assert Literal("") == [];
    JoinItemsCons([], Literals(names), InSegment);
  }

  lemma NameGrows(c: char, names: seq<string>)
    requires |names| > 0
    ensures JoinItems(Literals([[c] + names[0]] + names[1..]), InSegment)
            == [LiteralItem(c)] + JoinItems(Literals(names), InSegment)
  {
    assert names == [names[0]] + names[1..];
    LiteralsCons(names[0], names[1..]);
    LiteralsCons([c] + names[0], names[1..]);
    LiteralCons(c, names[0]);
    JoinItemsHead(Literals(names), [LiteralItem(c)], InSegment);
  }

  /** Splitting and joining reads the glob from left to right. */
  lemma {:induction false} EscapedIsScan(glob: string)
    ensures Escaped(glob) == Scan(glob)
  {
    EmptyPart();
    if glob == "" {
      assert AllPartItems([""]) == [[]];
    } else if StartsWith(glob, "**") {
      EscapedIsScan(glob[2..]);
      var rest := SplitPairs(glob[2..]);
      AllPartItemsCons("", rest);
      JoinItemsCons([], AllPartItems(rest), Anything);
    } else {
      EscapedIsScan(glob[1..]);
      PartGrows(glob[0], SplitPairs(glob[1..]));
    }
  }

  lemma PartGrows(c: char, parts: seq<string>)
    requires |parts| > 0
    ensures JoinItems(AllPartItems([[c] + parts[0]] + parts[1..]), Anything)
            == [if c == '*' then InSegment else LiteralItem(c)] + JoinItems(AllPartItems(parts), Anything)
  {
    assert parts == [parts[0]] + parts[1..];
    AllPartItemsCons(parts[0], parts[1..]);
    AllPartItemsCons([c] + parts[0], parts[1..]);
    PartItemsStep(c, parts[0]);
    JoinItemsHead(AllPartItems(parts), [if c == '*' then InSegment else LiteralItem(c)], Anything);
  }

  // ----- what `new RegExp` makes of the text -----------------------------------

  datatype Compiled = Invalid | Valid(pieces: seq<Regex>)

  /** What a following `?` applies to: nothing (a syntax error), a plain atom (which
      becomes optional), or a quantified atom (which becomes lazy, the same language). */
  datatype Repeatable = Nothing | Atom | Quantified

  function Parse(items: seq<Item>, done: seq<Regex>, last: Repeatable): Compiled
    requires last.Atom? ==> |done| > 0
  {
    if |items| == 0 then Valid(done)
    else
      match items[0]
      case Lit(c) => Parse(items[1..], done + [Chr(c)], Atom)
      case InSegment => Parse(items[1..], done + [Star(NotSlash)], Quantified)
      case Anything => Parse(items[1..], done + [Star(Dot)], Quantified)
      case Question =>
        match last
        case Nothing => Invalid
        case Atom => Parse(items[1..], done[..|done| - 1] + [Opt(done[|done| - 1])], Quantified)
        case Quantified => Parse(items[1..], done, Nothing)
  }

  function Glob2Regex(glob: string): Compiled {
    Parse(Escaped(glob), [], Nothing)
  }

  /** `re.test(id)` for the anchored expression. */
  ghost predicate Test(glob: string, id: string) {
    Glob2Regex(glob).Valid? && Matches(Concat(Glob2Regex(glob).pieces), id, JAVASCRIPT)
  }

  // ----- the wildcard matcher --------------------------------------------------

  /** What the glob is documented to mean: `**` any characters, `*` any characters but
      a slash, anything else itself. */
  ghost predicate Wild(glob: string, id: string)
    decreases |glob|
  {
    if glob == "" then id == ""
    else if StartsWith(glob, "**") then exists k {:trigger Cut(id, k)} :: Cut(id, k) && Wild(glob[2..], id[k..])
    else if glob[0] == '*' then
      exists k {:trigger Cut(id, k)} :: Cut(id, k) && '/' !in id[..k] && Wild(glob[1..], id[k..])
    else id != "" && id[0] == glob[0] && Wild(glob[1..], id[1..])
  }

  predicate OneLine(s: string) {
    forall i :: 0 <= i < |s| ==> s[i] !in JAVASCRIPT
  }

  function PlainPiece(item: Item): Regex
    requires !item.Question?
  {
    match item
    case Lit(c) => Chr(c)
    case InSegment => Star(NotSlash)
    case Anything => Star(Dot)
  }

  function PlainPieces(items: seq<Item>): seq<Regex>
    requires forall i :: 0 <= i < |items| ==> !items[i].Question?
  {
    seq(|items|, i requires 0 <= i < |items| => PlainPiece(items[i]))
  }

  lemma {:induction false} ParsePlain(items: seq<Item>, done: seq<Regex>, last: Repeatable)
    requires last.Atom? ==> |done| > 0
    requires forall i :: 0 <= i < |items| ==> !items[i].Question?
    ensures Parse(items, done, last) == Valid(done + PlainPieces(items))
  {
    if |items| == 0 {
      assert done + PlainPieces(items) == done;
    } else {
      var piece := PlainPiece(items[0]);
      var next := if items[0].Lit? then Atom else Quantified;
      ParsePlain(items[1..], done + [piece], next);
      assert done + PlainPieces(items) == done + [piece] + PlainPieces(items[1..]);
    }
  }

  lemma {:induction false} ScanHasNoQuestion(glob: string)
    requires '?' !in glob
    ensures forall i :: 0 <= i < |Scan(glob)| ==> !Scan(glob)[i].Question?
  {
    if glob == "" {
    } else if StartsWith(glob, "**") {
      ScanHasNoQuestion(glob[2..]);
    } else {
      ScanHasNoQuestion(glob[1..]);
    }
  }

  lemma StarOfDot(s: string)
    requires OneLine(s)
    ensures Matches(Star(Dot), s, JAVASCRIPT)
  {
    StarOfCharacters(Dot, s, JAVASCRIPT);
  }

  lemma StarOfNotSlash(s: string)
    ensures Matches(Star(NotSlash), s, JAVASCRIPT) <==> '/' !in s
  {
    StarOfCharacters(NotSlash, s, JAVASCRIPT);
    if '/' in s {
      var i :| 0 <= i < |s| && s[i] == '/';
      assert !Matches(NotSlash, [s[i]], JAVASCRIPT);
    }
  }

  /** The text of a glob is its first item and the text of what follows. */
  lemma ScanTail(glob: string, rest: string)
    requires glob != "" && rest == (if StartsWith(glob, "**") then glob[2..] else glob[1..])
    requires forall i :: 0 <= i < |Scan(glob)| ==> !Scan(glob)[i].Question?
    ensures |Scan(glob)| > 0 && forall i :: 0 <= i < |Scan(rest)| ==> !Scan(rest)[i].Question?
    ensures Concat(PlainPieces(Scan(glob))) == Cat(PlainPiece(Scan(glob)[0]), Concat(PlainPieces(Scan(rest))))
  {
    var items := Scan(glob);
    assert items[1..] == Scan(rest);
    assert PlainPieces(items)[1..] == PlainPieces(Scan(rest));
    forall i | 0 <= i < |Scan(rest)| ensures !Scan(rest)[i].Question? {
      assert items[i + 1] == Scan(rest)[i];
    }
  }

  lemma {:induction false} ScanMatchesWild(glob: string, id: string)
    requires '?' !in glob && OneLine(id)
    requires forall i :: 0 <= i < |Scan(glob)| ==> !Scan(glob)[i].Question?
    ensures Matches(Concat(PlainPieces(Scan(glob))), id, JAVASCRIPT) <==> Wild(glob, id)
    decreases |glob|
  {
    var items := Scan(glob);
    if glob != "" {
      var rest := if StartsWith(glob, "**") then glob[2..] else glob[1..];
      ScanTail(glob, rest);
      var more := Concat(PlainPieces(Scan(rest)));
      forall k | Cut(id, k)
        ensures Matches(more, id[k..], JAVASCRIPT) <==> Wild(rest, id[k..])
        ensures Matches(Star(Dot), id[..k], JAVASCRIPT)
        ensures Matches(Star(NotSlash), id[..k], JAVASCRIPT) <==> '/' !in id[..k]
      {
        ScanMatchesWild(rest, id[k..]);
        StarOfDot(id[..k]);
        StarOfNotSlash(id[..k]);
      }
      if items[0].Lit? && id != "" {
        assert Cut(id, 1) && id[..1] == [id[0]];
      }
    }
  }

  // ----- a question mark breaks it ---------------------------------------------

  /** A string without `?` that the pieces match: keep the plain characters, let every
      optional or starred piece match nothing. */
  function Shortest(pieces: seq<Regex>): string {
    if |pieces| == 0 then ""
    else (if pieces[0].Chr? then [pieces[0].c] else "") + Shortest(pieces[1..])
  }

  predicate Emitted(pieces: seq<Regex>) {
    forall i :: 0 <= i < |pieces| ==>
      || (pieces[i].Chr? && pieces[i].c != '?' && pieces[i].c !in JAVASCRIPT)
      || pieces[i].Star? || pieces[i].Opt?
  }

  lemma {:induction false} ShortestMatches(pieces: seq<Regex>)
    requires Emitted(pieces)
    ensures Matches(Concat(pieces), Shortest(pieces), JAVASCRIPT)
    ensures '?' !in Shortest(pieces) && OneLine(Shortest(pieces))
  {
    if |pieces| > 0 {
      ShortestMatches(pieces[1..]);
      var s := Shortest(pieces);
      var k := if pieces[0].Chr? then 1 else 0;
      assert Cut(s, k) && s[k..] == Shortest(pieces[1..]);
      assert Matches(pieces[0], s[..k], JAVASCRIPT);
    }
  }

  lemma {:induction false} ParseEmits(items: seq<Item>, done: seq<Regex>, last: Repeatable)
    requires last.Atom? ==> |done| > 0
    requires Emitted(done)
    requires forall i :: 0 <= i < |items| ==> items[i].Lit? ==> items[i].c != '?' && items[i].c !in JAVASCRIPT
    ensures Parse(items, done, last).Valid? ==> Emitted(Parse(items, done, last).pieces)
  {
    if |items| > 0 {
      match items[0]
      case Lit(c) => ParseEmits(items[1..], done + [Chr(c)], Atom);
      case InSegment => ParseEmits(items[1..], done + [Star(NotSlash)], Quantified);
      case Anything => ParseEmits(items[1..], done + [Star(Dot)], Quantified);
      case Question =>
        match last
        case Nothing =>
        case Atom => ParseEmits(items[1..], done[..|done| - 1] + [Opt(done[|done| - 1])], Quantified);
        case Quantified => ParseEmits(items[1..], done, Nothing);
    }
  }

  lemma {:induction false} ScanLiterals(glob: string)
    requires OneLine(glob)
    ensures forall i :: 0 <= i < |Scan(glob)| ==> Scan(glob)[i].Lit? ==>
              Scan(glob)[i].c != '?' && Scan(glob)[i].c !in JAVASCRIPT
  {
    if glob == "" {
    } else if StartsWith(glob, "**") {
      ScanLiterals(glob[2..]);
    } else {
      ScanLiterals(glob[1..]);
    }
  }

  lemma {:induction false} WildNeedsItsQuestions(glob: string, id: string)
    requires Wild(glob, id) && '?' in glob
    ensures '?' in id
    decreases |glob|
  {
    if StartsWith(glob, "**") {
      var k :| Cut(id, k) && Wild(glob[2..], id[k..]);
      assert glob[0] == "**"[0] && glob[1] == "**"[1];
      assert '?' in glob[2..];
      WildNeedsItsQuestions(glob[2..], id[k..]);
    } else if glob[0] == '*' {
      var k :| Cut(id, k) && '/' !in id[..k] && Wild(glob[1..], id[k..]);
      WildNeedsItsQuestions(glob[1..], id[k..]);
    } else if glob[0] != '?' {
      WildNeedsItsQuestions(glob[1..], id[1..]);
    }
  }

  /** The preview is right for every one-line sensor id exactly when the glob has no
      `?`; with one, the expression is rejected or accepts some id the glob does not. */
  lemma PreviewIsRightWithoutQuestions(glob: string)
    requires OneLine(glob)
    ensures (Glob2Regex(glob).Valid? && forall id: string :: OneLine(id) ==> (Test(glob, id) <==> Wild(glob, id)))
            <==> '?' !in glob
  {
    EscapedIsScan(glob);
    if '?' !in glob {
      ScanHasNoQuestion(glob);
      ParsePlain(Scan(glob), [], Nothing);
      assert [] + PlainPieces(Scan(glob)) == PlainPieces(Scan(glob));
      forall id: string | OneLine(id) ensures Test(glob, id) <==> Wild(glob, id) {
        ScanMatchesWild(glob, id);
      }
    } else if Glob2Regex(glob).Valid? {
      var pieces := Glob2Regex(glob).pieces;
      ScanLiterals(glob);
      ParseEmits(Scan(glob), [], Nothing);
      ShortestMatches(pieces);
      var id := Shortest(pieces);
      if Wild(glob, id) { WildNeedsItsQuestions(glob, id); }
      assert Test(glob, id) && !Wild(glob, id);
    }
  }
}
