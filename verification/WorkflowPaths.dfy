/** `load_push_paths` of scripts/ci-alert.py: the indentation-tracking reader of
    `on.push.paths`, and the printer it undoes. A file is its list of lines. */
module WorkflowPaths {
  import opened Text

  /** What `str.strip()` removes. */
  predicate IsPySpace(c: char) {
    || '\t' <= c <= '\r' || '\U{1C}' <= c <= ' ' || c == '\U{85}' || c == '\U{A0}' || c == '\U{1680}'
    || '\U{2000}' <= c <= '\U{200A}' || c in ['\U{2028}', '\U{2029}', '\U{202F}', '\U{205F}', '\U{3000}']
  }

  function LStrip(s: string): string {
    if s != "" && IsPySpace(s[0]) then LStrip(s[1..]) else s
  }

  function RStrip(s: string): string {
    if s != "" && IsPySpace(s[|s| - 1]) then RStrip(s[..|s| - 1]) else s
  }

  function Strip(s: string): string {
    RStrip(LStrip(s))
  }

  /** `len(raw) - len(raw.lstrip(" "))`. */
  function Indent(raw: string): nat {
    if raw != "" && raw[0] == ' ' then 1 + Indent(raw[1..]) else 0
  }

  /** A blank line or a comment. */
  predicate Skipped(raw: string) {
    Strip(raw) == "" || StartsWith(Strip(raw), "#")
  }

  predicate AllPySpace(s: string) {
    forall i :: 0 <= i < |s| ==> IsPySpace(s[i])
  }

  /** That is: nothing but white space, or white space and then a `#`. */
  lemma SkippedExactly(raw: string)
    ensures Skipped(raw) <==>
              AllPySpace(raw) || exists i :: 0 <= i < |raw| && raw[i] == '#' && AllPySpace(raw[..i])
  {
    var k := BlanksAhead(raw);
    if k < |raw| {
      LStripAfter(raw, k);
      RStripKeepsTheFirst(raw[k..]);
      if i :| 0 <= i < |raw| && raw[i] == '#' && AllPySpace(raw[..i]) {
        BlanksAheadIs(raw, i);
      }
    } else {
      assert raw[..k] == raw;
      LStripAfter(raw, k);
    }
  }

  /** How many blanks a line begins with. */
  function BlanksAhead(s: string): (k: nat)
    ensures k <= |s| && AllPySpace(s[..k]) && (k < |s| ==> !IsPySpace(s[k]))
  {
    if s == "" || !IsPySpace(s[0]) then 0
    else
      var rest := BlanksAhead(s[1..]);
      assert forall i :: 0 < i < rest + 1 ==> s[i] == s[1..][..rest][i - 1];
      rest + 1
  }

  lemma {:induction false} BlanksAheadIs(s: string, k: nat)
    requires k < |s| && AllPySpace(s[..k]) && !IsPySpace(s[k])
    ensures BlanksAhead(s) == k
  {
    if k > 0 {
      assert s[..k][0] == s[0] && s[1..][..k - 1] == s[..k][1..];
      BlanksAheadIs(s[1..], k - 1);
    }
  }

  lemma {:induction false} LStripAfter(s: string, k: nat)
    requires k <= |s| && AllPySpace(s[..k]) && (k < |s| ==> !IsPySpace(s[k]))
    ensures LStrip(s) == s[k..]
  {
    if k > 0 {
      assert s[..k][0] == s[0] && s[1..][..k - 1] == s[..k][1..] && s[1..][k - 1..] == s[k..];
      LStripAfter(s[1..], k - 1);
    }
  }

  lemma {:induction false} RStripKeepsTheFirst(s: string)
    requires s != "" && !IsPySpace(s[0])
    ensures RStrip(s) != "" && RStrip(s)[0] == s[0]
  {
    if IsPySpace(s[|s| - 1]) { RStripKeepsTheFirst(s[..|s| - 1]); }
  }

  predicate IsQuote(c: char) {
    c == '"' || c == '\''
  }

  /** The text after `- `, without its quotes if it has a pair. */
  function ItemText(stripped: string): string
    requires |stripped| >= 2
  {
    var item := Strip(stripped[2..]);
    if |item| >= 2 && item[0] == item[|item| - 1] && IsQuote(item[0]) then item[1..|item| - 1] else item
  }

  // ----- the reader ------------------------------------------------------------

  /** Where the reader is, with the indentation it has to stay deeper than. */
  datatype State = SeekOn | SeekPush(onIndent: nat) | SeekPaths(pushIndent: nat) | InPaths(pathsIndent: nat)

  /** What one line that is not skipped does: end the reading, or move to a state and
      contribute some items. */
  datatype Move = Stop | Go(state: State, items: seq<string>)

  function Advance(state: State, stripped: string, indent: nat): Move {
    match state
    case SeekOn => Go(if stripped == "on:" then SeekPush(indent) else state, [])
    case SeekPush(n) =>
      if indent <= n then Stop else Go(if stripped == "push:" then SeekPaths(indent) else state, [])
    case SeekPaths(n) =>
      if indent <= n then Stop else Go(if stripped == "paths:" then InPaths(indent) else state, [])
    case InPaths(n) =>
      if indent <= n then Stop else Go(state, if StartsWith(stripped, "- ") then [ItemText(stripped)] else [])
  }

  /** What the remaining lines contribute. */
  function ReadFrom(lines: seq<string>, state: State): seq<string> {
    if |lines| == 0 then []
    else if Skipped(lines[0]) then ReadFrom(lines[1..], state)
    else
      match Advance(state, Strip(lines[0]), Indent(lines[0]))
      case Stop => []
      case Go(next, items) => items + ReadFrom(lines[1..], next)
  }

  lemma ReadStep(done: seq<string>, lines: seq<string>, i: nat, state: State)
    requires i < |lines|
    ensures Skipped(lines[i]) ==> done + ReadFrom(lines[i..], state) == done + ReadFrom(lines[i + 1..], state)
    ensures !Skipped(lines[i]) ==>
      match Advance(state, Strip(lines[i]), Indent(lines[i]))
      case Stop => done + ReadFrom(lines[i..], state) == done
      case Go(next, items) => done + ReadFrom(lines[i..], state) == (done + items) + ReadFrom(lines[i + 1..], next)
  {
    ReadLine(lines, i, state);
    if !Skipped(lines[i]) {
      match Advance(state, Strip(lines[i]), Indent(lines[i]))
      case Stop => assert done + [] == done;
      case Go(next, items) => Regroup(done, items, ReadFrom(lines[i + 1..], next));
    }
  }

  lemma ReadLine(lines: seq<string>, i: nat, state: State)
    requires i < |lines|
    ensures ReadFrom(lines[i..], state) ==
              if Skipped(lines[i]) then ReadFrom(lines[i + 1..], state)
              else match Advance(state, Strip(lines[i]), Indent(lines[i]))
                   case Stop => []
                   case Go(next, items) => items + ReadFrom(lines[i + 1..], next)
  {
    assert lines[i..][0] == lines[i] && lines[i..][1..] == lines[i + 1..];
  }

  lemma Regroup(a: seq<string>, b: seq<string>, c: seq<string>)
    ensures a + (b + c) == (a + b) + c
  {
  }

  /** The loop as written: a state, three indents and a growing list. */
  method LoadPushPaths(lines: seq<string>) returns (paths: seq<string>)
    ensures paths == ReadFrom(lines, SeekOn)
  {
    var state := SeekOn;
    paths := [];
    assert lines[0..] == lines;
    for i := 0 to |lines|
      invariant paths + ReadFrom(lines[i..], state) == ReadFrom(lines, SeekOn)
    {
      var raw := lines[i];
      var stripped := Strip(raw);
      ReadStep(paths, lines, i, state);
      if stripped == "" || StartsWith(stripped, "#") {
        continue;
      }
      var indent := Indent(raw);
      ghost var before := paths;
      ghost var move := Advance(state, stripped, indent);
      match state {
        case SeekOn =>
          if stripped == "on:" { state := SeekPush(indent); }
        case SeekPush(n) =>
          if indent <= n { return; }
          if stripped == "push:" { state := SeekPaths(indent); }
        case SeekPaths(n) =>
          if indent <= n { return; }
          if stripped == "paths:" { state := InPaths(indent); }
        case InPaths(n) =>
          if indent <= n { return; }
          if StartsWith(stripped, "- ") { paths := paths + [ItemText(stripped)]; }
      }
      assert move == Go(state, move.items) && paths == before + move.items;
    }
  }

  // ----- the printer -----------------------------------------------------------

  datatype Quote = DoubleQuoted | SingleQuoted | Bare

  /** One printed item and the lines that follow it up to the next. */
  datatype ItemLine = ItemLine(indent: nat, quote: Quote, item: string, after: seq<string>)

  /** A workflow file around a list of paths. Every `seq<string>` field holds
      unrelated lines. */
  datatype Document = Document(
    head: seq<string>, onIndent: nat,
    afterOn: seq<string>, pushIndent: nat,
    afterPush: seq<string>, pathsIndent: nat,
    afterPaths: seq<string>, items: seq<ItemLine>,
    tail: seq<string>)

  function Spaces(n: nat): (s: string)
    ensures |s| == n
  {
    seq(n, _ => ' ')
  }

  function Quoted(quote: Quote, item: string): string {
    match quote
    case DoubleQuoted => "\"" + item + "\""
    case SingleQuoted => "'" + item + "'"
    case Bare => item
  }

  function PrintItem(line: ItemLine): string {
    Spaces(line.indent) + "- " + Quoted(line.quote, line.item)
  }

  function PrintItems(items: seq<ItemLine>): seq<string> {
    if |items| == 0 then []
    else [PrintItem(items[0])] + items[0].after + PrintItems(items[1..])
  }

  function Print(d: Document): seq<string> {
    d.head + [Spaces(d.onIndent) + "on:"]
    + d.afterOn + [Spaces(d.pushIndent) + "push:"]
    + d.afterPush + [Spaces(d.pathsIndent) + "paths:"]
    + d.afterPaths + PrintItems(d.items) + d.tail
  }

  function ItemTexts(items: seq<ItemLine>): seq<string> {
    seq(|items|, i requires 0 <= i < |items| => items[i].item)
  }

  /** Lines the reader passes over in a state: blank lines, comments, and keys at the
      right depth that are not the one it looks for. */
  predicate PassedOver(state: State, raw: string) {
    Skipped(raw) ||
    match state
    case SeekOn => Strip(raw) != "on:"
    case SeekPush(n) => Indent(raw) > n && Strip(raw) != "push:"
    case SeekPaths(n) => Indent(raw) > n && Strip(raw) != "paths:"
    case InPaths(n) => Indent(raw) > n && !StartsWith(Strip(raw), "- ")
  }

  predicate AllPassedOver(state: State, lines: seq<string>) {
    forall i :: 0 <= i < |lines| ==> PassedOver(state, lines[i])
  }

  predicate GoodItem(line: ItemLine, pathsIndent: nat) {
    && line.indent > pathsIndent
    && AllPassedOver(InPaths(pathsIndent), line.after)
    && (line.quote.Bare? ==>
          && line.item != "" && !IsPySpace(line.item[0]) && !IsPySpace(line.item[|line.item| - 1])
          && !(|line.item| >= 2 && line.item[0] == line.item[|line.item| - 1] && IsQuote(line.item[0])))
  }

  predicate WellFormed(d: Document) {
    && d.onIndent < d.pushIndent < d.pathsIndent
    && AllPassedOver(SeekOn, d.head)
    && AllPassedOver(SeekPush(d.onIndent), d.afterOn)
    && AllPassedOver(SeekPaths(d.pushIndent), d.afterPush)
    && AllPassedOver(InPaths(d.pathsIndent), d.afterPaths)
    && (forall i :: 0 <= i < |d.items| ==> GoodItem(d.items[i], d.pathsIndent))
    && (d.tail != [] ==> !Skipped(d.tail[0]) && Indent(d.tail[0]) <= d.pathsIndent)
  }

  // ----- reading back ----------------------------------------------------------

  lemma {:induction false} PassOver(state: State, lines: seq<string>, rest: seq<string>)
    requires AllPassedOver(state, lines)
    ensures ReadFrom(lines + rest, state) == ReadFrom(rest, state)
  {
    if |lines| == 0 {
      assert lines + rest == rest;
    } else {
      assert (lines + rest)[1..] == lines[1..] + rest;
      assert PassedOver(state, lines[0]);
      PassOver(state, lines[1..], rest);
    }
  }

  predicate Tight(text: string) {
    text != "" && !IsPySpace(text[0]) && !IsPySpace(text[|text| - 1])
  }

  /** An indented line: its indentation and its text. */
  lemma {:induction false} IndentedLine(n: nat, text: string)
    requires Tight(text)
    ensures Indent(Spaces(n) + text) == n && Strip(Spaces(n) + text) == text
  {
    var raw := Spaces(n) + text;
    if n == 0 {
      assert raw == text;
    } else {
      assert raw[1..] == Spaces(n - 1) + text;
      IndentedLine(n - 1, text);
    }
  }

  lemma ItemLineText(line: ItemLine, n: nat)
    requires GoodItem(line, n)
    ensures var text := "- " + Quoted(line.quote, line.item);
            Tight(text) && StartsWith(text, "- ") && !StartsWith(text, "#") && ItemText(text) == line.item
  {
    var quoted := Quoted(line.quote, line.item);
    var text := "- " + quoted;
    assert text[2..] == quoted;
    assert Strip(quoted) == quoted;
    if !line.quote.Bare? {
      assert quoted[1..|quoted| - 1] == line.item;
    }
    assert text[0] == '-' && "#"[0] == '#';
  }

  lemma {:induction false} ReadItems(items: seq<ItemLine>, n: nat, tail: seq<string>)
    requires forall i :: 0 <= i < |items| ==> GoodItem(items[i], n)
    requires tail != [] ==> !Skipped(tail[0]) && Indent(tail[0]) <= n
    ensures ReadFrom(PrintItems(items) + tail, InPaths(n)) == ItemTexts(items)
  {
    if |items| == 0 {
      assert PrintItems(items) + tail == tail;
    } else {
      var line := items[0];
      var rest := PrintItems(items[1..]) + tail;
      Reassociate([PrintItem(line)], line.after, PrintItems(items[1..]), tail);
      ReadItem(line, n, rest);
      ReadItems(items[1..], n, tail);
      assert ItemTexts(items) == [line.item] + ItemTexts(items[1..]);
    }
  }

  lemma Reassociate(a: seq<string>, b: seq<string>, c: seq<string>, d: seq<string>)
    ensures a + b + c + d == a + (b + (c + d))
  {
  }

  lemma ReadItem(line: ItemLine, n: nat, rest: seq<string>)
    requires GoodItem(line, n)
    ensures ReadFrom([PrintItem(line)] + (line.after + rest), InPaths(n)) == [line.item] + ReadFrom(rest, InPaths(n))
  {
    var text := "- " + Quoted(line.quote, line.item);
    var raw := PrintItem(line);
    assert raw == Spaces(line.indent) + text;
    ItemLineText(line, n);
    IndentedLine(line.indent, text);
    PassOver(InPaths(n), line.after, rest);
    assert ([raw] + (line.after + rest))[1..] == line.after + rest;
  }

  /** One of the three key lines moves the reader on. */
  lemma ReadKey(state: State, lines: seq<string>, indent: nat, key: string, rest: seq<string>, next: State)
    requires AllPassedOver(state, lines)
    requires match state
             case SeekOn => key == "on:" && next == SeekPush(indent)
             case SeekPush(n) => key == "push:" && next == SeekPaths(indent) && indent > n
             case SeekPaths(n) => key == "paths:" && next == InPaths(indent) && indent > n
             case InPaths(_) => false
    ensures ReadFrom(lines + ([Spaces(indent) + key] + rest), state) == ReadFrom(rest, next)
  {
    var raw := Spaces(indent) + key;
    PassOver(state, lines, [raw] + rest);
    assert Tight(key) && key[0] != '#';
    IndentedLine(indent, key);
    assert ([raw] + rest)[1..] == rest;
  }

  // The printed file from each of its keys on.
  function FromPaths(d: Document): seq<string> {
    d.afterPaths + (PrintItems(d.items) + d.tail)
  }

  function FromPush(d: Document): seq<string> {
    d.afterPush + ([Spaces(d.pathsIndent) + "paths:"] + FromPaths(d))
  }

  function FromOn(d: Document): seq<string> {
    d.afterOn + ([Spaces(d.pushIndent) + "push:"] + FromPush(d))
  }

  /** Nine lists joined from the left are nine lists joined from the right. */
  lemma JoinFromTheRight(a: seq<string>, b: seq<string>, c: seq<string>, d: seq<string>, e: seq<string>,
                         f: seq<string>, g: seq<string>, h: seq<string>, i: seq<string>)
    ensures a + b + c + d + e + f + g + h + i == a + (b + (c + (d + (e + (f + (g + (h + i)))))))
  {
  }

  lemma PrintFromOn(d: Document)
    ensures Print(d) == d.head + ([Spaces(d.onIndent) + "on:"] + FromOn(d))
  {
    JoinFromTheRight(d.head, [Spaces(d.onIndent) + "on:"], d.afterOn, [Spaces(d.pushIndent) + "push:"], d.afterPush,
                     [Spaces(d.pathsIndent) + "paths:"], d.afterPaths, PrintItems(d.items), d.tail);
  }

  /** Reading a printed file gives back exactly its items, in order. */
  lemma ReaderUndoesPrinter(d: Document)
    requires WellFormed(d)
    ensures ReadFrom(Print(d), SeekOn) == ItemTexts(d.items)
  {
    var r3, r2, r1 := FromPaths(d), FromPush(d), FromOn(d);
    PrintFromOn(d);
    ReadKey(SeekOn, d.head, d.onIndent, "on:", r1, SeekPush(d.onIndent));
    ReadKey(SeekPush(d.onIndent), d.afterOn, d.pushIndent, "push:", r2, SeekPaths(d.pushIndent));
    ReadKey(SeekPaths(d.pushIndent), d.afterPush, d.pathsIndent, "paths:", r3, InPaths(d.pathsIndent));
    PassOver(InPaths(d.pathsIndent), d.afterPaths, PrintItems(d.items) + d.tail);
    ReadItems(d.items, d.pathsIndent, d.tail);
  }
}
