/** String functions shared by the other modules: the parts of the JavaScript and
    Python string libraries the console's code is written with. A string is a
    sequence of characters; lengths and indices count characters. */
module Text {

  predicate StartsWith(s: string, prefix: string) {
    prefix <= s
  }

  /** ASCII case folding; every other character is left alone. */
  function LowerChar(c: char): char {
    if 'A' <= c <= 'Z' then (c as int + 32) as char else c
  }

  function Lower(s: string): (r: string)
    ensures |r| == |s|
  {
    seq(|s|, i requires 0 <= i < |s| => LowerChar(s[i]))
  }

  /** What `\s` matches in a JavaScript regular expression, and what `trim` removes. */
  predicate IsJsSpace(c: char) {
    || '\t' <= c <= '\r' || c == ' ' || c == '\U{A0}' || c == '\U{1680}'
    || '\U{2000}' <= c <= '\U{200A}' || c == '\U{2028}' || c == '\U{2029}' || c == '\U{202F}'
    || c == '\U{205F}' || c == '\U{3000}' || c == '\U{FEFF}'
  }

  /** `s.toLowerCase()` as far as a test for ASCII letters can tell: besides A to Z, two
      characters have a lower case holding an ASCII letter, the Kelvin sign and the
      dotted capital I, and the latter becomes two characters. */
  function LowerCase(s: string): string {
    if |s| == 0 then ""
    else (if s[0] == '\U{212A}' then "k" else if s[0] == '\U{130}' then "i\U{307}" else [LowerChar(s[0])])
         + LowerCase(s[1..])
  }

  /** `s.trim()`. */
  function Trim(s: string): (r: string)
    ensures |r| <= |s|
    ensures |r| > 0 ==> !IsJsSpace(r[0]) && !IsJsSpace(r[|r| - 1])
    decreases |s|
  {
    if |s| > 0 && IsJsSpace(s[0]) then Trim(s[1..])
    else if |s| > 0 && IsJsSpace(s[|s| - 1]) then Trim(s[..|s| - 1])
    else s
  }

  predicate AllJsSpace(s: string) {
    forall i :: 0 <= i < |s| ==> IsJsSpace(s[i])
  }

  /** Trimming takes off what is put around a text that neither begins nor ends blank. */
  lemma {:induction false} TrimPadded(a: string, s: string, b: string)
    requires AllJsSpace(a) && AllJsSpace(b)
    requires |s| > 0 ==> !IsJsSpace(s[0]) && !IsJsSpace(s[|s| - 1])
    ensures Trim(a + s + b) == s
    decreases |a|
  {
    if |a| == 0 {
      assert a + s + b == s + b;
      TrimEnd(s, b);
    } else {
      assert (a + s + b)[0] == a[0] && (a + s + b)[1..] == a[1..] + s + b;
      TrimPadded(a[1..], s, b);
    }
  }

  lemma {:induction false} TrimEnd(s: string, b: string)
    requires AllJsSpace(b)
    requires |s| > 0 ==> !IsJsSpace(s[0]) && !IsJsSpace(s[|s| - 1])
    ensures Trim(s + b) == s
    decreases |b|
  {
    var t, n := s + b, |b| - 1;
    if |b| == 0 {
      assert t == s;
    } else if |s| == 0 {
      assert t == b;
      TrimEnd(s, b[1..]);
      assert s + b[1..] == b[1..];
    } else {
      assert t[0] == s[0] && t[|t| - 1] == b[n];
      assert t[..|t| - 1] == s + b[..n];
      TrimEnd(s, b[..n]);
    }
  }

  predicate Ascii(s: string) {
    forall i :: 0 <= i < |s| ==> s[i] < '\U{80}'
  }

  /** For ASCII text both readings of lower case are the same. */
  lemma {:induction false} LowerCaseOfAscii(s: string)
    requires Ascii(s)
    ensures LowerCase(s) == Lower(s)
  {
    if |s| > 0 {
      LowerCaseOfAscii(s[1..]);
      assert s[0] < '\U{80}';
      assert Lower(s) == [LowerChar(s[0])] + Lower(s[1..]);
    }
  }

  /** `s.split(sep)` for a one-character separator. */
  function Split(s: string, sep: char): (parts: seq<string>)
    ensures |parts| > 0
  {
    if s == "" then [""]
    else
      var rest := Split(s[1..], sep);
      if s[0] == sep then [""] + rest
      else [[s[0]] + rest[0]] + rest[1..]
  }

  /** `parts.join(sep)`. */
  function Join(parts: seq<string>, sep: string): string {
    if |parts| == 0 then ""
    else if |parts| == 1 then parts[0]
    else parts[0] + sep + Join(parts[1..], sep)
  }

  /** Splitting never leaves a separator inside a part, and joining undoes it. */
  lemma {:induction false} JoinUndoesSplit(s: string, sep: char)
    ensures Join(Split(s, sep), [sep]) == s
    ensures forall part :: part in Split(s, sep) ==> sep !in part
  {
    if s != "" {
      var rest := Split(s[1..], sep);
      JoinUndoesSplit(s[1..], sep);
      assert s == [s[0]] + s[1..];
      if s[0] == sep {
        assert ([""] + rest)[1..] == rest;
      } else {
        var parts := [[s[0]] + rest[0]] + rest[1..];
        assert parts[1..] == rest[1..];
        assert sep !in rest[0];
        if |rest| == 1 {
        } else {
          assert Join(parts, [sep]) == ([s[0]] + rest[0]) + [sep] + Join(rest[1..], [sep]);
          assert Join(parts, [sep]) == [s[0]] + (rest[0] + [sep] + Join(rest[1..], [sep]));
        }
      }
    }
  }

  lemma {:induction false} SplitPlain(s: string, sep: char)
    requires sep !in s
    ensures Split(s, sep) == [s]
  {
    if s != "" {
      SplitPlain(s[1..], sep);
      assert s == [s[0]] + s[1..];
    }
  }

  lemma {:induction false} SplitAtFirst(head: string, rest: string, sep: char)
    requires sep !in head
    ensures Split(head + [sep] + rest, sep) == [head] + Split(rest, sep)
  {
    var s := head + [sep] + rest;
    if head == "" {
      assert s[1..] == rest;
    } else {
      assert s[1..] == head[1..] + [sep] + rest;
      SplitAtFirst(head[1..], rest, sep);
      assert head == [head[0]] + head[1..];
    }
  }

  /** The other direction: parts without the separator survive join and split. */
  lemma {:induction false} SplitUndoesJoin(parts: seq<string>, sep: char)
    requires |parts| > 0
    requires forall part :: part in parts ==> sep !in part
    ensures Split(Join(parts, [sep]), sep) == parts
  {
    if |parts| == 1 {
      SplitPlain(parts[0], sep);
    } else {
      SplitUndoesJoin(parts[1..], sep);
      SplitAtFirst(parts[0], Join(parts[1..], [sep]), sep);
      assert parts == [parts[0]] + parts[1..];
    }
  }
}
