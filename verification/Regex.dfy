/** The regular expressions the two glob compilers emit: syntax, the matching
    relation, and what concatenation and anchoring mean. */
module Regex {

  datatype Regex =
    | Empty                     // matches the empty string only
    | Chr(c: char)              // one literal (escaped) character
    | Dot                       // `.`, any character but a line terminator
    | NotSlash                  // `[^/]`
    | Cat(first: Regex, rest: Regex)
    | Star(body: Regex)         // `(?:body)*`
    | Opt(body: Regex)          // `(?:body)?`

  /** What `.` refuses: `\n` in Python; JavaScript adds three more. */
  type Terminators = set<char>

  const PYTHON: Terminators := {'\n'}
  const JAVASCRIPT: Terminators := {'\n', '\r', '\U{2028}', '\U{2029}'}

  /** A place to cut a sequence in two. The quantifiers below range over cuts. */
  predicate Cut<T>(s: seq<T>, k: int) {
    0 <= k <= |s|
  }

  /** `re` matches the whole of `s`. */
  ghost predicate Matches(re: Regex, s: string, nl: Terminators)
    decreases |s|, re
  {
    match re
    case Empty => s == ""
    case Chr(c) => s == [c]
    case Dot => |s| == 1 && s[0] !in nl
    case NotSlash => |s| == 1 && s[0] != '/'
    case Cat(first, rest) =>
      exists k {:trigger Cut(s, k)} :: Cut(s, k) && Matches(first, s[..k], nl) && Matches(rest, s[k..], nl)
    case Star(body) =>
      s == "" ||
      exists k {:trigger Cut(s, k)} :: Cut(s, k) && k > 0 && Matches(body, s[..k], nl) && Matches(re, s[k..], nl)
    case Opt(body) => s == "" || Matches(body, s, nl)
  }

  /** The concatenation of a list of pieces, in order. */
  function Concat(pieces: seq<Regex>): Regex {
    if |pieces| == 0 then Empty else Cat(pieces[0], Concat(pieces[1..]))
  }

  /** Every character of `s` matches the one-character expression. */
  ghost predicate AllMatch(body: Regex, s: string, nl: Terminators) {
    forall i :: 0 <= i < |s| ==> Matches(body, [s[i]], nl)
  }

  /** A starred one-character expression matches exactly the strings of its characters. */
  lemma {:induction false} StarOfCharacters(body: Regex, s: string, nl: Terminators)
    requires body.Dot? || body.NotSlash?
    ensures Matches(Star(body), s, nl) <==> AllMatch(body, s, nl)
    decreases |s|
  {
    if s != "" {
      if AllMatch(body, s, nl) {
        assert forall i :: 0 <= i < |s[1..]| ==> s[1..][i] == s[i + 1];
        StarOfCharacters(body, s[1..], nl);
        assert Cut(s, 1) && s[..1] == [s[0]];
      }
      if Matches(Star(body), s, nl) {
        var k :| Cut(s, k) && k > 0 && Matches(body, s[..k], nl) && Matches(Star(body), s[k..], nl);
        assert k == 1 && s[..1] == [s[0]];
        StarOfCharacters(body, s[1..], nl);
        forall i | 0 <= i < |s| ensures Matches(body, [s[i]], nl) {
          if i > 0 { assert s[1..][i - 1] == s[i]; }
        }
      }
    }
  }
}
