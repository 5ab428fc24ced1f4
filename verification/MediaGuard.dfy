/** The guard on VST media paths, src/lib/media-guard.ts: what it accepts, and that the
    path it sends upstream names the very segments it was asked for. Strings are
    sequences of Unicode scalar values. */
module MediaGuard {
  import opened Options
  import opened Text

  // ----- UTF-8, and percent-encoding (section 2.1 of RFC 3986) ----------------------

  type Byte = b: int | 0 <= b < 256

  /** The bytes of a character (RFC 3629, section 3). */
  function Utf8(c: char): (r: seq<Byte>)
    ensures 1 <= |r| <= 4
  {
    var v := c as int;
    if v < 0x80 then [v]
    else if v < 0x800 then [0xC0 + v / 64, 0x80 + v % 64]
    else if v < 0x10000 then [0xE0 + v / 4096, 0x80 + v / 64 % 64, 0x80 + v % 64]
    else [0xF0 + v / 262144, 0x80 + v / 4096 % 64, 0x80 + v / 64 % 64, 0x80 + v % 64]
  }

  predicate IsScalar(v: int) {
    0 <= v < 0xD800 || 0xE000 <= v < 0x110000
  }

  /** The value of the first n bytes, before any check that this is its shortest form. */
  function Assemble(bytes: seq<Byte>, n: nat): int
    requires 0 < n <= 4 && n <= |bytes|
  {
    if n == 1 then bytes[0]
    else if n == 2 then Above(bytes[0], 0xC0) * 64 + Above(bytes[1], 0x80)
    else if n == 3 then Above(bytes[0], 0xE0) * 4096 + Above(bytes[1], 0x80) * 64 + Above(bytes[2], 0x80)
    else Above(bytes[0], 0xF0) * 262144 + Above(bytes[1], 0x80) * 4096
         + Above(bytes[2], 0x80) * 64 + Above(bytes[3], 0x80)
  }

  function Above(b: int, base: int): int {
    b - base
  }

  function LengthFrom(first: int): nat {
    if 0 <= first < 0x80 then 1 else if 0xC0 <= first < 0xE0 then 2
    else if 0xE0 <= first < 0xF0 then 3 else if 0xF0 <= first < 0xF8 then 4 else 0
  }

  function FromUtf8(bytes: seq<Byte>): Option<string> {
    if |bytes| == 0 then Some("")
    else
      var n := LengthFrom(bytes[0]);
      if n == 0 || n > |bytes| || !IsScalar(Assemble(bytes, n)) then None
      else
        var c := Assemble(bytes, n) as char;
        if Utf8(c) != bytes[..n] then None
        else match FromUtf8(bytes[n..])
          case None => None
          case Some(rest) => Some([c] + rest)
  }

  lemma FirstCharacter(c: char, rest: seq<Byte>)
    ensures FromUtf8(Utf8(c) + rest) ==
              match FromUtf8(rest) { case None => None case Some(s) => Some([c] + s) }
  {
    var bytes := Utf8(c) + rest;
    var n := |Utf8(c)|;
    assert bytes[..n] == Utf8(c) && bytes[n..] == rest;
    assert forall i :: 0 <= i < n ==> bytes[i] == Utf8(c)[i];
    AssembleUndoes(c);
    assert Assemble(bytes, n) == Assemble(Utf8(c), n);
  }

  lemma AssembleUndoes(c: char)
    ensures LengthFrom(Utf8(c)[0]) == |Utf8(c)| && Assemble(Utf8(c), |Utf8(c)|) == c as int
  {
    SixBitDigits(c as int);
  }

  lemma SixBitDigits(v: int)
    requires 0 <= v < 0x110000
    ensures v == v / 64 * 64 + v % 64
    ensures v / 64 == v / 4096 * 64 + v / 64 % 64
    ensures v / 4096 == v / 262144 * 64 + v / 4096 % 64
  {
    assert v / 64 / 64 == v / 4096;
    assert v / 4096 / 64 == v / 262144;
  }

  /** What `encodeURIComponent` leaves alone. */
  predicate Plain(c: char) {
    || 'a' <= c <= 'z' || 'A' <= c <= 'Z' || '0' <= c <= '9'
    || c == '-' || c == '_' || c == '.' || c == '!' || c == '~' || c == '*' || c == '\'' || c == '(' || c == ')'
  }

  function Hex(d: int): (c: char)
    requires 0 <= d < 16
  {
    if d < 10 then (d + 48) as char else (d + 55) as char
  }

  function HexValue(c: char): (v: int)
    ensures -1 <= v < 16
  {
    if '0' <= c <= '9' then c as int - 48
    else if 'A' <= c <= 'F' then c as int - 55
    else if 'a' <= c <= 'f' then c as int - 87
    else -1
  }

  function Escape(bytes: seq<Byte>): string
  {
    if |bytes| == 0 then "" else EscapeByte(bytes[0]) + Escape(bytes[1..])
  }

  function EscapeByte(b: Byte): string {
    ['%', Hex(b / 16), Hex(b % 16)]
  }

  function EncodeChar(c: char): string {
    if Plain(c) then [c] else Escape(Utf8(c))
  }

  /** `encodeURIComponent`. */
  function Encode(s: string): string {
    if |s| == 0 then "" else EncodeChar(s[0]) + Encode(s[1..])
  }

  /** Percent-decoding to bytes; no answer for a malformed escape or a non-ASCII character. */
  function Bytes(s: string): Option<seq<Byte>> {
    if |s| == 0 then Some([])
    else if s[0] == '%' then
      if |s| < 3 || HexValue(s[1]) < 0 || HexValue(s[2]) < 0 then None
      else match Bytes(s[3..])
        case None => None
        case Some(rest) => Some([HexValue(s[1]) * 16 + HexValue(s[2])] + rest)
    else if s[0] as int >= 0x80 then None
    else match Bytes(s[1..])
      case None => None
      case Some(rest) => Some([s[0] as int] + rest)
  }

  function Decode(s: string): Option<string> {
    match Bytes(s)
    case None => None
    case Some(bytes) => FromUtf8(bytes)
  }

  function Utf8All(s: string): seq<Byte> {
    if |s| == 0 then [] else Utf8(s[0]) + Utf8All(s[1..])
  }

  /** The characters that encode to themselves. */
  lemma UnescapedExactly(c: char)
    ensures Encode([c]) == [c] <==>
              'a' <= c <= 'z' || 'A' <= c <= 'Z' || '0' <= c <= '9' || c in "-_.!~*'()"
  {
    var none: string := "";
    assert [c][1..] == none && Encode(none) == none;
    assert Encode([c]) == EncodeChar(c) + none == EncodeChar(c);
    if !Plain(c) { assert |Escape(Utf8(c))| >= 3; }
  }

  lemma {:induction false} EscapedBytes(bytes: seq<Byte>, rest: string, tail: seq<Byte>)
    requires Bytes(rest) == Some(tail)
    ensures Bytes(Escape(bytes) + rest) == Some(bytes + tail)
  {
    if |bytes| == 0 {
      assert Escape(bytes) + rest == rest && bytes + tail == tail;
    } else {
      EscapedBytes(bytes[1..], rest, tail);
      EscapedByte(bytes[0], Escape(bytes[1..]) + rest, bytes[1..] + tail);
      Regroup(EscapeByte(bytes[0]), Escape(bytes[1..]), rest);
      Regroup([bytes[0]], bytes[1..], tail);
      assert bytes == [bytes[0]] + bytes[1..];
    }
  }

  lemma Regroup<T>(a: seq<T>, b: seq<T>, c: seq<T>)
    ensures (a + b) + c == a + (b + c)
  {
  }

  lemma EscapedByte(b: Byte, rest: string, tail: seq<Byte>)
    requires Bytes(rest) == Some(tail)
    ensures Bytes(EscapeByte(b) + rest) == Some([b] + tail)
  {
    var s := EscapeByte(b) + rest;
    assert s[3..] == rest && s[0] == '%' && s[1] == Hex(b / 16) && s[2] == Hex(b % 16);
    HexBack(b / 16);
    HexBack(b % 16);
  }

  lemma HexBack(d: int)
    requires 0 <= d < 16
    ensures HexValue(Hex(d)) == d
  {
  }

  lemma {:induction false} EncodedBytes(s: string)
    ensures Bytes(Encode(s)) == Some(Utf8All(s))
  {
    if |s| > 0 {
      EncodedBytes(s[1..]);
      if Plain(s[0]) {
        var e := [s[0]] + Encode(s[1..]);
        assert e[1..] == Encode(s[1..]) && e[0] == s[0];
      } else {
        EscapedBytes(Utf8(s[0]), Encode(s[1..]), Utf8All(s[1..]));
      }
    }
  }

  lemma {:induction false} Utf8AllBack(s: string)
    ensures FromUtf8(Utf8All(s)) == Some(s)
  {
    if |s| > 0 {
      Utf8AllBack(s[1..]);
      FirstCharacter(s[0], Utf8All(s[1..]));
      assert s == [s[0]] + s[1..];
    }
  }

  /** Decoding undoes encoding, for every string. */
  lemma DecodeUndoesEncode(s: string)
    ensures Decode(Encode(s)) == Some(s)
  {
    EncodedBytes(s);
    Utf8AllBack(s);
  }

  // ----- what the URL parser does to a path ------------------------------------------

  /** Characters of an encoded segment: nothing the parser treats specially. */
  predicate Inert(c: char) {
    Plain(c) || c == '%'
  }

  lemma {:induction false} EscapeIsInert(bytes: seq<Byte>)
    ensures forall c :: c in Escape(bytes) ==> Inert(c)
  {
    if |bytes| > 0 { EscapeIsInert(bytes[1..]); }
  }

  lemma {:induction false} EncodeIsInert(s: string)
    ensures forall c :: c in Encode(s) ==> Inert(c)
  {
    if |s| > 0 {
      if !Plain(s[0]) { EscapeIsInert(Utf8(s[0])); }
      EncodeIsInert(s[1..]);
    }
  }

  /** A dot, written plainly or as an escape. */
  predicate IsDot(s: string) {
    s == "." || (|s| == 3 && s[0] == '%' && s[1] == '2' && (s[2] == 'e' || s[2] == 'E'))
  }

  predicate IsDotDot(s: string) {
    exists i :: 0 <= i <= |s| && IsDot(s[..i]) && IsDot(s[i..])
  }

  /** Dot-segment removal (section 5.2.4 of RFC 3986), escaped dots counting as dots, the
      last segment leaving an empty one behind. */
  function RemoveDots(done: seq<string>, todo: seq<string>): seq<string>
    decreases |todo|
  {
    if |todo| == 0 then done
    else
      var last := |todo| == 1;
      if IsDot(todo[0]) then RemoveDots(if last then done + [""] else done, todo[1..])
      else if IsDotDot(todo[0]) then
        var up := if |done| > 0 then done[..|done| - 1] else done;
        RemoveDots(if last then up + [""] else up, todo[1..])
      else RemoveDots(done + [todo[0]], todo[1..])
  }

  lemma {:induction false} NoDotsToRemove(done: seq<string>, todo: seq<string>)
    requires forall i :: 0 <= i < |todo| ==> !IsDot(todo[i]) && !IsDotDot(todo[i])
    ensures RemoveDots(done, todo) == done + todo
    decreases |todo|
  {
    if |todo| == 0 {
      assert done + todo == done;
    } else {
      NoDotsToRemove(done + [todo[0]], todo[1..]);
      assert done + todo == (done + [todo[0]]) + todo[1..];
    }
  }

  function Slash(c: char): char {
    if c == '\\' then '/' else c
  }

  /** The part of a reference before its query and fragment, backslashes read as slashes,
      as the parser does for http. */
  function PathPart(s: string): string {
    if |s| == 0 || s[0] == '?' || s[0] == '#' then "" else [Slash(s[0])] + PathPart(s[1..])
  }

  /** The path segments of `new URL(reference, origin)` for a reference that begins with
      one slash: the origin stays, the path is the reference's own. */
  function UrlPath(reference: string): seq<string>
    requires |reference| > 0 && reference[0] == '/'
  {
    RemoveDots([], Split(PathPart(reference)[1..], '/'))
  }

  lemma {:induction false} InertPathPart(s: string)
    requires forall c :: c in s ==> Inert(c) || c == '/'
    ensures PathPart(s) == s
  {
    if |s| > 0 {
      assert s[0] in s;
      assert Inert(s[0]) || s[0] == '/';
      InertPathPart(s[1..]);
      assert s == [s[0]] + s[1..];
    }
  }

  lemma {:induction false} JoinIsInert(parts: seq<string>)
    requires forall i :: 0 <= i < |parts| ==> forall c :: c in parts[i] ==> Inert(c)
    ensures forall c :: c in Join(parts, "/") ==> Inert(c) || c == '/'
  {
    if |parts| > 1 {
      JoinIsInert(parts[1..]);
      forall c | c in Join(parts, "/") ensures Inert(c) || c == '/' {
        assert c in parts[0] || c == '/' || c in Join(parts[1..], "/");
      }
    }
  }

  // ----- the guard -----------------------------------------------------------------------

  predicate Has(s: string, c: char) {
    c in s
  }

  /** A segment the guard lets by. */
  predicate Clean(seg: string) {
    seg != "" && seg != "." && seg != ".." && !Has(seg, '/') && !Has(seg, '\\') && !Has(seg, '\0')
  }

  function EncodeAll(segments: seq<string>): (r: seq<string>)
    ensures |r| == |segments|
  {
    seq(|segments|, i requires 0 <= i < |segments| => Encode(segments[i]))
  }

  function PathName(segments: seq<string>): string {
    "/" + Join(segments, "/")
  }

  /** `resolveVstMediaPath`, down to the path name of the URL; its origin is the fixed one. */
  function Resolve(segments: seq<string>): Option<string> {
    if |segments| == 0 || exists i :: 0 <= i < |segments| && !Clean(segments[i]) then None
    else
      var path := PathName(UrlPath(PathName(EncodeAll(segments))));
      if StartsWith(path, "/vst/storage/") then Some(path) else None
  }

  lemma EncodeOfPlain(s: string)
    requires forall c :: c in s ==> Plain(c)
    ensures Encode(s) == s
  {
    if |s| > 0 {
      EncodeOfPlain(s[1..]);
      assert s == [s[0]] + s[1..];
    }
  }

  lemma EncodeIsInjective(a: string, b: string)
    requires Encode(a) == Encode(b)
    ensures a == b
  {
    DecodeUndoesEncode(a);
    DecodeUndoesEncode(b);
  }

  /** An encoded segment is a dot segment only if the segment was. */
  lemma {:induction false} EncodedDots(seg: string)
    requires Clean(seg)
    ensures Encode(seg) != "" && !IsDot(Encode(seg)) && !IsDotDot(Encode(seg))
  {
    EncodeIsInjective2(seg, "");
    DotsDecodeToDots(Encode(seg));
    DecodeUndoesEncode(seg);
  }

  lemma EncodeIsInjective2(a: string, b: string)
    ensures a != b ==> Encode(a) != Encode(b)
  {
    if Encode(a) == Encode(b) { EncodeIsInjective(a, b); }
  }

  lemma {:induction false} BytesOfDot(s: string, rest: string, tail: seq<Byte>)
    requires IsDot(s) && Bytes(rest) == Some(tail)
    ensures Bytes(s + rest) == Some([46] + tail)
  {
    var t := s + rest;
    if s == "." {
      assert t[0] == '.' && t[1..] == rest;
    } else {
      assert t[0] == '%' && t[1] == '2' && t[2] == s[2] && t[3..] == rest;
      assert HexValue(s[2]) == 14;
    }
  }

  lemma DotsDecodeToDots(s: string)
    ensures IsDot(s) ==> Decode(s) == Some(".")
    ensures IsDotDot(s) ==> Decode(s) == Some("..")
  {
    if IsDot(s) {
      BytesOfDot(s, "", []);
      assert s + "" == s;
      Utf8OfDots();
    }
    if IsDotDot(s) {
      var i :| 0 <= i <= |s| && IsDot(s[..i]) && IsDot(s[i..]);
      BytesOfDot(s[i..], "", []);
      assert s[i..] + "" == s[i..];
      BytesOfDot(s[..i], s[i..], [46] + []);
      assert s[..i] + s[i..] == s;
      Utf8OfDots();
    }
  }

  lemma Utf8OfDots()
    ensures FromUtf8([46] + []) == Some(".")
    ensures FromUtf8([46] + ([46] + [])) == Some("..")
  {
    var none: seq<Byte> := [];
    assert FromUtf8(none) == Some("");
    assert Utf8('.') == [46];
    FirstCharacter('.', none);
    assert ['.'] + "" == ".";
    FirstCharacter('.', [46] + none);
    assert ['.'] + "." == "..";
  }

  predicate AllClean(segments: seq<string>) {
    forall i :: 0 <= i < |segments| ==> Clean(segments[i])
  }

  /** The parser leaves the path of encoded clean segments as it is: nothing ends it
      early, no separator appears, and no dot segment is removed. */
  lemma UrlKeepsEncodedPath(segments: seq<string>)
    requires |segments| > 0 && AllClean(segments)
    ensures UrlPath(PathName(EncodeAll(segments))) == EncodeAll(segments)
  {
    var parts := EncodeAll(segments);
    forall p | p in parts ensures (forall c :: c in p ==> Inert(c)) && '/' !in p {
      var i :| 0 <= i < |parts| && parts[i] == p;
      EncodeIsInert(segments[i]);
      assert !Inert('/');
    }
    forall i | 0 <= i < |parts| ensures forall c :: c in parts[i] ==> Inert(c) {
      EncodeIsInert(segments[i]);
    }
    JoinIsInert(parts);
    var reference := PathName(parts);
    InertPathPart(reference);
    assert reference[1..] == Join(parts, "/");
    SplitUndoesJoin(parts, '/');
    forall i | 0 <= i < |parts| ensures !IsDot(parts[i]) && !IsDotDot(parts[i]) {
      EncodedDots(segments[i]);
    }
    NoDotsToRemove([], parts);
    assert [] + parts == parts;
  }

  /** The path names exactly these segments. */
  ghost predicate Names(path: string, segments: seq<string>) {
    && |path| > 0 && path[0] == '/'
    && var parts := Split(path[1..], '/');
       |parts| == |segments| && forall i :: 0 <= i < |parts| ==> Decode(parts[i]) == Some(segments[i])
  }

  lemma EncodedPathNames(segments: seq<string>)
    requires |segments| > 0
    ensures Names(PathName(EncodeAll(segments)), segments)
  {
    var parts := EncodeAll(segments);
    forall p | p in parts ensures '/' !in p {
      var i :| 0 <= i < |parts| && parts[i] == p;
      EncodeIsInert(segments[i]);
      assert !Inert('/');
    }
    SplitUndoesJoin(parts, '/');
    assert PathName(parts)[1..] == Join(parts, "/");
    forall i | 0 <= i < |parts| ensures Decode(parts[i]) == Some(segments[i]) {
      DecodeUndoesEncode(segments[i]);
    }
  }

  /** The first of two slash-free parts is fixed by a common beginning. */
  lemma {:induction false} SameFirstPart(a: string, b: string, x: string, y: string)
    requires '/' !in a && '/' !in b && a + "/" + x == b + "/" + y
    ensures a == b && x == y
  {
    SplitAtFirst(a, x, '/');
    SplitAtFirst(b, y, '/');
    var s := a + ['/'] + x;
    assert Split(s, '/')[0] == a && Split(s, '/')[0] == b;
    assert x == s[|a| + 1..] && y == s[|b| + 1..];
  }

  lemma StartsWithSlash(path: string)
    ensures StartsWith(path, "/vst/storage/") <==>
              |path| > 0 && path[0] == '/' && StartsWith(path[1..], "vst" + "/" + ("storage" + "/"))
  {
    var p := "/vst/storage/";
    var q := "vst" + "/" + ("storage" + "/");
    assert p == "/" + q;
    if StartsWith(path, p) { assert path[..|p|] == p && path[1..][..|q|] == p[1..]; }
    if |path| > 0 && path[0] == '/' && StartsWith(path[1..], q) {
      assert path == "/" + path[1..];
    }
  }

  lemma SlashInside(s: string, first: string, more: string)
    requires StartsWith(s, first + "/" + more)
    ensures '/' in s && s == first + "/" + (more + s[|first| + 1 + |more|..])
  {
    var want := first + "/" + more;
    assert want[|first|] == '/' && s[|first|] == '/';
    assert s == want + s[|want|..];
  }

  /** A joined list begins with a part and a separator exactly when that is its first part
      and not its last. */
  lemma JoinStartsWith(parts: seq<string>, first: string, more: string)
    requires |parts| > 0 && '/' !in first && forall p :: p in parts ==> '/' !in p
    ensures StartsWith(Join(parts, "/"), first + "/" + more) <==>
              |parts| > 1 && parts[0] == first && StartsWith(Join(parts[1..], "/"), more)
  {
    var s := Join(parts, "/");
    assert parts[0] in parts;
    if StartsWith(s, first + "/" + more) {
      SlashInside(s, first, more);
    }
    if |parts| > 1 {
      var rest := Join(parts[1..], "/");
      if StartsWith(s, first + "/" + more) {
        SameFirstPart(parts[0], first, rest, more + s[|first| + 1 + |more|..]);
      } else if parts[0] == first {
        SameTail(first, rest, more);
      }
    }
  }

  lemma SameTail(first: string, rest: string, more: string)
    ensures StartsWith(rest, more) ==> StartsWith(first + "/" + rest, first + "/" + more)
  {
    if StartsWith(rest, more) {
      assert rest == more + rest[|more|..];
      assert first + "/" + rest == (first + "/" + more) + rest[|more|..];
    }
  }

  /** A segment of a path without traversal, separators or NUL. */
  predicate Harmless(seg: string) {
    seg !in {"", ".", ".."} && forall i :: 0 <= i < |seg| ==> seg[i] !in {'/', '\\', '\0'}
  }

  /** The guard accepts exactly the lists of harmless segments that are `vst`, `storage` and
      at least one more, and the path it accepts percent-decodes to those segments. */
  lemma ResolvesFaithfully(segments: seq<string>)
    ensures Resolve(segments).Some? <==>
              && |segments| >= 3 && segments[0] == "vst" && segments[1] == "storage"
              && forall i :: 0 <= i < |segments| ==> Harmless(segments[i])
    ensures Resolve(segments).Some? ==> AllClean(segments)
    ensures Resolve(segments).Some? ==>
              Resolve(segments).value == PathName(EncodeAll(segments)) && Names(Resolve(segments).value, segments)
  {
    if |segments| > 0 && AllClean(segments) {
      var parts := EncodeAll(segments);
      UrlKeepsEncodedPath(segments);
      EncodedPathNames(segments);
      PinnedExactly(segments);
    }
  }

  lemma PinnedExactly(segments: seq<string>)
    requires |segments| > 0 && AllClean(segments)
    ensures StartsWith(PathName(EncodeAll(segments)), "/vst/storage/") <==>
              |segments| >= 3 && segments[0] == "vst" && segments[1] == "storage"
  {
    var path := PathName(EncodeAll(segments));
    StartsWithSlash(path);
    assert path[1..] == Join(EncodeAll(segments), "/");
    PinnedTo(segments, "vst", "storage");
    EncodesToItself(segments[0], "vst");
    if |segments| > 1 { EncodesToItself(segments[1], "storage"); }
  }

  lemma PinnedTo(segments: seq<string>, first: string, second: string)
    requires |segments| > 0 && '/' !in first && '/' !in second
    ensures var parts := EncodeAll(segments);
            StartsWith(Join(parts, "/"), first + "/" + (second + "/")) <==>
              |segments| >= 3 && parts[0] == first && parts[1] == second
  {
    var parts := EncodeAll(segments);
    forall p | p in parts ensures '/' !in p {
      var i :| 0 <= i < |parts| && parts[i] == p;
      EncodeIsInert(segments[i]);
      assert !Inert('/');
    }
    JoinStartsWith(parts, first, second + "/");
    if |parts| > 1 {
      assert second + "/" + "" == second + "/";
      JoinStartsWith(parts[1..], second, "");
    }
  }

  lemma EncodesToItself(seg: string, name: string)
    requires name == "vst" || name == "storage"
    ensures Encode(seg) == name <==> seg == name
  {
    EncodeOfPlain(name);
    EncodeIsInjective2(seg, name);
  }

  // ----- a source given by the caller -----------------------------------------------------

  /** What the URL parser makes of an absolute URL. */
  datatype Url = Url(protocol: string, origin: string, pathname: string)

  predicate IsAlpha(c: char) {
    'a' <= c <= 'z' || 'A' <= c <= 'Z'
  }

  /** `^[a-z][a-z0-9+.-]*://`, letters of either case. */
  predicate HasScheme(s: string) {
    exists i :: 0 < i <= |s| - 3 && SchemeEndsAt(s, i)
  }

  predicate SchemeEndsAt(s: string, i: nat)
    requires 0 < i <= |s| - 3
  {
    && s[i..i + 3] == "://" && IsAlpha(s[0])
    && forall j :: 0 < j < i ==> IsAlpha(s[j]) || '0' <= s[j] <= '9' || s[j] == '+' || s[j] == '.' || s[j] == '-'
  }

  function NonEmpty(parts: seq<string>): seq<string> {
    if |parts| == 0 then [] else (if parts[0] == "" then [] else [parts[0]]) + NonEmpty(parts[1..])
  }

  const PROXY := "/api/media"

  /** The segments of a path, the proxy's own prefix and any query or fragment dropped. */
  function PathSegments(s: string): Option<seq<string>> {
    var bare := if StartsWith(s, PROXY + "/") then s[|PROXY|..] else s;
    var path := Split(Split(bare, '?')[0], '#')[0];
    var segments := NonEmpty(Split(path, '/'));
    if segments == [] then None else Some(segments)
  }

  /** `parseMediaSrc`; `urlOf` is the URL parser, `media` the fixed origin. */
  function MediaSrc(raw: string, media: Url, urlOf: string -> Option<Url>): Option<seq<string>> {
    var s := Trim(raw);
    if s == "" || StartsWith(s, "//") then None
    else if HasScheme(s) then
      match urlOf(s)
      case None => None
      case Some(url) =>
        if url.protocol != media.protocol || url.origin != media.origin then None else PathSegments(url.pathname)
    else PathSegments(s)
  }

  method ParseMediaSrc(rawSrc: string, media: Url, urlOf: string -> Option<Url>) returns (r: Option<seq<string>>)
    ensures r == MediaSrc(rawSrc, media, urlOf)
  {
    var s := Trim(rawSrc);
    if s == "" { return None; }
    if StartsWith(s, "//") { return None; }
    if HasScheme(s) {
      var url := urlOf(s);
      if url.None? { return None; }
      if url.value.protocol != media.protocol || url.value.origin != media.origin { return None; }
      s := url.value.pathname;
    }
    if StartsWith(s, PROXY + "/") { s := s[|PROXY|..]; }
    s := Split(Split(s, '?')[0], '#')[0];
    var segments := NonEmpty(Split(s, '/'));
    return if segments == [] then None else Some(segments);
  }

  /** Every character of the path is harmless, it has a first segment, and no proxy prefix. */
  predicate Ordinary(path: string) {
    |path| > 1 && path[0] == '/' && path[1] == 'v' && forall c :: c in path ==> Inert(c) || c == '/'
  }

  lemma NotSpecial(c: char)
    requires Inert(c) || c == '/'
    ensures !IsJsSpace(c) && c != '?' && c != '#'
  {
  }

  lemma OrdinaryPathSegments(path: string)
    requires Ordinary(path)
    ensures PathSegments(path) == PathSegments(PROXY + path)
    ensures Split(Split(path, '?')[0], '#')[0] == path && !StartsWith(path, PROXY + "/")
  {
    forall c | c in path ensures c != '?' && c != '#' { NotSpecial(c); }
    SplitPlain(path, '?');
    SplitPlain(path, '#');
    var whole := PROXY + path;
    assert (PROXY + "/")[1] == 'a';
    assert whole[|PROXY|..] == path;
    assert whole[..|PROXY| + 1] == PROXY + "/";
  }

  lemma {:induction false} NothingEmpty(parts: seq<string>)
    requires forall i :: 0 <= i < |parts| ==> parts[i] != ""
    ensures NonEmpty(parts) == parts
  {
    if |parts| > 0 {
      NothingEmpty(parts[1..]);
      assert parts == [parts[0]] + parts[1..];
    }
  }

  lemma ResolvedIsOrdinary(segments: seq<string>)
    requires Resolve(segments).Some?
    ensures Ordinary(Resolve(segments).value)
    ensures NonEmpty(Split(Resolve(segments).value, '/')) == EncodeAll(segments)
  {
    ResolvesFaithfully(segments);
    EncodedPathIsOrdinary(segments);
    EncodedPathSplits(segments);
  }

  lemma EncodedPathIsOrdinary(segments: seq<string>)
    requires |segments| > 0 && StartsWith(PathName(EncodeAll(segments)), "/vst/storage/")
    ensures Ordinary(PathName(EncodeAll(segments)))
  {
    var parts := EncodeAll(segments);
    var path := PathName(parts);
    forall i | 0 <= i < |parts| ensures forall c :: c in parts[i] ==> Inert(c) {
      EncodeIsInert(segments[i]);
    }
    JoinIsInert(parts);
    StartsWithSlash(path);
    assert path[1..][0] == 'v';
  }

  lemma EncodedPathSplits(segments: seq<string>)
    requires |segments| > 0 && AllClean(segments)
    ensures NonEmpty(Split(PathName(EncodeAll(segments)), '/')) == EncodeAll(segments)
  {
    var parts := EncodeAll(segments);
    forall i | 0 <= i < |parts| ensures parts[i] != "" && '/' !in parts[i] {
      EncodeIsInert(segments[i]);
      EncodedDots(segments[i]);
      assert !Inert('/');
    }
    PathSplits(parts);
    NothingEmpty(parts);
    assert ([""] + parts)[1..] == parts;
  }

  lemma PathSplits(parts: seq<string>)
    requires |parts| > 0 && forall i :: 0 <= i < |parts| ==> '/' !in parts[i]
    ensures Split(PathName(parts), '/') == [""] + parts
  {
    SplitUndoesJoin(parts, '/');
    assert PathName(parts) == "" + "/" + Join(parts, "/");
    SplitAtFirst("", Join(parts, "/"), '/');
  }

  /** Feeding an accepted path back, bare or through the proxy prefix, gives its encoded
      segments: nothing is decoded on the way. */
  lemma AcceptedPathParsesBack(segments: seq<string>, media: Url, urlOf: string -> Option<Url>)
    requires Resolve(segments).Some?
    ensures var path := Resolve(segments).value;
            MediaSrc(path, media, urlOf) == Some(EncodeAll(segments))
            && MediaSrc("/api/media" + path, media, urlOf) == Some(EncodeAll(segments))
  {
    var path := Resolve(segments).value;
    ResolvedIsOrdinary(segments);
    OrdinaryPathSegments(path);
    OrdinaryIsTakenAsIs(path, media, urlOf);
    ProxiedIsTakenAsIs(path, media, urlOf);
    ResolvesFaithfully(segments);
    assert EncodeAll(segments) != [];
  }

  lemma OrdinaryIsTakenAsIs(path: string, media: Url, urlOf: string -> Option<Url>)
    requires Ordinary(path)
    ensures MediaSrc(path, media, urlOf) == PathSegments(path)
  {
    assert path[|path| - 1] in path;
    NotSpecial(path[|path| - 1]);
    PathIsTakenAsIs(path, media, urlOf);
  }

  lemma ProxiedIsTakenAsIs(path: string, media: Url, urlOf: string -> Option<Url>)
    requires Ordinary(path)
    ensures MediaSrc("/api/media" + path, media, urlOf) == PathSegments(PROXY + path)
  {
    var whole := PROXY + path;
    assert path[|path| - 1] in path && whole[|whole| - 1] == path[|path| - 1];
    NotSpecial(path[|path| - 1]);
    assert PROXY[0] == '/' && PROXY[1] == 'a';
    PathIsTakenAsIs(whole, media, urlOf);
  }

  /** A source that begins with one slash is a path. */
  lemma PathIsTakenAsIs(path: string, media: Url, urlOf: string -> Option<Url>)
    requires |path| > 1 && path[0] == '/' && path[1] != '/' && !IsJsSpace(path[|path| - 1])
    ensures MediaSrc(path, media, urlOf) == PathSegments(path)
  {
    assert Trim(path) == path;
    assert !HasScheme(path) by { assert !IsAlpha(path[0]); }
    assert !StartsWith(path, "//") by { assert "//"[1] == '/'; }
  }

  /** A full URL, blanks around it or not, stands for the path of what the parser makes of
      it, and only when scheme and origin are those of the media server; a source that
      leaves out the scheme alone, and a blank one, stand for nothing. */
  lemma ForeignSourcesAreRefused(
    a: string, scheme: string, rest: string, b: string, media: Url, urlOf: string -> Option<Url>)
    requires AllJsSpace(a) && AllJsSpace(b) && (rest != "" ==> !IsJsSpace(rest[|rest| - 1]))
    requires scheme == "" || IsAlpha(scheme[0])
    requires forall j :: 0 < j < |scheme| ==> IsAlpha(scheme[j]) || '0' <= scheme[j] <= '9' || scheme[j] in "+.-"
    ensures var url := scheme + "://" + rest;
            scheme != "" ==>
              MediaSrc(a + url + b, media, urlOf)
              == if urlOf(url).None? then None
                 else if urlOf(url).value.protocol == media.protocol && urlOf(url).value.origin == media.origin
                 then PathSegments(urlOf(url).value.pathname) else None
    ensures MediaSrc(a + ("//" + rest) + b, media, urlOf).None?
    ensures MediaSrc(a, media, urlOf).None?
  {
    var url := scheme + "://" + rest;
    if scheme != "" {
      assert url[0] == scheme[0] && url[|scheme|..|scheme| + 3] == "://";
      TrimPadded(a, url, b);
      assert SchemeEndsAt(url, |scheme|);
      assert !StartsWith(url, "//") by { assert "//"[0] == '/'; }
    }
    TrimPadded(a, "//" + rest, b);
    TrimPadded(a, "", "");
    assert a + "" + "" == a;
  }

  /** A query or a fragment is dropped. */
  lemma QueryIsDropped(path: string, mark: char, rest: string)
    requires '?' !in path && '#' !in path && (mark == '?' || mark == '#')
    ensures PathSegments(path + [mark] + rest) == PathSegments(path)
  {
    var s := path + [mark] + rest;
    NoMarkInProxy(PROXY + "/", path, mark, rest);
    if StartsWith(path, PROXY + "/") {
      assert s[|PROXY|..] == path[|PROXY|..] + [mark] + rest;
      BareQueryIsDropped(path[|PROXY|..], mark, rest);
    } else {
      BareQueryIsDropped(path, mark, rest);
    }
  }

  lemma NoMarkInProxy(proxy: string, path: string, mark: char, rest: string)
    requires proxy == PROXY + "/" && (mark == '?' || mark == '#')
    ensures StartsWith(path + [mark] + rest, proxy) <==> StartsWith(path, proxy)
  {
    var s := path + [mark] + rest;
    assert s == path + ([mark] + rest) && s[|path|] == mark;
    assert mark !in proxy by { assert forall i :: 0 <= i < |proxy| ==> proxy[i] != mark; }
    if StartsWith(s, proxy) {
      PrefixEndsBefore(s, proxy, |path|);
      assert proxy == s[..|proxy|] == path[..|proxy|];
    }
  }

  /** A prefix without the character at a position ends at it or before. */
  lemma PrefixEndsBefore(s: string, prefix: string, k: nat)
    requires StartsWith(s, prefix) && k < |s| && s[k] !in prefix
    ensures |prefix| <= k
  {
    forall j | k < j <= |s| ensures s[k] in s[..j] {
      assert s[..j][k] == s[k];
    }
    assert prefix == s[..|prefix|];
  }

  lemma BareQueryIsDropped(path: string, mark: char, rest: string)
    requires '?' !in path && '#' !in path && (mark == '?' || mark == '#')
    ensures Split(Split(path + [mark] + rest, '?')[0], '#')[0] == Split(Split(path, '?')[0], '#')[0] == path
  {
    SplitPlain(path, '?');
    SplitPlain(path, '#');
    if mark == '?' {
      SplitAtFirst(path, rest, '?');
    } else {
      FirstPartGoesOn(path + "#", rest, '?');
      var first := Split(rest, '?')[0];
      assert path + [mark] + rest == path + "#" + rest;
      SplitAtFirst(path, first, '#');
    }
  }

  lemma {:induction false} FirstPartGoesOn(head: string, rest: string, sep: char)
    requires sep !in head
    ensures Split(head + rest, sep)[0] == head + Split(rest, sep)[0]
  {
    if head == "" {
      assert head + rest == rest;
    } else {
      assert (head + rest)[0] == head[0] && (head + rest)[1..] == head[1..] + rest;
      FirstPartGoesOn(head[1..], rest, sep);
      assert head == [head[0]] + head[1..];
    }
  }

  /** Repeated slashes count as one. */
  lemma {:induction false} EmptySegmentsGo(a: seq<string>, b: seq<string>)
    ensures NonEmpty(a + [""] + b) == NonEmpty(a + b)
  {
    if a == [] {
      assert ([] + [""] + b)[1..] == b && [] + b == b;
    } else {
      assert (a + [""] + b)[1..] == a[1..] + [""] + b && (a + b)[1..] == a[1..] + b;
      EmptySegmentsGo(a[1..], b);
    }
  }

  /** So a second trip through parser and guard ends at the same path exactly when no
      character needed an escape. */
  lemma SecondTripExactly(segments: seq<string>)
    requires Resolve(segments).Some?
    ensures Resolve(EncodeAll(segments)) == Resolve(segments) <==>
              forall i :: 0 <= i < |segments| ==> forall c :: c in segments[i] ==> Plain(c)
  {
    var parts := EncodeAll(segments);
    ResolvesFaithfully(segments);
    if forall i :: 0 <= i < |segments| ==> forall c :: c in segments[i] ==> Plain(c) {
      forall i | 0 <= i < |segments| ensures parts[i] == segments[i] { EncodeOfPlain(segments[i]); }
      assert parts == segments;
    }
    if Resolve(parts) == Resolve(segments) {
      ResolvesFaithfully(parts);
      assert Names(Resolve(parts).value, parts) && Names(Resolve(segments).value, segments);
      forall i | 0 <= i < |segments| ensures forall c :: c in segments[i] ==> Plain(c) {
        assert Encode(segments[i]) == segments[i];
        FixedIsPlain(segments[i]);
      }
    }
  }

  lemma EncodeGrows(s: string)
    ensures |Encode(s)| >= |s|
  {
    if |s| > 0 { EncodeGrows(s[1..]); }
  }

  /** Encoding leaves a string as it is only if every character is left alone. */
  lemma {:induction false} FixedIsPlain(s: string)
    requires Encode(s) == s
    ensures forall c :: c in s ==> Plain(c)
  {
    if |s| > 0 {
      EncodeGrows(s[1..]);
      assert |EncodeChar(s[0])| == 1;
      assert Encode(s)[1..] == Encode(s[1..]);
      FixedIsPlain(s[1..]);
    }
  }
}
