/** The shared redaction of src/lib/redact.ts: which keys and strings count as
    credentials, and the depth-limited, size-limited walk that replaces them. */
module Redact {
  import opened Options
  import opened Text

  /** A JavaScript value as the walk tells them apart. An `Error` has no enumerable
      property of its own, so the walk sees an empty object in it. `Exotic` is what is
      left once JSON values and errors are taken out (a bigint, a symbol, a function):
      the code prints it with `String(value)`, which is `text` here. */
  datatype Json =
    | Null
    | Undefined
    | Bool(b: bool)
    | Num(n: real)
    | Str(s: string)
    | Arr(items: seq<Json>)
    | Obj(entries: seq<Entry>)
    | Err(message: string, name: string, stack: string, cause: Json)
    | Exotic(text: string)

  /** One property, in `Object.entries` order. */
  datatype Entry = Entry(key: string, value: Json)

  const MAX_CONTEXT_STRING_LEN: nat := 2000
  const MAX_DEPTH: nat := 5
  const MAX_ITEMS: nat := 50
  const REDACTED := "[redacted]"
  const TOO_DEEP := "[max depth]"
  const OVERFLOW_KEY := "…"
  const TOO_MANY_KEYS := "[truncated: too many keys]"

  // ----- what looks like a credential -----------------------------------------

  /** The two tests the walk applies: one to object keys, one to bare strings. The
      theorems below hold of every pair that obeys PatternsObey. */
  datatype Patterns = Patterns(key: string -> bool, value: string -> bool)

  /** What the proofs need to know about a pair of patterns: the walk's own
      placeholders pass them, and the value test only looks at the first thirteen
      characters. */
  ghost predicate PatternsObey(p: Patterns) {
    && !p.key(OVERFLOW_KEY)
    && !p.value(REDACTED) && !p.value(TOO_DEEP) && !p.value(TOO_MANY_KEYS)
    && forall s, t :: SameStart(s, t) && p.value(s) ==> p.value(t)
  }

  predicate SameStart(s: string, t: string) {
    |s| >= 13 && |t| >= 13 && s[..13] == t[..13]
  }

  // ----- truncation ------------------------------------------------------------

  function Decimal(n: nat): (r: string)
    ensures |r| > 0
  {
    if n < 10 then [DigitChar(n)] else Decimal(n / 10) + [DigitChar(n % 10)]
  }

  function DigitChar(d: nat): char
    requires d < 10
  {
    ('0' as int + d) as char
  }

  function Notice(dropped: nat): string {
    "…[truncated " + Decimal(dropped) + " chars]"
  }

  function Truncate(s: string): string {
    if |s| <= MAX_CONTEXT_STRING_LEN then s
    else s[..MAX_CONTEXT_STRING_LEN] + Notice(|s| - MAX_CONTEXT_STRING_LEN)
  }

  lemma {:induction false} DecimalLength(n: nat)
    ensures n < 10 ==> |Decimal(n)| == 1
    ensures 10 <= n < 100 ==> |Decimal(n)| == 2
    ensures n >= 22 ==> |Decimal(n)| + 19 < n
  {
    if n >= 10 {
      DecimalLength(n / 10);
      if n >= 220 {
        assert |Decimal(n / 10)| + 19 < n / 10;
      } else if n >= 100 {
        DecimalLength(n / 10 / 10);
      }
    }
  }

  /** Cutting a cut string again changes it, with one exception: a string that lost
      exactly 21 characters gets a 21-character notice. */
  lemma TruncateTwice(s: string)
    ensures Truncate(Truncate(s)) == Truncate(s)
            <==> |s| <= MAX_CONTEXT_STRING_LEN || |s| == MAX_CONTEXT_STRING_LEN + 21
  {
    if |s| > MAX_CONTEXT_STRING_LEN {
      var n := |s| - MAX_CONTEXT_STRING_LEN;
      var t := Truncate(s);
      DecimalLength(n);
      DecimalLength(|t| - MAX_CONTEXT_STRING_LEN);
      assert |t| == MAX_CONTEXT_STRING_LEN + 19 + |Decimal(n)|;
      assert t[..MAX_CONTEXT_STRING_LEN] == s[..MAX_CONTEXT_STRING_LEN];
      if n == 21 {
        assert |Decimal(21)| == 2;
        assert Truncate(t) == t;
      } else {
        var m := |t| - MAX_CONTEXT_STRING_LEN;
        assert m != n;
        if Truncate(t) == t {
          assert t[MAX_CONTEXT_STRING_LEN..] == Notice(n);
          assert Truncate(t)[MAX_CONTEXT_STRING_LEN..] == Notice(m);
          NoticeInjective(n, m);
        }
      }
    }
  }

  lemma NoticeInjective(a: nat, b: nat)
    requires Notice(a) == Notice(b)
    ensures a == b
  {
    var na, nb := Notice(a), Notice(b);
    assert |Decimal(a)| == |na| - 19 && |Decimal(b)| == |nb| - 19;
    assert na[12..12 + |Decimal(a)|] == Decimal(a);
    assert nb[12..12 + |Decimal(b)|] == Decimal(b);
    DecimalReadsBack(a);
    DecimalReadsBack(b);
  }

  /** The number a run of decimal digits stands for. */
  function Number(digits: string): int {
    if |digits| == 0 then 0
    else 10 * Number(digits[..|digits| - 1]) + digits[|digits| - 1] as int - '0' as int
  }

  lemma {:induction false} DecimalReadsBack(n: nat)
    ensures Number(Decimal(n)) == n
  {
    var d := Decimal(n);
    if n >= 10 {
      DecimalReadsBack(n / 10);
      assert d[..|d| - 1] == Decimal(n / 10);
    } else {
      assert d[..|d| - 1] == "";
    }
  }

  // ----- the walk --------------------------------------------------------------

  function KeptCount(n: nat): nat {
    if n <= MAX_ITEMS then n else MAX_ITEMS
  }

  predicate HasKey(entries: seq<Entry>, key: string) {
    exists i :: 0 <= i < |entries| && entries[i].key == key
  }

  predicate DistinctKeys(entries: seq<Entry>) {
    forall i, j :: 0 <= i < j < |entries| ==> entries[i].key != entries[j].key
  }

  /** `out[key] = value`: replace in place, or add at the end. */
  function Put(entries: seq<Entry>, key: string, value: Json): (r: seq<Entry>)
    ensures HasKey(entries, key) ==> |r| == |entries|
    ensures !HasKey(entries, key) ==> r == entries + [Entry(key, value)]
  {
    if |entries| == 0 then [Entry(key, value)]
    else if entries[0].key == key then
      assert HasKey(entries, key);
      [Entry(key, value)] + entries[1..]
    else
      assert HasKey(entries, key) ==> HasKey(entries[1..], key) by {
        if HasKey(entries, key) {
          var i :| 0 <= i < |entries| && entries[i].key == key;
          assert entries[1..][i - 1].key == key;
        }
      }
      assert HasKey(entries[1..], key) ==> HasKey(entries, key) by {
        if HasKey(entries[1..], key) {
          var i :| 0 <= i < |entries[1..]| && entries[1..][i].key == key;
          assert entries[i + 1].key == key;
        }
      }
      [entries[0]] + Put(entries[1..], key, value)
  }

  lemma {:induction false} PutInPlace(entries: seq<Entry>, key: string, value: Json)
    requires DistinctKeys(entries) && HasKey(entries, key)
    ensures |Put(entries, key, value)| == |entries|
    ensures forall i :: 0 <= i < |entries| ==>
              Put(entries, key, value)[i] == if entries[i].key == key then Entry(key, value) else entries[i]
  {
    if entries[0].key == key {
    } else {
      var i :| 0 <= i < |entries| && entries[i].key == key;
      assert entries[1..][i - 1].key == key;
      PutInPlace(entries[1..], key, value);
      forall j | 0 <= j < |entries|
        ensures Put(entries, key, value)[j] == if entries[j].key == key then Entry(key, value) else entries[j]
      {
        if j > 0 {
          assert entries[1..][j - 1] == entries[j];
        }
      }
    }
  }

  function RedactAndCap(p: Patterns, v: Json, depth: nat): Json
    decreases v, 0
  {
    if depth > MAX_DEPTH then Str(TOO_DEEP)
    else
      match v
      case Str(s) => if p.value(s) then Str(REDACTED) else Str(Truncate(s))
      case Arr(items) =>
        Arr(seq(KeptCount(|items|), i requires 0 <= i < KeptCount(|items|) => RedactAndCap(p, items[i], depth + 1)))
      case Obj(entries) =>
        var kept := KeptEntries(p, entries, depth);
        Obj(if |entries| > MAX_ITEMS then Put(kept, OVERFLOW_KEY, Str(TOO_MANY_KEYS)) else kept)
      case Err(_, _, _, _) => Obj([])
      case Exotic(text) => Str(text)
      case _ => v
  }

  /** The first fifty entries, redacted, before the overflow marker is put in. */
  function KeptEntries(p: Patterns, entries: seq<Entry>, depth: nat): (kept: seq<Entry>)
    ensures |kept| == KeptCount(|entries|)
    decreases entries, 1
  {
    seq(KeptCount(|entries|), i requires 0 <= i < KeptCount(|entries|) => RedactEntry(p, entries[i], depth))
  }

  function RedactEntry(p: Patterns, e: Entry, depth: nat): Entry
    decreases e, 0
  {
    Entry(e.key, if p.key(e.key) then Str(REDACTED) else RedactAndCap(p, e.value, depth + 1))
  }

  /** The object case as the code runs it: a loop that assigns keys into `out` and
      stops at the fifty-first entry. */
  method RedactObject(p: Patterns, entries: seq<Entry>, depth: nat) returns (out: seq<Entry>)
    requires DistinctKeys(entries)
    requires forall e :: e in entries ==> DistinctThroughout(e.value)
    requires depth <= MAX_DEPTH
    ensures Obj(out) == RedactAndCap(p, Obj(entries), depth)
    decreases entries, 1
  {
    out := [];
    var count := 0;
    while count < |entries|
      invariant count == |out| <= KeptCount(|entries|)
      invariant forall i :: 0 <= i < count ==> out[i] == RedactEntry(p, entries[i], depth)
    {
      if count >= MAX_ITEMS {
        LoopOutput(p, entries, depth, out);
        out := Put(out, OVERFLOW_KEY, Str(TOO_MANY_KEYS));
        return;
      }
      var key := entries[count].key;
      assert !HasKey(out, key);
      assert entries[count] in entries;
      var redacted := RedactProperty(p, entries[count], depth);
      out := Put(out, key, redacted);
      count := count + 1;
    }
    LoopOutput(p, entries, depth, out);
  }

  /** What is assigned under one key. */
  method RedactProperty(p: Patterns, e: Entry, depth: nat) returns (r: Json)
    requires DistinctThroughout(e.value)
    ensures r == RedactEntry(p, e, depth).value
    decreases e, 1
  {
    if p.key(e.key) { return Str(REDACTED); }
    r := RedactValue(p, e.value, depth + 1);
  }

  lemma LoopOutput(p: Patterns, entries: seq<Entry>, depth: nat, out: seq<Entry>)
    requires depth <= MAX_DEPTH
    requires |out| == KeptCount(|entries|) && forall i :: 0 <= i < |out| ==> out[i] == RedactEntry(p, entries[i], depth)
    ensures |entries| <= MAX_ITEMS ==> Obj(out) == RedactAndCap(p, Obj(entries), depth)
    ensures |entries| > MAX_ITEMS ==>
              Obj(Put(out, OVERFLOW_KEY, Str(TOO_MANY_KEYS))) == RedactAndCap(p, Obj(entries), depth)
  {
    assert out == KeptEntries(p, entries, depth);
  }

  /** The array case: the first fifty items, one level down. */
  method RedactItems(p: Patterns, items: seq<Json>, depth: nat) returns (out: seq<Json>)
    requires forall i :: 0 <= i < |items| ==> DistinctThroughout(items[i])
    ensures |out| == KeptCount(|items|)
    ensures forall i :: 0 <= i < |out| ==> out[i] == RedactAndCap(p, items[i], depth + 1)
    decreases items, 1
  {
    out := [];
    while |out| < KeptCount(|items|)
      invariant |out| <= KeptCount(|items|)
      invariant forall i :: 0 <= i < |out| ==> out[i] == RedactAndCap(p, items[i], depth + 1)
    {
      var redacted := RedactValue(p, items[|out|], depth + 1);
      out := out + [redacted];
    }
  }

  /** The whole walk, calling the loops above for objects and arrays. */
  method RedactValue(p: Patterns, value: Json, depth: nat) returns (r: Json)
    requires DistinctThroughout(value)
    ensures r == RedactAndCap(p, value, depth)
    decreases value, 0
  {
    if depth > MAX_DEPTH { return Str(TOO_DEEP); }
    match value
    case Str(s) => r := if p.value(s) then Str(REDACTED) else Str(Truncate(s));
    case Arr(items) =>
      var out := RedactItems(p, items, depth);
      r := Arr(out);
    case Obj(entries) =>
      var out := RedactObject(p, entries, depth);
      r := Obj(out);
    case Err(_, _, _, _) => r := Obj([]);
    case Exotic(text) => r := Str(text);
    case _ => r := value;
  }

  /** What every JavaScript object satisfies: one value per key. */
  predicate DistinctThroughout(v: Json)
    decreases v
  {
    match v
    case Arr(items) => forall i :: 0 <= i < |items| ==> DistinctThroughout(items[i])
    case Obj(entries) =>
      DistinctKeys(entries) && forall i :: 0 <= i < |entries| ==> DistinctThroughout(entries[i].value)
    case _ => true
  }

  // ----- what is kept ------------------------------------------------------------

  /** Nothing in the value calls for redaction or capping: at most `levels` values deep, no
      container over fifty, no secret-named key, no credential or over-long string, and
      no error or other object without a JSON form. */
  ghost predicate Plain(p: Patterns, v: Json, levels: nat)
    decreases v
  {
    levels > 0 &&
    match v
    case Str(s) => !p.value(s) && |s| <= 2000
    case Arr(items) => |items| <= 50 && forall i :: 0 <= i < |items| ==> Plain(p, items[i], levels - 1)
    case Obj(entries) =>
      |entries| <= 50
      && forall i :: 0 <= i < |entries| ==> !p.key(entries[i].key) && Plain(p, entries[i].value, levels - 1)
    case Err(_, _, _, _) => false
    case Exotic(_) => false
    case _ => true
  }

  /** Such a value comes out as it went in. */
  lemma {:induction false} PlainIsKept(p: Patterns, v: Json, depth: nat)
    requires depth <= 6 && Plain(p, v, 6 - depth)
    ensures RedactAndCap(p, v, depth) == v
    decreases v
  {
    match v
    case Arr(items) =>
      forall i | 0 <= i < |items| ensures RedactAndCap(p, items[i], depth + 1) == items[i] {
        PlainIsKept(p, items[i], depth + 1);
      }
    case Obj(entries) =>
      forall i | 0 <= i < |entries| ensures RedactEntry(p, entries[i], depth) == entries[i] {
        PlainIsKept(p, entries[i].value, depth + 1);
      }
      assert KeptEntries(p, entries, depth) == entries;
    case _ =>
  }

  /** The item, or the value of the entry, at a position. */
  function Part(v: Json, i: nat): Option<Json> {
    match v
    case Arr(items) => if i < |items| then Some(items[i]) else None
    case Obj(entries) => if i < |entries| then Some(entries[i].value) else None
    case _ => None
  }

  /** What stands at a path of positions, if the path exists. */
  function At(v: Json, path: seq<nat>): Option<Json>
    decreases |path|
  {
    if |path| == 0 then Some(v)
    else
      match Part(v, path[0])
      case Some(part) => At(part, path[1..])
      case None => None
  }

  /** The path keeps to the first fifty positions, passes no secret-named key and no
      entry that the overflow marker replaces. */
  predicate Open(p: Patterns, v: Json, path: seq<nat>)
    decreases |path|
  {
    |path| > 0 ==>
      && path[0] < 50 && Part(v, path[0]).Some?
      && (v.Obj? ==> !p.key(v.entries[path[0]].key) && !(|v.entries| > 50 && v.entries[path[0]].key == "…"))
      && Open(p, Part(v, path[0]).value, path[1..])
  }

  lemma {:induction false} StandsRedacted(p: Patterns, v: Json, path: seq<nat>, depth: nat, end: nat)
    requires PatternsObey(p) && DistinctThroughout(v) && Open(p, v, path) && end == depth + |path| <= 6
    ensures At(v, path).Some? && DistinctThroughout(At(v, path).value)
    ensures At(RedactAndCap(p, v, depth), path) == Some(RedactAndCap(p, At(v, path).value, end))
    decreases |path|
  {
    if |path| > 0 {
      OneDown(p, v, path, depth);
      var part, out := Part(v, path[0]).value, RedactAndCap(p, v, depth);
      AtPart(v, path, part);
      StandsRedacted(p, part, path[1..], depth + 1, end);
      var below := RedactAndCap(p, part, depth + 1);
      AtPart(out, path, below);
    }
  }

  lemma AtPart(v: Json, path: seq<nat>, part: Json)
    requires |path| > 0 && Part(v, path[0]) == Some(part)
    ensures At(v, path) == At(part, path[1..])
  {
  }

  lemma OneDown(p: Patterns, v: Json, path: seq<nat>, depth: nat)
    requires PatternsObey(p) && DistinctThroughout(v) && Open(p, v, path) && |path| > 0 && depth <= 5
    ensures Part(v, path[0]).Some? && DistinctThroughout(Part(v, path[0]).value)
    ensures Open(p, Part(v, path[0]).value, path[1..])
    ensures Part(RedactAndCap(p, v, depth), path[0]) == Some(RedactAndCap(p, Part(v, path[0]).value, depth + 1))
  {
    if v.Arr? {
      ArrayOutput(p, v.items, depth);
    } else {
      ReachedOutput(p, v.entries, path[0], depth);
    }
  }

  /** How a value no more than five levels down is shown in its place. */
  ghost predicate ShownFor(p: Patterns, v: Json, shown: Json) {
    match v
    case Str(s) =>
      if p.value(s) then shown == Str("[redacted]")
      else if |s| <= 2000 then shown == v
      else shown == Str(s[..2000] + "…[truncated " + Decimal(|s| - 2000) + " chars]")
    case Arr(items) => shown.Arr? && |shown.items| == if |items| <= 50 then |items| else 50
    case Obj(entries) => shown.Obj? && EntriesShown(p, entries, shown.entries)
    case Err(_, _, _, _) => shown == Obj([])
    case Exotic(text) => shown == Str(text)
    case _ => shown == v
  }

  /** The first fifty keys in order, the placeholder under the secret-named among them, and
      a marker for the rest. */
  ghost predicate EntriesShown(p: Patterns, entries: seq<Entry>, shown: seq<Entry>) {
    && (|entries| <= 50 ==> |shown| == |entries|)
    && (|entries| > 50 ==> 50 <= |shown| <= 51 && exists i :: 0 <= i < |shown| && IsMarker(shown[i]))
    && (forall i :: 0 <= i < |entries| && i < 50 ==>
          shown[i].key == entries[i].key
          && (p.key(entries[i].key) && !IsMarker(shown[i]) ==> shown[i].value == Str("[redacted]")))
  }

  predicate IsMarker(e: Entry) {
    e == Entry("…", Str("[truncated: too many keys]"))
  }

  /** Each scalar and each harmless string stays where it stood, at every place that is
      not below a secret-named key, past a fiftieth sibling or deeper than five levels;
      and credentials, long strings, containers and what lies deeper show as said. */
  lemma ShownInItsPlace(p: Patterns, v: Json, path: seq<nat>)
    requires PatternsObey(p) && DistinctThroughout(v) && Open(p, v, path) && |path| <= 6
    ensures At(v, path).Some? && At(RedactAndCap(p, v, 0), path).Some?
    ensures var shown := At(RedactAndCap(p, v, 0), path).value;
            if |path| <= 5 then ShownFor(p, At(v, path).value, shown) else shown == Str("[max depth]")
  {
    StandsRedacted(p, v, path, 0, |path|);
    if |path| <= 5 { EachIsShown(p, At(v, path).value, |path|); }
  }

  lemma EachIsShown(p: Patterns, v: Json, depth: nat)
    requires PatternsObey(p) && DistinctThroughout(v) && depth <= 5
    ensures ShownFor(p, v, RedactAndCap(p, v, depth))
  {
    if v.Obj? {
      ObjectOutput(p, v.entries, depth);
      if |v.entries| > 50 { MarkerIsShown(p, v.entries, depth); }
    }
  }

  lemma MarkerIsShown(p: Patterns, entries: seq<Entry>, depth: nat)
    requires PatternsObey(p) && DistinctKeys(entries) && depth <= 5 && |entries| > 50
    ensures exists i :: 0 <= i < |Once(p, entries, depth)| && IsMarker(Once(p, entries, depth)[i])
  {
    ObjectOutput(p, entries, depth);
    var out := Once(p, entries, depth);
    if |out| == 51 {
      assert IsMarker(out[50]);
    } else {
      var i :| 0 <= i < 50 && entries[..50][i].key == OVERFLOW_KEY;
      assert IsMarker(out[i]);
    }
  }

  // ----- non-interference ------------------------------------------------------

  /** Two values an observer without the secrets cannot tell apart: they differ only
      under secret-named keys, or in strings that are both credential-shaped. */
  ghost predicate SameButSecrets(p: Patterns, a: Json, b: Json)
    decreases a
  {
    match (a, b)
    case (Str(x), Str(y)) => x == y || (p.value(x) && p.value(y))
    case (Arr(xs), Arr(ys)) =>
      |xs| == |ys| && forall i :: 0 <= i < |xs| ==> SameButSecrets(p, xs[i], ys[i])
    case (Obj(xs), Obj(ys)) =>
      |xs| == |ys| && forall i :: 0 <= i < |xs| ==> EntrySameButSecrets(p, xs[i], ys[i])
    case _ => a == b
  }

  ghost predicate EntrySameButSecrets(p: Patterns, x: Entry, y: Entry)
    decreases x
  {
    x.key == y.key && (p.key(x.key) || SameButSecrets(p, x.value, y.value))
  }

  /** Redaction does not let the difference through. */
  lemma {:induction false} NonInterference(p: Patterns, a: Json, b: Json, depth: nat)
    requires SameButSecrets(p, a, b)
    ensures RedactAndCap(p, a, depth) == RedactAndCap(p, b, depth)
    decreases a
  {
    if depth <= MAX_DEPTH {
      match (a, b)
      case (Arr(xs), Arr(ys)) =>
        forall i | 0 <= i < KeptCount(|xs|)
          ensures RedactAndCap(p, xs[i], depth + 1) == RedactAndCap(p, ys[i], depth + 1)
        {
          NonInterference(p, xs[i], ys[i], depth + 1);
        }
      case (Obj(xs), Obj(ys)) =>
        forall i | 0 <= i < KeptCount(|xs|)
          ensures RedactEntry(p, xs[i], depth) == RedactEntry(p, ys[i], depth)
        {
          assert EntrySameButSecrets(p, xs[i], ys[i]);
          if !p.key(xs[i].key) {
            NonInterference(p, xs[i].value, ys[i].value, depth + 1);
          }
        }
        assert KeptEntries(p, xs, depth) == KeptEntries(p, ys, depth);
      case _ =>
    }
  }

  /** What one pass, and a second pass over its output, make of an object. */
  ghost function Once(p: Patterns, entries: seq<Entry>, depth: nat): seq<Entry>
    requires depth <= MAX_DEPTH
  {
    RedactAndCap(p, Obj(entries), depth).entries
  }

  ghost function Twice(p: Patterns, entries: seq<Entry>, depth: nat): seq<Entry>
    requires depth <= MAX_DEPTH
  {
    Once(p, Once(p, entries, depth), depth)
  }

  // ----- bounds ----------------------------------------------------------------

  /** A safe payload: at most `levels` nested containers, at most fifty items or
      fifty-one entries in each, no string over the cap plus its notice, nothing
      credential-shaped, and only the placeholder under a secret-named key. */
  ghost predicate Safe(p: Patterns, v: Json, levels: int)
    decreases v
  {
    match v
    case Str(s) => SafeText(p, s)
    case Arr(items) =>
      levels > 0 && |items| <= MAX_ITEMS && forall i :: 0 <= i < |items| ==> Safe(p, items[i], levels - 1)
    case Obj(entries) =>
      levels > 0 && |entries| <= MAX_ITEMS + 1
      && forall i :: 0 <= i < |entries| ==> SafeEntry(p, entries[i], levels - 1)
    case Err(_, _, _, _) => false
    case Exotic(_) => false
    case _ => true
  }

  ghost predicate SafeEntry(p: Patterns, e: Entry, levels: int)
    decreases e
  {
    Safe(p, e.value, levels) && (p.key(e.key) ==> e.value == Str(REDACTED))
  }

  ghost predicate SafeText(p: Patterns, s: string) {
    !p.value(s) && (|s| <= MAX_CONTEXT_STRING_LEN || exists n: nat :: n > 0 && CutShort(s, n))
  }

  ghost predicate CutShort(s: string, dropped: nat) {
    |s| >= MAX_CONTEXT_STRING_LEN && s[MAX_CONTEXT_STRING_LEN..] == Notice(dropped)
  }

  /** The part of an input that reaches the output: not under a secret-named key, not
      past the item cap, not overwritten by the overflow marker. */
  predicate EntryReached(p: Patterns, entries: seq<Entry>, i: nat)
    requires i < |entries|
  {
    && i < KeptCount(|entries|)
    && !p.key(entries[i].key)
    && !(|entries| > MAX_ITEMS && entries[i].key == OVERFLOW_KEY)
  }

  /** No bigint, symbol or function that is reached prints as an over-long or
      credential-shaped text. Holds of every JSON value. */
  ghost predicate ExoticsHarmless(p: Patterns, v: Json, depth: nat)
    decreases v
  {
    depth > MAX_DEPTH ||
    match v
    case Exotic(text) => SafeText(p, text)
    case Arr(items) => forall i :: 0 <= i < KeptCount(|items|) ==> ExoticsHarmless(p, items[i], depth + 1)
    case Obj(entries) =>
      forall i :: 0 <= i < |entries| && EntryReached(p, entries, i) ==> ExoticsHarmless(p, entries[i].value, depth + 1)
    case _ => true
  }

  lemma PlaceholdersAreSafe(p: Patterns)
    requires PatternsObey(p)
    ensures SafeText(p, REDACTED) && SafeText(p, TOO_DEEP) && SafeText(p, TOO_MANY_KEYS)
    ensures Truncate(REDACTED) == REDACTED && Truncate(TOO_DEEP) == TOO_DEEP
    ensures Truncate(TOO_MANY_KEYS) == TOO_MANY_KEYS
  {
  }

  lemma TruncatedTextIsSafe(p: Patterns, s: string)
    requires PatternsObey(p) && !p.value(s)
    ensures SafeText(p, Truncate(s)) && !p.value(Truncate(s))
  {
    if |s| > MAX_CONTEXT_STRING_LEN {
      var t := Truncate(s);
      assert SameStart(s, t) && SameStart(t, s);
      assert CutShort(t, |s| - MAX_CONTEXT_STRING_LEN);
    }
  }

  /** An object's output, entry by entry. */
  lemma ObjectOutput(p: Patterns, entries: seq<Entry>, depth: nat)
    requires PatternsObey(p) && depth <= MAX_DEPTH && DistinctKeys(entries)
    ensures RedactAndCap(p, Obj(entries), depth).Obj?
    ensures var out := RedactAndCap(p, Obj(entries), depth).entries;
            var n := KeptCount(|entries|);
            && DistinctKeys(out)
            && n <= |out| <= n + 1
            && (|out| == n + 1 <==> |entries| > MAX_ITEMS && !HasKey(entries[..n], OVERFLOW_KEY))
            && (|out| == n + 1 ==> out[n] == Entry(OVERFLOW_KEY, Str(TOO_MANY_KEYS)))
            && forall i :: 0 <= i < n ==>
                 && out[i].key == entries[i].key
                 && out[i].value == (if p.key(entries[i].key) then Str(REDACTED)
                                     else if EntryReached(p, entries, i)
                                     then RedactAndCap(p, entries[i].value, depth + 1)
                                     else Str(TOO_MANY_KEYS))
  {
    var kept := KeptEntries(p, entries, depth);
    KeptOutput(p, entries, depth);
    if |entries| > MAX_ITEMS {
      SameKeys(kept, entries[..|kept|], OVERFLOW_KEY);
      if HasKey(kept, OVERFLOW_KEY) {
        PutInPlace(kept, OVERFLOW_KEY, Str(TOO_MANY_KEYS));
      } else {
        assert forall i :: 0 <= i < |kept| ==> kept[i].key != OVERFLOW_KEY;
      }
    }
  }

  lemma KeptOutput(p: Patterns, entries: seq<Entry>, depth: nat)
    requires depth <= MAX_DEPTH && DistinctKeys(entries)
    ensures var kept := KeptEntries(p, entries, depth);
            DistinctKeys(kept) && forall i :: 0 <= i < |kept| ==>
              kept[i] == Entry(entries[i].key,
                               if p.key(entries[i].key) then Str(REDACTED)
                               else RedactAndCap(p, entries[i].value, depth + 1))
  {
    var kept := KeptEntries(p, entries, depth);
    assert forall i :: 0 <= i < |kept| ==> kept[i] == RedactEntry(p, entries[i], depth);
  }

  lemma ArrayOutput(p: Patterns, items: seq<Json>, depth: nat)
    requires depth <= MAX_DEPTH
    ensures RedactAndCap(p, Arr(items), depth).Arr?
    ensures var out := RedactAndCap(p, Arr(items), depth).items;
            && |out| == KeptCount(|items|)
            && forall i :: 0 <= i < |out| ==> out[i] == RedactAndCap(p, items[i], depth + 1)
  {
  }

  lemma SameKeys(xs: seq<Entry>, ys: seq<Entry>, key: string)
    requires |xs| == |ys| && forall i :: 0 <= i < |xs| ==> xs[i].key == ys[i].key
    ensures HasKey(xs, key) <==> HasKey(ys, key)
  {
    if HasKey(xs, key) {
      var i :| 0 <= i < |xs| && xs[i].key == key;
      assert ys[i].key == key;
    }
    if HasKey(ys, key) {
      var i :| 0 <= i < |ys| && ys[i].key == key;
      assert xs[i].key == key;
    }
  }

  /** Output is bounded and free of credentials exactly when no reached exotic text
      breaks the bound itself; in particular for every JSON value. */
  lemma {:induction false} OutputIsSafe(p: Patterns, v: Json, depth: nat, levels: int)
    requires PatternsObey(p) && DistinctThroughout(v) && levels == MAX_DEPTH + 1 - depth
    ensures Safe(p, RedactAndCap(p, v, depth), levels) <==> ExoticsHarmless(p, v, depth)
    decreases v
  {
    if depth > MAX_DEPTH || !(v.Arr? || v.Obj?) {
      LeafIsSafe(p, v, depth, levels);
    } else if v.Arr? {
      ArrayIsSafe(p, v.items, depth, levels);
    } else {
      ObjectIsSafe(p, v.entries, depth, levels);
    }
  }

  lemma LeafIsSafe(p: Patterns, v: Json, depth: nat, levels: int)
    requires PatternsObey(p) && levels == MAX_DEPTH + 1 - depth && (depth > MAX_DEPTH || !(v.Arr? || v.Obj?))
    ensures Safe(p, RedactAndCap(p, v, depth), levels) <==> ExoticsHarmless(p, v, depth)
  {
    PlaceholdersAreSafe(p);
    if v.Str? && !p.value(v.s) { TruncatedTextIsSafe(p, v.s); }
  }

  lemma {:induction false} ArrayIsSafe(p: Patterns, items: seq<Json>, depth: nat, levels: int)
    requires PatternsObey(p) && DistinctThroughout(Arr(items)) && depth <= MAX_DEPTH && levels == MAX_DEPTH + 1 - depth
    ensures Safe(p, RedactAndCap(p, Arr(items), depth), levels) <==> ExoticsHarmless(p, Arr(items), depth)
    decreases items, 1
  {
    ArrayOutput(p, items, depth);
    var out := RedactAndCap(p, Arr(items), depth).items;
    forall i | 0 <= i < |out|
      ensures Safe(p, out[i], levels - 1) <==> ExoticsHarmless(p, items[i], depth + 1)
    {
      OutputIsSafe(p, items[i], depth + 1, levels - 1);
    }
    assert Safe(p, Arr(out), levels) <==> forall i :: 0 <= i < |out| ==> Safe(p, out[i], levels - 1);
  }

  lemma {:induction false} ObjectIsSafe(p: Patterns, entries: seq<Entry>, depth: nat, levels: int)
    requires PatternsObey(p) && DistinctThroughout(Obj(entries))
    requires depth <= MAX_DEPTH && levels == MAX_DEPTH + 1 - depth
    ensures Safe(p, RedactAndCap(p, Obj(entries), depth), levels) <==> ExoticsHarmless(p, Obj(entries), depth)
    decreases entries, 1
  {
    var out := Once(p, entries, depth);
    forall i | 0 <= i < |out|
      ensures SafeEntry(p, out[i], levels - 1) <==> EntryHarmless(p, entries, i, depth)
    {
      EntryIsSafe(p, entries, i, depth, levels - 1);
    }
    ObjectOutput(p, entries, depth);
    if ExoticsHarmless(p, Obj(entries), depth) {
      assert forall i :: 0 <= i < |out| ==> EntryHarmless(p, entries, i, depth);
    } else {
      var i :| 0 <= i < |entries| && EntryReached(p, entries, i) && !ExoticsHarmless(p, entries[i].value, depth + 1);
      assert !EntryHarmless(p, entries, i, depth);
    }
  }

  ghost predicate EntryHarmless(p: Patterns, entries: seq<Entry>, i: nat, depth: nat) {
    i < |entries| && EntryReached(p, entries, i) ==> ExoticsHarmless(p, entries[i].value, depth + 1)
  }

  lemma {:induction false} EntryIsSafe(p: Patterns, entries: seq<Entry>, i: nat, depth: nat, levels: int)
    requires PatternsObey(p) && DistinctThroughout(Obj(entries)) && depth <= MAX_DEPTH && levels == MAX_DEPTH - depth
    requires i < |Once(p, entries, depth)|
    ensures SafeEntry(p, Once(p, entries, depth)[i], levels) <==> EntryHarmless(p, entries, i, depth)
    decreases entries, 0
  {
    if i < |entries| && EntryReached(p, entries, i) {
      OutputIsSafe(p, entries[i].value, depth + 1, levels);
      ReachedOutput(p, entries, i, depth);
    } else {
      PlaceholderIsSafe(p, entries, i, depth, levels);
    }
  }

  lemma ReachedOutput(p: Patterns, entries: seq<Entry>, i: nat, depth: nat)
    requires PatternsObey(p) && DistinctKeys(entries) && depth <= MAX_DEPTH
    requires i < |entries| && EntryReached(p, entries, i)
    ensures i < |Once(p, entries, depth)|
    ensures Once(p, entries, depth)[i] == Entry(entries[i].key, RedactAndCap(p, entries[i].value, depth + 1))
  {
    ObjectOutput(p, entries, depth);
  }

  lemma PlaceholderIsSafe(p: Patterns, entries: seq<Entry>, i: nat, depth: nat, levels: int)
    requires PatternsObey(p) && DistinctKeys(entries) && depth <= MAX_DEPTH
    requires i < |Once(p, entries, depth)|
    requires !(i < |entries| && EntryReached(p, entries, i))
    ensures SafeEntry(p, Once(p, entries, depth)[i], levels)
  {
    PlaceholdersAreSafe(p);
    ObjectOutput(p, entries, depth);
  }

  predicate NoExotics(v: Json)
    decreases v
  {
    match v
    case Exotic(_) => false
    case Arr(items) => forall i :: 0 <= i < |items| ==> NoExotics(items[i])
    case Obj(entries) => forall i :: 0 <= i < |entries| ==> NoExotics(entries[i].value)
    case _ => true
  }

  lemma {:induction false} NothingToHarm(p: Patterns, v: Json, depth: nat)
    requires NoExotics(v)
    ensures ExoticsHarmless(p, v, depth)
    decreases v
  {
    if depth <= MAX_DEPTH {
      match v
      case Arr(items) =>
        forall i | 0 <= i < KeptCount(|items|) ensures ExoticsHarmless(p, items[i], depth + 1) {
          NothingToHarm(p, items[i], depth + 1);
        }
      case Obj(entries) =>
        forall i | 0 <= i < |entries| && EntryReached(p, entries, i)
          ensures ExoticsHarmless(p, entries[i].value, depth + 1)
        {
          NothingToHarm(p, entries[i].value, depth + 1);
        }
      case _ =>
    }
  }

  // ----- a second pass ---------------------------------------------------------

  /** Every string that is reached either is replaced, fits the cap, or is 21
      characters over it (see TruncateTwice); and no overflow marker takes the place
      of an existing entry at the deepest level, where a second pass would read the
      marker as one level too deep. */
  ghost predicate SettlesInOnePass(p: Patterns, v: Json, depth: nat)
    decreases v
  {
    depth > MAX_DEPTH ||
    match v
    case Str(s) => p.value(s) || |s| <= MAX_CONTEXT_STRING_LEN || |s| == MAX_CONTEXT_STRING_LEN + 21
    case Arr(items) => forall i :: 0 <= i < KeptCount(|items|) ==> SettlesInOnePass(p, items[i], depth + 1)
    case Obj(entries) =>
      && !(depth == MAX_DEPTH && MarkerReplacesAnEntry(entries))
      && forall i :: 0 <= i < |entries| && EntryReached(p, entries, i) ==>
           SettlesInOnePass(p, entries[i].value, depth + 1)
    case _ => true
  }

  predicate MarkerReplacesAnEntry(entries: seq<Entry>) {
    |entries| > MAX_ITEMS && HasKey(entries[..MAX_ITEMS], OVERFLOW_KEY)
  }

  /** Redacting twice is redacting once exactly under SettlesInOnePass. */
  lemma {:induction false} SecondPass(p: Patterns, v: Json, depth: nat)
    requires PatternsObey(p) && DistinctThroughout(v) && NoExotics(v)
    ensures RedactAndCap(p, RedactAndCap(p, v, depth), depth) == RedactAndCap(p, v, depth)
            <==> SettlesInOnePass(p, v, depth)
    decreases v
  {
    if depth > MAX_DEPTH || !(v.Arr? || v.Obj?) {
      SecondPassLeaf(p, v, depth);
    } else if v.Arr? {
      ArrayOutput(p, v.items, depth);
      var once := RedactAndCap(p, v, depth);
      ArrayOutput(p, once.items, depth);
      var twice := RedactAndCap(p, once, depth);
      forall i | 0 <= i < KeptCount(|v.items|)
        ensures twice.items[i] == once.items[i] <==> SettlesInOnePass(p, v.items[i], depth + 1)
      {
        SecondPass(p, v.items[i], depth + 1);
      }
    } else {
      SecondPassObject(p, v.entries, depth);
    }
  }

  lemma SecondPassLeaf(p: Patterns, v: Json, depth: nat)
    requires PatternsObey(p) && NoExotics(v) && (depth > MAX_DEPTH || !(v.Arr? || v.Obj?))
    ensures RedactAndCap(p, RedactAndCap(p, v, depth), depth) == RedactAndCap(p, v, depth)
            <==> SettlesInOnePass(p, v, depth)
  {
    PlaceholdersAreSafe(p);
    if v.Str? && !p.value(v.s) {
      TruncatedTextIsSafe(p, v.s);
      TruncateTwice(v.s);
    }
  }

  lemma {:induction false} SecondPassObject(p: Patterns, entries: seq<Entry>, depth: nat)
    requires PatternsObey(p) && DistinctThroughout(Obj(entries)) && NoExotics(Obj(entries)) && depth <= MAX_DEPTH
    ensures var once := RedactAndCap(p, Obj(entries), depth);
            RedactAndCap(p, once, depth) == once <==> SettlesInOnePass(p, Obj(entries), depth)
    decreases entries, 1
  {
    SameLength(p, entries, depth);
    SecondPassEntries(p, entries, depth);
    AgreeEverywhere(Once(p, entries, depth), Twice(p, entries, depth));
    SettlesByEntry(p, entries, depth);
  }

  lemma {:induction false} SecondPassEntries(p: Patterns, entries: seq<Entry>, depth: nat)
    requires PatternsObey(p) && DistinctThroughout(Obj(entries)) && NoExotics(Obj(entries)) && depth <= MAX_DEPTH
    ensures forall i :: 0 <= i < |Once(p, entries, depth)| ==>
      (AgreeAt(Once(p, entries, depth), Twice(p, entries, depth), i) <==> EntrySettles(p, entries, i, depth))
    decreases entries, 0, 1
  {
    forall i | 0 <= i < |Once(p, entries, depth)|
      ensures AgreeAt(Once(p, entries, depth), Twice(p, entries, depth), i) <==> EntrySettles(p, entries, i, depth)
    {
      SecondPassEntry(p, entries, i, depth);
    }
  }

  lemma SameLength(p: Patterns, entries: seq<Entry>, depth: nat)
    requires PatternsObey(p) && DistinctKeys(entries) && depth <= MAX_DEPTH
    ensures |Once(p, entries, depth)| == |Twice(p, entries, depth)| >= KeptCount(|entries|)
  {
    ObjectOutput(p, entries, depth);
    var once := Once(p, entries, depth);
    ObjectOutput(p, once, depth);
    var n := KeptCount(|entries|);
    SameKeys(once[..n], entries[..n], OVERFLOW_KEY);
  }

  lemma SettlesByEntry(p: Patterns, entries: seq<Entry>, depth: nat)
    requires PatternsObey(p) && depth <= MAX_DEPTH
    ensures SettlesInOnePass(p, Obj(entries), depth)
            <==> forall i :: 0 <= i < KeptCount(|entries|) ==> EntrySettles(p, entries, i, depth)
  {
    var n := KeptCount(|entries|);
    if SettlesInOnePass(p, Obj(entries), depth) {
      forall i | 0 <= i < n
        ensures EntrySettles(p, entries, i, depth)
      {
        assert entries[..n][i] == entries[i];
      }
    } else if depth == MAX_DEPTH && MarkerReplacesAnEntry(entries) {
      var i :| 0 <= i < n && entries[..n][i].key == OVERFLOW_KEY;
      assert entries[i].key == OVERFLOW_KEY && !EntrySettles(p, entries, i, depth);
    } else {
      var i :| 0 <= i < |entries| && EntryReached(p, entries, i) && !SettlesInOnePass(p, entries[i].value, depth + 1);
      assert !EntrySettles(p, entries, i, depth);
    }
  }

  ghost predicate EntrySettles(p: Patterns, entries: seq<Entry>, i: nat, depth: nat) {
    i < KeptCount(|entries|) && !p.key(entries[i].key) ==>
      if |entries| > MAX_ITEMS && entries[i].key == OVERFLOW_KEY then depth < MAX_DEPTH
      else SettlesInOnePass(p, entries[i].value, depth + 1)
  }

  lemma {:induction false} SecondPassEntry(p: Patterns, entries: seq<Entry>, i: nat, depth: nat)
    requires PatternsObey(p) && DistinctThroughout(Obj(entries)) && NoExotics(Obj(entries)) && depth <= MAX_DEPTH
    requires i < |Once(p, entries, depth)|
    ensures AgreeAt(Once(p, entries, depth), Twice(p, entries, depth), i) <==> EntrySettles(p, entries, i, depth)
    decreases entries, 0, 0
  {
    if i >= KeptCount(|entries|) || p.key(entries[i].key) {
      SecondPassPlaceholder(p, entries, i, depth);
    } else if |entries| > MAX_ITEMS && entries[i].key == OVERFLOW_KEY {
      SecondPassMarker(p, entries, i, depth);
    } else {
      SecondPassReached(p, entries, i, depth);
      SecondPass(p, entries[i].value, depth + 1);
    }
  }

  ghost predicate AgreeAt(xs: seq<Entry>, ys: seq<Entry>, i: nat) {
    i < |xs| && i < |ys| && xs[i] == ys[i]
  }

  lemma AgreeEverywhere(xs: seq<Entry>, ys: seq<Entry>)
    requires |xs| == |ys|
    ensures xs == ys <==> forall i :: 0 <= i < |xs| ==> AgreeAt(xs, ys, i)
  {
    if forall i :: 0 <= i < |xs| ==> AgreeAt(xs, ys, i) {
      forall i | 0 <= i < |xs| ensures xs[i] == ys[i] {
        assert AgreeAt(xs, ys, i);
      }
    }
  }

  lemma SecondPassPlaceholder(p: Patterns, entries: seq<Entry>, i: nat, depth: nat)
    requires PatternsObey(p) && DistinctKeys(entries) && depth <= MAX_DEPTH
    requires i < |Once(p, entries, depth)|
    requires i < KeptCount(|entries|) ==> p.key(entries[i].key)
    ensures AgreeAt(Once(p, entries, depth), Twice(p, entries, depth), i)
  {
    ObjectOutput(p, entries, depth);
    var once := RedactAndCap(p, Obj(entries), depth).entries;
    ObjectOutput(p, once, depth);
    var n := KeptCount(|entries|);
    SameKeys(once[..n], entries[..n], OVERFLOW_KEY);
  }

  lemma SecondPassReached(p: Patterns, entries: seq<Entry>, i: nat, depth: nat)
    requires PatternsObey(p) && DistinctKeys(entries) && depth <= MAX_DEPTH
    requires i < |entries| && EntryReached(p, entries, i)
    ensures AgreeAt(Once(p, entries, depth), Twice(p, entries, depth), i)
            <==> RedactAndCap(p, RedactAndCap(p, entries[i].value, depth + 1), depth + 1)
                 == RedactAndCap(p, entries[i].value, depth + 1)
  {
    var once := Once(p, entries, depth);
    StillReached(p, entries, i, depth);
    ReachedOutput(p, entries, i, depth);
    ReachedOutput(p, once, i, depth);
    var twice := Once(p, once, depth);
    assert once[i].value == RedactAndCap(p, entries[i].value, depth + 1);
    assert twice[i].value == RedactAndCap(p, once[i].value, depth + 1);
    assert twice[i].key == once[i].key;
    assert AgreeAt(once, twice, i) <==> once[i].value == twice[i].value;
    assert AgreeAt(once, twice, i) <==> RedactAndCap(p, once[i].value, depth + 1) == once[i].value;
    assert RedactAndCap(p, RedactAndCap(p, entries[i].value, depth + 1), depth + 1)
           == RedactAndCap(p, once[i].value, depth + 1);
  }

  lemma StillReached(p: Patterns, entries: seq<Entry>, i: nat, depth: nat)
    requires PatternsObey(p) && DistinctKeys(entries) && depth <= MAX_DEPTH
    requires i < |entries| && EntryReached(p, entries, i)
    ensures DistinctKeys(Once(p, entries, depth))
    ensures i < |Once(p, entries, depth)| && EntryReached(p, Once(p, entries, depth), i)
  {
    ObjectOutput(p, entries, depth);
    var once := Once(p, entries, depth);
    var n := KeptCount(|entries|);
    assert |once| > MAX_ITEMS ==> once[i].key != once[n].key;
  }

  lemma SecondPassMarker(p: Patterns, entries: seq<Entry>, i: nat, depth: nat)
    requires PatternsObey(p) && DistinctKeys(entries) && depth <= MAX_DEPTH
    requires |entries| > MAX_ITEMS && i < MAX_ITEMS && entries[i].key == OVERFLOW_KEY
    ensures AgreeAt(Once(p, entries, depth), Twice(p, entries, depth), i) <==> depth < MAX_DEPTH
  {
    ObjectOutput(p, entries, depth);
    var once := RedactAndCap(p, Obj(entries), depth).entries;
    ObjectOutput(p, once, depth);
    assert entries[..MAX_ITEMS][i].key == OVERFLOW_KEY;
    assert !EntryReached(p, entries, i);
    assert EntryReached(p, once, i);
    MarkerAgain(p, depth + 1);
  }

  lemma MarkerAgain(p: Patterns, depth: nat)
    requires PatternsObey(p)
    ensures RedactAndCap(p, Str(TOO_MANY_KEYS), depth) == Str(TOO_MANY_KEYS) <==> depth <= MAX_DEPTH
  {
    assert TOO_DEEP[1] != TOO_MANY_KEYS[1];
  }

  // ----- the console's own patterns ---------------------------------------------

  predicate SecretKey(key: string) {
    HasFragment(Lower(key))
  }

  /** Some position of `s` starts one of the denylisted fragments. */
  predicate HasFragment(s: string) {
    s != "" && (FragmentAtStart(s) || HasFragment(s[1..]))
  }

  predicate FragmentAtStart(s: string) {
    || "key" <= s || "token" <= s || "secret" <= s
    || "password" <= s || "passwd" <= s || "pwd" <= s
    || "authorization" <= s || "authheader" <= s || "auth-header" <= s || "auth_header" <= s
    || "credential" <= s || "pem" <= s || "bearer" <= s
  }

  /** A key is secret exactly when one of these stands anywhere in it, in any case. */
  lemma SecretKeyExactly(key: string)
    ensures SecretKey(key) <==> exists i :: 0 <= i < |key| && FragmentAtStart(Lower(key[i..]))
  {
    FragmentAnywhere(Lower(key));
    forall i | 0 <= i < |key| ensures Lower(key)[i..] == Lower(key[i..]) {}
    if exists i :: 0 <= i < |key| && FragmentAtStart(Lower(key[i..])) {
      var i :| 0 <= i < |key| && FragmentAtStart(Lower(key[i..]));
      assert FragmentAtStart(Lower(key)[i..]);
    }
  }

  lemma {:induction false} FragmentAnywhere(s: string)
    ensures HasFragment(s) <==> exists i :: 0 <= i < |s| && FragmentAtStart(s[i..])
  {
    if s != "" {
      FragmentAnywhere(s[1..]);
      if i: int :| 0 <= i < |s| && FragmentAtStart(s[i..]) {
        assert i == 0 ==> s[i..] == s;
        assert i > 0 ==> s[1..][i - 1..] == s[i..];
      }
      if FragmentAtStart(s) {
        assert s[0..] == s;
      } else if HasFragment(s[1..]) {
        var i :| 0 <= i < |s[1..]| && FragmentAtStart(s[1..][i..]);
        assert s[1..][i..] == s[i + 1..];
      }
    }
  }

  predicate IsTokenChar(c: char) {
    'a' <= c <= 'z' || 'A' <= c <= 'Z' || '0' <= c <= '9' || c == '_' || c == '-'
  }

  predicate SecretValue(s: string) {
    || StartsWith(s, "sk-")
    || StartsWith(s, "ghp_")
    || StartsWith(s, "glpat-")
    || StartsWith(s, "AKIA")
    || (StartsWith(s, "Bearer") && |s| > 6 && IsJsSpace(s[6]))
    || (StartsWith(s, "Basic") && |s| > 5 && IsJsSpace(s[5]))
    || (StartsWith(s, "eyJ") && |s| >= 13 && forall i :: 3 <= i < 13 ==> IsTokenChar(s[i]))
  }

  /** What each of the known kinds of credential begins with, whatever follows. */
  lemma KnownCredentials(rest: string, space: char)
    ensures SecretValue("sk-" + rest) && SecretValue("ghp_" + rest) && SecretValue("glpat-" + rest)
    ensures SecretValue("AKIA" + rest)
    ensures IsJsSpace(space) ==> SecretValue("Bearer" + [space] + rest) && SecretValue("Basic" + [space] + rest)
    ensures |rest| >= 10 && (forall i :: 0 <= i < 10 ==> IsTokenChar(rest[i])) ==> SecretValue("eyJ" + rest)
  {
    var bearer, basic, token := "Bearer" + [space] + rest, "Basic" + [space] + rest, "eyJ" + rest;
    assert bearer[6] == space && bearer[..6] == "Bearer" && basic[5] == space && basic[..5] == "Basic";
    assert forall i :: 3 <= i < |token| ==> token[i] == rest[i - 3];
  }

  /** A key that holds one of these names is secret, whatever stands around it. */
  lemma KnownSecretNames(a: string, name: string, b: string)
    requires Lower(name) in {"key", "token", "secret", "password", "passwd", "pwd", "authorization", "credential"}
             || Lower(name) in {"pem", "bearer", "authheader", "auth-header", "auth_header"}
    ensures SecretKey(a + name + b)
  {
    var key := a + name + b;
    var here := Lower(key[|a|..]);
    assert here[..|name|] == Lower(name);
    assert Lower(name) <= here && name != "";
    SecretKeyExactly(key);
  }

  /** Only the first thirteen characters decide. */
  lemma SecretValueIsAPrefixProperty(s: string, t: string)
    requires SameStart(s, t)
    ensures SecretValue(s) <==> SecretValue(t)
  {
    assert forall i :: 0 <= i < 13 ==> s[i] == s[..13][i] && t[i] == t[..13][i];
    forall p: string | |p| <= 13
      ensures StartsWith(s, p) <==> StartsWith(t, p)
    {
      assert s[..|p|] == s[..13][..|p|];
      assert t[..|p|] == t[..13][..|p|];
    }
  }

  const PATTERNS := Patterns((key: string) => SecretKey(key), (s: string) => SecretValue(s))

  lemma ConsolePatternsObey()
    ensures PatternsObey(PATTERNS)
  {
    PlaceholdersPass();
    forall s, t | SameStart(s, t) && PATTERNS.value(s)
      ensures PATTERNS.value(t)
    {
      SecretValueIsAPrefixProperty(s, t);
    }
  }

  lemma PlaceholdersPass()
    ensures !SecretKey(OVERFLOW_KEY)
    ensures !SecretValue(REDACTED) && !SecretValue(TOO_DEEP) && !SecretValue(TOO_MANY_KEYS)
  {
    assert Lower(OVERFLOW_KEY) == "…";
    assert REDACTED[0] == '[' && TOO_DEEP[0] == '[' && TOO_MANY_KEYS[0] == '[';
  }

  /** The promise of the module for the values it is written for. */
  lemma PlainOutputIsSafe(p: Patterns, v: Json)
    requires PatternsObey(p) && DistinctThroughout(v) && NoExotics(v)
    ensures Safe(p, RedactAndCap(p, v, 0), 6)
  {
    NothingToHarm(p, v, 0);
    OutputIsSafe(p, v, 0, 6);
  }

  /** What the console attaches and logs for a JSON value is bounded and holds no
      credential by the console's own two patterns. */
  lemma ConsoleOutputIsSafe(v: Json)
    requires DistinctThroughout(v) && NoExotics(v)
    ensures Safe(PATTERNS, RedactAndCap(PATTERNS, v, 0), 6)
  {
    ConsolePatternsObey();
    PlainOutputIsSafe(PATTERNS, v);
  }

  /** A function whose source begins like a credential passes through as it is, here the
      source of an arrow function; a symbol does not, its text begins with its type. */
  lemma ExoticTextIsNotRedacted()
    ensures !Safe(PATTERNS, RedactAndCap(PATTERNS, Exotic("AKIA => AKIA"), 0), 6)
    ensures Safe(PATTERNS, RedactAndCap(PATTERNS, Exotic("Symbol(AKIA)"), 0), 6)
  {
    assert SecretValue("AKIA => AKIA");
    assert "Symbol(AKIA)"[0] == 'S';
  }
}
