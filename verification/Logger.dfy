/** The structured logger of src/lib/logger.ts: context normalisation, the merge of
    inherited and call-site contexts, and the record that is written. A context is an
    object, kept as its entries in `Object.entries` order. */
module Logger {
  import opened Redact
  import opened Text

  type Context = seq<Entry>

  /** An error becomes a plain object; a nested cause does too. An absent stack is the
      empty string and an absent cause `Undefined`. */
  function SerializeError(e: Json): Json
    requires e.Err?
    decreases e
  {
    Obj([Entry("message", Str(e.message)), Entry("name", Str(e.name))]
        + (if e.stack != "" then [Entry("stack", Str(e.stack))] else [])
        + (match e.cause
           case Undefined => []
           case Err(_, _, _, _) => [Entry("cause", SerializeError(e.cause))]
           case _ => [Entry("cause", e.cause)]))
  }

  function Serialized(v: Json): Json {
    if v.Err? then SerializeError(v) else v
  }

  /** The error at a depth of the chain of causes. */
  function CauseAt(e: Json, k: nat): Json {
    if k == 0 || !e.Err? then e else CauseAt(e.cause, k - 1)
  }

  /** The object under as many `cause` keys of what is logged. */
  function LoggedAt(v: Json, k: nat): Json
    decreases k
  {
    if k == 0 || !v.Obj? then v else LoggedAt(Lookup(v.entries, "cause"), k - 1)
  }

  /** An error is logged in full: at every depth of its chain of causes stand the message,
      the name, the stack if there is one, and a cause that is no error as it is. */
  lemma {:induction false} ErrorsAreLoggedInFull(e: Json, k: nat)
    requires e.Err? && CauseAt(e, k).Err?
    ensures var logged, err := LoggedAt(SerializeError(e), k), CauseAt(e, k);
            && logged.Obj?
            && Lookup(logged.entries, "message") == Str(err.message)
            && Lookup(logged.entries, "name") == Str(err.name)
            && Lookup(logged.entries, "stack") == (if err.stack == "" then Undefined else Str(err.stack))
            && (!err.cause.Err? ==> Lookup(logged.entries, "cause") == err.cause)
    decreases k
  {
    OneErrorIsLogged(e);
    if k > 0 {
      OnlyErrorsHaveCauses(e.cause, k - 1);
      ErrorsAreLoggedInFull(e.cause, k - 1);
    }
  }

  lemma OnlyErrorsHaveCauses(e: Json, k: nat)
    ensures CauseAt(e, k).Err? ==> e.Err?
  {
  }

  lemma OneErrorIsLogged(e: Json)
    requires e.Err?
    ensures var entries := SerializeError(e).entries;
            && Lookup(entries, "message") == Str(e.message)
            && Lookup(entries, "name") == Str(e.name)
            && Lookup(entries, "stack") == (if e.stack == "" then Undefined else Str(e.stack))
            && Lookup(entries, "cause") == Serialized(e.cause)
  {
    var entries := SerializeError(e).entries;
    FieldNames();
    forall key ensures LooksThrough(entries, key) {
      LookupFew(entries, key);
    }
    assert LooksThrough(entries, "message") && LooksThrough(entries, "name");
    assert LooksThrough(entries, "stack") && LooksThrough(entries, "cause");
  }

  lemma FieldNames()
    ensures "message" != "name" && "message" != "stack" && "message" != "cause"
    ensures "name" != "stack" && "name" != "cause" && "stack" != "cause"
    ensures "level" != "scope" && "level" != "msg" && "level" != "time" && "level" != "reqId"
    ensures "scope" != "msg" && "scope" != "time" && "scope" != "reqId"
    ensures "msg" != "time" && "msg" != "reqId" && "time" != "reqId"
  {
    assert "message"[0] == 'm' && "name"[0] == 'n' && "stack"[0] == 's' && "cause"[0] == 'c';
    assert "level"[0] == 'l' && "scope"[0] == 's' && "msg"[0] == 'm' && "time"[0] == 't' && "reqId"[0] == 'r';
  }

  /** A look through at most five entries. */
  predicate LooksThrough(ctx: Context, key: string) {
    Lookup(ctx, key)
    == if |ctx| > 0 && ctx[0].key == key then ctx[0].value
       else if |ctx| > 1 && ctx[1].key == key then ctx[1].value
       else if |ctx| > 2 && ctx[2].key == key then ctx[2].value
       else if |ctx| > 3 && ctx[3].key == key then ctx[3].value
       else if |ctx| > 4 && ctx[4].key == key then ctx[4].value
       else Undefined
  }

  lemma LookupFew(ctx: Context, key: string)
    requires |ctx| <= 5
    ensures LooksThrough(ctx, key)
  {
    if |ctx| > 0 { LookupFrom(ctx, 0, key); }
    if |ctx| > 1 { LookupFrom(ctx, 1, key); }
    if |ctx| > 2 { LookupFrom(ctx, 2, key); }
    if |ctx| > 3 { LookupFrom(ctx, 3, key); }
    if |ctx| > 4 { LookupFrom(ctx, 4, key); }
    assert ctx[0..] == ctx;
  }

  lemma LookupFrom(ctx: Context, k: nat, key: string)
    requires k < |ctx|
    ensures Lookup(ctx[k..], key) == if ctx[k].key == key then ctx[k].value else Lookup(ctx[k + 1..], key)
  {
    assert ctx[k..][0] == ctx[k] && ctx[k..][1..] == ctx[k + 1..];
  }

  function NormalizeEntry(p: Patterns, e: Entry): Entry {
    Entry(e.key, if p.key(e.key) then Str(REDACTED) else RedactAndCap(p, Serialized(e.value), 0))
  }

  function Normalize(p: Patterns, ctx: Context): (r: Context)
    ensures |r| == |ctx|
  {
    seq(|ctx|, i requires 0 <= i < |ctx| => NormalizeEntry(p, ctx[i]))
  }

  /** The loop of `normalizeCtx`. */
  method NormalizeCtx(p: Patterns, ctx: Context) returns (out: Context)
    requires DistinctKeys(ctx)
    requires forall e :: e in ctx ==> DistinctThroughout(Serialized(e.value))
    ensures out == Normalize(p, ctx)
  {
    out := [];
    for i := 0 to |ctx|
      invariant |out| == i
      invariant forall j :: 0 <= j < i ==> out[j] == NormalizeEntry(p, ctx[j])
    {
      var key := ctx[i].key;
      assert ctx[i] in ctx;
      assert !HasKey(out, key);
      if p.key(key) {
        out := Put(out, key, Str(REDACTED));
      } else {
        var redacted := RedactValue(p, Serialized(ctx[i].value), 0);
        out := Put(out, key, redacted);
      }
    }
  }

  /** `{ ...a, ...b }`: entries of `b` replace in place or go to the end. */
  function Merge(a: Context, b: Context): Context
    decreases |b|
  {
    if |b| == 0 then a else Merge(Put(a, b[0].key, b[0].value), b[1..])
  }

  // ----- merging and normalising commute ---------------------------------------

  lemma {:induction false} NormalizePut(p: Patterns, ctx: Context, e: Entry)
    ensures Normalize(p, Put(ctx, e.key, e.value)) == Put(Normalize(p, ctx), e.key, NormalizeEntry(p, e).value)
  {
    var value := NormalizeEntry(p, e).value;
    if |ctx| == 0 {
      assert Normalize(p, [e]) == [NormalizeEntry(p, e)];
    } else {
      var head, tail := NormalizeEntry(p, ctx[0]), Normalize(p, ctx[1..]);
      assert ctx == [ctx[0]] + ctx[1..];
      NormalizeCons(p, ctx[0], ctx[1..]);
      PutCons(ctx[0], ctx[1..], e.key, e.value);
      PutCons(head, tail, e.key, value);
      if ctx[0].key == e.key {
        NormalizeCons(p, e, ctx[1..]);
      } else {
        NormalizePut(p, ctx[1..], e);
        NormalizeCons(p, ctx[0], Put(ctx[1..], e.key, e.value));
      }
    }
  }

  lemma NormalizeCons(p: Patterns, e: Entry, rest: Context)
    ensures Normalize(p, [e] + rest) == [NormalizeEntry(p, e)] + Normalize(p, rest)
  {
  }

  lemma PutCons(head: Entry, tail: Context, key: string, value: Json)
    ensures Put([head] + tail, key, value) ==
              if head.key == key then [Entry(key, value)] + tail else [head] + Put(tail, key, value)
  {
    assert ([head] + tail)[1..] == tail;
  }

  /** Normalising a merged context is merging the normalised contexts, order and
      overrides included. */
  lemma {:induction false} NormalizeCommutesWithMerge(p: Patterns, a: Context, b: Context)
    ensures Normalize(p, Merge(a, b)) == Merge(Normalize(p, a), Normalize(p, b))
    decreases |b|
  {
    var n := Normalize(p, b);
    if |b| > 0 {
      NormalizePut(p, a, b[0]);
      NormalizeCommutesWithMerge(p, Put(a, b[0].key, b[0].value), b[1..]);
      assert n[1..] == Normalize(p, b[1..]);
      assert n[0] == NormalizeEntry(p, b[0]);
    } else {
      assert n == [];
    }
  }

  // ----- loggers ---------------------------------------------------------------

  /** What `makeLogger` closes over. */
  datatype Logger = Logger(scope: string, baseCtx: Context)

  function Child(logger: Logger, scope: string, ctx: Context): Logger {
    Logger(logger.scope + ":" + scope, Merge(logger.baseCtx, ctx))
  }

  /** A chain of `child` calls, oldest first. */
  datatype ChildCall = ChildCall(scope: string, ctx: Context)

  function Descend(logger: Logger, calls: seq<ChildCall>): Logger
    decreases |calls|
  {
    if |calls| == 0 then logger
    else Descend(Child(logger, calls[0].scope, calls[0].ctx), calls[1..])
  }

  function Scopes(logger: Logger, calls: seq<ChildCall>): seq<string> {
    [logger.scope] + seq(|calls|, i requires 0 <= i < |calls| => calls[i].scope)
  }

  /** A child of a child logs under all their scopes, outermost first. */
  lemma {:induction false} ScopesAreJoined(logger: Logger, calls: seq<ChildCall>)
    ensures Descend(logger, calls).scope == Join(Scopes(logger, calls), ":")
    decreases |calls|
  {
    if |calls| > 0 {
      var next := Child(logger, calls[0].scope, calls[0].ctx);
      var scopes, rest := Scopes(logger, calls), Scopes(next, calls[1..]);
      ScopesAreJoined(next, calls[1..]);
      assert scopes[1..][1..] == rest[1..] && scopes[1..][0] == calls[0].scope && rest[0] == next.scope;
      JoinFirstTwo(scopes, rest, ":");
    }
  }

  /** The first two parts may be joined beforehand. */
  lemma JoinFirstTwo(parts: seq<string>, fewer: seq<string>, sep: string)
    requires |parts| == |fewer| + 1 && |fewer| > 0
    requires fewer[0] == parts[0] + sep + parts[1] && fewer[1..] == parts[1..][1..]
    ensures Join(parts, sep) == Join(fewer, sep)
  {
    if |fewer| > 1 {
      var more := Join(fewer[1..], sep);
      assert Join(parts[1..], sep) == parts[1] + sep + more;
      assert parts[0] + sep + (parts[1] + sep + more) == parts[0] + sep + parts[1] + sep + more;
    }
  }

  /** The merged context of one log line. */
  function LineContext(p: Patterns, logger: Logger, ctx: Context): Context {
    Merge(Normalize(p, logger.baseCtx), Normalize(p, ctx))
  }

  /** The fields every line has of its own. */
  function Fields(level: string, scope: string, msg: string, time: string, reqId: string): Context {
    [Entry("level", Str(level)), Entry("scope", Str(scope)), Entry("msg", Str(msg)), Entry("time", Str(time))]
    + if reqId != "" then [Entry("reqId", Str(reqId))] else []
  }

  /** The JSON record of one log line; `time` and `reqId` come from outside. */
  function LineRecord(p: Patterns, logger: Logger, level: string, msg: string, time: string, reqId: string,
                      ctx: Context): Context {
    Merge(Fields(level, logger.scope, msg, time, reqId), LineContext(p, logger, ctx))
  }

  /** Redaction may be done once at the end or on every inherited context as it comes
      in: the line context of a descendant is the merge of all normalised contexts. */
  function MergeNormalized(p: Patterns, base: Context, calls: seq<ChildCall>): Context
    decreases |calls|
  {
    if |calls| == 0 then base
    else MergeNormalized(p, Merge(base, Normalize(p, calls[0].ctx)), calls[1..])
  }

  lemma {:induction false} InheritedContextsAreNormalized(
    p: Patterns, logger: Logger, calls: seq<ChildCall>, ctx: Context)
    ensures LineContext(p, Descend(logger, calls), ctx)
            == Merge(MergeNormalized(p, Normalize(p, logger.baseCtx), calls), Normalize(p, ctx))
    decreases |calls|
  {
    if |calls| > 0 {
      var next := Child(logger, calls[0].scope, calls[0].ctx);
      InheritedContextsAreNormalized(p, next, calls[1..], ctx);
      NormalizeCommutesWithMerge(p, logger.baseCtx, calls[0].ctx);
    }
  }

  // ----- non-interference ------------------------------------------------------

  ghost predicate EntryLooksSame(p: Patterns, x: Entry, y: Entry) {
    x.key == y.key && (p.key(x.key) || SameButSecrets(p, Serialized(x.value), Serialized(y.value)))
  }

  /** Two contexts an observer without the secrets cannot tell apart. */
  ghost predicate LooksSame(p: Patterns, a: Context, b: Context) {
    |a| == |b| && forall i :: 0 <= i < |a| ==> EntryLooksSame(p, a[i], b[i])
  }

  lemma {:induction false} PutLooksSame(p: Patterns, a: Context, b: Context, x: Entry, y: Entry)
    requires LooksSame(p, a, b) && EntryLooksSame(p, x, y)
    ensures LooksSame(p, Put(a, x.key, x.value), Put(b, y.key, y.value))
  {
    if |a| > 0 {
      assert EntryLooksSame(p, a[0], b[0]);
      if a[0].key != x.key {
        forall i | 0 <= i < |a[1..]| ensures EntryLooksSame(p, a[1..][i], b[1..][i]) {
          assert EntryLooksSame(p, a[i + 1], b[i + 1]);
        }
        PutLooksSame(p, a[1..], b[1..], x, y);
      }
    }
  }

  lemma {:induction false} MergeLooksSame(p: Patterns, a: Context, b: Context, x: Context, y: Context)
    requires LooksSame(p, a, b) && LooksSame(p, x, y)
    ensures LooksSame(p, Merge(a, x), Merge(b, y))
    decreases |x|
  {
    if |x| > 0 {
      assert EntryLooksSame(p, x[0], y[0]);
      PutLooksSame(p, a, b, x[0], y[0]);
      forall i | 0 <= i < |x[1..]| ensures EntryLooksSame(p, x[1..][i], y[1..][i]) {
        assert EntryLooksSame(p, x[i + 1], y[i + 1]);
      }
      MergeLooksSame(p, Put(a, x[0].key, x[0].value), Put(b, y[0].key, y[0].value), x[1..], y[1..]);
    }
  }

  lemma NormalizeHidesTheDifference(p: Patterns, a: Context, b: Context)
    requires LooksSame(p, a, b)
    ensures Normalize(p, a) == Normalize(p, b)
  {
    forall i | 0 <= i < |a| ensures NormalizeEntry(p, a[i]) == NormalizeEntry(p, b[i]) {
      assert EntryLooksSame(p, a[i], b[i]);
      if !p.key(a[i].key) {
        NonInterference(p, Serialized(a[i].value), Serialized(b[i].value), 0);
      }
    }
  }

  ghost predicate CallsLookSame(p: Patterns, xs: seq<ChildCall>, ys: seq<ChildCall>) {
    |xs| == |ys| && forall i :: 0 <= i < |xs| ==> xs[i].scope == ys[i].scope && LooksSame(p, xs[i].ctx, ys[i].ctx)
  }

  lemma {:induction false} DescendLooksSame(p: Patterns, a: Logger, b: Logger, xs: seq<ChildCall>, ys: seq<ChildCall>)
    requires a.scope == b.scope && LooksSame(p, a.baseCtx, b.baseCtx) && CallsLookSame(p, xs, ys)
    ensures Descend(a, xs).scope == Descend(b, ys).scope
    ensures LooksSame(p, Descend(a, xs).baseCtx, Descend(b, ys).baseCtx)
    decreases |xs|
  {
    if |xs| > 0 {
      MergeLooksSame(p, a.baseCtx, b.baseCtx, xs[0].ctx, ys[0].ctx);
      DescendLooksSame(p, Child(a, xs[0].scope, xs[0].ctx), Child(b, ys[0].scope, ys[0].ctx), xs[1..], ys[1..]);
    }
  }

  /** Whatever chain of child loggers a secret was passed to, and whether it was passed
      at creation or at the call, the written record does not depend on it. */
  lemma LoggedRecordsDoNotDependOnSecrets(
      p: Patterns, a: Logger, b: Logger, xs: seq<ChildCall>, ys: seq<ChildCall>,
      level: string, msg: string, time: string, reqId: string, x: Context, y: Context)
    requires a.scope == b.scope && LooksSame(p, a.baseCtx, b.baseCtx)
    requires CallsLookSame(p, xs, ys) && LooksSame(p, x, y)
    ensures LineRecord(p, Descend(a, xs), level, msg, time, reqId, x)
            == LineRecord(p, Descend(b, ys), level, msg, time, reqId, y)
  {
    DescendLooksSame(p, a, b, xs, ys);
    NormalizeHidesTheDifference(p, Descend(a, xs).baseCtx, Descend(b, ys).baseCtx);
    NormalizeHidesTheDifference(p, x, y);
  }

  // ----- precedence and safety -------------------------------------------------

  function Lookup(ctx: Context, key: string): Json {
    if |ctx| == 0 then Undefined
    else if ctx[0].key == key then ctx[0].value
    else Lookup(ctx[1..], key)
  }

  lemma {:induction false} LookupPut(ctx: Context, key: string, value: Json, other: string)
    ensures Lookup(Put(ctx, key, value), other) == if other == key then value else Lookup(ctx, other)
    ensures HasKey(Put(ctx, key, value), other) <==> other == key || HasKey(ctx, other)
  {
    var r := Put(ctx, key, value);
    HasKeyStep(r, other);
    HasKeyStep(ctx, other);
    if |ctx| == 0 {
      assert r[1..] == [];
      HasKeyStep(r[1..], other);
    } else if ctx[0].key == key {
      assert r[1..] == ctx[1..];
    } else {
      assert r[1..] == Put(ctx[1..], key, value);
      LookupPut(ctx[1..], key, value, other);
    }
  }

  lemma HasKeyStep(ctx: Context, key: string)
    ensures HasKey(ctx, key) <==> |ctx| > 0 && (ctx[0].key == key || HasKey(ctx[1..], key))
  {
    if HasKey(ctx, key) {
      var i :| 0 <= i < |ctx| && ctx[i].key == key;
      if i > 0 { assert ctx[1..][i - 1].key == key; }
    }
    if |ctx| > 0 && HasKey(ctx[1..], key) {
      var i :| 0 <= i < |ctx[1..]| && ctx[1..][i].key == key;
      assert ctx[i + 1].key == key;
    }
  }

  /** The later context wins, key by key, and no key is lost. */
  lemma {:induction false} LaterContextWins(a: Context, b: Context, key: string)
    requires DistinctKeys(b)
    ensures HasKey(Merge(a, b), key) <==> HasKey(a, key) || HasKey(b, key)
    ensures Lookup(Merge(a, b), key) == if HasKey(b, key) then Lookup(b, key) else Lookup(a, key)
    decreases |b|
  {
    HasKeyStep(b, key);
    if |b| > 0 {
      LaterContextWins(Put(a, b[0].key, b[0].value), b[1..], key);
      LookupPut(a, b[0].key, b[0].value, key);
      if HasKey(b[1..], key) {
        var i :| 0 <= i < |b[1..]| && b[1..][i].key == key;
        assert b[i + 1].key == key && b[0].key != b[i + 1].key;
      }
    }
  }

  lemma {:induction false} PutKeepsDistinct(ctx: Context, key: string, value: Json)
    requires DistinctKeys(ctx)
    ensures DistinctKeys(Put(ctx, key, value))
  {
    if HasKey(ctx, key) { PutInPlace(ctx, key, value); }
  }

  lemma {:induction false} MergeKeepsDistinct(a: Context, b: Context)
    requires DistinctKeys(a)
    ensures DistinctKeys(Merge(a, b))
    decreases |b|
  {
    if |b| > 0 {
      PutKeepsDistinct(a, b[0].key, b[0].value);
      MergeKeepsDistinct(Put(a, b[0].key, b[0].value), b[1..]);
    }
  }

  lemma {:induction false} LookupNormalized(p: Patterns, ctx: Context, key: string)
    ensures HasKey(Normalize(p, ctx), key) <==> HasKey(ctx, key)
    ensures HasKey(ctx, key) ==>
              Lookup(Normalize(p, ctx), key)
              == if p.key(key) then Str("[redacted]") else RedactAndCap(p, Serialized(Lookup(ctx, key)), 0)
  {
    HasKeyStep(ctx, key);
    HasKeyStep(Normalize(p, ctx), key);
    if |ctx| > 0 {
      LookupNormalized(p, ctx[1..], key);
      assert ctx == [ctx[0]] + ctx[1..];
      NormalizeCons(p, ctx[0], ctx[1..]);
      assert Normalize(p, ctx)[1..] == Normalize(p, ctx[1..]);
    }
  }

  /** What a reader of the log finds under a key: the value given at the call, else the one
      inherited, both redacted, else the line's own field. */
  lemma RecordReads(p: Patterns, logger: Logger, level: string, msg: string, time: string, reqId: string,
                    ctx: Context, key: string)
    requires DistinctKeys(logger.baseCtx) && DistinctKeys(ctx)
    ensures var shown := Lookup(LineRecord(p, logger, level, msg, time, reqId, ctx), key);
            if HasKey(ctx, key) || HasKey(logger.baseCtx, key) then
              var given := Lookup(if HasKey(ctx, key) then ctx else logger.baseCtx, key);
              shown == if p.key(key) then Str("[redacted]") else RedactAndCap(p, Serialized(given), 0)
            else
              && (key == "level" ==> shown == Str(level)) && (key == "scope" ==> shown == Str(logger.scope))
              && (key == "msg" ==> shown == Str(msg)) && (key == "time" ==> shown == Str(time))
              && (key == "reqId" ==> shown == if reqId == "" then Undefined else Str(reqId))
  {
    var base, own := Normalize(p, logger.baseCtx), Normalize(p, ctx);
    LookupNormalized(p, logger.baseCtx, key);
    LookupNormalized(p, ctx, key);
    NormalizeKeepsDistinct(p, logger.baseCtx);
    NormalizeKeepsDistinct(p, ctx);
    MergeKeepsDistinct(base, own);
    LaterContextWins(base, own, key);
    FieldsRead(level, logger.scope, msg, time, reqId, key);
    LaterContextWins(Fields(level, logger.scope, msg, time, reqId), LineContext(p, logger, ctx), key);
  }

  lemma NormalizeKeepsDistinct(p: Patterns, ctx: Context)
    requires DistinctKeys(ctx)
    ensures DistinctKeys(Normalize(p, ctx))
  {
  }

  lemma FieldsRead(level: string, scope: string, msg: string, time: string, reqId: string, key: string)
    ensures var shown := Lookup(Fields(level, scope, msg, time, reqId), key);
            && (key == "level" ==> shown == Str(level)) && (key == "scope" ==> shown == Str(scope))
            && (key == "msg" ==> shown == Str(msg)) && (key == "time" ==> shown == Str(time))
            && (key == "reqId" ==> shown == if reqId == "" then Undefined else Str(reqId))
  {
    var fields := Fields(level, scope, msg, time, reqId);
    FieldNames();
    LookupFew(fields, key);
  }

  /** Every entry of a normalised context is safe: a placeholder under a secret-named
      key, a bounded and credential-free value elsewhere. */
  lemma NormalizedContextIsSafe(p: Patterns, ctx: Context, i: nat)
    requires PatternsObey(p) && i < |ctx|
    requires DistinctThroughout(Serialized(ctx[i].value)) && NoExotics(Serialized(ctx[i].value))
    ensures SafeEntry(p, Normalize(p, ctx)[i], 6)
  {
    PlaceholdersAreSafe(p);
    if !p.key(ctx[i].key) {
      PlainOutputIsSafe(p, Serialized(ctx[i].value));
    }
  }
}
