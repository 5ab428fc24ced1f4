/** What the error bridge remembers between events, src/lib/error-bridge.ts: the dedupe
    window, the last restart counts and the base name of a pod. Each is proved against
    the history of what happened. */
module ErrorBridge {
  import opened Text

  // ----- the dedupe window, 60 s unless told otherwise ------------------------------

  datatype Op = Call(key: string, at: int) | Sweep(at: int)

  /** An accepted call. */
  datatype Accepted = Accepted(key: string, at: int)

  /** What the class keeps: per key, when a call was last accepted. */
  type Seen = map<string, int>

  predicate Suppress(seen: Seen, key: string, now: int, window: int) {
    key in seen && now - seen[key] < window
  }

  function AfterCall(seen: Seen, key: string, now: int, window: int): Seen {
    if Suppress(seen, key, now, window) then seen else seen[key := now]
  }

  function Swept(seen: Seen, now: int, window: int): Seen {
    map k | k in seen && now - seen[k] < window :: seen[k]
  }

  class DedupeWindow {
    const windowMs: int
    var lastSeen: Seen

    constructor (windowMs: int)
      ensures lastSeen == map[] && this.windowMs == windowMs
    {
      this.windowMs := windowMs;
      lastSeen := map[];
    }

    method ShouldSuppress(key: string, now: int) returns (suppress: bool)
      modifies this
      ensures suppress == Suppress(old(lastSeen), key, now, windowMs)
      ensures lastSeen == AfterCall(old(lastSeen), key, now, windowMs)
    {
      suppress := key in lastSeen && now - lastSeen[key] < windowMs;
      if !suppress { lastSeen := lastSeen[key := now]; }
    }

    /** Deletes while it goes through the entries. */
    method Sweep(now: int)
      modifies this
      ensures lastSeen == Swept(old(lastSeen), now, windowMs)
    {
      var todo := lastSeen.Keys;
      while todo != {}
        invariant todo <= old(lastSeen).Keys && todo <= lastSeen.Keys
        invariant forall k :: k in lastSeen ==> k in old(lastSeen) && lastSeen[k] == old(lastSeen)[k]
        invariant forall k :: k in old(lastSeen) && k !in todo ==>
                    (k in lastSeen <==> now - old(lastSeen)[k] < windowMs)
        decreases todo
      {
        var key :| key in todo;
        if now - lastSeen[key] >= windowMs { lastSeen := lastSeen - {key}; }
        todo := todo - {key};
      }
    }
  }

  /** An accepted call with this key lies less than a window back. */
  ghost predicate Recent(history: seq<Accepted>, key: string, now: int, window: int) {
    exists i :: 0 <= i < |history| && history[i].key == key && now - history[i].at < window
  }

  /** The answers of a window that is called and swept. */
  function Answers(seen: Seen, ops: seq<Op>, window: int): seq<bool>
    decreases |ops|
  {
    if |ops| == 0 then []
    else match ops[0]
      case Call(key, now) =>
        [Suppress(seen, key, now, window)] + Answers(AfterCall(seen, key, now, window), ops[1..], window)
      case Sweep(now) => Answers(Swept(seen, now, window), ops[1..], window)
  }

  /** The specification: the accepted calls are all it looks at, and a sweep is nothing. */
  ghost function HistoryAnswers(history: seq<Accepted>, ops: seq<Op>, window: int): seq<bool>
    decreases |ops|
  {
    if |ops| == 0 then []
    else match ops[0]
      case Call(key, now) =>
        var suppress := Recent(history, key, now, window);
        [suppress] + HistoryAnswers(if suppress then history else history + [Accepted(key, now)], ops[1..], window)
      case Sweep(_) => HistoryAnswers(history, ops[1..], window)
  }

  ghost function Log(history: seq<Accepted>, ops: seq<Op>, window: int): seq<Accepted>
    decreases |ops|
  {
    if |ops| == 0 then history
    else match ops[0]
      case Call(key, now) =>
        Log(if Recent(history, key, now, window) then history else history + [Accepted(key, now)], ops[1..], window)
      case Sweep(_) => Log(history, ops[1..], window)
  }

  ghost predicate Monotone(now: int, ops: seq<Op>)
    decreases |ops|
  {
    |ops| > 0 ==> now <= ops[0].at && Monotone(ops[0].at, ops[1..])
  }

  /** The map holds, of the accepted calls, the latest per key, and forgets only those a
      window back. */
  ghost predicate Tracks(seen: Seen, history: seq<Accepted>, now: int, window: int) {
    && (forall i :: 0 <= i < |history| ==> history[i].at <= now)
    && (forall k :: k in seen ==> Accepted(k, seen[k]) in history)
    && (forall i :: 0 <= i < |history| ==>
          if history[i].key in seen then seen[history[i].key] >= history[i].at
          else now - history[i].at >= window)
  }

  lemma TracksDecides(seen: Seen, history: seq<Accepted>, now: int, window: int, key: string, at: int)
    requires Tracks(seen, history, now, window) && now <= at
    ensures Suppress(seen, key, at, window) <==> Recent(history, key, at, window)
  {
    if Suppress(seen, key, at, window) {
      var i :| 0 <= i < |history| && history[i] == Accepted(key, seen[key]);
    }
  }

  lemma CallKeepsTracking(seen: Seen, history: seq<Accepted>, now: int, window: int, key: string, at: int)
    requires Tracks(seen, history, now, window) && now <= at
    ensures Tracks(AfterCall(seen, key, at, window),
                   if Recent(history, key, at, window) then history else history + [Accepted(key, at)], at, window)
  {
    TracksDecides(seen, history, now, window, key, at);
    if !Suppress(seen, key, at, window) {
      assert (history + [Accepted(key, at)])[|history|] == Accepted(key, at);
    }
  }

  /** Under a monotone clock a call is suppressed exactly when an accepted call with its
      key lies less than one window back, wherever sweeps fall. */
  lemma {:induction false} WindowIsItsHistory(seen: Seen, history: seq<Accepted>, now: int, ops: seq<Op>, window: int)
    requires Tracks(seen, history, now, window) && Monotone(now, ops)
    ensures Answers(seen, ops, window) == HistoryAnswers(history, ops, window)
    decreases |ops|
  {
    if |ops| > 0 {
      match ops[0]
      case Call(key, at) =>
        TracksDecides(seen, history, now, window, key, at);
        CallKeepsTracking(seen, history, now, window, key, at);
        WindowIsItsHistory(AfterCall(seen, key, at, window),
          if Recent(history, key, at, window) then history else history + [Accepted(key, at)], at, ops[1..], window);
      case Sweep(at) =>
        assert Tracks(Swept(seen, at, window), history, at, window);
        WindowIsItsHistory(Swept(seen, at, window), history, at, ops[1..], window);
    }
  }

  function Calls(ops: seq<Op>): seq<Op> {
    if |ops| == 0 then [] else (if ops[0].Call? then [ops[0]] else []) + Calls(ops[1..])
  }

  lemma {:induction false} SweepsAreNothing(history: seq<Accepted>, now: int, ops: seq<Op>, window: int)
    requires Monotone(now, ops)
    ensures HistoryAnswers(history, Calls(ops), window) == HistoryAnswers(history, ops, window)
    ensures Monotone(now, Calls(ops))
    decreases |ops|
  {
    if |ops| > 0 {
      match ops[0]
      case Call(key, at) =>
        var next := if Recent(history, key, at, window) then history else history + [Accepted(key, at)];
        assert ([ops[0]] + Calls(ops[1..]))[1..] == Calls(ops[1..]);
        SweepsAreNothing(next, at, ops[1..], window);
      case Sweep(at) =>
        SweepsAreNothing(history, at, ops[1..], window);
        assert [] + Calls(ops[1..]) == Calls(ops[1..]);
        MonotoneFromEarlier(now, at, Calls(ops[1..]));
    }
  }

  lemma MonotoneFromEarlier(now: int, later: int, ops: seq<Op>)
    requires now <= later && Monotone(later, ops)
    ensures Monotone(now, ops)
  {
  }

  /** Sweeping whenever one likes changes no answer. */
  lemma SweepingChangesNoAnswer(now: int, ops: seq<Op>, window: int)
    requires Monotone(now, ops)
    ensures Answers(map[], ops, window) == Answers(map[], Calls(ops), window)
  {
    SweepsAreNothing([], now, ops, window);
    WindowIsItsHistory(map[], [], now, ops, window);
    WindowIsItsHistory(map[], [], now, Calls(ops), window);
  }

  /** Accepted calls with one key are a window apart. */
  ghost predicate Spaced(history: seq<Accepted>, window: int) {
    forall i, j :: 0 <= i < j < |history| && history[i].key == history[j].key ==>
      history[j].at - history[i].at >= window
  }

  lemma {:induction false} AcceptedCallsAreSpaced(history: seq<Accepted>, ops: seq<Op>, window: int)
    requires Spaced(history, window)
    ensures Spaced(Log(history, ops, window), window)
    decreases |ops|
  {
    if |ops| > 0 {
      if ops[0].Call? && !Recent(history, ops[0].key, ops[0].at, window) {
        var more := history + [Accepted(ops[0].key, ops[0].at)];
        assert Spaced(more, window);
        AcceptedCallsAreSpaced(more, ops[1..], window);
      } else {
        AcceptedCallsAreSpaced(history, ops[1..], window);
      }
    }
  }

  /** After a sweep the map holds exactly the keys accepted within the window. */
  lemma SweptHoldsTheRecent(seen: Seen, history: seq<Accepted>, now: int, at: int, window: int, key: string)
    requires Tracks(seen, history, now, window) && now <= at
    ensures key in Swept(seen, at, window) <==> Recent(history, key, at, window)
    ensures Tracks(Swept(seen, at, window), history, at, window)
  {
    TracksDecides(seen, history, now, window, key, at);
  }

  // ----- restart counts -------------------------------------------------------------

  /** One container as a poll sees it. */
  datatype Observed = Observed(key: string, restarts: nat)

  /** The restart-count step of `pollNamespaceOnce` over the containers of its polls: the
      positions of those reported. */
  method ReportRestarts(counts: map<string, nat>, seen: seq<Observed>)
    returns (now: map<string, nat>, reported: seq<nat>)
    ensures forall i: nat :: i in reported <==> i < |seen| && Grew(counts, seen, i)
    ensures forall i, j :: 0 <= i < j < |reported| ==> reported[i] < reported[j]
    ensures now == Latest(counts, seen)
  {
    now, reported := counts, [];
    var i := 0;
    while i < |seen|
      invariant 0 <= i <= |seen| && now == Latest(counts, seen[..i])
      invariant forall k: nat :: k in reported <==> k < i && Grew(counts, seen, k)
      invariant forall k, l :: 0 <= k < l < |reported| ==> reported[k] < reported[l]
      invariant forall k :: 0 <= k < |reported| ==> reported[k] < i
    {
      var o := seen[i];
      assert seen[..i + 1][..i] == seen[..i];
      if o.key in now && o.restarts > now[o.key] { reported := reported + [i]; }
      now := now[o.key := o.restarts];
      i := i + 1;
    }
    assert seen[..i] == seen;
  }

  function Latest(counts: map<string, nat>, seen: seq<Observed>): map<string, nat> {
    if |seen| == 0 then counts
    else Latest(counts, seen[..|seen| - 1])[seen[|seen| - 1].key := seen[|seen| - 1].restarts]
  }

  /** The count is above the one last known of the container; there must have been one. */
  predicate Grew(counts: map<string, nat>, seen: seq<Observed>, i: nat)
    requires i < |seen|
  {
    var before := Latest(counts, seen[..i]);
    seen[i].key in before && seen[i].restarts > before[seen[i].key]
  }

  /** The last known count is that of the latest observation, or the one started with. */
  lemma {:induction false} LatestIsTheLast(counts: map<string, nat>, seen: seq<Observed>, i: nat)
    requires i < |seen| && forall j :: i < j < |seen| ==> seen[j].key != seen[i].key
    ensures seen[i].key in Latest(counts, seen) && Latest(counts, seen)[seen[i].key] == seen[i].restarts
  {
    if i < |seen| - 1 {
      var shorter := seen[..|seen| - 1];
      assert forall j :: 0 <= j < |shorter| ==> shorter[j] == seen[j];
      LatestIsTheLast(counts, shorter, i);
    }
  }

  /** So, polls of other containers between, a restart is reported exactly when a
      container's count is above the one it had when it was last seen. */
  lemma ReportedExactlyOnGrowth(seen: seq<Observed>, j: nat, i: nat)
    requires j < i < |seen| && seen[j].key == seen[i].key
    requires forall k :: j < k < i ==> seen[k].key != seen[i].key
    ensures Grew(map[], seen, i) <==> seen[i].restarts > seen[j].restarts
  {
    LatestIsTheLast(map[], seen[..i], j);
  }

  /** A container seen for the first time is never reported. */
  lemma {:induction false} FirstSightIsSilent(seen: seq<Observed>, i: nat, key: string)
    requires i <= |seen| && forall k :: 0 <= k < i ==> seen[k].key != key
    ensures key !in Latest(map[], seen[..i])
    ensures i < |seen| && seen[i].key == key ==> !Grew(map[], seen, i)
  {
    if i > 0 {
      FirstSightIsSilent(seen, i - 1, key);
      assert seen[..i][..i - 1] == seen[..i - 1];
    }
  }

  /** `containerKey`; Kubernetes names hold no slash, so the parts can be read back. */
  function ContainerKey(namespace: string, pod: string, container: string): string {
    Join([namespace, pod, container], "/")
  }

  lemma ContainerKeyIsInjective(a: seq<string>, b: seq<string>)
    requires |a| == 3 && |b| == 3
    requires forall part :: part in a + b ==> '/' !in part
    requires ContainerKey(a[0], a[1], a[2]) == ContainerKey(b[0], b[1], b[2])
    ensures a == b
  {
    assert a == [a[0], a[1], a[2]] && b == [b[0], b[1], b[2]];
    assert forall part :: part in a ==> part in a + b;
    assert forall part :: part in b ==> part in a + b;
    SplitUndoesJoin(a, '/');
    SplitUndoesJoin(b, '/');
  }

  // ----- pod base names ----------------------------------------------------------------

  predicate IsLetter(c: char) { 'a' <= c <= 'z' }

  predicate IsDigit(c: char) { '0' <= c <= '9' }

  /** A name part a controller generated: 5 to 10 letters and digits, some of each. */
  predicate LooksGenerated(part: string) {
    && 5 <= |part| <= 10
    && (forall i :: 0 <= i < |part| ==> IsLetter(part[i]) || IsDigit(part[i]))
    && (exists i :: 0 <= i < |part| && IsLetter(part[i]))
    && (exists i :: 0 <= i < |part| && IsDigit(part[i]))
  }

  function Stem(parts: seq<string>): (r: seq<string>)
    requires |parts| > 0
    ensures 0 < |r| <= |parts| && r == parts[..|r|]
    ensures |r| > 1 ==> !LooksGenerated(r[|r| - 1])
    ensures forall i :: |r| <= i < |parts| ==> LooksGenerated(parts[i])
  {
    if |parts| > 1 && LooksGenerated(parts[|parts| - 1]) then Stem(parts[..|parts| - 1]) else parts
  }

  function BaseName(pod: string): string {
    var joined := Join(Stem(Split(pod, '-')), "-");
    if joined == "" then pod else joined
  }

  method PodBaseName(pod: string) returns (r: string)
    ensures r == BaseName(pod)
  {
    var parts := Split(pod, '-');
    var n := |parts|;
    while n > 1 && LooksGenerated(parts[n - 1])
      invariant 1 <= n <= |parts| && Stem(parts[..n]) == Stem(parts)
    {
      OnePartLess(parts, n);
      n := n - 1;
    }
    r := Join(parts[..n], "-");
    if r == "" { r := pod; }
  }

  lemma OnePartLess(parts: seq<string>, n: nat)
    requires 1 < n <= |parts| && LooksGenerated(parts[n - 1])
    ensures Stem(parts[..n]) == Stem(parts[..n - 1])
  {
    assert parts[..n][..n - 1] == parts[..n - 1];
  }

  /** A base name is its own base name. */
  lemma BaseNameIsStable(pod: string)
    ensures BaseName(BaseName(pod)) == BaseName(pod)
  {
    var stem := Stem(Split(pod, '-'));
    JoinUndoesSplit(pod, '-');
    SplitUndoesJoin(stem, '-');
  }

  lemma {:induction false} SplitAtLast(head: string, last: string)
    requires '-' !in last
    ensures Split(head + "-" + last, '-') == Split(head, '-') + [last]
  {
    if head == "" {
      assert (head + "-" + last)[1..] == last;
      SplitPlain(last, '-');
    } else {
      assert (head + "-" + last)[1..] == head[1..] + "-" + last;
      SplitAtLast(head[1..], last);
      var rest := Split(head[1..], '-');
      assert rest + [last] == [rest[0]] + (rest[1..] + [last]);
    }
  }

  /** Pods that differ only in a generated suffix report under one name: adding a suffix to
      a name that does not begin with a hyphen leaves the base name if and only if it looks
      generated, and otherwise nothing is taken off. */
  lemma SuffixDoesNotMatterExactly(name: string, suffix: string)
    requires '-' !in suffix && name != "" && name[0] != '-'
    ensures BaseName(name + "-" + suffix) == BaseName(name) <==> LooksGenerated(suffix)
    ensures !LooksGenerated(suffix) ==> BaseName(name + "-" + suffix) == name + "-" + suffix
  {
    var parts := Split(name, '-');
    SplitAtLast(name, suffix);
    JoinUndoesSplit(name, '-');
    FirstPartIsNotEmpty(name);
    if LooksGenerated(suffix) {
      assert (parts + [suffix])[..|parts|] == parts;
      assert Stem(parts)[0] == parts[0];
    } else {
      JoinUndoesSplit(name + "-" + suffix, '-');
      SplitUndoesJoin(Stem(parts), '-');
      assert Split(BaseName(name), '-') == Stem(parts);
    }
  }

  /** A pod of a Deployment, of a StatefulSet, and of no controller. A suffix drawn without
      a digit is not recognised, so such a pod reports under a name of its own. */
  lemma PodNames()
    ensures LooksGenerated("7d8f9c6b45") && LooksGenerated("x2k9p")
    ensures !LooksGenerated("0") && !LooksGenerated("agent") && !LooksGenerated("12345")
    ensures !LooksGenerated("X2k9p") && !LooksGenerated("7d8f9c6b45a") && !LooksGenerated("bcdfg")
  {
    var hash, id := "7d8f9c6b45", "x2k9p";
    assert IsDigit(hash[0]) && IsLetter(hash[1]) && IsLetter(id[0]) && IsDigit(id[1]);
    assert forall i :: 0 <= i < 5 ==> !IsDigit("agent"[i]);
    assert forall i :: 0 <= i < 5 ==> !IsLetter("12345"[i]);
    assert forall i :: 0 <= i < 5 ==> !IsDigit("bcdfg"[i]);
    assert !IsLetter("X2k9p"[0]) && !IsDigit("X2k9p"[0]);
  }

  lemma FirstPartIsNotEmpty(name: string)
    requires name != "" && name[0] != '-'
    ensures Split(name, '-')[0] != ""
  {
  }
}
