/** The stale-while-revalidate cache of bucket scans, src/lib/storage-substrate.ts.
    Store is the module's maps together with the scans really running; a run is any
    interleaving of reads, scan completions and cold starts under a clock that does not
    go back. The class does the same steps on its own maps. */
module StorageSubstrate {
  import opened Options
  import opened BucketScan

  const FRESH_MS := 15000
  const FAILED_BACKOFF_MS := 60000

  datatype Cached = Cached(ts: int, stats: Stats)

  datatype Store = Store(
    cache: map<string, Cached>,
    inflight: map<string, nat>,     // bucket -> its scan
    failed: map<string, int>,       // bucket -> time of its last failed scan
    running: map<nat, string>,      // scan -> bucket, for every scan not finished
    next: nat,                      // scans ever started
    started: multiset<string>)      // their buckets

  const EMPTY := Store(map[], map[], map[], map[], 0, multiset{})

  /** What a read returns. */
  datatype CachedStats = CachedStats(stats: Option<Stats>, refreshing: bool, scannedAt: Option<int>)

  datatype Outcome = Listed(stats: Stats) | Unlistable

  datatype Event = Read(bucket: string) | Done(scan: nat, outcome: Outcome) | ColdStart(buckets: seq<string>)

  datatype Timed = Timed(at: int, event: Event)

  // ----- the steps ----------------------------------------------------------------

  /** A failure is backed off from, a failure at the epoch itself excepted. */
  predicate BackingOff(s: Store, bucket: string, now: int) {
    bucket in s.failed && s.failed[bucket] != 0 && now - s.failed[bucket] < FAILED_BACKOFF_MS
  }

  /** A read finds a scan to be wanted. */
  predicate Due(s: Store, bucket: string, now: int) {
    if bucket in s.cache then now - s.cache[bucket].ts >= FRESH_MS else !BackingOff(s, bucket, now)
  }

  /** `refreshBucket`. */
  function Refresh(s: Store, bucket: string): Store {
    if bucket in s.inflight then s
    else s.(inflight := s.inflight[bucket := s.next], running := s.running[s.next := bucket],
            next := s.next + 1, started := s.started + multiset{bucket})
  }

  function RefreshAll(s: Store, buckets: seq<string>): Store
    decreases |buckets|
  {
    if |buckets| == 0 then s else RefreshAll(Refresh(s, buckets[0]), buckets[1..])
  }

  function Answer(s: Store, bucket: string, now: int): CachedStats {
    if bucket in s.cache
    then CachedStats(Some(s.cache[bucket].stats), Due(s, bucket, now), Some(s.cache[bucket].ts))
    else CachedStats(None, Due(s, bucket, now), None)
  }

  function AfterRead(s: Store, bucket: string, now: int): Store {
    if Due(s, bucket, now) then Refresh(s, bucket) else s
  }

  function Finish(s: Store, scan: nat, outcome: Outcome, now: int): Store
    requires scan in s.running
  {
    var bucket := s.running[scan];
    var left := s.(inflight := s.inflight - {bucket}, running := s.running - {scan});
    match outcome
    case Listed(stats) => left.(cache := s.cache[bucket := Cached(now, stats)], failed := s.failed - {bucket})
    case Unlistable => left.(failed := s.failed[bucket := now])
  }

  predicate Enabled(s: Store, e: Event) {
    match e
    case Read(_) => true
    case Done(scan, _) => scan in s.running
    case ColdStart(buckets) => forall i :: 0 <= i < |buckets| ==> buckets[i] !in s.cache
  }

  function Step(s: Store, e: Event, now: int): Store
    requires Enabled(s, e)
  {
    match e
    case Read(bucket) => AfterRead(s, bucket, now)
    case Done(scan, outcome) => Finish(s, scan, outcome, now)
    case ColdStart(buckets) => RefreshAll(s, buckets)
  }

  predicate ValidRun(s: Store, now: int, run: seq<Timed>)
    decreases |run|
  {
    |run| > 0 ==>
      now <= run[0].at && Enabled(s, run[0].event)
      && ValidRun(Step(s, run[0].event, run[0].at), run[0].at, run[1..])
  }

  function After(s: Store, now: int, run: seq<Timed>): Store
    requires ValidRun(s, now, run)
    decreases |run|
  {
    if |run| == 0 then s else After(Step(s, run[0].event, run[0].at), run[0].at, run[1..])
  }

  function Clock(now: int, run: seq<Timed>): int {
    if |run| == 0 then now else run[|run| - 1].at
  }

  // ----- at most one scan in flight -----------------------------------------------

  /** The inflight map names exactly the running scans. */
  ghost predicate OneEach(s: Store) {
    && (forall b :: b in s.inflight ==> s.inflight[b] in s.running && s.running[s.inflight[b]] == b)
    && (forall id :: id in s.running ==> s.running[id] in s.inflight && s.inflight[s.running[id]] == id && id < s.next)
  }

  lemma {:induction false} RefreshAllKeepsOneEach(s: Store, buckets: seq<string>)
    requires OneEach(s)
    ensures OneEach(RefreshAll(s, buckets))
    ensures RefreshAll(s, buckets).cache == s.cache && RefreshAll(s, buckets).failed == s.failed
    decreases |buckets|
  {
    if |buckets| > 0 { RefreshAllKeepsOneEach(Refresh(s, buckets[0]), buckets[1..]); }
  }

  lemma StepKeepsOneEach(s: Store, e: Event, now: int)
    requires Enabled(s, e) && OneEach(s)
    ensures OneEach(Step(s, e, now))
  {
    if e.ColdStart? { RefreshAllKeepsOneEach(s, e.buckets); }
  }

  /** However reads, completions and cold starts interleave, two running scans are never
      of one bucket. */
  lemma {:induction false} SingleFlight(s: Store, now: int, run: seq<Timed>)
    requires OneEach(s) && ValidRun(s, now, run)
    ensures OneEach(After(s, now, run))
    ensures var r := After(s, now, run).running;
            forall i, j :: i in r && j in r && r[i] == r[j] ==> i == j
    decreases |run|
  {
    if |run| > 0 {
      StepKeepsOneEach(s, run[0].event, run[0].at);
      SingleFlight(Step(s, run[0].event, run[0].at), run[0].at, run[1..]);
    }
  }

  // ----- what is once known stays known -------------------------------------------

  ghost predicate Dates(s: Store, now: int) {
    && (forall b :: b in s.cache ==> s.cache[b].ts <= now)
    && (forall b :: b in s.failed ==> s.failed[b] <= now)
  }

  lemma StepKeepsDates(s: Store, e: Event, now: int, at: int)
    requires OneEach(s) && Dates(s, now) && Enabled(s, e) && now <= at
    ensures Dates(Step(s, e, at), at)
    ensures forall b :: b in s.cache ==> b in Step(s, e, at).cache && s.cache[b].ts <= Step(s, e, at).cache[b].ts
  {
    if e.ColdStart? { RefreshAllKeepsOneEach(s, e.buckets); }
  }

  /** Stats never go back to null, and the time they were scanned at never decreases. */
  lemma {:induction false} StatsNeverRevert(s: Store, now: int, run: seq<Timed>, bucket: string)
    requires OneEach(s) && Dates(s, now) && ValidRun(s, now, run)
    ensures var t := After(s, now, run);
            && Dates(t, Clock(now, run)) && now <= Clock(now, run)
            && (bucket in s.cache ==> bucket in t.cache && s.cache[bucket].ts <= t.cache[bucket].ts)
    decreases |run|
  {
    if |run| > 0 {
      var e, at := run[0].event, run[0].at;
      StepKeepsOneEach(s, e, at);
      StepKeepsDates(s, e, now, at);
      StatsNeverRevert(Step(s, e, at), at, run[1..], bucket);
    }
  }

  // ----- an answer is its history ---------------------------------------------------

  /** How the scans of one bucket have ended so far: the latest listing with its time, and
      the time of the failure since, if any. */
  datatype Seen = Seen(listing: Option<Cached>, failure: Option<int>)

  /** What a store holds of a bucket. */
  function Held(s: Store, bucket: string): Seen {
    Seen(if bucket in s.cache then Some(s.cache[bucket]) else None,
         if bucket in s.failed then Some(s.failed[bucket]) else None)
  }

  /** The event is the end of a scan of the bucket. */
  predicate Ends(s: Store, e: Event, bucket: string) {
    e.Done? && e.scan in s.running && s.running[e.scan] == bucket
  }

  /** What is known once the scans of the bucket ended as the run says. */
  function SeenAfter(s: Store, now: int, run: seq<Timed>, bucket: string, seen: Seen): Seen
    requires ValidRun(s, now, run)
    decreases |run|
  {
    if |run| == 0 then seen
    else
      var e, at := run[0].event, run[0].at;
      var seen' := if !Ends(s, e, bucket) then seen
                   else if e.outcome.Listed? then Seen(Some(Cached(at, e.outcome.stats)), None)
                   else Seen(seen.listing, Some(at));
      SeenAfter(Step(s, e, at), at, run[1..], bucket, seen')
  }

  lemma {:induction false} HeldIsSeen(s: Store, now: int, run: seq<Timed>, bucket: string)
    requires ValidRun(s, now, run)
    ensures Held(After(s, now, run), bucket) == SeenAfter(s, now, run, bucket, Held(s, bucket))
    decreases |run|
  {
    if |run| > 0 {
      var e, at := run[0].event, run[0].at;
      if e.ColdStart? { RefreshAllAdds(s, e.buckets); }
      HeldIsSeen(Step(s, e, at), at, run[1..], bucket);
    }
  }

  /** Over every run: a read shows the stats of the latest listing of its bucket that the
      run completed, or those held at the start, and the time of that listing; it says
      `refreshing` when they are 15 s old, and without any when the last failure of that
      bucket, one at the epoch excepted, is not less than 60 s ago. */
  lemma AnswerIsItsHistory(s: Store, now: int, run: seq<Timed>, bucket: string, at: int)
    requires ValidRun(s, now, run)
    ensures var seen := SeenAfter(s, now, run, bucket, Held(s, bucket));
            Answer(After(s, now, run), bucket, at)
            == match seen.listing
               case Some(c) => CachedStats(Some(c.stats), at - c.ts >= 15000, Some(c.ts))
               case None =>
                 CachedStats(None, seen.failure.None? || seen.failure.value == 0 || at - seen.failure.value >= 60000,
                             None)
  {
    HeldIsSeen(s, now, run, bucket);
  }

  /** The event is about the bucket. */
  predicate Concerns(s: Store, e: Event, bucket: string) {
    match e
    case Read(b) => b == bucket
    case Done(_, _) => Ends(s, e, bucket)
    case ColdStart(buckets) => bucket in buckets
  }

  ghost predicate NoneConcerns(s: Store, now: int, run: seq<Timed>, bucket: string)
    requires ValidRun(s, now, run)
    decreases |run|
  {
    |run| > 0 ==>
      && !Concerns(s, run[0].event, bucket)
      && NoneConcerns(Step(s, run[0].event, run[0].at), run[0].at, run[1..], bucket)
  }

  /** Whatever happens to other buckets, answer, backoff and scan of this one stay. */
  lemma {:induction false} OthersLeaveItAlone(s: Store, now: int, run: seq<Timed>, bucket: string, at: int)
    requires OneEach(s) && ValidRun(s, now, run) && NoneConcerns(s, now, run, bucket)
    ensures var t := After(s, now, run);
            && Answer(t, bucket, at) == Answer(s, bucket, at) && BackingOff(t, bucket, at) == BackingOff(s, bucket, at)
            && (bucket in t.inflight <==> bucket in s.inflight) && t.started[bucket] == s.started[bucket]
    decreases |run|
  {
    if |run| > 0 {
      StepKeepsOneEach(s, run[0].event, run[0].at);
      OtherStep(s, run[0].event, run[0].at, bucket);
      OthersLeaveItAlone(Step(s, run[0].event, run[0].at), run[0].at, run[1..], bucket, at);
    }
  }

  lemma OtherStep(s: Store, e: Event, now: int, bucket: string)
    requires OneEach(s) && Enabled(s, e) && !Concerns(s, e, bucket)
    ensures var t := Step(s, e, now);
            && Held(t, bucket) == Held(s, bucket)
            && (bucket in t.inflight <==> bucket in s.inflight) && t.started[bucket] == s.started[bucket]
  {
    if e.ColdStart? {
      RefreshAllAdds(s, e.buckets);
      RefreshAllStarts(s, e.buckets, bucket);
    }
  }

  /** The scans of the bucket that the run ended. */
  function Endings(s: Store, now: int, run: seq<Timed>, bucket: string): nat
    requires ValidRun(s, now, run)
    decreases |run|
  {
    if |run| == 0 then 0
    else (if Ends(s, run[0].event, bucket) then 1 else 0)
         + Endings(Step(s, run[0].event, run[0].at), run[0].at, run[1..], bucket)
  }

  /** The times the run asked for a scan of the bucket with none in flight: a read of it
      that finds one due, or a cold start that lists it. */
  function Requests(s: Store, now: int, run: seq<Timed>, bucket: string): nat
    requires ValidRun(s, now, run)
    decreases |run|
  {
    if |run| == 0 then 0
    else (if Asks(s, run[0].event, run[0].at, bucket) then 1 else 0)
         + Requests(Step(s, run[0].event, run[0].at), run[0].at, run[1..], bucket)
  }

  /** Scans of the bucket in flight. */
  function Flying(s: Store, bucket: string): nat {
    if bucket in s.inflight then 1 else 0
  }

  /** The step asks for a scan of the bucket with none in flight. */
  predicate Asks(s: Store, e: Event, now: int, bucket: string) {
    && bucket !in s.inflight && Concerns(s, e, bucket) && !e.Done?
    && (e.Read? ==> Answer(s, bucket, now).refreshing)
  }

  lemma OneStepOfScans(s: Store, e: Event, now: int, bucket: string)
    requires OneEach(s) && Enabled(s, e)
    ensures var t := Step(s, e, now);
            && t.started[bucket] == s.started[bucket] + (if Asks(s, e, now, bucket) then 1 else 0)
            && Flying(t, bucket) + (if Ends(s, e, bucket) then 1 else 0)
               == Flying(s, bucket) + (if Asks(s, e, now, bucket) then 1 else 0)
  {
    if e.ColdStart? {
      RefreshAllAdds(s, e.buckets);
      RefreshAllStarts(s, e.buckets, bucket);
    }
  }

  /** No scan is lost and none is started unasked: over every run the scans started of a
      bucket are the requests for one, and each has ended or is the one in flight. */
  lemma {:induction false} ScansAreConserved(s: Store, now: int, run: seq<Timed>, bucket: string)
    requires OneEach(s) && ValidRun(s, now, run)
    ensures var t := After(s, now, run);
            && t.started[bucket] == s.started[bucket] + Requests(s, now, run, bucket)
            && Requests(s, now, run, bucket) + Flying(s, bucket) == Endings(s, now, run, bucket) + Flying(t, bucket)
    decreases |run|
  {
    if |run| > 0 {
      StepKeepsOneEach(s, run[0].event, run[0].at);
      OneStepOfScans(s, run[0].event, run[0].at, bucket);
      ScansAreConserved(Step(s, run[0].event, run[0].at), run[0].at, run[1..], bucket);
    }
  }

  // ----- `refreshing` tells the truth ----------------------------------------------

  /** Every scan in flight is one a read would start. */
  ghost predicate OnlyDueScans(s: Store, now: int) {
    forall b :: b in s.inflight ==> Due(s, b, now)
  }

  lemma StepKeepsDue(s: Store, e: Event, now: int, at: int)
    requires Enabled(s, e) && !e.ColdStart? && now <= at && OneEach(s) && OnlyDueScans(s, now)
    ensures OnlyDueScans(Step(s, e, at), at)
  {
    if e.Done? {
      var bucket := s.running[e.scan];
      forall b | b in Step(s, e, at).inflight ensures Due(Step(s, e, at), b, at) {
        assert b != bucket && b in s.inflight && Due(s, b, now);
      }
    }
  }

  /** Refreshing all puts exactly the listed buckets in flight and changes no due date. */
  lemma {:induction false} RefreshAllAdds(s: Store, buckets: seq<string>)
    ensures var t := RefreshAll(s, buckets);
            && t.cache == s.cache && t.failed == s.failed
            && forall b :: b in t.inflight <==> b in s.inflight || b in buckets
    decreases |buckets|
  {
    if |buckets| > 0 {
      RefreshAllAdds(Refresh(s, buckets[0]), buckets[1..]);
      assert buckets == [buckets[0]] + buckets[1..];
    }
  }

  /** None of the buckets is in its backoff. */
  predicate NoneBackingOff(s: Store, buckets: seq<string>, at: int) {
    forall i :: 0 <= i < |buckets| ==> !BackingOff(s, buckets[i], at)
  }

  lemma ColdStartKeepsDueExactly(s: Store, buckets: seq<string>, now: int, at: int)
    requires Enabled(s, ColdStart(buckets)) && now <= at && OnlyDueScans(s, now)
    ensures OnlyDueScans(RefreshAll(s, buckets), at) <==> NoneBackingOff(s, buckets, at)
  {
    var t := RefreshAll(s, buckets);
    RefreshAllAdds(s, buckets);
    forall b ensures Due(t, b, at) == Due(s, b, at) {}
    if OnlyDueScans(t, at) {
      forall i | 0 <= i < |buckets| ensures !BackingOff(s, buckets[i], at) {
        assert buckets[i] in t.inflight && Due(t, buckets[i], at);
      }
    }
  }

  /** An answer misleads exactly when a scan is running that no read would have started. */
  lemma MisleadingExactly(s: Store, bucket: string, at: int)
    ensures (Answer(s, bucket, at).refreshing <==> bucket in AfterRead(s, bucket, at).inflight)
            <==> (bucket in s.inflight ==> Due(s, bucket, at))
  {
  }

  /** A read of any bucket would answer `refreshing` exactly when a scan of it is in
      flight afterwards. */
  ghost predicate Truthful(s: Store, at: int) {
    forall b :: Answer(s, b, at).refreshing <==> b in AfterRead(s, b, at).inflight
  }

  ghost predicate TruthfulThroughout(s: Store, now: int, run: seq<Timed>)
    requires ValidRun(s, now, run)
    decreases |run|
  {
    |run| > 0 ==>
      var next := Step(s, run[0].event, run[0].at);
      Truthful(next, run[0].at) && TruthfulThroughout(next, run[0].at, run[1..])
  }

  /** No cold start of the run overrides a backoff. */
  ghost predicate BackoffsRespected(s: Store, now: int, run: seq<Timed>)
    requires ValidRun(s, now, run)
    decreases |run|
  {
    |run| > 0 ==>
      && (run[0].event.ColdStart? ==> NoneBackingOff(s, run[0].event.buckets, run[0].at))
      && BackoffsRespected(Step(s, run[0].event, run[0].at), run[0].at, run[1..])
  }

  lemma DueMeansTruthful(s: Store, at: int)
    ensures Truthful(s, at) <==> OnlyDueScans(s, at)
  {
    forall b
      ensures (Answer(s, b, at).refreshing <==> b in AfterRead(s, b, at).inflight)
              <==> (b in s.inflight ==> Due(s, b, at))
    {
      MisleadingExactly(s, b, at);
    }
  }

  lemma StepKeepsDueExactly(s: Store, e: Event, now: int, at: int)
    requires Enabled(s, e) && now <= at && OneEach(s) && OnlyDueScans(s, now)
    ensures OnlyDueScans(Step(s, e, at), at) <==> (e.ColdStart? ==> NoneBackingOff(s, e.buckets, at))
  {
    if e.ColdStart? { ColdStartKeepsDueExactly(s, e.buckets, now, at); } else { StepKeepsDue(s, e, now, at); }
  }

  /** Over every run: the answers about all buckets are truthful after every step if and
      only if no cold start lists a bucket inside its backoff. */
  lemma {:induction false} TruthfulExactly(s: Store, now: int, run: seq<Timed>)
    requires OneEach(s) && OnlyDueScans(s, now) && ValidRun(s, now, run)
    ensures TruthfulThroughout(s, now, run) <==> BackoffsRespected(s, now, run)
    decreases |run|
  {
    if |run| > 0 {
      var e, at := run[0].event, run[0].at;
      var next := Step(s, e, at);
      assert ValidRun(next, at, run[1..]);
      StepKeepsOneEach(s, e, at);
      StepKeepsDueExactly(s, e, now, at);
      DueMeansTruthful(next, at);
      if OnlyDueScans(next, at) { TruthfulExactly(next, at, run[1..]); }
    }
  }

  /** So after any run whose cold starts respect the backoffs, and at any later moment,
      an answer says `refreshing` exactly when a scan is in flight after it; a bucket not
      yet listed shows as pending exactly then, and as unavailable exactly otherwise. */
  lemma {:induction false} RefreshingMeansInFlight(s: Store, now: int, run: seq<Timed>, bucket: string, at: int)
    requires OneEach(s) && OnlyDueScans(s, now) && ValidRun(s, now, run) && BackoffsRespected(s, now, run)
    requires Clock(now, run) <= at
    ensures var t := After(s, now, run);
            var answer, flying := Answer(t, bucket, at), bucket in AfterRead(t, bucket, at).inflight;
            && (answer.refreshing <==> flying)
            && (TotalsOf(answer) == Pending <==> bucket !in t.cache && flying)
            && (TotalsOf(answer) == Unavailable <==> bucket !in t.cache && !flying)
            && (TotalsOf(answer) == Unavailable <==> bucket !in t.cache && BackingOff(t, bucket, at))
    decreases |run|
  {
    if |run| > 0 {
      StepKeepsOneEach(s, run[0].event, run[0].at);
      StepKeepsDueExactly(s, run[0].event, now, run[0].at);
      RefreshingMeansInFlight(Step(s, run[0].event, run[0].at), run[0].at, run[1..], bucket, at);
    } else {
      MisleadingExactly(s, bucket, at);
      PendingMeansCounting(s, bucket, at);
    }
  }

  lemma RefreshOne(s: Store, bucket: string)
    ensures RefreshAll(s, [bucket]) == Refresh(s, bucket)
  {
    var one := [bucket];
    assert one[1..] == [];
  }

  /** A cold start does start such a scan: the bucket failed a moment ago, is scanned
      again inside its backoff, and reads say nothing is refreshing meanwhile. */
  lemma ColdStartBreaksBoth(bucket: string, t: int)
    requires t > 0
    ensures var run := [Timed(t, Read(bucket)), Timed(t + 1, Done(0, Unlistable)), Timed(t + 2, ColdStart([bucket]))];
            && ValidRun(EMPTY, t, run)
            && var s := After(EMPTY, t, run);
               s.started[bucket] == 2 && bucket in s.inflight && !Answer(s, bucket, t + 3).refreshing
  {
    var run := [Timed(t, Read(bucket)), Timed(t + 1, Done(0, Unlistable)), Timed(t + 2, ColdStart([bucket]))];
    var s1 := Step(EMPTY, run[0].event, t);
    var s2 := Step(s1, run[1].event, t + 1);
    var s3 := Step(s2, run[2].event, t + 2);
    RefreshOne(s2, bucket);
    assert run[1..][0] == run[1] && run[1..][1..] == run[2..] && run[2..][0] == run[2] && run[2..][1..] == [];
    assert ValidRun(s3, t + 2, []) && After(s3, t + 2, []) == s3;
    assert ValidRun(s2, t + 1, run[2..]) && After(s2, t + 1, run[2..]) == s3;
    assert ValidRun(s1, t, run[1..]) && After(s1, t, run[1..]) == s3;
  }

  // ----- the backoff ----------------------------------------------------------------

  /** No cold start of the run lists the bucket. */
  ghost predicate Spared(run: seq<Timed>, bucket: string) {
    forall i :: 0 <= i < |run| && run[i].event.ColdStart? ==> bucket !in run[i].event.buckets
  }

  lemma {:induction false} RefreshAllStarts(s: Store, buckets: seq<string>, bucket: string)
    ensures RefreshAll(s, buckets).started[bucket]
            == s.started[bucket] + (if bucket in buckets && bucket !in s.inflight then 1 else 0)
    ensures bucket !in buckets ==> (bucket in RefreshAll(s, buckets).inflight <==> bucket in s.inflight)
    decreases |buckets|
  {
    if |buckets| > 0 {
      RefreshAllStarts(Refresh(s, buckets[0]), buckets[1..], bucket);
      assert buckets == [buckets[0]] + buckets[1..];
    }
  }

  /** Scans once started stay counted. */
  lemma {:induction false} StartsOnlyGrow(s: Store, now: int, run: seq<Timed>, bucket: string)
    requires ValidRun(s, now, run)
    ensures s.started[bucket] <= After(s, now, run).started[bucket]
    decreases |run|
  {
    if |run| > 0 {
      var e, at := run[0].event, run[0].at;
      if e.ColdStart? { RefreshAllStarts(s, e.buckets, bucket); }
      StartsOnlyGrow(Step(s, e, at), at, run[1..], bucket);
    }
  }

  /** Within the backoff of its failure a bucket that was never listed is scanned again if
      and only if a cold start lists it; no number of reads does. */
  lemma {:induction false} BackoffHolds(s: Store, now: int, run: seq<Timed>, bucket: string)
    requires OneEach(s) && ValidRun(s, now, run)
    requires bucket !in s.cache && bucket !in s.inflight && BackingOff(s, bucket, now)
    requires Clock(now, run) - s.failed[bucket] < FAILED_BACKOFF_MS
    requires forall i :: 0 <= i < |run| ==> run[i].at <= Clock(now, run)
    ensures var t := After(s, now, run);
            && (t.started[bucket] == s.started[bucket] <==> Spared(run, bucket))
            && (Spared(run, bucket) ==> bucket !in t.inflight && bucket !in t.cache)
    decreases |run|
  {
    if |run| > 0 {
      var e, at := run[0].event, run[0].at;
      var next := Step(s, e, at);
      StepKeepsOneEach(s, e, at);
      SparedCons(run, bucket);
      if e.ColdStart? {
        RefreshAllStarts(s, e.buckets, bucket);
        RefreshAllAdds(s, e.buckets);
      }
      if e.ColdStart? && bucket in e.buckets {
        StartsOnlyGrow(next, at, run[1..], bucket);
      } else {
        if e.Done? { assert s.running[e.scan] != bucket; }
        BackoffHolds(next, at, run[1..], bucket);
      }
    }
  }

  lemma SparedCons(run: seq<Timed>, bucket: string)
    requires |run| > 0
    ensures Spared(run, bucket) <==>
              (run[0].event.ColdStart? ==> bucket !in run[0].event.buckets) && Spared(run[1..], bucket)
  {
    if (run[0].event.ColdStart? ==> bucket !in run[0].event.buckets) && Spared(run[1..], bucket) {
      forall i | 0 <= i < |run| && run[i].event.ColdStart? ensures bucket !in run[i].event.buckets {
        if i > 0 { assert run[1..][i - 1] == run[i]; }
      }
    }
  }

  // ----- what a page shows ------------------------------------------------------------

  datatype TotalsState = Complete | Truncated | Pending | Unavailable

  /** `bucketTotalsState`. */
  function TotalsOf(a: CachedStats): TotalsState {
    if a.stats.Some? then (if a.stats.value.truncated then Truncated else Complete)
    else if a.refreshing then Pending else Unavailable
  }

  /** "Counting" is shown only while a scan runs, and "unavailable" only within the
      backoff of a failed scan of a bucket never listed. */
  lemma PendingMeansCounting(s: Store, bucket: string, now: int)
    ensures TotalsOf(Answer(s, bucket, now)) == Pending ==> bucket in AfterRead(s, bucket, now).inflight
    ensures TotalsOf(Answer(s, bucket, now)) == Unavailable <==> bucket !in s.cache && BackingOff(s, bucket, now)
  {
  }

  // ----- the module itself --------------------------------------------------------------

  class Substrate {
    var cache: map<string, Cached>
    var inflight: map<string, nat>
    var failed: map<string, int>
    var running: map<nat, string>
    var next: nat
    var started: multiset<string>

    constructor ()
      ensures State() == EMPTY
    {
      cache, inflight, failed, running, next, started := map[], map[], map[], map[], 0, multiset{};
    }

    function State(): Store
      reads this
    {
      Store(cache, inflight, failed, running, next, started)
    }

    method RefreshBucket(bucket: string)
      modifies this
      ensures State() == Refresh(old(State()), bucket)
    {
      if bucket in inflight { return; }
      inflight := inflight[bucket := next];
      running := running[next := bucket];
      next := next + 1;
      started := started + multiset{bucket};
    }

    /** What the scan does when it ends, well or not. */
    method ScanDone(scan: nat, outcome: Outcome, now: int)
      requires scan in running
      modifies this
      ensures State() == Finish(old(State()), scan, outcome, now)
    {
      var bucket := running[scan];
      match outcome {
        case Listed(stats) =>
          cache := cache[bucket := Cached(now, stats)];
          failed := failed - {bucket};
        case Unlistable =>
          failed := failed[bucket := now];
      }
      inflight := inflight - {bucket};
      running := running - {scan};
    }

    method StatsSWR(bucket: string, now: int) returns (r: CachedStats)
      modifies this
      ensures State() == AfterRead(old(State()), bucket, now)
      ensures r == Answer(old(State()), bucket, now)
    {
      if bucket in cache {
        var c := cache[bucket];
        if now - c.ts >= FRESH_MS {
          RefreshBucket(bucket);
          return CachedStats(Some(c.stats), true, Some(c.ts));
        }
        return CachedStats(Some(c.stats), false, Some(c.ts));
      }
      if bucket in failed && failed[bucket] != 0 && now - failed[bucket] < FAILED_BACKOFF_MS {
        return CachedStats(None, false, None);
      }
      RefreshBucket(bucket);
      return CachedStats(None, true, None);
    }

    /** The cold-start block of `collectStorageSubstrate`, without its wait. */
    method KickAll(buckets: seq<string>)
      modifies this
      ensures State() == if forall i :: 0 <= i < |buckets| ==> buckets[i] !in old(cache)
                         then RefreshAll(old(State()), buckets) else old(State())
    {
      if forall i :: 0 <= i < |buckets| ==> buckets[i] !in cache {
        for i := 0 to |buckets|
          invariant RefreshAll(State(), buckets[i..]) == RefreshAll(old(State()), buckets)
        {
          assert buckets[i..][0] == buckets[i] && buckets[i..][1..] == buckets[i + 1..];
          RefreshBucket(buckets[i]);
        }
      }
    }

    /** Everything that happens while a caller waits for a scan, at most until `until`. */
    method Await(scan: nat, now: int, until: int) returns (later: int)
      requires OneEach(State()) && Dates(State(), now) && now <= until && scan in running
      modifies this
      ensures OneEach(State()) && Dates(State(), later) && now <= later <= until
      ensures scan in running ==> later == until && running[scan] == old(running[scan])
      ensures scan !in running ==>
                var bucket := old(running[scan]);
                bucket in cache || (bucket in failed && failed[bucket] == later)
    {
      later := now;
      var steps: nat := *;
      while steps > 0 && scan in running
        invariant OneEach(State()) && Dates(State(), later) && now <= later <= until
        invariant scan in running ==> running[scan] == old(running[scan])
        invariant scan !in running ==>
                    var bucket := old(running[scan]);
                    bucket in cache || (bucket in failed && failed[bucket] == later)
      {
        var at: int := *;
        var e: Event := *;
        if later <= at <= until && Enabled(State(), e) {
          StepKeepsDates(State(), e, later, at);
          Happens(e, at);
          later := at;
        }
        steps := steps - 1;
      }
      if scan in running { later := until; }                    // the timer won
    }

    /** One step of whoever else uses the module. */
    method Happens(e: Event, at: int)
      requires OneEach(State()) && Enabled(State(), e)
      modifies this
      ensures OneEach(State()) && State() == Step(old(State()), e, at)
      ensures forall id :: id in old(running) && id !in running ==> e.Done? && id == e.scan
      ensures forall id :: id in old(running) && id in running ==> running[id] == old(running[id])
    {
      StepKeepsOneEach(State(), e, at);
      match e {
        case Read(bucket) => var _ := StatsSWR(bucket, at);
        case Done(scan, outcome) => ScanDone(scan, outcome, at);
        case ColdStart(buckets) =>
          RefreshAllKeepsRunning(State(), buckets);
          RefreshAllKeepsOneEach(State(), buckets);
          KickAll(buckets);
      }
    }

    /** `bucketStatsSettled`: on a cold cache wait for the scan, at most `maxWait` (2500
        unless told otherwise). An
        answer of "counting" is given only when the whole wait has passed. */
    method BucketStatsSettled(bucket: string, now: int, maxWait: nat) returns (r: CachedStats, later: int)
      requires OneEach(State()) && Dates(State(), now) && now > 0
      modifies this
      ensures OneEach(State()) && Dates(State(), later) && now <= later <= now + maxWait
      ensures bucket in old(cache) ==> r == Answer(old(State()), bucket, now) && later == now
      ensures r.stats == if bucket in cache then Some(cache[bucket].stats) else None
      ensures r.stats == None && r.refreshing ==> later == now + maxWait && bucket in inflight
      ensures r.stats == None && !r.refreshing ==> BackingOff(State(), bucket, later)
    {
      var first := StatsSWR(bucket, now);
      StepKeepsOneEach(old(State()), Read(bucket), now);
      if first.stats.Some? || !first.refreshing {
        return first, now;
      }
      later := now;
      if maxWait > 0 {
        later := Await(inflight[bucket], now, now + maxWait);
      }
      StepKeepsOneEach(State(), Read(bucket), later);
      r := StatsSWR(bucket, later);
    }
  }

  /** Every scan that was running still is, for the same bucket. */
  ghost predicate StillRunning(s: Store, t: Store) {
    forall id :: id in s.running ==> id in t.running && t.running[id] == s.running[id]
  }

  lemma {:induction false} RefreshAllKeepsRunning(s: Store, buckets: seq<string>)
    requires OneEach(s)
    ensures StillRunning(s, RefreshAll(s, buckets))
    decreases |buckets|
  {
    if |buckets| > 0 {
      var one := Refresh(s, buckets[0]);
      assert StillRunning(s, one);
      RefreshAllKeepsRunning(one, buckets[1..]);
    }
  }
}
