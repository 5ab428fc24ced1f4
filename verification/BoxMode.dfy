/** The box's GPU mode and the write guard that follows from it, src/lib/box-mode.ts, with
    the two guarded patches of src/lib/k8s.ts. Guard is the module's cache together with
    the record reads on the wire and the writes that wait for one; a run is any
    interleaving of write attempts, API answers and timeouts under a clock that does not
    go back. Times are in milliseconds. */
module BoxMode {
  import opened Options
  import opened Text

  const TTL := 10000
  const TIMEOUT := 3000

  // ----- the record ---------------------------------------------------------------

  /** A value under a key of the record: not there, no string, or a string. */
  datatype Field = Missing | NotText | Text(text: string)

  /** What the API returned for the ConfigMap. */
  datatype Record = NotThere | NoData | Data(mode: Field, pinned: Field, updatedAt: Field)

  datatype Source = ConfigMap | Absent | Error

  /** The mode as the console uses it, without the wording of `reason`. */
  datatype Mode = Mode(mode: string, pinned: bool, updatedAt: Option<string>, source: Source)

  predicate NameChar(c: char) {
    'a' <= c <= 'z' || '0' <= c <= '9'
  }

  /** `^[a-z0-9][a-z0-9_-]{0,31}$`; the end is the end, there is no m flag. */
  predicate IsModeName(s: string) {
    0 < |s| <= 32 && NameChar(s[0]) && forall i :: 0 < i < |s| ==> NameChar(s[i]) || s[i] == '_' || s[i] == '-'
  }

  function Fallback(source: Source): Mode {
    Mode("vss", false, None, source)
  }

  /** `parseModeRecord`. */
  function Parse(cm: Record): Mode {
    match cm
    case NotThere => Fallback(Absent)
    case NoData => Fallback(Error)
    case Data(mode, pinned, updatedAt) =>
      if !mode.Text? || Trim(mode.text) == "" then Fallback(Error)
      else
        var name := LowerCase(Trim(mode.text));
        if !IsModeName(name) then Fallback(Error)
        else Mode(name, pinned == Text("true"),
                  if updatedAt.Text? && Trim(updatedAt.text) != "" then Some(Trim(updatedAt.text)) else None,
                  ConfigMap)
  }

  /** `modeFromReadError`: the first numeric status decides. */
  function FromError(status: Option<int>): Mode {
    if status == Some(404) then Fallback(Absent) else Fallback(Error)
  }

  /** `isBoxPaused`. */
  predicate Paused(m: Mode) {
    m.mode != "vss"
  }

  /** The record is there and names a mode that is not the console's. */
  predicate NamesAnotherMode(cm: Record) {
    cm.Data? && cm.mode.Text? && IsModeName(LowerCase(Trim(cm.mode.text))) && LowerCase(Trim(cm.mode.text)) != "vss"
  }

  lemma PausedOnlyByTheRecord(cm: Record, status: Option<int>)
    ensures Paused(Parse(cm)) <==> NamesAnotherMode(cm)
    ensures Paused(Parse(cm)) ==> Parse(cm).source == ConfigMap
    ensures !Paused(FromError(status)) && FromError(status).source == if status == Some(404) then Absent else Error
  {
    if cm.Data? && cm.mode.Text? && Trim(cm.mode.text) == "" {
      assert LowerCase("") == "";
    }
  }

  /** A record reads as it was written: the mode in any case and the time, both with
      blanks around them or not, and the pin only from the text "true". */
  lemma RecordReadsBack(a: string, mode: string, b: string, pinned: Field, updatedAt: string)
    requires AllJsSpace(a) && AllJsSpace(b) && IsModeName(Lower(mode)) && Ascii(mode)
    requires updatedAt != "" ==> !IsJsSpace(updatedAt[0]) && !IsJsSpace(updatedAt[|updatedAt| - 1])
    ensures Parse(Data(Text(a + mode + b), pinned, Text(a + updatedAt + b)))
            == Mode(Lower(mode), pinned == Text("true"), if updatedAt == "" then None else Some(updatedAt), ConfigMap)
  {
    var n := |mode| - 1;
    assert Lower(mode)[0] == LowerChar(mode[0]) && Lower(mode)[n] == LowerChar(mode[n]);
    TrimPadded(a, mode, b);
    TrimPadded(a, updatedAt, b);
    LowerCaseOfAscii(mode);
  }

  // ----- the guard ------------------------------------------------------------------

  datatype Workload = Workload(namespace: string, name: string)

  /** `isSwitchOwned`. */
  predicate Owned(owned: set<Workload>, w: Workload) {
    w in owned
  }

  datatype Entry = Entry(at: int, value: Mode)

  /** The read callers wait for. */
  datatype Flight = Flight(id: nat, startedAt: int)

  /** A restart or a scale attempted at a time. */
  datatype Call = Call(at: int, workload: Workload)

  /** What became of it: the mode it was decided by, if it had to ask, and whether the
      patch was sent. */
  datatype Decision = Decision(call: Call, answer: Option<Mode>, patched: bool)

  datatype Guard = Guard(
    cached: Option<Entry>,
    inflight: Option<Flight>,
    requests: map<nat, int>,      // reads the API has not answered, with their start
    next: nat,
    waiting: seq<Call>,
    decided: seq<Decision>)

  const IDLE := Guard(None, None, map[], 0, [], [])

  /** An answer reports the record as it was at `looked`. */
  datatype Event = Write(workload: Workload) | Answered(id: nat, looked: int, ok: bool, status: Option<int>) | TimedOut

  datatype Timed = Timed(at: int, event: Event)

  /** What the API would return for the record at each moment. */
  type Timeline = int -> Record

  function Decide(call: Call, answer: Mode): Decision {
    Decision(call, Some(answer), !Paused(answer))
  }

  function DecideAll(calls: seq<Call>, answer: Mode): seq<Decision> {
    seq(|calls|, i requires 0 <= i < |calls| => Decide(calls[i], answer))
  }

  function Settle(g: Guard, at: int, value: Mode): Guard {
    g.(cached := Some(Entry(at, value)), inflight := None, waiting := [],
       decided := g.decided + DecideAll(g.waiting, value))
  }

  predicate FreshAt(g: Guard, at: int) {
    g.cached.Some? && at - g.cached.value.at < TTL
  }

  /** A guarded write: at once when the workload is not the switch's or the cache is
      fresh, and otherwise when the shared read settles. */
  function Attempt(owned: set<Workload>, g: Guard, call: Call): Guard {
    if !Owned(owned, call.workload) then g.(decided := g.decided + [Decision(call, None, true)])
    else if FreshAt(g, call.at) then g.(decided := g.decided + [Decide(call, g.cached.value.value)])
    else if g.inflight.Some? then g.(waiting := g.waiting + [call])
    else g.(waiting := g.waiting + [call], inflight := Some(Flight(g.next, call.at)),
            requests := g.requests[g.next := call.at], next := g.next + 1)
  }

  function Value(timeline: Timeline, looked: int, ok: bool, status: Option<int>): Mode {
    if ok then Parse(timeline(looked)) else FromError(status)
  }

  /** An answer that comes after the timeout settles nothing. */
  function Receive(g: Guard, at: int, id: nat, value: Mode): Guard {
    var g' := g.(requests := g.requests - {id});
    if g.inflight.Some? && g.inflight.value.id == id then Settle(g', at, value) else g'
  }

  /** The timer of the awaited read has not been missed. */
  predicate OnTime(g: Guard, at: int) {
    g.inflight.Some? ==> g.inflight.value.startedAt <= at <= g.inflight.value.startedAt + TIMEOUT
  }

  predicate Enabled(g: Guard, e: Timed) {
    && OnTime(g, e.at)
    && match e.event
       case Write(_) => true
       case Answered(id, looked, _, _) => id in g.requests && g.requests[id] <= looked <= e.at
       case TimedOut => g.inflight.Some? && e.at == g.inflight.value.startedAt + TIMEOUT
  }

  function Step(owned: set<Workload>, timeline: Timeline, g: Guard, e: Timed): Guard {
    match e.event
    case Write(w) => Attempt(owned, g, Call(e.at, w))
    case Answered(id, looked, ok, status) => Receive(g, e.at, id, Value(timeline, looked, ok, status))
    case TimedOut => Settle(g, e.at, FromError(None))
  }

  predicate ValidRun(owned: set<Workload>, timeline: Timeline, g: Guard, now: int, run: seq<Timed>)
    decreases |run|
  {
    |run| > 0 ==>
      now <= run[0].at && Enabled(g, run[0])
      && ValidRun(owned, timeline, Step(owned, timeline, g, run[0]), run[0].at, run[1..])
  }

  function After(owned: set<Workload>, timeline: Timeline, g: Guard, now: int, run: seq<Timed>): Guard
    requires ValidRun(owned, timeline, g, now, run)
    decreases |run|
  {
    if |run| == 0 then g else After(owned, timeline, Step(owned, timeline, g, run[0]), run[0].at, run[1..])
  }

  // ----- the guard is never sticky ---------------------------------------------------

  /** From `since` on the record says the same thing. */
  ghost predicate Settled(timeline: Timeline, since: int, m: Mode) {
    forall t :: t >= since ==> Parse(timeline(t)) == m
  }

  /** The settled mode, or the fallback of a failed read, which lets the write through. */
  predicate Sound(answer: Mode, m: Mode) {
    answer == m || (!Paused(answer) && answer.source != ConfigMap)
  }

  /** The latest a mode read before the change can still decide a write. */
  const LAG := 12999

  predicate Consistent(g: Guard, now: int) {
    && (g.cached.Some? ==> g.cached.value.at <= now)
    && (g.inflight.Some? ==>
          && g.inflight.value.startedAt <= now <= g.inflight.value.startedAt + TIMEOUT
          && g.inflight.value.id < g.next
          && (g.cached.Some? ==> g.inflight.value.startedAt - g.cached.value.at >= TTL)
          && (forall i :: 0 <= i < |g.waiting| ==> g.waiting[i].at >= g.inflight.value.startedAt)
          && (g.inflight.value.id in g.requests ==> g.requests[g.inflight.value.id] == g.inflight.value.startedAt))
    && (g.inflight.None? ==> g.waiting == [])
    && (forall i :: 0 <= i < |g.waiting| ==> g.waiting[i].at <= now)
  }

  /** What is cached since a read could have seen only the settled record is sound, and
      so is what late writes were decided by. */
  predicate Current(g: Guard, since: int, m: Mode) {
    && (g.cached.Some? && g.cached.value.at >= since + TIMEOUT ==> Sound(g.cached.value.value, m))
    && (forall i :: 0 <= i < |g.decided| && g.decided[i].call.at >= since + LAG && g.decided[i].answer.Some? ==>
          Sound(g.decided[i].answer.value, m))
  }

  /** A patch is sent exactly for a workload the switch does not own and for one it owns
      when the mode asked for is not paused. */
  predicate Obeyed(owned: set<Workload>, g: Guard) {
    && (forall i :: 0 <= i < |g.decided| ==>
          var d := g.decided[i];
          && (d.answer.Some? <==> Owned(owned, d.call.workload))
          && (d.patched <==> d.answer.None? || !Paused(d.answer.value)))
    && (forall i :: 0 <= i < |g.waiting| ==> Owned(owned, g.waiting[i].workload))
  }

  lemma SettleKeeps(owned: set<Workload>, g: Guard, at: int, value: Mode, since: int, m: Mode)
    requires Consistent(g, at) && Current(g, since, m) && Obeyed(owned, g)
    requires g.inflight.Some?
    requires g.inflight.value.startedAt >= since ==> Sound(value, m)
    ensures Consistent(Settle(g, at, value), at) && Current(Settle(g, at, value), since, m)
    ensures Obeyed(owned, Settle(g, at, value))
  {
  }

  lemma AttemptKeeps(owned: set<Workload>, g: Guard, call: Call, since: int, m: Mode)
    requires Consistent(g, call.at) && Current(g, since, m) && Obeyed(owned, g)
    ensures var g' := Attempt(owned, g, call);
            Consistent(g', call.at) && Current(g', since, m) && Obeyed(owned, g')
  {
  }

  lemma StepKeeps(owned: set<Workload>, timeline: Timeline, g: Guard, now: int, e: Timed, since: int, m: Mode)
    requires Settled(timeline, since, m) && now <= e.at && Enabled(g, e)
    requires Consistent(g, now) && Current(g, since, m) && Obeyed(owned, g)
    ensures var g' := Step(owned, timeline, g, e);
            Consistent(g', e.at) && Current(g', since, m) && Obeyed(owned, g')
  {
    match e.event
    case Write(w) => AttemptKeeps(owned, g, Call(e.at, w), since, m);
    case Answered(id, looked, ok, status) =>
      var value := Value(timeline, looked, ok, status);
      if looked >= since { assert Parse(timeline(looked)) == m; }
      if g.inflight.Some? && g.inflight.value.id == id {
        SettleKeeps(owned, g.(requests := g.requests - {id}), e.at, value, since, m);
      }
    case TimedOut => SettleKeeps(owned, g, e.at, FromError(None), since, m);
  }

  /** Whatever interleaving led there: no patch of a switch-owned workload is sent after a
      paused answer, and a write attempted 12999 ms or more after the mode settled is
      decided by the settled mode or let through by a failed read. */
  lemma {:induction false} NeverSticky(
    owned: set<Workload>, timeline: Timeline, g: Guard, now: int, run: seq<Timed>, since: int, m: Mode)
    requires Settled(timeline, since, m) && ValidRun(owned, timeline, g, now, run)
    requires Consistent(g, now) && Current(g, since, m) && Obeyed(owned, g)
    ensures var g' := After(owned, timeline, g, now, run);
            Obeyed(owned, g') && Current(g', since, m)
    decreases |run|
  {
    if |run| > 0 {
      StepKeeps(owned, timeline, g, now, run[0], since, m);
      NeverSticky(owned, timeline, Step(owned, timeline, g, run[0]), run[0].at, run[1..], since, m);
    }
  }

  /** One millisecond earlier it may still be the mode before: read just before the
      change, answered just before the timeout, cached almost for its whole life. */
  lemma StickyJustBefore(w: Workload, before: Record, after: Record, since: int)
    requires Paused(Parse(before)) && !Paused(Parse(after))
    ensures var timeline := (t: int) => if t < since then before else after;
            var t0 := since - 1;
            var run := [Timed(t0, Write(w)), Timed(t0 + TIMEOUT, Answered(0, t0, true, None)),
                        Timed(since + LAG - 1, Write(w))];
            && Settled(timeline, since, Parse(after))
            && ValidRun({w}, timeline, IDLE, t0, run)
            && var d := After({w}, timeline, IDLE, t0, run).decided;
               |d| == 2 && d[1] == Decision(Call(since + LAG - 1, w), Some(Parse(before)), false)
  {
    var timeline := (t: int) => if t < since then before else after;
    var t0 := since - 1;
    var run := [Timed(t0, Write(w)), Timed(t0 + TIMEOUT, Answered(0, t0, true, None)),
                Timed(since + LAG - 1, Write(w))];
    var g1 := Step({w}, timeline, IDLE, run[0]);
    var g2 := Step({w}, timeline, g1, run[1]);
    var g3 := Step({w}, timeline, g2, run[2]);
    assert g1 == Guard(None, Some(Flight(0, t0)), map[0 := t0], 1, [Call(t0, w)], []);
    assert g2.decided == [Decide(Call(t0, w), Parse(before))];
    assert run[1..][0] == run[1] && run[1..][1..] == run[2..] && run[2..][0] == run[2] && run[2..][1..] == [];
    var end := run[2].at;
    assert ValidRun({w}, timeline, g3, end, []) && After({w}, timeline, g3, end, []) == g3;
    assert ValidRun({w}, timeline, g2, run[1].at, run[2..]) && After({w}, timeline, g2, run[1].at, run[2..]) == g3;
    assert ValidRun({w}, timeline, g1, t0, run[1..]) && After({w}, timeline, g1, t0, run[1..]) == g3;
  }

  // ----- a refusal is the record's doing --------------------------------------------------

  /** The record said this mode at some moment of the interval. */
  ghost predicate SaidWithin(timeline: Timeline, m: Mode, from: int, to: int) {
    exists looked :: from <= looked <= to && Parse(timeline(looked)) == m
  }

  /** Whatever pauses writes was said by the record: the cache at most a timeout before it
      was filled, the mode that refused a write within the lag before it or a timeout
      after. */
  ghost predicate PausedByTheRecord(g: Guard, timeline: Timeline) {
    && (g.cached.Some? && Paused(g.cached.value.value) ==>
          SaidWithin(timeline, g.cached.value.value, g.cached.value.at - TIMEOUT, g.cached.value.at))
    && (forall i :: 0 <= i < |g.decided| && g.decided[i].answer.Some? && Paused(g.decided[i].answer.value) ==>
          SaidWithin(timeline, g.decided[i].answer.value, g.decided[i].call.at - LAG, g.decided[i].call.at + TIMEOUT))
  }

  lemma SettleIsTheRecords(g: Guard, timeline: Timeline, at: int, value: Mode)
    requires Consistent(g, at) && PausedByTheRecord(g, timeline) && g.inflight.Some?
    requires Paused(value) ==> SaidWithin(timeline, value, g.inflight.value.startedAt, at)
    ensures PausedByTheRecord(Settle(g, at, value), timeline)
  {
    if Paused(value) {
      var looked :| g.inflight.value.startedAt <= looked <= at && Parse(timeline(looked)) == value;
    }
  }

  lemma AttemptIsTheRecords(owned: set<Workload>, g: Guard, timeline: Timeline, call: Call)
    requires Consistent(g, call.at) && PausedByTheRecord(g, timeline)
    ensures PausedByTheRecord(Attempt(owned, g, call), timeline)
  {
    if FreshAt(g, call.at) && Paused(g.cached.value.value) {
      var at := g.cached.value.at;
      var looked :| at - TIMEOUT <= looked <= at && Parse(timeline(looked)) == g.cached.value.value;
    }
  }

  lemma StepIsTheRecords(owned: set<Workload>, timeline: Timeline, g: Guard, now: int, e: Timed)
    requires now <= e.at && Enabled(g, e) && Consistent(g, now) && PausedByTheRecord(g, timeline)
    ensures PausedByTheRecord(Step(owned, timeline, g, e), timeline)
  {
    match e.event
    case Write(w) => AttemptIsTheRecords(owned, g, timeline, Call(e.at, w));
    case Answered(id, looked, ok, status) =>
      if g.inflight.Some? && g.inflight.value.id == id {
        SettleIsTheRecords(g.(requests := g.requests - {id}), timeline, e.at, Value(timeline, looked, ok, status));
      }
    case TimedOut => SettleIsTheRecords(g, timeline, e.at, FromError(None));
  }

  lemma StepIsConsistent(owned: set<Workload>, timeline: Timeline, g: Guard, now: int, e: Timed)
    requires now <= e.at && Enabled(g, e) && Consistent(g, now) && Obeyed(owned, g)
    ensures Consistent(Step(owned, timeline, g, e), e.at) && Obeyed(owned, Step(owned, timeline, g, e))
  {
    match e.event
    case Write(w) => AttemptIsConsistent(owned, g, Call(e.at, w));
    case Answered(id, looked, ok, status) =>
    case TimedOut =>
  }

  lemma AttemptIsConsistent(owned: set<Workload>, g: Guard, call: Call)
    requires Consistent(g, call.at) && Obeyed(owned, g)
    ensures Consistent(Attempt(owned, g, call), call.at) && Obeyed(owned, Attempt(owned, g, call))
  {
  }

  lemma {:induction false} RunIsTheRecords(
    owned: set<Workload>, timeline: Timeline, g: Guard, now: int, run: seq<Timed>)
    requires ValidRun(owned, timeline, g, now, run)
    requires Consistent(g, now) && Obeyed(owned, g) && PausedByTheRecord(g, timeline)
    ensures Obeyed(owned, After(owned, timeline, g, now, run))
    ensures PausedByTheRecord(After(owned, timeline, g, now, run), timeline)
    decreases |run|
  {
    if |run| > 0 {
      StepIsTheRecords(owned, timeline, g, now, run[0]);
      StepIsConsistent(owned, timeline, g, now, run[0]);
      RunIsTheRecords(owned, timeline, Step(owned, timeline, g, run[0]), run[0].at, run[1..]);
    }
  }

  /** Over every run: a write is refused only when the record itself, at some moment from
      12999 ms before the attempt to 3000 ms after it, was there and named another mode.
      No absent, unreadable or malformed record ever stops a write. */
  lemma RefusedOnlyByTheRecord(
    owned: set<Workload>, timeline: Timeline, g: Guard, now: int, run: seq<Timed>, i: nat)
    requires ValidRun(owned, timeline, g, now, run)
    requires Consistent(g, now) && Obeyed(owned, g) && PausedByTheRecord(g, timeline)
    requires i < |After(owned, timeline, g, now, run).decided|
    requires !After(owned, timeline, g, now, run).decided[i].patched
    ensures var call := After(owned, timeline, g, now, run).decided[i].call;
            && Owned(owned, call.workload)
            && exists looked :: call.at - LAG <= looked <= call.at + TIMEOUT && NamesAnotherMode(timeline(looked))
  {
    RunIsTheRecords(owned, timeline, g, now, run);
    var d := After(owned, timeline, g, now, run).decided[i];
    var looked :| d.call.at - LAG <= looked <= d.call.at + TIMEOUT && Parse(timeline(looked)) == d.answer.value;
    PausedOnlyByTheRecord(timeline(looked), None);
  }

  // ----- every write is decided ------------------------------------------------------------

  function Calls(ds: seq<Decision>): seq<Call> {
    seq(|ds|, i requires 0 <= i < |ds| => ds[i].call)
  }

  /** The writes attempted so far, decided or waiting. */
  function Known(g: Guard): multiset<Call> {
    multiset(Calls(g.decided)) + multiset(g.waiting)
  }

  /** The writes a run attempts. */
  function Attempts(run: seq<Timed>): multiset<Call> {
    if |run| == 0 then multiset{}
    else (match run[0].event case Write(w) => multiset{Call(run[0].at, w)} case _ => multiset{}) + Attempts(run[1..])
  }

  lemma CallsOfBoth(ds: seq<Decision>, more: seq<Decision>)
    ensures multiset(Calls(ds + more)) == multiset(Calls(ds)) + multiset(Calls(more))
  {
    assert Calls(ds + more) == Calls(ds) + Calls(more);
  }

  lemma AttemptIsKnown(owned: set<Workload>, g: Guard, call: Call)
    ensures Known(Attempt(owned, g, call)) == Known(g) + multiset{call}
  {
    var g' := Attempt(owned, g, call);
    if g'.waiting == g.waiting {
      var d := g'.decided[|g.decided|];
      CallsOfBoth(g.decided, [d]);
      assert Calls([d]) == [call];
    }
  }

  lemma SettleKeepsCalls(g: Guard, at: int, value: Mode)
    ensures Known(Settle(g, at, value)) == Known(g)
  {
    CallsOfBoth(g.decided, DecideAll(g.waiting, value));
    assert Calls(DecideAll(g.waiting, value)) == g.waiting;
  }

  lemma StepIsKnown(owned: set<Workload>, timeline: Timeline, g: Guard, e: Timed)
    requires Enabled(g, e)
    ensures Known(Step(owned, timeline, g, e)) == Known(g) + Attempts([e])
  {
    assert Attempts([e]) == (match e.event case Write(w) => multiset{Call(e.at, w)} case _ => multiset{});
    match e.event
    case Write(w) => AttemptIsKnown(owned, g, Call(e.at, w));
    case Answered(id, looked, ok, status) =>
      SettleKeepsCalls(g.(requests := g.requests - {id}), e.at, Value(timeline, looked, ok, status));
    case TimedOut => SettleKeepsCalls(g, e.at, FromError(None));
  }

  function Clock(now: int, run: seq<Timed>): int {
    if |run| == 0 then now else run[|run| - 1].at
  }

  /** No write is lost, doubled or made up: over every run the decided and the waiting are,
      call for call, those before and one for each write attempted. */
  lemma {:induction false} NoWriteIsLost(
    owned: set<Workload>, timeline: Timeline, g: Guard, now: int, run: seq<Timed>)
    requires ValidRun(owned, timeline, g, now, run)
    ensures Known(After(owned, timeline, g, now, run)) == Known(g) + Attempts(run)
    decreases |run|
  {
    if |run| > 0 {
      StepIsKnown(owned, timeline, g, run[0]);
      NoWriteIsLost(owned, timeline, Step(owned, timeline, g, run[0]), run[0].at, run[1..]);
      AttemptsCons(run);
    }
  }

  lemma AttemptsCons(run: seq<Timed>)
    requires |run| > 0
    ensures Attempts(run) == Attempts([run[0]]) + Attempts(run[1..])
  {
    assert [run[0]][1..] == [];
  }

  lemma {:induction false} RunIsConsistent(
    owned: set<Workload>, timeline: Timeline, g: Guard, now: int, run: seq<Timed>)
    requires ValidRun(owned, timeline, g, now, run) && Consistent(g, now) && Obeyed(owned, g)
    ensures Consistent(After(owned, timeline, g, now, run), Clock(now, run))
    decreases |run|
  {
    if |run| > 0 {
      StepIsConsistent(owned, timeline, g, now, run[0]);
      RunIsConsistent(owned, timeline, Step(owned, timeline, g, run[0]), run[0].at, run[1..]);
    }
  }

  /** Each is decided, as often as it was attempted, once no read is under way, and at the
      latest when it is more than 3000 ms old. */
  lemma EveryWriteIsDecided(
    owned: set<Workload>, timeline: Timeline, g: Guard, now: int, run: seq<Timed>, call: Call)
    requires ValidRun(owned, timeline, g, now, run) && Consistent(g, now) && Obeyed(owned, g)
    ensures var g' := After(owned, timeline, g, now, run);
            g'.inflight.None? || call.at + 3000 < Clock(now, run) ==>
              multiset(Calls(g'.decided))[call] == Known(g)[call] + Attempts(run)[call]
  {
    NoWriteIsLost(owned, timeline, g, now, run);
    RunIsConsistent(owned, timeline, g, now, run);
    var g' := After(owned, timeline, g, now, run);
    assert Known(g')[call] == (Known(g) + Attempts(run))[call];
    if g'.inflight.None? || call.at + 3000 < Clock(now, run) {
      OldCallsAreDecided(g', Clock(now, run), call);
    }
  }

  lemma OldCallsAreDecided(g: Guard, now: int, call: Call)
    requires Consistent(g, now) && (g.inflight.None? || call.at + 3000 < now)
    ensures multiset(Calls(g.decided))[call] == Known(g)[call]
  {
    assert call !in g.waiting;
  }

  // ----- a pause is obeyed -----------------------------------------------------------------

  /** No read of the run fails. */
  predicate AllReadsSucceed(run: seq<Timed>) {
    forall i :: 0 <= i < |run| ==> Succeeds(run[i].event)
  }

  predicate Succeeds(e: Event) {
    !e.TimedOut? && (e.Answered? ==> e.ok)
  }

  /** What is cached since a read could have seen only the settled record is its mode, and
      so is what late writes were decided by. */
  predicate UpToDate(g: Guard, since: int, m: Mode) {
    && (g.cached.Some? && g.cached.value.at >= since + TIMEOUT ==> g.cached.value.value == m)
    && (forall i :: 0 <= i < |g.decided| && g.decided[i].call.at >= since + LAG && g.decided[i].answer.Some? ==>
          g.decided[i].answer.value == m)
  }

  lemma StepIsUpToDate(owned: set<Workload>, timeline: Timeline, g: Guard, now: int, e: Timed, since: int, m: Mode)
    requires Settled(timeline, since, m) && now <= e.at && Enabled(g, e) && Succeeds(e.event)
    requires Consistent(g, now) && UpToDate(g, since, m)
    ensures UpToDate(Step(owned, timeline, g, e), since, m)
  {
    match e.event
    case Write(w) =>
    case Answered(id, looked, ok, status) =>
      if looked >= since { assert Parse(timeline(looked)) == m; }
      if g.inflight.Some? && g.inflight.value.id == id {
        assert looked >= g.inflight.value.startedAt;
      }
  }

  /** The other way round: while no read fails, every write to an owned workload that is
      attempted 12999 ms or more after the mode settled is decided by that mode and no
      other, so one that is not the console's refuses them all. */
  lemma {:induction false} PauseIsObeyed(
    owned: set<Workload>, timeline: Timeline, g: Guard, now: int, run: seq<Timed>, since: int, m: Mode)
    requires Settled(timeline, since, m) && ValidRun(owned, timeline, g, now, run) && AllReadsSucceed(run)
    requires Consistent(g, now) && UpToDate(g, since, m) && Obeyed(owned, g)
    ensures var g' := After(owned, timeline, g, now, run);
            && UpToDate(g', since, m)
            && forall i :: 0 <= i < |g'.decided| ==>
                 var d := g'.decided[i];
                 Owned(owned, d.call.workload) && d.call.at >= since + 12999 ==>
                   d.answer == Some(m) && (d.patched <==> !Paused(m))
    decreases |run|
  {
    if |run| > 0 {
      StepIsUpToDate(owned, timeline, g, now, run[0], since, m);
      StepIsConsistent(owned, timeline, g, now, run[0]);
      PauseIsObeyed(owned, timeline, Step(owned, timeline, g, run[0]), run[0].at, run[1..], since, m);
    }
  }

  // ----- one read at a time -------------------------------------------------------------

  /** The step asks the API: an owned workload, no fresh answer and no shared read. */
  predicate StartsRead(owned: set<Workload>, g: Guard, e: Timed) {
    e.event.Write? && Owned(owned, e.event.workload) && !FreshAt(g, e.at) && g.inflight.None?
  }

  ghost predicate AtMostOneThroughout(owned: set<Workload>, timeline: Timeline, g: Guard, run: seq<Timed>)
    decreases |run|
  {
    && |g.requests| <= 1
    && (|run| > 0 ==> AtMostOneThroughout(owned, timeline, Step(owned, timeline, g, run[0]), run[1..]))
  }

  /** Whenever a read is started every earlier one has been answered. */
  ghost predicate EveryStartIsAlone(owned: set<Workload>, timeline: Timeline, g: Guard, run: seq<Timed>)
    decreases |run|
  {
    |run| > 0 ==>
      && (StartsRead(owned, g, run[0]) ==> g.requests == map[])
      && EveryStartIsAlone(owned, timeline, Step(owned, timeline, g, run[0]), run[1..])
  }

  predicate IdsBelow(g: Guard) {
    forall id :: id in g.requests ==> id < g.next
  }

  /** Exactly when two reads are ever outstanding: at most one is, in every state of the
      run, if and only if each read is started with no earlier one unanswered. */
  lemma {:induction false} OneReadExactly(
    owned: set<Workload>, timeline: Timeline, g: Guard, now: int, run: seq<Timed>)
    requires ValidRun(owned, timeline, g, now, run) && |g.requests| <= 1 && IdsBelow(g)
    ensures AtMostOneThroughout(owned, timeline, g, run) <==> EveryStartIsAlone(owned, timeline, g, run)
    decreases |run|
  {
    if |run| > 0 {
      var g' := Step(owned, timeline, g, run[0]);
      RequestsAfter(owned, timeline, g, run[0]);
      if |g'.requests| <= 1 {
        OneReadExactly(owned, timeline, g', run[0].at, run[1..]);
      }
    }
  }

  lemma RequestsAfter(owned: set<Workload>, timeline: Timeline, g: Guard, e: Timed)
    requires Enabled(g, e) && |g.requests| <= 1 && IdsBelow(g)
    ensures var g' := Step(owned, timeline, g, e);
            && IdsBelow(g')
            && (StartsRead(owned, g, e) ==> |g'.requests| == |g.requests| + 1)
            && (!StartsRead(owned, g, e) ==> g'.requests.Keys <= g.requests.Keys && |g'.requests| <= 1)
    ensures |g.requests| == 0 <==> g.requests == map[]
  {
    var g' := Step(owned, timeline, g, e);
    if StartsRead(owned, g, e) {
      assert g.next !in g.requests;
    } else {
      FewerKeys(g'.requests, g.requests);
    }
  }

  lemma FewerKeys(a: map<nat, int>, b: map<nat, int>)
    requires a.Keys <= b.Keys
    ensures |a| <= |b|
  {
    var rest := b.Keys - a.Keys;
    assert b.Keys == a.Keys + rest;
    assert |a.Keys| + |rest| == |b.Keys|;
  }

  /** No read has been unanswered for a cache life and a timeout at any event. */
  ghost predicate AnsweredInTime(owned: set<Workload>, timeline: Timeline, g: Guard, run: seq<Timed>)
    decreases |run|
  {
    |run| > 0 ==>
      && (forall id :: id in g.requests ==> run[0].at - g.requests[id] < TTL + TIMEOUT)
      && AnsweredInTime(owned, timeline, Step(owned, timeline, g, run[0]), run[1..])
  }

  /** The awaited read is the only one on the wire; an abandoned one is at least a timeout
      older than the cache. */
  predicate Tidy(g: Guard) {
    && IdsBelow(g)
    && (g.inflight.Some? ==>
          g.requests.Keys == {g.inflight.value.id} && g.requests[g.inflight.value.id] == g.inflight.value.startedAt)
    && (g.inflight.None? ==> |g.requests| <= 1)
    && (g.inflight.None? ==> forall id :: id in g.requests ==>
          g.cached.Some? && g.cached.value.at >= g.requests[id] + TIMEOUT)
  }

  lemma StepIsTidy(owned: set<Workload>, timeline: Timeline, g: Guard, e: Timed)
    requires Tidy(g) && Enabled(g, e)
    requires forall id :: id in g.requests ==> e.at - g.requests[id] < TTL + TIMEOUT
    ensures Tidy(Step(owned, timeline, g, e))
    ensures |g.requests| <= 1
  {
    if g.inflight.Some? {
      assert |g.requests.Keys| == 1;
    }
    RequestsAfter(owned, timeline, g, e);
    if StartsRead(owned, g, e) {
      forall id ensures id !in g.requests {}
      assert g.requests == map[];
    }
  }

  /** Over every run, timeouts included: while no read stays unanswered for 13 s, at most
      one is outstanding at any time, however many writes are attempted. */
  lemma {:induction false} OneReadAtATime(
    owned: set<Workload>, timeline: Timeline, g: Guard, now: int, run: seq<Timed>)
    requires ValidRun(owned, timeline, g, now, run) && Tidy(g) && AnsweredInTime(owned, timeline, g, run)
    ensures AtMostOneThroughout(owned, timeline, g, run)
    decreases |run|
  {
    if |run| > 0 {
      StepIsTidy(owned, timeline, g, run[0]);
      OneReadAtATime(owned, timeline, Step(owned, timeline, g, run[0]), run[0].at, run[1..]);
    } else if g.inflight.Some? {
      assert |g.requests.Keys| == 1;
    }
  }

  lemma IdleIsAStart(owned: set<Workload>, timeline: Timeline, now: int, since: int, m: Mode)
    ensures Consistent(IDLE, now) && Current(IDLE, since, m) && Obeyed(owned, IDLE)
    ensures PausedByTheRecord(IDLE, timeline) && Tidy(IDLE)
  {
  }

  /** From the module's own start: in every run each write is decided or waiting, writes are
      refused by the record only and late ones decided by the settled mode, and while reads
      are answered in time at most one is outstanding. */
  lemma FromTheStart(owned: set<Workload>, timeline: Timeline, now: int, run: seq<Timed>, since: int, m: Mode)
    requires Settled(timeline, since, m) && ValidRun(owned, timeline, IDLE, now, run)
    ensures var g := After(owned, timeline, IDLE, now, run);
            Obeyed(owned, g) && Current(g, since, m) && PausedByTheRecord(g, timeline) && Known(g) == Attempts(run)
    ensures AllReadsSucceed(run) ==> UpToDate(After(owned, timeline, IDLE, now, run), since, m)
    ensures AnsweredInTime(owned, timeline, IDLE, run) ==> AtMostOneThroughout(owned, timeline, IDLE, run)
  {
    IdleIsAStart(owned, timeline, now, since, m);
    NeverSticky(owned, timeline, IDLE, now, run, since, m);
    RunIsTheRecords(owned, timeline, IDLE, now, run);
    NoWriteIsLost(owned, timeline, IDLE, now, run);
    if AllReadsSucceed(run) {
      PauseIsObeyed(owned, timeline, IDLE, now, run, since, m);
    }
    if AnsweredInTime(owned, timeline, IDLE, run) {
      OneReadAtATime(owned, timeline, IDLE, now, run);
    }
  }

  /** And 13 s is the limit: a timed-out read is abandoned, not cancelled, and one that is
      still unanswered exactly then overlaps the next. */
  lemma TimeoutOverlaps(w: Workload, timeline: Timeline, t: int)
    ensures var run := [Timed(t, Write(w)), Timed(t + TIMEOUT, TimedOut), Timed(t + TIMEOUT + TTL, Write(w))];
            && ValidRun({w}, timeline, IDLE, t, run)
            && After({w}, timeline, IDLE, t, run).requests == map[0 := t, 1 := t + TIMEOUT + TTL]
  {
    var run := [Timed(t, Write(w)), Timed(t + TIMEOUT, TimedOut), Timed(t + TIMEOUT + TTL, Write(w))];
    var g1 := Step({w}, timeline, IDLE, run[0]);
    var g2 := Step({w}, timeline, g1, run[1]);
    var g3 := Step({w}, timeline, g2, run[2]);
    assert run[1..][0] == run[1] && run[1..][1..] == run[2..] && run[2..][0] == run[2] && run[2..][1..] == [];
    var end := run[2].at;
    assert ValidRun({w}, timeline, g3, end, []) && After({w}, timeline, g3, end, []) == g3;
    assert ValidRun({w}, timeline, g2, run[1].at, run[2..]) && After({w}, timeline, g2, run[1].at, run[2..]) == g3;
    assert ValidRun({w}, timeline, g1, t, run[1..]) && After({w}, timeline, g1, t, run[1..]) == g3;
  }

  /** `boxPausedResponse`: a 409 naming the owned ones among the workloads, or none. */
  function PausedResponse(owned: set<Workload>, workloads: seq<Workload>, m: Mode): (r: Option<seq<Workload>>)
    ensures r.None? <==> !Paused(m) || forall i :: 0 <= i < |workloads| ==> !Owned(owned, workloads[i])
    ensures r.Some? ==> forall w :: w in r.value <==> w in workloads && Owned(owned, w)
  {
    var mine := OwnedOnly(owned, workloads);
    if mine == [] || !Paused(m) then None else Some(mine)
  }

  function OwnedOnly(owned: set<Workload>, workloads: seq<Workload>): (r: seq<Workload>)
    ensures forall w :: w in r <==> w in workloads && Owned(owned, w)
    ensures r == [] <==> forall i :: 0 <= i < |workloads| ==> !Owned(owned, workloads[i])
  {
    if |workloads| == 0 then []
    else
      var rest := OwnedOnly(owned, workloads[1..]);
      assert workloads == [workloads[0]] + workloads[1..];
      assert forall i :: 0 < i < |workloads| ==> workloads[i] == workloads[1..][i - 1];
      if Owned(owned, workloads[0]) then [workloads[0]] + rest else rest
  }

  /** Every decision of the run on one of the workloads sent its patch. */
  predicate AllPatched(decided: seq<Decision>, from: nat, workloads: seq<Workload>) {
    forall i :: from <= i < |decided| && decided[i].call.workload in workloads ==> decided[i].patched
  }

  /** The up-front check spares a half-applied save: after it answered nothing, and until
      the mode it was answered by is 10 s old, no write to its workloads is refused,
      whatever else is attempted, answered or times out in between. */
  lemma {:induction false} CheckedSaveIsNotRefused(
    owned: set<Workload>, timeline: Timeline, workloads: seq<Workload>, g: Guard, now: int, run: seq<Timed>)
    requires ValidRun(owned, timeline, g, now, run) && Consistent(g, now) && FreshAt(g, now)
    requires PausedResponse(owned, workloads, g.cached.value.value).None?
    requires forall i :: 0 <= i < |run| ==> FreshAt(g, run[i].at)
    ensures var g' := After(owned, timeline, g, now, run);
            |g.decided| <= |g'.decided| && g'.cached == g.cached && AllPatched(g'.decided, |g.decided|, workloads)
    decreases |run|
  {
    if |run| > 0 {
      assert FreshAt(g, run[0].at) && g.inflight.None?;
      var g' := Step(owned, timeline, g, run[0]);
      assert Consistent(g', run[0].at);
      CheckedSaveIsNotRefused(owned, timeline, workloads, g', run[0].at, run[1..]);
      var end := After(owned, timeline, g', run[0].at, run[1..]);
      DecisionsStay(owned, timeline, g', run[0].at, run[1..]);
      assert run[0].event.Write? ==> AllPatched(g'.decided, |g.decided|, workloads);
      assert forall i :: 0 <= i < |g'.decided| ==> end.decided[i] == g'.decided[i];
    }
  }

  /** Decisions are only added. */
  lemma {:induction false} DecisionsStay(
    owned: set<Workload>, timeline: Timeline, g: Guard, now: int, run: seq<Timed>)
    requires ValidRun(owned, timeline, g, now, run)
    ensures g.decided <= After(owned, timeline, g, now, run).decided
    decreases |run|
  {
    if |run| > 0 {
      DecisionsStay(owned, timeline, Step(owned, timeline, g, run[0]), run[0].at, run[1..]);
    }
  }

  // ----- the module itself ---------------------------------------------------------------

  class BoxModeGuard {
    const owned: set<Workload>
    var cached: Option<Entry>
    var inflight: Option<Flight>
    var requests: map<nat, int>
    var next: nat
    var waiting: seq<Call>
    var decided: seq<Decision>

    constructor (owned: set<Workload>)
      ensures State() == IDLE && this.owned == owned
    {
      this.owned := owned;
      cached, inflight, requests, next, waiting, decided := None, None, map[], 0, [], [];
    }

    function State(): Guard
      reads this
    {
      Guard(cached, inflight, requests, next, waiting, decided)
    }

    /** `getBoxMode`, up to where it waits: the fresh value, or nothing while the shared
        read, started here if there was none, is under way. */
    method GetBoxMode(now: int) returns (value: Option<Mode>)
      modifies this
      ensures value.Some? <==> FreshAt(old(State()), now)
      ensures value.Some? ==> State() == old(State()) && value.value == old(cached).value.value
      ensures value.None? && old(inflight).Some? ==> State() == old(State())
      ensures value.None? && old(inflight).None? ==>
                State() == old(State()).(inflight := Some(Flight(old(next), now)),
                                         requests := old(requests)[old(next) := now], next := old(next) + 1)
    {
      if cached.Some? && now - cached.value.at < TTL { return Some(cached.value.value); }
      if inflight.Some? { return None; }
      inflight := Some(Flight(next, now));
      requests := requests[next := now];
      next := next + 1;
      return None;
    }

    /** `rolloutRestart` and `scaleDeployment`: the guard, then the patch. */
    method GuardedWrite(workload: Workload, now: int)
      modifies this
      ensures State() == Attempt(owned, old(State()), Call(now, workload))
    {
      if !Owned(owned, workload) {
        decided := decided + [Decision(Call(now, workload), None, true)];
        return;
      }
      var m := GetBoxMode(now);
      if m.Some? {
        decided := decided + [Decide(Call(now, workload), m.value)];
      } else {
        waiting := waiting + [Call(now, workload)];
      }
    }

    /** The API answers a read. */
    method Answered(id: nat, value: Mode, now: int)
      modifies this
      ensures State() == Receive(old(State()), now, id, value)
    {
      requests := requests - {id};
      if inflight.Some? && inflight.value.id == id { SettleRead(value, now); }
    }

    /** The read is over, with an answer or without: cache it and wake whoever waits. */
    method SettleRead(value: Mode, now: int)
      modifies this
      ensures State() == Settle(old(State()), now, value)
    {
      cached := Some(Entry(now, value));
      inflight := None;
      var i := 0;
      while i < |waiting|
        invariant 0 <= i <= |waiting| && waiting == old(waiting)
        invariant decided == old(decided) + DecideAll(waiting[..i], value)
        invariant cached == Some(Entry(now, value)) && inflight == None
        invariant requests == old(requests) && next == old(next)
      {
        assert waiting[..i + 1] == waiting[..i] + [waiting[i]];
        decided := decided + [Decide(waiting[i], value)];
        i := i + 1;
      }
      assert waiting[..i] == waiting;
      waiting := [];
    }
  }
}
