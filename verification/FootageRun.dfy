/** Starting and stopping a footage run, src/lib/test-footage-run.ts, call by call, with
    any number of steps of the rest of the cluster between any two calls. A call that
    may fail does so by an arbitrary choice, so a contract here covers every pattern of
    failures and every interleaving. */
module FootageRun {
  import opened Reconciler

  /** What `setPausedSensors` reports. Only the last one means the marker may not have
      been written. */
  datatype MarkResult = Recorded | RestartFailed | RolloutSlow | NotRecorded

  /** `quiesceDeployment`: it threw, or it says how many replicas there were and whether
      the pods were seen gone. */
  datatype QuiesceResult = Threw | Quiesce(previousReplicas: nat, quiesced: bool)

  /** The pausing half of a start. `scaledBack` says the reconciler was put back. */
  datatype PauseReport = PauseReport(
    live: set<Sensor>, mark: MarkResult, quiesce: QuiesceResult, scaledBack: bool,
    suspended: set<Sensor>, reSeeded: set<Sensor>)

  /** How `restoreCameras` went: `existsRead` says the Deployment lookup was answered. */
  datatype ResumeReport = ResumeReport(cleared: MarkResult, existsRead: bool, delegated: bool, allEnabled: bool)

  /** How a start ended; the failures it reports resumed some cameras. */
  datatype StartResult =
    | Started(report: PauseReport)
    | SuspendThrew(report: PauseReport)
    | RegistrationFailed(report: PauseReport, resumed: set<Sensor>, resume: ResumeReport)
    | AnalysisFailed(report: PauseReport, resumed: set<Sensor>, resume: ResumeReport)

  /** What a stop did; `complete` says no call failed. */
  datatype StopResult = StopResult(
    stopped: set<Sensor>, resumed: set<Sensor>, resume: ResumeReport, complete: bool)

  /** How one call of a helper ended. */
  datatype CallResult = Ok | Refused | Raised

  predicate LiveOnly(P: set<Sensor>) {
    forall s :: s in P ==> !IsFootage(s)
  }

  function WithoutFootage(P: set<Sensor>): set<Sensor> {
    set s | s in P && !IsFootage(s)
  }

  /** The conditions under which a pause is airtight. */
  predicate SealedBy(report: PauseReport, hasSelector: bool) {
    report.mark != NotRecorded && report.quiesce.Quiesce? && report.quiesce.quiesced && hasSelector
  }

  /** A sensor a stop is for: every test camera, or the named one. */
  predicate IsTarget(name: Sensor, cameraId: string) {
    name != "" && IsFootage(name) && (cameraId == "" || name == cameraId)
  }

  /** What every call of the console keeps; rules are created for `touched` only. */
  ghost predicate CallKeeps(a: World, b: World, touched: set<Sensor>)
    requires Wf(a) && Wf(b)
  {
    && Evolves(a, b)
    && NewVersionsKeepMarker(a, b)
    && (forall P, m :: P !! touched && Held(a, P, m) ==> Held(b, P, m))
    && b.desired == a.desired
    && StaysDrained(a, b, touched)
    && CreatesOnly(a, b, touched)
  }

  /** No version in between is the console's. */
  ghost predicate NothingWritten(a: World, b: World) {
    a.history <= b.history && forall i :: |a.history| <= i < |b.history| ==> !b.history[i].byConsole
  }

  lemma NothingWrittenTransitive(a: World, b: World, c: World)
    requires NothingWritten(a, b) && NothingWritten(b, c)
    ensures NothingWritten(a, c)
  {
    assert forall i :: 0 <= i < |b.history| ==> c.history[i] == b.history[i];
  }

  /** Every version in between is the console's. */
  ghost predicate OnlyConsoleWrites(a: World, b: World) {
    a.history <= b.history && forall i :: |a.history| <= i < |b.history| ==> b.history[i].byConsole
  }

  /** A list of specs has none that the other lacks, `touched` cameras apart. */
  ghost predicate SpecsWithin(before: seq<Spec>, specs: seq<Spec>, touched: set<Sensor>) {
    forall c :: HasSpec(specs, c) ==> c in touched || HasSpec(before, c)
  }

  /** The versions the console wrote in between add no spec, `touched` cameras apart. */
  ghost predicate NoNewSpecs(a: World, b: World, touched: set<Sensor>)
    requires Wf(a)
  {
    a.history <= b.history
    && forall i :: |a.history| <= i < |b.history| && b.history[i].byConsole ==>
         SpecsWithin(b.history[i - 1].doc.specs, b.history[i].doc.specs, touched)
  }

  lemma NoNewSpecsTransitive(a: World, b: World, c: World, touched: set<Sensor>)
    requires Wf(a) && Wf(b) && NoNewSpecs(a, b, touched) && NoNewSpecs(b, c, touched)
    ensures NoNewSpecs(a, c, touched)
  {
    assert forall i :: 0 <= i < |b.history| ==> c.history[i] == b.history[i];
  }

  lemma NoNewSpecsWithin(a: World, b: World, touched: set<Sensor>, more: set<Sensor>)
    requires Wf(a) && NoNewSpecs(a, b, touched) && touched <= more
    ensures NoNewSpecs(a, b, more)
  {
    forall i | |a.history| <= i < |b.history| && b.history[i].byConsole
      ensures SpecsWithin(b.history[i - 1].doc.specs, b.history[i].doc.specs, more)
    {
      assert SpecsWithin(b.history[i - 1].doc.specs, b.history[i].doc.specs, touched);
    }
  }

  /** A camera without a spec has none later when only the console wrote, not for it. */
  lemma {:induction false} StaysAbsent(a: World, b: World, touched: set<Sensor>, camera: Sensor, i: nat)
    requires Wf(a) && NoNewSpecs(a, b, touched) && OnlyConsoleWrites(a, b) && camera !in touched
    requires |a.history| - 1 <= i < |b.history| && !HasSpec(Current(a).specs, camera)
    ensures !HasSpec(b.history[i].doc.specs, camera)
    decreases i
  {
    if i > |a.history| - 1 {
      StaysAbsent(a, b, touched, camera, i - 1);
      assert SpecsWithin(b.history[i - 1].doc.specs, b.history[i].doc.specs, touched);
    }
  }

  lemma AllStayAbsent(start: World, a: World, b: World, touched: set<Sensor>, cameras: set<Sensor>)
    requires Wf(a) && Wf(b) && start.history <= a.history && NoNewSpecs(a, b, touched)
    requires OnlyConsoleWrites(start, b) && cameras !! touched
    requires OnlyConsoleWrites(start, a) ==> forall c :: c in cameras ==> !HasSpec(Current(a).specs, c)
    ensures forall c :: c in cameras ==> !HasSpec(Current(b).specs, c)
  {
    LaterWrites(start, a, b);
    forall c | c in cameras ensures !HasSpec(Current(b).specs, c) {
      StaysAbsent(a, b, touched, c, |b.history| - 1);
    }
  }

  /** The camera has a spec with a stream to resume from. */
  predicate HasStream(specs: seq<Spec>, camera: Sensor) {
    HasSpec(specs, camera) && FindSpec(specs, camera).streamUrl != ""
  }

  /** Every version from the current one of `a` on records the cameras with a stream. */
  ghost predicate RecordedThroughout(a: World, b: World, cameras: set<Sensor>)
    requires Wf(a)
  {
    a.history <= b.history
    && forall i, c :: |a.history| - 1 <= i < |b.history| && c in cameras ==> HasStream(b.history[i].doc.specs, c)
  }

  lemma RecordedEarlier(a: World, b: World, c: World, cameras: set<Sensor>)
    requires Wf(a) && a.history <= b.history <= c.history && RecordedThroughout(a, c, cameras)
    ensures RecordedThroughout(a, b, cameras)
  {
    assert forall i :: 0 <= i < |b.history| ==> b.history[i] == c.history[i];
  }

  /** Every rule the cameras had is gone; a pod may have made another since. */
  ghost predicate OldRulesGone(a: World, b: World, cameras: set<Sensor>) {
    forall r :: r in a.rules && r.sensor in cameras ==> r !in b.rules
  }

  lemma OldRulesStayGone(start: World, a: World, b: World, cameras: set<Sensor>, camera: Sensor)
    requires Wf(start) && RulesStayDeleted(start, a) && RulesStayDeleted(a, b) && OldRulesGone(start, a, cameras)
    ensures OldRulesGone(start, b, cameras)
    ensures OldRulesGone(a, b, {camera}) ==> OldRulesGone(start, b, cameras + {camera})
  {
  }

  lemma RulesGoneSince(start: World, a: World, b: World, cameras: set<Sensor>)
    requires Wf(start) && RulesStayDeleted(start, a) && RulesStayDeleted(a, b) && OldRulesGone(a, b, cameras)
    ensures OldRulesGone(start, b, cameras)
  {
  }

  lemma StillGone(start: World, a: World, b: World, cameras: set<Sensor>)
    requires Wf(start) && RulesStayDeleted(start, a) && RulesStayDeleted(a, b) && OldRulesGone(start, a, cameras)
    ensures OldRulesGone(start, b, cameras)
  {
  }

  /** What taking cameras down leaves: their old rules gone; no spec, if no one else wrote
      the document; no rule at all, if the reconciler was drained. */
  ghost predicate Torn(start: World, b: World, cameras: set<Sensor>)
    requires Wf(b)
  {
    && OldRulesGone(start, b, cameras)
    && (OnlyConsoleWrites(start, b) ==> forall c :: c in cameras ==> !HasSpec(Current(b).specs, c))
    && (Drained(start) ==> Silent(b, cameras))
  }

  lemma TornFrom(start: World, a: World, b: World, cameras: set<Sensor>)
    requires Wf(start) && Wf(a) && Wf(b) && EnvKeeps(start, a) && Evolves(a, b) && Torn(a, b, cameras)
    ensures Torn(start, b, cameras)
  {
    if OnlyConsoleWrites(start, b) { LaterWrites(start, a, b); }
  }

  /** One turn of the tear-down loop. */
  lemma NextTorn(start: World, a: World, b: World, calm: bool, cameras: set<Sensor>, camera: Sensor)
    requires Wf(start) && Wf(a) && Wf(b) && CallKeeps(start, a, {}) && CallKeeps(a, b, {})
    requires NoNewSpecs(start, a, {}) && NoNewSpecs(a, b, {})
    requires calm ==> Torn(start, a, cameras) && Torn(a, b, {camera})
    ensures CallKeeps(start, b, {}) && NoNewSpecs(start, b, {})
    ensures calm ==> Torn(start, b, cameras + {camera})
  {
    CallKeepsTransitive(start, a, b, {});
    NoNewSpecsTransitive(start, a, b, {});
    if calm {
      TornStays(start, a, b, {}, cameras);
      OneMoreTorn(start, a, b, cameras, camera);
    }
  }

  /** None of the sensors with a uuid is registered. */
  ghost predicate AllGone(sensors: set<VstSensor>, w: World) {
    forall s :: s in sensors && s.uuid != "" ==> s !in w.sensors
  }

  lemma TornStays(start: World, a: World, b: World, touched: set<Sensor>, cameras: set<Sensor>)
    requires Wf(start) && Wf(a) && Wf(b) && Evolves(start, a) && StaysDrained(start, a, {})
    requires Evolves(a, b) && NoNewSpecs(a, b, touched) && StaysDrained(a, b, touched)
    requires Torn(start, a, cameras) && cameras !! touched
    ensures Torn(start, b, cameras)
  {
    if OnlyConsoleWrites(start, b) { AllStayAbsent(start, a, b, touched, cameras); }
  }

  lemma OneMoreTorn(start: World, a: World, b: World, cameras: set<Sensor>, camera: Sensor)
    requires Wf(start) && Wf(a) && Wf(b) && Evolves(start, a) && StaysDrained(start, a, {})
    requires Evolves(a, b) && Torn(start, b, cameras) && Torn(a, b, {camera})
    ensures Torn(start, b, cameras + {camera})
  {
    if OnlyConsoleWrites(start, b) { LaterWrites(start, a, b); }
  }

  lemma LaterWrites(start: World, a: World, b: World)
    requires OnlyConsoleWrites(start, b) && start.history <= a.history <= b.history
    ensures OnlyConsoleWrites(start, a) && OnlyConsoleWrites(a, b)
  {
    assert forall i :: 0 <= i < |a.history| ==> a.history[i] == b.history[i];
  }

  /** A drained reconciler stays drained, and rules appear for `touched` only. */
  ghost predicate StaysDrained(a: World, b: World, touched: set<Sensor>) {
    Drained(a) ==> Drained(b) && forall r :: r in b.rules && r.sensor !in touched ==> r in a.rules
  }

  /** The rules the console asked for in between are for `touched`. */
  ghost predicate CreatesOnly(a: World, b: World, touched: set<Sensor>)
  {
    a.consoleCreated <= b.consoleCreated
    && forall i :: |a.consoleCreated| <= i < |b.consoleCreated| ==> b.consoleCreated[i].sensor in touched
  }

  /** The console asked for a rule for the camera in between. */
  ghost predicate AskedSince(a: World, b: World, camera: Sensor) {
    exists i :: |a.consoleCreated| <= i < |b.consoleCreated| && b.consoleCreated[i].sensor == camera
  }

  ghost predicate AllAskedSince(a: World, b: World, cameras: set<Sensor>) {
    forall camera :: camera in cameras ==> AskedSince(a, b, camera)
  }

  /** A start that failed brings the live cameras back: the reconciler has been told, or, if
      the console has to do it itself, each with a stream on record is asked for. */
  ghost predicate Resumes(a: World, b: World, r: StartResult)
    requires Wf(a) && (r.RegistrationFailed? || r.AnalysisFailed?)
  {
    && (r.resume.delegated ==> Told(b))
    && (!r.resume.delegated && RecordedThroughout(a, b, r.resumed) ==> AllAskedSince(a, b, r.resumed))
  }

  lemma ResumesSince(a: World, b: World, c: World, r: StartResult)
    requires Wf(a) && Wf(b) && (r.RegistrationFailed? || r.AnalysisFailed?) && Resumes(b, c, r)
    requires a.history <= b.history <= c.history && a.consoleCreated <= b.consoleCreated <= c.consoleCreated
    ensures Resumes(a, c, r)
  {
    if RecordedThroughout(a, c, r.resumed) { RecordedFrom(a, b, c, r.resumed); }
    forall camera | camera in r.resumed && AskedSince(b, c, camera) ensures AskedSince(a, c, camera) {
      var i :| |b.consoleCreated| <= i < |c.consoleCreated| && c.consoleCreated[i].sensor == camera;
      assert i >= |a.consoleCreated|;
    }
  }

  /** Some version of the document in between, the first one included, records this spec
      for its camera. */
  ghost predicate RecordedIn(a: World, b: World, spec: Spec) {
    exists i :: |a.history| - 1 <= i < |b.history| && SaysOf(b.history, i, spec)
  }

  predicate SaysOf(history: seq<Version>, i: int, spec: Spec) {
    && 0 <= i < |history| && HasSpec(history[i].doc.specs, spec.sensor)
    && FindSpec(history[i].doc.specs, spec.sensor) == spec
  }

  /** Every rule the console asked for in between for a live camera is armed exactly as the
      document recorded that camera meanwhile. */
  ghost predicate AskedAsRecorded(a: World, b: World) {
    forall i :: |a.consoleCreated| <= i < |b.consoleCreated| && !IsFootage(b.consoleCreated[i].sensor) ==>
      RecordedIn(a, b, b.consoleCreated[i])
  }

  lemma AskedAsRecordedBoth(a: World, b: World, c: World)
    requires a.history <= b.history <= c.history
    requires a.consoleCreated <= b.consoleCreated <= c.consoleCreated
    requires AskedAsRecorded(a, b) && AskedAsRecorded(b, c)
    ensures AskedAsRecorded(a, c)
  {
    forall i | |a.consoleCreated| <= i < |c.consoleCreated| && !IsFootage(c.consoleCreated[i].sensor)
      ensures RecordedIn(a, c, c.consoleCreated[i])
    {
      var spec := c.consoleCreated[i];
      if i < |b.consoleCreated| {
        assert b.consoleCreated[i] == spec && RecordedIn(a, b, spec);
        var j :| |a.history| - 1 <= j < |b.history| && SaysOf(b.history, j, spec);
        assert c.history[j] == b.history[j] && SaysOf(c.history, j, spec);
      } else {
        assert RecordedIn(b, c, spec);
        var j :| |b.history| - 1 <= j < |c.history| && SaysOf(c.history, j, spec);
        assert |a.history| - 1 <= j;
      }
    }
  }

  lemma OnlyFootageAsked(a: World, b: World, touched: set<Sensor>)
    requires CreatesOnly(a, b, touched) && forall c :: c in touched ==> IsFootage(c)
    ensures AskedAsRecorded(a, b)
  {
  }

  lemma CallKeepsTransitive(a: World, b: World, c: World, t: set<Sensor>)
    requires Wf(a) && Wf(b) && Wf(c) && CallKeeps(a, b, t) && CallKeeps(b, c, t)
    ensures CallKeeps(a, c, t)
  {
    assert forall i :: |a.history| <= i < |b.history| ==> c.history[i] == b.history[i];
    assert forall i :: |a.consoleCreated| <= i < |b.consoleCreated| ==> c.consoleCreated[i] == b.consoleCreated[i];
  }

  lemma EnvIsACall(a: World, b: World, t: set<Sensor>)
    requires Wf(a) && Wf(b) && EnvKeeps(a, b)
    ensures CallKeeps(a, b, t)
    ensures KeepsLiveSpecs(a.history) ==> KeepsLiveSpecs(b.history)
  {
    assert forall i :: 0 <= i < |a.history| ==> b.history[i] == a.history[i];
  }

  /** The marker is `P` from version `m` on. */
  predicate MarkedAs(w: World, P: set<Sensor>, m: nat) {
    m < |w.history| && forall i :: m <= i < |w.history| ==> w.history[i].doc.paused == P
  }

  lemma MarkedStays(a: World, b: World, P: set<Sensor>, m: nat)
    requires Wf(a) && Wf(b) && a.history <= b.history && NewVersionsKeepMarker(a, b) && MarkedAs(a, P, m)
    ensures MarkedAs(b, P, m)
  {
    assert forall i :: 0 <= i < |a.history| ==> b.history[i] == a.history[i];
  }

  /** The marker is cleared, and every pod of the current template shows it so. */
  ghost predicate Told(w: World) {
    exists m :: MarkedAs(w, {}, m) && Informed(w, w.template, m)
  }

  /** Why clearing the marker resumes the live cameras by itself: whatever happens next,
      every pod made since the restart may create a rule for each camera its copy of the
      document has a spec for. */
  lemma {:induction false} ToldPodsResume(w: World, steps: seq<EnvStep>, m: nat, p: nat, camera: Sensor)
    requires ValidRun(w, steps) && MarkedAs(w, {}, m) && Informed(w, w.template, m)
    ensures var after := After(w, steps);
            Wf(after) && (p in after.pods && after.pods[p].template == w.template ==>
              (Enabled(after, PodTick(p, camera)) <==> HasSpec(after.history[after.pods[p].view].doc.specs, camera)))
    decreases |steps|
  {
    if |steps| > 0 {
      var next := Apply(w, steps[0]);
      StepKeeps(w, steps[0]);
      StepKeepsInformed(w, steps[0]);
      MarkedStays(w, next, {}, m);
      ToldPodsResume(next, steps[1..], m, p, camera);
    } else if p in w.pods && w.pods[p].template == w.template {
      assert w.history[w.pods[p].view].doc.paused == {};
    }
  }

  predicate HasSpec(specs: seq<Spec>, camera: Sensor) {
    exists i :: 0 <= i < |specs| && specs[i].sensor == camera
  }

  /** The document without a camera's specs. */
  function DropSpecs(specs: seq<Spec>, camera: Sensor): seq<Spec> {
    if |specs| == 0 then []
    else (if specs[0].sensor == camera then [] else [specs[0]]) + DropSpecs(specs[1..], camera)
  }

  lemma {:induction false} DroppingFootageKeepsLive(specs: seq<Spec>, camera: Sensor)
    requires IsFootage(camera)
    ensures LiveSpecs(DropSpecs(specs, camera)) == LiveSpecs(specs)
  {
    if |specs| > 0 {
      DroppingFootageKeepsLive(specs[1..], camera);
      var head := if specs[0].sensor == camera then [] else [specs[0]];
      LiveSpecsAppend(head, DropSpecs(specs[1..], camera));
      assert head != [] ==> LiveSpecs(head) == (if IsFootage(specs[0].sensor) then [] else head) by {
        if head != [] { assert head[1..] == []; }
      }
    }
  }

  lemma {:induction false} DroppedIsGone(specs: seq<Spec>, camera: Sensor)
    ensures !HasSpec(DropSpecs(specs, camera), camera)
  {
    if |specs| > 0 {
      DroppedIsGone(specs[1..], camera);
      var rest := DropSpecs(specs[1..], camera);
      assert forall i :: 0 < i < |[specs[0]] + rest| ==> ([specs[0]] + rest)[i] == rest[i - 1];
    }
  }

  function FindSpec(specs: seq<Spec>, camera: Sensor): (spec: Spec)
    requires HasSpec(specs, camera)
    ensures spec.sensor == camera && spec in specs
  {
    if specs[0].sensor == camera then specs[0]
    else
      assert HasSpec(specs[1..], camera) by {
        var i :| 0 <= i < |specs| && specs[i].sensor == camera;
        assert specs[1..][i - 1].sensor == camera;
      }
      FindSpec(specs[1..], camera)
  }

  lemma {:induction false} DroppedIsWithin(specs: seq<Spec>, camera: Sensor, c: Sensor)
    ensures HasSpec(DropSpecs(specs, camera), c) ==> HasSpec(specs, c)
  {
    if HasSpec(DropSpecs(specs, camera), c) {
      var head: seq<Spec> := if specs[0].sensor == camera then [] else [specs[0]];
      var rest := DropSpecs(specs[1..], camera);
      var i :| 0 <= i < |head + rest| && (head + rest)[i].sensor == c;
      if i < |head| {
        assert specs[0].sensor == c;
      } else {
        assert rest[i - |head|].sensor == c;
        DroppedIsWithin(specs[1..], camera, c);
        var j :| 0 <= j < |specs[1..]| && specs[1..][j].sensor == c;
        assert specs[j + 1].sensor == c;
      }
    }
  }

  lemma DroppedAddsNone(specs: seq<Spec>, camera: Sensor)
    ensures SpecsWithin(specs, DropSpecs(specs, camera), {})
  {
    forall c ensures HasSpec(DropSpecs(specs, camera), c) ==> HasSpec(specs, c) {
      DroppedIsWithin(specs, camera, c);
    }
  }

  /** The document with a camera's first spec replaced, or a new one at the end. */
  function UpsertSpec(specs: seq<Spec>, spec: Spec): seq<Spec> {
    if |specs| == 0 then [spec]
    else if specs[0].sensor == spec.sensor then [spec] + specs[1..]
    else [specs[0]] + UpsertSpec(specs[1..], spec)
  }

  lemma {:induction false} UpsertingFootageKeepsLive(specs: seq<Spec>, spec: Spec)
    requires IsFootage(spec.sensor)
    ensures LiveSpecs(UpsertSpec(specs, spec)) == LiveSpecs(specs)
  {
    if |specs| > 0 {
      UpsertingFootageKeepsLive(specs[1..], spec);
    }
  }

  lemma {:induction false} UpsertedIsFound(specs: seq<Spec>, spec: Spec)
    ensures HasSpec(UpsertSpec(specs, spec), spec.sensor)
    ensures FindSpec(UpsertSpec(specs, spec), spec.sensor) == spec
  {
    if |specs| == 0 || specs[0].sensor == spec.sensor {
      assert UpsertSpec(specs, spec)[0] == spec;
    } else {
      var rest := UpsertSpec(specs[1..], spec);
      UpsertedIsFound(specs[1..], spec);
      var i :| 0 <= i < |rest| && rest[i].sensor == spec.sensor;
      assert ([specs[0]] + rest)[i + 1] == rest[i] && ([specs[0]] + rest)[1..] == rest;
    }
  }

  lemma {:induction false} UpsertedIsWithin(specs: seq<Spec>, spec: Spec, c: Sensor)
    ensures HasSpec(UpsertSpec(specs, spec), c) ==> c == spec.sensor || HasSpec(specs, c)
  {
    var r := UpsertSpec(specs, spec);
    if HasSpec(r, c) && |specs| > 0 {
      var i :| 0 <= i < |r| && r[i].sensor == c;
      if specs[0].sensor == spec.sensor {
        assert i > 0 ==> specs[i] == r[i];
      } else if i == 0 {
        assert specs[0].sensor == c;
      } else {
        assert UpsertSpec(specs[1..], spec)[i - 1].sensor == c;
        UpsertedIsWithin(specs[1..], spec, c);
        if HasSpec(specs[1..], c) {
          var j :| 0 <= j < |specs[1..]| && specs[1..][j].sensor == c;
          assert specs[j + 1].sensor == c;
        }
      }
    }
  }

  /** A text the caller may leave out. */
  datatype Choice = Unchosen | Chosen(text: string) {
    function Else(fallback: string): string {
      if Chosen? then text else fallback
    }
  }

  /** The scenario chosen for a run. */
  datatype Override = Override(alertType: Choice, prompt: Choice)

  const NO_OVERRIDE := Override(Unchosen, Unchosen)

  /** The spec says what the override chose. */
  predicate Honours(spec: Spec, override: Override) {
    spec.alertType == override.alertType.Else(spec.alertType) && spec.prompt == override.prompt.Else(spec.prompt)
  }

  const DEFAULT_ALERT_TYPE := "general-activity"
  const DEFAULT_PROMPT := "Alert on any notable or anomalous activity."

  /** What a rule is armed with: the override first, then the recorded spec (`known`,
      at most one), then the defaults; the recorded stream before the given one. */
  function Armed(camera: Sensor, known: seq<Spec>, url: string, override: Override): Spec {
    Spec(camera,
         override.alertType.Else(if known != [] then known[0].alertType else DEFAULT_ALERT_TYPE),
         override.prompt.Else(if known != [] then known[0].prompt else DEFAULT_PROMPT),
         if known != [] && known[0].streamUrl != "" then known[0].streamUrl else url)
  }

  /** The spec is what the document and the caller make of its camera: for a recorded one
      its alert type and its prompt unless the override says otherwise, and its stream if
      it has one; for another the defaults and the given stream. */
  predicate ArmedFor(spec: Spec, specs: seq<Spec>, url: string, override: Override) {
    && Honours(spec, override) && spec.streamUrl != ""
    && if HasSpec(specs, spec.sensor) then
         var known := FindSpec(specs, spec.sensor);
         && (override.alertType.Unchosen? ==> spec.alertType == known.alertType)
         && (override.prompt.Unchosen? ==> spec.prompt == known.prompt)
         && (spec.streamUrl == known.streamUrl || (known.streamUrl == "" && spec.streamUrl == url))
       else
         && (override.alertType.Unchosen? ==> spec.alertType == DEFAULT_ALERT_TYPE)
         && (override.prompt.Unchosen? ==> spec.prompt == DEFAULT_PROMPT) && spec.streamUrl == url
  }

  lemma UnchosenIsRecorded(spec: Spec, specs: seq<Spec>)
    requires ArmedFor(spec, specs, "", NO_OVERRIDE)
    ensures HasSpec(specs, spec.sensor) && FindSpec(specs, spec.sensor) == spec
  {
  }

  /** The console asked for one rule in between, this one. */
  predicate AskedFor(a: World, b: World, spec: Spec) {
    b.consoleCreated == a.consoleCreated + [spec]
  }

  /** `previousReplicas || 1`. */
  function Positive(replicas: nat): nat {
    if replicas == 0 then 1 else replicas
  }

  /** The report of a start that leaves the live cameras alone. */
  const NOT_PAUSED := PauseReport({}, NotRecorded, Threw, false, {}, {})

  function WithSensor(w: World, name: Sensor, uuid: string): World {
    w.(sensors := w.sensors + {VstSensor(name, uuid)}, uuids := w.uuids + {uuid})
  }

  /** VST handed out the uuid in between. */
  predicate NewlyRegistered(a: World, b: World, uuid: string) {
    uuid !in a.uuids && uuid in b.uuids && uuid != ""
  }

  /** The camera was registered under a new uuid, recorded there, and the one rule asked for
      is its own, with what the override chose. */
  ghost predicate Running(a: World, b: World, camera: Sensor, override: Override, armed: bool) {
    && (exists uuid :: NewlyRegistered(a, b, uuid) && (armed ==> uuid in b.armed))
    && (exists spec :: AskedFor(a, b, spec) && spec.sensor == camera && Honours(spec, override))
  }

  /** At some moment `at`, with nothing done by the console before it, the live cameras with
      a rule or a spec were these. */
  ghost predicate LiveAt(a: World, at: World, live: set<Sensor>)
    requires Wf(a)
  {
    && Wf(at) && EnvKeeps(a, at)
    && forall s :: s in live <==>
         s != "" && !IsFootage(s) && (!Silent(at, {s}) || HasSpec(Current(at).specs, s))
  }

  /** None of the sensors that carried the name is registered any more. */
  ghost predicate NoneLeft(a: World, b: World, name: Sensor) {
    forall s :: s in a.sensors && s.name == name && s.uuid != "" ==> s !in b.sensors
  }

  predicate Registered(w: World, name: Sensor) {
    exists s :: s in w.sensors && s.name == name
  }

  /** The recorded spec has the alert type and the prompt a rule would be armed with. */
  predicate SaysAlready(specs: seq<Spec>, camera: Sensor, override: Override) {
    HasSpec(specs, camera) && Honours(FindSpec(specs, camera), override)
  }

  lemma SameExactly(specs: seq<Spec>, camera: Sensor, url: string, override: Override)
    requires HasSpec(specs, camera)
    ensures var known := FindSpec(specs, camera);
            var spec := Armed(camera, [known], url, override);
            SaysAlready(specs, camera, override) <==> known.alertType == spec.alertType && known.prompt == spec.prompt
  {
  }

  /** The console, holding the cluster it talks to. `calm` says that no call fails while
      it is at work but for the lookup of the Deployment before a resume and the
      registration of a sensor, `lookupFails` and `registerFails` that these do, `listsIds`
      that VST lists every sensor with its uuid. */
  class Console {
    const calm: bool
    const lookupFails: bool
    const registerFails: bool
    const listsIds: bool
    var w: World

    constructor (w: World, calm: bool, lookupFails: bool, registerFails: bool, listsIds: bool)
      ensures this.w == w && this.calm == calm && this.lookupFails == lookupFails
      ensures this.registerFails == registerFails && this.listsIds == listsIds
    {
      this.w := w;
      this.calm := calm;
      this.lookupFails := lookupFails;
      this.registerFails := registerFails;
      this.listsIds := listsIds;
    }

    /** Whether a call fails. */
    method Fails() returns (fails: bool)
      ensures calm ==> !fails
    {
      fails := *;
      fails := fails && !calm;
    }

    ghost predicate Ready()
      reads this
    {
      Wf(w) && KeepsLiveSpecs(w.history)
    }

    /** Anything the rest of the cluster may do while a call is awaited. */
    method Interfere()
      requires Ready()
      modifies this
      ensures Ready() && EnvKeeps(old(w), w) && CallKeeps(old(w), w, {}) && KeepsInformed(old(w), w)
    {
      Steps(true);
    }

    /** The same between reading the document and writing it back: an edit by another
        would make that write fail. */
    method InterfereBeforeWrite()
      requires Ready()
      modifies this
      ensures Ready() && EnvKeeps(old(w), w) && CallKeeps(old(w), w, {})
      ensures calm ==> w.history == old(w).history
    {
      Steps(!calm);
    }

    method Steps(edits: bool)
      requires Ready()
      modifies this
      ensures Ready() && EnvKeeps(old(w), w) && CallKeeps(old(w), w, {}) && KeepsInformed(old(w), w)
      ensures !edits ==> w.history == old(w).history
    {
      var steps: nat := *;
      while steps > 0
        invariant Wf(w) && EnvKeeps(old(w), w) && KeepsInformed(old(w), w)
        invariant !edits ==> w.history == old(w).history
      {
        var e: EnvStep := *;
        if Enabled(w, e) && (edits || !e.OtherEdit?) {
          StepKeeps(w, e);
          StepKeepsInformed(w, e);
          EnvKeepsTransitive(old(w), w, Apply(w, e));
          w := Apply(w, e);
        }
        steps := steps - 1;
      }
      EnvIsACall(old(w), w, {});
    }

    /** Write rules.json under the version it was read at: refused when another version
        was written meanwhile; a write that went through may still be reported failed. */
    method PatchDoc(doc: Doc, version: nat) returns (ok: bool)
      requires Wf(w) && 0 < version <= |w.history|
      modifies this
      ensures Wf(w)
      ensures w == old(w) || (version == |old(w).history|
                              && w == old(w).(history := old(w).history + [Version(doc, true)]))
      ensures ok ==> w != old(w)
      ensures calm && version == |old(w).history| ==> ok
      ensures KeepsLiveSpecs(old(w).history) && LiveSpecs(doc.specs) == LiveSpecs(old(w).history[version - 1].doc.specs)
              ==> KeepsLiveSpecs(w.history)
    {
      var refused := Fails();
      if refused || |w.history| != version {
        return false;
      }
      w := w.(history := w.history + [Version(doc, true)]);
      var lost := Fails();
      ok := !lost;
    }

    // ----- the marker ----------------------------------------------------------

    /** `setPausedSensors`: unless it reports NotRecorded, the marker is exactly
        `sensors` in every version from some point on. */
    method SetPausedSensors(sensors: set<Sensor>) returns (r: MarkResult, ghost m: nat)
      requires Ready()
      modifies this
      ensures Ready() && Evolves(old(w), w)
      ensures r != NotRecorded ==> MarkedAs(w, sensors, m)
      ensures r == Recorded || r == RolloutSlow ==> Informed(w, w.template, m)
      ensures r == Recorded ==> RolloutComplete(w)
      ensures calm ==> (r == Recorded || r == RolloutSlow)
      ensures w.desired == old(w).desired && w.consoleCreated == old(w).consoleCreated
      ensures NoNewSpecs(old(w), w, {}) && StaysDrained(old(w), w, {})
    {
      var written;
      written, m := WriteMarker(sensors);
      if !written { return NotRecorded, 0; }
      ghost var marked := w;
      r := RestartReconciler();
      MarkedStays(marked, w, sensors, m);
      NoNewSpecsTransitive(old(w), marked, w, {});
    }

    /** The document with its marker replaced, written under the version it was read at. */
    method WriteMarker(sensors: set<Sensor>) returns (ok: bool, ghost m: nat)
      requires Ready()
      modifies this
      ensures Ready() && Evolves(old(w), w)
      ensures ok ==> MarkedAs(w, sensors, m) && m == |w.history| - 1
      ensures calm ==> ok
      ensures w.desired == old(w).desired && w.consoleCreated == old(w).consoleCreated
      ensures NoNewSpecs(old(w), w, {}) && StaysDrained(old(w), w, {})
    {
      m := 0;
      Interfere();
      var readFails := Fails();
      if readFails { return false, 0; }
      var value, version := Current(w), |w.history|;
      ghost var read, before := w, w;
      ok, before := PatchMarker(value, version, sensors);
      m := |w.history| - 1;
      EnvKeepsTransitive(old(w), read, before);
      MarkerWritten(old(w), before, w, sensors);
    }

    /** The write, after whatever happened since the document was read; `before` is the
        cluster it found. */
    method PatchMarker(value: Doc, version: nat, sensors: set<Sensor>) returns (ok: bool, ghost before: World)
      requires Ready() && value == Current(w) && version == |w.history|
      modifies this
      ensures Ready() && Wf(before) && EnvKeeps(old(w), before)
      ensures w == before
              || w == before.(history := before.history + [Version(Current(before).(paused := sensors), true)])
      ensures ok ==> w != before
      ensures calm ==> ok
    {
      InterfereBeforeWrite();
      before := w;
      ok := PatchDoc(value.(paused := sensors), version);
    }

    /** The restart, and the wait for the new pods; a restart that went through may still
        be reported failed. Every pod made since shows the document as it was, or later. */
    method RestartReconciler() returns (r: MarkResult)
      requires Ready()
      modifies this
      ensures Ready() && Evolves(old(w), w) && NewVersionsKeepMarker(old(w), w)
      ensures w.desired == old(w).desired && w.consoleCreated == old(w).consoleCreated
      ensures NothingWritten(old(w), w) && StaysDrained(old(w), w, {})
      ensures r != NotRecorded
      ensures r == Recorded ==> RolloutComplete(w)
      ensures w.template == old(w).template + 1 || (r == RestartFailed && w.template == old(w).template)
      ensures r != RestartFailed ==> Informed(w, w.template, |old(w).history| - 1)
      ensures calm ==> (r == if RolloutComplete(w) then Recorded else RolloutSlow)
    {
      Interfere();
      var restartFails := Fails();
      var applied: bool := *;
      if applied || !restartFails { w := w.(template := w.template + 1); }
      if restartFails { return RestartFailed; }
      assert Informed(w, w.template, |old(w).history| - 1);
      var rolled := WaitForRollout();
      r := if rolled then Recorded else RolloutSlow;
    }

    /** `waitForRollout`: polls until the rollout looks complete or time is up. */
    method WaitForRollout() returns (rolled: bool)
      requires Ready()
      modifies this
      ensures Ready() && EnvKeeps(old(w), w) && KeepsInformed(old(w), w)
      ensures rolled ==> RolloutComplete(w)
      ensures calm ==> (rolled <==> RolloutComplete(w))
    {
      var polls: nat := *;                   // after the first
      var more := true;
      while more
        invariant Ready() && EnvKeeps(old(w), w) && KeepsInformed(old(w), w)
        invariant calm && !more ==> !RolloutComplete(w)
        decreases more, polls
      {
        ghost var before := w;
        Interfere();
        EnvKeepsTransitive(old(w), before, w);
        var readFails := Fails();
        if !readFails && RolloutComplete(w) { return true; }
        more := polls > 0;
        polls := if more then polls - 1 else 0;
      }
      return false;
    }

    // ----- the reconciler ------------------------------------------------------

    /** `quiesceDeployment`: scale to zero, then poll the labelled pods. When the
        Deployment has labels and the poll found none, the reconciler is drained. */
    method QuiesceDeployment() returns (r: QuiesceResult)
      requires Ready()
      modifies this
      ensures Ready() && Evolves(old(w), w) && NewVersionsKeepMarker(old(w), w)
      ensures w.consoleCreated == old(w).consoleCreated
      ensures r.Quiesce? && r.quiesced && w.hasSelector ==> Drained(w)
      ensures r.Quiesce? ==> w.desired == 0 && w.deployed && r.previousReplicas == old(w).desired
      ensures calm && w.deployed ==> r.Quiesce? && (r.quiesced <==> ListsNoPods(w))
    {
      Interfere();
      var readFails := Fails();
      if readFails || !w.deployed { return Threw; }
      var previousReplicas := w.desired;
      Interfere();
      var scaleFails := Fails();
      var scaleApplied: bool := *;
      if scaleApplied || !scaleFails { w := w.(desired := 0); }
      if scaleFails { return Threw; }
      var gone := AwaitNoPods();
      r := Quiesce(previousReplicas, gone);
    }

    /** Poll until no labelled pod is listed, or time is up; terminating pods count. */
    method AwaitNoPods() returns (gone: bool)
      requires Ready()
      modifies this
      ensures Ready() && EnvKeeps(old(w), w)
      ensures gone ==> ListsNoPods(w)
      ensures calm ==> (gone <==> ListsNoPods(w))
    {
      var polls: nat := *;                   // after the first
      var more := true;
      while more
        invariant Ready() && EnvKeeps(old(w), w)
        invariant calm && !more ==> !ListsNoPods(w)
        decreases more, polls
      {
        ghost var before := w;
        Interfere();
        EnvKeepsTransitive(old(w), before, w);
        var listFails := Fails();
        if !listFails && ListsNoPods(w) { return true; }
        more := polls > 0;
        polls := if more then polls - 1 else 0;
      }
      return false;
    }

    /** `scaleDeployment` on the way back; a failure is only a warning. */
    method ScaleBack(replicas: nat) returns (ok: bool)
      requires Ready()
      modifies this
      ensures Ready() && Evolves(old(w), w) && NewVersionsKeepMarker(old(w), w)
      ensures w.consoleCreated == old(w).consoleCreated
      ensures forall P, m :: Held(old(w), P, m) ==> Held(w, P, m)
      ensures ok ==> w.desired == replicas
      ensures calm ==> ok
    {
      Interfere();
      var fails := Fails();
      var applied: bool := *;
      ok := !fails;
      if applied || ok { w := w.(desired := replicas); }
    }

    // ----- rules ---------------------------------------------------------------

    /** Delete the listed rules one by one; some deletions may fail. */
    method DeleteRules(mine: set<Rule>) returns (ok: bool)
      requires Ready() && mine <= w.rules
      modifies this
      ensures Ready() && CallKeeps(old(w), w, {})
      ensures NothingWritten(old(w), w)
      ensures ok ==> w.rules !! mine
      ensures calm ==> ok
    {
      ok := true;
      var left := mine;
      while left != {}
        invariant Ready() && CallKeeps(old(w), w, {}) && NothingWritten(old(w), w) && left <= mine && (calm ==> ok)
        invariant ok ==> forall r :: r in mine && r in w.rules ==> r in left
        decreases left
      {
        var rule :| rule in left;
        ghost var before := w;
        var deleted := DeleteRule(rule);
        CallKeepsTransitive(old(w), before, w, {});
        NothingWrittenTransitive(old(w), before, w);
        ok := ok && deleted;
        left := left - {rule};
      }
    }

    /** `deleteRealtimeRule`. */
    method DeleteRule(rule: Rule) returns (ok: bool)
      requires Ready()
      modifies this
      ensures Ready() && CallKeeps(old(w), w, {})
      ensures NothingWritten(old(w), w)
      ensures ok ==> rule !in w.rules
      ensures calm ==> ok
    {
      Interfere();
      ghost var before := w;
      var fails := Fails();
      ok := !fails;
      if ok {
        w := w.(rules := w.rules - {rule});
        DeletingKeeps(before, rule);
        CallKeepsTransitive(old(w), before, w, {});
      }
    }

    /** `suspendIngestion`: delete a camera's live rules, leave its spec. */
    method SuspendIngestion(camera: Sensor) returns (res: CallResult)
      requires Ready()
      modifies this
      ensures Ready() && CallKeeps(old(w), w, {})
      ensures NothingWritten(old(w), w)
      ensures res == Ok ==> OldRulesGone(old(w), w, {camera})
      ensures res == Ok && Drained(old(w)) ==> Silent(w, {camera})
      ensures calm ==> res == Ok
    {
      Interfere();
      ghost var listed := w;
      var listFails := Fails();
      var throws := Fails();
      if throws { return Raised; }
      if listFails { return Refused; }
      var mine := set r | r in w.rules && r.sensor == camera;
      var deleted := DeleteRules(mine);
      CallKeepsTransitive(old(w), listed, w, {});
      NothingWrittenTransitive(old(w), listed, w);
      res := if deleted then Ok else Refused;
    }

    /** Write the specs back under the version they were read at, marker included. */
    method WriteSpecs(specs: seq<Spec>, version: nat) returns (written: bool)
      requires Ready() && 0 < version <= |w.history|
      modifies this
      ensures Wf(w) && CallKeeps(old(w), w, {}) && w.consoleCreated == old(w).consoleCreated
      ensures LiveSpecs(specs) == LiveSpecs(old(w).history[version - 1].doc.specs) ==> KeepsLiveSpecs(w.history)
      ensures written ==> Current(w).specs == specs
      ensures calm && version == |old(w).history| ==> written
      ensures forall t :: SpecsWithin(old(w).history[version - 1].doc.specs, specs, t) ==> NoNewSpecs(old(w), w, t)
    {
      var paused := w.history[version - 1].doc.paused;
      InterfereBeforeWrite();
      ghost var before := w;
      written := PatchDoc(Doc(specs, paused), version);
      WritingKeeps(before, w);
      CallKeepsTransitive(old(w), before, w, {});
    }

    /** `addRealtimeRule`: it may fail, and it may succeed without creating anything. */
    method AddRule(spec: Spec) returns (ok: bool)
      requires Ready()
      modifies this
      ensures Ready() && CallKeeps(old(w), w, {spec.sensor})
      ensures AskedFor(old(w), w, spec)
      ensures NothingWritten(old(w), w)
      ensures calm ==> ok
    {
      Interfere();
      ghost var before := w;
      var fails := Fails();
      var created: bool := *;
      ok := !fails;
      w := w.(consoleCreated := w.consoleCreated + [spec]);
      if created {
        w := w.(rules := w.rules + {Rule(w.nextRule, spec.sensor)}, nextRule := w.nextRule + 1);
      }
      CreatingKeeps(before, w, spec);
      CallKeepsWiden(old(w), before, {spec.sensor});
      CallKeepsTransitive(old(w), before, w, {spec.sensor});
    }

    /** `setIngestion(camera, false)`: delete the live rules and the spec. The caller is
        not told whether the spec went (`forgotten`). */
    method DisableIngestion(camera: Sensor) returns (ok: bool, ghost forgotten: bool)
      requires Ready()
      modifies this
      ensures Wf(w) && CallKeeps(old(w), w, {})
      ensures IsFootage(camera) ==> KeepsLiveSpecs(w.history)
      ensures ok ==> OldRulesGone(old(w), w, {camera})
      ensures ok && Drained(old(w)) ==> Silent(w, {camera})
      ensures forgotten ==> !HasSpec(Current(w).specs, camera)
      ensures calm ==> ok && forgotten
      ensures NoNewSpecs(old(w), w, {})
    {
      Interfere();
      var listFails := Fails();
      if listFails { return false, false; }
      ghost var before := w;
      ok := DeleteRules(set r | r in w.rules && r.sensor == camera);
      CallKeepsTransitive(old(w), before, w, {});
      before := w;
      forgotten := ForgetSpec(camera);
      CallKeepsTransitive(old(w), before, w, {});
      NoNewSpecsTransitive(old(w), before, w, {});
    }

    /** Take a camera's spec out of the document, if it is there. */
    method ForgetSpec(camera: Sensor) returns (ghost forgotten: bool)
      requires Ready()
      modifies this
      ensures Wf(w) && CallKeeps(old(w), w, {})
      ensures IsFootage(camera) ==> KeepsLiveSpecs(w.history)
      ensures forgotten ==> !HasSpec(Current(w).specs, camera)
      ensures calm ==> forgotten
      ensures NoNewSpecs(old(w), w, {})
    {
      Interfere();
      var readFails := Fails();
      var specs := Current(w).specs;
      if readFails { return false; }
      if !HasSpec(specs, camera) { return true; }
      ghost var before := w;
      if IsFootage(camera) { DroppingFootageKeepsLive(specs, camera); }
      DroppedIsGone(specs, camera);
      DroppedAddsNone(specs, camera);
      var written := WriteSpecs(DropSpecs(specs, camera), |w.history|);
      forgotten := written;
      CallKeepsTransitive(old(w), before, w, {});
      NoNewSpecsTransitive(old(w), before, w, {});
    }

    /** `setIngestion(camera, true, url, override)`: create a rule, then make the
        document say what was armed. The caller is not told whether that write went
        through (`recorded`). At most one rule is asked for, the one for `spec`. */
    method EnableIngestion(camera: Sensor, url: string, override: Override)
      returns (ok: bool, ghost recorded: bool, ghost at: World, ghost spec: Spec)
      requires Ready()
      modifies this
      ensures Wf(w) && CallKeeps(old(w), w, {camera})
      ensures IsFootage(camera) || (url == "" && override == NO_OVERRIDE) ==> KeepsLiveSpecs(w.history)
      ensures Wf(at) && old(w).history <= at.history <= w.history
      ensures spec.sensor == camera && (ok ==> AskedFor(old(w), w, spec))
      ensures w.consoleCreated == old(w).consoleCreated || AskedFor(old(w), w, spec)
      ensures AskedFor(old(w), w, spec) ==> Honours(spec, override)
      ensures AskedFor(old(w), w, spec) && (calm || url == "") ==> ArmedFor(spec, Current(at).specs, url, override)
      ensures recorded ==> HasSpec(Current(w).specs, camera) && FindSpec(Current(w).specs, camera) == spec
      ensures recorded ==> Honours(spec, override)
      ensures NoNewSpecs(old(w), w, {camera})
      ensures calm ==> (ok <==> url != "" || HasStream(Current(at).specs, camera))
      ensures calm && ok && OnlyConsoleWrites(at, w) && !SaysAlready(Current(at).specs, camera, override) ==> recorded
    {
      var known, version, docRead := ReadRuleSpec(camera);
      at := w;
      CallKeepsWiden(old(w), w, {camera});
      var armed := Armed(camera, known, url, override);
      if known != [] { SameExactly(Current(w).specs, camera, url, override); }
      if armed.streamUrl == "" { return false, false, at, armed; }
      spec := armed;
      var same := known != [] && known[0].alertType == armed.alertType && known[0].prompt == armed.prompt;
      ok, recorded := AddAndRecord(armed, version, docRead && !same);
      CallKeepsTransitive(old(w), at, w, {camera});
      NoNewSpecsTransitive(old(w), at, w, {camera});
    }

    /** `readRuleSpec`: the camera's recorded spec, if there is one and it can be read. */
    method ReadRuleSpec(camera: Sensor) returns (known: seq<Spec>, version: nat, docRead: bool)
      requires Ready()
      modifies this
      ensures Ready() && CallKeeps(old(w), w, {}) && NothingWritten(old(w), w)
      ensures w.consoleCreated == old(w).consoleCreated && version == |w.history|
      ensures known == if docRead && HasSpec(Current(w).specs, camera) then [FindSpec(Current(w).specs, camera)] else []
      ensures calm ==> docRead
    {
      Interfere();
      var readFails := Fails();
      docRead, version := !readFails, |w.history|;
      var specs := Current(w).specs;
      known := if docRead && HasSpec(specs, camera) then [FindSpec(specs, camera)] else [];
    }

    /** The rule for a spec, and the spec into the document if it went and is to be
        recorded. */
    method AddAndRecord(spec: Spec, version: nat, record: bool) returns (ok: bool, ghost recorded: bool)
      requires Ready() && 0 < version <= |w.history|
      modifies this
      ensures Wf(w) && CallKeeps(old(w), w, {spec.sensor}) && NoNewSpecs(old(w), w, {spec.sensor})
      ensures IsFootage(spec.sensor) || !record ==> KeepsLiveSpecs(w.history)
      ensures AskedFor(old(w), w, spec)
      ensures recorded ==> HasSpec(Current(w).specs, spec.sensor)
                           && FindSpec(Current(w).specs, spec.sensor) == spec
      ensures calm ==> ok
      ensures calm && record && version == |old(w).history| && OnlyConsoleWrites(old(w), w) ==> recorded
    {
      ok := AddRule(spec);
      recorded := false;
      if ok && record {
        ghost var before := w;
        recorded := RecordSpec(spec, version);
        if OnlyConsoleWrites(old(w), w) { NothingYet(old(w), before, w); }
        CallKeepsWiden(before, w, {spec.sensor});
        CallKeepsTransitive(old(w), before, w, {spec.sensor});
        NoNewSpecsTransitive(old(w), before, w, {spec.sensor});
      }
    }

    /** Put a spec into the document as read at `version`. */
    method RecordSpec(spec: Spec, version: nat) returns (ghost recorded: bool)
      requires Ready() && 0 < version <= |w.history|
      modifies this
      ensures Wf(w) && CallKeeps(old(w), w, {}) && w.consoleCreated == old(w).consoleCreated
      ensures IsFootage(spec.sensor) ==> KeepsLiveSpecs(w.history)
      ensures recorded ==> HasSpec(Current(w).specs, spec.sensor)
                           && FindSpec(Current(w).specs, spec.sensor) == spec
      ensures NoNewSpecs(old(w), w, {spec.sensor})
      ensures calm && version == |old(w).history| ==> recorded
    {
      var specs := w.history[version - 1].doc.specs;
      if IsFootage(spec.sensor) { UpsertingFootageKeepsLive(specs, spec); }
      UpsertedIsFound(specs, spec);
      forall c ensures HasSpec(UpsertSpec(specs, spec), c) ==> c == spec.sensor || HasSpec(specs, c) {
        UpsertedIsWithin(specs, spec, c);
      }
      assert SpecsWithin(specs, UpsertSpec(specs, spec), {spec.sensor});
      var written := WriteSpecs(UpsertSpec(specs, spec), version);
      recorded := written;
    }

    // ----- sensors -------------------------------------------------------------

    /** `registerSensorAndArm`: VST mints a uuid never used before, and the recorder is
        armed under that uuid; a failure to arm is only a warning. `at` is the cluster the
        registration found. */
    method RegisterSensor(name: Sensor) returns (ok: bool, ghost uuid: string, ghost at: World)
      requires Ready()
      modifies this
      ensures Ready() && CallKeeps(old(w), w, {})
      ensures Wf(at) && EnvKeeps(old(w), at)
      ensures ok ==> uuid !in at.uuids && uuid != ""
                     && EnvKeeps(WithSensor(at, name, uuid), w.(armed := at.armed))
      ensures ok ==> w.armed <= at.armed + {uuid} && (calm ==> uuid in w.armed)
      ensures !ok ==> w == at
      ensures calm ==> (ok <==> !registerFails)
    {
      Interfere();
      at := w;
      uuid := "";
      var fails := Fails();
      ok := !fails && !registerFails;
      if ok {
        FreshUuidExists(w.uuids);
        var minted: string :| minted !in w.uuids && minted != "";
        uuid := minted;
        w := WithSensor(w, name, minted);
        ghost var before := w;
        ArmRecorder(minted);
        CallKeepsTransitive(old(w), before, w, {});
      }
    }

    /** `vstStartStream`. */
    method ArmRecorder(uuid: string)
      requires Ready()
      modifies this
      ensures Ready() && CallKeeps(old(w), w, {})
      ensures EnvKeeps(old(w), w.(armed := old(w).armed))
      ensures w.armed <= old(w).armed + {uuid} && (calm ==> uuid in w.armed)
    {
      Interfere();
      var fails := Fails();
      if !fails { w := w.(armed := w.armed + {uuid}); }
    }

    /** `vstDeleteSensor`: removal is keyed on the uuid; another key deletes nothing. */
    method DeleteSensor(key: string) returns (ok: bool, ghost at: World)
      requires Ready()
      modifies this
      ensures Ready() && CallKeeps(old(w), w, {})
      ensures Wf(at) && EnvKeeps(old(w), at)
      ensures NothingWritten(old(w), w)
      ensures w == if ok then at.(sensors := set s | s in at.sensors && s.uuid != key) else at
      ensures calm ==> ok
    {
      Interfere();
      at := w;
      var fails := Fails();
      ok := !fails;
      if ok {
        w := w.(sensors := set s | s in w.sensors && s.uuid != key);
      }
    }

    // ----- starting a run ------------------------------------------------------

    /** `desiredLiveCameras`: the sensors of the live rules and of the specs, without
        the test cameras; either list reads as empty when it cannot be had. */
    method DesiredLiveCameras() returns (live: set<Sensor>, listed: bool, specsRead: bool)
      requires Ready()
      modifies this
      ensures Ready() && EnvKeeps(old(w), w)
      ensures calm ==> listed && specsRead
      ensures forall s :: s in live <==>
                && s != "" && !IsFootage(s)
                && ((listed && !Silent(w, {s})) || (specsRead && HasSpec(Current(w).specs, s)))
    {
      Interfere();
      var listFails := Fails();
      var readFails := Fails();
      listed, specsRead := !listFails, !readFails;
      var ingesting := if listed then set r | r in w.rules :: r.sensor else {};
      var specs := Current(w).specs;
      var wanted := if specsRead then set i | 0 <= i < |specs| :: specs[i].sensor else {};
      live := set s | s in ingesting + wanted && s != "" && !IsFootage(s);
    }

    /** The suspend loop: once the reconciler is drained, every camera it suspends
        stays without a rule. */
    method SuspendAll(live: set<Sensor>) returns (threw: bool, suspended: set<Sensor>)
      requires Ready()
      modifies this
      ensures Ready() && CallKeeps(old(w), w, {})
      ensures NothingWritten(old(w), w)
      ensures suspended <= live && (Drained(old(w)) ==> Silent(w, suspended))
      ensures OldRulesGone(old(w), w, suspended)
      ensures calm ==> !threw && suspended == live
    {
      threw, suspended := false, {};
      var left := live;
      while left != {} && !threw
        invariant Ready() && CallKeeps(old(w), w, {}) && NothingWritten(old(w), w)
        invariant left <= live && suspended <= live && (calm ==> !threw && suspended == live - left)
        invariant Drained(old(w)) ==> Drained(w) && Silent(w, suspended)
        invariant OldRulesGone(old(w), w, suspended)
        decreases left
      {
        var id :| id in left;
        ghost var before := w;
        var res := SuspendIngestion(id);
        OldRulesStayGone(old(w), before, w, suspended, id);
        CallKeepsTransitive(old(w), before, w, {});
        NothingWrittenTransitive(old(w), before, w);
        if res == Raised {
          threw := true;
        } else if res == Ok {
          suspended := suspended + {id};
        }
        left := left - {id};
      }
    }

    /** The check after the pause: which suspended cameras have a rule again (in `listed`),
        each of them suspended once more. */
    method SuspendReSeeded(suspended: set<Sensor>)
      returns (threw: bool, reSeeded: set<Sensor>, ghost listed: World)
      requires Ready()
      modifies this
      ensures Ready() && CallKeeps(old(w), w, {})
      ensures Wf(listed) && EnvKeeps(old(w), listed)
      ensures calm ==> forall s :: s in reSeeded <==> s in suspended && !Silent(listed, {s})
      ensures calm ==> OldRulesGone(old(w), w, suspended)
      ensures reSeeded <= suspended
      ensures (exists m :: Held(old(w), suspended, m)) ==> reSeeded == {}
      ensures calm ==> !threw
    {
      Interfere();
      listed := w;
      var listFails := Fails();
      reSeeded := if listFails then {} else set r | r in w.rules && r.sensor in suspended :: r.sensor;
      var again: set<Sensor>;
      threw, again := SuspendAll(reSeeded);
      CallKeepsTransitive(old(w), listed, w, {});
      if calm {
        assert OldRulesGone(listed, w, suspended);
        RulesGoneSince(old(w), listed, w, suspended);
      }
    }

    /** The first half of the `pauseLive` block: mark, quiesce, suspend. */
    method SuspendUnderMarker()
      returns (threw: bool, live: set<Sensor>, mark: MarkResult, quiesce: QuiesceResult, suspended: set<Sensor>,
               ghost m: nat)
      requires Ready()
      modifies this
      ensures Ready() && Evolves(old(w), w) && w.consoleCreated == old(w).consoleCreated
      ensures LiveOnly(live) && suspended <= live
      ensures mark != NotRecorded ==> MarkedAs(w, live, m)
      ensures mark != NotRecorded && quiesce.Quiesce? && quiesce.quiesced && w.hasSelector ==> Held(w, suspended, m)
      ensures quiesce.Quiesce? ==> quiesce.previousReplicas == old(w).desired
      ensures calm ==> exists at :: LiveAt(old(w), at, live)
      ensures OldRulesGone(old(w), w, suspended)
      ensures calm ==> !threw && mark != NotRecorded && suspended == live && (w.deployed ==> quiesce.Quiesce?)
    {
      var listed, specsRead;
      live, listed, specsRead := DesiredLiveCameras();
      assert calm ==> LiveAt(old(w), w, live);
      mark, m := SetPausedSensors(live);
      ghost var marked := w;
      quiesce := QuiesceDeployment();
      if mark != NotRecorded { MarkedStays(marked, w, live, m); }
      ghost var quiet := w;
      threw, suspended := SuspendAll(live);
      RulesGoneSince(old(w), quiet, w, suspended);
      NothingAsked(quiet, w);
      if mark != NotRecorded { MarkedStays(quiet, w, live, m); }
    }

    /** The second half: scale back, whatever happened, and check. */
    method PutBack(quiesce: QuiesceResult, suspended: set<Sensor>, suspendThrew: bool)
      returns (threw: bool, scaledBack: bool, reSeeded: set<Sensor>)
      requires Ready()
      modifies this
      ensures Ready() && Evolves(old(w), w) && NewVersionsKeepMarker(old(w), w)
      ensures w.consoleCreated == old(w).consoleCreated
      ensures forall m :: Held(old(w), suspended, m) ==> Held(w, suspended, m) && reSeeded == {}
      ensures reSeeded <= suspended
      ensures calm && !suspendThrew ==> OldRulesGone(old(w), w, suspended)
      ensures suspendThrew ==> threw
      ensures calm && !suspendThrew ==> !threw
      ensures calm && quiesce.Quiesce? ==> scaledBack
      ensures scaledBack ==> quiesce.Quiesce? && w.desired == Positive(quiesce.previousReplicas)
    {
      threw, scaledBack, reSeeded := suspendThrew, false, {};
      if quiesce.Quiesce? {
        scaledBack := ScaleBack(Positive(quiesce.previousReplicas));
      }
      ghost var back := w;
      if !threw {
        ghost var listed;
        threw, reSeeded, listed := SuspendReSeeded(suspended);
        if calm { RulesGoneSince(old(w), back, w, suspended); }
        NothingAsked(back, w);
        MarkerKeptTransitive(old(w), back, w);
      }
    }

    /** The `pauseLive` block of `startRun`. */
    method PauseLive() returns (threw: bool, report: PauseReport)
      requires Ready()
      modifies this
      ensures Ready() && Evolves(old(w), w) && w.consoleCreated == old(w).consoleCreated
      ensures LiveOnly(report.live) && report.reSeeded <= report.suspended <= report.live
      ensures report.mark != NotRecorded ==> exists m :: MarkedAs(w, report.live, m)
      ensures SealedBy(report, w.hasSelector) ==>
                report.reSeeded == {} && exists m :: Held(w, report.suspended, m)
      ensures OldRulesGone(old(w), w, report.suspended)
      ensures calm ==> exists at :: LiveAt(old(w), at, report.live)
      ensures calm ==> !threw && report.mark != NotRecorded && report.suspended == report.live
      ensures calm && w.deployed ==> report.scaledBack
      ensures report.scaledBack ==> report.quiesce.Quiesce? && report.quiesce.previousReplicas == old(w).desired
      ensures report.scaledBack ==> w.desired == if old(w).desired == 0 then 1 else old(w).desired
    {
      var live, mark, quiesce, suspended;
      ghost var m;
      threw, live, mark, quiesce, suspended, m := SuspendUnderMarker();
      ghost var paused := w;
      var scaledBack, reSeeded;
      threw, scaledBack, reSeeded := PutBack(quiesce, suspended, threw);
      StillGone(old(w), paused, w, suspended);
      if mark != NotRecorded { MarkedStays(paused, w, live, m); }
      report := PauseReport(live, mark, quiesce, scaledBack, suspended, reSeeded);
    }

    /** `removeExistingRun`: rule, spec and VST sensor of an earlier run of the clip, one
        sensor if several carry its name. `at` is the cluster as listed. */
    method RemoveExistingRun(camera: Sensor) returns (ghost at: World)
      requires Ready() && IsFootage(camera)
      modifies this
      ensures Ready() && CallKeeps(old(w), w, {})
      ensures Wf(at) && EnvKeeps(old(w), at) && at.history <= w.history
      ensures calm && listsIds && Registered(at, camera) ==>
                exists s :: s in at.sensors && s.name == camera && (s.uuid != "" ==> s !in w.sensors)
      ensures calm && Registered(at, camera) ==> Torn(at, w, {camera})
    {
      Interfere();
      at := w;
      var listFails := Fails();
      var registered := set s | s in w.sensors && s.name == camera;
      if listFails || registered == {} {
        assert !listFails ==> forall s :: s in at.sensors ==> s !in registered;
        return;
      }
      var existing :| existing in registered;
      var done, clean := TearDownOne(existing);
      CallKeepsTransitive(old(w), at, w, {});
    }

    /** `startRun`. A start whose pause was sealed leaves every camera it suspended
        without a rule, under a pause that holds; one that reports a failure has
        cleared the marker, unless the clearing itself is reported as failed. `failed` is
        the cluster when it gave up. */
    method StartRun(camera: Sensor, url: string, override: Override, pauseLive: bool)
      returns (r: StartResult, ghost failed: World)
      requires Ready() && IsFootage(camera)
      modifies this
      ensures Ready() && Evolves(old(w), w)
      ensures LiveOnly(r.report.live) && r.report.reSeeded <= r.report.suspended <= r.report.live
      ensures !pauseLive ==> r.report == NOT_PAUSED
      ensures (r.Started? || r.SuspendThrew?) && r.report.mark != NotRecorded ==>
                exists m :: MarkedAs(w, r.report.live, m)
      ensures (r.Started? || r.SuspendThrew?) && SealedBy(r.report, w.hasSelector) ==>
                r.report.reSeeded == {} && exists m :: Held(w, r.report.suspended, m)
      ensures (r.Started? || r.SuspendThrew?) && r.report.scaledBack ==>
                w.desired == if old(w).desired == 0 then 1 else old(w).desired
      ensures r.report.scaledBack ==>
                r.report.quiesce.Quiesce? && r.report.quiesce.previousReplicas == old(w).desired
      ensures r.Started? && !pauseLive ==> w.desired == old(w).desired
      ensures r.Started? || r.SuspendThrew? ==> OldRulesGone(old(w), w, r.report.suspended)
      ensures calm && url != "" && !registerFails ==> r.Started?
      ensures calm && registerFails ==> r.RegistrationFailed?
      ensures (r.RegistrationFailed? || r.AnalysisFailed?) && calm ==>
                && r.resume.cleared != NotRecorded && (r.resume.existsRead <==> !lookupFails)
                && Resumes(old(w), w, r)
      ensures r.Started? && calm && pauseLive ==> r.report.mark != NotRecorded && r.report.suspended == r.report.live
      ensures calm && pauseLive ==> exists at :: LiveAt(old(w), at, r.report.live)
      ensures r.Started? ==> Running(old(w), w, camera, override, calm)
      ensures AskedAsRecorded(old(w), w)
      ensures r.Started? || r.SuspendThrew? ==> CreatesOnly(old(w), w, {camera})
      ensures (r.RegistrationFailed? || r.AnalysisFailed?) && r.resume.cleared != NotRecorded ==>
                Current(w).paused == {}
      ensures r.RegistrationFailed? || r.AnalysisFailed? ==>
                && r.resume.delegated == (w.deployed && r.resume.existsRead)
                && (r.resume.delegated ==> CreatesOnly(old(w), w, {camera}))
                && CreatesOnly(old(w), w, {camera} + r.resumed)
                && LiveOnly(r.resumed) && r.report.suspended <= r.resumed
      ensures r.RegistrationFailed? ==> r.resumed == r.report.suspended
      ensures r.AnalysisFailed? ==> exists uuid :: NewlyRegistered(old(w), failed, uuid)
      ensures r.AnalysisFailed? && calm && listsIds ==> NoneLeft(failed, w, camera)
    {
      failed := w;
      var threw, report := false, NOT_PAUSED;
      if pauseLive { threw, report := PauseLive(); }
      if threw { return SuspendThrew(report), failed; }
      ghost var paused := w;
      r, failed := RunUnder(report, camera, url, override);
      AskedAsRecordedBoth(old(w), paused, w);
      if r.Started? {
        PauseStands(paused, w, report, camera);
        RunningSince(old(w), paused, w, camera, override, calm);
        StillGone(old(w), paused, w, report.suspended);
      } else {
        if r.AnalysisFailed? { RegisteredSince(old(w), paused, failed); }
        if calm { ResumesSince(old(w), paused, w, r); }
      }
    }

    /** The rest of `startRun`, under the pause. */
    method RunUnder(report: PauseReport, camera: Sensor, url: string, override: Override)
      returns (r: StartResult, ghost failed: World)
      requires Ready() && IsFootage(camera) && LiveOnly(report.live) && report.suspended <= report.live
      modifies this
      ensures Ready() && Evolves(old(w), w) && r.report == report && !r.SuspendThrew? && AskedAsRecorded(old(w), w)
      ensures calm && url != "" && !registerFails ==> r.Started?
      ensures calm && registerFails ==> r.RegistrationFailed?
      ensures !r.Started? && calm ==>
                && r.resume.cleared != NotRecorded && (r.resume.existsRead <==> !lookupFails)
                && Resumes(old(w), w, r)
      ensures r.Started? ==> CallKeeps(old(w), w, {camera}) && Running(old(w), w, camera, override, calm)
      ensures !r.Started? ==>
                && (r.resume.cleared != NotRecorded ==> Current(w).paused == {})
                && r.resume.delegated == (w.deployed && r.resume.existsRead)
                && (r.resume.delegated ==> CreatesOnly(old(w), w, {camera}))
                && CreatesOnly(old(w), w, {camera} + r.resumed)
                && LiveOnly(r.resumed) && report.suspended <= r.resumed
      ensures r.RegistrationFailed? ==> r.resumed == report.suspended
      ensures r.AnalysisFailed? ==> exists uuid :: NewlyRegistered(old(w), failed, uuid)
      ensures r.AnalysisFailed? && calm && listsIds ==> NoneLeft(failed, w, camera)
    {
      var registered, on := BringUp(camera, url, override);
      failed := w;
      OnlyFootageAsked(old(w), w, {camera});
      if on { return Started(report), failed; }
      r := GiveUp(camera, report, registered);
      CreatesOnlyBoth(old(w), failed, w, {camera}, r.resumed);
      AskedAsRecordedBoth(old(w), failed, w);
      if calm { ResumesSince(old(w), failed, w, r); }
    }

    /** What a start does before it throws: a registration that failed resumes what was
        suspended, an analysis that did not turn on stops the run and takes the camera
        out of VST again. */
    method GiveUp(camera: Sensor, report: PauseReport, registered: bool) returns (r: StartResult)
      requires Ready() && LiveOnly(report.live) && report.suspended <= report.live
      modifies this
      ensures Ready() && Evolves(old(w), w)
      ensures r.report == report && (if registered then r.AnalysisFailed? else r.RegistrationFailed?)
      ensures r.resume.cleared != NotRecorded ==> Current(w).paused == {}
      ensures r.resume.delegated == (w.deployed && r.resume.existsRead)
      ensures r.resume.delegated ==> w.consoleCreated == old(w).consoleCreated
      ensures CreatesOnly(old(w), w, r.resumed) && AskedAsRecorded(old(w), w)
      ensures LiveOnly(r.resumed) && report.suspended <= r.resumed
      ensures !registered ==> r.resumed == report.suspended
      ensures registered && IsFootage(camera) && calm && listsIds ==> NoneLeft(old(w), w, camera)
      ensures calm ==>
                && r.resume.cleared != NotRecorded && (r.resume.existsRead <==> !lookupFails)
                && Resumes(old(w), w, r)
    {
      if !registered {
        var resume := RestoreCameras(report.suspended);
        return RegistrationFailed(report, report.suspended, resume);
      }
      var stop, _ := StopRun(camera, report.suspended);
      assert IsFootage(camera) ==> IsTarget(camera, camera);
      return AnalysisFailed(report, stop.resumed, stop.resume);
    }

    /** The footage camera of a start: cleared, registered, and its analysis turned on. */
    method BringUp(camera: Sensor, url: string, override: Override) returns (registered: bool, on: bool)
      requires Ready() && IsFootage(camera)
      modifies this
      ensures Ready() && CallKeeps(old(w), w, {camera})
      ensures on ==> registered && Running(old(w), w, camera, override, calm)
      ensures registered ==> exists uuid :: NewlyRegistered(old(w), w, uuid)
      ensures calm ==> (registered <==> !registerFails) && (registered && url != "" ==> on)
    {
      ghost var listed := RemoveExistingRun(camera);
      ghost var before := w;
      ghost var uuid, found;
      registered, uuid, found := RegisterSensor(camera);
      CallKeepsTransitive(old(w), before, w, {});
      CallKeepsWiden(old(w), w, {camera});
      NothingAsked(old(w), w);
      if !registered { return false, false; }
      assert NewlyRegistered(old(w), w, uuid);
      before := w;
      ghost var recorded, at, spec;
      on, recorded, at, spec := EnableIngestion(camera, url, override);
      CallKeepsTransitive(old(w), before, w, {camera});
      assert NewlyRegistered(old(w), w, uuid);
      if on { assert AskedFor(old(w), w, spec); }
    }

    // ----- stopping ------------------------------------------------------------

    /** `restoreCameras`: clear the marker; with a reconciler deployed that is all, and
        otherwise the console creates the rules. */
    method RestoreCameras(ids: set<Sensor>) returns (r: ResumeReport)
      requires Ready()
      modifies this
      ensures Ready() && Evolves(old(w), w)
      ensures r.cleared != NotRecorded ==> Current(w).paused == {}
      ensures calm ==> r.cleared != NotRecorded && (r.existsRead <==> !lookupFails)
      ensures r.delegated == (w.deployed && r.existsRead)
      ensures r.delegated && (calm || r.cleared == Recorded || r.cleared == RolloutSlow) ==> Told(w)
      ensures r.delegated ==> w.consoleCreated == old(w).consoleCreated
      ensures CreatesOnly(old(w), w, ids) && AskedAsRecorded(old(w), w)
      ensures !r.delegated && r.allEnabled ==> AllAskedSince(old(w), w, ids)
      ensures calm && !r.delegated && RecordedThroughout(old(w), w, ids) ==>
                r.allEnabled && AllAskedSince(old(w), w, ids)
      ensures calm && w.deployed && ids != {} && RecordedThroughout(old(w), w, ids) ==>
                (w.consoleCreated != old(w).consoleCreated <==> lookupFails)
      ensures NoNewSpecs(old(w), w, ids) && StaysDrained(old(w), w, ids)
    {
      var cleared, m := SetPausedSensors({});
      ghost var marked := w;
      NoNewSpecsWithin(old(w), w, {}, ids);
      var found, existsRead := DeploymentExists();
      NoNewSpecsTransitive(old(w), marked, w, ids);
      if cleared != NotRecorded { MarkedStays(marked, w, {}, m); }
      if found {
        return ResumeReport(cleared, existsRead, true, false);
      }
      ghost var before := w;
      var allEnabled := EnableAll(ids);
      NoNewSpecsTransitive(old(w), before, w, ids);
      if RecordedThroughout(old(w), w, ids) { RecordedFrom(old(w), before, w, ids); }
      AskedAsRecordedBoth(old(w), before, w);
      AskedMeansGrown(before, w, ids);
      r := ResumeReport(cleared, existsRead, false, allEnabled);
    }

    /** `deploymentExists`: a lookup that fails answers no. */
    method DeploymentExists() returns (found: bool, answered: bool)
      requires Ready()
      modifies this
      ensures Ready() && EnvKeeps(old(w), w) && CallKeeps(old(w), w, {}) && NoNewSpecs(old(w), w, {})
      ensures KeepsInformed(old(w), w)
      ensures found == (w.deployed && answered)
      ensures calm ==> (answered <==> !lookupFails)
    {
      Interfere();
      var readFails := Fails();
      answered := !readFails && !lookupFails;
      found := answered && w.deployed;
    }

    /** The loop of `restoreCameras`. */
    method EnableAll(ids: set<Sensor>) returns (all: bool)
      requires Ready()
      modifies this
      ensures Ready() && CallKeeps(old(w), w, ids) && NoNewSpecs(old(w), w, ids)
      ensures all ==> AllAskedSince(old(w), w, ids)
      ensures AskedAsRecorded(old(w), w)
      ensures calm && RecordedThroughout(old(w), w, ids) ==> all
    {
      all := true;
      var left := ids;
      while left != {}
        invariant Ready() && CallKeeps(old(w), w, ids) && NoNewSpecs(old(w), w, ids) && left <= ids
        invariant all ==> forall id :: id in ids ==> id in left || AskedSince(old(w), w, id)
        invariant AskedAsRecorded(old(w), w)
        invariant calm && RecordedThroughout(old(w), w, ids) ==> all
        decreases left
      {
        var id :| id in left;
        ghost var before := w;
        var ok := EnableOne(id, ids, old(w));
        AskedStays(old(w), before, w, ids);
        AskedAsRecordedBoth(old(w), before, w);
        CallKeepsTransitive(old(w), before, w, ids);
        NoNewSpecsTransitive(old(w), before, w, ids);
        if calm && RecordedThroughout(old(w), w, ids) { RecordedEarlier(old(w), before, w, ids); }
        if !ok { all := false; }
        left := left - {id};
      }
    }

    method EnableOne(id: Sensor, ids: set<Sensor>, ghost start: World) returns (ok: bool)
      requires Ready() && id in ids && Wf(start) && start.history <= w.history
      modifies this
      ensures Ready() && CallKeeps(old(w), w, ids) && NoNewSpecs(old(w), w, ids)
      ensures ok ==> exists spec :: AskedFor(old(w), w, spec) && spec.sensor == id
      ensures AskedAsRecorded(old(w), w)
      ensures calm && RecordedThroughout(start, w, ids) ==> ok
    {
      ghost var recorded, at, spec;
      ok, recorded, at, spec := EnableIngestion(id, "", NO_OVERRIDE);
      OneAskedAsRecorded(old(w), at, w, spec);
      CallKeepsWithin(old(w), w, {id}, ids);
      NoNewSpecsWithin(old(w), w, {id}, ids);
      if RecordedThroughout(start, w, ids) {
        assert at.history[|at.history| - 1] == w.history[|at.history| - 1];
        assert HasStream(w.history[|at.history| - 1].doc.specs, id);
      }
    }

    /** `stopRun`, from any state whatever: an abandoned or half-started run as well. `at`
        is the cluster when its sensors were listed. */
    method StopRun(cameraId: string, resume: set<Sensor>) returns (r: StopResult, ghost at: World)
      requires Ready()
      modifies this
      ensures Ready() && Evolves(old(w), w)
      ensures Wf(at) && EnvKeeps(old(w), at)
      ensures r.resume.cleared != NotRecorded ==> Current(w).paused == {}
      ensures calm && !lookupFails ==> r.complete
      ensures calm ==> r.resume.cleared != NotRecorded && (r.resume.existsRead <==> !lookupFails)
      ensures calm || r.complete ==> Current(w).paused == {}
      ensures (calm || r.complete) && listsIds ==>
                forall s :: s in old(w).sensors && IsTarget(s.name, cameraId) && s.uuid != "" ==> s !in w.sensors
      ensures calm || r.complete ==> r.resumed == WithoutFootage(resume + Current(old(w)).paused)
      ensures WithoutFootage(resume) <= r.resumed && LiveOnly(r.resumed)
      ensures r.resume.delegated == (w.deployed && r.resume.existsRead)
      ensures r.resume.delegated && (calm || r.resume.cleared == Recorded || r.resume.cleared == RolloutSlow) ==>
                Told(w)
      ensures r.resume.delegated ==> w.consoleCreated == old(w).consoleCreated
      ensures CreatesOnly(old(w), w, r.resumed) && AskedAsRecorded(old(w), w)
      ensures calm && !r.resume.delegated && RecordedThroughout(old(w), w, r.resumed) ==>
                AllAskedSince(old(w), w, r.resumed)
      ensures forall name :: name in r.stopped ==> IsTarget(name, cameraId)
      ensures calm ==> r.stopped == TargetNames(at, cameraId) && Torn(old(w), w, r.stopped)
    {
      var torn, stopped;
      torn, stopped, at := TearDown(cameraId);
      NothingAsked(old(w), w);
      MarkerUnchanged(old(w), w);
      ghost var down := w;
      var resumed, restored, markerRead := ResumeUnion(resume);
      AskedAsRecordedBoth(old(w), down, w);
      GoneStaysGone(down, w);
      if calm { TornStays(old(w), down, w, resumed, stopped); }
      if RecordedThroughout(old(w), w, resumed) { RecordedFrom(old(w), down, w, resumed); }
      r := StopResult(stopped, resumed, restored,
                      torn && markerRead && restored.cleared != NotRecorded && restored.existsRead);
    }

    /** `pausedSensors`: the marker, or nothing when it cannot be read. */
    method PausedSensors() returns (marked: set<Sensor>, answered: bool)
      requires Ready()
      modifies this
      ensures Ready() && EnvKeeps(old(w), w) && CallKeeps(old(w), w, {})
      ensures marked == if answered then Current(old(w)).paused else {}
      ensures calm ==> answered
    {
      Interfere();
      MarkerUnchanged(old(w), w);
      var readFails := Fails();
      answered := !readFails;
      marked := if answered then Current(w).paused else {};
    }

    /** The second half of `stopRun`: resume what the caller remembers and what is marked. */
    method ResumeUnion(resume: set<Sensor>) returns (resumed: set<Sensor>, r: ResumeReport, markerRead: bool)
      requires Ready()
      modifies this
      ensures Ready() && Evolves(old(w), w)
      ensures r.cleared != NotRecorded ==> Current(w).paused == {}
      ensures calm ==> markerRead && r.cleared != NotRecorded && (r.existsRead <==> !lookupFails)
      ensures r.delegated && (calm || r.cleared == Recorded || r.cleared == RolloutSlow) ==> Told(w)
      ensures markerRead ==> resumed == WithoutFootage(resume + Current(old(w)).paused)
      ensures WithoutFootage(resume) <= resumed && LiveOnly(resumed)
      ensures r.delegated == (w.deployed && r.existsRead)
      ensures r.delegated ==> w.consoleCreated == old(w).consoleCreated
      ensures CreatesOnly(old(w), w, resumed) && AskedAsRecorded(old(w), w)
      ensures calm && !r.delegated && RecordedThroughout(old(w), w, resumed) ==> AllAskedSince(old(w), w, resumed)
      ensures NoNewSpecs(old(w), w, resumed) && StaysDrained(old(w), w, resumed)
    {
      var marked;
      marked, markerRead := PausedSensors();
      resumed := WithoutFootage(resume + marked);
      ghost var before := w;
      r := RestoreCameras(resumed);
      AskedAsRecordedBoth(old(w), before, w);
      NoNewSpecsTransitive(old(w), before, w, resumed);
      if RecordedThroughout(old(w), w, resumed) { RecordedFrom(old(w), before, w, resumed); }
    }

    /** The sensors `stopRun` is for, as VST lists them; no list reads as none. */
    method TearDown(cameraId: string) returns (complete: bool, stopped: set<Sensor>, ghost at: World)
      requires Ready()
      modifies this
      ensures Ready() && CallKeeps(old(w), w, {}) && NoNewSpecs(old(w), w, {})
      ensures Wf(at) && EnvKeeps(old(w), at)
      ensures calm ==> complete
      ensures complete && listsIds ==>
                forall s :: s in old(w).sensors && IsTarget(s.name, cameraId) && s.uuid != "" ==> s !in w.sensors
      ensures forall name :: name in stopped ==> IsTarget(name, cameraId)
      ensures calm ==> stopped == TargetNames(at, cameraId) && Torn(old(w), w, stopped)
    {
      Interfere();
      at := w;
      var listFails := Fails();
      var targets := if listFails then {} else set s | s in w.sensors && IsTarget(s.name, cameraId);
      var clean;
      clean, stopped := TearDownAll(targets);
      CallKeepsTransitive(old(w), at, w, {});
      NoNewSpecsTransitive(old(w), at, w, {});
      GoneStaysGone(at, w);
      if calm { TornFrom(old(w), at, w, stopped); }
      complete := !listFails && clean;
    }

    /** The loop of `stopRun`; one failure does not end it. */
    method TearDownAll(targets: set<VstSensor>) returns (clean: bool, stopped: set<Sensor>)
      requires Ready() && forall s :: s in targets ==> IsFootage(s.name) && s.uuid in w.uuids
      modifies this
      ensures Ready() && CallKeeps(old(w), w, {}) && NoNewSpecs(old(w), w, {})
      ensures calm ==> clean
      ensures clean && listsIds ==> forall s :: s in targets && s.uuid != "" ==> s !in w.sensors
      ensures stopped <= Names(targets) && (calm ==> stopped == Names(targets) && Torn(old(w), w, stopped))
    {
      clean, stopped := true, {};
      var todo := targets;
      while todo != {}
        invariant Ready() && CallKeeps(old(w), w, {}) && NoNewSpecs(old(w), w, {})
        invariant todo <= targets && (calm ==> clean)
        invariant clean && listsIds ==> AllGone(targets - todo, w)
        invariant stopped <= Names(targets) && (calm ==> stopped == Names(targets - todo) && Torn(old(w), w, stopped))
        decreases todo
      {
        var s :| s in todo;
        ghost var before := w;
        var done, off := TearDownOne(s);
        NextTorn(old(w), before, w, calm, stopped, s.name);
        GoneStaysGone(before, w);
        clean := clean && off;
        if done { stopped := stopped + {s.name}; }
        NamesGrow(targets, todo, s);
        todo := todo - {s};
      }
    }

    /** One sensor: rule and spec off, then the sensor itself, by uuid when it is known.
        `done` says nothing threw, `clean` that nothing failed either. */
    method TearDownOne(s: VstSensor) returns (done: bool, clean: bool)
      requires Ready() && IsFootage(s.name) && s.uuid in w.uuids
      modifies this
      ensures Ready() && CallKeeps(old(w), w, {}) && NoNewSpecs(old(w), w, {})
      ensures clean ==> done
      ensures calm ==> clean
      ensures clean && listsIds && s.uuid != "" ==> s !in w.sensors
      ensures calm ==> Torn(old(w), w, {s.name})
    {
      var off; ghost var forgotten;
      off, forgotten := DisableIngestion(s.name);
      ghost var before := w;
      var throws := Fails();
      if throws { return false, false; }
      var deleted, _ := DeleteSensor(if listsIds && s.uuid != "" then s.uuid else s.name);
      CallKeepsTransitive(old(w), before, w, {});
      NoNewSpecsTransitive(old(w), before, w, {});
      if OnlyConsoleWrites(old(w), w) { NothingNew(old(w), before, w); }
      if off { OldRulesStayGone(old(w), before, w, {s.name}, s.name); }
      done, clean := true, off && deleted;
    }

    /** A run from start to stop. Nothing else editing the document meanwhile, every live
        camera's spec is as it was, whatever happened in between. */
    method StartThenStop(camera: Sensor, url: string, override: Override, pauseLive: bool)
      returns (started: StartResult, stopped: StopResult)
      requires Ready() && IsFootage(camera)
      modifies this
      ensures Ready() && old(w).history <= w.history
      ensures calm && !lookupFails ==> stopped.complete
      ensures calm || stopped.complete ==> Current(w).paused == {}
      ensures AskedAsRecorded(old(w), w)
      ensures (forall i :: |old(w).history| <= i < |w.history| ==> w.history[i].byConsole) ==>
                LiveSpecs(Current(w).specs) == LiveSpecs(Current(old(w)).specs)
    {
      ghost var at;
      started, at := StartRun(camera, url, override, pauseLive);
      ghost var between := w;
      stopped, at := StopRun(camera, started.report.suspended);
      AskedAsRecordedBoth(old(w), between, w);
      if forall i :: |old(w).history| <= i < |w.history| ==> w.history[i].byConsole {
        LiveSpecsSurvive(w.history, |old(w).history| - 1, |w.history| - 1);
      }
    }
  }

  lemma {:induction false} LongerThanAll(strings: set<string>) returns (n: nat)
    ensures forall s :: s in strings ==> |s| < n
  {
    n := 1;
    if strings != {} {
      var s :| s in strings;
      n := LongerThanAll(strings - {s});
      if n <= |s| { n := |s| + 1; }
    }
  }

  lemma FreshUuidExists(uuids: set<string>)
    ensures exists uuid: string :: uuid !in uuids && uuid != ""
  {
    var n := LongerThanAll(uuids);
    var uuid := seq(n + 1, _ => 'f');
    assert uuid !in uuids && uuid != "";
  }

  lemma CallKeepsWiden(a: World, b: World, touched: set<Sensor>)
    requires Wf(a) && Wf(b) && CallKeeps(a, b, {})
    ensures CallKeeps(a, b, touched)
  {
  }

  lemma CallKeepsWithin(a: World, b: World, touched: set<Sensor>, more: set<Sensor>)
    requires Wf(a) && Wf(b) && CallKeeps(a, b, touched) && touched <= more
    ensures CallKeeps(a, b, more)
  {
  }

  lemma MarkerUnchanged(a: World, b: World)
    requires Wf(a) && Wf(b) && a.history <= b.history && NewVersionsKeepMarker(a, b)
    ensures Current(b).paused == Current(a).paused
  {
  }

  lemma AskedStays(a: World, b: World, c: World, ids: set<Sensor>)
    requires a.consoleCreated <= b.consoleCreated <= c.consoleCreated
    ensures forall id :: id in ids && AskedSince(a, b, id) ==> AskedSince(a, c, id)
    ensures c.consoleCreated != b.consoleCreated ==> AskedSince(a, c, c.consoleCreated[|c.consoleCreated| - 1].sensor)
  {
    forall id | id in ids && AskedSince(a, b, id)
      ensures AskedSince(a, c, id)
    {
      var i :| |a.consoleCreated| <= i < |b.consoleCreated| && b.consoleCreated[i].sensor == id;
      assert c.consoleCreated[i] == b.consoleCreated[i];
    }
  }

  lemma OneAskedAsRecorded(a: World, at: World, b: World, spec: Spec)
    requires Wf(at) && a.history <= at.history <= b.history && |a.history| > 0
    requires b.consoleCreated == a.consoleCreated || AskedFor(a, b, spec)
    requires AskedFor(a, b, spec) ==> ArmedFor(spec, Current(at).specs, "", NO_OVERRIDE)
    ensures AskedAsRecorded(a, b)
  {
    if AskedFor(a, b, spec) {
      UnchosenIsRecorded(spec, Current(at).specs);
      var i := |at.history| - 1;
      assert b.history[i] == at.history[i] && SaysOf(b.history, i, spec);
    }
  }

  lemma AskedMeansGrown(a: World, b: World, ids: set<Sensor>)
    ensures ids != {} && (forall id :: id in ids ==> AskedSince(a, b, id)) ==> b.consoleCreated != a.consoleCreated
  {
    if ids != {} && forall id :: id in ids ==> AskedSince(a, b, id) {
      var id :| id in ids;
      assert AskedSince(a, b, id);
    }
  }

  lemma CreatesOnlyBoth(a: World, b: World, c: World, first: set<Sensor>, second: set<Sensor>)
    requires CreatesOnly(a, b, first) && CreatesOnly(b, c, second)
    ensures CreatesOnly(a, c, first + second)
  {
    assert forall i :: |a.consoleCreated| <= i < |b.consoleCreated| ==> c.consoleCreated[i] == b.consoleCreated[i];
  }

  lemma FirstAsked(a: World, b: World, touched: set<Sensor>)
    requires CreatesOnly(a, b, touched) && b.consoleCreated != a.consoleCreated
    ensures b.consoleCreated[|a.consoleCreated|].sensor in touched
  {
  }

  lemma NothingAsked(a: World, b: World)
    requires CreatesOnly(a, b, {})
    ensures b.consoleCreated == a.consoleCreated
  {
    if b.consoleCreated != a.consoleCreated {
      FirstAsked(a, b, {});
      assert false;
    }
  }

  lemma NothingNew(start: World, a: World, b: World)
    requires start.history <= a.history && OnlyConsoleWrites(start, b) && NothingWritten(a, b)
    ensures b.history == a.history
  {
    if b.history != a.history {
      FirstVersionSince(a, b);
      assert false;
    }
  }

  lemma NothingYet(start: World, a: World, b: World)
    requires NothingWritten(start, a) && a.history <= b.history && OnlyConsoleWrites(start, b)
    ensures a.history == start.history
  {
    LaterWrites(start, a, b);
    NothingNew(start, start, a);
  }

  lemma FirstVersionSince(a: World, b: World)
    requires NothingWritten(a, b) && b.history != a.history
    ensures |a.history| < |b.history| && !b.history[|a.history|].byConsole
  {
  }

  /** Writing the marker over the document just read leaves the specs. */
  lemma MarkerWritten(a: World, b: World, c: World, sensors: set<Sensor>)
    requires Wf(a) && Wf(b) && EnvKeeps(a, b)
    requires c == b || c == b.(history := b.history + [Version(Current(b).(paused := sensors), true)])
    ensures Evolves(a, c) && NoNewSpecs(a, c, {}) && StaysDrained(a, c, {})
  {
  }

  function Names(sensors: set<VstSensor>): set<Sensor> {
    set s | s in sensors :: s.name
  }

  function TargetNames(w: World, cameraId: string): set<Sensor> {
    Names(set s | s in w.sensors && IsTarget(s.name, cameraId))
  }

  lemma NamesGrow(targets: set<VstSensor>, todo: set<VstSensor>, s: VstSensor)
    requires s in todo && todo <= targets
    ensures Names(targets - (todo - {s})) == Names(targets - todo) + {s.name}
  {
    assert targets - (todo - {s}) == (targets - todo) + {s};
  }

  lemma RecordedFrom(a: World, b: World, c: World, cameras: set<Sensor>)
    requires Wf(a) && Wf(b) && a.history <= b.history <= c.history && RecordedThroughout(a, c, cameras)
    ensures RecordedThroughout(b, c, cameras)
  {
  }

  lemma MarkerKeptTransitive(a: World, b: World, c: World)
    requires Wf(a) && Wf(b) && Wf(c) && a.history <= b.history <= c.history
    requires NewVersionsKeepMarker(a, b) && NewVersionsKeepMarker(b, c)
    ensures NewVersionsKeepMarker(a, c)
  {
    assert forall i :: |a.history| <= i < |b.history| ==> c.history[i] == b.history[i];
  }

  lemma GoneStaysGone(a: World, b: World)
    requires Wf(a) && Wf(b) && Evolves(a, b)
    ensures forall s: VstSensor :: s.uuid in a.uuids && s !in a.sensors ==> s !in b.sensors
  {
  }

  /** A pause outlives the calls made for the test camera. */
  lemma PauseStands(a: World, b: World, report: PauseReport, camera: Sensor)
    requires Wf(a) && Wf(b) && CallKeeps(a, b, {camera}) && IsFootage(camera)
    requires LiveOnly(report.live) && report.suspended <= report.live
    ensures (exists m :: Held(a, report.suspended, m)) ==> exists m :: Held(b, report.suspended, m)
    ensures (exists m :: MarkedAs(a, report.live, m)) ==> exists m :: MarkedAs(b, report.live, m)
  {
    if m :| Held(a, report.suspended, m) {
      assert Held(b, report.suspended, m);
    }
    if m :| MarkedAs(a, report.live, m) {
      MarkedStays(a, b, report.live, m);
    }
  }

  lemma RegisteredSince(a: World, b: World, c: World)
    requires a.uuids <= b.uuids && exists uuid :: NewlyRegistered(b, c, uuid)
    ensures exists uuid :: NewlyRegistered(a, c, uuid)
  {
    var uuid :| NewlyRegistered(b, c, uuid);
    assert NewlyRegistered(a, c, uuid);
  }

  lemma RunningSince(a: World, b: World, c: World, camera: Sensor, override: Override, armed: bool)
    requires a.uuids <= b.uuids && a.consoleCreated == b.consoleCreated && Running(b, c, camera, override, armed)
    ensures Running(a, c, camera, override, armed)
  {
    var uuid :| NewlyRegistered(b, c, uuid) && (armed ==> uuid in c.armed);
    assert NewlyRegistered(a, c, uuid);
    var spec :| AskedFor(b, c, spec) && spec.sensor == camera && Honours(spec, override);
    assert AskedFor(a, c, spec);
  }

  lemma WritingKeeps(a: World, b: World)
    requires Wf(a) && Wf(b)
    requires b == a || (b.history == a.history + [b.history[|b.history| - 1]]
                        && b == a.(history := b.history) && Current(b).paused == Current(a).paused)
    ensures CallKeeps(a, b, {})
  {
  }

  lemma CreatingKeeps(a: World, b: World, spec: Spec)
    requires Wf(a) && Wf(b)
    requires b == a.(consoleCreated := a.consoleCreated + [spec], rules := b.rules, nextRule := b.nextRule)
    requires (b.rules == a.rules && b.nextRule == a.nextRule)
             || (b.rules == a.rules + {Rule(a.nextRule, spec.sensor)} && b.nextRule == a.nextRule + 1)
    ensures CallKeeps(a, b, {spec.sensor})
  {
  }

  lemma DeletingKeeps(a: World, rule: Rule)
    requires Wf(a)
    ensures var b := a.(rules := a.rules - {rule}); Wf(b) && CallKeeps(a, b, {})
  {
  }
}
