/** The cluster a footage run works on, with its second writer: the reconciler, whose
    pods each act on their own, possibly stale, mounted copy of the rules document.
    World is one state of the cluster; EnvStep is everything that may happen to it
    without the console. */
module Reconciler {
  import opened Text

  type Sensor = string

  /** True when the camera belongs to a test-footage run. */
  predicate IsFootage(s: Sensor) {
    StartsWith(s, "test-")
  }

  /** One entry of the rules document. */
  datatype Spec = Spec(sensor: Sensor, alertType: string, prompt: string, streamUrl: string)

  /** rules.json in the ConfigMap: the desired specs and the paused marker. */
  datatype Doc = Doc(specs: seq<Spec>, paused: set<Sensor>)

  /** One version of the document; `byConsole` tells the run's own writes from others. */
  datatype Version = Version(doc: Doc, byConsole: bool)

  /** A live rule of the alert-bridge. */
  datatype Rule = Rule(id: nat, sensor: Sensor)

  /** A reconciler pod: the document version its mount shows, the pod template it was
      made from, and whether it is already being terminated (it keeps ticking). */
  datatype Pod = Pod(view: nat, template: nat, terminating: bool)

  /** A sensor registered in VST; registering again mints a new uuid. */
  datatype VstSensor = VstSensor(name: Sensor, uuid: string)

  datatype World = World(
    history: seq<Version>,          // the last one is current
    rules: set<Rule>,
    nextRule: nat,
    pods: map<nat, Pod>,
    template: nat,                  // bumped by a rollout restart
    desired: nat,                   // spec.replicas
    deployed: bool,                 // the Deployment exists
    hasSelector: bool,              // it has matchLabels
    sensors: set<VstSensor>,
    uuids: set<string>,             // every uuid ever handed out
    armed: set<string>,             // uuids whose recorder was armed
    consoleCreated: seq<Spec>)      // rules the console asked for, as armed, oldest first

  function Current(w: World): Doc
    requires |w.history| > 0
  {
    w.history[|w.history| - 1].doc
  }

  predicate Wf(w: World) {
    && |w.history| > 0
    && (forall p :: p in w.pods ==> w.pods[p].view < |w.history| && w.pods[p].template <= w.template)
    && (forall r :: r in w.rules ==> r.id < w.nextRule)
    && (forall s :: s in w.sensors ==> s.uuid in w.uuids)
  }

  // ----- steps of everything but the console -----------------------------------

  datatype EnvStep =
    | PodStart(pod: nat)
    | PodTick(pod: nat, sensor: Sensor)
    | PodRefresh(pod: nat, view: nat)
    | PodTerminate(pod: nat)
    | PodEnd(pod: nat)
    | RuleEnds(rule: Rule)
    | OtherEdit(specs: seq<Spec>)
    | SensorAdded(added: VstSensor)
    | SensorRemoved(removed: VstSensor)

  predicate Wants(doc: Doc, s: Sensor) {
    s !in doc.paused && exists i :: 0 <= i < |doc.specs| && doc.specs[i].sensor == s
  }

  predicate Enabled(w: World, e: EnvStep)
    requires Wf(w)
  {
    match e
    case PodStart(p) => w.deployed && w.desired > 0 && p !in w.pods
    case PodTick(p, s) => p in w.pods && Wants(w.history[w.pods[p].view].doc, s)
    case PodRefresh(p, view) => p in w.pods && w.pods[p].view <= view < |w.history|
    case PodTerminate(p) => p in w.pods
    case PodEnd(p) => p in w.pods
    case RuleEnds(r) => r in w.rules
    case OtherEdit(_) => true
    case SensorAdded(s) => s.uuid !in w.uuids
    case SensorRemoved(s) => s in w.sensors
  }

  /** A pod starts on the current document, ticks by creating a rule for a sensor its
      own view wants, and sees newer versions of the document later than they are
      written. Another writer of the document keeps the marker. */
  function Apply(w: World, e: EnvStep): World
    requires Wf(w) && Enabled(w, e)
  {
    match e
    case PodStart(p) => w.(pods := w.pods[p := Pod(|w.history| - 1, w.template, false)])
    case PodTick(_, s) => w.(rules := w.rules + {Rule(w.nextRule, s)}, nextRule := w.nextRule + 1)
    case PodRefresh(p, view) => w.(pods := w.pods[p := w.pods[p].(view := view)])
    case PodTerminate(p) => w.(pods := w.pods[p := w.pods[p].(terminating := true)])
    case PodEnd(p) => w.(pods := w.pods - {p})
    case RuleEnds(r) => w.(rules := w.rules - {r})
    case OtherEdit(specs) => w.(history := w.history + [Version(Doc(specs, Current(w).paused), false)])
    case SensorAdded(s) => w.(sensors := w.sensors + {s}, uuids := w.uuids + {s.uuid})
    case SensorRemoved(s) => w.(sensors := w.sensors - {s})
  }

  lemma ApplyKeepsWf(w: World, e: EnvStep)
    requires Wf(w) && Enabled(w, e)
    ensures Wf(Apply(w, e))
  {
  }

  ghost predicate ValidRun(w: World, steps: seq<EnvStep>)
    decreases |steps|
  {
    Wf(w) && (|steps| > 0 ==> Enabled(w, steps[0]) && ValidRun(Apply(w, steps[0]), steps[1..]))
  }

  ghost function After(w: World, steps: seq<EnvStep>): World
    requires ValidRun(w, steps)
    decreases |steps|
  {
    if |steps| == 0 then w else After(Apply(w, steps[0]), steps[1..])
  }

  // ----- the pause invariant ---------------------------------------------------

  predicate Silent(w: World, P: set<Sensor>) {
    forall r :: r in w.rules ==> r.sensor !in P
  }

  /** From version `m` on every version marks `P` paused. */
  predicate Marked(w: World, P: set<Sensor>, m: nat) {
    m < |w.history| && forall i :: m <= i < |w.history| ==> P <= w.history[i].doc.paused
  }

  /** No pod shows a version from before `m`. */
  predicate Fresh(w: World, m: nat) {
    forall p :: p in w.pods ==> w.pods[p].view >= m
  }

  /** The inductive invariant of a pause that holds. */
  predicate Held(w: World, P: set<Sensor>, m: nat) {
    Marked(w, P, m) && Fresh(w, m) && Silent(w, P)
  }

  /** Every pod made from template `t` or a later one shows version `m` or a later one. */
  predicate Informed(w: World, t: nat, m: nat) {
    m < |w.history| && forall p :: p in w.pods && w.pods[p].template >= t ==> w.pods[p].view >= m
  }

  /** No pod exists and none may start. */
  predicate Drained(w: World) {
    w.desired == 0 && w.pods == map[]
  }

  lemma HeldIsInductive(w: World, e: EnvStep, P: set<Sensor>, m: nat)
    requires Wf(w) && Enabled(w, e) && Held(w, P, m)
    ensures Held(Apply(w, e), P, m)
  {
    if e.PodTick? {
      assert P <= w.history[w.pods[e.pod].view].doc.paused;
    }
  }

  /** A held pause stays held whatever the pods, the VLM and other writers do: at no
      point of any run does a paused camera have a rule, nor may any pod, old or new,
      create one. */
  lemma {:induction false} PauseHolds(w: World, steps: seq<EnvStep>, P: set<Sensor>, m: nat)
    requires ValidRun(w, steps) && Held(w, P, m)
    ensures Wf(After(w, steps)) && Held(After(w, steps), P, m)
    ensures forall p, s :: s in P ==> !Enabled(After(w, steps), PodTick(p, s))
    decreases |steps|
  {
    if |steps| > 0 {
      HeldIsInductive(w, steps[0], P, m);
      ApplyKeepsWf(w, steps[0]);
      PauseHolds(Apply(w, steps[0]), steps[1..], P, m);
    } else {
      forall p, s | s in P && p in w.pods
        ensures !Enabled(w, PodTick(p, s))
      {
        assert P <= w.history[w.pods[p].view].doc.paused;
      }
    }
  }

  // ----- what a rollout restart alone does -------------------------------------

  /** `waitForRollout`: every pod that is not being terminated is of the current
      template, and there are as many as desired. Terminating pods are not counted. */
  predicate RolloutComplete(w: World) {
    var live := set p | p in w.pods && !w.pods[p].terminating;
    w.deployed && |live| == w.desired && forall p :: p in live ==> w.pods[p].template == w.template
  }

  /** `quiesceDeployment`'s poll: without labels no pod is looked at. */
  predicate ListsNoPods(w: World) {
    !w.hasSelector || w.pods == map[]
  }

  /** A cluster analysing one camera, with one reconciler pod. */
  function OneCamera(cam: Sensor, hasSelector: bool): World {
    World([Version(Doc([Spec(cam, "theft", "look", "rtsp://cam")], {}), false)], {Rule(0, cam)}, 1,
          map[1 := Pod(0, 0, false)], 0, 1, true, hasSelector, {}, {}, {}, [])
  }

  lemma OneCameraWanted(cam: Sensor, hasSelector: bool)
    ensures Wants(OneCamera(cam, hasSelector).history[0].doc, cam)
  {
    assert OneCamera(cam, hasSelector).history[0].doc.specs[0].sensor == cam;
  }

  /** Marking the camera paused and restarting the reconciler is not enough: after the
      rollout reports itself complete and the camera is suspended, the outgoing pod
      still creates a rule for it from its stale copy. */
  lemma RollingRestartIsNotEnough(cam: Sensor)
    ensures var w0 := OneCamera(cam, true);
            var marked := w0.(history := w0.history + [Version(Current(w0).(paused := {cam}), true)]);
            var restarted := marked.(template := 1);
            var rolled := After(restarted, [PodStart(2), PodTerminate(1)]);
            var suspended := rolled.(rules := {});
            && ValidRun(restarted, [PodStart(2), PodTerminate(1)])
            && RolloutComplete(rolled)
            && Marked(suspended, {cam}, 1) && Silent(suspended, {cam})
            && ValidRun(suspended, [PodTick(1, cam)])
            && !Silent(After(suspended, [PodTick(1, cam)]), {cam})
  {
    var w0 := OneCamera(cam, true);
    var marked := w0.(history := w0.history + [Version(Current(w0).(paused := {cam}), true)]);
    var restarted := marked.(template := 1);
    RollOver(restarted);
    var suspended := After(restarted, [PodStart(2), PodTerminate(1)]).(rules := {});
    OneCameraWanted(cam, true);
    assert suspended.history[0] == w0.history[0];
    StaleTick(suspended, 1, cam);
  }

  /** A rollout of the one pod: its successor starts, it is told to end, and that counts
      as complete. */
  lemma RollOver(w: World)
    requires Wf(w) && w.deployed && w.desired == 1 && w.template == 1
    requires w.pods == map[1 := Pod(0, 0, false)]
    ensures var run := [PodStart(2), PodTerminate(1)];
            && ValidRun(w, run)
            && After(w, run) == w.(pods := map[1 := Pod(0, 0, true), 2 := Pod(|w.history| - 1, 1, false)])
            && RolloutComplete(After(w, run))
  {
    var run := [PodStart(2), PodTerminate(1)];
    var w1 := Apply(w, run[0]);
    var w2 := Apply(w1, run[1]);
    assert run[1..] == [run[1]] && [run[1]][1..] == [];
    assert After(w1, [run[1]]) == w2;
    assert After(w, run) == w2;
    assert w2.pods == map[1 := Pod(0, 0, true), 2 := Pod(|w.history| - 1, 1, false)];
    assert (set p | p in w2.pods && !w2.pods[p].terminating) == {2};
  }

  /** Scaling to zero is believed at once when the Deployment has no labels to list its
      pods by: the listing is empty while the pod still runs, and after the camera is
      suspended it creates the rule again. */
  lemma QuiesceNeedsASelector(cam: Sensor)
    ensures var w0 := OneCamera(cam, false);
            var marked := w0.(history := w0.history + [Version(Current(w0).(paused := {cam}), true)]);
            var scaled := marked.(desired := 0);
            var suspended := scaled.(rules := {});
            && ListsNoPods(scaled) && !Drained(scaled)
            && Marked(suspended, {cam}, 1) && Silent(suspended, {cam})
            && ValidRun(suspended, [PodTick(1, cam)])
            && !Silent(After(suspended, [PodTick(1, cam)]), {cam})
  {
    var w0 := OneCamera(cam, false);
    var marked := w0.(history := w0.history + [Version(Current(w0).(paused := {cam}), true)]);
    var suspended := marked.(desired := 0).(rules := {});
    assert marked.desired == 1 && 1 in suspended.pods;
    OneCameraWanted(cam, false);
    assert suspended.history[0] == w0.history[0];
    StaleTick(suspended, 1, cam);
  }

  /** A pod whose view wants a sensor creates its rule. */
  lemma StaleTick(w: World, p: nat, s: Sensor)
    requires Wf(w) && p in w.pods && Wants(w.history[w.pods[p].view].doc, s)
    ensures ValidRun(w, [PodTick(p, s)]) && !Silent(After(w, [PodTick(p, s)]), {s})
  {
    var run := [PodTick(p, s)];
    var next := Apply(w, run[0]);
    ApplyKeepsWf(w, run[0]);
    assert run[1..] == [] && ValidRun(next, []) && After(next, []) == next;
    assert After(w, run) == next && Rule(w.nextRule, s) in next.rules;
  }

  // ----- exactly when silence lasts ---------------------------------------------

  ghost predicate Unwanted(doc: Doc, P: set<Sensor>) {
    forall s :: s in P ==> !Wants(doc, s)
  }

  /** No edit by another writer asks for one of the sensors again. */
  ghost predicate EditsSpare(w: World, steps: seq<EnvStep>, P: set<Sensor>)
    requires ValidRun(w, steps)
    decreases |steps|
  {
    |steps| > 0 ==>
      && (steps[0].OtherEdit? ==> Unwanted(Doc(steps[0].specs, Current(w).paused), P))
      && EditsSpare(Apply(w, steps[0]), steps[1..], P)
  }

  /** No pod shows, or can still come to see, a version that wants one of the sensors. */
  ghost predicate NoPodRemembers(w: World, P: set<Sensor>)
    requires Wf(w)
  {
    forall p, i :: p in w.pods && w.pods[p].view <= i < |w.history| ==> Unwanted(w.history[i].doc, P)
  }

  ghost predicate SilentOverAllRuns(w: World, P: set<Sensor>) {
    forall steps :: ValidRun(w, steps) && EditsSpare(w, steps, P) ==> Silent(After(w, steps), P)
  }

  lemma SilenceStep(w: World, e: EnvStep, P: set<Sensor>)
    requires Wf(w) && Enabled(w, e) && Silent(w, P) && Unwanted(Current(w), P) && NoPodRemembers(w, P)
    requires e.OtherEdit? ==> Unwanted(Doc(e.specs, Current(w).paused), P)
    ensures var next := Apply(w, e);
            Wf(next) && Silent(next, P) && Unwanted(Current(next), P) && NoPodRemembers(next, P)
  {
    ApplyKeepsWf(w, e);
    if e.PodTick? { assert Unwanted(w.history[w.pods[e.pod].view].doc, P); }
    MemoryStep(w, e, P);
  }

  lemma MemoryStep(w: World, e: EnvStep, P: set<Sensor>)
    requires Wf(w) && Enabled(w, e) && Unwanted(Current(w), P) && NoPodRemembers(w, P)
    requires e.OtherEdit? ==> Unwanted(Doc(e.specs, Current(w).paused), P)
    ensures Wf(Apply(w, e)) && NoPodRemembers(Apply(w, e), P)
  {
    var next := Apply(w, e);
    ApplyKeepsWf(w, e);
    forall p, i | p in next.pods && next.pods[p].view <= i < |next.history|
      ensures Unwanted(next.history[i].doc, P)
    {
      if i < |w.history| {
        assert next.history[i] == w.history[i];
        assert i == |w.history| - 1 || (p in w.pods && w.pods[p].view <= i);
      } else {
        assert next.history[i].doc == Doc(e.specs, Current(w).paused);
      }
    }
  }

  lemma {:induction false} SilenceLasts(w: World, steps: seq<EnvStep>, P: set<Sensor>)
    requires ValidRun(w, steps) && EditsSpare(w, steps, P)
    requires Silent(w, P) && Unwanted(Current(w), P) && NoPodRemembers(w, P)
    ensures Silent(After(w, steps), P)
    decreases |steps|
  {
    if |steps| > 0 {
      SilenceStep(w, steps[0], P);
      SilenceLasts(Apply(w, steps[0]), steps[1..], P);
    }
  }

  lemma RememberingPodBreaksSilence(w: World, P: set<Sensor>, p: nat, i: nat, s: Sensor)
    requires Wf(w) && Silent(w, P) && s in P
    requires p in w.pods && w.pods[p].view <= i < |w.history| && Wants(w.history[i].doc, s)
    ensures var run := [PodRefresh(p, i), PodTick(p, s)];
            ValidRun(w, run) && EditsSpare(w, run, P) && !Silent(After(w, run), P)
  {
    var run := [PodRefresh(p, i), PodTick(p, s)];
    var seen := Apply(w, run[0]);
    ApplyKeepsWf(w, run[0]);
    StaleTick(seen, p, s);
    assert run[1..] == [PodTick(p, s)];
    assert After(w, run) == After(seen, [PodTick(p, s)]);
    assert [PodTick(p, s)][1..] == [] && EditsSpare(Apply(seen, PodTick(p, s)), [], P);
    assert EditsSpare(seen, [PodTick(p, s)], P);
  }

  /** For sensors without a rule that the current document does not want, paused or taken
      out of it: over every run, none gets a rule again unless some edit asks for it, if
      and only if no pod remembers a version that wants it. */
  lemma SilentForeverExactly(w: World, P: set<Sensor>)
    requires Wf(w) && Silent(w, P) && Unwanted(Current(w), P)
    ensures SilentOverAllRuns(w, P) <==> NoPodRemembers(w, P)
  {
    if NoPodRemembers(w, P) {
      forall steps | ValidRun(w, steps) && EditsSpare(w, steps, P) ensures Silent(After(w, steps), P) {
        SilenceLasts(w, steps, P);
      }
    } else {
      var p, i :| p in w.pods && w.pods[p].view <= i < |w.history| && !Unwanted(w.history[i].doc, P);
      var s :| s in P && Wants(w.history[i].doc, s);
      RememberingPodBreaksSilence(w, P, p, i, s);
    }
  }

  /** A marker makes every edit harmless, so for paused cameras that is all runs. */
  lemma {:induction false} MarkerSparesEdits(w: World, steps: seq<EnvStep>, P: set<Sensor>)
    requires ValidRun(w, steps) && P <= Current(w).paused
    ensures EditsSpare(w, steps, P)
    decreases |steps|
  {
    if |steps| > 0 {
      MarkerSparesEdits(Apply(w, steps[0]), steps[1..], P);
    }
  }

  /** The document after a stop has taken the test camera's spec out and written the
      cleared marker, the rule having been deleted before. */
  function AfterStop(cam: Sensor): World {
    var w0 := OneCamera(cam, true);
    w0.(rules := {}, history := w0.history + [Version(Doc([], {}), true), Version(Doc([], {}), true)], template := 1)
  }

  /** A stop in which nothing fails does not promise that the test camera's analysis has
      ended: its rule is deleted and its spec is gone, the restart is reported complete,
      and then the outgoing pod creates the rule again from its copy of the spec. By
      SilentForeverExactly that is possible exactly while a pod remembers the spec. */
  lemma StoppedCameraComesBack(cam: Sensor)
    ensures var w := AfterStop(cam);
            && Wf(w) && Silent(w, {cam}) && Unwanted(Current(w), {cam}) && !NoPodRemembers(w, {cam})
            && ValidRun(w, [PodStart(2), PodTerminate(1)])
            && var rolled := After(w, [PodStart(2), PodTerminate(1)]);
               && RolloutComplete(rolled)
               && ValidRun(rolled, [PodTick(1, cam)])
               && !Silent(After(rolled, [PodTick(1, cam)]), {cam})
  {
    var w := AfterStop(cam);
    RollOver(w);
    OneCameraWanted(cam, true);
    assert w.history[0] == OneCamera(cam, true).history[0];
    assert w.pods[1].view <= 0 && !Unwanted(w.history[0].doc, {cam});
    StaleTick(After(w, [PodStart(2), PodTerminate(1)]), 1, cam);
  }

  // ----- what other writers cannot undo ----------------------------------------

  /** A live rule that is gone stays gone; a new one for the same camera is another. */
  ghost predicate RulesStayDeleted(a: World, b: World) {
    a.nextRule <= b.nextRule && forall r: Rule :: r in b.rules && r.id < a.nextRule ==> r in a.rules
  }

  /** Facts that outlive any number of steps of anyone: versions are only added, a
      uuid or a rule that is gone stays gone, and the Deployment itself stays. */
  ghost predicate Evolves(a: World, b: World) {
    && a.history <= b.history
    && a.uuids <= b.uuids
    && (forall s: VstSensor :: s.uuid in a.uuids && s !in a.sensors ==> s !in b.sensors)
    && RulesStayDeleted(a, b)
    && a.deployed == b.deployed && a.hasSelector == b.hasSelector
    && a.consoleCreated <= b.consoleCreated && a.armed <= b.armed
  }

  ghost predicate NewVersionsKeepMarker(a: World, b: World)
    requires Wf(a) && Wf(b)
  {
    forall i :: |a.history| <= i < |b.history| ==> b.history[i].doc.paused == Current(a).paused
  }

  /** What the steps of the environment keep, beyond Evolves. */
  ghost predicate EnvKeeps(a: World, b: World)
    requires Wf(a) && Wf(b)
  {
    && Evolves(a, b)
    && NewVersionsKeepMarker(a, b)
    && (forall i :: |a.history| <= i < |b.history| ==> !b.history[i].byConsole)
    && b.desired == a.desired && b.template == a.template && b.consoleCreated == a.consoleCreated
    && b.armed == a.armed
    && (forall P, m :: Held(a, P, m) ==> Held(b, P, m))
    && (forall P, m :: Marked(a, P, m) ==> Marked(b, P, m))
    && (Drained(a) ==> Drained(b) && b.rules <= a.rules)
  }

  lemma StepKeeps(a: World, e: EnvStep)
    requires Wf(a) && Enabled(a, e)
    ensures Wf(Apply(a, e)) && EnvKeeps(a, Apply(a, e))
  {
    ApplyKeepsWf(a, e);
    StepEvolves(a, e);
    forall P, m | Held(a, P, m) ensures Held(Apply(a, e), P, m) {
      HeldIsInductive(a, e, P, m);
    }
  }

  /** What pods were told, they and their successors know. */
  ghost predicate KeepsInformed(a: World, b: World) {
    forall t, m :: Informed(a, t, m) ==> Informed(b, t, m)
  }

  lemma StepKeepsInformed(a: World, e: EnvStep)
    requires Wf(a) && Enabled(a, e)
    ensures KeepsInformed(a, Apply(a, e))
  {
  }

  lemma StepEvolves(a: World, e: EnvStep)
    requires Wf(a) && Enabled(a, e)
    ensures Evolves(a, Apply(a, e))
  {
  }

  lemma EnvKeepsTransitive(a: World, b: World, c: World)
    requires Wf(a) && Wf(b) && Wf(c) && EnvKeeps(a, b) && EnvKeeps(b, c)
    ensures EnvKeeps(a, c)
  {
    assert forall i :: |a.history| <= i < |b.history| ==> c.history[i] == b.history[i];
  }

  // ----- the specs of the live cameras -----------------------------------------

  function LiveSpecs(specs: seq<Spec>): seq<Spec> {
    if |specs| == 0 then []
    else (if IsFootage(specs[0].sensor) then [] else [specs[0]]) + LiveSpecs(specs[1..])
  }

  /** Every write of the console leaves the live cameras' specs as the version it
      replaces had them. */
  ghost predicate KeepsLiveSpecs(history: seq<Version>) {
    forall i :: 0 < i < |history| && history[i].byConsole ==>
      LiveSpecs(history[i].doc.specs) == LiveSpecs(history[i - 1].doc.specs)
  }

  /** So over any stretch with no other writer the live specs are the same at both ends,
      whatever runs were started and stopped in between. */
  lemma {:induction false} LiveSpecsSurvive(history: seq<Version>, i: nat, j: nat)
    requires KeepsLiveSpecs(history) && i <= j < |history|
    requires forall k :: i < k <= j ==> history[k].byConsole
    ensures LiveSpecs(history[j].doc.specs) == LiveSpecs(history[i].doc.specs)
    decreases j
  {
    if i < j {
      LiveSpecsSurvive(history, i, j - 1);
    }
  }

  lemma {:induction false} LiveSpecsAppend(a: seq<Spec>, b: seq<Spec>)
    ensures LiveSpecs(a + b) == LiveSpecs(a) + LiveSpecs(b)
  {
    if |a| == 0 {
      assert a + b == b;
    } else {
      assert (a + b)[1..] == a[1..] + b;
      LiveSpecsAppend(a[1..], b);
    }
  }
}
