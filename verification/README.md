# The console's protocols and transformations, modelled in Dafny

The console runs a video-analysis box. It competes with other writers for the same
cluster state, reads large buckets in the background, polls its own CI, and rewrites
names, paths, captions and log lines. This project models the parts of it whose
correctness spans several functions or a whole run, and proves what they promise.
`dafny verify dfyconfig.toml` checks everything.

| module | models |
|---|---|
| `Reconciler`, `FootageRun` | the cluster with its second rule writer, and starting and stopping a footage run call by call, any other step of the cluster between any two calls |
| `Regex`, `PathGlob`, `SensorGlob`, `WorkflowPaths`, `CiAlert` | the two glob compilers over a regular-expression syntax tree, the workflow reader and the poll that mails |
| `Redact`, `Logger` | redaction as information flow, and the log line made from inherited contexts |
| `BucketScan`, `StorageSubstrate`, `BoxMode`, `ErrorBridge` | the bounded bucket walk, the stale-while-revalidate cache, the GPU-mode guard, the dedupe window; clocks are explicit |
| `TopologyLayout` | stage ranking, camera grid and pipeline columns |
| `MediaGuard`, `AgentEnv`, `FootageName`, `Caption` | media paths against the URL parser, the env merge, file names, captions |
| `Options`, `Text` | shared string functions and the optional value |

What the proofs turned up, each with its exact condition or a concrete case:

- `deploymentExists` answers "no" for any failed read (src/lib/k8s.ts:316-323). With a
  reconciler deployed, cameras to resume whose streams are recorded, and no other call
  failing, the console asks for live rules if and only if that one read fails
  (`FootageRun.Console.RestoreCameras`). The comment at
  src/lib/test-footage-run.ts:407-409 promises one writer.
- A start that throws while suspending leaves the paused marker set; a returned failure
  clears it (`FootageRun.Console.StartRun`). Without match labels the quiesce reports
  success at once and the pod re-creates the rules (`Reconciler.QuiesceNeedsASelector`).
- After a stop in which nothing fails the test camera's rule may come back from a pod
  that still remembers its spec (`Reconciler.StoppedCameraComesBack`), and exactly then
  (`Reconciler.SilentForeverExactly`): a stop restarts the reconciler, it does not quiesce it.
- `a/**/**` rejects the directory `a` itself (`PathGlob.StarRunExample`); a `?` in a
  sensor glob is a quantifier, never a character (`SensorGlob.PreviewIsRightWithoutQuestions`).
- A first poll that fails, or whose mail fails, on a machine without a state file
  silences the CI alarm for good (`CiAlert.WedgedExactly`).
- A second redaction changes the text of a string that was cut, unless it lost exactly
  21 characters (`Redact.TruncateTwice`); a function is printed unredacted, so one whose
  source begins like a credential passes through (`Redact.ExoticTextIsNotRedacted`).
- A cold start rescans a bucket inside its backoff while reads say nothing is
  refreshing (`StorageSubstrate.ColdStartBreaksBoth`), and nothing else makes a read say
  something false (`StorageSubstrate.TruthfulExactly`).
- A timed-out mode read is abandoned, not cancelled, so two can be outstanding once one
  is 13 s old (`BoxMode.TimeoutOverlaps`), and not before (`BoxMode.OneReadAtATime`); the
  13 s lag of the guard is exact to the millisecond (`BoxMode.StickyJustBefore`).
- An env entry with neither value nor reference is lost, and a patched name that was a
  reference ends up twice (`AgentEnv.OtherNamesKeepTheirMeaning`,
  `AgentEnv.NamesStayUniqueExactly`).
- A stored file whose name was cut behind a hyphen cannot be deleted by its own name
  (`FootageName.UnluckyCut`).
- The comment at src/lib/error-bridge.ts:93-99 speaks of one or two stripped segments,
  purely numeric ones among them; the code strips any number, and only those with a
  letter and a digit. A pod whose suffix was drawn without a digit reports under a name
  of its own (`ErrorBridge.SuffixDoesNotMatterExactly`, `ErrorBridge.PodNames`).
- Of several entries with one name the settings page shows the first value and a save
  keeps the last (`AgentEnv.SavedSettingsAreShown`).

## Model

| member | source | states |
|---|---|---|
| `Reconciler.HeldIsInductive` | src/lib/test-footage-run.ts:279-286 | marker set from a version on, no pod showing an older version, no rule for a paused camera: any step of a pod, the VLM, VST or another writer keeps all three together |
| `Reconciler.PauseHolds` | src/lib/test-footage-run.ts:272-346 | over every run a held pause stays held, and no pod, old or new, may create a rule for a paused camera at its end |
| `Reconciler.RollingRestartIsNotEnough` | src/lib/k8s.ts:346-350 | the run in which the rollout reports complete and the outgoing pod then re-creates a suspended camera's rule |
| `Reconciler.QuiesceNeedsASelector` | src/lib/k8s.ts:362-374 | the run in which a Deployment without labels is reported quiesced at once and its pod then re-creates a suspended, marked camera's rule |
| `Reconciler.SilentForeverExactly` | src/lib/k8s.ts:340-354 | for cameras without a rule that the current document does not want: over all runs in which no edit asks for one again, none ever gets a rule if and only if no pod shows, or can still come to see, a version that wants it |
| `Reconciler.MarkerSparesEdits` | src/lib/test-footage-run.ts:279-286 | for paused cameras the edits are harmless, so that is every run |
| `Reconciler.StoppedCameraComesBack` | src/lib/test-footage-run.ts:448-487 | the run in which a stop deletes the test camera's rule and spec, the restart is reported complete, and the outgoing pod creates the rule again |
| `Reconciler.StepKeeps` | src/lib/test-footage-run.ts:256-264 | what no step of anyone else undoes: versions, the marker, a held pause, a drained reconciler, a uuid that is gone |
| `Reconciler.LiveSpecsSurvive` | src/lib/test-footage-run.ts:305-308 | while only the console writes the document, the live cameras' specs are the same at any two versions |
| `FootageRun.DroppingFootageKeepsLive` | src/lib/helpers/ingestion.ts:168-173 | taking a test camera's spec out leaves every live camera's spec |
| `FootageRun.DroppedIsGone` | src/lib/helpers/ingestion.ts:170-172 | no spec of the camera is left |
| `FootageRun.UpsertingFootageKeepsLive` | src/lib/helpers/ingestion.ts:209-221 | recording a test camera's spec leaves every live camera's spec |
| `FootageRun.UpsertedIsFound` | src/lib/helpers/ingestion.ts:209-221 | the recorded spec is the one found afterwards |
| `FootageRun.ToldPodsResume` | src/lib/test-footage-run.ts:404-415 | why clearing the marker is enough with a reconciler: over every later run each pod of the new template may create a rule for exactly the cameras its copy of the document has a spec for |
| `FootageRun.Console.SetPausedSensors` | src/lib/test-footage-run.ts:37-78 | unless it reports that the marker was not recorded, every version from some point on is marked with exactly these sensors, and with the restart accepted every pod of the new template shows such a version; when no call fails both hold |
| `FootageRun.Console.RestartReconciler` | src/lib/test-footage-run.ts:59-71 | the restart leaves the marker alone and makes a new template, of which every pod shows the document as it was then or later; a full success means the rollout looked complete, and when no call fails exactly that |
| `FootageRun.Console.WaitForRollout` | src/lib/k8s.ts:286-312 | true only in a state whose running pods are all of the new template and as many as desired; when no call fails false only in another |
| `FootageRun.Console.QuiesceDeployment` | src/lib/k8s.ts:355-381 | the count reported is the one the Deployment had; with labels, a reported quiesce means no pod exists and none may start; when no call fails it reports one exactly when the listing is empty |
| `FootageRun.Console.ScaleBack` | src/lib/test-footage-run.ts:326-334 | scaling back keeps a held pause; a success sets the replica count |
| `FootageRun.Console.SuspendIngestion` | src/lib/helpers/ingestion.ts:128-141 | a success means every rule the camera had is gone, and on a drained reconciler that it has none; no version of the document is written |
| `FootageRun.Console.DisableIngestion` | src/lib/helpers/ingestion.ts:160-175 | a success means every rule the camera had is gone; the spec goes when the write went through; marker and live specs stay |
| `FootageRun.Console.EnableIngestion` | src/lib/helpers/ingestion.ts:177-223 | when no call fails it succeeds exactly with a stream given or recorded; it asks for at most one rule, of this camera, armed with what the override chose, else with the recorded alert type, prompt and stream, else with the defaults; the spec is recorded when, besides, no one else writes meanwhile and the recorded one says something else; resuming with no override rewrites no live spec |
| `FootageRun.Console.RegisterSensor` | src/lib/helpers/vst-register.ts:46-80 | a success adds one sensor of the name under a uuid never used, and when no call fails the recorder is armed under that uuid and no other |
| `FootageRun.Console.DeleteSensor` | src/lib/helpers/vst.ts:280-302 | exactly the sensors with the uuid given are removed, none when the key is a name |
| `FootageRun.Console.DesiredLiveCameras` | src/lib/test-footage-run.ts:240-254 | exactly the live cameras with a rule or a spec, as far as the two lists could be read |
| `FootageRun.Console.SuspendAll` | src/lib/test-footage-run.ts:304-317 | on a drained reconciler the suspended cameras have no rule at the end of the loop, and the console has written nothing to the document |
| `FootageRun.Console.SuspendReSeeded` | src/lib/test-footage-run.ts:337-346 | under a held pause the check finds nothing to suspend again; when no call fails it finds exactly the suspended cameras with a rule, and every rule they had is gone |
| `FootageRun.Console.SuspendUnderMarker` | src/lib/test-footage-run.ts:272-317 | every rule the suspended cameras had is gone; marker recorded, quiesce seen and labels present: at the end of the suspend loop the pause holds; when no call fails the suspended are exactly the live cameras with a rule or a spec |
| `FootageRun.Console.PutBack` | src/lib/test-footage-run.ts:318-346 | scaling back happens on every path, a throw included, to the old count or 1; a held pause survives it and the check then finds nothing |
| `FootageRun.Console.PauseLive` | src/lib/test-footage-run.ts:272-350 | marker recorded, quiesce seen and labels present: nothing is re-seeded and the pause holds at the end; the reconciler is scaled back on every path, to the count it had when the start began or 1; every rule the suspended cameras had is gone |
| `FootageRun.Console.RemoveExistingRun` | src/lib/test-footage-run.ts:201-220 | when no call fails one sensor of the name listed with a uuid is gone, and so is every rule the camera had; no other writer in between it has no spec, on a drained reconciler no rule; marker, held pause and live specs stay |
| `FootageRun.Console.StartRun` | src/lib/test-footage-run.ts:265-402 | a sealed pause still holds when the start returns, the reconciler scaled back to the count it had or 1; the camera is registered under a new uuid and its one rule is armed as chosen; a returned failure ends with the marker cleared unless clearing it failed, an analysis that did not turn on also with the sensor gone; a start that did not fail asks for rules of the test camera only, one that did also for the cameras it resumed, and for those only when the lookup found no reconciler or was not answered; when no call fails it starts with every live camera suspended, and when only the registration does it resumes them |
| `FootageRun.Console.RestoreCameras` | src/lib/test-footage-run.ts:422-442 | the marker is cleared, and a resume left to the reconciler leaves every pod of its template showing that; only this lookup failing, with a reconciler deployed and the cameras' streams recorded throughout, the console asks for live rules if and only if the lookup fails; wherever resuming is not delegated and no other call fails every such camera is asked for, armed exactly as recorded |
| `FootageRun.Console.DeploymentExists` | src/lib/k8s.ts:314-323 | yes exactly when the Deployment exists and the lookup is answered |
| `FootageRun.Console.TearDown` | src/lib/test-footage-run.ts:461-487 | when nothing failed and VST lists uuids, every targeted sensor with a non-empty uuid there was at the start is gone; every rule a listed target had is gone; no other writer in between none has a spec, on a drained reconciler none has a rule |
| `FootageRun.Console.StopRun` | src/lib/test-footage-run.ts:455-503 | from any state, when no call fails: the marker is empty; the targeted test sensors listed with a non-empty uuid are gone; every rule a listed target had is gone; no other writer in between none has a spec, on a drained reconciler none has a rule; the resumed set is the caller's and the marked cameras without the test ones |
| `FootageRun.Console.PausedSensors` | src/lib/test-footage-run.ts:170-181 | the marker as it stands, or nothing when it cannot be read |
| `FootageRun.Console.StartThenStop` | src/lib/test-footage-run.ts:444-503 | with no other writer every live camera's spec is back unchanged, whichever calls failed; and every rule asked for a live camera on the way is armed exactly as some version of the document recorded it meanwhile |
| `Regex.StarOfCharacters` | scripts/ci-alert.py:162-164 | a starred one-character expression matches exactly the strings of its characters |
| `PathGlob.GlobToRegex` | scripts/ci-alert.py:142-171 | the loop emits exactly the pieces of the pattern's tokens |
| `PathGlob.TokensMatchCompiled` | scripts/ci-alert.py:152-170 | the emitted tokens match a path exactly as the compiled reading of its segments says |
| `PathGlob.GlobKeepsMeaning` | scripts/ci-alert.py:142-171 | the expression accepts exactly the paths matched segment by segment, for `**` only as a whole segment and no run of them at the end |
| `PathGlob.GlobKeepsMeaningExactly` | scripts/ci-alert.py:145-149 | and on every clean path if and only if the pattern does not end in a run of `**` after something else |
| `PathGlob.StarRunExample` | scripts/ci-alert.py:153-161 | `a/**/**` rejects `a`, which `a/**` accepts |
| `PathGlob.MatchesAny` | scripts/ci-alert.py:174-177 | the changed files some pattern accepts, in order, for any correct regex engine |
| `PathGlob.KeptExactly` | scripts/ci-alert.py:174-177 | a file is among them exactly when it changed and some pattern accepts it |
| `PathGlob.KeptInOrder` | scripts/ci-alert.py:174-177 | and the files stay in their order |
| `SensorGlob.EscapedIsScan` | src/lib/utils.ts:27-38 | the nested splits and joins give the text read off the glob left to right |
| `SensorGlob.PreviewIsRightWithoutQuestions` | src/lib/utils.ts:22-38 | the preview agrees with the direct wildcard matcher on every one-line id if and only if the glob has no `?` |
| `WorkflowPaths.LoadPushPaths` | scripts/ci-alert.py:92-139 | the loop over states and indents returns what the line-by-line reading says |
| `WorkflowPaths.SkippedExactly` | scripts/ci-alert.py:107-110 | the lines passed over are those of white space only and those whose first other character is `#` |
| `WorkflowPaths.ReaderUndoesPrinter` | scripts/ci-alert.py:92-139 | any list printed under `on:`, `push:`, `paths:` amid unrelated lines is read back exactly, in order, up to the dedent |
| `CiAlert.GreenIsEarned` | scripts/ci-alert.py:236-325 | a commit passes only on its own successful run or on a successful ancestor's when no changed file lies under a triggering path |
| `CiAlert.VerdictExactly` | scripts/ci-alert.py:236-325 | when a commit is green, pending, bad, failed or covered, each if and only if, told from the newest run, the two times and the ancestor: green for a successful run of HEAD's own, or, with none 45 minutes on, for a successful ancestor whose changed files are known and match no pattern |
| `CiAlert.FindCoveredBase` | scripts/ci-alert.py:180-233 | the ancestor found is the newest whose run completed with a conclusion, and none is found exactly when there is none |
| `CiAlert.MailsAtStreakEdges` | scripts/ci-alert.py:520-556 | over any polls, failed ones and raised sends included: a failure mail is attempted exactly when a poll reaches a bad verdict and the last recorded one was not bad or of another commit, a recovery mail exactly when it reaches a green one after a recorded bad one, none at a pending poll or once wedged |
| `CiAlert.FileHolds` | scripts/ci-alert.py:513-560 | before each poll the file holds the verdict of the latest poll that reached one and whose mail, if any, went out |
| `CiAlert.ReasonsAreKept` | scripts/ci-alert.py:567-616 | a poll or a mail that failed leaves its reason on file beside the verdict known before; a verdict left on file clears it |
| `CiAlert.RecoveriesAnswerFailures` | scripts/ci-alert.py:513-560 | over any polls, failed ones and failed sends included, delivered recoveries plus what is owed never exceed delivered failures plus what was owed |
| `CiAlert.RecoveriesNeverOutnumberFailures` | scripts/ci-alert.py:520-560 | recovery mails never outnumber failure mails |
| `CiAlert.MailsAlternate` | scripts/ci-alert.py:520-560 | between two recovery mails a failure mail was delivered |
| `CiAlert.FailedSendIsRetried` | scripts/ci-alert.py:536-560 | a mail whose send raised is attempted again exactly when the state file held a verdict |
| `CiAlert.OwnFailureFileIsFinal` | scripts/ci-alert.py:594-616 | from a file with only `self_failure` no poll ever mails about a commit again |
| `CiAlert.WedgedExactly` | scripts/ci-alert.py:513-518 | that file arises exactly when the first poll on an absent or unreadable file fails, or its mail does |
| `CiAlert.Alarm.RunOnce` | scripts/ci-alert.py:513-560 | one run of the script leaves file and mails as one step of the model |
| `CiAlert.Alarm.ReportOwnFailure` | scripts/ci-alert.py:567-616 | what was known stays, the reason is added |
| `Redact.TruncateTwice` | src/lib/redact.ts:44-47 | cutting twice is cutting once exactly for strings that fit or are 21 over |
| `Redact.DecimalReadsBack` | src/lib/redact.ts:46-46 | the number of dropped characters in the notice reads back as that number |
| `Redact.RedactValue` | src/lib/redact.ts:56-87 | the walk with its loop returns the recursive definition, for objects with one value per key |
| `Redact.PlainIsKept` | src/lib/redact.ts:56-87 | a value that calls for no redaction comes out as it went in: up to six levels, fifty items or entries each, no secret-named key, no credential or over-long string, no error or value without a JSON form |
| `Redact.ShownInItsPlace` | src/lib/redact.ts:44-87 | at every path that passes no secret-named key and no position past the fiftieth: scalars and harmless strings stand unchanged where they stood, credentials and what is under a secret-named key read as the placeholder, a long string keeps its first 2000 characters, containers keep their first fifty items or keys in order, with a marker, and the sixth level down reads `[max depth]` |
| `Redact.RedactObject` | src/lib/redact.ts:72-84 | the counted loop over entries, overflow marker included, gives the capped object |
| `Redact.NonInterference` | src/lib/redact.ts:56-87 | values that differ only under secret-named keys or in strings credential-shaped in both give one output, at any depth |
| `Redact.OutputIsSafe` | src/lib/redact.ts:49-87 | the output is bounded in depth, items, entries and text and free of credentials if and only if no reached bigint, symbol or function prints as one that is not |
| `Redact.NothingToHarm` | src/lib/redact.ts:86-86 | JSON values and errors hold no such thing |
| `Redact.ConsoleOutputIsSafe` | src/lib/redact.ts:30-87 | for the console's own two patterns every JSON value comes out safe |
| `Redact.SecretKeyExactly` | src/lib/redact.ts:30-31 | a key is secret exactly when a denylisted fragment stands anywhere in it, in any case |
| `Redact.KnownSecretNames` | src/lib/redact.ts:30-31 | each listed name makes a key secret, whatever stands around it |
| `Redact.KnownCredentials` | src/lib/redact.ts:41-42 | each listed kind of credential is recognised by its beginning, whatever follows |
| `Redact.SecondPass` | src/lib/redact.ts:44-87 | a second pass changes nothing if and only if no kept string was cut (by other than 21) and no overflow marker took an entry's place at the deepest level |
| `Redact.ExoticTextIsNotRedacted` | src/lib/redact.ts:86-86 | a function whose source begins like a credential passes through unredacted |
| `Logger.NormalizeCtx` | src/lib/logger.ts:74-82 | the loop gives each entry's normal form, in order |
| `Logger.NormalizeCommutesWithMerge` | src/lib/logger.ts:91-91 | normalising a merged context is merging the normalised ones, order and overrides included |
| `Logger.InheritedContextsAreNormalized` | src/lib/logger.ts:127-128 | the line context of any chain of children is the merge of every normalised context on the way |
| `Logger.ScopesAreJoined` | src/lib/logger.ts:127-128 | a chain of children logs under all their scopes, outermost first |
| `Logger.LoggedRecordsDoNotDependOnSecrets` | src/lib/logger.ts:84-130 | two chains of loggers and calls alike but for secrets write the same record |
| `Logger.LaterContextWins` | src/lib/logger.ts:91-115 | key by key the later context wins and no key is lost |
| `Logger.RecordReads` | src/lib/logger.ts:84-118 | what a reader finds under any key: the call's value, else the inherited one, both redacted, else the line's own level, scope, message, time or request id |
| `Logger.ErrorsAreLoggedInFull` | src/lib/logger.ts:42-51 | at every depth of the chain of causes stand message, name, stack and a cause that is no error |
| `Logger.NormalizedContextIsSafe` | src/lib/logger.ts:53-82 | every entry of a normalised context is safe |
| `BucketScan.SortIsStable` | src/lib/aws.ts:115-118 | newest first, every entry kept, equal dates in the order they came |
| `BucketScan.StableSortIsUnique` | src/lib/aws.ts:115-116 | any list with those properties is this one, so it is what the engine's sort gives |
| `BucketScan.TrimmingEarlyIsHarmless` | src/lib/aws.ts:115-138 | sorting and cutting before more arrives changes nothing of the first N, ties included |
| `BucketScan.S3Stats` | src/lib/aws.ts:44-81 | the counters are those of all objects on the first 1000 pages; truncated exactly when there are more |
| `BucketScan.S3SubstrateStats` | src/lib/aws.ts:104-155 | the same figures, the first N of the full sort of everything walked, never more than 40 N and a page held |
| `BucketScan.TruncatedMeansFloor` | src/lib/aws.ts:39-41 | every figure is short by exactly what the unread pages hold, and by nothing when truncated is absent |
| `BucketScan.CountersOfOne` | src/lib/aws.ts:62-69 | what one object adds to the figures: its size, and to the last day those dated at or after the cutoff |
| `BucketScan.CountersAppend` | src/lib/aws.ts:62-69 | the figures of two listings add up, which with that settles them for every listing |
| `BucketScan.NothingNewerIsMissing` | src/lib/aws.ts:93-103 | the list of a complete walk is in order of date and full, shows objects of the bucket with their own key, size and date, and leaves out none newer than one it shows |
| `BucketScan.S3IncompleteMultipartUploads` | src/lib/aws.ts:177-206 | the uploads of the first ten pages, exact unless truncated |
| `BucketScan.CountedAreAFloor` | src/lib/aws.ts:157-168 | a truncated count is short by exactly what the pages past the tenth list |
| `StorageSubstrate.SingleFlight` | src/lib/storage-substrate.ts:50-71 | over every interleaving, cold starts included, two running scans are never of one bucket |
| `StorageSubstrate.ScansAreConserved` | src/lib/storage-substrate.ts:50-98 | over every run the scans started of a bucket are the times one was wanted with none in flight, and each has ended or is the one in flight |
| `StorageSubstrate.StatsNeverRevert` | src/lib/storage-substrate.ts:80-98 | stats once known stay known and `scannedAt` never decreases |
| `StorageSubstrate.AnswerIsItsHistory` | src/lib/storage-substrate.ts:50-98 | over every run a read shows the stats and time of the latest listing of its bucket that the run's own events completed, or those held at the start; `refreshing` exactly when they are 15 s old, or, with none, unless the bucket failed less than 60 s ago |
| `StorageSubstrate.OthersLeaveItAlone` | src/lib/storage-substrate.ts:46-69 | a run without an event of the bucket changes neither its answer nor its backoff nor its scan |
| `StorageSubstrate.TruthfulExactly` | src/lib/storage-substrate.ts:70-98 | over every run the answers about all buckets are truthful after every step if and only if no cold start lists a bucket inside its backoff |
| `StorageSubstrate.RefreshingMeansInFlight` | src/lib/storage-substrate.ts:70-98 | after any run whose cold starts list no bucket inside its backoff, and at any later moment, an answer says refreshing exactly when a scan of the bucket is in flight; a bucket not yet listed shows as pending exactly then and as unavailable exactly otherwise |
| `StorageSubstrate.ColdStartBreaksBoth` | src/lib/storage-substrate.ts:323-329 | a cold start scans inside the backoff and reads deny it |
| `StorageSubstrate.BackoffHolds` | src/lib/storage-substrate.ts:90-97 | within 60 s of its failure a bucket never listed is scanned again if and only if a cold start lists it |
| `StorageSubstrate.Substrate.StatsSWR` | src/lib/storage-substrate.ts:80-98 | answer and new maps are those of the model's read |
| `StorageSubstrate.Substrate.ScanDone` | src/lib/storage-substrate.ts:54-67 | a finished scan caches its stats and clears the failure, a failed one records it; both end the flight |
| `StorageSubstrate.Substrate.KickAll` | src/lib/storage-substrate.ts:323-324 | scans start for all buckets exactly when none is cached |
| `StorageSubstrate.Substrate.BucketStatsSettled` | src/lib/storage-substrate.ts:124-142 | a cached bucket is answered at once; "counting" is answered only when the whole wait has passed and the scan still runs; otherwise the stats, or unavailable inside the backoff |
| `BoxMode.NeverSticky` | src/lib/box-mode.ts:152-167 | over every interleaving: no guarded patch after a paused answer, and a write 12999 ms or more after the mode settled is decided by it or let through by a failed read |
| `BoxMode.PauseIsObeyed` | src/lib/box-mode.ts:151-167 | over every run in which no read fails, each write to an owned workload attempted 12999 ms or more after the mode settled is decided by exactly that mode, so another mode refuses them all |
| `BoxMode.StickyJustBefore` | src/lib/box-mode.ts:37-41 | one millisecond earlier the old mode can still decide |
| `BoxMode.RefusedOnlyByTheRecord` | src/lib/box-mode.ts:18-25 | over every run a write is refused only when the record, between 12999 ms before the attempt and 3000 ms after it, was there and named another mode; no absent, unreadable or malformed record stops a write |
| `BoxMode.NoWriteIsLost` | src/lib/k8s.ts:241-269 | over every run the writes decided and waiting are, call for call, those before and one for each attempted |
| `BoxMode.EveryWriteIsDecided` | src/lib/box-mode.ts:107-167 | each is decided as often as it was attempted once no read is under way, and at the latest when more than 3000 ms old |
| `BoxMode.OneReadAtATime` | src/lib/box-mode.ts:151-167 | over every run, timeouts included, at most one read is outstanding at any time while none stays unanswered for 13 s |
| `BoxMode.OneReadExactly` | src/lib/box-mode.ts:153-167 | at most one read is outstanding in every state of a run if and only if each is started with no earlier one unanswered |
| `BoxMode.TimeoutOverlaps` | src/lib/box-mode.ts:114-119 | 13 s is the limit: a read timed out and unanswered exactly then overlaps the next |
| `BoxMode.FromTheStart` | src/lib/box-mode.ts:130-167 | from the module's own start all of this holds with nothing assumed of the state |
| `BoxMode.PausedResponse` | src/lib/box-mode.ts:265-271 | a 409 exactly when the mode is paused and some workload is the switch's, naming those |
| `BoxMode.RecordReadsBack` | src/lib/box-mode.ts:73-91 | a record reads as written: the mode in any case and the time, with blanks around them or not, pinned only by the text `true` |
| `BoxMode.PausedOnlyByTheRecord` | src/lib/box-mode.ts:72-104 | a parsed record pauses exactly when it names a mode other than the console's; a failed read never does, and only a 404 reads as absent |
| `BoxMode.CheckedSaveIsNotRefused` | src/lib/box-mode.ts:259-264 | after an up-front check that found nothing, and until the mode it was answered by is 10 s old, no write to the checked workloads is refused in any run |
| `BoxMode.BoxModeGuard.GetBoxMode` | src/lib/box-mode.ts:153-167 | the fresh value, or the shared read, started only if there was none |
| `BoxMode.BoxModeGuard.GuardedWrite` | src/lib/k8s.ts:241-269 | a restart or scale is decided as the model's attempt; an unowned workload is never asked about |
| `BoxMode.BoxModeGuard.SettleRead` | src/lib/box-mode.ts:156-164 | the value is cached and every waiting write decided by it, in order |
| `ErrorBridge.WindowIsItsHistory` | src/lib/error-bridge.ts:112-123 | under a monotone clock a call is suppressed exactly when an accepted call with its key is less than a window back |
| `ErrorBridge.SweepingChangesNoAnswer` | src/lib/error-bridge.ts:125-130 | sweeps, wherever they fall, change no answer |
| `ErrorBridge.AcceptedCallsAreSpaced` | src/lib/error-bridge.ts:111-123 | accepted calls with one key are at least a window apart |
| `ErrorBridge.SweptHoldsTheRecent` | src/lib/error-bridge.ts:125-134 | after a sweep the map holds exactly the keys accepted within the window |
| `ErrorBridge.DedupeWindow.ShouldSuppress` | src/lib/error-bridge.ts:118-123 | answer and map of one call |
| `ErrorBridge.DedupeWindow.Sweep` | src/lib/error-bridge.ts:126-130 | exactly the entries a window old go |
| `ErrorBridge.ReportRestarts` | src/lib/error-bridge.ts:244-271 | the observations reported are exactly those above the last known count, and the map ends with the latest counts |
| `ErrorBridge.ReportedExactlyOnGrowth` | src/lib/error-bridge.ts:255-259 | other containers in between, a restart is reported exactly when the count is above the one last seen |
| `ErrorBridge.FirstSightIsSilent` | src/lib/error-bridge.ts:256-259 | a container seen for the first time is not reported |
| `ErrorBridge.ContainerKeyIsInjective` | src/lib/error-bridge.ts:204-206 | names without a slash give different keys |
| `ErrorBridge.PodBaseName` | src/lib/error-bridge.ts:100-109 | the popping loop strips the generated parts |
| `ErrorBridge.BaseNameIsStable` | src/lib/error-bridge.ts:93-109 | a base name is its own base name |
| `ErrorBridge.SuffixDoesNotMatterExactly` | src/lib/error-bridge.ts:93-109 | a suffix leaves the base name if and only if it looks generated; otherwise nothing is taken off |
| `ErrorBridge.PodNames` | src/lib/error-bridge.ts:104-104 | what looks generated and what does not, with the case a controller can draw that is not recognised: a suffix without a digit |
| `TopologyLayout.BuildStageIndexById` | src/app/topology/page.tsx:133-151 | each node gets the rank of its bucket among all buckets, the last of equal ids counting |
| `TopologyLayout.RanksAreDense` | src/app/topology/page.tsx:142-144 | the stages are 0, 1, 2 and so on without a gap |
| `TopologyLayout.StagesFollowTheBuckets` | src/app/topology/page.tsx:139-150 | stages order nodes as their buckets do, both ways, and a smaller bucket means a smaller authored x |
| `TopologyLayout.BucketIsNearest` | src/app/topology/page.tsx:137-140 | the bucket is the multiple of 200 nearest to the authored x, counted from the leftmost node |
| `TopologyLayout.RoundSqrt` | src/app/topology/page.tsx:276-276 | the square root rounded to the nearest integer |
| `TopologyLayout.GridIsNearlySquare` | src/app/topology/page.tsx:274-280 | from three cameras on the grid has as many rows as columns or one more |
| `TopologyLayout.CamerasFollowTheirOrder` | src/app/topology/page.tsx:277-287 | cameras fill the grid in the order of their ids, as one reads |
| `TopologyLayout.NothingOverlaps` | src/app/topology/page.tsx:258-318 | any two nodes that were not dragged are 132 apart across or 72 down, and a camera is 212 left of any service |
| `TopologyLayout.CamerasLeftOfServices` | src/app/topology/page.tsx:275-305 | a camera is at least 212 left of a service, and exactly that in the neighbouring columns |
| `TopologyLayout.ServicesOnALattice` | src/app/topology/page.tsx:300-312 | service columns are 248 apart for each used stage, and services of a column 168 |
| `TopologyLayout.ColumnsAreCentred` | src/app/topology/page.tsx:303-312 | every service that was not dragged has a partner in its stage and column, drawn as far on the other side of the row |
| `TopologyLayout.GridIsCentred` | src/app/topology/page.tsx:281-288 | so are the camera grid's first and last row |
| `TopologyLayout.FeedbackIsDrawnLeftward` | src/app/topology/page.tsx:208-213 | an edge between services is marked feedback exactly when its target is drawn strictly left of its source |
| `TopologyLayout.StackFollowsAuthoredY` | src/app/topology/page.tsx:306-312 | services of a stage are stacked in the order of their authored y |
| `TopologyLayout.TiesFollowThePayload` | src/app/topology/page.tsx:306-312 | and those of one authored y in the order of the payload |
| `TopologyLayout.ApplyFlowLayout` | src/app/topology/page.tsx:258-318 | every node not dragged gets its spot, every other node stays |
| `MediaGuard.DecodeUndoesEncode` | src/lib/media-guard.ts:73-73 | percent-decoding (section 2.1 of RFC 3986) and UTF-8 decoding give back any encoded string |
| `MediaGuard.UnescapedExactly` | src/lib/media-guard.ts:73-73 | the characters that encode to themselves |
| `MediaGuard.NoDotsToRemove` | src/lib/media-guard.ts:75-80 | dot-segment removal (section 5.2.4 of RFC 3986) keeps a path without dot segments, plain or escaped |
| `MediaGuard.EncodedDots` | src/lib/media-guard.ts:58-71 | a clean segment never encodes to a dot segment |
| `MediaGuard.UrlKeepsEncodedPath` | src/lib/media-guard.ts:73-80 | the URL parser leaves the path of encoded clean segments as it is |
| `MediaGuard.ResolvesFaithfully` | src/lib/media-guard.ts:57-88 | accepted exactly when no segment is empty, a dot segment or holds a separator or NUL, and the list is `vst`, `storage` and more; the accepted path decodes to those segments |
| `MediaGuard.ParseMediaSrc` | src/lib/media-guard.ts:100-127 | the step-by-step rewriting gives the parsed segments |
| `MediaGuard.ForeignSourcesAreRefused` | src/lib/media-guard.ts:100-117 | a full URL stands for its path exactly when scheme and origin are the media server's; one without a scheme, and a blank source, stand for nothing |
| `MediaGuard.QueryIsDropped` | src/lib/media-guard.ts:123-123 | a query or a fragment changes no segment |
| `MediaGuard.EmptySegmentsGo` | src/lib/media-guard.ts:124-125 | repeated slashes count as one |
| `MediaGuard.AcceptedPathParsesBack` | src/lib/media-guard.ts:91-127 | an accepted path, bare or under the proxy prefix, parses to its encoded segments |
| `MediaGuard.SecondTripExactly` | src/lib/media-guard.ts:57-127 | parsing and resolving again ends at the same path exactly when nothing needed an escape |
| `AgentEnv.PatchAgentDeploymentEnv` | src/lib/agent-config-write.ts:127-173 | the loops over two maps write the new array, or nothing for an empty patch |
| `AgentEnv.NewMeaning` | src/lib/agent-config-write.ts:142-173 | what every name means in the new array, for any array read |
| `AgentEnv.PatchSays` | src/lib/agent-config-write.ts:127-131 | each field of the patch is set under its own name |
| `AgentEnv.CollectLlm` | src/lib/agent-config.ts:86-104 | the loops over containers and entries give the first value of each name, and settings only with a base URL |
| `AgentEnv.SavedSettingsAreShown` | src/lib/agent-config-write.ts:114-173 | what is saved is what the page shows afterwards, field by field, whatever stood there before; a setting not saved shows as before if and only if its first and last value were the same |
| `AgentEnv.OtherNamesKeepTheirMeaning` | src/lib/agent-config-write.ts:116-126 | for unique names, a name not patched keeps its meaning if and only if its entry carries a value or a reference |
| `AgentEnv.KeyOnlyFromTheSecret` | src/lib/agent-config-write.ts:160-170 | the wired key occurs once, as the secret reference |
| `AgentEnv.NamesStayUniqueExactly` | src/lib/agent-config-write.ts:152-173 | the new names are unique if and only if no patched name was a reference |
| `AgentEnv.PatchingTwiceIsPatchingOnce` | src/lib/agent-config-write.ts:127-173 | the same patch again gives the same array, order included |
| `AgentEnv.UntargetedStays` | src/lib/agent-config-write.ts:51-98 | every scalar of the config document that is not a target stays, at any depth |
| `AgentEnv.WorkflowIsSet` | src/lib/agent-config-write.ts:82-85 | the two workflow fields read as patched |
| `AgentEnv.TemperatureIsGone` | src/lib/agent-config-write.ts:87-97 | `temperature` is gone from the two LLM profiles |
| `FootageName.CleanNameShape` | src/lib/test-footage.ts:68-90 | an accepted name is a hyphen-collapsed slug of 1 to 64 characters and an allowed extension; it ends in a hyphen exactly when the cut fell behind one |
| `FootageName.SlugIsItsWords` | src/lib/test-footage.ts:82-85 | before its cut the slug is the words of the stem, in lower case and in order, one hyphen between two of them whatever stood there |
| `FootageName.EveryTextIsWords` | src/lib/test-footage.ts:82-85 | every text is words and gaps, so that covers every stem |
| `FootageName.CleanedName` | src/lib/test-footage.ts:68-90 | an upload under any path is cleaned to its words, cut at 64, and its lower-case extension; refused exactly for another extension or without a word |
| `FootageName.CleaningAgain` | src/lib/test-footage.ts:68-90 | cleaning again removes that hyphen and nothing else |
| `FootageName.IdempotentExactly` | src/lib/test-footage.ts:209-211 | cleaning a cleaned name is the identity if and only if the cut left no hyphen |
| `FootageName.UnluckyCut` | src/lib/test-footage.ts:82-86 | the failing case |
| `FootageName.IdIsValid` | src/lib/test-footage.ts:92-109 | the camera id of every accepted file is a footage id and one the camera API takes |
| `FootageName.SameCameraExactly` | src/lib/test-footage.ts:94-97 | two files share a camera exactly when their slugs agree on 27 characters |
| `FootageName.FootageDir.SaveFootage` | src/lib/test-footage.ts:146-207 | stored whole exactly when the connection held, the size fits and matches what was declared; otherwise nothing is left behind |
| `FootageName.FootageDir.DeleteFootage` | src/lib/test-footage.ts:209-220 | the file of the re-cleaned name goes, or nothing |
| `FootageName.FootageDir.UploadThenDelete` | src/lib/test-footage.ts:209-220 | a stored file can be deleted by its own name exactly when the cut left no hyphen; otherwise at most another file goes |
| `Caption.TagsAreGone` | src/lib/search-caption.ts:60-61 | no tag is left and none has come together |
| `Caption.TagBecomesASpace` | src/lib/search-caption.ts:61-61 | a tag becomes one space and the text before it stays |
| `Caption.NoTagsNoChange` | src/lib/search-caption.ts:61-61 | a text without one of the brackets is left alone |
| `Caption.NormalisedIsItsWords` | src/lib/search-caption.ts:60-63 | tags apart, the normalised text is the words of the caption with single spaces |
| `Caption.PeelFillers` | src/lib/search-caption.ts:65-75 | the loop ends, with a suffix of the text, not empty unless the text is, that no filler opens with text behind it; only openers and the space behind them have gone |
| `Caption.StillExactlyWhenPeeled` | src/lib/search-caption.ts:65-75 | a round of fillers changes nothing exactly when none can be peeled |
| `Caption.WordsOfJoin` | src/lib/search-caption.ts:49-56 | words joined by single spaces are split into the same words |
| `Caption.ConsWord` | src/lib/search-caption.ts:49-49 | a word and a gap of any length are read as that word and the rest |
| `Caption.MarksDoNotMatter` | src/lib/search-caption.ts:52-52 | a word dangles exactly when it is on the list, in any case and with any commas, semicolons or colons behind |
| `Caption.StripTrailingDangling` | src/lib/search-caption.ts:48-57 | the popping loop keeps exactly the words before the dangling tail |
| `Caption.StripsOnce` | src/lib/search-caption.ts:48-57 | stripping twice is stripping once, never lengthens or empties, and ends on a word that does not dangle or on the only one |
| `Caption.CleanCaption` | src/lib/search-caption.ts:59-89 | at most one character over the limit; a capitalised, fully peeled suffix of the normalised text, cut at a sentence of the second half or before dangling words |
| `Caption.ShortenedEndsWell` | src/lib/search-caption.ts:80-88 | what is cut ends as a sentence does or with an ellipsis, and is not empty |
| `Caption.CutExactly` | src/lib/search-caption.ts:80-88 | a text too long is cut right behind the last sentence that ends in the second half of the limit, if there is one, and else behind the last word within it that does not dangle, or the first |

## Left out

- The order of and duplicates in the lists of paused, suspended and resumed cameras: they are sets.
- The bodies of rules and specs beyond camera, alert type, prompt and stream (model name, chunking, system prompt).
- FootageRun.Console.StartRun: an operator enabling a paused camera by hand and a second start running at the same time are not steps of the cluster model; neither is an alert-bridge listing that lags behind its own deletions.
- FootageRun.Console.QuiesceDeployment: a pod that a lagging controller creates after the scale-down is accepted is not modelled; the code takes an empty listing as final, and so does the model.
- FootageRun.Console.StartThenStop: a recorded entry has its alert type and prompt. One without either would be completed with the defaults, and so rewritten, by a resume the console does itself. The result is about complete specs.
- FootageRun.Console.AwaitNoPods: the first poll, like that of the rollout, is taken to fall within the time allowed; nothing happens to the cluster between the last poll and the time being up, as the next call begins with whatever did.
- FootageRun.Console.WaitForRollout: the status it reads stands for the pods themselves; generation numbers, availability and a status that lags are not modelled, so a true answer says more here than the status alone does.
- FootageRun.Console.RegisterSensor: the uuid comes with the answer to the registration; looking it up by name when the answer has none is not modelled.
- FootageRun.Console.RemoveExistingRun: of several sensors with one name the listing's first is removed, here any one of them.
- The reconciler's own clean-up of duplicate rules, and the model and stream ids it fills in.
- Profiles offered to an operator, the list of runs and the wording of warnings.
- PathGlob.GlobKeepsMeaning: patterns with `**` inside a segment have no segment reading and are only covered by the token semantics.
- The regular-expression engines: `Matches` is their specification, and MatchesAny takes any decision procedure for it.
- WorkflowPaths.ReaderUndoesPrinter: splitting the file into lines, and decoding it, are not part of the model.
- The GitHub calls of the CI poll, the failed step it names, its status file, and errors writing the state file.
- Redact.SecondPass: values with bigints, symbols or functions are excluded, as their printed text is a parameter.
- Keys that JavaScript objects treat specially: `__proto__`, and integer-like keys that move to the front.
- Cyclic values and cyclic error causes, on which the walk and `serializeError` recurse; log levels, pretty printing and output.
- Strings are sequences of Unicode scalar values: lengths count characters, not UTF-16 units, and lone surrogates (on which `encodeURIComponent` throws) cannot be written.
- BucketScan: ISO dates are integers; a negative `recentLimit`, and a server that never stops paging with no token, are not modelled.
- The retention and multipart caches and the rest of the storage page's payload, which add only easier members of the same kind.
- BoxMode.NeverSticky: assumes that a due timer fires before any later event, as the event loop does up to its own delay.
- The wording of box-mode reasons and of the 409 body, and the once-only transition log.
- Pod listings are complete: the cap of ten pages in `listAllPodsInNs` is not modelled.
- The crash-loop reasons of the pod poll, reported through the same dedupe window.
- Error signatures, fingerprints and Sentry payloads of the error bridge.
- TopologyLayout.ApplyFlowLayout: node ids are taken as unique, as the graph requires; `Math.sqrt` is exact here, coordinates are reals, and health, labels and dragged nodes' overlaps are not modelled.
- MediaGuard.Resolve: the origin is fixed and parses; a full URL given as a source goes through a URL parser that is a parameter.
- AgentEnv.PatchingTwiceIsPatchingOnce: entries carrying both a value and a reference are excluded, as the API server refuses them.
- A `workflow` key that is not an object, and arrays in the config document; conflicts and the restart after saving.
- Listing footage, RTSP URLs and file times; the directory knows sizes only.
- Caption.CleanCaption: the filler expressions are parameters, each giving the length of the prefix it matches; the upper case of a character is a parameter.
- User interface, authentication, telemetry, voice, and the thresholds and formats that depend on floating point.
