/** The poll of scripts/ci-alert.py: what state a commit is in, and the mail rule over
    whole sequences of polls, with the state file that is written only after the mail
    was sent. */
module CiAlert {
  import opened Options
  import opened PathGlob
  import opened Text

  // ----- classifying one commit ------------------------------------------------

  /** The newest workflow run; a missing or empty conclusion means it has not ended. */
  datatype Run = Run(headSha: string, conclusion: string)

  datatype Verdict =
    | Pending(sha: string)
    | Green(sha: string)
    | Failure(sha: string)
    | Unverified(sha: string)
    | Covered(sha: string, baseConclusion: string)

  /** Forty-five minutes, in seconds. */
  const NO_RUN_GRACE: int := 2700

  function Classify(run: Option<Run>, headSha: string, headCommitted: int, now: int): Verdict {
    if run.None? || run.value.headSha != headSha then
      if now - headCommitted < NO_RUN_GRACE then Pending(headSha) else Unverified(headSha)
    else if run.value.conclusion == "success" then Green(headSha)
    else if run.value.conclusion == "" then Pending(headSha)
    else if run.value.conclusion == "cancelled" then Unverified(headSha)
    else Failure(headSha)
  }

  /** The ancestor run found, with the files changed since, or nothing usable. */
  datatype Base = NoBase | Base(conclusion: string, changed: Option<seq<string>>)

  ghost function ResolveCoverage(headSha: string, base: Base, globs: seq<string>): Verdict {
    if base.NoBase? || base.changed.None? then Unverified(headSha)
    else if base.conclusion == "" || base.conclusion == "cancelled" then Unverified(headSha)
    else if Kept(globs, base.changed.value) != [] then Unverified(headSha)
    else Covered(headSha, base.conclusion)
  }

  /** The verdict of one poll. `lookup` is absent when reading the workflow file or the
      ancestors raised. */
  ghost function Decide(run: Option<Run>, headSha: string, headCommitted: int, now: int, lookup: Option<Base>,
                        globs: seq<string>): Verdict {
    var cur := Classify(run, headSha, headCommitted, now);
    if cur.Unverified? && (run.None? || run.value.headSha != headSha) && lookup.Some?
    then ResolveCoverage(headSha, lookup.value, globs)
    else cur
  }

  predicate IsBad(v: Verdict) {
    if v.Covered? then v.baseConclusion != "success" else v.Failure? || v.Unverified?
  }

  predicate IsGreen(v: Verdict) {
    if v.Covered? then v.baseConclusion == "success" else v.Green?
  }

  /** A pattern and a file name the translation is faithful for (see PathGlob). */
  predicate Ordinary(glob: string, file: string) {
    WholeStars(Split(glob, '/')) && NoStarRunAtEnd(Split(glob, '/')) && CleanSegments(Split(file, '/'))
  }

  ghost predicate NoneMatches(globs: seq<string>, files: seq<string>) {
    forall glob, file :: glob in globs && file in files && Ordinary(glob, file) ==>
      !SegmentMatch(Split(glob, '/'), Split(file, '/'))
  }

  /** A commit passes only on a successful run of its own, or on a successful ancestor
      run when no changed file lies under a path that would have triggered one. */
  lemma GreenIsEarned(run: Option<Run>, headSha: string, headCommitted: int, now: int, lookup: Option<Base>,
                      globs: seq<string>)
    requires IsGreen(Decide(run, headSha, headCommitted, now, lookup, globs))
    ensures || (run.Some? && run.value == Run(headSha, "success"))
            || (lookup.Some? && lookup.value.Base? && lookup.value.conclusion == "success"
                && lookup.value.changed.Some?
                && NoneMatches(globs, lookup.value.changed.value))
  {
    var v := Decide(run, headSha, headCommitted, now, lookup, globs);
    if v.Covered? {
      var changed := lookup.value.changed.value;
      forall glob, file | glob in globs && file in changed && Ordinary(glob, file)
        ensures !SegmentMatch(Split(glob, '/'), Split(file, '/'))
      {
        KeptExactly(globs, changed, file);
        GlobKeepsMeaning(glob, file);
      }
    }
  }

  /** The newest run is one of HEAD itself. */
  predicate OfHead(run: Option<Run>, headSha: string) {
    run.Some? && run.value.headSha == headSha
  }

  /** An ancestor's run ended, other than by being cancelled, and nothing that changed
      since would have triggered a run. */
  ghost predicate AncestorSpeaks(lookup: Option<Base>, globs: seq<string>) {
    && lookup.Some? && lookup.value.Base? && lookup.value.conclusion !in {"", "cancelled"}
    && lookup.value.changed.Some?
    && forall file :: file in lookup.value.changed.value ==> !AnyAccepts(globs, file)
  }

  /** The verdict of every poll, told from the run, the two times and the lookup: green for
      a successful run of HEAD, or for a run that is missing after 45 minutes when a
      successful ancestor speaks for HEAD; pending for a run that has not ended or is not
      45 minutes late; and bad otherwise. */
  lemma VerdictExactly(run: Option<Run>, headSha: string, headCommitted: int, now: int, lookup: Option<Base>,
                       globs: seq<string>)
    ensures var v := Decide(run, headSha, headCommitted, now, lookup, globs);
            var own, late := OfHead(run, headSha), now >= headCommitted + 45 * 60;
            && v.sha == headSha
            && (IsGreen(v) <==>
                  || (own && run.value.conclusion == "success")
                  || (!own && late && AncestorSpeaks(lookup, globs) && lookup.value.conclusion == "success"))
            && (v.Pending? <==> if own then run.value.conclusion == "" else !late)
            && (IsBad(v) <==>
                  || (own && run.value.conclusion !in {"success", ""})
                  || (!own && late && !(AncestorSpeaks(lookup, globs) && lookup.value.conclusion == "success")))
            && (v.Failure? <==> own && run.value.conclusion !in {"success", "", "cancelled"})
            && (v.Covered? <==> !own && late && AncestorSpeaks(lookup, globs))
            && (v.Covered? ==> v.baseConclusion == lookup.value.conclusion)
  {
    if lookup.Some? && lookup.value.Base? && lookup.value.changed.Some? {
      KeptNone(globs, lookup.value.changed.value);
    }
  }

  lemma KeptNone(globs: seq<string>, changed: seq<string>)
    ensures Kept(globs, changed) == [] <==> forall file :: file in changed ==> !AnyAccepts(globs, file)
  {
    forall file ensures file in Kept(globs, changed) <==> file in changed && AnyAccepts(globs, file) {
      KeptExactly(globs, changed, file);
    }
    if Kept(globs, changed) != [] {
      assert Kept(globs, changed)[0] in Kept(globs, changed);
    }
  }

  // ----- looking for the ancestor ------------------------------------------------

  /** What the API said of one ancestor: the question failed, or its newest run (with an
      empty status if it has none) and the files changed since, if the comparison could
      be read. */
  datatype Ancestor = NoReply | Reply(status: string, conclusion: string, changed: Option<seq<string>>)

  /** Its run has ended with a conclusion. */
  predicate Ended(a: Ancestor) {
    a.Reply? && a.status == "completed" && a.conclusion != ""
  }

  /** `find_covered_base` over the ancestors, newest first: the newest one whose run
      ended, and no other. */
  method FindCoveredBase(ancestors: seq<Ancestor>) returns (base: Base)
    ensures base.NoBase? <==> forall i :: 0 <= i < |ancestors| ==> !Ended(ancestors[i])
    ensures base.Base? ==>
              exists i :: 0 <= i < |ancestors| && Ended(ancestors[i])
                && base == Base(ancestors[i].conclusion, ancestors[i].changed)
                && forall j :: 0 <= j < i ==> !Ended(ancestors[j])
  {
    for i := 0 to |ancestors|
      invariant forall j :: 0 <= j < i ==> !Ended(ancestors[j])
    {
      var a := ancestors[i];
      if a.NoReply? { continue; }
      if a.status != "completed" || a.conclusion == "" { continue; }
      return Base(a.conclusion, a.changed);
    }
    return NoBase;
  }

  /** Every poll ends bad, green or pending, and never two of them. */
  lemma Trichotomy(v: Verdict)
    ensures (if IsBad(v) then 1 else 0) + (if IsGreen(v) then 1 else 0) + (if v.Pending? then 1 else 0) == 1
  {
  }

  // ----- polls -----------------------------------------------------------------

  /** The state file: absent or unreadable, a verdict (with the reason of an own failure
      reported since, if any), or only such a reason. */
  datatype StateFile = Missing | Known(verdict: Verdict, ownFailure: Option<string>) | OnlyOwnFailure(reason: string)

  /** One poll: it reached a verdict, with the mail going out or raising; or it failed
      before that. */
  datatype Poll = Reached(cur: Verdict, sendOk: bool, sendError: string) | Failed(reason: string)

  /** A mail about the commit, and whether it went out. */
  datatype Mail = NoMail | FailureMail(sha: string, delivered: bool) | RecoveryMail(delivered: bool)

  const KEY_ERROR := "KeyError: 'state'"

  /** `report_own_failure` leaves what was known and adds the reason. */
  function OwnFailure(file: StateFile, reason: string): StateFile {
    if file.Known? then Known(file.verdict, Some(reason)) else OnlyOwnFailure(reason)
  }

  function MailFor(file: StateFile, cur: Verdict, delivered: bool): Mail
    requires !file.OnlyOwnFailure?
  {
    var wasBad := file.Known? && IsBad(file.verdict);
    if IsBad(cur) && (!wasBad || file.verdict.sha != cur.sha) then FailureMail(cur.sha, delivered)
    else if wasBad && IsGreen(cur) then RecoveryMail(delivered)
    else NoMail
  }

  /** One run of the script. A file without a `state` key makes the verdict's reader
      raise before any mail about the commit. */
  function Step(file: StateFile, poll: Poll): (StateFile, Mail) {
    match poll
    case Failed(reason) => (OwnFailure(file, reason), NoMail)
    case Reached(cur, sendOk, sendError) =>
      if file.OnlyOwnFailure? then (OwnFailure(file, KEY_ERROR), NoMail)
      else
        var mail := MailFor(file, cur, sendOk);
        if mail != NoMail && !sendOk then (OwnFailure(file, sendError), mail)
        else (Known(cur, None), mail)
  }

  function FileAfter(file: StateFile, polls: seq<Poll>): StateFile
    decreases |polls|
  {
    if |polls| == 0 then file else FileAfter(Step(file, polls[0]).0, polls[1..])
  }

  function Mails(file: StateFile, polls: seq<Poll>): (ms: seq<Mail>)
    ensures |ms| == |polls|
    decreases |polls|
  {
    if |polls| == 0 then []
    else [Step(file, polls[0]).1] + Mails(Step(file, polls[0]).0, polls[1..])
  }

  // ----- exactly when a mail goes out ------------------------------------------

  /** The poll left its verdict on file: it reached one, and its mail, if any, went out. */
  predicate LeavesVerdict(poll: Poll, mail: Mail) {
    poll.Reached? && (poll.sendOk || mail == NoMail)
  }

  /** The verdict recorded before poll `i`: of the latest poll that left one, or the one
      on file at the start. */
  function Recorded(file: StateFile, polls: seq<Poll>, i: nat): Option<Verdict>
    requires i <= |polls|
  {
    if i == 0 then (if file.Known? then Some(file.verdict) else None)
    else if LeavesVerdict(polls[i - 1], Mails(file, polls)[i - 1]) then Some(polls[i - 1].cur)
    else Recorded(file, polls, i - 1)
  }

  /** A poll that leaves no verdict behind on a machine without one. */
  predicate LeavesNoVerdict(poll: Poll) {
    poll.Failed? || (!poll.sendOk && IsBad(poll.cur))
  }

  /** The alarm is out of action before poll `i`. */
  predicate Wedged(file: StateFile, polls: seq<Poll>, i: nat)
    requires i <= |polls|
  {
    file.OnlyOwnFailure? || (file.Missing? && i > 0 && LeavesNoVerdict(polls[0]))
  }

  /** What the file holds before poll `i`: nothing but an own failure exactly when wedged,
      and otherwise the recorded verdict. */
  lemma {:induction false} FileHolds(file: StateFile, polls: seq<Poll>, i: nat)
    requires i <= |polls|
    ensures var held := FileAfter(file, polls[..i]);
            && (held.OnlyOwnFailure? <==> Wedged(file, polls, i))
            && (i > 0 ==> !held.Missing?)
            && (!Wedged(file, polls, i) ==>
                  Recorded(file, polls, i) == if held.Known? then Some(held.verdict) else None)
    ensures i < |polls| ==> Mails(file, polls)[i] == Step(FileAfter(file, polls[..i]), polls[i]).1
    decreases i
  {
    if i > 0 {
      FileHolds(file, polls, i - 1);
      OneMorePoll(file, polls, i - 1);
    }
    if i < |polls| { MailAt(file, polls, i); }
  }

  lemma {:induction false} OneMorePoll(file: StateFile, polls: seq<Poll>, i: nat)
    requires i < |polls|
    ensures FileAfter(file, polls[..i + 1]) == Step(FileAfter(file, polls[..i]), polls[i]).0
    decreases i
  {
    if i > 0 {
      assert polls[..i + 1][1..] == polls[1..][..i] && polls[..i][1..] == polls[1..][..i - 1];
      OneMorePoll(Step(file, polls[0]).0, polls[1..], i - 1);
    }
  }

  lemma {:induction false} MailAt(file: StateFile, polls: seq<Poll>, i: nat)
    requires i < |polls|
    ensures Mails(file, polls)[i] == Step(FileAfter(file, polls[..i]), polls[i]).1
    decreases i
  {
    if i > 0 {
      assert polls[..i][1..] == polls[1..][..i - 1];
      MailAt(Step(file, polls[0]).0, polls[1..], i - 1);
    }
  }

  /** For any polls, failed ones and raised sends among them: a failure mail is attempted
      exactly when a poll reaches a bad verdict and the recorded one was not bad or of
      another commit; a recovery mail exactly when it reaches a green one and the recorded
      one was bad; and none by an alarm out of action. With nothing failing the recorded
      verdict is the previous poll's, so these are the edges of a bad streak. */
  lemma MailsAtStreakEdges(file: StateFile, polls: seq<Poll>, i: nat)
    requires i < |polls|
    ensures var before := Recorded(file, polls, i);
            var mail := Mails(file, polls)[i];
            var decides := polls[i].Reached? && !Wedged(file, polls, i);
            && (mail.FailureMail? <==>
                  && decides && IsBad(polls[i].cur)
                  && (before.None? || !IsBad(before.value) || before.value.sha != polls[i].cur.sha))
            && (mail.RecoveryMail? <==> decides && IsGreen(polls[i].cur) && before.Some? && IsBad(before.value))
            && (polls[i].Reached? && polls[i].cur.Pending? ==> mail.NoMail?)
    ensures i > 0 && polls[i - 1].Reached? && polls[i - 1].sendOk ==> Recorded(file, polls, i) == Some(polls[i - 1].cur)
  {
    FileHolds(file, polls, i);
    if polls[i].Reached? { Trichotomy(polls[i].cur); }
  }

  /** A poll that failed, or whose mail did, leaves its reason on file, and the verdict known
      before; one that reached a verdict clears the reason. */
  lemma ReasonsAreKept(file: StateFile, poll: Poll)
    ensures var (after, mail) := Step(file, poll);
            && (poll.Failed? ==> after == if file.Known? then file.(ownFailure := Some(poll.reason))
                                          else OnlyOwnFailure(poll.reason))
            && (poll.Reached? && !file.OnlyOwnFailure? && !LeavesVerdict(poll, mail) ==>
                  after == if file.Known? then file.(ownFailure := Some(poll.sendError))
                           else OnlyOwnFailure(poll.sendError))
            && (poll.Reached? && !file.OnlyOwnFailure? && LeavesVerdict(poll, mail) ==> after == Known(poll.cur, None))
  {
  }

  // ----- counting --------------------------------------------------------------

  function DeliveredFailures(ms: seq<Mail>): nat {
    if |ms| == 0 then 0
    else (if ms[0].FailureMail? && ms[0].delivered then 1 else 0) + DeliveredFailures(ms[1..])
  }

  function DeliveredRecoveries(ms: seq<Mail>): nat {
    if |ms| == 0 then 0
    else (if ms[0].RecoveryMail? && ms[0].delivered then 1 else 0) + DeliveredRecoveries(ms[1..])
  }

  function Owed(file: StateFile): nat {
    if file.Known? && IsBad(file.verdict) then 1 else 0
  }

  /** Over any polls, disturbed or not: each recovery mail answers a failure mail sent
      before it, and a bad state on file stands for one failure mail not yet answered. */
  lemma {:induction false} RecoveriesAnswerFailures(file: StateFile, polls: seq<Poll>)
    ensures DeliveredRecoveries(Mails(file, polls)) + Owed(FileAfter(file, polls))
            <= DeliveredFailures(Mails(file, polls)) + Owed(file)
    decreases |polls|
  {
    if |polls| > 0 {
      var (next, mail) := Step(file, polls[0]);
      RecoveriesAnswerFailures(next, polls[1..]);
      assert Mails(file, polls)[1..] == Mails(next, polls[1..]);
    }
  }

  /** Recovery mails never outnumber failure mails. */
  lemma RecoveriesNeverOutnumberFailures(file: StateFile, polls: seq<Poll>)
    requires Owed(file) == 0
    ensures DeliveredRecoveries(Mails(file, polls)) <= DeliveredFailures(Mails(file, polls))
  {
    RecoveriesAnswerFailures(file, polls);
  }

  lemma {:induction false} RecoveryNeedsAFailure(file: StateFile, polls: seq<Poll>, j: nat) returns (k: nat)
    requires Owed(file) == 0 && j < |polls| && Mails(file, polls)[j].RecoveryMail?
    ensures k < j && Mails(file, polls)[k].FailureMail? && Mails(file, polls)[k].delivered
    decreases j
  {
    var (next, mail) := Step(file, polls[0]);
    if Owed(next) == 1 {
      k := 0;
    } else {
      k := RecoveryNeedsAFailure(next, polls[1..], j - 1);
      k := k + 1;
    }
  }

  /** The two kinds alternate: between a delivered recovery mail and the next recovery
      mail a failure mail was delivered. */
  lemma {:induction false} MailsAlternate(file: StateFile, polls: seq<Poll>, i: nat, j: nat) returns (k: nat)
    requires i < j < |polls|
    requires Mails(file, polls)[i] == RecoveryMail(true) && Mails(file, polls)[j].RecoveryMail?
    ensures i < k < j && Mails(file, polls)[k].FailureMail? && Mails(file, polls)[k].delivered
    decreases i
  {
    var next := Step(file, polls[0]).0;
    if i == 0 {
      k := RecoveryNeedsAFailure(next, polls[1..], j - 1);
    } else {
      k := MailsAlternate(next, polls[1..], i - 1, j - 1);
    }
    k := k + 1;
  }

  // ----- a mail that did not go out --------------------------------------------

  /** A mail whose send raised is attempted again at the next poll of the same verdict
      exactly when the state file held a verdict: the file is written only after the
      mail, but the report of the failed send creates a file of its own. */
  lemma FailedSendIsRetried(file: StateFile, cur: Verdict, error: string, again: Poll)
    requires !file.OnlyOwnFailure? && MailFor(file, cur, false) != NoMail
    requires again.Reached? && again.cur == cur
    ensures var after := Step(file, Reached(cur, false, error)).0;
            Step(after, again).1 == MailFor(file, cur, again.sendOk) <==> file.Known?
  {
  }

  /** From a file without a verdict no later poll ever mails about a commit. */
  lemma {:induction false} OwnFailureFileIsFinal(file: StateFile, polls: seq<Poll>)
    requires file.OnlyOwnFailure?
    ensures FileAfter(file, polls).OnlyOwnFailure?
    ensures forall i :: 0 <= i < |polls| ==> Mails(file, polls)[i] == NoMail
    decreases |polls|
  {
    if |polls| > 0 {
      OwnFailureFileIsFinal(Step(file, polls[0]).0, polls[1..]);
    }
  }

  /** The script ends up there exactly when the very first poll on an absent or
      unreadable state file fails, or its mail does. */
  lemma {:induction false} WedgedExactly(file: StateFile, polls: seq<Poll>)
    requires !file.OnlyOwnFailure?
    ensures FileAfter(file, polls).OnlyOwnFailure? <==> file.Missing? && |polls| > 0 && LeavesNoVerdict(polls[0])
    decreases |polls|
  {
    if |polls| > 0 {
      var next := Step(file, polls[0]).0;
      if next.OnlyOwnFailure? {
        OwnFailureFileIsFinal(next, polls[1..]);
      } else {
        WedgedExactly(next, polls[1..]);
      }
    }
  }

  // ----- the script around the state file --------------------------------------

  /** The state file and the mails attempted so far, as one run of the script finds and
      leaves them. */
  class Alarm {
    var file: StateFile
    var attempted: seq<Mail>

    constructor (file: StateFile)
      ensures this.file == file && attempted == []
    {
      this.file := file;
      attempted := [];
    }

    /** The mail and state part of `main`, with `report_own_failure` for what raises. */
    method RunOnce(poll: Poll)
      modifies this
      ensures file == Step(old(file), poll).0
      ensures attempted == old(attempted) + [Step(old(file), poll).1]
    {
      if poll.Failed? {
        attempted := attempted + [NoMail];
        ReportOwnFailure(poll.reason);
        return;
      }
      var cur := poll.cur;
      var badNow := IsBad(cur);
      if file.OnlyOwnFailure? {
        attempted := attempted + [NoMail];
        ReportOwnFailure(KEY_ERROR);
        return;
      }
      var wasBad := file.Known? && IsBad(file.verdict);
      var newCondition := badNow && (!wasBad || file.verdict.sha != cur.sha);
      var recovered := wasBad && IsGreen(cur);
      if newCondition {
        attempted := attempted + [FailureMail(cur.sha, poll.sendOk)];
      } else if recovered {
        attempted := attempted + [RecoveryMail(poll.sendOk)];
      } else {
        attempted := attempted + [NoMail];
      }
      if (newCondition || recovered) && !poll.sendOk {
        ReportOwnFailure(poll.sendError);
        return;
      }
      file := Known(cur, None);
    }

    method ReportOwnFailure(reason: string)
      modifies this`file
      ensures file == OwnFailure(old(file), reason)
    {
      if file.Known? {
        file := Known(file.verdict, Some(reason));
      } else {
        file := OnlyOwnFailure(reason);
      }
    }
  }
}
