/** The live run's result list and exit code under every interruption. */
module Verdict {
  import opened Base

  datatype Status = PASS | FAIL | UNKNOWN | NOT_RUN

  datatype Result = Result(step: nat, status: Status)

  /** How one step of the plan goes: it is judged, perhaps after the transcript could no longer be
      written; it passes and the run is interrupted before the next one; or an exception escapes it
      before any result is recorded. */
  datatype Fate = Judged(status: Status, transcriptLost: bool) | PassedThenInterrupted | Escaped

  /** How far the session gets before the first step: a port that opened is closed at the end. */
  datatype Opening = PortFails | HandshakeFails(transcriptLost: bool) | Open

  /** What may go wrong around the steps. */
  datatype Circumstances = Circumstances(
    hasTranscript: bool, transcriptOpens: bool, opening: Opening, sessionCloses: bool, transcriptCloses: bool)

  const CLEAN_PASS := Judged(PASS, false)

  /** A step during which the transcript is lost does not pass: the failed write interrupts it. */
  predicate Possible(f: Fate) {
    f.Judged? ==> (f.status.PASS? || f.status.FAIL? || f.status.UNKNOWN?) && (f.transcriptLost ==> !f.status.PASS?)
  }

  // ---- the promised shape ------------------------------------------------------------------

  /** PASS*, then at most one FAIL or UNKNOWN, then NOT_RUN*: `k` results pass. */
  predicate Shaped(r: seq<Result>, k: nat) {
    && k <= |r|
    && (forall i :: 0 <= i < k ==> r[i].status.PASS?)
    && (k < |r| ==> !r[k].status.PASS?)
    && (forall i :: k < i < |r| ==> r[i].status.NOT_RUN?)
  }

  predicate InPlanOrder(r: seq<Result>, plan: seq<nat>) {
    |r| <= |plan| && forall i :: 0 <= i < |r| ==> r[i].step == plan[i]
  }

  predicate Bad(s: Status) {
    s.FAIL? || s.UNKNOWN?
  }

  // ---- exit codes ----------------------------------------------------------------------------

  function Count(r: seq<Result>, s: Status): nat {
    if r == [] then 0 else Count(r[..|r| - 1], s) + if r[|r| - 1].status == s then 1 else 0
  }

  lemma {:induction false} CountZero(r: seq<Result>, s: Status)
    ensures Count(r, s) == 0 <==> forall i :: 0 <= i < |r| ==> r[i].status != s
    decreases |r|
  {
    if r != [] {
      CountZero(r[..|r| - 1], s);
      assert forall i :: 0 <= i < |r| - 1 ==> r[..|r| - 1][i] == r[i];
    }
  }

  /** result_exit_code */
  function ResultExitCode(r: seq<Result>, dryRun: bool, allowNotRun: bool): int {
    if Count(r, FAIL) > 0 || Count(r, UNKNOWN) > 0 then 1
    else if Count(r, NOT_RUN) > 0 && !dryRun && !allowNotRun then 1
    else 0
  }

  /** overall_status */
  function OverallStatus(r: seq<Result>, artifactErrors: bool): Status {
    if Count(r, FAIL) > 0 || artifactErrors then FAIL
    else if Count(r, UNKNOWN) > 0 then UNKNOWN
    else if Count(r, NOT_RUN) > 0 || Count(r, PASS) == 0 then NOT_RUN
    else PASS
  }

  /** The process exit code: recorded artifact errors always fail the run. */
  function ExitCode(r: seq<Result>, artifactErrors: bool, dryRun: bool, allowNotRun: bool): int {
    if artifactErrors then 1 else ResultExitCode(r, dryRun, allowNotRun)
  }

  /** A strict live run exits zero exactly when every step passed and no artifact was lost; allowing
      omissions forgives NOT_RUN and nothing else, and a dry run forgives it too; every other exit is 1.
      The overall status is the worst there is: FAIL, then UNKNOWN, then NOT_RUN, and PASS exactly for
      a non-empty strict success. */
  lemma ExitCodeMeaning(r: seq<Result>, artifactErrors: bool)
    ensures ExitCode(r, artifactErrors, false, false) == 0 <==>
      !artifactErrors && forall i :: 0 <= i < |r| ==> r[i].status.PASS?
    ensures ExitCode(r, artifactErrors, false, true) == 0 <==>
      !artifactErrors && forall i :: 0 <= i < |r| ==> !Bad(r[i].status)
    ensures forall dryRun, allowNotRun :: dryRun || allowNotRun ==>
      ExitCode(r, artifactErrors, dryRun, allowNotRun) == ExitCode(r, artifactErrors, false, true)
    ensures forall dryRun, allowNotRun :: ExitCode(r, artifactErrors, dryRun, allowNotRun) in {0, 1}
    ensures OverallStatus(r, artifactErrors).PASS? <==>
      r != [] && ExitCode(r, artifactErrors, false, false) == 0
    ensures OverallStatus(r, artifactErrors).FAIL? <==>
      !(!artifactErrors && forall i :: 0 <= i < |r| ==> !r[i].status.FAIL?)
    ensures OverallStatus(r, artifactErrors).UNKNOWN? <==>
      && !artifactErrors && (forall i :: 0 <= i < |r| ==> !r[i].status.FAIL?)
      && !(forall i :: 0 <= i < |r| ==> !r[i].status.UNKNOWN?)
  {
    CountZero(r, PASS);
    CountZero(r, FAIL);
    CountZero(r, UNKNOWN);
    CountZero(r, NOT_RUN);
    if r != [] && ExitCode(r, artifactErrors, false, false) == 0 {
      assert forall i :: 0 <= i < |r| ==> r[i].status.PASS?;
      assert r[0].status.PASS?;
    }
  }

  // ---- what each step is recorded as -------------------------------------------------------------

  /** The first step that does not plainly pass. */
  function Reached(fates: seq<Fate>): (n: nat)
    ensures n <= |fates| && (n < |fates| ==> fates[n] != CLEAN_PASS)
    ensures forall i :: 0 <= i < n ==> fates[i] == CLEAN_PASS
  {
    if fates == [] || fates[0] != CLEAN_PASS then 0 else 1 + Reached(fates[1..])
  }

  /** The transcript is lost during a step that is reached. */
  predicate StepLost(fates: seq<Fate>) {
    var n := Reached(fates);
    n < |fates| && fates[n].Judged? && fates[n].transcriptLost
  }

  /** The steps are interrupted: the first one that is not plainly passed is not plainly judged. */
  predicate Broken(fates: seq<Fate>) {
    var n := Reached(fates);
    n < |fates| && !fates[n].Judged?
  }

  /** How many steps have a result of their own. */
  function Executed(fates: seq<Fate>): (n: nat)
    ensures n <= |fates|
  {
    var n := Reached(fates);
    if n < |fates| && !fates[n].Escaped? then n + 1 else n
  }

  /** A step's own judgement: every step before the first that stops the run passed, that one is
      recorded as judged, and no later one ran. */
  function Judgement(fates: seq<Fate>, i: nat): Status {
    var n := Reached(fates);
    if i < n then PASS
    else if i == n < |fates| && fates[n].Judged? then fates[n].status
    else if i == n < |fates| && fates[n].PassedThenInterrupted? then PASS
    else NOT_RUN
  }

  /** The step that answers for trouble: the last one with a result of its own, or the first. */
  function Answerable(fates: seq<Fate>): nat {
    if Executed(fates) == 0 then 0 else Executed(fates) - 1
  }

  /** What a step is recorded as: its judgement, but trouble turns the answerable step, unless it
      failed, into UNKNOWN. */
  function Recorded(fates: seq<Fate>, trouble: bool, i: nat): Status {
    if trouble && i == Answerable(fates) && !Judgement(fates, i).FAIL? then UNKNOWN else Judgement(fates, i)
  }

  predicate Records(r: seq<Result>, fates: seq<Fate>, trouble: bool) {
    |r| == |fates| && forall i: nat :: i < |r| ==> r[i].status == Recorded(fates, trouble, i)
  }

  predicate AllPossible(fates: seq<Fate>) {
    forall i :: 0 <= i < |fates| ==> Possible(fates[i])
  }

  /** The run's results have the promised shape. */
  lemma RecordsAreShaped(r: seq<Result>, fates: seq<Fate>, trouble: bool)
    requires AllPossible(fates) && Records(r, fates, trouble)
    ensures exists k: nat :: Shaped(r, k)
  {
    var e := Answerable(fates);
    if r == [] {
      assert Shaped(r, 0);
    } else if r[e].status.PASS? {
      assert Shaped(r, e + 1);
    } else {
      assert Shaped(r, e);
    }
  }

  /** The last result that is not NOT_RUN, or the first one: it answers for trouble. */
  predicate IsLastExecuted(r: seq<Result>, k: nat) {
    && k < |r| && (forall i :: k < i < |r| ==> r[i].status.NOT_RUN?)
    && (r[k].status.NOT_RUN? ==> k == 0)
  }

  lemma LastExecutedAnswers(r: seq<Result>, fates: seq<Fate>, trouble: bool, k: nat)
    requires AllPossible(fates) && Records(r, fates, trouble) && IsLastExecuted(r, k)
    ensures k == Answerable(fates)
  {
    var e := Answerable(fates);
    assert r[e].status == Recorded(fates, trouble, e);
    assert r[k].status == Recorded(fates, trouble, k);
  }

  // ---- the run ---------------------------------------------------------------------------------

  class LiveRun {
    const plan: seq<nat>
    var results: seq<Result>
    var artifactErrors: bool

    constructor (plan: seq<nat>)
      ensures this.plan == plan && results == [] && !artifactErrors
    {
      this.plan := plan;
      results, artifactErrors := [], false;
    }

    /** append_not_run_results */
    method AppendNotRun()
      requires InPlanOrder(results, plan)
      modifies this`results
      ensures InPlanOrder(results, plan) && |results| == |plan|
      ensures results[..|old(results)|] == old(results)
      ensures forall i :: |old(results)| <= i < |results| ==> results[i].status.NOT_RUN?
    {
      var n := |results|;
      for i := n to |plan|
        invariant |results| == i && InPlanOrder(results, plan) && results[..n] == old(results)
        invariant forall j :: n <= j < i ==> results[j].status.NOT_RUN?
      {
        results := results + [Result(plan[i], NOT_RUN)];
      }
    }

    /** The last result that is not NOT_RUN, or the first one. */
    method LastExecuted() returns (k: nat)
      requires results != []
      ensures IsLastExecuted(results, k)
    {
      k := |results| - 1;
      while k > 0 && results[k].status.NOT_RUN?
        invariant k < |results| && forall i :: k < i < |results| ==> results[i].status.NOT_RUN?
      {
        k := k - 1;
      }
    }

    /** The last FAIL, if there is one. */
    method LastFailure() returns (k: Option<nat>)
      ensures k.None? ==> forall i :: 0 <= i < |results| ==> !results[i].status.FAIL?
      ensures k.Some? ==> k.value < |results| && results[k.value].status.FAIL?
    {
      var i := |results|;
      while i > 0
        invariant 0 <= i <= |results| && forall j :: i <= j < |results| ==> !results[j].status.FAIL?
      {
        i := i - 1;
        if results[i].status.FAIL? {
          return Some(i);
        }
      }
      return None;
    }

    /** A session failure completes the plan and marks the last executed step, unless one failed already. */
    method FailSession(ghost fates: seq<Fate>, ghost trouble: bool)
      requires AllPossible(fates) && |fates| == |plan| && |results| <= |plan| && InPlanOrder(results, plan)
      requires forall i: nat :: i < |results| ==> results[i].status == Recorded(fates, trouble, i)
      requires forall i: nat :: |results| <= i < |plan| ==> Recorded(fates, trouble, i).NOT_RUN?
      modifies this
      ensures InPlanOrder(results, plan) && Records(results, fates, true)
      ensures artifactErrors <==> old(artifactErrors) || plan == []
    {
      AppendNotRun();
      assert Records(results, fates, trouble) by {
        assert forall i :: 0 <= i < |old(results)| ==> results[i] == results[..|old(results)|][i];
      }
      if results == [] {
        artifactErrors := true;
        return;
      }
      var failure := LastFailure();
      var last := LastExecuted();
      LastExecutedAnswers(results, fates, trouble, last);
      if failure.None? {
        results := results[last := results[last].(status := UNKNOWN)];
      }
    }

    method CloseTranscript(ghost fates: seq<Fate>, ghost trouble: bool)
      requires AllPossible(fates) && |fates| == |plan| && InPlanOrder(results, plan) && Records(results, fates, trouble)
      modifies this
      ensures InPlanOrder(results, plan) && Records(results, fates, true) && artifactErrors
    {
      artifactErrors := true;
      if results != [] {
        var last := LastExecuted();
        LastExecutedAnswers(results, fates, trouble, last);
        if !results[last].status.FAIL? {
          results := results[last := results[last].(status := UNKNOWN)];
        }
      }
    }

    /** The steps of one open session, in plan order, up to the first that does not pass: each is
        recorded as it was judged. */
    method RunSteps(fates: seq<Fate>) returns (interrupted: bool)
      requires results == [] && |fates| == |plan| && AllPossible(fates)
      modifies this
      ensures InPlanOrder(results, plan)
      ensures |results| == if interrupted then Executed(fates) else |plan|
      ensures forall i: nat :: i < |results| ==> results[i].status == Judgement(fates, i)
      ensures artifactErrors <==> old(artifactErrors) || StepLost(fates)
      ensures interrupted <==> Broken(fates)
    {
      for i := 0 to |plan|
        invariant |results| == i <= Reached(fates) && InPlanOrder(results, plan) && artifactErrors == old(artifactErrors)
        invariant forall j: nat :: j < i ==> results[j].status.PASS?
      {
        if fates[i].Escaped? {
          return true;
        }
        var status := if fates[i].PassedThenInterrupted? then PASS else fates[i].status;
        results := results + [Result(plan[i], status)];
        if fates[i].Judged? && fates[i].transcriptLost {
          artifactErrors := true;
        }
        if !status.PASS? {
          ghost var before := results;
          AppendNotRun();
          assert forall j :: 0 <= j <= i ==> results[j] == before[j] by {
            assert forall j :: 0 <= j <= i ==> results[j] == results[..i + 1][j];
          }
          return false;
        }
        if fates[i].PassedThenInterrupted? {
          return true;
        }
      }
      return false;
    }

    /** run_live: whatever happens, one result per step in plan order, PASS*, at most one FAIL or
        UNKNOWN, NOT_RUN*, each the step's own judgement unless trouble overwrites it; any interruption
        and any step judged FAIL or UNKNOWN show in the exit code even when omissions are allowed; and a
        strict exit of zero means every step was judged PASS. */
    method RunPlan(fates: seq<Fate>, c: Circumstances) returns (ghost interrupted: bool)
      requires results == [] && !artifactErrors && |fates| == |plan| && AllPossible(fates)
      modifies this
      ensures |results| == |plan| && InPlanOrder(results, plan) && exists k: nat :: Shaped(results, k)
      ensures forall i: nat :: i < |plan| ==> results[i].status == Recorded(Seen(fates, c), Troubled(fates, c), i)
      ensures interrupted <==>
        (c.hasTranscript && !(c.transcriptOpens && c.transcriptCloses)) || !c.opening.Open? || !c.sessionCloses || Broken(fates)
      ensures interrupted ==> ExitCode(results, artifactErrors, false, true) == 1
      // Artifact errors are exactly those of the transcript, and a failed session without any step.
      ensures artifactErrors <==>
        || (c.hasTranscript && !(c.transcriptOpens && c.transcriptCloses))
        || (c.opening.HandshakeFails? && c.opening.transcriptLost)
        || (c.opening.Open? && StepLost(fates))
        || (plan == [] && (!c.opening.Open? || !c.sessionCloses))
      // A step that was reached and judged anything but PASS fails the run.
      ensures SessionOpens(c) && Reached(fates) < |plan| && fates[Reached(fates)].Judged? ==>
        ExitCode(results, artifactErrors, false, true) == 1
      ensures ExitCode(results, artifactErrors, false, false) == 0 ==>
        forall i :: 0 <= i < |plan| ==> fates[i] == CLEAN_PASS
      ensures !interrupted && (forall i :: 0 <= i < |plan| ==> fates[i] == CLEAN_PASS) ==>
        ExitCode(results, artifactErrors, false, false) == 0
    {
      interrupted := true;
      ghost var seen, trouble := Seen(fates, c), false;
      if c.hasTranscript && !c.transcriptOpens {
        artifactErrors := true;
        AppendNotRun();
        RecordsAreShaped(results, seen, false);
        return;
      }
      var broken := true;
      if c.opening.Open? {
        broken := RunSteps(fates);
      } else if c.opening.HandshakeFails? && c.opening.transcriptLost {
        artifactErrors := true;
      }
      if broken {
        FailSession(seen, trouble);
        trouble := true;
      }
      if !c.opening.PortFails? && !c.sessionCloses {
        FailSession(seen, trouble);
        trouble := true;
      }
      if c.hasTranscript && !c.transcriptCloses {
        CloseTranscript(seen, trouble);
        trouble := true;
      }
      interrupted := trouble;
      RecordsAreShaped(results, seen, trouble);
      RecordsShowTrouble(results, seen, trouble);
      ExitCodeMeaning(results, artifactErrors);
    }
  }

  /** The session that runs the steps is opened. */
  predicate SessionOpens(c: Circumstances) {
    !(c.hasTranscript && !c.transcriptOpens) && c.opening.Open?
  }

  /** The fates as far as they come into play: without a session, none does. */
  function Seen(fates: seq<Fate>, c: Circumstances): (r: seq<Fate>)
    ensures |r| == |fates|
  {
    if SessionOpens(c) then fates else seq(|fates|, _ => Escaped)
  }

  /** A session failure or a transcript that does not close marks the answerable step. */
  predicate Troubled(fates: seq<Fate>, c: Circumstances) {
    && !(c.hasTranscript && !c.transcriptOpens)
    && (!c.opening.Open? || !c.sessionCloses || (c.hasTranscript && !c.transcriptCloses) || Broken(fates))
  }

  /** Trouble, and a step judged anything but PASS, leave a FAIL or an UNKNOWN behind. */
  lemma RecordsShowTrouble(r: seq<Result>, fates: seq<Fate>, trouble: bool)
    requires AllPossible(fates) && Records(r, fates, trouble)
    ensures trouble && r != [] ==> exists i :: 0 <= i < |r| && Bad(r[i].status)
    ensures Reached(fates) < |fates| && fates[Reached(fates)].Judged? ==> exists i :: 0 <= i < |r| && Bad(r[i].status)
    ensures (forall i :: 0 <= i < |r| ==> r[i].status.PASS?) ==> Reached(fates) == |fates| || Broken(fates)
  {
    var (e, n) := (Answerable(fates), Reached(fates));
    if trouble && r != [] {
      assert Bad(r[e].status);
    }
    if n < |fates| && fates[n].Judged? {
      assert Bad(r[n].status);
    }
  }
}
