/** A failed Job is retried: it stays until its backoff has elapsed, then goes, and the next pass that may
    start a Job does (internal/buildcontroller/imagebuild_controller.go). */
module Retries {
  import opened Strings
  import opened Registries
  import opened Tags
  import opened Statuses
  import opened Backfill
  import opened Backoff
  import opened Builder

  /** The pass gets as far as the Job of these inputs, or to its absence. */
  predicate Reaches(m: Machine, pass: Pass, hash: string) {
    && !pass.suspended && pass.lifecycle.None? && pass.inputs == Ok(hash) && pass.readJob.None?
    && !Converged(Backfilled(m, pass), pass, hash)
  }

  /** min(30 * 2^n, 600) seconds after the end of the last attempt; with no end recorded, at once. */
  predicate BackoffOver(s: BuildStatus, now: int) {
    s.attempt.Some? && s.attempt.value.finishedAt.Some? ==>
      var since := now - s.attempt.value.finishedAt.value;
      since >= 600 || since >= 30 * Pow2(s.failures)
  }

  predicate FailedAndCounted(m: Machine, job: string) {
    job in m.jobs && m.jobs[job] == Failed && m.s.buildRef.None?
  }

  /** A pass that reaches a failed Job already counted deletes it if and only if the backoff is over and
      the delete lands; it changes no other Job, counts nothing, and asks to be run again. */
  lemma FailedJobGoes(m: Machine, pass: Pass, fuse: nat, hash: string)
    requires Reaches(m, pass, hash) && FailedAndCounted(m, JobName(pass.name, hash))
    ensures var job := JobName(pass.name, hash);
            var (after, o) := Passed(m, pass, fuse);
            && (job !in after.jobs <==> BackoffOver(m.s, pass.now) && pass.deletes)
            && after.jobs == (if job in after.jobs then m.jobs else m.jobs - {job})
            && after.s.failures == m.s.failures && after.s.buildRef.None? && after.s.attempt == m.s.attempt
            && o == Some(Failing(Transient)) && after.s.ready == ReadyFalse && after.s.reconciling
  {
    hide Converged, JobName, LearnedOf, MarkArtifact, Marked, Naming, Pow2;
  }

  /** Any other pass leaves it, and what times its retry, as it is. */
  lemma FailedJobStays(m: Machine, pass: Pass, fuse: nat, hash: string)
    requires FailedAndCounted(m, JobName(pass.name, hash)) && !Reaches(m, pass, hash)
    requires pass.inputs.Ok? ==> pass.inputs.value == hash
    ensures var after := Passed(m, pass, fuse).0;
            after.jobs == m.jobs && after.s.failures == m.s.failures && after.s.buildRef.None?
            && after.s.attempt == m.s.attempt
  {
    hide Converged, JobName, LearnedOf, MarkArtifact, Marked, Observe, PreFlight;
  }

  /** A pass that finds no Job creates one if and only if it reaches that point, the pre-flight lets it
      through, and everything a Job needs is there; a Job created is recorded as the attempt in flight. */
  lemma JobStarts(m: Machine, pass: Pass, fuse: nat, hash: string)
    requires JobName(pass.name, hash) !in m.jobs && pass.create != AlreadyExists
    requires pass.inputs.Ok? ==> pass.inputs.value == hash
    ensures var job := JobName(pass.name, hash);
            var b := Backfilled(m, pass);
            var (after, o) := Passed(m, pass, fuse);
            var starts := Reaches(m, pass, hash) && PreFlight(b.reg, b.s.published.artifact, pass) == Proceed
                          && pass.prepare.None? && pass.create == Created;
            && (job in after.jobs <==> starts)
            && after.jobs == (if starts then m.jobs[job := Running] else m.jobs)
            && (starts ==>
                  && after.s.buildRef == Some(job) && after.s.attempt == Some(Attempt(hash, pass.now, None, false))
                  && after.s.failures == m.s.failures && o == Some(Done(pass.poll))
                  && after.s.ready == ReadyUnknown && after.s.reconciling)
  {
    hide Converged, JobName, LearnedOf, MarkArtifact, Marked, Observe, PreFlight;
  }

  // ---------- Over a run of passes ----------

  datatype Turn = Turn(pass: Pass, fuse: nat)

  function After(m: Machine, run: seq<Turn>, n: nat): Machine
    requires n <= |run|
  {
    if n == 0 then m else Passed(After(m, run, n - 1), run[n - 1].pass, run[n - 1].fuse).0
  }

  /** One object, its inputs unchanged where they resolve, and reads that are consistent. */
  ghost predicate OneBuild(run: seq<Turn>, name: string, hash: string) {
    forall i :: 0 <= i < |run| ==>
      && run[i].pass.name == name && run[i].pass.create != AlreadyExists
      && (run[i].pass.inputs.Ok? ==> run[i].pass.inputs.value == hash)
  }

  /** The turn reaches the Job when its backoff is over, and its delete lands. */
  predicate Clears(m: Machine, t: Turn, hash: string) {
    Reaches(m, t.pass, hash) && BackoffOver(m.s, t.pass.now) && t.pass.deletes
  }

  /** The turn reaches the start of a Job, and nothing stops it. */
  predicate Starts(m: Machine, t: Turn, hash: string) {
    var b := Backfilled(m, t.pass);
    && Reaches(m, t.pass, hash) && PreFlight(b.reg, b.s.published.artifact, t.pass) == Proceed
    && t.pass.prepare.None? && t.pass.create == Created
  }

  /** Until a turn clears it, a failed and counted Job stays, and so does all that times its retry. */
  lemma {:induction false} StaysUntilCleared(m: Machine, run: seq<Turn>, name: string, hash: string, n: nat)
    requires n <= |run| && OneBuild(run, name, hash) && FailedAndCounted(m, JobName(name, hash))
    requires forall k :: 0 <= k < n ==> !Clears(After(m, run, k), run[k], hash)
    ensures var w := After(m, run, n);
            && FailedAndCounted(w, JobName(name, hash)) && w.jobs == m.jobs
            && w.s.failures == m.s.failures && w.s.attempt == m.s.attempt
  {
    hide Passed, Reaches, JobName, BackoffOver;
    if n > 0 {
      StaysUntilCleared(m, run, name, hash, n - 1);
      var w, t := After(m, run, n - 1), run[n - 1];
      if Reaches(w, t.pass, hash) {
        FailedJobGoes(w, t.pass, t.fuse, hash);
      } else {
        FailedJobStays(w, t.pass, t.fuse, hash);
      }
    }
  }

  /** Until a turn starts one, there is no Job. */
  lemma {:induction false} AbsentUntilStarted(m: Machine, run: seq<Turn>, name: string, hash: string, i: nat, n: nat)
    requires i <= n <= |run| && OneBuild(run, name, hash) && JobName(name, hash) !in After(m, run, i).jobs
    requires forall k :: i <= k < n ==> !Starts(After(m, run, k), run[k], hash)
    ensures JobName(name, hash) !in After(m, run, n).jobs
  {
    hide Passed, Reaches, JobName, PreFlight;
    if i < n {
      AbsentUntilStarted(m, run, name, hash, i, n - 1);
      JobStarts(After(m, run, n - 1), run[n - 1].pass, run[n - 1].fuse, hash);
    }
  }

  lemma ClearedIsGone(m: Machine, run: seq<Turn>, name: string, hash: string, i: nat)
    requires i < |run| && OneBuild(run, name, hash) && Clears(After(m, run, i), run[i], hash)
    requires FailedAndCounted(After(m, run, i), JobName(name, hash))
    ensures JobName(name, hash) !in After(m, run, i + 1).jobs
  {
    hide Passed, Reaches, JobName, BackoffOver, FailedAndCounted;
    FailedJobGoes(After(m, run, i), run[i].pass, run[i].fuse, hash);
  }

  lemma StartedRuns(m: Machine, run: seq<Turn>, name: string, hash: string, j: nat)
    requires j < |run| && OneBuild(run, name, hash) && Starts(After(m, run, j), run[j], hash)
    requires JobName(name, hash) !in After(m, run, j).jobs
    ensures var w, job := After(m, run, j + 1), JobName(name, hash);
            && job in w.jobs && w.jobs[job] == Running && w.s.buildRef == Some(job)
            && w.s.attempt == Some(Attempt(hash, run[j].pass.now, None, false))
  {
    hide Passed, Reaches, JobName, PreFlight;
    JobStarts(After(m, run, j), run[j].pass, run[j].fuse, hash);
  }

  /** Whatever other passes come before and between: a failed Job stays until the first turn i that
      clears it, is gone until the first later turn j that may start one, and runs again after that,
      recorded as a new attempt. */
  lemma RetryRuns(m: Machine, run: seq<Turn>, name: string, hash: string, i: nat, j: nat)
    requires i < j < |run| && OneBuild(run, name, hash) && FailedAndCounted(m, JobName(name, hash))
    requires forall k :: 0 <= k < i ==> !Clears(After(m, run, k), run[k], hash)
    requires Clears(After(m, run, i), run[i], hash)
    requires forall k :: i < k < j ==> !Starts(After(m, run, k), run[k], hash)
    requires Starts(After(m, run, j), run[j], hash)
    ensures var job := JobName(name, hash);
            && After(m, run, i).jobs == m.jobs
            && job !in After(m, run, i + 1).jobs && job !in After(m, run, j).jobs
            && var w := After(m, run, j + 1);
               && job in w.jobs && w.jobs[job] == Running && w.s.buildRef == Some(job)
               && w.s.attempt == Some(Attempt(hash, run[j].pass.now, None, false))
  {
    hide After, JobName, Clears, Starts, OneBuild;
    StaysUntilCleared(m, run, name, hash, i);
    ClearedIsGone(m, run, name, hash, i);
    AbsentUntilStarted(m, run, name, hash, i + 1, j);
    StartedRuns(m, run, name, hash, j);
  }
}
