/** What whole runs of a build keep: Ready names what the spec asks for, and failed Jobs are counted
    once and spaced out. */
module BuilderRuns {
  import opened Strings
  import opened Registries
  import opened Tags
  import opened Statuses
  import opened Backfill
  import opened Backoff
  import opened Builder
  import P = Published

  // ---------- Ready ----------

  /** Status reports the build of these inputs, or a tag that was kept instead. */
  predicate Answers(s: BuildStatus, hash: string) {
    s.published.inputHash == hash || s.published.conflict.Some?
  }

  /** A pass that finds no Job, may start one, and finds that another leader created it meanwhile. */
  predicate LostRace(m: Machine, pass: Pass) {
    && !pass.suspended && pass.lifecycle.None? && pass.inputs.Ok? && pass.readJob.None?
    && !Converged(m, pass, pass.inputs.value)
    && JobName(pass.name, pass.inputs.value) !in m.jobs
    && PreFlight(m.reg, m.s.published.artifact, pass) == Proceed
    && pass.prepare.None? && pass.create == AlreadyExists
    && m.s.buildRef.None?
  }

  /** A pass that ends Ready leaves no Job in flight and neither Stalled nor Reconciling set. What
      it is Ready for is what the spec asks for, or a recorded Keep conflict, in every case but
      one: the create answered AlreadyExists and nothing else in status accounts for the inputs.
      A pass of an object that is not suspended ends Ready, building, Reconciling or Stalled, and
      Stalled exactly when it does not ask to run again, because only a spec edit helps. */
  lemma ReadyNamesTheSpec(m: Machine, pass: Pass, fuse: nat)
    ensures var after := Passed(m, pass, fuse).0;
            var b := Backfilled(m, pass);
            && (after.s.ready == ReadyTrue ==>
                  after.s.buildRef.None? && !after.s.stalled && !after.s.reconciling && pass.inputs.Ok?)
            && (after.s.ready == ReadyTrue && !Answers(after.s, pass.inputs.value)
                <==> LostRace(b, pass) && !Answers(b.s, pass.inputs.value))
    ensures var (after, o) := Passed(m, pass, fuse);
            !pass.suspended ==>
              && (after.s.stalled <==> o == Some(Failing(Terminal)))
              && (after.s.stalled <==> Requeue(o, after.s.failures).None?)
              && !(after.s.stalled && after.s.reconciling)
              && (after.s.ready == ReadyTrue <==> !after.s.stalled && !after.s.reconciling)
              && (after.s.ready == ReadyUnknown <==> o.value.Done? && after.s.buildRef.Some?)
  {
    hide Naming, PreFlight, StillThere, RetryDue, NamingWrites, Landed, JobName, ArtifactOf, Wait;
    var b := Backfilled(m, pass);
    if !pass.suspended {
      WorkAnswers(b, pass, fuse);
    }
  }

  lemma WorkAnswers(m: Machine, pass: Pass, fuse: nat)
    requires !pass.suspended
    ensures var (after, o) := Work(m, pass, fuse);
            && (o.Done? ==> pass.inputs.Ok?)
            && (o.Done? && after.s.buildRef.None? && !Answers(after.s, pass.inputs.value)
                <==> LostRace(m, pass) && !Answers(m.s, pass.inputs.value))
  {
    hide Naming, PreFlight, StillThere, RetryDue, NamingWrites, Landed, JobName, ArtifactOf, Wait;
  }

  /** The case that fails: a new object whose first pass loses the race is Ready with nothing built. */
  lemma LostRaceIsReady(pass: Pass, fuse: nat)
    requires pass.configured && !pass.suspended && pass.lifecycle.None? && pass.inputs.Ok? && pass.inputs.value != ""
    requires pass.access.None? && pass.readJob.None? && pass.prepare.None?
    requires pass.create == AlreadyExists && pass.target.policy == Overwrite
    ensures var nothing := Status(None, "", [], None, None);
            var m := Machine(BuildStatus(nothing, None, 0, None, ReadyFalse, false, false), map[], Registry({}, map[]));
            var after := Passed(m, pass, fuse).0;
            after.s.ready == ReadyTrue && after.s.published == nothing
  {
    hide JobName;
  }

  // ---------- Failures ----------

  /** A run: the machine, when each of its Jobs since the last reset was created, and the time so far. */
  datatype Run = Run(m: Machine, created: seq<int>, clock: int)

  datatype Event = Reconciles(pass: Pass, fuse: nat) | Ends(state: JobState)

  /** The pass publishes, or keeps a tag, and so resets the count of failures: it gets to the Job, which
      succeeded and whose naming the policy or the registry does not block; or to the check before a
      Job, where a tag is kept. */
  predicate Resets(m: Machine, pass: Pass, fuse: nat) {
    !pass.suspended && WorkResets(Backfilled(m, pass), pass, fuse)
  }

  predicate WorkResets(b: Machine, pass: Pass, fuse: nat) {
    && pass.lifecycle.None? && pass.inputs.Ok? && pass.readJob.None?
    && !Converged(b, pass, pass.inputs.value)
    && if JobName(pass.name, pass.inputs.value) in b.jobs then
         && b.jobs[JobName(pass.name, pass.inputs.value)] == Succeeded && pass.result.Ok?
         && var d := pass.result.value;
            !Verdict(Naming(b.reg, b.s.published.artifact, pass, d), pass.target.tags, d, fuse).Blocked?
       else PreFlight(b.reg, b.s.published.artifact, pass).Stop?
  }

  /** The Jobs that count from a reset on: the one that succeeded, if it is still there. */
  function Fresh(created: seq<int>, there: bool): seq<int> {
    if there && created != [] then [created[|created| - 1]] else []
  }

  function Next(r: Run, job: string, e: Event): Run {
    match e
    case Reconciles(pass, fuse) =>
      var after := Passed(r.m, pass, fuse).0;
      Run(after,
          if Resets(r.m, pass, fuse) then Fresh(r.created, job in after.jobs)
          else if job !in r.m.jobs && job in after.jobs then r.created + [pass.now] else r.created, pass.now)
    case Ends(state) =>
      if job in r.m.jobs && r.m.jobs[job] == Running then r.(m := r.m.(jobs := r.m.jobs[job := state])) else r
  }

  /** Time moves on, the inputs stay the same when they resolve, and reads are consistent. */
  ghost predicate Steady(r: Run, name: string, hash: string, e: Event) {
    e.Reconciles? ==>
      && e.pass.now >= r.clock && e.pass.name == name
      && (e.pass.inputs.Ok? ==> e.pass.inputs.value == hash)
      && e.pass.create != AlreadyExists
  }

  function After(r: Run, job: string, events: seq<Event>, n: nat): Run
    requires n <= |events|
  {
    if n == 0 then r else Next(After(r, job, events, n - 1), job, events[n - 1])
  }

  ghost predicate AllSteady(r: Run, name: string, hash: string, events: seq<Event>) {
    forall n :: 0 <= n < |events| ==> Steady(After(r, JobName(name, hash), events, n), name, hash, events[n])
  }

  /** The k-th later Job was created no earlier than the first k waits after the first. */
  ghost predicate Spaced(created: seq<int>) {
    forall k :: 0 <= k < |created| ==> created[k] >= created[0] + TotalWait(k)
  }

  /** The failure of the last Job has been counted, when the Job exists in that state. */
  predicate Counted(r: Run, job: string) {
    job !in r.m.jobs || (r.m.jobs[job] == Failed && r.m.s.buildRef.None?)
  }

  ghost predicate FinishedBy(r: Run) {
    && r.m.s.attempt.Some? && r.m.s.attempt.value.finishedAt.Some?
    && r.created != [] && r.created[|r.created| - 1] <= r.m.s.attempt.value.finishedAt.value <= r.clock
  }

  ghost predicate Invariant(r: Run, job: string) {
    && Spaced(r.created)
    && (r.created != [] ==> r.created[|r.created| - 1] <= r.clock)
    && (job in r.m.jobs && r.m.jobs[job] != Succeeded ==> r.m.s.attempt.Some?)
    && (job in r.m.jobs && r.m.jobs[job] == Running ==> r.m.s.buildRef.Some?)
    && (Counted(r, job) ==>
          && r.m.s.buildRef.None?
          && |r.created| == r.m.s.failures
          && (r.m.s.failures > 0 ==> FinishedBy(r))
          && (job !in r.m.jobs && r.m.s.failures > 0 ==>
                r.clock >= r.m.s.attempt.value.finishedAt.value + Wait(r.m.s.failures)))
    && (!Counted(r, job) ==> |r.created| == r.m.s.failures + 1)
  }

  lemma SpacedNext(created: seq<int>, t: int)
    requires Spaced(created) && (created != [] ==> t >= created[|created| - 1] + Wait(|created|))
    ensures Spaced(created + [t])
  {
    var n := |created|;
    if n > 0 {
      assert TotalWait(n) == TotalWait(n - 1) + Wait(n);
    }
    assert TotalWait(0) == 0;
  }

  predicate SameJobs(m: Machine, after: Machine) {
    m.jobs == after.jobs && m.s.failures == after.s.failures
    && m.s.buildRef == after.s.buildRef && m.s.attempt == after.s.attempt
  }

  /** All a pass may do to the Job and to what counts its failures, short of a reset. */
  predicate Moves(m: Machine, after: Machine, job: string, now: int) {
    || SameJobs(m, after)
    || (job !in m.jobs
        && SameJobs(m.(jobs := m.jobs[job := Running],
                       s := m.s.(buildRef := after.s.buildRef, attempt := after.s.attempt)), after)
        && after.s.buildRef.Some? && after.s.attempt.Some?)
    || (job in m.jobs && m.jobs[job] == Running && SameJobs(m.(s := m.s.(buildRef := Some(job))), after))
    || (job in m.jobs && m.jobs[job] == Failed && m.s.buildRef.Some? && SameJobs(m.(s := WithFailure(m.s, now)), after))
    || (job in m.jobs && m.jobs[job] == Failed && m.s.buildRef.None? && RetryDue(m.s, now)
        && SameJobs(m.(jobs := m.jobs - {job}), after))
  }

  predicate ResetMoves(m: Machine, after: Machine, job: string) {
    (job in m.jobs ==> m.jobs[job] == Succeeded) && m.jobs == after.jobs
    && after.s.failures == 0 && after.s.buildRef.None?
    && (job !in m.jobs ==> after.s.attempt == m.s.attempt)
  }

  lemma PassMoves(m: Machine, pass: Pass, fuse: nat, hash: string)
    requires pass.inputs.Ok? ==> pass.inputs.value == hash
    requires pass.create != AlreadyExists
    ensures var after := Passed(m, pass, fuse).0;
            if Resets(m, pass, fuse) then ResetMoves(m, after, JobName(pass.name, hash))
            else Moves(m, after, JobName(pass.name, hash), pass.now)
  {
    hide Work, JobName, Moves, ResetMoves, WorkResets;
    var b := Backfilled(m, pass);
    var after := Passed(m, pass, fuse).0;
    if pass.suspended {
      Unmoved(m, after, JobName(pass.name, hash), pass.now);
    } else {
      WorkMoves(b, pass, fuse, hash);
      MovesAlike(m, b, Work(b, pass, fuse).0, after, JobName(pass.name, hash), pass.now);
    }
  }

  lemma Unmoved(m: Machine, after: Machine, job: string, now: int)
    ensures SameJobs(m, after) ==> Moves(m, after, job, now)
  {
  }

  /** Only the Jobs and what counts their failures matter to a move. */
  lemma MovesAlike(m: Machine, b: Machine, w: Machine, after: Machine, job: string, now: int)
    requires SameJobs(m, b) && SameJobs(w, after)
    ensures Moves(b, w, job, now) ==> Moves(m, after, job, now)
    ensures ResetMoves(b, w, job) ==> ResetMoves(m, after, job)
  {
    hide Wait;
  }

  lemma WorkMoves(m: Machine, pass: Pass, fuse: nat, hash: string)
    requires pass.inputs.Ok? ==> pass.inputs.value == hash
    requires pass.create != AlreadyExists
    ensures var after := Work(m, pass, fuse).0;
            if WorkResets(m, pass, fuse) then ResetMoves(m, after, JobName(pass.name, hash))
            else Moves(m, after, JobName(pass.name, hash), pass.now)
  {
    hide PreFlight, Converged, JobName, Wait, Observe, RetryDue, Naming, Verdict;
    if JobName(pass.name, hash) in m.jobs {
      ObserveMoves(m, pass, hash, fuse);
    }
  }

  lemma ObserveMoves(m: Machine, pass: Pass, hash: string, fuse: nat)
    requires JobName(pass.name, hash) in m.jobs
    ensures var after, job := Observe(m, pass, hash, fuse).0, JobName(pass.name, hash);
            if m.jobs[job] == Succeeded && pass.result.Ok?
               && !Verdict(Naming(m.reg, m.s.published.artifact, pass, pass.result.value), pass.target.tags,
                           pass.result.value, fuse).Blocked?
            then ResetMoves(m, after, job) else Moves(m, after, job, pass.now)
  {
    hide Naming, NamingWrites, Landed, JobName, Wait, ArtifactOf;
  }

  lemma MoveKeeps(r: Run, after: Machine, job: string, now: int)
    requires Invariant(r, job) && Moves(r.m, after, job, now) && now >= r.clock
    ensures Invariant(Run(after, if job !in r.m.jobs && job in after.jobs
                              then r.created + [now] else r.created, now), job)
  {
    hide Wait, Spaced, TotalWait;
    if job !in r.m.jobs && job in after.jobs {
      SpacedNext(r.created, now);
    }
  }

  lemma ResetKeeps(r: Run, after: Machine, job: string, now: int)
    requires Invariant(r, job) && ResetMoves(r.m, after, job) && now >= r.clock
    ensures Invariant(Run(after, Fresh(r.created, job in after.jobs), now), job)
  {
    hide Wait;
    assert TotalWait(0) == 0;
  }

  lemma StepKeeps(r: Run, name: string, hash: string, e: Event)
    requires Invariant(r, JobName(name, hash)) && Steady(r, name, hash, e)
    ensures Invariant(Next(r, JobName(name, hash), e), JobName(name, hash))
  {
    hide Passed, Moves, ResetMoves, Resets, Wait, Spaced, JobName, Fresh;
    match e {
      case Ends(_) =>
      case Reconciles(pass, fuse) =>
        var after := Passed(r.m, pass, fuse).0;
        PassMoves(r.m, pass, fuse, hash);
        if Resets(r.m, pass, fuse) {
          ResetKeeps(r, after, JobName(name, hash), pass.now);
        } else {
          MoveKeeps(r, after, JobName(name, hash), pass.now);
        }
    }
  }

  /** From an object with no Job and no failures, however its passes and Jobs go: since the count was
      last reset, which exactly a publish and a kept tag do, every Job created has been counted as a
      failure exactly once, except the last while its failure is not yet observed, and the (k+1)-th
      came no earlier than the first k waits after the first. */
  lemma {:induction false} FailuresAreSpaced(r: Run, name: string, hash: string, events: seq<Event>, n: nat)
    requires n <= |events| && AllSteady(r, name, hash, events)
    requires JobName(name, hash) !in r.m.jobs && r.m.s.failures == 0 && r.m.s.buildRef.None? && r.created == []
    ensures var after := After(r, JobName(name, hash), events, n);
            && Invariant(after, JobName(name, hash))
            && (forall k :: 0 <= k < |after.created| ==> after.created[k] >= after.created[0] + TotalWait(k))
            && |after.created| == after.m.s.failures + if Counted(after, JobName(name, hash)) then 0 else 1
  {
    hide JobName, Next, Steady;
    if n > 0 {
      FailuresAreSpaced(r, name, hash, events, n - 1);
      StepKeeps(After(r, JobName(name, hash), events, n - 1), name, hash, events[n - 1]);
    }
  }

  // ---------- When a pass asks to run again ----------

  /** The pass that counts a failure asks to run again at the first moment the retry is due. */
  lemma RequeueIsDue(m: Machine, pass: Pass, fuse: nat, hash: string)
    requires !pass.suspended && pass.lifecycle.None? && pass.inputs == Ok(hash) && pass.readJob.None?
    requires !Converged(Backfilled(m, pass), pass, hash)
    requires JobName(pass.name, hash) in m.jobs && m.jobs[JobName(pass.name, hash)] == Failed
    requires m.s.buildRef.Some? && m.s.attempt.Some?
    ensures var (after, o) := Passed(m, pass, fuse);
            && after.s.failures == m.s.failures + 1
            && Requeue(o, after.s.failures).Some?
            && forall t :: RetryDue(after.s, t) <==> t >= pass.now + Requeue(o, after.s.failures).value
  {
    hide Wait, JobName, LearnedOf, MarkArtifact, Marked, Naming, Converged;
  }

  // ---------- The policy ----------

  /** One of the tags resolves to something else. */
  predicate AnyTaken(reg: Registry, tags: seq<string>, digest: string) {
    exists i :: 0 <= i < |tags| && P.TakenFrom(reg, tags[i], digest)
  }

  lemma AnyTakenMeans(reg: Registry, tags: seq<string>, digest: string)
    ensures AnyTaken(reg, tags, digest) <==> exists t :: t in tags && P.TakenFrom(reg, t, digest)
  {
    if t :| t in tags && P.TakenFrom(reg, t, digest) {
      var i :| 0 <= i < |tags| && tags[i] == t;
      assert P.TakenFrom(reg, tags[i], digest);
    }
  }

  /** After the Job, exactly: a taken tag is refused under Fail and kept under Keep, with what it
      holds and what was dropped; otherwise the digest is named, once the registry serves it. */
  lemma NamingExactly(reg: Registry, artifact: Option<ArtifactStatus>, pass: Pass, digest: string)
    requires pass.configured && pass.access.None?
    ensures var g := Naming(reg, artifact, pass, digest);
            var taken := AnyTaken(reg, pass.target.tags, digest) && pass.target.policy != Overwrite;
            && (g == Blocked(Terminal) <==> taken && pass.target.policy == Fail)
            && (g.Stop? <==> taken && pass.target.policy == Keep)
            && (g.Stop? ==> g.conflict.tag in pass.target.tags && g.conflict.dropped == digest
                              && Resolves(reg, g.conflict.tag, g.conflict.existing) && g.conflict.existing != digest)
            && (g == Proceed <==> !taken && digest in reg.manifests)
            && (g == Blocked(Pending) <==> !taken && digest !in reg.manifests)
  {
    hide P.FirstConflict, P.Resolved, AnyTaken;
    P.ConflictExactly(reg, pass.target.tags, pass.target.tags, DigestOf(artifact), digest);
    AnyTakenMeans(reg, pass.target.tags, digest);
  }

  /** Before the Job, exactly the same with the recorded digest, except that Overwrite asks nothing:
      a tag that still holds this object's own publication never stops a rebuild. */
  lemma PreFlightExactly(reg: Registry, artifact: Option<ArtifactStatus>, pass: Pass)
    requires pass.configured && pass.access.None?
    ensures var g := PreFlight(reg, artifact, pass);
            var ours := if artifact.Some? then artifact.value.digest else "";
            var taken := AnyTaken(reg, pass.target.tags, ours) && pass.target.policy != Overwrite;
            && (g == Blocked(Terminal) <==> taken && pass.target.policy == Fail)
            && (g.Stop? <==> taken && pass.target.policy == Keep)
            && (g.Stop? ==> g.conflict.tag in pass.target.tags && Resolves(reg, g.conflict.tag, g.conflict.existing)
                              && g.conflict.existing != ours)
            && (g == Proceed <==> !taken)
  {
    hide P.FirstConflict, P.Resolved, AnyTaken;
    var ours := if artifact.Some? then artifact.value.digest else "";
    P.ConflictExactly(reg, pass.target.tags, pass.target.tags, DigestOf(artifact), ours);
    AnyTakenMeans(reg, pass.target.tags, ours);
  }
}
