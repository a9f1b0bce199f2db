/** How one pass over a build ends, case by case, said of what the pass meets
    (internal/buildcontroller/imagebuild_controller.go, conflict.go). */
module Outcomes {
  import opened Strings
  import opened Registries
  import opened Tags
  import opened Statuses
  import opened Backfill
  import opened Backoff
  import opened Builder
  import opened Retries
  import D = Decisions
  import V = Convergence

  /** Nothing but the conditions moved. */
  predicate Unmoved(b: Machine, after: Machine) {
    && after.jobs == b.jobs && after.reg == b.reg && after.s.published == b.s.published
    && after.s.failures == b.s.failures && after.s.buildRef == b.s.buildRef && after.s.attempt == b.s.attempt
  }

  /** A suspended pass is not Ready and asks for no other; an object that cannot be deleted, inputs that do
      not resolve and a Job that cannot be read end the pass with their own kind of error; and a build
      that is recorded and published ends it before its Job is even read, with whatever exporting says. */
  lemma EndsEarly(m: Machine, pass: Pass, fuse: nat)
    ensures var b := Backfilled(m, pass);
            var (after, o) := Passed(m, pass, fuse);
            && (pass.suspended ==>
                  Unmoved(b, after) && o.None? && after.s.ready == ReadyFalse && !after.s.reconciling
                  && Requeue(o, after.s.failures) == None)
            && (!pass.suspended && pass.lifecycle.Some? ==>
                  Unmoved(b, after) && o == Some(Failing(pass.lifecycle.value)))
            && (!pass.suspended && pass.lifecycle.None? && pass.inputs.Err? ==>
                  Unmoved(b, after) && o == Some(Failing(pass.inputs.error)))
            && (!pass.suspended && pass.lifecycle.None? && pass.inputs.Ok? && Converged(b, pass, pass.inputs.value) ==>
                  Unmoved(b, after)
                  && o == Some(if pass.exports.Some? then Failing(pass.exports.value) else Done(pass.interval)))
            && (!pass.suspended && pass.lifecycle.None? && pass.inputs.Ok? && !Converged(b, pass, pass.inputs.value)
                && pass.readJob.Some? ==>
                  Unmoved(b, after) && o == Some(Failing(pass.readJob.value)))
  {
    hide LearnedOf, MarkArtifact, Marked, StillThere, JobName, Observe, PreFlight;
  }

  /** When a pass is to run again: at its interval or the next poll when nothing failed; after 30 seconds for
      an error another object fixes; after the backoff, between 30 seconds and ten minutes and doubling with
      each failure, for one a retry may fix; and not at all for one only an edit fixes. */
  lemma AsksAgain(m: Machine, pass: Pass, fuse: nat)
    ensures var (after, o) := Passed(m, pass, fuse);
            var again := Requeue(o, after.s.failures);
            && (o.Some? && o.value.Done? ==> again == Some(o.value.requeueAfter))
            && (o == Some(Failing(Pending)) ==> again == Some(30))
            && (o == Some(Failing(Terminal)) || o.None? ==> again == None)
            && (o == Some(Failing(Transient)) ==>
                  && again.Some? && 30 <= again.value <= 600
                  && (again.value < 600 ==> again.value == 30 * Pow2(after.s.failures))
                  && (again.value == 600 ==> 30 * Pow2(after.s.failures) >= 600))
  {
    hide Passed;
  }

  /** The last publication counts as lost exactly when the registry, asked with credentials, answers that
      the recorded digest, a tag of the spec, or the own tag status claims is not there: a HEAD that gets
      no answer loses nothing. */
  lemma LostExactly(reg: Registry, artifact: Option<ArtifactStatus>, pass: Pass)
    ensures !StillThere(reg, artifact, pass) <==>
            && artifact.Some? && artifact.value.digest != "" && pass.configured && pass.access.None?
            && var d := artifact.value.digest;
               || (d !in reg.manifests && ByDigest(d) !in pass.silent)
               || (exists t :: t in pass.target.tags && t !in reg.tags && ByTag(t) !in pass.silent)
               || (HasDigestTag(artifact.value.tags, d) && DigestTag(d) !in reg.tags
                   && ByTag(DigestTag(d)) !in pass.silent)
  {
    hide HasDigestTag, DigestTag;
    if artifact.Some? {
      var a, tags := artifact.value, pass.target.tags;
      var refs := MustExist(a, tags);
      assert refs[0] == ByDigest(a.digest);
      forall t | t in tags ensures ByTag(t) in refs {
        var i :| 0 <= i < |tags| && tags[i] == t;
        assert refs[i + 1] == ByTag(t);
      }
      if HasDigestTag(a.tags, a.digest) {
        assert refs[|refs| - 1] == ByTag(DigestTag(a.digest));
      }
      forall r | r in refs
        ensures r == ByDigest(a.digest) || (r.ByTag? && r.tag in tags)
                || (HasDigestTag(a.tags, a.digest) && r == ByTag(DigestTag(a.digest)))
      {
        assert r in ByTags(tags) ==> r.ByTag? && r.tag in tags;
      }
    }
  }

  /** Without a registry nothing is named or started, and the error is one another object fixes; with
      credentials that do not resolve, their own error stops both, but for a start that asks nothing of
      the registry. */
  lemma NoAccess(reg: Registry, artifact: Option<ArtifactStatus>, pass: Pass, digest: string)
    ensures !pass.configured ==>
              && PreFlight(reg, artifact, pass) == Blocked(Pending)
              && Naming(reg, artifact, pass, digest) == Blocked(Pending)
    ensures pass.configured && pass.access.Some? ==>
              && Naming(reg, artifact, pass, digest) == Blocked(pass.access.value)
              && PreFlight(reg, artifact, pass) ==
                 (if pass.target.policy == Overwrite || |pass.target.tags| == 0 then Proceed
                  else Blocked(pass.access.value))
    ensures !pass.configured || pass.access.Some? ==>
              forall m: Machine :: Backfilled(m, pass) == m
  {
  }

  /** A tag was kept instead: the conflict is recorded, the Job in flight and the failures are forgotten,
      and what was published stays reported. */
  predicate KeptInstead(b: Machine, after: Machine, c: TagConflict) {
    && after.jobs == b.jobs && after.reg == b.reg && after.s.attempt == b.s.attempt
    && after.s.buildRef.None? && after.s.failures == 0
    && after.s.published.conflict == Some(c)
    && after.s.published.artifact == b.s.published.artifact && after.s.published.inputHash == b.s.published.inputHash
    && after.s.published.history == b.s.published.history && after.s.published.attested == b.s.published.attested
  }

  /** With no Job there: the pre-flight's answer, then whatever preparing or creating the Job answers.
      When another leader created it first, the Job is there and status says nothing of it. */
  lemma WithoutJob(m: Machine, pass: Pass, fuse: nat, hash: string)
    requires Reaches(m, pass, hash) && JobName(pass.name, hash) !in m.jobs
    ensures var b := Backfilled(m, pass);
            var (after, o) := Passed(m, pass, fuse);
            var g := PreFlight(b.reg, b.s.published.artifact, pass);
            && (g.Blocked? ==> Unmoved(b, after) && o == Some(Failing(g.kind)))
            && (g.Stop? ==> KeptInstead(b, after, g.conflict) && o == Some(Done(pass.interval)))
            && (g.Proceed? && pass.prepare.Some? ==> Unmoved(b, after) && o == Some(Failing(pass.prepare.value)))
            && (g.Proceed? && pass.prepare.None? && pass.create == CreateFails ==>
                  Unmoved(b, after) && o == Some(Failing(Transient)))
            && (g.Proceed? && pass.prepare.None? && pass.create == AlreadyExists ==>
                  Unmoved(b, after.(jobs := b.jobs)) && after.jobs == b.jobs[JobName(pass.name, hash) := Running]
                  && o == Some(Done(pass.poll)))
  {
    hide LearnedOf, MarkArtifact, Marked, Converged, JobName, Observe, PreFlight;
  }

  /** A Job in flight is recorded, adopted or not; the first sight of a failed one counts it, ends the attempt
      and forgets the Job, which stays for its logs. */
  lemma WithJob(m: Machine, pass: Pass, fuse: nat, hash: string)
    requires Reaches(m, pass, hash) && JobName(pass.name, hash) in m.jobs
    ensures var b, job := Backfilled(m, pass), JobName(pass.name, hash);
            var (after, o) := Passed(m, pass, fuse);
            && (m.jobs[job] == Running ==>
                  Unmoved(b.(s := b.s.(buildRef := Some(job))), after) && o == Some(Done(pass.poll))
                  && after.s.ready == ReadyUnknown)
            && (m.jobs[job] == Failed && m.s.buildRef.Some? ==>
                  && after.jobs == b.jobs && after.reg == b.reg && after.s.published == b.s.published
                  && after.s.buildRef.None? && after.s.failures == m.s.failures + 1
                  && (after.s.attempt.Some? <==> m.s.attempt.Some?)
                  && (m.s.attempt.Some? ==>
                        after.s.attempt.value == m.s.attempt.value.(finishedAt := Some(pass.now)))
                  && o == Some(Failing(Transient)))
            && (m.jobs[job] == Succeeded && pass.result.Err? ==>
                  Unmoved(b, after) && o == Some(Failing(pass.result.error)))
  {
    hide LearnedOf, MarkArtifact, Marked, Converged, JobName, Naming;
  }

  /** A Job that succeeded, and whose digest could not be named, leaves status alone; a tag kept instead is
      recorded with the digest it dropped. */
  lemma NotNamed(m: Machine, pass: Pass, fuse: nat, hash: string)
    requires Reaches(m, pass, hash) && JobName(pass.name, hash) in m.jobs
    requires m.jobs[JobName(pass.name, hash)] == Succeeded
    requires pass.result.Ok?
    ensures var b := Backfilled(m, pass);
            var (after, o) := Passed(m, pass, fuse);
            var g := Naming(b.reg, b.s.published.artifact, pass, pass.result.value);
            && (g.Blocked? ==> Unmoved(b, after) && o == Some(Failing(g.kind)))
            && (g.Stop? ==> KeptInstead(b, after, g.conflict) && o == Some(Done(pass.interval)))
            && (g.Proceed? && fuse < |PublishTags(pass.target.tags, pass.result.value)| ==>
                  Unmoved(b.(reg := after.reg), after) && o == Some(Failing(Transient)))
  {
    hide LearnedOf, MarkArtifact, Marked, Converged, JobName, Naming, PublishTags;
    var b := Backfilled(m, pass);
    LandedFew(b.reg, PutManifest(""), fuse);
  }

  /** Status reports the digest under its public name, whatever its tags; the revision leads with the first
      tag, and the tags are the spec's and the digest's own, each after the public name. */
  predicate Reports(a: ArtifactStatus, t: Target, d: string) {
    && a.digest == d && a.ref == t.pull + "@" + d
    && a.revision == (if |t.tags| > 0 then t.tags[0] + "@" + d else d)
    && |a.tags| > 0 && a.tags[|a.tags| - 1] == t.pull + ":" + DigestTag(d)
    && (forall i :: 0 <= i < |t.tags| ==> t.pull + ":" + t.tags[i] in a.tags)
    && forall name :: name in a.tags ==>
         name == t.pull + ":" + DigestTag(d) || exists i :: 0 <= i < |t.tags| && name == t.pull + ":" + t.tags[i]
  }

  lemma ArtifactReports(t: Target, d: string)
    ensures Reports(ArtifactOf(t, d), t, d)
  {
    hide DigestTag, OthersThan;
    var names, a := PublishTags(t.tags, d), ArtifactOf(t, d);
    PublishTagsIs(t.tags, d);
    forall i | 0 <= i < |t.tags| ensures t.pull + ":" + t.tags[i] in a.tags {
      assert t.tags[i] in names;
      var k :| 0 <= k < |names| && names[k] == t.tags[i];
      assert a.tags[k] == t.pull + ":" + t.tags[i];
    }
    forall name | name in a.tags
      ensures name == t.pull + ":" + DigestTag(d) || exists i :: 0 <= i < |t.tags| && name == t.pull + ":" + t.tags[i]
    {
      var k :| 0 <= k < |a.tags| && a.tags[k] == name;
      assert names[k] in names && name == t.pull + ":" + names[k];
    }
  }

  lemma {:induction false} TagsWritten(reg: Registry, names: seq<string>, d: string, n: nat, t: string)
    requires n <= |names|
    ensures var w := ApplyTo(reg, TagWrites(names, d), n);
            && w.manifests == (if n == 0 then reg.manifests else reg.manifests + {d})
            && (t in names[..n] ==> Resolves(w, t, d))
            && (t !in names[..n] ==> V.SameAt(reg, w, t))
  {
    if n > 0 {
      TagsWritten(reg, names, d, n - 1, t);
      assert TagWrites(names, d)[n - 1] == PutTag(names[n - 1], d);
      assert names[..n] == names[..n - 1] + [names[n - 1]];
    }
  }

  /** A Job that succeeded, with every tag written: the spec's tags and the digest's own name what it pushed and
      no other tag moves; status reports it at these inputs, with what signing recorded, no conflict, no Job
      in flight and no failures; the attempt has ended in success; and its record is first in the history,
      at its inputs, under the names status reports. The Job stays. */
  lemma Named(m: Machine, pass: Pass, fuse: nat, hash: string, d: string, t: string)
    requires Reaches(m, pass, hash) && JobName(pass.name, hash) in m.jobs
    requires m.jobs[JobName(pass.name, hash)] == Succeeded
    requires pass.result == Ok(d) && fuse > |pass.target.tags|
    requires var b := Backfilled(m, pass); Naming(b.reg, b.s.published.artifact, pass, d) == Proceed
    ensures var b, after := Backfilled(m, pass), Passed(m, pass, fuse).0;
            && after.jobs == m.jobs && after.reg.manifests == b.reg.manifests + {d}
            && (t in pass.target.tags || t == DigestTag(d) ==> Resolves(after.reg, t, d))
            && (t !in pass.target.tags && t != DigestTag(d) ==> V.SameAt(b.reg, after.reg, t))
    ensures var b, after := Backfilled(m, pass), Passed(m, pass, fuse).0;
            && after.s.published.artifact.Some? && Reports(after.s.published.artifact.value, pass.target, d)
            && after.s.published.inputHash == hash && after.s.published.conflict == None
            && after.s.published.attested == pass.signed
            && after.s.buildRef.None? && after.s.failures == 0
            && (after.s.attempt.Some? <==> m.s.attempt.Some?)
            && (m.s.attempt.Some? ==>
                  after.s.attempt.value == m.s.attempt.value.(finishedAt := Some(pass.now), succeeded := true))
            && after.s.published.history ==
               Recorded(b.s.published.history,
                        Some(BuildRecord(d, after.s.published.artifact.value.tags, hash, None)), pass.limit)
    ensures Passed(m, pass, fuse).1 ==
            Some(if pass.exports.Some? then Failing(pass.exports.value) else Done(pass.interval))
  {
    hide LearnedOf, MarkArtifact, Marked, Converged, JobName, Naming, DigestTag, OthersThan, ArtifactOf, Reports,
      Recorded;
    var b, tags, names := Backfilled(m, pass), pass.target.tags, PublishTags(pass.target.tags, d);
    PublishTagsIs(tags, d);
    D.OthersShorter(tags, DigestTag(d), |tags|);
    assert 0 < |names| <= fuse && |NamingWrites(Proceed, tags, d)| == |names|;
    TagsWritten(b.reg, names, d, |names|, t);
    assert names[..|names|] == names;
    ArtifactReports(pass.target, d);
  }
}
