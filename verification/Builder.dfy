/** One build object and the Job that runs it (internal/buildcontroller). */
module Builder {
  import opened Strings
  import opened Registries
  import opened Tags
  import opened Statuses
  import opened Backfill
  import opened Backoff
  import P = Published

  /** How an error is classified: a spec edit fixes it, another object will, or a retry may. */
  datatype Kind = Terminal | Pending | Transient

  datatype Outcome = Done(requeueAfter: nat) | Failing(kind: Kind)

  datatype JobState = Running | Succeeded | Failed

  /** How the API server takes a create. */
  datatype Creation = Created | AlreadyExists | CreateFails

  datatype Attempt = Attempt(inputHash: string, startedAt: int, finishedAt: Option<int>, succeeded: bool)

  datatype Readiness = ReadyTrue | ReadyFalse | ReadyUnknown

  datatype BuildStatus = BuildStatus(
    published: Status, buildRef: Option<string>, failures: nat, attempt: Option<Attempt>,
    ready: Readiness, stalled: bool, reconciling: bool)

  /** Everything one pass meets. The failures a step may meet are given by their kind: `access` is
      of the registry's credentials, `silent` are the references whose HEAD gets no answer. */
  datatype Pass = Pass(
    name: string, target: Target, configured: bool, access: Option<Kind>,
    suspended: bool, lifecycle: Option<Kind>, inputs: Result<string, Kind>,
    silent: set<Ref>, readJob: Option<Kind>, prepare: Option<Kind>, create: Creation, deletes: bool,
    result: Result<string, Kind>, signed: Option<Attestation>, exports: Option<Kind>,
    replies: nat -> Reply, limit: int, interval: nat, poll: nat, now: int)

  datatype Ref = ByDigest(digest: string) | ByTag(tag: string)

  /** A build, its Jobs by name, and its repository. */
  datatype Machine = Machine(s: BuildStatus, jobs: map<string, JobState>, reg: Registry)

  // ---------- Names ----------

  function ShortHash(inputHash: string): string {
    var short := TrimPrefix(inputHash, "sha256:");
    if |short| > 12 then short[..12] else short
  }

  /** A Job is named after the object and the inputs, in at most 63 characters. */
  function JobName(name: string, inputHash: string): (r: string)
    ensures |r| <= 63
  {
    var full := name + "-" + ShortHash(inputHash);
    if |full| > 63 then full[|full| - 63..] else full
  }

  /** However long the object's name, Jobs of one object share a name only when the inputs' hashes
      share their first twelve characters. */
  lemma JobNameSeparates(name: string, g: string, h: string)
    requires IsDigest(g) && IsDigest(h) && JobName(name, g) == JobName(name, h)
    ensures ShortHash(g) == ShortHash(h) && g[..|SHA256| + 12] == h[..|SHA256| + 12]
  {
    ShortHashIs(g);
    ShortHashIs(h);
    hide ShortHash, IsDigest;
    var m, n := JobName(name, g), JobName(name, h);
    assert m[|m| - 12..] == ShortHash(g);
    assert n[|n| - 12..] == ShortHash(h);
    assert g[..|SHA256| + 12] == SHA256 + ShortHash(g);
    assert h[..|SHA256| + 12] == SHA256 + ShortHash(h);
  }

  lemma ShortHashIs(h: string)
    requires IsDigest(h)
    ensures |ShortHash(h)| == 12 && h[..|SHA256| + 12] == SHA256 + ShortHash(h)
  {
    hide HexDigit;
    assert h == SHA256 + h[|SHA256|..];
  }

  // ---------- Still published ----------

  predicate Present(reg: Registry, r: Ref) {
    match r
    case ByDigest(d) => d in reg.manifests
    case ByTag(t) => t in reg.tags
  }

  function ByTags(tags: seq<string>): seq<Ref> {
    seq(|tags|, i requires 0 <= i < |tags| => ByTag(tags[i]))
  }

  /** What must be there for the last publication to count as published. */
  function MustExist(a: ArtifactStatus, tags: seq<string>): seq<Ref> {
    [ByDigest(a.digest)] + ByTags(tags) + if HasDigestTag(a.tags, a.digest) then [ByTag(DigestTag(a.digest))] else []
  }

  /** Lost only when the registry answers that one of the references is not there. */
  predicate StillThere(reg: Registry, artifact: Option<ArtifactStatus>, pass: Pass) {
    artifact.None? || artifact.value.digest == "" || !pass.configured || pass.access.Some?
    || forall r :: r in MustExist(artifact.value, pass.target.tags) ==> r in pass.silent || Present(reg, r)
  }

  method StillPublished(repo: Repository, artifact: Option<ArtifactStatus>, pass: Pass) returns (there: bool)
    ensures there == StillThere(repo.state, artifact, pass)
  {
    hide HasDigestTag, DigestTag;
    if artifact.None? || artifact.value.digest == "" || !pass.configured || pass.access.Some? {
      return true;
    }
    var refs := MustExist(artifact.value, pass.target.tags);
    for n := 0 to |refs|
      invariant forall i :: 0 <= i < n ==> refs[i] in pass.silent || Present(repo.state, refs[i])
    {
      if refs[n] !in pass.silent && !Present(repo.state, refs[n]) {
        assert refs[n] in refs;
        return false;
      }
    }
    there := true;
  }

  // ---------- Conflicts ----------

  datatype Guard = Proceed | Stop(conflict: TagConflict) | Blocked(kind: Kind)

  /** Before a Job: the policy, with status's digest standing in for the one to come. */
  function PreFlight(reg: Registry, artifact: Option<ArtifactStatus>, pass: Pass): Guard {
    var tags := pass.target.tags;
    if !pass.configured then Blocked(Pending)
    else if pass.target.policy == Overwrite || tags == [] then Proceed
    else if pass.access.Some? then Blocked(pass.access.value)
    else
      var ours := if artifact.Some? then artifact.value.digest else "";
      match P.FirstConflict(P.Resolved(reg, tags, DigestOf(artifact)), tags, ours, 0)
      case None => Proceed
      case Some(c) => if pass.target.policy == Fail then Blocked(Terminal) else Stop(TagConflict(c.tag, c.current, ""))
  }

  method CheckTagConflict(repo: Repository, artifact: Option<ArtifactStatus>, pass: Pass) returns (g: Guard)
    ensures g == PreFlight(repo.state, artifact, pass)
  {
    if !pass.configured {
      return Blocked(Pending);
    }
    if pass.target.policy == Overwrite {
      return Proceed;
    }
    var tags := pass.target.tags;
    if tags == [] {
      return Proceed;
    }
    if pass.access.Some? {
      return Blocked(pass.access.value);
    }
    var found := P.ResolvePublished(repo, tags, DigestOf(artifact));
    var ours := "";
    if artifact.Some? {
      ours := artifact.value.digest;
    }
    var clash := P.Conflicts(found, tags, ours);
    if clash.None? {
      return Proceed;
    }
    match pass.target.policy {
      case Fail => g := Blocked(Terminal);
      case Keep => g := Stop(TagConflict(clash.value.tag, clash.value.current, ""));
    }
  }

  /** After the Job: the policy exactly, with the digest it pushed in hand. */
  function Naming(reg: Registry, artifact: Option<ArtifactStatus>, pass: Pass, digest: string): Guard {
    var tags := pass.target.tags;
    if !pass.configured then Blocked(Pending)
    else if pass.access.Some? then Blocked(pass.access.value)
    else
      match P.FirstConflict(P.Resolved(reg, tags, DigestOf(artifact)), tags, digest, 0)
      case Some(c) =>
        if pass.target.policy == Fail then Blocked(Terminal)
        else if pass.target.policy == Keep then Stop(TagConflict(c.tag, c.current, digest))
        else if digest in reg.manifests then Proceed else Blocked(Pending)
      case None => if digest in reg.manifests then Proceed else Blocked(Pending)
  }

  function NamingWrites(g: Guard, tags: seq<string>, digest: string): seq<Write> {
    if g.Proceed? then TagWrites(PublishTags(tags, digest), digest) else []
  }

  /** The policy's verdict, unless a tag could not be written. */
  function Verdict(g: Guard, tags: seq<string>, digest: string, fuse: nat): Guard {
    if |NamingWrites(g, tags, digest)| <= fuse then g else Blocked(Transient)
  }

  method ApplyTags(repo: Repository, artifact: Option<ArtifactStatus>, pass: Pass, digest: string) returns (g: Guard)
    modifies repo
    ensures var planned := Naming(old(repo.state), artifact, pass, digest);
            && repo.state == Landed(old(repo.state), NamingWrites(planned, pass.target.tags, digest), old(repo.fuse))
            && g == Verdict(planned, pass.target.tags, digest, old(repo.fuse))
  {
    hide P.FirstConflict, P.ResolvedTags, PublishTags, Apply;
    if !pass.configured {
      return Blocked(Pending);
    }
    if pass.access.Some? {
      return Blocked(pass.access.value);
    }
    var tags := pass.target.tags;
    var found := P.ResolvePublished(repo, tags, DigestOf(artifact));
    var clash := P.Conflicts(found, tags, digest);
    if clash.Some? {
      match pass.target.policy {
        case Fail => return Blocked(Terminal);
        case Keep => return Stop(TagConflict(clash.value.tag, clash.value.current, digest));
        case Overwrite =>
      }
    }
    var there := repo.HeadDigest(digest);
    if !there {
      return Blocked(Pending);
    }
    var names := PublishTagList(tags, digest);
    ghost var ws := TagWrites(names, digest);
    for n := 0 to |names|
      invariant n <= old(repo.fuse) && repo.fuse == old(repo.fuse) - n
      invariant repo.state == ApplyTo(old(repo.state), ws, n)
    {
      assert ws[n] == PutTag(names[n], digest);
      var ok := repo.Put(PutTag(names[n], digest));
      if !ok {
        return Blocked(Transient);
      }
    }
    g := Proceed;
  }

  // ---------- One pass, as a function ----------

  /** The failure backoff has elapsed; an attempt that never finished does not hold a retry back. */
  predicate RetryDue(s: BuildStatus, now: int) {
    s.attempt.None? || s.attempt.value.finishedAt.None? || now >= s.attempt.value.finishedAt.value + Wait(s.failures)
  }

  function Finished(a: Option<Attempt>, now: int, succeeded: bool): Option<Attempt> {
    if a.None? then None
    else Some(a.value.(finishedAt := Some(now), succeeded := succeeded || a.value.succeeded))
  }

  /** How a build writes a digest's own tag. */
  function OwnTag(pull: string): string -> string {
    (digest: string) => pull + ":" + DigestTag(digest)
  }

  function ArtifactOf(t: Target, digest: string): ArtifactStatus {
    ArtifactStatus(digest, if t.tags == [] then digest else t.tags[0] + "@" + digest, t.pull + "@" + digest,
                   Qualified(t.pull, PublishTags(t.tags, digest)))
  }

  /** A build's reference is the digest under the public name, whatever its tags; its revision leads
      with the first tag; and its tags are the publication's, each under the public name. */
  lemma ArtifactAnchored(t: Target, d: string)
    ensures var a := ArtifactOf(t, d);
            && a.digest == d && a.ref == t.pull + "@" + d
            && (t.tags != [] ==> HasPrefix(a.revision, t.tags[0]) && HasSuffix(a.revision, "@" + d))
            && |a.tags| == |PublishTags(t.tags, d)|
            && a.tags[|a.tags| - 1] == t.pull + ":" + DigestTag(d)
  {
    hide DigestTag;
    var a := ArtifactOf(t, d);
    if t.tags != [] {
      assert a.revision[|a.revision| - |d| - 1..] == "@" + d;
    }
  }

  function WithSuccess(s: BuildStatus, pass: Pass, hash: string, digest: string): BuildStatus {
    var a := ArtifactOf(pass.target, digest);
    s.(published := Status(Some(a), hash,
                           Recorded(s.published.history, Some(BuildRecord(digest, a.tags, hash, None)), pass.limit),
                           None, pass.signed),
       buildRef := None, failures := 0, attempt := Finished(s.attempt, pass.now, true))
  }

  function WithKept(s: BuildStatus, c: TagConflict): BuildStatus {
    s.(published := s.published.(conflict := Some(c)), buildRef := None, failures := 0)
  }

  function WithFailure(s: BuildStatus, now: int): BuildStatus {
    s.(buildRef := None, failures := s.failures + 1, attempt := Finished(s.attempt, now, false))
  }

  function Exported(exports: Option<Kind>, interval: nat): Outcome {
    if exports.Some? then Failing(exports.value) else Done(interval)
  }

  function Start(m: Machine, pass: Pass, hash: string): (Machine, Outcome) {
    var name := JobName(pass.name, hash);
    if pass.prepare.Some? then (m, Failing(pass.prepare.value))
    else match pass.create
      case CreateFails => (m, Failing(Transient))
      case AlreadyExists => (m.(jobs := m.jobs[name := Running]), Done(pass.poll))
      case Created =>
        (m.(jobs := m.jobs[name := Running],
            s := m.s.(buildRef := Some(name), attempt := Some(Attempt(hash, pass.now, None, false)))), Done(pass.poll))
  }

  function Observe(m: Machine, pass: Pass, hash: string, fuse: nat): (Machine, Outcome)
    requires JobName(pass.name, hash) in m.jobs
  {
    var name := JobName(pass.name, hash);
    match m.jobs[name]
    case Succeeded =>
      if pass.result.Err? then (m, Failing(pass.result.error))
      else
        var digest := pass.result.value;
        var g := Naming(m.reg, m.s.published.artifact, pass, digest);
        var named := m.(reg := Landed(m.reg, NamingWrites(g, pass.target.tags, digest), fuse));
        (match Verdict(g, pass.target.tags, digest, fuse)
         case Blocked(k) => (named, Failing(k))
         case Stop(c) => (named.(s := WithKept(m.s, c)), Done(pass.interval))
         case Proceed => (named.(s := WithSuccess(m.s, pass, hash, digest)), Exported(pass.exports, pass.interval)))
    case Failed =>
      if m.s.buildRef.Some? then (m.(s := WithFailure(m.s, pass.now)), Failing(Transient))
      else if RetryDue(m.s, pass.now) && pass.deletes then (m.(jobs := m.jobs - {name}), Failing(Transient))
      else (m, Failing(Transient))
    case Running => (m.(s := m.s.(buildRef := Some(name))), Done(pass.poll))
  }

  /** The build of these inputs is recorded and still published. */
  predicate Converged(m: Machine, pass: Pass, hash: string) {
    && m.s.published.artifact.Some? && m.s.published.inputHash == hash
    && StillThere(m.reg, m.s.published.artifact, pass)
  }

  /** The state machine over the owned Job. */
  function Work(m: Machine, pass: Pass, fuse: nat): (Machine, Outcome) {
    if pass.lifecycle.Some? then (m, Failing(pass.lifecycle.value))
    else if pass.inputs.Err? then (m, Failing(pass.inputs.error))
    else
      var hash := pass.inputs.value;
      if Converged(m, pass, hash) then (m, Exported(pass.exports, pass.interval))
      else if pass.readJob.Some? then (m, Failing(pass.readJob.value))
      else if JobName(pass.name, hash) in m.jobs then Observe(m, pass, hash, fuse)
      else match PreFlight(m.reg, m.s.published.artifact, pass)
        case Blocked(k) => (m, Failing(k))
        case Stop(c) => (m.(s := WithKept(m.s, c)), Done(pass.interval))
        case Proceed => Start(m, pass, hash)
  }

  /** The conditions for whatever just happened. */
  function Conclude(s: BuildStatus, o: Outcome): BuildStatus {
    match o
    case Done(_) =>
      if s.buildRef.Some? then s.(ready := ReadyUnknown, reconciling := true, stalled := false)
      else s.(ready := ReadyTrue, reconciling := false, stalled := false)
    case Failing(Terminal) => s.(ready := ReadyFalse, reconciling := false, stalled := true)
    case Failing(_) => s.(ready := ReadyFalse, reconciling := true, stalled := false)
  }

  function Backfilled(m: Machine, pass: Pass): Machine {
    if !pass.configured || pass.access.Some? then m
    else
      var st := m.s.published;
      var l := LearnedOf(m.reg, st.artifact, st.history, pass.replies);
      m.(reg := l.reg,
         s := m.s.(published := st.(
           artifact := MarkArtifact(st.artifact, l.known, pass.target.pull),
           history := Marked(st.history, l.known, DigestOf(st.artifact), OwnTag(pass.target.pull), pass.now))))
  }

  /** One pass: the machine after it, and what it ended with (None when suspended). */
  function Passed(m: Machine, pass: Pass, fuse: nat): (Machine, Option<Outcome>) {
    var b := Backfilled(m, pass);
    if pass.suspended then (b.(s := b.s.(ready := ReadyFalse, reconciling := false)), None)
    else
      var r := Work(b, pass, fuse);
      (r.0.(s := Conclude(r.0.s, r.1)), Some(r.1))
  }

  /** When the pass asks to run again: not for a spec only an edit can fix. */
  function Requeue(o: Option<Outcome>, failures: nat): Option<nat> {
    match o
    case None => None
    case Some(Done(after)) => Some(after)
    case Some(Failing(Terminal)) => None
    case Some(Failing(Pending)) => Some(PENDING_RETRY)
    case Some(Failing(Transient)) => Some(Wait(failures))
  }

  // ---------- One pass, as the controller runs it ----------

  class Cluster {
    var jobs: map<string, JobState>

    constructor (jobs: map<string, JobState>)
      ensures this.jobs == jobs
    {
      this.jobs := jobs;
    }
  }

  class ImageBuild {
    var published: Status
    var buildRef: Option<string>
    var failures: nat
    var attempt: Option<Attempt>
    var ready: Readiness
    var stalled: bool
    var reconciling: bool

    constructor (s: BuildStatus)
      ensures Read() == s
    {
      published, buildRef, failures, attempt := s.published, s.buildRef, s.failures, s.attempt;
      ready, stalled, reconciling := s.ready, s.stalled, s.reconciling;
    }

    function Read(): BuildStatus
      reads this
    {
      BuildStatus(published, buildRef, failures, attempt, ready, stalled, reconciling)
    }

    method RecordSuccess(pass: Pass, hash: string, digest: string)
      modifies this
      ensures Read() == WithSuccess(old(Read()), pass, hash, digest)
    {
      hide DigestTag, OthersThan;
      var t := pass.target;
      var names := PublishTagList(t.tags, digest);
      var tags: seq<string> := [];
      for n := 0 to |names|
        invariant tags == Qualified(t.pull, names[..n])
        invariant Read() == old(Read())
      {
        tags := tags + [t.pull + ":" + names[n]];
        assert names[..n + 1] == names[..n] + [names[n]];
      }
      assert names[..|names|] == names;
      var revision := digest;
      if t.tags != [] {
        revision := t.tags[0] + "@" + digest;
      }
      var history := RecordHistory(published.history, Some(BuildRecord(digest, tags, hash, None)), pass.limit);
      published := Status(Some(ArtifactStatus(digest, revision, t.pull + "@" + digest, tags)), hash,
                          history, None, pass.signed);
      buildRef := None;
      failures := 0;
      if attempt.Some? {
        attempt := Some(attempt.value.(finishedAt := Some(pass.now), succeeded := true));
      }
    }

    method RecordKept(c: TagConflict)
      modifies this
      ensures Read() == WithKept(old(Read()), c)
    {
      published := published.(conflict := Some(c));
      failures := 0;
      buildRef := None;
    }

    method StartBuild(cluster: Cluster, pass: Pass, hash: string) returns (o: Outcome)
      modifies this, cluster
      ensures forall reg :: (Machine(Read(), cluster.jobs, reg), o) ==
                Start(Machine(old(Read()), old(cluster.jobs), reg), pass, hash)
    {
      if pass.prepare.Some? {
        return Failing(pass.prepare.value);
      }
      var name := JobName(pass.name, hash);
      match pass.create {
        case CreateFails =>
          return Failing(Transient);
        case AlreadyExists =>
          // The Job is there, but not recorded.
          cluster.jobs := cluster.jobs[name := Running];
        case Created =>
          cluster.jobs := cluster.jobs[name := Running];
          buildRef := Some(name);
          attempt := Some(Attempt(hash, pass.now, None, false));
      }
      o := Done(pass.poll);
    }

    method ObserveJob(cluster: Cluster, repo: Repository, pass: Pass, hash: string) returns (o: Outcome)
      requires JobName(pass.name, hash) in cluster.jobs
      modifies this, cluster, repo
      ensures (Machine(Read(), cluster.jobs, repo.state), o)
           == Observe(Machine(old(Read()), old(cluster.jobs), old(repo.state)), pass, hash, old(repo.fuse))
    {
      hide Naming, NamingWrites, Wait, Landed, WithSuccess;
      var name := JobName(pass.name, hash);
      match cluster.jobs[name] {
        case Succeeded =>
          if pass.result.Err? {
            return Failing(pass.result.error);
          }
          var g := ApplyTags(repo, published.artifact, pass, pass.result.value);
          match g {
            case Blocked(k) =>
              return Failing(k);
            case Stop(c) =>
              RecordKept(c);
              return Done(pass.interval);
            case Proceed =>
              RecordSuccess(pass, hash, pass.result.value);
              if pass.exports.Some? {
                return Failing(pass.exports.value);
              }
              return Done(pass.interval);
          }
        case Failed =>
          if buildRef.Some? {
            // With no Job recorded, the next pass does not count this one again.
            buildRef := None;
            failures := failures + 1;
            if attempt.Some? {
              attempt := Some(attempt.value.(finishedAt := Some(pass.now)));
            }
          } else {
            var due := attempt.None? || attempt.value.finishedAt.None?;
            if !due {
              var wait := FailureBackoff(failures);
              due := pass.now >= attempt.value.finishedAt.value + wait;
            }
            if due && pass.deletes {
              cluster.jobs := cluster.jobs - {name};
            }
          }
          return Failing(Transient);
        case Running =>
          buildRef := Some(name);
          return Done(pass.poll);
      }
    }

    method ReconcileJob(cluster: Cluster, repo: Repository, pass: Pass) returns (o: Outcome)
      modifies this, cluster, repo
      ensures (Machine(Read(), cluster.jobs, repo.state), o)
           == Work(Machine(old(Read()), old(cluster.jobs), old(repo.state)), pass, old(repo.fuse))
    {
      hide StillThere, PreFlight, Observe, Start, JobName;
      if pass.lifecycle.Some? {
        return Failing(pass.lifecycle.value);
      }
      if pass.inputs.Err? {
        return Failing(pass.inputs.error);
      }
      var hash := pass.inputs.value;
      if published.artifact.Some? && published.inputHash == hash {
        var there := StillPublished(repo, published.artifact, pass);
        if there {
          if pass.exports.Some? {
            return Failing(pass.exports.value);
          }
          return Done(pass.interval);
        }
      }
      if pass.readJob.Some? {
        return Failing(pass.readJob.value);
      }
      if JobName(pass.name, hash) !in cluster.jobs {
        var g := CheckTagConflict(repo, published.artifact, pass);
        match g {
          case Blocked(k) =>
            return Failing(k);
          case Stop(c) =>
            RecordKept(c);
            return Done(pass.interval);
          case Proceed =>
        }
        o := StartBuild(cluster, pass, hash);
        return;
      }
      o := ObserveJob(cluster, repo, pass, hash);
    }

    method ApplyOutcome(o: Outcome)
      modifies this
      ensures Read() == Conclude(old(Read()), o)
    {
      match o {
        case Done(_) =>
          if buildRef.Some? {
            ready, reconciling, stalled := ReadyUnknown, true, false;
          } else {
            ready, reconciling, stalled := ReadyTrue, false, false;
          }
        case Failing(Terminal) =>
          ready, reconciling, stalled := ReadyFalse, false, true;
        case Failing(_) =>
          ready, reconciling, stalled := ReadyFalse, true, false;
      }
    }

    method Reconcile(cluster: Cluster, repo: Repository, pass: Pass) returns (requeue: Option<nat>)
      modifies this, cluster, repo
      ensures var r := Passed(Machine(old(Read()), old(cluster.jobs), old(repo.state)), pass, old(repo.fuse));
              Machine(Read(), cluster.jobs, repo.state) == r.0 && requeue == Requeue(r.1, r.0.s.failures)
    {
      hide Work, Wait, LearnedOf, MarkArtifact, Marked;
      if pass.configured && pass.access.None? {
        var artifact, history := BackfillDigestTags(repo, published.artifact, published.history, pass.replies,
                                                    pass.target.pull, OwnTag(pass.target.pull), pass.now);
        published := published.(artifact := artifact, history := history);
      }
      if pass.suspended {
        ready, reconciling := ReadyFalse, false;
        return None;
      }
      var o := ReconcileJob(cluster, repo, pass);
      ApplyOutcome(o);
      match o {
        case Done(after) => requeue := Some(after);
        case Failing(Terminal) => requeue := None;
        case Failing(Pending) => requeue := Some(PENDING_RETRY);
        case Failing(Transient) =>
          var wait := FailureBackoff(failures);
          requeue := Some(wait);
      }
    }
  }
}
