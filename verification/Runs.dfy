/** Whole runs of many objects publishing into one repository, with crashes at any write, Jobs
    pushing by digest, lost status writes, and the registry reclaiming what it likes in between:
    a tag is never remeaned, and status never claims a name the registry does not have. */
module Runs {
  import opened Strings
  import opened Registries
  import opened Tags
  import opened Statuses
  import opened Backfill
  import P = Published
  import C = Composer
  import B = Builder
  import V = Convergence

  datatype Build = Build(s: B.BuildStatus, jobs: map<string, B.JobState>)

  datatype World = World(reg: Registry, comps: map<string, Status>, builds: map<string, Build>)

  /** One pass of one object, a Job ending, a push by digest, the registry reclaiming a digest with
      its tags, or one tag, or the registry dropping a manifest no tag names: at once when its last tag moves, as
      zot does, or later, when its collector takes what is untagged. */
  datatype Step =
    | Compose(id: string, pass: C.Pass, fuse: nat)
    | RunBuild(id: string, order: B.Pass, fuse: nat, landed: bool)
    | JobEnds(id: string, job: string, state: B.JobState)
    | Push(digest: string)
    | Reclaim(digest: string)
    | Untag(tag: string)
    | Collect(digest: string)

  function Reclaimed(reg: Registry, d: string): Registry {
    Registry(reg.manifests - {d}, map t | t in reg.tags && reg.tags[t] != d :: reg.tags[t])
  }

  /** A tag names the digest. */
  predicate Tagged(reg: Registry, d: string) {
    exists t :: t in reg.tags && reg.tags[t] == d
  }

  function Collected(reg: Registry, d: string): Registry {
    if Tagged(reg, d) then reg else reg.(manifests := reg.manifests - {d})
  }

  function BuildAfter(w: World, e: Step): B.Machine
    requires e.RunBuild? && e.id in w.builds
  {
    B.Passed(B.Machine(w.builds[e.id].s, w.builds[e.id].jobs, w.reg), e.order, e.fuse).0
  }

  function Next(w: World, e: Step): World {
    match e
    case Compose(id, pass, fuse) =>
      if id !in w.comps then w
      else
        var after := C.Reconciled(C.World(w.reg, w.comps[id]), pass, fuse);
        w.(reg := after.reg, comps := w.comps[id := after.status])
    case RunBuild(id, order, fuse, landed) =>
      if id !in w.builds then w
      else
        var after := BuildAfter(w, e);
        w.(reg := after.reg, builds := w.builds[id := Build(if landed then after.s else w.builds[id].s, after.jobs)])
    case JobEnds(id, job, state) =>
      if id !in w.builds then w
      else w.(builds := w.builds[id := w.builds[id].(jobs := w.builds[id].jobs[job := state])])
    case Push(d) => w.(reg := Apply(w.reg, PutManifest(d)))
    case Reclaim(d) => w.(reg := Reclaimed(w.reg, d))
    case Untag(t) => w.(reg := w.reg.(tags := w.reg.tags - {t}))
    case Collect(d) => w.(reg := Collected(w.reg, d))
  }

  function After(w: World, run: seq<Step>, n: nat): World
    requires n <= |run|
  {
    if n == 0 then w else Next(After(w, run, n - 1), run[n - 1])
  }

  /** A manifest that loses its last tag in the middle of a pass may as well go after the pass: the
      writes still to come are of another digest, and neither bring it back nor depend on it. */
  lemma {:induction false} DropCommutes(reg: Registry, ws: seq<Write>, n: nat, e: string)
    requires n <= |ws| && !Tagged(reg, e) && forall i :: 0 <= i < |ws| ==> ws[i].digest != e
    ensures !Tagged(ApplyTo(reg, ws, n), e)
    ensures ApplyTo(Collected(reg, e), ws, n) == Collected(ApplyTo(reg, ws, n), e)
  {
    if n > 0 {
      DropCommutes(reg, ws, n - 1, e);
      var before, w := ApplyTo(reg, ws, n - 1), ws[n - 1];
      assert before.manifests - {e} + {w.digest} == before.manifests + {w.digest} - {e};
    }
  }

  // ---------- A tag is never remeaned ----------

  predicate Spares(t: string, tags: seq<string>, policy: Policy) {
    t in tags ==> policy != Overwrite
  }

  /** No pass may move the tag under Overwrite, and the registry keeps both it and what it names. */
  predicate Respects(t: string, d: string, e: Step) {
    match e
    case Compose(_, pass, _) => Spares(t, pass.target.tags, pass.target.policy)
    case RunBuild(_, order, _, _) => Spares(t, order.target.tags, order.target.policy)
    case Reclaim(lost) => lost != d
    case Untag(lost) => lost != t
    case _ => true
  }

  /** Every write to the tag would put the digest it has. */
  predicate Harmless(ws: seq<Write>, t: string, d: string) {
    forall i :: 0 <= i < |ws| && ws[i].PutTag? && ws[i].tag == t ==> ws[i].digest == d
  }

  lemma LandedHarmless(reg: Registry, ws: seq<Write>, fuse: nat, t: string, d: string)
    requires Resolves(reg, t, d) && Harmless(ws, t, d)
    ensures Resolves(Landed(reg, ws, fuse), t, d)
  {
    ApplyKeeps(reg, ws, if fuse < |ws| then fuse else |ws|, t, d);
  }

  lemma ComposerHarmless(reg: Registry, status: Status, pass: C.Pass, t: string, d: string)
    requires SpecTag(t) && Resolves(reg, t, d) && Spares(t, pass.target.tags, pass.target.policy)
    ensures Harmless(C.WritesOf(C.Decide(reg, status, pass), pass.target.tags), t, d)
  {
    hide C.Decide, DigestTag, SpecTag, C.Looked, P.InPlace;
    V.DecisionMeans(reg, status, pass);
    match C.Decide(reg, status, pass) {
      case NameOnly(digest) =>
        DigestTagIsNoSpecTag(digest, t);
      case Publish(digest) =>
        DigestTagIsNoSpecTag(digest, t);
        PublishTagsIs(pass.target.tags, digest);
        WritesHarmless(PublishTags(pass.target.tags, digest), digest, t, d);
        var ws := TagWrites(PublishTags(pass.target.tags, digest), digest);
        assert forall i :: 0 < i < |ws| + 1 ==> ([PutManifest(digest)] + ws)[i] == ws[i - 1];
      case _ =>
    }
  }

  lemma WritesHarmless(names: seq<string>, digest: string, t: string, d: string)
    requires t in names ==> digest == d
    ensures Harmless(TagWrites(names, digest), t, d)
  {
    var ws := TagWrites(names, digest);
    forall i | 0 <= i < |ws| && ws[i].tag == t ensures ws[i].digest == d {
      assert names[i] in names;
    }
  }

  lemma BuilderHarmless(reg: Registry, artifact: Option<ArtifactStatus>, order: B.Pass, digest: string, t: string,
                        d: string)
    requires SpecTag(t) && Resolves(reg, t, d) && Spares(t, order.target.tags, order.target.policy)
    ensures Harmless(B.NamingWrites(B.Naming(reg, artifact, order, digest), order.target.tags, digest), t, d)
  {
    hide DigestTag, SpecTag, P.FirstConflict, P.Resolved, PublishTags;
    var tags := order.target.tags;
    P.ConflictExactly(reg, tags, tags, DigestOf(artifact), digest);
    DigestTagIsNoSpecTag(digest, t);
    PublishTagsIs(tags, digest);
    if t in tags && B.Naming(reg, artifact, order, digest).Proceed? {
      assert !P.TakenFrom(reg, t, digest);
    }
    if B.Naming(reg, artifact, order, digest).Proceed? {
      WritesHarmless(PublishTags(tags, digest), digest, t, d);
    }
  }

  lemma AskingSpares(reg: Registry, artifact: Option<ArtifactStatus>, history: seq<BuildRecord>,
                     replies: nat -> Reply, t: string, d: string)
    requires SpecTag(t) && Resolves(reg, t, d)
    ensures Resolves(LearnedOf(reg, artifact, history, replies).reg, t, d)
  {
    hide SpecTag, DigestTag, Asks, AfterAsking;
    var asks := Asks(artifact, history, |history|);
    var after := LearnedOf(reg, artifact, history, replies).reg;
    AskingOnlyNames(reg, asks, replies, |asks|, t);
    DigestTagIsNoSpecTag(after.tags[t], t);
  }

  lemma BuildSpares(m: B.Machine, order: B.Pass, fuse: nat, t: string, d: string)
    requires SpecTag(t) && Resolves(m.reg, t, d) && Spares(t, order.target.tags, order.target.policy)
    ensures Resolves(B.Passed(m, order, fuse).0.reg, t, d)
  {
    hide SpecTag, LearnedOf, B.Naming, B.NamingWrites, Landed, B.StillThere, B.PreFlight, B.WithSuccess, B.JobName,
      B.WithKept, B.WithFailure, B.RetryDue, MarkArtifact, Marked, Spares, Resolves;
    if order.configured && order.access.None? {
      AskingSpares(m.reg, m.s.published.artifact, m.s.published.history, order.replies, t, d);
    }
    var b := B.Backfilled(m, order);
    if order.result.Ok? {
      var g := B.Naming(b.reg, b.s.published.artifact, order, order.result.value);
      BuilderHarmless(b.reg, b.s.published.artifact, order, order.result.value, t, d);
      LandedHarmless(b.reg, B.NamingWrites(g, order.target.tags, order.result.value), fuse, t, d);
    }
  }

  lemma ComposeSpares(w: C.World, pass: C.Pass, fuse: nat, t: string, d: string)
    requires SpecTag(t) && Resolves(w.reg, t, d) && Spares(t, pass.target.tags, pass.target.policy)
    ensures Resolves(C.Reconciled(w, pass, fuse).reg, t, d)
  {
    hide SpecTag, LearnedOf, C.Decide, C.WritesOf, Landed, MarkArtifact, Marked, Spares, Resolves;
    AskingSpares(w.reg, w.status.artifact, w.status.history, pass.replies, t, d);
    var b := C.Backfilled(w, pass);
    ComposerHarmless(b.reg, b.status, pass, t, d);
    LandedHarmless(b.reg, C.WritesOf(C.Decide(b.reg, b.status, pass), pass.target.tags), fuse, t, d);
  }

  /** In any run, a spec tag that resolves to a digest resolves to that digest afterwards, as long
      as no pass that names the tag runs under Overwrite and the registry keeps the digest. */
  lemma {:induction false} TagNeverRemeaned(w: World, run: seq<Step>, n: nat, t: string, d: string)
    requires n <= |run| && SpecTag(t) && Resolves(w.reg, t, d)
    requires forall e :: e in run ==> Respects(t, d, e)
    ensures Resolves(After(w, run, n).reg, t, d)
  {
    hide SpecTag, C.Reconciled, B.Passed;
    if n > 0 {
      TagNeverRemeaned(w, run, n - 1, t, d);
      var before, e := After(w, run, n - 1), run[n - 1];
      assert e in run;
      match e {
        case Compose(id, pass, fuse) =>
          if id in before.comps {
            ComposeSpares(C.World(before.reg, before.comps[id]), pass, fuse, t, d);
          }
        case RunBuild(id, order, fuse, landed) =>
          if id in before.builds {
            BuildSpares(B.Machine(before.builds[id].s, before.builds[id].jobs, before.reg), order, fuse, t, d);
          }
        case _ =>
      }
    }
  }

  /** A pass that meets a taken tag under Fail or Keep writes nothing, and a refusal also leaves
      status as the backfill left it. */
  lemma TakenTagStopsThePass(b: C.World, pass: C.Pass, fuse: nat, t: string)
    requires t in pass.target.tags && pass.produced.Some? && P.TakenFrom(b.reg, t, pass.produced.value)
    requires pass.target.policy != Overwrite
    ensures C.Settled(b, pass, fuse).reg == b.reg
    ensures pass.target.policy == Fail && C.Decide(b.reg, b.status, pass) != C.ShortCut ==>
              C.Settled(b, pass, fuse) == b
    ensures pass.target.policy == Keep && pass.landed && C.Decide(b.reg, b.status, pass) != C.ShortCut ==>
              var after := C.Settled(b, pass, fuse).status;
              && after.history == b.status.history && after.conflict.Some? && after.artifact.Some?
              && after.conflict.value.dropped == pass.produced.value
              && after.conflict.value.tag in pass.target.tags
              && Resolves(b.reg, after.conflict.value.tag, after.artifact.value.digest)
  {
    hide C.Decide, C.Looked, DigestTag, Apply;
    V.DecisionMeans(b.reg, b.status, pass);
    V.LookedIncludes(b.status.artifact, pass.target.tags);
  }
}
