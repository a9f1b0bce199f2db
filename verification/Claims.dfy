/** Status never over-claims: in every reachable state a digest's own tag claimed by an artifact or
    a history record exists and names that digest, so a moved tag strands no recorded build. */
module ClaimsKept {
  import opened Strings
  import opened Registries
  import opened Tags
  import opened Statuses
  import opened Backfill
  import opened Runs
  import P = Published
  import C = Composer
  import B = Builder
  import V = Convergence

  // ---------- The invariant ----------

  predicate Holds(reg: Registry, tags: seq<string>, d: string) {
    IsDigest(d) && (HasDigestTag(tags, d) ==> Resolves(reg, DigestTag(d), d))
  }

  ghost predicate Truthful(reg: Registry, st: Status) {
    && (st.artifact.Some? ==> Holds(reg, st.artifact.value.tags, st.artifact.value.digest))
    && forall r :: r in st.history ==> Holds(reg, r.tags, r.digest)
  }

  /** Every digest served is one, and every tag names something served. */
  ghost predicate Sound(reg: Registry) {
    Serves(reg) && forall d :: d in reg.manifests ==> IsDigest(d)
  }

  ghost predicate Honest(w: World) {
    && Sound(w.reg)
    && (forall id :: id in w.comps ==> Truthful(w.reg, w.comps[id]))
    && forall id :: id in w.builds ==> Truthful(w.reg, w.builds[id].s.published)
  }

  predicate Mentions(tags: seq<string>, digest: string, d: string) {
    digest == d && HasDigestTag(tags, d)
  }

  /** A status claims a digest's own tag. */
  predicate ClaimsOwn(st: Status, d: string) {
    || (st.artifact.Some? && Mentions(st.artifact.value.tags, st.artifact.value.digest, d))
    || exists i :: 0 <= i < |st.history| && Mentions(st.history[i].tags, st.history[i].digest, d)
  }

  ghost predicate SpecTags(tags: seq<string>) {
    forall t :: t in tags ==> SpecTag(t)
  }

  /** Digests are digests, and spec tags are not of the form kept for digests' own. */
  ghost predicate FairForms(e: Step) {
    match e
    case Compose(_, pass, _) => SpecTags(pass.target.tags) && (pass.produced.Some? ==> IsDigest(pass.produced.value))
    case RunBuild(_, order, _, _) => SpecTags(order.target.tags) && (order.result.Ok? ==> IsDigest(order.result.value))
    case Push(d) => IsDigest(d)
    case _ => true
  }

  /** The registry reclaims no tag that status claims. What it does with manifests that no tag names is
      its own affair. */
  ghost predicate SparesClaims(w: World, e: Step) {
    match e
    case Reclaim(d) =>
      && (forall id :: id in w.comps ==> !ClaimsOwn(w.comps[id], d))
      && forall id :: id in w.builds ==> !ClaimsOwn(w.builds[id].s.published, d)
    case Untag(t) =>
      && (forall id, d :: id in w.comps && ClaimsOwn(w.comps[id], d) ==> t != DigestTag(d))
      && forall id, d :: id in w.builds && ClaimsOwn(w.builds[id].s.published, d) ==> t != DigestTag(d)
    case _ => true
  }

  /** What the environment owes. */
  ghost predicate Fair(w: World, e: Step) {
    FairForms(e) && SparesClaims(w, e)
  }

  // ---------- What keeps claims true ----------

  /** Every digest's own tag that named it still does. */
  ghost predicate OwnKept(a: Registry, b: Registry) {
    forall d :: IsDigest(d) && Resolves(a, DigestTag(d), d) ==> Resolves(b, DigestTag(d), d)
  }

  lemma TruthfulKept(a: Registry, b: Registry, st: Status)
    requires OwnKept(a, b) && Truthful(a, st)
    ensures Truthful(b, st)
  {
    hide HasDigestTag, IsDigest, DigestTag;
  }

  lemma OwnKeptTrans(a: Registry, b: Registry, c: Registry)
    requires OwnKept(a, b) && OwnKept(b, c)
    ensures OwnKept(a, c)
  {
    hide IsDigest, DigestTag;
  }

  lemma AskingKeepsOwn(reg: Registry, artifact: Option<ArtifactStatus>, history: seq<BuildRecord>,
                       replies: nat -> Reply)
    requires Sound(reg)
    ensures OwnKept(reg, LearnedOf(reg, artifact, history, replies).reg)
    ensures Sound(LearnedOf(reg, artifact, history, replies).reg)
  {
    hide IsDigest, DigestTag, AfterAsking, Asks;
    var asks := Asks(artifact, history, |history|);
    var after := LearnedOf(reg, artifact, history, replies).reg;
    AskingKeepsManifests(reg, asks, replies, |asks|);
    forall d | IsDigest(d) && Resolves(reg, DigestTag(d), d) ensures Resolves(after, DigestTag(d), d) {
      AskingOnlyNames(reg, asks, replies, |asks|, DigestTag(d));
      var e := after.tags[DigestTag(d)];
      if e != d {
        DigestTagInjective(d, e);
      }
    }
    forall t | t in after.tags ensures after.tags[t] in after.manifests {
      AskingOnlyNames(reg, asks, replies, |asks|, t);
    }
  }

  /** Writes under spec tags and under the digest's own. */
  ghost predicate Proper(ws: seq<Write>, d: string) {
    forall i :: 0 <= i < |ws| ==>
      ws[i].digest == d && (ws[i].PutTag? ==> SpecTag(ws[i].tag) || ws[i].tag == DigestTag(d))
  }

  lemma LandedKeepsOwn(reg: Registry, ws: seq<Write>, fuse: nat, d: string)
    requires Sound(reg) && (ws != [] ==> Proper(ws, d) && IsDigest(d))
    ensures OwnKept(reg, Landed(reg, ws, fuse)) && Sound(Landed(reg, ws, fuse))
  {
    hide IsDigest, SpecTag, DigestTag;
    var n := if fuse < |ws| then fuse else |ws|;
    forall e | IsDigest(e) && Resolves(reg, DigestTag(e), e) ensures Resolves(Landed(reg, ws, fuse), DigestTag(e), e) {
      forall i | 0 <= i < |ws| && ws[i].PutTag? && ws[i].tag == DigestTag(e) ensures ws[i].digest == e {
        if SpecTag(ws[i].tag) {
          DigestTagIsNoSpecTag(e, ws[i].tag);
        } else {
          DigestTagInjective(d, e);
        }
      }
      ApplyKeeps(reg, ws, n, DigestTag(e), e);
    }
    ApplyServes(reg, ws, n);
    ApplyManifests(reg, ws, n, d);
  }

  lemma {:induction false} ApplyManifests(reg: Registry, ws: seq<Write>, n: nat, d: string)
    requires n <= |ws| && forall i :: 0 <= i < |ws| ==> ws[i].digest == d
    ensures ApplyTo(reg, ws, n).manifests == reg.manifests + if n == 0 then {} else {d}
  {
    if n > 0 {
      ApplyManifests(reg, ws, n - 1, d);
    }
  }

  lemma TagWritesProper(tags: seq<string>, d: string)
    requires SpecTags(tags)
    ensures Proper(TagWrites(PublishTags(tags, d), d), d)
  {
    hide SpecTag, DigestTag;
    PublishTagsIs(tags, d);
    var names := PublishTags(tags, d);
    forall i | 0 <= i < |names| ensures SpecTag(names[i]) || names[i] == DigestTag(d) {
      assert names[i] in names;
    }
  }

  // ---------- What a backfill marks ----------

  lemma BackfillTruthful(reg: Registry, st: Status, replies: nat -> Reply, pull: string, tagFor: string -> string,
                         now: int)
    requires Sound(reg) && Truthful(reg, st)
    ensures var l := LearnedOf(reg, st.artifact, st.history, replies);
            Truthful(l.reg, st.(artifact := MarkArtifact(st.artifact, l.known, pull),
                                history := Marked(st.history, l.known, DigestOf(st.artifact), tagFor, now)))
  {
    hide HasDigestTag, IsDigest, DigestTag, Asks, AfterAsking, NeedsDigestTag;
    var asks := Asks(st.artifact, st.history, |st.history|);
    var l := LearnedOf(reg, st.artifact, st.history, replies);
    AskingKeepsOwn(reg, st.artifact, st.history, replies);
    TruthfulKept(reg, l.reg, st);
    AllAreDigests(reg, st);
    AsksDigests(st.artifact, st.history, |st.history|);
    LearnedIsTrue(reg, asks, replies, |asks|);
    var history := Marked(st.history, l.known, DigestOf(st.artifact), tagFor, now);
    forall r | r in history ensures Holds(l.reg, r.tags, r.digest) {
      var i :| 0 <= i < |history| && history[i] == r;
      assert st.history[i] in st.history;
    }
  }

  lemma AllAreDigests(reg: Registry, st: Status)
    requires Truthful(reg, st)
    ensures AllDigests(st.artifact, st.history)
  {
    hide HasDigestTag, IsDigest, DigestTag;
  }

  // ---------- What a publish records ----------

  /** Spec tags, bare or qualified, claim no digest. */
  lemma SpecTagsClaimNothing(pull: string, tags: seq<string>, d: string)
    requires SpecTags(tags) && IsDigest(d)
    ensures !HasDigestTag(tags, d) && !HasDigestTag(Qualified(pull, tags), d)
  {
    hide IsDigest, DigestTag, SpecTag;
    var q := Qualified(pull, tags);
    DigestTagValid(d);
    forall i | 0 <= i < |tags| ensures !Claims(tags[i], DigestTag(d)) && !Claims(q[i], DigestTag(d)) {
      assert tags[i] in tags;
      DigestTagIsNoSpecTag(d, tags[i]);
      QualifiedClaims(pull, tags[i], DigestTag(d));
      BareClaims(tags[i], DigestTag(d));
    }
  }

  lemma BareClaims(t: string, own: string)
    requires ':' !in t
    ensures Claims(t, own) <==> t == own
  {
    QualifiedHasColon(t, own);
  }

  lemma QualifiedHasColon(t: string, own: string)
    ensures HasSuffix(t, ":" + own) ==> ':' in t
  {
    if HasSuffix(t, ":" + own) {
      assert t[|t| - |own| - 1] == ':';
    }
  }

  /** What a publish records holds once its own tag is in place. */
  lemma PublishedHolds(reg: Registry, pull: string, tags: seq<string>, d: string)
    requires IsDigest(d) && Resolves(reg, DigestTag(d), d)
    ensures Holds(reg, PublishTags(tags, d), d)
    ensures Holds(reg, Qualified(pull, PublishTags(tags, d)), d)
  {
    hide HasDigestTag;
  }

  lemma ArtifactHolds(reg: Registry, t: Target, d: string, own: bool)
    requires SpecTags(t.tags) && IsDigest(d) && (own ==> Resolves(reg, DigestTag(d), d))
    ensures Holds(reg, C.ArtifactFor(t, d, own).tags, d)
  {
    hide HasDigestTag, IsDigest, DigestTag, SpecTag;
    if !own {
      SpecTagsClaimNothing(t.pull, t.tags, d);
      assert Qualified(t.pull, t.tags) + [] == Qualified(t.pull, t.tags);
      assert t.tags == [] ==> Qualified(t.pull, t.tags) == [];
    }
  }

  lemma RecordedHolds(reg: Registry, h: seq<BuildRecord>, record: Option<BuildRecord>, limit: int)
    requires forall r :: r in h ==> Holds(reg, r.tags, r.digest)
    requires record.Some? ==> Holds(reg, record.value.tags, record.value.digest)
    ensures forall r :: r in Recorded(h, record, limit) ==> Holds(reg, r.tags, r.digest)
  {
    hide Holds;
    if record.Some? {
      OthersAre(h, record.value.digest, |h|);
    }
  }

  /** After a publish or a naming whose writes all landed, the digest has its own tag. */
  lemma OwnInPlace(reg: Registry, tags: seq<string>, d: string, fuse: nat, choice: C.Decision)
    requires choice in {C.NameOnly(d), C.Publish(d)} && |C.WritesOf(choice, tags)| <= fuse
    ensures Resolves(Landed(reg, C.WritesOf(choice, tags), fuse), DigestTag(d), d)
  {
    hide DigestTag;
    var ws := C.WritesOf(choice, tags);
    var n := |ws|;
    assert ws[n - 1] == PutTag(DigestTag(d), d);
    assert ApplyTo(reg, ws, n) == Apply(ApplyTo(reg, ws, n - 1), ws[n - 1]);
  }

  lemma ComposerWritesProper(reg: Registry, status: Status, pass: C.Pass, d: string)
    requires SpecTags(pass.target.tags) && (pass.produced.Some? ==> d == pass.produced.value)
    ensures Proper(C.WritesOf(C.Decide(reg, status, pass), pass.target.tags), d)
    ensures pass.produced.None? ==> C.WritesOf(C.Decide(reg, status, pass), pass.target.tags) == []
  {
    hide C.Decide, SpecTag, DigestTag, C.Looked;
    V.DecisionMeans(reg, status, pass);
    TagWritesProper(pass.target.tags, d);
  }

  lemma SettledTruthful(b: C.World, pass: C.Pass, fuse: nat)
    requires Sound(b.reg) && Truthful(b.reg, b.status)
    requires SpecTags(pass.target.tags) && (pass.produced.Some? ==> IsDigest(pass.produced.value))
    ensures var after := C.Settled(b, pass, fuse);
            Truthful(after.reg, after.status) && OwnKept(b.reg, after.reg) && Sound(after.reg)
  {
    hide C.Decide, C.WritesOf, Landed, SpecTag, DigestTag, C.Looked, IsDigest, OwnKept, Holds, C.ArtifactFor, Recorded,
      PublishTags,
      P.InPlace, Proper;
    var d := if pass.produced.Some? then pass.produced.value else "";
    var choice := C.Decide(b.reg, b.status, pass);
    var ws := C.WritesOf(choice, pass.target.tags);
    var after := C.Settled(b, pass, fuse);
    ComposerWritesProper(b.reg, b.status, pass, d);
    LandedKeepsOwn(b.reg, ws, fuse, d);
    TruthfulKept(b.reg, after.reg, b.status);
    V.DecisionMeans(b.reg, b.status, pass);
    var r := C.ResultOf(choice, b.status, pass);
    if r.Some? && |ws| <= fuse && pass.landed {
      ResultHolds(b, pass, fuse);
      RecordedHolds(after.reg, b.status.history, r.value.record, pass.limit);
    }
  }

  lemma ResultHolds(b: C.World, pass: C.Pass, fuse: nat)
    requires Sound(b.reg) && Truthful(b.reg, b.status)
    requires SpecTags(pass.target.tags) && (pass.produced.Some? ==> IsDigest(pass.produced.value))
    requires Truthful(C.Settled(b, pass, fuse).reg, b.status)
    requires |C.WritesOf(C.Decide(b.reg, b.status, pass), pass.target.tags)| <= fuse
    ensures var choice := C.Decide(b.reg, b.status, pass);
            (choice.ShortCut? ==> b.status.artifact.Some?)
    ensures var choice := C.Decide(b.reg, b.status, pass);
            var reg := C.Settled(b, pass, fuse).reg;
            var r := C.ResultOf(choice, b.status, pass);
            r.Some? ==> Holds(reg, r.value.artifact.tags, r.value.artifact.digest)
                        && (r.value.record.Some? ==> Holds(reg, r.value.record.value.tags, r.value.record.value.digest))
  {
    hide C.Decide, C.WritesOf, Landed, SpecTag, DigestTag, C.Looked, IsDigest, PublishTags, P.InPlace, Holds;
    V.DecisionMeans(b.reg, b.status, pass);
    var reg := C.Settled(b, pass, fuse).reg;
    match C.Decide(b.reg, b.status, pass) {
      case NameOnly(d) =>
        OwnInPlace(b.reg, pass.target.tags, d, fuse, C.NameOnly(d));
        ArtifactHolds(reg, pass.target, d, true);
      case Publish(d) =>
        OwnInPlace(b.reg, pass.target.tags, d, fuse, C.Publish(d));
        ArtifactHolds(reg, pass.target, d, true);
        PublishedHolds(reg, pass.target.pull, pass.target.tags, d);
      case KeepExisting(c, _) =>
        ArtifactHolds(reg, pass.target, c.current, false);
      case _ =>
    }
  }

  // ---------- A build's pass ----------

  lemma NamedOwn(reg: Registry, tags: seq<string>, d: string, fuse: nat)
    requires |TagWrites(PublishTags(tags, d), d)| <= fuse
    ensures Resolves(Landed(reg, TagWrites(PublishTags(tags, d), d), fuse), DigestTag(d), d)
  {
    hide DigestTag;
    var ws := TagWrites(PublishTags(tags, d), d);
    var n := |ws|;
    assert ws[n - 1] == PutTag(DigestTag(d), d);
    assert ApplyTo(reg, ws, n) == Apply(ApplyTo(reg, ws, n - 1), ws[n - 1]);
  }

  lemma SuccessTruthful(reg: Registry, s: B.BuildStatus, order: B.Pass, hash: string, d: string)
    requires Truthful(reg, s.published) && IsDigest(d) && Resolves(reg, DigestTag(d), d)
    ensures Truthful(reg, B.WithSuccess(s, order, hash, d).published)
  {
    hide DigestTag, IsDigest, Holds, PublishTags, Recorded;
    var a := B.ArtifactOf(order.target, d);
    PublishedHolds(reg, order.target.pull, order.target.tags, d);
    RecordedHolds(reg, s.published.history, Some(BuildRecord(d, a.tags, hash, None)), order.limit);
  }

  lemma ObserveTruthful(m: B.Machine, order: B.Pass, hash: string, fuse: nat)
    requires B.JobName(order.name, hash) in m.jobs
    requires Sound(m.reg) && Truthful(m.reg, m.s.published)
    requires SpecTags(order.target.tags) && (order.result.Ok? ==> IsDigest(order.result.value))
    ensures var after := B.Observe(m, order, hash, fuse).0;
            Truthful(after.reg, after.s.published) && OwnKept(m.reg, after.reg) && Sound(after.reg)
  {
    hide DigestTag, IsDigest, Holds, PublishTags, B.JobName, B.Naming, Landed, B.WithSuccess, B.RetryDue, Resolves,
      Proper, OwnKept;
    NothingKeepsOwn(m.reg);
    if order.result.Ok? {
      var d := order.result.value;
      var g := B.Naming(m.reg, m.s.published.artifact, order, d);
      var ws := B.NamingWrites(g, order.target.tags, d);
      var reg := Landed(m.reg, ws, fuse);
      TagWritesProper(order.target.tags, d);
      LandedKeepsOwn(m.reg, ws, fuse, d);
      TruthfulKept(m.reg, reg, m.s.published);
      if g.Proceed? && |ws| <= fuse {
        NamedOwn(m.reg, order.target.tags, d, fuse);
        SuccessTruthful(reg, m.s, order, hash, d);
      }
    }
  }

  lemma NothingKeepsOwn(reg: Registry)
    ensures OwnKept(reg, reg)
  {
  }

  lemma BuildTruthful(m: B.Machine, order: B.Pass, fuse: nat)
    requires Sound(m.reg) && Truthful(m.reg, m.s.published)
    requires SpecTags(order.target.tags) && (order.result.Ok? ==> IsDigest(order.result.value))
    ensures var after := B.Passed(m, order, fuse).0;
            Truthful(after.reg, after.s.published) && OwnKept(m.reg, after.reg) && Sound(after.reg)
  {
    hide Holds, LearnedOf, MarkArtifact, Marked, B.JobName, B.Observe, B.PreFlight, B.StillThere, Resolves, OwnKept,
      IsDigest, SpecTag;
    var b := B.Backfilled(m, order);
    NothingKeepsOwn(m.reg);
    NothingKeepsOwn(b.reg);
    if order.configured && order.access.None? {
      AskingKeepsOwn(m.reg, m.s.published.artifact, m.s.published.history, order.replies);
      BackfillTruthful(m.reg, m.s.published, order.replies, order.target.pull, B.OwnTag(order.target.pull), order.now);
    }
    assert Sound(b.reg) && Truthful(b.reg, b.s.published);
    if order.inputs.Ok? && B.JobName(order.name, order.inputs.value) in b.jobs {
      ObserveTruthful(b, order, order.inputs.value, fuse);
    }
    var after := B.Passed(m, order, fuse).0;
    OwnKeptTrans(m.reg, b.reg, after.reg);
  }

  lemma ComposeTruthful(w: C.World, pass: C.Pass, fuse: nat)
    requires Sound(w.reg) && Truthful(w.reg, w.status)
    requires SpecTags(pass.target.tags) && (pass.produced.Some? ==> IsDigest(pass.produced.value))
    ensures var after := C.Reconciled(w, pass, fuse);
            Truthful(after.reg, after.status) && OwnKept(w.reg, after.reg) && Sound(after.reg)
  {
    hide Holds, LearnedOf, MarkArtifact, Marked, C.Settled, OwnKept, Sound, IsDigest, SpecTag;
    var b := C.Backfilled(w, pass);
    AskingKeepsOwn(w.reg, w.status.artifact, w.status.history, pass.replies);
    BackfillTruthful(w.reg, w.status, pass.replies, pass.target.pull, DigestTag, pass.now);
    TruthfulKept(w.reg, b.reg, w.status);
    if !pass.suspended {
      SettledTruthful(b, pass, fuse);
      OwnKeptTrans(w.reg, b.reg, C.Settled(b, pass, fuse).reg);
    }
  }

  // ---------- Whole runs ----------

  lemma ReclaimTruthful(reg: Registry, st: Status, d: string)
    requires Truthful(reg, st) && !ClaimsOwn(st, d)
    ensures Truthful(Reclaimed(reg, d), st)
  {
    hide HasDigestTag, IsDigest, DigestTag;
    forall r | r in st.history ensures Holds(Reclaimed(reg, d), r.tags, r.digest) {
      var i :| 0 <= i < |st.history| && st.history[i] == r;
      assert !Mentions(st.history[i].tags, st.history[i].digest, d);
    }
  }

  lemma PushKeepsOwn(reg: Registry, d: string)
    ensures Sound(reg) && IsDigest(d) ==> OwnKept(reg, Apply(reg, PutManifest(d))) && Sound(Apply(reg, PutManifest(d)))
  {
    hide IsDigest, DigestTag;
  }

  lemma StepHonest(w: World, e: Step)
    requires Honest(w) && Fair(w, e)
    ensures Honest(Next(w, e))
  {
    hide C.Reconciled, B.Passed, Truthful, OwnKept, Sound, SpecTags, IsDigest, ClaimsOwn, Reclaimed, Collected, Apply;
    var after := Next(w, e);
    match e {
      case Compose(id, pass, fuse) =>
        if id in w.comps {
          ComposeTruthful(C.World(w.reg, w.comps[id]), pass, fuse);
          EveryClaimKept(w, after.reg);
        }
      case RunBuild(id, order, fuse, landed) =>
        if id in w.builds {
          var m := B.Machine(w.builds[id].s, w.builds[id].jobs, w.reg);
          BuildTruthful(m, order, fuse);
          EveryClaimKept(w, after.reg);
        }
      case JobEnds(id, job, state) =>
      case Push(d) =>
        PushKeepsOwn(w.reg, d);
        EveryClaimKept(w, after.reg);
      case Collect(d) =>
        CollectKeepsOwn(w.reg, d);
        EveryClaimKept(w, after.reg);
      case Untag(t) =>
        UntagSound(w.reg, t);
        forall id | id in w.comps ensures Truthful(after.reg, w.comps[id]) {
          UntagTruthful(w.reg, w.comps[id], t);
        }
        forall id | id in w.builds ensures Truthful(after.reg, w.builds[id].s.published) {
          UntagTruthful(w.reg, w.builds[id].s.published, t);
        }
      case Reclaim(d) =>
        ReclaimSound(w.reg, d);
        forall id | id in w.comps ensures Truthful(after.reg, w.comps[id]) {
          ReclaimTruthful(w.reg, w.comps[id], d);
        }
        forall id | id in w.builds ensures Truthful(after.reg, w.builds[id].s.published) {
          ReclaimTruthful(w.reg, w.builds[id].s.published, d);
        }
    }
  }

  lemma UntagTruthful(reg: Registry, st: Status, t: string)
    requires Truthful(reg, st) && forall d :: ClaimsOwn(st, d) ==> t != DigestTag(d)
    ensures Truthful(reg.(tags := reg.tags - {t}), st)
  {
    hide HasDigestTag, IsDigest, DigestTag;
    forall r | r in st.history ensures Holds(reg.(tags := reg.tags - {t}), r.tags, r.digest) {
      var i :| 0 <= i < |st.history| && st.history[i] == r;
      assert Mentions(st.history[i].tags, st.history[i].digest, r.digest) ==> ClaimsOwn(st, r.digest);
    }
    if st.artifact.Some? {
      var a := st.artifact.value;
      assert Mentions(a.tags, a.digest, a.digest) ==> ClaimsOwn(st, a.digest);
    }
  }

  lemma UntagSound(reg: Registry, t: string)
    ensures Sound(reg) ==> Sound(reg.(tags := reg.tags - {t}))
  {
    hide IsDigest;
  }

  lemma CollectKeepsOwn(reg: Registry, d: string)
    ensures OwnKept(reg, Collected(reg, d))
    ensures Sound(reg) ==> Sound(Collected(reg, d))
  {
    hide IsDigest, DigestTag;
    if Sound(reg) {
      forall t | t in reg.tags ensures reg.tags[t] in Collected(reg, d).manifests {
        assert reg.tags[t] == d ==> Tagged(reg, d);
      }
    }
  }

  lemma ReclaimSound(reg: Registry, d: string)
    ensures Sound(reg) ==> Sound(Reclaimed(reg, d))
  {
    hide IsDigest;
  }

  /** A step that keeps digests' own tags keeps every object's claims true. */
  lemma EveryClaimKept(w: World, after: Registry)
    requires Honest(w) && OwnKept(w.reg, after)
    ensures forall id :: id in w.comps ==> Truthful(after, w.comps[id])
    ensures forall id :: id in w.builds ==> Truthful(after, w.builds[id].s.published)
  {
    hide Truthful, OwnKept, Sound;
    forall id | id in w.comps ensures Truthful(after, w.comps[id]) {
      TruthfulKept(w.reg, after, w.comps[id]);
    }
    forall id | id in w.builds ensures Truthful(after, w.builds[id].s.published) {
      TruthfulKept(w.reg, after, w.builds[id].s.published);
    }
  }

  ghost predicate AllFair(w: World, run: seq<Step>) {
    forall n :: 0 <= n < |run| ==> Fair(After(w, run, n), run[n])
  }

  /** In every state of every run, what status claims is there: a digest's own tag claimed by an
      artifact or by a history record resolves to that digest. */
  lemma {:induction false} StatusNeverOverClaims(w: World, run: seq<Step>, n: nat)
    requires n <= |run| && Honest(w) && AllFair(w, run)
    ensures Honest(After(w, run, n))
  {
    hide Honest, Fair, Next;
    if n > 0 {
      StatusNeverOverClaims(w, run, n - 1);
      StepHonest(After(w, run, n - 1), run[n - 1]);
    }
  }

  // ---------- Nothing recorded is stranded ----------

  /** Every build in the history claims its digest's own tag. */
  ghost predicate AllClaimed(history: seq<BuildRecord>) {
    forall r :: r in history ==> HasDigestTag(r.tags, r.digest)
  }

  ghost predicate EveryBuildClaimed(w: World) {
    && (forall id :: id in w.comps ==> AllClaimed(w.comps[id].history))
    && forall id :: id in w.builds ==> AllClaimed(w.builds[id].s.published.history)
  }

  lemma MarkedClaimed(history: seq<BuildRecord>, known: map<string, bool>, current: Option<string>,
                      tagFor: string -> string, now: int)
    requires AllClaimed(history)
    ensures Marked(history, known, current, tagFor, now) == history
  {
    hide HasDigestTag;
    assert forall i :: 0 <= i < |history| ==> history[i] in history;
  }

  lemma RecordedClaimed(h: seq<BuildRecord>, record: Option<BuildRecord>, limit: int)
    requires AllClaimed(h) && (record.Some? ==> HasDigestTag(record.value.tags, record.value.digest))
    ensures AllClaimed(Recorded(h, record, limit))
  {
    hide HasDigestTag;
    if record.Some? {
      OthersAre(h, record.value.digest, |h|);
    }
  }

  lemma StepClaimed(w: World, e: Step)
    requires EveryBuildClaimed(w)
    ensures EveryBuildClaimed(Next(w, e))
  {
    hide AllClaimed, HasDigestTag, LearnedOf, MarkArtifact, Marked, C.Decide, Landed, B.Naming, B.PreFlight,
      B.StillThere,
      B.JobName, B.RetryDue, Recorded, PublishTags, C.ArtifactFor;
    match e {
      case Compose(id, pass, fuse) =>
        if id in w.comps {
          var h := w.comps[id].history;
          var l := LearnedOf(w.reg, w.comps[id].artifact, h, pass.replies);
          MarkedClaimed(h, l.known, DigestOf(w.comps[id].artifact), DigestTag, pass.now);
          var b := C.Backfilled(C.World(w.reg, w.comps[id]), pass);
          RecordedClaimed(h, None, pass.limit);
          var choice := C.Decide(b.reg, b.status, pass);
          if choice.Publish? {
            V.PublishedClaims(pass.target, choice.digest);
            RecordedClaimed(h, Some(BuildRecord(choice.digest, PublishTags(pass.target.tags, choice.digest), "", None)),
                            pass.limit);
          }
        }
      case RunBuild(id, order, fuse, landed) =>
        if id in w.builds {
          var m := B.Machine(w.builds[id].s, w.builds[id].jobs, w.reg);
          BuildClaimed(m, order, fuse);
        }
      case _ =>
    }
  }

  lemma BuildClaimed(m: B.Machine, order: B.Pass, fuse: nat)
    requires AllClaimed(m.s.published.history)
    ensures AllClaimed(B.Passed(m, order, fuse).0.s.published.history)
  {
    hide AllClaimed, LearnedOf, MarkArtifact, Marked, B.Work, B.OwnTag;
    var h := m.s.published.history;
    var l := LearnedOf(m.reg, m.s.published.artifact, h, order.replies);
    MarkedClaimed(h, l.known, DigestOf(m.s.published.artifact), B.OwnTag(order.target.pull), order.now);
    WorkClaimed(B.Backfilled(m, order), order, fuse);
  }

  lemma WorkClaimed(m: B.Machine, order: B.Pass, fuse: nat)
    requires AllClaimed(m.s.published.history)
    ensures AllClaimed(B.Work(m, order, fuse).0.s.published.history)
  {
    hide AllClaimed, B.PreFlight, B.Converged, B.JobName, B.Observe;
    if order.inputs.Ok? && B.JobName(order.name, order.inputs.value) in m.jobs {
      ObserveClaimed(m, order, order.inputs.value, fuse);
    }
  }

  lemma ObserveClaimed(m: B.Machine, order: B.Pass, hash: string, fuse: nat)
    requires B.JobName(order.name, hash) in m.jobs && AllClaimed(m.s.published.history)
    ensures AllClaimed(B.Observe(m, order, hash, fuse).0.s.published.history)
  {
    hide AllClaimed, HasDigestTag, Landed, B.Naming, B.NamingWrites, B.JobName, B.RetryDue, Recorded, PublishTags;
    if order.result.Ok? {
      var d, t := order.result.value, order.target;
      V.QualifiedClaimed(t.pull, t.tags, d);
      RecordedClaimed(m.s.published.history,
                      Some(BuildRecord(d, Qualified(t.pull, PublishTags(t.tags, d)), hash, None)), order.limit);
    }
  }

  lemma {:induction false} RunClaimed(w: World, run: seq<Step>, n: nat)
    requires n <= |run| && EveryBuildClaimed(w)
    ensures EveryBuildClaimed(After(w, run, n))
  {
    hide EveryBuildClaimed, Next;
    if n > 0 {
      RunClaimed(w, run, n - 1);
      StepClaimed(After(w, run, n - 1), run[n - 1]);
    }
  }

  /** The registry still serves the digest, under its own tag. */
  predicate StillNamed(reg: Registry, d: string) {
    d in reg.manifests && Resolves(reg, DigestTag(d), d)
  }

  /** Objects that start with nothing published: however their passes go, however often a tag is moved
      by Overwrite, and although the registry drops a manifest that loses its last tag, every build in
      every history is still served and still has a name. */
  lemma NoBuildIsStranded(w: World, run: seq<Step>, n: nat)
    requires n <= |run| && Sound(w.reg) && AllFair(w, run)
    requires forall id :: id in w.comps ==> w.comps[id].artifact.None? && w.comps[id].history == []
    requires forall id :: id in w.builds ==>
               w.builds[id].s.published.artifact.None? && w.builds[id].s.published.history == []
    ensures var after := After(w, run, n);
            && (forall id, r :: id in after.comps && r in after.comps[id].history ==> StillNamed(after.reg, r.digest))
            && forall id, r :: id in after.builds && r in after.builds[id].s.published.history ==>
                 StillNamed(after.reg, r.digest)
  {
    hide After, HasDigestTag, DigestTag, IsDigest, AllFair;
    StatusNeverOverClaims(w, run, n);
    RunClaimed(w, run, n);
  }
}
