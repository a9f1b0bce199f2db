/** What the two controllers write to status is what the refresher reads back, in every state. */
module Written {
  import opened Strings
  import opened Registries
  import opened Tags
  import opened Statuses
  import opened Backfill
  import opened Retention
  import opened ClaimsKept
  import P = Published
  import C = Composer
  import B = Builder
  import R = Runs
  import V = Convergence

  /** A publication under a target: the spec's tags, and the digest's own. */
  function PublicationOf(t: Target, d: string): Publication {
    Publication(d, PublishTags(t.tags, d))
  }

  ghost predicate WellFormed(t: Target, d: string) {
    IsDigest(d) && SpecTags(t.tags) && '@' !in t.pull
  }

  lemma QualifiedWritten(pull: string, tag: string)
    requires '@' !in pull && ValidTag(tag)
    ensures WrittenAs(pull + ":" + tag, tag)
  {
    ValidTagChars(tag);
    var q := pull + ":" + tag;
    assert q[|pull|..] == ":" + tag;
  }

  lemma NamesValid(t: Target, d: string)
    requires WellFormed(t, d)
    ensures forall tag :: tag in PublishTags(t.tags, d) ==> ValidTag(tag)
    ensures PublishTags(t.tags, d) == t.tags + [DigestTag(d)]
  {
    hide DigestTag, ValidTag, IsDigest;
    DigestTagValid(d);
    if DigestTag(d) in t.tags {
      DigestTagIsNoSpecTag(d, DigestTag(d));
    }
    PublishTagsIs(t.tags, d);
  }

  lemma WroteQualified(pull: string, tags: seq<string>)
    requires '@' !in pull && forall tag :: tag in tags ==> ValidTag(tag)
    ensures WroteAs(tags, Qualified(pull, tags)) && WroteAs(tags, tags)
  {
    hide ValidTag, WrittenAs;
    forall i | 0 <= i < |tags|
      ensures ValidTag(tags[i]) && WrittenAs(Qualified(pull, tags)[i], tags[i]) && WrittenAs(tags[i], tags[i]) {
      assert tags[i] in tags;
      QualifiedWritten(pull, tags[i]);
      BareWritten(tags[i]);
    }
  }

  lemma BareWritten(tag: string)
    ensures WrittenAs(tag, tag)
  {
  }

  /** A composition's artifact, its records, and a build's artifact and records, each read back as
      the digest and every tag that was published; and the artifact a Keep records, as the digest kept
      and every tag of the spec, whatever those tags mean. */
  lemma StatusReadsBack(t: Target, d: string)
    requires WellFormed(t, d)
    ensures var p := PublicationOf(t, d);
            && RecordedAs(p, d, C.ArtifactFor(t, d, true).tags)
            && RecordedAs(p, d, PublishTags(t.tags, d))
            && RecordedAs(p, d, B.ArtifactOf(t, d).tags)
    ensures RecordedAs(Publication(d, t.tags), d, C.ArtifactFor(t, d, false).tags)
  {
    hide DigestTag, ValidTag, IsDigest, PublishTags, WroteAs, SpecTags;
    NamesValid(t, d);
    DigestTagValid(d);
    var names := PublishTags(t.tags, d);
    assert forall tag :: tag in t.tags ==> tag in names;
    WroteQualified(t.pull, names);
    WroteQualified(t.pull, t.tags);
    assert C.ArtifactFor(t, d, true).tags == Qualified(t.pull, names);
    assert C.ArtifactFor(t, d, false).tags == Qualified(t.pull, t.tags);
  }

  // ---------- The written form, in every state ----------

  /** The publication some names in status stand for. */
  function ReadBack(digest: string, names: seq<string>): Publication {
    Publication(digest, seq(|names|, i requires 0 <= i < |names| => BareTag(names[i])))
  }

  ghost predicate Reads(digest: string, names: seq<string>) {
    IsDigest(digest) && RecordedAs(ReadBack(digest, names), digest, names)
  }

  ghost predicate ReadsAll(artifact: Option<ArtifactStatus>, history: seq<BuildRecord>) {
    && (artifact.Some? ==> Reads(artifact.value.digest, artifact.value.tags))
    && forall r :: r in history ==> Reads(r.digest, r.tags)
  }

  function CurrentOf(artifact: Option<ArtifactStatus>): Option<Publication> {
    if artifact.Some? then Some(ReadBack(artifact.value.digest, artifact.value.tags)) else None
  }

  function PastOf(history: seq<BuildRecord>): seq<Publication> {
    seq(|history|, i requires 0 <= i < |history| => ReadBack(history[i].digest, history[i].tags))
  }

  /** What is read back is what was published. */
  lemma RecordedReads(p: Publication, names: seq<string>)
    requires IsDigest(p.digest) && RecordedAs(p, p.digest, names)
    ensures ReadBack(p.digest, names) == p && Reads(p.digest, names)
  {
    hide BareTag, ValidTag, WrittenAs, IsDigest;
    forall i | 0 <= i < |names| ensures BareTag(names[i]) == p.tags[i] {
      ReadsBack(names[i], p.tags[i]);
    }
    assert ReadBack(p.digest, names).tags == p.tags;
  }

  lemma ReadsMore(digest: string, names: seq<string>, name: string)
    requires Reads(digest, names) && WrittenAs(name, DigestTag(digest))
    ensures Reads(digest, names + [name])
  {
    hide BareTag, ValidTag, WrittenAs, IsDigest, DigestTag;
    DigestTagValid(digest);
    RecordedReads(Publication(digest, ReadBack(digest, names).tags + [DigestTag(digest)]), names + [name]);
  }

  /** A controller's way of writing a digest's own tag. */
  ghost predicate WritesOwn(tagFor: string -> string) {
    forall d :: IsDigest(d) ==> WrittenAs(tagFor(d), DigestTag(d))
  }

  lemma BothWriteOwn(pull: string)
    requires '@' !in pull
    ensures WritesOwn(DigestTag) && WritesOwn(B.OwnTag(pull))
  {
    hide DigestTag, IsDigest, WrittenAs;
    forall d | IsDigest(d)
      ensures WrittenAs(DigestTag(d), DigestTag(d)) && WrittenAs(pull + ":" + DigestTag(d), DigestTag(d)) {
      DigestTagValid(d);
      QualifiedWritten(pull, DigestTag(d));
      BareWritten(DigestTag(d));
    }
  }

  lemma MarkingReads(artifact: Option<ArtifactStatus>, history: seq<BuildRecord>, known: map<string, bool>,
                     pull: string, tagFor: string -> string, now: int)
    requires ReadsAll(artifact, history) && '@' !in pull && WritesOwn(tagFor)
    ensures ReadsAll(MarkArtifact(artifact, known, pull), Marked(history, known, DigestOf(artifact), tagFor, now))
  {
    hide HasDigestTag, DigestTag, WrittenAs, RecordedAs, IsDigest;
    if artifact.Some? {
      BothWriteOwn(pull);
      assert WrittenAs(B.OwnTag(pull)(artifact.value.digest), DigestTag(artifact.value.digest));
      ReadsMore(artifact.value.digest, artifact.value.tags, pull + ":" + DigestTag(artifact.value.digest));
    }
    var after := Marked(history, known, DigestOf(artifact), tagFor, now);
    forall r | r in after ensures Reads(r.digest, r.tags) {
      var i :| 0 <= i < |after| && after[i] == r;
      assert history[i] in history;
      ReadsMore(history[i].digest, history[i].tags, tagFor(history[i].digest));
    }
  }

  lemma RecordedKeepsReading(h: seq<BuildRecord>, record: Option<BuildRecord>, limit: int)
    requires forall r :: r in h ==> Reads(r.digest, r.tags)
    requires record.Some? ==> Reads(record.value.digest, record.value.tags)
    ensures forall r :: r in Recorded(h, record, limit) ==> Reads(r.digest, r.tags)
  {
    hide Reads;
    if record.Some? {
      OthersAre(h, record.value.digest, |h|);
    }
  }

  /** What the environment owes a pass of a composition and of a build, for status to be readable. */
  ghost predicate ReadableCompose(reg: Registry, pass: C.Pass) {
    && Sound(reg) && SpecTags(pass.target.tags) && '@' !in pass.target.pull
    && (pass.produced.Some? ==> IsDigest(pass.produced.value))
  }

  ghost predicate ReadableBuild(order: B.Pass) {
    && SpecTags(order.target.tags) && '@' !in order.target.pull
    && (order.result.Ok? ==> IsDigest(order.result.value))
  }

  lemma ComposeReads(w: C.World, pass: C.Pass, fuse: nat)
    requires ReadsAll(w.status.artifact, w.status.history) && ReadableCompose(w.reg, pass)
    ensures var st := C.Reconciled(w, pass, fuse).status;
            ReadsAll(st.artifact, st.history)
  {
    hide Reads, LearnedOf, MarkArtifact, Marked, C.Settled, Sound, SpecTags, DigestTag, IsDigest;
    var l := LearnedOf(w.reg, w.status.artifact, w.status.history, pass.replies);
    BothWriteOwn(pass.target.pull);
    MarkingReads(w.status.artifact, w.status.history, l.known, pass.target.pull, DigestTag, pass.now);
    AskingKeepsOwn(w.reg, w.status.artifact, w.status.history, pass.replies);
    SettledReads(C.Backfilled(w, pass), pass, fuse);
  }

  lemma SettledReads(b: C.World, pass: C.Pass, fuse: nat)
    requires ReadsAll(b.status.artifact, b.status.history) && ReadableCompose(b.reg, pass)
    ensures var st := C.Settled(b, pass, fuse).status;
            ReadsAll(st.artifact, st.history)
  {
    hide Reads, C.Decide, C.WritesOf, C.ArtifactFor, SpecTags, DigestTag, IsDigest, Recorded, PublishTags, Landed,
      C.Looked, P.InPlace,
      RecordedAs;
    V.DecisionMeans(b.reg, b.status, pass);
    var t := pass.target;
    match C.Decide(b.reg, b.status, pass) {
      case NameOnly(d) =>
        StatusReadsBack(t, d);
        RecordedReads(PublicationOf(t, d), C.ArtifactFor(t, d, true).tags);
      case Publish(d) =>
        StatusReadsBack(t, d);
        RecordedReads(PublicationOf(t, d), C.ArtifactFor(t, d, true).tags);
        RecordedReads(PublicationOf(t, d), PublishTags(t.tags, d));
        RecordedKeepsReading(b.status.history, Some(BuildRecord(d, PublishTags(t.tags, d), "", None)), pass.limit);
        ArtifactDigest(t, d);
      case KeepExisting(c, _) =>
        StatusReadsBack(t, c.current);
        RecordedReads(Publication(c.current, t.tags), C.ArtifactFor(t, c.current, false).tags);
        ArtifactDigest(t, c.current);
      case _ =>
    }
    RecordedKeepsReading(b.status.history, None, pass.limit);
    if pass.produced.Some? {
      ArtifactDigest(t, pass.produced.value);
    }
  }

  lemma ArtifactDigest(t: Target, d: string)
    ensures C.ArtifactFor(t, d, true).digest == d && C.ArtifactFor(t, d, false).digest == d
  {
  }

  lemma BuildReads(m: B.Machine, order: B.Pass, fuse: nat)
    requires ReadsAll(m.s.published.artifact, m.s.published.history) && ReadableBuild(order)
    ensures var st := B.Passed(m, order, fuse).0.s.published;
            ReadsAll(st.artifact, st.history)
  {
    hide Reads, LearnedOf, MarkArtifact, Marked, B.JobName, B.Observe, B.PreFlight, B.StillThere, B.OwnTag, SpecTags,
      IsDigest;
    var b, st := B.Backfilled(m, order), m.s.published;
    if order.configured && order.access.None? {
      BothWriteOwn(order.target.pull);
      MarkingReads(st.artifact, st.history, LearnedOf(m.reg, st.artifact, st.history, order.replies).known,
                   order.target.pull, B.OwnTag(order.target.pull), order.now);
    }
    assert ReadsAll(b.s.published.artifact, b.s.published.history);
    if order.inputs.Ok? && B.JobName(order.name, order.inputs.value) in b.jobs {
      ObserveReads(b, order, order.inputs.value, fuse);
    }
  }

  lemma ObserveReads(m: B.Machine, order: B.Pass, hash: string, fuse: nat)
    requires B.JobName(order.name, hash) in m.jobs
    requires ReadsAll(m.s.published.artifact, m.s.published.history) && ReadableBuild(order)
    ensures var st := B.Observe(m, order, hash, fuse).0.s.published;
            ReadsAll(st.artifact, st.history)
  {
    hide Reads, B.JobName, B.Naming, Landed, B.RetryDue, Recorded, SpecTags, IsDigest, RecordedAs, PublishTags;
    if order.result.Ok? {
      var t, d := order.target, order.result.value;
      var a := B.ArtifactOf(t, d);
      StatusReadsBack(t, d);
      RecordedReads(PublicationOf(t, d), a.tags);
      RecordedKeepsReading(m.s.published.history, Some(BuildRecord(d, a.tags, hash, None)), order.limit);
    }
  }

  // ---------- Whole runs ----------

  ghost predicate AllRead(w: R.World) {
    && (forall id :: id in w.comps ==> ReadsAll(w.comps[id].artifact, w.comps[id].history))
    && forall id :: id in w.builds ==> ReadsAll(w.builds[id].s.published.artifact, w.builds[id].s.published.history)
  }

  /** A public name is a host and a path: it holds no '@'. */
  predicate PublicNames(e: R.Step) {
    match e
    case Compose(_, pass, _) => '@' !in pass.target.pull
    case RunBuild(_, order, _, _) => '@' !in order.target.pull
    case _ => true
  }

  lemma StepReads(w: R.World, e: R.Step)
    requires Sound(w.reg) && AllRead(w) && Fair(w, e) && PublicNames(e)
    ensures AllRead(R.Next(w, e))
  {
    hide ReadsAll, Sound, SpecTags, IsDigest, C.Reconciled, B.Passed, ClaimsOwn;
    match e {
      case Compose(id, pass, fuse) =>
        if id in w.comps {
          ComposeReads(C.World(w.reg, w.comps[id]), pass, fuse);
        }
      case RunBuild(id, order, fuse, landed) =>
        if id in w.builds {
          BuildReads(B.Machine(w.builds[id].s, w.builds[id].jobs, w.reg), order, fuse);
        }
      case _ =>
    }
  }

  /** In every state of every run, the artifact and every record of every object stand for one
      publication each, so the references the refresher pulls for it are exactly their digests and
      tags in the repository written to. */
  lemma {:induction false} StatusAlwaysReadsBack(w: R.World, run: seq<R.Step>, n: nat)
    requires n <= |run| && Honest(w) && AllFair(w, run) && AllRead(w)
    requires forall e :: e in run ==> PublicNames(e)
    ensures AllRead(R.After(w, run, n))
  {
    hide Honest, AllRead, Fair, R.Next, PublicNames;
    if n > 0 {
      StatusAlwaysReadsBack(w, run, n - 1);
      StatusNeverOverClaims(w, run, n - 1);
      assert run[n - 1] in run;
      HonestIsSound(R.After(w, run, n - 1));
      StepReads(R.After(w, run, n - 1), run[n - 1]);
    }
  }

  lemma HonestIsSound(w: R.World)
    requires Honest(w)
    ensures Sound(w.reg)
  {
  }

  /** Read back so, status gives exactly the references of what it stands for. */
  lemma ReadIsRefreshed(repo: string, artifact: Option<ArtifactStatus>, history: seq<BuildRecord>)
    requires ReadsAll(artifact, history)
    ensures NoDuplicates(Refs(repo, artifact, history))
    ensures forall ref :: ref in Refs(repo, artifact, history) <==>
              AnyRef(repo, CurrentOf(artifact), PastOf(history), |history|, ref)
  {
    hide AnyRef, Refs, RecordedAs, IsDigest, NoDuplicates, ReadBack;
    forall i | 0 <= i < |history| ensures RecordedAs(PastOf(history)[i], history[i].digest, history[i].tags) {
      assert history[i] in history;
    }
    RefsAreExact(repo, artifact, history, CurrentOf(artifact), PastOf(history));
  }

  // ---------- What status claims is refreshed ----------

  predicate NoDigestRef(tags: seq<string>) {
    forall t :: t in tags ==> '@' !in t
  }

  lemma ClaimReadsBack(t: string, d: string)
    requires IsDigest(d) && Claims(t, DigestTag(d)) && '@' !in t
    ensures BareTag(t) == DigestTag(d)
  {
    hide DigestTag, IsDigest, ValidTag, BareTag;
    DigestTagValid(d);
    ReadsBack(t, DigestTag(d));
  }

  lemma {:induction false} QualifiedHere(repo: string, tags: seq<string>, n: nat, i: nat)
    requires i < n <= |tags|
    ensures Qualify(repo, tags[i]) in QualifyAll(repo, tags, n)
  {
    hide BareTag;
    if i < n - 1 {
      QualifiedHere(repo, tags, n - 1, i);
    }
  }

  lemma ClaimNamed(repo: string, tags: seq<string>, d: string)
    requires IsDigest(d) && HasDigestTag(tags, d) && NoDigestRef(tags)
    ensures repo + ":" + DigestTag(d) in NamesOf(repo, d, tags) && repo + "@" + d in NamesOf(repo, d, tags)
  {
    hide DigestTag, IsDigest, Claims, BareTag;
    var i :| 0 <= i < |tags| && Claims(tags[i], DigestTag(d));
    assert tags[i] in tags;
    ClaimReadsBack(tags[i], d);
    QualifiedHere(repo, tags, |tags|, i);
    DigestTagValid(d);
    BareTagOf("", DigestTag(d));
  }

  lemma {:induction false} MentionedHere(repo: string, artifact: Option<ArtifactStatus>, history: seq<BuildRecord>,
                                         n: nat, i: nat, ref: string)
    requires i < n <= |history| && ref in NamesOf(repo, history[i].digest, history[i].tags)
    ensures ref in Mentioned(repo, artifact, history, n)
  {
    hide NamesOf;
    if i < n - 1 {
      MentionedHere(repo, artifact, history, n - 1, i, ref);
    }
  }

  lemma {:induction false} ArtifactMentioned(repo: string, artifact: Option<ArtifactStatus>,
                                             history: seq<BuildRecord>, n: nat, ref: string)
    requires n <= |history| && artifact.Some? && ref in NamesOf(repo, artifact.value.digest, artifact.value.tags)
    ensures ref in Mentioned(repo, artifact, history, n)
  {
    hide NamesOf;
    if n > 0 {
      ArtifactMentioned(repo, artifact, history, n - 1, ref);
    }
  }

  /** Whatever own tag status claims, the refresher pulls that tag and the digest in the repository
      written to: what the lease keeps is what keeps status true. */
  lemma ClaimIsRefreshed(repo: string, st: Status, d: string)
    requires IsDigest(d) && ClaimsOwn(st, d)
    requires st.artifact.Some? ==> NoDigestRef(st.artifact.value.tags)
    requires forall r :: r in st.history ==> NoDigestRef(r.tags)
    ensures repo + ":" + DigestTag(d) in Refs(repo, st.artifact, st.history)
    ensures repo + "@" + d in Refs(repo, st.artifact, st.history)
  {
    hide DigestTag, IsDigest, HasDigestTag, NamesOf, NoDigestRef;
    var all := Mentioned(repo, st.artifact, st.history, |st.history|);
    var own, ref := repo + ":" + DigestTag(d), repo + "@" + d;
    if st.artifact.Some? && Mentions(st.artifact.value.tags, st.artifact.value.digest, d) {
      ClaimNamed(repo, st.artifact.value.tags, d);
      ArtifactMentioned(repo, st.artifact, st.history, |st.history|, own);
      ArtifactMentioned(repo, st.artifact, st.history, |st.history|, ref);
    } else {
      var i :| 0 <= i < |st.history| && Mentions(st.history[i].tags, st.history[i].digest, d);
      assert st.history[i] in st.history;
      ClaimNamed(repo, st.history[i].tags, d);
      MentionedHere(repo, st.artifact, st.history, |st.history|, i, own);
      MentionedHere(repo, st.artifact, st.history, |st.history|, i, ref);
    }
    DistinctIs(all, |all|);
    assert all[..|all|] == all;
    assert own[|repo|] == ':' && ref[|repo|] == '@';
  }
}
