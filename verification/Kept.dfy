/** What onConflict: Keep leaves in status, and what the next pass makes of it. */
module Kept {
  import opened Strings
  import opened Registries
  import opened Tags
  import opened Statuses
  import opened Backfill
  import opened ClaimsKept
  import P = Published
  import C = Composer
  import R = Runs
  import V = Convergence

  predicate AttestsNothing(a: Attestor) {
    !a.sbom && !a.provenance && !a.key
  }

  predicate AllAt(reg: Registry, tags: seq<string>, d: string) {
    forall t :: t in tags ==> Resolves(reg, t, d)
  }

  predicate SameTags(a: Registry, b: Registry, tags: seq<string>) {
    forall t :: t in tags ==> V.SameAt(a, b, t)
  }

  /** A backfill serves what was served and leaves every spec tag alone. */
  lemma BackfillSparesSpec(w: C.World, pass: C.Pass, tags: seq<string>)
    requires SpecTags(tags)
    ensures C.Backfilled(w, pass).reg.manifests == w.reg.manifests
    ensures SameTags(w.reg, C.Backfilled(w, pass).reg, tags)
  {
    hide SpecTag, DigestTag, Asks, AfterAsking, MarkArtifact, Marked;
    var asks := Asks(w.status.artifact, w.status.history, |w.status.history|);
    var after := C.Backfilled(w, pass).reg;
    AskingKeepsManifests(w.reg, asks, pass.replies, |asks|);
    forall t | t in tags ensures V.SameAt(w.reg, after, t) {
      AskingOnlyNames(w.reg, asks, pass.replies, |asks|, t);
      if t in after.tags {
        DigestTagIsNoSpecTag(after.tags[t], t);
      }
    }
  }

  /** The first conflict depends only on what the spec's tags mean. */
  lemma {:induction false} SameConflict(p: P.State, q: P.State, tags: seq<string>, d: string, k: nat)
    requires k <= |tags|
    requires forall t :: t in tags ==> (t in p.tags <==> t in q.tags) && (t in p.tags ==> p.tags[t] == q.tags[t])
    ensures P.FirstConflict(p, tags, d, k) == P.FirstConflict(q, tags, d, k)
    decreases |tags| - k
  {
    if k < |tags| {
      assert tags[k] in tags;
      SameConflict(p, q, tags, d, k + 1);
    }
  }

  lemma ConflictCarries(a: Registry, b: Registry, asked: seq<string>, asked': seq<string>, tags: seq<string>,
                        prev: Option<string>, prev': Option<string>, d: string)
    requires SameTags(a, b, tags) && forall t :: t in tags ==> t in asked && t in asked'
    ensures P.FirstConflict(P.Resolved(a, asked, prev), tags, d, 0) ==
            P.FirstConflict(P.Resolved(b, asked', prev'), tags, d, 0)
  {
    hide P.ResolvedTags, P.FirstConflict;
    P.ResolvedTagsAre(a, asked, |asked|);
    P.ResolvedTagsAre(b, asked', |asked'|);
    assert asked[..|asked|] == asked && asked'[..|asked'|] == asked';
    forall t | t in tags ensures V.SameAt(a, b, t) && t in asked && t in asked' {
    }
    SameConflict(P.Resolved(a, asked, prev), P.Resolved(b, asked', prev'), tags, d, 0);
  }

  /** When the whole list, own tag included once claimed, is published: when the spec's tags are. */
  lemma LookedInPlace(reg: Registry, st: Status, tags: seq<string>, e: string)
    requires Sound(reg) && Truthful(reg, st) && DigestOf(st.artifact) == Some(e) && e in reg.manifests
    ensures P.InPlace(reg, C.Looked(st.artifact, tags), e) <==> AllAt(reg, tags, e)
  {
    hide HasDigestTag, DigestTag, IsDigest, PublishTags;
    PublishTagsIs(tags, e);
  }

  /** What a landed Keep leaves: nothing written, the existing digest reported, the clash recorded. */
  lemma KeptState(b: C.World, pass: C.Pass, fuse: nat, c: P.Clash, d: string)
    requires C.Decide(b.reg, b.status, pass) == C.KeepExisting(c, d) && pass.landed
    ensures var w := C.Settled(b, pass, fuse);
            && w.reg == b.reg && w.status.artifact == Some(C.ArtifactFor(pass.target, c.current, false))
            && w.status.inputHash == pass.inputHash && w.status.attested == None
            && w.status.conflict == Some(TagConflict(c.tag, c.current, d))
  {
    hide C.Decide;
    LandedFew(b.reg, PutManifest(d), fuse);
  }

  /** The pass after a landed Keep, with nothing changed, takes the short cut, and so clears the
      recorded conflict, exactly when no attestation is enabled and every tag of the spec already
      resolved to the kept digest. Otherwise it keeps again and records the same conflict. */
  lemma KeptConflictNextPass(b: C.World, pass: C.Pass, fuse: nat, next: C.Pass, fuse': nat, c: P.Clash, d: string)
    requires NoDuplicates(pass.target.tags) && SpecTags(pass.target.tags) && IsDigest(d)
    requires Sound(b.reg) && Truthful(b.reg, b.status)
    requires C.Decide(b.reg, b.status, pass) == C.KeepExisting(c, d) && pass.landed
    requires V.Retries(next, pass, d) && next.landed
    ensures var w := C.Settled(b, pass, fuse);
            var bn := C.Backfilled(w, next);
            var clears := AttestsNothing(pass.attestor) && AllAt(b.reg, pass.target.tags, c.current);
            && w.status.conflict == Some(TagConflict(c.tag, c.current, d))
            && C.Decide(bn.reg, bn.status, next) == (if clears then C.ShortCut else C.KeepExisting(c, d))
            && C.Reconciled(w, next, fuse').status.conflict == (if clears then None else w.status.conflict)
  {
    hide C.Decide, C.Settled, C.Backfilled, Sound, Truthful, SpecTags, NoDuplicates, IsDigest, AllAt;
    var w := C.Settled(b, pass, fuse);
    KeptState(b, pass, fuse, c, d);
    V.DecisionMeans(b.reg, b.status, pass);
    SettledTruthful(b, pass, fuse);
    NextMeets(b, pass, w, next, c, d);
    var bn := C.Backfilled(w, next);
    NextDecides(b, pass, bn, next, c, d);
    ConflictAfter(bn, next, fuse', c, d);
  }

  /** What the next pass's backfill hands on. */
  lemma NextMeets(b: C.World, pass: C.Pass, w: C.World, next: C.Pass, c: P.Clash, d: string)
    requires SpecTags(pass.target.tags) && V.Retries(next, pass, d)
    requires w.reg == b.reg && Sound(w.reg) && Truthful(w.reg, w.status)
    requires w.status.artifact == Some(C.ArtifactFor(pass.target, c.current, false))
    requires w.status.inputHash == pass.inputHash && w.status.attested == None
    ensures var bn := C.Backfilled(w, next);
            && Sound(bn.reg) && Truthful(bn.reg, bn.status)
            && DigestOf(bn.status.artifact) == Some(c.current)
            && bn.status.inputHash == pass.inputHash && bn.status.attested == None
            && bn.reg.manifests == b.reg.manifests && SameTags(b.reg, bn.reg, pass.target.tags)
  {
    hide Sound, Truthful, LearnedOf, MarkArtifact, Marked, SpecTags, OwnKept, DigestTag;
    BackfillSparesSpec(w, next, pass.target.tags);
    V.MarkedKeepsDigest(w, next);
    AskingKeepsOwn(w.reg, w.status.artifact, w.status.history, next.replies);
    BackfillTruthful(w.reg, w.status, next.replies, next.target.pull, DigestTag, next.now);
    TruthfulKept(w.reg, C.Backfilled(w, next).reg, w.status);
  }

  lemma NextDecides(b: C.World, pass: C.Pass, bn: C.World, next: C.Pass, c: P.Clash, d: string)
    requires NoDuplicates(pass.target.tags) && V.Retries(next, pass, d) && Sound(b.reg)
    requires C.Decide(b.reg, b.status, pass) == C.KeepExisting(c, d)
    requires Sound(bn.reg) && Truthful(bn.reg, bn.status) && DigestOf(bn.status.artifact) == Some(c.current)
    requires bn.status.inputHash == pass.inputHash && bn.status.attested == None
    requires bn.reg.manifests == b.reg.manifests && SameTags(b.reg, bn.reg, pass.target.tags)
    ensures C.Decide(bn.reg, bn.status, next) ==
            if AttestsNothing(pass.attestor) && AllAt(b.reg, pass.target.tags, c.current)
            then C.ShortCut else C.KeepExisting(c, d)
  {
    hide C.Looked, P.Resolved, P.Matches, P.FirstConflict, P.InPlace, NoDuplicates, Truthful;
    var tags, e := pass.target.tags, c.current;
    var looked, looked' := C.Looked(b.status.artifact, tags), C.Looked(bn.status.artifact, tags);
    var prev, prev' := DigestOf(b.status.artifact), DigestOf(bn.status.artifact);
    V.LookedIncludes(b.status.artifact, tags);
    V.LookedIncludes(bn.status.artifact, tags);
    ConflictCarries(b.reg, bn.reg, looked, looked', tags, prev, prev', d);
    P.ConflictExactly(b.reg, looked, tags, prev, d);
    P.MatchesExactly(bn.reg, looked', prev', e);
    P.MatchesExactly(bn.reg, looked', prev', d);
    assert e != d && e in b.reg.manifests && e != "";
    LookedInPlace(bn.reg, bn.status, tags, e);
    assert AllAt(b.reg, tags, e) <==> AllAt(bn.reg, tags, e) by {
      forall t | t in tags ensures V.SameAt(b.reg, bn.reg, t) {
      }
    }
  }

  lemma ConflictAfter(bn: C.World, next: C.Pass, fuse: nat, c: P.Clash, d: string)
    requires next.landed
    ensures C.Decide(bn.reg, bn.status, next) == C.ShortCut ==> C.Settled(bn, next, fuse).status.conflict == None
    ensures C.Decide(bn.reg, bn.status, next) == C.KeepExisting(c, d) ==>
              C.Settled(bn, next, fuse).status.conflict == Some(TagConflict(c.tag, c.current, d))
  {
    hide P.Matches, P.Resolved, P.FirstConflict;
  }

  /** One tag, already taken: the conflict is recorded, and gone after the next pass. */
  lemma OneKeptTagForgets(d: string, e: string, pass: C.Pass, fuse: nat)
    requires IsDigest(d) && IsDigest(e) && d != e
    requires pass.target.tags == ["v1"] && pass.target.policy == Keep && pass.produced == Some(d)
    requires AttestsNothing(pass.attestor) && !pass.suspended && pass.landed
    ensures var b := C.World(Registry({e}, map["v1" := e]), Status(None, "", [], None, None));
            && C.Settled(b, pass, fuse).status.conflict == Some(TagConflict("v1", e, d))
            && C.Reconciled(C.Settled(b, pass, fuse), pass, fuse).status.conflict == None
  {
    hide IsDigest, SpecTag, C.Settled, C.Reconciled, P.ResolvedTags, P.FirstConflict;
    var b := C.World(Registry({e}, map["v1" := e]), Status(None, "", [], None, None));
    var tags := ["v1"];
    V1IsSpecTag();
    P.MatchesExactly(b.reg, tags, None, d);
    P.ConflictExactly(b.reg, tags, tags, None, d);
    assert tags[0] == "v1" && P.TakenFrom(b.reg, "v1", d);
    var c := P.Clash("v1", e);
    assert C.Looked(None, tags) == tags;
    assert P.FirstConflict(P.Resolved(b.reg, tags, None), tags, d, 0) == Some(c);
    assert C.Decide(b.reg, b.status, pass) == C.KeepExisting(c, d);
    KeptConflictNextPass(b, pass, fuse, pass, fuse, c, d);
  }

  lemma V1IsSpecTag()
    ensures SpecTag("v1")
  {
    assert "digest-"[0] == 'd';
  }

  // ---------- What status reports over a run ----------

  /** Status reports a digest other than the one its inputs produce. */
  predicate ReportsOther(made: string -> string, st: Status) {
    st.artifact.Some? && st.artifact.value.digest != made(st.inputHash)
  }

  /** Whether the last result recorded that was no short cut was a Keep, after one more pass. */
  function KeptAfter(w: C.World, pass: C.Pass, fuse: nat, kept: bool): bool {
    var b := C.Backfilled(w, pass);
    var d := C.Decide(b.reg, b.status, pass);
    if pass.suspended || !pass.landed || fuse < |C.WritesOf(d, pass.target.tags)| then kept
    else
      match d
      case KeepExisting(_, _) => true
      case NameOnly(_) => false
      case Publish(_) => false
      case _ => kept
  }

  function KeptLast(w: R.World, run: seq<R.Step>, n: nat, id: string): bool
    requires n <= |run|
  {
    if n == 0 then false
    else
      var before, e := R.After(w, run, n - 1), run[n - 1];
      if e.Compose? && e.id == id && id in before.comps
      then KeptAfter(C.World(before.reg, before.comps[id]), e.pass, e.fuse, KeptLast(w, run, n - 1, id))
      else KeptLast(w, run, n - 1, id)
  }

  lemma PassReports(made: string -> string, w: C.World, pass: C.Pass, fuse: nat, kept: bool)
    requires kept <==> ReportsOther(made, w.status)
    requires pass.produced.Some? ==> pass.produced.value == made(pass.inputHash)
    ensures KeptAfter(w, pass, fuse, kept) <==> ReportsOther(made, C.Reconciled(w, pass, fuse).status)
  {
    hide C.Backfilled, C.Decide, C.WritesOf, Landed, Recorded, C.Looked, P.InPlace, PublishTags, DigestTag;
    var b := C.Backfilled(w, pass);
    V.MarkedKeepsDigest(w, pass);
    BackfillKeepsArtifact(w, pass);
    V.DecisionMeans(b.reg, b.status, pass);
    if C.Decide(b.reg, b.status, pass) == C.ShortCut {
      ShortCutKeepsInputs(b, pass);
    }
  }

  lemma BackfillKeepsArtifact(w: C.World, pass: C.Pass)
    ensures C.Backfilled(w, pass).status.artifact.Some? <==> w.status.artifact.Some?
  {
    hide LearnedOf, Marked, HasDigestTag;
  }

  lemma ShortCutKeepsInputs(b: C.World, pass: C.Pass)
    requires C.Decide(b.reg, b.status, pass) == C.ShortCut
    ensures b.status.inputHash == pass.inputHash
  {
    hide P.Matches, P.Resolved, P.FirstConflict;
  }

  /** In every state of every run, when equal inputs produce equal digests: a composition's status
      reports the digest its recorded inputs produce, unless the last result recorded, short cuts
      aside, was a Keep; and after a Keep it reports another. */
  lemma {:induction false} StatusReportsItsInputs(made: string -> string, w: R.World, run: seq<R.Step>, n: nat,
                                                  id: string)
    requires n <= |run| && id in w.comps && w.comps[id].artifact.None?
    requires forall e :: e in run && e.Compose? && e.id == id && e.pass.produced.Some? ==>
               e.pass.produced.value == made(e.pass.inputHash)
    ensures id in R.After(w, run, n).comps
    ensures ReportsOther(made, R.After(w, run, n).comps[id]) <==> KeptLast(w, run, n, id)
  {
    hide C.Reconciled, R.BuildAfter, ReportsOther, KeptAfter, R.Reclaimed, R.Collected;
    if n == 0 {
      NothingReported(made, w.comps[id]);
    } else {
      StatusReportsItsInputs(made, w, run, n - 1, id);
      var before, e := R.After(w, run, n - 1), run[n - 1];
      assert e in run;
      if e.Compose? && e.id == id {
        PassReports(made, C.World(before.reg, before.comps[id]), e.pass, e.fuse, KeptLast(w, run, n - 1, id));
      }
    }
  }

  lemma NothingReported(made: string -> string, st: Status)
    requires st.artifact.None?
    ensures !ReportsOther(made, st)
  {
  }

  // ---------- What a recorded result says of the spec's tags ----------

  /** After a pass whose result was recorded, every tag of the spec resolves to the digest reported,
      exactly when the pass did not keep a tag while another of the spec's tags is elsewhere. */
  lemma ReportedIsPublished(b: C.World, pass: C.Pass, fuse: nat)
    requires pass.landed && fuse >= |C.WritesOf(C.Decide(b.reg, b.status, pass), pass.target.tags)|
    requires C.Decide(b.reg, b.status, pass) != C.Failed && !C.Decide(b.reg, b.status, pass).Refuse?
    ensures var w := C.Settled(b, pass, fuse);
            var d := C.Decide(b.reg, b.status, pass);
            && w.status.artifact.Some?
            && (AllAt(w.reg, pass.target.tags, w.status.artifact.value.digest) <==>
                  !(d.KeepExisting? && !AllAt(b.reg, pass.target.tags, d.clash.current)))
  {
    hide C.Decide, C.Looked, NoDuplicates, DigestTag, Recorded, V.Between;
    V.DecisionMeans(b.reg, b.status, pass);
    V.LookedIncludes(b.status.artifact, pass.target.tags);
    LandedFew(b.reg, PutManifest(""), fuse);
    match C.Decide(b.reg, b.status, pass) {
      case NameOnly(d) =>
        LandedFew(b.reg, PutTag(DigestTag(d), d), fuse);
        assert forall t :: t in pass.target.tags ==> Resolves(b.reg, t, d);
      case Publish(d) =>
        var names := PublishTags(pass.target.tags, d);
        assert C.WritesOf(C.Publish(d), pass.target.tags) == V.PublishWrites(names, d);
        V.CompletePublish(b.reg, names, d, fuse);
        PublishTagsIs(pass.target.tags, d);
        assert forall t :: t in pass.target.tags ==> t in names && Resolves(C.Settled(b, pass, fuse).reg, t, d);
      case _ =>
    }
  }
}
