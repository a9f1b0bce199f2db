/** Two ways a status comes to name what nobody pushed or pulled for it. */
module Adopting {
  import opened Strings
  import opened Registries
  import opened Tags
  import opened Statuses
  import opened Backfill
  import opened Pushes
  import opened Retention
  import ClaimsKept
  import Refresh
  import Written
  import L = Lease
  import P = Published
  import C = Composer
  import V = Convergence

  /** One object, holding a lease on all it names. */
  function Alone(t: Refresh.Target, at: int): L.Lease {
    L.Lease(map[t.key := t], map r | r in Refresh.RefsFor(t) :: at, at, at, map[], {})
  }

  lemma AloneSafe(terms: L.Terms, t: Refresh.Target, at: int)
    requires Written.ReadsAll(t.artifact, t.history)
    ensures L.Safe(terms, Alone(t, at))
  {
    hide Refresh.RefsFor, Written.ReadsAll;
  }

  /** What an object alone adopts, it names afterwards, and nothing tells that the registry holds it. */
  lemma AdoptedIsNamed(terms: L.Terms, t: Refresh.Target, e: L.Event, ref: string)
    requires e.Compose? && e.key == t.key && t.repo != "" && Written.ReadsAll(t.artifact, t.history)
    requires L.Allowed(terms, Alone(t, e.at), e) && ref !in Refresh.RefsFor(t)
    requires ref !in ComposePushes(t.repo, e.w, e.pass, e.fuse)
    requires Adopts(t.repo, C.Backfilled(e.w, e.pass), e.pass, e.fuse, ref)
    ensures var after := L.Next(Alone(t, e.at), e);
            L.Named(after, ref) && ref in after.adopted && ref !in after.touched
  {
    hide Refresh.RefsFor, C.Reconciled, ComposePushes, Adopts, L.Allowed, L.Safe, Written.ReadsAll;
    var l := Alone(t, e.at);
    AloneSafe(terms, t, e.at);
    assert !L.Named(l, ref);
    L.ComposeAdopts(terms, l, e, ref);
    var after := L.Next(l, e);
    assert after.objects[t.key] == L.Composed(t, e);
    assert ref in Refresh.RefsFor(L.Composed(t, e));
  }

  lemma TwoSpecTags()
    ensures ClaimsKept.SpecTags(["v1", "v2"])
  {
    assert "digest-"[0] == 'd';
  }

  lemma SecondTagRef(repo: string)
    ensures TagRef(repo, ["v1", "v2"], 2, repo + ":v2")
  {
    assert ["v1", "v2"][1] == "v2";
  }

  // ---------- Keep ----------

  lemma KeepDecides(d: string, e: string, pass: C.Pass)
    requires d != e && pass.target.tags == ["v1", "v2"] && pass.target.policy == Keep && pass.produced == Some(d)
    ensures var w := C.World(Registry({e}, map["v1" := e]), Status(None, "", [], None, None));
            && C.Decide(w.reg, w.status, pass) == C.KeepExisting(P.Clash("v1", e), d)
            && C.Backfilled(w, pass) == w && LearnedOf(w.reg, None, [], pass.replies).known == map[]
  {
    hide P.ResolvedTags, P.FirstConflict, DigestTag;
    var tags := ["v1", "v2"];
    var w := C.World(Registry({e}, map["v1" := e]), Status(None, "", [], None, None));
    P.MatchesExactly(w.reg, tags, None, d);
    P.ConflictExactly(w.reg, tags, tags, None, d);
    assert tags[0] == "v1" && P.TakenFrom(w.reg, "v1", d);
    assert C.Looked(None, tags) == tags;
    assert P.FirstConflict(P.Resolved(w.reg, tags, None), tags, d, 0) == Some(P.Clash("v1", e));
  }

  /** Keep on the first tag reports every tag of the spec, also one nobody has ever pushed: status
      names it, the registry does not have it, and the pass that made it so writes nothing. */
  lemma KeepAdoptsMissingTag(terms: L.Terms, key: string, repo: string, d: string, e: string, pass: C.Pass, fuse: nat,
                             at: int)
    requires IsDigest(d) && IsDigest(e) && d != e && repo != ""
    requires pass.target.tags == ["v1", "v2"] && '@' !in pass.target.pull && pass.target.policy == Keep
    requires pass.produced == Some(d) && pass.landed && !pass.suspended
    ensures var w := C.World(Registry({e}, map["v1" := e]), Status(None, "", [], None, None));
            var l, ev := Alone(Refresh.Target(key, repo, true, None, []), at), L.Compose(key, w, pass, fuse, at);
            var after := L.Next(l, ev);
            && L.Safe(terms, l) && L.Allowed(terms, l, ev)
            && L.Named(after, repo + ":v2") && repo + ":v2" in after.adopted && repo + ":v2" !in after.touched
            && C.Reconciled(w, pass, fuse).reg == w.reg && "v2" !in w.reg.tags
  {
    hide IsDigest, ClaimsKept.SpecTags, C.Reconciled, C.Decide, L.Next, L.Safe, L.Named, Refs, TagRef, DigestTag,
      C.Backfilled, LearnedOf;
    var w := C.World(Registry({e}, map["v1" := e]), Status(None, "", [], None, None));
    var t := Refresh.Target(key, repo, true, None, []);
    var ev := L.Compose(key, w, pass, fuse, at);
    KeepDecides(d, e, pass);
    TwoSpecTags();
    SecondTagRef(repo);
    L.NothingNamed(repo);
    AloneSafe(terms, t, at);
    assert ComposeWrites(w, pass) == [];
    assert ComposePushes(repo, w, pass, fuse) == {};
    AdoptedIsNamed(terms, t, ev, repo + ":v2");
    ComposeWritesMade(w, pass, fuse);
    LandedFew(w.reg, PutManifest(d), fuse);
  }

  // ---------- A tag listed again ----------

  /** What a publish under v1 left, and a registry in which someone made v2 the same. */
  function Relisting(pull: string, policy: Policy, d: string, hash: string): C.World {
    C.World(Registry({d}, map["v1" := d, "v2" := d, DigestTag(d) := d]),
            Status(Some(C.ArtifactFor(Target(pull, ["v1"], policy), d, true)), hash, [], None, None))
  }

  lemma RelistingDecides(d: string, hash: string, pass: C.Pass)
    requires IsDigest(d) && pass.target.tags == ["v1", "v2"] && pass.produced == Some(d) && pass.inputHash != hash
    ensures var w := Relisting(pass.target.pull, pass.target.policy, d, hash);
            && C.Decide(w.reg, w.status, pass) == C.NameOnly(d)
            && C.Backfilled(w, pass) == w && LearnedOf(w.reg, w.status.artifact, [], pass.replies).known == map[]
  {
    hide P.ResolvedTags, P.FirstConflict, DigestTag, IsDigest, LearnedOf, C.ArtifactFor, HasDigestTag, PublishTags,
      P.Matches;
    var t, tags := pass.target, ["v1", "v2"];
    var w := Relisting(t.pull, t.policy, d, hash);
    var a := w.status.artifact;
    V.PublishedClaims(Target(t.pull, ["v1"], t.policy), d);
    Written.ArtifactDigest(Target(t.pull, ["v1"], t.policy), d);
    DigestTagValid(d);
    NothingWaits(w.reg, a, [], pass.replies, t.pull, DigestTag, pass.now);
    PublishTagsIs(tags, d);
    V.LookedIncludes(a, tags);
    P.MatchesExactly(w.reg, C.Looked(a, tags), Some(d), d);
  }

  lemma RelistedIsNew(repo: string, pull: string, policy: Policy, d: string)
    requires IsDigest(d) && '@' !in pull
    ensures var a := C.ArtifactFor(Target(pull, ["v1"], policy), d, true);
            repo + ":v2" !in Refs(repo, Some(a), []) && Written.ReadsAll(Some(a), [])
  {
    hide IsDigest, DigestTag, NamesOf, C.ArtifactFor, PublishTags, RecordedAs, Refs;
    var t := Target(pull, ["v1"], policy);
    var a, p, ref := C.ArtifactFor(t, d, true), Written.PublicationOf(t, d), repo + ":v2";
    TwoSpecTags();
    assert ["v1", "v2"][0] == "v1";
    Written.StatusReadsBack(t, d);
    Written.ArtifactDigest(t, d);
    Written.RecordedReads(p, a.tags);
    RefsHas(repo, Some(a), [], ref);
    NamesOfIs(repo, p, a.tags, ref);
    PublishTagsIs(["v1"], d);
    TwoSpecTagsAreNotOwn(d);
    forall i | 0 <= i < |p.tags| ensures ref != repo + ":" + p.tags[i] {
      assert p.tags[i] in p.tags;
      TagRefsDiffer(repo, "v2", p.tags[i]);
    }
    assert ref[|repo|] == ':' && (repo + "@" + d)[|repo|] == '@';
  }

  lemma TagRefsDiffer(repo: string, s: string, t: string)
    requires s != t
    ensures repo + ":" + s != repo + ":" + t
  {
    assert (repo + ":" + s)[|repo| + 1..] == s && (repo + ":" + t)[|repo| + 1..] == t;
  }

  lemma TwoSpecTagsAreNotOwn(d: string)
    ensures "v1" != DigestTag(d) && "v2" != DigestTag(d)
  {
    assert DigestTag(d)[0] == 'd';
  }

  /** A spec lists a second tag, which means the recorded digest already, and its changed inputs give
      that digest again: the pass adds the digest's own tag alone, and names the listed one too. */
  lemma RelistedTagIsAdopted(terms: L.Terms, key: string, repo: string, d: string, hash: string, pass: C.Pass,
                             fuse: nat, at: int)
    requires IsDigest(d) && repo != "" && fuse > 0
    requires pass.target.tags == ["v1", "v2"] && '@' !in pass.target.pull && pass.inputHash != hash
    requires pass.produced == Some(d) && pass.landed && !pass.suspended
    ensures var w := Relisting(pass.target.pull, pass.target.policy, d, hash);
            var l, ev := Alone(Refresh.Target(key, repo, true, w.status.artifact, []), at),
                L.Compose(key, w, pass, fuse, at);
            var after := L.Next(l, ev);
            && L.Safe(terms, l) && L.Allowed(terms, l, ev)
            && L.Named(after, repo + ":v2") && repo + ":v2" in after.adopted && repo + ":v2" !in after.touched
  {
    hide IsDigest, ClaimsKept.SpecTags, C.Reconciled, C.Decide, L.Next, L.Safe, L.Named, Refs, TagRef, DigestTag,
      C.Backfilled, LearnedOf,
      C.ArtifactFor, Written.ReadsAll, OwnRefs;
    var w := Relisting(pass.target.pull, pass.target.policy, d, hash);
    var t := Refresh.Target(key, repo, true, w.status.artifact, []);
    var ev, ref := L.Compose(key, w, pass, fuse, at), repo + ":v2";
    RelistingDecides(d, hash, pass);
    TwoSpecTags();
    SecondTagRef(repo);
    RelistedIsNew(repo, pass.target.pull, pass.target.policy, d);
    AloneSafe(terms, t, at);
    assert ComposeWrites(w, pass) == [PutTag(DigestTag(d), d)];
    OwnWriteRefs(repo, d, fuse);
    NothingOwn(repo);
    AdoptedIsNamed(terms, t, ev, ref);
  }

  lemma NothingOwn(repo: string)
    ensures OwnRefs(repo, map[]) == {}
  {
  }

  lemma OwnWriteRefs(repo: string, d: string, fuse: nat)
    ensures repo + ":v2" !in LandedRefs(repo, [PutTag(DigestTag(d), d)], fuse)
  {
    hide DigestTag;
    var ws, ref := [PutTag(DigestTag(d), d)], repo + ":v2";
    TwoSpecTagsAreNotOwn(d);
    assert ref[|repo|] == ':' && (repo + "@" + d)[|repo|] == '@';
    TagRefsDiffer(repo, "v2", DigestTag(d));
    assert WriteRefs(repo, ws, 0) == {};
    assert WriteRefs(repo, ws, 1) == {repo + "@" + d, repo + ":" + DigestTag(d)};
  }
}
