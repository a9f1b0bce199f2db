/** What one composer pass decides and leaves, said of the registry, the status and the spec alone. */
module Decisions {
  import opened Strings
  import opened Registries
  import opened Tags
  import opened Statuses
  import opened Backfill
  import opened Composer
  import P = Published
  import V = Convergence

  /** Status claims the digest's own tag. */
  predicate ClaimsOwn(artifact: Option<ArtifactStatus>) {
    artifact.Some? && HasDigestTag(artifact.value.tags, artifact.value.digest)
  }

  /** The digest is the one recorded, the registry serves it, every tag of the spec resolves to it, and so
      does the digest's own tag once status claims it. A repeated tag is never found in full: the own
      tag may repeat in the spec when it is claimed, as it is then looked up once. */
  predicate InFull(reg: Registry, artifact: Option<ArtifactStatus>, tags: seq<string>, d: string) {
    && artifact.Some? && artifact.value.digest == d && d != "" && d in reg.manifests
    && (forall t :: t in tags ==> Resolves(reg, t, d))
    && (ClaimsOwn(artifact) ==> Resolves(reg, DigestTag(d), d))
    && forall i, j :: 0 <= i < j < |tags| && tags[i] == tags[j] ==> ClaimsOwn(artifact) && tags[i] == DigestTag(d)
  }

  lemma {:induction false} OthersRepeat(tags: seq<string>, own: string, n: nat)
    requires n <= |tags|
    ensures NoDuplicates(OthersThan(tags, own, n)) <==>
            forall i, j :: 0 <= i < j < n && tags[i] == tags[j] ==> tags[i] == own
  {
    if n > 0 {
      OthersRepeat(tags, own, n - 1);
      OthersThanIs(tags, own, n - 1);
      var before, last := OthersThan(tags, own, n - 1), tags[n - 1];
      if last != own {
        AppendedRepeats(before, last);
        assert last in before <==> last in tags[..n - 1];
      } else {
        assert before + [] == before;
      }
    }
  }

  lemma AppendedRepeats(s: seq<string>, t: string)
    ensures NoDuplicates(s + [t]) <==> NoDuplicates(s) && t !in s
  {
    var all := s + [t];
    assert all[|s|] == t;
    assert forall i :: 0 <= i < |s| ==> all[i] == s[i];
  }

  lemma LookedRepeats(artifact: Option<ArtifactStatus>, tags: seq<string>)
    ensures NoDuplicates(Looked(artifact, tags)) <==>
            forall i, j :: 0 <= i < j < |tags| && tags[i] == tags[j] ==>
              ClaimsOwn(artifact) && tags[i] == DigestTag(artifact.value.digest)
  {
    hide HasDigestTag, DigestTag;
    if ClaimsOwn(artifact) {
      var own := DigestTag(artifact.value.digest);
      OthersRepeat(tags, own, |tags|);
      OthersThanIs(tags, own, |tags|);
      AppendedRepeats(OthersThan(tags, own, |tags|), own);
    }
  }

  lemma FoundInFull(reg: Registry, artifact: Option<ArtifactStatus>, tags: seq<string>, d: string)
    ensures P.Matches(P.Resolved(reg, Looked(artifact, tags), DigestOf(artifact)), d) <==>
            InFull(reg, artifact, tags, d)
  {
    hide P.Resolved, P.Matches, HasDigestTag, DigestTag, NoDuplicates, PublishTags;
    P.MatchesExactly(reg, Looked(artifact, tags), DigestOf(artifact), d);
    LookedRepeats(artifact, tags);
    if artifact.Some? {
      PublishTagsIs(tags, artifact.value.digest);
    }
  }

  /** One of the spec's tags means something else already. */
  predicate SomeTaken(reg: Registry, tags: seq<string>, d: string) {
    exists t :: t in tags && t in reg.tags && reg.tags[t] != d
  }

  /** The short cut is taken exactly when status reports a digest at the inputs' hash, the digest is
      published in full, and each attestation that is enabled is recorded for that very digest. */
  lemma ShortCutExactly(reg: Registry, status: Status, pass: Pass)
    ensures Decide(reg, status, pass) == ShortCut <==>
            && status.artifact.Some? && status.inputHash == pass.inputHash
            && InFull(reg, status.artifact, pass.target.tags, status.artifact.value.digest)
            && (pass.attestor.sbom || pass.attestor.provenance || pass.attestor.key ==>
                  status.attested.Some? && status.attested.value.subject == status.artifact.value.digest)
            && (pass.attestor.sbom ==> status.attested.value.sbom != "")
            && (pass.attestor.provenance ==> status.attested.value.provenance != "")
            && (pass.attestor.key ==> status.attested.value.signature != "")
  {
    hide P.Resolved, P.Matches, P.FirstConflict, Looked, InFull;
    if status.artifact.Some? {
      FoundInFull(reg, status.artifact, pass.target.tags, status.artifact.value.digest);
    }
  }

  /** Past the short cut, exactly: nothing without an assembled digest; naming it when it is published in
      full already, whatever the policy; otherwise the policy's answer to a taken tag, and a publish
      when none is taken or Overwrite lets it move. */
  lemma DecisionExactly(reg: Registry, status: Status, pass: Pass)
    requires Decide(reg, status, pass) != ShortCut
    ensures Decide(reg, status, pass) == Failed <==> pass.produced.None?
    ensures pass.produced.Some? ==>
              var d, tags := pass.produced.value, pass.target.tags;
              var full := InFull(reg, status.artifact, tags, d);
              var taken := SomeTaken(reg, tags, d);
              && (Decide(reg, status, pass) == NameOnly(d) <==> full)
              && (Decide(reg, status, pass).Refuse? <==> !full && taken && pass.target.policy == Fail)
              && (Decide(reg, status, pass).KeepExisting? <==> !full && taken && pass.target.policy == Keep)
              && (Decide(reg, status, pass) == Publish(d) <==> !full && (taken ==> pass.target.policy == Overwrite))
  {
    hide P.Resolved, P.Matches, P.FirstConflict, Looked, InFull, Complete;
    if pass.produced.Some? {
      var d, tags := pass.produced.value, pass.target.tags;
      FoundInFull(reg, status.artifact, tags, d);
      LookedHas(status.artifact, tags);
      P.ConflictExactly(reg, Looked(status.artifact, tags), tags, DigestOf(status.artifact), d);
    }
  }

  lemma LookedHas(artifact: Option<ArtifactStatus>, tags: seq<string>)
    ensures forall t :: t in tags ==> t in Looked(artifact, tags)
  {
    hide DigestTag, HasDigestTag;
    if artifact.Some? {
      PublishTagsIs(tags, artifact.value.digest);
    }
  }

  /** Enabling a signing key is enough to close the short cut until a signature is recorded. */
  lemma UnsignedIsAttested(reg: Registry, status: Status, pass: Pass)
    requires pass.attestor.key && (status.attested.Some? ==> status.attested.value.signature == "")
    ensures Decide(reg, status, pass) != ShortCut
  {
    hide InFull, Decide;
    ShortCutExactly(reg, status, pass);
  }

  // ---------- What a pass leaves ----------

  /** Status reports the digest under the target's public name: the reference and the revision lead with
      the first tag when there is one, and the tags are the spec's in order, the digest's own last when
      this pass gave it. */
  predicate Reports(a: ArtifactStatus, t: Target, d: string, own: bool) {
    && a.digest == d
    && a.ref == (if |t.tags| > 0 then t.pull + ":" + t.tags[0] + "@" + d else t.pull + "@" + d)
    && a.revision == (if |t.tags| > 0 then t.tags[0] + "@" + d else d)
    && |a.tags| == |t.tags| + (if own then 1 else 0)
    && (forall i :: 0 <= i < |t.tags| ==> a.tags[i] == t.pull + ":" + t.tags[i])
    && (own ==> a.tags[|t.tags|] == t.pull + ":" + DigestTag(d))
  }

  lemma ArtifactReports(t: Target, d: string, own: bool)
    ensures Reports(ArtifactFor(t, d, own), t, d, own)
  {
    hide DigestTag;
  }

  /** A pass that publishes nothing: the short cut forgets a recorded conflict and nothing else; a Keep
      reports the kept digest and drops every attestation; a pass that fails or refuses leaves all as
      it was. None of them writes to the registry or adds history. */
  lemma PassThatKeeps(b: World, pass: Pass, fuse: nat)
    requires pass.landed
    ensures var w, d := Settled(b, pass, fuse), Decide(b.reg, b.status, pass);
            && (d == ShortCut ==> w.reg == b.reg && w.status == b.status.(conflict := None))
            && (d == Failed || d.Refuse? ==> w == b)
            && (d.KeepExisting? ==>
                  && w.reg == b.reg && w.status.artifact.Some?
                  && Reports(w.status.artifact.value, pass.target, d.clash.current, false)
                  && w.status.inputHash == pass.inputHash && w.status.attested == None
                  && w.status.conflict == Some(TagConflict(d.clash.tag, d.clash.current, pass.produced.value))
                  && w.status.history == b.status.history)
  {
    hide P.Resolved, P.Matches, P.FirstConflict, Looked, Complete, ArtifactFor, Reports;
    LandedFew(b.reg, PutManifest(""), fuse);
    var d := Decide(b.reg, b.status, pass);
    if d.KeepExisting? {
      ArtifactReports(pass.target, d.clash.current, false);
    }
  }

  /** A digest found published in full is given its own tag and reported; nothing joins the history. */
  lemma PassThatNames(b: World, pass: Pass, fuse: nat, d: string)
    requires pass.landed && Decide(b.reg, b.status, pass) == NameOnly(d) && fuse > 0
    ensures var w := Settled(b, pass, fuse);
            && w.reg == Registry(b.reg.manifests + {d}, b.reg.tags[DigestTag(d) := d])
            && w.status.artifact.Some? && Reports(w.status.artifact.value, pass.target, d, true)
            && w.status.inputHash == pass.inputHash && w.status.attested == pass.signed
            && w.status.conflict == None && w.status.history == b.status.history
  {
    hide Decide, ArtifactFor, Reports, DigestTag;
    LandedFew(b.reg, PutTag(DigestTag(d), d), fuse);
    ArtifactReports(pass.target, d, true);
  }

  lemma {:induction false} TagsWritten(reg: Registry, names: seq<string>, d: string, n: nat, t: string)
    requires n <= |names|
    ensures var w := ApplyTo(reg, [PutManifest(d)] + TagWrites(names, d), n + 1);
            && w.manifests == reg.manifests + {d}
            && (t in names[..n] ==> Resolves(w, t, d))
            && (t !in names[..n] ==> V.SameAt(reg, w, t))
  {
    var ws := [PutManifest(d)] + TagWrites(names, d);
    if n == 0 {
      assert ApplyTo(reg, ws, 0) == reg;
    } else {
      TagsWritten(reg, names, d, n - 1, t);
      assert ws[n] == PutTag(names[n - 1], d);
      assert names[..n] == names[..n - 1] + [names[n - 1]];
    }
  }

  lemma {:induction false} OtherRecordsShorter(h: seq<BuildRecord>, d: string, n: nat)
    requires n <= |h|
    ensures |OtherRecords(h, d, n)| <= n
  {
    if n > 0 {
      OtherRecordsShorter(h, d, n - 1);
    }
  }

  /** The new record is first; behind it are only earlier records of other digests, all of them while the
      limit has room. */
  lemma RecordedIs(h: seq<BuildRecord>, r: BuildRecord, limit: int)
    ensures var out := Recorded(h, Some(r), limit);
            && 0 < |out| <= (if limit < 1 then 1 else limit) && out[0] == r
            && (forall i :: 1 <= i < |out| ==> out[i] in h && out[i].digest != r.digest)
            && (forall x :: x in h && x.digest != r.digest && |h| < limit ==> x in out)
  {
    hide OtherRecords;
    var others, out := OtherRecords(h, r.digest, |h|), Recorded(h, Some(r), limit);
    OthersAre(h, r.digest, |h|);
    OtherRecordsShorter(h, r.digest, |h|);
    forall i | 1 <= i < |out| ensures out[i] in h && out[i].digest != r.digest {
      assert out[i] == others[i - 1] && others[i - 1] in others;
    }
    forall x | x in h && x.digest != r.digest && |h| < limit ensures x in out {
      assert x in others;
      assert out == [r] + others;
    }
  }

  /** A publish that is not cut short: the manifest is served, the spec's tags and the digest's own name it
      and no other tag moves; status reports it, with what signing recorded and no conflict; and one
      record of it, under the bare names, is first in the history. */
  lemma PassThatPublishes(b: World, pass: Pass, fuse: nat, d: string, t: string)
    requires pass.landed && Decide(b.reg, b.status, pass) == Publish(d) && fuse > |pass.target.tags| + 1
    ensures var w := Settled(b, pass, fuse);
            && w.reg.manifests == b.reg.manifests + {d}
            && (t in pass.target.tags || t == DigestTag(d) ==> Resolves(w.reg, t, d))
            && (t !in pass.target.tags && t != DigestTag(d) ==> V.SameAt(b.reg, w.reg, t))
            && w.status.artifact.Some? && Reports(w.status.artifact.value, pass.target, d, true)
            && w.status.inputHash == pass.inputHash && w.status.attested == pass.signed
            && w.status.conflict == None
    ensures var h := Settled(b, pass, fuse).status.history;
            && |h| > 0 && h[0].digest == d && h[0].inputHash == "" && h[0].lost == None
            && (forall name :: name in h[0].tags <==> name in pass.target.tags || name == DigestTag(d))
            && (forall i :: 1 <= i < |h| ==> h[i] in b.status.history && h[i].digest != d)
            && (forall r :: r in b.status.history && r.digest != d && |b.status.history| < pass.limit ==> r in h)
            && |h| <= if pass.limit < 1 then 1 else pass.limit
  {
    hide Decide, ArtifactFor, Reports, DigestTag, OthersThan, Recorded;
    var tags, names := pass.target.tags, PublishTags(pass.target.tags, d);
    PublishTagsIs(tags, d);
    OthersShorter(tags, DigestTag(d), |tags|);
    var ws := WritesOf(Publish(d), tags);
    assert |ws| == |names| + 1 <= fuse;
    TagsWritten(b.reg, names, d, |names|, t);
    assert names[..|names|] == names;
    ArtifactReports(pass.target, d, true);
    RecordedIs(b.status.history, BuildRecord(d, names, "", None), pass.limit);
  }

  lemma {:induction false} OthersShorter(tags: seq<string>, own: string, n: nat)
    requires n <= |tags|
    ensures |OthersThan(tags, own, n)| <= n
  {
    if n > 0 {
      OthersShorter(tags, own, n - 1);
    }
  }

  /** A status write that does not land, or a write to the registry that fails before the last, leaves status
      as the backfill left it. */
  lemma PassNotRecorded(b: World, pass: Pass, fuse: nat)
    requires !pass.landed || fuse < |WritesOf(Decide(b.reg, b.status, pass), pass.target.tags)|
    ensures Settled(b, pass, fuse).status == b.status
  {
  }

  /** Suspending an object stops its publishing, not the naming of what it published: an answered pass gives
      every waiting digest that is served its own tag all the same, and does nothing else. */
  lemma SuspendedStillNames(w: World, pass: Pass, fuse: nat)
    requires pass.suspended && V.Proper(w.status) && V.Answered(w, pass)
    ensures var after := Reconciled(w, pass, fuse);
            && V.NothingToName(after.reg, after.status)
            && after.reg.manifests == w.reg.manifests
            && DigestOf(after.status.artifact) == DigestOf(w.status.artifact)
            && after.status.inputHash == w.status.inputHash && after.status.conflict == w.status.conflict
            && after.status.attested == w.status.attested && |after.status.history| == |w.status.history|
  {
    hide V.NothingToName, V.Proper, AfterAsking, Asks, MarkArtifact;
    V.AnsweredBackfillNames(w, pass);
    V.MarkedKeepsDigest(w, pass);
    var asks := Asks(w.status.artifact, w.status.history, |w.status.history|);
    AskingKeepsManifests(w.reg, asks, pass.replies, |asks|);
  }
}
