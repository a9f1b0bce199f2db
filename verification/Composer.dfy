/** Publishing a composition (internal/controller/imagecomposition_controller.go). */
module Composer {
  import opened Strings
  import opened Registries
  import opened Tags
  import opened Statuses
  import opened Backfill
  import P = Published

  /** What one pass meets: its target, the hash of its inputs, the digest its assembly produces
      (None when fetching or assembling fails), what signing records (best effort), how the
      registry takes the backfill's requests, and whether the two status writes land. */
  datatype Pass = Pass(
    target: Target, inputHash: string, produced: Option<string>,
    attestor: Attestor, signed: Option<Attestation>,
    replies: nat -> Reply, suspended: bool, marked: bool, landed: bool, limit: int, now: int)

  /** What a pass decides to do, before it writes anything. */
  datatype Decision =
    | ShortCut
    | Failed
    | NameOnly(digest: string)
    | Refuse(clash: P.Clash)
    | KeepExisting(clash: P.Clash, dropped: string)
    | Publish(digest: string)

  /** The tags looked up: the spec's, and the recorded digest's own once status claims it. */
  function Looked(artifact: Option<ArtifactStatus>, tags: seq<string>): seq<string> {
    if artifact.Some? && HasDigestTag(artifact.value.tags, artifact.value.digest)
    then PublishTags(tags, artifact.value.digest) else tags
  }

  predicate CheapPath(found: P.State, status: Status, pass: Pass) {
    && status.artifact.Some?
    && status.inputHash == pass.inputHash
    && P.Matches(found, status.artifact.value.digest)
    && Complete(pass.attestor, status.attested, status.artifact.value.digest)
  }

  function Decide(reg: Registry, status: Status, pass: Pass): Decision {
    var found := P.Resolved(reg, Looked(status.artifact, pass.target.tags), DigestOf(status.artifact));
    if CheapPath(found, status, pass) then ShortCut
    else if pass.produced.None? then Failed
    else
      var digest := pass.produced.value;
      if P.Matches(found, digest) then NameOnly(digest)
      else match P.FirstConflict(found, pass.target.tags, digest, 0)
        case None => Publish(digest)
        case Some(c) =>
          match pass.target.policy
          case Fail => Refuse(c)
          case Keep => KeepExisting(c, digest)
          case Overwrite => Publish(digest)
  }

  function WritesOf(d: Decision, tags: seq<string>): seq<Write> {
    match d
    case NameOnly(digest) => [PutTag(DigestTag(digest), digest)]
    case Publish(digest) => [PutManifest(digest)] + TagWrites(PublishTags(tags, digest), digest)
    case _ => []
  }

  /** status.artifact for a digest; `own` when this pass gave it its own tag. */
  function ArtifactFor(t: Target, digest: string, own: bool): ArtifactStatus {
    var claimed := if own then [t.pull + ":" + DigestTag(digest)] else [];
    if t.tags == [] then ArtifactStatus(digest, digest, t.pull + "@" + digest, claimed)
    else ArtifactStatus(digest, t.tags[0] + "@" + digest, t.pull + ":" + t.tags[0] + "@" + digest,
                        Qualified(t.pull, t.tags) + claimed)
  }

  /** Every form of the published reference ends in the digest, under the public name, and giving
      the digest its own tag changes neither the revision nor the reference. */
  lemma ArtifactAnchored(t: Target, d: string)
    ensures var a := ArtifactFor(t, d, true);
            && a.digest == d && HasSuffix(a.ref, "@" + d) && HasPrefix(a.ref, t.pull)
            && (t.tags != [] ==> HasSuffix(a.revision, "@" + d) && a.tags[0] + "@" + d == a.ref)
            && (t.tags == [] ==> a.revision == d && a.ref == t.pull + "@" + d)
            && ArtifactFor(t, d, false).ref == a.ref && ArtifactFor(t, d, false).revision == a.revision
            && a.tags == ArtifactFor(t, d, false).tags + [t.pull + ":" + DigestTag(d)]
  {
    hide DigestTag;
    var a := ArtifactFor(t, d, true);
    if t.tags != [] {
      assert a.ref[|a.ref| - |d| - 1..] == "@" + d;
      assert a.revision[|a.revision| - |d| - 1..] == "@" + d;
    } else {
      assert a.ref[|a.ref| - |d| - 1..] == "@" + d;
    }
  }

  datatype BuildResult = BuildResult(
    artifact: ArtifactStatus, inputHash: string, attested: Option<Attestation>,
    conflict: Option<TagConflict>, record: Option<BuildRecord>)

  function ResultOf(d: Decision, status: Status, pass: Pass): Option<BuildResult>
    requires d.ShortCut? ==> status.artifact.Some?
  {
    match d
    case ShortCut => Some(BuildResult(status.artifact.value, pass.inputHash, status.attested, None, None))
    case Failed => None
    case Refuse(_) => None
    case NameOnly(digest) =>
      Some(BuildResult(ArtifactFor(pass.target, digest, true), pass.inputHash, pass.signed, None, None))
    case KeepExisting(c, dropped) =>
      Some(BuildResult(ArtifactFor(pass.target, c.current, false), pass.inputHash, None,
                       Some(TagConflict(c.tag, c.current, dropped)), None))
    case Publish(digest) =>
      Some(BuildResult(ArtifactFor(pass.target, digest, true), pass.inputHash, pass.signed, None,
                       Some(BuildRecord(digest, PublishTags(pass.target.tags, digest), "", None))))
  }

  /** The success status write. */
  function Recording(status: Status, r: BuildResult, limit: int): Status {
    Status(Some(r.artifact), r.inputHash, Recorded(status.history, r.record, limit), r.conflict, r.attested)
  }

  // ---------- One pass, as a function ----------

  datatype World = World(reg: Registry, status: Status)

  /** The backfill that opens every pass; its tags stay even when its status patch does not land. */
  function Backfilled(w: World, pass: Pass): World {
    var l := LearnedOf(w.reg, w.status.artifact, w.status.history, pass.replies);
    World(l.reg,
          if pass.marked then
            w.status.(artifact := MarkArtifact(w.status.artifact, l.known, pass.target.pull),
                      history := Marked(w.status.history, l.known, DigestOf(w.status.artifact), DigestTag, pass.now))
          else w.status)
  }

  /** From a backfilled state: the writes that land, and the status write when all of them did. */
  function Settled(w: World, pass: Pass, fuse: nat): World {
    var d := Decide(w.reg, w.status, pass);
    var ws := WritesOf(d, pass.target.tags);
    var r := ResultOf(d, w.status, pass);
    World(Landed(w.reg, ws, fuse),
          if r.Some? && |ws| <= fuse && pass.landed then Recording(w.status, r.value, pass.limit) else w.status)
  }

  function Reconciled(w: World, pass: Pass, fuse: nat): World {
    var b := Backfilled(w, pass);
    if pass.suspended then b else Settled(b, pass, fuse)
  }

  // ---------- One pass, as the controller runs it ----------

  class Composition {
    var status: Status

    constructor (status: Status)
      ensures this.status == status
    {
      this.status := status;
    }

    /** What the registry holds for the tags this pass looks up. */
    method FindPublished(repo: Repository, tags: seq<string>) returns (found: P.State)
      ensures found == P.Resolved(repo.state, Looked(status.artifact, tags), DigestOf(status.artifact))
    {
      hide HasDigestTag, PublishTags, P.Resolved;
      var looked := tags;
      if status.artifact.Some? {
        if HasDigestTag(status.artifact.value.tags, status.artifact.value.digest) {
          looked := PublishTagList(tags, status.artifact.value.digest);
        }
      }
      found := P.ResolvePublished(repo, looked, DigestOf(status.artifact));
    }

    method Publish(repo: Repository, tags: seq<string>, digest: string) returns (ok: bool, names: seq<string>)
      modifies repo
      ensures names == PublishTags(tags, digest)
      ensures ok == (|WritesOf(Decision.Publish(digest), tags)| <= old(repo.fuse))
      ensures repo.state == Landed(old(repo.state), WritesOf(Decision.Publish(digest), tags), old(repo.fuse))
    {
      hide PublishTags, Apply;
      names := PublishTagList(tags, digest);
      ghost var ws := WritesOf(Decision.Publish(digest), tags);
      ghost var reg, fuse := repo.state, repo.fuse;
      // Whatever is cut off after this write, the manifest is there to be pulled by its digest.
      ok := repo.Put(PutManifest(digest));
      if !ok {
        return;
      }
      for n := 0 to |names|
        invariant n + 1 <= fuse && repo.fuse == fuse - n - 1
        invariant repo.state == ApplyTo(reg, ws, n + 1)
      {
        assert ws[n + 1] == PutTag(names[n], digest);
        ok := repo.Put(PutTag(names[n], digest));
        if !ok {
          return;
        }
      }
      ok := true;
    }

    method ReconcileArtifact(repo: Repository, pass: Pass) returns (r: Option<BuildResult>)
      modifies repo
      ensures repo.state == Landed(old(repo.state),
                                   WritesOf(Decide(old(repo.state), status, pass), pass.target.tags), old(repo.fuse))
      ensures var d := Decide(old(repo.state), status, pass);
              r == if |WritesOf(d, pass.target.tags)| <= old(repo.fuse) then ResultOf(d, status, pass) else None
    {
      hide DigestTag, HasDigestTag, PublishTags, P.Matches, P.FirstConflict, P.Resolved, Complete, ArtifactFor, Landed,
        TagWrites, Looked;
      if pass.produced.Some? {
        LandedFew(repo.state, PutTag(DigestTag(pass.produced.value), pass.produced.value), repo.fuse);
      } else {
        LandedFew(repo.state, PutManifest(""), repo.fuse);
      }
      var tgt := pass.target;
      var found := FindPublished(repo, tgt.tags);
      if status.artifact.Some? {
        var prev := status.artifact.value;
        if status.inputHash == pass.inputHash && P.Matches(found, prev.digest)
           && Complete(pass.attestor, status.attested, prev.digest) {
          return Some(BuildResult(prev, pass.inputHash, status.attested, None, None));
        }
      }
      if pass.produced.None? {
        return None;
      }
      var digest := pass.produced.value;
      // What is there in full already is no conflict, whatever the policy.
      if P.Matches(found, digest) {
        var ok := repo.Put(PutTag(DigestTag(digest), digest));
        if !ok {
          return None;
        }
        return Some(BuildResult(ArtifactFor(tgt, digest, true), pass.inputHash, pass.signed, None, None));
      }
      var clash := P.Conflicts(found, tgt.tags, digest);
      if clash.Some? && tgt.policy == Fail {
        return None;
      }
      if clash.Some? && tgt.policy == Keep {
        var c := clash.value;
        return Some(BuildResult(ArtifactFor(tgt, c.current, false), pass.inputHash, None,
                                Some(TagConflict(c.tag, c.current, digest)), None));
      }
      var ok, names := Publish(repo, tgt.tags, digest);
      if !ok {
        return None;
      }
      r := Some(BuildResult(ArtifactFor(tgt, digest, true), pass.inputHash, pass.signed, None,
                            Some(BuildRecord(digest, names, "", None))));
    }

    method Reconcile(repo: Repository, pass: Pass)
      modifies this, repo
      ensures World(repo.state, status) == Reconciled(World(old(repo.state), old(status)), pass, old(repo.fuse))
    {
      hide Decide, LearnedOf, MarkArtifact, Marked, WritesOf, ResultOf, Landed;
      var artifact, history := BackfillDigestTags(repo, status.artifact, status.history, pass.replies,
                                                  pass.target.pull, DigestTag, pass.now);
      if pass.marked {
        status := status.(artifact := artifact, history := history);
      }
      if pass.suspended {
        return;
      }
      var r := ReconcileArtifact(repo, pass);
      if r.Some? && pass.landed {
        var history' := RecordHistory(status.history, r.value.record, pass.limit);
        status := Status(Some(r.value.artifact), r.value.inputHash, history', r.value.conflict, r.value.attested);
      }
    }
  }
}
