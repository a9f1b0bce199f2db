/** Giving content published before digests had their own tags its own tag
    (internal/reconciler/digesttag.go, and backfillDigestTags of both controllers). */
module Backfill {
  import opened Strings
  import opened Registries
  import opened Tags

  /** A history entry still waiting: names a digest, does not claim the tag, is not known lost. */
  predicate NeedsDigestTag(rec: BuildRecord) {
    rec.digest != "" && rec.lost.None? && !HasDigestTag(rec.tags, rec.digest)
  }

  predicate ArtifactWaits(artifact: Option<ArtifactStatus>) {
    artifact.Some? && artifact.value.digest != "" && !HasDigestTag(artifact.value.tags, artifact.value.digest)
  }

  /** How the registry takes one request to name a digest: it answers, it does not, or it applies
      the tag and then fails to list the referrers. */
  datatype Reply = Answers | Unreachable | FailsAfterTag

  datatype Answer = Success | NotFound | NoAnswer

  function Named(reg: Registry, digest: string, reply: Reply): (Registry, Answer) {
    if reply == Unreachable then (reg, NoAnswer)
    else if digest !in reg.manifests then (reg, NotFound)
    else (Apply(reg, PutTag(DigestTag(digest), digest)), if reply == Answers then Success else NoAnswer)
  }

  method ApplyDigestTagWithReferrers(repo: Repository, digest: string, reply: Reply) returns (answer: Answer)
    modifies repo
    ensures (repo.state, answer) == Named(old(repo.state), digest, reply)
    ensures repo.fuse == old(repo.fuse)
  {
    if reply == Unreachable {
      return NoAnswer;
    }
    var found := repo.HeadDigest(digest);
    if !found {
      return NotFound;
    }
    repo.state := Apply(repo.state, PutTag(DigestTag(digest), digest));
    answer := if reply == Answers then Success else NoAnswer;
  }

  function Noted(known: map<string, bool>, digest: string, answer: Answer): map<string, bool> {
    match answer
    case Success => known[digest := true]
    case NotFound => known[digest := false]
    case NoAnswer => known
  }

  function MarkRecord(rec: BuildRecord, known: map<string, bool>, current: Option<string>,
                      tagFor: string -> string, now: int): BuildRecord {
    if rec.digest !in known || !NeedsDigestTag(rec) then rec
    else if known[rec.digest] then rec.(tags := rec.tags + [tagFor(rec.digest)])
    else if current != Some(rec.digest) then rec.(lost := Some(now))
    else rec
  }

  function Marked(history: seq<BuildRecord>, known: map<string, bool>, current: Option<string>,
                  tagFor: string -> string, now: int): (r: seq<BuildRecord>)
  {
    seq(|history|, i requires 0 <= i < |history| => MarkRecord(history[i], known, current, tagFor, now))
  }

  /** What one pass learned per digest: tagged, or found gone. */
  class DigestTagOutcomes {
    var known: map<string, bool>

    constructor ()
      ensures known == map[]
    {
      known := map[];
    }

    method Record(digest: string, answer: Answer)
      modifies this
      ensures known == Noted(old(known), digest, answer)
    {
      match answer {
        case Success => known := known[digest := true];
        case NotFound => known := known[digest := false];
        case NoAnswer =>
      }
    }

    method MarkHistory(history: seq<BuildRecord>, current: Option<string>, tagFor: string -> string, now: int)
      returns (out: seq<BuildRecord>)
      ensures out == Marked(history, known, current, tagFor, now)
    {
      hide HasDigestTag;
      out := history;
      for i := 0 to |history|
        invariant |out| == |history|
        invariant forall j :: 0 <= j < i ==> out[j] == MarkRecord(history[j], known, current, tagFor, now)
        invariant forall j :: i <= j < |out| ==> out[j] == history[j]
      {
        var rec := out[i];
        if rec.digest !in known || !NeedsDigestTag(rec) {
        } else if known[rec.digest] {
          out := out[i := rec.(tags := rec.tags + [tagFor(rec.digest)])];
        } else if current != Some(rec.digest) {
          out := out[i := rec.(lost := Some(now))];
        }
      }
    }
  }

  // ---------- One pass ----------

  /** The digests asked for: the artifact's first, then those of the first n history entries. */
  function Asks(artifact: Option<ArtifactStatus>, history: seq<BuildRecord>, n: nat): seq<string>
    requires n <= |history|
  {
    if n == 0 then if ArtifactWaits(artifact) then [artifact.value.digest] else []
    else Asks(artifact, history, n - 1) + if NeedsDigestTag(history[n - 1]) then [history[n - 1].digest] else []
  }

  datatype Learned = Learned(reg: Registry, known: map<string, bool>)

  function Ask(l: Learned, digest: string, reply: Reply): Learned {
    if digest in l.known then l
    else
      var r := Named(l.reg, digest, reply);
      Learned(r.0, Noted(l.known, digest, r.1))
  }

  /** After the first n questions; a digest already learned is not asked about again. */
  function AfterAsking(reg: Registry, asks: seq<string>, replies: nat -> Reply, n: nat): Learned
    requires n <= |asks|
  {
    if n == 0 then Learned(reg, map[]) else Ask(AfterAsking(reg, asks, replies, n - 1), asks[n - 1], replies(n - 1))
  }

  function MarkArtifact(artifact: Option<ArtifactStatus>, known: map<string, bool>,
                        pull: string): Option<ArtifactStatus> {
    if artifact.Some? && artifact.value.digest in known && known[artifact.value.digest]
       && !HasDigestTag(artifact.value.tags, artifact.value.digest) then
      Some(artifact.value.(tags := artifact.value.tags + [pull + ":" + DigestTag(artifact.value.digest)]))
    else artifact
  }

  function DigestOf(artifact: Option<ArtifactStatus>): Option<string> {
    if artifact.Some? then Some(artifact.value.digest) else None
  }

  function LearnedOf(reg: Registry, artifact: Option<ArtifactStatus>, history: seq<BuildRecord>,
                     replies: nat -> Reply): Learned {
    var asks := Asks(artifact, history, |history|);
    AfterAsking(reg, asks, replies, |asks|)
  }

  method AskOnce(repo: Repository, outcome: DigestTagOutcomes, digest: string, reply: Reply)
    modifies repo, outcome
    ensures Learned(repo.state, outcome.known) == Ask(Learned(old(repo.state), old(outcome.known)), digest, reply)
    ensures repo.fuse == old(repo.fuse)
  {
    hide Named, Noted, DigestTag;
    if digest in outcome.known {
      return;
    }
    var answer := ApplyDigestTagWithReferrers(repo, digest, reply);
    outcome.Record(digest, answer);
  }

  /** One pass of either controller: `pull` is the repository's public name, and `tagFor` is how
      the kind writes a tag in its history. */
  method BackfillDigestTags(repo: Repository, artifact: Option<ArtifactStatus>, history: seq<BuildRecord>,
                            replies: nat -> Reply, pull: string, tagFor: string -> string, now: int)
    returns (marked: Option<ArtifactStatus>, records: seq<BuildRecord>)
    modifies repo
    ensures repo.state == LearnedOf(old(repo.state), artifact, history, replies).reg
    ensures repo.fuse == old(repo.fuse)
    ensures marked == MarkArtifact(artifact, LearnedOf(old(repo.state), artifact, history, replies).known, pull)
    ensures records == Marked(history, LearnedOf(old(repo.state), artifact, history, replies).known,
                              DigestOf(artifact), tagFor, now)
  {
    hide NeedsDigestTag, HasDigestTag, Ask, DigestTag, Marked;
    ghost var reg := repo.state;
    ghost var asks := Asks(artifact, history, |history|);
    var outcome := new DigestTagOutcomes();
    var asked: nat := 0;
    if ArtifactWaits(artifact) {
      AskOnce(repo, outcome, artifact.value.digest, replies(0));
      asked := 1;
    }
    for n := 0 to |history|
      invariant fresh(outcome) && repo.fuse == old(repo.fuse)
      invariant asked == |Asks(artifact, history, n)|
      invariant Learned(repo.state, outcome.known) == AfterAsking(reg, Asks(artifact, history, n), replies, asked)
    {
      ghost var before, after := Asks(artifact, history, n), Asks(artifact, history, n + 1);
      if NeedsDigestTag(history[n]) {
        AskingPrefix(reg, before, after, replies, asked);
        AskOnce(repo, outcome, history[n].digest, replies(asked));
        asked := asked + 1;
      } else {
        assert after == before;
      }
    }
    marked := artifact;
    if artifact.Some? && artifact.value.digest in outcome.known && outcome.known[artifact.value.digest] {
      var art := artifact.value;
      if !HasDigestTag(art.tags, art.digest) {
        marked := Some(art.(tags := art.tags + [pull + ":" + DigestTag(art.digest)]));
      }
    }
    records := outcome.MarkHistory(history, DigestOf(artifact), tagFor, now);
  }

  lemma {:induction false} AskingPrefix(reg: Registry, before: seq<string>, after: seq<string>, replies: nat -> Reply,
                                        n: nat)
    requires n <= |before| && before <= after
    ensures AfterAsking(reg, before, replies, n) == AfterAsking(reg, after, replies, n)
  {
    if n > 0 {
      AskingPrefix(reg, before, after, replies, n - 1);
    }
  }

  // ---------- What a pass achieves ----------

  /** How a kind writes a digest's own tag must be recognised again. */
  predicate Recognised(tagFor: string -> string, digest: string) {
    Claims(tagFor(digest), DigestTag(digest))
  }

  lemma ClaimsAppended(tags: seq<string>, digest: string, t: string)
    ensures HasDigestTag(tags + [t], digest) <==> HasDigestTag(tags, digest) || Claims(t, DigestTag(digest))
  {
    hide Claims, DigestTag;
    var more := tags + [t];
    assert more[|tags|] == t;
    if HasDigestTag(tags, digest) {
      var i :| 0 <= i < |tags| && Claims(tags[i], DigestTag(digest));
      assert more[i] == tags[i];
    }
  }

  /** The bare own tag, a composition's form, and the qualified one, a build's and the artifact's. */
  lemma OwnTagRecognised(pull: string, digest: string)
    ensures Claims(DigestTag(digest), DigestTag(digest))
    ensures Claims(pull + ":" + DigestTag(digest), DigestTag(digest))
  {
    hide DigestTag;
    var own := DigestTag(digest);
    assert (pull + ":" + own)[|pull|..] == ":" + own;
  }

  lemma {:induction false} AsksIs(artifact: Option<ArtifactStatus>, history: seq<BuildRecord>, n: nat)
    requires n <= |history|
    ensures ArtifactWaits(artifact) ==> artifact.value.digest in Asks(artifact, history, n)
    ensures forall i :: 0 <= i < n && NeedsDigestTag(history[i]) ==> history[i].digest in Asks(artifact, history, n)
  {
    hide NeedsDigestTag;
    if n > 0 {
      AsksIs(artifact, history, n - 1);
    }
  }

  predicate AllAnswered(replies: nat -> Reply, n: nat) {
    forall i: nat :: i < n ==> replies(i) == Answers
  }

  /** Learned facts are facts: what is noted tagged has its own tag, what is noted gone is not
      served, and a request that is answered always teaches something. */
  lemma {:induction false} LearnedIsTrue(reg: Registry, asks: seq<string>, replies: nat -> Reply, n: nat)
    requires n <= |asks| && forall d :: d in asks ==> IsDigest(d)
    ensures var l := AfterAsking(reg, asks, replies, n);
            && l.reg.manifests == reg.manifests
            && (forall d :: d in l.known ==> d in asks[..n])
            && (forall d :: d in l.known && l.known[d] ==> d in reg.manifests && Resolves(l.reg, DigestTag(d), d))
            && (forall d :: d in l.known && !l.known[d] ==> d !in reg.manifests)
            && (AllAnswered(replies, n) ==> forall d :: d in asks[..n] ==> d in l.known)
  {
    hide DigestTag, IsDigest;
    if n > 0 {
      LearnedIsTrue(reg, asks, replies, n - 1);
      assert asks[..n] == asks[..n - 1] + [asks[n - 1]];
      var l, d := AfterAsking(reg, asks, replies, n - 1), asks[n - 1];
      if d !in l.known && replies(n - 1) != Unreachable && d in l.reg.manifests {
        forall e | e in l.known && l.known[e] ensures Resolves(Apply(l.reg, PutTag(DigestTag(d), d)), DigestTag(e), e) {
          if DigestTag(e) == DigestTag(d) {
            assert e in asks;
            DigestTagInjective(d, e);
          }
        }
      }
    }
  }

  /** One question about a digest not yet learned: the own tag is given when the registry is reached and
      serves it; that it was given is learned only when everything else is answered too, that it is gone
      whenever the registry says so; no other digest and no other tag is touched. */
  lemma AskExactly(l: Learned, digest: string, reply: Reply, other: string)
    requires digest !in l.known
    ensures var after := Ask(l, digest, reply);
            var served := digest in l.reg.manifests;
            && after.reg.manifests == l.reg.manifests
            && (reply != Unreachable && served ==> Resolves(after.reg, DigestTag(digest), digest))
            && (reply == Unreachable || !served ==> after.reg == l.reg)
            && (other != DigestTag(digest) ==>
                  (other in after.reg.tags <==> other in l.reg.tags)
                  && (other in l.reg.tags ==> after.reg.tags[other] == l.reg.tags[other]))
            && (digest in after.known <==> reply == Answers || (reply == FailsAfterTag && !served))
            && (digest in after.known ==> after.known[digest] == served)
            && (other != digest ==>
                  (other in after.known <==> other in l.known)
                  && (other in l.known ==> after.known[other] == l.known[other]))
  {
    hide DigestTag;
    if digest in l.reg.manifests {
      assert l.reg.manifests + {digest} == l.reg.manifests;
    }
  }

  /** What a pass writes to one record: nothing when it does not wait or nothing was learned of its digest; its
      own tag, behind the others, when that was given; and when the digest is gone, the time of the pass,
      unless it is the current artifact's, which is repaired rather than given up. */
  lemma MarkedExactly(history: seq<BuildRecord>, known: map<string, bool>, current: Option<string>,
                      tagFor: string -> string, now: int, i: nat)
    requires i < |history|
    ensures var rec, marked := history[i], Marked(history, known, current, tagFor, now);
            var waits := rec.digest != "" && rec.lost == None && !HasDigestTag(rec.tags, rec.digest);
            && |marked| == |history|
            && marked[i].digest == rec.digest && marked[i].inputHash == rec.inputHash
            && marked[i].tags == (if waits && rec.digest in known && known[rec.digest]
                                  then rec.tags + [tagFor(rec.digest)] else rec.tags)
            && marked[i].lost == (if waits && rec.digest in known && !known[rec.digest] && current != Some(rec.digest)
                                  then Some(now) else rec.lost)
  {
    hide HasDigestTag;
  }

  /** A pass only adds digests' own tags, and only of manifests the registry serves. */
  lemma {:induction false} AskingOnlyNames(reg: Registry, asks: seq<string>, replies: nat -> Reply, n: nat, t: string)
    requires n <= |asks|
    ensures var after := AfterAsking(reg, asks, replies, n).reg;
            && (t in reg.tags ==> t in after.tags)
            && (t in after.tags && !Resolves(reg, t, after.tags[t]) ==>
                  after.tags[t] in reg.manifests && t == DigestTag(after.tags[t]) && after.tags[t] in asks)
  {
    hide DigestTag;
    if n > 0 {
      AskingOnlyNames(reg, asks, replies, n - 1, t);
      AskingKeepsManifests(reg, asks, replies, n - 1);
    }
  }

  lemma {:induction false} AskingKeepsManifests(reg: Registry, asks: seq<string>, replies: nat -> Reply, n: nat)
    requires n <= |asks|
    ensures AfterAsking(reg, asks, replies, n).reg.manifests == reg.manifests
  {
    if n > 0 {
      AskingKeepsManifests(reg, asks, replies, n - 1);
    }
  }

  /** What a pass may do to one record, whatever the registry answered. */
  predicate MarkedFrom(before: BuildRecord, after: BuildRecord) {
    || after == before
    || (NeedsDigestTag(before) && after == before.(tags := after.tags) && HasDigestTag(after.tags, after.digest))
    || (NeedsDigestTag(before) && after == before.(lost := after.lost) && after.lost.Some?)
  }

  /** Both claiming its own tag and known lost. */
  predicate TaggedAndLost(rec: BuildRecord) {
    rec.lost.Some? && HasDigestTag(rec.tags, rec.digest)
  }

  /** No pass adds a waiting record or makes one both tagged and lost, whatever was answered. */
  lemma NoPassAddsWork(rec: BuildRecord, known: map<string, bool>, current: Option<string>, tagFor: string -> string,
                       now: int)
    requires Recognised(tagFor, rec.digest)
    ensures var after := MarkRecord(rec, known, current, tagFor, now);
            && MarkedFrom(rec, after)
            && (NeedsDigestTag(after) ==> after == rec)
            && (TaggedAndLost(after) ==> TaggedAndLost(rec))
  {
    hide HasDigestTag, Claims, DigestTag;
    ClaimsAppended(rec.tags, rec.digest, tagFor(rec.digest));
  }

  ghost predicate AllDigests(artifact: Option<ArtifactStatus>, history: seq<BuildRecord>) {
    && (ArtifactWaits(artifact) ==> IsDigest(artifact.value.digest))
    && forall rec :: rec in history && NeedsDigestTag(rec) ==> IsDigest(rec.digest)
  }

  lemma {:induction false} AsksDigests(artifact: Option<ArtifactStatus>, history: seq<BuildRecord>, n: nat)
    requires n <= |history| && AllDigests(artifact, history)
    ensures forall d :: d in Asks(artifact, history, n) ==> IsDigest(d)
  {
    hide IsDigest, HasDigestTag, ArtifactWaits, NeedsDigestTag;
    if n > 0 {
      AsksDigests(artifact, history, n - 1);
    }
  }

  /** A pass all of whose requests are answered leaves nothing waiting, except records of the
      current artifact's digest when the registry does not serve it. */
  lemma AnsweredPassSettles(reg: Registry, artifact: Option<ArtifactStatus>, history: seq<BuildRecord>,
                            replies: nat -> Reply, pull: string, tagFor: string -> string, now: int)
    requires AllDigests(artifact, history)
    requires AllAnswered(replies, |Asks(artifact, history, |history|)|)
    requires forall rec :: rec in history ==> Recognised(tagFor, rec.digest)
    ensures var l := LearnedOf(reg, artifact, history, replies);
            && (ArtifactWaits(MarkArtifact(artifact, l.known, pull)) ==> artifact.value.digest !in reg.manifests)
            && forall rec :: rec in Marked(history, l.known, DigestOf(artifact), tagFor, now) && NeedsDigestTag(rec) ==>
                 DigestOf(artifact) == Some(rec.digest) && rec.digest !in reg.manifests
  {
    hide HasDigestTag, Claims, DigestTag, IsDigest, AfterAsking;
    var asks := Asks(artifact, history, |history|);
    var l := LearnedOf(reg, artifact, history, replies);
    AsksIs(artifact, history, |history|);
    AsksDigests(artifact, history, |history|);
    LearnedIsTrue(reg, asks, replies, |asks|);
    assert asks[..|asks|] == asks;
    if ArtifactWaits(artifact) {
      OwnTagRecognised(pull, artifact.value.digest);
      ClaimsAppended(artifact.value.tags, artifact.value.digest, pull + ":" + DigestTag(artifact.value.digest));
    }
    var after := Marked(history, l.known, DigestOf(artifact), tagFor, now);
    forall rec | rec in after && NeedsDigestTag(rec)
      ensures DigestOf(artifact) == Some(rec.digest) && rec.digest !in reg.manifests
    {
      var i :| 0 <= i < |after| && after[i] == rec;
      assert history[i] in history;
      NoPassAddsWork(history[i], l.known, DigestOf(artifact), tagFor, now);
    }
  }

  /** With nothing waiting a pass makes no request, and changes neither the registry nor status. */
  lemma {:induction false} NothingWaits(reg: Registry, artifact: Option<ArtifactStatus>, history: seq<BuildRecord>,
                     replies: nat -> Reply, pull: string, tagFor: string -> string, now: int)
    requires !ArtifactWaits(artifact) && forall rec :: rec in history ==> !NeedsDigestTag(rec)
    ensures Asks(artifact, history, |history|) == []
    ensures LearnedOf(reg, artifact, history, replies) == Learned(reg, map[])
    ensures MarkArtifact(artifact, map[], pull) == artifact
    ensures Marked(history, map[], DigestOf(artifact), tagFor, now) == history
  {
    NoAsks(artifact, history, |history|);
  }

  lemma {:induction false} NoAsks(artifact: Option<ArtifactStatus>, history: seq<BuildRecord>, n: nat)
    requires n <= |history| && !ArtifactWaits(artifact) && forall rec :: rec in history ==> !NeedsDigestTag(rec)
    ensures Asks(artifact, history, n) == []
  {
    if n > 0 {
      NoAsks(artifact, history, n - 1);
      assert history[n - 1] in history;
    }
  }

  lemma {:induction false} KnownWasAsked(reg: Registry, asks: seq<string>, replies: nat -> Reply, n: nat)
    requires n <= |asks|
    ensures forall d :: d in AfterAsking(reg, asks, replies, n).known ==> d in asks
  {
    if n > 0 {
      KnownWasAsked(reg, asks, replies, n - 1);
    }
  }

  /** Only what waits is asked about. */
  lemma {:induction false} AsksWait(artifact: Option<ArtifactStatus>, history: seq<BuildRecord>, n: nat, d: string)
    requires n <= |history| && d in Asks(artifact, history, n)
    ensures d != ""
    ensures (ArtifactWaits(artifact) && artifact.value.digest == d)
         || exists rec :: rec in history && NeedsDigestTag(rec) && rec.digest == d
  {
    hide HasDigestTag;
    if n > 0 {
      if NeedsDigestTag(history[n - 1]) && history[n - 1].digest == d {
        assert history[n - 1] in history;
      } else {
        AsksWait(artifact, history, n - 1, d);
      }
    }
  }
}
