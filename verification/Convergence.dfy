/** Publishing is crash-safe: an interrupted publish, retried, never stops on its own tags, and
    reaches the registry an uninterrupted one reaches but for one case, given exactly; and a
    converged pass writes nothing. */
module Convergence {
  import opened Strings
  import opened Registries
  import opened Tags
  import opened Statuses
  import opened Backfill
  import opened Composer
  import P = Published

  // ---------- The registry during a publish ----------

  predicate SameAt(a: Registry, b: Registry, t: string) {
    (t in a.tags <==> t in b.tags) && (t in a.tags ==> a.tags[t] == b.tags[t])
  }

  /** `reg` is `base` with part of one digest's publication under `names` done, whatever became of the
      tags set aside. */
  ghost predicate Between(base: Registry, reg: Registry, names: seq<string>, d: string, aside: set<string> := {}) {
    && base.manifests <= reg.manifests <= base.manifests + {d}
    && (forall t :: t in names ==> SameAt(base, reg, t) || Resolves(reg, t, d))
    && forall t :: t !in names && t !in aside ==> SameAt(base, reg, t)
  }

  lemma BetweenWider(base: Registry, reg: Registry, names: seq<string>, d: string, aside: set<string>)
    requires Between(base, reg, names, d)
    ensures Between(base, reg, names, d, aside)
  {
  }

  /** The same registry, but for the tags set aside. */
  ghost predicate AgreeBut(a: Registry, b: Registry, aside: set<string>) {
    a.manifests == b.manifests && forall t :: t !in aside ==> SameAt(a, b, t)
  }

  lemma AgreeIsEqual(a: Registry, b: Registry)
    ensures AgreeBut(a, b, {}) <==> a == b
  {
    if AgreeBut(a, b, {}) {
      assert forall t :: t in a.tags ==> SameAt(a, b, t);
      assert forall t :: t in b.tags ==> SameAt(a, b, t);
      assert a.tags == b.tags;
    }
  }

  function PublishWrites(names: seq<string>, d: string): seq<Write> {
    [PutManifest(d)] + TagWrites(names, d)
  }

  /** After the push by digest and the first n tags. */
  lemma {:induction false} PartWay(base: Registry, names: seq<string>, d: string, n: nat)
    requires n <= |names|
    ensures var reg := ApplyTo(base, PublishWrites(names, d), n + 1);
            && Between(base, reg, names, d)
            && reg.manifests == base.manifests + {d}
            && forall t :: t in names[..n] ==> Resolves(reg, t, d)
  {
    var ws := PublishWrites(names, d);
    if n == 0 {
      assert ApplyTo(base, ws, 0) == base;
      assert ApplyTo(base, ws, 1) == Apply(base, ws[0]);
    } else {
      PartWay(base, names, d, n - 1);
      assert ws[n] == PutTag(names[n - 1], d);
      assert ApplyTo(base, ws, n + 1) == Apply(ApplyTo(base, ws, n), PutTag(names[n - 1], d));
      assert names[..n] == names[..n - 1] + [names[n - 1]];
      assert names[n - 1] in names;
    }
  }

  /** However many of the writes land, the registry is part-way. */
  lemma InterruptedIsBetween(base: Registry, names: seq<string>, d: string, fuse: nat)
    ensures Between(base, Landed(base, PublishWrites(names, d), fuse), names, d)
  {
    hide Between;
    var ws := PublishWrites(names, d);
    assert |ws| == |names| + 1;
    if fuse == 0 {
      assert Landed(base, ws, fuse) == base;
      SameIsBetween(base, names, d);
    } else {
      PartWay(base, names, d, if fuse < |ws| then fuse - 1 else |names|);
    }
  }

  lemma SameIsBetween(base: Registry, names: seq<string>, d: string)
    ensures Between(base, base, names, d)
  {
  }

  /** Part-way with every name in place is the end. */
  lemma InPlaceAgree(base: Registry, a: Registry, b: Registry, names: seq<string>, d: string, aside: set<string>)
    requires Between(base, a, names, d, aside) && Between(base, b, names, d, aside)
    requires P.InPlace(a, names, d) && P.InPlace(b, names, d)
    ensures AgreeBut(a, b, aside)
  {
    forall t | t !in aside ensures SameAt(a, b, t) {
      if t in names {
        assert Resolves(a, t, d) && Resolves(b, t, d);
      } else {
        assert SameAt(base, a, t) && SameAt(base, b, t);
      }
    }
  }

  lemma InPlaceIsUnique(base: Registry, a: Registry, b: Registry, names: seq<string>, d: string)
    requires Between(base, a, names, d) && Between(base, b, names, d)
    requires P.InPlace(a, names, d) && P.InPlace(b, names, d)
    ensures a == b
  {
    InPlaceAgree(base, a, b, names, d, {});
    AgreeIsEqual(a, b);
  }

  /** Every publish from a part-way state ends where a publish from the start does. */
  lemma BetweenTrans(base: Registry, mid: Registry, reg: Registry, names: seq<string>, d: string,
                     aside: set<string> := {})
    requires Between(base, mid, names, d, aside) && Between(mid, reg, names, d, aside)
    ensures Between(base, reg, names, d, aside)
  {
    forall t | t in names ensures SameAt(base, reg, t) || Resolves(reg, t, d) {
      assert SameAt(mid, reg, t) || Resolves(reg, t, d);
      assert SameAt(base, mid, t) || Resolves(mid, t, d);
    }
    forall t | t !in names && t !in aside ensures SameAt(base, reg, t) {
      assert SameAt(mid, reg, t) && SameAt(base, mid, t);
    }
  }

  lemma CompletePublish(base: Registry, names: seq<string>, d: string, fuse: nat)
    requires |names| + 1 <= fuse
    ensures Between(base, Landed(base, PublishWrites(names, d), fuse), names, d)
    ensures P.InPlace(Landed(base, PublishWrites(names, d), fuse), names, d)
  {
    hide Between;
    PartWay(base, names, d, |names|);
    assert names[..|names|] == names;
  }

  // ---------- The backfill during a publish ----------

  /** What an answered backfill leaves: nothing waits for its own tag that could be given it. */
  ghost predicate NothingToName(reg: Registry, status: Status) {
    && (ArtifactWaits(status.artifact) ==> status.artifact.value.digest !in reg.manifests)
    && forall rec :: rec in status.history && NeedsDigestTag(rec) ==> rec.digest !in reg.manifests
  }

  /** What waits and could be given its own tag is the digest being published, or its tag is set aside. */
  ghost predicate Spared(reg: Registry, status: Status, d: string, aside: set<string>) {
    && (ArtifactWaits(status.artifact) ==> SparesOne(reg, status.artifact.value.digest, d, aside))
    && forall rec :: rec in status.history && NeedsDigestTag(rec) ==> SparesOne(reg, rec.digest, d, aside)
  }

  predicate SparesOne(reg: Registry, e: string, d: string, aside: set<string>) {
    e in reg.manifests ==> e == d || DigestTag(e) in aside
  }

  lemma NothingIsSpared(reg: Registry, status: Status, d: string)
    requires NothingToName(reg, status)
    ensures Spared(reg, status, d, {})
  {
    hide NeedsDigestTag, ArtifactWaits, DigestTag;
  }

  ghost predicate Proper(status: Status) {
    AllDigests(status.artifact, status.history)
  }

  predicate Answered(w: World, pass: Pass) {
    pass.marked && AllAnswered(pass.replies, |Asks(w.status.artifact, w.status.history, |w.status.history|)|)
  }

  lemma BareRecognised(history: seq<BuildRecord>)
    ensures forall rec :: rec in history ==> Recognised(DigestTag, rec.digest)
  {
    forall rec | rec in history ensures Recognised(DigestTag, rec.digest) {
      OwnTagRecognised("", rec.digest);
    }
  }

  lemma AnsweredBackfillNames(w: World, pass: Pass)
    requires Proper(w.status) && Answered(w, pass)
    ensures NothingToName(Backfilled(w, pass).reg, Backfilled(w, pass).status)
  {
    hide ArtifactWaits, NeedsDigestTag, MarkArtifact, Marked, Asks, AfterAsking, Recognised;
    BareRecognised(w.status.history);
    AnsweredPassSettles(w.reg, w.status.artifact, w.status.history, pass.replies,
                        pass.target.pull, DigestTag, pass.now);
    MarkedKeepsDigest(w, pass);
    AskingKeepsManifests(w.reg, Asks(w.status.artifact, w.status.history, |w.status.history|), pass.replies,
                         |Asks(w.status.artifact, w.status.history, |w.status.history|)|);
  }

  lemma MarkedKeepsDigest(w: World, pass: Pass)
    ensures DigestOf(Backfilled(w, pass).status.artifact) == DigestOf(w.status.artifact)
    ensures Backfilled(w, pass).status.inputHash == w.status.inputHash
    ensures Backfilled(w, pass).status.attested == w.status.attested
    ensures w.status.artifact.Some? ==> Backfilled(w, pass).status.artifact.Some?
                                          && Backfilled(w, pass).status.artifact.value.digest ==
                                             w.status.artifact.value.digest
    ensures !ArtifactWaits(w.status.artifact) ==>
              Looked(Backfilled(w, pass).status.artifact, pass.target.tags) ==
              Looked(w.status.artifact, pass.target.tags)
  {
    hide AfterAsking, Asks, Marked, HasDigestTag, PublishTags, DigestTag;
    var l := LearnedOf(w.reg, w.status.artifact, w.status.history, pass.replies);
    var a := w.status.artifact;
    if a.Some? && a.value.digest in l.known {
      var asks := Asks(a, w.status.history, |w.status.history|);
      KnownWasAsked(w.reg, asks, pass.replies, |asks|);
      AsksWait(a, w.status.history, |w.status.history|, a.value.digest);
    }
  }

  /** A backfill after an interrupted publish names nothing but the digest being published. */
  lemma AskingIsBetween(base: Registry, reg: Registry, status: Status, replies: nat -> Reply, names: seq<string>,
                        d: string, aside: set<string> := {})
    requires Spared(base, status, d, aside) && forall t :: t in names ==> t !in aside
    requires reg.manifests <= base.manifests + {d} && DigestTag(d) in names
    ensures Between(reg, LearnedOf(reg, status.artifact, status.history, replies).reg, names, d, aside)
  {
    hide ArtifactWaits, NeedsDigestTag, AfterAsking, Asks, DigestTag;
    var history := status.history;
    var after := LearnedOf(reg, status.artifact, history, replies).reg;
    var asks := Asks(status.artifact, history, |history|);
    AskingKeepsManifests(reg, asks, replies, |asks|);
    forall t | t !in aside ensures SameAt(reg, after, t) || (t == DigestTag(d) && Resolves(after, t, d)) {
      AskingOnlyNames(reg, asks, replies, |asks|, t);
      if t in after.tags && !Resolves(reg, t, after.tags[t]) {
        AsksWait(status.artifact, history, |history|, after.tags[t]);
        assert SparesOne(base, after.tags[t], d, aside);
      }
    }
  }

  lemma BackfillIsBetween(base: Registry, w: World, pass: Pass, names: seq<string>, d: string, aside: set<string>)
    requires Spared(base, w.status, d, aside) && forall t :: t in names ==> t !in aside
    requires w.reg.manifests <= base.manifests + {d} && DigestTag(d) in names
    ensures Between(w.reg, Backfilled(w, pass).reg, names, d, aside)
  {
    hide Spared, LearnedOf, MarkArtifact, Marked, DigestTag, Between;
    AskingIsBetween(base, w.reg, w.status, pass.replies, names, d, aside);
  }

  // ---------- A retry ----------

  /** A retry of the same publication: same target, inputs and output. */
  ghost predicate Retries(retry: Pass, pass: Pass, d: string) {
    && retry.target == pass.target && retry.inputHash == pass.inputHash && retry.attestor == pass.attestor
    && retry.produced == Some(d) && !retry.suspended
  }

  function Names(pass: Pass, d: string): seq<string> {
    PublishTags(pass.target.tags, d)
  }

  lemma NamesAre(pass: Pass, d: string)
    requires NoDuplicates(pass.target.tags)
    ensures NoDuplicates(Names(pass, d)) && DigestTag(d) in Names(pass, d)
    ensures forall t :: t in pass.target.tags ==> t in Names(pass, d)
  {
    hide DigestTag;
    PublishTagsIs(pass.target.tags, d);
  }

  lemma LookedIncludes(artifact: Option<ArtifactStatus>, tags: seq<string>)
    ensures forall t :: t in tags ==> t in Looked(artifact, tags)
    ensures NoDuplicates(tags) ==> NoDuplicates(Looked(artifact, tags))
  {
    hide DigestTag, HasDigestTag;
    if artifact.Some? {
      PublishTagsIs(tags, artifact.value.digest);
    }
  }

  /** What a decision says about the registry it was taken on. */
  lemma DecisionMeans(reg: Registry, status: Status, pass: Pass)
    ensures match Decide(reg, status, pass)
      case ShortCut =>
        (status.artifact.Some? && status.artifact.value.digest != ""
         && P.InPlace(reg, Looked(status.artifact, pass.target.tags), status.artifact.value.digest))
      case Failed => pass.produced.None?
      case NameOnly(d) => pass.produced == Some(d) && P.InPlace(reg, Looked(status.artifact, pass.target.tags), d)
      case Publish(d) =>
        (pass.produced == Some(d)
         && (pass.target.policy != Overwrite ==> forall t :: t in pass.target.tags ==> !P.TakenFrom(reg, t, d)))
      case Refuse(c) =>
        (pass.produced.Some? && pass.target.policy == Fail
         && c.tag in pass.target.tags && P.TakenFrom(reg, c.tag, pass.produced.value) && c.current == reg.tags[c.tag])
      case KeepExisting(c, d) =>
        (pass.produced == Some(d) && pass.target.policy == Keep
         && c.tag in pass.target.tags && P.TakenFrom(reg, c.tag, d) && c.current == reg.tags[c.tag])
  {
    hide HasDigestTag, PublishTags, Complete, P.InPlace, P.Matches, P.FirstConflict, P.Resolved, Looked, NoDuplicates,
      P.TakenFrom;
    var looked, prev := Looked(status.artifact, pass.target.tags), DigestOf(status.artifact);
    LookedIncludes(status.artifact, pass.target.tags);
    if status.artifact.Some? {
      P.MatchesExactly(reg, looked, prev, status.artifact.value.digest);
    }
    if pass.produced.Some? {
      P.MatchesExactly(reg, looked, prev, pass.produced.value);
      P.ConflictExactly(reg, looked, pass.target.tags, prev, pass.produced.value);
    }
  }

  /** No tag a publish has reached so far stops its retry. */
  lemma RetryNotStopped(base: Registry, reg: Registry, status: Status, pass: Pass, retry: Pass, d: string,
                        status': Status, aside: set<string>)
    requires NoDuplicates(pass.target.tags) && Retries(retry, pass, d)
    requires Decide(base, status, pass) == Publish(d) && Between(base, reg, Names(pass, d), d, aside)
    ensures Decide(reg, status', retry) in {ShortCut, NameOnly(d), Publish(d)}
  {
    hide Decide, Looked, Names, P.InPlace, NoDuplicates;
    DecisionMeans(base, status, pass);
    DecisionMeans(reg, status', retry);
    NamesAre(pass, d);
    forall t | t in pass.target.tags && pass.target.policy != Overwrite ensures !P.TakenFrom(reg, t, d) {
      assert !P.TakenFrom(base, t, d);
      assert SameAt(base, reg, t) || Resolves(reg, t, d);
    }
  }

  /** The artifact's claim to its own tag is true, if that tag is set aside. */
  predicate ClaimStands(reg: Registry, artifact: Option<ArtifactStatus>, aside: set<string>) {
    artifact.Some? && HasDigestTag(artifact.value.tags, artifact.value.digest)
    && DigestTag(artifact.value.digest) in aside ==>
      Resolves(reg, DigestTag(artifact.value.digest), artifact.value.digest)
  }

  /** A cheap path open during a retry whose first pass found it closed names the digest being published. */
  lemma RetryShortCutIs(base: Registry, reg: Registry, status: Status, status': Status, pass: Pass, retry: Pass,
                        d: string, aside: set<string>)
    requires NoDuplicates(pass.target.tags) && Retries(retry, pass, d)
    requires Decide(base, status, pass) == Publish(d) && Between(base, reg, Names(pass, d), d, aside)
    requires Decide(reg, status', retry) == ShortCut
    requires status.artifact.Some? && status.artifact.value.digest == status'.artifact.value.digest
    requires status.inputHash == status'.inputHash && status.attested == status'.attested
    requires ClaimStands(base, status.artifact, aside) && forall t :: t in Names(pass, d) ==> t !in aside
    requires forall t :: t in Looked(status.artifact, pass.target.tags) ==>
               t in Looked(status'.artifact, pass.target.tags)
    ensures status'.artifact.value.digest == d
  {
    hide Names, NoDuplicates, P.Resolved, P.FirstConflict, P.Matches, Looked, Complete, HasDigestTag, DigestTag;
    var e := status.artifact.value.digest;
    DecisionMeans(reg, status', retry);
    if e != d {
      var looked := Looked(status.artifact, pass.target.tags);
      assert e in base.manifests;
      NamesAre(pass, d);
      forall t | t in looked ensures Resolves(base, t, e) {
        assert Resolves(reg, t, e);
        LookedIs(status.artifact, pass.target.tags, t);
        assert t in aside || SameAt(base, reg, t) || Resolves(reg, t, d);
      }
      LookedIncludes(status.artifact, pass.target.tags);
      P.MatchesExactly(base, looked, Some(e), e);
    }
  }

  lemma LookedIs(artifact: Option<ArtifactStatus>, tags: seq<string>, t: string)
    requires t in Looked(artifact, tags)
    ensures t in tags || (artifact.Some? && HasDigestTag(artifact.value.tags, artifact.value.digest)
                          && t == DigestTag(artifact.value.digest))
  {
    hide HasDigestTag, DigestTag;
    if artifact.Some? {
      PublishTagsIs(tags, artifact.value.digest);
    }
  }

  /** What a backfill marks only takes away from what waits. */
  lemma MarkingShrinks(artifact: Option<ArtifactStatus>, history: seq<BuildRecord>, known: map<string, bool>,
                       pull: string, tagFor: string -> string, now: int)
    requires forall rec :: rec in history ==> Recognised(tagFor, rec.digest)
    ensures ArtifactWaits(MarkArtifact(artifact, known, pull)) ==> artifact == MarkArtifact(artifact, known, pull)
    ensures forall rec :: rec in Marked(history, known, DigestOf(artifact), tagFor, now) && NeedsDigestTag(rec) ==>
              rec in history
  {
    hide HasDigestTag, DigestTag, Claims;
    var after := Marked(history, known, DigestOf(artifact), tagFor, now);
    if artifact.Some? {
      var art := artifact.value;
      OwnTagRecognised(pull, art.digest);
      ClaimsAppended(art.tags, art.digest, pull + ":" + DigestTag(art.digest));
    }
    forall rec | rec in after && NeedsDigestTag(rec) ensures rec in history {
      var i :| 0 <= i < |after| && after[i] == rec;
      assert history[i] in history;
      NoPassAddsWork(history[i], known, DigestOf(artifact), tagFor, now);
    }
  }

  lemma MarkedShrinks(w: World, pass: Pass)
    ensures var st := Backfilled(w, pass).status;
            && (ArtifactWaits(st.artifact) ==> w.status.artifact == st.artifact)
            && forall rec :: rec in st.history && NeedsDigestTag(rec) ==> rec in w.status.history
  {
    hide LearnedOf, MarkArtifact, Marked, ArtifactWaits, NeedsDigestTag, Recognised;
    BareRecognised(w.status.history);
    var l := LearnedOf(w.reg, w.status.artifact, w.status.history, pass.replies);
    MarkingShrinks(w.status.artifact, w.status.history, l.known, pass.target.pull, DigestTag, pass.now);
  }

  /** A backfill makes a later look-up ask for no less. */
  lemma MarkedLooksMore(w: World, pass: Pass, tags: seq<string>)
    ensures forall t :: t in Looked(w.status.artifact, tags) ==> t in Looked(Backfilled(w, pass).status.artifact, tags)
  {
    hide LearnedOf, Marked, HasDigestTag, DigestTag;
    LookedIncludes(Backfilled(w, pass).status.artifact, tags);
  }

  /** Status still says what it said when the publication began, apart from what a backfill marked. */
  ghost predicate SameRecord(base: World, st: Status, tags: seq<string>) {
    && DigestOf(st.artifact) == DigestOf(base.status.artifact)
    && st.inputHash == base.status.inputHash && st.attested == base.status.attested
    && forall t :: t in Looked(base.status.artifact, tags) ==> t in Looked(st.artifact, tags)
  }

  /** Attempts at one publication have led here from `base`, and none of them was recorded. */
  ghost predicate InFlight(base: World, w: World, pass: Pass, d: string, aside: set<string>) {
    && Between(base.reg, w.reg, Names(pass, d), d, aside)
    && Spared(base.reg, w.status, d, aside) && ClaimStands(base.reg, base.status.artifact, aside)
    && (forall t :: t in Names(pass, d) ==> t !in aside)
    && SameRecord(base, w.status, pass.target.tags)
  }

  lemma MarkedSpared(reg: Registry, w: World, pass: Pass, d: string, aside: set<string>)
    requires Spared(reg, w.status, d, aside)
    ensures Spared(reg, Backfilled(w, pass).status, d, aside)
  {
    hide Backfilled, SparesOne, ArtifactWaits, NeedsDigestTag;
    MarkedShrinks(w, pass);
  }

  lemma BackfillStaysInFlight(base: World, w: World, pass: Pass, retry: Pass, d: string, aside: set<string>)
    requires NoDuplicates(pass.target.tags) && Retries(retry, pass, d) && InFlight(base, w, pass, d, aside)
    ensures InFlight(base, Backfilled(w, retry), pass, d, aside)
  {
    hide Backfilled, NoDuplicates, DigestTag, HasDigestTag, IsDigest, PublishTags, Looked, Spared, ClaimStands;
    NamesAre(pass, d);
    BackfillIsBetween(base.reg, w, retry, Names(pass, d), d, aside);
    BetweenTrans(base.reg, w.reg, Backfilled(w, retry).reg, Names(pass, d), d, aside);
    MarkedSpared(base.reg, w, retry, d, aside);
    MarkedLooksMore(w, retry, pass.target.tags);
    MarkedKeepsDigest(w, retry);
    MarkedDigestOf(w, retry);
  }

  lemma MarkedDigestOf(w: World, pass: Pass)
    ensures DigestOf(Backfilled(w, pass).status.artifact) == DigestOf(w.status.artifact)
  {
    hide LearnedOf, Marked, HasDigestTag;
  }

  /** An attempt that is not recorded, however many of its writes land, leaves the publication in
      flight, and is never stopped by the tags an earlier attempt moved. */
  lemma AttemptStaysInFlight(base: World, w: World, pass: Pass, retry: Pass, d: string, fuse: nat, aside: set<string>)
    requires NoDuplicates(pass.target.tags) && Retries(retry, pass, d) && !retry.landed
    requires Decide(base.reg, base.status, pass) == Publish(d) && InFlight(base, w, pass, d, aside)
    ensures InFlight(base, Reconciled(w, retry, fuse), pass, d, aside)
  {
    hide Decide, Backfilled, NoDuplicates, DigestTag, Between, Spared, ClaimStands, SameRecord, Landed, PublishTags;
    var b := Backfilled(w, retry);
    var names := Names(pass, d);
    BackfillStaysInFlight(base, w, pass, retry, d, aside);
    RetryNotStopped(base.reg, b.reg, base.status, pass, retry, d, b.status, aside);
    InterruptedIsBetween(b.reg, names, d, fuse);
    assert WritesOf(Publish(d), pass.target.tags) == PublishWrites(names, d);
    match Decide(b.reg, b.status, retry) {
      case NameOnly(_) =>
        NamingIsBetween(b, retry, d, fuse);
        BetweenWider(b.reg, Reconciled(w, retry, fuse).reg, names, d, aside);
        BetweenTrans(base.reg, b.reg, Reconciled(w, retry, fuse).reg, names, d, aside);
      case Publish(_) =>
        BetweenWider(b.reg, Reconciled(w, retry, fuse).reg, names, d, aside);
        BetweenTrans(base.reg, b.reg, Reconciled(w, retry, fuse).reg, names, d, aside);
      case _ =>
        LandedFew(b.reg, PutManifest(d), fuse);
    }
  }

  lemma NamingIsBetween(b: World, pass: Pass, d: string, fuse: nat)
    requires NoDuplicates(pass.target.tags) && Decide(b.reg, b.status, pass) == NameOnly(d)
    ensures Between(b.reg, Settled(b, pass, fuse).reg, Names(pass, d), d)
  {
    hide Decide, NoDuplicates, Between;
    LandedFew(b.reg, PutTag(DigestTag(d), d), fuse);
    SameIsBetween(b.reg, Names(pass, d), d);
    if fuse > 0 {
      NamingCompletes(b.reg, b, pass, d, fuse, {});
    }
  }

  datatype Attempt = Attempt(pass: Pass, fuse: nat)

  function AfterAttempts(w: World, attempts: seq<Attempt>, n: nat): World
    requires n <= |attempts|
  {
    if n == 0 then w else Reconciled(AfterAttempts(w, attempts, n - 1), attempts[n - 1].pass, attempts[n - 1].fuse)
  }

  /** A publication as it begins: nothing stands against it, and what else waits is set aside. */
  ghost predicate Begins(base: World, pass: Pass, d: string, aside: set<string>) {
    && NoDuplicates(pass.target.tags) && d != "" && Decide(base.reg, base.status, pass) == Publish(d)
    && Spared(base.reg, base.status, d, aside) && ClaimStands(base.reg, base.status.artifact, aside)
    && forall t :: t in Names(pass, d) ==> t !in aside
  }

  lemma {:induction false} AttemptsStayInFlight(base: World, pass: Pass, d: string, attempts: seq<Attempt>, n: nat,
                                                aside: set<string>)
    requires n <= |attempts| && Begins(base, pass, d, aside)
    requires forall a :: a in attempts ==> Retries(a.pass, pass, d) && !a.pass.landed
    ensures InFlight(base, AfterAttempts(base, attempts, n), pass, d, aside)
  {
    hide Decide, Reconciled, NoDuplicates, Between, Spared, ClaimStands, Looked, Retries, Names;
    if n == 0 {
      SameIsBetween(base.reg, Names(pass, d), d);
      BetweenWider(base.reg, base.reg, Names(pass, d), d, aside);
    } else {
      AttemptsStayInFlight(base, pass, d, attempts, n - 1, aside);
      var a := attempts[n - 1];
      assert a in attempts;
      AttemptStaysInFlight(base, AfterAttempts(base, attempts, n - 1), pass, a.pass, d, a.fuse, aside);
    }
  }

  /** The retry will be satisfied without the digest's own tag: status reports the digest at these
      inputs without claiming that tag, all that is enabled is attested, the spec's tags are in place,
      the own tag is not, and no request to add it reaches the registry. */
  ghost predicate StopsShort(w: World, retry: Pass, d: string) {
    var asks := Asks(w.status.artifact, w.status.history, |w.status.history|);
    && DigestOf(w.status.artifact) == Some(d) && !HasDigestTag(w.status.artifact.value.tags, d)
    && w.status.inputHash == retry.inputHash && Complete(retry.attestor, w.status.attested, d)
    && P.InPlace(w.reg, retry.target.tags, d) && !Resolves(w.reg, DigestTag(d), d)
    && forall i :: 0 <= i < |asks| && asks[i] == d ==> retry.replies(i) == Unreachable
  }

  /** A publish cut short any number of times, each time after any prefix of its writes, and then
      retried: the retry never stops on a conflict of the publication's own making, and it leaves the
      registry as one uninterrupted publish leaves it, but for the tags set aside, exactly when it does
      not stop short. */
  lemma RetryConvergesBut(base: World, pass: Pass, d: string, attempts: seq<Attempt>, retry: Pass, fuse: nat,
                          aside: set<string>)
    requires Begins(base, pass, d, aside)
    requires forall a :: a in attempts ==> Retries(a.pass, pass, d) && !a.pass.landed
    requires Retries(retry, pass, d) && fuse > |Names(pass, d)|
    ensures var mid := AfterAttempts(base, attempts, |attempts|);
            && Decide(Backfilled(mid, retry).reg, Backfilled(mid, retry).status, retry)
               in {ShortCut, NameOnly(d), Publish(d)}
            && var whole := Landed(base.reg, WritesOf(Publish(d), pass.target.tags), fuse);
               (AgreeBut(Reconciled(mid, retry, fuse).reg, whole, aside) <==>
                  !StopsShort(mid, retry, d))
  {
    hide AfterAttempts, Decide, Spared, ClaimStands, StopsShort, NoDuplicates, Retries, InFlight, Backfilled, Landed,
      AgreeBut;
    AttemptsStayInFlight(base, pass, d, attempts, |attempts|, aside);
    var mid := AfterAttempts(base, attempts, |attempts|);
    LastAttempt(base, mid, pass, d, retry, fuse, aside);
    StopsShortExactly(base, mid, pass, retry, d, aside);
  }

  /** The tags the backfill may add for other digests than the one being published. */
  function OtherOwnTags(status: Status, d: string): set<string> {
    set e | e in Asks(status.artifact, status.history, |status.history|) && e != d :: DigestTag(e)
  }

  /** Whatever waits for its own tag when the publication begins: the registry ends as one uninterrupted
      publish leaves it, but for the own tags of what was waiting, exactly when the retry does not stop
      short. A claim in status is true, as in every reachable state. */
  lemma RetryConvergesAnyway(base: World, pass: Pass, d: string, attempts: seq<Attempt>, retry: Pass, fuse: nat)
    requires NoDuplicates(pass.target.tags) && IsDigest(d) && Proper(base.status)
    requires forall t :: t in pass.target.tags ==> SpecTag(t)
    requires ClaimStands(base.reg, base.status.artifact, OtherOwnTags(base.status, d))
    requires Decide(base.reg, base.status, pass) == Publish(d)
    requires forall a :: a in attempts ==> Retries(a.pass, pass, d) && !a.pass.landed
    requires Retries(retry, pass, d) && fuse > |Names(pass, d)|
    ensures var mid := AfterAttempts(base, attempts, |attempts|);
            AgreeBut(Reconciled(mid, retry, fuse).reg, Landed(base.reg, WritesOf(Publish(d), pass.target.tags), fuse),
                     OtherOwnTags(base.status, d)) <==>
            !StopsShort(mid, retry, d)
  {
    hide Decide, NoDuplicates, Retries, Spared, ClaimStands, StopsShort, AfterAttempts, Reconciled, Landed, IsDigest,
      DigestTag, SpecTag,
      PublishTags, OtherOwnTags;
    WaitingSpared(base.reg, base.status, d);
    NamesAside(base.status, pass.target.tags, d);
    DigestTagValid(d);
    RetryConvergesBut(base, pass, d, attempts, retry, fuse, OtherOwnTags(base.status, d));
  }

  /** A publication's names are no other digest's own tags. */
  lemma NamesAside(status: Status, tags: seq<string>, d: string)
    requires IsDigest(d) && Proper(status) && forall t :: t in tags ==> SpecTag(t)
    ensures forall t :: t in PublishTags(tags, d) ==> t !in OtherOwnTags(status, d)
  {
    hide IsDigest, DigestTag, SpecTag, ArtifactWaits, NeedsDigestTag;
    AsksDigests(status.artifact, status.history, |status.history|);
    PublishTagsIs(tags, d);
    forall t | t in PublishTags(tags, d) ensures t !in OtherOwnTags(status, d) {
      forall e | e in Asks(status.artifact, status.history, |status.history|) && e != d ensures t != DigestTag(e) {
        if t == DigestTag(e) {
          if t in tags {
            DigestTagIsNoSpecTag(e, t);
          } else {
            DigestTagInjective(d, e);
          }
        }
      }
    }
  }

  lemma WaitingSpared(reg: Registry, status: Status, d: string)
    ensures Spared(reg, status, d, OtherOwnTags(status, d))
  {
    hide DigestTag, HasDigestTag;
    AsksIs(status.artifact, status.history, |status.history|);
    forall rec | rec in status.history && NeedsDigestTag(rec)
      ensures SparesOne(reg, rec.digest, d, OtherOwnTags(status, d))
    {
      var i :| 0 <= i < |status.history| && status.history[i] == rec;
      assert rec.digest in Asks(status.artifact, status.history, |status.history|);
    }
  }

  /** With nothing waiting that could be named, the two registries are equal. */
  lemma RetryConverges(base: World, pass: Pass, d: string, attempts: seq<Attempt>, retry: Pass, fuse: nat)
    requires NoDuplicates(pass.target.tags) && d != "" && NothingToName(base.reg, base.status)
    requires Decide(base.reg, base.status, pass) == Publish(d)
    requires forall a :: a in attempts ==> Retries(a.pass, pass, d) && !a.pass.landed
    requires Retries(retry, pass, d) && fuse > |Names(pass, d)|
    ensures var mid := AfterAttempts(base, attempts, |attempts|);
            && Decide(Backfilled(mid, retry).reg, Backfilled(mid, retry).status, retry)
               in {ShortCut, NameOnly(d), Publish(d)}
            && (Reconciled(mid, retry, fuse).reg == Landed(base.reg, WritesOf(Publish(d), pass.target.tags), fuse) <==>
                  !StopsShort(mid, retry, d))
  {
    hide AfterAttempts, Decide, NothingToName, StopsShort, NoDuplicates, Retries, Backfilled, Landed, Spared, AgreeBut,
      Reconciled;
    NothingIsSpared(base.reg, base.status, d);
    RetryConvergesBut(base, pass, d, attempts, retry, fuse, {});
    AgreeIsEqual(Reconciled(AfterAttempts(base, attempts, |attempts|), retry, fuse).reg,
                 Landed(base.reg, WritesOf(Publish(d), pass.target.tags), fuse));
  }

  /** One request for the current artifact's digest that reaches the registry is enough: nothing else
      need be answered, and the status patch need not land. */
  lemma AnsweredRetryConverges(base: World, pass: Pass, d: string, attempts: seq<Attempt>, retry: Pass, fuse: nat)
    requires NoDuplicates(pass.target.tags) && d != "" && NothingToName(base.reg, base.status)
    requires Decide(base.reg, base.status, pass) == Publish(d)
    requires forall a :: a in attempts ==> Retries(a.pass, pass, d) && !a.pass.landed
    requires Retries(retry, pass, d) && fuse > |Names(pass, d)|
    requires retry.replies(0) != Unreachable
    ensures Reconciled(AfterAttempts(base, attempts, |attempts|), retry, fuse).reg
         == Landed(base.reg, WritesOf(Publish(d), pass.target.tags), fuse)
  {
    hide AfterAttempts, Decide, NothingToName, NoDuplicates, Retries, Reconciled, Landed, Complete, P.InPlace,
      DigestTag;
    RetryConverges(base, pass, d, attempts, retry, fuse);
    var st := AfterAttempts(base, attempts, |attempts|).status;
    AsksFirst(st.artifact, st.history, |st.history|);
  }

  lemma {:induction false} AsksFirst(artifact: Option<ArtifactStatus>, history: seq<BuildRecord>, n: nat)
    requires n <= |history|
    ensures ArtifactWaits(artifact) ==>
              |Asks(artifact, history, n)| > 0 && Asks(artifact, history, n)[0] == artifact.value.digest
  {
    hide ArtifactWaits, NeedsDigestTag;
    if n > 0 {
      AsksFirst(artifact, history, n - 1);
    }
  }

  lemma LastAttempt(base: World, mid: World, pass: Pass, d: string, retry: Pass, fuse: nat, aside: set<string>)
    requires NoDuplicates(pass.target.tags)
    requires Decide(base.reg, base.status, pass) == Publish(d) && Retries(retry, pass, d)
    requires fuse > |Names(pass, d)| && InFlight(base, mid, pass, d, aside)
    ensures var b := Backfilled(mid, retry);
            && Decide(b.reg, b.status, retry) in {ShortCut, NameOnly(d), Publish(d)}
            && var whole := Landed(base.reg, WritesOf(Publish(d), pass.target.tags), fuse);
               (AgreeBut(Reconciled(mid, retry, fuse).reg, whole, aside) <==>
                  !(Decide(b.reg, b.status, retry) == ShortCut && !Resolves(b.reg, DigestTag(d), d)))
  {
    hide Decide, Looked, P.InPlace, NoDuplicates, Between, Backfilled, Spared, ClaimStands, DigestTag, SameRecord,
      AgreeBut;
    var ws, names := WritesOf(Publish(d), pass.target.tags), Names(pass, d);
    assert ws == PublishWrites(names, d);
    var b := Backfilled(mid, retry);
    var whole := Landed(base.reg, ws, fuse);
    NamesAre(pass, d);
    CompletePublish(base.reg, names, d, fuse);
    BetweenWider(base.reg, whole, names, d, aside);
    BackfillStaysInFlight(base, mid, pass, retry, d, aside);
    RetryNotStopped(base.reg, b.reg, base.status, pass, retry, d, b.status, aside);
    match Decide(b.reg, b.status, retry) {
      case ShortCut =>
        RetryShortCut(base, mid, pass, retry, d, aside);
        assert Reconciled(mid, retry, fuse).reg == b.reg;
        NamesInPlace(b.reg, pass, d);
        NamesInPlace(whole, pass, d);
        if Resolves(b.reg, DigestTag(d), d) {
          InPlaceAgree(base.reg, b.reg, whole, names, d, aside);
        }
        if AgreeBut(b.reg, whole, aside) {
          AgreeAt(b.reg, whole, aside, DigestTag(d));
        }
      case NameOnly(_) =>
        NamingCompletes(base.reg, b, retry, d, fuse, aside);
        InPlaceAgree(base.reg, Reconciled(mid, retry, fuse).reg, whole, names, d, aside);
      case Publish(_) =>
        CompletePublish(b.reg, names, d, fuse);
        BetweenWider(b.reg, Landed(b.reg, ws, fuse), names, d, aside);
        BetweenTrans(base.reg, b.reg, Landed(b.reg, ws, fuse), names, d, aside);
        InPlaceAgree(base.reg, Landed(b.reg, ws, fuse), whole, names, d, aside);
      case _ =>
    }
  }

  lemma AgreeAt(a: Registry, b: Registry, aside: set<string>, t: string)
    requires AgreeBut(a, b, aside) && t !in aside
    ensures SameAt(a, b, t)
  {
  }

  lemma NamesInPlace(reg: Registry, pass: Pass, d: string)
    requires NoDuplicates(pass.target.tags)
    ensures P.InPlace(reg, Names(pass, d), d) <==>
            P.InPlace(reg, pass.target.tags, d) && Resolves(reg, DigestTag(d), d)
  {
    hide DigestTag, NoDuplicates;
    PublishTagsIs(pass.target.tags, d);
  }

  /** A retry takes the cheap path only with the digest in status and the spec's tags in place. */
  lemma RetryShortCut(base: World, mid: World, pass: Pass, retry: Pass, d: string, aside: set<string>)
    requires NoDuplicates(pass.target.tags) && Retries(retry, pass, d)
    requires InFlight(base, Backfilled(mid, retry), pass, d, aside)
    requires Decide(base.reg, base.status, pass) == Publish(d)
    requires Decide(Backfilled(mid, retry).reg, Backfilled(mid, retry).status, retry) == ShortCut
    ensures var b := Backfilled(mid, retry);
            && DigestOf(b.status.artifact) == Some(d)
            && P.InPlace(b.reg, Looked(b.status.artifact, pass.target.tags), d)
            && P.InPlace(b.reg, pass.target.tags, d)
  {
    hide Decide, Backfilled, NoDuplicates, Between, Looked, Spared, ClaimStands;
    var b := Backfilled(mid, retry);
    DecisionMeans(b.reg, b.status, retry);
    RetryShortCutIs(base.reg, b.reg, base.status, b.status, pass, retry, d, aside);
    LookedIncludes(b.status.artifact, pass.target.tags);
  }

  /** Someone asks to name the digest, and the request reaches the registry. */
  predicate AskedFor(asks: seq<string>, replies: nat -> Reply, n: nat, d: string)
    requires n <= |asks|
  {
    exists i :: 0 <= i < n && asks[i] == d && replies(i) != Unreachable
  }

  /** When no other digest asked about has the same own tag, a backfill gives the digest its own tag
      exactly when a request for it reaches the registry. */
  lemma {:induction false} AskingNames(reg: Registry, asks: seq<string>, replies: nat -> Reply, n: nat, d: string)
    requires n <= |asks| && d in reg.manifests
    requires forall e :: e in asks && e in reg.manifests && e != d ==> DigestTag(e) != DigestTag(d)
    ensures var l := AfterAsking(reg, asks, replies, n);
            && l.reg.manifests == reg.manifests
            && (AskedFor(asks, replies, n, d) ==> Resolves(l.reg, DigestTag(d), d))
            && (!AskedFor(asks, replies, n, d) ==> SameAt(reg, l.reg, DigestTag(d)))
            && (d in l.known ==> AskedFor(asks, replies, n, d))
  {
    hide DigestTag;
    if n > 0 {
      AskingNames(reg, asks, replies, n - 1, d);
      var l := AfterAsking(reg, asks, replies, n - 1);
      var e := asks[n - 1];
      assert AskedFor(asks, replies, n, d) <==>
             AskedFor(asks, replies, n - 1, d) || (e == d && replies(n - 1) != Unreachable);
      assert e in reg.manifests ==> reg.manifests + {e} == reg.manifests;
    }
  }

  /** The guard before the call is what the backfilled retry then meets. */
  lemma StopsShortExactly(base: World, mid: World, pass: Pass, retry: Pass, d: string, aside: set<string>)
    requires NoDuplicates(pass.target.tags) && Retries(retry, pass, d) && d != ""
    requires Decide(base.reg, base.status, pass) == Publish(d) && InFlight(base, mid, pass, d, aside)
    ensures var b := Backfilled(mid, retry);
            StopsShort(mid, retry, d) <==>
            Decide(b.reg, b.status, retry) == ShortCut && !Resolves(b.reg, DigestTag(d), d)
  {
    hide Decide, NoDuplicates, Between, Backfilled, StopsShort, InFlight;
    var b := Backfilled(mid, retry);
    if StopsShort(mid, retry, d) {
      ShortIsCheap(base, mid, pass, retry, d, aside);
    }
    if Decide(b.reg, b.status, retry) == ShortCut && !Resolves(b.reg, DigestTag(d), d) {
      BackfillStaysInFlight(base, mid, pass, retry, d, aside);
      RetryShortCut(base, mid, pass, retry, d, aside);
      CheapIsShort(base, mid, pass, retry, d, aside);
    }
  }

  /** What else is asked for and served has its own tag set aside. */
  lemma WaitingIsAside(base: World, mid: World, pass: Pass, d: string, aside: set<string>)
    requires InFlight(base, mid, pass, d, aside) && DigestTag(d) in Names(pass, d)
    ensures var asks := Asks(mid.status.artifact, mid.status.history, |mid.status.history|);
            forall e :: e in asks && e in mid.reg.manifests && e != d ==>
              DigestTag(e) in aside && DigestTag(e) != DigestTag(d)
  {
    hide SameRecord, HasDigestTag, Names, DigestTag;
    var history := mid.status.history;
    forall e | e in Asks(mid.status.artifact, history, |history|) && e in mid.reg.manifests && e != d
      ensures DigestTag(e) in aside && DigestTag(e) != DigestTag(d)
    {
      AsksWait(mid.status.artifact, history, |history|, e);
      assert SparesOne(base.reg, e, d, aside);
    }
  }

  lemma ShortIsCheap(base: World, mid: World, pass: Pass, retry: Pass, d: string, aside: set<string>)
    requires NoDuplicates(pass.target.tags) && Retries(retry, pass, d) && d != ""
    requires InFlight(base, mid, pass, d, aside) && StopsShort(mid, retry, d)
    ensures var b := Backfilled(mid, retry);
            Decide(b.reg, b.status, retry) == ShortCut && !Resolves(b.reg, DigestTag(d), d)
  {
    hide InFlight, NoDuplicates, DigestTag, HasDigestTag, Complete, Asks, AfterAsking, Marked, P.Matches, P.Resolved,
      P.FirstConflict, PublishTags, P.InPlace, Between;
    var b, asks := Backfilled(mid, retry), Asks(mid.status.artifact, mid.status.history, |mid.status.history|);
    NamesAre(pass, d);
    WaitingIsAside(base, mid, pass, d, aside);
    assert d in mid.reg.manifests by { InPlaceServed(mid.reg, retry.target.tags, d); }
    AskingNames(mid.reg, asks, retry.replies, |asks|, d);
    assert !AskedFor(asks, retry.replies, |asks|, d);
    assert b.status.artifact == mid.status.artifact;
    BackfillSteps(base, mid, pass, retry, d, aside);
    InPlaceStays(mid.reg, b.reg, pass, d, aside);
    P.MatchesExactly(b.reg, retry.target.tags, Some(d), d);
  }

  /** One backfill moves nothing but the digest's own tag and the tags set aside. */
  lemma BackfillSteps(base: World, mid: World, pass: Pass, retry: Pass, d: string, aside: set<string>)
    requires NoDuplicates(pass.target.tags) && InFlight(base, mid, pass, d, aside)
    ensures Between(mid.reg, Backfilled(mid, retry).reg, Names(pass, d), d, aside)
    ensures Backfilled(mid, retry).reg.manifests == mid.reg.manifests
    ensures forall t :: t in pass.target.tags && t != DigestTag(d) ==> SameAt(mid.reg, Backfilled(mid, retry).reg, t)
  {
    hide NoDuplicates, Spared, LearnedOf, MarkArtifact, Marked, DigestTag, ClaimStands, SameRecord;
    NamesAre(pass, d);
    BackfillIsBetween(base.reg, mid, retry, Names(pass, d), d, aside);
    BackfillMoves(base, mid, pass, retry, d, aside);
  }

  lemma BackfillMoves(base: World, mid: World, pass: Pass, retry: Pass, d: string, aside: set<string>)
    requires InFlight(base, mid, pass, d, aside) && DigestTag(d) in Names(pass, d)
    ensures Backfilled(mid, retry).reg.manifests == mid.reg.manifests
    ensures forall t :: t !in aside && t != DigestTag(d) ==> SameAt(mid.reg, Backfilled(mid, retry).reg, t)
    ensures forall t :: t in pass.target.tags ==> t !in aside
  {
    hide Between, Spared, DigestTag, ClaimStands, SameRecord, Asks, AfterAsking, MarkArtifact, Marked, PublishTags;
    var asks := Asks(mid.status.artifact, mid.status.history, |mid.status.history|);
    var after := Backfilled(mid, retry).reg;
    WaitingIsAside(base, mid, pass, d, aside);
    AskingKeepsManifests(mid.reg, asks, retry.replies, |asks|);
    PublishTagsIs(pass.target.tags, d);
    forall t | t !in aside && t != DigestTag(d) ensures SameAt(mid.reg, after, t) {
      AskingOnlyNames(mid.reg, asks, retry.replies, |asks|, t);
    }
  }

  lemma InPlaceStays(a: Registry, b: Registry, pass: Pass, d: string, aside: set<string>)
    requires Between(a, b, Names(pass, d), d, aside) && P.InPlace(a, pass.target.tags, d)
    ensures P.InPlace(b, pass.target.tags, d)
  {
    hide DigestTag;
    PublishTagsIs(pass.target.tags, d);
    forall t | t in pass.target.tags ensures Resolves(b, t, d) {
      assert Resolves(a, t, d);
      assert SameAt(a, b, t) || Resolves(b, t, d);
    }
  }

  lemma InPlaceServed(reg: Registry, tags: seq<string>, d: string)
    requires P.InPlace(reg, tags, d)
    ensures d in reg.manifests
  {
  }

  lemma CheapIsShort(base: World, mid: World, pass: Pass, retry: Pass, d: string, aside: set<string>)
    requires NoDuplicates(pass.target.tags) && Retries(retry, pass, d) && d != ""
    requires InFlight(base, mid, pass, d, aside)
    requires var b := Backfilled(mid, retry);
             && Decide(b.reg, b.status, retry) == ShortCut && !Resolves(b.reg, DigestTag(d), d)
             && DigestOf(b.status.artifact) == Some(d)
             && P.InPlace(b.reg, Looked(b.status.artifact, pass.target.tags), d)
             && P.InPlace(b.reg, pass.target.tags, d)
    ensures StopsShort(mid, retry, d)
  {
    hide InFlight, NoDuplicates, DigestTag, HasDigestTag, Complete, Asks, AfterAsking, Marked, P.Matches, P.Resolved,
      P.FirstConflict, PublishTags, Between;
    var b, asks := Backfilled(mid, retry), Asks(mid.status.artifact, mid.status.history, |mid.status.history|);
    NamesAre(pass, d);
    WaitingIsAside(base, mid, pass, d, aside);
    BackfillSteps(base, mid, pass, retry, d, aside);
    AskingNames(mid.reg, asks, retry.replies, |asks|, d);
    MarkedKeepsDigest(mid, retry);
    assert !AskedFor(asks, retry.replies, |asks|, d);
    assert b.status.artifact == mid.status.artifact;
    PublishTagsIs(pass.target.tags, d);
    forall t | t in pass.target.tags ensures Resolves(mid.reg, t, d) {
      assert Resolves(b.reg, t, d);
      assert SameAt(mid.reg, b.reg, t);
    }
  }

  /** A pass that finds everything but the digest's own tag in place adds it. */
  lemma NamingCompletes(base: Registry, b: World, pass: Pass, d: string, fuse: nat, aside: set<string>)
    requires NoDuplicates(pass.target.tags) && fuse > 0
    requires Between(base, b.reg, Names(pass, d), d, aside)
    requires Decide(b.reg, b.status, pass) == NameOnly(d)
    ensures var reg := Settled(b, pass, fuse).reg;
            Between(base, reg, Names(pass, d), d, aside) && P.InPlace(reg, Names(pass, d), d)
  {
    hide Decide, NoDuplicates, DigestTag, Looked;
    DecisionMeans(b.reg, b.status, pass);
    LookedIncludes(b.status.artifact, pass.target.tags);
    PublishTagsIs(pass.target.tags, d);
    var own := PutTag(DigestTag(d), d);
    assert ApplyTo(b.reg, [own], 0) == b.reg;
    assert Settled(b, pass, fuse).reg == Apply(b.reg, own);
  }

  // ---------- After a publish ----------

  lemma PublishedClaims(t: Target, d: string)
    ensures HasDigestTag(ArtifactFor(t, d, true).tags, d)
    ensures HasDigestTag(PublishTags(t.tags, d), d)
  {
    hide Claims, DigestTag;
    OwnTagRecognised(t.pull, d);
    var claimed := t.pull + ":" + DigestTag(d);
    ClaimsAppended(if t.tags == [] then [] else Qualified(t.pull, t.tags), d, claimed);
    assert t.tags == [] ==> [] + [claimed] == [claimed];
    ClaimsAppended(OthersThan(t.tags, DigestTag(d), |t.tags|), d, DigestTag(d));
  }

  lemma QualifiedClaimed(pull: string, tags: seq<string>, d: string)
    ensures HasDigestTag(Qualified(pull, PublishTags(tags, d)), d)
  {
    hide Claims, DigestTag;
    OwnTagRecognised(pull, d);
    var names := PublishTags(tags, d);
    assert Qualified(pull, names)[|names| - 1] == pull + ":" + DigestTag(d);
  }

  /** A pass that ended by publishing, or by naming what was published already. */
  ghost predicate Publishes(b: World, pass: Pass, fuse: nat, d: string) {
    && Decide(b.reg, b.status, pass) in {Publish(d), NameOnly(d)}
    && pass.landed && fuse > |Names(pass, d)|
  }

  lemma PublishedState(b: World, pass: Pass, fuse: nat, d: string)
    requires NoDuplicates(pass.target.tags) && Publishes(b, pass, fuse, d)
    ensures var w := Settled(b, pass, fuse);
            && P.InPlace(w.reg, Names(pass, d), d)
            && Between(b.reg, w.reg, Names(pass, d), d)
            && w.status.artifact == Some(ArtifactFor(pass.target, d, true))
            && w.status.inputHash == pass.inputHash && w.status.attested == pass.signed
            && (forall r :: r in w.status.history ==> HasDigestTag(r.tags, r.digest) || r in b.status.history)
            && (Decide(b.reg, b.status, pass) == Publish(d) ==>
                  forall r :: r in w.status.history ==> HasDigestTag(r.tags, r.digest) || r.digest != d)
  {
    hide Decide, NoDuplicates, HasDigestTag, PublishTags, Between, P.InPlace, ArtifactFor, DigestTag;
    var names := Names(pass, d);
    if Decide(b.reg, b.status, pass) == Publish(d) {
      assert WritesOf(Publish(d), pass.target.tags) == PublishWrites(names, d);
      CompletePublish(b.reg, names, d, fuse);
      PublishedClaims(pass.target, d);
      OthersAre(b.status.history, d, |b.status.history|);
    } else {
      SameIsBetween(b.reg, names, d);
      NamingCompletes(b.reg, b, pass, d, fuse, {});
      PublishedClaims(pass.target, d);
    }
  }

  /** Nothing a publish leaves in status waits for a tag that could be given. */
  lemma PublishedNothingToName(b: World, pass: Pass, fuse: nat, d: string)
    requires NoDuplicates(pass.target.tags) && Publishes(b, pass, fuse, d) && NothingToName(b.reg, b.status)
    ensures NothingToName(Settled(b, pass, fuse).reg, Settled(b, pass, fuse).status)
  {
    hide Publishes, Settled, NoDuplicates, HasDigestTag, DigestTag, ArtifactFor, Decide;
    var w := Settled(b, pass, fuse);
    PublishedState(b, pass, fuse, d);
    PublishedClaims(pass.target, d);
    ArtifactAnchored(pass.target, d);
    forall r | r in w.status.history && NeedsDigestTag(r) ensures r.digest !in w.reg.manifests {
      assert r in b.status.history;
      if Decide(b.reg, b.status, pass) != Publish(d) {
        NamedWasServed(b, pass, fuse, d);
      }
    }
  }

  lemma NamedWasServed(b: World, pass: Pass, fuse: nat, d: string)
    requires NoDuplicates(pass.target.tags) && Publishes(b, pass, fuse, d)
    requires Decide(b.reg, b.status, pass) != Publish(d)
    ensures d in b.reg.manifests
  {
    hide Decide, NoDuplicates, Looked;
    DecisionMeans(b.reg, b.status, pass);
  }

  /** A backfill with nothing it could name leaves the registry alone. */
  lemma IdleAsking(reg: Registry, status: Status, replies: nat -> Reply, names: seq<string>, d: string)
    requires NothingToName(reg, status) && P.InPlace(reg, names, d) && DigestTag(d) in names
    ensures LearnedOf(reg, status.artifact, status.history, replies).reg == reg
  {
    hide NothingToName, Spared, LearnedOf, DigestTag;
    NothingIsSpared(reg, status, d);
    var after := LearnedOf(reg, status.artifact, status.history, replies).reg;
    AskingIsBetween(reg, reg, status, replies, names, d);
    SameIsBetween(reg, names, d);
    forall t | t in names ensures Resolves(after, t, d) {
      assert SameAt(reg, after, t) || Resolves(after, t, d);
    }
    InPlaceIsUnique(reg, after, reg, names, d);
  }

  lemma IdleBackfill(w: World, pass: Pass, names: seq<string>, d: string)
    requires NothingToName(w.reg, w.status) && P.InPlace(w.reg, names, d) && DigestTag(d) in names
    ensures Backfilled(w, pass).reg == w.reg
  {
    hide NothingToName, LearnedOf, MarkArtifact, Marked, DigestTag, P.InPlace;
    IdleAsking(w.reg, w.status, pass.replies, names, d);
  }

  /** The publication is complete and status reports all of it. */
  ghost predicate ConvergedAt(w: World, pass: Pass, d: string) {
    && w.status.artifact.Some? && w.status.artifact.value.digest == d
    && HasDigestTag(w.status.artifact.value.tags, d)
    && w.status.inputHash == pass.inputHash
    && NothingToName(w.reg, w.status)
    && P.InPlace(w.reg, Names(pass, d), d)
  }

  lemma PublishConverges(b: World, pass: Pass, fuse: nat, d: string)
    requires NoDuplicates(pass.target.tags) && Publishes(b, pass, fuse, d) && NothingToName(b.reg, b.status)
    ensures ConvergedAt(Settled(b, pass, fuse), pass, d)
    ensures Settled(b, pass, fuse).status.attested == pass.signed
  {
    hide Publishes, Settled, NoDuplicates, HasDigestTag, ArtifactFor, NothingToName, P.InPlace;
    PublishedState(b, pass, fuse, d);
    PublishedNothingToName(b, pass, fuse, d);
    PublishedClaims(pass.target, d);
    ArtifactAnchored(pass.target, d);
  }

  /** A pass over the same spec and inputs, with everything attested. */
  ghost predicate Repeats(next: Pass, pass: Pass, attested: Option<Attestation>, d: string) {
    next.target == pass.target && next.inputHash == pass.inputHash && Complete(next.attestor, attested, d)
  }

  /** A converged pass takes the cheap path, writes nothing, and leaves things converged. */
  lemma ConvergedPassWritesNothing(w: World, pass: Pass, d: string, next: Pass, fuse: nat)
    requires NoDuplicates(pass.target.tags) && IsDigest(d)
    requires ConvergedAt(w, pass, d) && Repeats(next, pass, w.status.attested, d)
    ensures Decide(Backfilled(w, next).reg, Backfilled(w, next).status, next) == ShortCut
    ensures var again := Reconciled(w, next, fuse);
            && again.reg == w.reg && again.status.artifact == w.status.artifact
            && again.status.attested == w.status.attested
            && ConvergedAt(again, pass, d)
  {
    hide Settled, NoDuplicates, HasDigestTag, DigestTag, Complete, PublishTags, Marked, LearnedOf, P.Matches, P.InPlace,
      P.Resolved, P.FirstConflict, NeedsDigestTag;
    NamesAre(pass, d);
    IdleBackfill(w, next, Names(pass, d), d);
    MarkedShrinks(w, next);
    var b := Backfilled(w, next);
    assert b.status.artifact == w.status.artifact;
    assert Looked(b.status.artifact, next.target.tags) == Names(pass, d);
    P.MatchesExactly(b.reg, Names(pass, d), Some(d), d);
    assert d != "";
    assert Decide(b.reg, b.status, next) == ShortCut;
    SettledShortCut(b, next, fuse);
  }

  /** Once the status of a publish is written, every later pass over the same inputs, however many
      there are, leaves the registry as it is and reports the same artifact. */
  lemma {:induction false} QuietForever(b: World, pass: Pass, fuse: nat, d: string, later: seq<Attempt>, n: nat)
    requires NoDuplicates(pass.target.tags) && IsDigest(d) && n <= |later|
    requires Publishes(b, pass, fuse, d) && NothingToName(b.reg, b.status)
    requires forall a :: a in later ==> Repeats(a.pass, pass, pass.signed, d)
    ensures var w := Settled(b, pass, fuse);
            var after := AfterAttempts(w, later, n);
            && after.reg == w.reg && after.status.artifact == w.status.artifact && after.status.attested == pass.signed
            && ConvergedAt(after, pass, d)
  {
    hide Publishes, Settled, NoDuplicates, NothingToName, IsDigest, ConvergedAt, Repeats, Reconciled, Decide,
      Backfilled;
    PublishConverges(b, pass, fuse, d);
    if n > 0 {
      QuietForever(b, pass, fuse, d, later, n - 1);
      var a := later[n - 1];
      assert a in later;
      ConvergedPassWritesNothing(AfterAttempts(Settled(b, pass, fuse), later, n - 1), pass, d, a.pass, a.fuse);
    }
  }

  lemma SettledShortCut(b: World, pass: Pass, fuse: nat)
    ensures Decide(b.reg, b.status, pass) == ShortCut ==> Settled(b, pass, fuse).reg == b.reg
    ensures Decide(b.reg, b.status, pass) == ShortCut ==>
              Settled(b, pass, fuse).status.(conflict := b.status.conflict) == b.status
  {
    hide P.Matches, P.Resolved, P.FirstConflict;
  }

  /** A retry that stops short: when status reports the digest without its own tag,
      as after a Keep, and the registry does not answer the backfill, the retry takes the cheap path
      as soon as the spec's tags are in place, and the digest's own tag is left to a later pass. */
  lemma UnansweredRetryStopsShort(d: string, pass: Pass)
    requires IsDigest(d) && pass.target.tags == ["v1"] && pass.target.policy == Fail && pass.produced == Some(d)
    requires forall i :: pass.replies(i) == Unreachable
    requires pass.attestor == Attestor(false, false, false) && !pass.suspended
    ensures var base := World(Registry({}, map[]),
                              Status(Some(ArtifactStatus(d, d, d, [])), pass.inputHash, [], None, None));
            var mid := World(Registry({d}, map["v1" := d]), base.status);
            && Decide(base.reg, base.status, pass) == Publish(d)
            && mid.reg == Landed(base.reg, WritesOf(Publish(d), pass.target.tags), 2)
            && Reconciled(mid, pass, 10).reg == mid.reg && DigestTag(d) !in mid.reg.tags
  {
    hide DigestTag, P.ResolvedTags, P.FirstConflict;
    var tags := ["v1"];
    var status := Status(Some(ArtifactStatus(d, d, d, [])), pass.inputHash, [], None, None);
    var none, some := Registry({}, map[]), Registry({d}, map["v1" := d]);
    DigestTagIsNoSpecTag(d, "v1");
    assert d != "";
    P.MatchesExactly(none, tags, Some(d), d);
    P.ConflictExactly(none, tags, tags, Some(d), d);
    P.MatchesExactly(some, tags, Some(d), d);
    PublishTagsIs(tags, d);
    var ws := WritesOf(Publish(d), tags);
    assert ws[0] == PutManifest(d) && ws[1] == PutTag("v1", d);
    assert ApplyTo(none, ws, 0) == none;
    assert ApplyTo(none, ws, 1) == Registry({d}, map[]);
    assert ApplyTo(none, ws, 2) == some;
    var asks := Asks(status.artifact, [], 0);
    assert asks == [d];
    assert AfterAsking(some, asks, pass.replies, 0) == Learned(some, map[]);
    assert AfterAsking(some, asks, pass.replies, 1) == Learned(some, map[]);
    var mid := World(some, status);
    assert Backfilled(mid, pass).reg == some;
    assert Backfilled(mid, pass).status.artifact == status.artifact;
    SettledShortCut(Backfilled(mid, pass), pass, 10);
  }
}
