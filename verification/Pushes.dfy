/** What one pass makes an object name, and which of it the pass pushed or pulled. */
module Pushes {
  import opened Strings
  import opened Registries
  import opened Tags
  import opened Statuses
  import opened Backfill
  import opened Retention
  import opened Written
  import opened ClaimsKept
  import P = Published
  import C = Composer
  import B = Builder
  import V = Convergence

  // ---------- What is pushed ----------

  /** A write reaches the digest, which is pushed or pulled first, and the tag. */
  predicate RefOfWrite(repo: string, w: Write, ref: string) {
    ref == repo + "@" + w.digest || (w.PutTag? && ref == repo + ":" + w.tag)
  }

  function WriteRefs(repo: string, ws: seq<Write>, n: nat): set<string>
    requires n <= |ws|
  {
    if n == 0 then {}
    else
      WriteRefs(repo, ws, n - 1) + {repo + "@" + ws[n - 1].digest}
        + (if ws[n - 1].PutTag? then {repo + ":" + ws[n - 1].tag} else {})
  }

  lemma {:induction false} WriteRefsHas(repo: string, ws: seq<Write>, n: nat, i: nat, ref: string)
    requires i < n <= |ws| && RefOfWrite(repo, ws[i], ref)
    ensures ref in WriteRefs(repo, ws, n)
  {
    if i < n - 1 {
      WriteRefsHas(repo, ws, n - 1, i, ref);
    }
  }

  /** The references of the writes that land. */
  function LandedRefs(repo: string, ws: seq<Write>, fuse: nat): set<string> {
    WriteRefs(repo, ws, if fuse < |ws| then fuse else |ws|)
  }

  /** What a backfill that learned this has given its own tag, and pulled to do so. */
  function OwnRefs(repo: string, known: map<string, bool>): set<string> {
    (set d | d in known && known[d] :: repo + ":" + DigestTag(d)) + (set d | d in known && known[d] :: repo + "@" + d)
  }

  function ComposeWrites(w: C.World, pass: C.Pass): seq<Write> {
    var b := C.Backfilled(w, pass);
    if pass.suspended then [] else C.WritesOf(C.Decide(b.reg, b.status, pass), pass.target.tags)
  }

  function ComposePushes(repo: string, w: C.World, pass: C.Pass, fuse: nat): set<string> {
    OwnRefs(repo, LearnedOf(w.reg, w.status.artifact, w.status.history, pass.replies).known)
      + LandedRefs(repo, ComposeWrites(w, pass), fuse)
  }

  /** The tags a build's pass writes, given its backfill is done. */
  function NamedWrites(b: B.Machine, order: B.Pass): seq<Write> {
    if order.suspended || order.lifecycle.Some? || order.inputs.Err? || order.readJob.Some? || order.result.Err? then []
    else
      var name := B.JobName(order.name, order.inputs.value);
      if B.Converged(b, order, order.inputs.value) || name !in b.jobs || b.jobs[name] != B.Succeeded then []
      else
        B.NamingWrites(B.Naming(b.reg, b.s.published.artifact, order, order.result.value),
                       order.target.tags, order.result.value)
  }

  function BuildPushes(repo: string, m: B.Machine, order: B.Pass, fuse: nat): set<string> {
    var st := m.s.published;
    (if order.configured && order.access.None?
     then OwnRefs(repo, LearnedOf(m.reg, st.artifact, st.history, order.replies).known) else {})
      + LandedRefs(repo, NamedWrites(B.Backfilled(m, order), order), fuse)
  }

  /** These are the writes the two passes make. */
  lemma ComposeWritesMade(w: C.World, pass: C.Pass, fuse: nat)
    ensures C.Reconciled(w, pass, fuse).reg == Landed(C.Backfilled(w, pass).reg, ComposeWrites(w, pass), fuse)
  {
    hide C.Backfilled, C.Decide, C.WritesOf;
    LandedFew(C.Backfilled(w, pass).reg, PutManifest(""), fuse);
  }

  lemma BuildWritesMade(m: B.Machine, order: B.Pass, fuse: nat)
    ensures B.Passed(m, order, fuse).0.reg ==
            Landed(B.Backfilled(m, order).reg, NamedWrites(B.Backfilled(m, order), order), fuse)
  {
    hide B.Backfilled, B.Naming, B.StillThere, B.JobName, B.PreFlight, B.WithSuccess, B.NamingWrites;
    LandedFew(B.Backfilled(m, order).reg, PutManifest(""), fuse);
  }

  /** The registry holds what the reference is of. */
  ghost predicate HeldIn(repo: string, reg: Registry, ref: string) {
    || (exists d :: d in reg.manifests && ref == repo + "@" + d)
    || (exists t :: t in reg.tags && ref == repo + ":" + t)
  }

  lemma {:induction false} WrittenIsHeld(repo: string, reg: Registry, ws: seq<Write>, n: nat, ref: string)
    requires n <= |ws| && (ref in WriteRefs(repo, ws, n) || HeldIn(repo, reg, ref))
    ensures HeldIn(repo, ApplyTo(reg, ws, n), ref)
  {
    if n > 0 {
      var before, w := ApplyTo(reg, ws, n - 1), ws[n - 1];
      if ref in WriteRefs(repo, ws, n - 1) || HeldIn(repo, reg, ref) {
        WrittenIsHeld(repo, reg, ws, n - 1, ref);
      } else if ref == repo + "@" + w.digest {
        assert w.digest in Apply(before, w).manifests;
      } else {
        assert w.tag in Apply(before, w).tags;
      }
    }
  }

  lemma OwnIsHeld(repo: string, reg: Registry, artifact: Option<ArtifactStatus>, history: seq<BuildRecord>,
                  replies: nat -> Reply, ref: string)
    requires ReadsAll(artifact, history)
    requires ref in OwnRefs(repo, LearnedOf(reg, artifact, history, replies).known)
    ensures HeldIn(repo, LearnedOf(reg, artifact, history, replies).reg, ref)
  {
    hide IsDigest, DigestTag, RecordedAs, Asks, AfterAsking;
    var asks := Asks(artifact, history, |history|);
    AsksDigests(artifact, history, |history|);
    LearnedIsTrue(reg, asks, replies, |asks|);
    var l := LearnedOf(reg, artifact, history, replies);
    assert forall d :: d in l.known && l.known[d] ==> d in l.reg.manifests && DigestTag(d) in l.reg.tags;
  }

  /** Whatever a pass is taken to have pushed or pulled, the registry holds after it. */
  lemma ComposePushedIsHeld(repo: string, w: C.World, pass: C.Pass, fuse: nat, ref: string)
    requires ReadsAll(w.status.artifact, w.status.history) && ref in ComposePushes(repo, w, pass, fuse)
    ensures HeldIn(repo, C.Reconciled(w, pass, fuse).reg, ref)
  {
    hide HeldIn, LearnedOf, OwnRefs, C.Reconciled, ComposeWrites, WriteRefs, ApplyTo, ReadsAll, MarkArtifact, Marked;
    var b, ws := C.Backfilled(w, pass), ComposeWrites(w, pass);
    var n := if fuse < |ws| then fuse else |ws|;
    ComposeWritesMade(w, pass, fuse);
    if ref !in WriteRefs(repo, ws, n) {
      OwnIsHeld(repo, w.reg, w.status.artifact, w.status.history, pass.replies, ref);
    }
    WrittenIsHeld(repo, b.reg, ws, n, ref);
  }

  lemma BuildPushedIsHeld(repo: string, m: B.Machine, order: B.Pass, fuse: nat, ref: string)
    requires ReadsAll(m.s.published.artifact, m.s.published.history) && ref in BuildPushes(repo, m, order, fuse)
    ensures HeldIn(repo, B.Passed(m, order, fuse).0.reg, ref)
  {
    hide HeldIn, LearnedOf, OwnRefs, B.Passed, NamedWrites, WriteRefs, ApplyTo, ReadsAll, MarkArtifact, Marked,
      B.OwnTag;
    var b := B.Backfilled(m, order);
    var ws := NamedWrites(b, order);
    var n := if fuse < |ws| then fuse else |ws|;
    BuildWritesMade(m, order, fuse);
    if ref !in WriteRefs(repo, ws, n) {
      OwnIsHeld(repo, m.reg, m.s.published.artifact, m.s.published.history, order.replies, ref);
    }
    WrittenIsHeld(repo, b.reg, ws, n, ref);
  }

  // ---------- What is named ----------

  /** One name more is one reference more: that of the digest's own tag. */
  lemma NamesMore(repo: string, digest: string, names: seq<string>, name: string, ref: string)
    requires Reads(digest, names) && WrittenAs(name, DigestTag(digest)) && ref in NamesOf(repo, digest, names + [name])
    ensures ref in NamesOf(repo, digest, names) || ref == repo + ":" + DigestTag(digest)
  {
    hide NamesOf, BareTag, ValidTag, WrittenAs, IsDigest, DigestTag;
    var p := ReadBack(digest, names);
    var more := Publication(digest, p.tags + [DigestTag(digest)]);
    DigestTagValid(digest);
    NamesOfIs(repo, p, names, ref);
    NamesOfIs(repo, more, names + [name], ref);
    if TagRef(repo, more.tags, |more.tags|, ref) && ref != repo + ":" + DigestTag(digest) {
      var i :| 0 <= i < |more.tags| && ref == repo + ":" + more.tags[i];
      assert more.tags[i] == p.tags[i];
    }
  }

  /** A backfill makes status name only what it has just given its own tag. */
  lemma BackfillNames(repo: string, artifact: Option<ArtifactStatus>, history: seq<BuildRecord>, known: map<string,
                      bool>,
                      pull: string, tagFor: string -> string, now: int, ref: string)
    requires ReadsAll(artifact, history) && '@' !in pull && WritesOwn(tagFor)
    requires NamedIn(repo, MarkArtifact(artifact, known, pull),
                     Marked(history, known, DigestOf(artifact), tagFor, now), ref)
    ensures NamedIn(repo, artifact, history, ref) || ref in OwnRefs(repo, known)
  {
    hide NamesOf, HasDigestTag, DigestTag, WrittenAs, RecordedAs, IsDigest;
    var marked, after := MarkArtifact(artifact, known, pull), Marked(history, known, DigestOf(artifact), tagFor, now);
    BothWriteOwn(pull);
    if marked.Some? && ref in ArtifactNames(repo, marked.value) {
      if marked != artifact {
        var d := artifact.value.digest;
        assert WrittenAs(B.OwnTag(pull)(d), DigestTag(d));
        NamesMore(repo, d, artifact.value.tags, pull + ":" + DigestTag(d), ref);
      }
    } else {
      var r :| r in after && ref in RecordNames(repo, r);
      var i :| 0 <= i < |after| && after[i] == r;
      assert history[i] in history;
      if r.tags != history[i].tags {
        NamesMore(repo, r.digest, history[i].tags, tagFor(r.digest), ref);
      }
    }
  }

  // ---------- A composition's pass ----------

  /** A recorded result may name what the pass neither pushed nor pulled: the spec's tags, when it
      found the digest published and named it only, and all that a Keep reports. */
  predicate Adopts(repo: string, b: C.World, pass: C.Pass, fuse: nat, ref: string) {
    var d := C.Decide(b.reg, b.status, pass);
    && !pass.suspended && pass.landed && |C.WritesOf(d, pass.target.tags)| <= fuse
    && match d
       case NameOnly(_) => TagRef(repo, pass.target.tags, |pass.target.tags|, ref)
       case KeepExisting(c, _) => RefOf(repo, Publication(c.current, pass.target.tags), ref)
       case _ => false
  }

  /** All of a publication is among the writes that made it. */
  lemma NamesPushed(repo: string, names: seq<string>, d: string, ws: seq<Write>, k: nat, ref: string)
    requires names != [] && k + |names| <= |ws|
    requires forall i :: 0 <= i < |names| ==> ws[k + i] == PutTag(names[i], d)
    requires RefOf(repo, Publication(d, names), ref)
    ensures ref in WriteRefs(repo, ws, |ws|)
  {
    hide WriteRefs;
    if TagRef(repo, names, |names|, ref) {
      var i :| 0 <= i < |names| && ref == repo + ":" + names[i];
      WriteRefsHas(repo, ws, |ws|, k + i, ref);
    } else {
      assert ws[k + 0] == PutTag(names[0], d);
      WriteRefsHas(repo, ws, |ws|, k, ref);
    }
  }

  lemma PublicationPushed(repo: string, t: Target, d: string, ws: seq<Write>, k: nat, ref: string)
    requires k + |PublishTags(t.tags, d)| <= |ws|
    requires forall i :: 0 <= i < |PublishTags(t.tags, d)| ==> ws[k + i] == PutTag(PublishTags(t.tags, d)[i], d)
    requires RefOf(repo, PublicationOf(t, d), ref)
    ensures ref in WriteRefs(repo, ws, |ws|)
  {
    hide WriteRefs, RefOf, PublishTags;
    SomeName(t.tags, d);
    NamesPushed(repo, PublishTags(t.tags, d), d, ws, k, ref);
  }

  lemma SomeName(tags: seq<string>, d: string)
    ensures PublishTags(tags, d) != []
  {
  }

  lemma RecordedNames(repo: string, artifact: Option<ArtifactStatus>, h: seq<BuildRecord>,
                      record: Option<BuildRecord>, limit: int, ref: string)
    requires NamedIn(repo, artifact, Recorded(h, record, limit), ref)
    ensures NamedIn(repo, artifact, h, ref) || (record.Some? && ref in RecordNames(repo, record.value))
  {
    hide NamesOf;
    if record.Some? {
      OthersAre(h, record.value.digest, |h|);
    }
  }

  lemma SettledNames(repo: string, b: C.World, pass: C.Pass, fuse: nat, ref: string)
    requires ReadsAll(b.status.artifact, b.status.history) && ReadableCompose(b.reg, pass) && !pass.suspended
    ensures var st := C.Settled(b, pass, fuse).status;
            && (NamedIn(repo, st.artifact, st.history, ref) ==>
                  NamedIn(repo, b.status.artifact, b.status.history, ref) || Adopts(repo, b, pass, fuse, ref)
                  || ref in LandedRefs(repo, C.WritesOf(C.Decide(b.reg, b.status, pass), pass.target.tags), fuse))
            && (Adopts(repo, b, pass, fuse, ref) ==> NamedIn(repo, st.artifact, st.history, ref))
  {
    hide NamesOf, C.Decide, C.ArtifactFor, SpecTags, DigestTag, IsDigest, Recorded, Landed, C.Looked, P.InPlace,
      RecordedAs, RefOf,
      WriteRefs, Reads;
    V.DecisionMeans(b.reg, b.status, pass);
    var t, st, d := pass.target, C.Settled(b, pass, fuse).status, C.Decide(b.reg, b.status, pass);
    var ws := C.WritesOf(d, t.tags);
    var r := C.ResultOf(d, b.status, pass);
    if pass.landed && |ws| <= fuse && r.Some? {
      ResultNames(repo, b, pass, ref);
      if NamedIn(repo, st.artifact, st.history, ref) {
        RecordedNames(repo, st.artifact, b.status.history, r.value.record, pass.limit, ref);
      }
    }
  }

  /** What a result names. */
  lemma ResultNames(repo: string, b: C.World, pass: C.Pass, ref: string)
    requires ReadableCompose(b.reg, pass) && (C.Decide(b.reg, b.status, pass).ShortCut? ==> b.status.artifact.Some?)
    ensures var t, d := pass.target, C.Decide(b.reg, b.status, pass);
            var ws, r := C.WritesOf(d, t.tags), C.ResultOf(d, b.status, pass);
            && (d.ShortCut? ==> r.Some? && r.value.artifact == b.status.artifact.value && r.value.record.None?)
            && (d.NameOnly? ==>
                  (&& r.Some? && r.value.record.None?
                   && (ref in ArtifactNames(repo, r.value.artifact) ==>
                         TagRef(repo, t.tags, |t.tags|, ref) || ref in WriteRefs(repo, ws, |ws|))
                   && (TagRef(repo, t.tags, |t.tags|, ref) ==> ref in ArtifactNames(repo, r.value.artifact))))
            && (d.Publish? ==>
                  (&& r.Some? && r.value.record.Some?
                   && (ref in ArtifactNames(repo, r.value.artifact) ==> ref in WriteRefs(repo, ws, |ws|))
                   && (ref in RecordNames(repo, r.value.record.value) ==> ref in WriteRefs(repo, ws, |ws|))))
            && (d.KeepExisting? ==>
                  (&& r.Some? && r.value.record.None?
                   && (ref in ArtifactNames(repo, r.value.artifact) <==>
                       RefOf(repo, Publication(d.clash.current, t.tags), ref))))
            && (d.Failed? || d.Refuse? ==> r.None?)
  {
    hide NamesOf, C.Decide, C.ArtifactFor, SpecTags, DigestTag, IsDigest, Landed, C.Looked, P.InPlace, RecordedAs,
      WriteRefs, PublishTags, TagRef, RefOf;
    V.DecisionMeans(b.reg, b.status, pass);
    var t := pass.target;
    match C.Decide(b.reg, b.status, pass) {
      case NameOnly(e) =>
        OwnNames(repo, t, e, ref);
        NameOnlyPushed(repo, t, e, ref);
      case Publish(e) =>
        OwnNames(repo, t, e, ref);
        if RefOf(repo, PublicationOf(t, e), ref) {
          PublicationPushed(repo, t, e, C.WritesOf(C.Publish(e), t.tags), 1, ref);
        }
      case KeepExisting(c, _) =>
        KeptNames(repo, t, c.current, ref);
      case _ =>
    }
  }

  lemma OwnNames(repo: string, t: Target, e: string, ref: string)
    requires WellFormed(t, e)
    ensures ref in ArtifactNames(repo, C.ArtifactFor(t, e, true)) <==> RefOf(repo, PublicationOf(t, e), ref)
    ensures ref in NamesOf(repo, e, PublishTags(t.tags, e)) <==> RefOf(repo, PublicationOf(t, e), ref)
  {
    hide NamesOf, C.ArtifactFor, SpecTags, IsDigest, RecordedAs, PublishTags, RefOf;
    StatusReadsBack(t, e);
    ArtifactDigest(t, e);
    NamesOfIs(repo, PublicationOf(t, e), C.ArtifactFor(t, e, true).tags, ref);
    NamesOfIs(repo, PublicationOf(t, e), PublishTags(t.tags, e), ref);
  }

  lemma KeptNames(repo: string, t: Target, e: string, ref: string)
    requires WellFormed(t, e)
    ensures ref in ArtifactNames(repo, C.ArtifactFor(t, e, false)) <==> RefOf(repo, Publication(e, t.tags), ref)
  {
    hide NamesOf, C.ArtifactFor, SpecTags, IsDigest, RecordedAs, PublishTags, RefOf;
    StatusReadsBack(t, e);
    ArtifactDigest(t, e);
    NamesOfIs(repo, Publication(e, t.tags), C.ArtifactFor(t, e, false).tags, ref);
  }

  lemma NameOnlyPushed(repo: string, t: Target, e: string, ref: string)
    requires WellFormed(t, e)
    ensures var ws := C.WritesOf(C.NameOnly(e), t.tags);
            RefOf(repo, PublicationOf(t, e), ref) ==>
            TagRef(repo, t.tags, |t.tags|, ref) || ref in WriteRefs(repo, ws, |ws|)
    ensures TagRef(repo, t.tags, |t.tags|, ref) ==> RefOf(repo, PublicationOf(t, e), ref)
  {
    hide DigestTag, IsDigest, SpecTags, PublishTags;
    NamesValid(t, e);
    var names := PublishTags(t.tags, e);
    if TagRef(repo, t.tags, |t.tags|, ref) {
      var i :| 0 <= i < |t.tags| && ref == repo + ":" + t.tags[i];
      assert names[i] == t.tags[i];
    }
    if TagRef(repo, names, |names|, ref) {
      var i :| 0 <= i < |names| && ref == repo + ":" + names[i];
      assert i < |t.tags| ==> names[i] == t.tags[i];
      assert i == |t.tags| ==> names[i] == DigestTag(e);
    }
  }

  /** What an object names after a pass of its composition: only what it named before, what the pass
      pushed or pulled, and what it adopts; and all that it adopts. */
  lemma ComposeNames(repo: string, w: C.World, pass: C.Pass, fuse: nat, ref: string)
    requires ReadsAll(w.status.artifact, w.status.history) && ReadableCompose(w.reg, pass)
    ensures var st := C.Reconciled(w, pass, fuse).status;
            var adopts := Adopts(repo, C.Backfilled(w, pass), pass, fuse, ref);
            && (ref in Refs(repo, st.artifact, st.history) ==>
                  ref in Refs(repo, w.status.artifact, w.status.history)
                  || ref in ComposePushes(repo, w, pass, fuse) || adopts)
            && (adopts ==> ref in Refs(repo, st.artifact, st.history))
  {
    hide NamedIn, Refs, LearnedOf, MarkArtifact, Marked, C.Settled, C.Decide, C.WritesOf, RefOf, TagRef, ReadsAll,
      OwnRefs, WriteRefs,
      SpecTags, DigestTag, IsDigest, Sound;
    var b, st := C.Backfilled(w, pass), C.Reconciled(w, pass, fuse).status;
    var l := LearnedOf(w.reg, w.status.artifact, w.status.history, pass.replies);
    RefsHas(repo, w.status.artifact, w.status.history, ref);
    RefsHas(repo, st.artifact, st.history, ref);
    BothWriteOwn(pass.target.pull);
    if NamedIn(repo, b.status.artifact, b.status.history, ref) && pass.marked {
      BackfillNames(repo, w.status.artifact, w.status.history, l.known, pass.target.pull, DigestTag, pass.now, ref);
    }
    MarkingReads(w.status.artifact, w.status.history, l.known, pass.target.pull, DigestTag, pass.now);
    AskingKeepsOwn(w.reg, w.status.artifact, w.status.history, pass.replies);
    if !pass.suspended {
      SettledNames(repo, b, pass, fuse, ref);
      AdoptedIsRef(repo, b, pass, fuse, ref);
    }
  }

  lemma AdoptedIsRef(repo: string, b: C.World, pass: C.Pass, fuse: nat, ref: string)
    ensures Adopts(repo, b, pass, fuse, ref) ==> ref != ""
  {
    hide C.Decide, C.WritesOf;
  }

  // ---------- A build's pass ----------

  /** A build names only what it named before and what its pass pushed or pulled. */
  lemma BuildNames(repo: string, m: B.Machine, order: B.Pass, fuse: nat, ref: string)
    requires ReadsAll(m.s.published.artifact, m.s.published.history) && ReadableBuild(order)
    ensures var before, st := m.s.published, B.Passed(m, order, fuse).0.s.published;
            ref in Refs(repo, st.artifact, st.history) ==>
            ref in Refs(repo, before.artifact, before.history) || ref in BuildPushes(repo, m, order, fuse)
  {
    hide NamedIn, Refs, LearnedOf, MarkArtifact, Marked, B.Work, NamedWrites, ReadsAll, OwnRefs, WriteRefs, SpecTags,
      IsDigest, B.OwnTag;
    var b, st := B.Backfilled(m, order), B.Passed(m, order, fuse).0.s.published;
    var before := m.s.published;
    RefsHas(repo, before.artifact, before.history, ref);
    RefsHas(repo, st.artifact, st.history, ref);
    BothWriteOwn(order.target.pull);
    if order.configured && order.access.None? && NamedIn(repo, b.s.published.artifact, b.s.published.history, ref) {
      var known := LearnedOf(m.reg, before.artifact, before.history, order.replies).known;
      BackfillNames(repo, before.artifact, before.history, known,
                    order.target.pull, B.OwnTag(order.target.pull), order.now, ref);
    }
    if NamedIn(repo, st.artifact, st.history, ref) && !order.suspended {
      WorkNames(repo, b, order, fuse, ref);
    }
  }

  lemma WorkNames(repo: string, b: B.Machine, order: B.Pass, fuse: nat, ref: string)
    requires ReadableBuild(order) && !order.suspended
    requires var st := B.Work(b, order, fuse).0.s.published; NamedIn(repo, st.artifact, st.history, ref)
    ensures NamedIn(repo, b.s.published.artifact, b.s.published.history, ref)
         || ref in LandedRefs(repo, NamedWrites(b, order), fuse)
  {
    hide NamedIn, WriteRefs, B.JobName, B.Observe, B.PreFlight, B.Converged, B.Naming, B.NamingWrites, SpecTags,
      IsDigest;
    if order.inputs.Ok? && B.JobName(order.name, order.inputs.value) in b.jobs {
      ObserveNames(repo, b, order, order.inputs.value, fuse, ref);
    }
  }

  lemma ObserveNames(repo: string, m: B.Machine, order: B.Pass, hash: string, fuse: nat, ref: string)
    requires B.JobName(order.name, hash) in m.jobs && ReadableBuild(order)
    ensures var st, before := B.Observe(m, order, hash, fuse).0.s.published, m.s.published;
            NamedIn(repo, st.artifact, st.history, ref) ==>
            || NamedIn(repo, before.artifact, before.history, ref)
            || (m.jobs[B.JobName(order.name, hash)] == B.Succeeded && order.result.Ok?
                && var d := order.result.value;
                   ref in LandedRefs(repo,
                                     B.NamingWrites(B.Naming(m.reg, before.artifact, order, d), order.target.tags, d),
                                     fuse))
  {
    hide NamesOf, B.JobName, B.Naming, Landed, B.RetryDue, Recorded, SpecTags, IsDigest, RecordedAs, PublishTags,
      WriteRefs, RefOf;
    if order.result.Ok? {
      var t, d := order.target, order.result.value;
      var a, ws := B.ArtifactOf(t, d), TagWrites(PublishTags(t.tags, d), d);
      StatusReadsBack(t, d);
      NamesOfIs(repo, PublicationOf(t, d), a.tags, ref);
      var record := Some(BuildRecord(d, a.tags, hash, None));
      if RefOf(repo, PublicationOf(t, d), ref) {
        PublicationPushed(repo, t, d, ws, 0, ref);
      } else if NamedIn(repo, Some(a), Recorded(m.s.published.history, record, order.limit), ref) {
        RecordedNames(repo, Some(a), m.s.published.history, record, order.limit, ref);
      }
    }
  }
}
