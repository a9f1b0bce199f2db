/** Runs over one repository whose registry keeps a lease: what status claims is never reclaimed, because
    the refresher pulls it, so status never claims what is not there. */
module LeasedRuns {
  import opened Strings
  import opened Registries
  import opened Tags
  import opened Statuses
  import opened Backfill
  import opened Retention
  import opened ClaimsKept
  import opened Written
  import opened Pushes
  import F = Refresh
  import L = Lease
  import R = Runs
  import B = Builder
  import C = Composer
  import P = Published
  import V = Convergence

  // ---------- A new claim is pushed ----------

  /** The digest and its own tag are among these references. */
  predicate BothIn(repo: string, refs: set<string>, d: string) {
    repo + ":" + DigestTag(d) in refs && repo + "@" + d in refs
  }

  lemma MarkingClaims(repo: string, st: Status, known: map<string, bool>, pull: string, tagFor: string -> string,
                      now: int,
                      d: string)
    requires ClaimsOwn(st.(artifact := MarkArtifact(st.artifact, known, pull),
                           history := Marked(st.history, known, DigestOf(st.artifact), tagFor, now)), d)
    ensures ClaimsOwn(st, d) || BothIn(repo, OwnRefs(repo, known), d)
  {
    hide HasDigestTag, DigestTag;
    var a, h := MarkArtifact(st.artifact, known, pull), Marked(st.history, known, DigestOf(st.artifact), tagFor, now);
    if a.Some? && Mentions(a.value.tags, a.value.digest, d) {
      if a == st.artifact {
        assert ClaimsOwn(st, d);
      }
    } else {
      var i :| 0 <= i < |h| && Mentions(h[i].tags, h[i].digest, d);
      if h[i].tags == st.history[i].tags {
        assert Mentions(st.history[i].tags, st.history[i].digest, d);
      }
    }
  }

  lemma RecordedClaims(st: Status, a: ArtifactStatus, record: Option<BuildRecord>, limit: int, after: Status, d: string)
    requires after.artifact == Some(a) && after.history == Recorded(st.history, record, limit) && ClaimsOwn(after, d)
    ensures ClaimsOwn(st, d) || Mentions(a.tags, a.digest, d)
         || (record.Some? && Mentions(record.value.tags, record.value.digest, d))
  {
    hide HasDigestTag;
    if !Mentions(a.tags, a.digest, d) {
      var i :| 0 <= i < |after.history| && Mentions(after.history[i].tags, after.history[i].digest, d);
      var r := after.history[i];
      assert r in after.history;
      if record.Some? {
        OthersAre(st.history, record.value.digest, |st.history|);
      }
      if r in st.history {
        var k :| 0 <= k < |st.history| && st.history[k] == r;
        assert Mentions(st.history[k].tags, st.history[k].digest, d);
      }
    }
  }

  /** A write of the digest's own tag that lands covers both references. */
  lemma OwnWritten(repo: string, ws: seq<Write>, fuse: nat, d: string)
    requires |ws| <= fuse && ws != [] && ws[|ws| - 1] == PutTag(DigestTag(d), d)
    ensures BothIn(repo, LandedRefs(repo, ws, fuse), d)
  {
    hide DigestTag;
  }

  lemma ResultClaims(repo: string, b: C.World, pass: C.Pass, fuse: nat, d: string)
    requires ReadableCompose(b.reg, pass) && (C.Decide(b.reg, b.status, pass).ShortCut? ==> b.status.artifact.Some?)
    requires |C.WritesOf(C.Decide(b.reg, b.status, pass), pass.target.tags)| <= fuse
    ensures var choice := C.Decide(b.reg, b.status, pass);
            var ws, r := C.WritesOf(choice, pass.target.tags), C.ResultOf(choice, b.status, pass);
            r.Some? && (Mentions(r.value.artifact.tags, r.value.artifact.digest, d)
                        || (r.value.record.Some?
                            && Mentions(r.value.record.value.tags, r.value.record.value.digest, d))) ==>
            ClaimsOwn(b.status, d) || BothIn(repo, LandedRefs(repo, ws, fuse), d)
  {
    hide C.Decide, DigestTag, HasDigestTag, IsDigest, SpecTag, PublishTags, LandedRefs, C.Looked, P.InPlace,
      C.ArtifactFor;
    V.DecisionMeans(b.reg, b.status, pass);
    var t := pass.target;
    match C.Decide(b.reg, b.status, pass) {
      case NameOnly(e) =>
        ArtifactDigest(t, e);
        OwnWritten(repo, C.WritesOf(C.NameOnly(e), t.tags), fuse, e);
      case Publish(e) =>
        ArtifactDigest(t, e);
        LastIsOwn(t.tags, e);
        OwnWritten(repo, C.WritesOf(C.Publish(e), t.tags), fuse, e);
      case KeepExisting(c, _) =>
        ArtifactDigest(t, c.current);
        KeptClaimsNothing(t, c.current);
      case _ =>
    }
  }

  lemma LastIsOwn(tags: seq<string>, d: string)
    ensures var ws := C.WritesOf(C.Publish(d), tags); ws != [] && ws[|ws| - 1] == PutTag(DigestTag(d), d)
    ensures var ws := TagWrites(PublishTags(tags, d), d); ws != [] && ws[|ws| - 1] == PutTag(DigestTag(d), d)
  {
    hide DigestTag;
  }

  lemma KeptClaimsNothing(t: Target, d: string)
    requires SpecTags(t.tags) && IsDigest(d)
    ensures !HasDigestTag(C.ArtifactFor(t, d, false).tags, d)
  {
    hide HasDigestTag, IsDigest, DigestTag, SpecTag;
    SpecTagsClaimNothing(t.pull, t.tags, d);
    assert Qualified(t.pull, t.tags) + [] == Qualified(t.pull, t.tags);
    assert t.tags == [] ==> Qualified(t.pull, t.tags) == [];
  }

  lemma SettledClaims(repo: string, b: C.World, pass: C.Pass, fuse: nat, d: string)
    requires ReadableCompose(b.reg, pass) && ClaimsOwn(C.Settled(b, pass, fuse).status, d)
    ensures ClaimsOwn(b.status, d)
         || BothIn(repo, LandedRefs(repo, C.WritesOf(C.Decide(b.reg, b.status, pass), pass.target.tags), fuse), d)
  {
    hide C.Decide, C.WritesOf, Landed, Mentions, ClaimsOwn, ReadableCompose, BothIn, LandedRefs, Recorded, C.Looked,
      P.InPlace, C.ArtifactFor,
      PublishTags, DigestTag;
    V.DecisionMeans(b.reg, b.status, pass);
    var choice := C.Decide(b.reg, b.status, pass);
    var r := C.ResultOf(choice, b.status, pass);
    if r.Some? && |C.WritesOf(choice, pass.target.tags)| <= fuse && pass.landed {
      ResultClaims(repo, b, pass, fuse, d);
      RecordedClaims(b.status, r.value.artifact, r.value.record, pass.limit, C.Settled(b, pass, fuse).status, d);
    }
  }

  /** What a composer pass makes status claim, it has pushed. */
  lemma ComposeClaims(repo: string, w: C.World, pass: C.Pass, fuse: nat, d: string)
    requires ReadableCompose(w.reg, pass) && ClaimsOwn(C.Reconciled(w, pass, fuse).status, d)
    ensures ClaimsOwn(w.status, d) || BothIn(repo, ComposePushes(repo, w, pass, fuse), d)
  {
    hide ClaimsOwn, C.Settled, C.Decide, C.WritesOf, LearnedOf, MarkArtifact, Marked, OwnRefs, LandedRefs, Sound,
      SpecTags, DigestTag,
      IsDigest;
    var b := C.Backfilled(w, pass);
    var l := LearnedOf(w.reg, w.status.artifact, w.status.history, pass.replies);
    AskingKeepsOwn(w.reg, w.status.artifact, w.status.history, pass.replies);
    if !pass.suspended {
      SettledClaims(repo, b, pass, fuse, d);
    }
    if ClaimsOwn(b.status, d) && pass.marked {
      MarkingClaims(repo, w.status, l.known, pass.target.pull, DigestTag, pass.now, d);
    }
  }

  lemma BuildClaims(repo: string, m: B.Machine, order: B.Pass, fuse: nat, d: string)
    requires ClaimsOwn(B.Passed(m, order, fuse).0.s.published, d)
    ensures ClaimsOwn(m.s.published, d) || BothIn(repo, BuildPushes(repo, m, order, fuse), d)
  {
    hide ClaimsOwn, B.Work, LearnedOf, MarkArtifact, Marked, OwnRefs, LandedRefs, NamedWrites, DigestTag, B.OwnTag;
    var b := B.Backfilled(m, order);
    if !order.suspended {
      WorkClaims(repo, b, order, fuse, d);
    }
    if ClaimsOwn(b.s.published, d) && order.configured && order.access.None? {
      var known := LearnedOf(m.reg, m.s.published.artifact, m.s.published.history, order.replies).known;
      MarkingClaims(repo, m.s.published, known, order.target.pull, B.OwnTag(order.target.pull), order.now, d);
    }
  }

  /** Only the artifact and the history claim anything. */
  lemma SameClaims(st: Status, after: Status, d: string)
    requires after.artifact == st.artifact && after.history == st.history
    ensures ClaimsOwn(after, d) <==> ClaimsOwn(st, d)
  {
  }

  lemma WorkClaims(repo: string, b: B.Machine, order: B.Pass, fuse: nat, d: string)
    requires !order.suspended
    requires ClaimsOwn(B.Conclude(B.Work(b, order, fuse).0.s, B.Work(b, order, fuse).1).published, d)
    ensures ClaimsOwn(b.s.published, d) || BothIn(repo, LandedRefs(repo, NamedWrites(b, order), fuse), d)
  {
    hide ClaimsOwn, LandedRefs, B.JobName, B.Observe, B.PreFlight, B.Converged, B.Naming, B.NamingWrites, DigestTag;
    var after := B.Work(b, order, fuse).0.s.published;
    if after.artifact == b.s.published.artifact && after.history == b.s.published.history {
      SameClaims(b.s.published, after, d);
    } else {
      ObserveClaims(repo, b, order, order.inputs.value, fuse, d);
    }
  }

  lemma ObserveClaims(repo: string, m: B.Machine, order: B.Pass, hash: string, fuse: nat, d: string)
    requires B.JobName(order.name, hash) in m.jobs
    ensures var after := B.Observe(m, order, hash, fuse).0.s.published;
            ClaimsOwn(after, d) ==>
            || ClaimsOwn(m.s.published, d)
            || (m.jobs[B.JobName(order.name, hash)] == B.Succeeded && order.result.Ok?
                && var e := order.result.value;
                   BothIn(repo, LandedRefs(repo, B.NamingWrites(B.Naming(m.reg, m.s.published.artifact, order, e),
                                                                order.target.tags, e), fuse), d))
  {
    hide B.JobName, B.Naming, Landed, B.RetryDue, Recorded, PublishTags, LandedRefs, DigestTag, HasDigestTag;
    var after := B.Observe(m, order, hash, fuse).0.s.published;
    if ClaimsOwn(after, d) {
      assert after.artifact == m.s.published.artifact && after.history == m.s.published.history ==>
               ClaimsOwn(m.s.published, d);
      if order.result.Ok? {
        var t, e := order.target, order.result.value;
        var a := B.ArtifactOf(t, e);
        LastIsOwn(t.tags, e);
        if after.artifact == Some(a) && after != m.s.published
           && after.history == Recorded(m.s.published.history, Some(BuildRecord(e, a.tags, hash, None)), order.limit) {
          RecordedClaims(m.s.published, a, Some(BuildRecord(e, a.tags, hash, None)), order.limit, after, d);
        }
        if |TagWrites(PublishTags(t.tags, e), e)| <= fuse {
          OwnWritten(repo, TagWrites(PublishTags(t.tags, e), e), fuse, e);
        }
      }
    }
  }

  // ---------- Runs ----------

  /** The objects and their repository, with what the registry remembers of pushes and pulls. */
  datatype State = State(w: R.World, l: L.Lease)

  /** A step of a run, or a cycle of the refresher. */
  datatype Turn = Works(step: R.Step, at: int) | Cycles(view: F.View, answers: string -> F.Pull, at: int)

  function CompWorld(w: R.World, id: string): C.World
    requires id in w.comps
  {
    C.World(w.reg, w.comps[id])
  }

  function BuildMachine(w: R.World, id: string): B.Machine
    requires id in w.builds
  {
    B.Machine(w.builds[id].s, w.builds[id].jobs, w.reg)
  }

  /** What a step pushes or pulls. */
  function StepPushes(repo: string, w: R.World, e: R.Step): set<string> {
    match e
    case Compose(id, pass, fuse) => if id in w.comps then ComposePushes(repo, CompWorld(w, id), pass, fuse) else {}
    case RunBuild(id, order, fuse, _) =>
      if id in w.builds then BuildPushes(repo, BuildMachine(w, id), order, fuse) else {}
    case Push(d) => {repo + "@" + d}
    case _ => {}
  }

  function Next(repo: string, s: State, t: Turn): State {
    match t
    case Works(e, at) => State(R.Next(s.w, e), L.Pushing(s.l, StepPushes(repo, s.w, e), at))
    case Cycles(view, answers, at) => State(s.w, L.Next(s.l, L.Cycle(view, answers, at)))
  }

  function After(repo: string, s: State, run: seq<Turn>, n: nat): State
    requires n <= |run|
  {
    if n == 0 then s else Next(repo, After(repo, s, run, n - 1), run[n - 1])
  }

  /** Some object's status names the reference. */
  predicate Live(repo: string, w: R.World, ref: string) {
    || (exists id :: id in w.comps && ref in Refs(repo, w.comps[id].artifact, w.comps[id].history))
    || exists id :: id in w.builds
         && ref in Refs(repo, w.builds[id].s.published.artifact, w.builds[id].s.published.history)
  }

  /** The registry may reclaim what was last pushed or pulled longer than its window ago. */
  predicate Stale(terms: L.Terms, l: L.Lease, ref: string, at: int) {
    ref in l.touched ==> at - l.touched[ref] > terms.window
  }

  /** What the environment owes: time moves on and no cycle is overdue; digests, spec tags and public
      names have their forms; the registry keeps its window, reclaiming a digest only when it is stale,
      and a tag likewise; and no reference that a status names and the registry holds is missed by too
      many cycles in a row. Nothing is said of what status claims. */
  ghost predicate Allowed(terms: L.Terms, repo: string, s: State, t: Turn) {
    && t.at >= s.l.clock && t.at <= s.l.last + terms.interval
    && match t
       case Works(e, at) =>
         (&& FairForms(e) && PublicNames(e)
          && (e.Reclaim? ==> Stale(terms, s.l, repo + "@" + e.digest, at))
          && (e.Untag? ==> Stale(terms, s.l, repo + ":" + e.tag, at)))
       case Cycles(view, answers, at) =>
         forall ref :: Live(repo, s.w, ref) && HeldIn(repo, s.w.reg, ref) ==>
           L.PulledIn(L.Cycle(view, answers, at), ref) || L.Missed(s.l, ref) + 1 <= terms.misses
  }

  ghost predicate AllAllowed(terms: L.Terms, repo: string, s: State, run: seq<Turn>) {
    forall n :: 0 <= n < |run| ==> Allowed(terms, repo, After(repo, s, run, n), run[n])
  }

  // ---------- The invariant ----------

  /** Some object's status claims the digest's own tag. */
  predicate Claimed(w: R.World, d: string) {
    || (exists id :: id in w.comps && ClaimsOwn(w.comps[id], d))
    || exists id :: id in w.builds && ClaimsOwn(w.builds[id].s.published, d)
  }

  /** A claimed digest holds its lease, by digest and by its own tag. */
  predicate LeasedBoth(terms: L.Terms, repo: string, l: L.Lease, d: string) {
    L.Leased(terms, l, repo + ":" + DigestTag(d)) && L.Leased(terms, l, repo + "@" + d)
  }

  ghost predicate Covered(terms: L.Terms, repo: string, s: State) {
    forall d :: Claimed(s.w, d) ==> LeasedBoth(terms, repo, s.l, d)
  }

  ghost predicate Sane(terms: L.Terms, repo: string, s: State) {
    s.l.last <= s.l.clock && Honest(s.w) && AllRead(s.w) && Covered(terms, repo, s)
  }

  /** What is claimed is named, and the registry holds it. */
  lemma ClaimedIsLive(repo: string, w: R.World, d: string)
    requires Honest(w) && AllRead(w) && Claimed(w, d)
    ensures Live(repo, w, repo + ":" + DigestTag(d)) && Live(repo, w, repo + "@" + d)
    ensures HeldIn(repo, w.reg, repo + ":" + DigestTag(d)) && HeldIn(repo, w.reg, repo + "@" + d)
  {
    hide ClaimsOwn, Refs, DigestTag, IsDigest, ReadsAll, Truthful;
    if id :| id in w.comps && ClaimsOwn(w.comps[id], d) {
      ClaimHeld(repo, w.reg, w.comps[id], d);
    } else {
      var id :| id in w.builds && ClaimsOwn(w.builds[id].s.published, d);
      ClaimHeld(repo, w.reg, w.builds[id].s.published, d);
    }
  }

  lemma ClaimHeld(repo: string, reg: Registry, st: Status, d: string)
    requires Sound(reg) && Truthful(reg, st) && ReadsAll(st.artifact, st.history) && ClaimsOwn(st, d)
    ensures repo + ":" + DigestTag(d) in Refs(repo, st.artifact, st.history)
    ensures repo + "@" + d in Refs(repo, st.artifact, st.history)
    ensures HeldIn(repo, reg, repo + ":" + DigestTag(d)) && HeldIn(repo, reg, repo + "@" + d)
  {
    hide Refs, DigestTag, IsDigest, HasDigestTag, RecordedAs;
    ReadNoDigestRef(st);
    if i :| 0 <= i < |st.history| && Mentions(st.history[i].tags, st.history[i].digest, d) {
      assert st.history[i] in st.history;
    }
    ClaimIsRefreshed(repo, st, d);
    assert Resolves(reg, DigestTag(d), d);
  }

  lemma ReadNoDigestRef(st: Status)
    requires ReadsAll(st.artifact, st.history)
    ensures st.artifact.Some? ==> NoDigestRef(st.artifact.value.tags)
    ensures forall r :: r in st.history ==> NoDigestRef(r.tags)
  {
    hide IsDigest, WrittenAs, ValidTag, BareTag;
    if st.artifact.Some? {
      NamesHoldNoDigest(st.artifact.value.digest, st.artifact.value.tags);
    }
    forall r | r in st.history ensures NoDigestRef(r.tags) {
      NamesHoldNoDigest(r.digest, r.tags);
    }
  }

  lemma NamesHoldNoDigest(digest: string, names: seq<string>)
    requires Reads(digest, names)
    ensures NoDigestRef(names)
  {
    hide IsDigest, ValidTag, BareTag;
    forall t | t in names ensures '@' !in t {
      var i :| 0 <= i < |names| && names[i] == t;
      var tag := ReadBack(digest, names).tags[i];
      assert ValidTag(tag) && WrittenAs(t, tag);
      ValidTagChars(tag);
    }
  }

  /** A claim keeps its lease when a step pushes something. */
  lemma PushingLeased(terms: L.Terms, l: L.Lease, pushed: set<string>, at: int, ref: string)
    requires l.last <= l.clock <= at && (ref in pushed || L.Leased(terms, l, ref))
    ensures L.Leased(terms, L.Pushing(l, pushed, at), ref)
  {
  }

  lemma CycleLeased(terms: L.Terms, l: L.Lease, view: F.View, answers: string -> F.Pull, at: int, ref: string)
    requires l.clock <= at <= l.last + terms.interval && L.Leased(terms, l, ref)
    requires !L.PulledIn(L.Cycle(view, answers, at), ref) ==> L.Missed(l, ref) + 1 <= terms.misses
    ensures L.Leased(terms, L.Next(l, L.Cycle(view, answers, at)), ref)
  {
    hide F.RefsFor, F.Cycled;
    L.CycleTouches(l, L.Cycle(view, answers, at), ref);
    L.Multiples(L.Missed(l, ref), terms.misses, terms.interval);
  }

  /** What holds its lease is not stale. */
  lemma LeasedIsFresh(terms: L.Terms, l: L.Lease, ref: string, at: int)
    requires (terms.misses + 1) * terms.interval <= terms.window
    requires at <= l.last + terms.interval && L.Leased(terms, l, ref)
    ensures !Stale(terms, l, ref, at)
  {
    L.Multiples(L.Missed(l, ref), terms.misses, terms.interval);
    L.Multiples(terms.misses, terms.misses, terms.interval);
  }

  /** So the registry spares what is claimed. */
  lemma WindowSpares(terms: L.Terms, repo: string, s: State, t: Turn)
    requires Sane(terms, repo, s) && t.Works? && Allowed(terms, repo, s, t)
    requires (terms.misses + 1) * terms.interval <= terms.window
    ensures Fair(s.w, t.step)
  {
    hide ClaimsOwn, DigestTag, Honest, AllRead, FairForms, PublicNames, Stale, L.Leased;
    var e, at := t.step, t.at;
    forall d | Claimed(s.w, d) ensures !Stale(terms, s.l, repo + "@" + d, at)
                                    && !Stale(terms, s.l, repo + ":" + DigestTag(d), at)
    {
      LeasedIsFresh(terms, s.l, repo + "@" + d, at);
      LeasedIsFresh(terms, s.l, repo + ":" + DigestTag(d), at);
    }
  }

  /** What a step makes status claim, it has pushed. */
  lemma StepClaims(repo: string, w: R.World, e: R.Step, d: string)
    requires Sound(w.reg) && FairForms(e) && PublicNames(e) && Claimed(R.Next(w, e), d)
    ensures Claimed(w, d) || BothIn(repo, StepPushes(repo, w, e), d)
  {
    hide ClaimsOwn, C.Reconciled, B.Passed, ComposePushes, BuildPushes, BothIn, Sound, SpecTags, IsDigest, R.Reclaimed,
      R.Collected;
    var after := R.Next(w, e);
    match e {
      case Compose(id, pass, fuse) =>
        if id in w.comps && ClaimsOwn(after.comps[id], d) {
          ComposeClaims(repo, CompWorld(w, id), pass, fuse, d);
        }
      case RunBuild(id, order, fuse, landed) =>
        if id in w.builds && ClaimsOwn(after.builds[id].s.published, d) && landed {
          BuildClaims(repo, BuildMachine(w, id), order, fuse, d);
        }
      case _ =>
    }
  }

  lemma StepCovered(terms: L.Terms, repo: string, s: State, t: Turn)
    requires Sane(terms, repo, s) && Allowed(terms, repo, s, t)
    ensures Covered(terms, repo, Next(repo, s, t))
  {
    hide Claimed, DigestTag, Honest, AllRead, L.Leased, R.Next, StepPushes, FairForms, PublicNames, Live, HeldIn,
      L.PulledIn, L.Next,
      L.Pushing, Stale;
    var after := Next(repo, s, t);
    forall d | Claimed(after.w, d) ensures LeasedBoth(terms, repo, after.l, d) {
      var own, ref := repo + ":" + DigestTag(d), repo + "@" + d;
      match t {
        case Works(e, at) =>
          HonestIsSound(s.w);
          StepClaims(repo, s.w, e, d);
          PushingLeased(terms, s.l, StepPushes(repo, s.w, e), at, own);
          PushingLeased(terms, s.l, StepPushes(repo, s.w, e), at, ref);
        case Cycles(view, answers, at) =>
          ClaimedIsLive(repo, s.w, d);
          CycleLeased(terms, s.l, view, answers, at, own);
          CycleLeased(terms, s.l, view, answers, at, ref);
      }
    }
  }

  lemma TurnSane(terms: L.Terms, repo: string, s: State, t: Turn)
    requires Sane(terms, repo, s) && Allowed(terms, repo, s, t)
    requires (terms.misses + 1) * terms.interval <= terms.window
    ensures Sane(terms, repo, Next(repo, s, t))
  {
    hide Honest, AllRead, Covered, R.Next, StepPushes, Fair, FairForms, Stale, Live, HeldIn, L.PulledIn, L.Missed,
      F.Cycled;
    StepCovered(terms, repo, s, t);
    if t.Works? {
      WindowSpares(terms, repo, s, t);
      StepHonest(s.w, t.step);
      HonestIsSound(s.w);
      StepReads(s.w, t.step);
    }
  }

  /** With cycles at most `interval` apart, at most `misses` of them in a row missing any one reference
      that a status names and the registry holds, and a window of (misses + 1) intervals: in every state
      of every run, though nothing is assumed to spare what status claims, a digest's own tag claimed
      by an artifact or a history record exists and names that digest. */
  lemma {:induction false} LeaseKeepsClaims(terms: L.Terms, repo: string, s: State, run: seq<Turn>, n: nat)
    requires n <= |run| && Sane(terms, repo, s) && AllAllowed(terms, repo, s, run)
    requires (terms.misses + 1) * terms.interval <= terms.window
    ensures Sane(terms, repo, After(repo, s, run, n)) && Honest(After(repo, s, run, n).w)
  {
    hide Honest, AllRead, Covered, Next, Allowed;
    if n > 0 {
      LeaseKeepsClaims(terms, repo, s, run, n - 1);
      TurnSane(terms, repo, After(repo, s, run, n - 1), run[n - 1]);
    }
  }

  /** Objects with nothing published start sane. */
  lemma NothingPublishedIsSane(terms: L.Terms, repo: string, w: R.World, start: int)
    requires Sound(w.reg)
    requires forall id :: id in w.comps ==> w.comps[id].artifact.None? && w.comps[id].history == []
    requires forall id :: id in w.builds ==>
               w.builds[id].s.published.artifact.None? && w.builds[id].s.published.history == []
    ensures Sane(terms, repo, State(w, L.Lease(map[], map[], start, start, map[], {})))
  {
    hide DigestTag, IsDigest, HasDigestTag, L.Leased;
  }

  lemma {:induction false} HistoriesClaimed(repo: string, s: State, run: seq<Turn>, n: nat)
    requires n <= |run| && EveryBuildClaimed(s.w)
    ensures EveryBuildClaimed(After(repo, s, run, n).w)
  {
    hide EveryBuildClaimed, R.Next, StepPushes, L.Next;
    if n > 0 {
      HistoriesClaimed(repo, s, run, n - 1);
      if run[n - 1].Works? {
        StepClaimed(After(repo, s, run, n - 1).w, run[n - 1].step);
      }
    }
  }

  /** So from nothing published, every build in every history is still served and still has a name, in
      every state, on the strength of the lease alone. */
  lemma EveryBuildIsHeld(terms: L.Terms, repo: string, w: R.World, start: int, run: seq<Turn>, n: nat)
    requires n <= |run| && Sound(w.reg) && (terms.misses + 1) * terms.interval <= terms.window
    requires AllAllowed(terms, repo, State(w, L.Lease(map[], map[], start, start, map[], {})), run)
    requires forall id :: id in w.comps ==> w.comps[id].artifact.None? && w.comps[id].history == []
    requires forall id :: id in w.builds ==>
               w.builds[id].s.published.artifact.None? && w.builds[id].s.published.history == []
    ensures var after := After(repo, State(w, L.Lease(map[], map[], start, start, map[], {})), run, n).w;
            && (forall id, r :: id in after.comps && r in after.comps[id].history ==> StillNamed(after.reg, r.digest))
            && forall id, r :: id in after.builds && r in after.builds[id].s.published.history ==>
                 StillNamed(after.reg, r.digest)
  {
    hide After, HasDigestTag, DigestTag, IsDigest, AllAllowed, Covered, AllRead;
    var s := State(w, L.Lease(map[], map[], start, start, map[], {}));
    NothingPublishedIsSane(terms, repo, w, start);
    LeaseKeepsClaims(terms, repo, s, run, n);
    HistoriesClaimed(repo, s, run, n);
  }
}
