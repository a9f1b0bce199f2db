/** Naming a build's output is crash-safe too: whole passes cut short after any write, with every
    status write lost, end where one uninterrupted naming ends, and a converged pass writes nothing. */
module BuildConvergence {
  import opened Strings
  import opened Registries
  import opened Tags
  import opened Statuses
  import opened Backfill
  import opened Convergence
  import opened Builder
  import P = Published

  // ---------- The tags alone ----------

  /** A build's manifest is there already, so only its tags are written. */
  lemma {:induction false} TagsAfterPush(base: Registry, names: seq<string>, d: string, n: nat)
    requires n <= |names| && d in base.manifests
    ensures ApplyTo(base, TagWrites(names, d), n) == ApplyTo(base, PublishWrites(names, d), n + 1)
  {
    var ws, all := TagWrites(names, d), PublishWrites(names, d);
    if n == 0 {
      assert base.manifests + {d} == base.manifests;
      assert ApplyTo(base, all, 0) == base;
    } else {
      TagsAfterPush(base, names, d, n - 1);
      assert all[n] == ws[n - 1];
      assert ApplyTo(base, all, n + 1) == Apply(ApplyTo(base, all, n), all[n]);
    }
  }

  lemma TagsLanded(base: Registry, names: seq<string>, d: string, fuse: nat)
    requires d in base.manifests
    ensures var reg := Landed(base, TagWrites(names, d), fuse);
            && Between(base, reg, names, d) && d in reg.manifests
            && (fuse >= |names| ==> P.InPlace(reg, names, d))
  {
    hide Between;
    var n := if fuse < |names| then fuse else |names|;
    TagsAfterPush(base, names, d, n);
    PartWay(base, names, d, n);
    assert names[..|names|] == names;
  }

  lemma BetweenTakes(base: Registry, reg: Registry, names: seq<string>, d: string, t: string, aside: set<string>)
    requires Between(base, reg, names, d, aside) && !P.TakenFrom(base, t, d) && t !in aside
    ensures !P.TakenFrom(reg, t, d)
  {
    assert SameAt(base, reg, t) || Resolves(reg, t, d);
  }

  /** Tags the naming has reached so far do not stop it. */
  lemma NamingNotStopped(base: Registry, artifact: Option<ArtifactStatus>, order: Pass,
                         reg: Registry, artifact': Option<ArtifactStatus>, retry: Pass, d: string, aside: set<string>)
    requires Naming(base, artifact, order, d) == Proceed
    requires Between(base, reg, PublishTags(order.target.tags, d), d, aside)
    requires forall t :: t in PublishTags(order.target.tags, d) ==> t !in aside
    requires retry.target == order.target && retry.configured && retry.access.None?
    ensures Naming(reg, artifact', retry, d) == Proceed
  {
    hide P.FirstConflict, P.Resolved, DigestTag, Between, PublishTags;
    var tags := order.target.tags;
    var names := PublishTags(tags, d);
    PublishTagsIs(tags, d);
    P.ConflictExactly(base, tags, tags, DigestOf(artifact), d);
    P.ConflictExactly(reg, tags, tags, DigestOf(artifact'), d);
    BetweenServes(base, reg, names, d, aside);
    if order.target.policy != Overwrite {
      forall t | t in tags ensures !P.TakenFrom(reg, t, d) {
        BetweenTakes(base, reg, names, d, t, aside);
      }
    }
  }

  lemma BetweenServes(base: Registry, reg: Registry, names: seq<string>, d: string, aside: set<string>)
    requires Between(base, reg, names, d, aside)
    ensures d in base.manifests ==> d in reg.manifests
    ensures reg.manifests <= base.manifests + {d}
  {
  }

  // ---------- What a backfill's requests come to ----------

  /** The registry with the own tag of every digest asked about that it serves and whose request
      reaches it. */
  function Reached(reg: Registry, asks: seq<string>, replies: nat -> Reply, n: nat): Registry
    requires n <= |asks|
  {
    if n == 0 then reg
    else
      var before := Reached(reg, asks, replies, n - 1);
      if replies(n - 1) != Unreachable && asks[n - 1] in reg.manifests
      then before.(tags := before.tags[DigestTag(asks[n - 1]) := asks[n - 1]]) else before
  }

  /** No two of the digests asked about and served share their own tag. */
  ghost predicate Apart(served: set<string>, asks: seq<string>) {
    forall d, e :: d in asks && e in asks && d in served && e in served && DigestTag(d) == DigestTag(e) ==> d == e
  }

  lemma {:induction false} ReachedIs(reg: Registry, asks: seq<string>, replies: nat -> Reply, n: nat)
    requires n <= |asks| && Apart(reg.manifests, asks)
    ensures var l := AfterAsking(reg, asks, replies, n);
            && l.reg == Reached(reg, asks, replies, n) && l.reg.manifests == reg.manifests
            && (forall d :: d in l.known ==> d in asks && (l.known[d] <==> d in reg.manifests))
            && (forall d :: d in l.known && l.known[d] ==> Resolves(l.reg, DigestTag(d), d))
  {
    hide DigestTag;
    if n > 0 {
      ReachedIs(reg, asks, replies, n - 1);
      var l, d := AfterAsking(reg, asks, replies, n - 1), asks[n - 1];
      if d in l.known {
        if l.known[d] {
          assert l.reg.tags[DigestTag(d) := d] == l.reg.tags;
        }
      } else if d in reg.manifests {
        assert reg.manifests + {d} == reg.manifests;
      }
    }
  }

  /** What a pass's requests make of the registry, before the pass. */
  function AfterRequests(m: Machine, pass: Pass): Registry {
    var st := m.s.published;
    var asks := Asks(st.artifact, st.history, |st.history|);
    Reached(m.reg, asks, pass.replies, |asks|)
  }

  lemma BackfillReaches(m: Machine, pass: Pass, hash: string)
    requires pass.configured && pass.access.None?
    requires var st := m.s.published; Apart(m.reg.manifests, Asks(st.artifact, st.history, |st.history|))
    ensures Backfilled(m, pass).reg == AfterRequests(m, pass)
    ensures Converged(Backfilled(m, pass), pass, hash) <==> Converged(m.(reg := AfterRequests(m, pass)), pass, hash)
  {
    hide Asks, AfterAsking, Reached, StillThere, Marked, DigestTag, HasDigestTag, Apart;
    var st := m.s.published;
    var asks := Asks(st.artifact, st.history, |st.history|);
    ReachedIs(m.reg, asks, pass.replies, |asks|);
    var known := LearnedOf(m.reg, st.artifact, st.history, pass.replies).known;
    if st.artifact.Some? {
      MarkedStillThere(AfterRequests(m, pass), st.artifact.value, known, pass);
    }
  }

  /** Marking an own tag that is there does not make an artifact any less published. */
  lemma MarkedStillThere(reg: Registry, a: ArtifactStatus, known: map<string, bool>, pass: Pass)
    requires forall d :: d in known && known[d] ==> Resolves(reg, DigestTag(d), d)
    ensures StillThere(reg, MarkArtifact(Some(a), known, pass.target.pull), pass) <==> StillThere(reg, Some(a), pass)
  {
    hide DigestTag, Claims;
    var marked := MarkArtifact(Some(a), known, pass.target.pull).value;
    if marked != a {
      OwnTagRecognised(pass.target.pull, a.digest);
      ClaimsAppended(a.tags, a.digest, pass.target.pull + ":" + DigestTag(a.digest));
      var own := ByTag(DigestTag(a.digest));
      assert MustExist(marked, pass.target.tags) == MustExist(a, pass.target.tags) + [own];
      assert Present(reg, own);
      assert forall r :: r in MustExist(marked, pass.target.tags) <==> r in MustExist(a, pass.target.tags) || r == own;
    }
  }

  // ---------- Whole passes ----------

  /** Another pass over the same inputs, whose Job ended with the same output. */
  ghost predicate Reruns(retry: Pass, order: Pass, hash: string, d: string) {
    && retry.name == order.name && retry.target == order.target && retry.configured && retry.access.None?
    && !retry.suspended && retry.lifecycle.None? && retry.inputs == Ok(hash)
    && retry.readJob.None? && retry.result == Ok(d)
  }

  /** One pass, how many of its writes land, and whether its status write does. */
  datatype Turn = Turn(pass: Pass, fuse: nat, landed: bool)

  function AfterTurns(m: Machine, turns: seq<Turn>, n: nat): Machine
    requires n <= |turns|
  {
    if n == 0 then m
    else
      var before, t := AfterTurns(m, turns, n - 1), turns[n - 1];
      var after := Passed(before, t.pass, t.fuse).0;
      after.(s := if t.landed then after.s else before.s)
  }

  function AsksOf(st: Status): seq<string> {
    Asks(st.artifact, st.history, |st.history|)
  }

  lemma FewerApart(served: set<string>, fewer: set<string>, asks: seq<string>)
    requires Apart(served, asks) && fewer <= served
    ensures Apart(fewer, asks)
  {
    hide DigestTag;
  }

  /** With nothing else that could be named, nothing can be taken for anything else. */
  lemma NothingApart(reg: Registry, st: Status, d: string)
    requires NothingToName(reg, st)
    ensures Apart(reg.manifests + {d}, AsksOf(st))
  {
    hide DigestTag, ArtifactWaits, NeedsDigestTag, Asks;
    forall e | e in AsksOf(st) && e in reg.manifests + {d} ensures e == d {
      AsksWait(st.artifact, st.history, |st.history|, e);
    }
  }

  lemma ProperApart(served: set<string>, st: Status)
    requires Proper(st)
    ensures Apart(served, AsksOf(st))
  {
    hide DigestTag, IsDigest, Asks;
    AsksDigests(st.artifact, st.history, |st.history|);
    forall d, e | d in AsksOf(st) && e in AsksOf(st) && DigestTag(d) == DigestTag(e) ensures d == e {
      DigestTagInjective(d, e);
    }
  }

  /** The Job of these inputs has succeeded, its output may be named, and what else waits is set aside. */
  ghost predicate Ready(base: Machine, order: Pass, hash: string, d: string, aside: set<string>) {
    && Naming(base.reg, base.s.published.artifact, order, d) == Proceed
    && Spared(base.reg, base.s.published, d, aside)
    && Apart(base.reg.manifests + {d}, AsksOf(base.s.published))
    && (forall t :: t in PublishTags(order.target.tags, d) ==> t !in aside)
    && JobName(order.name, hash) in base.jobs && base.jobs[JobName(order.name, hash)] == Succeeded
  }

  /** Part of the naming is done. */
  ghost predicate Underway(base: Machine, m: Machine, order: Pass, hash: string, d: string, aside: set<string>) {
    && Ready(base, order, hash, d, aside)
    && Between(base.reg, m.reg, PublishTags(order.target.tags, d), d, aside) && m.s == base.s && m.jobs == base.jobs
  }

  /** The pass takes what status reports for these inputs to be still published, once its requests have
      reached the registry, although the output's tags are not all in place. */
  ghost predicate TakenForDone(m: Machine, retry: Pass, hash: string, d: string) {
    var reg := AfterRequests(m, retry);
    Converged(m.(reg := reg), retry, hash) && !P.InPlace(reg, PublishTags(retry.target.tags, d), d)
  }

  lemma NamingProceeds(reg: Registry, artifact: Option<ArtifactStatus>, order: Pass, d: string)
    requires Naming(reg, artifact, order, d) == Proceed
    ensures d in reg.manifests
  {
    hide P.FirstConflict, P.Resolved;
  }

  /** What a retry meets once its backfill is done. */
  lemma RetryMeets(base: Machine, m: Machine, order: Pass, retry: Pass, hash: string, d: string, aside: set<string>)
    requires Underway(base, m, order, hash, d, aside) && Reruns(retry, order, hash, d)
    ensures var b := Backfilled(m, retry);
            && Between(base.reg, b.reg, PublishTags(order.target.tags, d), d, aside)
            && Naming(b.reg, b.s.published.artifact, retry, d) == Proceed
            && (TakenForDone(m, retry, hash, d) <==>
                  Converged(b, retry, hash) && !P.InPlace(b.reg, PublishTags(order.target.tags, d), d))
  {
    hide Naming, LearnedOf, MarkArtifact, Marked, Between, PublishTags, StillThere, JobName, P.InPlace, Spared,
      DigestTag, AfterRequests,
      Converged, Apart, Asks;
    var b, names := Backfilled(m, retry), PublishTags(order.target.tags, d);
    PublishTagsIs(order.target.tags, d);
    BetweenServes(base.reg, m.reg, names, d, aside);
    AskingIsBetween(base.reg, m.reg, m.s.published, retry.replies, names, d, aside);
    BetweenTrans(base.reg, m.reg, b.reg, names, d, aside);
    NamingNotStopped(base.reg, base.s.published.artifact, order, b.reg, b.s.published.artifact, retry, d, aside);
    FewerApart(base.reg.manifests + {d}, m.reg.manifests, AsksOf(m.s.published));
    BackfillReaches(m, retry, hash);
  }

  /** One pass of a naming under way: its writes lead towards the end, its Job stays, and with enough
      of them landing it reaches the end, but for the tags set aside, exactly when it does not take the
      naming for done. */
  lemma TurnLeadsOn(base: Machine, m: Machine, order: Pass, retry: Pass, hash: string, d: string, fuse: nat,
                    aside: set<string>)
    requires Underway(base, m, order, hash, d, aside) && Reruns(retry, order, hash, d)
    ensures var after := Passed(m, retry, fuse).0;
            var names := PublishTags(order.target.tags, d);
            && Between(base.reg, after.reg, names, d, aside) && after.jobs == m.jobs
            && (fuse >= |names| ==>
                  (AgreeBut(after.reg, Landed(base.reg, TagWrites(names, d), fuse), aside) <==>
                     !TakenForDone(m, retry, hash, d)))
  {
    hide Naming, LearnedOf, MarkArtifact, Marked, Between, PublishTags, StillThere, JobName, Landed, P.InPlace,
      WithSuccess,
      Spared, DigestTag, TakenForDone, AgreeBut, Apart;
    var b, names := Backfilled(m, retry), PublishTags(order.target.tags, d);
    var ws := TagWrites(names, d);
    RetryMeets(base, m, order, retry, hash, d, aside);
    NamingProceeds(base.reg, base.s.published.artifact, order, d);
    NamingProceeds(b.reg, b.s.published.artifact, retry, d);
    TagsLanded(base.reg, names, d, fuse);
    TagsLanded(b.reg, names, d, fuse);
    var whole, end := Landed(base.reg, ws, fuse), Landed(b.reg, ws, fuse);
    BetweenWider(base.reg, whole, names, d, aside);
    BetweenWider(b.reg, end, names, d, aside);
    BetweenTrans(base.reg, b.reg, end, names, d, aside);
    if fuse >= |names| {
      if P.InPlace(b.reg, names, d) {
        InPlaceAgree(base.reg, b.reg, whole, names, d, aside);
      }
      if AgreeBut(b.reg, whole, aside) {
        AgreeInPlace(b.reg, whole, names, d, aside);
      }
      InPlaceAgree(base.reg, end, whole, names, d, aside);
    }
  }

  lemma AgreeInPlace(a: Registry, b: Registry, names: seq<string>, d: string, aside: set<string>)
    requires AgreeBut(a, b, aside) && P.InPlace(b, names, d) && forall t :: t in names ==> t !in aside
    ensures P.InPlace(a, names, d)
  {
    forall t | t in names ensures Resolves(a, t, d) {
      assert SameAt(a, b, t) && Resolves(b, t, d);
    }
  }

  lemma {:induction false} TurnsStayUnderway(base: Machine, order: Pass, hash: string, d: string, turns: seq<Turn>,
                                             n: nat, aside: set<string>)
    requires n <= |turns| && Underway(base, base, order, hash, d, aside)
    requires forall t :: t in turns ==> Reruns(t.pass, order, hash, d) && !t.landed
    ensures Underway(base, AfterTurns(base, turns, n), order, hash, d, aside)
  {
    hide Ready, JobName, Between, PublishTags, Passed, Reruns;
    if n > 0 {
      TurnsStayUnderway(base, order, hash, d, turns, n - 1, aside);
      var t := turns[n - 1];
      assert t in turns;
      TurnLeadsOn(base, AfterTurns(base, turns, n - 1), order, t.pass, hash, d, t.fuse, aside);
    }
  }

  /** A build whose Job succeeded, and whose passes are cut short any number of times, each after any
      prefix of its writes and each with its status write lost: the next whole pass leaves the registry
      as one uninterrupted naming leaves it, but for the tags set aside, exactly when it does not take
      the naming for done. */
  lemma BuildRetryConvergesBut(base: Machine, order: Pass, hash: string, d: string, turns: seq<Turn>, retry: Pass,
                               fuse: nat,
                               aside: set<string>)
    requires Ready(base, order, hash, d, aside)
    requires forall t :: t in turns ==> Reruns(t.pass, order, hash, d) && !t.landed
    requires Reruns(retry, order, hash, d) && fuse >= |PublishTags(order.target.tags, d)|
    ensures var mid := AfterTurns(base, turns, |turns|);
            var whole := Landed(base.reg, NamingWrites(Proceed, order.target.tags, d), fuse);
            AgreeBut(Passed(mid, retry, fuse).0.reg, whole, aside) <==>
            !TakenForDone(mid, retry, hash, d)
  {
    hide Ready, JobName, Between, PublishTags, Passed, Reruns, TakenForDone, AfterTurns, Landed, AgreeBut;
    NothingIsBetween(base.reg, order.target.tags, d, aside);
    TurnsStayUnderway(base, order, hash, d, turns, |turns|, aside);
    TurnLeadsOn(base, AfterTurns(base, turns, |turns|), order, retry, hash, d, fuse, aside);
  }

  lemma NothingIsBetween(reg: Registry, tags: seq<string>, d: string, aside: set<string>)
    ensures Between(reg, reg, PublishTags(tags, d), d, aside)
  {
    hide PublishTags;
  }

  /** With nothing waiting that could be named, the two registries are equal. */
  lemma BuildRetryConverges(base: Machine, order: Pass, hash: string, d: string, turns: seq<Turn>, retry: Pass,
                            fuse: nat)
    requires Naming(base.reg, base.s.published.artifact, order, d) == Proceed
    requires NothingToName(base.reg, base.s.published)
    requires JobName(order.name, hash) in base.jobs && base.jobs[JobName(order.name, hash)] == Succeeded
    requires forall t :: t in turns ==> Reruns(t.pass, order, hash, d) && !t.landed
    requires Reruns(retry, order, hash, d) && fuse >= |PublishTags(order.target.tags, d)|
    ensures var mid := AfterTurns(base, turns, |turns|);
            Passed(mid, retry, fuse).0.reg == Landed(base.reg, NamingWrites(Proceed, order.target.tags, d), fuse) <==>
            !TakenForDone(mid, retry, hash, d)
  {
    hide Naming, NothingToName, JobName, PublishTags, Passed, Reruns, TakenForDone, AfterTurns, Landed, AgreeBut,
      Spared, Apart;
    NothingIsSpared(base.reg, base.s.published, d);
    NothingApart(base.reg, base.s.published, d);
    BuildRetryConvergesBut(base, order, hash, d, turns, retry, fuse, {});
    AgreeIsEqual(Passed(AfterTurns(base, turns, |turns|), retry, fuse).0.reg,
                 Landed(base.reg, NamingWrites(Proceed, order.target.tags, d), fuse));
  }

  /** Whatever waits for its own tag: the same, but for the own tags of what was waiting. */
  lemma BuildRetryConvergesAnyway(base: Machine, order: Pass, hash: string, d: string, turns: seq<Turn>, retry: Pass,
                                  fuse: nat)
    requires Naming(base.reg, base.s.published.artifact, order, d) == Proceed
    requires IsDigest(d) && Proper(base.s.published) && forall t :: t in order.target.tags ==> SpecTag(t)
    requires JobName(order.name, hash) in base.jobs && base.jobs[JobName(order.name, hash)] == Succeeded
    requires forall t :: t in turns ==> Reruns(t.pass, order, hash, d) && !t.landed
    requires Reruns(retry, order, hash, d) && fuse >= |PublishTags(order.target.tags, d)|
    ensures var mid := AfterTurns(base, turns, |turns|);
            var whole := Landed(base.reg, NamingWrites(Proceed, order.target.tags, d), fuse);
            AgreeBut(Passed(mid, retry, fuse).0.reg, whole, OtherOwnTags(base.s.published, d)) <==>
            !TakenForDone(mid, retry, hash, d)
  {
    hide Naming, Proper, JobName, PublishTags, Passed, Reruns, TakenForDone, AfterTurns, Landed, AgreeBut, Spared,
      IsDigest, SpecTag,
      OtherOwnTags, Apart;
    WaitingSpared(base.reg, base.s.published, d);
    NamesAside(base.s.published, order.target.tags, d);
    ProperApart(base.reg.manifests + {d}, base.s.published);
    BuildRetryConvergesBut(base, order, hash, d, turns, retry, fuse, OtherOwnTags(base.s.published, d));
  }

  // ---------- A rebuild taken for done ----------

  /** Status reports a build of these inputs, under its own tag alone. */
  function Rebuilding(e: string, hash: string, name: string, reg: Registry): Machine {
    var st := Status(Some(ArtifactStatus(e, e, e, [DigestTag(e)])), hash, [], None, None);
    Machine(BuildStatus(st, None, 0, None, ReadyTrue, false, false), map[JobName(name, hash) := Succeeded], reg)
  }

  lemma RebuildingIdle(e: string, hash: string, order: Pass, reg: Registry)
    ensures Backfilled(Rebuilding(e, hash, order.name, reg), order) == Rebuilding(e, hash, order.name, reg)
    ensures AfterRequests(Rebuilding(e, hash, order.name, reg), order) == reg
  {
    hide DigestTag, JobName, LearnedOf;
    var m := Rebuilding(e, hash, order.name, reg);
    var st := m.s.published;
    OwnTagRecognised("", e);
    assert HasDigestTag(st.artifact.value.tags, e) by { assert Claims(st.artifact.value.tags[0], DigestTag(e)); }
    NothingWaits(reg, st.artifact, st.history, order.replies, order.target.pull, OwnTag(order.target.pull), order.now);
  }

  /** A build whose spec tag is missing is built again, and its Job gives another digest. The pass is
      cut short after the spec's tag: that tag is there now, so the next pass takes the earlier build
      for published, although the tag names the later one, and the later one's own tag never comes. */
  lemma RebuildTakenForDone(d: string, e: string, order: Pass, hash: string)
    requires IsDigest(d) && IsDigest(e) && d != e
    requires Reruns(order, order, hash, d) && order.target.tags == ["v1"] && order.silent == {}
    ensures var base := Rebuilding(e, hash, order.name, Registry({d, e}, map[DigestTag(e) := e]));
            var mid := AfterTurns(base, [Turn(order, 1, false)], 1);
            && mid.reg == Registry({d, e}, map[DigestTag(e) := e, "v1" := d])
            && TakenForDone(mid, order, hash, d)
            && Passed(mid, order, 10).0.reg == mid.reg && DigestTag(d) !in mid.reg.tags
  {
    hide DigestTag, JobName, P.FirstConflict, P.Resolved, Backfilled, AfterRequests, IsDigest;
    var own, tags := DigestTag(e), ["v1"];
    var before, after := Registry({d, e}, map[own := e]), Registry({d, e}, map[own := e, "v1" := d]);
    var base, mid := Rebuilding(e, hash, order.name, before), Rebuilding(e, hash, order.name, after);
    OwnTagNames(d, e);
    RebuildingIdle(e, hash, order, before);
    RebuildingIdle(e, hash, order, after);
    P.ConflictExactly(before, tags, tags, Some(e), d);
    assert ByTags(tags)[0] == ByTag("v1");
    assert ByTag("v1") in MustExist(base.s.published.artifact.value, tags);
    assert !StillThere(before, base.s.published.artifact, order);
    assert Naming(before, base.s.published.artifact, order, d) == Proceed;
    PublishTagsIs(tags, d);
    var ws := TagWrites(PublishTags(tags, d), d);
    assert ws[0] == PutTag("v1", d) && |ws| == 2;
    assert ApplyTo(before, ws, 0) == before;
    assert before.manifests + {d} == before.manifests;
    assert ApplyTo(before, ws, 1) == after;
    var turns := [Turn(order, 1, false)];
    assert AfterTurns(base, turns, 0) == base;
    assert AfterTurns(base, turns, 1) == mid;
    assert DigestTag(d) in PublishTags(tags, d) && !Resolves(after, DigestTag(d), d);
    assert StillThere(after, mid.s.published.artifact, order) by {
      forall r | r in MustExist(mid.s.published.artifact.value, tags) ensures Present(after, r) {
        assert r in ByTags(tags) ==> r == ByTag("v1");
      }
    }
  }

  lemma OwnTagNames(d: string, e: string)
    requires IsDigest(d) && IsDigest(e) && d != e
    ensures DigestTag(d) != DigestTag(e) && DigestTag(d) != "v1" && DigestTag(e) != "v1" && e != ""
  {
    hide DigestTag;
    DigestTagOf(d);
    DigestTagOf(e);
    assert DigestTag(d)[0] == 'd' && DigestTag(e)[0] == 'd';
    if DigestTag(d) == DigestTag(e) {
      DigestTagInjective(d, e);
    }
  }

  // ---------- After the naming ----------

  /** The naming is complete and status reports all of it. */
  ghost predicate BuildConvergedAt(m: Machine, t: Target, hash: string, d: string) {
    && m.s.published.artifact.Some? && m.s.published.artifact.value.digest == d
    && HasDigestTag(m.s.published.artifact.value.tags, d)
    && m.s.published.inputHash == hash
    && NothingToName(m.reg, m.s.published)
    && P.InPlace(m.reg, PublishTags(t.tags, d), d)
  }

  /** A pass that names the output of its Job, with every write landing, converges. */
  lemma NamingConverges(m: Machine, order: Pass, hash: string, d: string, fuse: nat)
    requires JobName(order.name, hash) in m.jobs && m.jobs[JobName(order.name, hash)] == Succeeded
    requires order.result == Ok(d) && Naming(m.reg, m.s.published.artifact, order, d) == Proceed
    requires NothingToName(m.reg, m.s.published) && fuse >= |PublishTags(order.target.tags, d)|
    ensures var after := Observe(m, order, hash, fuse).0;
            BuildConvergedAt(after, order.target, hash, d)
  {
    hide Naming, JobName, PublishTags, HasDigestTag, Landed, ArtifactWaits;
    var tags := order.target.tags;
    var names := PublishTags(tags, d);
    var after := Observe(m, order, hash, fuse).0;
    NamingProceeds(m.reg, m.s.published.artifact, order, d);
    TagsLanded(m.reg, names, d, fuse);
    BetweenServes(m.reg, after.reg, names, d, {});
    QualifiedClaimed(order.target.pull, tags, d);
    OthersAre(m.s.published.history, d, |m.s.published.history|);
    ClaimsNothingMore(after.s.published.artifact.value);
  }

  lemma ClaimsNothingMore(a: ArtifactStatus)
    requires HasDigestTag(a.tags, a.digest)
    ensures !ArtifactWaits(Some(a))
  {
  }

  lemma QualifiedRecognised(pull: string, history: seq<BuildRecord>)
    ensures forall rec :: rec in history ==> Recognised(OwnTag(pull), rec.digest)
  {
    forall rec | rec in history ensures Recognised(OwnTag(pull), rec.digest) {
      OwnTagRecognised(pull, rec.digest);
    }
  }

  /** What a converged build's references are: all of them there. */
  lemma InPlaceIsThere(m: Machine, next: Pass, hash: string, d: string)
    requires BuildConvergedAt(m, next.target, hash, d)
    ensures StillThere(m.reg, m.s.published.artifact, next)
  {
    hide NothingToName, HasDigestTag, DigestTag, PublishTags;
    var t := next.target;
    PublishTagsIs(t.tags, d);
    forall r | r in MustExist(m.s.published.artifact.value, t.tags) ensures Present(m.reg, r) {
      if r.ByTag? {
        assert Resolves(m.reg, r.tag, d);
      }
    }
  }

  /** A pass over a converged build whose inputs have not changed, whatever it fails at and whether
      or not it is suspended, writes nothing, starts nothing, and leaves the build converged. */
  lemma ConvergedBuildWritesNothing(m: Machine, next: Pass, hash: string, d: string, fuse: nat)
    requires BuildConvergedAt(m, next.target, hash, d) && (next.inputs.Ok? ==> next.inputs.value == hash)
    ensures var after := Passed(m, next, fuse).0;
            && after.reg == m.reg && after.jobs == m.jobs && after.s.published.artifact == m.s.published.artifact
            && BuildConvergedAt(after, next.target, hash, d)
  {
    hide LearnedOf, Marked, HasDigestTag, DigestTag, PublishTags, P.InPlace, StillThere, Observe, PreFlight, Start,
      JobName, NeedsDigestTag,
      OwnTag;
    var b := Backfilled(m, next);
    PublishTagsIs(next.target.tags, d);
    if next.configured && next.access.None? {
      var st := m.s.published;
      IdleAsking(m.reg, st, next.replies, PublishTags(next.target.tags, d), d);
      QualifiedRecognised(next.target.pull, st.history);
      MarkingShrinks(st.artifact, st.history, LearnedOf(m.reg, st.artifact, st.history, next.replies).known,
                     next.target.pull, OwnTag(next.target.pull), next.now);
    }
    assert BuildConvergedAt(b, next.target, hash, d);
    InPlaceIsThere(b, next, hash, d);
  }

  /** Once a naming's status is written, any number of later passes over the same inputs, with their
      status writes landing or not, change neither the registry nor the Jobs nor the artifact. */
  lemma {:induction false} BuildQuietForever(m: Machine, t: Target, hash: string, d: string, later: seq<Turn>, n: nat)
    requires n <= |later| && BuildConvergedAt(m, t, hash, d)
    requires forall l :: l in later ==> l.pass.target == t && (l.pass.inputs.Ok? ==> l.pass.inputs.value == hash)
    ensures var after := AfterTurns(m, later, n);
            && after.reg == m.reg && after.jobs == m.jobs && after.s.published.artifact == m.s.published.artifact
            && BuildConvergedAt(after, t, hash, d)
  {
    hide Passed, NothingToName, HasDigestTag, PublishTags, P.InPlace;
    if n > 0 {
      BuildQuietForever(m, t, hash, d, later, n - 1);
      var l := later[n - 1];
      assert l in later;
      ConvergedBuildWritesNothing(AfterTurns(m, later, n - 1), l.pass, hash, d, l.fuse);
    }
  }
}
