/** The refresh cycles of the retention lease, and what the lease guarantees
    (internal/retention/refresher.go). Times are integers of one unit. */
module Refresh {
  import opened Strings
  import opened Tags
  import opened Retention

  /** How the registry takes the pull of one reference. */
  datatype Pull = Pulled | Gone | NoAnswer | Malformed

  /** One live object: its key, the repository it writes to (empty when there is none), whether
      its credentials resolve, and what status says it published. */
  datatype Target = Target(key: string, repo: string, credentials: bool,
                           artifact: Option<ArtifactStatus>, history: seq<BuildRecord>)

  /** What a cycle sees: nothing, when a lister or the source of objects fails; a part, while some object
      is not yet reconciled; or every live object. */
  datatype View = Unlisted | Partial | Whole(targets: seq<Target>)

  datatype CycleResult = CycleFailed | CycleSkipped | Refreshed(totals: Totals)

  datatype Totals = Totals(objects: nat, references: nat, refreshed: nat, failed: nat, notFound: nat, unsupported: nat)

  const NO_TOTALS := Totals(0, 0, 0, 0, 0, 0)

  /** Consecutive failures from which an object's warning is raised. */
  const DEGRADED_AFTER: nat := 3

  function RefsFor(t: Target): seq<string> {
    if t.repo == "" then [] else Refs(t.repo, t.artifact, t.history)
  }

  /** The references of the current artifact alone. */
  function Current(t: Target): seq<string> {
    Refs(t.repo, t.artifact, [])
  }

  /** How many of the first n references were answered so. */
  function Tally(refs: seq<string>, answers: string -> Pull, a: Pull, n: nat): nat
    requires n <= |refs|
  {
    if n == 0 then 0 else Tally(refs, answers, a, n - 1) + if answers(refs[n - 1]) == a then 1 else 0
  }

  /** A reference whose answer counts against the object: an expired history entry does not. */
  predicate Bad(t: Target, ref: string, a: Pull) {
    a == NoAnswer || a == Malformed || (a == Gone && ref in Current(t))
  }

  predicate AnyBad(t: Target, answers: string -> Pull) {
    !t.credentials || exists i :: 0 <= i < |RefsFor(t)| && Bad(t, RefsFor(t)[i], answers(RefsFor(t)[i]))
  }

  function TotalsAfter(before: Totals, t: Target, answers: string -> Pull): Totals {
    var refs := RefsFor(t);
    if t.repo == "" then before.(unsupported := before.unsupported + 1)
    else if refs == [] then before
    else if !t.credentials then
      before.(objects := before.objects + 1, references := before.references + |refs|, failed := before.failed + |refs|)
    else
      Totals(before.objects + 1, before.references + |refs|,
             before.refreshed + Tally(refs, answers, Pulled, |refs|),
             before.failed + Tally(refs, answers, NoAnswer, |refs|),
             before.notFound + Tally(refs, answers, Gone, |refs|), before.unsupported)
  }

  /** Consecutive failing refreshes per object. */
  function FailuresAfter(before: map<string, nat>, t: Target, answers: string -> Pull): map<string, nat> {
    if RefsFor(t) == [] then before
    else if AnyBad(t, answers) then before[t.key := 1 + if t.key in before then before[t.key] else 0]
    else before - {t.key}
  }

  /** When each reference was last pushed or pulled, after pulling the first n. */
  function Touched(before: map<string, int>, refs: seq<string>, answers: string -> Pull, now: int,
                   n: nat): map<string, int>
    requires n <= |refs|
  {
    if n == 0 then before
    else
      var b := Touched(before, refs, answers, now, n - 1);
      if answers(refs[n - 1]) == Pulled then b[refs[n - 1] := now] else b
  }

  function TouchedBy(before: map<string, int>, t: Target, answers: string -> Pull, now: int): map<string, int> {
    if t.credentials then Touched(before, RefsFor(t), answers, now, |RefsFor(t)|) else before
  }

  /** The registry's record of what was pushed or pulled when. */
  class Recency {
    var touched: map<string, int>

    constructor (touched: map<string, int>)
      ensures this.touched == touched
    {
      this.touched := touched;
    }
  }

  class Refresher {
    var failures: map<string, nat>
    var skips: nat

    constructor ()
      ensures failures == map[] && skips == 0
    {
      failures, skips := map[], 0;
    }

    /** One more failure in a row for the object; the third and later ones are loud. */
    method NoteFailure(key: string) returns (loud: bool)
      modifies this`failures
      ensures failures == old(failures)[key := 1 + if key in old(failures) then old(failures)[key] else 0]
      ensures loud == (failures[key] >= 3)
    {
      var n := 1;
      if key in failures {
        n := failures[key] + 1;
      }
      failures := failures[key := n];
      loud := n >= DEGRADED_AFTER;
    }

    method ClearFailure(key: string)
      modifies this`failures
      ensures failures == old(failures) - {key}
    {
      failures := failures - {key};
    }

    /** Pulls every reference one object still names. */
    method RefreshObject(registry: Recency, t: Target, answers: string -> Pull, now: int, before: Totals)
      returns (out: Totals, loud: bool)
      modifies this`failures, registry
      ensures out == TotalsAfter(before, t, answers)
      ensures failures == FailuresAfter(old(failures), t, answers)
      ensures loud == (RefsFor(t) != [] && Failing(t, answers) && FailureCount(failures, t.key) >= 3)
      ensures registry.touched == TouchedBy(old(registry.touched), t, answers, now)
    {
      hide Refs, Failing;
      if RefsFor(t) != [] {
        BadExactly(t, answers);
      }
      out, loud := before, false;
      if t.repo == "" {
        out := out.(unsupported := out.unsupported + 1);
        return;
      }
      var refs := RefsOf(t.repo, t.artifact, t.history);
      if refs == [] {
        return;
      }
      out := out.(objects := out.objects + 1, references := out.references + |refs|);
      if !t.credentials {
        out := out.(failed := out.failed + |refs|);
        loud := NoteFailure(t.key);
        return;
      }
      var current := RefsOf(t.repo, t.artifact, []);
      var refreshed, failed, notFound, bad := 0, 0, 0, 0;
      for n := 0 to |refs|
        invariant refreshed == Tally(refs, answers, Pulled, n)
        invariant failed == Tally(refs, answers, NoAnswer, n)
        invariant notFound == Tally(refs, answers, Gone, n)
        invariant bad == 0 <==> forall i :: 0 <= i < n ==> !Bad(t, refs[i], answers(refs[i]))
        invariant bad >= 0 && failures == old(failures)
        invariant registry.touched == Touched(old(registry.touched), refs, answers, now, n)
      {
        var ref := refs[n];
        match answers(ref) {
          case Malformed =>
            bad := bad + 1;
          case Pulled =>
            registry.touched := registry.touched[ref := now];
            refreshed := refreshed + 1;
          case Gone =>
            notFound := notFound + 1;
            if ref in current {
              bad := bad + 1;
            }
          case NoAnswer =>
            failed := failed + 1;
            bad := bad + 1;
        }
      }
      out := out.(refreshed := out.refreshed + refreshed, failed := out.failed + failed,
                 notFound := out.notFound + notFound);
      if bad > 0 {
        loud := NoteFailure(t.key);
      } else {
        ClearFailure(t.key);
      }
    }

    /** One cycle: pulling nothing when the objects cannot be listed, and on a partial view, which would
        miss some. Skips count up only over partial views. */
    method RefreshOnce(registry: Recency, view: View, answers: string -> Pull, now: int) returns (out: CycleResult)
      modifies this, registry
      ensures out == match view
                     case Unlisted => CycleFailed
                     case Partial => CycleSkipped
                     case Whole(targets) => Refreshed(AllTotals(targets, answers, |targets|))
      ensures failures == if view.Whole? then AllFailures(old(failures), view.targets, answers, |view.targets|)
                          else old(failures)
      ensures registry.touched == Cycled(old(registry.touched), view, answers, now)
      ensures skips == if view.Partial? then old(skips) + 1 else 0
    {
      hide TotalsAfter, FailuresAfter, TouchedBy, AnyBad, RefsFor;
      match view {
        case Unlisted =>
          skips := 0;
          return CycleFailed;
        case Partial =>
          skips := skips + 1;
          return CycleSkipped;
        case Whole(targets) =>
          var totals := NO_TOTALS;
          for n := 0 to |targets|
            invariant totals == AllTotals(targets, answers, n)
            invariant failures == AllFailures(old(failures), targets, answers, n)
            invariant registry.touched == AllTouched(old(registry.touched), targets, answers, now, n)
          {
            var loud;
            totals, loud := RefreshObject(registry, targets[n], answers, now, totals);
          }
          skips := 0;
          out := Refreshed(totals);
      }
    }
  }

  function AllTotals(targets: seq<Target>, answers: string -> Pull, n: nat): Totals
    requires n <= |targets|
  {
    if n == 0 then NO_TOTALS else TotalsAfter(AllTotals(targets, answers, n - 1), targets[n - 1], answers)
  }

  function AllFailures(before: map<string, nat>, targets: seq<Target>, answers: string -> Pull,
                       n: nat): map<string, nat>
    requires n <= |targets|
  {
    if n == 0 then before else FailuresAfter(AllFailures(before, targets, answers, n - 1), targets[n - 1], answers)
  }

  function AllTouched(before: map<string, int>, targets: seq<Target>, answers: string -> Pull, now: int,
                      n: nat): map<string, int>
    requires n <= |targets|
  {
    if n == 0 then before else TouchedBy(AllTouched(before, targets, answers, now, n - 1), targets[n - 1], answers, now)
  }

  function Cycled(before: map<string, int>, view: View, answers: string -> Pull, now: int): map<string, int> {
    match view
    case Whole(targets) => AllTouched(before, targets, answers, now, |targets|)
    case _ => before
  }

  // ---------- What counts as a failure ----------

  /** The digest or a tag of the artifact itself is answered Gone in the repository written to. */
  predicate ArtifactGone(repo: string, a: ArtifactStatus, answers: string -> Pull) {
    || (a.digest != "" && answers(repo + "@" + a.digest) == Gone)
    || exists i :: 0 <= i < |a.tags| && BareTag(a.tags[i]) != "" && answers(repo + ":" + BareTag(a.tags[i])) == Gone
  }

  /** The visit fails: without credentials; when a reference gets no answer, or cannot be asked for; or
      when the current artifact is gone. A record that is gone is no failure. */
  predicate Failing(t: Target, answers: string -> Pull) {
    || !t.credentials
    || (exists ref :: ref in RefsFor(t) && (answers(ref) == NoAnswer || answers(ref) == Malformed))
    || (t.repo != "" && t.artifact.Some? && ArtifactGone(t.repo, t.artifact.value, answers))
  }

  lemma CurrentMeans(t: Target, ref: string)
    ensures ref in Current(t) <==>
            t.artifact.Some? && RefersTo(t.repo, t.artifact.value.digest, t.artifact.value.tags, ref)
    ensures t.repo != "" && ref in Current(t) ==> ref in RefsFor(t)
  {
    hide RefersTo, Refs;
    RefsMean(t.repo, t.artifact, [], ref);
    RefsMean(t.repo, t.artifact, t.history, ref);
  }

  lemma BadExactly(t: Target, answers: string -> Pull)
    requires RefsFor(t) != []
    ensures AnyBad(t, answers) <==> Failing(t, answers)
  {
    hide Refs, BareTag, Current;
    var refs := RefsFor(t);
    forall ref | ref in Current(t) ensures ref in refs {
      CurrentMeans(t, ref);
    }
    if t.artifact.Some? && ArtifactGone(t.repo, t.artifact.value, answers) {
      GoneRef(t, answers);
      var ref :| ref in Current(t) && answers(ref) == Gone;
      var i :| 0 <= i < |refs| && refs[i] == ref;
      assert Bad(t, refs[i], answers(refs[i]));
    }
    if ref :| ref in refs && (answers(ref) == NoAnswer || answers(ref) == Malformed) {
      var i :| 0 <= i < |refs| && refs[i] == ref;
      assert Bad(t, refs[i], answers(refs[i]));
    }
    if i :| 0 <= i < |refs| && Bad(t, refs[i], answers(refs[i])) {
      CurrentMeans(t, refs[i]);
      assert refs[i] in refs;
    }
  }

  lemma GoneRef(t: Target, answers: string -> Pull)
    requires t.artifact.Some? && ArtifactGone(t.repo, t.artifact.value, answers)
    ensures exists ref :: ref in Current(t) && answers(ref) == Gone
  {
    hide Current, BareTag;
    var a := t.artifact.value;
    if a.digest != "" && answers(t.repo + "@" + a.digest) == Gone {
      CurrentMeans(t, t.repo + "@" + a.digest);
    } else {
      var i :| 0 <= i < |a.tags| && BareTag(a.tags[i]) != "" && answers(t.repo + ":" + BareTag(a.tags[i])) == Gone;
      CurrentMeans(t, t.repo + ":" + BareTag(a.tags[i]));
    }
  }

  /** One visit to an object with references: its count goes up by one exactly when the visit fails, and is
      cleared otherwise, also when every record's references are gone; no other object's count changes. */
  lemma CountedExactly(before: map<string, nat>, t: Target, answers: string -> Pull, other: string)
    requires RefsFor(t) != []
    ensures var after := FailuresAfter(before, t, answers);
            && FailureCount(after, t.key) == (if Failing(t, answers) then FailureCount(before, t.key) + 1 else 0)
            && (t.key in after <==> Failing(t, answers))
            && (other != t.key ==> FailureCount(after, other) == FailureCount(before, other))
  {
    hide AnyBad, Failing, RefsFor;
    BadExactly(t, answers);
  }

  // ---------- What the counters mean ----------

  /** Every reference counted is answered one way, so the totals add up. */
  lemma {:induction false} TallyAddsUp(refs: seq<string>, answers: string -> Pull, n: nat)
    requires n <= |refs|
    ensures Tally(refs, answers, Pulled, n) + Tally(refs, answers, Gone, n) + Tally(refs, answers, NoAnswer, n)
          + Tally(refs, answers, Malformed, n) == n
  {
    if n > 0 {
      TallyAddsUp(refs, answers, n - 1);
    }
  }

  /** With well-formed references, everything mentioned was refreshed, found gone, or failed. */
  lemma {:induction false} TotalsAddUp(targets: seq<Target>, answers: string -> Pull, n: nat)
    requires n <= |targets| && forall r :: answers(r) != Malformed
    ensures var all := AllTotals(targets, answers, n);
            all.refreshed + all.notFound + all.failed == all.references
  {
    if n > 0 {
      TotalsAddUp(targets, answers, n - 1);
      var refs := RefsFor(targets[n - 1]);
      TallyAddsUp(refs, answers, |refs|);
      NoneMalformed(refs, answers, |refs|);
    }
  }

  lemma {:induction false} NoneMalformed(refs: seq<string>, answers: string -> Pull, n: nat)
    requires n <= |refs| && forall r :: answers(r) != Malformed
    ensures Tally(refs, answers, Malformed, n) == 0
  {
    if n > 0 {
      NoneMalformed(refs, answers, n - 1);
    }
  }

  /** Those of the first n references answered so. */
  function AnsweredSo(refs: seq<string>, answers: string -> Pull, a: Pull, n: nat): set<string>
    requires n <= |refs|
  {
    set i | 0 <= i < n && answers(refs[i]) == a :: refs[i]
  }

  lemma AnsweredNext(refs: seq<string>, answers: string -> Pull, a: Pull, n: nat)
    requires n < |refs| && NoDuplicates(refs)
    ensures refs[n] !in AnsweredSo(refs, answers, a, n)
    ensures AnsweredSo(refs, answers, a, n + 1) ==
            AnsweredSo(refs, answers, a, n) + if answers(refs[n]) == a then {refs[n]} else {}
  {
  }

  /** A count over a list without repeats is the size of the set answered so. */
  lemma {:induction false} TallyIs(refs: seq<string>, answers: string -> Pull, a: Pull, n: nat)
    requires n <= |refs| && NoDuplicates(refs)
    ensures Tally(refs, answers, a, n) == |AnsweredSo(refs, answers, a, n)|
  {
    hide AnsweredSo, NoDuplicates;
    if n == 0 {
      NothingAnswered(refs, answers, a);
    } else {
      TallyIs(refs, answers, a, n - 1);
      AnsweredNext(refs, answers, a, n - 1);
    }
  }

  lemma NothingAnswered(refs: seq<string>, answers: string -> Pull, a: Pull)
    ensures AnsweredSo(refs, answers, a, 0) == {}
  {
  }

  lemma TallyOfRefs(t: Target, answers: string -> Pull, a: Pull)
    ensures Tally(RefsFor(t), answers, a, |RefsFor(t)|) == |set ref | ref in RefsFor(t) && answers(ref) == a|
  {
    hide Tally;
    var refs := RefsFor(t);
    if t.repo != "" {
      var all := Mentioned(t.repo, t.artifact, t.history, |t.history|);
      DistinctIs(all, |all|);
    }
    TallyIs(refs, answers, a, |refs|);
    assert AnsweredSo(refs, answers, a, |refs|) == set ref | ref in refs && answers(ref) == a;
  }

  /** What one object adds to the totals: itself and its references when it has any, and to each answer
      the references answered so; without credentials they all failed, and an object with nowhere to
      publish is counted apart. */
  lemma TotalsExactly(before: Totals, t: Target, answers: string -> Pull)
    ensures var after, refs := TotalsAfter(before, t, answers), RefsFor(t);
            && after.unsupported == before.unsupported + (if t.repo == "" then 1 else 0)
            && after.objects == before.objects + (if refs != [] then 1 else 0)
            && after.references == before.references + |refs|
            && after.refreshed == before.refreshed
                 + (if t.credentials then |set ref | ref in refs && answers(ref) == Pulled| else 0)
            && after.notFound == before.notFound
                 + (if t.credentials then |set ref | ref in refs && answers(ref) == Gone| else 0)
            && after.failed == before.failed
                 + (if t.credentials then |set ref | ref in refs && answers(ref) == NoAnswer| else |refs|)
  {
    hide Refs;
    TallyOfRefs(t, answers, Pulled);
    TallyOfRefs(t, answers, Gone);
    TallyOfRefs(t, answers, NoAnswer);
  }

  lemma {:induction false} TouchedExactly(before: map<string, int>, refs: seq<string>, answers: string -> Pull,
                                          now: int, n: nat, ref: string)
    requires n <= |refs|
    ensures var after := Touched(before, refs, answers, now, n);
            if ref in refs[..n] && answers(ref) == Pulled then ref in after && after[ref] == now
            else (ref in after <==> ref in before) && (ref in before ==> after[ref] == before[ref])
  {
    if n > 0 {
      TouchedExactly(before, refs, answers, now, n - 1, ref);
      assert refs[..n] == refs[..n - 1] + [refs[n - 1]];
    }
  }

  /** The registry's record of pulls moves for exactly the references that were pulled. */
  lemma RenewedExactly(before: map<string, int>, t: Target, answers: string -> Pull, now: int, ref: string)
    ensures var after := TouchedBy(before, t, answers, now);
            if t.credentials && ref in RefsFor(t) && answers(ref) == Pulled then ref in after && after[ref] == now
            else (ref in after <==> ref in before) && (ref in before ==> after[ref] == before[ref])
  {
    hide Touched, Refs;
    TouchedExactly(before, RefsFor(t), answers, now, |RefsFor(t)|, ref);
    assert RefsFor(t)[..|RefsFor(t)|] == RefsFor(t);
  }

  /** Repeated refreshes of one object that has references. */
  datatype Visit = Visit(target: Target, answers: string -> Pull)

  function FailuresOver(visits: seq<Visit>, n: nat): map<string, nat>
    requires n <= |visits|
  {
    if n == 0 then map[] else FailuresAfter(FailuresOver(visits, n - 1), visits[n - 1].target, visits[n - 1].answers)
  }

  function FailureCount(failures: map<string, nat>, key: string): nat {
    if key in failures then failures[key] else 0
  }

  /** The count is how many of the last refreshes in a row failed: that many did, and the one before
      them, if there is one, did not. */
  lemma {:induction false} FailuresAreConsecutive(visits: seq<Visit>, key: string, n: nat)
    requires n <= |visits|
    requires forall v :: v in visits ==> v.target.key == key && RefsFor(v.target) != []
    ensures var f := FailureCount(FailuresOver(visits, n), key);
            && f <= n
            && (forall i :: n - f <= i < n ==> Failing(visits[i].target, visits[i].answers))
            && (f < n ==> !Failing(visits[n - f - 1].target, visits[n - f - 1].answers))
  {
    hide Failing, RefsFor, FailuresAfter;
    if n > 0 {
      FailuresAreConsecutive(visits, key, n - 1);
      var v := visits[n - 1];
      assert v in visits;
      CountedExactly(FailuresOver(visits, n - 1), v.target, v.answers, key);
    }
  }

  // ---------- A whole cycle ----------

  /** The cycle leaves an object's count alone until it comes to the object. */
  lemma {:induction false} CountWaits(before: map<string, nat>, targets: seq<Target>, answers: string -> Pull,
                                      m: nat, n: nat, key: string)
    requires m <= n <= |targets| && forall i :: m <= i < n ==> targets[i].key != key
    ensures FailureCount(AllFailures(before, targets, answers, n), key) ==
            FailureCount(AllFailures(before, targets, answers, m), key)
  {
    hide RefsFor, AnyBad;
    if m < n {
      CountWaits(before, targets, answers, m, n - 1, key);
    }
  }

  /** A cycle over live objects, no two with one key, visits every one: after it each object with references
      has its count up by one exactly when it fails, and cleared otherwise; an object without references
      keeps its count. */
  lemma CycleCounts(before: map<string, nat>, targets: seq<Target>, answers: string -> Pull, i: nat)
    requires i < |targets| && forall j, k :: 0 <= j < k < |targets| ==> targets[j].key != targets[k].key
    ensures var t := targets[i];
            FailureCount(AllFailures(before, targets, answers, |targets|), t.key) ==
              if RefsFor(t) == [] then FailureCount(before, t.key)
              else if Failing(t, answers) then FailureCount(before, t.key) + 1 else 0
  {
    hide RefsFor, Failing, AnyBad;
    var t := targets[i];
    CountWaits(before, targets, answers, 0, i, t.key);
    if RefsFor(t) != [] {
      CountedExactly(AllFailures(before, targets, answers, i), t, answers, t.key);
    }
    CountWaits(before, targets, answers, i + 1, |targets|, t.key);
  }

  /** One of the first n objects has credentials and names the reference, whose pull works. */
  predicate PulledFrom(targets: seq<Target>, answers: string -> Pull, n: nat, ref: string)
    requires n <= |targets|
  {
    exists i :: 0 <= i < n && targets[i].credentials && ref in RefsFor(targets[i]) && answers(ref) == Pulled
  }

  /** A cycle renews exactly the references pulled for some object. */
  lemma {:induction false} CycleRenews(before: map<string, int>, targets: seq<Target>, answers: string -> Pull,
                                       now: int, n: nat, ref: string)
    requires n <= |targets|
    ensures var after := AllTouched(before, targets, answers, now, n);
            if PulledFrom(targets, answers, n, ref) then ref in after && after[ref] == now
            else (ref in after <==> ref in before) && (ref in before ==> after[ref] == before[ref])
  {
    hide RefsFor, TouchedBy;
    if n > 0 {
      CycleRenews(before, targets, answers, now, n - 1, ref);
      RenewedExactly(AllTouched(before, targets, answers, now, n - 1), targets[n - 1], answers, now, ref);
    }
  }
}
