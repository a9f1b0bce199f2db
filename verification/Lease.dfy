/** The retention lease: a registry that reclaims only what was neither pushed nor pulled within its
    window never reclaims what a live object names, if cycles come often enough, except what the
    object came to name without pushing or pulling it; and exactly when that is. */
module Lease {
  import opened Strings
  import opened Refresh
  import opened Pushes
  import Retention
  import Written
  import C = Composer
  import B = Builder

  /** How far apart cycles may be, how many in a row may miss a reference, the registry's window. */
  datatype Terms = Terms(interval: nat, misses: nat, window: nat)

  /** Live objects by key, when each reference the registry holds was last pushed or pulled, the
      last cycle, the time, how many cycles in a row have missed each reference since, and the
      references that came to be named without being pushed or pulled, and have not been since. */
  datatype Lease = Lease(objects: map<string, Target>, touched: map<string, int>, last: int, clock: int,
                         missed: map<string, nat>, adopted: set<string>)

  /** A cycle; a pass of one composition or of one build over the repository it meets; an object
      created, or given another repository or other credentials; an object gone; a push by anyone
      else; a reclaim. */
  datatype Event =
    | Cycle(view: View, answers: string -> Pull, at: int)
    | Compose(key: string, w: C.World, pass: C.Pass, fuse: nat, at: int)
    | RunBuild(key: string, m: B.Machine, order: B.Pass, fuse: nat, landed: bool, at: int)
    | Respec(key: string, repo: string, credentials: bool, at: int)
    | Delete(key: string, at: int)
    | Push(pushed: set<string>, at: int)
    | Reclaim(ref: string, at: int)

  function Missed(l: Lease, ref: string): nat {
    if ref in l.missed then l.missed[ref] else 0
  }

  function CycledTo(l: Lease, e: Event): map<string, int>
    requires e.Cycle?
  {
    Cycled(l.touched, e.view, e.answers, e.at)
  }

  /** Whether this cycle pulled the reference. */
  predicate PulledIn(e: Event, ref: string)
    requires e.Cycle?
  {
    && e.view.Whole?
    && exists i :: 0 <= i < |e.view.targets| && e.view.targets[i].credentials
         && ref in RefsFor(e.view.targets[i]) && e.answers(ref) == Pulled
  }

  /** A live object names the reference. */
  predicate Named(l: Lease, ref: string) {
    exists key :: key in l.objects && ref in RefsFor(l.objects[key])
  }

  /** What an object would be the first to name, with nothing pushed or pulled for it. */
  function Gained(l: Lease, t: Target, pushed: set<string>): set<string> {
    set ref | ref in RefsFor(t) && ref !in pushed && !Named(l, ref)
  }

  function Pushing(l: Lease, pushed: set<string>, at: int): Lease {
    Lease(l.objects, map ref | ref in l.touched.Keys + pushed :: if ref in pushed then at else l.touched[ref],
          l.last, at, map ref | ref in l.missed.Keys + pushed :: if ref in pushed then 0 else l.missed[ref],
          l.adopted - pushed)
  }

  /** The object's new status, with what was pushed or pulled on the way to it. */
  function Storing(l: Lease, t: Target, pushed: set<string>, at: int): Lease {
    var p := Pushing(l, pushed, at);
    p.(objects := l.objects[t.key := t], adopted := p.adopted + Gained(l, t, pushed))
  }

  /** The object an event leaves, and what the event pushed or pulled. */
  function Composed(t: Target, e: Event): Target
    requires e.Compose?
  {
    var st := C.Reconciled(e.w, e.pass, e.fuse).status;
    t.(artifact := st.artifact, history := st.history)
  }

  function Built(t: Target, e: Event): Target
    requires e.RunBuild?
  {
    var st := B.Passed(e.m, e.order, e.fuse).0.s.published;
    if e.landed then t.(artifact := st.artifact, history := st.history) else t
  }

  function Respecced(l: Lease, e: Event): Target
    requires e.Respec?
  {
    if e.key in l.objects then l.objects[e.key].(repo := e.repo, credentials := e.credentials)
    else Target(e.key, e.repo, e.credentials, None, [])
  }

  function Next(l: Lease, e: Event): Lease {
    match e
    case Cycle(_, _, at) =>
      var touched := CycledTo(l, e);
      Lease(l.objects, touched, at, at,
            map ref | ref in touched :: if PulledIn(e, ref) then 0 else Missed(l, ref) + 1,
            set ref | ref in l.adopted && !PulledIn(e, ref))
    case Compose(key, w, pass, fuse, at) =>
      if key !in l.objects then l.(clock := at)
      else Storing(l, Composed(l.objects[key], e), ComposePushes(l.objects[key].repo, w, pass, fuse), at)
    case RunBuild(key, m, order, fuse, _, at) =>
      if key !in l.objects then l.(clock := at)
      else Storing(l, Built(l.objects[key], e), BuildPushes(l.objects[key].repo, m, order, fuse), at)
    case Respec(_, _, _, at) => Storing(l, Respecced(l, e), {}, at)
    case Delete(key, at) => l.(objects := l.objects - {key}, clock := at)
    case Push(pushed, at) => Pushing(l, pushed, at)
    case Reclaim(ref, at) => l.(touched := l.touched - {ref}, clock := at)
  }

  /** What an event makes an object the first to name, unpushed and unpulled. */
  function Adopted(l: Lease, e: Event): set<string> {
    match e
    case Compose(key, w, pass, fuse, _) =>
      if key !in l.objects then {}
      else Gained(l, Composed(l.objects[key], e), ComposePushes(l.objects[key].repo, w, pass, fuse))
    case RunBuild(key, m, order, fuse, _, _) =>
      if key !in l.objects then {}
      else Gained(l, Built(l.objects[key], e), BuildPushes(l.objects[key].repo, m, order, fuse))
    case Respec(_, _, _, _) => Gained(l, Respecced(l, e), {})
    case _ => {}
  }

  ghost predicate Complete(l: Lease, targets: seq<Target>) {
    && (forall key :: key in l.objects ==> l.objects[key] in targets)
    && forall t :: t in targets ==> t.key in l.objects && l.objects[t.key] == t
  }

  /** What the environment owes at each event: time moves on and no cycle is overdue; a cycle sees
      every live object, and the registry answers a pull only for what it holds; a pass starts from
      the status its object has, in the repository it publishes to, over digests, spec tags and
      public names of their forms; no reference a live object names, and did not merely adopt, is
      missed too often in a row; the registry keeps its window. */
  ghost predicate Allowed(terms: Terms, l: Lease, e: Event) {
    && e.at >= l.clock && e.at <= l.last + terms.interval
    && match e
       case Cycle(view, answers, _) =>
         (&& (view.Whole? ==> Complete(l, view.targets))
          && (forall ref :: answers(ref) == Pulled ==> ref in l.touched)
          && forall ref :: Named(l, ref) && ref !in l.adopted && !PulledIn(e, ref) ==>
               Missed(l, ref) + 1 <= terms.misses)
       case Compose(key, w, pass, _, _) =>
         (&& key in l.objects && l.objects[key].repo != ""
          && w.status.artifact == l.objects[key].artifact && w.status.history == l.objects[key].history
          && Written.ReadableCompose(w.reg, pass))
       case RunBuild(key, m, order, _, _, _) =>
         (&& key in l.objects && l.objects[key].repo != ""
          && m.s.published.artifact == l.objects[key].artifact && m.s.published.history == l.objects[key].history
          && Written.ReadableBuild(order))
       case Reclaim(ref, at) => ref in l.touched ==> at - l.touched[ref] > terms.window
       case _ => true
  }

  function After(l: Lease, run: seq<Event>, n: nat): Lease
    requires n <= |run|
  {
    if n == 0 then l else Next(After(l, run, n - 1), run[n - 1])
  }

  ghost predicate AllAllowed(terms: Terms, l: Lease, run: seq<Event>) {
    forall n :: 0 <= n < |run| ==> Allowed(terms, After(l, run, n), run[n])
  }

  // ---------- The invariant ----------

  /** The registry holds it, missed no more often than allowed, and touched no longer ago than the
      cycles that missed it explain. */
  predicate Leased(terms: Terms, l: Lease, ref: string) {
    && ref in l.touched
    && Missed(l, ref) <= terms.misses
    && l.touched[ref] >= l.last - Missed(l, ref) * terms.interval
  }

  ghost predicate Readable(l: Lease) {
    forall key :: key in l.objects ==>
      l.objects[key].key == key && Written.ReadsAll(l.objects[key].artifact, l.objects[key].history)
  }

  ghost predicate Safe(terms: Terms, l: Lease) {
    && l.last <= l.clock && Readable(l)
    && forall ref :: Named(l, ref) && ref !in l.adopted ==> Leased(terms, l, ref)
  }

  /** One more missed cycle allows one more interval. */
  lemma Multiples(m: nat, k: nat, interval: nat)
    ensures (m + 1) * interval == m * interval + interval
    ensures m <= k ==> m * interval <= k * interval
  {
  }

  lemma CycleSafe(terms: Terms, l: Lease, e: Event)
    requires Safe(terms, l) && e.Cycle? && Allowed(terms, l, e)
    ensures Safe(terms, Next(l, e))
  {
    hide RefsFor, Cycled, Complete, Readable;
    var after := Next(l, e);
    assert Readable(after) by { SameObjectsReadable(l, after); }
    forall ref | Named(after, ref) && ref !in after.adopted ensures Leased(terms, after, ref) {
      assert Named(l, ref);
      CycleTouches(l, e, ref);
      if !PulledIn(e, ref) {
        assert Leased(terms, l, ref);
        Multiples(Missed(l, ref), terms.misses, terms.interval);
      }
    }
  }

  lemma SameObjectsReadable(l: Lease, after: Lease)
    requires Readable(l) && after.objects == l.objects
    ensures Readable(after)
  {
    hide Written.ReadsAll;
  }

  lemma CycleTouches(l: Lease, e: Event, ref: string)
    requires e.Cycle?
    ensures var after := CycledTo(l, e);
            if PulledIn(e, ref) then ref in after && after[ref] == e.at
            else (ref in after <==> ref in l.touched) && (ref in l.touched ==> after[ref] == l.touched[ref])
  {
    hide RefsFor, AllTouched;
    if e.view.Whole? {
      CycleRenews(l.touched, e.view.targets, e.answers, e.at, |e.view.targets|, ref);
    }
  }

  /** A new status keeps the lease, whatever it names: what it names first is pushed or adopted. */
  lemma StoringSafe(terms: Terms, l: Lease, t: Target, pushed: set<string>, at: int)
    requires Safe(terms, l) && at >= l.clock && Written.ReadsAll(t.artifact, t.history)
    ensures Safe(terms, Storing(l, t, pushed, at))
  {
    hide RefsFor, Written.ReadsAll;
    var after := Storing(l, t, pushed, at);
    forall ref | Named(after, ref) && ref !in after.adopted ensures Leased(terms, after, ref) {
      if ref !in pushed {
        assert ref !in Gained(l, t, pushed);
        assert Named(l, ref);
        assert Leased(terms, l, ref);
      }
    }
  }

  lemma PushingSafe(terms: Terms, l: Lease, pushed: set<string>, at: int)
    requires Safe(terms, l) && at >= l.clock
    ensures Safe(terms, Pushing(l, pushed, at))
  {
    hide RefsFor, Readable;
    var after := Pushing(l, pushed, at);
    SameObjectsReadable(l, after);
    forall ref | Named(after, ref) && ref !in after.adopted ensures Leased(terms, after, ref) {
      assert Named(l, ref);
      if ref !in pushed {
        assert Leased(terms, l, ref);
      }
    }
  }

  lemma StatusSafe(terms: Terms, l: Lease, e: Event)
    requires Safe(terms, l) && (e.Compose? || e.RunBuild? || e.Respec?) && Allowed(terms, l, e)
    ensures Safe(terms, Next(l, e))
  {
    hide RefsFor, Storing, Written.ReadsAll, C.Reconciled, B.Passed, ComposePushes, BuildPushes,
      Written.ReadableCompose,
      Written.ReadableBuild, Leased;
    match e {
      case Compose(key, w, pass, fuse, at) =>
        Written.ComposeReads(w, pass, fuse);
        StoringSafe(terms, l, Composed(l.objects[key], e), ComposePushes(l.objects[key].repo, w, pass, fuse), at);
      case RunBuild(key, m, order, fuse, landed, at) =>
        Written.BuildReads(m, order, fuse);
        StoringSafe(terms, l, Built(l.objects[key], e), BuildPushes(l.objects[key].repo, m, order, fuse), at);
      case Respec(key, repo, credentials, at) =>
        NothingReads();
        StoringSafe(terms, l, Respecced(l, e), {}, at);
    }
  }

  lemma NothingReads()
    ensures Written.ReadsAll(None, [])
  {
  }

  lemma ReclaimSafe(terms: Terms, l: Lease, e: Event)
    requires Safe(terms, l) && e.Reclaim? && Allowed(terms, l, e)
    requires (terms.misses + 1) * terms.interval <= terms.window
    ensures Safe(terms, Next(l, e))
  {
    hide RefsFor, Readable;
    var after := Next(l, e);
    SameObjectsReadable(l, after);
    forall ref | Named(after, ref) && ref !in after.adopted ensures Leased(terms, after, ref) {
      assert Named(l, ref);
      assert Leased(terms, l, ref);
      Multiples(Missed(l, ref), terms.misses, terms.interval);
      Multiples(terms.misses, terms.misses, terms.interval);
      assert ref != e.ref;
    }
  }

  lemma DeleteSafe(terms: Terms, l: Lease, e: Event)
    requires Safe(terms, l) && e.Delete? && Allowed(terms, l, e)
    ensures Safe(terms, Next(l, e))
  {
    hide RefsFor, Written.ReadsAll;
    var after := Next(l, e);
    forall ref | Named(after, ref) && ref !in after.adopted ensures Leased(terms, after, ref) {
      assert Named(l, ref);
      assert Leased(terms, l, ref);
    }
  }

  /** With cycles at most `interval` apart, and at most `misses` of them in a row missing any one
      reference, a window of (misses + 1) intervals is enough: in every state of every run of passes,
      pushes and cycles, the registry holds every reference a live object names, but for those some
      object adopted and nothing has pushed or pulled since. */
  lemma {:induction false} NothingNamedIsReclaimed(terms: Terms, l: Lease, run: seq<Event>, n: nat)
    requires n <= |run| && AllAllowed(terms, l, run) && Safe(terms, l)
    requires (terms.misses + 1) * terms.interval <= terms.window
    ensures Safe(terms, After(l, run, n))
    ensures forall ref :: Named(After(l, run, n), ref) ==>
              ref in After(l, run, n).touched || ref in After(l, run, n).adopted
  {
    hide Next, Allowed, Named, Readable;
    if n > 0 {
      NothingNamedIsReclaimed(terms, l, run, n - 1);
      var before, e := After(l, run, n - 1), run[n - 1];
      assert Allowed(terms, before, e);
      match e {
        case Cycle(_, _, _) => CycleSafe(terms, before, e);
        case Delete(_, _) => DeleteSafe(terms, before, e);
        case Push(pushed, at) =>
          AllowedInTime(terms, before, e);
          PushingSafe(terms, before, pushed, at);
          assert Next(before, e) == Pushing(before, pushed, at) by { PushNext(before, e); }
        case Reclaim(_, _) => ReclaimSafe(terms, before, e);
        case _ => StatusSafe(terms, before, e);
      }
    }
  }

  lemma AllowedInTime(terms: Terms, l: Lease, e: Event)
    requires Allowed(terms, l, e)
    ensures e.at >= l.clock
  {
  }

  lemma PushNext(l: Lease, e: Event)
    requires e.Push?
    ensures Next(l, e) == Pushing(l, e.pushed, e.at)
  {
  }

  ghost predicate NoneAdopts(l: Lease, run: seq<Event>) {
    forall n :: 0 <= n < |run| ==> Adopted(After(l, run, n), run[n]) == {}
  }

  lemma NextAdopts(l: Lease, e: Event)
    requires l.adopted == {} && Adopted(l, e) == {}
    ensures Next(l, e).adopted == {}
  {
    hide RefsFor, Composed, Built, Respecced, ComposePushes, BuildPushes, Gained, Cycled, Named;
    match e {
      case Cycle(_, _, _) => assert Next(l, e).adopted <= l.adopted;
      case _ =>
    }
  }

  lemma {:induction false} NothingAdopted(l: Lease, run: seq<Event>, n: nat)
    requires n <= |run| && NoneAdopts(l, run) && l.adopted == {}
    ensures After(l, run, n).adopted == {}
  {
    hide Adopted, Next;
    if n > 0 {
      NothingAdopted(l, run, n - 1);
      NextAdopts(After(l, run, n - 1), run[n - 1]);
    }
  }

  /** From a start with nothing published, and while no event adopts a reference, the registry holds
      every reference a live object names, in every state. */
  lemma EverythingNamedIsHeld(terms: Terms, start: int, run: seq<Event>, n: nat)
    requires n <= |run|
    requires var l := Lease(map[], map[], start, start, map[], {}); AllAllowed(terms, l, run) && NoneAdopts(l, run)
    requires (terms.misses + 1) * terms.interval <= terms.window
    ensures var after := After(Lease(map[], map[], start, start, map[], {}), run, n);
            forall ref :: Named(after, ref) ==> ref in after.touched
  {
    hide After, AllAllowed, NoneAdopts, RefsFor;
    var l := Lease(map[], map[], start, start, map[], {});
    NothingNamedIsReclaimed(terms, l, run, n);
    NothingAdopted(l, run, n);
  }

  // ---------- Exactly what is adopted ----------

  /** A composition's pass adopts a reference exactly when its result is recorded, no live object
      named it and the pass did not touch it, and either the pass found its digest published and a
      tag of the spec has the reference, or it kept a tag and the reference is the kept digest's or a
      tag's of the spec. */
  lemma ComposeAdopts(terms: Terms, l: Lease, e: Event, ref: string)
    requires Safe(terms, l) && e.Compose? && Allowed(terms, l, e)
    ensures var repo := l.objects[e.key].repo;
            ref in Adopted(l, e) <==>
            && !Named(l, ref) && ref !in ComposePushes(repo, e.w, e.pass, e.fuse)
            && Adopts(repo, C.Backfilled(e.w, e.pass), e.pass, e.fuse, ref)
  {
    hide C.Reconciled, ComposePushes, Adopts, Written.ReadsAll, Written.ReadableCompose, Retention.Refs, Leased;
    var t := l.objects[e.key];
    ComposeNames(t.repo, e.w, e.pass, e.fuse, ref);
    assert ref in RefsFor(t) ==> Named(l, ref);
  }

  lemma BuildAdoptsNothing(terms: Terms, l: Lease, e: Event)
    requires Safe(terms, l) && e.RunBuild? && Allowed(terms, l, e)
    ensures Adopted(l, e) == {}
  {
    hide B.Passed, BuildPushes, Written.ReadsAll, Written.ReadableBuild, Retention.Refs, Leased;
    var t := l.objects[e.key];
    forall ref ensures ref !in Adopted(l, e) {
      BuildNames(t.repo, e.m, e.order, e.fuse, ref);
      assert ref in RefsFor(t) ==> Named(l, ref);
    }
  }

  /** Giving an object another repository adopts all that it then names there first: a new object, or
      one that stays where it was, adopts nothing. */
  lemma RespecAdopts(l: Lease, e: Event)
    requires e.Respec?
    ensures forall ref :: ref in Adopted(l, e) <==> ref in RefsFor(Respecced(l, e)) && !Named(l, ref)
    ensures e.key !in l.objects || l.objects[e.key].repo == e.repo ==> Adopted(l, e) == {}
  {
    hide Retention.Refs;
    if e.key !in l.objects {
      assert RefsFor(Respecced(l, e)) == [] by { NothingNamed(e.repo); }
    } else if l.objects[e.key].repo == e.repo {
      assert RefsFor(Respecced(l, e)) == RefsFor(l.objects[e.key]);
    }
  }

  lemma NothingNamed(repo: string)
    ensures Retention.Refs(repo, None, []) == []
  {
  }

  // ---------- The bound is tight ----------

  /** One object, all of its references pushed at time zero. */
  function Fresh(t: Target): Lease {
    Lease(map[t.key := t], map ref | ref in RefsFor(t) :: 0, 0, 0, map[], {})
  }

  function Skipped(at: int): Event {
    Cycle(Partial, (ref: string) => NoAnswer, at)
  }

  /** As many skipped cycles in a row as the terms allow, then a reclaim just before the next. */
  function WorstRun(terms: Terms, ref: string): seq<Event> {
    seq(terms.misses, i requires 0 <= i < terms.misses => Skipped((i + 1) * terms.interval))
      + [Reclaim(ref, (terms.misses + 1) * terms.interval)]
  }

  lemma {:induction false} WorstRunIs(terms: Terms, t: Target, ref: string, n: nat)
    requires n <= terms.misses
    ensures var l := After(Fresh(t), WorstRun(terms, ref), n);
            && l.objects == Fresh(t).objects && l.touched == Fresh(t).touched
            && l.last == n * terms.interval && l.clock == n * terms.interval && l.adopted == {}
            && forall r :: r in l.touched ==> Missed(l, r) == n
  {
    hide RefsFor;
    if n > 0 {
      WorstRunIs(terms, t, ref, n - 1);
      var before, e := After(Fresh(t), WorstRun(terms, ref), n - 1), WorstRun(terms, ref)[n - 1];
      assert e == Skipped(n * terms.interval);
    }
  }

  lemma WorstRunAllowed(terms: Terms, t: Target, ref: string, n: nat)
    requires n <= terms.misses && ref in RefsFor(t) && (terms.misses + 1) * terms.interval > terms.window
    ensures Allowed(terms, After(Fresh(t), WorstRun(terms, ref), n), WorstRun(terms, ref)[n])
  {
    hide RefsFor, After;
    var l, e := After(Fresh(t), WorstRun(terms, ref), n), WorstRun(terms, ref)[n];
    WorstRunIs(terms, t, ref, n);
    Multiples(n, terms.misses, terms.interval);
    if n < terms.misses {
      assert e == Skipped((n + 1) * terms.interval);
      forall r | Named(l, r) ensures Missed(l, r) + 1 <= terms.misses {
        assert r in l.touched;
      }
    } else {
      assert e == Reclaim(ref, (terms.misses + 1) * terms.interval);
    }
  }

  lemma FreshSafe(terms: Terms, t: Target)
    requires Written.ReadsAll(t.artifact, t.history)
    ensures Safe(terms, Fresh(t))
  {
    hide RefsFor, Written.ReadsAll;
  }

  lemma WorstRunAllAllowed(terms: Terms, t: Target, ref: string)
    requires ref in RefsFor(t) && (terms.misses + 1) * terms.interval > terms.window
    ensures AllAllowed(terms, Fresh(t), WorstRun(terms, ref))
  {
    hide RefsFor, Allowed, After, Next;
    forall n | 0 <= n < |WorstRun(terms, ref)|
      ensures Allowed(terms, After(Fresh(t), WorstRun(terms, ref), n), WorstRun(terms, ref)[n])
    {
      WorstRunAllowed(terms, t, ref, n);
    }
  }

  lemma ReclaimEnds(l: Lease, ref: string, at: int)
    ensures var end := Next(l, Reclaim(ref, at));
            end.objects == l.objects && ref !in end.touched && end.adopted == l.adopted
  {
  }

  lemma WorstRunEnds(terms: Terms, t: Target, ref: string)
    requires ref in RefsFor(t)
    ensures var end := After(Fresh(t), WorstRun(terms, ref), |WorstRun(terms, ref)|);
            end.objects == Fresh(t).objects && ref !in end.touched && end.adopted == {}
  {
    hide RefsFor, Next, Fresh;
    var run := WorstRun(terms, ref);
    WorstRunIs(terms, t, ref, terms.misses);
    assert run[terms.misses] == Reclaim(ref, (terms.misses + 1) * terms.interval);
    ReclaimEnds(After(Fresh(t), run, terms.misses), ref, (terms.misses + 1) * terms.interval);
  }

  /** A shorter window is not enough: some run the terms allow loses what a live object names. */
  lemma ShorterWindowLoses(terms: Terms, t: Target, ref: string)
    requires ref in RefsFor(t) && (terms.misses + 1) * terms.interval > terms.window
    requires Written.ReadsAll(t.artifact, t.history)
    ensures var run := WorstRun(terms, ref);
            && Safe(terms, Fresh(t)) && AllAllowed(terms, Fresh(t), run)
            && var end := After(Fresh(t), run, |run|);
               Named(end, ref) && ref !in end.touched && ref !in end.adopted
  {
    hide RefsFor, AllAllowed, Safe, Written.ReadsAll, After, WorstRun;
    FreshSafe(terms, t);
    WorstRunAllAllowed(terms, t, ref);
    WorstRunEnds(terms, t, ref);
    assert t.key in Fresh(t).objects;
  }
}
