/** What a registry holds for a target, and what that allows (internal/reconciler/published.go). */
module Published {
  import opened Strings
  import opened Registries

  /** What each tag asked for resolves to, how many were asked for, and the recorded digest when it
      still resolves. */
  datatype State = State(tags: map<string, string>, wanted: nat, digest: string)

  /** What the first n tags resolve to. */
  function ResolvedTags(reg: Registry, tags: seq<string>, n: nat): map<string, string>
    requires n <= |tags|
  {
    if n == 0 then map[]
    else
      var before := ResolvedTags(reg, tags, n - 1);
      var t := tags[n - 1];
      if t in reg.tags then before[t := reg.tags[t]] else before
  }

  function Resolved(reg: Registry, tags: seq<string>, prev: Option<string>): State {
    State(ResolvedTags(reg, tags, |tags|), |tags|,
          if prev.Some? && prev.value != "" && prev.value in reg.manifests then prev.value else "")
  }

  method ResolvePublished(repo: Repository, tags: seq<string>, prev: Option<string>) returns (state: State)
    ensures state == Resolved(repo.state, tags, prev)
  {
    var found: map<string, string> := map[];
    for n := 0 to |tags|
      invariant found == ResolvedTags(repo.state, tags, n)
    {
      var desc := repo.Head(tags[n]);
      if desc.Some? {
        found := found[tags[n] := desc.value];
      }
    }
    var digest := "";
    if prev.Some? && prev.value != "" {
      if repo.HeadDigest(prev.value) {
        digest := prev.value;
      }
    }
    state := State(found, |tags|, digest);
  }

  /** The digest is published in full: served by digest, and every tag asked for points at it. */
  predicate Matches(p: State, digest: string) {
    && digest != ""
    && p.digest == digest
    && (forall t :: t in p.tags ==> p.tags[t] == digest)
    && |p.tags| == p.wanted
  }

  datatype Clash = Clash(tag: string, current: string)

  /** The first tag from k on that resolves elsewhere. */
  function FirstConflict(p: State, tags: seq<string>, digest: string, k: nat): Option<Clash>
    requires k <= |tags|
    decreases |tags| - k
  {
    if k == |tags| then None
    else if tags[k] in p.tags && p.tags[tags[k]] != digest then Some(Clash(tags[k], p.tags[tags[k]]))
    else FirstConflict(p, tags, digest, k + 1)
  }

  method Conflicts(p: State, tags: seq<string>, digest: string) returns (clash: Option<Clash>)
    ensures clash == FirstConflict(p, tags, digest, 0)
  {
    for n := 0 to |tags|
      invariant FirstConflict(p, tags, digest, 0) == FirstConflict(p, tags, digest, n)
    {
      var t := tags[n];
      if t in p.tags && p.tags[t] != digest {
        return Some(Clash(t, p.tags[t]));
      }
    }
    clash := None;
  }

  // ---------- What the answers mean ----------

  lemma {:induction false} ResolvedTagsAre(reg: Registry, tags: seq<string>, n: nat)
    requires n <= |tags|
    ensures forall t :: t in ResolvedTags(reg, tags, n) <==> t in tags[..n] && t in reg.tags
    ensures forall t :: t in ResolvedTags(reg, tags, n) ==> ResolvedTags(reg, tags, n)[t] == reg.tags[t]
  {
    if n > 0 {
      ResolvedTagsAre(reg, tags, n - 1);
      assert tags[..n] == tags[..n - 1] + [tags[n - 1]];
    }
  }

  /** Adding a tag to a list keeps it free of repeats exactly when the tag is new to it. */
  lemma NoDuplicatesNext(tags: seq<string>, n: nat)
    requires n < |tags|
    ensures NoDuplicates(tags[..n + 1]) <==> NoDuplicates(tags[..n]) && tags[n] !in tags[..n]
  {
    var front, all := tags[..n], tags[..n + 1];
    assert all == front + [tags[n]];
    assert all[n] == tags[n];
    if NoDuplicates(all) {
      assert forall i :: 0 <= i < n ==> front[i] == all[i] && all[i] != all[n];
    }
  }

  lemma UpdateCount(m: map<string, string>, t: string, d: string)
    ensures |m[t := d]| == |m| + (if t in m then 0 else 1)
  {
    var after := m[t := d];
    if t in m {
      assert after.Keys == m.Keys;
    } else {
      assert after.Keys == m.Keys + {t};
    }
  }

  lemma {:induction false} ResolvedTagsCount(reg: Registry, tags: seq<string>, n: nat)
    requires n <= |tags|
    ensures |ResolvedTags(reg, tags, n)| <= n
    ensures |ResolvedTags(reg, tags, n)| == n <==>
            NoDuplicates(tags[..n]) && forall t :: t in tags[..n] ==> t in reg.tags
  {
    hide NoDuplicates;
    if n > 0 {
      var before, t := ResolvedTags(reg, tags, n - 1), tags[n - 1];
      ResolvedTagsCount(reg, tags, n - 1);
      ResolvedTagsAre(reg, tags, n - 1);
      NoDuplicatesNext(tags, n - 1);
      assert tags[..n] == tags[..n - 1] + [t];
      if t in reg.tags {
        UpdateCount(before, t, reg.tags[t]);
      }
    } else {
      NothingRepeats(tags);
    }
  }

  lemma NothingRepeats(tags: seq<string>)
    ensures NoDuplicates(tags[..0])
  {
  }

  /** The registry serves the digest, and every one of the tags resolves to it. */
  predicate InPlace(reg: Registry, tags: seq<string>, digest: string) {
    digest in reg.manifests && forall t :: t in tags ==> Resolves(reg, t, digest)
  }

  /** A match is exactly a full publication, which needs a list of tags without repeats: with a
      repeat the tags found are always fewer than the tags asked for. */
  lemma MatchesExactly(reg: Registry, tags: seq<string>, prev: Option<string>, digest: string)
    ensures Matches(Resolved(reg, tags, prev), digest)
      <==> digest != "" && prev == Some(digest) && NoDuplicates(tags) && InPlace(reg, tags, digest)
  {
    ResolvedTagsAre(reg, tags, |tags|);
    ResolvedTagsCount(reg, tags, |tags|);
    assert tags[..|tags|] == tags;
    var found := ResolvedTags(reg, tags, |tags|);
    if NoDuplicates(tags) && InPlace(reg, tags, digest) {
      assert forall t :: t in found ==> t in tags && Resolves(reg, t, digest);
    }
    if Matches(Resolved(reg, tags, prev), digest) {
      assert forall t :: t in tags ==> t in found && Resolves(reg, t, digest);
    }
  }

  /** A tag resolves to something other than the digest. */
  predicate TakenFrom(reg: Registry, t: string, digest: string) {
    t in reg.tags && reg.tags[t] != digest
  }

  lemma {:induction false} FirstConflictIs(p: State, tags: seq<string>, digest: string, k: nat)
    requires k <= |tags|
    ensures match FirstConflict(p, tags, digest, k)
      case None => forall i :: k <= i < |tags| && tags[i] in p.tags ==> p.tags[tags[i]] == digest
      case Some(c) => exists i :: k <= i < |tags| && tags[i] == c.tag
                        && (forall j :: k <= j < i && tags[j] in p.tags ==> p.tags[tags[j]] == digest)
                        && c.tag in p.tags && p.tags[c.tag] == c.current != digest
    decreases |tags| - k
  {
    if k < |tags| && !(tags[k] in p.tags && p.tags[tags[k]] != digest) {
      FirstConflictIs(p, tags, digest, k + 1);
    }
  }

  /** There is a conflict exactly when one of the spec's tags means something else already, and the
      one reported does. More tags may have been asked for than the spec's. */
  lemma ConflictExactly(reg: Registry, asked: seq<string>, tags: seq<string>, prev: Option<string>, digest: string)
    requires forall t :: t in tags ==> t in asked
    ensures match FirstConflict(Resolved(reg, asked, prev), tags, digest, 0)
      case None => forall t :: t in tags ==> !TakenFrom(reg, t, digest)
      case Some(c) => c.tag in tags && TakenFrom(reg, c.tag, digest) && c.current == reg.tags[c.tag]
  {
    ResolvedTagsAre(reg, asked, |asked|);
    assert asked[..|asked|] == asked;
    var p := Resolved(reg, asked, prev);
    FirstConflictIs(p, tags, digest, 0);
    if FirstConflict(p, tags, digest, 0).None? {
      forall t | t in tags ensures !TakenFrom(reg, t, digest) {
        var i :| 0 <= i < |tags| && tags[i] == t;
        assert tags[i] in p.tags ==> p.tags[tags[i]] == digest;
      }
    }
  }
}
