/** One repository of a registry: the manifests it serves and what its tags resolve to. */
module Registries {
  import opened Strings

  datatype Registry = Registry(manifests: set<string>, tags: map<string, string>)

  /** A push by digest, or a push under a tag, which pushes the manifest too. */
  datatype Write = PutManifest(digest: string) | PutTag(tag: string, digest: string)

  function Apply(reg: Registry, w: Write): Registry {
    match w
    case PutManifest(d) => reg.(manifests := reg.manifests + {d})
    case PutTag(t, d) => Registry(reg.manifests + {d}, reg.tags[t := d])
  }

  /** The first n writes. */
  function ApplyTo(reg: Registry, ws: seq<Write>, n: nat): Registry
    requires n <= |ws|
  {
    if n == 0 then reg else Apply(ApplyTo(reg, ws, n - 1), ws[n - 1])
  }

  /** As many of the writes as land. */
  function Landed(reg: Registry, ws: seq<Write>, fuse: nat): Registry {
    ApplyTo(reg, ws, if fuse < |ws| then fuse else |ws|)
  }

  lemma LandedFew(reg: Registry, w: Write, fuse: nat)
    ensures Landed(reg, [], fuse) == reg
    ensures Landed(reg, [w], fuse) == if fuse > 0 then Apply(reg, w) else reg
  {
    assert ApplyTo(reg, [w], 0) == reg;
  }

  /** Every tag names a manifest that is served. */
  predicate Serves(reg: Registry) {
    forall t :: t in reg.tags ==> reg.tags[t] in reg.manifests
  }

  predicate Resolves(reg: Registry, t: string, d: string) {
    t in reg.tags && reg.tags[t] == d
  }

  lemma {:induction false} ApplyServes(reg: Registry, ws: seq<Write>, n: nat)
    requires n <= |ws| && Serves(reg)
    ensures Serves(ApplyTo(reg, ws, n))
  {
    if n > 0 {
      ApplyServes(reg, ws, n - 1);
    }
  }

  lemma {:induction false} ApplyKeepsManifests(reg: Registry, ws: seq<Write>, n: nat)
    requires n <= |ws|
    ensures reg.manifests <= ApplyTo(reg, ws, n).manifests
  {
    if n > 0 {
      ApplyKeepsManifests(reg, ws, n - 1);
    }
  }

  /** A tag no write puts keeps its meaning, and a tag some write puts only to one digest ends
      there or where it was. */
  lemma {:induction false} ApplyKeeps(reg: Registry, ws: seq<Write>, n: nat, t: string, d: string)
    requires n <= |ws| && Resolves(reg, t, d)
    requires forall i :: 0 <= i < |ws| && ws[i].PutTag? && ws[i].tag == t ==> ws[i].digest == d
    ensures Resolves(ApplyTo(reg, ws, n), t, d)
  {
    if n > 0 {
      ApplyKeeps(reg, ws, n - 1, t, d);
    }
  }

  /** Every tag afterwards resolves where some write put it, or where it did before. */
  lemma {:induction false} ApplyTagIs(reg: Registry, ws: seq<Write>, n: nat, t: string)
    requires n <= |ws| && t in ApplyTo(reg, ws, n).tags
    ensures Resolves(reg, t, ApplyTo(reg, ws, n).tags[t])
      || exists i :: 0 <= i < n && ws[i] == PutTag(t, ApplyTo(reg, ws, n).tags[t])
  {
    if n > 0 && ws[n - 1] != PutTag(t, ApplyTo(reg, ws, n).tags[t]) {
      ApplyTagIs(reg, ws, n - 1, t);
    }
  }

  /** The repository as a pass meets it: `fuse` is how many more writes will land before the pass
      is cut short, by a failing request or a crash. */
  class Repository {
    var state: Registry
    var fuse: nat

    constructor (state: Registry, fuse: nat)
      ensures this.state == state && this.fuse == fuse
    {
      this.state, this.fuse := state, fuse;
    }

    /** What a HEAD of a tag answers, None when it does not resolve. */
    function Head(tag: string): Option<string>
      reads this
    {
      if tag in state.tags then Some(state.tags[tag]) else None
    }

    function HeadDigest(digest: string): bool
      reads this
    {
      digest in state.manifests
    }

    method Put(w: Write) returns (ok: bool)
      modifies this
      ensures ok == (old(fuse) > 0)
      ensures state == if ok then Apply(old(state), w) else old(state)
      ensures fuse == if ok then old(fuse) - 1 else 0
    {
      ok := fuse > 0;
      if ok {
        state := Apply(state, w);
        fuse := fuse - 1;
      }
    }
  }
}
