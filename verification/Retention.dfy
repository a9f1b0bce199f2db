/** Keeping live images alive by pulling them (internal/retention/refresher.go). */
module Retention {
  import opened Strings
  import opened Tags
  import opened Statuses

  // ---------- References ----------

  /** The tag of a stored name, without its repository: nothing when there is none to name. */
  function BareTag(tag: string): string {
    if tag == "" || '@' in tag then ""
    else
      var colon, slash := LastIndexOf(tag, ':'), LastIndexOf(tag, '/');
      if colon > slash then Without(tag, colon + 1)
      else if slash >= 0 then ""
      else tag
  }

  /** A stored tag against the repository the controller writes to. */
  function Qualify(repo: string, tag: string): string {
    if BareTag(tag) == "" then "" else repo + ":" + BareTag(tag)
  }

  function DigestRef(repo: string, digest: string): string {
    if digest == "" then "" else repo + "@" + digest
  }

  function QualifyAll(repo: string, tags: seq<string>, n: nat): seq<string>
    requires n <= |tags|
  {
    if n == 0 then [] else QualifyAll(repo, tags, n - 1) + [Qualify(repo, tags[n - 1])]
  }

  /** What one published thing is known by: its digest, then its tags. */
  function NamesOf(repo: string, digest: string, tags: seq<string>): seq<string> {
    [DigestRef(repo, digest)] + QualifyAll(repo, tags, |tags|)
  }

  /** The artifact's names, then those of the first n records, with repeats and gaps. */
  function Mentioned(repo: string, artifact: Option<ArtifactStatus>, history: seq<BuildRecord>, n: nat): seq<string>
    requires n <= |history|
  {
    if n == 0 then if artifact.Some? then NamesOf(repo, artifact.value.digest, artifact.value.tags) else []
    else Mentioned(repo, artifact, history, n - 1) + NamesOf(repo, history[n - 1].digest, history[n - 1].tags)
  }

  function Refs(repo: string, artifact: Option<ArtifactStatus>, history: seq<BuildRecord>): seq<string> {
    var all := Mentioned(repo, artifact, history, |history|);
    DistinctTo(all, |all|)
  }

  /** The list under construction. */
  class RefList {
    var seen: set<string>
    var refs: seq<string>
    ghost var added: seq<string>

    ghost predicate Valid()
      reads this
    {
      refs == DistinctTo(added, |added|) && seen == set r | r in refs
    }

    constructor ()
      ensures Valid() && added == []
    {
      seen, refs, added := {}, [], [];
    }

    method Add(ref: string)
      requires Valid()
      modifies this
      ensures Valid() && added == old(added) + [ref]
    {
      DistinctNext(added, ref);
      added := added + [ref];
      if ref == "" || ref in seen {
        return;
      }
      seen := seen + {ref};
      refs := refs + [ref];
    }

    method AddNames(repo: string, digest: string, tags: seq<string>)
      requires Valid()
      modifies this
      ensures Valid() && added == old(added) + NamesOf(repo, digest, tags)
    {
      hide DigestRef, Qualify, Valid;
      Add(DigestRef(repo, digest));
      for n := 0 to |tags|
        invariant Valid() && added == old(added) + ([DigestRef(repo, digest)] + QualifyAll(repo, tags, n))
      {
        Add(Qualify(repo, tags[n]));
      }
    }
  }

  lemma {:induction false} DistinctPrefix(a: seq<string>, b: seq<string>, n: nat)
    requires n <= |a| && a <= b
    ensures DistinctTo(a, n) == DistinctTo(b, n)
  {
    if n > 0 {
      DistinctPrefix(a, b, n - 1);
    }
  }

  lemma {:induction false} DistinctNext(a: seq<string>, x: string)
    ensures DistinctTo(a + [x], |a| + 1)
         == var before := DistinctTo(a, |a|); if x == "" || x in before then before else before + [x]
  {
    var b := a + [x];
    DistinctPrefix(a, b, |a|);
    assert b[|b| - 1] == x;
    assert DistinctTo(b, |b| - 1) == DistinctTo(a, |a|);
  }

  method RefsOf(repo: string, artifact: Option<ArtifactStatus>, history: seq<BuildRecord>) returns (refs: seq<string>)
    ensures refs == Refs(repo, artifact, history)
    ensures NoDuplicates(refs) && "" !in refs
  {
    hide NamesOf;
    var list := new RefList();
    if artifact.Some? {
      list.AddNames(repo, artifact.value.digest, artifact.value.tags);
    }
    for n := 0 to |history|
      invariant fresh(list) && list.Valid()
      invariant list.added == Mentioned(repo, artifact, history, n)
    {
      list.AddNames(repo, history[n].digest, history[n].tags);
    }
    refs := list.refs;
    DistinctIs(list.added, |list.added|);
  }

  // ---------- What the references are ----------

  function ArtifactNames(repo: string, a: ArtifactStatus): seq<string> {
    NamesOf(repo, a.digest, a.tags)
  }

  function RecordNames(repo: string, r: BuildRecord): seq<string> {
    NamesOf(repo, r.digest, r.tags)
  }

  predicate NamedIn(repo: string, artifact: Option<ArtifactStatus>, history: seq<BuildRecord>, ref: string) {
    || (artifact.Some? && ref in ArtifactNames(repo, artifact.value))
    || exists r :: r in history && ref in RecordNames(repo, r)
  }

  lemma {:induction false} MentionedHas(repo: string, artifact: Option<ArtifactStatus>, history: seq<BuildRecord>,
                                        n: nat, ref: string)
    requires n <= |history|
    ensures ref in Mentioned(repo, artifact, history, n) <==>
            (artifact.Some? && ref in ArtifactNames(repo, artifact.value))
              || exists i :: 0 <= i < n && ref in RecordNames(repo, history[i])
  {
    hide NamesOf;
    if n > 0 {
      MentionedHas(repo, artifact, history, n - 1, ref);
    }
  }

  lemma RefsHas(repo: string, artifact: Option<ArtifactStatus>, history: seq<BuildRecord>, ref: string)
    ensures ref in Refs(repo, artifact, history) <==> ref != "" && NamedIn(repo, artifact, history, ref)
  {
    hide NamesOf;
    var all := Mentioned(repo, artifact, history, |history|);
    MentionedHas(repo, artifact, history, |history|, ref);
    DistinctIs(all, |all|);
    assert all[..|all|] == all;
    if r :| r in history && ref in RecordNames(repo, r) {
      var i :| 0 <= i < |history| && history[i] == r;
    }
  }

  /** How a published thing is referred to in the repository written to: by its digest, and by each of its
      tags that can be read from the name stored. */
  predicate RefersTo(repo: string, digest: string, names: seq<string>, ref: string) {
    || (digest != "" && ref == repo + "@" + digest)
    || exists i :: 0 <= i < |names| && BareTag(names[i]) != "" && ref == repo + ":" + BareTag(names[i])
  }

  lemma {:induction false} QualifyAllHas(repo: string, names: seq<string>, n: nat, ref: string)
    requires n <= |names| && ref != ""
    ensures ref in QualifyAll(repo, names, n) <==>
            exists i :: 0 <= i < n && BareTag(names[i]) != "" && ref == repo + ":" + BareTag(names[i])
  {
    hide BareTag;
    if n > 0 {
      QualifyAllHas(repo, names, n - 1, ref);
    }
  }

  lemma NamesOfHas(repo: string, digest: string, names: seq<string>, ref: string)
    ensures ref != "" && ref in NamesOf(repo, digest, names) <==> RefersTo(repo, digest, names, ref)
  {
    hide BareTag, QualifyAll;
    if ref != "" {
      QualifyAllHas(repo, names, |names|, ref);
      var tail := QualifyAll(repo, names, |names|);
      assert NamesOf(repo, digest, names) == [DigestRef(repo, digest)] + tail;
    }
  }

  /** Whatever status holds: a reference is pulled exactly when it refers to the artifact or to a record. */
  lemma RefsMean(repo: string, artifact: Option<ArtifactStatus>, history: seq<BuildRecord>, ref: string)
    ensures ref in Refs(repo, artifact, history) <==>
            (artifact.Some? && RefersTo(repo, artifact.value.digest, artifact.value.tags, ref))
              || exists r :: r in history && RefersTo(repo, r.digest, r.tags, ref)
  {
    hide RefersTo, NamesOf, Refs;
    RefsHas(repo, artifact, history, ref);
    if artifact.Some? {
      NamesOfHas(repo, artifact.value.digest, artifact.value.tags, ref);
    }
    forall r | r in history
      ensures ref != "" && ref in RecordNames(repo, r) <==> RefersTo(repo, r.digest, r.tags, ref)
    {
      NamesOfHas(repo, r.digest, r.tags, ref);
    }
  }

  // ---------- The references are exactly what was published ----------

  /** A tag as status writes it: bare, or after a public name. */
  predicate WrittenAs(name: string, tag: string) {
    name == tag || (HasSuffix(name, ":" + tag) && '@' !in name)
  }

  /** Status wrote these names for these tags. */
  ghost predicate WroteAs(tags: seq<string>, names: seq<string>) {
    && |names| == |tags|
    && forall i :: 0 <= i < |tags| ==> ValidTag(tags[i]) && WrittenAs(names[i], tags[i])
  }

  /** In a qualified tag the last colon is the one before the tag, and no slash follows it. */
  lemma LastColon(pull: string, t: string)
    requires ValidTag(t)
    ensures var q := pull + ":" + t;
            LastIndexOf(q, ':') == |pull| && LastIndexOf(q, '/') < |pull| && Without(q, |pull| + 1) == t
  {
    ValidTagChars(t);
    var q := pull + [':'] + t;
    assert q == pull + ":" + t;
    LastIndexOfIs(pull, ':', t);
    WithoutIs(q, |pull| + 1);
    assert q[|pull| + 1..] == t;
    forall i | |pull| < i < |q| ensures q[i] != '/' {
      assert q[i] == t[i - |pull| - 1];
      assert t[i - |pull| - 1] in t;
    }
    assert LastIndexOf(q, '/') < |pull|;
  }

  lemma BareTagOf(pull: string, t: string)
    requires ValidTag(t) && '@' !in pull
    ensures BareTag(t) == t && BareTag(pull + ":" + t) == t && t != ""
  {
    hide LastIndexOf, Without;
    ValidTagChars(t);
    LastColon(pull, t);
    LastIndexOfAbsent(t, ':');
    LastIndexOfAbsent(t, '/');
  }

  /** What a stored name says of a tag, exactly: none when it carries a digest or is a repository alone; what
      follows the last colon, past every slash; or all of it when it is bare. */
  lemma BareTagExactly(name: string, repo: string, rest: string)
    ensures '@' in name ==> BareTag(name) == ""
    ensures '@' !in name && name == repo + ":" + rest && ':' !in rest && '/' !in rest ==> BareTag(name) == rest
    ensures '@' !in name && name == repo + "/" + rest && ':' !in rest ==> BareTag(name) == ""
    ensures '@' !in name && ':' !in name && '/' !in name ==> BareTag(name) == name
  {
    hide LastIndexOf;
    if name == repo + ":" + rest && ':' !in rest && '/' !in rest {
      LastOfTwo(repo, ':', rest, '/');
      WithoutIs(name, |repo| + 1);
      assert name[|repo| + 1..] == rest;
    }
    if name == repo + "/" + rest && ':' !in rest {
      LastOfTwo(repo, '/', rest, ':');
    }
    if ':' !in name && '/' !in name {
      LastIndexOfAbsent(name, ':');
      LastIndexOfAbsent(name, '/');
    }
  }

  lemma ReadsBack(name: string, tag: string)
    requires ValidTag(tag) && WrittenAs(name, tag)
    ensures BareTag(name) == tag
  {
    hide BareTag, ValidTag;
    BareTagOf("", tag);
    if name != tag {
      var pull := name[..|name| - |tag| - 1];
      assert name == pull + (":" + tag);
      assert name == pull + ":" + tag;
      BareTagOf(pull, tag);
    }
  }

  /** The reference a tag has in the write repository. */
  predicate TagRef(repo: string, tags: seq<string>, n: nat, ref: string)
    requires n <= |tags|
  {
    exists i :: 0 <= i < n && ref == repo + ":" + tags[i]
  }

  lemma {:induction false} QualifyAllIs(repo: string, tags: seq<string>, names: seq<string>, n: nat, ref: string)
    requires n <= |tags| && WroteAs(tags, names)
    ensures ref in QualifyAll(repo, names, n) <==> TagRef(repo, tags, n, ref)
  {
    hide BareTag, ValidTag, WrittenAs;
    if n > 0 {
      QualifyAllIs(repo, tags, names, n - 1, ref);
      ReadsBack(names[n - 1], tags[n - 1]);
      assert tags[n - 1] != "" by { BareTagOf("", tags[n - 1]); }
    }
  }

  /** One published thing: its digest and its tags. */
  datatype Publication = Publication(digest: string, tags: seq<string>)

  predicate RefOf(repo: string, p: Publication, ref: string) {
    ref == repo + "@" + p.digest || TagRef(repo, p.tags, |p.tags|, ref)
  }

  ghost predicate RecordedAs(p: Publication, digest: string, names: seq<string>) {
    digest == p.digest && digest != "" && WroteAs(p.tags, names)
  }

  lemma NamesOfIs(repo: string, p: Publication, names: seq<string>, ref: string)
    requires RecordedAs(p, p.digest, names)
    ensures ref in NamesOf(repo, p.digest, names) <==> RefOf(repo, p, ref)
  {
    hide QualifyAll;
    QualifyAllIs(repo, p.tags, names, |names|, ref);
    assert ref in NamesOf(repo, p.digest, names) <==>
           ref == DigestRef(repo, p.digest) || ref in QualifyAll(repo, names, |names|);
  }

  /** Status as some publications left it. */
  ghost predicate StatusOf(artifact: Option<ArtifactStatus>, history: seq<BuildRecord>,
                           current: Option<Publication>, past: seq<Publication>) {
    && (artifact.Some? <==> current.Some?)
    && (artifact.Some? ==> RecordedAs(current.value, artifact.value.digest, artifact.value.tags))
    && |past| == |history|
    && forall i :: 0 <= i < |past| ==> RecordedAs(past[i], history[i].digest, history[i].tags)
  }

  /** A reference of the artifact, or of one of the first n records. */
  predicate AnyRef(repo: string, current: Option<Publication>, past: seq<Publication>, n: nat, ref: string)
    requires n <= |past|
  {
    || (current.Some? && RefOf(repo, current.value, ref))
    || exists i :: 0 <= i < n && RefOf(repo, past[i], ref)
  }

  lemma {:induction false} MentionedIs(repo: string, artifact: Option<ArtifactStatus>, history: seq<BuildRecord>,
                                       current: Option<Publication>, past: seq<Publication>, n: nat, ref: string)
    requires n <= |history| && StatusOf(artifact, history, current, past)
    ensures ref in Mentioned(repo, artifact, history, n) <==> AnyRef(repo, current, past, n, ref)
  {
    hide NamesOf, RefOf, WroteAs;
    if n == 0 {
      if artifact.Some? {
        NamesOfIs(repo, current.value, artifact.value.tags, ref);
      }
    } else {
      MentionedIs(repo, artifact, history, current, past, n - 1, ref);
      NamesOfIs(repo, past[n - 1], history[n - 1].tags, ref);
    }
  }

  /** The references pulled are, without repeats, exactly the digest and the tags of the artifact
      and of every record, in the repository written to, although status holds public names. */
  lemma RefsAreExact(repo: string, artifact: Option<ArtifactStatus>, history: seq<BuildRecord>,
                     current: Option<Publication>, past: seq<Publication>)
    requires StatusOf(artifact, history, current, past)
    ensures NoDuplicates(Refs(repo, artifact, history))
    ensures forall ref :: ref in Refs(repo, artifact, history) <==> AnyRef(repo, current, past, |past|, ref)
  {
    hide RecordedAs, AnyRef, NoDuplicates;
    var all := Mentioned(repo, artifact, history, |history|);
    DistinctIs(all, |all|);
    assert all[..|all|] == all;
    forall ref ensures ref in Refs(repo, artifact, history) <==> AnyRef(repo, current, past, |past|, ref) {
      MentionedIs(repo, artifact, history, current, past, |history|, ref);
      NoEmptyRef(repo, current, past);
    }
  }

  lemma NoEmptyRef(repo: string, current: Option<Publication>, past: seq<Publication>)
    ensures !AnyRef(repo, current, past, |past|, "")
  {
  }
}
