/** Tags, digests' own tags and build history (internal/reconciler). */
module Tags {
  import opened Strings

  // ---------- Tags from a spec ----------

  datatype RefError = CarriesDigest(ref: string) | InvalidTag(tag: string)

  predicate TagStart(c: char) {
    'a' <= c <= 'z' || 'A' <= c <= 'Z' || '0' <= c <= '9' || c == '_'
  }

  predicate TagChar(c: char) {
    TagStart(c) || c == '.' || c == '-'
  }

  /** The tag pattern: ^[a-zA-Z0-9_][a-zA-Z0-9._-]*$ */
  predicate ValidTag(t: string) {
    t != "" && TagStart(t[0]) && forall i :: 0 <= i < |t| ==> TagChar(t[i])
  }

  lemma ValidTagChars(t: string)
    ensures ValidTag(t) ==> ':' !in t && '/' !in t && '@' !in t
  {
  }

  /** Only the tag of a full reference: no tag in, no tag out. */
  function TagFromRef(ref: string): Result<string, RefError> {
    if ref == "" then Ok("")
    else if '@' in ref then Err(CarriesDigest(ref))
    else
      var colon := LastIndexOf(ref, ':');
      if colon <= LastIndexOf(ref, '/') then Ok("")
      else
        var tag := Without(ref, colon + 1);
        if ValidTag(tag) then Ok(tag) else Err(InvalidTag(tag))
  }

  /** A reference is refused exactly when it carries a digest, or when what follows its last colon, past the
      last slash, is no valid tag; otherwise it says that tag, or none when there is no such colon. */
  lemma TagFromRefExactly(ref: string, repo: string, rest: string)
    ensures '@' in ref && ref != "" ==> TagFromRef(ref) == Err(CarriesDigest(ref))
    ensures '@' !in ref && ref == repo + ":" + rest && ':' !in rest && '/' !in rest ==>
              TagFromRef(ref) == if ValidTag(rest) then Ok(rest) else Err(InvalidTag(rest))
    ensures '@' !in ref && ref == repo + "/" + rest && ':' !in rest ==> TagFromRef(ref) == Ok("")
    ensures '@' !in ref && ':' !in ref ==> TagFromRef(ref) == Ok("")
  {
    hide ValidTag, LastIndexOf;
    if '@' !in ref && ref == repo + ":" + rest && ':' !in rest && '/' !in rest {
      LastOfTwo(repo, ':', rest, '/');
      WithoutIs(ref, |repo| + 1);
      assert ref[|repo| + 1..] == rest;
    }
    if ref == repo + "/" + rest && ':' !in rest {
      LastOfTwo(repo, '/', rest, ':');
    }
    if ':' !in ref {
      LastIndexOfAbsent(ref, ':');
    }
  }

  /** The last of one character is where it was put, and the other is not behind it. */
  lemma LastOfTwo(head: string, c: char, tail: string, d: char)
    requires c != d && d !in tail
    ensures LastIndexOf(head + [c] + tail, d) < |head|
    ensures c !in tail ==> LastIndexOf(head + [c] + tail, c) == |head|
    ensures LastIndexOf(head + [c] + tail, c) >= |head|
  {
    var s := head + [c] + tail;
    forall i | |head| <= i < |s| ensures s[i] != d {
      assert i > |head| ==> s[i] == tail[i - |head| - 1] && tail[i - |head| - 1] in tail;
    }
    assert s[|head|] == c;
    if c !in tail {
      LastIndexOfIs(head, c, tail);
    }
  }

  /** A colon before the last slash is a port, and what follows the last colon after it is the tag. */
  lemma TagFromRefOf(repo: string, tag: string)
    requires ValidTag(tag) && '@' !in repo
    ensures TagFromRef(repo + ":" + tag) == Ok(tag)
    ensures '/' in repo && ':' !in repo[LastIndexOf(repo, '/') + 1..] ==> TagFromRef(repo) == Ok("")
  {
    ValidTagChars(tag);
    var ref := repo + [':'] + tag;
    assert repo + ":" + tag == ref;
    LastIndexOfIs(repo, ':', tag);
    assert LastIndexOf(ref, '/') < |repo|;
    WithoutIs(ref, |repo| + 1);
    assert ref[|repo| + 1..] == tag;
    if '/' in repo && ':' !in repo[LastIndexOf(repo, '/') + 1..] {
      var slash, colon := LastIndexOf(repo, '/'), LastIndexOf(repo, ':');
      assert colon <= slash;
    }
  }

  /** The first n tags, without empty ones and repeats. */
  function DistinctTo(tags: seq<string>, n: nat): seq<string>
    requires n <= |tags|
  {
    if n == 0 then []
    else
      var before := DistinctTo(tags, n - 1);
      if tags[n - 1] == "" || tags[n - 1] in before then before else before + [tags[n - 1]]
  }

  lemma {:induction false} DistinctIs(tags: seq<string>, n: nat)
    requires n <= |tags|
    ensures NoDuplicates(DistinctTo(tags, n)) && "" !in DistinctTo(tags, n)
    ensures forall t :: t in DistinctTo(tags, n) <==> t != "" && t in tags[..n]
  {
    if n > 0 {
      DistinctIs(tags, n - 1);
      assert tags[..n] == tags[..n - 1] + [tags[n - 1]];
    }
  }

  function Effective(tags: seq<string>, ref: string): Result<seq<string>, RefError> {
    match TagFromRef(ref)
    case Err(e) => Err(e)
    case Ok(fromRef) => Ok(DistinctTo(tags + [fromRef], |tags| + 1))
  }

  method EffectiveTags(tags: seq<string>, ref: string) returns (r: Result<seq<string>, RefError>)
    ensures r == Effective(tags, ref)
    ensures r.Ok? ==> NoDuplicates(r.value) && "" !in r.value
    ensures r.Ok? ==> forall t :: t in r.value <==> t != "" && (t in tags || TagFromRef(ref) == Ok(t))
  {
    hide TagFromRef;
    var fromRef := TagFromRef(ref);
    if fromRef.Err? {
      return Err(fromRef.error);
    }
    var all := tags + [fromRef.value];
    var out: seq<string> := [];
    var seen: set<string> := {};
    for n := 0 to |all|
      invariant out == DistinctTo(all, n)
      invariant seen == set t | t in out
    {
      var t := all[n];
      if t == "" || t in seen {
        continue;
      }
      seen := seen + {t};
      out := out + [t];
    }
    DistinctIs(all, |all|);
    assert all[..|all|] == all;
    return Ok(out);
  }

  lemma {:induction false} DistinctKept(tags: seq<string>, more: seq<string>, n: nat)
    requires n <= |tags| && NoDuplicates(tags) && "" !in tags
    ensures DistinctTo(tags + more, n) == tags[..n]
  {
    if n > 0 {
      DistinctKept(tags, more, n - 1);
      assert tags[..n] == tags[..n - 1] + [tags[n - 1]];
      assert (tags + more)[n - 1] == tags[n - 1];
      assert tags[n - 1] in tags;
      assert forall k :: 0 <= k < n - 1 ==> tags[k] != tags[n - 1];
    }
  }

  /** A list without repeats keeps its order, and the reference's tag comes last when it is new. */
  lemma EffectiveKeepsOrder(tags: seq<string>, ref: string, t: string)
    requires NoDuplicates(tags) && "" !in tags && TagFromRef(ref) == Ok(t)
    ensures Effective(tags, ref) == Ok(if t == "" || t in tags then tags else tags + [t])
  {
    hide TagFromRef, NoDuplicates;
    DistinctKept(tags, [t], |tags|);
    var all := tags + [t];
    assert all[|tags|] == t && tags[..|tags|] == tags;
    assert DistinctTo(all, |all|) == if t == "" || t in tags then tags else tags + [t];
  }

  // ---------- A digest's own tag ----------

  const SHA256 := "sha256:"

  predicate HexDigit(c: char) {
    '0' <= c <= '9' || 'a' <= c <= 'f'
  }

  /** The form every digest here has. */
  predicate IsDigest(d: string) {
    HasPrefix(d, SHA256) && |d| == |SHA256| + 64 && forall i :: |SHA256| <= i < |d| ==> HexDigit(d[i])
  }

  function DigestTag(digest: string): string {
    var colon := IndexOf(digest, ':');
    "digest-" + if colon < |digest| then digest[colon + 1..] else digest
  }

  /** A tag a spec may ask for: valid, and not of the form kept for digests' own tags. */
  predicate SpecTag(t: string) {
    ValidTag(t) && !HasPrefix(t, "digest-")
  }

  lemma DigestTagOf(d: string)
    requires IsDigest(d)
    ensures DigestTag(d) == "digest-" + d[|SHA256|..]
  {
    assert d == "sha256" + [':'] + d[|SHA256|..];
    IndexOfIs("sha256", ':', d[|SHA256|..]);
  }

  /** Derived from the content: two digests never share their own tag, and no spec tag is one. */
  lemma DigestTagInjective(d: string, e: string)
    requires IsDigest(d) && IsDigest(e) && DigestTag(d) == DigestTag(e)
    ensures d == e
  {
    hide DigestTag;
    DigestTagOf(d);
    DigestTagOf(e);
    assert d[|SHA256|..] == ("digest-" + d[|SHA256|..])[7..];
    assert e[|SHA256|..] == ("digest-" + e[|SHA256|..])[7..];
    assert d == SHA256 + d[|SHA256|..] && e == SHA256 + e[|SHA256|..];
  }

  lemma DigestTagIsNoSpecTag(d: string, t: string)
    requires SpecTag(t)
    ensures t != DigestTag(d) && ':' !in t
  {
    ValidTagChars(t);
    var rest := DigestTag(d)[7..];
    assert DigestTag(d) == "digest-" + rest;
  }

  /** A digest's own tag is itself a valid tag, so it never reads as a qualified one. */
  lemma DigestTagValid(d: string)
    requires IsDigest(d)
    ensures ValidTag(DigestTag(d)) && ':' !in DigestTag(d) && d != ""
  {
    DigestTagOf(d);
    var own := DigestTag(d);
    forall i | 0 <= i < |own| ensures TagChar(own[i]) {
      if i >= 7 {
        assert HexDigit(d[i]);
      }
    }
    ValidTagChars(own);
  }

  function OthersThan(tags: seq<string>, own: string, n: nat): seq<string>
    requires n <= |tags|
  {
    if n == 0 then []
    else OthersThan(tags, own, n - 1) + if tags[n - 1] != own then [tags[n - 1]] else []
  }

  /** The tags, with the digest's own tag last. */
  function PublishTags(tags: seq<string>, digest: string): seq<string> {
    OthersThan(tags, DigestTag(digest), |tags|) + [DigestTag(digest)]
  }

  method PublishTagList(tags: seq<string>, digest: string) returns (out: seq<string>)
    ensures out == PublishTags(tags, digest)
  {
    hide DigestTag;
    var own := DigestTag(digest);
    out := [];
    for n := 0 to |tags|
      invariant out == OthersThan(tags, own, n)
    {
      if tags[n] != own {
        out := out + [tags[n]];
      }
    }
    out := out + [own];
  }

  lemma {:induction false} OthersThanIs(tags: seq<string>, own: string, n: nat)
    requires n <= |tags|
    ensures forall t :: t in OthersThan(tags, own, n) <==> t in tags[..n] && t != own
    ensures NoDuplicates(tags) ==> NoDuplicates(OthersThan(tags, own, n))
  {
    if n > 0 {
      OthersThanIs(tags, own, n - 1);
      assert tags[..n] == tags[..n - 1] + [tags[n - 1]];
      var before := OthersThan(tags, own, n - 1);
      if NoDuplicates(tags) {
        assert forall k :: 0 <= k < n - 1 ==> tags[k] != tags[n - 1];
        assert tags[n - 1] !in before;
      }
    }
  }

  lemma {:induction false} OthersThanAll(tags: seq<string>, own: string, n: nat)
    requires n <= |tags| && own !in tags
    ensures OthersThan(tags, own, n) == tags[..n]
  {
    if n > 0 {
      OthersThanAll(tags, own, n - 1);
      assert tags[..n] == tags[..n - 1] + [tags[n - 1]];
      assert tags[n - 1] in tags;
    }
  }

  /** The digest's own tag is added once and last; no other tag is added, dropped or moved. */
  lemma PublishTagsIs(tags: seq<string>, digest: string)
    ensures forall t :: t in PublishTags(tags, digest) <==> t in tags || t == DigestTag(digest)
    ensures NoDuplicates(tags) ==> NoDuplicates(PublishTags(tags, digest))
    ensures DigestTag(digest) !in tags ==> PublishTags(tags, digest) == tags + [DigestTag(digest)]
  {
    hide DigestTag;
    var own := DigestTag(digest);
    OthersThanIs(tags, own, |tags|);
    assert tags[..|tags|] == tags;
    if own !in tags {
      OthersThanAll(tags, own, |tags|);
    }
    var others := OthersThan(tags, own, |tags|);
    if NoDuplicates(tags) {
      assert forall i :: 0 <= i < |others| ==> others[i] in others;
    }
  }

  predicate Claims(t: string, own: string) {
    t == own || HasSuffix(t, ":" + own)
  }

  /** Whether a list of tags from status, qualified or bare, includes the digest's own. */
  predicate HasDigestTag(tags: seq<string>, digest: string) {
    exists i :: 0 <= i < |tags| && Claims(tags[i], DigestTag(digest))
  }

  /** A qualified spec tag claims no digest. */
  lemma QualifiedClaims(repo: string, t: string, own: string)
    requires ':' !in t && ':' !in own
    ensures Claims(repo + ":" + t, own) <==> t == own
  {
    var q := repo + [':'] + t;
    assert repo + ":" + t == q;
    LastIndexOfIs(repo, ':', t);
    if HasSuffix(q, ":" + own) {
      var head := q[..|q| - |own| - 1];
      assert q == head + [':'] + own;
      LastIndexOfIs(head, ':', own);
      assert own == q[|head| + 1..] && t == q[|repo| + 1..];
    }
    assert q[|repo|] == ':' && q[|repo|] in q;
    assert t == own ==> q[|repo|..] == ":" + own;
  }

  // ---------- History ----------

  /** One build of status.history; `lost` is when the registry was found not to serve it. */
  datatype BuildRecord = BuildRecord(digest: string, tags: seq<string>, inputHash: string, lost: Option<int>)

  /** status.artifact: the published result, under its public name. */
  datatype ArtifactStatus = ArtifactStatus(digest: string, revision: string, ref: string, tags: seq<string>)

  function OtherRecords(h: seq<BuildRecord>, digest: string, n: nat): seq<BuildRecord>
    requires n <= |h|
  {
    if n == 0 then []
    else OtherRecords(h, digest, n - 1) + if h[n - 1].digest != digest then [h[n - 1]] else []
  }

  function Take<T>(s: seq<T>, n: nat): seq<T> {
    if |s| <= n then s else s[..n]
  }

  function AtLeastOne(limit: int): nat {
    if limit < 1 then 1 else limit
  }

  /** The record in front, the other digests behind it in their order, as many as the limit allows. */
  function Recorded(h: seq<BuildRecord>, record: Option<BuildRecord>, limit: int): seq<BuildRecord> {
    match record
    case None => h
    case Some(r) => [r] + Take(OtherRecords(h, r.digest, |h|), AtLeastOne(limit) - 1)
  }

  method RecordHistory(history: seq<BuildRecord>, record: Option<BuildRecord>,
                       limit: int) returns (out: seq<BuildRecord>)
    ensures out == Recorded(history, record, limit)
  {
    if record.None? {
      return history;
    }
    var r := record.value;
    var max := AtLeastOne(limit);
    out := [r];
    for n := 0 to |history|
      invariant out == [r] + Take(OtherRecords(history, r.digest, n), max - 1)
    {
      var h := history[n];
      if h.digest == r.digest {
        continue;
      }
      if |out| == max {
        TakeFull(history, r.digest, n, |history|, max - 1);
        break;
      }
      assert Take(OtherRecords(history, r.digest, n + 1), max - 1) == OtherRecords(history, r.digest, n) + [h];
      out := out + [h];
    }
  }

  lemma {:induction false} OthersGrow(h: seq<BuildRecord>, digest: string, m: nat, n: nat)
    requires m <= n <= |h|
    ensures OtherRecords(h, digest, m) <= OtherRecords(h, digest, n)
  {
    if m < n {
      OthersGrow(h, digest, m, n - 1);
    }
  }

  lemma TakeFull(h: seq<BuildRecord>, digest: string, m: nat, n: nat, k: nat)
    requires m <= n <= |h| && |OtherRecords(h, digest, m)| >= k
    ensures Take(OtherRecords(h, digest, n), k) == Take(OtherRecords(h, digest, m), k)
  {
    OthersGrow(h, digest, m, n);
  }

  // ---------- History over a run of publishes ----------

  /** Status history after the first n passes; a pass that published nothing records None. */
  function HistoryAfter(passes: seq<Option<BuildRecord>>, limit: int, n: nat): seq<BuildRecord>
    requires n <= |passes|
  {
    if n == 0 then [] else Recorded(HistoryAfter(passes, limit, n - 1), passes[n - 1], limit)
  }

  /** The pass that last published a digest, -1 when none of the first n did. */
  function LastPublished(passes: seq<Option<BuildRecord>>, digest: string, n: nat): (k: int)
    requires n <= |passes|
    ensures -1 <= k < n
  {
    if n == 0 then -1
    else if Publishes(passes[n - 1], digest) then n - 1
    else LastPublished(passes, digest, n - 1)
  }

  predicate Publishes(pass: Option<BuildRecord>, digest: string) {
    pass.Some? && pass.value.digest == digest
  }

  lemma {:induction false} LastPublishedIs(passes: seq<Option<BuildRecord>>, digest: string, n: nat)
    requires n <= |passes|
    ensures var k := LastPublished(passes, digest, n);
            && (k >= 0 ==> Publishes(passes[k], digest))
            && forall j :: k < j < n ==> !Publishes(passes[j], digest)
  {
    if n > 0 {
      LastPublishedIs(passes, digest, n - 1);
    }
  }

  function Recent(passes: seq<Option<BuildRecord>>, n: nat): seq<BuildRecord>
    requires n <= |passes|
  {
    if n == 0 then []
    else match passes[n - 1]
      case None => Recent(passes, n - 1)
      case Some(r) =>
        var before := Recent(passes, n - 1);
        [r] + OtherRecords(before, r.digest, |before|)
  }

  predicate DistinctDigests(h: seq<BuildRecord>) {
    forall i, j :: 0 <= i < j < |h| ==> h[i].digest != h[j].digest
  }

  lemma {:induction false} OthersAre(h: seq<BuildRecord>, digest: string, n: nat)
    requires n <= |h|
    ensures forall r :: r in OtherRecords(h, digest, n) ==> r.digest != digest && exists k :: 0 <= k < n && h[k] == r
    ensures forall k :: 0 <= k < n && h[k].digest != digest ==> h[k] in OtherRecords(h, digest, n)
  {
    if n > 0 {
      OthersAre(h, digest, n - 1);
    }
  }

  lemma {:induction false} OthersDistinct(h: seq<BuildRecord>, digest: string, n: nat)
    requires n <= |h| && DistinctDigests(h)
    ensures |OtherRecords(h, digest, n)| >= n - 1
    ensures (forall i :: 0 <= i < n ==> h[i].digest != digest) ==> |OtherRecords(h, digest, n)| == n
    ensures DistinctDigests(OtherRecords(h, digest, n))
  {
    if n > 0 {
      OthersDistinct(h, digest, n - 1);
      OthersAre(h, digest, n - 1);
      var others := OtherRecords(h, digest, n - 1);
      forall i | 0 <= i < |others| ensures others[i].digest != h[n - 1].digest {
        assert others[i] in others;
        var k :| 0 <= k < n - 1 && h[k] == others[i];
      }
    }
  }

  /** Trimming before or after dropping one digest gives the same front. */
  lemma TrimOthers(h: seq<BuildRecord>, digest: string, limit: nat)
    requires DistinctDigests(h) && limit > 0
    ensures var cut := Take(h, limit);
            Take(OtherRecords(cut, digest, |cut|), limit - 1) == Take(OtherRecords(h, digest, |h|), limit - 1)
  {
    var cut := Take(h, limit);
    OthersOfPrefix(h, cut, digest, |cut|);
    OthersGrow(h, digest, |cut|, |h|);
    OthersDistinct(h, digest, |cut|);
  }

  lemma {:induction false} OthersOfPrefix(h: seq<BuildRecord>, cut: seq<BuildRecord>, digest: string, n: nat)
    requires cut <= h && n <= |cut|
    ensures OtherRecords(cut, digest, n) == OtherRecords(h, digest, n)
  {
    if n > 0 {
      OthersOfPrefix(h, cut, digest, n - 1);
    }
  }

  lemma {:induction false} RecentDistinct(passes: seq<Option<BuildRecord>>, n: nat)
    requires n <= |passes|
    ensures DistinctDigests(Recent(passes, n))
  {
    if n > 0 {
      RecentDistinct(passes, n - 1);
      if passes[n - 1].Some? {
        var before := Recent(passes, n - 1);
        OthersDistinct(before, passes[n - 1].value.digest, |before|);
        OthersAre(before, passes[n - 1].value.digest, |before|);
      }
    }
  }

  lemma {:induction false} HistoryIsRecent(passes: seq<Option<BuildRecord>>, limit: int, n: nat)
    requires n <= |passes|
    ensures HistoryAfter(passes, limit, n) == Take(Recent(passes, n), AtLeastOne(limit))
  {
    hide OtherRecords, DistinctDigests;
    if n > 0 {
      HistoryIsRecent(passes, limit, n - 1);
      if passes[n - 1].Some? {
        RecentDistinct(passes, n - 1);
        TrimOthers(Recent(passes, n - 1), passes[n - 1].value.digest, AtLeastOne(limit));
      }
    }
  }

  /** A record stands for the last publication of its digest among the first n passes. */
  predicate StandsFor(passes: seq<Option<BuildRecord>>, r: BuildRecord, n: nat)
    requires n <= |passes|
  {
    var k := LastPublished(passes, r.digest, n);
    k >= 0 && passes[k] == Some(r)
  }

  ghost predicate ByLastPublication(passes: seq<Option<BuildRecord>>, n: nat, h: seq<BuildRecord>)
    requires n <= |passes|
  {
    && (forall r :: r in h ==> StandsFor(passes, r, n))
    && (forall i, j :: 0 <= i < j < |h| ==>
          LastPublished(passes, h[i].digest, n) > LastPublished(passes, h[j].digest, n))
  }

  /** Every record of `o` was last published after `last` was. */
  ghost predicate AllLater(passes: seq<Option<BuildRecord>>, n: nat, o: seq<BuildRecord>, last: BuildRecord)
    requires n <= |passes|
  {
    forall x :: x in o ==> LastPublished(passes, x.digest, n) > LastPublished(passes, last.digest, n)
  }

  lemma FrontIsLater(passes: seq<Option<BuildRecord>>, n: nat, h: seq<BuildRecord>, o: seq<BuildRecord>, k: nat)
    requires n <= |passes| && k < |h| && ByLastPublication(passes, n, h)
    requires forall x :: x in o ==> exists j :: 0 <= j < k && h[j] == x
    ensures AllLater(passes, n, o, h[k]) && StandsFor(passes, h[k], n)
  {
    hide LastPublished, StandsFor;
    assert h[k] in h;
    forall x | x in o ensures LastPublished(passes, x.digest, n) > LastPublished(passes, h[k].digest, n) {
      var j :| 0 <= j < k && h[j] == x;
    }
  }

  lemma AppendOrdered(passes: seq<Option<BuildRecord>>, n: nat, o: seq<BuildRecord>, last: BuildRecord)
    requires n <= |passes| && ByLastPublication(passes, n, o)
    requires AllLater(passes, n, o, last) && StandsFor(passes, last, n)
    ensures ByLastPublication(passes, n, o + [last])
  {
    hide LastPublished, StandsFor;
    var all := o + [last];
    forall i, j | 0 <= i < j < |all|
      ensures LastPublished(passes, all[i].digest, n) > LastPublished(passes, all[j].digest, n)
    {
      assert all[i] == o[i] && o[i] in o;
      if j < |o| {
        assert all[j] == o[j];
      }
    }
  }

  lemma {:induction false} OthersOrdered(passes: seq<Option<BuildRecord>>, h: seq<BuildRecord>, digest: string,
                                         m: nat, n: nat)
    requires m <= |h| && n <= |passes| && ByLastPublication(passes, n, h)
    ensures ByLastPublication(passes, n, OtherRecords(h, digest, m))
  {
    hide ByLastPublication, AllLater, StandsFor, LastPublished;
    if m == 0 {
      NothingOrdered(passes, n);
    } else {
      OthersOrdered(passes, h, digest, m - 1, n);
      OthersAre(h, digest, m - 1);
      var o := OtherRecords(h, digest, m - 1);
      FrontIsLater(passes, n, h, o, m - 1);
      AppendOrdered(passes, n, o, h[m - 1]);
      assert o + [] == o;
    }
  }

  lemma NothingOrdered(passes: seq<Option<BuildRecord>>, n: nat)
    requires n <= |passes|
    ensures ByLastPublication(passes, n, [])
  {
  }

  /** A pass that publishes another digest, or nothing, leaves a digest's last publication alone. */
  lemma OthersUndisturbed(passes: seq<Option<BuildRecord>>, o: seq<BuildRecord>, n: nat)
    requires 0 < n <= |passes| && ByLastPublication(passes, n - 1, o)
    requires passes[n - 1].Some? ==> forall r :: r in o ==> r.digest != passes[n - 1].value.digest
    ensures ByLastPublication(passes, n, o)
  {
    forall r | r in o ensures LastPublished(passes, r.digest, n) == LastPublished(passes, r.digest, n - 1) {
    }
  }

  /** What a pass publishes goes in front. */
  lemma PublishedFirst(passes: seq<Option<BuildRecord>>, o: seq<BuildRecord>, n: nat)
    requires 0 < n <= |passes| && ByLastPublication(passes, n - 1, o) && passes[n - 1].Some?
    requires forall r :: r in o ==> r.digest != passes[n - 1].value.digest
    ensures ByLastPublication(passes, n, [passes[n - 1].value] + o)
  {
    OthersUndisturbed(passes, o, n);
    var r := passes[n - 1].value;
    var all := [r] + o;
    assert LastPublished(passes, r.digest, n) == n - 1;
    forall i, j | 0 <= i < j < |all|
      ensures LastPublished(passes, all[i].digest, n) > LastPublished(passes, all[j].digest, n)
    {
      assert all[j] == o[j - 1];
      if i == 0 {
        assert o[j - 1] in o;
        assert LastPublished(passes, o[j - 1].digest, n) == LastPublished(passes, o[j - 1].digest, n - 1);
      } else {
        assert all[i] == o[i - 1];
      }
    }
  }

  lemma {:induction false} RecentOrdered(passes: seq<Option<BuildRecord>>, n: nat)
    requires n <= |passes|
    ensures ByLastPublication(passes, n, Recent(passes, n))
  {
    hide ByLastPublication, LastPublished, OtherRecords;
    if n == 0 {
      NothingOrdered(passes, 0);
    } else {
      RecentOrdered(passes, n - 1);
      var before := Recent(passes, n - 1);
      match passes[n - 1] {
        case None =>
          OthersUndisturbed(passes, before, n);
        case Some(r) =>
          OthersOrdered(passes, before, r.digest, |before|, n - 1);
          OthersAre(before, r.digest, |before|);
          PublishedFirst(passes, OtherRecords(before, r.digest, |before|), n);
      }
    }
  }

  predicate Names(h: seq<BuildRecord>, digest: string) {
    exists r :: r in h && r.digest == digest
  }

  lemma {:induction false} RecentComplete(passes: seq<Option<BuildRecord>>, n: nat, k: nat)
    requires k < n <= |passes| && passes[k].Some?
    ensures Names(Recent(passes, n), passes[k].value.digest)
  {
    var digest := passes[k].value.digest;
    if passes[n - 1] == Some(passes[k].value) {
      assert Recent(passes, n)[0].digest == digest;
    } else if k < n - 1 {
      RecentComplete(passes, n - 1, k);
      var before := Recent(passes, n - 1);
      var r :| r in before && r.digest == digest;
      if passes[n - 1].Some? {
        OthersAre(before, passes[n - 1].value.digest, |before|);
        assert passes[n - 1].value in Recent(passes, n);
      }
    }
  }

  /** Every digest published so far once, ordered by its last publication, most recent first. */
  ghost predicate MostRecentFirst(passes: seq<Option<BuildRecord>>, all: seq<BuildRecord>) {
    && ByLastPublication(passes, |passes|, all)
    && DistinctDigests(all)
    && forall k :: 0 <= k < |passes| && passes[k].Some? ==> Names(all, passes[k].value.digest)
  }

  /** From an empty history, any run of passes leaves the most recently published distinct digests,
      at most `limit` of them and in order; passes that published nothing change nothing. */
  lemma HistoryIsMostRecent(passes: seq<Option<BuildRecord>>, limit: int)
    ensures exists all :: MostRecentFirst(passes, all)
              && HistoryAfter(passes, limit, |passes|) == Take(all, AtLeastOne(limit))
  {
    hide ByLastPublication, Recent, HistoryAfter, Names, DistinctDigests;
    var all := Recent(passes, |passes|);
    RecentOrdered(passes, |passes|);
    RecentDistinct(passes, |passes|);
    HistoryIsRecent(passes, limit, |passes|);
    forall k | 0 <= k < |passes| && passes[k].Some? ensures Names(all, passes[k].value.digest) {
      RecentComplete(passes, |passes|, k);
    }
    assert MostRecentFirst(passes, all);
  }
}
