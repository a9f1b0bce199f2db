/** The two-tier, digest-keyed layer cache (internal/cache, internal/store). */
module Cache {
  import opened Strings
  import Paths

  // ---------- Keys ----------

  datatype KeyError = Malformed(digest: string) | UnexpectedCharacters(digest: string)

  predicate Climbs(s: string) {
    '/' in s || '\\' in s || '.' in s
  }

  /** "<namespace>/<algorithm>/<hex>", for a digest of that form. */
  function Key(namespace: string, digest: string): Result<string, KeyError> {
    var colon := IndexOf(digest, ':');
    if colon == |digest| then Err(Malformed(digest))
    else
      var algo, hex := digest[..colon], digest[colon + 1..];
      if algo == "" || hex == "" then Err(Malformed(digest))
      else if Climbs(algo) || Climbs(hex) then Err(UnexpectedCharacters(digest))
      else Ok(namespace + "/" + algo + "/" + hex)
  }

  /** A colon with something on both sides, and no slash, backslash or dot. */
  predicate HasKey(digest: string) {
    && 0 < IndexOf(digest, ':') < |digest| - 1
    && forall i :: 0 <= i < |digest| ==> digest[i] != '/' && digest[i] != '\\' && digest[i] != '.'
  }

  lemma KeyExists(namespace: string, digest: string)
    ensures Key(namespace, digest).Ok? <==> HasKey(digest)
  {
    var colon := IndexOf(digest, ':');
    if colon < |digest| {
      var algo, hex := digest[..colon], digest[colon + 1..];
      assert digest == algo + [':'] + hex;
    }
  }

  /** Two digests never share a key. */
  lemma KeyInjective(namespace: string, d: string, e: string)
    requires Key(namespace, d).Ok? && Key(namespace, d) == Key(namespace, e)
    ensures d == e
  {
    var i, j := IndexOf(d, ':'), IndexOf(e, ':');
    var rest := Key(namespace, d).value[|namespace| + 1..];
    assert rest == d[..i] + ['/'] + d[i + 1..];
    assert rest == e[..j] + ['/'] + e[j + 1..];
    FirstDelimiter(d[..i], e[..j], '/', d[i + 1..], e[j + 1..]);
    assert d == d[..i] + [':'] + d[i + 1..];
    assert e == e[..j] + [':'] + e[j + 1..];
  }

  const INPUTS := "inputs"

  /** Where the local tier keeps a key, under its directory. */
  function LocalPath(dir: string, key: string): string {
    Paths.Join2(dir, key)
  }

  lemma KeyParts(digest: string) returns (algo: string, hex: string)
    requires Key(INPUTS, digest).Ok?
    ensures Paths.Plain([INPUTS, algo, hex]) && Key(INPUTS, digest).value == Join([INPUTS, algo, hex], '/')
  {
    var colon := IndexOf(digest, ':');
    algo, hex := digest[..colon], digest[colon + 1..];
    assert Join([algo, hex], '/') == algo + ['/'] + hex;
    assert [INPUTS, algo, hex][1..] == [algo, hex];
    assert algo != "." && algo != ".." && hex != "." && hex != ".." by {
      assert '.' !in algo && '.' !in hex;
    }
  }

  /** The file of a key is inside the cache's directory, an absolute clean one. */
  lemma LocalPathIs(dir: seq<string>, digest: string)
    requires Paths.Plain(dir) && dir != [] && Key(INPUTS, digest).Ok?
    ensures LocalPath("/" + Join(dir, '/'), Key(INPUTS, digest).value)
         == "/" + Join(dir, '/') + "/" + Key(INPUTS, digest).value
  {
    hide Key, Paths.Components;
    var algo, hex := KeyParts(digest);
    var parts := [INPUTS, algo, hex];
    var all := Join(dir + parts, '/');
    JoinConcat(dir, parts, '/');
    assert all == Join(dir, '/') + ['/'] + Join(parts, '/');
    assert "/" + Join(dir, '/') + "/" + Join(parts, '/') == "/" + all;
    RootedClean(dir + parts);
  }

  lemma RootedClean(cs: seq<string>)
    requires Paths.Plain(cs) && cs != []
    ensures Paths.Clean("/" + Join(cs, '/')) == "/" + Join(cs, '/')
  {
    hide Paths.Resolve, Paths.Components;
    Paths.RootedComponents(Join(cs, '/'));
    Paths.NormalFree(cs, true);
    SplitJoin(cs, '/');
    Paths.ResolveFixed(cs, true);
  }

  /** Two digests are never kept in one file. */
  lemma LocalPathInjective(dir: seq<string>, d: string, e: string)
    requires Paths.Plain(dir) && dir != [] && Key(INPUTS, d).Ok? && Key(INPUTS, e).Ok?
    requires LocalPath("/" + Join(dir, '/'), Key(INPUTS, d).value) ==
             LocalPath("/" + Join(dir, '/'), Key(INPUTS, e).value)
    ensures d == e
  {
    hide Key;
    LocalPathIs(dir, d);
    LocalPathIs(dir, e);
    var prefix := "/" + Join(dir, '/') + "/";
    var k, l := Key(INPUTS, d).value, Key(INPUTS, e).value;
    assert (prefix + k)[|prefix|..] == k;
    assert (prefix + l)[|prefix|..] == l;
    KeyInjective(INPUTS, d, e);
  }

  // ---------- Looking up ----------

  /** What may go wrong around one lookup, and what the origin would answer. */
  datatype Weather = Weather(
    statFails: bool, openFails: bool, pullFails: bool, deleteFails: bool, admitFails: bool,
    localWriteFails: bool, remoteWriteFails: bool, origin: Option<string>)

  /** A file of the local tier, or the origin's own copy when the local tier would not take it. */
  datatype Served = Managed(key: string) | Fetched(bytes: string)

  datatype PathError = BadKey(error: KeyError) | OriginFailed

  /** The two tiers, by key; a process may run without a remote one. */
  datatype Tiers = Tiers(local: map<string, string>, remote: Option<map<string, string>>)

  type Hash = string -> string

  /** The remote tier can supply bytes that have the digest, and the local tier takes them. */
  predicate RemoteSupplies(t: Tiers, key: string, digest: string, w: Weather, hash: Hash) {
    && t.remote.Some? && !w.openFails && key in t.remote.value && !w.pullFails
    && hash(t.remote.value[key]) == digest && !w.admitFails
  }

  predicate LocalSupplies(t: Tiers, key: string, w: Weather) {
    !w.statFails && key in t.local
  }

  /** Bytes that do not have the digest are removed from the remote tier when they are met. */
  function Swept(t: Tiers, key: string, digest: string, w: Weather, hash: Hash): Tiers {
    if t.remote.Some? && !w.openFails && key in t.remote.value && !w.pullFails
       && hash(t.remote.value[key]) != digest && !w.deleteFails
    then t.(remote := Some(t.remote.value - {key})) else t
  }

  datatype Lookup = Lookup(tiers: Tiers, served: Result<Served, PathError>, asked: bool)

  function Admitted(t: Tiers, key: string, bytes: string, w: Weather): Tiers {
    Tiers(t.local[key := bytes],
          if t.remote.Some? && !w.remoteWriteFails then Some(t.remote.value[key := bytes]) else t.remote)
  }

  function LookedUp(t: Tiers, digest: string, w: Weather, hash: Hash): Lookup {
    match Key(INPUTS, digest)
    case Err(e) => Lookup(t, Err(BadKey(e)), false)
    case Ok(key) =>
      if LocalSupplies(t, key, w) then Lookup(t, Ok(Managed(key)), false)
      else if RemoteSupplies(t, key, digest, w, hash) then
        Lookup(t.(local := t.local[key := t.remote.value[key]]), Ok(Managed(key)), false)
      else
        var swept := Swept(t, key, digest, w, hash);
        if w.origin.None? then Lookup(swept, Err(OriginFailed), true)
        else if w.localWriteFails then Lookup(swept, Ok(Fetched(w.origin.value)), true)
        else Lookup(Admitted(swept, key, w.origin.value, w), Ok(Managed(key)), true)
  }

  class Cache {
    var local: map<string, string>
    var remote: Option<map<string, string>>

    constructor (t: Tiers)
      ensures Read() == t
    {
      local, remote := t.local, t.remote;
    }

    function Read(): Tiers
      reads this
    {
      Tiers(local, remote)
    }

    /** Brings one object down into the local tier, verifying it on the way. */
    method PullFromRemote(key: string, digest: string, w: Weather, hash: Hash) returns (ok: bool)
      requires remote.Some?
      modifies this
      ensures ok == RemoteSupplies(old(Read()), key, digest, w, hash)
      ensures Read() == if ok then old(Read()).(local := old(local)[key := old(remote).value[key]])
                        else Swept(old(Read()), key, digest, w, hash)
    {
      if w.openFails || key !in remote.value {
        return false;
      }
      if w.pullFails {
        return false;
      }
      var bytes := remote.value[key];
      if hash(bytes) != digest {
        if !w.deleteFails {
          remote := Some(remote.value - {key});
        }
        return false;
      }
      if w.admitFails {
        return false;
      }
      local := local[key := bytes];
      ok := true;
    }

    method Path(digest: string, w: Weather, hash: Hash) returns (served: Result<Served, PathError>, asked: bool)
      modifies this
      ensures Lookup(Read(), served, asked) == LookedUp(old(Read()), digest, w, hash)
    {
      hide Key;
      asked := false;
      var key := Key(INPUTS, digest);
      if key.Err? {
        return Err(BadKey(key.error)), false;
      }
      var k := key.value;
      if !w.statFails && k in local {
        return Ok(Managed(k)), false;
      }
      if remote.Some? {
        var ok := PullFromRemote(k, digest, w, hash);
        if ok {
          return Ok(Managed(k)), false;
        }
      }
      asked := true;
      if w.origin.None? {
        return Err(OriginFailed), true;
      }
      var fetched := w.origin.value;
      if w.localWriteFails {
        return Ok(Fetched(fetched)), true;
      }
      local := local[k := fetched];
      if remote.Some? && !w.remoteWriteFails {
        remote := Some(remote.value[k := fetched]);
      }
      served := Ok(Managed(k));
    }
  }

  // ---------- The cache agrees with the origin ----------

  /** Every entry of the local tier holds the bytes its key names. */
  ghost predicate Verified(t: Tiers, hash: Hash) {
    forall d :: Key(INPUTS, d).Ok? && Key(INPUTS, d).value in t.local ==> hash(t.local[Key(INPUTS, d).value]) == d
  }

  /** The origin verifies what it returns. */
  predicate Honest(w: Weather, digest: string, hash: Hash) {
    w.origin.Some? ==> hash(w.origin.value) == digest
  }

  function BytesAt(t: Tiers, s: Served): Option<string> {
    match s
    case Managed(key) => if key in t.local then Some(t.local[key]) else None
    case Fetched(bytes) => Some(bytes)
  }

  lemma KeepsVerified(t: Tiers, d: string, bytes: string, hash: Hash)
    requires Verified(t, hash) && Key(INPUTS, d).Ok? && hash(bytes) == d
    ensures Verified(t.(local := t.local[Key(INPUTS, d).value := bytes]), hash)
  {
    hide Key;
    forall e | Key(INPUTS, e).Ok? && Key(INPUTS, e) == Key(INPUTS, d) ensures e == d {
      KeyInjective(INPUTS, e, d);
    }
  }

  /** One lookup, whatever fails around it: a path it returns holds bytes with the digest, the local
      tier stays verified, the origin is asked exactly when no tier could supply verified bytes as
      a local file, and a lookup fails exactly when the digest is not of the form that has a key, or
      the origin is needed and fails. */
  lemma LookupAgrees(t: Tiers, digest: string, w: Weather, hash: Hash)
    requires Verified(t, hash) && Honest(w, digest, hash)
    ensures var l := LookedUp(t, digest, w, hash);
            && Verified(l.tiers, hash)
            && (l.served.Ok? ==>
                  exists bytes :: BytesAt(l.tiers, l.served.value) == Some(bytes) && hash(bytes) == digest)
            && (Key(INPUTS, digest).Ok? <==> HasKey(digest))
            && (l.asked <==> HasKey(digest) && !LocalSupplies(t, Key(INPUTS, digest).value, w)
                               && !RemoteSupplies(t, Key(INPUTS, digest).value, digest, w, hash))
            && (l.served.Err? <==> !HasKey(digest) || (l.asked && w.origin.None?))
  {
    hide Key, HasKey;
    KeyExists(INPUTS, digest);
    var l := LookedUp(t, digest, w, hash);
    if Key(INPUTS, digest).Ok? {
      var key := Key(INPUTS, digest).value;
      if !LocalSupplies(t, key, w) {
        if RemoteSupplies(t, key, digest, w, hash) {
          KeepsVerified(t, digest, t.remote.value[key], hash);
        } else if w.origin.Some? {
          KeepsVerified(Swept(t, key, digest, w, hash), digest, w.origin.value, hash);
        }
      }
      if l.served.Ok? {
        assert BytesAt(l.tiers, l.served.value).Some?;
        assert hash(BytesAt(l.tiers, l.served.value).value) == digest;
      }
    }
  }

  /** The bytes at a key of a tier, if there are any. */
  function At(tier: Option<map<string, string>>, key: string): Option<string> {
    if tier.Some? && key in tier.value then Some(tier.value[key]) else None
  }

  /** Where the bytes are after a lookup. A hit in the local tier moves nothing; a verified remote copy comes
      down and stays where it was. Otherwise the origin is asked: remote bytes that were read and do not
      have the digest are gone, unless deleting them fails; what the origin answers is kept locally when
      the local tier takes it, and then put in the remote tier too, unless that write fails. No other key
      is touched. */
  lemma TiersExactly(t: Tiers, digest: string, w: Weather, hash: Hash, key: string)
    requires Key(INPUTS, digest) == Ok(key)
    ensures var l := LookedUp(t, digest, w, hash);
            var after := l.tiers;
            var had := At(t.remote, key);
            var read := had.Some? && !w.openFails && !w.pullFails;
            var kept := if read && hash(had.value) != digest && !w.deleteFails then None else had;
            var fetched := l.asked && w.origin.Some? && !w.localWriteFails;
            && (after.remote.Some? <==> t.remote.Some?)
            && (!l.asked && !w.statFails && key in t.local ==> after == t)
            && (!l.asked && (w.statFails || key !in t.local) ==>
                  read && hash(had.value) == digest && At(Some(after.local), key) == had && after.remote == t.remote)
            && (l.asked && !fetched ==> after.local == t.local && At(after.remote, key) == kept)
            && (fetched ==>
                  && At(Some(after.local), key) == w.origin
                  && At(after.remote, key) == if t.remote.Some? && !w.remoteWriteFails then w.origin else kept)
            && forall other :: other != key ==>
                 At(Some(after.local), other) == At(Some(t.local), other)
                 && At(after.remote, other) == At(t.remote, other)
  {
    hide Key;
  }

  /** A digest without a key touches nothing. */
  lemma NoKeyNoChange(t: Tiers, digest: string, w: Weather, hash: Hash)
    requires Key(INPUTS, digest).Err?
    ensures LookedUp(t, digest, w, hash).tiers == t && !LookedUp(t, digest, w, hash).asked
  {
    hide Key;
  }

  /** What was fetched once is not fetched again: the next lookup of the digest is answered by the local
      tier; and one by another process, with nothing local, by the shared tier, when both could write to and
      read from it. */
  lemma FetchedOnce(t: Tiers, digest: string, w: Weather, hash: Hash, w': Weather, elsewhere: map<string, string>)
    requires Verified(t, hash) && Honest(w, digest, hash)
    requires LookedUp(t, digest, w, hash).served.Ok? && LookedUp(t, digest, w, hash).served.value.Managed?
    ensures var after := LookedUp(t, digest, w, hash).tiers;
            && (!w'.statFails ==> !LookedUp(after, digest, w', hash).asked)
            && (LookedUp(t, digest, w, hash).asked && t.remote.Some? && !w.remoteWriteFails
                && !w'.openFails && !w'.pullFails && !w'.admitFails ==>
                  var l := LookedUp(Tiers(elsewhere, after.remote), digest, w', hash);
                  !l.asked && l.served == LookedUp(t, digest, w, hash).served)
  {
    hide Key;
  }

  /** A lookup, or others writing to and deleting from the shared remote tier as they like, or a
      restart that finds less in the local tier. */
  datatype Event =
    | LooksUp(digest: string, w: Weather)
    | Meddles(remote: Option<map<string, string>>)
    | Restarts(kept: set<string>)

  function Next(t: Tiers, e: Event, hash: Hash): Tiers {
    match e
    case LooksUp(digest, w) => LookedUp(t, digest, w, hash).tiers
    case Meddles(remote) => t.(remote := remote)
    case Restarts(kept) => t.(local := map k | k in t.local && k in kept :: t.local[k])
  }

  function After(t: Tiers, run: seq<Event>, hash: Hash, n: nat): Tiers
    requires n <= |run|
  {
    if n == 0 then t else Next(After(t, run, hash, n - 1), run[n - 1], hash)
  }

  /** In every run, whatever others do to the remote tier: at every point a lookup of any digest
      that returns a path returns bytes that have the digest. */
  lemma {:induction false} CacheAgrees(t: Tiers, run: seq<Event>, hash: Hash, n: nat, digest: string, w: Weather)
    requires n <= |run| && Verified(t, hash) && Honest(w, digest, hash)
    requires forall i :: 0 <= i < |run| && run[i].LooksUp? ==> Honest(run[i].w, run[i].digest, hash)
    ensures Verified(After(t, run, hash, n), hash)
    ensures var l := LookedUp(After(t, run, hash, n), digest, w, hash);
            l.served.Ok? ==> exists bytes :: BytesAt(l.tiers, l.served.value) == Some(bytes) && hash(bytes) == digest
  {
    hide Key, LookedUp;
    if n > 0 {
      CacheAgrees(t, run, hash, n - 1, digest, w);
      var before, e := After(t, run, hash, n - 1), run[n - 1];
      if e.LooksUp? {
        LookupAgrees(before, e.digest, e.w, hash);
      }
    }
    LookupAgrees(After(t, run, hash, n), digest, w, hash);
  }

  /** A lookup never spoils the shared tier: whatever it holds afterwards was there before or has the
      digest its key names, and the only entry that may be gone held bytes without their digest. */
  lemma RemoteNeverSpoilt(t: Tiers, digest: string, w: Weather, hash: Hash, key: string)
    requires Honest(w, digest, hash) && t.remote.Some?
    ensures var after := LookedUp(t, digest, w, hash).tiers.remote;
            && after.Some?
            && (key in after.value ==>
                  (key in t.remote.value && after.value[key] == t.remote.value[key])
                  || (Key(INPUTS, digest) == Ok(key) && hash(after.value[key]) == digest))
            && (key in t.remote.value && key !in after.value ==>
                  Key(INPUTS, digest) == Ok(key) && hash(t.remote.value[key]) != digest)
  {
    hide Key;
  }
}
