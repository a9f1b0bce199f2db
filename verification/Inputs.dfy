/** What an image is assembled from (internal/oci/assemble.go): layer inputs, config and platforms. */
module Inputs {
  import opened Strings

  /** The fields of one layer entry that exist before anything is fetched. */
  datatype LayerInput = LayerInput(
    name: string, identity: string, url: string, digest: string, unpack: string, subpath: string,
    strip: int, target: string, remove: seq<string>, uid: int, gid: int, fileMode: int, dirMode: int)
  {
    /** What the hash treats as this entry's content. */
    function Identity(): string {
      if identity != "" then identity else digest
    }
  }

  datatype ImageConfig = ImageConfig(
    inherit: bool, labels: map<string, string>, env: seq<string>, entrypoint: seq<string>, cmd: seq<string>,
    user: string, workingDir: string, exposedPorts: seq<string>, volumes: seq<string>, stopSignal: string)

  datatype Platform = Platform(os: string, arch: string, variant: string)
  {
    function String(): string {
      if variant != "" then os + "/" + arch + "/" + variant else os + "/" + arch
    }
  }

  function ParsePlatform(s: string): Option<Platform> {
    var parts := Split(s, '/');
    if |parts| == 2 then Some(Platform(parts[0], parts[1], ""))
    else if |parts| == 3 then Some(Platform(parts[0], parts[1], parts[2]))
    else None
  }

  /** The shape of every parsed platform: no slash in any part. */
  predicate Parsed(p: Platform) {
    '/' !in p.os && '/' !in p.arch && '/' !in p.variant
  }

  function PlatformParts(p: Platform): seq<string> {
    if p.variant != "" then [p.os, p.arch, p.variant] else [p.os, p.arch]
  }

  lemma StringIsJoin(p: Platform)
    ensures p.String() == Join(PlatformParts(p), '/')
  {
    JoinConcat([p.os], [p.arch], '/');
    assert [p.os] + [p.arch] == [p.os, p.arch];
    if p.variant != "" {
      JoinConcat([p.os, p.arch], [p.variant], '/');
      assert [p.os, p.arch] + [p.variant] == [p.os, p.arch, p.variant];
    }
  }

  /** Printing a parsed platform and parsing it again gives it back. */
  lemma ParseString(p: Platform)
    requires Parsed(p)
    ensures ParsePlatform(p.String()) == Some(p)
  {
    StringIsJoin(p);
    SplitJoin(PlatformParts(p), '/');
  }

  /** What is a platform, exactly: two parts or three with one slash between them, none holding a slash.
      An empty third part reads as no variant. */
  lemma ParseExactly(s: string, p: Platform)
    ensures ParsePlatform(s) == Some(p) <==>
            && Parsed(p)
            && ((p.variant == "" && s == p.os + "/" + p.arch) || s == p.os + "/" + p.arch + "/" + p.variant)
  {
    hide Join, Split;
    TwoOrThree(p);
    JoinSplit(s, '/');
    if Parsed(p) {
      SplitJoin([p.os, p.arch], '/');
      SplitJoin([p.os, p.arch, p.variant], '/');
    }
    ParsedIsParsed(s);
    var parts := Split(s, '/');
    if ParsePlatform(s) == Some(p) {
      assert |parts| == 2 ==> parts == [p.os, p.arch];
      assert |parts| == 3 ==> parts == [p.os, p.arch, p.variant];
    }
  }

  lemma TwoOrThree(p: Platform)
    ensures Join([p.os, p.arch], '/') == p.os + "/" + p.arch
    ensures Join([p.os, p.arch, p.variant], '/') == p.os + "/" + p.arch + "/" + p.variant
  {
    JoinConcat([p.os], [p.arch], '/');
    assert [p.os] + [p.arch] == [p.os, p.arch];
    JoinConcat([p.os, p.arch], [p.variant], '/');
    assert [p.os, p.arch] + [p.variant] == [p.os, p.arch, p.variant];
  }

  lemma ParsedIsParsed(s: string)
    ensures ParsePlatform(s).Some? ==> Parsed(ParsePlatform(s).value)
  {
    var parts := Split(s, '/');
    assert forall i :: 0 <= i < |parts| ==> parts[i] in parts;
  }

  lemma PlatformStringInjective(p: Platform, q: Platform)
    requires Parsed(p) && Parsed(q) && p.String() == q.String()
    ensures p == q
  {
    ParseString(p);
    ParseString(q);
  }

  datatype PlatformError = NotAPlatform(s: string) | ListedTwice(p: Platform)

  function PlatformStrings(ps: seq<Platform>): seq<string> {
    seq(|ps|, i requires 0 <= i < |ps| => ps[i].String())
  }

  /** spec.platforms, parsed, none of them twice (internal/controller/platforms.go). */
  method DeclaredPlatforms(declared: seq<string>) returns (r: Result<seq<Platform>, PlatformError>)
    ensures r.Ok? ==>
              && |r.value| == |declared|
              && (forall i :: 0 <= i < |declared| ==> ParsePlatform(declared[i]) == Some(r.value[i]))
              && NoDuplicates(r.value) && (forall i :: 0 <= i < |r.value| ==> Parsed(r.value[i]))
    ensures r.Err? ==>
              || (exists i :: 0 <= i < |declared| && ParsePlatform(declared[i]).None?)
              || (exists i, j :: 0 <= i < j < |declared| && ParsePlatform(declared[i]) == ParsePlatform(declared[j]))
  {
    hide ParsePlatform, Parsed;
    var out: seq<Platform> := [];
    var seen: set<string> := {};
    for n := 0 to |declared|
      invariant |out| == n && NoDuplicates(out)
      invariant forall i :: 0 <= i < n ==> ParsePlatform(declared[i]) == Some(out[i]) && Parsed(out[i])
      invariant seen == set i | 0 <= i < n :: out[i].String()
    {
      var parsed := ParsePlatform(declared[n]);
      if parsed.None? {
        return Err(NotAPlatform(declared[n]));
      }
      var p := parsed.value;
      ParsedIsParsed(declared[n]);
      if p.String() in seen {
        var i :| 0 <= i < n && out[i].String() == p.String();
        PlatformStringInjective(out[i], p);
        return Err(ListedTwice(p));
      }
      seen := seen + {p.String()};
      out := out + [p];
    }
    return Ok(out);
  }
}
