/** Assembling images from layer inputs (internal/oci/assemble.go). Decoding is not modelled: a World
    says what each content, named by its identity, decodes to. */
module Assembly {
  import opened Strings
  import opened Paths
  import opened Archive
  import opened Extract
  import opened Layers
  import opened Contents
  import opened Zip
  import opened Inputs

  // ---------- Images ----------

  datatype Layer = Reused(digest: string) | Built(tar: seq<Header>)

  /** The runtime part of a config; extra stands for the fields no composition sets. */
  datatype RunConfig = RunConfig(
    labels: map<string, string>, env: seq<string>, entrypoint: seq<string>, cmd: seq<string>, user: string,
    workingDir: string, stopSignal: string, exposedPorts: set<string>, volumes: set<string>, extra: string)

  datatype ConfigFile = ConfigFile(
    os: string, arch: string, variant: string, created: int,
    author: string, history: nat, run: RunConfig, extra: string)

  /** files is the flattened file system, None when it cannot be read. */
  datatype Image = Image(layers: seq<Layer>, config: ConfigFile, files: Option<seq<Item>>)

  datatype Manifest = Single(image: Image) | Index(child: Platform -> Option<Image>)

  /** What content decodes to, by its identity and unpack mode; None when it does not decode. */
  datatype World = World(
    tar: (string, string) -> Option<seq<Item>>,
    zip: string -> Option<seq<ZipEntry>>,
    bytes: (string, string) -> Option<string>,
    manifest: string -> Manifest)

  const NO_RUN := RunConfig(map[], [], [], [], "", "", "", {}, {}, "")
  const NO_CONFIG := ConfigFile("", "", "", 0, "", 0, NO_RUN, "")

  // ---------- One layer's entries ----------

  datatype LayerError =
    | RemovesRoot
    | Extracting(error: ExtractError)
    | TargetNotFile
    | SubpathWithoutArchive
    | UnreadableContent
    | UnsupportedUnpack(mode: string)

  /** Where an input's content comes from, once pulled. */
  datatype Source = Nothing | Fetched | OfImage(image: Image) | OfImages(images: map<Platform, Image>)

  function TargetElements(target: string): seq<string> {
    Components("/" + target)
  }

  function RelativeTarget(target: string): string {
    TrimPrefix(Clean("/" + target), "/")
  }

  function ConfigFor(l: LayerInput): Config {
    Config(TargetElements(l.target), l.strip, Components("/" + l.subpath), l.subpath)
  }

  lemma RelativeTargetIs(target: string)
    ensures Plain(TargetElements(target)) && RelativeTarget(target) == Join(TargetElements(target), '/')
  {
    RootedComponents(target);
    assert ("/" + Join(TargetElements(target), '/'))[1..] == Join(TargetElements(target), '/');
  }

  /** The whiteout that hides a path: its last element behind ".wh.". */
  function Whiteout(cs: seq<string>): TarEntry
    requires cs != []
  {
    var n := |cs| - 1;
    TarEntry(Join(cs[..n] + [".wh." + cs[n]], '/'), FILE_MODE, "", false, "")
  }

  function RemovalsTo(remove: seq<string>, n: nat): Result<seq<TarEntry>, LayerError>
    requires n <= |remove|
  {
    if n == 0 then Ok([])
    else match RemovalsTo(remove, n - 1)
      case Err(e) => Err(e)
      case Ok(out) =>
        var cs := Components("/" + remove[n - 1]);
        if cs == [] then Err(RemovesRoot) else Ok(out + [Whiteout(cs)])
  }

  function Unwrap<T>(r: Result<T, ExtractError>): Result<T, LayerError> {
    match r case Ok(v) => Ok(v) case Err(e) => Err(Extracting(e))
  }

  function ParentEntries(name: string): seq<TarEntry> {
    seq(|ParentNames(name)|, i requires 0 <= i < |ParentNames(name)| => DirEntry(ParentNames(name)[i]))
  }

  function SingleEntries(l: LayerInput, codec: string, body: Option<string>): Result<seq<TarEntry>, LayerError> {
    var target := RelativeTarget(l.target);
    if target == "" || HasSuffix(l.target, "/") then Err(TargetNotFile)
    else if codec != "" && l.subpath != "" then Err(SubpathWithoutArchive)
    else match body
      case None => Err(UnreadableContent)
      case Some(b) => Ok(ParentEntries(target) + [TarEntry(target, FILE_MODE, b, false, "")])
  }

  function TarOf(l: LayerInput, items: Option<seq<Item>>): Result<seq<TarEntry>, LayerError> {
    match items
    case None => Err(UnreadableContent)
    case Some(decoded) => Unwrap(TarEntries(ConfigFor(l), decoded))
  }

  predicate TarMode(unpack: string) {
    unpack in ["tar", "tar.gz", "tar.xz", "tar.zst", "tar.bz2"]
  }

  function Collect(w: World, l: LayerInput, src: Source): Result<seq<TarEntry>, LayerError> {
    if l.remove != [] then RemovalsTo(l.remove, |l.remove|)
    else if src.OfImage? then TarOf(l, src.image.files)
    else if TarMode(l.unpack) || l.unpack == "deb" then TarOf(l, w.tar(l.Identity(), l.unpack))
    else if l.unpack == "none" || l.unpack == "" then SingleEntries(l, "", w.bytes(l.Identity(), l.unpack))
    else if l.unpack == "gz" then SingleEntries(l, "gz", w.bytes(l.Identity(), l.unpack))
    else if l.unpack == "zip" then
      (match w.zip(l.Identity()) case None => Err(UnreadableContent)
       case Some(es) => Unwrap(ZipEntries(ConfigFor(l), es)))
    else Err(UnsupportedUnpack(l.unpack))
  }

  function StampOf(l: LayerInput): Stamp {
    Stamp(l.uid, l.gid, l.fileMode, l.dirMode)
  }

  function BuildOf(w: World, l: LayerInput, src: Source): Result<Layer, LayerError> {
    match Collect(w, l, src)
    case Err(e) => Err(e)
    case Ok(es) => Ok(Built(LayerOf(StampOf(l), es)))
  }

  method RemoveEntries(remove: seq<string>) returns (r: Result<seq<TarEntry>, LayerError>)
    ensures r == RemovalsTo(remove, |remove|)
  {
    hide RelativeTarget, SplitDir, SplitBase, RemovalsTo;
    var out: seq<TarEntry> := [];
    NoRemovals(remove);
    for n := 0 to |remove|
      invariant RemovalsTo(remove, n) == Ok(out)
    {
      var clean := RelativeTarget(remove[n]);
      RemovalStep(remove, n, out);
      if clean == "" || clean == "." {
        RemovalFails(remove, n + 1, |remove|);
        return Err(RemovesRoot);
      }
      out := out + [TarEntry(SplitDir(clean) + ".wh." + SplitBase(clean), FILE_MODE, "", false, "")];
    }
    return Ok(out);
  }

  lemma NoRemovals(remove: seq<string>)
    ensures RemovalsTo(remove, 0) == Ok([])
  {
  }

  lemma RemovalStep(remove: seq<string>, n: nat, out: seq<TarEntry>)
    requires n < |remove| && RemovalsTo(remove, n) == Ok(out)
    ensures var clean := RelativeTarget(remove[n]);
            RemovalsTo(remove, n + 1) ==
              if clean == "" || clean == "." then Err(RemovesRoot)
              else Ok(out + [TarEntry(SplitDir(clean) + ".wh." + SplitBase(clean), FILE_MODE, "", false, "")])
  {
    hide Components, Whiteout, RelativeTarget, SplitDir, SplitBase;
    RemovalName(remove[n]);
  }

  lemma {:induction false} RemovalFails(remove: seq<string>, m: nat, n: nat)
    requires m <= n <= |remove| && RemovalsTo(remove, m).Err?
    ensures RemovalsTo(remove, n) == RemovalsTo(remove, m)
  {
    hide Components, Whiteout;
    if m < n {
      RemovalFails(remove, m, n - 1);
    }
  }

  lemma WhiteoutTop(c: string)
    requires '/' !in c
    ensures Whiteout([c]).name == SplitDir(c) + ".wh." + SplitBase(c)
  {
    hide Join;
    LastIndexOfAbsent(c, '/');
    NothingBefore(c, ".wh." + c);
    JoinOne(".wh." + c);
    assert c[..0] == "" && c[0..] == c;
  }

  lemma NothingBefore(c: string, d: string)
    ensures [c][..0] + [d] == [d]
  {
  }

  lemma WhiteoutBelow(init: seq<string>, c: string)
    requires init != [] && '/' !in c
    ensures Whiteout(init + [c]).name == SplitDir(Join(init + [c], '/')) + ".wh." + SplitBase(Join(init + [c], '/'))
  {
    hide SplitDir, SplitBase, Join;
    LastSlash(init, c);
    JoinConcat(init, [".wh." + c], '/');
    JoinOne(".wh." + c);
    assert (init + [c])[..|init|] == init;
  }

  lemma JoinOne(c: string)
    ensures Join([c], '/') == c
  {
  }

  lemma RemovalName(p: string)
    ensures var cs := Components("/" + p);
            var clean := RelativeTarget(p);
            && (clean == "" || clean == "." <==> cs == [])
            && (cs != [] ==>
                  Whiteout(cs) == TarEntry(SplitDir(clean) + ".wh." + SplitBase(clean), FILE_MODE, "", false, ""))
  {
    hide Components, Clean, Join, SplitDir, SplitBase;
    RelativeTargetIs(p);
    var cs := Components("/" + p);
    EmptyTarget(cs);
    if cs != [] {
      DotIsNotJoined(cs);
      var n := |cs| - 1;
      if n == 0 {
        assert cs == [cs[0]];
        JoinOne(cs[0]);
        WhiteoutTop(cs[0]);
      } else {
        assert cs == cs[..n] + [cs[n]];
        WhiteoutBelow(cs[..n], cs[n]);
      }
    }
  }

  lemma HiddenElement(c: string)
    requires Element(c)
    ensures Element(".wh." + c) && ".wh." + c != ".."
  {
    assert |".wh." + c| > 4;
  }

  /** A whiteout names a proper path, in the directory of what it hides. */
  lemma WhiteoutPlain(p: string)
    requires Components("/" + p) != []
    ensures var cs := Components("/" + p);
            && PlainName(Whiteout(cs).name)
            && Components(Whiteout(cs).name) == cs[..|cs| - 1] + [".wh." + cs[|cs| - 1]]
  {
    hide Components, Join;
    RootedComponents(p);
    var cs := Components("/" + p);
    var n := |cs| - 1;
    var hidden := cs[..n] + [".wh." + cs[n]];
    HiddenElement(cs[n]);
    forall i | 0 <= i < |hidden| ensures Element(hidden[i]) && hidden[i] != ".." {
    }
    ComponentsOfJoin(hidden);
  }

  method SingleFile(l: LayerInput, codec: string, body: Option<string>) returns (r: Result<seq<TarEntry>, LayerError>)
    ensures r == SingleEntries(l, codec, body)
  {
    hide Components, Clean, ParentNames;
    var target := RelativeTarget(l.target);
    if target == "" || HasSuffix(l.target, "/") {
      return Err(TargetNotFile);
    }
    if codec != "" && l.subpath != "" {
      return Err(SubpathWithoutArchive);
    }
    match body {
      case None => return Err(UnreadableContent);
      case Some(b) =>
        var parents := ParentDirs(target);
        assert parents == ParentEntries(target);
        return Ok(parents + [TarEntry(target, FILE_MODE, b, false, "")]);
    }
  }

  method CollectEntries(w: World, l: LayerInput, src: Source) returns (r: Result<seq<TarEntry>, LayerError>)
    ensures r == Collect(w, l, src)
  {
    hide Components, Clean, TarEntries, ZipEntries, RemovalsTo, SingleEntries;
    if |l.remove| > 0 {
      r := RemoveEntries(l.remove);
      return;
    }
    var target := RelativeTarget(l.target);
    RelativeTargetIs(l.target);
    ghost var elements := TargetElements(l.target);
    if src.OfImage? {
      if src.image.files.None? {
        return Err(UnreadableContent);
      }
      var flat := ExtractTar(src.image.files.value, target, l.subpath, l.strip, elements);
      return Unwrap(flat);
    }
    if TarMode(l.unpack) || l.unpack == "deb" {
      var items := w.tar(l.Identity(), l.unpack);
      if items.None? {
        return Err(UnreadableContent);
      }
      var es := ExtractTar(items.value, target, l.subpath, l.strip, elements);
      return Unwrap(es);
    }
    if l.unpack == "none" || l.unpack == "" {
      r := SingleFile(l, "", w.bytes(l.Identity(), l.unpack));
    } else if l.unpack == "gz" {
      r := SingleFile(l, "gz", w.bytes(l.Identity(), l.unpack));
    } else if l.unpack == "zip" {
      var zip := w.zip(l.Identity());
      if zip.None? {
        return Err(UnreadableContent);
      }
      var es := ExtractZip(zip.value, target, l.subpath, l.strip, elements);
      return Unwrap(es);
    } else {
      r := Err(UnsupportedUnpack(l.unpack));
    }
  }

  method BuildLayer(w: World, l: LayerInput, src: Source) returns (r: Result<Layer, LayerError>)
    ensures r == BuildOf(w, l, src)
  {
    hide Collect, LayerOf;
    var entries := CollectEntries(w, l, src);
    match entries {
      case Err(e) => return Err(e);
      case Ok(es) =>
        var tar := WriteLayer(StampOf(l), es);
        return Ok(Built(tar));
    }
  }

  /** The headers of a built layer carry the owner and the modes of its own input, and each is written
      for the first entry that its content puts under that name. */
  lemma BuiltHeaders(w: World, l: LayerInput, src: Source)
    ensures BuildOf(w, l, src).Ok? <==> Collect(w, l, src).Ok?
    ensures BuildOf(w, l, src).Ok? ==>
              && BuildOf(w, l, src).value.Built?
              && forall k :: 0 <= k < |BuildOf(w, l, src).value.tar| ==>
                   && WrittenFor(BuildOf(w, l, src).value.tar[k], Collect(w, l, src).value,
                                 Stamp(l.uid, l.gid, l.fileMode, l.dirMode))
                   && BuildOf(w, l, src).value.tar[k].uid == l.uid && BuildOf(w, l, src).value.tar[k].gid == l.gid
  {
    hide Collect, LayerOf, WrittenFor;
    if Collect(w, l, src).Ok? {
      LayerIs(StampOf(l), Collect(w, l, src).value);
      OwnersAre(StampOf(l), Collect(w, l, src).value);
    }
  }

  lemma OwnersAre(stamp: Stamp, es: seq<TarEntry>)
    ensures forall k :: 0 <= k < |LayerOf(stamp, es)| ==>
              LayerOf(stamp, es)[k].uid == stamp.uid && LayerOf(stamp, es)[k].gid == stamp.gid
  {
    hide Emitted;
  }

  // ---------- Every platform's layers ----------

  datatype Pulled = Pulled(input: LayerInput, source: Source)

  datatype AssembleError =
    | LayerFailed(error: LayerError)
    | NoImageFor(p: Platform)
    | NoPlatforms
    | NoBaseFor(p: Platform)
    | InheritWithoutBase

  /** The source of one input on one platform. */
  function SourceFor(x: Pulled, p: Platform): Option<Source> {
    if !x.source.OfImages? then Some(x.source)
    else if p in x.source.images then Some(OfImage(x.source.images[p]))
    else None
  }

  /** The layer of one input on one platform. */
  function LayerFor(w: World, x: Pulled, p: Platform): Result<Layer, AssembleError> {
    match SourceFor(x, p)
    case None => Err(NoImageFor(p))
    case Some(src) => match BuildOf(w, x.input, src) case Ok(layer) => Ok(layer) case Err(e) => Err(LayerFailed(e))
  }

  /** Every layer any of the platforms needs can be built. */
  predicate AllBuild(w: World, xs: seq<Pulled>, ps: seq<Platform>) {
    && (forall i :: 0 <= i < |xs| && !xs[i].source.OfImages? ==> BuildOf(w, xs[i].input, xs[i].source).Ok?)
    && (forall i, j :: 0 <= i < |xs| && 0 <= j < |ps| ==> LayerFor(w, xs[i], ps[j]).Ok?)
  }

  function Repeat<T>(x: T, n: nat): seq<T> {
    seq(n, i => x)
  }

  /** A platform's layers after the first n inputs, when it is listed `times` times. */
  function Column(w: World, xs: seq<Pulled>, p: Platform, times: nat, n: nat): seq<Layer>
    requires n <= |xs| && forall i :: 0 <= i < n ==> LayerFor(w, xs[i], p).Ok?
  {
    if n == 0 then [] else Column(w, xs, p, times, n - 1) + Repeat(LayerFor(w, xs[n - 1], p).value, times)
  }

  function Occurrences(ps: seq<Platform>, p: Platform, n: nat): nat
    requires n <= |ps|
  {
    if n == 0 then 0 else Occurrences(ps, p, n - 1) + if ps[n - 1] == p then 1 else 0
  }

  /** A platform listed once has one layer per input, in input order; listed more often, each layer
      that often. */
  lemma {:induction false} ColumnIs(w: World, xs: seq<Pulled>, p: Platform, times: nat, n: nat)
    requires n <= |xs| && forall i :: 0 <= i < n ==> LayerFor(w, xs[i], p).Ok?
    ensures |Column(w, xs, p, times, n)| == times * n
    ensures times == 1 ==> forall i :: 0 <= i < n ==> Column(w, xs, p, times, n)[i] == LayerFor(w, xs[i], p).value
  {
    hide LayerFor;
    if n > 0 {
      ColumnIs(w, xs, p, times, n - 1);
      assert times * n == times * (n - 1) + times;
    }
  }

  lemma {:induction false} OccursOnce(ps: seq<Platform>, k: nat, n: nat)
    requires k < |ps| && n <= |ps| && NoDuplicates(ps)
    ensures Occurrences(ps, ps[k], n) == if k < n then 1 else 0
  {
    if n > 0 {
      OccursOnce(ps, k, n - 1);
    }
  }

  /** The lists under construction: after n inputs, and after the first m platforms of the next one. */
  ghost predicate Filled(w: World, xs: seq<Pulled>, ps: seq<Platform>, n: nat, m: nat, out: map<Platform, seq<Layer>>) {
    && n <= |xs| && m <= |ps| && (m > 0 ==> n < |xs|)
    && out.Keys == (set p | p in ps)
    && (forall i, j :: 0 <= i < n && 0 <= j < |ps| ==> LayerFor(w, xs[i], ps[j]).Ok?)
    && (forall j :: 0 <= j < m ==> LayerFor(w, xs[n], ps[j]).Ok?)
    && (forall k :: 0 <= k < |ps| ==>
          out[ps[k]] == Column(w, xs, ps[k], Occurrences(ps, ps[k], |ps|), n)
                        + Partial(w, xs, ps, ps[k], n, m))
  }

  function Partial(w: World, xs: seq<Pulled>, ps: seq<Platform>, p: Platform, n: nat, m: nat): seq<Layer>
    requires n <= |xs| && m <= |ps|
  {
    if m == 0 || n == |xs| || LayerFor(w, xs[n], p).Err? then []
    else Repeat(LayerFor(w, xs[n], p).value, Occurrences(ps, p, m))
  }

  lemma FilledAppend(w: World, xs: seq<Pulled>, ps: seq<Platform>, n: nat, m: nat, out: map<Platform, seq<Layer>>,
                     layer: Layer)
    requires Filled(w, xs, ps, n, m, out) && n < |xs| && m < |ps|
    requires LayerFor(w, xs[n], ps[m]) == Ok(layer)
    ensures ps[m] in out && Filled(w, xs, ps, n, m + 1, out[ps[m] := out[ps[m]] + [layer]])
  {
    hide LayerFor, Column, Partial, Occurrences;
    var p := ps[m];
    assert p in ps;
    var after := out[p := out[p] + [layer]];
    assert after.Keys == out.Keys;
    forall k | 0 <= k < |ps|
      ensures after[ps[k]] == Column(w, xs, ps[k], Occurrences(ps, ps[k], |ps|), n)
              + Partial(w, xs, ps, ps[k], n, m + 1)
    {
      PartialNext(w, xs, ps, ps[k], n, m);
      assert after[ps[k]] == out[ps[k]] + if p == ps[k] then [layer] else [];
    }
  }

  lemma PartialNext(w: World, xs: seq<Pulled>, ps: seq<Platform>, p: Platform, n: nat, m: nat)
    requires n < |xs| && m < |ps| && LayerFor(w, xs[n], ps[m]).Ok?
    ensures Partial(w, xs, ps, p, n, m + 1) ==
            Partial(w, xs, ps, p, n, m) + if ps[m] == p then [LayerFor(w, xs[n], p).value] else []
  {
    hide LayerFor;
    if LayerFor(w, xs[n], p).Ok? {
      var layer := LayerFor(w, xs[n], p).value;
      var times := Occurrences(ps, p, m);
      assert Partial(w, xs, ps, p, n, m) == Repeat(layer, times) by {
        assert m == 0 ==> Repeat(layer, 0) == [];
      }
      if ps[m] == p {
        assert Repeat(layer, times) + [layer] == Repeat(layer, times + 1);
      }
    }
  }

  lemma FilledNext(w: World, xs: seq<Pulled>, ps: seq<Platform>, n: nat, out: map<Platform, seq<Layer>>)
    requires Filled(w, xs, ps, n, |ps|, out) && n < |xs|
    ensures Filled(w, xs, ps, n + 1, 0, out)
  {
    hide LayerFor;
    forall k | 0 <= k < |ps| ensures out[ps[k]] == Column(w, xs, ps[k], Occurrences(ps, ps[k], |ps|), n + 1) {
      assert ps[k] in ps;
    }
  }

  lemma FilledNone(w: World, xs: seq<Pulled>, ps: seq<Platform>, out: map<Platform, seq<Layer>>)
    requires out.Keys == (set p | p in ps) && forall p :: p in out ==> out[p] == []
    ensures Filled(w, xs, ps, 0, 0, out)
  {
    hide LayerFor;
    assert forall k :: 0 <= k < |ps| ==> ps[k] in ps;
  }

  /** An input is built once and shared by every list, except one with an image per platform. */
  method BuildLayers(w: World, xs: seq<Pulled>,
                     ps: seq<Platform>) returns (r: Result<map<Platform, seq<Layer>>, AssembleError>)
    ensures r.Ok? <==> AllBuild(w, xs, ps)
    ensures r.Ok? ==> Filled(w, xs, ps, |xs|, 0, r.value)
  {
    hide LayerFor, BuildOf, Filled, AllBuild;
    var out: map<Platform, seq<Layer>> := map p | p in ps :: [];
    FilledNone(w, xs, ps, out);
    for n := 0 to |xs|
      invariant Filled(w, xs, ps, n, 0, out)
      invariant forall i :: 0 <= i < n && !xs[i].source.OfImages? ==> BuildOf(w, xs[i].input, xs[i].source).Ok?
    {
      var x := xs[n];
      if !x.source.OfImages? {
        var built := BuildLayer(w, x.input, x.source);
        if built.Err? {
          NotAllBuild(w, xs, ps, n);
          return Err(LayerFailed(built.error));
        }
        for m := 0 to |ps|
          invariant Filled(w, xs, ps, n, m, out)
        {
          SharedLayer(w, x, ps[m]);
          FilledAppend(w, xs, ps, n, m, out, built.value);
          out := out[ps[m] := out[ps[m]] + [built.value]];
        }
      } else {
        for m := 0 to |ps|
          invariant Filled(w, xs, ps, n, m, out)
        {
          var p := ps[m];
          if p !in x.source.images {
            NotAllBuildOn(w, xs, ps, n, m);
            return Err(NoImageFor(p));
          }
          var built := BuildLayer(w, x.input, OfImage(x.source.images[p]));
          OwnLayer(w, x, p);
          if built.Err? {
            NotAllBuildOn(w, xs, ps, n, m);
            return Err(LayerFailed(built.error));
          }
          FilledAppend(w, xs, ps, n, m, out, built.value);
          out := out[p := out[p] + [built.value]];
        }
      }
      FilledNext(w, xs, ps, n, out);
    }
    AllBuilt(w, xs, ps, out);
    return Ok(out);
  }

  lemma SharedLayer(w: World, x: Pulled, p: Platform)
    requires !x.source.OfImages? && BuildOf(w, x.input, x.source).Ok?
    ensures LayerFor(w, x, p) == Ok(BuildOf(w, x.input, x.source).value)
  {
    hide BuildOf;
  }

  lemma OwnLayer(w: World, x: Pulled, p: Platform)
    requires x.source.OfImages?
    ensures p !in x.source.images ==> LayerFor(w, x, p).Err?
    ensures p in x.source.images ==>
              var b := BuildOf(w, x.input, OfImage(x.source.images[p]));
              LayerFor(w, x, p) == match b case Ok(layer) => Ok(layer) case Err(e) => Err(LayerFailed(e))
  {
    hide BuildOf;
  }

  lemma NotAllBuild(w: World, xs: seq<Pulled>, ps: seq<Platform>, n: nat)
    requires n < |xs| && !xs[n].source.OfImages? && BuildOf(w, xs[n].input, xs[n].source).Err?
    ensures !AllBuild(w, xs, ps)
  {
    hide BuildOf, LayerFor;
  }

  lemma NotAllBuildOn(w: World, xs: seq<Pulled>, ps: seq<Platform>, n: nat, m: nat)
    requires n < |xs| && m < |ps| && xs[n].source.OfImages?
    requires ps[m] !in xs[n].source.images || BuildOf(w, xs[n].input, OfImage(xs[n].source.images[ps[m]])).Err?
    ensures !AllBuild(w, xs, ps)
  {
    hide BuildOf, LayerFor;
    OwnLayer(w, xs[n], ps[m]);
    assert LayerFor(w, xs[n], ps[m]).Err?;
  }

  lemma AllBuilt(w: World, xs: seq<Pulled>, ps: seq<Platform>, out: map<Platform, seq<Layer>>)
    requires Filled(w, xs, ps, |xs|, 0, out)
    requires forall i :: 0 <= i < |xs| && !xs[i].source.OfImages? ==> BuildOf(w, xs[i].input, xs[i].source).Ok?
    ensures AllBuild(w, xs, ps)
  {
    hide BuildOf, LayerFor, Column, Partial;
  }

  // ---------- One image ----------

  function ToSet(items: seq<string>): set<string> {
    set i | i in items
  }

  /** Each run field the config states replaces what was there. */
  function Overridden(run: RunConfig, c: ImageConfig): RunConfig {
    RunConfig(
      if |c.labels| > 0 then c.labels else run.labels,
      if c.env != [] then c.env else run.env,
      if c.entrypoint != [] then c.entrypoint else run.entrypoint,
      if c.cmd != [] then c.cmd else run.cmd,
      if c.user != "" then c.user else run.user,
      if c.workingDir != "" then c.workingDir else run.workingDir,
      if c.stopSignal != "" then c.stopSignal else run.stopSignal,
      if c.exposedPorts != [] then ToSet(c.exposedPorts) else run.exposedPorts,
      if c.volumes != [] then ToSet(c.volumes) else run.volumes,
      run.extra)
  }

  /** The base's layers first, then the built ones; the platform as told, and a config that is the
      base's only when inherited. */
  function Stacked(base: Option<Image>, layers: seq<Layer>, c: ImageConfig, p: Platform): Image {
    var below := match base case None => NO_CONFIG case Some(b) => b.config;
    var run := if c.inherit then below.run else NO_RUN;
    Image((match base case None => [] case Some(b) => b.layers) + layers,
          ConfigFile(p.os, p.arch, p.variant, 0, "", 0, Overridden(run, c), below.extra), None)
  }

  method StateRun(below: RunConfig, c: ImageConfig) returns (run: RunConfig)
    ensures run == Overridden(below, c)
  {
    hide ToSet;
    var labels, env, entrypoint, cmd := below.labels, below.env, below.entrypoint, below.cmd;
    var user, workingDir, stopSignal := below.user, below.workingDir, below.stopSignal;
    var exposedPorts, volumes := below.exposedPorts, below.volumes;
    if |c.labels| > 0 { labels := c.labels; }
    if |c.env| > 0 { env := c.env; }
    if |c.entrypoint| > 0 { entrypoint := c.entrypoint; }
    if |c.cmd| > 0 { cmd := c.cmd; }
    if c.user != "" { user := c.user; }
    if c.workingDir != "" { workingDir := c.workingDir; }
    if c.stopSignal != "" { stopSignal := c.stopSignal; }
    if |c.exposedPorts| > 0 { exposedPorts := ToSet(c.exposedPorts); }
    if |c.volumes| > 0 { volumes := ToSet(c.volumes); }
    run := RunConfig(labels, env, entrypoint, cmd, user, workingDir, stopSignal, exposedPorts, volumes, below.extra);
  }

  method AssembleFor(base: Option<Image>, layers: seq<Layer>, c: ImageConfig,
                     p: Platform) returns (r: Result<Image, AssembleError>)
    ensures r == if c.inherit && base.None? then Err(InheritWithoutBase) else Ok(Stacked(base, layers, c, p))
  {
    hide Overridden;
    var stack: seq<Layer> := [];
    var cf := NO_CONFIG;
    if base.Some? {
      stack, cf := base.value.layers, base.value.config;
    }
    ghost var below := stack;
    for i := 0 to |layers|
      invariant stack == below + layers[..i]
    {
      assert layers[..i + 1] == layers[..i] + [layers[i]];
      stack := stack + [layers[i]];
    }
    assert layers[..|layers|] == layers;
    if c.inherit {
      if base.None? {
        return Err(InheritWithoutBase);
      }
      cf := base.value.config;
    } else if base.Some? {
      cf := cf.(run := NO_RUN);
    }
    cf := cf.(created := 0, author := "", os := p.os, arch := p.arch, variant := p.variant);
    var run := StateRun(cf.run, c);
    cf := cf.(run := run, history := 0);
    return Ok(Image(stack, cf, None));
  }

  /** The layers of one platform, one per input. */
  function LayersFor(w: World, xs: seq<Pulled>, p: Platform): seq<Layer>
    requires AllBuild(w, xs, [p])
  {
    hide LayerFor, BuildOf;
    AllBuildEach(w, xs, p);
    Column(w, xs, p, 1, |xs|)
  }

  lemma AllBuildEach(w: World, xs: seq<Pulled>, p: Platform)
    requires AllBuild(w, xs, [p])
    ensures forall i :: 0 <= i < |xs| ==> LayerFor(w, xs[i], p).Ok?
  {
    hide LayerFor, BuildOf;
    forall i | 0 <= i < |xs| ensures LayerFor(w, xs[i], p).Ok? {
      assert LayerFor(w, xs[i], [p][0]).Ok?;
    }
  }

  /** A single-platform build; which layer failed is not told apart. */
  function SingleBuild(w: World, base: Option<Image>, xs: seq<Pulled>, c: ImageConfig, p: Platform): Option<Image> {
    if !AllBuild(w, xs, [p]) || (c.inherit && base.None?) then None
    else Some(Stacked(base, LayersFor(w, xs, p), c, p))
  }

  /** The set of what is listed, or the one below when nothing is. */
  ghost predicate Lists(s: set<string>, listed: seq<string>, under: set<string>) {
    forall x :: x in s <==> if |listed| > 0 then x in listed else x in under
  }

  lemma ListsIs(listed: seq<string>, under: set<string>)
    ensures Lists(if listed != [] then ToSet(listed) else under, listed, under)
  {
  }

  /** Each field is the one the spec states; one it leaves out is the inherited one, or empty when
      nothing is inherited. Ports and volumes are sets of what is listed. */
  ghost predicate Configured(run: RunConfig, c: ImageConfig, inherited: Option<RunConfig>) {
    var under := if inherited.Some? then inherited.value else RunConfig(map[], [], [], [], "", "", "", {}, {}, "");
    && run.labels == (if |c.labels| > 0 then c.labels else under.labels)
    && run.env == (if |c.env| > 0 then c.env else under.env)
    && run.entrypoint == (if |c.entrypoint| > 0 then c.entrypoint else under.entrypoint)
    && run.cmd == (if |c.cmd| > 0 then c.cmd else under.cmd)
    && run.user == (if |c.user| > 0 then c.user else under.user)
    && run.workingDir == (if |c.workingDir| > 0 then c.workingDir else under.workingDir)
    && run.stopSignal == (if |c.stopSignal| > 0 then c.stopSignal else under.stopSignal)
    && Lists(run.exposedPorts, c.exposedPorts, under.exposedPorts)
    && Lists(run.volumes, c.volumes, under.volumes)
    && run.extra == under.extra
  }

  /** The base's layers at the bottom, in their order. */
  function BaseLayers(base: Option<Image>): seq<Layer> {
    if base.Some? then base.value.layers else []
  }

  lemma OverriddenIs(run: RunConfig, c: ImageConfig)
    ensures Configured(Overridden(run, c), c, Some(run))
    ensures run == NO_RUN ==> Configured(Overridden(run, c), c, None)
  {
    hide ToSet, Lists;
    ListsIs(c.exposedPorts, run.exposedPorts);
    ListsIs(c.volumes, run.volumes);
  }

  lemma StackedLayers(base: Option<Image>, layers: seq<Layer>, c: ImageConfig, p: Platform)
    ensures var all, n := Stacked(base, layers, c, p).layers, |BaseLayers(base)|;
            && |all| == n + |layers|
            && (forall i :: 0 <= i < n ==> all[i] == BaseLayers(base)[i])
            && (forall i :: 0 <= i < |layers| ==> all[n + i] == layers[i])
  {
    hide Overridden;
    assert Stacked(base, layers, c, p).layers == BaseLayers(base) + layers;
  }

  lemma StackedConfig(base: Option<Image>, layers: seq<Layer>, c: ImageConfig, p: Platform)
    requires c.inherit ==> base.Some?
    ensures var config := Stacked(base, layers, c, p).config;
            && Configured(config.run, c, if c.inherit then Some(base.value.config.run) else None)
            && config.os == p.os && config.arch == p.arch && config.variant == p.variant
            && config.created == 0 && config.author == "" && config.history == 0
            && config.extra == if base.Some? then base.value.config.extra else ""
  {
    hide Overridden, Configured;
    OverriddenIs(if c.inherit then base.value.config.run else NO_RUN, c);
  }

  lemma LayersAre(w: World, xs: seq<Pulled>, p: Platform)
    requires AllBuild(w, xs, [p])
    ensures |LayersFor(w, xs, p)| == |xs|
    ensures forall i :: 0 <= i < |xs| ==>
              LayerFor(w, xs[i], p).Ok? && LayersFor(w, xs, p)[i] == LayerFor(w, xs[i], p).value
  {
    hide LayerFor, AllBuild, Column;
    AllBuildEach(w, xs, p);
    ColumnIs(w, xs, p, 1, |xs|);
  }

  /** A build succeeds exactly when every input has a layer on the platform and there is a base to
      inherit from if inheriting is asked for. Its image is the base's layers, unchanged and in order,
      then one layer per input in input order, so a later input hides an earlier one and every input
      hides the base; its config is the base's only where inherited; and it says nothing of time, author
      or history. */
  lemma ImageIs(w: World, base: Option<Image>, xs: seq<Pulled>, c: ImageConfig, p: Platform)
    ensures SingleBuild(w, base, xs, c, p).Some? <==>
            (forall i :: 0 <= i < |xs| ==> LayerFor(w, xs[i], p).Ok?) && (c.inherit ==> base.Some?)
    ensures SingleBuild(w, base, xs, c, p).Some? ==>
              var image, n := SingleBuild(w, base, xs, c, p).value, |BaseLayers(base)|;
              && |image.layers| == n + |xs|
              && (forall i :: 0 <= i < n ==> image.layers[i] == BaseLayers(base)[i])
              && (forall i :: 0 <= i < |xs| ==> image.layers[n + i] == LayerFor(w, xs[i], p).value)
              && Configured(image.config.run, c, if c.inherit then Some(base.value.config.run) else None)
              && image.config.os == p.os && image.config.arch == p.arch && image.config.variant == p.variant
              && image.config.created == 0 && image.config.author == "" && image.config.history == 0
              && image.config.extra == if base.Some? then base.value.config.extra else ""
  {
    hide LayerFor, AllBuild, LayersFor, Stacked, Configured;
    AllBuildOne(w, xs, p);
    if AllBuild(w, xs, [p]) && (c.inherit ==> base.Some?) {
      LayersAre(w, xs, p);
      StackedLayers(base, LayersFor(w, xs, p), c, p);
      StackedConfig(base, LayersFor(w, xs, p), c, p);
    }
  }

  method AssembleAs(w: World, base: Option<Image>, xs: seq<Pulled>, c: ImageConfig,
                    p: Platform) returns (r: Result<Image, AssembleError>)
    ensures match SingleBuild(w, base, xs, c, p) case None => r.Err? case Some(image) => r == Ok(image)
  {
    hide LayerFor, BuildOf, AllBuild, Overridden;
    var layers := BuildLayers(w, xs, [p]);
    if layers.Err? {
      return Err(layers.error);
    }
    FilledColumn(w, xs, [p], 0, layers.value);
    r := AssembleFor(base, layers.value[p], c, p);
  }

  lemma FilledColumn(w: World, xs: seq<Pulled>, ps: seq<Platform>, k: nat, out: map<Platform, seq<Layer>>)
    requires Filled(w, xs, ps, |xs|, 0, out) && AllBuild(w, xs, ps) && k < |ps| && NoDuplicates(ps)
    ensures ps[k] in out && AllBuild(w, xs, [ps[k]]) && out[ps[k]] == LayersFor(w, xs, ps[k])
  {
    hide LayerFor, BuildOf;
    assert ps[k] in ps;
    OccursOnce(ps, k, |ps|);
  }

  // ---------- An index ----------

  function BaseFor(bases: Option<map<Platform, Image>>, p: Platform): Option<Option<Image>> {
    match bases
    case None => Some(None)
    case Some(m) => if p in m then Some(Some(m[p])) else None
  }

  /** The per-platform images of an input projected onto one platform. */
  function Project(x: Pulled, p: Platform): Pulled {
    if x.source.OfImages? && p in x.source.images then x.(source := OfImage(x.source.images[p])) else x
  }

  function ProjectAll(xs: seq<Pulled>, p: Platform): seq<Pulled> {
    seq(|xs|, i requires 0 <= i < |xs| => Project(xs[i], p))
  }

  /** The child of one platform: that platform's own build on its own base. */
  function Child(w: World, bases: Option<map<Platform, Image>>, xs: seq<Pulled>, c: ImageConfig,
                 p: Platform): Option<Image> {
    match BaseFor(bases, p)
    case None => None
    case Some(base) => SingleBuild(w, base, xs, c, p)
  }

  /** The children in platform order, or nothing unless every platform builds. */
  function IndexTo(w: World, bases: Option<map<Platform, Image>>, xs: seq<Pulled>, c: ImageConfig, ps: seq<Platform>,
                   n: nat)
    : Option<seq<(Platform, Image)>>
    requires n <= |ps|
  {
    if n == 0 then Some([])
    else match IndexTo(w, bases, xs, c, ps, n - 1)
      case None => None
      case Some(before) =>
        match Child(w, bases, xs, c, ps[n - 1])
        case None => None
        case Some(image) => Some(before + [(ps[n - 1], image)])
  }

  function IndexBuild(w: World, bases: Option<map<Platform, Image>>, xs: seq<Pulled>, c: ImageConfig, ps: seq<Platform>)
    : Option<seq<(Platform, Image)>>
  {
    if ps == [] then None else IndexTo(w, bases, xs, c, ps, |ps|)
  }

  lemma {:induction false} IndexFails(w: World, bases: Option<map<Platform, Image>>, xs: seq<Pulled>, c: ImageConfig,
                                      ps: seq<Platform>, m: nat, n: nat)
    requires m <= n <= |ps| && IndexTo(w, bases, xs, c, ps, m).None?
    ensures IndexTo(w, bases, xs, c, ps, n).None?
  {
    hide Child;
    if m < n {
      IndexFails(w, bases, xs, c, ps, m, n - 1);
    }
  }

  /** Children share the layers built once, yet each is exactly its own platform's build. */
  method AssembleIndex(w: World, bases: Option<map<Platform, Image>>, xs: seq<Pulled>, c: ImageConfig,
                       ps: seq<Platform>)
    returns (r: Result<seq<(Platform, Image)>, AssembleError>)
    requires NoDuplicates(ps)
    ensures match IndexBuild(w, bases, xs, c, ps) case None => r.Err? case Some(children) => r == Ok(children)
  {
    hide LayerFor, BuildOf, AllBuild, Stacked, Child, Filled;
    if |ps| == 0 {
      return Err(NoPlatforms);
    }
    var layers := BuildLayers(w, xs, ps);
    if layers.Err? {
      SomeChildFails(w, bases, xs, c, ps);
      return Err(layers.error);
    }
    var idx: seq<(Platform, Image)> := [];
    for n := 0 to |ps|
      invariant IndexTo(w, bases, xs, c, ps, n) == Some(idx)
    {
      var p := ps[n];
      FilledColumn(w, xs, ps, n, layers.value);
      ChildIs(w, bases, xs, c, p);
      var base: Option<Image> := None;
      if bases.Some? {
        if p !in bases.value {
          IndexFails(w, bases, xs, c, ps, n + 1, |ps|);
          return Err(NoBaseFor(p));
        }
        base := Some(bases.value[p]);
      }
      var image := AssembleFor(base, layers.value[p], c, p);
      if image.Err? {
        IndexFails(w, bases, xs, c, ps, n + 1, |ps|);
        return Err(image.error);
      }
      idx := idx + [(p, image.value)];
    }
    return Ok(idx);
  }

  lemma ChildIs(w: World, bases: Option<map<Platform, Image>>, xs: seq<Pulled>, c: ImageConfig, p: Platform)
    requires AllBuild(w, xs, [p])
    ensures Child(w, bases, xs, c, p) ==
            match BaseFor(bases, p)
            case None => None
            case Some(base) => if c.inherit && base.None? then None else Some(Stacked(base, LayersFor(w, xs, p), c, p))
  {
    hide AllBuild, Stacked, LayersFor;
  }

  lemma SomeChildFails(w: World, bases: Option<map<Platform, Image>>, xs: seq<Pulled>, c: ImageConfig,
                       ps: seq<Platform>)
    requires ps != [] && !AllBuild(w, xs, ps)
    ensures IndexBuild(w, bases, xs, c, ps).None?
  {
    hide LayerFor, BuildOf, Stacked, LayersFor;
    var k := FailingPlatform(w, xs, ps);
    IndexFails(w, bases, xs, c, ps, k + 1, |ps|);
  }

  lemma FailingPlatform(w: World, xs: seq<Pulled>, ps: seq<Platform>) returns (k: nat)
    requires ps != [] && !AllBuild(w, xs, ps)
    ensures k < |ps| && !AllBuild(w, xs, [ps[k]])
  {
    hide LayerFor, BuildOf;
    if i :| 0 <= i < |xs| && !xs[i].source.OfImages? && BuildOf(w, xs[i].input, xs[i].source).Err? {
      k := 0;
    } else {
      var i, j :| 0 <= i < |xs| && 0 <= j < |ps| && LayerFor(w, xs[i], ps[j]).Err?;
      k := j;
      assert LayerFor(w, xs[i], [ps[k]][0]).Err?;
    }
  }

  lemma ProjectLayer(w: World, x: Pulled, p: Platform)
    ensures LayerFor(w, Project(x, p), p) == LayerFor(w, x, p)
  {
    hide BuildOf;
  }

  lemma {:induction false} ProjectColumn(w: World, xs: seq<Pulled>, p: Platform, n: nat)
    requires n <= |xs| && forall i :: 0 <= i < |xs| ==>
               LayerFor(w, xs[i], p).Ok? && LayerFor(w, Project(xs[i], p), p).Ok?
    ensures Column(w, ProjectAll(xs, p), p, 1, n) == Column(w, xs, p, 1, n)
  {
    hide LayerFor, Project;
    if n > 0 {
      ProjectColumn(w, xs, p, n - 1);
      ProjectLayer(w, xs[n - 1], p);
    }
  }

  /** A platform's build is the build of its projection: the input lists of a multi-platform image
      and of a single-platform one give the same layers there. */
  lemma ProjectionBuilds(w: World, base: Option<Image>, xs: seq<Pulled>, c: ImageConfig, p: Platform)
    requires forall i :: 0 <= i < |xs| && xs[i].source.OfImages? ==> p in xs[i].source.images
    ensures SingleBuild(w, base, ProjectAll(xs, p), c, p) == SingleBuild(w, base, xs, c, p)
  {
    hide Stacked, Column, LayerFor, BuildOf;
    var ys := ProjectAll(xs, p);
    forall i | 0 <= i < |xs| ensures LayerFor(w, ys[i], p) == LayerFor(w, xs[i], p) {
      ProjectLayer(w, xs[i], p);
    }
    ProjectedAllBuild(w, xs, p);
    if AllBuild(w, xs, [p]) {
      AllBuildEach(w, xs, p);
      ProjectColumn(w, xs, p, |xs|);
    }
  }

  lemma ProjectedAllBuild(w: World, xs: seq<Pulled>, p: Platform)
    requires forall i :: 0 <= i < |xs| && xs[i].source.OfImages? ==> p in xs[i].source.images
    ensures AllBuild(w, ProjectAll(xs, p), [p]) <==> AllBuild(w, xs, [p])
  {
    hide BuildOf, LayerFor;
    var ys := ProjectAll(xs, p);
    AllBuildOne(w, xs, p);
    AllBuildOne(w, ys, p);
    forall i | 0 <= i < |xs| ensures LayerFor(w, ys[i], p) == LayerFor(w, xs[i], p) {
      ProjectLayer(w, xs[i], p);
    }
  }

  lemma AllBuildOne(w: World, xs: seq<Pulled>, p: Platform)
    ensures AllBuild(w, xs, [p]) <==> forall i :: 0 <= i < |xs| ==> LayerFor(w, xs[i], p).Ok?
  {
    hide BuildOf;
    if AllBuild(w, xs, [p]) {
      AllBuildEach(w, xs, p);
    }
    if forall i :: 0 <= i < |xs| ==> LayerFor(w, xs[i], p).Ok? {
      forall i | 0 <= i < |xs| && !xs[i].source.OfImages? ensures BuildOf(w, xs[i].input, xs[i].source).Ok? {
        assert LayerFor(w, xs[i], p).Ok?;
      }
    }
  }

  lemma {:induction false} IndexChildren(w: World, bases: Option<map<Platform, Image>>, xs: seq<Pulled>,
                                         c: ImageConfig, ps: seq<Platform>, n: nat)
    requires n <= |ps|
    ensures match IndexTo(w, bases, xs, c, ps, n)
            case None => exists k :: 0 <= k < n && Child(w, bases, xs, c, ps[k]).None?
            case Some(children) =>
              |children| == n && forall k :: 0 <= k < n ==>
                children[k].0 == ps[k] && Child(w, bases, xs, c, ps[k]) == Some(children[k].1)
  {
    hide Child;
    if n > 0 {
      IndexChildren(w, bases, xs, c, ps, n - 1);
    }
  }

  /** An index builds exactly when every platform builds on its own; a platform without a base among those
      given builds nothing; and the children are those builds, in platform order, each on its own base. */
  lemma IndexIsItsChildren(w: World, bases: Option<map<Platform, Image>>, xs: seq<Pulled>, c: ImageConfig,
                           ps: seq<Platform>)
    requires ps != []
    ensures IndexBuild(w, bases, xs, c, ps).Some? <==> forall k :: 0 <= k < |ps| ==> Child(w, bases, xs, c, ps[k]).Some?
    ensures IndexBuild(w, bases, xs, c, ps).Some? ==>
              var children := IndexBuild(w, bases, xs, c, ps).value;
              |children| == |ps| && forall k :: 0 <= k < |ps| ==>
                children[k].0 == ps[k] && Child(w, bases, xs, c, ps[k]) == Some(children[k].1)
    ensures IndexBuild(w, bases, xs, c, ps).Some? ==>
              forall k :: 0 <= k < |ps| ==>
                && (bases.Some? ==> ps[k] in bases.value)
                && SingleBuild(w, if bases.Some? then Some(bases.value[ps[k]]) else None, xs, c, ps[k]) ==
                   Some(IndexBuild(w, bases, xs, c, ps).value[k].1)
  {
    hide Child, IndexTo;
    IndexChildren(w, bases, xs, c, ps, |ps|);
    forall k | 0 <= k < |ps| {
      ChildOnBase(w, bases, xs, c, ps[k]);
    }
  }

  lemma ChildOnBase(w: World, bases: Option<map<Platform, Image>>, xs: seq<Pulled>, c: ImageConfig, p: Platform)
    ensures Child(w, bases, xs, c, p).Some? ==>
              && (bases.Some? ==> p in bases.value)
              && SingleBuild(w, if bases.Some? then Some(bases.value[p]) else None, xs, c, p) ==
                 Child(w, bases, xs, c, p)
  {
    hide SingleBuild;
  }
}
