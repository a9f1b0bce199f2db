/** Why equal input hashes may skip the work (internal/oci/assemble.go, internal/controller): the whole
    way from a resolved spec to an artifact, and what two specs with one hash have in common. */
module ShortCut {
  import opened Strings
  import opened Archive
  import opened Extract
  import opened Zip
  import opened Layers
  import opened Inputs
  import opened InputHash
  import opened Assembly

  /** A spec once its inputs are resolved; base is the digest pinned, declared the parsed platforms. */
  datatype Composition = Composition(
    inputs: seq<LayerInput>, config: ImageConfig, base: Option<string>, declared: seq<Platform>)

  datatype Artifact = One(image: Image) | Many(children: seq<(Platform, Image)>)

  /** What the controller was built for; its own default when neither spec nor base says. */
  function RuntimePlatform(goarch: string): Platform {
    Platform("linux", goarch, "")
  }

  function HashPlatforms(c: Composition, goarch: string): seq<Platform> {
    if c.base.Some? || c.declared != [] then c.declared else [RuntimePlatform(goarch)]
  }

  function BaseDigest(c: Composition): string {
    if c.base.Some? then c.base.value else ""
  }

  function Hashable(c: Composition, goarch: string): Preimage {
    PreimageOf(c.inputs, c.config, BaseDigest(c), HashPlatforms(c, goarch))
  }

  /** What the API admits: parsed platforms, a digest on every base, and on an image layer no identity
      besides its digest. */
  predicate Resolved(c: Composition) {
    && (forall i :: 0 <= i < |c.declared| ==> Parsed(c.declared[i]))
    && (c.base.Some? ==> c.base.value != "")
    && (forall i :: 0 <= i < |c.inputs| && c.inputs[i].unpack == "image" ==> c.inputs[i].identity == "")
  }

  // ---------- Pulling ----------

  predicate PlatformMatches(have: ConfigFile, want: Platform) {
    have.os == want.os && have.arch == want.arch && (want.variant == "" || have.variant == want.variant)
  }

  predicate Offers(m: Manifest, ps: seq<Platform>) {
    m.Single? || forall i :: 0 <= i < |ps| ==> m.child(ps[i]).Some?
  }

  function Children(m: Manifest, ps: seq<Platform>): map<Platform, Image>
    requires m.Index? && Offers(m, ps)
  {
    map p | p in ps :: (assert exists i :: 0 <= i < |ps| && ps[i] == p; m.child(p).value)
  }

  /** A single manifest is taken as it is; an index yields the child of each declared platform, and is
      refused when none is declared or one is missing. */
  function PullFor(m: Manifest, declared: seq<Platform>): Option<Source> {
    if m.Single? then Some(OfImage(m.image))
    else if declared == [] || !Offers(m, declared) then None
    else Some(OfImages(Children(m, declared)))
  }

  function PullInput(w: World, declared: seq<Platform>, l: LayerInput): Option<Source> {
    if l.remove != [] then Some(Nothing)
    else if l.unpack == "image" then PullFor(w.manifest(l.digest), declared)
    else Some(Fetched)
  }

  function PullTo(w: World, c: Composition, n: nat): Option<seq<Pulled>>
    requires n <= |c.inputs|
  {
    if n == 0 then Some([])
    else match PullTo(w, c, n - 1)
      case None => None
      case Some(before) =>
        match PullInput(w, c.declared, c.inputs[n - 1])
        case None => None
        case Some(src) => Some(before + [Pulled(c.inputs[n - 1], src)])
  }

  /** The base for at most one declared platform. */
  function PullBase(w: World, c: Composition): Option<Option<Image>> {
    match c.base
    case None => Some(None)
    case Some(digest) =>
      match PullFor(w.manifest(digest), c.declared)
      case None => None
      case Some(src) =>
        if src.OfImage? then Some(Some(src.image))
        else if src.OfImages? && c.declared != [] && c.declared[0] in src.images
          then Some(Some(src.images[c.declared[0]]))
        else None
  }

  /** The bases of several declared platforms. A single manifest serves only the platform it states. */
  function PullBases(w: World, c: Composition): Option<Option<map<Platform, Image>>> {
    match c.base
    case None => Some(None)
    case Some(digest) =>
      var m := w.manifest(digest);
      if m.Index? then (if Offers(m, c.declared) then Some(Some(Children(m, c.declared))) else None)
      else if forall i :: 0 <= i < |c.declared| ==> PlatformMatches(m.image.config, c.declared[i])
      then Some(Some(map p | p in c.declared :: m.image))
      else None
  }

  function PlatformFor(base: Option<Image>, goarch: string): Platform {
    var own := RuntimePlatform(goarch);
    match base
    case None => own
    case Some(b) =>
      Platform(if b.config.os != "" then b.config.os else own.os,
               if b.config.arch != "" then b.config.arch else own.arch,
               b.config.variant)
  }

  function AssembleSpec(w: World, c: Composition, xs: seq<Pulled>, goarch: string): Option<Artifact> {
    if |c.declared| > 1 then
      (match PullBases(w, c)
       case None => None
       case Some(bases) =>
         match IndexBuild(w, bases, xs, c.config, c.declared)
         case None => None
         case Some(children) => Some(Many(children)))
    else
      match PullBase(w, c)
      case None => None
      case Some(base) =>
        var p := if |c.declared| == 1 then c.declared[0] else PlatformFor(base, goarch);
        match SingleBuild(w, base, xs, c.config, p)
        case None => None
        case Some(image) => Some(One(image))
  }

  /** Everything past the short cut: pull, assemble. None when anything on the way is refused. */
  function BuildSpec(w: World, c: Composition, goarch: string): Option<Artifact> {
    match PullTo(w, c, |c.inputs|)
    case None => None
    case Some(xs) => AssembleSpec(w, c, xs, goarch)
  }

  // ---------- What is built ----------

  /** The base's image for a platform: the image itself, or the index's child; nothing without a base. */
  function BaseOn(w: World, c: Composition, p: Platform): Option<Image> {
    if c.base.None? then None
    else if w.manifest(c.base.value).Single? then Some(w.manifest(c.base.value).image)
    else w.manifest(c.base.value).child(p)
  }

  /** The image is for the platform, and is the base's layers under one layer per input. */
  predicate BuiltOn(base: Option<Image>, c: Composition, p: Platform, image: Image) {
    && image.config.os == p.os && image.config.arch == p.arch && image.config.variant == p.variant
    && |image.layers| == |BaseLayers(base)| + |c.inputs|
    && forall i :: 0 <= i < |BaseLayers(base)| ==> image.layers[i] == BaseLayers(base)[i]
  }

  lemma {:induction false} PulledAll(w: World, c: Composition, n: nat)
    requires n <= |c.inputs| && PullTo(w, c, n).Some?
    ensures |PullTo(w, c, n).value| == n
  {
    hide PullInput;
    if n > 0 {
      PulledAll(w, c, n - 1);
    }
  }

  lemma SingleBuiltOn(w: World, base: Option<Image>, xs: seq<Pulled>, c: Composition, p: Platform)
    requires |xs| == |c.inputs| && SingleBuild(w, base, xs, c.config, p).Some?
    ensures BuiltOn(base, c, p, SingleBuild(w, base, xs, c.config, p).value)
  {
    hide SingleBuild, LayerFor, Configured;
    ImageIs(w, base, xs, c.config, p);
  }

  /** What a spec builds: several declared platforms make an index with one child for each, in the declared
      order, every child on the base's own image for its platform; one makes an image for it; and none
      makes an image for the platform the base states, or for linux on the controller's architecture
      where it states none. */
  lemma BuildExactly(w: World, c: Composition, goarch: string)
    requires BuildSpec(w, c, goarch).Some?
    ensures var built := BuildSpec(w, c, goarch).value;
            && (|c.declared| > 1 ==>
                  && built.Many? && |built.children| == |c.declared|
                  && forall k :: 0 <= k < |c.declared| ==>
                       && built.children[k].0 == c.declared[k]
                       && BuiltOn(BaseOn(w, c, c.declared[k]), c, c.declared[k], built.children[k].1))
            && (|c.declared| == 1 ==>
                  built.One? && BuiltOn(BaseOn(w, c, c.declared[0]), c, c.declared[0], built.image))
            && (|c.declared| == 0 ==>
                  && built.One? && (c.base.Some? ==> w.manifest(c.base.value).Single?)
                  && var base := BaseOn(w, c, Platform("", "", ""));
                     var os := if base.Some? then base.value.config.os else "";
                     var arch := if base.Some? then base.value.config.arch else "";
                     var variant := if base.Some? then base.value.config.variant else "";
                     var p := Platform(if os == "" then "linux" else os, if arch == "" then goarch else arch, variant);
                     BuiltOn(base, c, p, built.image))
  {
    hide SingleBuild, IndexBuild, BuiltOn, PullInput, PlatformMatches, BaseOn, PullBases;
    PulledAll(w, c, |c.inputs|);
    var xs := PullTo(w, c, |c.inputs|).value;
    if |c.declared| > 1 {
      var bases := PullBases(w, c).value;
      IndexIsItsChildren(w, bases, xs, c.config, c.declared);
      forall k | 0 <= k < |c.declared|
        ensures BuiltOn(BaseOn(w, c, c.declared[k]), c, c.declared[k],
                        IndexBuild(w, bases, xs, c.config, c.declared).value[k].1)
      {
        BasesAre(w, c, k);
        SingleBuiltOn(w, BaseOn(w, c, c.declared[k]), xs, c, c.declared[k]);
      }
    } else {
      var base := PullBase(w, c).value;
      BaseIs(w, c);
      SingleBuiltOn(w, base, xs, c, if |c.declared| == 1 then c.declared[0] else PlatformFor(base, goarch));
    }
  }

  lemma BasesAre(w: World, c: Composition, k: nat)
    requires k < |c.declared| && PullBases(w, c).Some?
    ensures BaseFor(PullBases(w, c).value, c.declared[k]) == Some(BaseOn(w, c, c.declared[k]))
  {
    hide PlatformMatches;
    assert c.declared[k] in c.declared;
  }

  lemma BaseIs(w: World, c: Composition)
    requires |c.declared| <= 1 && PullBase(w, c).Some?
    ensures PullBase(w, c).value == BaseOn(w, c, if |c.declared| == 1 then c.declared[0] else Platform("", "", ""))
    ensures |c.declared| == 0 && c.base.Some? ==> w.manifest(c.base.value).Single?
  {
  }

  /** A base that cannot serve the platforms builds nothing: an index without a declared platform or missing
      one, and, when several are declared, a single image for another operating system, architecture
      or stated variant than one of them. */
  lemma BaseRefused(w: World, c: Composition, goarch: string, k: nat)
    requires c.base.Some? && (|c.declared| == 0 || k < |c.declared|)
    ensures var m := w.manifest(c.base.value);
            && (m.Index? && |c.declared| == 0 ==> BuildSpec(w, c, goarch).None?)
            && (m.Index? && |c.declared| > 0 && m.child(c.declared[k]).None? ==> BuildSpec(w, c, goarch).None?)
            && (m.Single? && |c.declared| > 1
                && (m.image.config.os != c.declared[k].os || m.image.config.arch != c.declared[k].arch
                    || (c.declared[k].variant != "" && m.image.config.variant != c.declared[k].variant)) ==>
                  BuildSpec(w, c, goarch).None?)
  {
    hide PullTo, SingleBuild, IndexBuild;
  }

  // ---------- Equal hashed fields, equal layers ----------

  lemma HashedDecides(w: World, a: LayerInput, b: LayerInput, src: Source)
    requires Hashed(a) == Hashed(b)
    ensures BuildOf(w, a, src) == BuildOf(w, b, src)
  {
    hide TarEntries, ZipEntries, LayerOf, RemovalsTo, TargetElements, RelativeTarget;
    assert Collect(w, a, src) == Collect(w, b, src);
  }

  /** The same sources, and inputs that hash alike. */
  predicate Alike(xs: seq<Pulled>, ys: seq<Pulled>) {
    |xs| == |ys| && forall i :: 0 <= i < |xs| ==>
      Hashed(xs[i].input) == Hashed(ys[i].input) && xs[i].source == ys[i].source
  }

  lemma AlikeLayer(w: World, x: Pulled, y: Pulled, p: Platform)
    requires Hashed(x.input) == Hashed(y.input) && x.source == y.source
    ensures LayerFor(w, x, p) == LayerFor(w, y, p)
  {
    hide BuildOf, Hashed;
    var src := SourceFor(x, p);
    if src.Some? {
      HashedDecides(w, x.input, y.input, src.value);
    }
  }

  lemma {:induction false} AlikeColumn(w: World, xs: seq<Pulled>, ys: seq<Pulled>, p: Platform, n: nat)
    requires Alike(xs, ys) && n <= |xs|
    requires forall i :: 0 <= i < |xs| ==> LayerFor(w, xs[i], p).Ok? && LayerFor(w, ys[i], p).Ok?
    ensures Column(w, xs, p, 1, n) == Column(w, ys, p, 1, n)
  {
    hide LayerFor, Hashed;
    if n > 0 {
      AlikeColumn(w, xs, ys, p, n - 1);
      AlikeLayer(w, xs[n - 1], ys[n - 1], p);
    }
  }

  lemma AlikeSingle(w: World, base: Option<Image>, xs: seq<Pulled>, ys: seq<Pulled>, c: ImageConfig, p: Platform)
    requires Alike(xs, ys)
    ensures SingleBuild(w, base, xs, c, p) == SingleBuild(w, base, ys, c, p)
  {
    hide LayerFor, BuildOf, Stacked, Column, Hashed;
    AllBuildOne(w, xs, p);
    AllBuildOne(w, ys, p);
    forall i | 0 <= i < |xs| ensures LayerFor(w, xs[i], p) == LayerFor(w, ys[i], p) {
      AlikeLayer(w, xs[i], ys[i], p);
    }
    if AllBuild(w, xs, [p]) {
      AlikeColumn(w, xs, ys, p, |xs|);
    }
  }

  lemma {:induction false} AlikeIndex(w: World, bases: Option<map<Platform, Image>>, xs: seq<Pulled>, ys: seq<Pulled>,
                                      c: ImageConfig, ps: seq<Platform>, n: nat)
    requires Alike(xs, ys) && n <= |ps|
    ensures IndexTo(w, bases, xs, c, ps, n) == IndexTo(w, bases, ys, c, ps, n)
  {
    hide SingleBuild, Alike;
    if n > 0 {
      AlikeIndex(w, bases, xs, ys, c, ps, n - 1);
      var base := BaseFor(bases, ps[n - 1]);
      if base.Some? {
        AlikeSingle(w, base.value, xs, ys, c, ps[n - 1]);
      }
    }
  }

  // ---------- What one hash fixes ----------

  predicate HashAlike(a: Composition, b: Composition) {
    |a.inputs| == |b.inputs| && forall i :: 0 <= i < |a.inputs| ==> Hashed(a.inputs[i]) == Hashed(b.inputs[i])
  }

  lemma SameHashMeans(a: Composition, b: Composition, ga: string, gb: string)
    requires Resolved(a) && Resolved(b) && '/' !in ga && '/' !in gb
    requires Hashable(a, ga) == Hashable(b, gb)
    ensures a.base == b.base && a.config == b.config && HashAlike(a, b) && |a.inputs| == |b.inputs|
    ensures HashPlatforms(a, ga) == HashPlatforms(b, gb)
  {
    hide Hashed, Parsed;
    var hs, ks := HashedLayers(a.inputs), HashedLayers(b.inputs);
    assert |hs| == |a.inputs| && |ks| == |b.inputs|;
    forall i | 0 <= i < |a.inputs| ensures Hashed(a.inputs[i]) == Hashed(b.inputs[i]) {
      assert hs[i] == ks[i];
    }
    var ps, qs := HashPlatforms(a, ga), HashPlatforms(b, gb);
    RuntimeParsed(ga);
    RuntimeParsed(gb);
    assert PlatformStrings(ps) == PlatformStrings(qs) && |ps| == |PlatformStrings(ps)| == |qs|;
    forall i | 0 <= i < |ps| ensures ps[i] == qs[i] {
      assert ps[i].String() == PlatformStrings(ps)[i] && qs[i].String() == PlatformStrings(qs)[i];
      PlatformStringInjective(ps[i], qs[i]);
    }
  }

  lemma RuntimeParsed(goarch: string)
    ensures '/' !in goarch ==> Parsed(RuntimePlatform(goarch))
  {
  }

  /** No layer's image is an index, so pulling does not look at the declared platforms. */
  predicate NoIndexLayer(w: World, c: Composition) {
    forall i :: 0 <= i < |c.inputs| && c.inputs[i].remove == [] && c.inputs[i].unpack == "image" ==>
      w.manifest(c.inputs[i].digest).Single?
  }

  lemma PullInputAlike(w: World, ps: seq<Platform>, qs: seq<Platform>, a: LayerInput, b: LayerInput)
    requires Hashed(a) == Hashed(b)
    requires (a.unpack == "image" ==> a.identity == "") && (b.unpack == "image" ==> b.identity == "")
    requires ps == qs || (a.remove == [] && a.unpack == "image" ==> w.manifest(a.digest).Single?)
    ensures PullInput(w, ps, a) == PullInput(w, qs, b)
  {
    hide Offers, Children;
  }

  lemma {:induction false} PullAlike(w: World, a: Composition, b: Composition, n: nat)
    requires Resolved(a) && Resolved(b) && HashAlike(a, b) && n <= |a.inputs|
    requires a.declared == b.declared || NoIndexLayer(w, a)
    ensures PullTo(w, a, n).Some? <==> PullTo(w, b, n).Some?
    ensures PullTo(w, a, n).Some? ==> Alike(PullTo(w, a, n).value, PullTo(w, b, n).value)
    ensures PullTo(w, a, n).Some? ==> Alike(PullTo(w, b, n).value, PullTo(w, a, n).value)
    ensures PullTo(w, a, n).Some? ==> |PullTo(w, a, n).value| == n
  {
    hide Hashed, PullInput, Parsed;
    if n > 0 {
      PullAlike(w, a, b, n - 1);
      PullInputAlike(w, a.declared, b.declared, a.inputs[n - 1], b.inputs[n - 1]);
    }
  }

  /** A base states the platform it was built for, as the image-spec config document requires. */
  predicate BaseStatesPlatform(w: World, c: Composition) {
    c.base.Some? ==>
      var m := w.manifest(c.base.value);
      m.Single? ==> m.image.config.os != "" && m.image.config.arch != ""
  }

  lemma AssembleAlike(w: World, a: Composition, b: Composition, xs: seq<Pulled>, ys: seq<Pulled>, ga: string,
                      gb: string)
    requires a.base == b.base && a.config == b.config && Alike(xs, ys)
    requires a.declared == b.declared && BaseStatesPlatform(w, a)
    requires a.base.None? && a.declared == [] ==> ga == gb
    ensures AssembleSpec(w, a, xs, ga) == AssembleSpec(w, b, ys, gb)
  {
    hide SingleBuild, IndexTo, Alike, Offers, Children, PlatformMatches;
    if |a.declared| > 1 {
      var bases := PullBases(w, a);
      assert bases == PullBases(w, b);
      if bases.Some? {
        AlikeIndex(w, bases.value, xs, ys, a.config, a.declared, |a.declared|);
      }
    } else {
      var base := PullBase(w, a);
      assert base == PullBase(w, b);
      if base.Some? {
        var p := if |a.declared| == 1 then a.declared[0] else PlatformFor(base.value, ga);
        assert |a.declared| == 0 ==> p == PlatformFor(base.value, gb);
        AlikeSingle(w, base.value, xs, ys, a.config, p);
      }
    }
  }

  /** Leaving the platforms to a baseless build, or declaring the very platform it would have. */
  lemma AssembleDefaulted(w: World, a: Composition, b: Composition, xs: seq<Pulled>, ys: seq<Pulled>, ga: string,
                          gb: string)
    requires a.base == b.base == None && a.config == b.config && Alike(xs, ys)
    requires a.declared == [] && b.declared == [RuntimePlatform(ga)]
    ensures AssembleSpec(w, a, xs, ga) == AssembleSpec(w, b, ys, gb)
  {
    hide SingleBuild, Alike;
    AlikeSingle(w, None, xs, ys, a.config, RuntimePlatform(ga));
  }

  /** The two specs choose their platform in different ways: one declares it, one leaves it. */
  predicate OneDefaults(a: Composition, b: Composition) {
    (a.declared == []) != (b.declared == [])
  }

  /** Equal hashes, equal artifact: the same layers and the same config on every platform. The one
      spec pair this leaves out declares a platform on one side only and has a layer taken from an
      index, which cannot be pulled without a declared platform. */
  lemma ShortCutSound(w: World, a: Composition, b: Composition, ga: string, gb: string, ks: seq<string>,
                      ls: seq<string>)
    requires Resolved(a) && Resolved(b) && '/' !in ga && '/' !in gb
    requires Enumerates(ks, a.config.labels) && Enumerates(ls, b.config.labels)
    requires Stream(Hashable(a, ga), ks) == Stream(Hashable(b, gb), ls)
    requires BaseStatesPlatform(w, a)
    requires OneDefaults(a, b) ==> NoIndexLayer(w, a)
    ensures BuildSpec(w, a, ga) == BuildSpec(w, b, gb)
  {
    hide Stream, HashAlike, AssembleSpec, Alike, Enumerates, NoIndexLayer, PullTo, BaseStatesPlatform, Resolved;
    StreamInjective(Hashable(a, ga), Hashable(b, gb), ks, ls);
    SameHashMeans(a, b, ga, gb);
    PlatformCases(a, b, ga, gb);
    PullAlike(w, a, b, |a.inputs|);
    var xs, ys := PullTo(w, a, |a.inputs|), PullTo(w, b, |b.inputs|);
    if xs.Some? {
      if a.declared == b.declared {
        AssembleAlike(w, a, b, xs.value, ys.value, ga, gb);
      } else if a.declared == [] {
        AssembleDefaulted(w, a, b, xs.value, ys.value, ga, gb);
      } else {
        AssembleDefaulted(w, b, a, ys.value, xs.value, gb, ga);
      }
    }
  }

  lemma PlatformCases(a: Composition, b: Composition, ga: string, gb: string)
    requires HashPlatforms(a, ga) == HashPlatforms(b, gb) && a.base == b.base
    ensures a.declared == b.declared || (a.base.None? && OneDefaults(a, b))
    ensures a.declared == b.declared == [] && a.base.None? ==> ga == gb
    ensures a.declared != b.declared && a.declared == [] ==> b.declared == [RuntimePlatform(ga)]
    ensures a.declared != b.declared && b.declared == [] ==> a.declared == [RuntimePlatform(gb)]
  {
    assert RuntimePlatform(ga) == [RuntimePlatform(ga)][0];
    assert RuntimePlatform(gb) == [RuntimePlatform(gb)][0];
  }

  /** And that pair is really out: one hash, yet only the side that declares its platform can be built. */
  lemma DefaultedIndexLayer(w: World, a: Composition, b: Composition, ga: string, gb: string)
    requires Resolved(a) && Resolved(b) && '/' !in ga && '/' !in gb
    requires Hashable(a, ga) == Hashable(b, gb)
    requires a.declared == [] && b.declared != [] && BuildSpec(w, b, gb).Some?
    ensures BuildSpec(w, a, ga) == BuildSpec(w, b, gb) <==> NoIndexLayer(w, a)
  {
    hide Hashable, HashAlike, AssembleSpec, NoIndexLayer, Alike, Resolved, PullTo;
    SameHashMeans(a, b, ga, gb);
    PlatformCases(a, b, ga, gb);
    if NoIndexLayer(w, a) {
      PullAlike(w, a, b, |a.inputs|);
      AssembleDefaulted(w, a, b, PullTo(w, a, |a.inputs|).value, PullTo(w, b, |b.inputs|).value, ga, gb);
    } else {
      IndexLayerRefused(w, a);
    }
  }

  lemma IndexLayerRefused(w: World, a: Composition)
    requires a.declared == [] && !NoIndexLayer(w, a)
    ensures PullTo(w, a, |a.inputs|).None?
  {
    var i :| 0 <= i < |a.inputs| && a.inputs[i].remove == [] && a.inputs[i].unpack == "image"
             && w.manifest(a.inputs[i].digest).Index?;
    PullStops(w, a, i + 1, |a.inputs|);
  }

  lemma {:induction false} PullStops(w: World, a: Composition, m: nat, n: nat)
    requires m <= n <= |a.inputs| && PullTo(w, a, m).None?
    ensures PullTo(w, a, n).None?
  {
    hide PullInput;
    if m < n {
      PullStops(w, a, m, n - 1);
    }
  }
}
