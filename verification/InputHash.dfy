/** The stream the input hash digests (internal/oci/assemble.go). The hash is modelled by its
    preimage: a hash value stands for exactly the bytes written to it. */
module InputHash {
  import opened Strings
  import opened Decimal
  import opened Inputs

  const ASSEMBLY_VERSION := 2

  /** Everything hashed about one layer. */
  datatype HashedLayer = HashedLayer(
    identity: string, unpack: string, subpath: string, strip: int, target: string,
    uid: int, gid: int, fileMode: int, dirMode: int, remove: seq<string>)

  function Hashed(l: LayerInput): HashedLayer {
    HashedLayer(l.Identity(), l.unpack, l.subpath, l.strip, l.target, l.uid, l.gid, l.fileMode, l.dirMode, l.remove)
  }

  function HashedLayers(ls: seq<LayerInput>): seq<HashedLayer> {
    seq(|ls|, i requires 0 <= i < |ls| => Hashed(ls[i]))
  }

  /** The whole of what is hashed. */
  datatype Preimage = Preimage(base: string, platforms: seq<string>, layers: seq<HashedLayer>, config: ImageConfig)

  function PreimageOf(ls: seq<LayerInput>, config: ImageConfig, base: string, ps: seq<Platform>): Preimage {
    Preimage(base, PlatformStrings(ps), HashedLayers(ls), config)
  }

  // ---------- Writing, each form followed by whatever comes after it ----------

  function Field(s: string, k: string): string {
    Dec(|s|) + ":" + s + k
  }

  function Number(tag: string, n: int, k: string): string {
    tag + DecInt(n) + ";" + k
  }

  function Fields(xs: seq<string>, i: nat, k: string): string
    requires i <= |xs|
    decreases |xs| - i
  {
    if i == |xs| then k else Field(xs[i], Fields(xs, i + 1, k))
  }

  function Group(xs: seq<string>, k: string): string {
    Number("n=", |xs|, Fields(xs, 0, k))
  }

  function RemoveList(xs: seq<string>, k: string): string {
    Number("rm=", |xs|, Fields(xs, 0, k))
  }

  function Owner(l: HashedLayer, k: string): string {
    Number("u=", l.uid, Number("g=", l.gid, Number("fm=", l.fileMode, Number("dm=", l.dirMode, k))))
  }

  function Layer(l: HashedLayer, k: string): string {
    Field(l.identity,
          Field(l.unpack, Field(l.subpath, Number("strip=", l.strip,
            Field(l.target, Owner(l, RemoveList(l.remove, k)))))))
  }

  function LayerList(ls: seq<HashedLayer>, i: nat, k: string): string
    requires i <= |ls|
    decreases |ls| - i
  {
    if i == |ls| then k else Layer(ls[i], LayerList(ls, i + 1, k))
  }

  function Flag(b: bool, k: string): string {
    (if b then "inherit=true;" else "inherit=false;") + k
  }

  function Labels(m: map<string, string>, keys: seq<string>, i: nat, k: string): string
    requires i <= |keys| && forall x :: x in keys ==> x in m
    decreases |keys| - i
  {
    if i == |keys| then k else Field(keys[i], Field(m[keys[i]], Labels(m, keys, i + 1, k)))
  }

  function Groups(c: ImageConfig): string {
    Group(c.env, Group(c.entrypoint, Group(c.cmd, Group(c.exposedPorts, Group(c.volumes, "")))))
  }

  /** keys is any enumeration of the labels' keys; sorting forgets its order. */
  ghost predicate Enumerates(keys: seq<string>, m: map<string, string>) {
    NoDuplicates(keys) && forall x :: x in keys <==> x in m
  }

  function LabelList(c: ImageConfig, keys: seq<string>, k: string): string
    requires Enumerates(keys, c.labels)
  {
    SortStringsSorted(keys);
    Number("labels=", |keys|, Labels(c.labels, SortStrings(keys), 0, k))
  }

  function ConfigTail(c: ImageConfig, keys: seq<string>): string
    requires Enumerates(keys, c.labels)
  {
    Flag(c.inherit, Field(c.user, Field(c.workingDir, Field(c.stopSignal, LabelList(c, keys, Groups(c))))))
  }

  function LayersTail(p: Preimage, keys: seq<string>): string
    requires Enumerates(keys, p.config.labels)
  {
    Number("layers=", |p.layers|, LayerList(p.layers, 0, ConfigTail(p.config, keys)))
  }

  function Version(): string {
    "assembly-v" + Dec(ASSEMBLY_VERSION)
  }

  function Stream(p: Preimage, keys: seq<string>): string
    requires Enumerates(keys, p.config.labels)
  {
    Field(Version(), Field(p.base, Number("platforms=", |p.platforms|, Fields(p.platforms, 0, LayersTail(p, keys)))))
  }

  /** The version of the assembly leads the stream, so another version changes every hash. */
  lemma VersionLeads(p: Preimage, keys: seq<string>)
    requires Enumerates(keys, p.config.labels)
    ensures exists rest :: Stream(p, keys) == "11:assembly-v2" + rest
  {
    hide Enumerates, Fields, LayersTail, Number, Dec;
    var rest := Field(p.base, Number("platforms=", |p.platforms|, Fields(p.platforms, 0, LayersTail(p, keys))));
    VersionIs();
    assert Stream(p, keys) == Dec(11) + ":" + "assembly-v2" + rest;
    assert "11" + ":" + "assembly-v2" == "11:assembly-v2";
  }

  lemma VersionIs()
    ensures Version() == "assembly-v2" && Dec(11) == "11"
  {
    assert Dec(1) == "1";
  }

  // ---------- Every form can be read off the front ----------

  lemma FieldReads(a: string, b: string, r: string, s: string)
    requires Field(a, r) == Field(b, s)
    ensures a == b && r == s
  {
    assert Field(a, r) == DecInt(|a|) + [':'] + (a + r);
    assert Field(b, s) == DecInt(|b|) + [':'] + (b + s);
    NumberEnds(|a|, |b|, ':', a + r, b + s);
    assert a == (a + r)[..|a|] && b == (b + s)[..|b|];
    assert r == (a + r)[|a|..] && s == (b + s)[|b|..];
  }

  lemma SameAfter(tag: string, x: string, y: string)
    requires tag + x == tag + y
    ensures x == y
  {
    assert x == (tag + x)[|tag|..] && y == (tag + y)[|tag|..];
  }

  lemma NumberIs(tag: string, n: int, r: string)
    ensures Number(tag, n, r) == tag + (DecInt(n) + [';'] + r)
  {
  }

  lemma NumberReads(tag: string, m: int, n: int, r: string, s: string)
    requires Number(tag, m, r) == Number(tag, n, s)
    ensures m == n && r == s
  {
    hide Number, DecInt;
    NumberIs(tag, m, r);
    NumberIs(tag, n, s);
    SameAfter(tag, DecInt(m) + [';'] + r, DecInt(n) + [';'] + s);
    NumberEnds(m, n, ';', r, s);
  }

  lemma {:induction false} FieldsRead(xs: seq<string>, ys: seq<string>, i: nat, r: string, s: string)
    requires |xs| == |ys| && i <= |xs| && Fields(xs, i, r) == Fields(ys, i, s)
    ensures xs[i..] == ys[i..] && r == s
    decreases |xs| - i
  {
    hide Field;
    if i < |xs| {
      FieldReads(xs[i], ys[i], Fields(xs, i + 1, r), Fields(ys, i + 1, s));
      FieldsRead(xs, ys, i + 1, r, s);
      assert xs[i..] == [xs[i]] + xs[i + 1..] && ys[i..] == [ys[i]] + ys[i + 1..];
    }
  }

  lemma ListReads(tag: string, xs: seq<string>, ys: seq<string>, r: string, s: string)
    requires Number(tag, |xs|, Fields(xs, 0, r)) == Number(tag, |ys|, Fields(ys, 0, s))
    ensures xs == ys && r == s
  {
    hide Number, Fields;
    NumberReads(tag, |xs|, |ys|, Fields(xs, 0, r), Fields(ys, 0, s));
    FieldsRead(xs, ys, 0, r, s);
    assert xs[0..] == xs && ys[0..] == ys;
  }

  lemma OwnerReads(a: HashedLayer, b: HashedLayer, r: string, s: string)
    requires Owner(a, r) == Owner(b, s)
    ensures a.uid == b.uid && a.gid == b.gid && a.fileMode == b.fileMode && a.dirMode == b.dirMode && r == s
  {
    hide Number;
    var dmA, dmB := Number("dm=", a.dirMode, r), Number("dm=", b.dirMode, s);
    var fmA, fmB := Number("fm=", a.fileMode, dmA), Number("fm=", b.fileMode, dmB);
    NumberReads("u=", a.uid, b.uid, Number("g=", a.gid, fmA), Number("g=", b.gid, fmB));
    NumberReads("g=", a.gid, b.gid, fmA, fmB);
    NumberReads("fm=", a.fileMode, b.fileMode, dmA, dmB);
    NumberReads("dm=", a.dirMode, b.dirMode, r, s);
  }

  lemma LayerReads(a: HashedLayer, b: HashedLayer, r: string, s: string)
    requires Layer(a, r) == Layer(b, s)
    ensures a == b && r == s
  {
    hide Number, Field, Owner, Fields;
    var rmA, rmB := RemoveList(a.remove, r), RemoveList(b.remove, s);
    var tA, tB := Field(a.target, Owner(a, rmA)), Field(b.target, Owner(b, rmB));
    var sA, sB := Number("strip=", a.strip, tA), Number("strip=", b.strip, tB);
    var pA, pB := Field(a.subpath, sA), Field(b.subpath, sB);
    FieldReads(a.identity, b.identity, Field(a.unpack, pA), Field(b.unpack, pB));
    FieldReads(a.unpack, b.unpack, pA, pB);
    FieldReads(a.subpath, b.subpath, sA, sB);
    NumberReads("strip=", a.strip, b.strip, tA, tB);
    FieldReads(a.target, b.target, Owner(a, rmA), Owner(b, rmB));
    OwnerReads(a, b, rmA, rmB);
    ListReads("rm=", a.remove, b.remove, r, s);
  }

  lemma {:induction false} LayersRead(xs: seq<HashedLayer>, ys: seq<HashedLayer>, i: nat, r: string, s: string)
    requires |xs| == |ys| && i <= |xs| && LayerList(xs, i, r) == LayerList(ys, i, s)
    ensures xs[i..] == ys[i..] && r == s
    decreases |xs| - i
  {
    hide Layer;
    if i < |xs| {
      LayerReads(xs[i], ys[i], LayerList(xs, i + 1, r), LayerList(ys, i + 1, s));
      LayersRead(xs, ys, i + 1, r, s);
      assert xs[i..] == [xs[i]] + xs[i + 1..] && ys[i..] == [ys[i]] + ys[i + 1..];
    }
  }

  lemma {:induction false} LabelsRead(m: map<string, string>, n: map<string, string>, ks: seq<string>, ls: seq<string>,
                                      i: nat, r: string, s: string)
    requires |ks| == |ls| && i <= |ks| && (forall x :: x in ks ==> x in m) && (forall x :: x in ls ==> x in n)
    requires Labels(m, ks, i, r) == Labels(n, ls, i, s)
    ensures ks[i..] == ls[i..] && r == s
    ensures forall j :: i <= j < |ks| ==> ks[j] == ls[j] && m[ks[j]] == n[ls[j]]
    decreases |ks| - i
  {
    hide Field;
    if i < |ks| {
      var a, b := Labels(m, ks, i + 1, r), Labels(n, ls, i + 1, s);
      FieldReads(ks[i], ls[i], Field(m[ks[i]], a), Field(n[ls[i]], b));
      FieldReads(m[ks[i]], n[ls[i]], a, b);
      LabelsRead(m, n, ks, ls, i + 1, r, s);
      assert ks[i..] == [ks[i]] + ks[i + 1..] && ls[i..] == [ls[i]] + ls[i + 1..];
    }
  }

  lemma LabelListReads(a: ImageConfig, b: ImageConfig, ks: seq<string>, ls: seq<string>, r: string, s: string)
    requires Enumerates(ks, a.labels) && Enumerates(ls, b.labels)
    requires LabelList(a, ks, r) == LabelList(b, ls, s)
    ensures a.labels == b.labels && r == s
  {
    hide Number, Labels, SortStrings, StrictlySorted;
    SortStringsSorted(ks);
    SortStringsSorted(ls);
    var x, y := SortStrings(ks), SortStrings(ls);
    NumberReads("labels=", |ks|, |ls|, Labels(a.labels, x, 0, r), Labels(b.labels, y, 0, s));
    LabelsRead(a.labels, b.labels, x, y, 0, r, s);
    assert x[0..] == x && y[0..] == y;
    assert a.labels.Keys == b.labels.Keys;
    forall k | k in a.labels ensures a.labels[k] == b.labels[k] {
      assert k in x;
      var j :| 0 <= j < |x| && x[j] == k;
    }
  }

  lemma FlagReads(a: bool, b: bool, r: string, s: string)
    requires Flag(a, r) == Flag(b, s)
    ensures a == b && r == s
  {
    assert Flag(a, r)[8] == if a then 't' else 'f';
    assert Flag(b, s)[8] == if b then 't' else 'f';
    assert r == Flag(a, r)[|Flag(a, "")|..];
    assert s == Flag(b, s)[|Flag(b, "")|..];
  }

  lemma GroupsRead(a: ImageConfig, b: ImageConfig)
    requires Groups(a) == Groups(b)
    ensures a.env == b.env && a.entrypoint == b.entrypoint && a.cmd == b.cmd
    ensures a.exposedPorts == b.exposedPorts && a.volumes == b.volumes
  {
    hide Number, Fields;
    var vA, vB := Group(a.volumes, ""), Group(b.volumes, "");
    var pA, pB := Group(a.exposedPorts, vA), Group(b.exposedPorts, vB);
    var cA, cB := Group(a.cmd, pA), Group(b.cmd, pB);
    var eA, eB := Group(a.entrypoint, cA), Group(b.entrypoint, cB);
    ListReads("n=", a.env, b.env, eA, eB);
    ListReads("n=", a.entrypoint, b.entrypoint, cA, cB);
    ListReads("n=", a.cmd, b.cmd, pA, pB);
    ListReads("n=", a.exposedPorts, b.exposedPorts, vA, vB);
    ListReads("n=", a.volumes, b.volumes, "", "");
  }

  lemma ConfigReads(a: ImageConfig, b: ImageConfig, ks: seq<string>, ls: seq<string>)
    requires Enumerates(ks, a.labels) && Enumerates(ls, b.labels)
    requires ConfigTail(a, ks) == ConfigTail(b, ls)
    ensures a == b
  {
    hide Field, Flag, LabelList, Groups;
    var lA, lB := LabelList(a, ks, Groups(a)), LabelList(b, ls, Groups(b));
    var sA, sB := Field(a.stopSignal, lA), Field(b.stopSignal, lB);
    var wA, wB := Field(a.workingDir, sA), Field(b.workingDir, sB);
    FlagReads(a.inherit, b.inherit, Field(a.user, wA), Field(b.user, wB));
    FieldReads(a.user, b.user, wA, wB);
    FieldReads(a.workingDir, b.workingDir, sA, sB);
    FieldReads(a.stopSignal, b.stopSignal, lA, lB);
    LabelListReads(a, b, ks, ls, Groups(a), Groups(b));
    GroupsRead(a, b);
  }

  /** Equal streams come from equal inputs, whatever order the labels were enumerated in. */
  lemma StreamInjective(p: Preimage, q: Preimage, ks: seq<string>, ls: seq<string>)
    requires Enumerates(ks, p.config.labels) && Enumerates(ls, q.config.labels)
    requires Stream(p, ks) == Stream(q, ls)
    ensures p == q
  {
    hide Field, Number, Fields, LayerList, ConfigTail;
    var cP, cQ := ConfigTail(p.config, ks), ConfigTail(q.config, ls);
    var lP, lQ := LayerList(p.layers, 0, cP), LayerList(q.layers, 0, cQ);
    var tP, tQ := LayersTail(p, ks), LayersTail(q, ls);
    var nP, nQ := Number("platforms=", |p.platforms|, Fields(p.platforms, 0, tP)),
                  Number("platforms=", |q.platforms|, Fields(q.platforms, 0, tQ));
    FieldReads(Version(), Version(), Field(p.base, nP), Field(q.base, nQ));
    FieldReads(p.base, q.base, nP, nQ);
    ListReads("platforms=", p.platforms, q.platforms, tP, tQ);
    NumberReads("layers=", |p.layers|, |q.layers|, lP, lQ);
    LayersRead(p.layers, q.layers, 0, cP, cQ);
    assert p.layers[0..] == p.layers && q.layers[0..] == q.layers;
    ConfigReads(p.config, q.config, ks, ls);
  }

  lemma StreamOrderFree(p: Preimage, ks: seq<string>, ls: seq<string>)
    requires Enumerates(ks, p.config.labels) && Enumerates(ls, p.config.labels)
    ensures Stream(p, ks) == Stream(p, ls)
  {
    hide Field, Number, Fields, LayerList, Labels, SortStrings, Groups;
    SortStringsOrderFree(ks, ls);
    SortStringsSorted(ks);
    SortStringsSorted(ls);
    assert |ks| == |SortStrings(ks)| == |ls|;
  }

  /** The stream is the same exactly when everything that determines the output is. */
  lemma StreamExactly(p: Preimage, q: Preimage, ks: seq<string>, ls: seq<string>)
    requires Enumerates(ks, p.config.labels) && Enumerates(ls, q.config.labels)
    ensures Stream(p, ks) == Stream(q, ls) <==> p == q
  {
    hide Stream;
    if Stream(p, ks) == Stream(q, ls) {
      StreamInjective(p, q, ks, ls);
    }
    if p == q {
      StreamOrderFree(p, ks, ls);
    }
  }

  // ---------- The writer ----------

  lemma WroteField(h: string, s: string, k: string)
    ensures h + Field(s, "") + k == h + Field(s, k)
  {
    assert Field(s, "") + k == Field(s, k);
  }

  lemma WroteNumber(h: string, tag: string, n: int, k: string)
    ensures h + Number(tag, n, "") + k == h + Number(tag, n, k)
  {
    assert Number(tag, n, "") + k == Number(tag, n, k);
  }

  method WriteFields(h: string, xs: seq<string>, ghost k: string) returns (out: string)
    ensures out + k == h + Fields(xs, 0, k)
  {
    hide Field;
    out := h;
    for i := 0 to |xs|
      invariant out + Fields(xs, i, k) == h + Fields(xs, 0, k)
    {
      WroteField(out, xs[i], Fields(xs, i + 1, k));
      out := out + Field(xs[i], "");
    }
  }

  method WriteGroup(h: string, xs: seq<string>, ghost k: string) returns (out: string)
    ensures out + k == h + Group(xs, k)
  {
    hide Number, Fields;
    WroteNumber(h, "n=", |xs|, Fields(xs, 0, k));
    out := WriteFields(h + Number("n=", |xs|, ""), xs, k);
  }

  method WriteOne(h: string, l: LayerInput, ghost k: string) returns (out: string)
    ensures out + k == h + Layer(Hashed(l), k)
  {
    hide Field, Number, Fields;
    ghost var v := Hashed(l);
    ghost var rm := RemoveList(v.remove, k);
    ghost var dm := Number("dm=", v.dirMode, rm);
    ghost var fm := Number("fm=", v.fileMode, dm);
    ghost var g := Number("g=", v.gid, fm);
    ghost var t := Field(v.target, Owner(v, rm));
    ghost var s := Number("strip=", v.strip, t);
    ghost var p := Field(v.subpath, s);
    ghost var u := Field(v.unpack, p);
    WroteField(h, v.identity, u);
    var h1 := h + Field(l.Identity(), "");
    WroteField(h1, v.unpack, p);
    var h2 := h1 + Field(l.unpack, "");
    WroteField(h2, v.subpath, s);
    var h3 := h2 + Field(l.subpath, "");
    WroteNumber(h3, "strip=", v.strip, t);
    var h4 := h3 + Number("strip=", l.strip, "");
    WroteField(h4, v.target, Owner(v, rm));
    var h5 := h4 + Field(l.target, "");
    WroteNumber(h5, "u=", v.uid, g);
    var h6 := h5 + Number("u=", l.uid, "");
    WroteNumber(h6, "g=", v.gid, fm);
    var h7 := h6 + Number("g=", l.gid, "");
    WroteNumber(h7, "fm=", v.fileMode, dm);
    var h8 := h7 + Number("fm=", l.fileMode, "");
    WroteNumber(h8, "dm=", v.dirMode, rm);
    var h9 := h8 + Number("dm=", l.dirMode, "");
    WroteNumber(h9, "rm=", |v.remove|, Fields(v.remove, 0, k));
    out := WriteFields(h9 + Number("rm=", |l.remove|, ""), l.remove, k);
  }

  method WriteLayers(h: string, ls: seq<LayerInput>, ghost k: string) returns (out: string)
    ensures out + k == h + Number("layers=", |ls|, LayerList(HashedLayers(ls), 0, k))
  {
    hide Number, Layer;
    ghost var hashed := HashedLayers(ls);
    ghost var whole := h + Number("layers=", |ls|, LayerList(hashed, 0, k));
    WroteNumber(h, "layers=", |ls|, LayerList(hashed, 0, k));
    out := h + Number("layers=", |ls|, "");
    for i := 0 to |ls|
      invariant out + LayerList(hashed, i, k) == whole
    {
      out := WriteOne(out, ls[i], LayerList(hashed, i + 1, k));
    }
  }

  method WriteLabels(h: string, c: ImageConfig, keys: seq<string>, ghost k: string) returns (out: string)
    requires Enumerates(keys, c.labels)
    ensures out + k == h + LabelList(c, keys, k)
  {
    hide Number, Field, SortStrings, StrictlySorted;
    var sorted := SortStrings(keys);
    SortStringsSorted(keys);
    WroteNumber(h, "labels=", |sorted|, Labels(c.labels, sorted, 0, k));
    out := h + Number("labels=", |sorted|, "");
    ghost var whole := h + LabelList(c, keys, k);
    for i := 0 to |sorted|
      invariant out + Labels(c.labels, sorted, i, k) == whole
    {
      var key := sorted[i];
      ghost var after := Labels(c.labels, sorted, i + 1, k);
      WroteField(out, key, Field(c.labels[key], after));
      WroteField(out + Field(key, ""), c.labels[key], after);
      out := out + Field(key, "") + Field(c.labels[key], "");
    }
  }

  method WriteConfig(h: string, c: ImageConfig, keys: seq<string>) returns (out: string)
    requires Enumerates(keys, c.labels)
    ensures out == h + ConfigTail(c, keys)
  {
    hide Number, Field, LabelList, Group;
    ghost var labels := LabelList(c, keys, Groups(c));
    ghost var stop := Field(c.stopSignal, labels);
    ghost var dir := Field(c.workingDir, stop);
    out := h + if c.inherit then "inherit=true;" else "inherit=false;";
    assert out + Field(c.user, dir) == h + Flag(c.inherit, Field(c.user, dir));
    WroteField(out, c.user, dir);
    out := out + Field(c.user, "");
    WroteField(out, c.workingDir, stop);
    out := out + Field(c.workingDir, "");
    WroteField(out, c.stopSignal, labels);
    out := out + Field(c.stopSignal, "");
    out := WriteLabels(out, c, keys, Groups(c));
    out := WriteGroup(out, c.env, Group(c.entrypoint, Group(c.cmd, Group(c.exposedPorts, Group(c.volumes, "")))));
    out := WriteGroup(out, c.entrypoint, Group(c.cmd, Group(c.exposedPorts, Group(c.volumes, ""))));
    out := WriteGroup(out, c.cmd, Group(c.exposedPorts, Group(c.volumes, "")));
    out := WriteGroup(out, c.exposedPorts, Group(c.volumes, ""));
    out := WriteGroup(out, c.volumes, "");
    assert out + "" == out;
  }

  /** keys is the order in which the tag map happened to be enumerated. */
  method InputHash(inputs: seq<LayerInput>, cfg: ImageConfig, baseDigest: string, platforms: seq<Platform>,
                   keys: seq<string>)
    returns (h: string)
    requires Enumerates(keys, cfg.labels)
    ensures h == Stream(PreimageOf(inputs, cfg, baseDigest, platforms), keys)
  {
    hide Number, Field, Fields, ConfigTail, LayerList;
    ghost var p := PreimageOf(inputs, cfg, baseDigest, platforms);
    ghost var tail := LayersTail(p, keys);
    var names := PlatformStrings(platforms);
    ghost var plats := Number("platforms=", |names|, Fields(names, 0, tail));
    h := Field(Version(), "");
    assert "" + Field(Version(), "") == h;
    WroteField("", Version(), Field(baseDigest, plats));
    WroteField(h, baseDigest, plats);
    h := h + Field(baseDigest, "");
    WroteNumber(h, "platforms=", |names|, Fields(names, 0, tail));
    h := h + Number("platforms=", |platforms|, "");
    h := WriteFields(h, names, tail);
    h := WriteLayers(h, inputs, ConfigTail(cfg, keys));
    h := WriteConfig(h, cfg, keys);
  }
}
