/** A zip's entry order: which layers can depend on it, and which cannot. */
module ZipOrder {
  import opened Strings
  import opened Paths
  import opened Archive
  import opened Extract
  import opened Layers
  import opened Contents
  import opened Zip

  /** This entry puts a directory of this name into the layer: declared, or implied by a file under it. */
  predicate MakesDir(cfg: Config, e: ZipEntry, name: string) {
    Yields(cfg, ItemOf(e), DirEntry(name))
  }

  /** This entry puts a file or a symlink at this name. */
  predicate MakesFile(cfg: Config, e: ZipEntry, name: string) {
    RebasedTo(cfg, e) == At(name) && NeedsBody(e)
  }

  /** No destination is both a directory and something else. */
  ghost predicate NoClash(cfg: Config, es: seq<ZipEntry>) {
    forall i, j, name :: 0 <= i < |es| && 0 <= j < |es| && MakesDir(cfg, es[i], name) ==> !MakesFile(cfg, es[j], name)
  }

  function LayerEntries(cfg: Config, es: seq<ZipEntry>): seq<TarEntry> {
    Gather(cfg, Items(es)).entries
  }

  /** A yielded entry is a directory, or the one thing at the item's own destination. */
  lemma YieldedIs(cfg: Config, e: ZipEntry, x: TarEntry)
    requires Yields(cfg, ItemOf(e), x)
    ensures (x == DirEntry(x.name) && MakesDir(cfg, e, x.name)) || (!x.dir && MakesFile(cfg, e, x.name))
  {
    hide Rebase, ParentNames, NormaliseMode;
  }

  lemma YieldedFileUnique(cfg: Config, e: ZipEntry, x: TarEntry, y: TarEntry)
    ensures Yields(cfg, ItemOf(e), x) && Yields(cfg, ItemOf(e), y) && !x.dir && !y.dir ==> x == y
  {
    hide Rebase, ParentNames, NormaliseMode;
  }

  lemma EntriesYield(cfg: Config, es: seq<ZipEntry>)
    ensures forall x :: x in LayerEntries(cfg, es) <==> exists i :: 0 <= i < |es| && Yields(cfg, ItemOf(es[i]), x)
  {
    hide Yields, GatherTo, ItemOf;
    GatherYields(cfg, Items(es), |es|);
    forall x ensures x in LayerEntries(cfg, es) <==> exists i :: 0 <= i < |es| && Yields(cfg, ItemOf(es[i]), x) {
      if x in LayerEntries(cfg, es) {
        var i :| 0 <= i < |es| && Yields(cfg, Items(es)[i], x);
        assert Yields(cfg, ItemOf(es[i]), x);
      }
      if i :| 0 <= i < |es| && Yields(cfg, ItemOf(es[i]), x) {
        assert Yields(cfg, Items(es)[i], x);
      }
    }
  }

  /** What one zip entry puts into a layer: a name that ends in either separator, or a directory's mode, a
      directory; a symlink, a link to what its contents spell; a regular file, those contents, and the
      directories leading to it; anything else nothing. */
  predicate Puts(cfg: Config, e: ZipEntry, x: TarEntry, executable: bool) {
    var contents := if e.body.Some? then e.body.value else "";
    var slashed := |e.name| > 0 && (e.name[|e.name| - 1] == '/' || e.name[|e.name| - 1] == '\\');
    && RebasedTo(cfg, e).At?
    && var dest := RebasedTo(cfg, e).dest;
       || ((slashed || e.mode == Directory) && x == TarEntry(dest, 493, "", true, ""))
       || (!slashed && e.mode == Symlink && x == TarEntry(dest, 511, "", false, contents))
       || (!slashed && e.mode == Regular
           && (x == TarEntry(dest, if executable then 493 else 420, contents, false, "")
               || (x.name in ParentNames(dest) && x == TarEntry(x.name, 493, "", true, ""))))
  }

  lemma SlashedIs(name: string)
    ensures HasSuffix(Slashes(name), "/") <==>
            |name| > 0 && (name[|name| - 1] == '/' || name[|name| - 1] == '\\')
  {
    var s := Slashes(name);
    if |name| > 0 {
      assert s[|s| - 1..] == [s[|s| - 1]];
    }
  }

  /** The entries a zip gives are exactly what its entries put, executable when one of the three octal
      permission digits is odd. */
  lemma ZipPutsExactly(cfg: Config, e: ZipEntry, x: TarEntry, user: nat, group: nat, others: nat)
    requires user < 8 && group < 8 && others < 8 && e.perm == user * 64 + group * 8 + others
    ensures Yields(cfg, ItemOf(e), x) <==>
            Puts(cfg, e, x, user % 2 == 1 || group % 2 == 1 || others % 2 == 1)
  {
    hide Rebase, ParentNames, NormaliseMode, Slashes;
    OctalMode(e.perm, 0, user, group, others);
    SlashedIs(e.name);
  }

  /** Without a clash or a collision, a name stands for one entry. */
  lemma OneEntryPerName(cfg: Config, es: seq<ZipEntry>, x: TarEntry, y: TarEntry)
    requires NoClash(cfg, es) && NoCollision(cfg, es)
    requires x in LayerEntries(cfg, es) && y in LayerEntries(cfg, es) && x.name == y.name
    ensures x == y
  {
    hide Yields, LayerEntries, MakesDir, Collide, RebasedTo, KindOf, ItemOf;
    EntriesYield(cfg, es);
    var i :| 0 <= i < |es| && Yields(cfg, ItemOf(es[i]), x);
    var j :| 0 <= j < |es| && Yields(cfg, ItemOf(es[j]), y);
    YieldedIs(cfg, es[i], x);
    YieldedIs(cfg, es[j], y);
    if !x.dir && !y.dir {
      FilesCollide(cfg, es[i], es[j], x.name);
      CollideSymmetric(cfg, es[i], es[j]);
      assert i == j;
      YieldedFileUnique(cfg, es[i], x, y);
    }
  }

  lemma FilesCollide(cfg: Config, a: ZipEntry, b: ZipEntry, name: string)
    ensures MakesFile(cfg, a, name) && MakesFile(cfg, b, name) ==> Collide(cfg, a, b)
  {
    hide RebasedTo, KindOf;
  }

  lemma SameFirst(a: seq<TarEntry>, b: seq<TarEntry>, name: string)
    requires forall x :: x in a <==> x in b
    requires forall x, y :: x in a && y in a && x.name == y.name ==> x == y
    ensures First(a, name) == First(b, name)
  {
    hide First;
    if First(a, name).Some? {
      FirstNamed(a, name);
      FirstExists(b, First(a, name).value);
      FirstNamed(b, name);
    } else if First(b, name).Some? {
      FirstNamed(b, name);
      FirstExists(a, First(b, name).value);
    }
  }

  /** Permuting an accepted zip without a clash leaves the layer as it was. */
  lemma LayerOrderFree(cfg: Config, es: seq<ZipEntry>, fs: seq<ZipEntry>)
    requires multiset(es) == multiset(fs)
    requires ZipEntries(cfg, es).Ok? && NoClash(cfg, es)
    ensures ZipEntries(cfg, fs).Ok?
    ensures Emitted(ZipEntries(cfg, es).value) == Emitted(ZipEntries(cfg, fs).value)
  {
    hide Emitted, LayerEntries, Yields, First, NoClash, NoCollision, WalkVerdict, FirstRefusal, AllFine;
    AcceptanceOrderFree(cfg, es, fs);
    AcceptedIff(cfg, es);
    AcceptedEntries(cfg, es);
    AcceptedEntries(cfg, fs);
    var a, b := LayerEntries(cfg, es), LayerEntries(cfg, fs);
    SameYields(cfg, es, fs);
    SameYields(cfg, fs, es);
    forall x, y | x in a && y in a && x.name == y.name ensures x == y {
      OneEntryPerName(cfg, es, x, y);
    }
    forall name ensures First(a, name) == First(b, name) {
      SameFirst(a, b, name);
    }
    EmittedDetermined(a, b);
  }

  lemma AcceptedEntries(cfg: Config, es: seq<ZipEntry>)
    requires ZipEntries(cfg, es).Ok?
    ensures ZipEntries(cfg, es).value == LayerEntries(cfg, es)
  {
    hide GatherTo, WalkVerdict, FirstRefusal;
  }

  lemma SameYields(cfg: Config, es: seq<ZipEntry>, fs: seq<ZipEntry>)
    requires multiset(es) == multiset(fs)
    ensures forall x :: x in LayerEntries(cfg, es) ==> x in LayerEntries(cfg, fs)
  {
    hide Yields, LayerEntries, ItemOf;
    EntriesYield(cfg, es);
    EntriesYield(cfg, fs);
    SameElements(es, fs);
    forall x | x in LayerEntries(cfg, es) ensures x in LayerEntries(cfg, fs) {
      var i :| 0 <= i < |es| && Yields(cfg, ItemOf(es[i]), x);
      assert es[i] in fs;
      var k :| 0 <= k < |fs| && fs[k] == es[i];
      assert Yields(cfg, ItemOf(fs[k]), x);
    }
  }

  // ---------- The other direction: a clash makes the order visible ----------

  /** The same entries with entry i moved to the front. */
  function ToFront(es: seq<ZipEntry>, i: nat): seq<ZipEntry>
    requires i < |es|
  {
    [es[i]] + es[..i] + es[i + 1..]
  }

  lemma ToFrontPermutes(es: seq<ZipEntry>, i: nat)
    requires i < |es|
    ensures multiset(ToFront(es, i)) == multiset(es)
  {
    assert es == es[..i] + [es[i]] + es[i + 1..];
  }

  /** The first entry's yield of a name is the one the layer keeps, when all it yields there is it. */
  lemma FrontWins(cfg: Config, es: seq<ZipEntry>, x: TarEntry)
    requires es != [] && Yields(cfg, ItemOf(es[0]), x)
    requires forall y :: Yields(cfg, ItemOf(es[0]), y) && y.name == x.name ==> y == x
    ensures First(LayerEntries(cfg, es), x.name) == Some(x)
  {
    hide Yields, ItemOf, First, GatherTo;
    var items := Items(es);
    var front := GatherTo(cfg, items, 1).entries;
    GatherGrows(cfg, items, 1, |items|);
    GatherYields(cfg, items, 1);
    assert items[0] == ItemOf(es[0]);
    assert x in front;
    FirstExists(front, x);
    FirstNamed(front, x.name);
    FirstOfPrefix(front, LayerEntries(cfg, es), x.name);
  }

  /** One entry does not yield both kinds under one name. */
  lemma OneKindPerName(cfg: Config, e: ZipEntry, x: TarEntry, y: TarEntry)
    requires GoodConfig(cfg) && Yields(cfg, ItemOf(e), x) && Yields(cfg, ItemOf(e), y) && x.name == y.name
    ensures x == y
  {
    hide Rebase, ParentNames, NormaliseMode, Fits, Less, GoodConfig;
    match Rebase(cfg, ItemOf(e).name) {
      case At(dest) =>
        if KindOf(e) == Regular && x != y {
          assert dest in ParentNames(dest);
          DestFits(cfg, ItemOf(e).name);
          ParentsFit(cfg.target, dest, dest);
          NotLessThanItself(dest);
          assert false;
        }
      case _ =>
    }
  }

  lemma NotLessThanItself(s: string)
    ensures !Less(s, s)
  {
  }

  lemma DestFits(cfg: Config, name: string)
    requires GoodConfig(cfg) && Rebase(cfg, name).At?
    ensures Fits(cfg.target, Rebase(cfg, name).dest)
  {
    hide Join, Components, Place, Plain;
    RebaseInside(cfg, name);
    assert cfg.target <= cfg.target + Rest(cfg, name);
  }

  /** With a clash, two orders of the same accepted archive give two layers. */
  lemma ClashShows(cfg: Config, es: seq<ZipEntry>)
    requires GoodConfig(cfg) && !NoClash(cfg, es)
    ensures exists fs, gs :: multiset(fs) == multiset(es) && multiset(gs) == multiset(es)
              && Emitted(LayerEntries(cfg, fs)) != Emitted(LayerEntries(cfg, gs))
  {
    hide Yields, First, Emitted, LayerEntries, RebasedTo, ItemOf;
    var i, j, name :| 0 <= i < |es| && 0 <= j < |es| && MakesDir(cfg, es[i], name) && MakesFile(cfg, es[j], name);
    var fs, gs := ToFront(es, i), ToFront(es, j);
    ToFrontPermutes(es, i);
    ToFrontPermutes(es, j);
    var x := DirEntry(name);
    var y := FileYield(cfg, es[j], name);
    forall z | Yields(cfg, ItemOf(es[i]), z) && z.name == name ensures z == x { OneKindPerName(cfg, es[i], z, x); }
    forall z | Yields(cfg, ItemOf(es[j]), z) && z.name == name ensures z == y { OneKindPerName(cfg, es[j], z, y); }
    FrontWins(cfg, fs, x);
    FrontWins(cfg, gs, y);
    EmittedDiffers(LayerEntries(cfg, fs), LayerEntries(cfg, gs), name);
  }

  lemma FileYield(cfg: Config, e: ZipEntry, name: string) returns (y: TarEntry)
    requires MakesFile(cfg, e, name)
    ensures Yields(cfg, ItemOf(e), y) && y.name == name && !y.dir
  {
    hide Rebase, ParentNames, NormaliseMode;
    var item := ItemOf(e);
    y := if item.kind == Regular then TarEntry(name, NormaliseMode(item.mode), item.body, false, "")
         else TarEntry(name, LINK_MODE, "", false, item.link);
  }

  lemma EmittedDiffers(a: seq<TarEntry>, b: seq<TarEntry>, name: string)
    requires First(a, name).Some? && First(b, name).Some? && First(a, name) != First(b, name)
    ensures Emitted(a) != Emitted(b)
  {
    hide First, Emitted, LessEq;
    EmittedIs(a);
    EmittedIs(b);
    var k :| 0 <= k < |Emitted(a)| && Emitted(a)[k].name == name;
    assert k < |Emitted(b)| ==> First(b, Emitted(b)[k].name) == Some(Emitted(b)[k]);
  }

  /** Exactly when the order of an accepted zip cannot show in its layer: when no destination is both
      a directory, declared or implied, and a file or symlink. */
  lemma OrderFreeIffNoClash(cfg: Config, es: seq<ZipEntry>)
    requires GoodConfig(cfg) && ZipEntries(cfg, es).Ok?
    ensures NoClash(cfg, es) <==>
            forall fs :: multiset(fs) == multiset(es) ==>
              ZipEntries(cfg, fs).Ok? && Emitted(LayerEntries(cfg, fs)) == Emitted(LayerEntries(cfg, es))
  {
    hide NoClash, LayerEntries, ZipEntries, Emitted;
    if NoClash(cfg, es) {
      forall fs | multiset(fs) == multiset(es)
        ensures ZipEntries(cfg, fs).Ok? && Emitted(LayerEntries(cfg, fs)) == Emitted(LayerEntries(cfg, es))
      {
        LayerOrderFree(cfg, es, fs);
        AcceptedEntries(cfg, es);
        AcceptedEntries(cfg, fs);
      }
    } else {
      ClashShows(cfg, es);
    }
  }
}
