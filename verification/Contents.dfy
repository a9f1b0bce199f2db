/** What a collector holds after any archive: which entries, and that every one is well placed. */
module Contents {
  import opened Strings
  import opened Paths
  import opened Archive
  import opened Extract
  import opened Layers

  /** The entry is one this item puts into a layer: itself, or a directory leading to it. */
  predicate Yields(cfg: Config, item: Item, x: TarEntry) {
    match Rebase(cfg, item.name)
    case At(dest) =>
      (match item.kind
       case Directory => x == DirEntry(dest)
       case Regular =>
         || x == TarEntry(dest, NormaliseMode(item.mode), item.body, false, "")
         || (x == DirEntry(x.name) && x.name in ParentNames(dest))
       case Symlink => x == TarEntry(dest, LINK_MODE, "", false, item.link)
       case Other => false)
    case _ => false
  }

  /** The mode of what is yielded, from the octal digits of the item's: a directory is 0755, a link 0777, and
      a file 0755 when any of its three digits is odd, that is executable for someone, and 0644 otherwise.
      Only a file has a body, the item's, and only a link a target, the item's. */
  lemma YieldedExactly(cfg: Config, item: Item, x: TarEntry, special: nat, user: nat, group: nat, others: nat)
    requires Yields(cfg, item, x)
    requires user < 8 && group < 8 && others < 8 && item.mode == special * 512 + user * 64 + group * 8 + others
    ensures x.dir ==> x.mode == 7 * 64 + 5 * 8 + 5 && x.body == "" && x.link == "" && item.kind in {Directory, Regular}
    ensures !x.dir && item.kind == Symlink ==> x.mode == 7 * 64 + 7 * 8 + 7 && x.body == "" && x.link == item.link
    ensures !x.dir && item.kind != Symlink ==>
              && item.kind == Regular && x.body == item.body && x.link == ""
              && x.mode == if user % 2 == 1 || group % 2 == 1 || others % 2 == 1 then 7 * 64 + 5 * 8 + 5
                           else 6 * 64 + 4 * 8 + 4
  {
    hide Rebase, ParentNames, NormaliseMode;
    OctalMode(item.mode, special, user, group, others);
  }

  lemma OctalMode(mode: int, special: nat, user: nat, group: nat, others: nat)
    requires user < 8 && group < 8 && others < 8 && mode == special * 512 + user * 64 + group * 8 + others
    ensures NormaliseMode(mode) == if user % 2 == 1 || group % 2 == 1 || others % 2 == 1 then 493 else 420
  {
    LowBit(mode, special * 256 + user * 32 + group * 4, others);
    Shifted(mode, special * 64 + user * 8 + group, others);
    LowBit(mode / 8, special * 32 + user * 4, group);
    Shifted(mode, special * 8 + user, group * 8 + others);
    LowBit(mode / 64, special * 4, user);
  }

  lemma LowBit(n: int, half: nat, digit: nat)
    requires n == 2 * half + digit
    ensures n % 2 == digit % 2
  {
  }

  lemma Shifted(n: int, q: nat, rest: nat)
    ensures n == 8 * q + rest && rest < 8 ==> n / 8 == q
    ensures n == 64 * q + rest && rest < 64 ==> n / 64 == q
  {
  }

  /** The directories recorded are exactly those with an entry. */
  predicate DirsMatch(c: Collected) {
    && (forall d :: d in c.dirs ==> DirEntry(d) in c.entries)
    && (forall i :: 0 <= i < |c.entries| && c.entries[i].dir ==>
          c.entries[i] == DirEntry(c.entries[i].name) && c.entries[i].name in c.dirs)
  }

  lemma AddDirMatches(c: Collected, name: string)
    requires DirsMatch(c)
    ensures DirsMatch(AddDir(c, name))
    ensures forall x :: x in AddDir(c, name).entries <==> x in c.entries || x == DirEntry(name)
  {
    if name !in c.dirs {
      var es := AddDir(c, name).entries;
      assert es[|c.entries|] == DirEntry(name);
      forall d | d in AddDir(c, name).dirs ensures DirEntry(d) in es {
      }
    }
  }

  lemma {:induction false} AddDirsMatches(c: Collected, names: seq<string>, n: nat)
    requires DirsMatch(c) && n <= |names|
    ensures DirsMatch(AddDirs(c, names, n))
    ensures forall x :: x in AddDirs(c, names, n).entries <==>
              x in c.entries || (x == DirEntry(x.name) && exists i :: 0 <= i < n && names[i] == x.name)
  {
    hide DirsMatch, AddDir;
    if n > 0 {
      AddDirsMatches(c, names, n - 1);
      AddDirMatches(AddDirs(c, names, n - 1), names[n - 1]);
    }
  }

  lemma AppendMatches(c: Collected, e: TarEntry)
    requires DirsMatch(c) && !e.dir
    ensures DirsMatch(c.(entries := c.entries + [e]))
  {
  }

  lemma AddPlacedMatches(cfg: Config, c: Collected, item: Item)
    requires DirsMatch(c)
    ensures DirsMatch(AddPlaced(cfg, c, item))
    ensures forall x :: x in AddPlaced(cfg, c, item).entries <==> x in c.entries || Yields(cfg, item, x)
  {
    hide DirsMatch, Rebase, ParentNames, NormaliseMode, AddDir;
    match Rebase(cfg, item.name) {
      case At(dest) =>
        match item.kind {
          case Directory => AddDirMatches(c, dest);
          case Regular =>
            var names := ParentNames(dest);
            AddDirsMatches(c, names, |names|);
            AppendMatches(AddDirs(c, names, |names|), TarEntry(dest, NormaliseMode(item.mode), item.body, false, ""));
          case Symlink => AppendMatches(c, TarEntry(dest, LINK_MODE, "", false, item.link));
          case Other =>
        }
      case _ =>
    }
  }

  /** A layer's entries are exactly what the archive's items yield. */
  lemma {:induction false} GatherYields(cfg: Config, items: seq<Item>, n: nat)
    requires n <= |items|
    ensures DirsMatch(GatherTo(cfg, items, n))
    ensures forall x :: x in GatherTo(cfg, items, n).entries <==> exists i :: 0 <= i < n && Yields(cfg, items[i], x)
  {
    hide DirsMatch, AddPlaced, Yields;
    if n == 0 {
      EmptyMatches();
    } else {
      GatherYields(cfg, items, n - 1);
      AddPlacedMatches(cfg, GatherTo(cfg, items, n - 1), items[n - 1]);
    }
  }

  lemma EmptyMatches()
    ensures DirsMatch(EMPTY)
  {
  }

  // ---------- Well placed ----------

  /** Under the target, the target itself, or one of its ancestors. */
  predicate Related(target: seq<string>, cs: seq<string>) {
    target <= cs || cs <= target
  }

  predicate Fits(target: seq<string>, name: string) {
    PlainName(name) && Related(target, Components(name))
  }

  lemma PlainFits(target: seq<string>, cs: seq<string>)
    requires Plain(cs) && cs != [] && Related(target, cs)
    ensures Fits(target, Join(cs, '/'))
    ensures Components(Join(cs, '/')) == cs
  {
    hide Join, Resolve, Split;
    ComponentsOfJoin(cs);
  }

  /** Every ancestor of a placed name is related to the target, and sorts before the name. */
  lemma {:induction false} AncestorFits(target: seq<string>, cs: seq<string>, i: nat)
    requires Plain(cs) && Related(target, cs) && i + 1 < |cs|
    ensures Fits(target, Join(cs[..i + 1], '/'))
    ensures Less(Join(cs[..i + 1], '/'), Join(cs, '/'))
  {
    hide Join, LessEq, Fits;
    var init := cs[..i + 1];
    assert Related(target, init);
    PlainFits(target, init);
    JoinPrefix(init, cs, '/');
    assert Join(init, '/') <= Join(init, '/') + ['/'];
    PrefixLessEq(Join(init, '/'), Join(cs, '/'));
    if Join(init, '/') == Join(cs, '/') {
      JoinInjective(init, cs, '/');
    }
  }

  lemma ParentsFit(target: seq<string>, name: string, p: string)
    requires Fits(target, name) && p in ParentNames(name)
    ensures Fits(target, p) && Less(p, name)
  {
    hide Join, LessEq, ParentNames, Related;
    var cs := Components(name);
    ParentNamesPlain(cs);
    var i :| 0 <= i < |ParentNames(name)| && ParentNames(name)[i] == p;
    AncestorFits(target, cs, i);
  }

  /** Whatever an item yields lies in the image under the target, or leads there. */
  lemma YieldFits(cfg: Config, item: Item, x: TarEntry)
    requires GoodConfig(cfg) && Yields(cfg, item, x)
    ensures Fits(cfg.target, x.name)
  {
    hide Join, ParentNames, NormaliseMode, Components, Place, Plain, LessEq;
    RebaseInside(cfg, item.name);
    var dest := Rebase(cfg, item.name).dest;
    assert cfg.target <= cfg.target + Rest(cfg, item.name);
    assert Fits(cfg.target, dest);
    if item.kind == Regular && x.name in ParentNames(dest) {
      ParentsFit(cfg.target, dest, x.name);
    }
  }

  /** What every content layer is. */
  predicate WellFormed(target: seq<string>, collected: seq<TarEntry>, out: seq<TarEntry>) {
    && StrictByName(out)
    && (forall k :: 0 <= k < |out| ==> First(collected, out[k].name) == Some(out[k]) && Fits(target, out[k].name))
    && (forall k, p :: 0 <= k < |out| && !out[k].dir && out[k].link == "" && p in ParentNames(out[k].name) ==>
          exists j :: 0 <= j < k && out[j].name == p)
  }

  /** Every file the layer keeps has each of its parents among the names collected. */
  predicate ParentsKept(es: seq<TarEntry>) {
    forall x, p :: x in es && !x.dir && x.link == "" && First(es, x.name) == Some(x) && p in ParentNames(x.name) ==>
      First(es, p).Some?
  }

  lemma LayerWellFormed(target: seq<string>, es: seq<TarEntry>)
    requires forall i :: 0 <= i < |es| ==> Fits(target, es[i].name)
    ensures WellFormed(target, es, Emitted(es)) <==> ParentsKept(es)
  {
    hide Emitted, LessEq, Fits, ParentNames, First;
    EmittedIs(es);
    var out := Emitted(es);
    forall k | 0 <= k < |out| ensures out[k] in es && Fits(target, out[k].name) {
      FirstIsElement(es, out[k].name);
    }
    if ParentsKept(es) {
      forall k, p | 0 <= k < |out| && !out[k].dir && out[k].link == "" && p in ParentNames(out[k].name)
        ensures exists j :: 0 <= j < k && out[j].name == p
      {
        ParentBefore(target, es, k, p);
      }
    }
    if WellFormed(target, es, out) {
      forall x, p | x in es && !x.dir && x.link == "" && First(es, x.name) == Some(x) && p in ParentNames(x.name)
        ensures First(es, p).Some?
      {
        var k :| 0 <= k < |out| && out[k].name == x.name;
        assert out[k] == x;
        var j :| 0 <= j < k && out[j].name == p;
      }
    }
  }

  lemma ParentBefore(target: seq<string>, es: seq<TarEntry>, k: nat, p: string)
    requires k < |Emitted(es)| && Fits(target, Emitted(es)[k].name)
    requires p in ParentNames(Emitted(es)[k].name) && First(es, p).Some?
    ensures exists j :: 0 <= j < k && Emitted(es)[j].name == p
  {
    hide Emitted, LessEq, Fits, ParentNames, First;
    EmittedIs(es);
    var out := Emitted(es);
    ParentsFit(target, out[k].name, p);
    FirstNamed(es, p);
    var j :| 0 <= j < |out| && out[j].name == p;
    if j > k {
      LessTrans(p, out[k].name, p);
    }
  }

  lemma FirstIsElement(es: seq<TarEntry>, name: string)
    requires First(es, name).Some?
    ensures First(es, name).value in es
  {
    FirstToIs(es, name, |es|);
  }

  lemma FirstExists(es: seq<TarEntry>, e: TarEntry)
    requires e in es
    ensures First(es, e.name).Some?
  {
    FirstToIs(es, e.name, |es|);
  }

  lemma FirstNamed(es: seq<TarEntry>, name: string)
    requires First(es, name).Some?
    ensures First(es, name).value in es && First(es, name).value.name == name
  {
    FirstToIs(es, name, |es|);
  }

  lemma {:induction false} GatherGrows(cfg: Config, items: seq<Item>, m: nat, n: nat)
    requires m <= n <= |items|
    ensures GatherTo(cfg, items, m).entries <= GatherTo(cfg, items, n).entries
  {
    hide Rebase, Add;
    if m < n {
      GatherGrows(cfg, items, m, n - 1);
      match Rebase(cfg, items[n - 1].name) {
        case At(dest) => AddGrows(GatherTo(cfg, items, n - 1), dest, items[n - 1]);
        case _ =>
      }
    }
  }

  lemma AddGrows(c: Collected, dest: string, item: Item)
    ensures c.entries <= Add(c, dest, item).entries
  {
    hide ParentNames, NormaliseMode;
    AddDirsGrows(c, ParentNames(dest), |ParentNames(dest)|);
  }

  lemma {:induction false} AddDirsGrows(c: Collected, names: seq<string>, n: nat)
    requires n <= |names|
    ensures c.entries <= AddDirs(c, names, n).entries
  {
    if n > 0 {
      AddDirsGrows(c, names, n - 1);
    }
  }

  lemma FirstOfPrefix(a: seq<TarEntry>, b: seq<TarEntry>, name: string)
    requires a <= b && First(a, name).Some?
    ensures First(b, name) == First(a, name)
  {
    assert b == a + b[|a|..];
    FirstToPrefix(a, b[|a|..], name, |a|);
    FirstStays(b, name, |a|, |b|);
  }

  lemma {:induction false} FirstStays(es: seq<TarEntry>, name: string, m: nat, n: nat)
    requires m <= n <= |es| && FirstTo(es, name, m).Some?
    ensures FirstTo(es, name, n) == FirstTo(es, name, m)
  {
    if m < n {
      FirstStays(es, name, m, n - 1);
    }
  }

  // ---------- Exactly which archives give a well-formed layer ----------

  /** The item puts an entry of this name into the layer. */
  predicate PutsAt(cfg: Config, item: Item, name: string) {
    match Rebase(cfg, item.name)
    case At(dest) =>
      item.kind != Other && (name == dest || (item.kind == Regular && name in ParentNames(dest)))
    case _ => false
  }

  lemma PutsIsYields(cfg: Config, item: Item, name: string)
    ensures PutsAt(cfg, item, name) <==> exists x :: Yields(cfg, item, x) && x.name == name
  {
    hide ParentNames, NormaliseMode, Rebase;
    if PutsAt(cfg, item, name) {
      var dest := Rebase(cfg, item.name).dest;
      var x := if name != dest || item.kind == Directory then DirEntry(name)
               else if item.kind == Regular then TarEntry(dest, NormaliseMode(item.mode), item.body, false, "")
               else TarEntry(dest, LINK_MODE, "", false, item.link);
      assert Yields(cfg, item, x) && x.name == name;
    }
  }

  /** A symlink with an empty target that is the first item at its destination, while some directory
      above it is put there by no item at all. */
  predicate Stray(cfg: Config, items: seq<Item>, k: nat)
    requires k < |items|
  {
    match Rebase(cfg, items[k].name)
    case At(dest) =>
      && items[k].kind == Symlink && items[k].link == ""
      && (forall j :: 0 <= j < k ==> !PutsAt(cfg, items[j], dest))
      && exists p :: p in ParentNames(dest) && forall i :: 0 <= i < |items| ==> !PutsAt(cfg, items[i], p)
    case _ => false
  }

  predicate NoStray(cfg: Config, items: seq<Item>) {
    forall k :: 0 <= k < |items| ==> !Stray(cfg, items, k)
  }

  lemma CollectedNames(cfg: Config, items: seq<Item>, name: string)
    ensures First(Gather(cfg, items).entries, name).Some? <==>
            exists i :: 0 <= i < |items| && PutsAt(cfg, items[i], name)
  {
    hide First, Yields, DirsMatch, GatherTo, PutsAt;
    var es := Gather(cfg, items).entries;
    GatherYields(cfg, items, |items|);
    if First(es, name).Some? {
      FirstNamed(es, name);
      var i :| 0 <= i < |items| && Yields(cfg, items[i], First(es, name).value);
      PutsIsYields(cfg, items[i], name);
    }
    if i :| 0 <= i < |items| && PutsAt(cfg, items[i], name) {
      PutsIsYields(cfg, items[i], name);
      var x :| Yields(cfg, items[i], x) && x.name == name;
      FirstExists(es, x);
    }
  }

  /** The layer keeps what the first item at a name yields there. */
  lemma FirstItemWins(cfg: Config, items: seq<Item>, k: nat, name: string)
    requires k < |items| && PutsAt(cfg, items[k], name)
    requires forall j :: 0 <= j < k ==> !PutsAt(cfg, items[j], name)
    ensures var x := First(Gather(cfg, items).entries, name);
            x.Some? && Yields(cfg, items[k], x.value) && x.value.name == name
  {
    hide First, Yields, DirsMatch, GatherTo, PutsAt;
    var front := GatherTo(cfg, items, k + 1).entries;
    GatherYields(cfg, items, k + 1);
    GatherGrows(cfg, items, k + 1, |items|);
    PutsIsYields(cfg, items[k], name);
    var y :| Yields(cfg, items[k], y) && y.name == name;
    FirstExists(front, y);
    FirstNamed(front, name);
    var i :| 0 <= i < k + 1 && Yields(cfg, items[i], First(front, name).value);
    PutsIsYields(cfg, items[i], name);
    FirstOfPrefix(front, Gather(cfg, items).entries, name);
  }

  lemma {:induction false} Earliest(cfg: Config, items: seq<Item>, name: string, n: nat) returns (k: nat)
    requires n <= |items| && exists i :: 0 <= i < n && PutsAt(cfg, items[i], name)
    ensures k < n && PutsAt(cfg, items[k], name)
    ensures forall j :: 0 <= j < k ==> !PutsAt(cfg, items[j], name)
  {
    hide PutsAt;
    if i :| 0 <= i < n - 1 && PutsAt(cfg, items[i], name) {
      k := Earliest(cfg, items, name, n - 1);
    } else {
      k := n - 1;
    }
  }

  /** A file the layer keeps without one of its parents is a stray empty link. */
  lemma OrphanIsStray(cfg: Config, items: seq<Item>, x: TarEntry, p: string)
    requires !x.dir && x.link == "" && First(Gather(cfg, items).entries, x.name) == Some(x)
    requires p in ParentNames(x.name) && First(Gather(cfg, items).entries, p).None?
    ensures !NoStray(cfg, items)
  {
    hide First, Gather, ParentNames, NormaliseMode, Rebase;
    CollectedNames(cfg, items, x.name);
    CollectedNames(cfg, items, p);
    var k := Earliest(cfg, items, x.name, |items|);
    FirstItemWins(cfg, items, k, x.name);
    assert !PutsAt(cfg, items[k], p);
    assert Stray(cfg, items, k);
  }

  lemma StrayIsOrphan(cfg: Config, items: seq<Item>, k: nat)
    requires k < |items| && Stray(cfg, items, k)
    ensures !ParentsKept(Gather(cfg, items).entries)
  {
    hide First, Gather, ParentNames, NormaliseMode, Rebase;
    var es := Gather(cfg, items).entries;
    var dest := Rebase(cfg, items[k].name).dest;
    FirstItemWins(cfg, items, k, dest);
    FirstNamed(es, dest);
    var p :| p in ParentNames(dest) && forall i :: 0 <= i < |items| ==> !PutsAt(cfg, items[i], p);
    CollectedNames(cfg, items, p);
  }

  /** The layer of an extracted archive has strictly increasing plain names, each the earliest of its
      name, all under the target or leading to it, and every ancestor of a file before the file:
      exactly when the archive holds no stray empty link. */
  lemma ArchiveLayerWellFormed(cfg: Config, items: seq<Item>)
    requires GoodConfig(cfg)
    ensures var es := Gather(cfg, items).entries;
            WellFormed(cfg.target, es, Emitted(es)) <==> NoStray(cfg, items)
  {
    hide Emitted, First, Fits, ParentNames, Yields, WellFormed, Stray, DirsMatch, GatherTo;
    var es := Gather(cfg, items).entries;
    GatherYields(cfg, items, |items|);
    forall i | 0 <= i < |es| ensures Fits(cfg.target, es[i].name) {
      assert es[i] in es;
      var k :| 0 <= k < |items| && Yields(cfg, items[k], es[i]);
      YieldFits(cfg, items[k], es[i]);
    }
    LayerWellFormed(cfg.target, es);
    if NoStray(cfg, items) {
      forall x, p | x in es && !x.dir && x.link == "" && First(es, x.name) == Some(x) && p in ParentNames(x.name)
        ensures First(es, p).Some?
      {
        if First(es, p).None? {
          OrphanIsStray(cfg, items, x, p);
        }
      }
    } else {
      var k :| 0 <= k < |items| && Stray(cfg, items, k);
      StrayIsOrphan(cfg, items, k);
    }
  }

  // ---------- A stray empty link ----------

  const ROOT_CONFIG := Config([], 0, [], "")
  const EMPTY_LINK := Item("a/b", Symlink, 0, "", "")
  const EMPTY_LINK_ENTRY := TarEntry("a/b", LINK_MODE, "", false, "")

  lemma NameAB()
    ensures Components("a/b") == ["a", "b"] && ParentNames("a/b") == ["a"] && Join(["a", "b"], '/') == "a/b"
  {
    hide Dir, Components, ParentNames;
    var cs := ["a", "b"];
    assert cs[1..] == ["b"] && cs[..1] == ["a"];
    assert "a" + ['/'] + "b" == "a/b";
    assert Join(cs, '/') == "a/b";
    ComponentsOfJoin(cs);
    ParentNamesPlain(cs);
  }

  lemma EmptyLinkCollected()
    ensures Gather(ROOT_CONFIG, [EMPTY_LINK]).entries == [EMPTY_LINK_ENTRY]
  {
    hide Components, Join;
    NameAB();
    var rest := Rest(ROOT_CONFIG, "a/b");
    assert rest == ["a", "b"];
    assert [] + rest == ["a", "b"];
    assert AddPlaced(ROOT_CONFIG, EMPTY, EMPTY_LINK).entries == [EMPTY_LINK_ENTRY];
    assert GatherTo(ROOT_CONFIG, [EMPTY_LINK], 0) == EMPTY;
  }

  /** A symlink with an empty target is written as an empty regular file, and nothing synthesises its
      parents: such an archive's layer is not well formed. */
  lemma EmptyLinkHasNoParents()
    ensures var es := Gather(ROOT_CONFIG, [EMPTY_LINK]).entries;
            && es == [EMPTY_LINK_ENTRY]
            && HeaderOf(Stamp(0, 0, 0, 0), es[0]).typeflag == TypeReg
            && !WellFormed([], es, Emitted(es))
  {
    hide Emitted, LessEq, Gather, Fits, ParentNames;
    EmptyLinkCollected();
    NameAB();
    var es := [EMPTY_LINK_ENTRY];
    EmittedIs(es);
    FirstExists(es, EMPTY_LINK_ENTRY);
    var out := Emitted(es);
    var k :| 0 <= k < |out| && out[k].name == "a/b";
    FirstIsElement(es, out[k].name);
    if WellFormed([], es, out) {
      assert "a" in ParentNames(out[k].name);
      var j :| 0 <= j < k && out[j].name == "a";
      FirstIsElement(es, "a");
      assert false;
    }
  }
}
