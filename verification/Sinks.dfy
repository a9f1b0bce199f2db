/** One archive, two sinks: the layer and the build context (internal/oci/extract.go and
    internal/archive/archive.go) accept the same archives but for what a directory tree refuses, and
    hold the same content but for a file that comes twice. */
module Sinks {
  import opened Strings
  import opened Paths
  import opened Archive
  import opened Extract
  import opened Layers
  import opened Contents
  import opened BuildContext

  // ---------- What each entry asks of a tree ----------

  predicate Lands(cfg: Config, item: Item) {
    Rebase(cfg, item.name).At? && item.kind != Other
  }

  /** The elements of the path, below the target or the destination, where a placed entry goes. */
  function PathOf(cfg: Config, item: Item): seq<string> {
    if Rebase(cfg, item.name).At? then Rest(cfg, item.name) else []
  }

  /** The entry makes the path a directory: declared, or on the way to the entry. */
  predicate MakesDir(cfg: Config, item: Item, p: seq<string>) {
    && Lands(cfg, item) && p != []
    && (p < PathOf(cfg, item) || (item.kind == Directory && p == PathOf(cfg, item)))
  }

  predicate MakesFile(cfg: Config, item: Item, p: seq<string>) {
    Lands(cfg, item) && item.kind == Regular && p == PathOf(cfg, item)
  }

  predicate MakesLink(cfg: Config, item: Item, p: seq<string>) {
    Lands(cfg, item) && item.kind == Symlink && p == PathOf(cfg, item)
  }

  /** The later entry cannot be written because of the earlier one: it lies below a file, puts a
      directory at a file or a file at a directory, or puts a symlink at anything. */
  predicate Clashes(cfg: Config, a: Item, b: Item) {
    && Lands(cfg, a) && Lands(cfg, b)
    && var p, q := PathOf(cfg, a), PathOf(cfg, b);
       || (a.kind == Regular && p < q)
       || (b.kind == Directory && MakesFile(cfg, a, q))
       || (b.kind == Regular && MakesDir(cfg, a, q))
       || (b.kind == Symlink && (p == q || MakesDir(cfg, a, q)))
  }

  /** Writing the later entry follows the link the earlier one puts. */
  predicate GoesThrough(cfg: Config, a: Item, b: Item) {
    && Lands(cfg, a) && Lands(cfg, b) && a.kind == Symlink
    && (PathOf(cfg, a) < PathOf(cfg, b) || (PathOf(cfg, a) == PathOf(cfg, b) && b.kind != Symlink))
  }

  predicate NoneThrough(cfg: Config, items: seq<Item>) {
    forall i, j :: 0 <= i < j < |items| ==> !GoesThrough(cfg, items[i], items[j])
  }

  predicate NoClash(cfg: Config, items: seq<Item>, n: nat)
    requires n <= |items|
  {
    forall i, j :: 0 <= i < j < n ==> !Clashes(cfg, items[i], items[j])
  }

  predicate NameAccepted(name: string) {
    !EscapesTarget(name) && !Rooted(name)
  }

  /** What the build context asks of an entry that is placed, and the assembler does not: a tree to
      write into that is neither the root nor the working directory, and links that lead somewhere
      and stay in it. */
  predicate ItemFits(cfg: Config, dest: string, item: Item) {
    Rebase(cfg, item.name).At? ==>
      && Clean(dest) != "/" && Clean(dest) != "."
      && (item.kind == Symlink ==> LinkStays(Join(PathOf(cfg, item), '/'), item.link) && item.link != "")
  }

  /** The first n entries are no more than the limit, and each fits. */
  predicate ContextFits(cfg: Config, dest: string, items: seq<Item>, n: nat)
    requires n <= |items|
  {
    n <= MAX_ENTRIES && forall i :: 0 <= i < n ==> ItemFits(cfg, dest, items[i])
  }

  // ---------- What the tree holds ----------

  predicate AnyDir(cfg: Config, items: seq<Item>, n: nat, p: seq<string>)
    requires n <= |items|
  {
    exists i :: 0 <= i < n && MakesDir(cfg, items[i], p)
  }

  predicate AnyFile(cfg: Config, items: seq<Item>, n: nat, p: seq<string>)
    requires n <= |items|
  {
    exists i :: 0 <= i < n && MakesFile(cfg, items[i], p)
  }

  predicate AnyLink(cfg: Config, items: seq<Item>, n: nat, p: seq<string>)
    requires n <= |items|
  {
    exists i :: 0 <= i < n && MakesLink(cfg, items[i], p)
  }

  predicate IsDir(t: Tree, p: seq<string>) {
    p in t && t[p].Dir?
  }

  predicate IsFile(t: Tree, p: seq<string>) {
    p in t && t[p].File?
  }

  predicate IsLink(t: Tree, p: seq<string>) {
    p in t && t[p].Link?
  }

  /** The last of the first n entries that puts a file at the path. */
  predicate LastFile(cfg: Config, items: seq<Item>, n: nat, p: seq<string>, i: nat)
    requires n <= |items|
  {
    i < n && MakesFile(cfg, items[i], p) && forall k :: i < k < n ==> !MakesFile(cfg, items[k], p)
  }

  ghost predicate KindsOf(cfg: Config, items: seq<Item>, n: nat, t: Tree)
    requires n <= |items|
  {
    && (forall p :: IsDir(t, p) <==> AnyDir(cfg, items, n, p))
    && (forall p :: IsFile(t, p) <==> AnyFile(cfg, items, n, p))
    && (forall p :: IsLink(t, p) <==> AnyLink(cfg, items, n, p))
  }

  predicate HoldsAt(t: Tree, p: seq<string>, node: Node) {
    p in t && t[p] == node
  }

  ghost predicate ContentsOf(cfg: Config, items: seq<Item>, n: nat, t: Tree)
    requires n <= |items|
  {
    && (forall p, i: nat :: LastFile(cfg, items, n, p, i) ==> HoldsAt(t, p, File(items[i].body)))
    && forall p, i :: 0 <= i < n && MakesLink(cfg, items[i], p) ==> HoldsAt(t, p, Link(items[i].link))
  }

  /** The tree is exactly what the first n entries make: directories, files with the last body each
      was given, and links. */
  ghost predicate TreeOf(cfg: Config, items: seq<Item>, n: nat, t: Tree)
    requires n <= |items|
  {
    KindsOf(cfg, items, n, t) && ContentsOf(cfg, items, n, t)
  }

  lemma {:induction false} WithDirsIs(t: Tree, p: seq<string>, n: nat, q: seq<string>)
    requires n <= |p|
    ensures var made := WithDirs(t, p, n);
            if 0 < |q| <= n && q <= p then q in made && made[q] == Dir
            else (q in made <==> q in t) && (q in t ==> made[q] == t[q])
  {
    if n > 0 {
      WithDirsIs(t, p, n - 1, q);
      assert q <= p && |q| == n ==> q == p[..n];
    }
  }

  /** The earlier entry puts a file where the later one needs a directory. */
  predicate InTheWay(cfg: Config, a: Item, q: seq<string>, m: nat) {
    Lands(cfg, a) && a.kind == Regular && PathOf(cfg, a) <= q && |PathOf(cfg, a)| <= m
  }

  /** A file stands in the way of the directories an entry needs exactly when an earlier entry put one
      there. */
  lemma FileOnIs(cfg: Config, items: seq<Item>, n: nat, t: Tree, q: seq<string>, m: nat)
    requires n <= |items| && m <= |q| && GoodConfig(cfg)
    requires forall p :: IsFile(t, p) <==> AnyFile(cfg, items, n, p)
    ensures FileOn(t, q, m) <==>
            exists i :: 0 <= i < n && InTheWay(cfg, items[i], q, m)
  {
    hide Lands, PathOf;
    if FileOn(t, q, m) {
      var k :| 0 < k <= m && q[..k] in t && t[q[..k]].File?;
      assert IsFile(t, q[..k]);
      var i :| 0 <= i < n && MakesFile(cfg, items[i], q[..k]);
      assert PathOf(cfg, items[i]) <= q;
    }
    if i :| 0 <= i < n && InTheWay(cfg, items[i], q, m) {
      var p := PathOf(cfg, items[i]);
      assert p != [] by { RestNotEmpty(cfg, items[i]); }
      assert MakesFile(cfg, items[i], p);
      assert AnyFile(cfg, items, n, p);
      assert IsFile(t, p) && p == q[..|p|];
    }
  }

  lemma RestNotEmpty(cfg: Config, item: Item)
    requires GoodConfig(cfg) && Lands(cfg, item)
    ensures PathOf(cfg, item) != [] && Plain(PathOf(cfg, item))
  {
    hide Components, Join, Plain;
    RebaseInside(cfg, item.name);
  }

  lemma NoLinkOn(cfg: Config, items: seq<Item>, n: nat, t: Tree)
    requires n < |items| && GoodConfig(cfg) && NoneThrough(cfg, items) && Lands(cfg, items[n])
    requires forall p :: IsLink(t, p) <==> AnyLink(cfg, items, n, p)
    requires PathOf(cfg, items[n]) != []
    ensures !Follows(t, PathOf(cfg, items[n]), items[n].kind)
  {
    hide Lands, PathOf;
    var q := PathOf(cfg, items[n]);
    var m := if items[n].kind == Symlink then |q| - 1 else |q|;
    forall k | 0 < k <= m ensures !IsLink(t, q[..k]) {
      forall i | 0 <= i < n ensures !MakesLink(cfg, items[i], q[..k]) {
        assert !GoesThrough(cfg, items[i], items[n]);
      }
    }
  }

  // ---------- One entry ----------

  lemma PathIs(cfg: Config, dest: string, item: Item)
    requires GoodConfig(cfg) && Rebase(cfg, item.name).At? && Clean(dest) != "/" && Clean(dest) != "."
    ensures var full := JoinPath(dest, Join(Rest(cfg, item.name), '/'));
            HasPrefix(full, Clean(dest) + "/") && Below(dest, full) == Rest(cfg, item.name)
  {
    hide Components, Clean, JoinPath, Join, Place;
    RebaseInside(cfg, item.name);
    var rest := Rest(cfg, item.name);
    EscapeCheckExact(dest, rest);
    var full := JoinPath(dest, Join(rest, '/'));
    WithoutIs(full, |Clean(dest)| + 1);
    assert full[|Clean(dest)| + 1..] == Join(rest, '/');
    SplitJoin(rest, '/');
  }

  /** An entry whose name neither sink refuses is passed over, refused for the destination, or put at
      its path. */
  lemma WriteNextIs(cfg: Config, dest: string, item: Item, follow: Follow, t: Tree)
    requires GoodConfig(cfg) && NameAccepted(item.name)
    ensures var r := WriteNext(cfg, dest, item, follow, t);
            && (!Rebase(cfg, item.name).At? ==> r == Extraction(t, None))
            && (Rebase(cfg, item.name).At? && (Clean(dest) == "/" || Clean(dest) == ".") ==>
                  r == Extraction(t, Some(EscapesDestination(item.name))))
            && (Rebase(cfg, item.name).At? && Clean(dest) != "/" && Clean(dest) != "." ==>
                  && Rest(cfg, item.name) != []
                  && r == Put(t, Rest(cfg, item.name), item,
                              LinkStays(Join(Rest(cfg, item.name), '/'), item.link), follow))
  {
    hide Components, Clean, JoinPath, LinkStays, Plain, Join, Place, Put, Below;
    CleanRooted(item.name);
    var place := Place(cfg.strip, cfg.sub, Parts(item.name));
    assert place == Placed(cfg, item.name);
    if Rebase(cfg, item.name).At? {
      RebaseInside(cfg, item.name);
      EscapeCheckExact(dest, Rest(cfg, item.name));
      if Clean(dest) != "/" && Clean(dest) != "." {
        PathIs(cfg, dest, item);
      }
    } else {
      assert !place.selected;
    }
  }

  lemma CleanRooted(name: string)
    ensures HasPrefix(Clean(name), "/") <==> Rooted(name)
  {
    var cs := Components(name);
    ComponentsNormal(name);
    if !Rooted(name) && cs != [] {
      JoinNotRooted(cs);
    }
  }

  /** An earlier entry stands in the way of this one. */
  predicate Refused(cfg: Config, items: seq<Item>, n: nat)
    requires n < |items|
  {
    exists i :: 0 <= i < n && Clashes(cfg, items[i], items[n])
  }

  /** A tree refuses an entry exactly when it clashes with an earlier one, or is a link that may not be. */
  lemma PutRefuses(cfg: Config, items: seq<Item>, n: nat, t: Tree, stays: bool, follow: Follow)
    requires n < |items| && GoodConfig(cfg) && NoneThrough(cfg, items) && TreeOf(cfg, items, n, t)
    requires Lands(cfg, items[n]) && PathOf(cfg, items[n]) != []
    ensures var r := Put(t, PathOf(cfg, items[n]), items[n], stays, follow);
            && (r.error.Some? <==>
                  Refused(cfg, items, n) || (items[n].kind == Symlink && !(stays && items[n].link != "")))
            && (r.error.Some? ==> !r.error.value.NothingSelected?)
  {
    hide PathOf, FileOn, Follows, GoesThrough, NoneThrough, ContentsOf;
    var item := items[n];
    var q := PathOf(cfg, item);
    var m := DirDepth(q, item.kind);
    NoLinkOn(cfg, items, n, t);
    FileOnIs(cfg, items, n, t, q, m);
    WithDirsIs(t, q, m, q);
    KindCases(cfg, items, n, t, q);
  }

  lemma ClashIs(cfg: Config, a: Item, b: Item, q: seq<string>)
    requires Lands(cfg, b) && q == PathOf(cfg, b) && q != []
    ensures Clashes(cfg, a, b) <==>
              || InTheWay(cfg, a, q, DirDepth(q, b.kind))
              || (b.kind == Regular && MakesDir(cfg, a, q))
              || (b.kind == Symlink && (MakesDir(cfg, a, q) || MakesFile(cfg, a, q) || MakesLink(cfg, a, q)))
  {
    hide PathOf;
  }

  /** What stands at the path itself. */
  lemma KindCases(cfg: Config, items: seq<Item>, n: nat, t: Tree, q: seq<string>)
    requires n < |items| && KindsOf(cfg, items, n, t) && Lands(cfg, items[n]) && q == PathOf(cfg, items[n]) && q != []
    ensures Refused(cfg, items, n) <==>
              || (exists i :: 0 <= i < n && InTheWay(cfg, items[i], q, DirDepth(q, items[n].kind)))
              || (items[n].kind == Regular && IsDir(t, q))
              || (items[n].kind == Symlink && q in t)
  {
    hide PathOf, Clashes, InTheWay, MakesDir, MakesFile, MakesLink, Lands;
    forall i | 0 <= i < n ensures Clashes(cfg, items[i], items[n]) <==>
              || InTheWay(cfg, items[i], q, DirDepth(q, items[n].kind))
              || (items[n].kind == Regular && MakesDir(cfg, items[i], q))
              || (items[n].kind == Symlink
                  && (MakesDir(cfg, items[i], q) || MakesFile(cfg, items[i], q) || MakesLink(cfg, items[i], q)))
    {
      ClashIs(cfg, items[i], items[n], q);
    }
    assert q in t <==> IsDir(t, q) || IsFile(t, q) || IsLink(t, q);
    assert IsDir(t, q) <==> AnyDir(cfg, items, n, q);
    assert IsFile(t, q) <==> AnyFile(cfg, items, n, q);
    assert IsLink(t, q) <==> AnyLink(cfg, items, n, q);
  }

  /** What one entry changes: the directories it needs, and what it puts at its path. */
  lemma PutChanges(t: Tree, q: seq<string>, item: Item, stays: bool, follow: Follow, p: seq<string>)
    requires q != [] && item.kind != Other && !Follows(t, q, item.kind) && Put(t, q, item, stays, follow).error.None?
    ensures var t' := Put(t, q, item, stays, follow).tree;
            var onWay := 0 < |p| <= DirDepth(q, item.kind) && p <= q;
            && (IsDir(t', p) <==> IsDir(t, p) || onWay)
            && (IsFile(t', p) <==> IsFile(t, p) || (item.kind == Regular && p == q))
            && (IsLink(t', p) <==> IsLink(t, p) || (item.kind == Symlink && p == q))
            && (item.kind == Regular && p == q ==> p in t' && t'[p] == File(item.body))
            && (item.kind == Symlink && p == q ==> p in t' && t'[p] == Link(item.link))
            && (item.kind == Regular ==> !IsLink(t, q)) && (item.kind == Symlink ==> q !in t)
            && (p in t && !t[p].Dir? && p != q ==> p in t' && t'[p] == t[p])
            && (p in t && !t[p].Dir? && item.kind != Regular ==> p in t' && t'[p] == t[p])
  {
    hide WithDirs;
    var m := DirDepth(q, item.kind);
    WithDirsIs(t, q, m, p);
    WithDirsIs(t, q, m, q);
    if 0 < |p| <= m && p <= q {
      assert p == q[..|p|];
      assert !IsFile(t, p) && !IsLink(t, p);
    }
    assert q == q[..|q|];
  }

  lemma AnyNext(cfg: Config, items: seq<Item>, n: nat, p: seq<string>)
    requires n < |items|
    ensures AnyDir(cfg, items, n + 1, p) <==> AnyDir(cfg, items, n, p) || MakesDir(cfg, items[n], p)
    ensures AnyFile(cfg, items, n + 1, p) <==> AnyFile(cfg, items, n, p) || MakesFile(cfg, items[n], p)
    ensures AnyLink(cfg, items, n + 1, p) <==> AnyLink(cfg, items, n, p) || MakesLink(cfg, items[n], p)
  {
    hide MakesDir, MakesFile, MakesLink;
  }

  /** The paths an entry needs as directories. */
  lemma OnWayIs(cfg: Config, item: Item, q: seq<string>, p: seq<string>)
    requires Lands(cfg, item) && q == PathOf(cfg, item) && q != []
    ensures MakesDir(cfg, item, p) <==> 0 < |p| <= DirDepth(q, item.kind) && p <= q
    ensures MakesFile(cfg, item, p) <==> item.kind == Regular && p == q
    ensures MakesLink(cfg, item, p) <==> item.kind == Symlink && p == q
  {
    hide PathOf;
    assert p <= q && |p| == |q| ==> p == q;
  }

  lemma PutKinds(cfg: Config, items: seq<Item>, n: nat, t: Tree, stays: bool, follow: Follow)
    requires n < |items| && KindsOf(cfg, items, n, t) && Lands(cfg, items[n]) && PathOf(cfg, items[n]) != []
    requires !Follows(t, PathOf(cfg, items[n]), items[n].kind)
    requires Put(t, PathOf(cfg, items[n]), items[n], stays, follow).error.None?
    ensures KindsOf(cfg, items, n + 1, Put(t, PathOf(cfg, items[n]), items[n], stays, follow).tree)
  {
    hide PathOf, Put, Follows, MakesDir, MakesFile, MakesLink, AnyDir, AnyFile, AnyLink;
    var item, q := items[n], PathOf(cfg, items[n]);
    var t' := Put(t, q, item, stays, follow).tree;
    forall p ensures (IsDir(t', p) <==> AnyDir(cfg, items, n + 1, p))
                  && (IsFile(t', p) <==> AnyFile(cfg, items, n + 1, p))
                  && (IsLink(t', p) <==> AnyLink(cfg, items, n + 1, p))
    {
      PutChanges(t, q, item, stays, follow, p);
      AnyNext(cfg, items, n, p);
      OnWayIs(cfg, item, q, p);
    }
  }

  lemma PutFile(cfg: Config, items: seq<Item>, n: nat, t: Tree, stays: bool, follow: Follow, p: seq<string>, i: nat)
    requires n < |items| && ContentsOf(cfg, items, n, t) && Lands(cfg, items[n]) && PathOf(cfg, items[n]) != []
    requires !Follows(t, PathOf(cfg, items[n]), items[n].kind)
    requires Put(t, PathOf(cfg, items[n]), items[n], stays, follow).error.None? && LastFile(cfg, items, n + 1, p, i)
    ensures var t' := Put(t, PathOf(cfg, items[n]), items[n], stays, follow).tree;
            HoldsAt(t', p, File(items[i].body))
  {
    hide PathOf, Put, Follows, MakesFile, MakesLink;
    var item, q := items[n], PathOf(cfg, items[n]);
    PutChanges(t, q, item, stays, follow, p);
    OnWayIs(cfg, item, q, p);
    if i < n {
      LastBefore(cfg, items, n, p, i);
    }
  }

  lemma PutLink(cfg: Config, items: seq<Item>, n: nat, t: Tree, stays: bool, follow: Follow, p: seq<string>, i: nat)
    requires n < |items| && ContentsOf(cfg, items, n, t) && Lands(cfg, items[n]) && PathOf(cfg, items[n]) != []
    requires !Follows(t, PathOf(cfg, items[n]), items[n].kind)
    requires Put(t, PathOf(cfg, items[n]), items[n], stays, follow).error.None?
    requires i < n + 1 && MakesLink(cfg, items[i], p)
    ensures var t' := Put(t, PathOf(cfg, items[n]), items[n], stays, follow).tree;
            HoldsAt(t', p, Link(items[i].link))
  {
    hide PathOf, Put, Follows, MakesFile, MakesLink, LastFile;
    var item, q := items[n], PathOf(cfg, items[n]);
    PutChanges(t, q, item, stays, follow, p);
    OnWayIs(cfg, item, q, p);
  }

  lemma PutContents(cfg: Config, items: seq<Item>, n: nat, t: Tree, stays: bool, follow: Follow)
    requires n < |items| && ContentsOf(cfg, items, n, t) && Lands(cfg, items[n]) && PathOf(cfg, items[n]) != []
    requires !Follows(t, PathOf(cfg, items[n]), items[n].kind)
    requires Put(t, PathOf(cfg, items[n]), items[n], stays, follow).error.None?
    ensures ContentsOf(cfg, items, n + 1, Put(t, PathOf(cfg, items[n]), items[n], stays, follow).tree)
  {
    hide PathOf, Put, Follows, MakesFile, MakesLink, HoldsAt, Lands;
    var t' := Put(t, PathOf(cfg, items[n]), items[n], stays, follow).tree;
    forall p, i: nat | LastFile(cfg, items, n + 1, p, i) ensures HoldsAt(t', p, File(items[i].body)) {
      PutFile(cfg, items, n, t, stays, follow, p, i);
    }
    forall p, i | 0 <= i < n + 1 && MakesLink(cfg, items[i], p) ensures HoldsAt(t', p, Link(items[i].link)) {
      PutLink(cfg, items, n, t, stays, follow, p, i);
    }
  }

  lemma PutTree(cfg: Config, items: seq<Item>, n: nat, t: Tree, stays: bool, follow: Follow)
    requires n < |items| && GoodConfig(cfg) && NoneThrough(cfg, items) && TreeOf(cfg, items, n, t)
    requires Lands(cfg, items[n]) && PathOf(cfg, items[n]) != []
    requires Put(t, PathOf(cfg, items[n]), items[n], stays, follow).error.None?
    ensures TreeOf(cfg, items, n + 1, Put(t, PathOf(cfg, items[n]), items[n], stays, follow).tree)
  {
    hide PathOf, Put, Follows, NoneThrough, ContentsOf, AnyDir, AnyFile, AnyLink;
    NoLinkOn(cfg, items, n, t);
    PutKinds(cfg, items, n, t, stays, follow);
    PutContents(cfg, items, n, t, stays, follow);
  }

  // ---------- The whole archive ----------

  lemma NoClashNext(cfg: Config, items: seq<Item>, n: nat)
    requires n < |items|
    ensures NoClash(cfg, items, n + 1) <==> NoClash(cfg, items, n) && !Refused(cfg, items, n)
  {
    hide Clashes;
  }

  lemma FitsNext(cfg: Config, dest: string, items: seq<Item>, n: nat)
    requires n < |items|
    ensures ContextFits(cfg, dest, items, n + 1) <==>
            ContextFits(cfg, dest, items, n) && n < MAX_ENTRIES && ItemFits(cfg, dest, items[n])
  {
    hide ItemFits;
  }

  lemma NotLanded(cfg: Config, a: Item, b: Item, p: seq<string>)
    requires !Lands(cfg, b)
    ensures !MakesDir(cfg, b, p) && !MakesFile(cfg, b, p) && !MakesLink(cfg, b, p) && !Clashes(cfg, a, b)
  {
    hide PathOf, Lands;
  }

  lemma NotLandedKeeps(cfg: Config, items: seq<Item>, n: nat, t: Tree)
    requires n < |items| && TreeOf(cfg, items, n, t) && !Lands(cfg, items[n])
    ensures TreeOf(cfg, items, n + 1, t) && !Refused(cfg, items, n)
  {
    hide AnyDir, AnyFile, AnyLink, Lands, MakesDir, MakesFile, MakesLink, Clashes, ContentsOf;
    forall i | 0 <= i < n ensures !Clashes(cfg, items[i], items[n]) {
      NotLanded(cfg, items[i], items[n], []);
    }
    forall p ensures (IsDir(t, p) <==> AnyDir(cfg, items, n + 1, p))
                  && (IsFile(t, p) <==> AnyFile(cfg, items, n + 1, p))
                  && (IsLink(t, p) <==> AnyLink(cfg, items, n + 1, p))
    {
      AnyNext(cfg, items, n, p);
      NotLanded(cfg, items[n], items[n], p);
    }
    NotLandedContents(cfg, items, n, t);
  }

  lemma LastBefore(cfg: Config, items: seq<Item>, n: nat, p: seq<string>, i: nat)
    requires n < |items| && LastFile(cfg, items, n + 1, p, i) && !MakesFile(cfg, items[n], p)
    ensures LastFile(cfg, items, n, p, i)
  {
    hide MakesFile;
  }

  lemma NotLandedContents(cfg: Config, items: seq<Item>, n: nat, t: Tree)
    requires n < |items| && ContentsOf(cfg, items, n, t) && !Lands(cfg, items[n])
    ensures ContentsOf(cfg, items, n + 1, t)
  {
    hide Lands, MakesFile, MakesLink, HoldsAt;
    forall p, i: nat | LastFile(cfg, items, n + 1, p, i) ensures HoldsAt(t, p, File(items[i].body)) {
      NotLanded(cfg, items[n], items[n], p);
      LastBefore(cfg, items, n, p, i);
    }
    forall p, i | 0 <= i < n + 1 && MakesLink(cfg, items[i], p) ensures HoldsAt(t, p, Link(items[i].link)) {
      NotLanded(cfg, items[n], items[n], p);
    }
  }

  lemma StepTree(cfg: Config, dest: string, items: seq<Item>, n: nat, follow: Follow, t: Tree)
    requires n < |items| && GoodConfig(cfg) && NameAccepted(items[n].name) && NoneThrough(cfg, items)
    requires TreeOf(cfg, items, n, t)
    ensures var r := WriteNext(cfg, dest, items[n], follow, t);
            && (r.error.None? <==> ItemFits(cfg, dest, items[n]) && !Refused(cfg, items, n))
            && (r.error.None? ==> TreeOf(cfg, items, n + 1, r.tree))
            && (r.error.Some? ==> !r.error.value.NothingSelected?)
  {
    hide Components, Clean, JoinPath, LinkStays, Join, Place, Put, TreeOf, Refused, NoneThrough, WriteNext, Rest;
    var item := items[n];
    WriteNextIs(cfg, dest, item, follow, t);
    if !Lands(cfg, item) {
      NotLandedKeeps(cfg, items, n, t);
      OtherPut(t, item, follow);
    } else if Clean(dest) != "/" && Clean(dest) != "." {
      var stays := LinkStays(Join(Rest(cfg, item.name), '/'), item.link);
      PutRefuses(cfg, items, n, t, stays, follow);
      if Put(t, PathOf(cfg, item), item, stays, follow).error.None? {
        PutTree(cfg, items, n, t, stays, follow);
      }
    }
  }

  lemma OtherPut(t: Tree, item: Item, follow: Follow)
    ensures item.kind == Other ==> forall p, stays :: p != [] ==> Put(t, p, item, stays, follow) == Extraction(t, None)
  {
  }

  /** The context takes the first n entries exactly when they fit it and none clashes with one before
      it, and then holds exactly what they make. */
  lemma {:induction false} TreeIs(cfg: Config, dest: string, items: seq<Item>, n: nat, follow: Follow)
    requires n <= |items| && GoodConfig(cfg) && NoneThrough(cfg, items)
    requires forall i :: 0 <= i < |items| ==> NameAccepted(items[i].name)
    ensures var r := WrittenTo(cfg, dest, items, n, follow, map[]);
            && (r.error.None? <==> ContextFits(cfg, dest, items, n) && NoClash(cfg, items, n))
            && (r.error.None? ==> TreeOf(cfg, items, n, r.tree))
            && (r.error.Some? ==> !r.error.value.NothingSelected?)
  {
    hide WriteNext, NameAccepted, ContextFits, NoClash, TreeOf, NoneThrough, Refused, ItemFits;
    if n == 0 {
      NothingYet(cfg, dest, items);
    } else {
      TreeIs(cfg, dest, items, n - 1, follow);
      NoClashNext(cfg, items, n - 1);
      FitsNext(cfg, dest, items, n - 1);
      var before := WrittenTo(cfg, dest, items, n - 1, follow, map[]);
      if before.error.None? {
        StepTree(cfg, dest, items, n - 1, follow, before.tree);
      }
    }
  }

  lemma NothingYet(cfg: Config, dest: string, items: seq<Item>)
    ensures ContextFits(cfg, dest, items, 0) && NoClash(cfg, items, 0) && TreeOf(cfg, items, 0, map[])
  {
  }

  // ---------- The same content ----------

  /** A layer's entry and a tree's node are the same thing. */
  predicate SameThing(e: TarEntry, node: Node) {
    match node
    case Dir => e.dir
    case File(body) => !e.dir && e.link == "" && e.body == body
    case Link(to) => !e.dir && e.link == to
  }

  /** At every path, what the layer keeps is what the tree holds; and the tree holds nothing else but
      directories on the way to something. */
  ghost predicate Agrees(cfg: Config, es: seq<TarEntry>, t: Tree) {
    forall p :: p != [] && Plain(p) ==> AgreesAt(First(es, Join(cfg.target + p, '/')), t, p)
  }

  predicate AgreesAt(e: Option<TarEntry>, t: Tree, p: seq<string>) {
    match e
    case None => p in t ==> t[p] == Dir
    case Some(x) => p in t && SameThing(x, t[p])
  }

  predicate FirstFile(cfg: Config, items: seq<Item>, p: seq<string>, i: nat)
    requires i < |items|
  {
    MakesFile(cfg, items[i], p) && forall k :: 0 <= k < i ==> !MakesFile(cfg, items[k], p)
  }

  /** A file that comes more than once comes last with the body it had first. */
  predicate OneBody(cfg: Config, items: seq<Item>) {
    forall i, j :: 0 <= i < |items| && 0 <= j < |items| ==>
      (FirstFile(cfg, items, PathOf(cfg, items[i]), i) && LastFile(cfg, items, |items|, PathOf(cfg, items[i]), j) ==>
         items[i].body == items[j].body)
  }

  lemma PrefixUnder(target: seq<string>, p: seq<string>, q: seq<string>)
    ensures target + p <= target + q <==> p <= q
  {
    var cs, ds := target + p, target + q;
    if cs <= ds {
      forall k | 0 <= k < |p| ensures p[k] == q[k] {
        assert cs[|target| + k] == ds[|target| + k];
      }
    }
  }

  lemma JoinUnder(target: seq<string>, p: seq<string>, q: seq<string>)
    requires Plain(target) && Plain(p) && Plain(q) && p != [] && q != []
    ensures Join(target + p, '/') == Join(target + q, '/') <==> p == q
    ensures Join(target + p, '/') in ParentNames(Join(target + q, '/')) <==> p < q
  {
    hide Join, ParentNames, Components;
    var cs, ds := target + p, target + q;
    ComponentsOfJoin(cs);
    ComponentsOfJoin(ds);
    assert cs == ds ==> p == cs[|target|..] && q == ds[|target|..];
    ParentNamesPlain(ds);
    var ps := ParentNames(Join(ds, '/'));
    if Join(cs, '/') in ps {
      var i :| 0 <= i < |ps| && ps[i] == Join(cs, '/');
      ComponentsOfJoin(ds[..i + 1]);
      assert cs == ds[..i + 1];
    }
    PrefixUnder(target, p, q);
    if p < q {
      assert cs == ds[..|cs|];
      assert ps[|cs| - 1] == Join(cs, '/');
    }
  }

  /** Where an item puts something in the layer. */
  lemma PutsIs(cfg: Config, item: Item, p: seq<string>)
    requires GoodConfig(cfg) && p != [] && Plain(p)
    ensures PutsAt(cfg, item, Join(cfg.target + p, '/')) <==>
            Lands(cfg, item) && (p == PathOf(cfg, item) || (item.kind == Regular && p < PathOf(cfg, item)))
  {
    hide Join, ParentNames, Components, Plain, Place, GoodConfig;
    if Rebase(cfg, item.name).At? {
      RebaseInside(cfg, item.name);
      GoodPlain(cfg);
      JoinUnder(cfg.target, p, Rest(cfg, item.name));
    }
  }

  lemma GoodPlain(cfg: Config)
    requires GoodConfig(cfg)
    ensures Plain(cfg.target)
  {
  }

  /** What it puts there. */
  lemma YieldIs(cfg: Config, item: Item, p: seq<string>, x: TarEntry)
    requires GoodConfig(cfg) && p != [] && Plain(p)
    requires Yields(cfg, item, x) && x.name == Join(cfg.target + p, '/')
    ensures item.kind == Directory ==> MakesDir(cfg, item, p) && x.dir
    ensures item.kind == Regular ==>
              || (MakesDir(cfg, item, p) && x.dir)
              || (MakesFile(cfg, item, p) && !x.dir && x.link == "" && x.body == item.body)
    ensures item.kind == Symlink ==> MakesLink(cfg, item, p) && !x.dir && x.link == item.link
    ensures item.kind != Other
  {
    hide Join, ParentNames, Components, Plain, Place, GoodConfig, NormaliseMode;
    RebaseInside(cfg, item.name);
    GoodPlain(cfg);
    JoinUnder(cfg.target, p, Rest(cfg, item.name));
  }

  /** Nothing in the layer at a path: nothing but a directory in the tree. */
  lemma NothingPut(cfg: Config, items: seq<Item>, t: Tree, p: seq<string>)
    requires GoodConfig(cfg) && p != [] && Plain(p) && TreeOf(cfg, items, |items|, t)
    requires First(Gather(cfg, items).entries, Join(cfg.target + p, '/')).None?
    ensures AgreesAt(None, t, p)
  {
    hide Join, Gather, First, PutsAt, PathOf, GoodConfig, Plain, ContentsOf;
    CollectedNames(cfg, items, Join(cfg.target + p, '/'));
    forall i | 0 <= i < |items| ensures !MakesFile(cfg, items[i], p) && !MakesLink(cfg, items[i], p) {
      PutsIs(cfg, items[i], p);
    }
    assert IsFile(t, p) <==> AnyFile(cfg, items, |items|, p);
    assert IsLink(t, p) <==> AnyLink(cfg, items, |items|, p);
  }

  /** Something in the layer at a path: the same in the tree, unless it is a file whose last body is
      not its first. */
  lemma SomethingPut(cfg: Config, items: seq<Item>, t: Tree, p: seq<string>) returns (k: nat)
    requires GoodConfig(cfg) && p != [] && Plain(p) && TreeOf(cfg, items, |items|, t)
    requires First(Gather(cfg, items).entries, Join(cfg.target + p, '/')).Some?
    ensures k < |items|
    ensures var e := First(Gather(cfg, items).entries, Join(cfg.target + p, '/'));
            && (AnyFile(cfg, items, |items|, p) <==> MakesFile(cfg, items[k], p))
            && (!MakesFile(cfg, items[k], p) ==> AgreesAt(e, t, p))
            && (MakesFile(cfg, items[k], p) ==>
                  FirstFile(cfg, items, p, k) && IsFile(t, p)
                  && (AgreesAt(e, t, p) <==> HoldsAt(t, p, File(items[k].body))))
  {
    hide Join, Gather, First, PutsAt, PathOf, GoodConfig, Plain, Yields, MakesDir, MakesFile, MakesLink;
    var name := Join(cfg.target + p, '/');
    CollectedNames(cfg, items, name);
    k := Earliest(cfg, items, name, |items|);
    FirstItemWins(cfg, items, k, name);
    var x := First(Gather(cfg, items).entries, name).value;
    YieldIs(cfg, items[k], p, x);
    assert IsDir(t, p) <==> AnyDir(cfg, items, |items|, p);
    assert IsFile(t, p) <==> AnyFile(cfg, items, |items|, p);
    assert IsLink(t, p) <==> AnyLink(cfg, items, |items|, p);
    forall j | 0 <= j < k ensures !MakesFile(cfg, items[j], p) {
      PutsIs(cfg, items[j], p);
      FilePuts(cfg, items[j], p);
    }
    NotFileOtherwise(cfg, items[k], p);
  }

  lemma FilePuts(cfg: Config, item: Item, p: seq<string>)
    ensures MakesFile(cfg, item, p) ==> Lands(cfg, item) && p == PathOf(cfg, item)
  {
  }

  lemma NotFileOtherwise(cfg: Config, item: Item, p: seq<string>)
    ensures item.kind != Regular ==> !MakesFile(cfg, item, p)
  {
  }

  lemma {:induction false} LastOf(cfg: Config, items: seq<Item>, n: nat, p: seq<string>) returns (j: nat)
    requires n <= |items| && AnyFile(cfg, items, n, p)
    ensures LastFile(cfg, items, n, p, j)
  {
    hide MakesFile;
    if MakesFile(cfg, items[n - 1], p) {
      j := n - 1;
    } else {
      j := LastOf(cfg, items, n - 1, p);
    }
  }

  lemma ContentAgrees(cfg: Config, items: seq<Item>, t: Tree)
    requires GoodConfig(cfg) && TreeOf(cfg, items, |items|, t)
    ensures Agrees(cfg, Gather(cfg, items).entries, t) <==> OneBody(cfg, items)
  {
    hide Join, Gather, First, GoodConfig, Plain, MakesFile, KindsOf, AgreesAt;
    var es := Gather(cfg, items).entries;
    if OneBody(cfg, items) {
      forall p | p != [] && Plain(p) ensures AgreesAt(First(es, Join(cfg.target + p, '/')), t, p) {
        if First(es, Join(cfg.target + p, '/')).None? {
          NothingPut(cfg, items, t, p);
        } else {
          var k := SomethingPut(cfg, items, t, p);
          if MakesFile(cfg, items[k], p) {
            var j := LastOf(cfg, items, |items|, p);
            FilePuts(cfg, items[k], p);
          }
        }
      }
    }
    if Agrees(cfg, es, t) {
      forall i, j | 0 <= i < |items| && 0 <= j < |items|
        && FirstFile(cfg, items, PathOf(cfg, items[i]), i) && LastFile(cfg, items, |items|, PathOf(cfg, items[i]), j)
        ensures items[i].body == items[j].body
      {
        BodiesMeet(cfg, items, t, i, j);
      }
    }
  }

  lemma BodiesMeet(cfg: Config, items: seq<Item>, t: Tree, i: nat, j: nat)
    requires GoodConfig(cfg) && TreeOf(cfg, items, |items|, t) && Agrees(cfg, Gather(cfg, items).entries, t)
    requires i < |items| && j < |items| && FirstFile(cfg, items, PathOf(cfg, items[i]), i)
    requires LastFile(cfg, items, |items|, PathOf(cfg, items[i]), j)
    ensures items[i].body == items[j].body
  {
    hide Join, Gather, First, GoodConfig, Plain, MakesFile, KindsOf, AgreesAt, PutsAt;
    var p := PathOf(cfg, items[i]);
    FilePuts(cfg, items[i], p);
    RestNotEmpty(cfg, items[i]);
    PutsIs(cfg, items[i], p);
    CollectedNames(cfg, items, Join(cfg.target + p, '/'));
    var k := SomethingPut(cfg, items, t, p);
    assert AnyFile(cfg, items, |items|, p);
    assert k == i;
  }

  /** An archive none of whose names either sink refuses, and in which no entry is written through a
      link put earlier: both sinks refuse it when it selects nothing, with the same reason; otherwise
      the layer takes it, and the context takes it exactly when it fits and no two of its entries
      clash, in that order; and then the two hold the same, path by path, exactly when no file that
      comes again comes last with another body. */
  lemma SinksAgree(cfg: Config, dest: string, items: seq<Item>, follow: Follow)
    requires GoodConfig(cfg) && NoneThrough(cfg, items)
    requires forall i :: 0 <= i < |items| ==> NameAccepted(items[i].name)
    ensures var context, layer := ContextTree(cfg, dest, items, follow, map[]), TarEntries(cfg, items);
            var fine := ContextFits(cfg, dest, items, |items|) && NoClash(cfg, items, |items|);
            && layer == (match WalkVerdict(cfg, items)
                         case Some(refusal) => Err(SelectedNothing(refusal))
                         case None => Ok(Gather(cfg, items).entries))
            && (context.error.None? <==> fine && layer.Ok?)
            && (fine && layer.Err? ==> context.error == Some(NothingSelected(WalkVerdict(cfg, items).value)))
            && (!fine ==> !context.error.value.NothingSelected?)
            && (context.error.None? ==>
                  && TreeOf(cfg, items, |items|, context.tree)
                  && (Agrees(cfg, layer.value, context.tree) <==> OneBody(cfg, items)))
  {
    hide WrittenTo, GoodConfig, NoneThrough, ContextFits, NoClash, TreeOf, Agrees, OneBody, Components, Gather;
    FirstEscapeNone(items, 0);
    TreeIs(cfg, dest, items, |items|, follow);
    assert HeaderParts(items) == Names(items) by {
      forall i | 0 <= i < |items| ensures HeaderParts(items)[i] == Names(items)[i] {
        assert NameAccepted(items[i].name);
      }
    }
    var written := WrittenTo(cfg, dest, items, |items|, follow, map[]);
    if written.error.None? {
      ContentAgrees(cfg, items, written.tree);
    }
  }

  // ---------- Where they part ----------

  const LINK := Item("a", Symlink, 0, "", "x")
  const FILE := Item("a", Regular, 0, "1", "")
  const OTHER_FILE := Item("a", Regular, 0, "2", "")
  const FILE_BELOW := Item("a/b", Regular, 0, "", "")

  lemma NameA()
    ensures Components("a") == ["a"]
  {
    var cs := ["a"];
    assert Join(cs, '/') == "a";
    ComponentsOfJoin(cs);
  }

  /** With nothing stripped or selected an entry keeps its elements. */
  lemma RootPath(item: Item, cs: seq<string>)
    requires Components(item.name) == cs && cs != [] && cs != [""] && cs[0] != ".." && item.kind != Other
    ensures Lands(ROOT_CONFIG, item) && PathOf(ROOT_CONFIG, item) == cs && !EscapesTarget(item.name)
  {
    hide Components, Join;
    WithoutIs(cs, 0);
    assert cs[0..] == cs;
  }

  lemma RootPaths(item: Item)
    requires item in [LINK, FILE, OTHER_FILE, FILE_BELOW]
    ensures Lands(ROOT_CONFIG, item) && NameAccepted(item.name)
    ensures PathOf(ROOT_CONFIG, item) == if item == FILE_BELOW then ["a", "b"] else ["a"]
  {
    hide Components, Join, Lands, PathOf, EscapesTarget;
    NameA();
    NameAB();
    assert |"a"| == 1 && |".."| == 2;
    assert item.name[0] == 'a';
    RootPath(item, if item == FILE_BELOW then ["a", "b"] else ["a"]);
  }

  lemma RootSelects(items: seq<Item>)
    ensures WalkVerdict(ROOT_CONFIG, items) == None
  {
  }

  /** Two entries for one link: a layer keeps the first, and the second cannot be written to a tree. */
  lemma LinkTwiceRefused(dest: string, follow: Follow)
    ensures ContextTree(ROOT_CONFIG, dest, [LINK, LINK], follow, map[]).error.Some?
    ensures TarEntries(ROOT_CONFIG, [LINK, LINK]).Ok?
  {
    hide PathOf, Lands, ContextTree, TarEntries, NameAccepted, WalkVerdict;
    var items := [LINK, LINK];
    RootPaths(LINK);
    RootSelects(items);
    SinksAgree(ROOT_CONFIG, dest, items, follow);
    assert Clashes(ROOT_CONFIG, items[0], items[1]);
  }

  /** A file, and another below it: a layer lists both, and a tree cannot hold both. */
  lemma FileBelowFileRefused(dest: string, follow: Follow)
    ensures ContextTree(ROOT_CONFIG, dest, [FILE, FILE_BELOW], follow, map[]).error.Some?
    ensures TarEntries(ROOT_CONFIG, [FILE, FILE_BELOW]).Ok?
  {
    hide PathOf, Lands, ContextTree, TarEntries, NameAccepted, WalkVerdict;
    var items := [FILE, FILE_BELOW];
    RootPaths(FILE);
    RootPaths(FILE_BELOW);
    RootSelects(items);
    SinksAgree(ROOT_CONFIG, dest, items, follow);
    assert ["a"] < ["a", "b"];
    assert Clashes(ROOT_CONFIG, items[0], items[1]);
  }

  lemma TwiceMeet(dest: string)
    requires Clean(dest) != "/" && Clean(dest) != "."
    ensures !Clashes(ROOT_CONFIG, FILE, OTHER_FILE) && !GoesThrough(ROOT_CONFIG, FILE, OTHER_FILE)
    ensures ItemFits(ROOT_CONFIG, dest, FILE) && ItemFits(ROOT_CONFIG, dest, OTHER_FILE)
  {
    hide PathOf, Lands, Clean;
    RootPaths(FILE);
    RootPaths(OTHER_FILE);
    assert !(["a"] < ["a"]);
  }

  lemma TwiceFits(dest: string)
    requires Clean(dest) != "/" && Clean(dest) != "."
    ensures var items := [FILE, OTHER_FILE];
            && ContextFits(ROOT_CONFIG, dest, items, 2) && NoClash(ROOT_CONFIG, items, 2)
            && NoneThrough(ROOT_CONFIG, items)
  {
    hide Clashes, GoesThrough, ItemFits, Clean;
    TwiceMeet(dest);
  }

  lemma TwiceLast()
    ensures var items := [FILE, OTHER_FILE];
            && LastFile(ROOT_CONFIG, items, 2, ["a"], 1) && !OneBody(ROOT_CONFIG, items)
  {
    hide PathOf, Lands;
    var items := [FILE, OTHER_FILE];
    RootPaths(FILE);
    RootPaths(OTHER_FILE);
    assert LastFile(ROOT_CONFIG, items, 2, PathOf(ROOT_CONFIG, items[0]), 1);
    assert FirstFile(ROOT_CONFIG, items, PathOf(ROOT_CONFIG, items[0]), 0);
  }

  /** A file twice with two bodies: both sinks take it, and the layer keeps the first body, the tree
      the last. */
  lemma FileTwiceDiffers(dest: string, follow: Follow)
    requires Clean(dest) != "/" && Clean(dest) != "."
    ensures var context, layer := ContextTree(ROOT_CONFIG, dest, [FILE, OTHER_FILE], follow, map[]),
                                  TarEntries(ROOT_CONFIG, [FILE, OTHER_FILE]);
            && context.error.None? && ["a"] in context.tree && context.tree[["a"]] == File("2")
            && layer.Ok? && !Agrees(ROOT_CONFIG, layer.value, context.tree)
  {
    hide PathOf, Lands, ContextTree, TarEntries, NameAccepted, WalkVerdict, Clean, Agrees, KindsOf, ContextFits,
      NoClash, NoneThrough,
      OneBody, LastFile;
    var items := [FILE, OTHER_FILE];
    RootPaths(FILE);
    RootPaths(OTHER_FILE);
    RootSelects(items);
    TwiceFits(dest);
    TwiceLast();
    SinksAgree(ROOT_CONFIG, dest, items, follow);
  }
}
