/** The build-context sink (internal/archive/archive.go): the same mapping as the layer assembler,
    written entry by entry into a directory tree that may refuse what it is given. */
module BuildContext {
  import opened Strings
  import opened Paths
  import opened Archive
  import opened Extract

  datatype Node = Dir | File(body: string) | Link(to: string)

  /** What is below the destination, by the elements of its path. */
  type Tree = map<seq<string>, Node>

  datatype ContextError =
    | TooManyEntries
    | AbsoluteName(name: string)
    | EscapesDestination(name: string)
    | LinkLeaves(name: string, link: string)
    | NotADirectory(name: string)
    | IsADirectory(name: string)
    | AlreadyThere(name: string)
    | EmptyLink(name: string)
    | NothingSelected(refusal: Refusal)

  /** The tree so far, and what stopped the extraction. */
  datatype Extraction = Extraction(tree: Tree, error: Option<ContextError>)

  /** What the operating system makes of an entry whose path leads through a link, or ends at one
      that it would follow. */
  type Follow = (Tree, seq<string>, Item) -> Extraction

  const MAX_ENTRIES := 500000

  /** filepath.Join of two names where slashes are the separator; empty names are ignored. */
  function JoinPath(a: string, b: string): string {
    if a == "" then (if b == "" then "" else Clean(b))
    else if b == "" then Clean(a)
    else Join2(a, b)
  }

  predicate LinkStays(name: string, link: string) {
    var resolved := JoinPath(Paths.Dir(name), link);
    !Rooted(link) && !HasPrefix(resolved, "../") && resolved != ".."
  }

  // ---------- The tree ----------

  /** One of the first n ancestors of the path, itself included when n reaches it, is a file. */
  predicate FileOn(t: Tree, p: seq<string>, n: nat)
    requires n <= |p|
  {
    exists k :: 0 < k <= n && p[..k] in t && t[p[..k]].File?
  }

  predicate LinkOn(t: Tree, p: seq<string>, n: nat)
    requires n <= |p|
  {
    exists k :: 0 < k <= n && p[..k] in t && t[p[..k]].Link?
  }

  /** The first n ancestors made directories. */
  function WithDirs(t: Tree, p: seq<string>, n: nat): Tree
    requires n <= |p|
  {
    if n == 0 then t else WithDirs(t, p, n - 1)[p[..n] := Dir]
  }

  /** How many elements of its path an entry needs as directories. */
  function DirDepth(p: seq<string>, kind: Kind): nat
    requires p != []
  {
    if kind == Directory then |p| else |p| - 1
  }

  /** A link that is followed: above the entry, or at it when a directory or a file goes there. */
  predicate Follows(t: Tree, p: seq<string>, kind: Kind)
    requires p != []
  {
    LinkOn(t, p, if kind == Symlink then |p| - 1 else |p|)
  }

  /** One entry at its path: MkdirAll, then what its kind asks for. */
  function Put(t: Tree, p: seq<string>, item: Item, stays: bool, follow: Follow): Extraction
    requires p != []
  {
    if item.kind == Other then Extraction(t, None)
    else if Follows(t, p, item.kind) then follow(t, p, item)
    else if FileOn(t, p, DirDepth(p, item.kind)) then Extraction(t, Some(NotADirectory(item.name)))
    else
      var made := WithDirs(t, p, DirDepth(p, item.kind));
      match item.kind
      case Directory => Extraction(made, None)
      case Regular =>
        if p in made && made[p].Dir? then Extraction(made, Some(IsADirectory(item.name)))
        else Extraction(made[p := File(item.body)], None)
      case Symlink =>
        if !stays then Extraction(made, Some(LinkLeaves(item.name, item.link)))
        else if item.link == "" then Extraction(made, Some(EmptyLink(item.name)))
        else if p in made then Extraction(made, Some(AlreadyThere(item.name)))
        else Extraction(made[p := Link(item.link)], None)
  }

  /** The elements of a path below the destination. */
  function Below(dest: string, full: string): (p: seq<string>)
    requires HasPrefix(full, Clean(dest) + "/")
    ensures p != []
  {
    Split(Without(full, |Clean(dest)| + 1), '/')
  }

  /** One entry at its place relative to the destination. */
  function WriteItem(dest: string, name: string, item: Item, follow: Follow, t: Tree): Extraction {
    var full := JoinPath(dest, name);
    if !HasPrefix(full, Clean(dest) + "/") then Extraction(t, Some(EscapesDestination(item.name)))
    else Put(t, Below(dest, full), item, LinkStays(name, item.link), follow)
  }

  function WriteNext(cfg: Config, dest: string, item: Item, follow: Follow, t: Tree): Extraction {
    if HasPrefix(Clean(item.name), "/") then Extraction(t, Some(AbsoluteName(item.name)))
    else
      var place := Place(cfg.strip, cfg.sub, Parts(item.name));
      if place.selected then WriteItem(dest, place.dest, item, follow, t) else Extraction(t, None)
  }

  /** What the first n entries make of a tree, up to the first refusal among them. */
  function WrittenTo(cfg: Config, dest: string, items: seq<Item>, n: nat, follow: Follow, start: Tree): Extraction
    requires n <= |items|
  {
    if n == 0 then Extraction(start, None)
    else
      var before := WrittenTo(cfg, dest, items, n - 1, follow, start);
      if before.error.Some? then before
      else if n > MAX_ENTRIES then before.(error := Some(TooManyEntries))
      else WriteNext(cfg, dest, items[n - 1], follow, before.tree)
  }

  function HeaderParts(items: seq<Item>): seq<seq<string>> {
    seq(|items|, i requires 0 <= i < |items| => Parts(items[i].name))
  }

  function ContextTree(cfg: Config, dest: string, items: seq<Item>, follow: Follow, start: Tree): Extraction {
    var written := WrittenTo(cfg, dest, items, |items|, follow, start);
    if written.error.Some? then written
    else
      match Verdict(cfg.strip, cfg.sub, cfg.declared, TallyOf(cfg.strip, cfg.sub, HeaderParts(items)))
      case Some(refusal) => written.(error := Some(NothingSelected(refusal)))
      case None => written
  }

  lemma {:induction false} FirstErrorStays(cfg: Config, dest: string, items: seq<Item>, n: nat, m: nat,
                                           follow: Follow, start: Tree)
    requires n <= m <= |items| && WrittenTo(cfg, dest, items, n, follow, start).error.Some?
    ensures WrittenTo(cfg, dest, items, m, follow, start) == WrittenTo(cfg, dest, items, n, follow, start)
  {
    hide WriteNext;
    if n < m {
      FirstErrorStays(cfg, dest, items, n, m - 1, follow, start);
    }
  }

  /** However it selects and wherever it writes, an archive of more than 500000 entries is refused, and so is
      one with an absolute name: for the first of the two that is met, unless something else stopped it
      before. */
  lemma RefusedFor(cfg: Config, dest: string, items: seq<Item>, n: nat, follow: Follow, start: Tree)
    requires n < |items| && (n >= 500000 || Rooted(items[n].name))
    ensures var before := WrittenTo(cfg, dest, items, n, follow, start);
            ContextTree(cfg, dest, items, follow, start) ==
              if before.error.Some? then before
              else before.(error := Some(if n >= 500000 then TooManyEntries else AbsoluteName(items[n].name)))
  {
    hide WriteItem, Place, Components, Verdict, TallyOf;
    var before := WrittenTo(cfg, dest, items, n, follow, start);
    if Rooted(items[n].name) {
      assert Clean(items[n].name)[..1] == "/";
    }
    if before.error.Some? {
      FirstErrorStays(cfg, dest, items, n, |items|, follow, start);
    } else {
      FirstErrorStays(cfg, dest, items, n + 1, |items|, follow, start);
    }
  }

  /** The directory the archive is written into. */
  class FileTree {
    var nodes: Tree

    constructor (nodes: Tree)
      ensures this.nodes == nodes
    {
      this.nodes := nodes;
    }

    /** os.MkdirAll of the first n elements, where no link is in the way. */
    method MkdirAll(p: seq<string>, n: nat) returns (ok: bool)
      requires n <= |p|
      modifies this
      ensures ok == !FileOn(old(nodes), p, n)
      ensures nodes == if ok then WithDirs(old(nodes), p, n) else old(nodes)
    {
      ok := !FileOn(nodes, p, n);
      if ok {
        nodes := WithDirs(nodes, p, n);
      }
    }

    method WriteEntry(dest: string, name: string, item: Item, follow: Follow) returns (error: Option<ContextError>)
      modifies this
      ensures Extraction(nodes, error) == WriteItem(dest, name, item, follow, old(nodes))
    {
      hide JoinPath, Clean, LinkStays, FileOn, WithDirs, LinkOn, Below;
      var full := JoinPath(dest, name);
      if !HasPrefix(full, Clean(dest) + "/") {
        return Some(EscapesDestination(item.name));
      }
      if item.kind == Other {
        return None;
      }
      var p := Below(dest, full);
      if Follows(nodes, p, item.kind) {
        var r := follow(nodes, p, item);
        nodes := r.tree;
        return r.error;
      }
      var ok := MkdirAll(p, DirDepth(p, item.kind));
      if !ok {
        return Some(NotADirectory(item.name));
      }
      match item.kind {
        case Directory =>
        case Regular =>
          if p in nodes && nodes[p].Dir? {
            return Some(IsADirectory(item.name));
          }
          nodes := nodes[p := File(item.body)];
        case Symlink =>
          if !LinkStays(name, item.link) {
            return Some(LinkLeaves(item.name, item.link));
          }
          if item.link == "" {
            return Some(EmptyLink(item.name));
          }
          if p in nodes {
            return Some(AlreadyThere(item.name));
          }
          nodes := nodes[p := Link(item.link)];
      }
      error := None;
    }
  }

  method ExtractContext(items: seq<Item>, dest: string, subpath: string, strip: int, follow: Follow, tree: FileTree)
    returns (error: Option<ContextError>)
    modifies tree
    ensures Extraction(tree.nodes, error) ==
            ContextTree(Config([], strip, Components("/" + subpath), subpath), dest, items, follow, old(tree.nodes))
  {
    hide Components, Place, Parts, Clean, WriteItem, Plain;
    ghost var cfg := Config([], strip, Components("/" + subpath), subpath);
    ghost var start := tree.nodes;
    var w := new Walk(strip, subpath);
    var written := 0;
    while written < |items|
      invariant 0 <= written <= |items|
      invariant WrittenTo(cfg, dest, items, written, follow, start) == Extraction(tree.nodes, None)
      invariant w.Tallied() == TallyTo(cfg.strip, cfg.sub, HeaderParts(items), written)
    {
      var hdr := items[written];
      written := written + 1;
      if written > MAX_ENTRIES {
        FirstErrorStays(cfg, dest, items, written, |items|, follow, start);
        return Some(TooManyEntries);
      }
      if HasPrefix(Clean(hdr.name), "/") {
        FirstErrorStays(cfg, dest, items, written, |items|, follow, start);
        return Some(AbsoluteName(hdr.name));
      }
      var place := w.Map(hdr.name);
      if place.selected {
        error := tree.WriteEntry(dest, place.dest, hdr, follow);
        if error.Some? {
          FirstErrorStays(cfg, dest, items, written, |items|, follow, start);
          return;
        }
      }
    }
    var refusal := w.Err();
    match refusal {
      case Some(e) => return Some(NothingSelected(e));
      case None => return None;
    }
  }

  // ---------- The escape check ----------

  lemma {:induction false} ResolveAppendPlain(a: seq<string>, b: seq<string>, rooted: bool)
    requires Plain(b)
    ensures Resolve(a + b, rooted) == Resolve(a, rooted) + b
  {
    if b == [] {
      assert a + b == a;
    } else {
      var n := |b| - 1;
      assert (a + b)[..|a + b| - 1] == a + b[..n];
      ResolveAppendPlain(a, b[..n], rooted);
      assert b == b[..n] + [b[n]];
      assert Resolve(a, rooted) + b == Resolve(a, rooted) + b[..n] + [b[n]];
    }
  }

  /** For a proper relative destination the check on the resolved path passes exactly when the root
      it extracts under is neither "/" nor ".". */
  lemma EscapeCheckExact(dest: string, rest: seq<string>)
    requires Plain(rest) && rest != []
    ensures HasPrefix(JoinPath(dest, Join(rest, '/')), Clean(dest) + "/") <==> Clean(dest) != "/" && Clean(dest) != "."
    ensures Clean(dest) != "/" && Clean(dest) != "." ==>
              JoinPath(dest, Join(rest, '/')) == Clean(dest) + "/" + Join(rest, '/')
  {
    JoinNotRooted(rest);
    ComponentsOfJoin(rest);
    CleanPrefixes(Join(rest, '/'));
    if dest == "" {
      CleanEmpty();
    } else {
      JoinedUnder(dest, rest);
      if Components(dest) == [] {
        EscapeAtRoot(dest, Join(rest, '/'));
      } else {
        EscapeBelow(dest, rest);
      }
    }
  }

  lemma EscapeAtRoot(dest: string, name: string)
    requires dest != "" && Components(dest) == []
    requires name != "" && !Rooted(name) && !HasPrefix(name, "./")
    requires Components(dest + "/" + name) == Components(name) && Clean(name) == name
    requires Rooted(dest + "/" + name) == Rooted(dest)
    ensures Clean(dest) == "/" || Clean(dest) == "."
    ensures !HasPrefix(JoinPath(dest, name), Clean(dest) + "/")
  {
    hide Components;
    if Rooted(dest) {
      assert JoinPath(dest, name) == "/" + Join(Components(name), '/');
      assert Components(name) != [] ==> JoinPath(dest, name) == "/" + name;
      assert ("/" + name)[1] == name[0] && "//"[1] == '/';
    } else {
      assert "." + "/" == "./";
    }
  }

  lemma {:induction false} EscapeBelow(dest: string, rest: seq<string>)
    requires Plain(rest) && rest != [] && dest != "" && Components(dest) != [] && Join(rest, '/') != ""
    requires Components(dest + "/" + Join(rest, '/')) == Components(dest) + rest
    requires Rooted(dest + "/" + Join(rest, '/')) == Rooted(dest)
    ensures Clean(dest) != "/" && Clean(dest) != "."
    ensures JoinPath(dest, Join(rest, '/')) == Clean(dest) + "/" + Join(rest, '/')
  {
    hide Components, Join;
    var ds, name := Components(dest), Join(rest, '/');
    JoinConcat(ds, rest, '/');
    RelativeRoot(dest);
    assert "/" + (Join(ds, '/') + ['/'] + name) == ("/" + Join(ds, '/')) + "/" + name;
  }

  lemma RelativeRoot(dest: string)
    requires Components(dest) != []
    ensures Clean(dest) != "/" && Clean(dest) != "."
  {
    var ds := Components(dest);
    ComponentsNormal(dest);
    assert Element(ds[0]);
    JoinNotRooted(ds);
    if |ds| == 1 {
      assert Join(ds, '/') == ds[0];
    } else {
      assert |Join(ds, '/')| > 1;
    }
  }

  lemma JoinedUnder(dest: string, rest: seq<string>)
    requires dest != "" && Plain(rest) && rest != []
    ensures Components(dest + "/" + Join(rest, '/')) == Components(dest) + rest
    ensures Rooted(dest + "/" + Join(rest, '/')) == Rooted(dest)
    ensures Join(rest, '/') != ""
  {
    hide Join;
    var name := Join(rest, '/');
    JoinNotRooted(rest);
    assert dest + "/" + name == dest + ['/'] + name;
    SplitConcat(dest, name, '/');
    SplitJoin(rest, '/');
    ResolveAppendPlain(Split(dest, '/'), rest, Rooted(dest));
    assert (dest + "/" + name)[0] == dest[0];
  }

  // ---------- Which links stay ----------

  /** How deep the first n elements lead, from a given depth. */
  function DepthAfter(depth: int, parts: seq<string>, n: nat): int
    requires n <= |parts|
  {
    if n == 0 then depth
    else
      DepthAfter(depth, parts, n - 1)
        + if parts[n - 1] == "" || parts[n - 1] == "." then 0 else if parts[n - 1] == ".." then -1 else 1
  }

  predicate ClimbsOut(depth: int, parts: seq<string>, n: nat)
    requires n <= |parts|
  {
    exists m :: 0 <= m <= n && DepthAfter(depth, parts, m) < 0
  }

  lemma {:induction false} ResolveClimbs(init: seq<string>, parts: seq<string>, n: nat)
    requires n <= |parts| && Plain(init)
    ensures var r := Resolve(init + parts[..n], false);
            && (ClimbsOut(|init|, parts, n) ==> r != [] && r[0] == "..")
            && (!ClimbsOut(|init|, parts, n) ==> |r| == DepthAfter(|init|, parts, n) && ".." !in r)
  {
    hide Plain;
    if n == 0 {
      assert init + parts[..0] == init;
      PlainResolves(init);
      assert DepthAfter(|init|, parts, 0) == |init|;
    } else {
      ResolveClimbs(init, parts, n - 1);
      var before, all := init + parts[..n - 1], init + parts[..n];
      assert all[..|all| - 1] == before && all[|all| - 1] == parts[n - 1];
      assert ClimbsOut(|init|, parts, n) <==>
             ClimbsOut(|init|, parts, n - 1) || DepthAfter(|init|, parts, n) < 0;
    }
  }

  lemma PlainResolves(cs: seq<string>)
    requires Plain(cs)
    ensures Resolve(cs, false) == cs && ".." !in cs
  {
    ResolveFixed(cs, false);
  }

  lemma {:induction false} ResolveSkipsDot(parts: seq<string>)
    ensures Resolve(["."] + parts, false) == Resolve(parts, false)
  {
    if parts == [] {
      assert ["."] + parts == ["."];
      assert ["."][..0] == [];
    } else {
      assert (["."] + parts)[..|parts|] == ["."] + parts[..|parts| - 1];
      ResolveSkipsDot(parts[..|parts| - 1]);
    }
  }

  /** Where a link leads from its own directory, cleaned. */
  lemma LinkedParts(cs: seq<string>, link: string)
    requires Plain(cs) && cs != [] && !Rooted(link)
    ensures var resolved := JoinPath(Paths.Dir(Join(cs, '/')), link);
            (resolved == ".." || HasPrefix(resolved, "../")) <==>
            var r := Resolve(cs[..|cs| - 1] + Split(link, '/'), false); r != [] && r[0] == ".."
  {
    hide Join, Paths.Dir, Clean, Components;
    DirOfJoin(cs);
    var init := cs[..|cs| - 1];
    var dir := if init == [] then "." else Join(init, '/');
    if link == "" {
      IndexOfAbsent("", '/');
      assert Split("", '/') == [""];
      ResolveSkipsEmptyTail(init, false);
      PlainResolves(init);
      CleanPrefixes(dir);
      DirParts(init);
      assert JoinPath(dir, link) == Clean(dir);
    } else {
      var full := dir + "/" + link;
      CleanPrefixes(full);
      FullParts(init, link);
    }
  }

  lemma DirParts(init: seq<string>)
    requires Plain(init)
    ensures var dir := if init == [] then "." else Join(init, '/'); dir != "" && Components(dir) == init
  {
    hide Components, Join;
    if init == [] {
      DotHasNoComponents();
    } else {
      ComponentsOfJoin(init);
      JoinNotRooted(init);
    }
  }

  lemma FullParts(init: seq<string>, link: string)
    requires Plain(init)
    ensures var dir := if init == [] then "." else Join(init, '/');
            dir != "" && Components(dir + "/" + link) == Resolve(init + Split(link, '/'), false)
  {
    hide Resolve, Join;
    var dir := if init == [] then "." else Join(init, '/');
    assert dir + "/" + link == dir + ['/'] + link;
    SplitConcat(dir, link, '/');
    if init == [] {
      IndexOfAbsent(".", '/');
      assert Split(".", '/') == ["."];
      ResolveSkipsDot(Split(link, '/'));
      assert [] + Split(link, '/') == Split(link, '/');
    } else {
      JoinNotRooted(init);
      SplitJoin(init, '/');
      assert (dir + "/" + link)[0] == dir[0];
    }
  }

  /** A link stays exactly when it is relative and, followed element by element from the directory it is
      in, never leads above the destination. */
  lemma LinkStaysExactly(cs: seq<string>, link: string)
    requires Plain(cs) && cs != []
    ensures LinkStays(Join(cs, '/'), link) <==>
            !Rooted(link) && !ClimbsOut(|cs| - 1, Split(link, '/'), |Split(link, '/')|)
  {
    hide Join, Paths.Dir, JoinPath, Resolve, ClimbsOut, Split;
    if !Rooted(link) {
      var parts := Split(link, '/');
      LinkedParts(cs, link);
      ResolveClimbs(cs[..|cs| - 1], parts, |parts|);
      assert parts[..|parts|] == parts;
    }
  }
}
