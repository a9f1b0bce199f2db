/** Archive-independent extraction into layer entries (internal/oci/extract.go, tar.go): the
    stateful collector, and the tar sink that drives it in archive order. */
module Extract {
  import opened Strings
  import opened Paths
  import opened Archive

  /** A file destined for the layer. A link that is not empty makes a symlink. */
  datatype TarEntry = TarEntry(name: string, mode: int, body: string, dir: bool, link: string)

  datatype Kind = Directory | Regular | Symlink | Other

  /** One decoded archive entry; the body of a symlink is not used. */
  datatype Item = Item(name: string, kind: Kind, mode: int, body: string, link: string)

  datatype ExtractError =
    | Escapes(name: string)
    | Encrypted(name: string)
    | NotUtf8(name: string)
    | Duplicate(name: string)
    | Unreadable(name: string)
    | SelectedNothing(refusal: Refusal)

  const DIR_MODE := 0x1ED   // 0755
  const FILE_MODE := 0x1A4  // 0644
  const LINK_MODE := 0x1FF  // 0777

  function DirEntry(name: string): TarEntry {
    TarEntry(name, DIR_MODE, "", true, "")
  }

  /** Keeps the executable bits (0111) and discards the rest. */
  function NormaliseMode(mode: int): int {
    if mode % 2 == 1 || (mode / 8) % 2 == 1 || (mode / 64) % 2 == 1 then DIR_MODE else FILE_MODE
  }

  // ---------- Where an entry goes ----------

  /** What every entry of one layer is placed by: the target's and the subpath's elements. */
  datatype Config = Config(target: seq<string>, strip: int, sub: seq<string>, declared: string)

  predicate GoodConfig(cfg: Config) {
    Plain(cfg.target) && Plain(cfg.sub)
  }

  datatype Rebased = Refused | Skipped | At(dest: string)

  predicate EscapesTarget(name: string) {
    var cs := Components(name);
    cs != [] && cs[0] == ".."
  }

  function Placed(cfg: Config, name: string): Placement {
    Place(cfg.strip, cfg.sub, Components(name))
  }

  /** The elements left of a selected name. */
  function Rest(cfg: Config, name: string): seq<string>
    requires Placed(cfg, name).selected
  {
    Without(Components(name), StripDepth(cfg.strip) + |cfg.sub|)
  }

  function Rebase(cfg: Config, name: string): Rebased {
    if EscapesTarget(name) then Refused
    else if !Placed(cfg, name).selected then Skipped
    else At(Join(cfg.target + Rest(cfg, name), '/'))
  }

  /** Names that lie properly in the image: no empty, "." or ".." element. */
  predicate PlainName(name: string) {
    var cs := Components(name);
    cs != [] && Plain(cs) && name == Join(cs, '/')
  }

  lemma NotEscapingIsPlain(name: string)
    requires !EscapesTarget(name)
    ensures Plain(Components(name))
  {
    ComponentsNormal(name);
  }

  lemma RestIs(cfg: Config, name: string)
    requires Placed(cfg, name).selected
    ensures StripDepth(cfg.strip) + |cfg.sub| <= |Components(name)|
    ensures Rest(cfg, name) == Components(name)[StripDepth(cfg.strip) + |cfg.sub|..]
  {
    hide Components, Join;
    WithoutIs(Components(name), StripDepth(cfg.strip) + |cfg.sub|);
  }

  /** An entry lands strictly inside the target. */
  lemma RebaseInside(cfg: Config, name: string)
    requires GoodConfig(cfg) && Rebase(cfg, name).At?
    ensures var rest := Rest(cfg, name);
            && rest != [] && Plain(rest) && Plain(cfg.target + rest)
            && Placed(cfg, name).dest == Join(rest, '/')
            && Components(Rebase(cfg, name).dest) == cfg.target + rest
            && PlainName(Rebase(cfg, name).dest)
  {
    hide Join, Components, Without, Place;
    NotEscapingIsPlain(name);
    var cs := Components(name);
    var k := StripDepth(cfg.strip);
    PlaceIs(cfg.strip, cfg.sub, cs);
    RestIs(cfg, name);
    assert cs[k..][|cfg.sub|..] == cs[k + |cfg.sub|..];
    ComponentsOfJoin(cfg.target + Rest(cfg, name));
  }

  // ---------- The directories leading to a name ----------

  /** Every proper ancestor of the name, outermost first. */
  function ParentNames(name: string): (r: seq<string>) {
    var dir := Dir(name);
    if dir == "." || dir == "/" || dir == "" then []
    else
      var parts := Split(dir, '/');
      seq(|parts|, i requires 0 <= i < |parts| => Join(parts[..i + 1], '/'))
  }

  lemma ParentNamesPlain(cs: seq<string>)
    requires Plain(cs) && cs != []
    ensures var ps := ParentNames(Join(cs, '/'));
            |ps| == |cs| - 1 && forall i :: 0 <= i < |ps| ==> ps[i] == Join(cs[..i + 1], '/')
  {
    hide Dir, Join, Split;
    DirOfJoin(cs);
    var init := cs[..|cs| - 1];
    if init != [] {
      JoinNotRooted(init);
      SplitJoin(init, '/');
      DotIsNotJoined(init);
      forall i | 0 <= i < |init| ensures ParentNames(Join(cs, '/'))[i] == Join(cs[..i + 1], '/') {
        assert init[..i + 1] == cs[..i + 1];
      }
    }
  }

  lemma DotIsNotJoined(cs: seq<string>)
    requires Plain(cs) && cs != []
    ensures Join(cs, '/') != "." && Join(cs, '/') != "/"
  {
    ComponentsOfJoin(cs);
    JoinNotRooted(cs);
    IndexOfAbsent(".", '/');
    assert Split(".", '/') == ["."];
    assert Resolve(["."], false) == Push(Resolve([], false), ".", false) by { assert ["."][..0] == []; }
  }

  method ParentDirs(name: string) returns (out: seq<TarEntry>)
    ensures |out| == |ParentNames(name)|
    ensures forall i :: 0 <= i < |out| ==> out[i] == DirEntry(ParentNames(name)[i])
  {
    out := [];
    var dir := Dir(name);
    if dir == "." || dir == "/" || dir == "" {
      return;
    }
    var parts := Split(dir, '/');
    for i := 0 to |parts|
      invariant |out| == i
      invariant forall k :: 0 <= k < i ==> out[k] == DirEntry(Join(parts[..k + 1], '/'))
    {
      out := out + [TarEntry(Join(parts[..i + 1], '/'), DIR_MODE, "", true, "")];
    }
  }

  // ---------- What is collected ----------

  datatype Collected = Collected(dirs: set<string>, entries: seq<TarEntry>)

  const EMPTY := Collected({}, [])

  function AddDir(c: Collected, name: string): Collected {
    if name in c.dirs then c else Collected(c.dirs + {name}, c.entries + [DirEntry(name)])
  }

  function AddDirs(c: Collected, names: seq<string>, n: nat): Collected
    requires n <= |names|
  {
    if n == 0 then c else AddDir(AddDirs(c, names, n - 1), names[n - 1])
  }

  function AddFile(c: Collected, name: string, mode: int, body: string): Collected {
    var d := AddDirs(c, ParentNames(name), |ParentNames(name)|);
    d.(entries := d.entries + [TarEntry(name, mode, body, false, "")])
  }

  function AddSymlink(c: Collected, name: string, link: string): Collected {
    c.(entries := c.entries + [TarEntry(name, LINK_MODE, "", false, link)])
  }

  function Add(c: Collected, dest: string, item: Item): Collected {
    match item.kind
    case Directory => AddDir(c, dest)
    case Regular => AddFile(c, dest, NormaliseMode(item.mode), item.body)
    case Symlink => AddSymlink(c, dest, item.link)
    case Other => c
  }

  function AddPlaced(cfg: Config, c: Collected, item: Item): Collected {
    match Rebase(cfg, item.name)
    case At(dest) => Add(c, dest, item)
    case _ => c
  }

  /** What the first n items contribute, in archive order. */
  function GatherTo(cfg: Config, items: seq<Item>, n: nat): Collected
    requires n <= |items|
  {
    if n == 0 then EMPTY else AddPlaced(cfg, GatherTo(cfg, items, n - 1), items[n - 1])
  }

  function Gather(cfg: Config, items: seq<Item>): Collected {
    GatherTo(cfg, items, |items|)
  }

  function Names(items: seq<Item>): seq<seq<string>> {
    seq(|items|, i requires 0 <= i < |items| => Components(items[i].name))
  }

  function WalkVerdict(cfg: Config, items: seq<Item>): Option<Refusal> {
    Verdict(cfg.strip, cfg.sub, cfg.declared, TallyOf(cfg.strip, cfg.sub, Names(items)))
  }

  class Collector {
    const target: string
    const walk: Walk
    var dirs: set<string>
    var entries: seq<TarEntry>

    ghost const cfg: Config

    ghost predicate Valid()
    {
      && walk.Valid() && GoodConfig(cfg)
      && target == Join(cfg.target, '/')
      && cfg.strip == walk.mapping.strip
      && cfg.sub == Selected(walk.mapping)
      && cfg.declared == walk.declared
    }

    ghost function State(): Collected
      reads this
    {
      Collected(dirs, entries)
    }

    ghost function Tallied(): Tally
      reads walk
    {
      walk.Tallied()
    }

    /** The target is given as text, and as the components it spells. */
    constructor (target: string, subpath: string, strip: int, ghost elements: seq<string>)
      requires Plain(elements) && target == Join(elements, '/')
      ensures Valid() && fresh(walk)
      ensures cfg == Config(elements, strip, Components("/" + subpath), subpath)
      ensures State() == EMPTY && Tallied() == Tally(0, false)
    {
      this.target := target;
      walk := new Walk(strip, subpath);
      dirs, entries := {}, [];
      cfg := Config(elements, strip, Components("/" + subpath), subpath);
    }

    method RebaseName(name: string) returns (r: Rebased)
      requires Valid()
      modifies walk
      ensures r == Rebase(cfg, name)
      ensures Tallied() == if r.Refused? then old(Tallied()) else Count(old(Tallied()), Placed(cfg, name))
    {
      var clean := Clean(name);
      CleanPrefixes(name);
      if clean == ".." || HasPrefix(clean, "../") {
        return Refused;
      }
      clean := TrimPrefix(clean, "/");
      UnrootedParts(name);
      var place := walk.Map(clean);
      if !place.selected {
        return Skipped;
      }
      assert Rebase(cfg, name).At?;
      RebaseInside(cfg, name);
      EmptyTarget(cfg.target);
      if target == "" {
        assert [] + Rest(cfg, name) == Rest(cfg, name);
        return At(place.dest);
      }
      Join2Components(cfg.target, Rest(cfg, name));
      return At(Join2(target, place.dest));
    }

    method AddDirectory(name: string)
      modifies this
      ensures State() == AddDir(old(State()), name)
    {
      if name in dirs {
        return;
      }
      dirs := dirs + {name};
      entries := entries + [TarEntry(name, DIR_MODE, "", true, "")];
    }

    method AddRegular(name: string, mode: int, body: string)
      modifies this
      ensures State() == AddFile(old(State()), name, mode, body)
    {
      ghost var before := State();
      ghost var names := ParentNames(name);
      var parents := ParentDirs(name);
      for i := 0 to |parents|
        invariant State() == AddDirs(before, names, i)
      {
        var d := parents[i];
        if d.name !in dirs {
          dirs := dirs + {d.name};
          entries := entries + [d];
        }
      }
      entries := entries + [TarEntry(name, mode, body, false, "")];
    }

    method AddLink(name: string, link: string)
      modifies this
      ensures State() == AddSymlink(old(State()), name, link)
    {
      entries := entries + [TarEntry(name, LINK_MODE, "", false, link)];
    }

    /** The switch over typeflags. */
    method AddItem(dest: string, item: Item)
      modifies this
      ensures State() == Add(old(State()), dest, item)
    {
      match item.kind {
        case Directory => AddDirectory(dest);
        case Regular => AddRegular(dest, NormaliseMode(item.mode), item.body);
        case Symlink => AddLink(dest, item.link);
        case Other =>
      }
    }

    method Done() returns (r: Result<seq<TarEntry>, ExtractError>)
      requires Valid()
      ensures r == match Verdict(cfg.strip, cfg.sub, cfg.declared, Tallied())
                   case Some(refusal) => Err(SelectedNothing(refusal))
                   case None => Ok(entries)
    {
      var refusal := walk.Err();
      match refusal {
        case Some(e) => return Err(SelectedNothing(e));
        case None => return Ok(entries);
      }
    }
  }

  lemma EmptyTarget(elements: seq<string>)
    requires Plain(elements)
    ensures Join(elements, '/') == "" <==> elements == []
  {
    if elements != [] {
      JoinNotRooted(elements);
    }
  }

  /** An absolute name is read relative to the archive's root. */
  lemma UnrootedParts(name: string)
    requires !EscapesTarget(name)
    ensures Parts(TrimPrefix(Clean(name), "/")) == Components(name)
  {
    var cs := Components(name);
    NotEscapingIsPlain(name);
    if cs == [] {
      CleanEmpty();
      DotHasNoComponents();
      assert Clean(name) == "/" || Clean(name) == ".";
      assert "/"[1..] == "";
    } else {
      JoinNotRooted(cs);
      ComponentsOfJoin(cs);
      if Rooted(name) {
        assert ("/" + Join(cs, '/'))[1..] == Join(cs, '/');
      }
    }
  }

  lemma DotHasNoComponents()
    ensures Components(".") == []
  {
    IndexOfAbsent(".", '/');
    assert Split(".", '/') == ["."];
    assert Resolve(["."], false) == Push(Resolve([], false), ".", false) by { assert ["."][..0] == []; }
  }

  // ---------- Tar ----------

  /** The first refused name at or after position n. */
  function FirstEscape(items: seq<Item>, n: nat): Option<ExtractError>
    requires n <= |items|
    decreases |items| - n
  {
    if n == |items| then None
    else if EscapesTarget(items[n].name) then Some(Escapes(items[n].name))
    else FirstEscape(items, n + 1)
  }

  /** A tar's entries in a layer: refused at the first escaping name, or for an empty selection. */
  function TarEntries(cfg: Config, items: seq<Item>): Result<seq<TarEntry>, ExtractError> {
    match FirstEscape(items, 0)
    case Some(e) => Err(e)
    case None =>
      match WalkVerdict(cfg, items)
      case Some(refusal) => Err(SelectedNothing(refusal))
      case None => Ok(Gather(cfg, items).entries)
  }

  lemma {:induction false} FirstEscapeNone(items: seq<Item>, n: nat)
    requires n <= |items|
    ensures FirstEscape(items, n).None? <==> forall i :: n <= i < |items| ==> !EscapesTarget(items[i].name)
    decreases |items| - n
  {
    hide EscapesTarget;
    if n < |items| {
      FirstEscapeNone(items, n + 1);
    }
  }

  method ExtractTar(items: seq<Item>, target: string, subpath: string, strip: int, ghost elements: seq<string>)
    returns (r: Result<seq<TarEntry>, ExtractError>)
    requires Plain(elements) && target == Join(elements, '/')
    ensures r == TarEntries(Config(elements, strip, Components("/" + subpath), subpath), items)
  {
    hide Components, Place, Plain, Join;
    var c := new Collector(target, subpath, strip, elements);
    ghost var cfg := c.cfg;
    for n := 0 to |items|
      invariant FirstEscape(items, n) == FirstEscape(items, 0)
      invariant c.State() == GatherTo(cfg, items, n)
      invariant c.Tallied() == TallyTo(cfg.strip, cfg.sub, Names(items), n)
    {
      var hdr := items[n];
      var rebased := c.RebaseName(hdr.name);
      match rebased {
        case Refused => return Err(Escapes(hdr.name));
        case Skipped =>
        case At(name) => c.AddItem(name, hdr);
      }
    }
    r := c.Done();
  }

  lemma {:induction false} FirstEscapeIs(items: seq<Item>, m: nat, n: nat)
    requires m <= n < |items| && EscapesTarget(items[n].name)
    requires forall i :: m <= i < n ==> !EscapesTarget(items[i].name)
    ensures FirstEscape(items, m) == Some(Escapes(items[n].name))
    decreases n - m
  {
    hide EscapesTarget;
    if m < n {
      FirstEscapeIs(items, m + 1, n);
    }
  }

  /** A tar is refused for the first name whose elements begin by climbing, whatever else is in it; with no
      such name, only for an empty selection; and otherwise gives what it gathers. */
  lemma TarExactly(cfg: Config, items: seq<Item>)
    ensures TarEntries(cfg, items).Ok? <==>
            (forall i :: 0 <= i < |items| ==> !EscapesTarget(items[i].name)) && WalkVerdict(cfg, items).None?
    ensures TarEntries(cfg, items).Ok? ==> TarEntries(cfg, items).value == Gather(cfg, items).entries
    ensures forall n :: 0 <= n < |items| && EscapesTarget(items[n].name)
                        && (forall i :: 0 <= i < n ==> !EscapesTarget(items[i].name)) ==>
              TarEntries(cfg, items) == Err(Escapes(items[n].name))
  {
    hide EscapesTarget, WalkVerdict, Gather;
    FirstEscapeNone(items, 0);
    forall n | 0 <= n < |items| && EscapesTarget(items[n].name)
               && (forall i :: 0 <= i < n ==> !EscapesTarget(items[i].name))
      ensures TarEntries(cfg, items) == Err(Escapes(items[n].name))
    {
      FirstEscapeIs(items, 0, n);
    }
  }
}
