/** Go's `path` package on slash-separated names, by its documented rules: repeated slashes and "."
    elements go, an inner ".." goes with the element before it, and ".." at a root goes. */
module Paths {
  import opened Strings

  predicate Rooted(name: string) {
    HasPrefix(name, "/")
  }

  /** One more element against the elements already kept. */
  function Push(kept: seq<string>, e: string, rooted: bool): seq<string> {
    if e == "" || e == "." then kept
    else if e != ".." then kept + [e]
    else if kept != [] && kept[|kept| - 1] != ".." then kept[..|kept| - 1]
    else if rooted then kept
    else kept + [".."]
  }

  function Resolve(parts: seq<string>, rooted: bool): seq<string> {
    if parts == [] then []
    else Push(Resolve(parts[..|parts| - 1], rooted), parts[|parts| - 1], rooted)
  }

  /** The elements of the cleaned name, without the root. */
  function Components(name: string): seq<string> {
    Resolve(Split(name, '/'), Rooted(name))
  }

  function Clean(name: string): string {
    var cs := Components(name);
    if Rooted(name) then "/" + Join(cs, '/')
    else if cs == [] then "."
    else Join(cs, '/')
  }

  /** path.Join of two non-empty names. */
  function Join2(a: string, b: string): string {
    Clean(a + "/" + b)
  }

  /** path.Split: up to and including the last slash, and the rest. */
  function SplitDir(name: string): string {
    name[..LastIndexOf(name, '/') + 1]
  }

  function SplitBase(name: string): string {
    name[LastIndexOf(name, '/') + 1..]
  }

  /** path.Dir */
  function Dir(name: string): string {
    Clean(SplitDir(name))
  }

  // ---------- Normal forms ----------

  predicate Element(e: string) {
    e != "" && e != "." && '/' !in e
  }

  /** Proper elements without any "..". */
  predicate Plain(cs: seq<string>) {
    forall i :: 0 <= i < |cs| ==> Element(cs[i]) && cs[i] != ".."
  }

  /** What cleaning leaves: proper elements, and ".." only as a leading run of a relative name. */
  predicate Normal(cs: seq<string>, rooted: bool) {
    if rooted then Plain(cs)
    else
      && (forall i :: 0 <= i < |cs| ==> Element(cs[i]))
      && (forall i, j :: 0 <= i < j < |cs| && cs[j] == ".." ==> cs[i] == "..")
  }

  lemma NormalFree(cs: seq<string>, rooted: bool)
    requires Normal(cs, rooted)
    ensures Free(cs, '/')
  {
  }

  lemma {:induction false} ResolveNormal(parts: seq<string>, rooted: bool)
    requires Free(parts, '/')
    ensures Normal(Resolve(parts, rooted), rooted)
  {
    if parts != [] {
      ResolveNormal(parts[..|parts| - 1], rooted);
      assert parts[|parts| - 1] in parts;
    }
  }

  lemma PushNormal(cs: seq<string>, rooted: bool)
    requires Normal(cs, rooted) && cs != []
    ensures Normal(cs[..|cs| - 1], rooted)
    ensures Push(cs[..|cs| - 1], cs[|cs| - 1], rooted) == cs
  {
    assert cs == cs[..|cs| - 1] + [cs[|cs| - 1]];
  }

  lemma {:induction false} ResolveFixed(cs: seq<string>, rooted: bool)
    requires Normal(cs, rooted)
    ensures Resolve(cs, rooted) == cs
  {
    hide Normal, Push;
    if cs != [] {
      PushNormal(cs, rooted);
      ResolveFixed(cs[..|cs| - 1], rooted);
    }
  }

  lemma {:induction false} ResolveSkipsEmptyHead(parts: seq<string>, rooted: bool)
    ensures Resolve([""] + parts, rooted) == Resolve(parts, rooted)
  {
    if parts == [] {
      assert [""] + parts == [""];
    } else {
      assert ([""] + parts)[..|parts|] == [""] + parts[..|parts| - 1];
      ResolveSkipsEmptyHead(parts[..|parts| - 1], rooted);
    }
  }

  lemma {:induction false} ResolveSkipsEmptyTail(parts: seq<string>, rooted: bool)
    ensures Resolve(parts + [""], rooted) == Resolve(parts, rooted)
  {
    assert (parts + [""])[..|parts|] == parts;
  }

  lemma ComponentsNormal(name: string)
    ensures Normal(Components(name), Rooted(name))
  {
    ResolveNormal(Split(name, '/'), Rooted(name));
  }

  lemma JoinNotRooted(cs: seq<string>)
    requires cs != [] && Element(cs[0])
    ensures !Rooted(Join(cs, '/')) && Join(cs, '/') != ""
    ensures Join(cs, '/')[0] == cs[0][0]
  {
    assert cs[0][0] in cs[0];
  }

  /** Splitting a joined normal name gives its elements back. */
  lemma ComponentsOfJoin(cs: seq<string>)
    requires Normal(cs, false) && cs != []
    ensures Components(Join(cs, '/')) == cs
    ensures Clean(Join(cs, '/')) == Join(cs, '/')
  {
    JoinNotRooted(cs);
    SplitJoin(cs, '/');
    ResolveFixed(cs, false);
  }

  lemma {:induction false} RootedComponents(name: string)
    ensures Components("/" + name) == Resolve(Split(name, '/'), true)
    ensures Plain(Components("/" + name))
  {
    assert "/" + name == "" + ['/'] + name;
    SplitFirst("", name, '/');
    ResolveSkipsEmptyHead(Split(name, '/'), true);
    ResolveNormal(Split(name, '/'), true);
  }

  /** Joining a clean relative destination under a clean target concatenates their elements. */
  lemma {:induction false} Join2Components(a: seq<string>, b: seq<string>)
    requires Plain(a) && Plain(b) && a != [] && b != []
    ensures Join2(Join(a, '/'), Join(b, '/')) == Join(a + b, '/')
    ensures Plain(a + b)
  {
    JoinConcat(a, b, '/');
    assert Join(a, '/') + "/" + Join(b, '/') == Join(a, '/') + ['/'] + Join(b, '/');
    ComponentsOfJoin(a + b);
  }

  /** The directory of a plain name is the name without its last element. */
  lemma {:induction false} DirOfJoin(cs: seq<string>)
    requires Plain(cs) && cs != []
    ensures Dir(Join(cs, '/')) == if |cs| == 1 then "." else Join(cs[..|cs| - 1], '/')
  {
    var n := |cs| - 1;
    if n == 0 {
      DirOfOne(cs[0]);
    } else {
      assert cs == cs[..n] + [cs[n]];
      DirOfMany(cs[..n], cs[n]);
    }
  }

  lemma DirOfOne(e: string)
    requires '/' !in e
    ensures Dir(e) == "."
  {
    LastIndexOfAbsent(e, '/');
    assert e[..0] == "";
    CleanEmpty();
  }

  lemma DirOfMany(init: seq<string>, last: string)
    requires Plain(init) && init != [] && '/' !in last
    ensures Dir(Join(init + [last], '/')) == Join(init, '/')
  {
    hide Join, Clean;
    LastSlash(init, last);
    CleanTrailingSlash(init);
  }

  lemma CleanEmpty()
    ensures Components("") == [] && Clean("") == "."
  {
    IndexOfAbsent("", '/');
    assert Split("", '/') == [""];
    ResolveSkipsEmptyHead([], false);
  }

  lemma LastSlash(init: seq<string>, last: string)
    requires init != [] && '/' !in last
    ensures var name := Join(init + [last], '/');
            SplitDir(name) == Join(init, '/') + ['/'] && SplitBase(name) == last
  {
    var head := Join(init, '/');
    JoinConcat(init, [last], '/');
    LastIndexOfIs(head, '/', last);
    assert (head + ['/'] + last)[..|head| + 1] == head + ['/'];
  }

  lemma {:induction false} CleanTrailingSlash(cs: seq<string>)
    requires Plain(cs) && cs != []
    ensures Clean(Join(cs, '/') + ['/']) == Join(cs, '/')
  {
    var s := Join(cs, '/');
    assert s + ['/'] == s + ['/'] + "";
    SplitConcat(s, "", '/');
    SplitJoin(cs, '/');
    ResolveSkipsEmptyTail(cs, false);
    ComponentsOfJoin(cs);
    JoinNotRooted(cs);
    assert (s + ['/'])[0] == s[0];
  }

  /** A cleaned name begins with ".." exactly when its elements do, and never with "./". */
  lemma CleanPrefixes(name: string)
    ensures var cs := Components(name);
            && ((Clean(name) == ".." || HasPrefix(Clean(name), "../")) <==> (cs != [] && cs[0] == ".."))
            && !HasPrefix(Clean(name), "./")
  {
    var cs := Components(name);
    ComponentsNormal(name);
    if Rooted(name) {
      assert Clean(name)[0] == '/';
      assert ".."[0] == '.' && "../"[0] == '.' && "./"[0] == '.';
    } else if cs != [] {
      JoinPrefix([".."], cs, '/');
      JoinPrefix(["."], cs, '/');
      assert cs[..1] == [cs[0]];
      assert Join([".."], '/') + ['/'] == "../";
      assert Join(["."], '/') + ['/'] == "./";
      if |cs| == 1 {
        assert Join(cs, '/') == cs[0];
      } else {
        SplitJoin(cs, '/');
        SplitJoin([".."], '/');
      }
    }
  }
}
