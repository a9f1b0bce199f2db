/** Where an archive entry lands (internal/archive): one mapping shared by the layer assembler and
    the build-context fetcher, the tally that refuses an empty selection, and the fetcher's sink. */
module Archive {
  import opened Strings
  import opened Paths

  datatype Placement = Placement(dest: string, selected: bool, inSubpath: bool, survived: bool)

  const NOWHERE := Placement("", false, false, false)

  datatype Mapping = Mapping(strip: int, prefix: string)

  /** The elements of the cleaned subpath a mapping selects, none for the whole archive. */
  function Selected(m: Mapping): seq<string> {
    if m.prefix == "" then [] else Split(m.prefix, '/')
  }

  predicate WellMade(m: Mapping) {
    Plain(Selected(m))
  }

  function TrimSlashes(s: string): string {
    if HasPrefix(s, "/") then TrimSlashes(s[1..])
    else if HasSuffix(s, "/") then TrimSlashes(s[..|s| - 1])
    else s
  }

  lemma TrimJoined(cs: seq<string>)
    requires Plain(cs)
    ensures TrimSlashes("/" + Join(cs, '/')) == Join(cs, '/')
  {
    var s := Join(cs, '/');
    assert ("/" + s)[1..] == s;
    if cs != [] {
      JoinNotRooted(cs);
      var n := |cs| - 1;
      assert cs == cs[..n] + [cs[n]];
      if n > 0 {
        JoinConcat(cs[..n], [cs[n]], '/');
      }
      assert s[|s| - 1] == cs[n][|cs[n]| - 1] && cs[n][|cs[n]| - 1] in cs[n];
    }
  }

  /** The subpath is cleaned once, rooted, so what is matched has no ".." and no stray slash. */
  function NewMapping(strip: int, subpath: string): (m: Mapping)
    ensures WellMade(m) && m.strip == strip
    ensures Selected(m) == Components("/" + subpath)
  {
    var cs := Components("/" + subpath);
    RootedComponents(subpath);
    TrimJoined(cs);
    var prefix := TrimSlashes(Clean("/" + subpath));
    assert prefix == Join(cs, '/');
    assert cs != [] ==> Split(prefix, '/') == cs && prefix != "" by {
      if cs != [] {
        SplitJoin(cs, '/');
        JoinNotRooted(cs);
      }
    }
    assert prefix != "." by {
      IndexOfAbsent(".", '/');
      assert Split(".", '/') == ["."];
    }
    Mapping(strip, if prefix == "." then "" else prefix)
  }

  // ---------- The rule, on elements ----------

  /** What a name is made of: a rooted name has an empty first element. */
  function Parts(name: string): seq<string> {
    if Rooted(name) then [""] + Components(name) else Components(name)
  }

  function StripDepth(strip: int): nat {
    if strip < 0 then 0 else strip
  }

  /** Drop the first `strip` elements, then require and remove the subpath's elements. */
  function Place(strip: int, sub: seq<string>, parts: seq<string>): Placement {
    if parts == [] || parts == [""] || |parts| <= StripDepth(strip) then NOWHERE
    else
      var rest := Without(parts, StripDepth(strip));
      if !(sub <= rest) then NOWHERE.(survived := true)
      else if sub == rest then NOWHERE.(survived := true, inSubpath := true)
      else Placement(Join(Without(rest, |sub|), '/'), true, true, true)
  }

  lemma PlaceIs(strip: int, sub: seq<string>, parts: seq<string>)
    ensures Place(strip, sub, parts) ==
            if parts == [] || parts == [""] || |parts| <= StripDepth(strip) then NOWHERE
            else
              var rest := parts[StripDepth(strip)..];
              if !(sub <= rest) then NOWHERE.(survived := true)
              else if sub == rest then NOWHERE.(survived := true, inSubpath := true)
              else Placement(Join(rest[|sub|..], '/'), true, true, true)
  {
    hide Without, Join;
    if StripDepth(strip) <= |parts| {
      WithoutIs(parts, StripDepth(strip));
      var rest := Without(parts, StripDepth(strip));
      if |sub| <= |rest| {
        WithoutIs(rest, |sub|);
      }
    }
  }

  /** No element holds a slash, and only the first may be empty. */
  predicate RootFree(parts: seq<string>) {
    && Free(parts, '/')
    && (forall i :: 0 <= i < |parts| && parts[i] == "" ==> i == 0)
  }

  lemma PartsShape(name: string)
    ensures var parts := Parts(name);
            && RootFree(parts)
            && (parts == [] <==> Clean(name) == ".")
            && (parts == [""] <==> Clean(name) == "/")
            && (parts != [] && parts != [""] ==> Clean(name) == Join(parts, '/'))
  {
    ComponentsNormal(name);
    var cs := Components(name);
    if Rooted(name) {
      assert Clean(name)[0] == '/';
      if cs != [] {
        assert ([""] + cs)[1..] == cs;
        JoinNotRooted(cs);
        assert "/" + Join(cs, '/') == "" + ['/'] + Join(cs, '/');
      }
    } else if cs != [] {
      JoinNotRooted(cs);
      assert |cs| == 1 ==> Join(cs, '/') == cs[0];
      assert |cs| > 1 ==> |Join(cs, '/')| > 1;
      assert cs != [""];
    }
  }

  lemma {:induction false} CutJoined(parts: seq<string>)
    requires parts != [] && Free(parts, '/')
    ensures var s := Join(parts, '/');
            var i := IndexOf(s, '/');
            if |parts| == 1 then i == |s| else i < |s| && s[i + 1..] == Join(parts[1..], '/')
  {
    assert parts[0] in parts;
    if |parts| == 1 {
      IndexOfAbsent(parts[0], '/');
    } else {
      IndexOfIs(parts[0], '/', Join(parts[1..], '/'));
    }
  }

  /** The comparisons of strings behind the subpath are comparisons of elements. */
  lemma SubpathRule(m: Mapping, rest: seq<string>)
    requires WellMade(m) && m.prefix != "" && rest != [] && rest != [""] && RootFree(rest)
    ensures var sub, clean := Selected(m), Join(rest, '/');
            && (clean == m.prefix <==> sub == rest)
            && (HasPrefix(clean, m.prefix + "/") <==> sub <= rest && sub != rest)
            && (sub <= rest && sub != rest ==>
                  clean[|m.prefix| + 1..] == Join(rest[|sub|..], '/') && clean[|m.prefix| + 1..] != "")
  {
    var sub := Selected(m);
    JoinSplit(m.prefix, '/');
    JoinPrefix(sub, rest, '/');
    if Join(rest, '/') == m.prefix {
      JoinInjective(rest, sub, '/');
    }
    if sub <= rest && sub != rest {
      assert sub == rest[..|sub|];
      NonEmptyJoinFrom(rest, |sub|);
    }
  }

  /** The string-level mapping is the rule on elements, for every name. */
  method MapEntry(m: Mapping, name: string) returns (place: Placement)
    requires WellMade(m)
    ensures place == Place(m.strip, Selected(m), Parts(name))
  {
    hide Components, Clean, Plain, Place;
    ghost var parts := Parts(name);
    PlaceIs(m.strip, Selected(m), parts);
    assert RootFree(parts) && (parts == [] <==> Clean(name) == ".") && (parts == [""] <==> Clean(name) == "/")
        && (parts != [] && parts != [""] ==> Clean(name) == Join(parts, '/') != "") by {
      PartsShape(name);
      if parts != [] && parts != [""] { NonEmptyJoin(parts); }
    }
    CleanPrefixes(name);
    var clean := TrimPrefix(Clean(name), "./");
    if clean == "." || clean == "/" || clean == "" {
      return NOWHERE;
    }
    var i := 0;
    while i < m.strip
      invariant 0 <= i <= StripDepth(m.strip)
      invariant i < |parts| && clean == Join(parts[i..], '/')
    {
      CutJoined(parts[i..]);
      var cut := IndexOf(clean, '/');
      if cut == |clean| {
        return NOWHERE;
      }
      clean := clean[cut + 1..];
      assert parts[i..][1..] == parts[i + 1..];
      i := i + 1;
    }
    assert i == StripDepth(m.strip);
    ghost var rest := parts[i..];
    NonEmptyJoinFrom(parts, i);
    if clean == "" {
      return NOWHERE;
    }
    if m.prefix == "" {
      assert rest[0..] == rest;
      return Placement(clean, true, true, true);
    }
    SubpathRule(m, rest);
    if clean == m.prefix {
      return NOWHERE.(survived := true, inSubpath := true);
    }
    if !HasPrefix(clean, m.prefix + "/") {
      return NOWHERE.(survived := true);
    }
    var dest := clean[|m.prefix| + 1..];
    if dest == "" {
      return NOWHERE.(survived := true);
    }
    return Placement(dest, true, true, true);
  }

  lemma NonEmptyJoin(parts: seq<string>)
    ensures parts != [] && parts != [""] && RootFree(parts) ==> Join(parts, '/') != ""
  {
    if parts != [] && parts != [""] && RootFree(parts) {
      assert |parts| == 1 ==> parts == [parts[0]];
    }
  }

  lemma NonEmptyJoinFrom(parts: seq<string>, i: nat)
    requires i < |parts| && parts != [""] && RootFree(parts)
    ensures RootFree(parts[i..]) && parts[i..] != [""]
    ensures Join(parts[i..], '/') != ""
  {
    assert |parts[i..]| == 1 ==> parts[i..] == [parts[i]];
    assert |parts| == 1 ==> parts == [parts[0]];
    NonEmptyJoin(parts[i..]);
  }

  // ---------- The tally ----------

  datatype Refusal = StripEmptied(strip: int) | SubpathAbsent(declared: string)

  datatype Tally = Tally(survivors: nat, matched: bool)

  function Count(tally: Tally, p: Placement): Tally {
    Tally(tally.survivors + (if p.survived then 1 else 0), tally.matched || p.inSubpath)
  }

  /** What a walk has proved after the first n names. */
  function TallyTo(strip: int, sub: seq<string>, names: seq<seq<string>>, n: nat): Tally
    requires n <= |names|
  {
    if n == 0 then Tally(0, false)
    else Count(TallyTo(strip, sub, names, n - 1), Place(strip, sub, names[n - 1]))
  }

  function TallyOf(strip: int, sub: seq<string>, names: seq<seq<string>>): Tally {
    TallyTo(strip, sub, names, |names|)
  }

  function Verdict(strip: int, sub: seq<string>, declared: string, tally: Tally): Option<Refusal> {
    if strip > 0 && tally.survivors == 0 then Some(StripEmptied(strip))
    else if sub != [] && !tally.matched then Some(SubpathAbsent(declared))
    else None
  }

  predicate Survives(strip: int, parts: seq<string>) {
    parts != [] && parts != [""] && |parts| > StripDepth(strip)
  }

  predicate LiesIn(strip: int, sub: seq<string>, parts: seq<string>) {
    Survives(strip, parts) && sub <= Without(parts, StripDepth(strip))
  }

  lemma {:induction false} TallyExactly(strip: int, sub: seq<string>, names: seq<seq<string>>, n: nat)
    requires n <= |names|
    ensures var t := TallyTo(strip, sub, names, n);
            && (t.survivors == 0 <==> forall i :: 0 <= i < n ==> !Survives(strip, names[i]))
            && (t.matched <==> exists i :: 0 <= i < n && LiesIn(strip, sub, names[i]))
  {
    if n > 0 {
      TallyExactly(strip, sub, names, n - 1);
      var p := Place(strip, sub, names[n - 1]);
      assert p.survived <==> Survives(strip, names[n - 1]);
      assert p.inSubpath <==> LiesIn(strip, sub, names[n - 1]);
    }
  }

  /** A walk is refused exactly when stripping left no entry, or no entry lies in the subpath. */
  lemma VerdictExactly(strip: int, sub: seq<string>, declared: string, names: seq<seq<string>>)
    ensures Verdict(strip, sub, declared, TallyOf(strip, sub, names)).Some? <==>
            || (strip > 0 && forall i :: 0 <= i < |names| ==> !Survives(strip, names[i]))
            || (sub != [] && forall i :: 0 <= i < |names| ==> !LiesIn(strip, sub, names[i]))
  {
    TallyExactly(strip, sub, names, |names|);
  }

  class Walk {
    const mapping: Mapping
    const declared: string
    var matched: bool
    var survivors: nat

    ghost predicate Valid()
    {
      WellMade(mapping)
    }

    ghost function Tallied(): Tally
      reads this
    {
      Tally(survivors, matched)
    }

    constructor (strip: int, subpath: string)
      ensures Valid() && mapping == NewMapping(strip, subpath) && declared == subpath
      ensures Tallied() == Tally(0, false)
    {
      mapping := NewMapping(strip, subpath);
      declared := subpath;
      matched, survivors := false, 0;
    }

    method Map(name: string) returns (place: Placement)
      requires Valid()
      modifies this
      ensures place == Place(mapping.strip, Selected(mapping), Parts(name))
      ensures Tallied() == Count(old(Tallied()), place)
    {
      place := MapEntry(mapping, name);
      if place.survived {
        survivors := survivors + 1;
      }
      if place.inSubpath {
        matched := true;
      }
    }

    method Err() returns (r: Option<Refusal>)
      requires Valid()
      ensures r == Verdict(mapping.strip, Selected(mapping), declared, Tallied())
    {
      if mapping.strip > 0 && survivors == 0 {
        return Some(StripEmptied(mapping.strip));
      }
      if mapping.prefix != "" && !matched {
        return Some(SubpathAbsent(declared));
      }
      return None;
    }
  }
}
