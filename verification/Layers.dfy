/** One deterministic layer (internal/oci/assemble.go): entries sorted by name, the earliest of each
    name kept, and every header normalised. */
module Layers {
  import opened Strings
  import opened Paths
  import opened Archive
  import opened Extract

  datatype Typeflag = TypeReg | TypeDir | TypeSymlink

  /** A header as written; size and content follow from the body. */
  datatype Header = Header(name: string, mode: int, uid: int, gid: int,
                           typeflag: Typeflag, linkname: string, body: string)

  /** The ownership and the permission overrides of one layer; a zero mode overrides nothing. */
  datatype Stamp = Stamp(uid: int, gid: int, fileMode: int, dirMode: int)

  function HeaderOf(stamp: Stamp, e: TarEntry): Header {
    var mode :=
      if e.dir && stamp.dirMode != 0 then stamp.dirMode
      else if !e.dir && e.link == "" && stamp.fileMode != 0 then stamp.fileMode
      else e.mode;
    if e.dir then Header(e.name + "/", mode, stamp.uid, stamp.gid, TypeDir, "", "")
    else if e.link != "" then Header(e.name, mode, stamp.uid, stamp.gid, TypeSymlink, e.link, "")
    else Header(e.name, mode, stamp.uid, stamp.gid, TypeReg, "", e.body)
  }

  // ---------- A stable sort by name ----------

  predicate SortedByName(s: seq<TarEntry>) {
    forall i, j :: 0 <= i < j < |s| ==> LessEq(s[i].name, s[j].name)
  }

  /** After every entry of the same name or a smaller one. */
  function InsertAfter(s: seq<TarEntry>, e: TarEntry): seq<TarEntry> {
    if s == [] then [e]
    else if LessEq(s[|s| - 1].name, e.name) then s + [e]
    else InsertAfter(s[..|s| - 1], e) + [s[|s| - 1]]
  }

  function SortTo(es: seq<TarEntry>, n: nat): seq<TarEntry>
    requires n <= |es|
  {
    if n == 0 then [] else InsertAfter(SortTo(es, n - 1), es[n - 1])
  }

  /** sort.SliceStable by name. */
  function StableSort(es: seq<TarEntry>): seq<TarEntry> {
    SortTo(es, |es|)
  }

  /** The earliest of the first n entries with this name. */
  function FirstTo(es: seq<TarEntry>, name: string, n: nat): Option<TarEntry>
    requires n <= |es|
  {
    if n == 0 then None
    else if FirstTo(es, name, n - 1).Some? then FirstTo(es, name, n - 1)
    else if es[n - 1].name == name then Some(es[n - 1])
    else None
  }

  function First(es: seq<TarEntry>, name: string): Option<TarEntry> {
    FirstTo(es, name, |es|)
  }

  lemma {:induction false} FirstToIs(es: seq<TarEntry>, name: string, n: nat)
    requires n <= |es|
    ensures FirstTo(es, name, n).Some? <==> exists i :: 0 <= i < n && es[i].name == name
    ensures FirstTo(es, name, n).Some? ==>
              exists i :: 0 <= i < n && es[i] == FirstTo(es, name, n).value && es[i].name == name
  {
    if n > 0 {
      FirstToIs(es, name, n - 1);
    }
  }

  lemma {:induction false} FirstToPrefix(es: seq<TarEntry>, more: seq<TarEntry>, name: string, n: nat)
    requires n <= |es|
    ensures FirstTo(es + more, name, n) == FirstTo(es, name, n)
  {
    if n > 0 {
      FirstToPrefix(es, more, name, n - 1);
    }
  }

  lemma FirstAppend(es: seq<TarEntry>, e: TarEntry, name: string)
    ensures First(es + [e], name) ==
            if First(es, name).Some? then First(es, name) else if e.name == name then Some(e) else None
  {
    FirstToPrefix(es, [e], name, |es|);
  }

  lemma {:induction false} InsertAfterBounded(s: seq<TarEntry>, e: TarEntry, bound: string)
    requires LessEq(e.name, bound) && forall i :: 0 <= i < |s| ==> LessEq(s[i].name, bound)
    ensures forall i :: 0 <= i < |InsertAfter(s, e)| ==> LessEq(InsertAfter(s, e)[i].name, bound)
  {
    if s != [] && !LessEq(s[|s| - 1].name, e.name) {
      InsertAfterBounded(s[..|s| - 1], e, bound);
    }
  }

  lemma {:induction false} InsertAfterSorted(s: seq<TarEntry>, e: TarEntry)
    requires SortedByName(s)
    ensures SortedByName(InsertAfter(s, e))
  {
    hide LessEq;
    if s != [] {
      var n := |s| - 1;
      LessEqTotal(s[n].name, e.name);
      if LessEq(s[n].name, e.name) {
        forall i | 0 <= i < n ensures LessEq(s[i].name, e.name) {
          LessEqTrans(s[i].name, s[n].name, e.name);
        }
      } else {
        InsertAfterSorted(s[..n], e);
        InsertAfterBounded(s[..n], e, s[n].name);
      }
    }
  }

  lemma {:induction false} InsertAfterPermutes(s: seq<TarEntry>, e: TarEntry)
    ensures multiset(InsertAfter(s, e)) == multiset(s) + multiset{e}
  {
    if s != [] {
      var n := |s| - 1;
      assert s == s[..n] + [s[n]];
      if !LessEq(s[n].name, e.name) {
        InsertAfterPermutes(s[..n], e);
      }
    }
  }

  lemma {:induction false} InsertAfterFirst(s: seq<TarEntry>, e: TarEntry, name: string)
    ensures First(InsertAfter(s, e), name) == First(s + [e], name)
  {
    FirstAppend(s, e, name);
    if s == [] {
      assert [] + [e] == [e];
    } else {
      var n := |s| - 1;
      var last := s[n];
      assert s == s[..n] + [last];
      FirstAppend(s[..n], last, name);
      if LessEq(last.name, e.name) {
      } else {
        InsertAfterFirst(s[..n], e, name);
        FirstAppend(s[..n], e, name);
        FirstAppend(InsertAfter(s[..n], e), last, name);
        LessEqTotal(last.name, e.name);
      }
    }
  }

  lemma {:induction false} SortSorts(es: seq<TarEntry>, n: nat)
    requires n <= |es|
    ensures SortedByName(SortTo(es, n))
  {
    hide LessEq, SortedByName;
    if n > 0 {
      SortSorts(es, n - 1);
      InsertAfterSorted(SortTo(es, n - 1), es[n - 1]);
    } else {
      SortedNone();
    }
  }

  lemma SortedNone()
    ensures SortedByName([])
  {
  }

  lemma {:induction false} SortPermutes(es: seq<TarEntry>, n: nat)
    requires n <= |es|
    ensures multiset(SortTo(es, n)) == multiset(es[..n])
  {
    hide InsertAfter;
    if n > 0 {
      SortPermutes(es, n - 1);
      InsertAfterPermutes(SortTo(es, n - 1), es[n - 1]);
      assert es[..n] == es[..n - 1] + [es[n - 1]];
    }
  }

  /** The sort is stable: the earliest entry of each name stays the earliest. */
  lemma {:induction false} SortStable(es: seq<TarEntry>, name: string, n: nat)
    requires n <= |es|
    ensures First(SortTo(es, n), name) == FirstTo(es, name, n)
  {
    if n > 0 {
      var before := SortTo(es, n - 1);
      SortStable(es, name, n - 1);
      InsertAfterFirst(before, es[n - 1], name);
      FirstAppend(before, es[n - 1], name);
    }
  }

  // ---------- De-duplication ----------

  function NamesTo(s: seq<TarEntry>, n: nat): set<string>
    requires n <= |s|
  {
    set i | 0 <= i < n :: s[i].name
  }

  /** The entries kept of the first n: those whose name was not seen before. */
  function KeptTo(s: seq<TarEntry>, n: nat): seq<TarEntry>
    requires n <= |s|
  {
    if n == 0 then []
    else if s[n - 1].name in NamesTo(s, n - 1) then KeptTo(s, n - 1)
    else KeptTo(s, n - 1) + [s[n - 1]]
  }

  /** The entries written for these collected ones, in order. */
  function Emitted(es: seq<TarEntry>): seq<TarEntry> {
    var s := StableSort(es);
    KeptTo(s, |s|)
  }

  predicate StrictByName(s: seq<TarEntry>) {
    forall i, j :: 0 <= i < j < |s| ==> Less(s[i].name, s[j].name)
  }

  lemma {:induction false} KeptFirst(s: seq<TarEntry>, n: nat)
    requires n <= |s|
    ensures forall k :: 0 <= k < |KeptTo(s, n)| ==> FirstTo(s, KeptTo(s, n)[k].name, n) == Some(KeptTo(s, n)[k])
  {
    if n > 0 {
      KeptFirst(s, n - 1);
      FirstToIs(s, s[n - 1].name, n - 1);
    }
  }

  lemma {:induction false} KeptComplete(s: seq<TarEntry>, n: nat, i: nat)
    requires i < n <= |s|
    ensures exists k :: 0 <= k < |KeptTo(s, n)| && KeptTo(s, n)[k].name == s[i].name
  {
    var e := s[n - 1];
    var before := KeptTo(s, n - 1);
    if i < n - 1 {
      KeptComplete(s, n - 1, i);
      var k :| 0 <= k < |before| && before[k].name == s[i].name;
      assert KeptTo(s, n)[k].name == s[i].name;
    } else if e.name in NamesTo(s, n - 1) {
      var j :| 0 <= j < n - 1 && s[j].name == e.name;
      KeptComplete(s, n - 1, j);
      assert KeptTo(s, n) == before;
    } else {
      assert KeptTo(s, n)[|before|].name == e.name;
    }
  }

  lemma {:induction false} KeptStrict(s: seq<TarEntry>, n: nat)
    requires n <= |s| && SortedByName(s)
    ensures StrictByName(KeptTo(s, n))
  {
    hide LessEq;
    if n > 0 {
      KeptStrict(s, n - 1);
      var before := KeptTo(s, n - 1);
      if s[n - 1].name !in NamesTo(s, n - 1) {
        KeptFirst(s, n - 1);
        forall k | 0 <= k < |before| ensures Less(before[k].name, s[n - 1].name) {
          FirstToIs(s, before[k].name, n - 1);
          var i :| 0 <= i < n - 1 && s[i].name == before[k].name;
          assert s[i].name in NamesTo(s, n - 1);
        }
      }
    }
  }

  /** What a layer holds of the entries collected for it: strictly increasing names, of each name
      the earliest entry, and every name. */
  lemma EmittedIs(es: seq<TarEntry>)
    ensures StrictByName(Emitted(es))
    ensures forall k :: 0 <= k < |Emitted(es)| ==> First(es, Emitted(es)[k].name) == Some(Emitted(es)[k])
    ensures forall name :: First(es, name).Some? ==>
              exists k :: 0 <= k < |Emitted(es)| && Emitted(es)[k].name == name
  {
    hide LessEq;
    var s := StableSort(es);
    SortSorts(es, |es|);
    KeptStrict(s, |s|);
    KeptFirst(s, |s|);
    forall k | 0 <= k < |Emitted(es)| ensures First(es, Emitted(es)[k].name) == Some(Emitted(es)[k]) {
      SortStable(es, Emitted(es)[k].name, |es|);
    }
    forall name | First(es, name).Some?
      ensures exists k :: 0 <= k < |Emitted(es)| && Emitted(es)[k].name == name
    {
      SortStable(es, name, |es|);
      FirstToIs(s, name, |s|);
      var i :| 0 <= i < |s| && s[i].name == name;
      KeptComplete(s, |s|, i);
      assert Emitted(es) == KeptTo(s, |s|);
      var k :| 0 <= k < |Emitted(es)| && Emitted(es)[k].name == s[i].name;
    }
  }

  function NamesOf(s: seq<TarEntry>): seq<string> {
    seq(|s|, i requires 0 <= i < |s| => s[i].name)
  }

  /** Only the earliest entry of each name matters: not where it stood among other names. */
  lemma EmittedDetermined(a: seq<TarEntry>, b: seq<TarEntry>)
    requires forall name :: First(a, name) == First(b, name)
    ensures Emitted(a) == Emitted(b)
  {
    hide LessEq, Emitted, First;
    EmittedIs(a);
    EmittedIs(b);
    var x, y := Emitted(a), Emitted(b);
    NamesMatch(a, b);
    NamesMatch(b, a);
    StrictlySortedUnique(NamesOf(x), NamesOf(y));
    assert |x| == |NamesOf(x)| == |y|;
    forall k | 0 <= k < |x| ensures x[k] == y[k] {
      assert NamesOf(x)[k] == NamesOf(y)[k];
      assert Some(x[k]) == First(a, x[k].name) == First(b, y[k].name);
    }
  }

  lemma NamesMatch(a: seq<TarEntry>, b: seq<TarEntry>)
    requires forall name :: First(a, name) == First(b, name)
    ensures forall n :: n in NamesOf(Emitted(a)) ==> n in NamesOf(Emitted(b))
  {
    hide LessEq, Emitted, First;
    EmittedIs(a);
    EmittedIs(b);
    forall n | n in NamesOf(Emitted(a)) ensures n in NamesOf(Emitted(b)) {
      var i :| 0 <= i < |NamesOf(Emitted(a))| && NamesOf(Emitted(a))[i] == n;
      assert First(a, Emitted(a)[i].name).Some?;
      var k :| 0 <= k < |Emitted(b)| && Emitted(b)[k].name == n;
      assert NamesOf(Emitted(b))[k] == n;
    }
  }

  function LayerOf(stamp: Stamp, es: seq<TarEntry>): seq<Header> {
    seq(|Emitted(es)|, i requires 0 <= i < |Emitted(es)| => HeaderOf(stamp, Emitted(es)[i]))
  }

  /** What a header says of the entry it is written for. A directory's name ends in a slash; only a
      regular file has a body, all of it; a link keeps its own mode. */
  predicate Describes(h: Header, e: TarEntry, stamp: Stamp) {
    && h.uid == stamp.uid && h.gid == stamp.gid
    && (e.dir ==>
          && h.name == e.name + "/" && h.typeflag == TypeDir && h.body == "" && h.linkname == ""
          && (stamp.dirMode != 0 ==> h.mode == stamp.dirMode) && (stamp.dirMode == 0 ==> h.mode == e.mode))
    && (!e.dir && e.link != "" ==>
          && h.name == e.name && h.typeflag == TypeSymlink && h.linkname == e.link && h.body == ""
          && h.mode == e.mode)
    && (!e.dir && e.link == "" ==>
          && h.name == e.name && h.typeflag == TypeReg && h.body == e.body && h.linkname == ""
          && (stamp.fileMode != 0 ==> h.mode == stamp.fileMode) && (stamp.fileMode == 0 ==> h.mode == e.mode))
  }

  /** The entry at a position is the first collected under its name. */
  predicate CollectedFirst(es: seq<TarEntry>, i: nat) {
    i < |es| && forall j :: 0 <= j < i ==> es[j].name != es[i].name
  }

  /** Header k is written for some entry that was the first collected under its name. */
  predicate WrittenFor(h: Header, es: seq<TarEntry>, stamp: Stamp) {
    exists i :: 0 <= i < |es| && CollectedFirst(es, i) && Describes(h, es[i], stamp)
  }

  lemma {:induction false} FirstToEarliest(es: seq<TarEntry>, name: string, n: nat)
    requires n <= |es| && FirstTo(es, name, n).Some?
    ensures exists i :: 0 <= i < n && CollectedFirst(es, i) && es[i] == FirstTo(es, name, n).value && es[i].name == name
  {
    if FirstTo(es, name, n - 1).Some? {
      FirstToEarliest(es, name, n - 1);
    } else {
      FirstToIs(es, name, n - 1);
      assert CollectedFirst(es, n - 1);
    }
  }

  /** What a written layer holds: each header describes an entry that was the first collected under its
      name, in the strict order of their names, and every name collected is there. */
  lemma LayerIs(stamp: Stamp, es: seq<TarEntry>)
    ensures |LayerOf(stamp, es)| == |Emitted(es)| && StrictByName(Emitted(es))
    ensures forall k :: 0 <= k < |Emitted(es)| ==>
              Describes(LayerOf(stamp, es)[k], Emitted(es)[k], stamp) && WrittenFor(LayerOf(stamp, es)[k], es, stamp)
    ensures forall i :: 0 <= i < |es| && CollectedFirst(es, i) ==> es[i] in Emitted(es)
  {
    hide Emitted, StrictByName, CollectedFirst, First;
    EmittedIs(es);
    forall k | 0 <= k < |Emitted(es)| ensures WrittenFor(LayerOf(stamp, es)[k], es, stamp) {
      EarliestOf(es, Emitted(es)[k]);
    }
    forall i | 0 <= i < |es| && CollectedFirst(es, i) ensures es[i] in Emitted(es) {
      EarliestIsFirst(es, i);
      var k :| 0 <= k < |Emitted(es)| && Emitted(es)[k].name == es[i].name;
      assert First(es, Emitted(es)[k].name) == Some(Emitted(es)[k]);
    }
  }

  lemma EarliestOf(es: seq<TarEntry>, e: TarEntry)
    requires First(es, e.name) == Some(e)
    ensures exists i :: 0 <= i < |es| && CollectedFirst(es, i) && es[i] == e
  {
    FirstToEarliest(es, e.name, |es|);
  }

  lemma EarliestIsFirst(es: seq<TarEntry>, i: nat)
    requires i < |es| && CollectedFirst(es, i)
    ensures First(es, es[i].name) == Some(es[i])
  {
    FirstToIs(es, es[i].name, |es|);
    FirstToEarliest(es, es[i].name, |es|);
    var k :| 0 <= k < |es| && CollectedFirst(es, k) && Some(es[k]) == First(es, es[i].name) && es[k].name == es[i].name;
    assert k == i;
  }

  /** The writing loop: in name order, skipping every name already seen. */
  method WriteLayer(stamp: Stamp, collected: seq<TarEntry>) returns (tar: seq<Header>)
    ensures tar == LayerOf(stamp, collected)
    ensures forall k :: 0 <= k < |tar| ==> WrittenFor(tar[k], collected, stamp)
  {
    hide LessEq, HeaderOf, WrittenFor;
    LayerIs(stamp, collected);
    var entries := StableSort(collected);
    var seen: set<string> := {};
    tar := [];
    for n := 0 to |entries|
      invariant seen == NamesTo(entries, n)
      invariant |tar| == |KeptTo(entries, n)|
      invariant forall i :: 0 <= i < |tar| ==> tar[i] == HeaderOf(stamp, KeptTo(entries, n)[i])
    {
      var e := entries[n];
      assert NamesTo(entries, n + 1) == NamesTo(entries, n) + {e.name};
      if e.name in seen {
        continue;
      }
      seen := seen + {e.name};
      tar := tar + [HeaderOf(stamp, e)];
    }
  }
}
