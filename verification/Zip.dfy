/** The zip sink (internal/oci/zip.go): entries come in no particular order and names may repeat, so
    a repeated file is refused rather than resolved. */
module Zip {
  import opened Strings
  import opened Paths
  import opened Archive
  import opened Extract
  import opened Layers

  /** One central-directory entry; the body is None when its contents cannot be read back. */
  datatype ZipEntry = ZipEntry(name: string, encrypted: bool, utf8: bool, mode: Kind, perm: int, body: Option<string>)

  /** A zip written on Windows may separate with backslashes. */
  function Slashes(name: string): string {
    seq(|name|, i requires 0 <= i < |name| => if name[i] == '\\' then '/' else name[i])
  }

  /** Every backslash reads as a slash and nothing else changes, so a name written with either separator
      has the same elements, and a name that ends in either is a directory's. */
  lemma SlashesExactly(name: string, other: string)
    ensures |Slashes(name)| == |name|
    ensures forall i :: 0 <= i < |name| ==>
              Slashes(name)[i] == (if name[i] == '/' || name[i] == '\\' then '/' else name[i])
    ensures '\\' !in name ==> Slashes(name) == name
    ensures Slashes(name + "/" + other) == Slashes(name + "\\" + other) == Slashes(name) + "/" + Slashes(other)
  {
    assert '\\' !in name ==> forall i :: 0 <= i < |name| ==> name[i] in name;
  }

  function KindOf(e: ZipEntry): Kind {
    if HasSuffix(Slashes(e.name), "/") then Directory else e.mode
  }

  function ItemOf(e: ZipEntry): Item {
    var body := if e.body.Some? then e.body.value else "";
    Item(Slashes(e.name), KindOf(e), e.perm, body, body)
  }

  function Items(es: seq<ZipEntry>): seq<Item> {
    seq(|es|, i requires 0 <= i < |es| => ItemOf(es[i]))
  }

  function RebasedTo(cfg: Config, e: ZipEntry): Rebased {
    Rebase(cfg, Slashes(e.name))
  }

  /** The entry claims its destination for itself. */
  predicate Occupies(cfg: Config, e: ZipEntry) {
    RebasedTo(cfg, e).At? && KindOf(e) != Directory
  }

  function Seen(cfg: Config, es: seq<ZipEntry>, n: nat): set<string>
    requires n <= |es|
  {
    set i | 0 <= i < n && Occupies(cfg, es[i]) :: RebasedTo(cfg, es[i]).dest
  }

  predicate NeedsBody(e: ZipEntry) {
    KindOf(e) == Symlink || KindOf(e) == Regular
  }

  /** Why entry n is refused, given the entries before it. */
  function EntryRefusal(cfg: Config, es: seq<ZipEntry>, n: nat): Option<ExtractError>
    requires n < |es|
  {
    var e := es[n];
    if e.encrypted then Some(Encrypted(e.name))
    else if !e.utf8 then Some(NotUtf8(e.name))
    else match RebasedTo(cfg, e)
      case Refused => Some(Escapes(Slashes(e.name)))
      case Skipped => None
      case At(dest) =>
        if KindOf(e) == Directory then None
        else if dest in Seen(cfg, es, n) then Some(Duplicate(Slashes(e.name)))
        else if NeedsBody(e) && e.body.None? then Some(Unreadable(e.name))
        else None
  }

  function FirstRefusal(cfg: Config, es: seq<ZipEntry>, n: nat): Option<ExtractError>
    requires n <= |es|
    decreases |es| - n
  {
    if n == |es| then None
    else if EntryRefusal(cfg, es, n).Some? then EntryRefusal(cfg, es, n)
    else FirstRefusal(cfg, es, n + 1)
  }

  function ZipEntries(cfg: Config, es: seq<ZipEntry>): Result<seq<TarEntry>, ExtractError> {
    match FirstRefusal(cfg, es, 0)
    case Some(e) => Err(e)
    case None =>
      match WalkVerdict(cfg, Items(es))
      case Some(refusal) => Err(SelectedNothing(refusal))
      case None => Ok(Gather(cfg, Items(es)).entries)
  }

  lemma SeenStep(cfg: Config, es: seq<ZipEntry>, n: nat)
    requires n < |es|
    ensures Seen(cfg, es, n + 1) == Seen(cfg, es, n) + if Occupies(cfg, es[n]) then {RebasedTo(cfg, es[n]).dest} else {}
  {
    hide RebasedTo, KindOf;
  }

  method ExtractZip(es: seq<ZipEntry>, target: string, subpath: string, strip: int, ghost elements: seq<string>)
    returns (r: Result<seq<TarEntry>, ExtractError>)
    requires Plain(elements) && target == Join(elements, '/')
    ensures r == ZipEntries(Config(elements, strip, Components("/" + subpath), subpath), es)
  {
    hide Components, Place, Plain, Join, Slashes, Seen;
    var c := new Collector(target, subpath, strip, elements);
    ghost var cfg := c.cfg;
    ghost var items := Items(es);
    var seen: set<string> := {};
    NothingSeen(cfg, es);
    for n := 0 to |es|
      invariant FirstRefusal(cfg, es, n) == FirstRefusal(cfg, es, 0)
      invariant seen == Seen(cfg, es, n)
      invariant c.State() == GatherTo(cfg, items, n)
      invariant c.Tallied() == TallyTo(cfg.strip, cfg.sub, Names(items), n)
    {
      var e := es[n];
      SeenStep(cfg, es, n);
      assert items[n] == ItemOf(e) && Names(items)[n] == Components(Slashes(e.name));
      if e.encrypted {
        return Err(Encrypted(e.name));
      }
      if !e.utf8 {
        return Err(NotUtf8(e.name));
      }
      var name := Slashes(e.name);
      var rebased := c.RebaseName(name);
      if rebased.Refused? {
        return Err(Escapes(name));
      }
      if rebased.Skipped? {
        continue;
      }
      var dest := rebased.dest;
      if KindOf(e) == Directory {
        c.AddDirectory(dest);
        continue;
      }
      if dest in seen {
        return Err(Duplicate(name));
      }
      seen := seen + {dest};
      if NeedsBody(e) && e.body.None? {
        return Err(Unreadable(e.name));
      }
      c.AddItem(dest, ItemOf(e));
    }
    r := c.Done();
  }

  lemma NothingSeen(cfg: Config, es: seq<ZipEntry>)
    ensures Seen(cfg, es, 0) == {}
  {
  }

  // ---------- When an archive is accepted ----------

  /** What an entry must be, whatever the others are. */
  predicate Fine(cfg: Config, e: ZipEntry) {
    && !e.encrypted && e.utf8 && !RebasedTo(cfg, e).Refused?
    && (RebasedTo(cfg, e).At? && NeedsBody(e) ==> e.body.Some?)
  }

  predicate AllFine(cfg: Config, es: seq<ZipEntry>) {
    forall i :: 0 <= i < |es| ==> Fine(cfg, es[i])
  }

  predicate Collide(cfg: Config, a: ZipEntry, b: ZipEntry) {
    Occupies(cfg, a) && Occupies(cfg, b) && RebasedTo(cfg, a).dest == RebasedTo(cfg, b).dest
  }

  predicate NoCollision(cfg: Config, es: seq<ZipEntry>) {
    forall i, j :: 0 <= i < j < |es| ==> !Collide(cfg, es[i], es[j])
  }

  lemma {:induction false} FirstRefusalNone(cfg: Config, es: seq<ZipEntry>, n: nat)
    requires n <= |es|
    ensures FirstRefusal(cfg, es, n).None? <==> forall i :: n <= i < |es| ==> EntryRefusal(cfg, es, i).None?
    decreases |es| - n
  {
    hide EntryRefusal;
    if n < |es| {
      FirstRefusalNone(cfg, es, n + 1);
    }
  }

  lemma EntryRefusalNone(cfg: Config, es: seq<ZipEntry>, n: nat)
    requires n < |es|
    ensures EntryRefusal(cfg, es, n).None? <==>
            Fine(cfg, es[n]) && forall i :: 0 <= i < n ==> !Collide(cfg, es[i], es[n])
  {
    hide RebasedTo, KindOf;
    var e := es[n];
    if RebasedTo(cfg, e).At? {
      var dest := RebasedTo(cfg, e).dest;
      if dest in Seen(cfg, es, n) && KindOf(e) != Directory {
        var i :| 0 <= i < n && Occupies(cfg, es[i]) && RebasedTo(cfg, es[i]).dest == dest;
        assert Collide(cfg, es[i], es[n]);
      }
      assert forall i :: 0 <= i < n && Collide(cfg, es[i], es[n]) ==> RebasedTo(cfg, es[i]).dest in Seen(cfg, es, n);
    }
  }

  lemma AcceptedIff(cfg: Config, es: seq<ZipEntry>)
    ensures ZipEntries(cfg, es).Ok? <==>
            AllFine(cfg, es) && NoCollision(cfg, es) && WalkVerdict(cfg, Items(es)).None?
  {
    hide EntryRefusal, Fine, Collide, WalkVerdict, Items;
    FirstRefusalNone(cfg, es, 0);
    forall n | 0 <= n < |es|
      ensures EntryRefusal(cfg, es, n).None? <==>
              Fine(cfg, es[n]) && forall i :: 0 <= i < n ==> !Collide(cfg, es[i], es[n])
    {
      EntryRefusalNone(cfg, es, n);
    }
  }

  lemma {:induction false} FirstRefusalIs(cfg: Config, es: seq<ZipEntry>, m: nat, n: nat)
    requires m <= n < |es| && EntryRefusal(cfg, es, n).Some?
    requires forall i :: m <= i < n ==> EntryRefusal(cfg, es, i).None?
    ensures FirstRefusal(cfg, es, m) == EntryRefusal(cfg, es, n)
    decreases n - m
  {
    hide EntryRefusal;
    if m < n {
      FirstRefusalIs(cfg, es, m + 1, n);
    }
  }

  /** The first entry that is not acceptable decides the refusal: for being encrypted, then for a name that
      is not UTF-8, for leaving the target, for a destination taken before it, and for contents that cannot
      be read back. */
  lemma RefusedFor(cfg: Config, es: seq<ZipEntry>, n: nat)
    requires n < |es|
    requires forall i :: 0 <= i < n ==> Fine(cfg, es[i]) && forall j :: 0 <= j < i ==> !Collide(cfg, es[j], es[i])
    requires !(Fine(cfg, es[n]) && forall j :: 0 <= j < n ==> !Collide(cfg, es[j], es[n]))
    ensures var e := es[n];
            ZipEntries(cfg, es) == Err(
              if e.encrypted then Encrypted(e.name)
              else if !e.utf8 then NotUtf8(e.name)
              else if EscapesTarget(Slashes(e.name)) then Escapes(Slashes(e.name))
              else if exists j :: 0 <= j < n && Collide(cfg, es[j], e) then Duplicate(Slashes(e.name))
              else Unreadable(e.name))
  {
    hide Fine, Collide, EntryRefusal, Slashes, EscapesTarget;
    forall i | 0 <= i < n ensures EntryRefusal(cfg, es, i).None? {
      EntryRefusalNone(cfg, es, i);
    }
    EntryRefusalNone(cfg, es, n);
    FirstRefusalIs(cfg, es, 0, n);
    EntryRefusedFor(cfg, es, n);
  }

  lemma EntryRefusedFor(cfg: Config, es: seq<ZipEntry>, n: nat)
    requires n < |es| && EntryRefusal(cfg, es, n).Some?
    ensures var e := es[n];
            EntryRefusal(cfg, es, n).value ==
              if e.encrypted then Encrypted(e.name)
              else if !e.utf8 then NotUtf8(e.name)
              else if EscapesTarget(Slashes(e.name)) then Escapes(Slashes(e.name))
              else if exists j :: 0 <= j < n && Collide(cfg, es[j], e) then Duplicate(Slashes(e.name))
              else Unreadable(e.name)
  {
    hide Slashes, EscapesTarget, KindOf, Placed, Rest;
    var e := es[n];
    if RebasedTo(cfg, e).At? {
      var dest := RebasedTo(cfg, e).dest;
      if dest in Seen(cfg, es, n) && KindOf(e) != Directory {
        var j :| 0 <= j < n && Occupies(cfg, es[j]) && RebasedTo(cfg, es[j]).dest == dest;
        assert Collide(cfg, es[j], e);
      }
      assert forall j :: 0 <= j < n && Collide(cfg, es[j], e) ==> RebasedTo(cfg, es[j]).dest in Seen(cfg, es, n);
    }
  }

  // ---------- Permutations ----------

  lemma {:induction false} CountTwo(es: seq<ZipEntry>, e: ZipEntry)
    requires multiset(es)[e] >= 2
    ensures exists i, j :: 0 <= i < j < |es| && es[i] == e && es[j] == e
  {
    var n := |es| - 1;
    assert es == es[..n] + [es[n]];
    if es[n] == e {
      assert e in multiset(es[..n]);
      var i :| 0 <= i < n && es[..n][i] == e;
      assert es[i] == e && es[n] == e;
    } else {
      CountTwo(es[..n], e);
      var i, j :| 0 <= i < j < n && es[..n][i] == e && es[..n][j] == e;
      assert es[i] == e && es[j] == e;
    }
  }

  lemma TwoCount(es: seq<ZipEntry>, i: nat, j: nat)
    requires i < j < |es| && es[i] == es[j]
    ensures multiset(es)[es[i]] >= 2
  {
    assert es == es[..j] + [es[j]] + es[j + 1..];
    assert es[..j][i] in multiset(es[..j]);
  }

  lemma NoCollisionPermutes(cfg: Config, es: seq<ZipEntry>, fs: seq<ZipEntry>)
    requires multiset(es) == multiset(fs) && NoCollision(cfg, es)
    ensures NoCollision(cfg, fs)
  {
    hide Collide;
    forall i, j | 0 <= i < j < |fs| ensures !Collide(cfg, fs[i], fs[j]) {
      assert fs[i] in multiset(fs) && fs[j] in multiset(fs);
      var k :| 0 <= k < |es| && es[k] == fs[i];
      var m :| 0 <= m < |es| && es[m] == fs[j];
      if fs[i] == fs[j] {
        TwoCount(fs, i, j);
        CountTwo(es, fs[i]);
      } else {
        CollideSymmetric(cfg, es[k], es[m]);
      }
    }
  }

  lemma CollideSymmetric(cfg: Config, a: ZipEntry, b: ZipEntry)
    ensures Collide(cfg, a, b) == Collide(cfg, b, a)
  {
  }

  lemma SameElements<T>(es: seq<T>, fs: seq<T>)
    requires multiset(es) == multiset(fs)
    ensures forall e :: e in es <==> e in fs
  {
    forall e ensures e in es <==> e in fs {
      assert e in es <==> e in multiset(es);
      assert e in fs <==> e in multiset(fs);
    }
  }

  lemma VerdictPermutes(cfg: Config, es: seq<ZipEntry>, fs: seq<ZipEntry>)
    requires multiset(es) == multiset(fs)
    ensures WalkVerdict(cfg, Items(es)).Some? ==> WalkVerdict(cfg, Items(fs)).Some?
  {
    hide Components, Survives, LiesIn, TallyOf, Slashes;
    var xs, ys := Names(Items(es)), Names(Items(fs));
    VerdictExactly(cfg.strip, cfg.sub, cfg.declared, xs);
    VerdictExactly(cfg.strip, cfg.sub, cfg.declared, ys);
    SameElements(es, fs);
    forall i | 0 <= i < |ys| ensures exists k :: 0 <= k < |xs| && xs[k] == ys[i] {
      assert fs[i] in es;
      var k :| 0 <= k < |es| && es[k] == fs[i];
      assert xs[k] == ys[i];
    }
  }

  /** Whether a zip is accepted does not depend on the order of its entries. */
  lemma AcceptanceOrderFree(cfg: Config, es: seq<ZipEntry>, fs: seq<ZipEntry>)
    requires multiset(es) == multiset(fs)
    ensures ZipEntries(cfg, es).Ok? <==> ZipEntries(cfg, fs).Ok?
  {
    hide Fine, Collide, WalkVerdict, Items, FirstRefusal;
    AcceptedIff(cfg, es);
    AcceptedIff(cfg, fs);
    SameElements(es, fs);
    VerdictPermutes(cfg, es, fs);
    VerdictPermutes(cfg, fs, es);
    FinePermutes(cfg, es, fs);
    FinePermutes(cfg, fs, es);
    if NoCollision(cfg, es) { NoCollisionPermutes(cfg, es, fs); }
    if NoCollision(cfg, fs) { NoCollisionPermutes(cfg, fs, es); }
  }

  lemma FinePermutes(cfg: Config, es: seq<ZipEntry>, fs: seq<ZipEntry>)
    requires multiset(es) == multiset(fs)
    ensures AllFine(cfg, es) ==> AllFine(cfg, fs)
  {
    hide Fine;
    SameElements(es, fs);
    assert forall i :: 0 <= i < |fs| ==> fs[i] in es;
  }
}
