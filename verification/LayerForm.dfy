/** The form of every layer an input can produce, whatever it is made from. */
module LayerForm {
  import opened Strings
  import opened Paths
  import opened Archive
  import opened Extract
  import opened Layers
  import opened Contents
  import opened Zip
  import opened Inputs
  import opened Assembly

  /** The archive the input unpacks holds no stray empty link; a single file holds no link. */
  predicate NoStrayIn(w: World, l: LayerInput, src: Source) {
    var cfg := ConfigFor(l);
    if src.OfImage? then src.image.files.Some? ==> NoStray(cfg, src.image.files.value)
    else if TarMode(l.unpack) || l.unpack == "deb" then
      w.tar(l.Identity(), l.unpack).Some? ==> NoStray(cfg, w.tar(l.Identity(), l.unpack).value)
    else if l.unpack == "zip" then w.zip(l.Identity()).Some? ==> NoStray(cfg, Items(w.zip(l.Identity()).value))
    else true
  }

  lemma ConfigGood(l: LayerInput)
    ensures GoodConfig(ConfigFor(l))
  {
    RootedComponents(l.target);
    RootedComponents(l.subpath);
  }

  lemma TarCollected(l: LayerInput, items: Option<seq<Item>>, es: seq<TarEntry>)
    ensures TarOf(l, items) == Ok(es) ==> items.Some? && es == Gather(ConfigFor(l), items.value).entries
  {
    hide Gather, WalkVerdict, ConfigFor;
  }

  lemma ZipCollected(l: LayerInput, zip: seq<ZipEntry>, es: seq<TarEntry>)
    ensures Unwrap(ZipEntries(ConfigFor(l), zip)) == Ok(es) ==> es == Gather(ConfigFor(l), Items(zip)).entries
  {
    hide Gather, WalkVerdict, ConfigFor, FirstRefusal;
  }

  /** A single file with its parents: `unpack: none` and `unpack: gz`. */
  lemma SingleWellFormed(l: LayerInput, codec: string, body: Option<string>, es: seq<TarEntry>)
    requires SingleEntries(l, codec, body) == Ok(es)
    ensures WellFormed(TargetElements(l.target), es, Emitted(es))
  {
    hide Components, Clean, ParentNames, Fits, Less, WellFormed, Emitted, TargetElements, RelativeTarget;
    var t, name := TargetElements(l.target), RelativeTarget(l.target);
    RelativeTargetIs(l.target);
    TargetFits(t, name);
    forall i | 0 <= i < |es| ensures Fits(t, es[i].name) {
      if i < |es| - 1 {
        assert es[i] == DirEntry(ParentNames(name)[i]);
        ParentsFit(t, name, ParentNames(name)[i]);
      }
    }
    forall p | p in ParentNames(name) ensures DirEntry(p) in es {
      var k :| 0 <= k < |ParentNames(name)| && ParentNames(name)[k] == p;
      assert es[k] == DirEntry(p);
    }
    forall x, p | x in es && !x.dir && p in ParentNames(x.name) ensures First(es, p).Some? {
      FirstExists(es, DirEntry(p));
    }
    LayerWellFormed(t, es);
  }

  lemma TargetFits(t: seq<string>, name: string)
    requires Plain(t) && name == Join(t, '/') && name != ""
    ensures Fits(t, name)
  {
    hide Join;
    EmptyTarget(t);
    ComponentsOfJoin(t);
  }

  /** A layer with content has strictly increasing plain names, each the earliest collected under it,
      all under the target or leading to it, and every file after all of its ancestors: exactly when
      what it unpacks holds no stray empty link. */
  lemma ContentLayerWellFormed(w: World, l: LayerInput, src: Source, es: seq<TarEntry>)
    requires l.remove == [] && Collect(w, l, src) == Ok(es)
    ensures WellFormed(TargetElements(l.target), es, Emitted(es)) <==> NoStrayIn(w, l, src)
  {
    hide WellFormed, Emitted, TargetElements, TarOf, SingleEntries, ZipEntries, Gather, NoStray;
    ConfigGood(l);
    var cfg := ConfigFor(l);
    if src.OfImage? {
      TarCollected(l, src.image.files, es);
      ArchiveLayerWellFormed(cfg, src.image.files.value);
    } else if TarMode(l.unpack) || l.unpack == "deb" {
      TarCollected(l, w.tar(l.Identity(), l.unpack), es);
      ArchiveLayerWellFormed(cfg, w.tar(l.Identity(), l.unpack).value);
    } else if l.unpack == "zip" {
      ZipCollected(l, w.zip(l.Identity()).value, es);
      ArchiveLayerWellFormed(cfg, Items(w.zip(l.Identity()).value));
    } else if l.unpack == "gz" {
      SingleWellFormed(l, "gz", w.bytes(l.Identity(), l.unpack), es);
    } else {
      SingleWellFormed(l, "", w.bytes(l.Identity(), l.unpack), es);
    }
  }

  lemma {:induction false} RemovalsPlain(remove: seq<string>, n: nat)
    requires n <= |remove| && RemovalsTo(remove, n).Ok?
    ensures forall k :: 0 <= k < |RemovalsTo(remove, n).value| ==> PlainName(RemovalsTo(remove, n).value[k].name)
  {
    hide Components, Whiteout, PlainName;
    if n > 0 {
      RemovalsPlain(remove, n - 1);
      WhiteoutPlain(remove[n - 1]);
    }
  }

  /** A remove entry's layer: strictly increasing plain whiteout names. */
  lemma RemoveLayerForm(w: World, l: LayerInput, src: Source, es: seq<TarEntry>)
    requires l.remove != [] && Collect(w, l, src) == Ok(es)
    ensures StrictByName(Emitted(es))
    ensures forall k :: 0 <= k < |Emitted(es)| ==> PlainName(Emitted(es)[k].name)
  {
    hide Emitted, PlainName, LessEq, First;
    RemovalsPlain(l.remove, |l.remove|);
    EmittedIs(es);
    forall k | 0 <= k < |Emitted(es)| ensures PlainName(Emitted(es)[k].name) {
      FirstIsElement(es, Emitted(es)[k].name);
    }
  }

  // ---------- What each unpack mode collects ----------

  /** What a decoded archive gives under the input's target, strip and subpath: its entries in archive order,
      unless it did not decode, some name leaves the target, or nothing is selected. */
  predicate OfArchive(l: LayerInput, items: Option<seq<Item>>, r: Result<seq<TarEntry>, LayerError>) {
    var cfg := Config(Components("/" + l.target), l.strip, Components("/" + l.subpath), l.subpath);
    && (items.None? ==> r == Err(UnreadableContent))
    && (r.Ok? <==> items.Some? && (forall i :: 0 <= i < |items.value| ==> !EscapesTarget(items.value[i].name))
                     && WalkVerdict(cfg, items.value).None?)
    && (r.Ok? ==> r.value == Gather(cfg, items.value).entries)
  }

  /** What a single file gives: the directories leading to the target, outermost first, and then the whole
      content at the target with mode 0644, unless the target is the root or ends in a slash, a subpath is
      asked of a compressed file, or the content cannot be read. */
  predicate OfFile(l: LayerInput, compressed: bool, body: Option<string>, r: Result<seq<TarEntry>, LayerError>) {
    var cs := Components("/" + l.target);
    && (r.Ok? <==> |cs| > 0 && !HasSuffix(l.target, "/") && (compressed ==> l.subpath == "") && body.Some?)
    && (r.Ok? ==>
          && |r.value| == |cs|
          && (forall i :: 0 <= i < |cs| - 1 ==> r.value[i] == TarEntry(Join(cs[..i + 1], '/'), 493, "", true, ""))
          && r.value[|cs| - 1] == TarEntry(Join(cs, '/'), 420, body.value, false, ""))
  }

  lemma TarOfArchive(l: LayerInput, items: Option<seq<Item>>)
    ensures OfArchive(l, items, TarOf(l, items))
  {
    hide Components, WalkVerdict, Gather, EscapesTarget;
    if items.Some? {
      FirstEscapeNone(items.value, 0);
    }
  }

  lemma SingleOfFile(l: LayerInput, codec: string, body: Option<string>)
    ensures OfFile(l, codec != "", body, SingleEntries(l, codec, body))
  {
    hide Components, Join, RelativeTarget, ParentNames, HasSuffix;
    RelativeTargetIs(l.target);
    var cs := TargetElements(l.target);
    EmptyTarget(cs);
    if cs != [] {
      ParentNamesPlain(cs);
    }
  }

  /** Every mode, exactly: an image layer is read from its file system whatever the mode says; the six
      archive modes from the decoded archive; no mode, `none` and `gz` from the content as one file; `zip`
      by its own rule; and any other mode is refused by name. */
  lemma CollectExactly(w: World, l: LayerInput, src: Source)
    requires l.remove == []
    ensures var r, u := Collect(w, l, src), l.unpack;
            && (src.OfImage? ==> OfArchive(l, src.image.files, r))
            && (!src.OfImage? ==>
                  && (u == "tar" || u == "tar.gz" || u == "tar.xz" || u == "tar.zst" || u == "tar.bz2" || u == "deb" ==>
                        OfArchive(l, w.tar(l.Identity(), u), r))
                  && (u == "none" || u == "" ==> OfFile(l, false, w.bytes(l.Identity(), u), r))
                  && (u == "gz" ==> OfFile(l, true, w.bytes(l.Identity(), u), r))
                  && (u == "zip" && w.zip(l.Identity()).None? ==> r == Err(UnreadableContent))
                  && (u == "zip" && w.zip(l.Identity()).Some? ==>
                        var cfg := Config(Components("/" + l.target), l.strip, Components("/" + l.subpath), l.subpath);
                        var es := ZipEntries(cfg, w.zip(l.Identity()).value);
                        (r.Ok? <==> es.Ok?) && (r.Ok? ==> r.value == es.value))
                  && (r == Err(UnsupportedUnpack(u)) <==>
                        u !in {"tar", "tar.gz", "tar.xz", "tar.zst", "tar.bz2", "deb", "none", "", "gz", "zip"}))
  {
    hide OfArchive, OfFile, TarOf, SingleEntries, ZipEntries, Components;
    if src.OfImage? {
      TarOfArchive(l, src.image.files);
    } else {
      TarOfArchive(l, w.tar(l.Identity(), l.unpack));
      SingleOfFile(l, "", w.bytes(l.Identity(), l.unpack));
      SingleOfFile(l, "gz", w.bytes(l.Identity(), l.unpack));
      TarNotUnsupported(l, w.tar(l.Identity(), l.unpack));
      SingleNotUnsupported(l, w.bytes(l.Identity(), l.unpack));
    }
  }

  lemma TarNotUnsupported(l: LayerInput, items: Option<seq<Item>>)
    ensures TarOf(l, items).Err? ==> !TarOf(l, items).error.UnsupportedUnpack?
  {
    hide TarEntries;
  }

  lemma SingleNotUnsupported(l: LayerInput, body: Option<string>)
    ensures forall codec ::
              SingleEntries(l, codec, body).Err? ==> !SingleEntries(l, codec, body).error.UnsupportedUnpack?
  {
    hide RelativeTarget, ParentEntries;
  }
}
