# A verified model of kube-oci-composer

kube-oci-composer assembles OCI artifacts from content-addressed inputs (the composer), builds images in
Jobs (the builder), publishes both under tags in a registry, and keeps what live objects name from being
reclaimed. These modules model that behaviour in Dafny and prove what the system promises about it.
`dafny verify dfyconfig.toml` checks the whole project.

Where the program changes things step by step, so does the model: collectors, readers, registries, status
objects, refreshers and the cache are classes, and loops are loops. Each such method is proved equal to a
specification function, and the promises are lemmas about those functions, over all inputs and all runs.

## The parts

- **Text and paths** (`Strings`, `Decimal`, `Paths`): Go's string helpers, decimal numbers, and
  `path.Clean` by its documented rules.
- **The assembler** (`Archive`, `Extract`, `BuildContext`, `Sinks`, `Zip`, `Contents`, `ZipOrder`, `Deb`, `Layers`,
  `LayerForm`, `Inputs`, `InputHash`, `Assembly`, `ShortCut`, `Attest`): from decoded archive entries to
  the headers of each layer, to images per platform, and the hash that decides when none of it is needed.
- **Publication** (`Tags`, `Registries`, `Published`, `Statuses`, `Backfill`, `Composer`, `Convergence`,
  `BuildConvergence`, `Decisions`): what one object decides, writes and records, and how retries end. A
  repository is a set of manifests and a map of tags; every write can be the last one that lands, and every
  status write can be lost.
- **The builder** (`Backoff`, `Builder`, `BuilderRuns`, `Retries`, `Outcomes`): the machine over its Job.
- **Whole runs** (`Runs`, `ClaimsKept` in `Claims.dfy`, `Kept`): any number of compositions and builds
  publishing into one repository, with Jobs pushing by digest, the registry reclaiming in between, and
  manifests dropped with their last tag.
- **The lease** (`Retention`, `Written`, `Refresh`, `Pushes`, `Lease`, `Adopting`,
  `LeasedRuns`) and **the cache** (`Cache`).

## What is assumed

- A `char` is one byte of a Go string. The hash of a build is its preimage: the byte stream itself.
- Content is a function of its identity (`Assembly.World`): equal identities mean equal content. A base
  image's config states its operating system and architecture, as the "Properties" section of the OCI image
  configuration document requires.
- Publication: a HEAD answers truthfully (one that fails reads as "absent", internal/reconciler/published.go:73);
  no other writer comes between one pass's check and its writes; spec tags are valid and not of the form
  `digest-...` (the digest's own tag is written but never conflict-checked); digests are `sha256:` and 64
  hexadecimal digits. Reads of the API server are consistent and a status write is atomic.
- Whole runs: in `Runs` the registry reclaims no tag that status claims, and `LeasedRuns` derives that from the
  lease; a manifest that no tag names may go at any time between two passes (`Runs.DropCommutes`: in the middle
  of one is the same).
- The build context: writing through a link is left to the operating system, and is a parameter.
- Retention: times are integers, a pass pushes and writes status at one of them, a push counts like a pull, and
  the registry answers a pull only for what it holds. What a status comes to name is not assumed: it is
  computed by the passes themselves.

## Where code and documentation part

- `publish` under Keep records `status.conflict`, but the next pass may clear it, as the short cut returns no
  conflict (internal/controller/imagecomposition_controller.go:401-408); `Kept.KeptConflictNextPass` says
  exactly when.
- Keep reports every tag of the spec, also tags that are elsewhere or nowhere
  (internal/controller/imagecomposition_controller.go:487-503): `Kept.ReportedIsPublished` says exactly when the
  report is true of the registry, and `Adopting.KeepAdoptsMissingTag` shows a tag that is nowhere.
- A retried publish may end without the digest's own tag; `Convergence.RetryConverges` gives the exact condition.
- A rebuild after a lost tag may be abandoned half-way, with the tag naming the later image and status the
  earlier (internal/buildcontroller/conflict.go:354-392 asks whether the tag is there, not what it names);
  `BuildConvergence.BuildRetryConverges` gives the exact condition, `RebuildTakenForDone` an instance.
- A build whose create answers AlreadyExists becomes Ready with nothing built
  (internal/buildcontroller/imagebuild_controller.go:510-515); `BuilderRuns.ReadyNamesTheSpec` gives the exact
  condition.
- An archive link with an empty target is emitted as a regular file without its parents
  (internal/oci/extract.go:91-93); `Contents.EmptyLinkHasNoParents` shows it, and
  `Contents.ArchiveLayerWellFormed` gives the exact condition.
- Both sinks place an archive by one rule (internal/archive/archive.go:3-4), but a directory tree refuses what a
  layer lists twice or below a file, and keeps the last body where the layer keeps the first;
  `Sinks.SinksAgree` gives the exact conditions.
- A zip in which one destination is both a directory and a file keeps whichever comes first;
  `ZipOrder.OrderFreeIffNoClash` gives the exact condition.
- A composition that declares no platform and one that declares the controller's own hash alike, but only
  the second accepts an image-index layer; `ShortCut.DefaultedIndexLayer` gives the exact condition.

## Model

| member | source | states |
|---|---|---|
| Archive.NewMapping | internal/archive/path.go:38-44 | The mapping selects exactly the components of the subpath read from the root, and keeps the strip depth; `./x`, `/x/` and `x` are one subpath. |
| Archive.MapEntry | internal/archive/path.go:52-84 | The string rule equals the component rule for every name, rooted and `..` names included: drop the first `strip` components, then require the subpath's components as a proper prefix and remove them. |
| Archive.Walk.Map | internal/archive/path.go:100-109 | Placing an entry also counts it: as a survivor when it is left after stripping, as a match when it lies in the subpath. |
| Archive.Walk.Err | internal/archive/path.go:113-121 | The verdict of the walk is the verdict on exactly the entries counted so far. |
| Archive.VerdictExactly | internal/archive/path.go:113-121 | A walk fails if and only if stripping was asked for and no entry survived it, or a subpath was asked for and no entry lies in it. |
| Extract.RebaseInside | internal/oci/extract.go:40-62 | Whatever the archive calls an entry, a destination that is not refused has the target's components followed by at least one component, none of them empty, `.` or `..`. |
| Extract.Collector.RebaseName | internal/oci/extract.go:40-62 | Rebasing refuses an escaping target before counting anything, and counts every other entry exactly once. |
| Extract.Collector.AddDirectory | internal/oci/extract.go:65-71 | A directory is recorded once however often it is declared or implied. |
| Extract.Collector.AddRegular | internal/oci/extract.go:76-84 | A file is preceded by whichever of its parent directories are not there yet, outermost first. |
| Extract.Collector.AddLink | internal/oci/extract.go:91-93 | A link adds itself and nothing else. |
| Extract.Collector.Done | internal/oci/extract.go:96-101 | The entries are released only when the walk selected something. |
| Extract.ParentDirs | internal/oci/extract.go:113-124 | One directory entry for each proper ancestor, outermost first. |
| Extract.ParentNamesPlain | internal/oci/extract.go:113-124 | The ancestors of a name are exactly its proper non-empty component prefixes, in order. |
| Extract.ExtractTar | internal/oci/tar.go:12-51 | The streaming loop over the collector computes: the first escaping entry, else the walk's refusal, else the gathered entries. |
| Extract.TarExactly | internal/oci/tar.go:12-51 | A tar is refused for its first escaping name whatever else it holds, else for an empty selection only, and otherwise gives all it gathers. |
| BuildContext.ExtractContext | internal/archive/archive.go:38-80 | The second sink as a loop over a mutable tree, with its counter and its error order, leaves the tree and the error that its entries describe, whatever tree it starts from. |
| BuildContext.FileTree.WriteEntry | internal/archive/archive.go:101-142 | One entry written to a tree: refused outside the destination, below a file, as a file over a directory, or as a symlink that leaves the tree, is empty or meets anything; a file over a file replaces its body; following a link is the operating system's. |
| BuildContext.EscapeCheckExact | internal/archive/archive.go:101-142 | For a placed name the string prefix test that guards writes is true exactly when the destination is neither `/` nor `.`, and then the written path is the cleaned destination followed by the components. |
| BuildContext.RefusedFor | internal/archive/archive.go:38-80 | An archive of more than 500000 entries is refused, and so is one with an absolute name, for the first of the two that is met, unless something else stopped it before. |
| BuildContext.LinkStaysExactly | internal/archive/archive.go:101-142 | A link passes the guard if and only if it is relative and, followed element by element from the directory it is in, never leads above the destination. |
| Sinks.TreeIs | internal/archive/archive.go:38-142 | While no entry is written through an earlier link, the context takes the first n entries if and only if they fit it and no two clash, and then its tree holds exactly the directories, links and files they make, each file with the last body it was given. |
| Sinks.SinksAgree | internal/oci/extract.go:40-101 | For archives whose names neither sink refuses and in which no entry goes through an earlier link: both sinks refuse what selects nothing, for one reason; otherwise the layer takes the archive, and the context takes it if and only if it has at most 500000 entries, a destination that is neither root nor dot for what is placed, links that are not empty and stay in the tree, and no entry below a file, file at a directory, directory at a file, or symlink at anything, put earlier; and then the two hold the same at every path if and only if no file that comes again comes last with another body. |
| Sinks.LinkTwiceRefused | internal/archive/archive.go:123-136 | A link listed twice is taken by the layer and refused by the context. |
| Sinks.FileBelowFileRefused | internal/archive/archive.go:104-121 | So is a file listed below a file. |
| Sinks.FileTwiceDiffers | internal/archive/archive.go:104-121 | A file listed twice with two bodies is taken by both, and the layer holds the first body, the context the last. |
| Contents.GatherYields | internal/oci/extract.go:65-101 | What is collected, as a set, is exactly what the entries yield one by one, whatever order they come in, and the set of known directories matches the directory entries. |
| Contents.YieldedExactly | internal/oci/extract.go:65-110 | A directory has mode 0755, a link 0777 and its own target; a file has its own body, and mode 0755 if and only if one of its octal permission digits is odd, 0644 otherwise. |
| Contents.ArchiveLayerWellFormed | internal/oci/assemble.go:500-567 | An archive's layer is well formed (names strictly increasing, each the earliest collected entry of its name, none with an empty, `.` or `..` component, all under the target or an ancestor of it or the target itself, and every proper ancestor of a regular file before it) if and only if the archive has no stray empty link: a symlink with an empty target that is the first entry at its destination, while no entry puts one of the directories above it. |
| Contents.EmptyLinkHasNoParents | internal/oci/extract.go:91-93 | Such an archive: one symlink entry with an empty target is emitted as a regular file whose parents nothing collected. |
| LayerForm.SingleWellFormed | internal/oci/assemble.go:638-659 | A single file's layer is well formed in the same sense. |
| LayerForm.ContentLayerWellFormed | internal/oci/assemble.go:579-631 | Every content layer that is accepted (tar, deb, zip, image or single file) is well formed in the same sense if and only if what it unpacks holds no stray empty link; a single file never does. |
| LayerForm.RemoveLayerForm | internal/oci/assemble.go:579-593 | A remove layer's names strictly increase and have no empty, `.` or `..` component. |
| LayerForm.CollectExactly | internal/oci/assemble.go:579-659 | What each unpack mode accepts and collects, exactly: an image's files, the six archive modes, the single file with the directories leading to it and mode 0644, zip, and a refusal by name of any other mode. |
| Layers.SortSorts | internal/oci/assemble.go:506-508 | The sort orders by name. |
| Layers.SortPermutes | internal/oci/assemble.go:506-508 | The sort loses and adds nothing. |
| Layers.SortStable | internal/oci/assemble.go:506-508 | The sort keeps the earliest entry of each name earliest. |
| Layers.EmittedIs | internal/oci/assemble.go:506-527 | Sort and de-duplication emit strictly increasing names, each name that was collected, and for each the entry collected first. |
| Layers.EmittedDetermined | internal/oci/assemble.go:506-527 | What is emitted depends only on the first entry of each name. |
| Layers.LayerIs | internal/oci/assemble.go:500-567 | Every header of a written layer describes an entry that was the first collected under its name, every such entry has one, and their names strictly increase: a directory has its name with a slash, no body and no link; a link has its target, its own mode and no body; a regular file has exactly its body; the owner is the stamp's, and so is the mode where the stamp sets one. |
| Layers.WriteLayer | internal/oci/assemble.go:500-567 | The in-place sort and the loop over the seen map write that layer: each header says of some first entry of its name exactly what the entry and the stamp say. |
| Zip.ExtractZip | internal/oci/zip.go:31-104 | The loop with its early refusals and its seen map computes the refusal of the first refused entry, else the walk's refusal, else the gathered entries. |
| Zip.SlashesExactly | internal/oci/zip.go:54-58 | Every backslash reads as a slash and nothing else changes, so the separator a zip was written with does not show. |
| ZipOrder.ZipPutsExactly | internal/oci/zip.go:50-103 | What one zip entry puts into a layer, exactly: a directory for a name that ends in either separator or a directory's mode, a link to what its contents spell, a file with those contents, executable if one permission digit is odd, and the directories leading to it, or nothing. |
| Zip.AcceptedIff | internal/oci/zip.go:45-103 | A zip is accepted if and only if every entry alone is acceptable, no two occupy one destination, and the walk selects something. |
| Zip.RefusedFor | internal/oci/zip.go:45-103 | The first entry that is not acceptable decides the refusal: encrypted, then not UTF-8, then leaving the target, then a destination taken before it, then unreadable contents. |
| Zip.AcceptanceOrderFree | internal/oci/zip.go:45-103 | Permuting the entries never changes whether a zip is accepted. |
| ZipOrder.LayerOrderFree | internal/oci/zip.go:45-103 | Permuting an accepted zip's entries does not change the entries written, when no destination is both a directory and a non-directory. |
| ZipOrder.OrderFreeIffNoClash | internal/oci/zip.go:45-103 | That condition is exact: an accepted zip's layer is independent of entry order if and only if no destination is both a directory, declared or implied, and a non-directory. |
| Deb.OpenDebData | internal/oci/deb.go:29-80 | The reader loop, advancing through 60-byte headers, bodies and padding, finds what the recursive reading of the bytes finds, errors included. |
| Deb.ReadPrinted | internal/oci/deb.go:29-80 | For every list of members printed in the common `ar` layout, the reader returns the codec suffix and exactly the bytes of the first `data.tar*` member, refuses an unsupported codec, and reports no data member when there is none. |
| Deb.FindPrinted | internal/oci/deb.go:41-79 | The same from any member of the printed list on. |
| Deb.ReadsFiveCodecs | internal/oci/deb.go:62-74 | The payload is read without a codec and with gzip, xz, zstd and bzip2, by the suffix after `data.tar`, dotted or not, and any other suffix is refused by name. |
| Deb.ReadsPast | internal/oci/deb.go:41-79 | After any well-formed members: an end, a cut or misterminated header, an unreadable size and a short member are each refused as such, and a short data member is read as far as it goes. |
| Deb.ReadsOnlyAr | internal/oci/deb.go:29-40 | Nothing is read that does not begin with the ar magic. |
| Decimal.ParseDec | internal/oci/deb.go:58-61 | Decimal sizes up to the 64-bit limit read back as printed. |
| Inputs.ParseString | internal/oci/assemble.go:121-138 | A platform's string parses back to the platform. |
| Inputs.ParseExactly | internal/oci/assemble.go:121-138 | What parses as a platform, exactly: two or three parts without slashes, with one slash between each. |
| Inputs.PlatformStringInjective | internal/oci/assemble.go:133-138 | Distinct platforms have distinct strings. |
| Inputs.DeclaredPlatforms | internal/controller/platforms.go:17-37 | Accepted platform lists are in the declared order and free of repeats; a refusal has an unparseable entry or a repeat behind it. |
| InputHash.InputHash | internal/oci/assemble.go:57-111 | The bytes written to the running hash are the stream of the version, base digest, platforms, layers, remove lists and config, for any enumeration of the label map. |
| InputHash.VersionLeads | internal/oci/assemble.go:57-66 | The stream begins with the version of the assembly, so another version changes every hash. |
| InputHash.StreamInjective | internal/oci/assemble.go:57-111 | Equal streams force equal base digests, platform strings, per-layer tuples, remove lists, config lists and label maps. |
| InputHash.StreamOrderFree | internal/oci/assemble.go:57-111 | The enumeration order of the label map does not show in the stream. |
| InputHash.StreamExactly | internal/oci/assemble.go:57-111 | Two streams are equal if and only if what they encode is equal. |
| Attest.PaeInjective | internal/attest/dsse.go:41-44 | The pre-authentication encoding of the DSSE v1 protocol is injective in type and payload. |
| Assembly.RemoveEntries | internal/oci/assemble.go:579-593 | Removing the root is refused; otherwise one whiteout per path. |
| Assembly.RemovalName | internal/oci/assemble.go:579-593 | The string construction of a whiteout equals the component one: `.wh.` before the last component. |
| Assembly.WhiteoutPlain | internal/oci/assemble.go:579-593 | A whiteout stays beside what it removes and never climbs. |
| Assembly.SingleFile | internal/oci/assemble.go:638-659 | A single file is placed at the cleaned target below its parents, and refuses a directory-like target and a subpath. |
| Assembly.CollectEntries | internal/oci/assemble.go:579-631 | The dispatch on unpack mode collects what the mode's extractor yields, with its errors. |
| Assembly.BuildLayer | internal/oci/assemble.go:390-400 | A layer is reused whole or built from its collected entries. |
| Assembly.BuiltHeaders | internal/oci/assemble.go:500-567 | A layer's headers carry the owner and the modes of its own input, each for the first entry its content puts under that name. |
| Assembly.BuildLayers | internal/oci/assemble.go:357-388 | The loop filling a map of slices succeeds exactly when every layer builds on every platform, and then every platform's list holds its layers in input order. |
| Assembly.ColumnIs | internal/oci/assemble.go:357-388 | With distinct platforms each list has one layer per input, in input order. |
| Assembly.StateRun | internal/oci/assemble.go:450-476 | Each config field the spec states replaces the inherited one, and the others stay. |
| Assembly.AssembleFor | internal/oci/assemble.go:403-487 | Inheriting without a base is refused; otherwise the layers are stacked on the base, dates and author are erased, and the platform is stamped. |
| Assembly.ImageIs | internal/oci/assemble.go:403-487 | A build succeeds if and only if every input has a layer on the platform and there is a base where inheriting is asked for; then the image is the base's layers in order, one layer per input on top in input order, and nothing else; each config field is the stated one, else the base's if inherited, else empty; and platform, date, author and history are as told. |
| Assembly.AssembleAs | internal/oci/assemble.go:300-306 | A single-platform build is the stack of every input's layer on that platform, or an error when one does not build. |
| Assembly.AssembleIndex | internal/oci/assemble.go:316-350 | The shared pass over all platforms gives, per platform, what a build of that platform alone gives. |
| Assembly.IndexIsItsChildren | internal/oci/assemble.go:316-350 | An index is built if and only if every child builds alone, and its children are those builds, in platform order, each on the base given for its platform. |
| Assembly.ProjectionBuilds | internal/oci/assemble.go:316-350 | A child equals the single-platform build with its per-platform images projected in. |
| ShortCut.ShortCutSound | internal/controller/imagecomposition_controller.go:360-408 | Two specs whose hashed streams are equal build the same layers and the same config on every platform, when equal identities mean equal content and a base states its platform. |
| ShortCut.BuildExactly | internal/controller/platforms.go:40-79 | What a spec builds: several declared platforms make one child each, in order, on the base's own image for the platform; one makes an image for it; none makes an image for the platform the base states, or linux and the controller's architecture where it states none; always the base's layers below one layer per input. |
| ShortCut.BaseRefused | internal/controller/platforms.go:81-132 | An index without a declared platform or missing one builds nothing, and neither does a single image that is not for each of several declared platforms. |
| ShortCut.DefaultedIndexLayer | internal/controller/imagecomposition_controller.go:362-373 | The corner the hash does not see: of two specs hashing alike, one declaring no platform and one declaring the controller's own, the builds agree if and only if no layer is an image index. |
| Tags.TagFromRefOf | internal/reconciler/reconciler.go:177-194 | The tag of a reference is what follows the last colon; a host port is not one, and no tag in is no tag out. |
| Tags.TagFromRefExactly | internal/reconciler/reconciler.go:177-194 | A reference is refused if it carries a digest, or if what follows its last colon past the last slash is no valid tag; otherwise it says that tag, or none where there is no such colon. |
| Tags.EffectiveTags | internal/reconciler/reconciler.go:197-216 | The tags asked for and the reference's, without empty ones and without repeats. |
| Tags.EffectiveKeepsOrder | internal/reconciler/reconciler.go:197-216 | A list without repeats keeps its order, and the reference's tag comes last when it is new. |
| Tags.DigestTagInjective | internal/reconciler/digesttag.go:30-36 | No two digests share their own tag. |
| Tags.DigestTagIsNoSpecTag | internal/reconciler/digesttag.go:30-36 | A digest's own tag is never a tag outside the form kept for it. |
| Tags.PublishTagList | internal/reconciler/digesttag.go:42-51 | The loop computes the tags with the digest's own last. |
| Tags.PublishTagsIs | internal/reconciler/digesttag.go:42-51 | The own tag is added once and last; no other tag is added, dropped or moved, and no repeat is made. |
| Tags.QualifiedClaims | internal/reconciler/digesttag.go:56-64 | A qualified tag claims a digest's own tag exactly when its tag is that one. |
| Tags.RecordHistory | internal/reconciler/reconciler.go:147-167 | The early-breaking loop puts the record first, drops its digest's older entry, keeps the order of the rest, and trims; a pass that published nothing changes nothing. |
| Tags.HistoryIsMostRecent | internal/reconciler/reconciler.go:147-167 | After any run of passes from empty, history is the first L distinct digests by last publication, most recent first, each with the record of that publication. |
| Published.ResolvePublished | internal/reconciler/published.go:62-89 | The snapshot holds what each tag resolves to, how many were asked for, and the recorded digest when it is served. |
| Published.MatchesExactly | internal/reconciler/published.go:31-41 | A match is exactly a full publication: recorded, served, every tag on it; with a repeated tag there is never one. |
| Published.Conflicts | internal/reconciler/published.go:47-55 | The first conflicting tag in the order of the list. |
| Published.ConflictExactly | internal/reconciler/published.go:47-89 | There is a conflict exactly when one of the spec's tags resolves elsewhere, and the one reported does. |
| Backfill.BackfillDigestTags | internal/controller/imagecomposition_controller.go:661-726 | One pass asks the artifact's digest and then each waiting record's, each learned digest once, and marks status with what it learned. |
| Backfill.DigestTagOutcomes.Record | internal/reconciler/digesttag.go:131-138 | Success and 404 are learned; anything else leaves the digest to be retried. |
| Backfill.DigestTagOutcomes.MarkHistory | internal/reconciler/digesttag.go:149-162 | Every record is marked by what was learned of its digest, and the current artifact's is never marked lost. |
| Backfill.AskExactly | internal/reconciler/digesttag.go:70-138 | One request: the own tag is given if and only if the registry is reached and serves the digest; that it was given is learned only when the referrers are answered for too, that it is gone whenever the registry says so; nothing else is touched. |
| Backfill.MarkedExactly | internal/reconciler/digesttag.go:149-162 | A waiting record gains its own tag when that was given, and the time it was lost when its digest is gone, unless it is the current artifact's; every other record stays. |
| Backfill.LearnedIsTrue | internal/reconciler/digesttag.go:70-118 | What is noted tagged resolves by its own tag, what is noted gone is not served, and an answered request always teaches something. |
| Backfill.NoPassAddsWork | internal/reconciler/digesttag.go:149-162 | Whatever is answered, no pass adds a waiting record or makes a record both tagged and lost. |
| Backfill.AnsweredPassSettles | internal/reconciler/digesttag.go:120-162 | A pass whose requests are all answered leaves nothing waiting except records of the current artifact's digest when the registry does not serve it. |
| Backfill.NothingWaits | internal/buildcontroller/conflict.go:401-445 | With nothing waiting a pass makes no request and changes neither registry nor status. |
| Composer.Composition.Publish | internal/controller/imagecomposition_controller.go:507-527 | The digest is pushed first and then every tag, and when a write fails exactly the writes before it have landed. |
| Composer.Composition.ReconcileArtifact | internal/controller/imagecomposition_controller.go:387-547 | The short cut, the second convergence check, the conflict guard and the ordered writes leave the registry and the result that the decision on the initial registry prescribes. |
| Composer.Composition.Reconcile | internal/controller/imagecomposition_controller.go:138-216 | A whole pass: the backfill, the work, and the status write when everything before it succeeded, with a failure possible at each point. |
| Convergence.DecisionMeans | internal/controller/imagecomposition_controller.go:387-527 | What each decision says about the registry it was taken on: converged means every looked-up tag is in place, a refusal or a kept tag is really taken, and a publish outside Overwrite meets no taken tag. |
| Decisions.ShortCutExactly | internal/controller/imagecomposition_controller.go:389-408 | The short cut is taken if and only if status reports a digest at the pass's input hash, the registry serves it, every tag of the spec and the own tag once claimed resolve to it, no other tag repeats, and each enabled one of SBOM, provenance and signature is recorded, non-empty, for that very digest. |
| Decisions.UnsignedIsAttested | internal/attest/attestor.go:44-61 | A key enabled without a recorded signature closes the short cut, whatever else is recorded. |
| Decisions.DecisionExactly | internal/controller/imagecomposition_controller.go:454-527 | Past the short cut each decision if and only if: nothing without a digest, naming what is published in full, refusing or keeping when a spec tag is taken under Fail or Keep, publishing otherwise. |
| Decisions.PassThatKeeps | internal/controller/imagecomposition_controller.go:401-505 | A pass that does not publish writes nothing: the short cut only forgets a conflict, a Keep reports the kept digest without attestations and records what was dropped, a refusal or a failure leaves status as it was. |
| Decisions.PassThatNames | internal/controller/imagecomposition_controller.go:454-470 | A digest found published gets its own tag and is reported, at the new input hash, with what signing recorded, and joins no history. |
| Decisions.PassThatPublishes | internal/controller/imagecomposition_controller.go:507-547 | After an uncut publish the spec's tags and the own tag name the digest and no other tag has moved; status reports it under the public name, and one record of it, under the bare names, leads the history. |
| Decisions.SuspendedStillNames | internal/controller/imagecomposition_controller.go:138-160 | A suspended object publishes nothing, but an answered pass still names every waiting digest the registry serves. |
| Convergence.AnsweredBackfillNames | internal/controller/imagecomposition_controller.go:661-726 | After an answered backfill nothing in status waits for its own tag that the registry could give. |
| Convergence.RetryConverges | internal/controller/imagecomposition_controller.go:387-527 | A publish cut short any number of times, each time after any prefix of its writes, and then retried: the retry is never stopped by the publication's own tags, and the registry ends as one uninterrupted publish leaves it if and only if the retry does not stop short, that is unless status already reports the digest at these inputs without its own tag, all that is enabled is attested, the spec's tags are in place and no request to add the own tag reaches the registry. |
| Convergence.RetryConvergesAnyway | internal/controller/imagecomposition_controller.go:387-527 | The same whatever else in status waits for its own tag when the publication begins: the two registries then agree but for those own tags. |
| Convergence.AnsweredRetryConverges | internal/controller/imagecomposition_controller.go:387-527 | So one request that reaches the registry, the one for the current artifact's digest, is enough, whatever else of the backfill fails. |
| Convergence.AttemptStaysInFlight | internal/controller/imagecomposition_controller.go:387-527 | An attempt that is not recorded leaves the registry between the start and the end of the publication, whatever landed and whatever the backfill marked. |
| Convergence.UnansweredRetryStopsShort | internal/controller/imagecomposition_controller.go:387-408 | A retry that stops short: status reports the digest without its own tag, the backfill is not answered, and the short cut leaves the own tag missing. |
| Convergence.ConvergedPassWritesNothing | internal/controller/imagecomposition_controller.go:401-408 | A pass over a converged state takes the short cut, leaves the registry as it is, reports the same artifact, and leaves the state converged. |
| Convergence.QuietForever | internal/controller/imagecomposition_controller.go:401-408 | Once the status of a publish is written, any number of later passes over the same inputs change neither the registry nor the reported artifact. |
| BuildConvergence.BuildRetryConverges | internal/buildcontroller/conflict.go:481-545 | Whole passes over a build whose Job succeeded, cut short any number of times after any prefix of their writes and with every status write lost: the next whole pass leaves the registry as one uninterrupted naming leaves it if and only if it does not take the naming for done, that is unless status reports an artifact for these inputs whose references are all in the registry it meets, own tags added by its requests included, while the output's tags are not all in place there. |
| BuildConvergence.BuildRetryConvergesAnyway | internal/buildcontroller/conflict.go:481-545 | The same whatever else in status waits for its own tag: the two registries then agree but for those own tags. |
| BuildConvergence.RebuildTakenForDone | internal/buildcontroller/conflict.go:354-392 | That case: a rebuild after a lost tag gives another digest, is cut short after the spec's tag, and the next pass takes the earlier build for published because that tag is there again. |
| BuildConvergence.NamingConverges | internal/buildcontroller/imagebuild_controller.go:530-588 | A naming whose writes all land leaves the build converged: artifact, input hash and every tag in place, and nothing left to name. |
| BuildConvergence.ConvergedBuildWritesNothing | internal/buildcontroller/imagebuild_controller.go:102-217 | A pass over a converged build with unchanged inputs, suspended or not and whatever it fails at, changes neither registry, Jobs nor artifact. |
| BuildConvergence.BuildQuietForever | internal/buildcontroller/imagebuild_controller.go:102-217 | So do any number of later passes, whether their status writes land or not. |
| Kept.KeptConflictNextPass | internal/controller/imagecomposition_controller.go:401-408 | After a landed Keep, the next pass with nothing changed takes the short cut and clears status.conflict if and only if no attestation is enabled and every tag of the spec already resolves to the kept digest; otherwise it keeps again and records the same conflict. |
| Kept.OneKeptTagForgets | internal/controller/imagecomposition_controller.go:476-505 | Such a case: one taken tag, no attestation: the conflict is recorded, and gone after the next pass. |
| Kept.ReportedIsPublished | internal/controller/imagecomposition_controller.go:387-547 | After a pass whose result is recorded, every tag of the spec resolves to the reported digest if and only if the pass did not keep a tag while another of the spec's tags is elsewhere. |
| Kept.StatusReportsItsInputs | internal/controller/imagecomposition_controller.go:360-547 | In every state of every run, when equal input hashes produce equal digests: status reports a digest other than the one its recorded inputs produce if and only if the last result recorded, short cuts aside, was a Keep. |
| Runs.DropCommutes | internal/reconciler/digesttag.go:14-24 | Dropping a manifest when its last tag moves, in the middle of a pass, leaves the registry that dropping it after the pass leaves. |
| Runs.TagNeverRemeaned | internal/controller/imagecomposition_controller.go:477-527 | In any run of composer and builder passes, Job pushes, ended Jobs, reclaims and drops of untagged manifests, with crashes at any write, a spec tag keeps its digest while no pass naming it runs under Overwrite and the registry does not reclaim that digest. |
| Runs.ComposerHarmless | internal/controller/imagecomposition_controller.go:477-527 | Every write a composer pass would make to a tag that resolves already, outside Overwrite, puts the digest it has. |
| Runs.BuilderHarmless | internal/buildcontroller/conflict.go:481-545 | The same for a build's tags. |
| Runs.TakenTagStopsThePass | internal/controller/imagecomposition_controller.go:476-505 | A pass that meets a taken tag under Fail or Keep writes nothing; a refusal leaves status alone, and Keep reports the existing digest, records what was dropped and adds no history. |
| ClaimsKept.StatusNeverOverClaims | internal/controller/imagecomposition_controller.go:463-545 | In every reachable state a digest's own tag claimed by an artifact or a history record resolves to that digest, for every object sharing the repository. |
| ClaimsKept.SettledTruthful | internal/controller/imagecomposition_controller.go:463-545 | One composer pass keeps every claim of its status true. |
| ClaimsKept.BuildTruthful | internal/buildcontroller/imagebuild_controller.go:636-686 | One build pass keeps every claim of its status true. |
| ClaimsKept.NoBuildIsStranded | internal/reconciler/digesttag.go:14-51 | For objects that start with nothing published, after any run and any number of moved tags, and although the registry drops manifests that no tag names, every build in every history is still served and still has a name. |
| Backoff.FailureBackoff | internal/buildcontroller/errors.go:22-31 | The doubling loop with its early break computes min(30 * 2^n, 600) seconds for every n. |
| Builder.JobName | internal/buildcontroller/job.go:93-99 | A Job's name never exceeds 63 characters. |
| Builder.JobNameSeparates | internal/buildcontroller/job.go:93-108 | However long the object's name, Jobs share a name only when their input hashes share the first twelve characters. |
| Builder.StillPublished | internal/buildcontroller/conflict.go:354-392 | The last publication counts as lost exactly when the registry answers that its digest, a spec tag or its claimed own tag is not there. |
| Builder.CheckTagConflict | internal/buildcontroller/conflict.go:28-92 | The pre-flight stops or refuses by policy, with status's digest standing in for the one to come. |
| Builder.ApplyTags | internal/buildcontroller/conflict.go:481-545 | The policy is enforced with the pushed digest, an unserved manifest is waited for, and when a tag cannot be written exactly the tags before it have been. |
| Builder.ImageBuild.RecordSuccess | internal/buildcontroller/imagebuild_controller.go:636-686 | Status names the artifact under its public tags, own tag included, and the record joins history; failures and the Job in flight are cleared. |
| Builder.ImageBuild.RecordKept | internal/buildcontroller/imagebuild_controller.go:859-866 | A kept tag clears failures and the Job in flight, and keeps artifact, hash and history. |
| Builder.ImageBuild.StartBuild | internal/buildcontroller/imagebuild_controller.go:455-527 | The Job and the attempt are recorded only when the create succeeds; an existing Job changes nothing in status. |
| Builder.ImageBuild.ObserveJob | internal/buildcontroller/imagebuild_controller.go:530-588 | The three states of a Job: named and recorded, counted once and kept until the backoff has elapsed, or reported in flight. |
| Builder.ImageBuild.ReconcileJob | internal/buildcontroller/imagebuild_controller.go:163-217 | The state machine over the owned Job, with every early error. |
| Builder.ImageBuild.ApplyOutcome | internal/buildcontroller/imagebuild_controller.go:694-728 | The conditions for each outcome. |
| Builder.ImageBuild.Reconcile | internal/buildcontroller/imagebuild_controller.go:102-160 | A whole pass and when it asks to run again. |
| BuilderRuns.ReadyNamesTheSpec | internal/buildcontroller/imagebuild_controller.go:102-217 | A pass that ends Ready leaves no Job in flight and neither Stalled nor Reconciling set; it is Ready without reporting the resolved inputs or a kept tag if and only if it lost the race to create the Job and nothing else in status accounts for the inputs; and Stalled is set exactly when nothing is scheduled because only a spec edit helps. |
| BuilderRuns.RequeueIsDue | internal/buildcontroller/imagebuild_controller.go:102-160 | The pass that counts a failure asks to run again at the first moment its retry is due. |
| BuilderRuns.NamingExactly | internal/buildcontroller/conflict.go:481-545 | After the Job: refused if and only if a tag is taken under Fail, kept if and only if one is taken under Keep, named if and only if none stands in the way and the manifest is served, waited for otherwise. |
| BuilderRuns.PreFlightExactly | internal/buildcontroller/conflict.go:28-92 | Before the Job: stopped or refused exactly when a tag outside Overwrite holds something other than this object's last publication. |
| BuilderRuns.LostRaceIsReady | internal/buildcontroller/imagebuild_controller.go:510-515 | That case: a new object whose create answers AlreadyExists is Ready with nothing built. |
| BuilderRuns.FailuresAreSpaced | internal/buildcontroller/imagebuild_controller.go:530-588 | With unchanged inputs, however passes and Jobs interleave, and from each reset of the count on, which exactly a publish and a kept tag are: every Job but a last unobserved one has been counted as a failure exactly once, and the (k+1)-th Job came no earlier than the sum of the first k backoffs after the first. |
| Retries.FailedJobGoes | internal/buildcontroller/imagebuild_controller.go:562-580 | A pass that reaches a failed Job already counted deletes it if and only if no end of the last attempt is recorded or min(30 * 2^n, 600) seconds have passed since it, and the delete lands; it counts nothing again. |
| Retries.JobStarts | internal/buildcontroller/imagebuild_controller.go:455-527 | A pass that finds no Job creates one if and only if it gets that far, the pre-flight lets it through and everything a Job needs is there, and then records it as the attempt in flight. |
| Retries.RetryRuns | internal/buildcontroller/imagebuild_controller.go:530-588 | Over any run of passes: a failed Job, and what times its retry, stays until the first pass that reaches it after its backoff and deletes it, is gone until the first later pass that may start one, and runs again after that as a new attempt. |
| Outcomes.EndsEarly | internal/buildcontroller/imagebuild_controller.go:102-217 | A suspended pass, an object that cannot be deleted, inputs that do not resolve, a build recorded and published, and a Job that cannot be read each end the pass with their own outcome and change nothing but conditions. |
| Outcomes.WithoutJob | internal/buildcontroller/imagebuild_controller.go:163-217 | Without a Job: the pre-flight's verdict, a kept tag recorded with nothing else lost, and every way a start can fail, each with its own outcome. |
| Outcomes.WithJob | internal/buildcontroller/imagebuild_controller.go:530-588 | A running Job is recorded as in flight, adopted or not; the first sight of a failed one counts it, ends the attempt and keeps the Job; a result that cannot be read changes nothing. |
| Outcomes.NotNamed | internal/buildcontroller/conflict.go:481-545 | A digest that cannot be named, by policy or because a write fails, leaves status alone, and a kept tag is recorded with what was dropped. |
| Outcomes.Named | internal/buildcontroller/imagebuild_controller.go:530-692 | When every tag is written, the spec's tags and the own tag name the digest and no other tag has moved; artifact, input hash, attestations, attempt and history say so, conflict, failures and Job in flight are cleared, and the Job stays. |
| Outcomes.LostExactly | internal/buildcontroller/conflict.go:354-392 | A publication counts as lost if and only if the registry answers that its digest, a spec tag or the own tag status claims is not there; what gets no answer is not lost. |
| Outcomes.NoAccess | internal/buildcontroller/conflict.go:28-92 | Without a registry or its credentials nothing is named or backfilled, and a start goes on only when it asks the registry nothing. |
| Outcomes.AsksAgain | internal/buildcontroller/imagebuild_controller.go:102-160 | When a pass runs again: at its interval or poll, after 30 seconds, after the backoff between 30 seconds and ten minutes, or not at all. |
| Backoff.TotalWaitIs | internal/buildcontroller/errors.go:15-31 | From the fifth failure on, each further one adds ten minutes to that sum. |
| Retention.RefsOf | internal/retention/refresher.go:431-460 | The references are listed once each, none of them empty. |
| Retention.BareTagOf | internal/retention/refresher.go:486-503 | A stored tag reads back to the tag, bare or under a public host with a port. |
| Retention.BareTagExactly | internal/retention/refresher.go:486-503 | What a stored name says of a tag: none when it carries a digest or is a repository alone, else what follows the last colon past every slash, or all of a bare one. |
| Retention.RefsAreExact | internal/retention/refresher.go:431-503 | The references pulled are, without repeats, exactly the digest and the tags of the artifact and of every record, in the write repository although status holds public names. |
| Retention.RefsMean | internal/retention/refresher.go:431-503 | Whatever status holds, a reference is pulled if and only if it is the digest or a readable tag of the artifact or of a record, in the write repository. |
| Written.StatusReadsBack | internal/retention/refresher.go:473-503 | What the composer and the builder write to status is read back by the refresher as the digest and every tag that was published, and what a Keep writes as the kept digest and every tag of the spec. |
| Written.StatusAlwaysReadsBack | internal/retention/refresher.go:431-503 | In every state of every run, the artifact and every record of every object stand for one publication each: a digest and valid tags, bare or under a public name. |
| Written.ReadIsRefreshed | internal/retention/refresher.go:431-503 | In such a state the references pulled are, without repeats, exactly the digests and tags of those publications in the write repository. |
| Written.ClaimIsRefreshed | internal/retention/refresher.go:431-503 | Whatever own tag status claims, the refresher pulls that tag and the digest in the write repository: what the lease keeps is what keeps status true. |
| Refresh.Refresher.RefreshObject | internal/retention/refresher.go:268-383 | Counters, the failure count and the registry's record of pulls after one object are what its references and their answers say, and it is loud exactly when the visit fails for at least the third time in a row. |
| Refresh.Refresher.NoteFailure | internal/retention/refresher.go:386-407 | Failures count up by one and are loud from the third in a row. |
| Refresh.Refresher.RefreshOnce | internal/retention/refresher.go:199-262 | A cycle whose listing fails pulls nothing and resets the skips, one on a partial view pulls nothing and counts a skip, and any other refreshes every object and resets the skips. |
| Refresh.FailuresAreConsecutive | internal/retention/refresher.go:386-415 | The failure count is how many refreshes in a row failed last: that many did, for want of credentials, an answer or the current artifact, and the one before them did not. |
| Refresh.CountedExactly | internal/retention/refresher.go:268-383 | An object's count goes up by one if and only if its credentials fail, a reference is unanswered or malformed, or the artifact's digest or one of its tags in the write repository is gone; otherwise it is cleared, also when every record's references are gone; no other object's count changes. |
| Refresh.TotalsExactly | internal/retention/refresher.go:268-383 | What an object adds to the totals: itself, its references, and for each answer the number of distinct references answered so; all of them failed without credentials. |
| Refresh.RenewedExactly | internal/retention/refresher.go:310-345 | The registry's record of pulls moves for exactly the references that were pulled. |
| Refresh.CycleCounts | internal/retention/refresher.go:199-262 | A cycle visits every live object: each one with references has its count up by one if and only if it fails, and cleared otherwise. |
| Refresh.CycleRenews | internal/retention/refresher.go:199-262 | A cycle renews exactly the references that some object with credentials names and whose pull works. |
| Refresh.TotalsAddUp | internal/retention/refresher.go:268-383 | Every reference mentioned was refreshed, found gone or failed: the totals add up. |
| Pushes.ComposeNames | internal/controller/imagecomposition_controller.go:387-547 | After a composer pass an object names only what it named before, what the pass pushed or pulled, and what it adopts: the spec's tags when the pass only named a digest found published, and the kept digest and the spec's tags when it kept one; and it names all of that. |
| Pushes.BuildNames | internal/buildcontroller/imagebuild_controller.go:636-686 | After a build pass an object names only what it named before and what the pass pushed or pulled. |
| Pushes.ComposePushedIsHeld | internal/controller/imagecomposition_controller.go:387-547 | Whatever a composer pass is taken to have pushed or pulled, the registry it leaves holds. |
| Pushes.BuildPushedIsHeld | internal/buildcontroller/conflict.go:481-545 | The same for a build's pass, whose writes are exactly those its naming makes. |
| Lease.NothingNamedIsReclaimed | internal/retention/refresher.go:199-383 | Over runs of real passes, pushes, cycles, spec changes and reclaims, with cycles at most I apart and at most k in a row missing a reference, (k+1)*I <= W implies that in every state the registry holds every reference a live object names, but for those an object adopted and nothing has pushed or pulled since. |
| Lease.EverythingNamedIsHeld | internal/retention/refresher.go:175-383 | From a start with nothing published, and while no event adopts a reference, the registry holds every reference a live object names. |
| Lease.ComposeAdopts | internal/controller/imagecomposition_controller.go:454-505 | A composer pass adopts a reference if and only if its result is recorded, no live object named the reference, the pass did not push or pull it, and it is a spec tag's after naming a digest found published, or the kept digest's or a spec tag's after a Keep. |
| Lease.BuildAdoptsNothing | internal/buildcontroller/imagebuild_controller.go:636-686 | A build pass adopts nothing. |
| Lease.RespecAdopts | internal/retention/refresher.go:431-460 | Creating an object or changing its spec adopts nothing while its repository stays; another repository adopts exactly what the object then names there first. |
| Adopting.KeepAdoptsMissingTag | internal/controller/imagecomposition_controller.go:487-503 | A Keep on the first of two tags reports the second too, which nobody has pushed: status names it and the registry does not have it. |
| Adopting.RelistedTagIsAdopted | internal/controller/imagecomposition_controller.go:454-470 | A tag listed again that already means the recorded digest is named by a pass that neither pushes nor pulls it. |
| Lease.ShorterWindowLoses | internal/retention/refresher.go:199-262 | The bound is exact: for any shorter window some run these terms allow loses a named reference that nobody adopted. |
| LeasedRuns.LeaseKeepsClaims | internal/retention/refresher.go:199-383 | Over runs of passes and cycles in which the registry may reclaim any digest or tag last pushed or pulled longer than W ago: with cycles at most I apart, at most k in a row missing a reference that a status names and the registry holds, and (k+1)*I <= W, a digest's own tag claimed by an artifact or a history record resolves to that digest in every state. |
| LeasedRuns.EveryBuildIsHeld | internal/reconciler/digesttag.go:14-51 | So from nothing published every build in every history is still served and still has a name, on the strength of the lease alone. |
| Cache.KeyInjective | internal/store/store.go:56-66 | Distinct digests never share a key. |
| Cache.LocalPathInjective | internal/cache/cache.go:108-110 | Distinct digests never share a file, and every file is inside the cache's directory. |
| Cache.Cache.PullFromRemote | internal/cache/cache.go:113-157 | Bytes reach the local tier only when they have the digest; bytes that do not are removed from the remote tier. |
| Cache.Cache.Path | internal/cache/cache.go:53-105 | The lookup through local tier, remote tier and origin with its fall-throughs. |
| Cache.LookupAgrees | internal/cache/cache.go:53-105 | Whatever fails around it, a returned path holds bytes with the digest, the local tier stays verified, the origin is asked exactly when no tier could supply verified bytes as a local file, and a lookup fails exactly when the digest lacks a colon with characters on both sides or holds a slash, backslash or dot, or when a needed origin fails. |
| Cache.TiersExactly | internal/cache/cache.go:53-157 | Where the bytes are after a lookup, key by key: verified remote bytes come down and stay, remote bytes read without their digest are gone unless deleting fails, and what the origin answers is kept locally and then remotely, unless a tier does not take it. |
| Cache.FetchedOnce | internal/cache/cache.go:53-105 | What one lookup fetched the next one does not: it is answered locally, or from the shared tier in a process that has nothing local. |
| Cache.RemoteNeverSpoilt | internal/cache/cache.go:53-157 | A lookup leaves the shared tier only what was there or bytes with the digest of their key, and removes only an entry without its digest. |
| Cache.CacheAgrees | internal/cache/cache.go:53-157 | In every run, whatever others write to or delete from the remote tier, a lookup that returns a path returns bytes with the digest. |

## Left out

- Decoding gzip, xz, zstd, bzip2, tar headers and zip records, image flattening and sha256: the model starts from decoded entries and ends at the header sequence and the byte stream.
- Deb.OpenDebData: trimming knows ASCII white space only, where `strings.TrimSpace` knows Unicode's too.
- ShortCut.ShortCutSound: compares layers, config and files, not manifests, because layer names reach the provenance annotations and not the hash.
- Assembly.AssembleFor: provenance annotations are not modelled, and the config fields no spec can state are carried as one opaque value.
- Error texts, and which of several simultaneous errors a build of many layers reports.
- HTTP, credentials, TLS, the Kubernetes API, finalizers, the export of references, per-build Secrets and pod rendering.
- Backfill.BackfillDigestTags: the referrers of a digest are named the same way and are not tracked one by one; a failure while listing them is a reply of its own.
- Composer.Composition.Reconcile: conditions and events of a composition are not modelled, nor is a registry answer that is not a digest under Keep.
- Builder.ImageBuild.Reconcile: the build input hash is an opaque value, the Dockerfile check and the Secrets are one step that succeeds or fails, a Job's time-to-live and deletion by others are not modelled.
- BuildContext.FileTree.WriteEntry: permission bits, and failures of the file system other than those of the tree's shape (space, permission, length of names), are not modelled.
- A failure observed while the spec flips between two hashes may be counted for the other Job; only unchanged inputs are covered.
- Refresh.Refresher.RefreshObject: referrers pulled beside a digest are not counted.
- Lease.NothingNamedIsReclaimed: leaves out the refresh right after a publish (internal/retention/refresher.go:417-426), which only adds pulls, and does not promise the references a status adopts; those that exist are covered from the first cycle that pulls them, and for one that does not exist there is nothing to pull.
- Cache.Cache.Path: file systems are maps from keys to bytes; temporary files and their removal are not modelled.
- Records and artifacts in status: blobs, child manifests, sources and times are not modelled; nor is the pod a build ran in.
- Signing, SBOM and provenance payloads: which attestations are recorded is an input of a pass.
