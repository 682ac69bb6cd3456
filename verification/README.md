# LPMX: union file system, registries and text formats

LPMX runs container images without root. This project models the parts of it that decide
what a container sees and what the registries record, and proves what they promise:

- **Layers.** A folder is a finite map from paths to files, directories and symbolic links
  (`FileTree`); an archive is a sequence of headers (`Archive`). `Untar`, `UntarLayer`,
  `TarLayer` and `DockerMerge` are methods that change such a folder entry by entry, proved
  equal to functions of the old folder. About those functions: packing and unpacking is the
  identity, and extracting twice is extracting once exactly when no link was stranded
  (`TarRoundTrip`). What a layer means is defined apart from the code, by the OCI rules
  (`Changeset`); merging a stack gives the layered view at every height exactly when every
  layer can be extracted as it is meant (`LayerMerge`, `LayerQuirks`). When a layer can be
  unpacked alone and what its folder then holds is in `Unpacking`; when searching these folders
  from the top gives the layered view is in `UnionLookup`. Committing keeps the container's
  view and puts its volumes back (`Commit`, `Volumes`).
- **Registries.** `Sys.Containers`, `Image.Images` and the `.info` files as a state machine
  with the invariant that a container's layer list is the reverse of its image's
  (`Registry`), hence of what was downloaded, loaded or merged (`Provenance`).
- **Text formats.** The `k=v:k=v` cache refines a map over any run (`FileCache`), which
  carries compose `inject` entries end to end (`Inject`); the WWW-Authenticate parser reads
  back what is printed, exactly when every value survives the scan (`AuthChallenge`,
  `AuthQuoted`, `AuthEscapes`, `AuthRoundTrip`, `AuthExact`); pid files, version texts, the
  ld.so patch and the compose order (`PidFile`, `Versions`, `LdPatch`, `LdRemains`,
  `ComposeOrder`).

A call outcome is `Ok`, an `Error` of the system, or `Unmodelled` where the code would follow
a symbolic link, leave the folder, or delete "..": the model then stops, and every theorem
about a result excludes it.

## Where the code does not meet its purpose

Each of these is a theorem, with the exact condition where the code is right on some inputs:

- `UntarLayer` does not turn an existing path into another kind, and does not retarget an
  existing link, without a whiteout; it takes every name that starts with ".wh" for a
  whiteout, not only ".wh."; opaque markers hide nothing; and a hard link becomes a symbolic
  link with the name of its target in the archive. A well-formed layer over any folder,
  whether or not it lists its directories again, is extracted as it is meant exactly when it
  meets none of the four: no kind change, no such name, no opaque marker above a visible path
  that the layer does not hold itself, and no hard link unless its path shows the very node it
  names already, or that node is the symbolic link made (`LayerMerge.LayerAgreesIff`, with `LayerQuirks.KindChangeExample`,
  `LayerQuirks.BareMarkIsLost`, `LayerQuirks.OpaqueIsIgnored` and
  `LayerQuirks.HardLinkExample`: a file "/f" and a hard link "/g" to "f" leave "/g" a symbolic
  link). A stack merges to its view at every height exactly when this holds of every layer
  (`LayerMerge.MergeAgreesIff`); the whole may still come out right when a later layer hides
  the damage (`LayerQuirks.HealedExample`). The meaning of a layer is that of the section
  "Whiteouts" of "Image Layer Filesystem Changeset" in the OCI Image Format Specification; a
  hard link entry is one more name of the file its target names.
- A file called just ".wh." deletes the directory it stands in (`LayerQuirks.EmptyMarkDeletes`).
- A link that carries a whiteout's name removes what its target marks, not what its own name
  says (`LayerQuirks.LinkMarkIff`).
- A symbolic link listed before its directory is dropped by the first extraction and made by
  the second (`TarRoundTrip.UntarTwice`, `TarRoundTrip.StrandedExample`).
- A layer that relies on directories of the layers below may not unpack into a folder of its
  own: it does exactly when each of its files, whiteouts included, lies at the root or in a
  directory that an earlier directory entry lists, itself or by listing one below it
  (`Unpacking.UnpacksIff`, hard links to bin/arch aside). Its links are dropped without an error where their directory is
  not listed before them (`Unpacking.LinkKeptIff`).
- Searching the layers' folders knows neither whiteouts nor hard links: it shows what the
  layered view shows exactly when no layer hides the path over one that holds it, and the
  topmost to hold it does not make it a hard link to something else
  (`UnionLookup.FolderSearchIff`, `UnionLookup.LookupAgrees`).
- `DockerCommit` saves `.info` before it sets `ImageBase`; the first commit is right, every
  later one of the same container is wrong, whatever is downloaded, merged, created, committed,
  deleted or resumed elsewhere in between (`Registry.CommitIff`, `Registry.SecondCommitFails`, `Registry.LaterCommitsFail`).
  `Version.Intended` saves afterwards.
- A commit fails on volumes that are not mounted right below the root, or are written with a
  slash behind the mount point, although the trimming accepts them (`Volumes.LinkAllIff`,
  `Volumes.MountsIff`, `Commit.Workspace.DockerCommit`).
- Deleting an image removes its folder, which may hold the folder of another image
  (`Registry.DeleteIff`, `Registry.NestedImages`); merging overwrites an existing "-merge"
  image (`Registry.MergeIff`).
- The parser resumes at `i + i` after a backslash at offset `i`, where `i + 1` is meant.
  Every member of the `Auth` modules takes the version it is about. As written, an escaped
  value comes back exactly when it has no special byte, has its first one at offset 1, or
  begins with backslashes before a byte that is not special, whatever follows it
  (`AuthEscapes.SurvivesIff`, `AuthEscapes.OffsetIff`); a printed challenge is read parameter
  by parameter exactly when this holds of every quoted value (`AuthExact.ReadInTurnIff`), and the
  unescape buffer can be overrun (`AuthChallenge.OverrunIff`).
- A value or key with ":" or "=" does not survive the cache (`FileCache.SetGetIff`); looking up
  the empty key panics exactly on a text with a blank first item (`FileCache.EmptyKeyPanics`).
- A shorter pid over a longer one leaves digits behind (`PidFile.OverwriteReads`).
- A version that cannot be compared counts as equal, so a named tag takes the first
  supported version; the closest one is picked exactly when no comparison fails before the
  first version not above the tag (`Versions.NamedTagTakesFirst`, `Versions.ClosestIff`).
- Compose order is a topological order only when whatever a depended-on app depends on has a
  greater counter (`ComposeOrder.TopologicalIff`, `ComposeOrder.ChainExample`).
- A pattern in ld.so remains exactly behind a blanked library pattern, or when two copies
  shared a NUL (`LdRemains.PatternRemainsIff`).

## Model

| member | source | states |
|---|---|---|
| FileTree.CleanRender | utils/utils.go:781 | a path trimmed of its folder and joined to a folder again is the same path |
| FileTree.CleanNext | utils/utils.go:781 | what each part of a path does when it is joined to a folder: blank and "." nothing, ".." goes up, a name goes down |
| FileTree.RenderNext | utils/utils.go:692-703 | the name of an entry is a slash and a name for every directory on the way |
| FileTree.MkdirAllKeeps | utils/utils.go:787-791 | making directories loses nothing, leaves the path a directory and the tree closed |
| Archive.LayerFolder.UntarLayer | utils/utils.go:763-888 | the loop over the entries leaves exactly the tree and outcome of the entry-by-entry function, on error and mid-way too |
| Archive.LayerFolder.Untar | utils/utils.go:922-1029 | the same for extraction without whiteouts or truncation, with the bin/arch copy |
| Archive.LayerFolder.Headers | utils/utils.go:675-718 | one path gives one header, a symbolic link a first one with its target and a second with its own name |
| Archive.LayerFolder.TarLayer | utils/utils.go:667-722 | the walk appends the headers of each path, two for a symbolic link |
| Archive.LayerFolder.Merge | container/container.go:1582-1589 | merging extracts the layers in order and stops at the first failure |
| Archive.LayerRunKeeps | utils/utils.go:763-888 | after any entries, hence any prefix of a layer, every present path has a present directory above it |
| Archive.UntarRunKeeps | utils/utils.go:922-1029 | the same for plain extraction |
| Archive.WalkExists | utils/utils.go:667 | every folder has a walk order: each path once, directories before their contents |
| Archive.OnlyLayersTruncate | utils/utils.go:816-826 | over an existing file a layer leaves its body alone, plain extraction keeps the bytes beyond it |
| Archive.ArchIsCopied | utils/utils.go:992-1023 | a hard link to bin/arch becomes a file with the same bytes |
| TarRoundTrip.EntriesLand | utils/utils.go:680-718 | the headers of one path put exactly that node under its parent, the second header of a link changing nothing |
| TarRoundTrip.TarTells | utils/utils.go:675-718 | every header names a path of the folder with its kind and, for a file, its content, for a link its target or own name |
| TarRoundTrip.TarSize | utils/utils.go:675-718 | one header for each path and one more for each symbolic link |
| TarRoundTrip.TarUntarRoundTrip | utils/utils.go:646-727 | packing any folder and unpacking it into an empty one gives the folder back |
| TarRoundTrip.UntarTwice | utils/utils.go:922-1029 | extracting an archive again over its result succeeds, follows no link and changes nothing, exactly when no link was left stranded; copies of bin/arch included, if it is not stored again after them |
| TarRoundTrip.UntarTwiceFollows | utils/utils.go:977-1025 | when the first stranded link is one that a link now leads to, the second run would follow it |
| TarRoundTrip.StrandedExample | utils/utils.go:977-984 | a link listed before its directory makes the second extraction differ |
| Changeset.EffectFolder | utils/utils.go:783-887 | a well-formed layer over a folder means a folder, with no reserved name in it |
| Changeset.ViewIsTopmost | container/container.go:1582-1589 | the view of a path is what the topmost layer that holds or hides it says |
| Changeset.ViewUndecided | container/container.go:1582-1589 | a path no layer holds or hides is absent, the root present |
| Changeset.StackShows | container/container.go:1582-1589 | laying each layer over those below it shows every path as the topmost deciding layer has it |
| Changeset.WellFormedAnywhere | utils/utils.go:783-887 | a layer that lists all its directories itself is well formed over any folder, and means the same there |
| LayerMerge.StepAgrees | utils/utils.go:783-887 | one entry, whose directory this layer or any below it holds, takes the view of a folder and a partial layer to the view with that entry |
| LayerMerge.LayerAgreesIff | utils/utils.go:763-888 | over any folder without reserved ".wh." names (the format has none) a well-formed layer gives its layered view, if and only if it asks for no kind change or retargeted link, holds no ".wh" name that is no whiteout, its opaque markers have nothing to hide, and each hard link names the node its path shows already |
| LayerMerge.MergeAgreesIff | container/container.go:1582-1589 | every part of a well-formed stack from the bottom merges to its layered view, if and only if every layer is extractable over the view below it |
| LayerMerge.MergeAgrees | container/container.go:1582-1589 | folding `UntarLayer` over such a stack succeeds and every path resolves as in the layered view |
| LayerMerge.MergedImageAgrees | container/container.go:1606-1645 | the merged image's tarball unpacks to the layered view of the original stack |
| LayerQuirks.HealedExample | container/container.go:1582-1589 | a stack that merges to its view although its lower part does not |
| LayerQuirks.LinkMarkIff | utils/utils.go:838-880 | a link named like a whiteout does what its name says, exactly when its target marks the same path or neither path is there |
| LayerQuirks.PlainIsMade | utils/utils.go:816-835 | an entry whose name does not start with ".wh" is extracted: a file with its body, a link as a symbolic link |
| LayerQuirks.WhiteoutDeletes | utils/utils.go:806-815 | a file named ".wh." and a name deletes that name beside it and itself, and nothing else |
| LayerQuirks.EmptyMarkDeletes | utils/utils.go:806-815 | a file called ".wh." deletes the directory it stands in, one called ".wh.." only itself |
| LayerQuirks.KindChangeExample | utils/utils.go:858-860 | a symbolic link over a file leaves the file |
| LayerQuirks.HardLinkExample | utils/utils.go:862-882 | a hard link to a file of the same layer becomes a symbolic link, which is not that file |
| LayerQuirks.BareMarkIsLost | utils/utils.go:806-815 | a file whose name starts with ".wh" but not ".wh." is deleted instead of extracted |
| LayerQuirks.OpaqueIsIgnored | utils/utils.go:806-815 | the opaque marker deletes no sibling but ".wh..opq" |
| UnionLookup.ReverseStrArray | utils/utils.go:1032-1038 | the in-place swaps reverse the list |
| UnionLookup.GuessPathContainer | utils/utils.go:478-506 | the search returns the first of all answers, or fails when there is none |
| UnionLookup.GuessPathsContainer | utils/utils.go:509-544 | the search returns all answers in layer order, and fails exactly when there is none |
| UnionLookup.GuessBoth | utils/utils.go:478-544 | on every request the two fail together and the one answer is the first of all; for a path without mark the answers are exactly the layers' paths that are there as anything but a directory or pipe (for a file) or as a directory, and the first is of the first such layer |
| UnionLookup.DollarGuess | utils/utils.go:479-481 | after "$" the answer is the rest less its marks, unlooked at |
| UnionLookup.CaretGuess | utils/utils.go:482-485 | after "^" a file is looked for by the rest less its marks |
| UnionLookup.AllGuess | utils/utils.go:486-488 | "all", in white space or not, is its own answer |
| UnionLookup.RootGuess | utils/utils.go:489-491 | an absolute path is its own answer if it is there and of the kind looked for, in no layer |
| UnionLookup.FirstMatchIff | utils/utils.go:492-501 | first match over what the layers hold agrees with the layered view of a path, exactly when no layer hides it over one that holds it |
| Unpacking.OwnFolder | container/container.go:2293-2305 | a layer unpacked alone shows what the layer holds under every name but a whiteout's, each hard link as a symbolic one |
| Unpacking.UnpacksIff | utils/utils.go:922-1029 | a layer that is well formed over any folder unpacks into an empty one, if and only if each of its files has its directory at the root, or at or above one that an earlier directory entry lists; else it stops for a missing directory |
| Unpacking.LinkKeptIff | utils/utils.go:977-1025 | after such an unpacking a path that the layer makes a link is there, exactly when the directory was listed before one of its entries |
| Unpacking.BadPlace | utils/utils.go:816-860 | over a directory, and where the directory is a file or missing, a file is refused and a link dropped without an error, in either extractor |
| UnionLookup.FolderSearchIff | container/container.go:2293-2305 | first match over the extracted layer folders agrees with the layered view, exactly when no layer hides the path over one that holds it and the topmost holder does not make it a hard link to something else |
| UnionLookup.LookupAgrees | container/container.go:3308-3338 | without whiteouts the merged folder is the layered view, and first match over the layer folders agrees with them exactly when the topmost holder does not make the path a hard link to something else |
| UnionLookup.GuessFindsMerged | utils/utils.go:492-501 | searching the reversed layer list finds a path exactly when the merged folder has it with the wanted type, and points into the folder of the topmost layer that holds it, whose node is the merged one |
| UnionLookup.FoundIsMerged | container/container.go:2293-2305 | the node in that folder is the merged folder's own, exactly when the layer does not make the path a hard link to something else |
| Volumes.LinkAllIff | container/container.go:1372-1382 | the volume links can be made in the new layer, exactly when each volume has a host path and a place of its own right below the root, with no slash behind it |
| Volumes.MountsIff | container/container.go:1372-1382 | an item can be mounted exactly when it is a host, "=" and a path of slashes, dots and one name |
| Volumes.LinkIsHost | container/container.go:1372-1382 | where the links can be made, each item's place holds the link to its own host path |
| Volumes.DoomedIff | container/container.go:1262-1271 | what is removed as volumes is exactly the container path of each item of two parts |
| Commit.Workspace.TrimFirst | container/container.go:1230-1258 | succeeds exactly when no link is on the way and the two files can be moved aside; then caches, group, passwd, tmp and the file hiding it are cut from the writable layer, nothing else |
| Commit.Workspace.Trim | container/container.go:1230-1281 | succeeds exactly when no removal follows a link; then it leaves exactly the writable layer without the caches, the two files, tmp and what hides it, package state and mounted container paths |
| Commit.FrozenIsTrimmed | container/container.go:1230-1281 | path by path, what the frozen layer still holds: all but the named caches, files and package state, and what lies at or below a container path of the volume map |
| Commit.FirstTrimsIff | container/container.go:1230-1258 | the first part of the trimming goes through exactly when none of five paths is a symbolic link, nor etc/passwd without a regular etc/group |
| Commit.Workspace.Freeze | container/container.go:1230-1337 | succeeds exactly when the trimming does, keeps the layer's own folder, and the name is free; then the trimmed layer is frozen and packed under it |
| Commit.Workspace.LinkVolumes | container/container.go:1372-1382 | the loop makes the links in order and stops at the first that fails |
| Commit.Workspace.Renew | container/container.go:1365-1399 | succeeds exactly when the volumes fit an empty layer and keep off etc, tmp and .wh.tmp; then the new writable layer is the links, the files moved back and a hidden tmp |
| Commit.NewRwShows | container/container.go:1384-1399 | path by path, what the new writable layer holds |
| Commit.VolumesAreBack | container/container.go:1372-1382 | after a commit each container path of the volume map holds the link to its own host path |
| Commit.Workspace.DockerCommit | container/container.go:1230-1399 | succeeds exactly when freezing and renewing do; then the frozen and packed layer is the old one without exactly those paths, and the new layer is on top |
| Commit.CommitKeepsView | container/container.go:1321-1399 | after a commit, first match of every path outside the trimmed ones and the volumes gives what it gave before |
| Commit.CommittedLayerUnpacks | container/container.go:1296-1319 | the tarball registered unpacks to the folder that was frozen |
| Commit.NothingDroppedIsPacked | container/container.go:1262-1319 | no entry of the committed tarball is at a path the trimming takes, a volume's among them |
| Registry.LayersAreReversed | container/container.go:3305-3338 | the layer text reads back as "rw" and the reverse of the base names of `layer_order` |
| Provenance.DownloadedSearches | container/container.go:2225-2240 | a container of a downloaded image searches "rw" and then the layers of the list it was downloaded with, reversed, from its own folder |
| Provenance.LoadedSearches | container/container.go:2055-2074 | the same for an image loaded from an archive |
| Provenance.MergedSearches | container/container.go:1679-1691 | the same for a merged image |
| Provenance.DownloadedNames | container/container.go:2225-2240 | for layers listed by folder and name, the container's list is "rw" and the names reversed |
| Registry.Lpmx.DockerDownload | container/container.go:2192-2356 | adds just the image's record under its full name, with the layer list given and the folder of name and tag; nothing when it exists or the download fails |
| Registry.Lpmx.DockerLoad | container/container.go:2055-2074 | adds just the record of the image named in the archive, with the layer list given, unless it exists |
| Registry.Lpmx.DockerMerge | container/container.go:1520-1691 | sets just the record of the "-merge" image, with the merged layer as its list |
| Registry.Lpmx.GenerateContainer | container/container.go:3276-3338 | fails exactly for an unknown image, a repeated layer or a failed set-up, else the layer text is "rw" and the base names reversed |
| Registry.Lpmx.AppendToSys | container/container.go:3193-3243 | adds or updates the one entry of the container's id |
| Registry.Lpmx.RunContainer | container/container.go:725-848 | every way out leaves the saved record and one entry, a saved record winning over the arguments |
| Registry.Lpmx.CommonCreate | container/container.go:2554-2564 | creating is generating and running |
| Registry.Lpmx.ResumeContainer | container/container.go:562-626 | resuming a stopped container runs its saved record |
| Registry.Lpmx.DestroyContainer | container/container.go:628-679 | removes just the entry, and the records in the folder, of a stopped container |
| Registry.Lpmx.CommonDelete | container/container.go:2567-2646 | succeeds exactly when no container's record names the image or is missing; then just the image and the records in its folder are gone |
| Registry.Lpmx.CommonFastRun | container/container.go:2521-2538 | with a fresh id, every outcome leaves all registries as they were, exactly when nothing is alive at the end |
| Registry.Lpmx.DockerCommit | container/container.go:1401-1483 | field by field the registry writes of a commit, in either order of saving; refused exactly for a missing or live container or a taken name, and it panics after them exactly when the old image is not registered |
| Registry.CreateKeeps | container/container.go:3305-3338 | creating with a fresh id keeps the invariant |
| Registry.ResumeKeeps | container/container.go:562-626 | resuming changes nothing in the registries |
| Registry.DestroyKeeps | container/container.go:640-665 | destroying keeps the invariant |
| Registry.DeleteIff | container/container.go:2575-2637 | an allowed deletion keeps the invariant, exactly when no container's folder lies under the image's |
| Registry.MergeIff | container/container.go:1679-1681 | a merge keeps the invariant, exactly when no container names the "-merge" image or the new record lists the same layers as the old |
| Registry.CommitIff | container/container.go:1401-1440 | after a commit the layers reverse the new image's order, exactly when the saved layers reversed the order of the saved image |
| Registry.SecondCommitFails | container/container.go:1401-1415 | as written, the first commit gives the reversal and a second one never does |
| Registry.LaterCommitsFail | container/container.go:1401-1415 | as written, after any run of later commits, resumptions and steps that leave the saved container alone, no image its later commits registered has its layers |
| Registry.CommitKeeps | container/container.go:1401-1440 | saved after `ImageBase` is set, a commit keeps the invariant |
| Registry.EveryRunAligned | container/container.go:3305-3338 | over every run each registered container's image is registered and its layers are "rw" and the reverse of that image's order |
| Registry.NestedImages | container/container.go:2627-2634 | deleting "x:y" destroys the record of a container of "x/y:z" |
| FileCache.FileCacheInst.FGetStrValue | filecache/filecache.go:22-44 | lookup answers as the text function, and creates a missing file |
| FileCache.FileCacheInst.FSetValue | filecache/filecache.go:46-88 | setting leaves exactly the text with the item replaced or appended |
| FileCache.FileCacheInst.FDeleteByKey | filecache/filecache.go:90-119 | deleting moves the last item into the gap |
| FileCache.GetRefines | filecache/filecache.go:22-44 | lookup on a map's text gives the map's value or "" |
| FileCache.SetRefines | filecache/filecache.go:46-88 | setting gives a text of the updated map |
| FileCache.DeleteRefines | filecache/filecache.go:90-119 | deleting gives a text of the map without the key |
| FileCache.CacheRefinesMap | filecache/filecache.go:22-119 | over any run the answers are the map's, and the text keeps unique keys and at most one blank item, in front |
| FileCache.SetGetIff | filecache/filecache.go:22-88 | a set value is read back, exactly when it and (unless it is empty) its key have no ":" or "=" |
| FileCache.EmptyKeyPanics | filecache/filecache.go:36-39 | on a map's text a lookup goes out of range, exactly for the empty key with a blank first item |
| Inject.ConvertMapValue | container/container.go:3911-3920 | the compose entries become one text, ":" turned to "=" |
| Inject.InjectExecmaps | container/container.go:820-827 | the loop stores container path = host path for each item |
| Inject.InjectEndToEnd | container/container.go:3729-3798 | every well-formed entry is what the lookup of its container path gives, the last one winning, and no other path answers |
| AuthChallenge.ExpectToken | registry/authchallenge.go:107-115 | the longest token prefix and the rest |
| AuthChallenge.SkipSpaces | registry/authchallenge.go:97-105 | the text without leading white space |
| AuthChallenge.ExpectTokenOrQuoted | registry/authchallenge.go:117-151 | the scan of a token or quoted string in either version |
| AuthChallenge.UnescapeInto | registry/authchallenge.go:126-146 | the inner loop over the bounded buffer, out of range reported |
| AuthChallenge.ParseValueAndParams | registry/authchallenge.go:68-95 | the parameter loop terminates with the parse of the header |
| AuthChallenge.NextShrinks | registry/authchallenge.go:75-93 | each parameter leaves a strictly shorter suffix |
| AuthChallenge.OverrunIff | registry/authchallenge.go:127-142 | the buffer is never overrun as intended, and as written exactly when the only special byte is a leading backslash |
| AuthChallenge.ParamsStay | registry/authchallenge.go:75-93 | no parameter already read is dropped |
| AuthQuoted.QuotedEscaped | registry/authchallenge.go:117-151 | an escaped value is read back before any following text |
| AuthRoundTrip.ChallengeReads | registry/authchallenge.go:68-95 | a printed challenge, its values quoted or bare tokens, is read whole before a tail, then the tail |
| AuthRoundTrip.ParamReads | registry/authchallenge.go:75-93 | one printed parameter, quoted or bare, is read as its key and value up to where the value ends |
| AuthRoundTrip.TokenChars | registry/authchallenge.go:33-58 | the characters of a token are letters, digits and fifteen signs |
| AuthRoundTrip.TailStops | registry/authchallenge.go:75-93 | no comma, no key behind it, no "=" behind the key, or neither token nor quote behind that, ends the parse |
| AuthRoundTrip.MalformedTail | registry/authchallenge.go:79-88 | a tail that starts no parameter adds and loses nothing |
| AuthRoundTrip.ChallengeRoundTrip | registry/authchallenge.go:68-95 | printing then parsing gives the lower-case scheme and exactly the parameters |
| AuthEscapes.SurvivesIff | registry/authchallenge.go:117-151 | in either version and before any tail, which single escaped values come back: as written those without a special byte, with the first one at offset 1, or of backslashes before a byte that is not special |
| AuthEscapes.OffsetIff | registry/authchallenge.go:130 | as written, values with their first special byte at offset k all come back exactly for k = 1 |
| AuthExact.ReadInTurnIff | registry/authchallenge.go:75-93 | in either version a printed list of parameters, quoted or bare, is read one by one as printed, exactly when every quoted value survives |
| AuthExact.SingleRoundTripIff | registry/authchallenge.go:68-95 | the parse of a challenge with one parameter is the scheme and that parameter, exactly when its value is bare or survives |
| PidFile.PidLock.PidCreateByPid | pid/pid.go:78-99 | refuses a live other pid or an unreadable file, keeps a live own pid, else overwrites in place |
| PidFile.OverwritePrints | pid/pid.go:93-97 | the file then holds the decimal text of pid * 10^d + old mod 10^d |
| PidFile.OverwriteReads | pid/pid.go:12-26 | it reads as that number if it fits 32 bits, and as the new pid exactly when the old one had no more digits |
| PidFile.FirstReads | pid/pid.go:93-97 | a first pid file reads back as the pid, of either sign |
| PidFile.PidReads | pid/pid.go:12-26 | the file reads as a printed number exactly when it fits 32 bits |
| PidFile.RunKeepsDecimal | pid/pid.go:78-99 | over any run the file holds the text of some number |
| PidFile.RunNeverShrinks | pid/pid.go:78-99 | over any run the file never gets shorter |
| Decimal.ValDigits | pid/pid.go:19 | parsing printed digits gives the number |
| Decimal.DigitsNext | pid/pid.go:96 | a number is printed digit by digit, the last for the units |
| Decimal.AtoiPrinted | utils/utils.go:1332-1340 | printed numbers of 64 bits are read back, with a sign or without, and greater ones are not |
| Decimal.AtoiFails | utils/utils.go:1332-1340 | a text that is empty or holds more than digits behind a sign is no number |
| LdPatch.Patchldso | elf/elf.go:105-122 | the result is the image after the four passes |
| LdPatch.ReplaceByte | elf/elf.go:119-122 | one pass keeps the length and changes exactly the bytes of its matches |
| LdPatch.BlankFits | elf/elf.go:105-113 | each replacement is as long as its pattern, keeps its first two bytes and is NUL after them |
| LdPatch.PatchIsLocal | elf/elf.go:119-122 | after any of the passes a byte is NUL if a pass matched over it past "\0/", else unchanged |
| LdPatch.LoneIsBlanked | elf/elf.go:105-122 | each of the four paths, by itself between text without a slash, is overwritten with NULs behind its first slash |
| LdRemains.WindowThere | elf/elf.go:121 | the search passes over no occurrence without a window on its first byte |
| LdRemains.OccursIff | elf/elf.go:121 | another word is led by a NUL after a pass, exactly when it was before or stood behind the blanked pattern |
| LdRemains.PatternRemainsIff | elf/elf.go:105-122 | which of the four patterns the patched image still holds, as a condition on the original image, both ways |
| Versions.CompareVersion | utils/utils.go:1315-1361 | the loop computes the comparison, with order 0 on error |
| Versions.CompareMeans | utils/utils.go:1315-1361 | on numeric versions the comparison is the order of the number sequences |
| Versions.CompareIsOrder | utils/utils.go:1315-1361 | it is antisymmetric and transitive, and 0 exactly on equal sequences |
| Versions.WrittenCompare | utils/utils.go:1315-1361 | two versions written as numbers and dots compare as the sequences of numbers do |
| Versions.PickVersion | docker/docker.go:571-577 | the loop takes the first version not above the tag or not comparable |
| Versions.PickedFirst | docker/docker.go:571-577 | the pick is the first version not above the tag or not comparable, else the tag |
| Versions.ClosestIff | docker/docker.go:568-579 | on a descending list and for any tag the closest version (or the tag) is picked, exactly when no comparison fails before the first version not above the tag |
| Versions.PickedIsClosest | docker/docker.go:568-579 | for a numeric tag it always is |
| Versions.WrittenPick | docker/docker.go:568-579 | on a written list, greatest first, the greatest version not above a written tag is picked, or the tag when all are above |
| Versions.NamedTagTakesFirst | docker/docker.go:571-577 | a tag without a leading number picks the first version on the list, which is not the closest |
| ComposeOrder.CollectApps | compose/type.go:45-119 | accepts exactly valid apps with distinct names |
| ComposeOrder.CountDepends | compose/type.go:121-136 | accepts exactly defined dependencies, and counts each in an int8 |
| ComposeOrder.SortedKeys | compose/type.go:139-147 | the counted names once each, in non-increasing count |
| ComposeOrder.Validate | compose/type.go:36-163 | accepts exactly the files whose fields are as demanded, one by one, and its two lists partition the apps with the depended-on first in non-increasing count |
| ComposeOrder.ValidIff | compose/type.go:36-136 | the valid files: version 1, the mandatory fields, ":" or "=" in every entry, names distinct, dependencies defined |
| ComposeOrder.CounterWraps | compose/type.go:121-136 | a counter is the number of mentions in eight bits with a sign |
| ComposeOrder.StartAll | container/container.go:699-719 | on success every app of both lists started once in order; on failure the run stops at the app that failed |
| ComposeOrder.LeavesStartLast | container/container.go:699-719 | an app nobody depends on starts after everything it depends on |
| ComposeOrder.HeavierFirst | compose/type.go:145-147 | of two depended-on apps the one with the greater counter starts first |
| ComposeOrder.OrderWith | compose/type.go:139-160 | validation may start a depended-on app before any other whose counter is not greater |
| ComposeOrder.TopologicalIff | compose/type.go:138-160 | every order validation may give starts each app after all it depends on, if and only if whatever a depended-on app depends on has a greater counter |
| ComposeOrder.ChainExample | compose/type.go:138-160 | a valid file that always starts an app before what it depends on |
| ComposeOrder.CountersAddUp | compose/type.go:121-136 | the counters add up to the number of `depends` entries, below 128 per name |

## Left out

- Links in the middle of a path, ".." that leaves the folder, and the marker ".wh...": the model stops as `Unmodelled`.
- Sockets, pipes, devices, file modes, gzip: the code has no rule for them, or they do not change the tree.
- UntarTwice: leaves out archives that store bin/arch again after a hard link to it, whose copy depends on what the source held at that moment.
- LayerAgreesIff: is about layers whose whiteouts are regular files; LinkMarkIff says what a link with such a name does.
- EveryRunAligned: the runs have fresh random ids, merge onto new names, delete no image above a container's folder, and commit in the intended order; DeleteIff, MergeIff and LaterCommitsFail say what the other steps do.
- GuessFindsMerged: is about layers without whiteouts; with them FolderSearchIff says which paths agree.
- OwnFolder: is about layers that list their directories and store no regular file twice (a second body would not truncate the first); OnlyLayersTruncate says what a repeated file holds.
- UnpacksIff: leaves out hard links to bin/arch, whose copying fails when bin/arch is not there.
- FoundIsMerged: is about layers without whiteouts, as GuessFindsMerged is.
- LinkAllIff: a ".." in a volume path is not modelled; `Commit.Workspace.Trim` reads "." and ".." lexically.
- FirstTrimsIff: the links that stop the rest of the trimming depend on what is removed before; `Commit.Workspace.Trim` states them by the folder as it is then.
- LaterCommitsFail: the run does not destroy the container, delete an image folder above its folder, or merge onto a name that exists; DeleteIff and MergeIff say what such steps do.
- ReadInTurnIff: for several parameters it is about what is read in turn; that a misread list does not come out right by other turns is proved for one parameter only.
- Layers that list a path before its directory is there in any layer, repeat a path as another kind, or put a path in place before hiding it: `Changeset.WellFormed` asks for the order layer tarballs have.
- A record without `layer_order`, which a commit leaves when it panics, is shown with an empty one; the panics of later readers of it are not modelled.
- `TarLayer`'s order of siblings: any walk order is allowed, of which the sorted one is an instance.
- The run-time handling of whiteouts in a container, done by the preloaded library and not by this repository.
- RunContainer: does not model what the shell does, the environment, `faked-sysv` or the RPC service; outcomes are parameters.
- DockerCommit: does not restate the writable layer left by a commit that fails half-way, only that the frozen layers are as before or hold the new one.
- CommonDelete: does not model the permanent variant that removes layers other images may share.
- `CommonFastRun`, `CommonCreate`: the random id is a parameter, new and with a folder of its own.
- GenerateContainer: does not model mount files, volumes, ld.so search and the passwd patch; their failures are the `ready` parameter.
- `SkopeoLoad`, `SingularityLoad`, `DockerAdd`, `DockerPackage`, `DockerPush`, `DockerReset` and `Expose`: the same registry steps, or wrappers over foreign tools.
- SortedKeys: does not model `sort.Slice` beyond its result; the order of a Go map is arbitrary.
- The sha of a layer is a name given as a parameter; processes being alive is an oracle.
- HTTP clients, token transport, manifests, uploads, logging, command line, yaml and msgpack.
