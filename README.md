# sendme-egui transfer layer, modelled in Dafny

This project models the transfer layer of sendme-egui, a desktop front end that
shares files over a peer-to-peer, content-addressed blob network. Two Rust
files are modelled: `src/transport/offer.rs` (the send side) and
`src/transport/fetch.rs` (the receive side).

- **Path names** (`Paths`): `canonicalized_path_to_string`. It turns a path's
  components into the `/`-separated name a collection stores. It rejects `.`,
  `..`, prefixes, segments that are not UTF-8, and segments holding `/` or `\`.
  It rejects a root when the name must be relative; otherwise the root becomes
  a leading `/`. `Path::strip_prefix` and `Path::parent` are modelled over
  components too.
- **Import** (`Offer`): the steps of `import`.
  - Only regular files of the directory walk are kept, each named relative to
    the parent of the shared path.
  - A loop per file turns the store's progress items into events.
  - Assembly fails if any file failed. Otherwise it sorts the files by name in
    place, adds up their sizes, pairs each name with its hash, and stores the
    collection.
  - `send` reports the result and then always fails ("Send Fail").
- **Receive** (`Fetch`): `receive` rejects an empty ticket, parses the ticket,
  announces the node id and the hash, then reports the download in 100 fixed
  progress steps.

Supporting modules:
- `Wrappers`: Option and Result.
- `Blobs`: the store library's values (hash, temp tag, ticket, collection).
- `Comms`: the events sent to the interface (src/comms.rs).
- `Names`: the order `String::cmp` puts names in. Rust compares UTF-8 bytes.
  UTF-8 keeps code-point order, so comparing characters gives the same order.

The file system, the store and the ticket parser are inputs. `FileSystem`
holds what `canonicalize`, `exists` and `WalkDir` answer. `Store` holds the
progress items `add_path_with_opts` streams for each path, and what
`Collection::store` returns. `Receive` takes the parser as a function. Events
are returned as out-parameters, in emission order. Each file's events form a
separate sequence, because the parallel imports interleave them. Texts made
with `{:?}` formatting are not rendered: the `Text` datatype records which
value is shown.

The code is partly a mock, and the model keeps what the code does:
- `receive` runs a fixed 100-step counter. It opens no connection, downloads
  nothing and exports nothing.
- `send` never produces a ticket. It always ends in an error.
- The import loop's `CopyDone` and `OutboardProgress` items call
  `MessageOut::complete` and `MessageOut::progress_finish`, which src/comms.rs
  does not define. They are modelled as the events `Complete` and
  `ProgressFinish`.

## Model

| member | source | states |
|---|---|---|
| `Paths.CanonicalizedPathToString` | src/transport/offer.rs:163-198 | The one-pass loop that pushes `/` for roots into the output and keeps accepted segments returns exactly `PathToString`: the first rejected component's error, or the slashes followed by the segments joined by `/`. |
| `Paths.PathToString` | src/transport/offer.rs:163-198 | Defines the converter's result: the error of the first rejected component, or one `/` per root followed by the kept segments joined by `/`. It is the reference that `CanonicalizedPathToString` is proved equal to. |
| `Paths.Classify` | src/transport/offer.rs:171-193 | Defines what the `filter_map` closure makes of one component: a UTF-8 segment without `/` or `\` is kept, a root pushes `/` or is rejected when the name must be relative, and anything else is rejected. |
| `Paths.PathToStringOkIff` | src/transport/offer.rs:171-194 | The conversion succeeds if and only if every component is a UTF-8 normal segment without `/` or `\`, or a root while roots are allowed. |
| `Paths.FirstRejectedDecides` | src/transport/offer.rs:171-194 | The reported error belongs to the first rejected component. It is "invalid character" for a non-UTF-8 segment, "invalid path component" showing the segment string for a segment holding a separator, and "invalid path component" showing the component otherwise. |
| `Paths.UnsafeSegmentFails` | src/transport/offer.rs:173-182 | A normal segment that is not UTF-8, or that contains `/` or `\`, makes the conversion fail. |
| `Paths.DotOrPrefixFails` | src/transport/offer.rs:192 | `.`, `..` and prefix components make the conversion fail for either value of `must_be_relative`. |
| `Paths.RootDirFailsWhenRelative` | src/transport/offer.rs:184-186 | A root component fails a conversion that must be relative. |
| `Paths.RootDirAddsLeadingSlash` | src/transport/offer.rs:184-190 | When roots are allowed, a leading root adds one `/` in front of the rest's name and no segment, and keeps the rest's error. |
| `Paths.SplitJoin` | src/transport/offer.rs:195 | Splitting on `/` undoes the `join("/")` of a non-empty list of parts that contain no `/`. |
| `Paths.RoundTrip` | src/transport/offer.rs:167-197 | For a converted path without roots, splitting the name on `/` gives one part per component, and each component is `Normal` of its part, in order. |
| `Paths.AbsoluteRoundTrip` | src/transport/offer.rs:184-197 | For a converted absolute path, the name starts with `/`, and splitting the rest on `/` gives back the remaining components' names in order. |
| `Paths.RelativeNameIsSafe` | src/transport/offer.rs:155-162 | Every `/`-separated part of a relative name built from genuine path components is non-empty, is not `.` or `..`, and holds no separator. |
| `Paths.SingleSegmentName` | src/transport/offer.rs:171-197 | A single normal segment without a separator converts to itself. |
| `Paths.StripPrefix` | src/transport/offer.rs:66 | Stripping succeeds exactly when the base is a leading run of the path's components, and then the base followed by the result is the path. |
| `Paths.SuffixFromComponents` | src/transport/offer.rs:66 | What `strip_prefix` leaves of a path built from components is built from components too. |
| `Paths.SameNameSamePath` | src/transport/offer.rs:66-67 | Two relative paths built from components that convert to the same name are the same path. |
| `Paths.Parent` | src/transport/offer.rs:53 | A parent exists exactly when the last component is not a root or prefix, and then the parent followed by that last component is the path. |
| `Names.LeTotal` | src/transport/offer.rs:139 | Any two names are comparable in the order `sort_by` uses. |
| `Names.LeTransitive` | src/transport/offer.rs:139 | The name order is transitive. |
| `Names.LeAntisymmetric` | src/transport/offer.rs:139 | Two names that are each at most the other are equal. |
| `Offer.SourceOf` | src/transport/offer.rs:59-69 | Defines the closure mapped over the walk: a walk error fails, a non-file is skipped, and a file is kept under its relative name, or fails when the prefix cannot be stripped or the name is invalid. |
| `Offer.Sources` | src/transport/offer.rs:51-71 | Defines the steps before any file is imported: canonicalize, check that the path exists, take its parent as the root, then select the walk's files. Each step's failure is the import's error. |
| `Offer.DataSources` | src/transport/offer.rs:58-71 | Selecting the walk's files fails only with a walk error, a prefix error or an invalid name. |
| `Offer.Files` | src/transport/offer.rs:61-64 | The regular-file entries of a walk: every kept entry is a regular file of the walk, and every regular file of the walk is kept. |
| `Offer.DataSourcesOkIff` | src/transport/offer.rs:58-71 | The selection succeeds if and only if no entry is a walk error and every regular file lies below the root with a valid relative name. |
| `Offer.DataSourcesAreTheFiles` | src/transport/offer.rs:58-71 | On success, the data sources are the walk's regular files in walk order, one each. Each is paired with its own path and named by its path relative to the root. Directories and symlinks give nothing. |
| `Offer.DataSourcesFirstError` | src/transport/offer.rs:58-71 | When the selection fails, the error is the one of the first entry in walk order that is not let through. |
| `Offer.DataSourceNamesDeterminePaths` | src/transport/offer.rs:58-71 | When the walk hands out paths built from components, two data sources with the same name have the same path. |
| `Offer.RunFile` | src/transport/offer.rs:92-130 | A file's import ends with that file's own name, with "stream ended" (which names no file), or with an import error naming that file. |
| `Offer.ItemEvent` | src/transport/offer.rs:99-119 | Defines the event each non-terminal item is announced by: `Size(s)` gives progress 0 of `s`, `CopyProgress(o)` progress `o` of the last size, `CopyDone` a completion and `OutboardProgress` a finished progress. |
| `Offer.Runs` | src/transport/offer.rs:76-135 | Defines how each data source's import goes: the run of its own name over the items the store streams for its own path. |
| `Offer.ImportFile` | src/transport/offer.rs:91-130 | The loop that pulls items and updates `item_size` produces exactly the events and the outcome of `RunFile` started with size 0. |
| `Offer.RunFileItemByItem` | src/transport/offer.rs:92-130 | Each item before the first `Error` or `Done` gives one event. `Size(s)` gives progress 0 of `s`, and `CopyProgress(o)` gives progress `o` of the most recent size. `Done` yields the name, the tag and the most recent size. `Error` fails the file, and so does a stream that ends first. |
| `Offer.Collect` | src/transport/offer.rs:134-137 | Collecting succeeds if and only if every file succeeded, and then gives all values in order. Otherwise it gives the first error. |
| `Offer.SortByName` | src/transport/offer.rs:139 | The in-place sort leaves the array ordered by name and a permutation of what it held. |
| `Offer.Assemble` | src/transport/offer.rs:137-147 | Assembly fails if and only if some file failed, and then reports the first failure. Otherwise the collection is sorted by name and is a permutation of the files' `(name, hash)` pairs, and the size is the sum of the file sizes. |
| `Offer.TotalSize` | src/transport/offer.rs:141 | Defines the size `import` reports: the sum of the file sizes. |
| `Offer.Pairs` | src/transport/offer.rs:144-147 | Defines the collection's entries: each file's name with its tag's hash, in the files' order. |
| `Offer.TotalSizePermutation` | src/transport/offer.rs:141 | The summed size does not depend on the order of the files. |
| `Offer.PairsPermutation` | src/transport/offer.rs:144-147 | Reordering the files only reorders the collection pairs. |
| `Offer.SortedCollectionUnique` | src/transport/offer.rs:139 | Two sorted collections with the same entries, where each name stands for one hash, are equal. |
| `Offer.CompletionOrderIrrelevant` | src/transport/offer.rs:133-147 | Any two completion orders of the same per-file results give the same sorted collection and the same total size, provided each name stands for one hash. |
| `Offer.ImportedNamesDetermineHashes` | src/transport/offer.rs:76-147 | When data sources of one name have one path, each name in the collection stands for one hash. |
| `Offer.ImportNamesDetermineHashes` | src/transport/offer.rs:45-147 | For the files `import` selects from a walk of paths built from components, each name in the collection stands for one hash, so `CompletionOrderIrrelevant` applies to them. |
| `Offer.SingleFile` | src/transport/offer.rs:40-41 | When the input is a single file, ending in the normal segment `s`, whose walk is that one file, the selection is that file alone, named `s` after its parent is stripped. |
| `Offer.SingleFileCollection` | src/transport/offer.rs:40-41 | When every file of such an input imports, any arrangement of the files' pairs has a single entry, named like the file. |
| `Offer.Import` | src/transport/offer.rs:40-153 | A failure to canonicalize, a missing path, a missing parent or a selection error ends the import before any file is imported. Otherwise every file's events are those of its run. The first failed file fails the import, and so does a failed store. On success the result holds a collection that is sorted and a permutation of the files' pairs, the total size, and the tag the store returned for that collection. When the input is a single file, that collection has one entry, named like the file. |
| `Offer.Send` | src/transport/offer.rs:24-36 | `send` always fails. Before any file is imported, a selection error is its error and nothing is reported. Otherwise each file's events are those of its run, and the first failed file is its error. When all files succeed, it fails either with the store's error for a sorted permutation of the files' pairs, or, after reporting the tag, the total size and a sorted collection that is a permutation of the files' pairs and that the store gave that tag, with "Send Fail". |
| `Fetch.Announcement` | src/transport/fetch.rs:16-19 | Defines the two messages sent before the download: the ticket's node id, then its hash. |
| `Fetch.Receive` | src/transport/fetch.rs:11-33 | An empty ticket fails with nothing emitted, before any parse, and so does a ticket that does not parse. Otherwise it returns Ok after the node-id and hash messages followed by `("Downloading", k, 100)` for k = 1 to 100 in order. |
| `Fetch.ReceiveEventsShape` | src/transport/fetch.rs:16-31 | On success both messages precede every progress event, and all progress events are on the download track. The current value rises strictly, never exceeds the total of 100, and ends equal to it. No `Finished` event is sent. |

## Left out

- File system and store internals: `canonicalize`, `exists`, `WalkDir`, `add_path_with_opts`, `Collection::store` and BLAKE3 hashing are calls into other libraries. Their answers are inputs to the model.
- Components are taken as `Path::components` yields them. Splitting an OS path into components is not modelled. A segment that is not UTF-8 is recorded as `Normal(None)` without its bytes, so `StripPrefix` treats any two such segments as equal, where Rust's `strip_prefix` compares the bytes. `import` only strips the root from paths the walk found below it, so this does not change its result.
- `TempTag` drop and garbage-collection semantics, and the dropping of the per-file tags.
- Parallelism: `buffered_unordered(num_cpus)` only changes the order in which files complete. `Import` passes the results in data-source order. `Offer.CompletionOrderIrrelevant` shows that a successful result does not depend on that order, provided each name stands for one hash (`Offer.NameDeterminesHash`). `Offer.ImportNamesDetermineHashes` shows that this holds for the files `import` selects whenever the walk hands out paths built from components.
- Offer.Import, Offer.Send: each reports the first failed file in data-source order. The source reports the first one in completion order, which can be a different failed file.
- Offer.SortByName: does not state that the library sort is stable. When each name stands for one hash, `Offer.SortedCollectionUnique` shows that order among equal names cannot matter.
- Sizes and offsets are unbounded naturals. The source's `u64` values, their `as usize` casts (lossless on 64-bit targets) and a `u64` overflow in the size sum (only beyond 2^64 bytes) are not modelled.
- Channel behaviour: every `MessageOut` send can fail when the interface's receiver is closed. The model assumes each send succeeds.
- `tracing` logging (`info!`) and the 20 ms `time::interval` ticker in `receive`. Neither affects the events or the result.
- `BlobTicket::from_str` is a parameter of `Receive`. The `{:?}` renderings of node ids, hashes, tags, sizes and collections are recorded as values, not as text.
- src/app.rs, src/main.rs, src/worker.rs, src/sendme_mock.rs and src/transport/mod.rs are not part of this model. They hold user interface, runtime and thread startup, the command loop, a mock and re-exports.
