/** The send side of the transfer layer (src/transport/offer.rs): selecting
    the files of a walk, importing each file while translating the store's
    progress items into events, and assembling the sorted collection. The
    file system and the store are inputs: what they answer is given, not
    computed. */
module Offer {
  import opened Wrappers
  import opened Blobs
  import opened Comms
  import opened Paths
  import Names

  datatype FileKind = File | Dir | Symlink

  /** One item of the directory walk: an error, or an entry with the type it
      has without following links, and its full path. */
  datatype WalkEntry = WalkError(cause: string) | Entry(kind: FileKind, path: Path)

  /** A file to import: the name it gets in the collection, and where it is. */
  datatype DataSource = DataSource(name: string, path: Path)

  /** What the store reports while it imports one file. */
  datatype AddProgressItem =
    | Size(size: nat)
    | CopyProgress(offset: nat)
    | CopyDone
    | OutboardProgress(offset: nat)
    | Error(cause: string)
    | Done(tag: TempTag)

  /** One imported file: its name, the tag protecting its blob, its size. */
  datatype FileImport = FileImport(name: string, tag: TempTag, size: nat)

  datatype ImportError =
    | CanonicalizeFailed(cause: string)
    | DoesNotExist(path: Path)
    | NoParent
    | WalkFailed(cause: string)
    | StripPrefixFailed
    | InvalidName(error: PathError)
    | StreamEnded
    | ImportFailed(name: string, cause: string)
    | StoreFailed(cause: string)
    | SendFail

  /** What the file system answers: `canonicalize`, `exists`, and the entries
      of `WalkDir` over a path in walk order. */
  datatype FileSystem = FileSystem(
    canonicalize: Path -> Result<Path, string>,
    pathExists: Path -> bool,
    walk: Path -> seq<WalkEntry>)

  /** What the store answers: the progress items of `add_path_with_opts` for
      a file, and the outcome of `Collection::store`. */
  datatype Store = Store(
    addPath: Path -> seq<AddProgressItem>,
    storeCollection: Collection -> Result<TempTag, string>)

  /** What `import` returns: the collection's tag, the total size and the
      collection. */
  datatype Imported = Imported(tag: TempTag, size: nat, collection: Collection)

  // ---------------------------------------------------------------------
  // `import`: selecting the files of the walk as `(name, path)` data sources

  /** The closure mapped over the walk: a walk error fails, anything but a
      regular file is skipped, a file gets its name relative to `root`. */
  function SourceOf(entry: WalkEntry, root: Path): Result<Option<DataSource>, ImportError> {
    match entry
    case WalkError(cause) => Err(WalkFailed(cause))
    case Entry(kind, path) =>
      if kind != File then Ok(None)
      else
        match StripPrefix(path, root)
        case None => Err(StripPrefixFailed)
        case Some(relative) =>
          match PathToString(relative, true)
          case Err(e) => Err(InvalidName(e))
          case Ok(name) => Ok(Some(DataSource(name, path)))
  }

  /** `filter_map(Result::transpose)` then `collect` into a `Result`: the
      kept files in walk order, or the first error. */
  function DataSources(entries: seq<WalkEntry>, root: Path): (r: Result<seq<DataSource>, ImportError>)
    ensures r.Err? ==> r.error.WalkFailed? || r.error.StripPrefixFailed? || r.error.InvalidName?
    decreases |entries|
  {
    if entries == [] then Ok([])
    else
      match SourceOf(entries[0], root)
      case Err(e) => Err(e)
      case Ok(kept) =>
        match DataSources(entries[1..], root)
        case Err(e) => Err(e)
        case Ok(rest) => Ok((if kept.Some? then [kept.value] else []) + rest)
  }

  /** The regular-file entries of a walk, in walk order. */
  function Files(entries: seq<WalkEntry>): (r: seq<WalkEntry>)
    ensures forall k :: 0 <= k < |r| ==> r[k].Entry? && r[k].kind == File
    ensures forall e :: e in entries && e.Entry? && e.kind == File ==> e in r
    ensures forall e :: e in r ==> e in entries
    decreases |entries|
  {
    if entries == [] then []
    else
      (if entries[0].Entry? && entries[0].kind == File then [entries[0]] else []) + Files(entries[1..])
  }

  /** An entry the selection lets through: not a walk error, and when it is
      a regular file, below `root` with a valid relative name. */
  predicate Acceptable(entry: WalkEntry, root: Path) {
    entry.Entry? &&
    (entry.kind == File ==>
       StripPrefix(entry.path, root).Some? &&
       PathToString(StripPrefix(entry.path, root).value, true).Ok?)
  }

  /** Any walk, prefix or name error aborts the whole selection, and
      nothing else does. */
  lemma {:induction false} DataSourcesOkIff(entries: seq<WalkEntry>, root: Path)
    ensures DataSources(entries, root).Ok? <==>
            forall i :: 0 <= i < |entries| ==> Acceptable(entries[i], root)
    decreases |entries|
  {
    if entries != [] {
      DataSourcesOkIff(entries[1..], root);
      assert forall i :: 1 <= i < |entries| ==> entries[i] == entries[1..][i - 1];
    }
  }

  /** The error reported is the one of the first entry the selection does
      not let through, in walk order: `collect` stops there. */
  lemma {:induction false} DataSourcesFirstError(entries: seq<WalkEntry>, root: Path, i: nat)
    requires i < |entries|
    requires forall j :: 0 <= j < i ==> Acceptable(entries[j], root)
    requires !Acceptable(entries[i], root)
    ensures SourceOf(entries[i], root).Err?
    ensures DataSources(entries, root) == Err(SourceOf(entries[i], root).error)
    decreases i
  {
    if i > 0 {
      assert forall j :: 0 <= j < i - 1 ==> entries[1..][j] == entries[j + 1];
      DataSourcesFirstError(entries[1..], root, i - 1);
      assert Acceptable(entries[0], root);
    }
  }

  /** On success, the data sources are exactly the regular files of the walk,
      in walk order, each named by its path relative to `root`; directories
      and symbolic links give nothing. */
  lemma {:induction false} DataSourcesAreTheFiles(entries: seq<WalkEntry>, root: Path, ds: seq<DataSource>)
    requires DataSources(entries, root) == Ok(ds)
    ensures |ds| == |Files(entries)|
    ensures forall k :: 0 <= k < |ds| ==>
              ds[k].path == Files(entries)[k].path &&
              StripPrefix(ds[k].path, root).Some? &&
              PathToString(StripPrefix(ds[k].path, root).value, true) == Ok(ds[k].name)
    decreases |entries|
  {
    if entries != [] {
      var rest := DataSources(entries[1..], root).value;
      DataSourcesAreTheFiles(entries[1..], root, rest);
    }
  }

  /** When the walk hands out paths built from components, two data sources
      with the same name are the same file. */
  lemma DataSourceNamesDeterminePaths(entries: seq<WalkEntry>, root: Path, ds: seq<DataSource>)
    requires DataSources(entries, root) == Ok(ds)
    requires forall e :: e in entries && e.Entry? ==> FromComponents(e.path)
    ensures forall k, l :: 0 <= k < |ds| && 0 <= l < |ds| && ds[k].name == ds[l].name ==>
              ds[k].path == ds[l].path
  {
    DataSourcesAreTheFiles(entries, root, ds);
    forall k, l | 0 <= k < |ds| && 0 <= l < |ds| && ds[k].name == ds[l].name
      ensures ds[k].path == ds[l].path
    {
      var files := Files(entries);
      assert files[k] in files && files[l] in files;
      SuffixFromComponents(ds[k].path, |root|);
      SuffixFromComponents(ds[l].path, |root|);
      SameNameSamePath(StripPrefix(ds[k].path, root).value, StripPrefix(ds[l].path, root).value, ds[k].name);
    }
  }

  // ---------------------------------------------------------------------
  // `import`: the future that imports one file and reports its progress

  predicate Terminal(item: AddProgressItem) {
    item.Error? || item.Done?
  }

  /** The event a non-terminal item is announced by, given the size recorded
      before it. */
  function ItemEvent(name: string, item: AddProgressItem, itemSize: nat): Event
    requires !Terminal(item)
  {
    match item
    case Size(size) => Progress(name, 0, size)
    case CopyProgress(offset) => Progress(name, offset, itemSize)
    case CopyDone => Complete(name)
    case OutboardProgress(_) => ProgressFinish(name)
  }

  /** The size recorded after an item: a `Size` item replaces it. */
  function SizeAfter(item: AddProgressItem, itemSize: nat): nat {
    match item
    case Size(size) => size
    case _ => itemSize
  }

  /** The events of one file's import and how it ends. */
  datatype FileRun = FileRun(events: seq<Event>, result: Result<FileImport, ImportError>)

  /** The per-file loop on the items still to come, with the size recorded
      so far. */
  function RunFile(name: string, items: seq<AddProgressItem>, itemSize: nat): (run: FileRun)
    ensures run.result.Ok? ==> run.result.value.name == name
    ensures run.result.Err? ==>
              run.result.error == StreamEnded ||
              (run.result.error.ImportFailed? && run.result.error.name == name)
    decreases |items|
  {
    if items == [] then FileRun([], Err(StreamEnded))
    else
      match items[0]
      case Error(cause) => FileRun([], Err(ImportFailed(name, cause)))
      case Done(tag) => FileRun([], Ok(FileImport(name, tag, itemSize)))
      case _ =>
        var rest := RunFile(name, items[1..], SizeAfter(items[0], itemSize));
        FileRun([ItemEvent(name, items[0], itemSize)] + rest.events, rest.result)
  }

  /** The loop of the import future, pulling items one at a time. */
  method ImportFile(name: string, items: seq<AddProgressItem>) returns (events: seq<Event>, r: Result<FileImport, ImportError>)
    ensures FileRun(events, r) == RunFile(name, items, 0)
  {
    events := [];
    var itemSize: nat := 0;
    var i := 0;
    while true
      invariant 0 <= i <= |items|
      invariant RunFile(name, items, 0) ==
                FileRun(events + RunFile(name, items[i..], itemSize).events,
                        RunFile(name, items[i..], itemSize).result)
      decreases |items| - i
    {
      if i == |items| {
        return events, Err(StreamEnded);
      }
      var item := items[i];
      assert items[i..][0] == item && items[i..][1..] == items[i + 1..];
      ghost var rest := RunFile(name, items[i + 1..], SizeAfter(item, itemSize));
      assert !Terminal(item) ==>
        RunFile(name, items[i..], itemSize) ==
        FileRun([ItemEvent(name, item, itemSize)] + rest.events, rest.result);
      assert forall e: seq<Event>, x: Event :: e + ([x] + rest.events) == (e + [x]) + rest.events;
      i := i + 1;
      match item {
        case Size(size) =>
          itemSize := size;
          events := events + [Progress(name, 0, itemSize)];
        case CopyProgress(offset) =>
          events := events + [Progress(name, offset, itemSize)];
        case CopyDone =>
          events := events + [Complete(name)];
        case OutboardProgress(_) =>
          events := events + [ProgressFinish(name)];
        case Error(cause) =>
          return events, Err(ImportFailed(name, cause));
        case Done(tag) =>
          return events, Ok(FileImport(name, tag, itemSize));
      }
    }
  }

  /** The size of the most recent `Size` item, or `initial` when there is none. */
  function LatestSize(items: seq<AddProgressItem>, initial: nat): nat
    decreases |items|
  {
    if items == [] then initial
    else if items[|items| - 1].Size? then items[|items| - 1].size
    else LatestSize(items[..|items| - 1], initial)
  }

  /** The index of the first `Error` or `Done`, or the length when there is none. */
  function FirstTerminal(items: seq<AddProgressItem>): (k: nat)
    ensures k <= |items|
    ensures forall j :: 0 <= j < k ==> !Terminal(items[j])
    ensures k < |items| ==> Terminal(items[k])
    decreases |items|
  {
    if items == [] || Terminal(items[0]) then 0 else 1 + FirstTerminal(items[1..])
  }

  lemma {:induction false} LatestSizeCons(x: AddProgressItem, p: seq<AddProgressItem>, initial: nat)
    ensures LatestSize([x] + p, initial) == LatestSize(p, SizeAfter(x, initial))
    decreases |p|
  {
    var q := [x] + p;
    if p == [] {
      assert q[..0] == [];
    } else {
      assert q[..|q| - 1] == [x] + p[..|p| - 1];
      LatestSizeCons(x, p[..|p| - 1], initial);
    }
  }

  /** The per-file loop, item by item: every item before the first `Error`
      or `Done` is announced by one event, `Size(s)` as progress `0` of `s`
      and `CopyProgress(o)` as progress `o` of the most recent size; `Done`
      ends with the name, the tag and the most recent size, `Error` fails the
      file, and a stream that ends first is an error too. */
  lemma {:induction false} RunFileItemByItem(name: string, items: seq<AddProgressItem>, itemSize: nat)
    ensures var run := RunFile(name, items, itemSize);
            var k := FirstTerminal(items);
            |run.events| == k &&
            (forall j :: 0 <= j < k ==>
               run.events[j] == ItemEvent(name, items[j], LatestSize(items[..j], itemSize))) &&
            run.result ==
              if k == |items| then Err(StreamEnded)
              else if items[k].Error? then Err(ImportFailed(name, items[k].cause))
              else Ok(FileImport(name, items[k].tag, LatestSize(items[..k], itemSize)))
    decreases |items|
  {
    if items != [] && !Terminal(items[0]) {
      var x := items[0];
      var next := SizeAfter(x, itemSize);
      var tail := items[1..];
      RunFileItemByItem(name, tail, next);
      var k := FirstTerminal(items);
      forall j | 1 <= j <= k
        ensures LatestSize(items[..j], itemSize) == LatestSize(tail[..j - 1], next)
      {
        assert items[..j] == [x] + tail[..j - 1];
        LatestSizeCons(x, tail[..j - 1], itemSize);
      }
      assert items[..0] == [];
    } else if items != [] {
      assert items[..0] == [];
    }
  }

  // ---------------------------------------------------------------------
  // `import`: collecting the results, sorting, summing and building the collection

  /** `collect` into a `Result`: all values in order, or the first error. */
  function Collect(results: seq<Result<FileImport, ImportError>>): (r: Result<seq<FileImport>, ImportError>)
    ensures r.Ok? <==> forall i :: 0 <= i < |results| ==> results[i].Ok?
    ensures r.Ok? ==> |r.value| == |results| && forall i :: 0 <= i < |results| ==> results[i] == Ok(r.value[i])
    ensures r.Err? ==> exists i :: 0 <= i < |results| && results[i] == Err(r.error) &&
                                   forall j :: 0 <= j < i ==> results[j].Ok?
    decreases |results|
  {
    if results == [] then Ok([])
    else if results[0].Err? then Err(results[0].error)
    else
      match Collect(results[1..])
      case Err(e) =>
        assert forall i :: 1 <= i < |results| ==> results[i] == results[1..][i - 1];
        Err(e)
      case Ok(rest) => Ok([results[0].value] + rest)
  }

  predicate SortedByName(s: seq<FileImport>) {
    forall k, l :: 0 <= k < l < |s| ==> Names.Le(s[k].name, s[l].name)
  }

  /** `sort_by` on the names, in place (an insertion sort: only the resulting
      order and the permutation matter). */
  method SortByName(a: array<FileImport>)
    modifies a
    ensures SortedByName(a[..])
    ensures multiset(a[..]) == multiset(old(a[..]))
  {
    var i := 0;
    while i < a.Length
      invariant 0 <= i <= a.Length
      invariant SortedByName(a[..i])
      invariant multiset(a[..]) == multiset(old(a[..]))
    {
      InsertLast(a, i);
      i := i + 1;
    }
    assert a[..i] == a[..];
  }

  /** Moves `a[i]` left past every larger name, so that `a[..i + 1]` is sorted. */
  method InsertLast(a: array<FileImport>, i: nat)
    requires i < a.Length && SortedByName(a[..i])
    modifies a
    ensures SortedByName(a[..i + 1])
    ensures multiset(a[..]) == multiset(old(a[..]))
    ensures a[i + 1..] == old(a[i + 1..])
  {
    var j := i;
    while j > 0 && !Names.Le(a[j - 1].name, a[j].name)
      invariant 0 <= j <= i
      invariant forall k, l :: 0 <= k < l <= i && k != j && l != j ==> Names.Le(a[k].name, a[l].name)
      invariant forall l :: j < l <= i ==> Names.Le(a[j].name, a[l].name)
      invariant multiset(a[..]) == multiset(old(a[..]))
      invariant a[i + 1..] == old(a[i + 1..])
    {
      Names.LeTotal(a[j - 1].name, a[j].name);
      Swap(a, j);
      j := j - 1;
    }
    if j > 0 {
      forall k | 0 <= k < j - 1
        ensures Names.Le(a[k].name, a[j].name)
      {
        Names.LeTransitive(a[k].name, a[j - 1].name, a[j].name);
      }
    }
  }

  method Swap(a: array<FileImport>, j: nat)
    requires 0 < j < a.Length
    modifies a
    ensures a[j - 1] == old(a[j]) && a[j] == old(a[j - 1])
    ensures forall k :: 0 <= k < a.Length && k != j - 1 && k != j ==> a[k] == old(a[k])
    ensures multiset(a[..]) == multiset(old(a[..]))
  {
    a[j - 1], a[j] := a[j], a[j - 1];
  }

  /** The `(name, hash)` pair a file contributes to the collection. */
  function PairOf(f: FileImport): (string, Hash) {
    (f.name, f.tag.hash)
  }

  /** The `map` and `unzip` into the collection. */
  function Pairs(s: seq<FileImport>): Collection {
    seq(|s|, k requires 0 <= k < |s| => PairOf(s[k]))
  }

  /** `sum` of the sizes. */
  function TotalSize(s: seq<FileImport>): nat
    decreases |s|
  {
    if s == [] then 0 else s[0].size + TotalSize(s[1..])
  }

  predicate CollectionSorted(c: Collection) {
    forall k, l :: 0 <= k < l < |c| ==> Names.Le(c[k].0, c[l].0)
  }

  datatype Assembly = Assembly(size: nat, collection: Collection)

  /** The end of `import`: fail if any file failed; otherwise sort by name, add up
      the sizes and pair every name with its hash. */
  method Assemble(results: seq<Result<FileImport, ImportError>>) returns (r: Result<Assembly, ImportError>)
    ensures r.Err? <==> exists i :: 0 <= i < |results| && results[i].Err?
    ensures r.Err? ==> exists i :: 0 <= i < |results| && results[i] == Err(r.error) &&
                                   forall j :: 0 <= j < i ==> results[j].Ok?
    ensures r.Ok? ==> CollectionSorted(r.value.collection)
    ensures r.Ok? ==> multiset(r.value.collection) == multiset(Pairs(Collect(results).value))
    ensures r.Ok? ==> r.value.size == TotalSize(Collect(results).value)
  {
    var collected := Collect(results);
    if collected.Err? {
      return Err(collected.error);
    }
    var files := collected.value;
    var namesAndTags := new FileImport[|files|](k requires 0 <= k < |files| => files[k]);
    assert namesAndTags[..] == files;
    SortByName(namesAndTags);
    var sorted := namesAndTags[..];
    TotalSizePermutation(sorted, files);
    PairsPermutation(sorted, files);
    r := Ok(Assembly(TotalSize(sorted), Pairs(sorted)));
  }

  lemma {:induction false} Pick<T>(s: seq<T>, t: seq<T>) returns (j: nat)
    requires |s| > 0 && multiset(s) == multiset(t)
    ensures j < |t| && t[j] == s[0]
    ensures multiset(s[1..]) == multiset(t[..j] + t[j + 1..])
  {
    assert s[0] in multiset(t);
    j :| 0 <= j < |t| && t[j] == s[0];
    assert s == [s[0]] + s[1..];
    assert multiset(s) == multiset([s[0]]) + multiset(s[1..]);
    assert t == t[..j] + [t[j]] + t[j + 1..];
    assert multiset(t) == multiset(t[..j]) + multiset([t[j]]) + multiset(t[j + 1..]);
    assert multiset(t[..j] + t[j + 1..]) == multiset(t[..j]) + multiset(t[j + 1..]);
    assert multiset(s[1..]) == multiset(s) - multiset([s[0]]);
    assert multiset(t[..j] + t[j + 1..]) == multiset(t) - multiset([t[j]]);
  }

  lemma {:induction false} TotalSizeConcat(s: seq<FileImport>, t: seq<FileImport>)
    ensures TotalSize(s + t) == TotalSize(s) + TotalSize(t)
    decreases |s|
  {
    if s == [] {
      assert s + t == t;
    } else {
      assert (s + t)[0] == s[0] && (s + t)[1..] == s[1..] + t;
      TotalSizeConcat(s[1..], t);
    }
  }

  /** The total size does not depend on the order of the files. */
  lemma {:induction false} TotalSizePermutation(s: seq<FileImport>, t: seq<FileImport>)
    requires multiset(s) == multiset(t)
    ensures TotalSize(s) == TotalSize(t)
    decreases |s|
  {
    if s == [] {
      assert |t| == |multiset(t)| == 0;
    } else {
      var j := Pick(s, t);
      TotalSizePermutation(s[1..], t[..j] + t[j + 1..]);
      TotalSizeConcat(t[..j], t[j + 1..]);
      TotalSizeConcat(t[..j], [t[j]] + t[j + 1..]);
      assert t == t[..j] + ([t[j]] + t[j + 1..]);
    }
  }

  /** Reordering the files reorders the collection pairs the same way. */
  lemma {:induction false} PairsPermutation(s: seq<FileImport>, t: seq<FileImport>)
    requires multiset(s) == multiset(t)
    ensures multiset(Pairs(s)) == multiset(Pairs(t))
    decreases |s|
  {
    if s == [] {
      assert |t| == |multiset(t)| == 0;
    } else {
      var j := Pick(s, t);
      var rest := t[..j] + t[j + 1..];
      PairsPermutation(s[1..], rest);
      assert Pairs(s) == [PairOf(s[0])] + Pairs(s[1..]);
      assert Pairs(t) == Pairs(t[..j]) + [PairOf(t[j])] + Pairs(t[j + 1..]);
      assert Pairs(rest) == Pairs(t[..j]) + Pairs(t[j + 1..]);
    }
  }

  /** Each name in the collection stands for one hash. */
  predicate NameDeterminesHash(c: Collection) {
    forall x, y :: x in c && y in c && x.0 == y.0 ==> x == y
  }

  lemma SortedHeadsAgree(a: Collection, b: Collection)
    requires |a| > 0 && |b| > 0
    requires CollectionSorted(a) && CollectionSorted(b)
    requires multiset(a) == multiset(b)
    requires NameDeterminesHash(a)
    ensures a[0] == b[0]
  {
    assert a[0] in multiset(b) && b[0] in multiset(a);
    var i :| 0 <= i < |b| && b[i] == a[0];
    var j :| 0 <= j < |a| && a[j] == b[0];
    Names.LeReflexive(a[0].0);
    Names.LeReflexive(b[0].0);
    assert Names.Le(a[0].0, a[j].0) && Names.Le(b[0].0, b[i].0);
    Names.LeAntisymmetric(a[0].0, b[0].0);
    assert a[j] in a;
  }

  lemma TailSorted(c: Collection)
    requires |c| > 0 && CollectionSorted(c)
    ensures CollectionSorted(c[1..])
  {
    forall k, l | 0 <= k < l < |c| - 1
      ensures Names.Le(c[1..][k].0, c[1..][l].0)
    {
      assert c[1..][k] == c[k + 1] && c[1..][l] == c[l + 1];
    }
  }

  lemma TailMultiset(a: Collection, b: Collection)
    requires |a| > 0 && |b| > 0 && a[0] == b[0]
    requires multiset(a) == multiset(b)
    ensures multiset(a[1..]) == multiset(b[1..])
  {
    assert a == [a[0]] + a[1..] && b == [b[0]] + b[1..];
    assert multiset(a[1..]) == multiset(a) - multiset([a[0]]);
    assert multiset(b[1..]) == multiset(b) - multiset([b[0]]);
  }

  lemma TailDeterminesHash(c: Collection)
    requires |c| > 0 && NameDeterminesHash(c)
    ensures NameDeterminesHash(c[1..])
  {
    forall x, y | x in c[1..] && y in c[1..] && x.0 == y.0
      ensures x == y
    {
      assert x in c && y in c;
    }
  }

  /** A sorted arrangement of a collection whose names each stand for one
      hash is unique. */
  lemma {:induction false} SortedCollectionUnique(a: Collection, b: Collection)
    requires CollectionSorted(a) && CollectionSorted(b)
    requires multiset(a) == multiset(b)
    requires NameDeterminesHash(a)
    ensures a == b
    decreases |a|
  {
    assert |a| == |multiset(a)| == |multiset(b)| == |b|;
    if |a| > 0 {
      SortedHeadsAgree(a, b);
      TailSorted(a);
      TailSorted(b);
      TailMultiset(a, b);
      TailDeterminesHash(a);
      SortedCollectionUnique(a[1..], b[1..]);
      assert a == [a[0]] + a[1..] && b == [b[0]] + b[1..];
    }
  }

  /** The assembled collection and size do not depend on the order in which
      the parallel imports completed: any two completion orders of the same
      per-file results, each name standing for one hash, give the same
      sorted collection and the same total. */
  lemma CompletionOrderIrrelevant(fs1: seq<FileImport>, fs2: seq<FileImport>, c1: Collection, c2: Collection)
    requires multiset(fs1) == multiset(fs2)
    requires NameDeterminesHash(Pairs(fs1))
    requires CollectionSorted(c1) && multiset(c1) == multiset(Pairs(fs1))
    requires CollectionSorted(c2) && multiset(c2) == multiset(Pairs(fs2))
    ensures c1 == c2
    ensures TotalSize(fs1) == TotalSize(fs2)
  {
    PairsPermutation(fs1, fs2);
    TotalSizePermutation(fs1, fs2);
    forall x | x in c1 ensures x in Pairs(fs1) {
      assert x in multiset(c1);
    }
    SortedCollectionUnique(c1, c2);
  }

  // ---------------------------------------------------------------------
  // The whole of `import`, and `send`

  /** The start of `import`: canonicalize, require existence, take the parent as the
      root of the names, walk and select the files. */
  function Sources(path: Path, fs: FileSystem): Result<seq<DataSource>, ImportError> {
    match fs.canonicalize(path)
    case Err(cause) => Err(CanonicalizeFailed(cause))
    case Ok(canonical) =>
      if !fs.pathExists(canonical) then Err(DoesNotExist(canonical))
      else
        match Parent(canonical)
        case None => Err(NoParent)
        case Some(root) => DataSources(fs.walk(canonical), root)
  }

  /** How each file's import goes, file by file. */
  function Runs(ds: seq<DataSource>, store: Store): seq<FileRun> {
    seq(|ds|, k requires 0 <= k < |ds| => RunFile(ds[k].name, store.addPath(ds[k].path), 0))
  }

  function ResultsOf(runs: seq<FileRun>): seq<Result<FileImport, ImportError>> {
    seq(|runs|, k requires 0 <= k < |runs| => runs[k].result)
  }

  /** Files of one name are one file, so in the collection `import` builds
      each name stands for one hash, and `CompletionOrderIrrelevant` applies. */
  lemma ImportedNamesDetermineHashes(ds: seq<DataSource>, store: Store)
    requires forall k, l :: 0 <= k < |ds| && 0 <= l < |ds| && ds[k].name == ds[l].name ==>
               ds[k].path == ds[l].path
    requires Collect(ResultsOf(Runs(ds, store))).Ok?
    ensures NameDeterminesHash(Pairs(Collect(ResultsOf(Runs(ds, store))).value))
  {
    var runs := Runs(ds, store);
    var files := Collect(ResultsOf(runs)).value;
    var pairs := Pairs(files);
    forall x, y | x in pairs && y in pairs && x.0 == y.0
      ensures x == y
    {
      var k :| 0 <= k < |pairs| && pairs[k] == x;
      var l :| 0 <= l < |pairs| && pairs[l] == y;
      assert ResultsOf(runs)[k] == Ok(files[k]) && ResultsOf(runs)[l] == Ok(files[l]);
      assert runs[k] == RunFile(ds[k].name, store.addPath(ds[k].path), 0);
      assert runs[l] == RunFile(ds[l].name, store.addPath(ds[l].path), 0);
    }
  }

  /** The same for the files `import` selects, when the walk hands out paths
      built from components. */
  lemma ImportNamesDetermineHashes(path: Path, fs: FileSystem, store: Store)
    requires fs.canonicalize(path).Ok?
    requires forall e :: e in fs.walk(fs.canonicalize(path).value) && e.Entry? ==> FromComponents(e.path)
    requires Sources(path, fs).Ok?
    requires Collect(ResultsOf(Runs(Sources(path, fs).value, store))).Ok?
    ensures NameDeterminesHash(Pairs(Collect(ResultsOf(Runs(Sources(path, fs).value, store))).value))
  {
    var canonical := fs.canonicalize(path).value;
    var root := Parent(canonical).value;
    DataSourceNamesDeterminePaths(fs.walk(canonical), root, Sources(path, fs).value);
    ImportedNamesDetermineHashes(Sources(path, fs).value, store);
  }

  /** The input is a single regular file: the canonical path ends in the
      normal segment `s`, and the walk is that one file. */
  predicate SingleFileInput(path: Path, fs: FileSystem, canonical: Path, s: string) {
    fs.canonicalize(path) == Ok(canonical) && fs.pathExists(canonical) &&
    |canonical| > 0 && canonical[|canonical| - 1] == Normal(Some(s)) && !HasSeparator(s) &&
    fs.walk(canonical) == [Entry(File, canonical)]
  }

  /** A file is selected as the one data source, named like the file. */
  lemma SingleFile(path: Path, fs: FileSystem, canonical: Path, s: string)
    requires SingleFileInput(path, fs, canonical, s)
    ensures Sources(path, fs) == Ok([DataSource(s, canonical)])
  {
    var root := Parent(canonical).value;
    assert canonical == root + [Normal(Some(s))];
    assert StripPrefix(canonical, root) == Some([Normal(Some(s))]);
    SingleSegmentName(s, true);
    var entries := fs.walk(canonical);
    assert SourceOf(entries[0], root) == Ok(Some(DataSource(s, canonical)));
    assert entries[1..] == [];
    assert DataSources(entries[1..], root) == Ok([]);
    assert [DataSource(s, canonical)] + [] == [DataSource(s, canonical)];
    assert DataSources(entries, root) == Ok([DataSource(s, canonical)]);
  }

  /** So a file gives a collection with a single entry, named like the
      file: this holds for any arrangement of the files' pairs. */
  lemma SingleFileCollection(path: Path, fs: FileSystem, store: Store, canonical: Path, s: string, c: Collection)
    requires SingleFileInput(path, fs, canonical, s)
    requires Sources(path, fs).Ok?
    requires Collect(ResultsOf(Runs(Sources(path, fs).value, store))).Ok?
    requires multiset(c) == multiset(Pairs(Collect(ResultsOf(Runs(Sources(path, fs).value, store))).value))
    ensures |c| == 1 && c[0].0 == s
  {
    SingleFile(path, fs, canonical, s);
    var ds := Sources(path, fs).value;
    var runs := Runs(ds, store);
    var files := Collect(ResultsOf(runs)).value;
    assert |files| == 1;
    assert ResultsOf(runs)[0] == Ok(files[0]);
    assert runs[0] == RunFile(s, store.addPath(canonical), 0);
    assert files[0].name == s;
    var pairs := Pairs(files);
    assert pairs == [(s, files[0].tag.hash)];
    assert |c| == |multiset(c)| == |multiset(pairs)| == 1;
    assert c[0] in multiset(pairs);
  }

  /** `import`. Every file is imported, each with its own events (the
      parallel imports interleave them); the results are taken in the order
      of the data sources, one of the orders in which they can complete. */
  method Import(path: Path, fs: FileSystem, store: Store) returns (perFile: seq<seq<Event>>, r: Result<Imported, ImportError>)
    ensures Sources(path, fs).Err? ==> perFile == [] && r == Err(Sources(path, fs).error)
    ensures Sources(path, fs).Ok? ==>
              var runs := Runs(Sources(path, fs).value, store);
              |perFile| == |runs| && forall k :: 0 <= k < |runs| ==> perFile[k] == runs[k].events
    ensures Sources(path, fs).Ok? && Collect(ResultsOf(Runs(Sources(path, fs).value, store))).Err? ==>
              r == Err(Collect(ResultsOf(Runs(Sources(path, fs).value, store))).error)
    ensures r.Ok? ==>
              Sources(path, fs).Ok? &&
              var files := Collect(ResultsOf(Runs(Sources(path, fs).value, store)));
              files.Ok? &&
              CollectionSorted(r.value.collection) &&
              multiset(r.value.collection) == multiset(Pairs(files.value)) &&
              r.value.size == TotalSize(files.value) &&
              store.storeCollection(r.value.collection) == Ok(r.value.tag)
    ensures r.Ok? ==> forall canonical, s :: SingleFileInput(path, fs, canonical, s) ==>
              |r.value.collection| == 1 && r.value.collection[0].0 == s
    ensures r.Err? ==> !r.error.SendFail?
    ensures r.Err? && Sources(path, fs).Ok? && Collect(ResultsOf(Runs(Sources(path, fs).value, store))).Ok? ==>
              var files := Collect(ResultsOf(Runs(Sources(path, fs).value, store))).value;
              r.error.StoreFailed? &&
              exists c :: CollectionSorted(c) && multiset(c) == multiset(Pairs(files)) &&
                          store.storeCollection(c) == Err(r.error.cause)
  {
    var sources := Sources(path, fs);
    if sources.Err? {
      return [], Err(sources.error);
    }
    var ds := sources.value;
    perFile := [];
    var results: seq<Result<FileImport, ImportError>> := [];
    var k := 0;
    while k < |ds|
      invariant 0 <= k <= |ds|
      invariant |perFile| == k && |results| == k
      invariant forall j :: 0 <= j < k ==>
                  FileRun(perFile[j], results[j]) == RunFile(ds[j].name, store.addPath(ds[j].path), 0)
    {
      var events, result := ImportFile(ds[k].name, store.addPath(ds[k].path));
      perFile := perFile + [events];
      results := results + [result];
      k := k + 1;
    }
    assert results == ResultsOf(Runs(ds, store));
    var assembled := Assemble(results);
    if assembled.Err? {
      return perFile, Err(assembled.error);
    }
    var collection := assembled.value.collection;
    match store.storeCollection(collection) {
      case Err(cause) =>
        r := Err(StoreFailed(cause));
      case Ok(tag) =>
        r := Ok(Imported(tag, assembled.value.size, collection));
        forall canonical, s | SingleFileInput(path, fs, canonical, s)
          ensures |collection| == 1 && collection[0].0 == s
        {
          SingleFileCollection(path, fs, store, canonical, s, collection);
        }
    }
  }

  /** `send`: import, report the tag, the size and the collection, then fail
      in every case. */
  method Send(path: Path, fs: FileSystem, store: Store)
    returns (perFile: seq<seq<Event>>, messages: seq<Event>, r: Result<(), ImportError>)
    ensures r.Err?
    ensures Sources(path, fs).Err? ==> r == Err(Sources(path, fs).error) && perFile == [] && messages == []
    ensures Sources(path, fs).Ok? ==>
              var runs := Runs(Sources(path, fs).value, store);
              |perFile| == |runs| && forall k :: 0 <= k < |runs| ==> perFile[k] == runs[k].events
    ensures Sources(path, fs).Ok? && Collect(ResultsOf(Runs(Sources(path, fs).value, store))).Err? ==>
              r == Err(Collect(ResultsOf(Runs(Sources(path, fs).value, store))).error)
    ensures Sources(path, fs).Ok? && Collect(ResultsOf(Runs(Sources(path, fs).value, store))).Ok? ==>
              var files := Collect(ResultsOf(Runs(Sources(path, fs).value, store))).value;
              (r.error == SendFail || r.error.StoreFailed?) &&
              (r.error.StoreFailed? ==>
                 exists c :: CollectionSorted(c) && multiset(c) == multiset(Pairs(files)) &&
                             store.storeCollection(c) == Err(r.error.cause))
    ensures r.error != SendFail ==> messages == []
    ensures r.error == SendFail ==>
              Sources(path, fs).Ok? &&
              var files := Collect(ResultsOf(Runs(Sources(path, fs).value, store)));
              files.Ok? &&
              exists imported: Imported ::
                CollectionSorted(imported.collection) &&
                multiset(imported.collection) == multiset(Pairs(files.value)) &&
                imported.size == TotalSize(files.value) &&
                store.storeCollection(imported.collection) == Ok(imported.tag) &&
                messages == [Correct(TagText(imported.tag)), Correct(SizeText(imported.size)),
                             Correct(CollectionText(imported.collection))]
  {
    var imported;
    perFile, imported := Import(path, fs, store);
    if imported.Err? {
      return perFile, [], Err(imported.error);
    }
    var v := imported.value;
    messages := [Correct(TagText(v.tag)), Correct(SizeText(v.size)), Correct(CollectionText(v.collection))];
    r := Err(SendFail);
  }
}
