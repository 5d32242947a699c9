/** Paths as sequences of components, and the conversion of an already
    canonicalized path into the `/`-separated name a collection stores
    (`canonicalized_path_to_string` in src/transport/offer.rs). */
module Paths {
  import opened Wrappers

  /** One item of `Path::components`. `Prefix(raw)` is a Windows prefix such
      as `C:` with its text; `Normal(None)` is a segment that is not valid
      UTF-8 (`OsStr::to_str` gives `None`). */
  datatype Component = RootDir | CurDir | ParentDir | Prefix(raw: string) | Normal(name: Option<string>)

  type Path = seq<Component>

  /** The converter's errors: "invalid character in path", and "invalid path
      component {:?}", which shows the segment string for a normal segment
      holding a separator and the component itself otherwise. */
  datatype PathError = InvalidCharacter | InvalidSegment(segment: string) | InvalidComponent(component: Component)

  predicate HasSeparator(s: string) {
    '/' in s || '\\' in s
  }

  /** The components `Path::components` can yield: a prefix only first, a root
      only first or right after a prefix, `.` only first, and normal segments
      that are neither empty nor `.` nor `..`. */
  ghost predicate FromComponents(path: Path) {
    forall i :: 0 <= i < |path| ==>
      match path[i]
      case Prefix(_) => i == 0
      case RootDir => i == 0 || (i == 1 && path[0].Prefix?)
      case CurDir => i == 0
      case ParentDir => true
      case Normal(None) => true
      case Normal(Some(s)) => s != "" && s != "." && s != ".."
  }

  /** What the closure handed to `filter_map` makes of one component: a
      segment to keep, a `/` pushed onto the output, or an error. */
  datatype Step = Segment(s: string) | Slash | Reject(e: PathError)

  function Classify(c: Component, mustBeRelative: bool): Step {
    match c
    case Normal(None) => Reject(InvalidCharacter)
    case Normal(Some(s)) => if HasSeparator(s) then Reject(InvalidSegment(s)) else Segment(s)
    case RootDir => if mustBeRelative then Reject(InvalidComponent(c)) else Slash
    case _ => Reject(InvalidComponent(c))
  }

  /** The components the converter lets through. */
  predicate Admissible(c: Component, mustBeRelative: bool) {
    !Classify(c, mustBeRelative).Reject?
  }

  /** The error of the first rejected component: collecting into a `Result`
      stops there. */
  function FirstError(path: Path, mustBeRelative: bool): Option<PathError>
    decreases |path|
  {
    if path == [] then None
    else
      match FirstError(path[..|path| - 1], mustBeRelative)
      case Some(e) => Some(e)
      case None =>
        match Classify(path[|path| - 1], mustBeRelative)
        case Reject(e) => Some(e)
        case _ => None
  }

  /** One `/` for every root component. */
  function Slashes(path: Path): string
    decreases |path|
  {
    if path == [] then ""
    else Slashes(path[..|path| - 1]) + (if path[|path| - 1] == RootDir then "/" else "")
  }

  /** The valid UTF-8 names of the normal components, in order. */
  function Segments(path: Path): seq<string>
    decreases |path|
  {
    if path == [] then []
    else
      Segments(path[..|path| - 1]) +
      match path[|path| - 1]
      case Normal(Some(s)) => [s]
      case _ => []
  }

  /** `[T]::join`: the parts with `sep` between consecutive ones. */
  function Join(parts: seq<string>, sep: char): string
    decreases |parts|
  {
    if |parts| == 0 then ""
    else if |parts| == 1 then parts[0]
    else parts[0] + [sep] + Join(parts[1..], sep)
  }

  /** `str::split` on one character: the maximal runs between separators;
      the empty string splits into one empty part. */
  function Split(s: string, sep: char): (r: seq<string>)
    ensures |r| > 0
    decreases |s|
  {
    if |s| == 0 then [""]
    else
      var rest := Split(s[1..], sep);
      if s[0] == sep then [""] + rest else [[s[0]] + rest[0]] + rest[1..]
  }

  /** What `canonicalized_path_to_string` returns. */
  function PathToString(path: Path, mustBeRelative: bool): Result<string, PathError> {
    match FirstError(path, mustBeRelative)
    case Some(e) => Err(e)
    case None => Ok(Slashes(path) + Join(Segments(path), '/'))
  }

  /** The converter as the source writes it: one pass over the components,
      pushing `/` for a root and keeping each accepted segment, then the kept
      segments joined by `/` after whatever was pushed. */
  method CanonicalizedPathToString(path: Path, mustBeRelative: bool) returns (r: Result<string, PathError>)
    ensures r == PathToString(path, mustBeRelative)
  {
    var pathStr: string := "";
    var parts: seq<string> := [];
    var i := 0;
    while i < |path|
      invariant 0 <= i <= |path|
      invariant FirstError(path[..i], mustBeRelative) == None
      invariant pathStr == Slashes(path[..i])
      invariant parts == Segments(path[..i])
    {
      assert path[..i + 1][..i] == path[..i];
      match Classify(path[i], mustBeRelative) {
        case Reject(e) =>
          FirstErrorPrefix(path, i + 1, mustBeRelative);
          return Err(e);
        case Slash =>
          pathStr := pathStr + "/";
        case Segment(s) =>
          parts := parts + [s];
      }
      i := i + 1;
    }
    assert path[..i] == path;
    r := Ok(pathStr + Join(parts, '/'));
  }

  lemma {:induction false} FirstErrorPrefix(path: Path, n: nat, mustBeRelative: bool)
    requires n <= |path|
    requires FirstError(path[..n], mustBeRelative).Some?
    ensures FirstError(path, mustBeRelative) == FirstError(path[..n], mustBeRelative)
    decreases |path| - n
  {
    if n < |path| {
      assert path[..n] == path[..|path| - 1][..n];
      FirstErrorPrefix(path[..|path| - 1], n, mustBeRelative);
    } else {
      assert path[..n] == path;
    }
  }

  /** No error exactly when every component is admissible. */
  lemma {:induction false} FirstErrorNoneIff(path: Path, mustBeRelative: bool)
    ensures FirstError(path, mustBeRelative).None? <==>
            forall i :: 0 <= i < |path| ==> Admissible(path[i], mustBeRelative)
    decreases |path|
  {
    if path != [] {
      var init := path[..|path| - 1];
      FirstErrorNoneIff(init, mustBeRelative);
      assert forall i :: 0 <= i < |init| ==> init[i] == path[i];
    }
  }

  /** The conversion succeeds if and only if every component is a valid UTF-8
      normal segment without `/` or `\`, or a root while roots are allowed. */
  lemma PathToStringOkIff(path: Path, mustBeRelative: bool)
    ensures PathToString(path, mustBeRelative).Ok? <==>
            forall i :: 0 <= i < |path| ==> Admissible(path[i], mustBeRelative)
  {
    FirstErrorNoneIff(path, mustBeRelative);
  }

  /** The error reported is the one of the first component the converter
      rejects. */
  lemma {:induction false} FirstRejectedDecides(path: Path, mustBeRelative: bool, i: nat)
    requires i < |path|
    requires forall j :: 0 <= j < i ==> Admissible(path[j], mustBeRelative)
    requires !Admissible(path[i], mustBeRelative)
    ensures PathToString(path, mustBeRelative) ==
            Err(match path[i]
                case Normal(None) => InvalidCharacter
                case Normal(Some(s)) => InvalidSegment(s)
                case _ => InvalidComponent(path[i]))
  {
    var pre := path[..i + 1];
    assert pre[..i] == path[..i];
    FirstErrorNoneIff(path[..i], mustBeRelative);
    FirstErrorPrefix(path, i + 1, mustBeRelative);
  }

  /** A normal segment that is not valid UTF-8, or that holds `/` or `\`,
      makes the conversion fail. */
  lemma UnsafeSegmentFails(path: Path, mustBeRelative: bool, i: nat)
    requires i < |path| && path[i].Normal?
    requires path[i].name.None? || HasSeparator(path[i].name.value)
    ensures PathToString(path, mustBeRelative).Err?
  {
    PathToStringOkIff(path, mustBeRelative);
  }

  /** `.`, `..` and prefix components make the conversion fail, whatever
      `must_be_relative` is. */
  lemma DotOrPrefixFails(path: Path, mustBeRelative: bool, i: nat)
    requires i < |path| && (path[i] == CurDir || path[i] == ParentDir || path[i].Prefix?)
    ensures PathToString(path, mustBeRelative).Err?
  {
    PathToStringOkIff(path, mustBeRelative);
  }

  /** A root component fails a conversion that must be relative. */
  lemma RootDirFailsWhenRelative(path: Path, i: nat)
    requires i < |path| && path[i] == RootDir
    ensures PathToString(path, true).Err?
  {
    PathToStringOkIff(path, true);
  }

  lemma {:induction false} RootFirstParts(p: Path)
    ensures FirstError([RootDir] + p, false) == FirstError(p, false)
    ensures Slashes([RootDir] + p) == "/" + Slashes(p)
    ensures Segments([RootDir] + p) == Segments(p)
    decreases |p|
  {
    var q := [RootDir] + p;
    if p == [] {
      assert q[..0] == [];
    } else {
      assert q[..|q| - 1] == [RootDir] + p[..|p| - 1];
      RootFirstParts(p[..|p| - 1]);
    }
  }

  /** When roots are allowed, a root contributes one leading `/` and no
      segment, and changes nothing else. */
  lemma RootDirAddsLeadingSlash(p: Path)
    ensures PathToString([RootDir] + p, false) ==
            match PathToString(p, false)
            case Ok(s) => Ok("/" + s)
            case Err(e) => Err(e)
  {
    RootFirstParts(p);
    match FirstError(p, false)
    case Some(e) =>
    case None =>
      assert "/" + Slashes(p) + Join(Segments(p), '/') == "/" + (Slashes(p) + Join(Segments(p), '/'));
  }

  lemma {:induction false} SplitWithoutSeparator(x: string, sep: char)
    requires sep !in x
    ensures Split(x, sep) == [x]
    decreases |x|
  {
    if |x| > 0 {
      SplitWithoutSeparator(x[1..], sep);
      assert [x[0]] + x[1..] == x;
    }
  }

  lemma {:induction false} SplitAtSeparator(x: string, y: string, sep: char)
    requires sep !in x
    ensures Split(x + [sep] + y, sep) == [x] + Split(y, sep)
    decreases |x|
  {
    var s := x + [sep] + y;
    if |x| == 0 {
      assert s[1..] == y;
    } else {
      assert s[1..] == x[1..] + [sep] + y;
      SplitAtSeparator(x[1..], y, sep);
      assert [x[0]] + x[1..] == x;
    }
  }

  /** Splitting undoes joining when there is at least one part and no part
      holds the separator. */
  lemma {:induction false} SplitJoin(parts: seq<string>, sep: char)
    requires |parts| > 0
    requires forall k :: 0 <= k < |parts| ==> sep !in parts[k]
    ensures Split(Join(parts, sep), sep) == parts
    decreases |parts|
  {
    if |parts| == 1 {
      SplitWithoutSeparator(parts[0], sep);
    } else {
      SplitJoin(parts[1..], sep);
      SplitAtSeparator(parts[0], Join(parts[1..], sep), sep);
    }
  }

  /** Accepted paths without a root keep every component as a segment and
      produce no leading `/`. */
  lemma {:induction false} RootlessParts(path: Path, mustBeRelative: bool)
    requires forall i :: 0 <= i < |path| ==> Admissible(path[i], mustBeRelative) && path[i] != RootDir
    ensures Slashes(path) == ""
    ensures |Segments(path)| == |path|
    ensures forall i :: 0 <= i < |path| ==> path[i] == Normal(Some(Segments(path)[i]))
    decreases |path|
  {
    if path != [] {
      var init := path[..|path| - 1];
      assert forall i :: 0 <= i < |init| ==> init[i] == path[i];
      RootlessParts(init, mustBeRelative);
    }
  }

  /** Round trip: splitting the name of a path without a root on `/` gives
      back the components' names, one part per component, in order. */
  lemma RoundTrip(path: Path, mustBeRelative: bool, s: string)
    requires PathToString(path, mustBeRelative) == Ok(s)
    requires |path| > 0
    requires forall i :: 0 <= i < |path| ==> path[i] != RootDir
    ensures |Split(s, '/')| == |path|
    ensures forall i :: 0 <= i < |path| ==> path[i] == Normal(Some(Split(s, '/')[i]))
  {
    PathToStringOkIff(path, mustBeRelative);
    RootlessParts(path, mustBeRelative);
    var parts := Segments(path);
    assert s == "" + Join(parts, '/') == Join(parts, '/');
    assert forall k :: 0 <= k < |parts| ==> Admissible(Normal(Some(parts[k])), mustBeRelative);
    SplitJoin(parts, '/');
  }

  /** Round trip for an absolute path: the name is `/` followed by the
      names of the remaining components joined by `/`. */
  lemma AbsoluteRoundTrip(path: Path, s: string)
    requires PathToString(path, false) == Ok(s)
    requires FromComponents(path) && |path| > 1 && path[0] == RootDir
    ensures |s| > 0 && s[0] == '/'
    ensures |Split(s[1..], '/')| == |path| - 1
    ensures forall i :: 1 <= i < |path| ==> path[i] == Normal(Some(Split(s[1..], '/')[i - 1]))
  {
    var rest := path[1..];
    assert path == [RootDir] + rest;
    RootDirAddsLeadingSlash(rest);
    var t := PathToString(rest, false).value;
    assert s == "/" + t && s[1..] == t;
    assert forall i :: 0 <= i < |rest| ==> rest[i] == path[i + 1];
    RoundTrip(rest, false, t);
  }

  /** The collection invariant: every `/`-separated part of a relative name
      built from real path components is a non-empty segment other than `.`
      and `..` and holds no separator. */
  lemma RelativeNameIsSafe(path: Path, s: string)
    requires FromComponents(path) && |path| > 0
    requires PathToString(path, true) == Ok(s)
    ensures forall k :: 0 <= k < |Split(s, '/')| ==>
              var part := Split(s, '/')[k];
              part != "" && part != "." && part != ".." && !HasSeparator(part)
  {
    PathToStringOkIff(path, true);
    RoundTrip(path, true, s);
  }

  /** What is left of a path built from components once a prefix is cut
      off is built from components too. */
  lemma SuffixFromComponents(path: Path, k: nat)
    requires FromComponents(path) && k <= |path|
    ensures FromComponents(path[k..])
  {
    assert forall i :: 0 <= i < |path| - k ==> path[k..][i] == path[k + i];
  }

  /** The empty path converts to the empty name. */
  lemma EmptyPathName()
    ensures PathToString([], true) == Ok("")
  {
    var path: Path := [];
    assert FirstError(path, true) == None;
    assert Slashes(path) == "" && Segments(path) == [] && Join([], '/') == "";
    assert Slashes(path) + Join(Segments(path), '/') == "";
  }

  /** A single normal segment without a separator converts to itself. */
  lemma SingleSegmentName(s: string, mustBeRelative: bool)
    requires !HasSeparator(s)
    ensures PathToString([Normal(Some(s))], mustBeRelative) == Ok(s)
  {
    var path: Path := [Normal(Some(s))];
    assert path[..0] == [];
    assert FirstError(path[..0], mustBeRelative) == None;
    assert FirstError(path, mustBeRelative) == None;
    assert Slashes(path[..0]) == "" && Slashes(path) == "";
    assert Segments(path[..0]) == [] && Segments(path) == [s];
    assert Join([s], '/') == s;
    assert Slashes(path) + Join(Segments(path), '/') == s;
  }

  /** A relative name stands for one path: two relative paths built from
      components that convert to the same string are the same path. */
  lemma SameNameSamePath(a: Path, b: Path, s: string)
    requires FromComponents(a) && FromComponents(b)
    requires PathToString(a, true) == Ok(s) && PathToString(b, true) == Ok(s)
    ensures a == b
  {
    PathToStringOkIff(a, true);
    PathToStringOkIff(b, true);
    if |a| > 0 && |b| > 0 {
      RoundTrip(a, true, s);
      RoundTrip(b, true, s);
      assert forall i :: 0 <= i < |a| ==> a[i] == b[i];
    } else if |a| > 0 {
      EmptyPathName();
      RelativeNameIsSafe(a, s);
      assert false;
    } else if |b| > 0 {
      EmptyPathName();
      RelativeNameIsSafe(b, s);
      assert false;
    }
  }

  /** `Path::strip_prefix`: the rest of `path` when `base` is a leading run of
      its components. */
  function StripPrefix(path: Path, base: Path): (r: Option<Path>)
    ensures r.Some? <==> |base| <= |path| && path[..|base|] == base
    ensures r.Some? ==> base + r.value == path
  {
    if |base| <= |path| && path[..|base|] == base then Some(path[|base|..]) else None
  }

  /** `Path::parent`: the path without its last component, when that is a
      normal segment, `.` or `..`. */
  function Parent(path: Path): (r: Option<Path>)
    ensures r.Some? <==> |path| > 0 && path[|path| - 1] != RootDir && !path[|path| - 1].Prefix?
    ensures r.Some? ==> r.value + [path[|path| - 1]] == path
  {
    if |path| > 0 && path[|path| - 1] != RootDir && !path[|path| - 1].Prefix?
    then Some(path[..|path| - 1])
    else None
  }
}
